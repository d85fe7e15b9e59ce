/**
 What a float literal means.

 The token of a run of digits carries their value as a whole number, with a sign
 if there is one.  So zeros right after the point are lost, and so is the sign
 of a zero before it; the literal means what it says exactly when nothing of
 the kind matters.
 */
module Floats {
  import opened RawInst
  import opened Ast
  import opened Parser
  import opened Rendering
  import opened RoundTrip

  predicate AreDigits(ds: seq<int>) {
    |ds| > 0 && forall i :: 0 <= i < |ds| ==> 0 <= ds[i] < 10
  }

  /** The value of digits as a whole number: what their token carries. */
  function Whole(ds: seq<int>): int {
    if |ds| == 0 then 0 else 10 * Whole(ds[..|ds| - 1]) + ds[|ds| - 1]
  }

  /** The value of digits after a point. */
  function Fraction(ds: seq<int>): real {
    if |ds| == 0 then 0.0 else (ds[0] as real + Fraction(ds[1..])) / 10.0
  }

  function Pow10(k: nat): (p: int)
    ensures p > 0
  {
    if k == 0 then 1 else 10 * Pow10(k - 1)
  }

  lemma {:induction false} WholeBounds(ds: seq<int>)
    requires forall i :: 0 <= i < |ds| ==> 0 <= ds[i] < 10
    ensures 0 <= Whole(ds) < Pow10(|ds|)
    decreases |ds|
  {
    if |ds| > 0 { WholeBounds(ds[..|ds| - 1]); }
  }

  lemma {:induction false} WholeFront(ds: seq<int>)
    requires |ds| > 0
    ensures Whole(ds) == ds[0] * Pow10(|ds| - 1) + Whole(ds[1..])
    decreases |ds|
  {
    var front, k := ds[..|ds| - 1], |ds| - 1;
    if |ds| > 1 {
      WholeFront(front);
      assert ds[1..][..k - 1] == front[1..];
      assert Pow10(k) == 10 * Pow10(k - 1);
      assert 10 * (ds[0] * Pow10(k - 1)) == ds[0] * Pow10(k);
    }
  }

  /** Digits after a point are worth as many tenths of themselves as there are digits. */
  lemma {:induction false} FractionIs(ds: seq<int>)
    ensures Fraction(ds) * Pow10(|ds|) as real == Whole(ds) as real
    decreases |ds|
  {
    if |ds| > 0 {
      WholeFront(ds);
      FractionIs(ds[1..]);
      var f, p := Fraction(ds[1..]), Pow10(|ds| - 1);
      assert Pow10(|ds|) as real == 10.0 * p as real;
      assert (ds[0] as real + f) / 10.0 * (10.0 * p as real) == ds[0] as real * p as real + f * p as real;
      assert (ds[0] * p) as real == ds[0] as real * p as real;
    }
  }

  /** Without a zero in front, the scale of a number is the power of ten for its digits. */
  lemma {:induction false} ScaleIs(n: int, k: nat)
    requires k > 0 && n < Pow10(k) && (k > 1 ==> Pow10(k - 1) <= n)
    ensures Scale(n) == Pow10(k)
    decreases k
  {
    if k == 1 {
      assert Pow10(1) == 10 * Pow10(0);
    } else {
      assert Pow10(k) == 10 * Pow10(k - 1);
      assert k > 2 ==> Pow10(k - 1) == 10 * Pow10(k - 2);
      assert Pow10(k - 1) >= 10 by { assert Pow10(k - 1) == 10 * Pow10(k - 2); }
      ScaleIs(n / 10, k - 1);
    }
  }

  /** No zero in front, unless that is all there is. */
  predicate NoLeadingZero(ds: seq<int>) {
    |ds| > 0 && (|ds| > 1 ==> ds[0] != 0)
  }

  lemma {:induction false} ScaleBelow(n: int, k: nat)
    requires k > 0 && 0 <= n < Pow10(k)
    ensures Scale(n) <= Pow10(k)
    decreases k
  {
    assert Pow10(k) == 10 * Pow10(k - 1);
    assert Pow10(k - 1) >= 1;
    if n >= 10 {
      assert k > 1 by { assert Pow10(0) == 1; }
      ScaleBelow(n / 10, k - 1);
    }
  }

  lemma {:induction false} ScaleOfDigits(ds: seq<int>)
    requires AreDigits(ds) && NoLeadingZero(ds)
    ensures Scale(Whole(ds)) == Pow10(|ds|)
  {
    WholeBounds(ds);
    WholeFront(ds);
    WholeBounds(ds[1..]);
    if |ds| > 1 {
      var p := Pow10(|ds| - 1);
      assert ds[0] * p >= p by { assert (ds[0] - 1) * p >= 0; }
    }
    ScaleIs(Whole(ds), |ds|);
  }

  // ---- what the literal means, and what it is read as ----

  predicate AllZero(ds: seq<int>) {
    forall i :: 0 <= i < |ds| ==> ds[i] == 0
  }

  lemma {:induction false} ZeroIsWhole(ds: seq<int>)
    requires forall i :: 0 <= i < |ds| ==> 0 <= ds[i] < 10
    ensures Whole(ds) == 0 <==> AllZero(ds)
    decreases |ds|
  {
    if |ds| > 0 {
      ZeroIsWhole(ds[..|ds| - 1]);
      WholeBounds(ds[..|ds| - 1]);
    }
  }

  /** The number that stands for digits with a sign. */
  function Signed(negative: bool, ws: seq<int>): int {
    if negative then -Whole(ws) else Whole(ws)
  }

  /** What a literal says: the digits before its point and those after it, all of it negative if there is a sign. */
  function LiteralValue(negative: bool, ws: seq<int>, ds: seq<int>): real {
    var value := Whole(ws) as real + Fraction(ds);
    if negative then -value else value
  }

  /** Digits without a zero in front are read as what they are worth after a point, and others as more. */
  lemma {:induction false} FractionRead(ds: seq<int>)
    requires AreDigits(ds)
    ensures Whole(ds) >= 0 && Fraction(ds) >= 0.0 && (Fraction(ds) == 0.0 <==> AllZero(ds))
    ensures var read := Whole(ds) as real / Scale(Whole(ds)) as real;
      if AllZero(ds) || NoLeadingZero(ds) then read == Fraction(ds) else read > Fraction(ds)
  {
    WholeBounds(ds);
    ZeroIsWhole(ds);
    FractionIs(ds);
    var n, p := Whole(ds) as real, Pow10(|ds|) as real;
    Quotient(Fraction(ds), p, n);
    if NoLeadingZero(ds) {
      ScaleOfDigits(ds);
    } else if !AllZero(ds) {
      LostZero(ds);
      LessDivides(n, Scale(Whole(ds)) as real, p);
    }
  }

  lemma {:induction false} Quotient(f: real, p: real, n: real)
    requires p > 0.0 && f * p == n >= 0.0
    ensures f == n / p && f >= 0.0 && (f == 0.0 <==> n == 0.0)
  {
    assert f == (f * p) / p;
  }

  lemma {:induction false} LostZero(ds: seq<int>)
    requires AreDigits(ds) && !NoLeadingZero(ds)
    ensures Scale(Whole(ds)) < Pow10(|ds|)
  {
    WholeFront(ds);
    WholeBounds(ds[1..]);
    ScaleBelow(Whole(ds), |ds| - 1);
  }

  lemma {:induction false} LessDivides(n: real, s: real, p: real)
    requires n > 0.0 && 0.0 < s < p
    ensures n / s > n / p
  {
    var a, b := n / s, n / p;
    assert a * s == n && b * p == n;
    assert b * (p - s) > 0.0;
    assert (a - b) * s > 0.0;
  }

  /** A literal is read as what it says exactly when no zero after its point and no sign is lost. */
  lemma {:induction false} FloatMeans(negative: bool, ws: seq<int>, ds: seq<int>)
    requires AreDigits(ws) && AreDigits(ds)
    ensures Whole(ds) >= 0
    ensures FloatOf(Signed(negative, ws), Whole(ds)) == LiteralValue(negative, ws, ds) <==>
      AllZero(ds) || (NoLeadingZero(ds) && (negative ==> !AllZero(ws)))
  {
    FractionRead(ds);
    WholeBounds(ws);
    ZeroIsWhole(ws);
  }

  /**
   A float literal is read back, and the constant it is read as is the value of its
   digits exactly under that condition.
   */
  lemma {:induction false} FloatParses(negative: bool, ws: seq<int>, ds: seq<int>, k: Tokens) returns (x: real)
    requires AreDigits(ws) && AreDigits(ds) && Stops(0, k)
    ensures Expression([Digits(Signed(negative, ws)), DotT, Digits(Whole(ds))] + k) ==
      Ok(SkipWs(k), Lit(FloatConst(x)))
    ensures x == LiteralValue(negative, ws, ds) <==>
      AllZero(ds) || (NoLeadingZero(ds) && (negative ==> !AllZero(ws)))
  {
    FloatMeans(negative, ws, ds);
    x := FloatOf(Signed(negative, ws), Whole(ds));
    var e := FloatE(Signed(negative, ws), Whole(ds));
    ExpressionParses(e, k);
    assert RenderTo(e, k) == [Digits(Signed(negative, ws)), DotT, Digits(Whole(ds))] + k;
  }

  /** `1.5` is read as one and a half, and `1.05` is read as the same. */
  lemma {:induction false} OneAndAHalf()
    ensures FloatOf(Signed(false, [1]), Whole([5])) == 1.5 == LiteralValue(false, [1], [5])
    ensures FloatOf(Signed(false, [1]), Whole([0, 5])) == 1.5 != LiteralValue(false, [1], [0, 5])
  {
    assert [1][..0] == [] && [5][..0] == [] && [5][1..] == [];
    assert [0, 5][..1] == [0] && [0][..0] == [] && [0, 5][1..] == [5];
    assert Whole([1]) == 1 && Whole([5]) == 5 && Whole([0]) == 0 && Whole([0, 5]) == 5;
    assert Fraction([5]) == 0.5 && Fraction([0, 5]) == 0.05;
  }
}
