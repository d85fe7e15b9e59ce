/**
 The greedy struct layout (`calculate_layout` in montyc_core/src/typing.rs).

 Fields are placed one after the other, each at the first offset that its
 alignment allows.
 */
module Layout {
  import opened RawInst

  datatype FieldLayout = FieldLayout(size: nat, align: nat)

  // ---- rounding ----

  lemma {:induction false} MultipleIs(a: nat, q: nat)
    requires a > 0
    ensures (a * q) % a == 0
  {
    var d, r := (a * q) / a, (a * q) % a;
    assert a * q == a * d + r;
    assert a * (q - d) == r;
    if q - d >= 1 { MulGrows(a, 1, q - d); } else if q - d <= -1 { MulGrows(a, q - d, -1); }
  }

  lemma {:induction false} MulGrows(a: nat, x: int, y: int)
    requires x <= y
    ensures a * x <= a * y
  {
    assert a * y - a * x == a * (y - x);
  }

  predicate Multiple(n: nat, a: nat) {
    a > 0 && n % a == 0
  }

  /** The first multiple of `a` that is not below `n`. */
  function RoundUp(n: nat, a: nat): (r: nat)
    requires a > 0
    ensures r >= n && Multiple(r, a) && r < n + a
  {
    if n % a == 0 then n
    else
      MultipleIs(a, n / a + 1);
      a * (n / a + 1)
  }

  /** No multiple of `a` lies between `n` and `RoundUp(n, a)`. */
  lemma {:induction false} RoundUpIsLeast(n: nat, a: nat, m: nat)
    requires m >= n && Multiple(m, a)
    ensures m >= RoundUp(n, a)
  {
    var q, p := RoundUp(n, a) / a, m / a;
    assert RoundUp(n, a) == a * q && m == a * p;
    assert a * q < a * (p + 1);
    MulCancel(a, q, p);
    MulGrows(a, q, p);
  }

  lemma {:induction false} MulCancel(a: nat, q: int, p: int)
    requires a * q < a * (p + 1)
    ensures q <= p
  {
    if q >= p + 1 { MulGrows(a, p + 1, q); }
  }

  // ---- alignments are powers of two ----

  function Pow2(k: nat): (p: nat)
    ensures p > 0
  {
    if k == 0 then 1 else 2 * Pow2(k - 1)
  }

  ghost predicate IsAlign(a: nat) {
    exists k :: a == Pow2(k)
  }

  lemma {:induction false} Pow2Divides(j: nat, k: nat)
    requires j <= k
    ensures Multiple(Pow2(k), Pow2(j)) && Pow2(j) <= Pow2(k)
    decreases k
  {
    if j < k {
      Pow2Divides(j, k - 1);
      var a, b := Pow2(j), Pow2(k - 1);
      assert b == a * (b / a);
      assert 2 * b == a * (2 * (b / a));
      MultipleIs(a, 2 * (b / a));
    }
  }

  /** Of two alignments the smaller divides the larger. */
  lemma {:induction false} AlignDivides(a: nat, b: nat)
    requires IsAlign(a) && IsAlign(b) && a <= b
    ensures Multiple(b, a)
  {
    var j :| a == Pow2(j);
    var k :| b == Pow2(k);
    if j <= k {
      Pow2Divides(j, k);
    } else {
      Pow2Divides(k, j);
    }
  }

  lemma {:induction false} DividesOn(a: nat, b: nat, n: nat)
    requires Multiple(b, a) && Multiple(n, b)
    ensures Multiple(n, a)
  {
    assert n == b * (n / b) && b == a * (b / a);
    assert n == a * ((b / a) * (n / b));
    MultipleIs(a, (b / a) * (n / b));
  }

  // ---- placements ----

  ghost predicate Aligned(fields: seq<FieldLayout>) {
    forall i :: 0 <= i < |fields| ==> IsAlign(fields[i].align)
  }

  /** Offsets that keep the order of the fields, overlap nothing and respect alignment, within `end` bytes. */
  ghost predicate Placement(fields: seq<FieldLayout>, offsets: seq<nat>, end: nat) {
    && |offsets| == |fields|
    && (forall i :: 0 <= i < |fields| ==> Multiple(offsets[i], fields[i].align))
    && (forall i :: 0 <= i < |fields| ==> offsets[i] + fields[i].size <= Next(offsets, end, i))
  }

  /** Where the field after `i` begins, or everything ends. */
  function Next(offsets: seq<nat>, end: nat, i: nat): nat {
    if i + 1 < |offsets| then offsets[i + 1] else end
  }

  function MaxAlign(fields: seq<FieldLayout>): nat {
    if |fields| == 0 then 1
    else
      var m, a := MaxAlign(fields[..|fields| - 1]), fields[|fields| - 1].align;
      if m < a then a else m
  }

  lemma {:induction false} MaxAlignIs(fields: seq<FieldLayout>)
    requires Aligned(fields)
    ensures IsAlign(MaxAlign(fields))
    ensures forall i :: 0 <= i < |fields| ==>
      fields[i].align <= MaxAlign(fields) && Multiple(MaxAlign(fields), fields[i].align)
    ensures MaxAlign(fields) == 1 || exists i :: 0 <= i < |fields| && fields[i].align == MaxAlign(fields)
    decreases |fields|
  {
    if |fields| == 0 {
      assert 1 == Pow2(0);
    } else {
      var front, last := fields[..|fields| - 1], fields[|fields| - 1];
      MaxAlignIs(front);
      forall i | 0 <= i < |fields|
        ensures fields[i].align <= MaxAlign(fields) && Multiple(MaxAlign(fields), fields[i].align) {
        if i < |front| { assert front[i] == fields[i]; }
        AlignDivides(fields[i].align, MaxAlign(fields));
      }
      if MaxAlign(fields) != last.align && MaxAlign(front) != 1 {
        var i :| 0 <= i < |front| && front[i].align == MaxAlign(front);
        assert fields[i].align == MaxAlign(fields);
      }
    }
  }

  // ---- the greedy placement ----

  /** Where the fields end, placed greedily. */
  function End(fields: seq<FieldLayout>): nat
    requires forall i :: 0 <= i < |fields| ==> fields[i].align > 0
  {
    if |fields| == 0 then 0
      else RoundUp(End(fields[..|fields| - 1]), fields[|fields| - 1].align) + fields[|fields| - 1].size
  }

  function Offsets(fields: seq<FieldLayout>): (offsets: seq<nat>)
    requires forall i :: 0 <= i < |fields| ==> fields[i].align > 0
    ensures |offsets| == |fields|
  {
    if |fields| == 0 then []
    else Offsets(fields[..|fields| - 1]) + [RoundUp(End(fields[..|fields| - 1]), fields[|fields| - 1].align)]
  }

  const I32_MAX: nat := 0x7FFF_FFFF

  lemma {:induction false} I32MaxIs()
    ensures I32_MAX == Pow2(31) - 1
  {
    assert Pow2(8) == 0x100 && Pow2(16) == 0x1_0000 && Pow2(24) == 0x100_0000;
  }

  /** Place the fields and pad; an offset that does not fit and an empty layout are panics. */
  method CalculateLayout(fields: seq<FieldLayout>) returns (r: Option<(FieldLayout, seq<nat>)>)
    requires Aligned(fields)
    ensures forall i :: 0 <= i < |fields| ==> fields[i].align > 0
    ensures r.Some? ==>
      r.value == (FieldLayout(RoundUp(End(fields), MaxAlign(fields)), MaxAlign(fields)), Offsets(fields))
    ensures r.Some? <==> (forall i :: 0 <= i < |fields| ==> Offsets(fields)[i] < Pow2(31)) && End(fields) > 0
  {
    I32MaxIs();
    MaxAlignIs(fields);
    var size, align, offsets := 0, 1, [];
    for i := 0 to |fields|
      invariant size == End(fields[..i]) && align == MaxAlign(fields[..i]) && offsets == Offsets(fields[..i])
      invariant forall j :: 0 <= j < i ==> offsets[j] <= I32_MAX
    {
      assert fields[..i + 1][..i] == fields[..i];
      var offset := RoundUp(size, fields[i].align);
      if offset > I32_MAX {
        OffsetsPrefix(fields, i + 1);
        assert Offsets(fields)[i] == Offsets(fields)[..i + 1][i] == offset;
        return None;
      }
      offsets := offsets + [offset];
      size := offset + fields[i].size;
      if align < fields[i].align { align := fields[i].align; }
    }
    assert fields[..|fields|] == fields;
    var padded := RoundUp(size, align);
    if padded == 0 { return None; }
    return Some((FieldLayout(padded, align), offsets));
  }

  lemma {:induction false} OffsetsPrefix(fields: seq<FieldLayout>, n: nat)
    requires n <= |fields| && forall i :: 0 <= i < |fields| ==> fields[i].align > 0
    ensures Offsets(fields)[..n] == Offsets(fields[..n])
    decreases |fields|
  {
    if n < |fields| {
      OffsetsPrefix(fields[..|fields| - 1], n);
      assert fields[..|fields| - 1][..n] == fields[..n];
    } else {
      assert fields[..n] == fields;
    }
  }

  /** The greedy offsets are a placement. */
  lemma {:induction false} GreedyIsPlacement(fields: seq<FieldLayout>)
    requires forall i :: 0 <= i < |fields| ==> fields[i].align > 0
    ensures Placement(fields, Offsets(fields), End(fields))
    decreases |fields|
  {
    if |fields| > 0 {
      var front := fields[..|fields| - 1];
      GreedyIsPlacement(front);
      assert forall i :: 0 <= i < |front| ==> front[i] == fields[i] && Offsets(fields)[i] == Offsets(front)[i];
    }
  }

  lemma {:induction false} PlacementFront(fields: seq<FieldLayout>, offsets: seq<nat>, end: nat)
    requires |fields| > 0 && Placement(fields, offsets, end)
    ensures Placement(fields[..|fields| - 1], offsets[..|fields| - 1], offsets[|fields| - 1])
  {
    var front := fields[..|fields| - 1];
    assert forall i :: 0 <= i < |front| ==> front[i] == fields[i] && offsets[..|front|][i] == offsets[i];
  }

  /** No placement puts any field lower, or ends lower. */
  lemma {:induction false} GreedyIsLowest(fields: seq<FieldLayout>, offsets: seq<nat>, end: nat)
    requires Placement(fields, offsets, end)
    ensures |fields| > 0 ==> End(fields) <= end
    ensures forall i :: 0 <= i < |fields| ==> Offsets(fields)[i] <= offsets[i]
    decreases |fields|
  {
    if |fields| > 0 {
      var front, last := fields[..|fields| - 1], |fields| - 1;
      assert Placement(front, offsets[..last], offsets[last]) by { PlacementFront(fields, offsets, end); }
      assert Multiple(offsets[last], fields[last].align) && offsets[last] + fields[last].size <= end;
      GreedyIsLowest(front, offsets[..last], offsets[last]);
      RoundUpIsLeast(End(front), fields[last].align, offsets[last]);
      LowestJoin(Offsets(front), RoundUp(End(front), fields[last].align), offsets);
    }
  }

  lemma {:induction false} LowestJoin(lows: seq<nat>, low: nat, offsets: seq<nat>)
    requires |offsets| == |lows| + 1 && low <= offsets[|lows|] && forall i :: 0 <= i < |lows| ==>
      lows[i] <= offsets[..|lows|][i]
    ensures forall i :: 0 <= i < |offsets| ==> (lows + [low])[i] <= offsets[i]
  {
    forall i | 0 <= i < |lows| ensures lows[i] <= offsets[i] { assert offsets[..|lows|][i] == offsets[i]; }
  }

  /**
   The padded size is a multiple of every alignment, and no placement with that
   property is smaller.
   */
  lemma {:induction false} PaddedSizeIsLeast(fields: seq<FieldLayout>, offsets: seq<nat>, end: nat, total: nat)
    requires Aligned(fields) && Placement(fields, offsets, end) && end <= total
    requires forall i :: 0 <= i < |fields| ==> Multiple(total, fields[i].align)
    ensures MaxAlign(fields) > 0 && RoundUp(End(fields), MaxAlign(fields)) <= total
    ensures forall i :: 0 <= i < |fields| ==> Multiple(RoundUp(End(fields), MaxAlign(fields)), fields[i].align)
  {
    MaxAlignIs(fields);
    GreedyIsLowest(fields, offsets, end);
    var a := MaxAlign(fields);
    var k :| a == Pow2(k);
    forall i | 0 <= i < |fields| ensures Multiple(RoundUp(End(fields), a), fields[i].align) {
      DividesOn(fields[i].align, a, RoundUp(End(fields), a));
    }
    RoundUpIsLeast(End(fields), a, total);
  }
}
