/**
 What the expression parser does with an operator whose right operand cannot be
 read.

 Behind `+`, `-`, `*`, `/`, `%`, `@`, `==`, `!=`, `or` and `if` the parser goes
 back and reads the left operand alone, and leaves the operator; behind all other
 operators there is no match.  An opening bracket is left in the same way, but an
 opening parenthesis behind a primary panics.  A panic of the right operand is
 always a panic of the whole expression.
 */
module Dangling {
  import opened RawInst
  import opened Ast
  import opened Parser
  import opened Rendering
  import opened RoundTrip
  import opened Unusual

  // ---- operands that cannot be read ----

  /** There is nothing here, or a bracket closes. */
  predicate Dead(ts: Tokens) {
    ts == [] || Closes(ts)
  }

  /** Here stands something that makes the parser panic. */
  predicate Panicky(ts: Tokens) {
    && |ts| > 0 && !StartsSign(ts) && ts[0] != Whitespace && ts[0] != NotT && ts[0] != Await
    && Primary(ts) == Panic
  }

  /** No operand can be read here, and `r` says how that is answered. */
  predicate Bad(ts: Tokens, r: Res<Expr>) {
    (r == No && Dead(ts)) || (r == Panic && Panicky(ts))
  }

  /** What no primary can be read from answers the same on every level. */
  lemma {:induction false} BadBelow(ts: Tokens, r: Res<Expr>)
    requires Bad(ts, r)
    ensures SkipWs(ts) == ts && !Starts(ts, NotT)
    ensures Factor(ts) == r && Term(ts) == r && Shift(ts) == r && BitAnd(ts) == r && BitXor(ts) == r && BitOr(ts) == r
  {
    assert SkipWs(ts) == ts;
    assert r == No ==> Atom(ts) == No;
    assert Primary(ts) == r;
    assert AwaitPrimary(ts) == r;
    assert PowerExpr(ts) == r;
    assert Factor(ts) == r;
    assert Term(ts) == r;
    assert Sum(ts) == r;
    assert Shift(ts) == r;
    assert BitAnd(ts) == r;
    assert BitXor(ts) == r;
  }

  /** From bit operators upwards a failure goes through. */
  lemma {:induction false} FailsUp(ts: Tokens, r: Res<Expr>)
    requires SkipWs(ts) == ts && !Starts(ts, NotT) && BitOr(ts) == r && !r.Ok?
    ensures Comparison(ts) == r && Inversion(ts) == r && Conjunction(ts) == r && Disjunction(ts) == r
    ensures Expression(ts) == r
  {
    assert Equality(ts) == r;
    assert Comparison(ts) == r;
    assert NotComparison(ts) == No;
    assert Inversion(ts) == r;
    assert AndInversion(ts) == r;
    assert Conjunction(ts) == r;
    assert OrConjunction(ts) == r;
    assert Disjunction(ts) == r;
    assert Conditional(ts) == r;
  }

  lemma {:induction false} ShiftFailsUp(ts: Tokens, r: Res<Expr>)
    requires SkipWs(ts) == ts && !Starts(ts, NotT) && Shift(ts) == r && !r.Ok?
    ensures Expression(ts) == r
  {
    assert BitAnd(ts) == r;
    assert BitXor(ts) == r;
    FailsUp(ts, r);
  }

  lemma {:induction false} BadOperand(ts: Tokens, r: Res<Expr>)
    requires Bad(ts, r)
    ensures SkipWs(ts) == ts && Factor(ts) == r && Term(ts) == r && BitAnd(ts) == r && BitXor(ts) == r
    ensures BitOr(ts) == r && Comparison(ts) == r && Inversion(ts) == r && Disjunction(ts) == r && Expression(ts) == r
  {
    BadBelow(ts, r);
    FailsUp(ts, r);
  }

  // ---- operators behind which there is no match ----

  /** The operand that stands behind the first `n` tokens of `tail`, white space aside. */
  function Operand(tail: Tokens, n: nat): Tokens {
    var s := SkipWs(tail);
    if n <= |s| then SkipWs(s[n..]) else []
  }

  predicate StartsPower(ts: Tokens) {
    |ts| > 1 && ts[0] == Star && ts[1] == Star
  }

  lemma {:induction false} PowerDangles(l: Ex, tail: Tokens, r: Res<Expr>)
    requires Written(l) == true && Level(l) >= 13 && StartsPower(SkipWs(tail)) && Bad(Operand(tail, 2), r)
    ensures Expression(RenderTo(l, tail)) == r
  {
    var ts := RenderTo(l, tail);
    HeadIs(l, tail);
    HeadSkips(l, tail);
    assert AwaitPrimary(ts) == Ok(After(13, l, tail), Tree(l)) by { PrimaryParses(l, tail); }
    SkipAfter(13, l, tail);
    BadOperand(Operand(tail, 2), r);
    assert PowerExpr(ts) == r;
    assert Factor(ts) == r by { PrimaryBegins(l); }
    assert Term(ts) == r;
    assert Sum(ts) == r;
    assert Shift(ts) == r;
    ShiftFailsUp(ts, r);
  }

  lemma {:induction false} SignDangles(sign: SignOp, ts: Tokens, r: Res<Expr>)
    requires Bad(ts, r)
    ensures Expression([SignToken(sign)] + ts) == r
  {
    var all := [SignToken(sign)] + ts;
    ConsDrop(SignToken(sign), ts);
    BadOperand(ts, r);
    assert Factor(all) == r;
    assert Term(all) == r;
    assert Sum(all) == r;
    assert Shift(all) == r;
    ShiftFailsUp(all, r);
  }

  lemma {:induction false} NotDangles(ts: Tokens, r: Res<Expr>)
    requires Bad(SkipWs(ts), r)
    ensures Expression([NotT] + ts) == r
  {
    var all := [NotT] + ts;
    ConsDrop(NotT, ts);
    BadOperand(SkipWs(ts), r);
    InversionSkips(ts);
    assert NotComparison(all) == r;
    assert Atom(all) == No;
    assert BitOr(all) == No by {
      assert Primary(all) == No;
      assert AwaitPrimary(all) == No;
      assert PowerExpr(all) == No;
      assert Factor(all) == No;
      assert Term(all) == No;
      assert Sum(all) == No;
      assert Shift(all) == No;
      assert BitAnd(all) == No;
      assert BitXor(all) == No;
    }
    assert Comparison(all) == No by { assert Equality(all) == No; }
    assert Inversion(all) == r;
    assert AndInversion(all) == r;
    assert Conjunction(all) == r;
    assert OrConjunction(all) == r;
    assert Disjunction(all) == r;
    assert Conditional(all) == r;
  }

  lemma {:induction false} ShiftDangles(l: Ex, angle: Token, rest: Tokens, r: Res<Expr>)
    requires Written(l) == true && Level(l) >= 9 && IsAngle(angle) && Starts(SkipWs(rest), LessThan)
    requires Bad(SkipWs(rest)[1..], r)
    ensures Expression(RenderTo(l, [angle] + rest)) == r
  {
    var ts := RenderTo(l, [angle] + rest);
    SumBeforeAngle(l, angle, rest);
    ConsDrop(angle, rest);
    BadOperand(SkipWs(rest)[1..], r);
    assert Shift(ts) == r;
    ShiftFailsUp(ts, r);
  }

  lemma {:induction false} BitDangles(op: BitOp, l: Ex, tail: Tokens, r: Res<Expr>)
    requires Written(l) == true && Level(l) > BitLevel(op)
    requires Starts(SkipWs(tail), BitToken(op)) && Bad(Operand(tail, 1), r) == true
    ensures Expression(RenderTo(l, tail)) == r
  {
    var ts := RenderTo(l, tail);
    assert BitOr(ts) == r && !r.Ok? by { BitFails(op, l, tail, r); }
    assert SkipWs(ts) == ts && !Starts(ts, NotT) by { HeadSkips(l, tail); NotNegated(l, tail); }
    FailsUp(ts, r);
  }

  lemma {:induction false} BitFails(op: BitOp, l: Ex, tail: Tokens, r: Res<Expr>)
    requires Written(l) == true && Level(l) > BitLevel(op)
    requires Starts(SkipWs(tail), BitToken(op)) && Bad(Operand(tail, 1), r) == true
    ensures BitOr(RenderTo(l, tail)) == r && !r.Ok?
  {
    var ts, operand := RenderTo(l, tail), Operand(tail, 1);
    assert SkipWs(ts) == ts by { HeadSkips(l, tail); }
    assert BitAnd(operand) == r && BitXor(operand) == r && BitOr(operand) == r by { BadOperand(operand, r); }
    match op
    case AmpOp =>
      var s := After(8, l, tail);
      assert Shift(ts) == Ok(s, Tree(l)) by { BitStops(op, tail); ShiftParses(l, tail); }
      assert SkipWs(s) == SkipWs(tail) by { SkipAfter(8, l, tail); }
      AmpFails(ts, s, Tree(l), r);
    case CaretOp =>
      assert BitAnd(ts) == Ok(SkipWs(tail), Tree(l)) by { BitStops(op, tail); BitAndParses(l, tail); }
      CaretFails(ts, tail, Tree(l), r);
    case PipeOp =>
      assert BitXor(ts) == Ok(SkipWs(tail), Tree(l)) by { BitStops(op, tail); BitXorParses(l, tail); }
      PipeFails(ts, tail, Tree(l), r);
  }

  lemma {:induction false} BitStops(op: BitOp, tail: Tokens)
    requires Starts(SkipWs(tail), BitToken(op))
    ensures Stops(BitLevel(op) + 1, tail) == true
  {
  }

  lemma {:induction false} AmpFails(ts: Tokens, s: Tokens, left: Expr, r: Res<Expr>)
    requires SkipWs(ts) == ts && Shift(ts) == Ok(s, left) && Starts(SkipWs(s), AndT)
    requires BitAnd(Operand(s, 1)) == r && !r.Ok?
    ensures BitOr(ts) == r
  {
    assert BitAnd(ts) == r;
    assert BitXor(ts) == r;
  }

  lemma {:induction false} CaretFails(ts: Tokens, tail: Tokens, left: Expr, r: Res<Expr>)
    requires SkipWs(ts) == ts && BitAnd(ts) == Ok(SkipWs(tail), left) && Starts(SkipWs(tail), Caret)
    requires BitXor(Operand(tail, 1)) == r && !r.Ok?
    ensures BitOr(ts) == r
  {
    SkipTwice(tail);
    assert BitXor(ts) == r;
  }

  lemma {:induction false} PipeFails(ts: Tokens, tail: Tokens, left: Expr, r: Res<Expr>)
    requires SkipWs(ts) == ts && BitXor(ts) == Ok(SkipWs(tail), left) && Starts(SkipWs(tail), Pipe)
    requires BitOr(Operand(tail, 1)) == r && !r.Ok?
    ensures BitOr(ts) == r
  {
    SkipTwice(tail);
  }

  lemma {:induction false} NotNegated(l: Ex, k: Tokens)
    requires Written(l) && Level(l) >= 4
    ensures !Starts(RenderTo(l, k), NotT)
  {
    HeadIs(l, k);
  }

  // ---- operators that are left behind ----

  /** How an expression ends whose left operand is read alone, unless the right one panics. */
  function Alone(l: Ex, tail: Tokens, r: Res<Expr>): Res<Expr> {
    if r.Panic? then Panic else Ok(SkipWs(tail), Tree(l))
  }

  lemma {:induction false} TermDangles(l: Ex, tail: Tokens, r: Res<Expr>)
    requires Written(l) == true && Level(l) >= 11 && StartsTermOp(SkipWs(tail)) && !StartsPower(SkipWs(tail))
    requires Bad(Operand(tail, if Starts(SkipWs(tail)[1..], DivT) then 2 else 1), r) == true
    ensures Expression(RenderTo(l, tail)) == Alone(l, tail, r)
  {
    var ts, s := RenderTo(l, tail), After(11, l, tail);
    assert SkipWs(ts) == ts && !Starts(ts, NotT) by { HeadSkips(l, tail); NotNegated(l, tail); }
    assert Factor(ts) == Ok(s, Tree(l)) by { TermOpsStop(tail); FactorParses(l, tail); }
    assert SkipWs(s) == SkipWs(tail) by { SkipAfter(11, l, tail); }
    TermFails(s, tail, Tree(l), r);
    if r.Panic? {
      TermPanics(ts, s, Tree(l));
      ShiftFailsUp(ts, r);
    } else {
      TermStays(ts, s, Tree(l));
      ShiftIsExpression(ts, s, Tree(l));
    }
  }

  lemma {:induction false} TermOpsStop(tail: Tokens)
    requires StartsTermOp(SkipWs(tail)) && !StartsPower(SkipWs(tail))
    ensures Stops(11, tail) == true
  {
  }

  lemma {:induction false} TermFails(s: Tokens, tail: Tokens, left: Expr, r: Res<Expr>)
    requires SkipWs(s) == SkipWs(tail) && StartsTermOp(SkipWs(tail))
    requires Bad(Operand(tail, if Starts(SkipWs(tail)[1..], DivT) then 2 else 1), r) == true
    ensures TermRest(s, left) == r && !r.Ok?
  {
    BadOperand(Operand(tail, if Starts(SkipWs(tail)[1..], DivT) then 2 else 1), r);
  }

  lemma {:induction false} TermPanics(ts: Tokens, s: Tokens, left: Expr)
    requires SkipWs(ts) == ts && Factor(ts) == Ok(s, left) && TermRest(s, left) == Panic
    ensures Shift(ts) == Panic
  {
    assert Term(ts) == Panic;
    assert Sum(ts) == Panic;
  }

  lemma {:induction false} TermStays(ts: Tokens, s: Tokens, left: Expr)
    requires SkipWs(ts) == ts && Factor(ts) == Ok(s, left) && TermRest(s, left) == No && StartsTermOp(SkipWs(s))
    ensures Shift(ts) == Ok(s, left) && !Continues(s)
  {
    SkipTwice(s);
    assert Term(ts) == Ok(s, left);
    assert SumRest(s, left) == Ok(s, left);
    assert Sum(ts) == Ok(s, left);
    NoAngle(s);
  }

  lemma {:induction false} NoAngle(s: Tokens)
    requires !StartsShift(SkipWs(s))
    ensures !StartsShift(s)
  {
    assert Starts(s, Whitespace) || s == SkipWs(s);
  }

  lemma {:induction false} SumDangles(l: Ex, tail: Tokens, r: Res<Expr>)
    requires Written(l) == true && Level(l) >= 9 && StartsSumOp(SkipWs(tail)) && Bad(Operand(tail, 1), r) == true
    ensures Expression(RenderTo(l, tail)) == Alone(l, tail, r)
  {
    var ts, s := RenderTo(l, tail), After(9, l, tail);
    assert SkipWs(ts) == ts && !Starts(ts, NotT) by { HeadSkips(l, tail); NotNegated(l, tail); }
    assert Sum(ts) == SumRest(s, Tree(l)) by { SumOpsStop(tail); SumPrefix(l, tail); }
    assert SkipWs(s) == SkipWs(tail) by { SkipAfter(9, l, tail); }
    assert Term(Operand(tail, 1)) == r && !r.Ok? by { BadOperand(Operand(tail, 1), r); }
    SumFails(ts, s, Tree(l), r);
    if r.Panic? {
      ShiftFailsUp(ts, r);
    } else {
      ShiftIsExpression(ts, s, Tree(l));
    }
  }

  lemma {:induction false} SumOpsStop(tail: Tokens)
    requires StartsSumOp(SkipWs(tail))
    ensures Stops(10, tail) == true
  {
  }

  lemma {:induction false} SumFails(ts: Tokens, s: Tokens, left: Expr, r: Res<Expr>)
    requires SkipWs(ts) == ts && Sum(ts) == SumRest(s, left) && StartsSumOp(SkipWs(s))
    requires Term(Operand(s, 1)) == r && !r.Ok?
    ensures Shift(ts) == (if r.Panic? then Panic else Ok(s, left)) && !Continues(s)
  {
    SkipTwice(s);
    NoAngle(s);
    assert SumRest(s, left) == if r.Panic? then Panic else Ok(s, left);
  }

  lemma {:induction false} ComparisonDangles(l: Ex, tail: Tokens, r: Res<Expr>)
    requires Written(l) == true && Level(l) >= 5 && StartsEquality(SkipWs(tail)) && Bad(Operand(tail, 2), r) == true
    ensures Expression(RenderTo(l, tail)) == Alone(l, tail, r)
  {
    var ts := RenderTo(l, tail);
    assert SkipWs(ts) == ts && !Starts(ts, NotT) by { HeadSkips(l, tail); NotNegated(l, tail); }
    assert BitOr(ts) == Ok(SkipWs(tail), Tree(l)) by { EqualityStops(tail); BitOrParses(l, tail); }
    assert Comparison(Operand(tail, 2)) == r && !r.Ok? by { BadOperand(Operand(tail, 2), r); }
    EqualityFails(ts, tail, Tree(l), r);
  }

  lemma {:induction false} EqualityStops(tail: Tokens)
    requires StartsEquality(SkipWs(tail))
    ensures Stops(5, tail) == true
  {
  }

  lemma {:induction false} EqualityFails(ts: Tokens, tail: Tokens, left: Expr, r: Res<Expr>)
    requires SkipWs(ts) == ts && !Starts(ts, NotT) && BitOr(ts) == Ok(SkipWs(tail), left)
    requires StartsEquality(SkipWs(tail)) && Comparison(Operand(tail, 2)) == r && !r.Ok?
    ensures Expression(ts) == if r.Panic? then Panic else Ok(SkipWs(tail), left)
  {
    var alone: Res<Expr> := if r.Panic? then Panic else Ok(SkipWs(tail), left);
    SkipTwice(tail);
    assert Equality(ts) == r;
    assert Comparison(ts) == alone;
    assert NotComparison(ts) == No;
    assert Inversion(ts) == alone;
    assert AndInversion(ts) == r;
    assert Conjunction(ts) == alone;
    assert OrConjunction(ts) == r;
    assert Disjunction(ts) == alone;
    assert Conditional(ts) == r;
  }

  lemma {:induction false} OrDangles(l: Ex, tail: Tokens, r: Res<Expr>)
    requires Written(l) == true && Level(l) >= 2 && Starts(SkipWs(tail), OrT) && Bad(Operand(tail, 1), r) == true
    ensures Expression(RenderTo(l, tail)) == Alone(l, tail, r)
  {
    var ts := RenderTo(l, tail);
    assert Conjunction(ts) == Ok(SkipWs(tail), Tree(l)) by { OrStops(tail); ConjunctionParses(l, tail); }
    assert Disjunction(Operand(tail, 1)) == r && !r.Ok? by { BadOperand(Operand(tail, 1), r); }
    OrFails(ts, tail, Tree(l), r);
  }

  lemma {:induction false} OrStops(tail: Tokens)
    requires Starts(SkipWs(tail), OrT)
    ensures Stops(2, tail) == true
  {
  }

  lemma {:induction false} OrFails(ts: Tokens, tail: Tokens, left: Expr, r: Res<Expr>)
    requires Conjunction(ts) == Ok(SkipWs(tail), left) && Starts(SkipWs(tail), OrT)
    requires Disjunction(Operand(tail, 1)) == r && !r.Ok?
    ensures Expression(ts) == if r.Panic? then Panic else Ok(SkipWs(tail), left)
  {
    SkipTwice(tail);
    assert OrConjunction(ts) == r;
    assert Disjunction(ts) == if r.Panic? then Panic else Ok(SkipWs(tail), left);
    assert Conditional(ts) == r;
  }

  /** An `if` without a test. */
  lemma {:induction false} IfDangles(l: Ex, tail: Tokens, r: Res<Expr>)
    requires Written(l) == true && Level(l) >= 1 && Starts(SkipWs(tail), IfT) && Bad(Operand(tail, 1), r) == true
    ensures Expression(RenderTo(l, tail)) == Alone(l, tail, r)
  {
    var ts := RenderTo(l, tail);
    assert Disjunction(ts) == Ok(SkipWs(tail), Tree(l)) by { KeywordStops(tail); DisjunctionParses(l, tail); }
    assert Disjunction(Operand(tail, 1)) == r && !r.Ok? by { BadOperand(Operand(tail, 1), r); }
    SkipTwice(tail);
    assert Conditional(ts) == r;
  }

  /** An `if` with a test and an `else`, but nothing behind it. */
  lemma {:induction false} ElseDangles(l: Ex, test: Ex, mid: Tokens, tail: Tokens, r: Res<Expr>)
    requires Written(l) == true && Level(l) >= 1 && Starts(SkipWs(mid), IfT)
    requires Written(test) == true && Level(test) >= 1 && Operand(mid, 1) == RenderTo(test, tail)
    requires Starts(SkipWs(tail), ElseT) && Bad(Operand(tail, 1), r) == true
    ensures Expression(RenderTo(l, mid)) == Alone(l, mid, r)
  {
    var ts := RenderTo(l, mid);
    assert Disjunction(ts) == Ok(SkipWs(mid), Tree(l)) by { KeywordStops(mid); DisjunctionParses(l, mid); }
    assert Disjunction(RenderTo(test, tail)) == Ok(SkipWs(tail), Tree(test)) by {
      KeywordStops(tail);
      DisjunctionParses(test, tail);
    }
    assert Expression(Operand(tail, 1)) == r && !r.Ok? by { BadOperand(Operand(tail, 1), r); }
    SkipTwice(mid);
    SkipTwice(tail);
    assert Conditional(ts) == r;
  }

  /** An `if` with a test that no `else` follows. */
  lemma {:induction false} NoElseDangles(l: Ex, test: Ex, mid: Tokens, tail: Tokens)
    requires Written(l) == true && Level(l) >= 1 && Starts(SkipWs(mid), IfT)
    requires Written(test) == true && Level(test) >= 1 && Operand(mid, 1) == RenderTo(test, tail)
    requires Stops(0, tail) == true && !Starts(SkipWs(tail), ElseT)
    ensures Expression(RenderTo(l, mid)) == Ok(SkipWs(mid), Tree(l))
  {
    assert Disjunction(RenderTo(l, mid)) == Ok(SkipWs(mid), Tree(l)) by {
      KeywordStops(mid);
      DisjunctionParses(l, mid);
    }
    assert Disjunction(RenderTo(test, tail)) == Ok(SkipWs(tail), Tree(test)) by {
      LooserStops(tail);
      DisjunctionParses(test, tail);
    }
    NoElse(RenderTo(l, mid), mid, Tree(l), RenderTo(test, tail), tail, Tree(test));
  }

  lemma {:induction false} LooserStops(tail: Tokens)
    requires Stops(0, tail) == true
    ensures Stops(1, tail) == true
  {
  }

  lemma {:induction false} NoElse(ts: Tokens, mid: Tokens, left: Expr, inner: Tokens, tail: Tokens, test: Expr)
    requires Disjunction(ts) == Ok(SkipWs(mid), left) && Starts(SkipWs(mid), IfT) && inner == Operand(mid, 1)
    requires Disjunction(inner) == Ok(SkipWs(tail), test) && !Starts(SkipWs(tail), ElseT)
    ensures Expression(ts) == Ok(SkipWs(mid), left)
  {
    SkipTwice(mid);
    SkipTwice(tail);
    assert Conditional(ts) == No;
  }

  // ---- brackets ----

  /** The answer to a trailer that is not read. */
  function Left(k: Tokens, base: Expr, r: Res<Expr>): Res<Expr> {
    if r.Panic? then Panic else Ok(k, base)
  }

  lemma {:induction false} BracketIsTrailer(f: Ex, bracket: Token, ts: Tokens, r: Res<Expr>)
    requires Written(f) == true && Level(f) >= 13 && (bracket == LParen || bracket == LBracket)
    requires Trailer([bracket] + ts, Tree(f)) == r && !r.Ok?
    ensures Primary(RenderTo(f, [bracket] + ts)) == Left([bracket] + ts, Tree(f), r)
  {
    var k := [bracket] + ts;
    assert SkipWs(k) == k;
    assert Primary(RenderTo(f, k)) == Trailers(k, Tree(f)) by { ChainParses(f, k); }
    NoTrailer(k, Tree(f), r);
  }

  lemma {:induction false} NoTrailer(k: Tokens, base: Expr, r: Res<Expr>)
    requires Trailer(k, base) == r && !r.Ok?
    ensures Trailers(k, base) == Left(k, base, r)
  {
    assert LeftRecurse(k, base) == r;
  }

  lemma {:induction false} CallRule(f: Ex, args: Args, k: Tokens)
    requires Written(f) == true && Level(f) >= 13 && WrittenArgs(args) == true && CallArgs(k) == Panic
    ensures Primary(RenderTo(f, [LParen] + Before(args, k))) == Panic
  {
    var ts := [LParen] + Before(args, k);
    ConsDrop(LParen, Before(args, k));
    assert CallArgs(SkipWs(Before(args, k))) == Panic by { ArgsPanic(args, k); CallArgsSkips(Before(args, k)); }
    TrailerPanics(ts, Tree(f));
    BracketIsTrailer(f, LParen, Before(args, k), Panic);
  }

  lemma {:induction false} TrailerPanics(ts: Tokens, base: Expr)
    requires Starts(ts, LParen) && CallArgs(SkipWs(ts[1..])) == Panic
    ensures Trailer(ts, base) == Panic
  {
    assert SkipWs(ts) == ts;
    assert DotName(ts, base) == No;
  }

  /**
   Behind the opening parenthesis of a call, and behind the comma of an argument, what
   cannot be read is a panic, unless the parenthesis closes.
   */
  lemma {:induction false} CallPanics(f: Ex, args: Args, ts: Tokens, r: Res<Expr>)
    requires Written(f) == true && Level(f) >= 13 && WrittenArgs(args) == true
    requires Bad(SkipWs(ts), r) == true && !Starts(SkipWs(ts), RParen)
    ensures Primary(RenderTo(f, [LParen] + Before(args, ts))) == Panic
  {
    assert Expression(SkipWs(ts)) == r && !r.Ok? by { BadOperand(SkipWs(ts), r); }
    CallRule(f, args, ts);
  }

  /** An argument must be followed by a comma or by the closing parenthesis. */
  lemma {:induction false} OpenCallPanics(f: Ex, args: Args, w: nat, e: Ex, tail: Tokens)
    requires Written(f) == true && Level(f) >= 13 && WrittenArgs(args) == true
    requires Written(e) == true && Stops(0, tail) == true
    requires !Starts(SkipWs(tail), Comma) && !Starts(SkipWs(tail), RParen)
    ensures Primary(RenderTo(f, [LParen] + Before(args, WsTo(w, RenderTo(e, tail))))) == Panic
  {
    var inner := RenderTo(e, tail);
    assert Expression(inner) == Ok(SkipWs(tail), Tree(e)) by { ExpressionParses(e, tail); }
    assert SkipWs(inner) == inner by { HeadSkips(e, tail); }
    SkipTwice(tail);
    assert CallArgs(inner) == Panic;
    assert CallArgs(WsTo(w, inner)) == Panic by { SkipWsTo(w, inner); CallArgsSkips(WsTo(w, inner)); }
    CallRule(f, args, WsTo(w, inner));
  }

  /** An index that cannot be read is left behind with its bracket, unless it panics. */
  lemma {:induction false} IndexDangles(b: Ex, ts: Tokens, r: Res<Expr>)
    requires Written(b) == true && Level(b) >= 13 && Bad(SkipWs(ts), r) == true
    ensures Primary(RenderTo(b, [LBracket] + ts)) == Left([LBracket] + ts, Tree(b), r)
  {
    var k := [LBracket] + ts;
    ConsDrop(LBracket, ts);
    assert Expression(SkipWs(ts)) == r && !r.Ok? by { BadOperand(SkipWs(ts), r); }
    IndexRule(k, Tree(b), r);
    BracketIsTrailer(b, LBracket, ts, r);
  }

  lemma {:induction false} IndexRule(k: Tokens, base: Expr, r: Res<Expr>)
    requires Starts(k, LBracket) && Expression(SkipWs(k[1..])) == r && !r.Ok?
    ensures Trailer(k, base) == r
  {
    assert SkipWs(k) == k;
    assert DotName(k, base) == No;
    assert TupleInner(SkipWs(k[1..])) == if r.Panic? then Panic else No;
    assert Index(SkipWs(k[1..])) == r;
  }
}
