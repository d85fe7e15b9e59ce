/**
 What the expression parser makes of tokens outside the canonical grammar:
 shifts, `await`, parentheses, and the comparisons it does not read.
 */
module Unusual {
  import opened RawInst
  import opened Ast
  import opened Parser
  import opened Rendering
  import opened RoundTrip

  // ---- from shifts up to expressions ----

  /** A looser operator than a shift comes next. */
  predicate Continues(s: Tokens) {
    var t := SkipWs(s);
    Starts(t, AndT) || Starts(t, Caret) || Starts(t, Pipe) || StartsEquality(t) || Starts(t, OrT) || Starts(t, IfT)
  }

  lemma {:induction false} StopsEnds(s: Tokens)
    requires Stops(0, s) == true
    ensures !Continues(s) && !Continues(SkipWs(s))
  {
    SkipTwice(s);
  }

  /** What is read as a shift, and is followed by no looser operator, is read as an expression. */
  lemma {:induction false} ShiftIsExpression(ts: Tokens, s: Tokens, e: Expr)
    requires SkipWs(ts) == ts && !Starts(ts, NotT) && Shift(ts) == Ok(s, e) && !Continues(s)
    ensures Expression(ts) == Ok(SkipWs(s), e)
  {
    SkipTwice(s);
    assert BitAnd(ts) == Ok(SkipWs(s), e);
    assert BitXor(ts) == Ok(SkipWs(s), e);
    assert BitOr(ts) == Ok(SkipWs(s), e);
    assert Equality(ts) == No;
    assert Comparison(ts) == Ok(SkipWs(s), e);
    assert NotComparison(ts) == No;
    assert Inversion(ts) == Ok(SkipWs(s), e);
    assert AndInversion(ts) == No;
    assert Conjunction(ts) == Ok(SkipWs(s), e);
    assert OrConjunction(ts) == No;
    assert Disjunction(ts) == Ok(SkipWs(s), e);
    assert Conditional(ts) == No;
  }

  /** What is not read as a shift is not read at all. */
  lemma {:induction false} NoShiftFails(ts: Tokens)
    requires SkipWs(ts) == ts && !Starts(ts, NotT) && Shift(ts) == No
    ensures Expression(ts) == No
  {
    assert BitAnd(ts) == No;
    assert BitXor(ts) == No;
    assert BitOr(ts) == No;
    assert Equality(ts) == No;
    assert Comparison(ts) == No;
    assert NotComparison(ts) == No;
    assert Inversion(ts) == No;
    assert AndInversion(ts) == No;
    assert Conjunction(ts) == No;
    assert OrConjunction(ts) == No;
    assert Disjunction(ts) == No;
    assert Conditional(ts) == No;
  }

  // ---- shifts ----

  predicate IsAngle(t: Token) {
    t == LessThan || t == GreaterThan
  }

  /** A sum in front of an angle is read up to it. */
  lemma {:induction false} SumBeforeAngle(l: Ex, angle: Token, rest: Tokens)
    requires Written(l) == true && Level(l) >= 9 && IsAngle(angle)
    ensures var ts := RenderTo(l, [angle] + rest);
      SkipWs(ts) == ts && !Starts(ts, NotT) && Sum(ts) == Ok([angle] + rest, Tree(l))
  {
    var k := [angle] + rest;
    assert SkipWs(k) == k && Reach(k) == 8;
    HeadIs(l, k);
    HeadSkips(l, k);
    SumPrefix(l, k);
    SkipAfter(9, l, k);
    assert SumRest(k, Tree(l)) == Ok(k, Tree(l));
  }

  /**
   A shift takes everything to its right, however loosely it binds.  The second of
   its two tokens is always `<`, so a right shift is written with `>` and `<`.
   */
  lemma {:induction false} ShiftIsRead(l: Ex, angle: Token, w: nat, r: Ex, k: Tokens)
    requires Written(l) == true && Level(l) >= 9 && IsAngle(angle) && Written(r) == true && Stops(0, k) == true
    ensures Expression(RenderTo(l, [angle] + WsTo(w, [LessThan] + RenderTo(r, k)))) ==
      Ok(SkipWs(k), BinOp(Tree(l), if angle == LessThan then LeftShift else RightShift, Tree(r)))
  {
    var rest := WsTo(w, [LessThan] + RenderTo(r, k));
    var op := if angle == LessThan then LeftShift else RightShift;
    SumBeforeAngle(l, angle, rest);
    SkipWsTo(w, [LessThan] + RenderTo(r, k));
    assert Expression(RenderTo(r, k)) == Ok(SkipWs(k), Tree(r)) by { ExpressionParses(r, k); }
    ShiftRule(RenderTo(l, [angle] + rest), angle, rest, Tree(l), RenderTo(r, k), SkipWs(k), Tree(r));
    assert !Continues(SkipWs(k)) by { StopsEnds(k); }
    ShiftIsExpression(RenderTo(l, [angle] + rest), SkipWs(k), BinOp(Tree(l), op, Tree(r)));
  }

  lemma {:induction false} ShiftRule(ts: Tokens, angle: Token, rest: Tokens, left: Expr, inner: Tokens, s: Tokens,
        right: Expr)
    requires SkipWs(ts) == ts && Sum(ts) == Ok([angle] + rest, left) && IsAngle(angle)
    requires SkipWs(rest) == [LessThan] + inner && Expression(inner) == Ok(s, right)
    ensures Shift(ts) == Ok(s, BinOp(left, if angle == LessThan then LeftShift else RightShift, right))
  {
    ConsDrop(angle, rest);
    ConsDrop(LessThan, inner);
  }

  /** An angle that is not followed by `<` ends the parse: neither `a < b` nor `a >> b` is an expression. */
  lemma {:induction false} OneAngleFails(l: Ex, angle: Token, rest: Tokens)
    requires Written(l) && Level(l) >= 9 && IsAngle(angle) && !Starts(SkipWs(rest), LessThan)
    ensures Expression(RenderTo(l, [angle] + rest)) == No
  {
    SumBeforeAngle(l, angle, rest);
    ConsDrop(angle, rest);
    NoShiftFails(RenderTo(l, [angle] + rest));
  }

  // ---- await ----

  /** `await` is dropped. */
  lemma {:induction false} AwaitIsDropped(w: nat, e: Ex, k: Tokens)
    requires w > 0 && Written(e) && Level(e) >= 13 && Stops(0, k)
    ensures Expression([Await] + WsTo(w, RenderTo(e, k))) == Ok(SkipWs(k), Tree(e))
  {
    var ts, inner := [Await] + WsTo(w, RenderTo(e, k)), RenderTo(e, k);
    ConsDrop(Await, WsTo(w, inner));
    SkipWsTo(w, inner);
    HeadSkips(e, k);
    PrimaryParses(e, k);
    SkipAfter(13, e, k);
    var s := After(13, e, k);
    assert ts[1] == Whitespace by { assert WsTo(w, inner) == [Whitespace] + WsTo(w - 1, inner); }
    assert AwaitPrimary(ts) == Ok(s, Tree(e));
    assert Stops(0, s) && SkipWs(s) == SkipWs(k) by { SkipTwice(k); }
    AwaitIsShift(ts, s, Tree(e));
    assert !Continues(s) by { StopsEnds(s); }
    ShiftIsExpression(ts, s, Tree(e));
  }

  lemma {:induction false} AwaitIsShift(ts: Tokens, s: Tokens, e: Expr)
    requires Starts(ts, Await) && AwaitPrimary(ts) == Ok(s, e) && Stops(0, s)
    ensures SkipWs(ts) == ts && Shift(ts) == Ok(s, e)
  {
    assert PowerExpr(ts) == Ok(s, e);
    assert Factor(ts) == Ok(s, e);
    assert TermRest(s, e) == No;
    assert Term(ts) == Ok(s, e);
    assert SumRest(s, e) == Ok(s, e);
    assert Sum(ts) == Ok(s, e);
    assert Starts(s, Whitespace) || s == SkipWs(s);
  }

  // ---- parentheses ----

  lemma {:induction false} NoAtomFails(ts: Tokens)
    requires Starts(ts, LParen) && TupleLiteral(ts) == No
    ensures Expression(ts) == No
  {
    assert SkipWs(ts) == ts;
    assert Atom(ts) == No;
    assert Primary(ts) == No;
    assert AwaitPrimary(ts) == No;
    assert PowerExpr(ts) == No;
    assert Factor(ts) == No;
    assert Term(ts) == No;
    assert Sum(ts) == No;
    assert Shift(ts) == No;
    NoShiftFails(ts);
  }

  /** An expression in parentheses is not an expression: only a tuple may stand there. */
  lemma {:induction false} ParenthesesFail(w: nat, e: Ex, k: Tokens)
    requires Written(e)
    ensures Expression([LParen] + WsTo(w, RenderTo(e, [RParen] + k))) == No
  {
    var inner := RenderTo(e, [RParen] + k);
    var ts := [LParen] + WsTo(w, inner);
    ConsDrop(LParen, WsTo(w, inner));
    SkipWsTo(w, inner);
    HeadSkips(e, [RParen] + k);
    assert Closes([RParen] + k);
    CloserStops([RParen] + k);
    ExpressionParses(e, [RParen] + k);
    assert SkipWs([RParen] + k) == [RParen] + k;
    assert TupleInner(inner) == No;
    NoAtomFails(ts);
  }

  /** And neither are empty ones. */
  lemma {:induction false} EmptyParenthesesFail(w: nat, k: Tokens)
    ensures Expression([LParen] + WsTo(w, [RParen] + k)) == No
  {
    var ts := [LParen] + WsTo(w, [RParen] + k);
    ConsDrop(LParen, WsTo(w, [RParen] + k));
    SkipWsTo(w, [RParen] + k);
    CloserFails([RParen] + k);
    assert TupleInner([RParen] + k) == No;
    NoAtomFails(ts);
  }

  // ---- panics ----

  /** Some elements or arguments, every one with a comma behind it. */
  function Before(args: Args, k: Tokens): Tokens
    decreases args, k
  {
    match args
    case NoArgs => k
    case MoreArgs(w, h, t) => WsTo(w, RenderTo(h, [Comma] + Before(t, k)))
  }

  lemma {:induction false} BeforeParts(args: Args, k: Tokens) returns (ts: Tokens, s: Tokens)
    requires args.MoreArgs? && WrittenArgs(args)
    ensures s == [Comma] + Before(args.tail, k) && s[1..] == Before(args.tail, k) && SkipWs(s) == s
    ensures SkipWs(Before(args, k)) == ts && SkipWs(ts) == ts && Expression(ts) == Ok(s, Tree(args.head))
  {
    CommaStops(Before(args.tail, k));
    s := [Comma] + Before(args.tail, k);
    ts := RenderTo(args.head, s);
    SkipWsTo(args.w, ts);
    HeadSkips(args.head, s);
    ExpressionParses(args.head, s);
  }

  lemma {:induction false} ElemsPanic(args: Args, k: Tokens)
    requires WrittenArgs(args) && Expression(SkipWs(k)) == Panic
    ensures MoreElems(SkipWs(Before(args, k))) == Panic
    decreases args
  {
    if args.MoreArgs? {
      ElemsPanic(args.tail, k);
      var ts, s := BeforeParts(args, k);
      ElementPanics(ts, s, Tree(args.head));
    }
  }

  lemma {:induction false} ArgsPanic(args: Args, k: Tokens)
    requires WrittenArgs(args) && CallArgs(k) == Panic
    ensures CallArgs(Before(args, k)) == Panic
    decreases args
  {
    if args.MoreArgs? {
      ArgsPanic(args.tail, k);
      var _, _ := BeforeParts(args, k);
    }
  }

  lemma {:induction false} InnerPanics(args: Args, k: Tokens)
    requires WrittenArgs(args) == true && Expression(SkipWs(k)) == Panic
    ensures TupleInner(SkipWs(Before(args, k))) == Panic
  {
    if args.MoreArgs? {
      assert MoreElems(SkipWs(Before(args.tail, k))) == Panic by { ElemsPanic(args.tail, k); }
      var ts, s := BeforeParts(args, k);
      ElementPanics(ts, s, Tree(args.head));
    }
  }

  lemma {:induction false} ElementPanics(ts: Tokens, s: Tokens, e: Expr)
    requires Expression(ts) == Ok(s, e) && Starts(s, Comma) && MoreElems(SkipWs(s[1..])) == Panic
    ensures TupleInner(ts) == Panic && MoreElems(ts) == Panic
  {
    assert SkipWs(s) == s;
  }

  /** A panic in any element of a tuple is a panic of the whole expression. */
  lemma {:induction false} PanicSpreads(args: Args, k: Tokens)
    requires WrittenArgs(args) == true && Expression(SkipWs(k)) == Panic
    ensures Expression([LParen] + Before(args, k)) == Panic
  {
    ConsDrop(LParen, Before(args, k));
    InnerPanics(args, k);
    TuplePanics([LParen] + Before(args, k));
  }

  lemma {:induction false} TuplePanics(all: Tokens)
    requires Starts(all, LParen) && TupleInner(SkipWs(all[1..])) == Panic
    ensures Expression(all) == Panic
  {
    assert SkipWs(all) == all;
    assert Atom(all) == Panic;
    assert Primary(all) == Panic;
    assert AwaitPrimary(all) == Panic;
    assert PowerExpr(all) == Panic;
    assert Factor(all) == Panic;
    assert Term(all) == Panic;
    assert Sum(all) == Panic;
    assert Shift(all) == Panic;
    assert BitAnd(all) == Panic;
    assert BitXor(all) == Panic;
    assert BitOr(all) == Panic;
    assert Equality(all) == Panic;
    assert Comparison(all) == Panic;
    assert NotComparison(all) == No;
    assert Inversion(all) == Panic;
    assert AndInversion(all) == Panic;
    assert Conjunction(all) == Panic;
    assert OrConjunction(all) == Panic;
    assert Disjunction(all) == Panic;
    assert Conditional(all) == Panic;
  }

  /** A sign after the point of a number is a panic. */
  lemma {:induction false} NegativeFractionPanics(whole: int, part: int, k: Tokens)
    requires part < 0
    ensures Primary([Digits(whole)] + ([DotT] + ([Digits(part)] + k))) == Panic
  {
    FloatTokens(whole, part, k);
  }
}
