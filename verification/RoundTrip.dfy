/**
 The parser reads back every written expression, and stops exactly where it
 ends (montyc_parser/src/comb/expr.rs, primary.rs, atom.rs).

 There is one lemma for each parsing function: on the tokens of an expression
 of its level or a higher one, followed by tokens that do not continue it, the
 function answers with the tree and with what is left.
 */
module RoundTrip {
  import opened RawInst
  import opened Ast
  import opened Parser
  import opened Rendering

  lemma {:induction false} SkipTwice(k: Tokens)
    ensures SkipWs(SkipWs(k)) == SkipWs(k)
  {
  }

  lemma {:induction false} SkipAfter(l: nat, e: Ex, k: Tokens)
    ensures SkipWs(After(l, e, k)) == SkipWs(k)
  {
    SkipTwice(k);
  }

  lemma {:induction false} ConsDrop(t: Token, k: Tokens)
    ensures ([t] + k)[1..] == k
  {
  }

  // ---- closing brackets begin no expression ----

  predicate Closes(ts: Tokens) {
    Starts(ts, RParen) || Starts(ts, RBracket)
  }

  lemma {:induction false} CloserFails(ts: Tokens)
    requires Closes(ts)
    ensures Expression(ts) == No && SkipWs(ts) == ts
  {
    assert SkipWs(ts) == ts;
    assert Atom(ts) == No;
    assert Primary(ts) == No;
    assert AwaitPrimary(ts) == No;
    assert PowerExpr(ts) == No;
    assert Factor(ts) == No;
    assert Term(ts) == No;
    assert Sum(ts) == No;
    assert Shift(ts) == No;
    assert BitAnd(ts) == No;
    assert BitXor(ts) == No;
    assert BitOr(ts) == No;
    assert Equality(ts) == No;
    assert Comparison(ts) == No;
    assert NotComparison(ts) == No;
    assert Inversion(ts) == No;
    assert AndInversion(ts) == No;
    assert Conjunction(ts) == No;
    assert OrConjunction(ts) == No;
    assert Disjunction(ts) == No;
    assert Conditional(ts) == No;
  }

  // ---- trailers ----

  /** When the trailers have been read there are no more. */
  lemma {:induction false} TrailersDone(ts: Tokens, base: Expr)
    ensures var r := Trailers(ts, base); !r.No? && (r.Ok? ==> LeftRecurse(r.rest, r.v) == No)
    decreases |ts|
  {
    var r := LeftRecurse(ts, base);
    if r.Ok? { TrailersDone(r.rest, r.v); }
  }

  /** A trailer and then the trailers after it. */
  lemma {:induction false} TrailersStep(ts: Tokens, base: Expr)
    requires Trailer(ts, base).Ok?
    ensures Trailers(ts, base) == Trailers(Trailer(ts, base).rest, Trailer(ts, base).v)
  {
    var t := Trailer(ts, base);
    TrailersDone(t.rest, t.v);
    var r := Trailers(t.rest, t.v);
    assert LeftRecurse(ts, base) == r;
    if r.Ok? { assert Trailers(r.rest, r.v) == Ok(r.rest, r.v); }
  }

  lemma {:induction false} PrimaryIsTrailers(ts: Tokens)
    requires Atom(ts).Ok?
    ensures Primary(ts) == Trailers(Atom(ts).rest, Atom(ts).v)
  {
    var a := Atom(ts);
    var r := LeftRecurse(a.rest, a.v);
    if r.Ok? {
      var t := Trailer(a.rest, a.v);
      TrailersDone(t.rest, t.v);
      assert LeftRecurse(r.rest, r.v) == No;
      assert Trailers(r.rest, r.v) == Ok(r.rest, r.v);
    }
  }

  /** Not the point and the digits of a float. */
  predicate NoFraction(k: Tokens) {
    !(|k| > 1 && k[0] == DotT && k[1].Digits?)
  }

  lemma {:induction false} FloatTokens(i: int, p: int, k: Tokens)
    ensures var ts := [Digits(i)] + ([DotT] + ([Digits(p)] + k)); ts[1] == DotT && ts[2] == Digits(p) && ts[3..] == k
  {
    ConsDrop(Digits(i), [DotT] + ([Digits(p)] + k));
    ConsDrop(DotT, [Digits(p)] + k);
    ConsDrop(Digits(p), k);
  }

  // ---- atoms and primaries ----

  lemma {:induction false} AtomParses(e: Ex, k: Tokens)
    requires Written(e) && Level(e) == 14 && NoFraction(k)
    ensures Atom(RenderTo(e, k)) == Ok(k, Tree(e))
    decreases e, 2
  {
    match e
    case Tup(_, _, _) => TupParses(e, k);
    case FloatE(i, p) => FloatTokens(i, p, k);
    case NameE(n) => ConsDrop(Ident(n), k);
    case IntE(i) => ConsDrop(Digits(i), k); assert RenderTo(e, k)[1..] == k;
    case StrE(s) => ConsDrop(StringRef(s), k);
    case BoolE(b) => ConsDrop(if b then TrueT else FalseT, k);
    case NoneE => ConsDrop(NoneT, k);
    case EllipsisE => ConsDrop(EllipsisT, k);
  }

  lemma {:induction false} TupParses(e: Ex, k: Tokens)
    requires e.Tup? && Written(e)
    ensures Atom(RenderTo(e, k)) == Ok(k, Tree(e))
    decreases e, 1
  {
    var inner := RenderTo(e.first, [Comma] + ArgsTo(e.rest, [RParen] + k));
    var ts := [LParen] + WsTo(e.w, inner);
    ConsDrop(LParen, WsTo(e.w, inner));
    ConsDrop(RParen, k);
    SkipWsTo(e.w, inner);
    InnerParses(e, e.first, e.rest, [RParen] + k);
    TupleRule(ts, inner, [RParen] + k, MoreExprs(Tree(e.first), Trees(e.rest)));
  }

  lemma {:induction false} TupleRule(ts: Tokens, inner: Tokens, s: Tokens, es: Exprs)
    requires Starts(ts, LParen) && SkipWs(ts[1..]) == inner && TupleInner(inner) == Ok(s, es) && Starts(s, RParen)
    ensures Atom(ts) == Ok(s[1..], TupleLit(es))
  {
    assert TupleLiteral(ts) == Ok(s[1..], TupleLit(es));
  }

  /** Elements of a bare tuple up to a closing bracket. */
  lemma {:induction false} InnerParses(e: Ex, f: Ex, rest: Args, k: Tokens)
    requires (e.Tup? || e.IndexTuple?) && f == e.first && rest == e.rest
    requires Written(f) && WrittenArgs(rest) && Closes(k)
    ensures SkipWs(RenderTo(f, [Comma] + ArgsTo(rest, k))) == RenderTo(f, [Comma] + ArgsTo(rest, k))
    ensures TupleInner(RenderTo(f, [Comma] + ArgsTo(rest, k))) == Ok(k, MoreExprs(Tree(f), Trees(rest)))
    decreases e, 0
  {
    var elems := ArgsTo(rest, k);
    var more := [Comma] + elems;
    HeadSkips(f, more);
    CommaStops(elems);
    ExpressionParses(f, more);
    ElemsParse(rest, k);
    TupleInnerRule(RenderTo(f, more), more, Tree(f), k, Trees(rest));
  }

  lemma {:induction false} TupleInnerRule(ts: Tokens, s: Tokens, first: Expr, rest: Tokens, es: Exprs)
    requires Expression(ts) == Ok(s, first) && Starts(s, Comma) && MoreElems(SkipWs(s[1..])) == Ok(rest, es)
    ensures TupleInner(ts) == Ok(rest, MoreExprs(first, es))
  {
  }

  lemma {:induction false} CommaStops(k: Tokens)
    ensures Stops(0, [Comma] + k) && SkipWs([Comma] + k) == [Comma] + k && ([Comma] + k)[1..] == k
  {
  }

  lemma {:induction false} CloserStops(k: Tokens)
    requires Closes(k)
    ensures Stops(0, k) && SkipWs(k) == k
  {
  }

  lemma {:induction false} HeadSkips(e: Ex, k: Tokens)
    requires Written(e) == true
    ensures SkipWs(RenderTo(e, k)) == RenderTo(e, k)
  {
    HeadIs(e, k);
  }

  lemma {:induction false} ElemsParse(args: Args, k: Tokens)
    requires WrittenArgs(args) && Closes(k)
    ensures MoreElems(SkipWs(ArgsTo(args, k))) == Ok(k, Trees(args))
    decreases args, 0
  {
    match args
    case NoArgs => CloserFails(k);
    case MoreArgs(w, h, t) =>
      var ts, after := ArgParts(args, k);
      if t.NoArgs? {
        CloserStops(k);
        ExpressionParses(h, k);
        LastElemRule(ts, k, Tree(h));
      } else {
        CommaStops(ArgsTo(t, k));
        ExpressionParses(h, after);
        ElemsParse(t, k);
        NextElemRule(ts, after, Tree(h), k, Trees(t));
      }
  }

  lemma {:induction false} LastElemRule(ts: Tokens, s: Tokens, e: Expr)
    requires Expression(ts) == Ok(s, e) && Closes(s)
    ensures MoreElems(ts) == Ok(s, MoreExprs(e, NoExprs))
  {
    assert SkipWs(s) == s;
  }

  lemma {:induction false} NextElemRule(ts: Tokens, s: Tokens, e: Expr, rest: Tokens, es: Exprs)
    requires Expression(ts) == Ok(s, e) && Starts(s, Comma) && MoreElems(SkipWs(s[1..])) == Ok(rest, es)
    ensures MoreElems(ts) == Ok(rest, MoreExprs(e, es))
  {
    assert SkipWs(s) == s;
  }

  lemma {:induction false} LastArgRule(ts: Tokens, s: Tokens, e: Expr)
    requires SkipWs(ts) == ts && Expression(ts) == Ok(s, e) && Starts(s, RParen)
    ensures CallArgs(ts) == Ok(s[1..], MoreExprs(e, NoExprs))
  {
    assert SkipWs(s) == s;
  }

  lemma {:induction false} NextArgRule(ts: Tokens, s: Tokens, e: Expr, rest: Tokens, es: Exprs)
    requires SkipWs(ts) == ts && Expression(ts) == Ok(s, e) && Starts(s, Comma) && CallArgs(s[1..]) == Ok(rest, es)
    ensures CallArgs(ts) == Ok(rest, MoreExprs(e, es))
  {
    assert SkipWs(s) == s;
  }

  lemma {:induction false} CallArgsSkips(ts: Tokens)
    ensures CallArgs(ts) == CallArgs(SkipWs(ts))
  {
    SkipTwice(ts);
  }

  /** The tokens of some elements. */
  lemma {:induction false} ArgParts(args: Args, k: Tokens) returns (ts: Tokens, after: Tokens)
    requires args.MoreArgs? && WrittenArgs(args)
    ensures after == if args.tail.NoArgs? then k else [Comma] + ArgsTo(args.tail, k)
    ensures ts == RenderTo(args.head, after) && SkipWs(ArgsTo(args, k)) == ts && SkipWs(ts) == ts
  {
    after := if args.tail.NoArgs? then k else [Comma] + ArgsTo(args.tail, k);
    ts := RenderTo(args.head, after);
    assert ArgsTo(args, k) == WsTo(args.w, ts);
    SkipWsTo(args.w, ts);
    HeadSkips(args.head, after);
  }

  lemma {:induction false} ArgsParse(args: Args, k: Tokens)
    requires WrittenArgs(args)
    ensures CallArgs(SkipWs(ArgsTo(args, [RParen] + k))) == Ok(k, Trees(args))
    ensures CallArgs(ArgsTo(args, [RParen] + k)) == Ok(k, Trees(args))
    decreases args, 0
  {
    var close := [RParen] + k;
    ConsDrop(RParen, k);
    CallArgsSkips(ArgsTo(args, close));
    match args
    case NoArgs => CloserFails(close);
    case MoreArgs(w, h, t) =>
      var ts, after := ArgParts(args, close);
      if t.NoArgs? {
        CloserStops(close);
        ExpressionParses(h, close);
        LastArgRule(ts, close, Tree(h));
      } else {
        CommaStops(ArgsTo(t, close));
        ExpressionParses(h, after);
        ArgsParse(t, k);
        NextArgRule(ts, after, Tree(h), k, Trees(t));
      }
  }

  /** Reading a primary comes down to reading its trailers from where it ends. */
  lemma {:induction false} ChainParses(e: Ex, k: Tokens)
    requires Written(e) && Level(e) >= 13 && NoFraction(k)
    ensures Primary(RenderTo(e, k)) == Trailers(After(13, e, k), Tree(e))
    decreases e, 3, 0
  {
    if e.CallE? {
      CallParses(e, k);
    } else if e.IndexE? {
      IndexParses(e, k);
    } else if e.IndexTuple? {
      IndexTupleParses(e, k);
    } else if e.DotE? {
      DotParses(e, k);
    } else {
      AtomParses(e, k);
      PrimaryIsTrailers(RenderTo(e, k));
    }
  }

  lemma {:induction false} CallParses(e: Ex, k: Tokens)
    requires e.CallE? && Written(e)
    ensures Primary(RenderTo(e, k)) == Trailers(k, Tree(e))
    decreases e, 1
  {
    var inner := ArgsTo(e.args, [RParen] + k);
    var ts := [LParen] + inner;
    ConsDrop(LParen, inner);
    assert Primary(RenderTo(e.f, ts)) == Trailers(ts, Tree(e.f)) by { ChainParses(e.f, ts); }
    assert CallArgs(SkipWs(inner)) == Ok(k, Trees(e.args)) by { ArgsParse(e.args, k); }
    CallRule(ts, Tree(e.f), k, Trees(e.args));
    TrailersStep(ts, Tree(e.f));
  }

  lemma {:induction false} CallRule(ts: Tokens, base: Expr, s: Tokens, args: Exprs)
    requires Starts(ts, LParen) && CallArgs(SkipWs(ts[1..])) == Ok(s, args)
    ensures Trailer(ts, base) == Ok(s, CallExpr(base, args))
  {
    assert DotName(ts, base) == No;
  }

  lemma {:induction false} IndexParses(e: Ex, k: Tokens)
    requires e.IndexE? && Written(e)
    ensures Primary(RenderTo(e, k)) == Trailers(k, Tree(e))
    decreases e, 1
  {
    var close := [RBracket] + k;
    var inner := RenderTo(e.index, close);
    var ts := [LBracket] + WsTo(e.w, inner);
    ConsDrop(LBracket, WsTo(e.w, inner));
    ConsDrop(RBracket, k);
    ChainParses(e.base, ts);
    SkipWsTo(e.w, inner);
    HeadSkips(e.index, close);
    CloserStops(close);
    ExpressionParses(e.index, close);
    IndexRule(inner, close, Tree(e.index));
    SubscriptRule(ts, Tree(e.base), inner, close, Tree(e.index));
    TrailersStep(ts, Tree(e.base));
  }

  lemma {:induction false} IndexTupleParses(e: Ex, k: Tokens)
    requires e.IndexTuple? && Written(e)
    ensures Primary(RenderTo(e, k)) == Trailers(k, Tree(e))
    decreases e, 1
  {
    var close := [RBracket] + k;
    var inner := RenderTo(e.first, [Comma] + ArgsTo(e.rest, close));
    var ts := [LBracket] + WsTo(e.w, inner);
    ConsDrop(LBracket, WsTo(e.w, inner));
    ConsDrop(RBracket, k);
    ChainParses(e.base, ts);
    SkipWsTo(e.w, inner);
    InnerParses(e, e.first, e.rest, close);
    var elems := MoreExprs(Tree(e.first), Trees(e.rest));
    assert Index(inner) == Ok(close, TupleLit(elems));
    SubscriptRule(ts, Tree(e.base), inner, close, TupleLit(elems));
    TrailersStep(ts, Tree(e.base));
  }

  lemma {:induction false} IndexRule(ts: Tokens, s: Tokens, e: Expr)
    requires Expression(ts) == Ok(s, e) && Closes(s)
    ensures Index(ts) == Ok(s, e)
  {
    assert TupleInner(ts) == No;
  }

  lemma {:induction false} SubscriptRule(ts: Tokens, base: Expr, inner: Tokens, s: Tokens, index: Expr)
    requires Starts(ts, LBracket) && SkipWs(ts[1..]) == inner && Index(inner) == Ok(s, index) && Starts(s, RBracket)
    ensures Trailer(ts, base) == Ok(s[1..], Subscript(base, index))
  {
    assert SubscriptOf(ts, base) == Ok(s[1..], Subscript(base, index));
  }

  lemma {:induction false} DotParses(e: Ex, k: Tokens)
    requires e.DotE? && Written(e)
    ensures Primary(RenderTo(e, k)) == Trailers(SkipWs(k), Tree(e))
    decreases e, 1
  {
    var last := [Ident(e.name)] + k;
    var dot := [DotT] + WsTo(e.w2, last);
    var ts := WsTo(e.w1, dot);
    ConsDrop(Ident(e.name), k);
    ConsDrop(DotT, WsTo(e.w2, last));
    SkipWsTo(e.w1, dot);
    SkipWsTo(e.w2, last);
    var from := After(13, e.base, ts);
    assert Primary(RenderTo(e.base, ts)) == Trailers(from, Tree(e.base)) by { ChainParses(e.base, ts); }
    SkipAfter(13, e.base, ts);
    assert DotName(from, Tree(e.base)) == Ok(SkipWs(k), Tree(e));
    assert Trailer(from, Tree(e.base)) == Ok(SkipWs(k), Tree(e));
    TrailersStep(from, Tree(e.base));
  }

  lemma {:induction false} PrimaryParses(e: Ex, k: Tokens)
    requires Written(e) == true && Level(e) >= 13 && Stops(13, k) == true
    ensures AwaitPrimary(RenderTo(e, k)) == Ok(After(13, e, k), Tree(e))
    decreases e, 3, 1
  {
    HeadIs(e, k);
    assert Primary(RenderTo(e, k)) == Trailers(After(13, e, k), Tree(e)) by { ChainParses(e, k); }
    SkipAfter(13, e, k);
    NoTrailers(After(13, e, k), k, Tree(e));
    NoAwait(RenderTo(e, k));
  }

  lemma {:induction false} NoAwait(ts: Tokens)
    requires |ts| > 0 && ts[0] != Await
    ensures AwaitPrimary(ts) == Primary(ts)
  {
  }

  lemma {:induction false} NoTrailers(s: Tokens, k: Tokens, base: Expr)
    requires SkipWs(s) == SkipWs(k) && Stops(13, k)
    ensures Trailers(s, base) == Ok(s, base)
  {
    assert Trailer(s, base) == No;
    assert LeftRecurse(s, base) == No;
  }

  // ---- rules: what a parsing function does when its parts are known ----

  lemma {:induction false} PowerRule(ts: Tokens, s: Tokens, left: Expr, s1: Tokens, right: Expr)
    requires AwaitPrimary(ts) == Ok(s, left)
    requires var o := SkipWs(s); |o| > 1 && o[0] == Star && o[1] == Star && Factor(SkipWs(o[2..])) == Ok(s1, right)
    ensures PowerExpr(ts) == Ok(s1, BinOp(left, InfixOp.Power, right))
  {
  }

  lemma {:induction false} TermRule(ts: Tokens, s: Tokens, left: Expr, s1: Tokens, right: Expr, floor: bool)
    requires SkipWs(ts) == ts && Factor(ts) == Ok(s, left)
    requires var o := SkipWs(s);
      StartsTermOp(o) && floor == Starts(o[1..], DivT) &&
        Factor(SkipWs(if floor then o[2..] else o[1..])) == Ok(s1, right)
    ensures Term(ts) == Ok(s1, BinOp(left, if floor then FloorDiv else TermOf(SkipWs(s)[0]), right))
  {
    assert TermRest(s, left).Ok?;
  }

  lemma {:induction false} NoTermRule(ts: Tokens, s: Tokens, e: Expr)
    requires SkipWs(ts) == ts && Factor(ts) == Ok(s, e) && !StartsTermOp(SkipWs(s))
    ensures Term(ts) == Ok(s, e)
  {
    assert TermRest(s, e) == No;
  }

  lemma {:induction false} SumRule(ts: Tokens, left: Expr, s: Tokens, right: Expr)
    requires StartsSumOp(SkipWs(ts)) && Term(SkipWs(SkipWs(ts)[1..])) == Ok(s, right)
    ensures SumRest(ts, left) == SumRest(s, BinOp(left, if SkipWs(ts)[0] == Plus then Add else Sub, right))
  {
  }

  lemma {:induction false} NoShiftRule(ts: Tokens, s: Tokens, e: Expr, k: Tokens)
    requires SkipWs(ts) == ts && Sum(ts) == SumRest(s, e) && (s == k || s == SkipWs(k)) && SkipWs(s) == SkipWs(k) &&
      Stops(8, k)
    ensures Shift(ts) == Ok(s, e)
  {
    assert !StartsSumOp(SkipWs(s));
    assert SumRest(s, e) == Ok(s, e);
    assert Starts(s, Whitespace) || s == SkipWs(s);
    assert !StartsShift(s);
  }

  lemma {:induction false} NoBitAndRule(ts: Tokens, s: Tokens, e: Expr)
    requires SkipWs(ts) == ts && Shift(ts) == Ok(s, e) && !Starts(SkipWs(s), AndT)
    ensures BitAnd(ts) == Ok(SkipWs(s), e)
  {
  }

  lemma {:induction false} BitAndRule(ts: Tokens, s: Tokens, left: Expr, s1: Tokens, right: Expr)
    requires SkipWs(ts) == ts && Shift(ts) == Ok(s, left)
    requires Starts(SkipWs(s), AndT) && BitAnd(SkipWs(SkipWs(s)[1..])) == Ok(s1, right)
    ensures BitAnd(ts) == Ok(s1, BinOp(left, And, right))
  {
  }

  lemma {:induction false} BitXorRule(ts: Tokens, s: Tokens, left: Expr, s1: Tokens, right: Expr)
    requires SkipWs(ts) == ts && BitAnd(ts) == Ok(s, left)
    requires Starts(SkipWs(s), Caret) && BitXor(SkipWs(SkipWs(s)[1..])) == Ok(s1, right)
    ensures BitXor(ts) == Ok(s1, BinOp(left, Xor, right))
  {
  }

  lemma {:induction false} BitOrRule(ts: Tokens, s: Tokens, left: Expr, s1: Tokens, right: Expr)
    requires SkipWs(ts) == ts && BitXor(ts) == Ok(s, left)
    requires Starts(SkipWs(s), Pipe) && BitOr(SkipWs(SkipWs(s)[1..])) == Ok(s1, right)
    ensures BitOr(ts) == Ok(s1, BinOp(left, Or, right))
  {
  }

  lemma {:induction false} EqualityRule(ts: Tokens, s: Tokens, left: Expr, s1: Tokens, right: Expr)
    requires SkipWs(ts) == ts && BitOr(ts) == Ok(s, left)
    requires var o := SkipWs(s); StartsEquality(o) && Comparison(SkipWs(o[2..])) == Ok(s1, right)
    ensures Comparison(ts) == Ok(s1, BinOp(left, if SkipWs(s)[0] == Bang then NotEq else Eq, right))
  {
    assert Equality(ts).Ok?;
  }

  lemma {:induction false} NoEqualityRule(ts: Tokens, s: Tokens, left: Expr)
    requires SkipWs(ts) == ts && BitOr(ts) == Ok(s, left)
    requires !StartsEquality(SkipWs(s))
    ensures Comparison(ts) == Ok(s, left)
  {
    assert Equality(ts) == No;
  }

  lemma {:induction false} NotRule(ts: Tokens, s: Tokens, v: Expr)
    requires Starts(ts, NotT) && Inversion(ts[1..]) == Ok(s, v)
    ensures Inversion(ts) == Ok(s, Unary(Not, v))
  {
    assert SkipWs(ts) == ts;
    assert NotComparison(ts).Ok?;
  }

  lemma {:induction false} NoNotRule(ts: Tokens)
    requires !Starts(SkipWs(ts), NotT)
    ensures Inversion(ts) == Comparison(ts)
  {
    assert NotComparison(ts) == No;
  }

  lemma {:induction false} NoAndRule(ts: Tokens, s: Tokens, v: Expr)
    requires Inversion(ts) == Ok(s, v) && !Starts(SkipWs(s), AndT)
    ensures Conjunction(ts) == Ok(s, v)
  {
    assert AndInversion(ts) == No;
  }

  lemma {:induction false} OrRule(ts: Tokens, s: Tokens, left: Expr, s1: Tokens, right: Expr)
    requires Conjunction(ts) == Ok(s, left) && Starts(SkipWs(s), OrT) &&
      Disjunction(SkipWs(SkipWs(s)[1..])) == Ok(s1, right)
    ensures Disjunction(ts) == Ok(s1, BinOp(left, Or, right))
  {
    assert OrConjunction(ts).Ok?;
  }

  lemma {:induction false} NoOrRule(ts: Tokens, s: Tokens, left: Expr)
    requires Conjunction(ts) == Ok(s, left) && !Starts(SkipWs(s), OrT)
    ensures Disjunction(ts) == Ok(s, left)
  {
    assert OrConjunction(ts) == No;
  }

  lemma {:induction false} CondRule(ts: Tokens, s: Tokens, body: Expr, s1: Tokens, test: Expr, s2: Tokens, orelse: Expr)
    requires Disjunction(ts) == Ok(s, body) && Starts(SkipWs(s), IfT) &&
      Disjunction(SkipWs(SkipWs(s)[1..])) == Ok(s1, test)
    requires Starts(SkipWs(s1), ElseT) && Expression(SkipWs(SkipWs(s1)[1..])) == Ok(s2, orelse)
    ensures Expression(ts) == Ok(SkipWs(s2), Ternary(test, body, orelse))
  {
    assert Conditional(ts) == Ok(s2, Ternary(test, body, orelse));
  }

  lemma {:induction false} NoCondRule(ts: Tokens, s: Tokens, e: Expr)
    requires Disjunction(ts) == Ok(s, e) && !Starts(SkipWs(s), IfT)
    ensures Expression(ts) == Ok(SkipWs(s), e)
  {
    assert Conditional(ts) == No;
  }

  /** White space, an operator, white space, an operand. */
  lemma {:induction false} OpParts(w1: nat, op: Token, w2: nat, r: Ex, k: Tokens) returns (ts: Tokens)
    requires Written(r) == true && op != Whitespace
    ensures ts == WsTo(w1, [op] + WsTo(w2, RenderTo(r, k)))
    ensures Starts(SkipWs(ts), op) && SkipWs(SkipWs(ts)[1..]) == RenderTo(r, k) && SkipWs(SkipWs(ts)) == SkipWs(ts)
  {
    var right := WsTo(w2, RenderTo(r, k));
    ts := WsTo(w1, [op] + right);
    SkipWsTo(w1, [op] + right);
    SkipWsTo(w2, RenderTo(r, k));
    ConsDrop(op, right);
    HeadSkips(r, k);
  }

  /** The same for an operator of two tokens. */
  lemma {:induction false} TwoParts(w1: nat, op: Token, next: Token, w2: nat, r: Ex, k: Tokens) returns (ts: Tokens)
    requires Written(r) == true && op != Whitespace
    ensures ts == WsTo(w1, [op] + ([next] + WsTo(w2, RenderTo(r, k))))
    ensures Starts(SkipWs(ts), op) && Starts(SkipWs(ts)[1..], next) && |SkipWs(ts)| > 1 && SkipWs(ts)[1] == next
    ensures SkipWs(SkipWs(ts)[2..]) == RenderTo(r, k) && SkipWs(SkipWs(ts)) == SkipWs(ts)
  {
    var right := WsTo(w2, RenderTo(r, k));
    var o := [op] + ([next] + right);
    ts := WsTo(w1, o);
    SkipWsTo(w1, o);
    SkipWsTo(w2, RenderTo(r, k));
    assert o[2..] == right;
    HeadSkips(r, k);
  }

  // ---- operators ----

  lemma {:induction false} PowerParses(e: Ex, k: Tokens)
    requires Written(e) && Level(e) >= 12 && Stops(12, k)
    ensures PowerExpr(RenderTo(e, k)) == Ok(After(12, e, k), Tree(e))
    decreases e, 4
  {
    if e.Pow? {
      PowParses(e, k);
    } else {
      PrimaryParses(e, k);
      SkipAfter(13, e, k);
    }
  }

  lemma {:induction false} PowParses(e: Ex, k: Tokens)
    requires e.Pow? && Written(e) == true && Stops(12, k) == true
    ensures PowerExpr(RenderTo(e, k)) == Ok(After(12, e, k), Tree(e))
    decreases e, 3, 2
  {
    var ts := TwoParts(e.w1, Star, Star, e.w2, e.r, k);
    assert AwaitPrimary(RenderTo(e.l, ts)) == Ok(After(13, e.l, ts), Tree(e.l)) by { PrimaryParses(e.l, ts); }
    assert Factor(RenderTo(e.r, k)) == Ok(After(11, e.r, k), Tree(e.r)) by { FactorParses(e.r, k); }
    SkipAfter(13, e.l, ts);
    PowerRule(RenderTo(e, k), After(13, e.l, ts), Tree(e.l), After(11, e.r, k), Tree(e.r));
  }

  lemma {:induction false} FactorParses(e: Ex, k: Tokens)
    requires Written(e) == true && Level(e) >= 11 && Stops(11, k) == true
    ensures Factor(RenderTo(e, k)) == Ok(After(11, e, k), Tree(e))
    decreases e, 5
  {
    if e.Sign? {
      SignParses(e, k);
    } else {
      HeadIs(e, k);
      assert PowerExpr(RenderTo(e, k)) == Ok(After(12, e, k), Tree(e)) by { PowerParses(e, k); }
    }
  }

  lemma {:induction false} SignParses(e: Ex, k: Tokens)
    requires e.Sign? && Written(e) && Stops(11, k)
    ensures Factor(RenderTo(e, k)) == Ok(After(11, e, k), Tree(e))
    decreases e, 4
  {
    ConsDrop(SignToken(e.sign), RenderTo(e.v, k));
    assert Factor(RenderTo(e.v, k)) == Ok(After(11, e.v, k), Tree(e.v)) by { FactorParses(e.v, k); }
  }

  lemma {:induction false} TermParses(e: Ex, k: Tokens)
    requires Written(e) == true && Level(e) >= 10 && Stops(10, k) == true
    ensures Term(RenderTo(e, k)) == Ok(After(10, e, k), Tree(e))
    decreases e, 6
  {
    if e.Prod? {
      ProdParses(e, k);
    } else {
      HeadSkips(e, k);
      FactorParses(e, k);
      SkipAfter(11, e, k);
      NoTermRule(RenderTo(e, k), After(11, e, k), Tree(e));
    }
  }

  function TermToken(op: TermOp): Token {
    match op
    case MulOp => Star
    case ModOp => Modulo
    case MatOp => At
    case _ => DivT
  }

  lemma {:induction false} ProdParses(e: Ex, k: Tokens)
    requires e.Prod? && Written(e) == true && Stops(10, k) == true
    ensures Term(RenderTo(e, k)) == Ok(After(10, e, k), Tree(e))
    decreases e, 5
  {
    HeadSkips(e, k);
    var ts := ProdParts(e, k);
    assert Factor(RenderTo(e.l, ts)) == Ok(After(11, e.l, ts), Tree(e.l)) by { FactorParses(e.l, ts); }
    assert Factor(RenderTo(e.r, k)) == Ok(After(11, e.r, k), Tree(e.r)) by { FactorParses(e.r, k); }
    SkipAfter(11, e.l, ts);
    assert After(10, e, k) == After(11, e.r, k);
    TermRule(RenderTo(e, k), After(11, e.l, ts), Tree(e.l), After(11, e.r, k), Tree(e.r), e.termOp == FloorOp);
  }

  lemma {:induction false} ProdParts(e: Ex, k: Tokens) returns (ts: Tokens)
    requires e.Prod? && Written(e) == true
    ensures RenderTo(e, k) == RenderTo(e.l, ts) && Stops(11, ts)
    ensures Starts(SkipWs(ts), TermToken(e.termOp)) && (Starts(SkipWs(ts)[1..], DivT) <==> e.termOp == FloorOp)
    ensures SkipWs(if e.termOp == FloorOp then SkipWs(ts)[2..] else SkipWs(ts)[1..]) == RenderTo(e.r, k)
  {
    if e.termOp == FloorOp {
      ts := TwoParts(e.w1, DivT, DivT, e.w2, e.r, k);
    } else {
      ts := OneTermOp(e.w1, e.termOp, e.w2, e.r, k);
    }
  }

  lemma {:induction false} OneTermOp(w1: nat, op: TermOp, w2: nat, r: Ex, k: Tokens) returns (ts: Tokens)
    requires op != FloorOp && Written(r) == true
    ensures ts == WsTo(w1, TermTo(op, WsTo(w2, RenderTo(r, k)))) && Stops(11, ts)
    ensures Starts(SkipWs(ts), TermToken(op)) && !Starts(SkipWs(ts)[1..], DivT) &&
      SkipWs(SkipWs(ts)[1..]) == RenderTo(r, k)
  {
    ts := OpParts(w1, TermToken(op), w2, r, k);
    var right := WsTo(w2, RenderTo(r, k));
    assert TermTo(op, right) == [TermToken(op)] + right;
    assert SkipWs(ts) == [TermToken(op)] + right by { SkipWsTo(w1, [TermToken(op)] + right); }
    assert !Starts(right, DivT) && !Starts(right, Star) by { SkipWsTo(w2, RenderTo(r, k)); HeadIs(r, k); }
    TermOpStops(op, right);
  }

  lemma {:induction false} TermOpStops(op: TermOp, right: Tokens)
    requires !Starts(right, Star)
    ensures Reach([TermToken(op)] + right) < 11 && ([TermToken(op)] + right)[1..] == right
  {
  }

  /** Reading a sum comes down to reading further terms from where it ends. */
  lemma {:induction false} SumPrefix(e: Ex, k: Tokens)
    requires Written(e) && Level(e) >= 9 && Stops(10, k)
    ensures Sum(RenderTo(e, k)) == SumRest(After(9, e, k), Tree(e))
    decreases e, 7
  {
    if e.SumE? {
      SumStep(e, k);
    } else {
      HeadSkips(e, k);
      TermParses(e, k);
    }
  }

  lemma {:induction false} SumStep(e: Ex, k: Tokens)
    requires e.SumE? && Written(e) && Stops(10, k)
    ensures Sum(RenderTo(e, k)) == SumRest(After(9, e, k), Tree(e))
    decreases e, 6
  {
    var ts := SumParts(e, k);
    var from := After(9, e.l, ts);
    assert Sum(RenderTo(e.l, ts)) == SumRest(from, Tree(e.l)) by { SumPrefix(e.l, ts); }
    assert Term(RenderTo(e.r, k)) == Ok(After(10, e.r, k), Tree(e.r)) by { TermParses(e.r, k); }
    SkipAfter(9, e.l, ts);
    SumRule(from, Tree(e.l), After(10, e.r, k), Tree(e.r));
  }

  lemma {:induction false} SumParts(e: Ex, k: Tokens) returns (ts: Tokens)
    requires e.SumE? && Written(e)
    ensures RenderTo(e, k) == RenderTo(e.l, ts) && Stops(10, ts) && After(9, e, k) == After(10, e.r, k)
    ensures Tree(e) == BinOp(Tree(e.l), if e.minus then Sub else Add, Tree(e.r))
    ensures StartsSumOp(SkipWs(ts)) && (SkipWs(ts)[0] == Plus <==> !e.minus)
    ensures SkipWs(SkipWs(ts)[1..]) == RenderTo(e.r, k)
  {
    ts := OpParts(e.w1, if e.minus then Minus else Plus, e.w2, e.r, k);
  }

  lemma {:induction false} ShiftParses(e: Ex, k: Tokens)
    requires Written(e) && Level(e) >= 8 && Stops(8, k)
    ensures Shift(RenderTo(e, k)) == Ok(After(8, e, k), Tree(e))
    decreases e, 8
  {
    HeadSkips(e, k);
    SumPrefix(e, k);
    SkipAfter(9, e, k);
    NoShiftRule(RenderTo(e, k), After(9, e, k), Tree(e), k);
  }

  lemma {:induction false} BitAndParses(e: Ex, k: Tokens)
    requires Written(e) && Level(e) >= 7 && Stops(7, k)
    ensures BitAnd(RenderTo(e, k)) == Ok(SkipWs(k), Tree(e))
    decreases e, 9
  {
    HeadSkips(e, k);
    if e.Bits? {
      AmpParses(e, k);
    } else {
      ShiftParses(e, k);
      SkipAfter(8, e, k);
      NoBitAndRule(RenderTo(e, k), After(8, e, k), Tree(e));
    }
  }

  lemma {:induction false} AmpParses(e: Ex, k: Tokens)
    requires e.Bits? && e.op == AmpOp && Written(e) && Stops(7, k)
    ensures BitAnd(RenderTo(e, k)) == Ok(SkipWs(k), Tree(e))
    decreases e, 8
  {
    HeadSkips(e, k);
    var ts := OpParts(e.w1, AndT, e.w2, e.r, k);
    ShiftParses(e.l, ts);
    SkipAfter(8, e.l, ts);
    BitAndParses(e.r, k);
    BitAndRule(RenderTo(e, k), After(8, e.l, ts), Tree(e.l), SkipWs(k), Tree(e.r));
  }

  lemma {:induction false} BitXorParses(e: Ex, k: Tokens)
    requires Written(e) == true && Level(e) >= 6 && Stops(6, k) == true
    ensures BitXor(RenderTo(e, k)) == Ok(SkipWs(k), Tree(e))
    decreases e, 10
  {
    HeadSkips(e, k);
    if e.Bits? && e.op == CaretOp {
      CaretParses(e, k);
    } else {
      BitAndParses(e, k);
      SkipTwice(k);
    }
  }

  lemma {:induction false} CaretParses(e: Ex, k: Tokens)
    requires e.Bits? && e.op == CaretOp && Written(e) && Stops(6, k)
    ensures BitXor(RenderTo(e, k)) == Ok(SkipWs(k), Tree(e))
    decreases e, 9
  {
    HeadSkips(e, k);
    var ts := OpParts(e.w1, Caret, e.w2, e.r, k);
    assert BitAnd(RenderTo(e.l, ts)) == Ok(SkipWs(ts), Tree(e.l)) by { BitAndParses(e.l, ts); }
    assert BitXor(RenderTo(e.r, k)) == Ok(SkipWs(k), Tree(e.r)) by { BitXorParses(e.r, k); }
    BitXorRule(RenderTo(e, k), SkipWs(ts), Tree(e.l), SkipWs(k), Tree(e.r));
  }

  lemma {:induction false} BitOrParses(e: Ex, k: Tokens)
    requires Written(e) == true && Level(e) >= 5 && Stops(5, k) == true
    ensures BitOr(RenderTo(e, k)) == Ok(SkipWs(k), Tree(e))
    decreases e, 11
  {
    HeadSkips(e, k);
    if e.Bits? && e.op == PipeOp {
      PipeParses(e, k);
    } else {
      BitXorParses(e, k);
      SkipTwice(k);
    }
  }

  lemma {:induction false} PipeParses(e: Ex, k: Tokens)
    requires e.Bits? && e.op == PipeOp && Written(e) == true && Stops(5, k) == true
    ensures BitOr(RenderTo(e, k)) == Ok(SkipWs(k), Tree(e))
    decreases e, 10
  {
    HeadSkips(e, k);
    var ts := OpParts(e.w1, Pipe, e.w2, e.r, k);
    assert BitXor(RenderTo(e.l, ts)) == Ok(SkipWs(ts), Tree(e.l)) by { BitXorParses(e.l, ts); }
    assert BitOr(RenderTo(e.r, k)) == Ok(SkipWs(k), Tree(e.r)) by { BitOrParses(e.r, k); }
    BitOrRule(RenderTo(e, k), SkipWs(ts), Tree(e.l), SkipWs(k), Tree(e.r));
  }

  lemma {:induction false} ComparisonParses(e: Ex, k: Tokens)
    requires Written(e) && Level(e) >= 4 && Stops(4, k)
    ensures Comparison(RenderTo(e, k)) == Ok(SkipWs(k), Tree(e))
    decreases e, 12
  {
    HeadSkips(e, k);
    if e.Cmp? {
      CmpParses(e, k);
    } else {
      BitOrParses(e, k);
      SkipTwice(k);
      NoEqualityRule(RenderTo(e, k), SkipWs(k), Tree(e));
    }
  }

  lemma {:induction false} CmpParses(e: Ex, k: Tokens)
    requires e.Cmp? && Written(e) && Stops(4, k)
    ensures Comparison(RenderTo(e, k)) == Ok(SkipWs(k), Tree(e))
    decreases e, 11
  {
    HeadSkips(e, k);
    var ts := CmpParts(e, k);
    assert BitOr(RenderTo(e.l, ts)) == Ok(SkipWs(ts), Tree(e.l)) by { BitOrParses(e.l, ts); }
    assert Comparison(RenderTo(e.r, k)) == Ok(SkipWs(k), Tree(e.r)) by { ComparisonParses(e.r, k); }
    SkipTwice(ts);
    EqualityRule(RenderTo(e, k), SkipWs(ts), Tree(e.l), SkipWs(k), Tree(e.r));
  }

  lemma {:induction false} CmpParts(e: Ex, k: Tokens) returns (ts: Tokens)
    requires e.Cmp? && Written(e) == true
    ensures RenderTo(e, k) == RenderTo(e.l, ts) && Stops(5, ts) == true
    ensures StartsEquality(SkipWs(ts)) && (SkipWs(ts)[0] == Bang <==> e.differs)
    ensures SkipWs(SkipWs(ts)[2..]) == RenderTo(e.r, k)
  {
    ts := TwoParts(e.w1, if e.differs then Bang else Equal, Equal, e.w2, e.r, k);
  }

  /** Leading white space makes no difference to an inversion. */
  lemma {:induction false} InversionSkips(ts: Tokens)
    ensures Inversion(ts) == Inversion(SkipWs(ts))
  {
    SkipTwice(ts);
    assert NotComparison(ts) == NotComparison(SkipWs(ts));
    assert Comparison(ts) == Comparison(SkipWs(ts)) by { ComparisonSkips(ts); }
  }

  lemma {:induction false} EqualitySkips(ts: Tokens)
    ensures Equality(ts) == Equality(SkipWs(ts))
  {
    SkipTwice(ts);
  }

  lemma {:induction false} ComparisonSkips(ts: Tokens)
    ensures Comparison(ts) == Comparison(SkipWs(ts))
  {
    SkipTwice(ts);
    assert BitOr(ts) == BitOr(SkipWs(ts));
    assert Equality(ts) == Equality(SkipWs(ts)) by { EqualitySkips(ts); }
  }

  lemma {:induction false} InversionParses(e: Ex, k: Tokens)
    requires Written(e) && Level(e) >= 3 && Stops(3, k)
    ensures Inversion(RenderTo(e, k)) == Ok(SkipWs(k), Tree(e))
    decreases e, 13
  {
    if e.Negated? {
      var value := RenderTo(e.v, k);
      ConsDrop(NotT, WsTo(e.w, value));
      SkipWsTo(e.w, value);
      HeadSkips(e.v, k);
      InversionSkips(WsTo(e.w, value));
      InversionParses(e.v, k);
      NotRule(RenderTo(e, k), SkipWs(k), Tree(e.v));
    } else {
      HeadIs(e, k);
      ComparisonParses(e, k);
      NoNotRule(RenderTo(e, k));
    }
  }

  lemma {:induction false} ConjunctionParses(e: Ex, k: Tokens)
    requires Written(e) == true && Level(e) >= 2 && Stops(2, k) == true
    ensures Conjunction(RenderTo(e, k)) == Ok(SkipWs(k), Tree(e))
    decreases e, 14
  {
    InversionParses(e, k);
    SkipTwice(k);
    NoAndRule(RenderTo(e, k), SkipWs(k), Tree(e));
  }

  lemma {:induction false} DisjunctionParses(e: Ex, k: Tokens)
    requires Written(e) == true && Level(e) >= 1 && Stops(1, k) == true
    ensures Disjunction(RenderTo(e, k)) == Ok(SkipWs(k), Tree(e))
    decreases e, 15
  {
    if e.Disj? {
      var ts := OpParts(e.w1, OrT, e.w2, e.r, k);
      ConjunctionParses(e.l, ts);
      DisjunctionParses(e.r, k);
      OrRule(RenderTo(e, k), SkipWs(ts), Tree(e.l), SkipWs(k), Tree(e.r));
    } else {
      ConjunctionParses(e, k);
      SkipTwice(k);
      NoOrRule(RenderTo(e, k), SkipWs(k), Tree(e));
    }
  }

  /**
   Every written expression, followed by something that does not continue it, is read back,
   and reading stops right there.
   */
  lemma {:induction false} ExpressionParses(e: Ex, k: Tokens)
    requires Written(e) && Stops(0, k)
    ensures Expression(RenderTo(e, k)) == Ok(SkipWs(k), Tree(e))
    decreases e, 17
  {
    if e.Cond? {
      CondParses(e, k);
    } else {
      DisjunctionParses(e, k);
      SkipTwice(k);
      NoCondRule(RenderTo(e, k), SkipWs(k), Tree(e));
    }
  }

  lemma {:induction false} SameTreeParses(a: Ex, b: Ex, k: Tokens)
    requires Written(a) && Written(b) && Stops(0, k) && Tree(a) == Tree(b)
    ensures Expression(RenderTo(a, k)) == Expression(RenderTo(b, k))
  {
    ExpressionParses(a, k);
    ExpressionParses(b, k);
  }

  /** `l or r` parses to the tree of `l | r`. */
  lemma {:induction false} OrParsesAsPipe(l: Ex, w1: nat, w2: nat, r: Ex, k: Tokens)
    requires Written(l) && Written(r) && Level(l) >= 6 && Level(r) >= 5 && Stops(0, k)
    ensures Expression(RenderTo(Disj(l, w1, w2, r), k)) == Expression(RenderTo(Bits(PipeOp, l, w1, w2, r), k))
  {
    SameTreeParses(Disj(l, w1, w2, r), Bits(PipeOp, l, w1, w2, r), k);
  }

  lemma {:induction false} KeywordStops(ts: Tokens)
    requires Starts(SkipWs(ts), IfT) || Starts(SkipWs(ts), ElseT)
    ensures Stops(1, ts)
  {
  }

  lemma {:induction false} CondParses(e: Ex, k: Tokens)
    requires e.Cond? && Written(e) && Stops(0, k)
    ensures Expression(RenderTo(e, k)) == Ok(SkipWs(k), Tree(e))
    decreases e, 16
  {
    var tail := OpParts(e.w3, ElseT, e.w4, e.orelse, k);
    var ts := OpParts(e.w1, IfT, e.w2, e.test, tail);
    KeywordStops(ts);
    KeywordStops(tail);
    DisjunctionParses(e.body, ts);
    DisjunctionParses(e.test, tail);
    ExpressionParses(e.orelse, k);
    SkipTwice(k);
    CondRule(RenderTo(e, k), SkipWs(ts), Tree(e.body), SkipWs(tail), Tree(e.test), SkipWs(k), Tree(e.orelse));
  }
}
