/**
 The expression parser (montyc_parser/src/comb/expr.rs, primary.rs, atom.rs and
 core.rs).

 A parser takes the tokens that are left and answers with a tree and the tokens
 after it, with no match, or with a panic.  Alternatives are tried in order, and
 a panic is never recovered from.
 */
module Parser {
  import opened RawInst
  import opened Ast

  datatype Token =
    | Ident(name: Name) | Digits(value: int) | StringRef(name: Name)
    | TrueT | FalseT | NoneT | EllipsisT
    | LParen | RParen | LBracket | RBracket | Comma | DotT
    | Plus | Minus | Tilde | Star | DivT | Modulo | At
    | LessThan | GreaterThan | AndT | Caret | Pipe | Equal | Bang
    | NotT | OrT | IfT | ElseT | Await
    | Whitespace
    | OtherT(kind: nat)

  type Tokens = seq<Token>

  datatype Res<T> = Ok(rest: Tokens, v: T) | No | Panic

  /** `whitespace` */
  function SkipWs(ts: Tokens): (r: Tokens)
    ensures |r| <= |ts| && !Starts(r, Whitespace)
  {
    if Starts(ts, Whitespace) then SkipWs(ts[1..]) else ts
  }

  /** `expect`: is this the next token? */
  predicate Starts(ts: Tokens, t: Token) {
    |ts| > 0 && ts[0] == t
  }

  // `expect_any_token`, for each choice of tokens

  predicate StartsSign(ts: Tokens) {
    |ts| > 0 && (ts[0] == Plus || ts[0] == Minus || ts[0] == Tilde)
  }

  predicate StartsTermOp(ts: Tokens) {
    |ts| > 0 && (ts[0] == Star || ts[0] == DivT || ts[0] == Modulo || ts[0] == At)
  }

  predicate StartsSumOp(ts: Tokens) {
    |ts| > 0 && (ts[0] == Plus || ts[0] == Minus)
  }

  predicate StartsShift(ts: Tokens) {
    |ts| > 0 && (ts[0] == LessThan || ts[0] == GreaterThan)
  }

  /** `==` or `!=`, which are two tokens. */
  predicate StartsEquality(ts: Tokens) {
    |ts| > 1 && (ts[0] == Equal || ts[0] == Bang) && ts[1] == Equal
  }

  // ---- atoms ----

  /** The least power of ten above `n`. */
  function Scale(n: int): (r: int)
    ensures r > 0
    decreases if n < 0 then 0 else n
  {
    if n < 10 then 10 else 10 * Scale(n / 10)
  }

  /**
   A float literal from the numbers before and after its point, which are
   written out with a point between them and read again; a sign goes with the
   whole, and zeros right after the point are lost.
   */
  function FloatOf(whole: int, part: nat): real {
    var fraction := part as real / Scale(part) as real;
    if whole < 0 then whole as real - fraction else whole as real + fraction
  }

  function Atom(ts: Tokens): (r: Res<Expr>)
    ensures r.Ok? ==> |r.rest| < |ts|
    decreases |ts|, 4
  {
    if |ts| == 0 then No else
    match ts[0]
    case Ident(n) => Ok(ts[1..], NameRef(n))
    case Digits(i) =>
      if |ts| > 2 && ts[1] == DotT && ts[2].Digits? then
        if ts[2].value < 0 then Panic else Ok(ts[3..], Lit(FloatConst(FloatOf(i, ts[2].value))))
      else Ok(ts[1..], Lit(IntConst(i)))
    case StringRef(s) => Ok(ts[1..], Lit(StrConst(s)))
    case LParen => TupleLiteral(ts)
    case TrueT => Ok(ts[1..], Lit(BoolConst(true)))
    case FalseT => Ok(ts[1..], Lit(BoolConst(false)))
    case NoneT => Ok(ts[1..], Lit(NoneConst))
    case EllipsisT => Ok(ts[1..], Lit(EllipsisConst))
    case _ => No
  }

  function TupleLiteral(ts: Tokens): (r: Res<Expr>)
    ensures r.Ok? ==> |r.rest| < |ts|
    decreases |ts|, 3
  {
    if !Starts(ts, LParen) then No else
    match TupleInner(SkipWs(ts[1..]))
    case No => No
    case Panic => Panic
    case Ok(s, es) => if Starts(s, RParen) then Ok(s[1..], TupleLit(es)) else No
  }

  /** `tuple_literal_inner`: expressions with a comma after the first. */
  function TupleInner(ts: Tokens): (r: Res<Exprs>)
    ensures r.Ok? ==> |r.rest| < |ts|
    decreases |ts|, 27
  {
    match Expression(ts)
    case No => No
    case Panic => Panic
    case Ok(s, first) =>
      var s1 := SkipWs(s);
      if !Starts(s1, Comma) then No else
      match MoreElems(SkipWs(s1[1..]))
      case No => No
      case Panic => Panic
      case Ok(s2, es) => Ok(s2, MoreExprs(first, es))
  }

  /** The elements after the first comma; there may be none, and the last one may have a comma too. */
  function MoreElems(ts: Tokens): (r: Res<Exprs>)
    ensures r.Ok? ==> |r.rest| <= |ts|
    decreases |ts|, 27
  {
    match Expression(ts)
    case No => Ok(SkipWs(ts), NoExprs)
    case Panic => Panic
    case Ok(s, e) =>
      var s1 := SkipWs(s);
      if !Starts(s1, Comma) then Ok(s1, MoreExprs(e, NoExprs)) else
      match MoreElems(SkipWs(s1[1..]))
      case No => No
      case Panic => Panic
      case Ok(s2, es) => Ok(s2, MoreExprs(e, es))
  }

  // ---- primaries ----

  /** The arguments of a call up to the closing parenthesis; anything else is a panic. */
  function CallArgs(ts: Tokens): (r: Res<Exprs>)
    ensures r.Ok? ==> |r.rest| < |ts|
    decreases |ts|, 27
  {
    var s := SkipWs(ts);
    match Expression(s)
    case Panic => Panic
    case No => if Starts(s, RParen) then Ok(s[1..], NoExprs) else Panic
    case Ok(s1, e) =>
      var s2 := SkipWs(s1);
      if Starts(s2, Comma) then
        match CallArgs(s2[1..])
        case No => No
        case Panic => Panic
        case Ok(s3, es) => Ok(s3, MoreExprs(e, es))
      else if Starts(s2, RParen) then Ok(s2[1..], MoreExprs(e, NoExprs))
      else Panic
  }

  /** `primary_dot_name` */
  function DotName(ts: Tokens, base: Expr): (r: Res<Expr>)
    ensures r.Ok? ==> |r.rest| < |ts|
  {
    var s := SkipWs(ts);
    if !Starts(s, DotT) then No else
    var s1 := SkipWs(s[1..]);
    if |s1| == 0 || !s1[0].Ident? then No
    else Ok(SkipWs(s1[1..]), Attribute(base, s1[0].name))
  }

  /** `primary_subscript` */
  function SubscriptOf(ts: Tokens, base: Expr): (r: Res<Expr>)
    ensures r.Ok? ==> |r.rest| < |ts|
    decreases |ts|, 3, base
  {
    if !Starts(ts, LBracket) then No else
    var s := SkipWs(ts[1..]);
    match Index(s)
    case No => No
    case Panic => Panic
    case Ok(s1, index) =>
      var s2 := SkipWs(s1);
      if Starts(s2, RBracket) then Ok(s2[1..], Subscript(base, index)) else No
  }

  /** What stands between brackets: a bare tuple, or else an expression. */
  function Index(ts: Tokens): (r: Res<Expr>)
    ensures r.Ok? ==> |r.rest| < |ts|
    decreases |ts|, 28
  {
    match TupleInner(ts)
    case Panic => Panic
    case Ok(s, es) => Ok(s, TupleLit(es))
    case No => Expression(ts)
  }

  /** One trailer: an attribute, a call or a subscript. */
  function Trailer(ts: Tokens, base: Expr): (r: Res<Expr>)
    ensures r.Ok? ==> |r.rest| < |ts|
    decreases |ts|, 4, base
  {
    match DotName(ts, base)
    case Ok(s, e) => Ok(s, e)
    case Panic => Panic
    case No =>
      if Starts(ts, LParen) then
        match CallArgs(SkipWs(ts[1..]))
        case Panic => Panic
        case No => SubscriptOf(ts, base)
        case Ok(s, args) => Ok(s, CallExpr(base, args))
      else SubscriptOf(ts, base)
  }

  /** `primary_left_recurse`: at least one trailer. */
  function LeftRecurse(ts: Tokens, base: Expr): (r: Res<Expr>)
    ensures r.Ok? ==> |r.rest| < |ts|
    decreases |ts|, 5, base
  {
    match Trailer(ts, base)
    case No => No
    case Panic => Panic
    case Ok(s, e) => Trailers(s, e)
  }

  /** As many trailers as there are. */
  function Trailers(ts: Tokens, base: Expr): (r: Res<Expr>)
    ensures r.Ok? ==> |r.rest| <= |ts|
    decreases |ts|, 6, base
  {
    match LeftRecurse(ts, base)
    case No => Ok(ts, base)
    case Panic => Panic
    case Ok(s, e) => Trailers(s, e)
  }

  function Primary(ts: Tokens): (r: Res<Expr>)
    ensures r.Ok? ==> |r.rest| < |ts|
    decreases |ts|, 7
  {
    match Atom(ts)
    case No => No
    case Panic => Panic
    case Ok(s, base) =>
      match LeftRecurse(s, base)
      case No => Ok(s, base)
      case Panic => Panic
      case Ok(s1, e) => Ok(s1, e)
  }

  /** `await` is dropped. */
  function AwaitPrimary(ts: Tokens): (r: Res<Expr>)
    ensures r.Ok? ==> |r.rest| < |ts|
    decreases |ts|, 8
  {
    if |ts| > 1 && ts[0] == Await && ts[1] == Whitespace then AwaitPrimary(SkipWs(ts[1..])) else Primary(ts)
  }

  // ---- operators, tightest first ----

  function PowerExpr(ts: Tokens): (r: Res<Expr>)
    ensures r.Ok? ==> |r.rest| < |ts|
    decreases |ts|, 9
  {
    match AwaitPrimary(ts)
    case No => No
    case Panic => Panic
    case Ok(s, left) =>
      var s1 := SkipWs(s);
      if |s1| > 1 && s1[0] == Star && s1[1] == Star then
        match Factor(SkipWs(s1[2..]))
        case No => No
        case Panic => Panic
        case Ok(s2, right) => Ok(s2, BinOp(left, InfixOp.Power, right))
      else Ok(s, left)
  }

  function UnaryOf(t: Token): UnaryOp {
    if t == Plus then Pos else if t == Minus then Neg else Invert
  }

  function Factor(ts: Tokens): (r: Res<Expr>)
    ensures r.Ok? ==> |r.rest| < |ts|
    decreases |ts|, 10
  {
    if StartsSign(ts) then
      match Factor(ts[1..])
      case No => No
      case Panic => Panic
      case Ok(s, v) => Ok(s, Unary(UnaryOf(ts[0]), v))
    else PowerExpr(ts)
  }

  function TermOf(t: Token): InfixOp {
    match t
    case At => MatMult
    case Modulo => Mod
    case Star => Mult
    case _ => InfixOp.Div
  }

  /** One multiplicative operator at most; a slash after any of them makes it a floor division. */
  function TermRest(ts: Tokens, left: Expr): (r: Res<Expr>)
    ensures r.Ok? ==> |r.rest| < |ts|
    decreases |ts|, 11, left
  {
    var s := SkipWs(ts);
    if !StartsTermOp(s) then No else
    var floor := Starts(s[1..], DivT);
    match Factor(SkipWs(if floor then s[2..] else s[1..]))
    case No => No
    case Panic => Panic
    case Ok(s1, right) => Ok(s1, BinOp(left, if floor then FloorDiv else TermOf(s[0]), right))
  }

  function Term(ts: Tokens): (r: Res<Expr>)
    ensures r.Ok? ==> |r.rest| < |ts|
    decreases |ts|, 12
  {
    match Factor(SkipWs(ts))
    case No => No
    case Panic => Panic
    case Ok(s, base) =>
      match TermRest(s, base)
      case No => Ok(s, base)
      case Panic => Panic
      case Ok(s1, e) => Ok(s1, e)
  }

  /** Further terms of a sum, to the left of which `left` has been read. */
  function SumRest(ts: Tokens, left: Expr): (r: Res<Expr>)
    ensures r.Ok? ==> |r.rest| <= |ts|
    decreases |ts|, 13, left
  {
    var s := SkipWs(ts);
    if !StartsSumOp(s) then Ok(ts, left) else
    match Term(SkipWs(s[1..]))
    case No => Ok(ts, left)
    case Panic => Panic
    case Ok(s1, right) => SumRest(s1, BinOp(left, if s[0] == Plus then Add else Sub, right))
  }

  function Sum(ts: Tokens): (r: Res<Expr>)
    ensures r.Ok? ==> |r.rest| < |ts|
    decreases |ts|, 13
  {
    match Term(SkipWs(ts))
    case No => No
    case Panic => Panic
    case Ok(s, e) => SumRest(s, e)
  }

  function Shift(ts: Tokens): (r: Res<Expr>)
    ensures r.Ok? ==> |r.rest| < |ts|
    decreases |ts|, 14
  {
    match Sum(SkipWs(ts))
    case No => No
    case Panic => Panic
    case Ok(s, base) =>
      if !StartsShift(s) then Ok(s, base) else
      var s1 := SkipWs(s[1..]);
      if !Starts(s1, LessThan) then No else
      match Expression(s1[1..])
      case No => No
      case Panic => Panic
      case Ok(s2, right) => Ok(s2, BinOp(base, if s[0] == LessThan then LeftShift else RightShift, right))
  }

  function BitAnd(ts: Tokens): (r: Res<Expr>)
    ensures r.Ok? ==> |r.rest| < |ts|
    decreases |ts|, 15
  {
    match Shift(SkipWs(ts))
    case No => No
    case Panic => Panic
    case Ok(s, base) =>
      var s1 := SkipWs(s);
      if !Starts(s1, AndT) then Ok(s1, base) else
      match BitAnd(SkipWs(s1[1..]))
      case No => No
      case Panic => Panic
      case Ok(s2, right) => Ok(s2, BinOp(base, And, right))
  }

  function BitXor(ts: Tokens): (r: Res<Expr>)
    ensures r.Ok? ==> |r.rest| < |ts|
    decreases |ts|, 16
  {
    match BitAnd(SkipWs(ts))
    case No => No
    case Panic => Panic
    case Ok(s, base) =>
      var s1 := SkipWs(s);
      if !Starts(s1, Caret) then Ok(s1, base) else
      match BitXor(SkipWs(s1[1..]))
      case No => No
      case Panic => Panic
      case Ok(s2, right) => Ok(s2, BinOp(base, Xor, right))
  }

  function BitOr(ts: Tokens): (r: Res<Expr>)
    ensures r.Ok? ==> |r.rest| < |ts|
    decreases |ts|, 17
  {
    match BitXor(SkipWs(ts))
    case No => No
    case Panic => Panic
    case Ok(s, base) =>
      var s1 := SkipWs(s);
      if !Starts(s1, Pipe) then Ok(s1, base) else
      match BitOr(SkipWs(s1[1..]))
      case No => No
      case Panic => Panic
      case Ok(s2, right) => Ok(s2, BinOp(base, Or, right))
  }

  function Equality(ts: Tokens): (r: Res<Expr>)
    ensures r.Ok? ==> |r.rest| < |ts|
    decreases |ts|, 18
  {
    match BitOr(SkipWs(ts))
    case No => No
    case Panic => Panic
    case Ok(s, left) =>
      var s1 := SkipWs(s);
      if !StartsEquality(s1) then No else
      match Comparison(SkipWs(s1[2..]))
      case No => No
      case Panic => Panic
      case Ok(s2, right) => Ok(s2, BinOp(left, if s1[0] == Bang then NotEq else Eq, right))
  }

  function Comparison(ts: Tokens): (r: Res<Expr>)
    ensures r.Ok? ==> |r.rest| < |ts|
    decreases |ts|, 19
  {
    match Equality(ts)
    case Ok(s, e) => Ok(s, e)
    case Panic => Panic
    case No => BitOr(ts)
  }

  function Inversion(ts: Tokens): (r: Res<Expr>)
    ensures r.Ok? ==> |r.rest| < |ts|
    decreases |ts|, 20
  {
    match NotComparison(ts)
    case Ok(s, e) => Ok(s, e)
    case Panic => Panic
    case No => Comparison(ts)
  }

  function NotComparison(ts: Tokens): (r: Res<Expr>)
    ensures r.Ok? ==> |r.rest| < |ts|
    decreases |ts|, 19
  {
    var s := SkipWs(ts);
    if !Starts(s, NotT) then No else
    match Inversion(s[1..])
    case No => No
    case Panic => Panic
    case Ok(s1, v) => Ok(s1, Unary(Not, v))
  }

  function Conjunction(ts: Tokens): (r: Res<Expr>)
    ensures r.Ok? ==> |r.rest| < |ts|
    decreases |ts|, 22
  {
    match AndInversion(ts)
    case Ok(s, e) => Ok(s, e)
    case Panic => Panic
    case No => Inversion(ts)
  }

  function AndInversion(ts: Tokens): (r: Res<Expr>)
    ensures r.Ok? ==> |r.rest| < |ts|
    decreases |ts|, 21
  {
    match Inversion(ts)
    case No => No
    case Panic => Panic
    case Ok(s, left) =>
      var s1 := SkipWs(s);
      if !Starts(s1, AndT) then No else
      match Conjunction(SkipWs(s1[1..]))
      case No => No
      case Panic => Panic
      case Ok(s2, right) => Ok(s2, BinOp(left, And, right))
  }

  function Disjunction(ts: Tokens): (r: Res<Expr>)
    ensures r.Ok? ==> |r.rest| < |ts|
    decreases |ts|, 24
  {
    match OrConjunction(ts)
    case Ok(s, e) => Ok(s, e)
    case Panic => Panic
    case No => Conjunction(ts)
  }

  function OrConjunction(ts: Tokens): (r: Res<Expr>)
    ensures r.Ok? ==> |r.rest| < |ts|
    decreases |ts|, 23
  {
    match Conjunction(ts)
    case No => No
    case Panic => Panic
    case Ok(s, left) =>
      var s1 := SkipWs(s);
      if !Starts(s1, OrT) then No else
      match Disjunction(SkipWs(s1[1..]))
      case No => No
      case Panic => Panic
      case Ok(s2, right) => Ok(s2, BinOp(left, Or, right))
  }

  function Expression(ts: Tokens): (r: Res<Expr>)
    ensures r.Ok? ==> |r.rest| < |ts|
    decreases |ts|, 26
  {
    match Conditional(ts)
    case Ok(s, e) => Ok(SkipWs(s), e)
    case Panic => Panic
    case No =>
      match Disjunction(ts)
      case No => No
      case Panic => Panic
      case Ok(s, e) => Ok(SkipWs(s), e)
  }

  /** `ternary_disjunction` */
  function Conditional(ts: Tokens): (r: Res<Expr>)
    ensures r.Ok? ==> |r.rest| < |ts|
    decreases |ts|, 25
  {
    match Disjunction(ts)
    case No => No
    case Panic => Panic
    case Ok(s, body) =>
      var s1 := SkipWs(s);
      if !Starts(s1, IfT) then No else
      match Disjunction(SkipWs(s1[1..]))
      case No => No
      case Panic => Panic
      case Ok(s2, test) =>
        var s3 := SkipWs(s2);
        if !Starts(s3, ElseT) then No else
        match Expression(SkipWs(s3[1..]))
        case No => No
        case Panic => Panic
        case Ok(s4, orelse) => Ok(s4, Ternary(test, body, orelse))
  }
}
