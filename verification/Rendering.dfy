/**
 Parsing inverts rendering.

 `Ex` is an expression as it is written, with the white space around its
 operators.  `Written` is the precedence grammar: sums nest to the left, the
 bitwise operators, comparisons and `or` to the right, a term has at most one
 operator, and the only brackets are those of tuples, calls and subscripts.
 `RenderTo(e, k)` puts the tokens of `e` before `k`, and `Tree(e)` is what `e`
 stands for.
 */
module Rendering {
  import opened RawInst
  import opened Ast
  import opened Parser

  datatype BitOp = PipeOp | CaretOp | AmpOp

  datatype TermOp = MulOp | DivOp | ModOp | MatOp | FloorOp

  datatype SignOp = PlusSign | MinusSign | TildeSign

  datatype Ex =
    | Cond(body: Ex, w1: nat, w2: nat, test: Ex, w3: nat, w4: nat, orelse: Ex)
    | Disj(l: Ex, w1: nat, w2: nat, r: Ex)
    | Negated(w: nat, v: Ex)
    | Cmp(l: Ex, w1: nat, differs: bool, w2: nat, r: Ex)
    | Bits(op: BitOp, l: Ex, w1: nat, w2: nat, r: Ex)
    | SumE(l: Ex, w1: nat, minus: bool, w2: nat, r: Ex)
    | Prod(termOp: TermOp, l: Ex, w1: nat, w2: nat, r: Ex)
    | Sign(sign: SignOp, v: Ex)
    | Pow(l: Ex, w1: nat, w2: nat, r: Ex)
    | CallE(f: Ex, args: Args)
    | IndexE(base: Ex, w: nat, index: Ex)
    | IndexTuple(base: Ex, w: nat, first: Ex, rest: Args)
    | DotE(base: Ex, w1: nat, w2: nat, name: Name)
    | Tup(w: nat, first: Ex, rest: Args)
    | NameE(name: Name)
    | IntE(i: int)
    | FloatE(whole: int, part: nat)
    | StrE(s: Name)
    | BoolE(b: bool)
    | NoneE
    | EllipsisE

  /** Elements with commas between them, each after some white space. */
  datatype Args = NoArgs | MoreArgs(w: nat, head: Ex, tail: Args)

  function Level(e: Ex): nat {
    match e
    case Cond(_, _, _, _, _, _, _) => 0
    case Disj(_, _, _, _) => 1
    case Negated(_, _) => 3
    case Cmp(_, _, _, _, _) => 4
    case Bits(op, _, _, _, _) => BitLevel(op)
    case SumE(_, _, _, _, _) => 9
    case Prod(_, _, _, _, _) => 10
    case Sign(_, _) => 11
    case Pow(_, _, _, _) => 12
    case CallE(_, _) => 13
    case IndexE(_, _, _) => 13
    case IndexTuple(_, _, _, _) => 13
    case DotE(_, _, _, _) => 13
    case _ => 14
  }

  function BitLevel(op: BitOp): nat {
    match op
    case PipeOp => 5
    case CaretOp => 6
    case AmpOp => 7
  }

  predicate Written(e: Ex) {
    match e
    case Cond(b, _, _, t, _, _, o) => Written(b) && Written(t) && Written(o) && Level(b) >= 1 && Level(t) >= 1
    case Disj(l, _, _, r) => Written(l) && Written(r) && Level(l) >= 2 && Level(r) >= 1
    case Negated(_, v) => Written(v) && Level(v) >= 3
    case Cmp(l, _, _, _, r) => Written(l) && Written(r) && Level(l) >= 5 && Level(r) >= 4
    case Bits(op, l, _, _, r) => Written(l) && Written(r) && Level(l) > BitLevel(op) && Level(r) >= BitLevel(op)
    case SumE(l, _, _, _, r) => Written(l) && Written(r) && Level(l) >= 9 && Level(r) >= 10
    case Prod(_, l, _, _, r) => Written(l) && Written(r) && Level(l) >= 11 && Level(r) >= 11
    case Sign(_, v) => Written(v) && Level(v) >= 11
    case Pow(l, _, _, r) => Written(l) && Written(r) && Level(l) >= 13 && Level(r) >= 11
    case CallE(f, args) => Written(f) && Level(f) >= 13 && WrittenArgs(args)
    case IndexE(b, _, i) => Written(b) && Level(b) >= 13 && Written(i)
    case IndexTuple(b, _, f, rest) => Written(b) && Level(b) >= 13 && Written(f) && WrittenArgs(rest)
    case DotE(b, _, _, _) => Written(b) && Level(b) >= 13
    case Tup(_, f, rest) => Written(f) && WrittenArgs(rest)
    case _ => true
  }

  predicate WrittenArgs(args: Args) {
    match args
    case NoArgs => true
    case MoreArgs(_, h, t) => Written(h) && WrittenArgs(t)
  }

  // ---- rendering ----

  function WsTo(n: nat, k: Tokens): Tokens {
    if n == 0 then k else [Whitespace] + WsTo(n - 1, k)
  }

  function SignToken(s: SignOp): Token {
    match s
    case PlusSign => Plus
    case MinusSign => Minus
    case TildeSign => Tilde
  }

  function BitToken(op: BitOp): Token {
    match op
    case PipeOp => Pipe
    case CaretOp => Caret
    case AmpOp => AndT
  }

  function TermTo(op: TermOp, k: Tokens): Tokens {
    match op
    case MulOp => [Star] + k
    case DivOp => [DivT] + k
    case ModOp => [Modulo] + k
    case MatOp => [At] + k
    case FloorOp => [DivT] + ([DivT] + k)
  }

  function RenderTo(e: Ex, k: Tokens): Tokens
    decreases e, k
  {
    match e
    case Cond(b, w1, w2, t, w3, w4, o) => RenderTo(b,
      WsTo(w1, [IfT] + WsTo(w2, RenderTo(t, WsTo(w3, [ElseT] + WsTo(w4, RenderTo(o, k)))))))
    case Disj(l, w1, w2, r) => RenderTo(l, WsTo(w1, [OrT] + WsTo(w2, RenderTo(r, k))))
    case Negated(w, v) => [NotT] + WsTo(w, RenderTo(v, k))
    case Cmp(l, w1, differs, w2, r) => RenderTo(l,
      WsTo(w1, [if differs then Bang else Equal] + ([Equal] + WsTo(w2, RenderTo(r, k)))))
    case Bits(op, l, w1, w2, r) => RenderTo(l, WsTo(w1, [BitToken(op)] + WsTo(w2, RenderTo(r, k))))
    case SumE(l, w1, minus, w2, r) => RenderTo(l, WsTo(w1, [if minus then Minus else Plus] + WsTo(w2, RenderTo(r, k))))
    case Prod(op, l, w1, w2, r) => RenderTo(l, WsTo(w1, TermTo(op, WsTo(w2, RenderTo(r, k)))))
    case Sign(s, v) => [SignToken(s)] + RenderTo(v, k)
    case Pow(l, w1, w2, r) => RenderTo(l, WsTo(w1, [Star] + ([Star] + WsTo(w2, RenderTo(r, k)))))
    case CallE(f, args) => RenderTo(f, [LParen] + ArgsTo(args, [RParen] + k))
    case IndexE(b, w, i) => RenderTo(b, [LBracket] + WsTo(w, RenderTo(i, [RBracket] + k)))
    case IndexTuple(b, w, f, rest) => RenderTo(b,
      [LBracket] + WsTo(w, RenderTo(f, [Comma] + ArgsTo(rest, [RBracket] + k))))
    case DotE(b, w1, w2, n) => RenderTo(b, WsTo(w1, [DotT] + WsTo(w2, [Ident(n)] + k)))
    case Tup(w, f, rest) => [LParen] + WsTo(w, RenderTo(f, [Comma] + ArgsTo(rest, [RParen] + k)))
    case NameE(n) => [Ident(n)] + k
    case IntE(i) => [Digits(i)] + k
    case FloatE(i, p) => [Digits(i)] + ([DotT] + ([Digits(p)] + k))
    case StrE(s) => [StringRef(s)] + k
    case BoolE(b) => [if b then TrueT else FalseT] + k
    case NoneE => [NoneT] + k
    case EllipsisE => [EllipsisT] + k
  }

  function ArgsTo(args: Args, k: Tokens): Tokens
    decreases args, k
  {
    match args
    case NoArgs => k
    case MoreArgs(w, h, NoArgs) => WsTo(w, RenderTo(h, k))
    case MoreArgs(w, h, t) => WsTo(w, RenderTo(h, [Comma] + ArgsTo(t, k)))
  }

  // ---- meaning ----

  function BitInfix(op: BitOp): InfixOp {
    match op
    case PipeOp => Or
    case CaretOp => Xor
    case AmpOp => And
  }

  function TermInfix(op: TermOp): InfixOp {
    match op
    case MulOp => Mult
    case DivOp => InfixOp.Div
    case ModOp => Mod
    case MatOp => MatMult
    case FloorOp => FloorDiv
  }

  function SignUnary(s: SignOp): UnaryOp {
    match s
    case PlusSign => Pos
    case MinusSign => UnaryOp.Neg
    case TildeSign => Invert
  }

  function Tree(e: Ex): Expr {
    match e
    case Cond(b, _, _, t, _, _, o) => Ternary(Tree(t), Tree(b), Tree(o))
    case Disj(l, _, _, r) => BinOp(Tree(l), Or, Tree(r))
    case Negated(_, v) => Unary(Not, Tree(v))
    case Cmp(l, _, differs, _, r) => BinOp(Tree(l), if differs then NotEq else Eq, Tree(r))
    case Bits(op, l, _, _, r) => BinOp(Tree(l), BitInfix(op), Tree(r))
    case SumE(l, _, minus, _, r) => BinOp(Tree(l), if minus then Sub else Add, Tree(r))
    case Prod(op, l, _, _, r) => BinOp(Tree(l), TermInfix(op), Tree(r))
    case Sign(s, v) => Unary(SignUnary(s), Tree(v))
    case Pow(l, _, _, r) => BinOp(Tree(l), InfixOp.Power, Tree(r))
    case CallE(f, args) => CallExpr(Tree(f), Trees(args))
    case IndexE(b, _, i) => Subscript(Tree(b), Tree(i))
    case IndexTuple(b, _, f, rest) => Subscript(Tree(b), TupleLit(MoreExprs(Tree(f), Trees(rest))))
    case DotE(b, _, _, n) => Attribute(Tree(b), n)
    case Tup(_, f, rest) => TupleLit(MoreExprs(Tree(f), Trees(rest)))
    case NameE(n) => NameRef(n)
    case IntE(i) => Lit(IntConst(i))
    case FloatE(i, p) => Lit(FloatConst(FloatOf(i, p)))
    case StrE(s) => Lit(StrConst(s))
    case BoolE(b) => Lit(BoolConst(b))
    case NoneE => Lit(NoneConst)
    case EllipsisE => Lit(EllipsisConst)
  }

  function Trees(args: Args): Exprs {
    match args
    case NoArgs => NoExprs
    case MoreArgs(_, h, t) => MoreExprs(Tree(h), Trees(t))
  }

  // ---- what may follow ----

  /** The tightest level at which these tokens continue an expression; -1 if they do not. */
  function Reach(s: Tokens): int {
    if |s| == 0 then -1 else
    match s[0]
    case DotT => 13
    case LParen => 13
    case LBracket => 13
    case Star => if Starts(s[1..], Star) then 12 else 10
    case DivT => 10
    case Modulo => 10
    case At => 10
    case Plus => 9
    case Minus => 9
    case LessThan => 8
    case GreaterThan => 8
    case AndT => 7
    case Caret => 6
    case Pipe => 5
    case Equal => if StartsEquality(s) then 4 else -1
    case Bang => if StartsEquality(s) then 4 else -1
    case OrT => 1
    case IfT => 0
    case _ => -1
  }

  /** The tokens `k` do not continue an expression of level `l`. */
  predicate Stops(l: nat, k: Tokens) {
    Reach(SkipWs(k)) < l
  }

  /** The white space after an attribute is read with it. */
  predicate EndsDot(e: Ex) {
    match e
    case Cond(_, _, _, _, _, _, o) => EndsDot(o)
    case Disj(_, _, _, r) => EndsDot(r)
    case Negated(_, v) => EndsDot(v)
    case Cmp(_, _, _, _, r) => EndsDot(r)
    case Bits(_, _, _, _, r) => EndsDot(r)
    case SumE(_, _, _, _, r) => EndsDot(r)
    case Prod(_, _, _, _, r) => EndsDot(r)
    case Sign(_, v) => EndsDot(v)
    case Pow(_, _, _, r) => EndsDot(r)
    case DotE(_, _, _, _) => true
    case _ => false
  }

  /**
   What is left when an expression has been read at level `l`; from the bitwise operators up,
   without leading white space.
   */
  function After(l: nat, e: Ex, k: Tokens): Tokens {
    if l <= 7 || EndsDot(e) then SkipWs(k) else k
  }

  // ---- first tokens ----

  function Head(e: Ex): Token {
    match e
    case Cond(b, _, _, _, _, _, _) => Head(b)
    case Disj(l, _, _, _) => Head(l)
    case Negated(_, _) => NotT
    case Cmp(l, _, _, _, _) => Head(l)
    case Bits(_, l, _, _, _) => Head(l)
    case SumE(l, _, _, _, _) => Head(l)
    case Prod(_, l, _, _, _) => Head(l)
    case Sign(s, _) => SignToken(s)
    case Pow(l, _, _, _) => Head(l)
    case CallE(f, _) => Head(f)
    case IndexE(b, _, _) => Head(b)
    case IndexTuple(b, _, _, _) => Head(b)
    case DotE(b, _, _, _) => Head(b)
    case Tup(_, _, _) => LParen
    case NameE(n) => Ident(n)
    case IntE(i) => Digits(i)
    case FloatE(i, _) => Digits(i)
    case StrE(s) => StringRef(s)
    case BoolE(b) => if b then TrueT else FalseT
    case NoneE => NoneT
    case EllipsisE => EllipsisT
  }

  /** A token that an expression of this level can begin with. */
  predicate Begins(t: Token, l: nat) {
    && t != Whitespace && t != Await && t != Star && t != DivT && t != Equal
    && (l >= 4 ==> t != NotT)
    && (l >= 12 ==> t != Plus && t != Minus && t != Tilde)
  }

  lemma {:induction false} HeadBegins(e: Ex)
    requires Written(e)
    ensures Begins(Head(e), Level(e))
    decreases e, 1
  {
    match e
    case Cond(b, _, _, _, _, _, _) => HeadBegins(b);
    case Disj(l, _, _, _) => HeadBegins(l);
    case Cmp(l, _, _, _, _) => HeadBegins(l);
    case Bits(_, l, _, _, _) => HeadBegins(l);
    case SumE(l, _, _, _, _) => HeadBegins(l);
    case Prod(_, l, _, _, _) => HeadBegins(l);
    case Pow(l, _, _, _) => HeadBegins(l);
    case Negated(_, _) =>
    case Sign(_, _) =>
    case _ => PrimaryBegins(e);
  }

  lemma {:induction false} PrimaryBegins(e: Ex)
    requires Written(e) && Level(e) >= 13
    ensures Begins(Head(e), Level(e))
    decreases e, 0
  {
    match e
    case CallE(f, _) => HeadBegins(f);
    case IndexE(b, _, _) => HeadBegins(b);
    case IndexTuple(b, _, _, _) => HeadBegins(b);
    case DotE(b, _, _, _) => HeadBegins(b);
    case _ =>
  }

  /** An expression begins with its first token, which is no operator but a sign or `not`. */
  lemma {:induction false} HeadIs(e: Ex, k: Tokens)
    requires Written(e)
    ensures Starts(RenderTo(e, k), Head(e)) && SkipWs(RenderTo(e, k)) == RenderTo(e, k)
    ensures Begins(Head(e), Level(e))
    decreases e
  {
    HeadBegins(e);
    match e
    case Cond(b, w1, w2, t, w3, w4, o) => HeadIs(b,
      WsTo(w1, [IfT] + WsTo(w2, RenderTo(t, WsTo(w3, [ElseT] + WsTo(w4, RenderTo(o, k)))))));
    case Disj(l, w1, w2, r) => HeadIs(l, WsTo(w1, [OrT] + WsTo(w2, RenderTo(r, k))));
    case Cmp(l, w1, differs, w2, r) => HeadIs(l,
      WsTo(w1, [if differs then Bang else Equal] + ([Equal] + WsTo(w2, RenderTo(r, k)))));
    case Bits(op, l, w1, w2, r) => HeadIs(l, WsTo(w1, [BitToken(op)] + WsTo(w2, RenderTo(r, k))));
    case SumE(l, w1, minus, w2, r) => HeadIs(l, WsTo(w1, [if minus then Minus else Plus] + WsTo(w2, RenderTo(r, k))));
    case Prod(op, l, w1, w2, r) => HeadIs(l, WsTo(w1, TermTo(op, WsTo(w2, RenderTo(r, k)))));
    case Pow(l, w1, w2, r) => HeadIs(l, WsTo(w1, [Star] + ([Star] + WsTo(w2, RenderTo(r, k)))));
    case CallE(f, args) => HeadIs(f, [LParen] + ArgsTo(args, [RParen] + k));
    case IndexE(b, w, i) => HeadIs(b, [LBracket] + WsTo(w, RenderTo(i, [RBracket] + k)));
    case IndexTuple(b, w, f, rest) => HeadIs(b,
      [LBracket] + WsTo(w, RenderTo(f, [Comma] + ArgsTo(rest, [RBracket] + k))));
    case DotE(b, w1, w2, n) => HeadIs(b, WsTo(w1, [DotT] + WsTo(w2, [Ident(n)] + k)));
    case _ =>
  }

  lemma {:induction false} SkipWsTo(n: nat, k: Tokens)
    ensures SkipWs(WsTo(n, k)) == SkipWs(k)
    ensures n > 0 ==> Starts(WsTo(n, k), Whitespace)
    decreases n
  {
    if n > 0 {
      SkipWsTo(n - 1, k);
      assert ([Whitespace] + WsTo(n - 1, k))[1..] == WsTo(n - 1, k);
    }
  }
}
