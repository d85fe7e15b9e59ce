/**
 What it is for a statement to do what it means, and some outside worlds in
 which a statement that does not can be caught.
 */
module Worlds {
  import opened RawInst
  import opened Ast
  import opened Machine
  import opened Lower
  import opened Meaning
  import opened Correctness

  // ---- both readings of a statement ----

  /** The statement ends with `r`. */
  ghost predicate EndsAs(ops: Ops, rule: Reading, s: Stmt, ns: nat, env: Env, r: StmtResult) {
    !r.OutOfFuel? && exists fuel: nat :: Exec(ops, rule, s, ns, env, fuel) == r
  }

  ghost predicate NeverEnds(ops: Ops, rule: Reading, s: Stmt, ns: nat, env: Env) {
    forall r :: !EndsAs(ops, rule, s, ns, env, r)
  }

  /** The emitted code of the statement does what the statement means. */
  ghost predicate Agrees(ops: Ops, s: Stmt, ns: nat, env: Env) {
    forall r :: EndsAs(ops, Emitted, s, ns, env, r) <==> EndsAs(ops, Intended, s, ns, env, r)
  }

  lemma {:induction false} EndsOnce(ops: Ops, rule: Reading, s: Stmt, ns: nat, env: Env, f: nat, r: StmtResult)
    requires Exec(ops, rule, s, ns, env, f) == r && !r.OutOfFuel?
    ensures forall p :: EndsAs(ops, rule, s, ns, env, p) <==> p == r
  {
    forall p | EndsAs(ops, rule, s, ns, env, p) ensures p == r {
      var g: nat :| Exec(ops, rule, s, ns, env, g) == p;
      if f <= g { StmtFuel(ops, rule, s, ns, env, f, g); } else { StmtFuel(ops, rule, s, ns, env, g, f); }
    }
  }

  /** Two endings that differ are enough to tell the readings apart. */
  lemma {:induction false} TellApart(ops: Ops, s: Stmt, ns: nat, env: Env, f: nat, r: StmtResult, q: StmtResult)
    requires Exec(ops, Emitted, s, ns, env, f) == r && Exec(ops, Intended, s, ns, env, f) == q
    requires !r.OutOfFuel? && !q.OutOfFuel? && r != q
    ensures !Agrees(ops, s, ns, env)
  {
    EndsOnce(ops, Emitted, s, ns, env, f, r);
    EndsOnce(ops, Intended, s, ns, env, f, q);
    assert EndsAs(ops, Emitted, s, ns, env, r);
  }

  lemma {:induction false} SameAgrees(ops: Ops, s: Stmt, ns: nat, env: Env)
    requires forall fuel: nat :: Exec(ops, Emitted, s, ns, env, fuel) == Exec(ops, Intended, s, ns, env, fuel)
    ensures Agrees(ops, s, ns, env)
  {
  }

  // ---- worlds in which nothing happens ----

  /** Every `__bool__`. */
  const METHOD: Object := 9

  /** Every function that is made. */
  const BARE: Object := 3

  /** Every operation answers 0 and leaves the world alone, except that calls have an answer and tests a truth. */
  function Flat(yes: Object, no: Object, answer: Object, truth: Object): Ops {
    var zero := (w: World) => Value(0, w);
    Ops(yes, no, 2, (_, w) => zero(w), (_, w) => zero(w), (_, w) => zero(w),
        (_, d: Dunder, w) => Value(if d.AsBool? then METHOD else 0, w), (_, _, w) => zero(w),
        (_, _, _, w) => zero(w), (_, _, w) => zero(w), (_, _, _, w) => zero(w), (_, w) => Value(BARE, w),
        (f, _, w) => Value(if f == METHOD then truth else answer, w))
  }

  /** The world is `w`, and the frame is not that of a module. */
  ghost predicate InWorld(env: Env, w: World) {
    env.scope == None && env.world == w
  }

  ghost predicate AllZero(env: Env) {
    forall n :: n in env.locals ==> env.locals[n] == 0
  }

  /** In a flat world every expression has a value: 0, if there is nothing else to be had. */
  lemma {:induction false} ExprValue(e: Expr, env: Env, w: World, yes: Object, no: Object, answer: Object,
        truth: Object)
    requires InWorld(env, w) && (truth == yes || truth == no)
    ensures var r := EvalExpr(Flat(yes, no, answer, truth), e, env);
      && r.Val? && InWorld(r.env, w)
      && (answer == 0 && AllZero(env) ==> r.v == 0 && AllZero(r.env))
    decreases e, 0
  {
    var ops := Flat(yes, no, answer, truth);
    match e
    case Lit(_) =>
    case NameRef(_) =>
    case TupleLit(elems) => ExprsValue(elems, env, w, yes, no, answer, truth);
    case BinOp(l, _, r) =>
      ExprValue(l, env, w, yes, no, answer, truth);
      ExprValue(r, EvalExpr(ops, l, env).env, w, yes, no, answer, truth);
    case Unary(_, v) => ExprValue(v, env, w, yes, no, answer, truth);
    case Ternary(test, body, orelse) =>
      ExprValue(test, env, w, yes, no, answer, truth);
      var t := EvalTest(ops, test, env);
      assert t.Val? && t.v == truth && t.env == EvalExpr(ops, test, env).env;
      if truth == yes {
        ExprValue(body, t.env, w, yes, no, answer, truth);
      } else {
        ExprValue(orelse, t.env, w, yes, no, answer, truth);
      }
    case Named(_, v) => ExprValue(v, env, w, yes, no, answer, truth);
    case CallExpr(func, args) =>
      ExprValue(func, env, w, yes, no, answer, truth);
      ExprsValue(args, EvalExpr(ops, func, env).env, w, yes, no, answer, truth);
    case Subscript(base, index) =>
      ExprValue(base, env, w, yes, no, answer, truth);
      ExprValue(index, EvalExpr(ops, base, env).env, w, yes, no, answer, truth);
    case Attribute(base, _) => ExprValue(base, env, w, yes, no, answer, truth);
  }

  lemma {:induction false} ExprsValue(es: Exprs, env: Env, w: World, yes: Object, no: Object, answer: Object,
        truth: Object)
    requires InWorld(env, w) && (truth == yes || truth == no)
    ensures var r := EvalExprs(Flat(yes, no, answer, truth), es, env);
      && r.Vals? && InWorld(r.env, w) && (es.MoreExprs? ==> r.vs != [])
      && (answer == 0 && AllZero(env) ==> AllZero(r.env))
    decreases es, 0
  {
    if es.MoreExprs? {
      ExprValue(es.head, env, w, yes, no, answer, truth);
      ExprsValue(es.tail, EvalExpr(Flat(yes, no, answer, truth), es.head, env).env, w, yes, no, answer, truth);
    }
  }

  lemma {:induction false} TestValue(e: Expr, env: Env, w: World, yes: Object, no: Object, answer: Object,
        truth: Object)
    requires InWorld(env, w) && (truth == yes || truth == no)
    ensures var r := EvalTest(Flat(yes, no, answer, truth), e, env);
      && r.Val? && r.v == truth && InWorld(r.env, w)
      && r.env == EvalExpr(Flat(yes, no, answer, truth), e, env).env
  {
    ExprValue(e, env, w, yes, no, answer, truth);
  }

  // ---- some flat worlds ----

  /** Every object is `False`: constants, names, and the answer of every call. */
  function AllFalse(): Ops {
    Flat(1, 0, 0, 0)
  }

  const CALLED: Object := 7

  /** Every call answers `True`. */
  function AllCalls(): Ops {
    Flat(CALLED, 0, CALLED, CALLED)
  }

  /** Nothing is a `bool`, but every `__bool__` answers `False`. */
  function NoBools(): Ops {
    Flat(1, 2, 0, 2)
  }

  /** No name is defined; looking one up raises an exception that tells which. */
  function NoNames(): Ops {
    AllCalls().(lookup := (_: Option<Object>, n: Name, w: World) => Throw(Raised(n), w))
  }
}
