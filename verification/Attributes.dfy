/**
 How far the emitted code of an attribute assignment is what it means.

 `visit_assign` evaluates the object before the value, where the value should
 come first; that goes unnoticed exactly when the value is a local variable.
 */
module Attributes {
  import opened RawInst
  import opened Ast
  import opened Machine
  import opened Meaning
  import opened Worlds

  // ---- expressions without a walrus leave the locals alone ----

  predicate BindsNothing(e: Expr) {
    match e
    case Lit(_) => true
    case NameRef(_) => true
    case TupleLit(elems) => BindNothing(elems)
    case BinOp(l, _, r) => BindsNothing(l) && BindsNothing(r)
    case Unary(_, v) => BindsNothing(v)
    case Ternary(test, body, orelse) => BindsNothing(test) && BindsNothing(body) && BindsNothing(orelse)
    case Named(_, _) => false
    case CallExpr(func, args) => BindsNothing(func) && BindNothing(args)
    case Subscript(base, index) => BindsNothing(base) && BindsNothing(index)
    case Attribute(base, _) => BindsNothing(base)
  }

  predicate BindNothing(es: Exprs) {
    match es
    case NoExprs => true
    case MoreExprs(h, t) => BindsNothing(h) && BindNothing(t)
  }

  /** `b` differs from `a` in its world at most. */
  predicate SameNames(a: Env, b: Env) {
    a.scope == b.scope && a.locals == b.locals
  }

  lemma {:induction false} ExprKeepsNames(ops: Ops, e: Expr, env: Env)
    requires BindsNothing(e)
    ensures var r := EvalExpr(ops, e, env); r.Val? ==> SameNames(env, r.env)
    decreases e, 1
  {
    match e
    case Lit(_) =>
    case NameRef(_) =>
    case TupleLit(elems) => ExprsKeepNames(ops, elems, env);
    case BinOp(l, _, r) => PairKeepsNames(ops, e, l, r, env);
    case Unary(_, v) => ExprKeepsNames(ops, v, env);
    case Ternary(_, _, _) => TernaryKeepsNames(ops, e, env);
    case CallExpr(func, args) =>
      ExprKeepsNames(ops, func, env);
      var f := EvalExpr(ops, func, env);
      if f.Val? { ExprsKeepNames(ops, args, f.env); }
    case Subscript(base, index) => PairKeepsNames(ops, e, base, index, env);
    case Attribute(base, _) => ExprKeepsNames(ops, base, env);
  }

  lemma {:induction false} PairKeepsNames(ops: Ops, e: Expr, l: Expr, r: Expr, env: Env)
    requires l < e && r < e && BindsNothing(l) && BindsNothing(r)
    ensures var a := EvalExpr(ops, l, env);
      a.Val? ==> var b := EvalExpr(ops, r, a.env); b.Val? ==> SameNames(env, b.env)
    decreases e, 0
  {
    ExprKeepsNames(ops, l, env);
    var a := EvalExpr(ops, l, env);
    if a.Val? { ExprKeepsNames(ops, r, a.env); }
  }

  lemma {:induction false} TernaryKeepsNames(ops: Ops, e: Expr, env: Env)
    requires e.Ternary? && BindsNothing(e)
    ensures var r := EvalExpr(ops, e, env); r.Val? ==> SameNames(env, r.env)
    decreases e, 0
  {
    ExprKeepsNames(ops, e.test, env);
    var t := EvalTest(ops, e.test, env);
    if t.Val? {
      assert SameNames(env, t.env);
      ExprKeepsNames(ops, e.body, t.env);
      ExprKeepsNames(ops, e.orelse, t.env);
    }
  }

  lemma {:induction false} ExprsKeepNames(ops: Ops, es: Exprs, env: Env)
    requires BindNothing(es)
    ensures var r := EvalExprs(ops, es, env); r.Vals? ==> SameNames(env, r.env)
    decreases es, 0
  {
    if es.MoreExprs? {
      ExprKeepsNames(ops, es.head, env);
      var h := EvalExpr(ops, es.head, env);
      if h.Val? { ExprsKeepNames(ops, es.tail, h.env); }
    }
  }

  // ---- a world that tells whether the name of the attribute was the last thing to be evaluated ----

  /**
   Making a string of a name leaves a mark on the world, every other operation
   wipes it off, and setting an attribute needs it.
   */
  ghost function Marks(clean: World, marked: World): Ops {
    var wipe := (w: World) => Value(0, clean);
    Ops(0, 1, 2, (_, w) => wipe(w), (_, w) => Value(0, marked), (_, w) => wipe(w), (_, _, w) => wipe(w),
        (_, _, w) => wipe(w), (_, _, _, w) => if w == marked then wipe(w) else Throw(Raised(0), w),
        (_, _, w) => wipe(w), (_, _, _, w) => wipe(w), (_, w) => wipe(w), (_, _, w) => wipe(w))
  }

  predicate IsLocal(e: Expr, env: Env) {
    e.NameRef? && e.name in env.locals
  }

  /** Evaluating anything but a local variable wipes the mark off. */
  lemma {:induction false} ExprWipes(e: Expr, env: Env, clean: World, marked: World)
    requires BindsNothing(e)
    ensures var r := EvalExpr(Marks(clean, marked), e, env);
      r.Val? && r.env == if IsLocal(e, env) then env else env.(world := clean)
    decreases e, 0
  {
    var ops := Marks(clean, marked);
    match e
    case Lit(_) =>
    case NameRef(_) =>
    case TupleLit(elems) => ExprsWipe(elems, env, clean, marked);
    case BinOp(l, _, r) =>
      ExprWipes(l, env, clean, marked);
      ExprWipes(r, EvalExpr(ops, l, env).env, clean, marked);
    case Unary(_, v) => ExprWipes(v, env, clean, marked);
    case Ternary(test, body, _) =>
      ExprWipes(test, env, clean, marked);
      var t := EvalTest(ops, test, env);
      assert t.Val? && t.v == ops.trueV && t.env == env.(world := clean);
      ExprWipes(body, t.env, clean, marked);
    case CallExpr(func, args) =>
      ExprWipes(func, env, clean, marked);
      ExprsWipe(args, EvalExpr(ops, func, env).env, clean, marked);
    case Subscript(base, index) =>
      ExprWipes(base, env, clean, marked);
      ExprWipes(index, EvalExpr(ops, base, env).env, clean, marked);
    case Attribute(base, _) => ExprWipes(base, env, clean, marked);
  }

  lemma {:induction false} ExprsWipe(es: Exprs, env: Env, clean: World, marked: World)
    requires BindNothing(es)
    ensures var r := EvalExprs(Marks(clean, marked), es, env); r.Vals? && SameNames(env, r.env)
    decreases es, 0
  {
    if es.MoreExprs? {
      ExprWipes(es.head, env, clean, marked);
      ExprsWipe(es.tail, EvalExpr(Marks(clean, marked), es.head, env).env, clean, marked);
    }
  }

  // ---- exactly when an attribute assignment does what it means ----

  lemma {:induction false} LocalValueAgrees(ops: Ops, s: Stmt, ns: nat, env: Env)
    requires s.AssignAttr? && BindsNothing(s.object_) && IsLocal(s.value, env)
    ensures Agrees(ops, s, ns, env)
  {
    var a := EvalExpr(ops, s.object_, env);
    ExprKeepsNames(ops, s.object_, env);
    assert EvalExpr(ops, s.value, env) == Val(env.locals[s.value.name], env);
    if a.Val? {
      var k := ops.refAsStr(s.attr, a.env.world);
      if k.Value? {
        var env1 := a.env.(world := k.w);
        assert EvalExpr(ops, s.value, env1) == Val(env.locals[s.value.name], env1);
      }
    }
    SameAgrees(ops, s, ns, env);
  }

  /**
   In a frame and from a world `env.world`, assigning to an attribute does what
   it means, whatever the operations do, exactly when the value is a local
   variable.  All it takes for that is a second state of the world.
   */
  lemma {:induction false} AttributesAgreeExactly(s: Stmt, ns: nat, env: Env, other: World)
    requires s.AssignAttr? && BindsNothing(s.object_) && BindsNothing(s.value) && other != env.world
    ensures (forall ops :: Agrees(ops, s, ns, env)) <==> IsLocal(s.value, env)
  {
    if IsLocal(s.value, env) {
      forall ops ensures Agrees(ops, s, ns, env) { LocalValueAgrees(ops, s, ns, env); }
    } else {
      var ops := Marks(env.world, other);
      ExprWipes(s.value, env, env.world, other);
      ExprWipes(s.object_, env, env.world, other);
      ExprWipes(s.value, env.(world := other), env.world, other);
      TellApart(ops, s, ns, env, 0, Error(Raised(0), env.world), Normal(env));
    }
  }

  /** `n1.x = n2` */
  const SET_ATTR := AssignAttr(NameRef(1), 0, NameRef(2))

  /** With neither name defined, the value should be the one that raises, and the object is. */
  lemma {:induction false} WrongAssignment(env: Env)
    requires env == Env(None, map[], env.world)
    ensures Exec(NoNames(), Intended, SET_ATTR, 1, env, 0) == Error(Raised(2), env.world)
    ensures Exec(NoNames(), Emitted, SET_ATTR, 1, env, 0) == Error(Raised(1), env.world)
  {
    assert EvalExpr(NoNames(), NameRef(1), env) == Fail(Raised(1), env.world);
    assert EvalExpr(NoNames(), NameRef(2), env) == Fail(Raised(2), env.world);
  }
}
