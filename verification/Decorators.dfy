/**
 How far the emitted code of a function definition is what the definition means.

 Decorators are evaluated last to first, where Python evaluates them first to
 last, and the name stays bound to the bare function, where Python binds what
 the outermost decorator answers.
 */
module Decorators {
  import opened RawInst
  import opened Ast
  import opened Machine
  import opened Lower
  import opened Meaning
  import opened Correctness
  import opened Worlds
  import opened Plain

  // ---- what becomes of a definition where every call answers `True` ----

  lemma {:induction false} OptValue(e: Option<Expr>, env: Env, w: World)
    requires InWorld(env, w)
    ensures var r := EvalOpt(AllCalls(), e, env); r.OptVal? && InWorld(r.env, w)
  {
    if e.Some? { ExprValue(e.value, env, w, CALLED, 0, CALLED, CALLED); }
  }

  lemma {:induction false} ParamsValue(ps: Params, env: Env, w: World)
    requires InWorld(env, w)
    ensures var r := EvalParams(AllCalls(), ps, env); r.ParamVals? && InWorld(r.env, w)
  {
    if ps.Param? {
      OptValue(ps.annotation, env, w);
      ParamsValue(ps.rest, EvalOpt(AllCalls(), ps.annotation, env).env, w);
    }
  }

  lemma {:induction false} DecorateValue(ds: seq<Object>, f: Object, env: Env)
    ensures Decorate(AllCalls(), ds, f, env) == Val(if ds == [] then f else CALLED, env)
  {
    if ds != [] {
      assert env.(world := env.world) == env;
      DecorateValue(ds[1..], CALLED, env);
    }
  }

  /** What the name of a definition is bound to afterwards, by each reading. */
  lemma {:induction false} BoundTo(rule: Reading, n: Name, decs: Exprs, ps: Params, ret: Option<Expr>, id: nat,
        env: Env, w: World)
    requires InWorld(env, w)
    ensures var r := EvalDef(AllCalls(), rule, n, decs, ps, ret, id, env);
      && r.Val? && InWorld(r.env, w) && n in r.env.locals
      && r.env.locals[n] == if rule.Intended? && decs.MoreExprs? then CALLED else BARE
  {
    var ops := AllCalls();
    var es := if rule.Intended? then decs else Reverse(decs);
    ExprsValue(es, env, w, CALLED, 0, CALLED, CALLED);
    var a := EvalExprs(ops, es, env);
    ParamsValue(ps, a.env, w);
    var b := EvalParams(ops, ps, a.env);
    OptValue(ret, b.env, w);
    var c := EvalOpt(ops, ret, b.env).env;
    var d := c.(locals := c.locals[n := BARE]);
    DecorateValue(Backwards(a.vs), BARE, d);
    DecorateValue(a.vs, BARE, d);
    assert d.(locals := d.locals[n := BARE]) == d;
  }

  /** A definition does what it means in every world and environment exactly when it has no decorators. */
  lemma {:induction false} DefinitionsAgreeExactly(s: Stmt, ns: nat, w: World)
    requires s.FuncDef?
    ensures (forall ops, env :: Agrees(ops, s, ns, env)) <==> s.decorators.NoExprs?
  {
    if s.decorators.NoExprs? {
      forall ops, env ensures Agrees(ops, s, ns, env) {
        PlainAgrees(ops, s, false, ns, env);
      }
    } else {
      DecoratedDisagrees(s, ns, Env(None, map[], w));
    }
  }

  /** The world above tells every decorated definition from what it means. */
  lemma {:induction false} DecoratedDisagrees(s: Stmt, ns: nat, env: Env)
    requires s.FuncDef? && s.decorators.MoreExprs? && env.scope == None
    ensures !Agrees(AllCalls(), s, ns, env)
  {
    var ops := AllCalls();
    BoundTo(Emitted, s.name, s.decorators, s.params, s.result, ns, env, env.world);
    BoundTo(Intended, s.name, s.decorators, s.params, s.result, ns, env, env.world);
    var r := Exec(ops, Emitted, s, ns, env, 0);
    var q := Exec(ops, Intended, s, ns, env, 0);
    assert r.Normal? && q.Normal? && r.env.locals[s.name] != q.env.locals[s.name];
    assert EndsAs(ops, Emitted, s, ns, env, r);
    EndsOnce(ops, Intended, s, ns, env, 0, q);
  }

  // ---- two definitions the code gets wrong ----

  /** `@d1` / `def f0(): pass` */
  const DECORATED_DEF := FuncDef(0, MoreExprs(NameRef(1), NoExprs), NoParams, None, Then(Pass, Empty))

  /** `@d1` / `@d2` / `def f0(): pass` */
  const TWICE_DECORATED_DEF :=
    FuncDef(0, MoreExprs(NameRef(1), MoreExprs(NameRef(2), NoExprs)), NoParams, None, Then(Pass, Empty))

  /**
   The decorated name should stand for what the decorator answers, and stands for
   the bare function.  Of two decorators that cannot be evaluated, the first
   should be the one that raises, and the last one is.
   */
  lemma {:induction false} TwoWrongDefinitions(env: Env)
    requires env == Env(None, map[], env.world)
    ensures Exec(AllCalls(), Intended, DECORATED_DEF, 1, env, 0) == Normal(env.(locals := map[0 := CALLED]))
    ensures Exec(AllCalls(), Emitted, DECORATED_DEF, 1, env, 0) == Normal(env.(locals := map[0 := BARE]))
    ensures Exec(NoNames(), Intended, TWICE_DECORATED_DEF, 1, env, 0) == Error(Raised(1), env.world)
    ensures Exec(NoNames(), Emitted, TWICE_DECORATED_DEF, 1, env, 0) == Error(Raised(2), env.world)
  {
    OneDecorator(env);
    TwoDecorators(env);
  }

  lemma {:induction false} OneDecorator(env: Env)
    requires env == Env(None, map[], env.world)
    ensures Exec(AllCalls(), Intended, DECORATED_DEF, 1, env, 0) == Normal(env.(locals := map[0 := CALLED]))
    ensures Exec(AllCalls(), Emitted, DECORATED_DEF, 1, env, 0) == Normal(env.(locals := map[0 := BARE]))
  {
    var ops, decs := AllCalls(), MoreExprs(NameRef(1), NoExprs);
    assert Reverse(decs) == decs;
    assert EvalExpr(ops, NameRef(1), env) == Val(0, env);
    assert EvalExprs(ops, decs, env) == Vals([0], env);
    assert Backwards<Object>([0]) == [0];
    var d := env.(locals := map[0 := BARE]);
    DecorateValue([0], BARE, d);
    assert d.locals[0 := BARE] == d.locals && d.locals[0 := CALLED] == map[0 := CALLED];
  }

  lemma {:induction false} TwoDecorators(env: Env)
    requires env == Env(None, map[], env.world)
    ensures Exec(NoNames(), Intended, TWICE_DECORATED_DEF, 1, env, 0) == Error(Raised(1), env.world)
    ensures Exec(NoNames(), Emitted, TWICE_DECORATED_DEF, 1, env, 0) == Error(Raised(2), env.world)
  {
    var ops, last := NoNames(), MoreExprs(NameRef(2), NoExprs);
    assert Reverse(last) == last;
    assert Reverse(MoreExprs(NameRef(1), last)) == MoreExprs(NameRef(2), MoreExprs(NameRef(1), NoExprs));
    assert EvalExpr(ops, NameRef(1), env) == Fail(Raised(1), env.world);
    assert EvalExpr(ops, NameRef(2), env) == Fail(Raised(2), env.world);
  }

  // ---- in which order decorators are meant to be applied ----

  /** Names stand for their numbers, and a call of `f` on `x` answers `f` written after `x`. */
  function Digits(): Ops {
    AllCalls().(lookup := (_: Option<Object>, n: Name, w: World) => Value(n, w),
                call := (f: Object, args: seq<Object>, w: World) =>
                  Value(if |args| == 1 then 10 * args[0] + f else 0, w))
  }

  /** The decorator next to the definition should be applied first: `d1(d2(f))`, and not `d2(d1(f))`. */
  lemma {:induction false} InsideOut(env: Env)
    requires env == Env(None, map[], env.world)
    ensures Exec(Digits(), Intended, TWICE_DECORATED_DEF, 1, env, 0) == Normal(env.(locals := map[0 := 321]))
  {
    var ops, decs := Digits(), MoreExprs(NameRef(1), MoreExprs(NameRef(2), NoExprs));
    assert EvalExpr(ops, NameRef(1), env) == Val(1, env);
    assert EvalExpr(ops, NameRef(2), env) == Val(2, env);
    assert EvalExprs(ops, decs.tail, env) == Vals([2], env);
    assert EvalExprs(ops, decs, env) == Vals([1, 2], env);
    assert Backwards<Object>([1, 2]) == [2, 1];
    var d := env.(locals := map[0 := BARE]);
    assert [2, 1][1..] == [1] && [1][1..] == [];
    assert Decorate(ops, [], 321, d) == Val(321, d);
    assert Decorate(ops, [1], 32, d) == Val(321, d);
    assert Decorate(ops, [2, 1], BARE, d) == Val(321, d);
    assert d.locals[0 := 321] == map[0 := 321];
    assert TWICE_DECORATED_DEF.decorators == decs;
  }
}
