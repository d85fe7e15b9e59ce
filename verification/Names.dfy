/**
 What names stand for: what an assignment leaves behind, where a name is looked
 up, and what the parameters of a call are bound to.
 */
module Names {
  import opened RawInst
  import opened Ast
  import opened Machine
  import opened Lower
  import opened Meaning
  import opened Correctness
  import opened Ticks

  // ---- assignments ----

  /** What binding `n` to `v` should leave of `env`: the binding, published on the namespace object if there is one. */
  function Bound(ops: Ops, env: Env, n: Name, v: Object): StmtResult {
    match env.scope
    case None => Normal(Env(None, env.locals[n := v], env.world))
    case Some(o) =>
      match ops.publish(o, n, v, env.world)
      case Throw(x, w) => Error(x, w)
      case Value(_, w) => Normal(Env(Some(o), env.locals[n := v], w))
  }

  /** By either reading and in any frame, an assignment evaluates its value and binds the name to it. */
  lemma {:induction false} AssignBinds(ops: Ops, rule: Reading, n: Name, e: Expr, ns: nat, env: Env, fuel: nat)
    ensures Exec(ops, rule, Assign(n, e), ns, env, fuel) ==
      match EvalExpr(ops, e, env)
      case Fail(x, w) => Error(x, w)
      case Val(v, env0) => Bound(ops, env0, n, v)
  {
    var r := EvalExpr(ops, e, env);
    assert EvalExpr(ops, Named(n, e), env) ==
      match r
      case Fail(x, w) => Fail(x, w)
      case Val(a, env1) =>
        match Define(ops, env1, n, a)
        case Bad(x, w) => Fail(x, w)
        case Ok(env2) => Val(a, env2);
  }

  /** A name is a local variable if there is one of that name, and is looked up outside otherwise. */
  lemma {:induction false} NameMeans(ops: Ops, n: Name, env: Env)
    ensures n in env.locals ==> EvalExpr(ops, NameRef(n), env) == Val(env.locals[n], env)
    ensures n !in env.locals ==>
      EvalExpr(ops, NameRef(n), env) ==
        match ops.lookup(env.scope, n, env.world)
        case Throw(x, w) => Fail(x, w)
        case Value(v, w) => Val(v, Env(env.scope, env.locals, w))
  {
    assert n in env.locals ==> env.(world := env.world) == env;
  }

  /**
   After an assignment the name stands for the value, every other local for what it did, and
   the frame is the same.
   */
  lemma {:induction false} AssignedIsRead(ops: Ops, rule: Reading, n: Name, e: Expr, ns: nat, env: Env, fuel: nat)
    requires EvalExpr(ops, e, env).Val? && Exec(ops, rule, Assign(n, e), ns, env, fuel).Normal?
    ensures var r, env1 := EvalExpr(ops, e, env), Exec(ops, rule, Assign(n, e), ns, env, fuel).env;
      && EvalExpr(ops, NameRef(n), env1) == Val(r.v, env1)
      && env1.scope == r.env.scope && env1.locals == r.env.locals[n := r.v]
      && (r.env.scope == None ==> env1.world == r.env.world)
      && (r.env.scope.Some? ==>
            var p := ops.publish(r.env.scope.value, n, r.v, r.env.world); p.Value? && env1.world == p.w)
  {
    AssignBinds(ops, rule, n, e, ns, env, fuel);
    NameMeans(ops, n, Exec(ops, rule, Assign(n, e), ns, env, fuel).env);
  }

  /** The machine agrees: the code of `n = e` and `return n` returns the value of `e`, if nothing raises on the way. */
  lemma {:induction false} AssignedIsReturned(code: seq<Inst>, ops: Ops, n: Name, e: Expr, ns: nat, st: State)
    requires Lowered(code, Then(Assign(n, e), Then(ReturnStmt(Some(NameRef(n))), Empty)), ns) && st.ip == 0
    requires EvalExpr(ops, e, st.env).Val?
    ensures var r := EvalExpr(ops, e, st.env);
      match Bound(ops, r.env, n, r.v)
      case Error(x, w) => Halts(code, ops, st, Failed(x, w))
      case Normal(env) => Halts(code, ops, st, Returned(r.v, env.world))
      case _ => false
  {
    var tail := Then(ReturnStmt(Some(NameRef(n))), Empty);
    var b, r := Then(Assign(n, e), tail), EvalExpr(ops, e, st.env);
    AssignBinds(ops, Emitted, n, e, ns, st.env, 0);
    var s := Bound(ops, r.env, n, r.v);
    if s.Normal? {
      NameMeans(ops, n, s.env);
      assert Exec(ops, Emitted, tail.head, ns, s.env, 0) == Leave(r.v, s.env.world);
      assert ExecBlock(ops, Emitted, tail, ns, s.env, 0) == Leave(r.v, s.env.world);
    }
    var o := if s.Normal? then Returned(r.v, s.env.world) else Failed(s.fault, s.w);
    assert OutcomeOf(ExecBlock(ops, Emitted, b, ns, st.env, 0)) == Some(o);
    LoweringPreservesMeaning(code, ops, b, ns, st, o);
  }

  // ---- parameters ----

  /** The number of parameters that get an argument. */
  function Paired(params: seq<Name>, args: seq<Object>): nat {
    if |params| < |args| then |params| else |args|
  }

  /** Parameter `i` gets its own argument, unless a later one has the same name. */
  lemma {:induction false} ParameterIsBound(params: seq<Name>, args: seq<Object>, i: nat)
    requires i < Paired(params, args) && forall j :: i < j < Paired(params, args) ==> params[j] != params[i]
    ensures params[i] in Bind(params, args) && Bind(params, args)[params[i]] == args[i]
    decreases |args|
  {
    var n := Paired(params, args);
    if i < n - 1 {
      ParameterIsBound(params[..n - 1], args[..n - 1], i);
      assert params[n - 1] != params[i];
    }
  }

  /** Exactly the parameters that get an argument are bound. */
  lemma {:induction false} BoundNames(params: seq<Name>, args: seq<Object>, x: Name)
    ensures x in Bind(params, args) <==> x in params[..Paired(params, args)]
    decreases |args|
  {
    var n := Paired(params, args);
    if n > 0 {
      BoundNames(params[..n - 1], args[..n - 1], x);
      assert params[..n] == params[..n - 1][..n - 1] + [params[n - 1]];
    }
  }

  /**
   The arguments that are paired with parameters also stand in the first slots of the frame,
   and nothing else does.
   */
  lemma {:induction false} ArgumentSlots(c: Callee, args: seq<Object>, w: World, n: nat)
    ensures var vs := Enter(c, args, w).values;
      (n in vs <==> n < Paired(c.params, args)) && (n in vs ==> vs[n] == args[n])
  {
  }

  /** In the frame of a call a parameter stands for its argument, and any other name is looked up outside. */
  lemma {:induction false} ParameterMeans(ops: Ops, c: Callee, args: seq<Object>, w: World, i: nat)
    requires i < Paired(c.params, args) && forall j :: i < j < Paired(c.params, args) ==> c.params[j] != c.params[i]
    ensures var env := Enter(c, args, w).env; EvalExpr(ops, NameRef(c.params[i]), env) == Val(args[i], env)
  {
    ParameterIsBound(c.params, args, i);
    NameMeans(ops, c.params[i], Enter(c, args, w).env);
  }

  lemma {:induction false} OtherNameMeans(ops: Ops, c: Callee, args: seq<Object>, w: World, x: Name)
    requires x !in c.params[..Paired(c.params, args)]
    ensures EvalExpr(ops, NameRef(x), Enter(c, args, w).env) ==
      match ops.lookup(None, x, w)
      case Throw(f, w1) => Fail(f, w1)
      case Value(v, w1) => Val(v, Enter(c, args, w).env.(world := w1))
  {
    BoundNames(c.params, args, x);
    NameMeans(ops, x, Enter(c, args, w).env);
  }
}
