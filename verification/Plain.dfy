/**
 Programs whose emitted code does what they mean.

 A loop uses the value of its test as it is, where any other test goes through
 `__bool__`.  So loops do what they mean exactly in those worlds where the two
 make no difference; and besides loops, so do all programs without `elif`,
 `else`, attribute assignments and decorators.
 */
module Plain {
  import opened RawInst
  import opened Ast
  import opened Machine
  import opened Lower
  import opened Meaning
  import opened Correctness
  import opened Worlds

  /** Every chain is a single `if`, nothing is decorated, no attribute is assigned, and no loop unless `loops`. */
  predicate Plain(s: Stmt, loops: bool) {
    match s
    case While(_, body) => loops && PlainBlock(body, loops)
    case IfChain(arms, orelse) =>
      && PlainArms(arms, loops) && PlainElse(orelse, loops)
      && (arms.Arm? ==> arms.rest.NoArms? && orelse.NoElse?)
    case FuncDef(_, decorators, _, _, _) => decorators.NoExprs?
    case AssignAttr(_, _, _) => false
    case _ => true
  }

  predicate PlainBlock(b: Block, loops: bool) {
    match b
    case Empty => true
    case Then(h, t) => Plain(h, loops) && PlainBlock(t, loops)
  }

  predicate PlainArms(arms: Arms, loops: bool) {
    match arms
    case NoArms => true
    case Arm(_, body, rest) => PlainBlock(body, loops) && PlainArms(rest, loops)
  }

  predicate PlainElse(o: OrElse, loops: bool) {
    match o
    case NoElse => true
    case Else(body) => PlainBlock(body, loops)
  }

  // ---- tests with and without `__bool__` ----

  datatype Verdict = Yes(env: Env) | No(env: Env) | Neither(fault: Fault, w: World)

  /** What a jump makes of a test. */
  function Judge(ops: Ops, r: ExprResult): Verdict {
    match r
    case Fail(x, w) => Neither(x, w)
    case Val(t, env) =>
      if t == ops.trueV then Yes(env) else if t == ops.falseV then No(env) else Neither(NotBool, env.world)
  }

  /** As a test, every object is what its `__bool__` says it is, and asking it changes nothing. */
  ghost predicate Truthful(ops: Ops) {
    forall v, env :: Judge(ops, Invoke(ops, env, v, AsBool, [v])) == Judge(ops, Val(v, env))
  }

  lemma {:induction false} UndecoratedMeans(ops: Ops, n: Name, ps: Params, ret: Option<Expr>, id: nat, env: Env)
    ensures EvalDef(ops, Emitted, n, NoExprs, ps, ret, id, env) == EvalDef(ops, Intended, n, NoExprs, ps, ret, id, env)
  {
    assert Reverse(NoExprs) == NoExprs;
    assert EvalExprs(ops, NoExprs, env) == Vals([], env);
    assert Backwards<Object>([]) == [];
  }

  lemma {:induction false} PlainStmtMeans(ops: Ops, s: Stmt, loops: bool, ns: nat, env: Env, fuel: nat)
    requires Plain(s, loops) && (loops ==> Truthful(ops))
    ensures Exec(ops, Emitted, s, ns, env, fuel) == Exec(ops, Intended, s, ns, env, fuel)
    decreases fuel, s, 1
  {
    match s
    case While(_, _) => PlainLoopMeans(ops, s, ns, env, fuel);
    case IfChain(_, _) => PlainChainMeans(ops, s, loops, ns, env, fuel);
    case FuncDef(n, decs, ps, ret, _) => UndecoratedMeans(ops, n, ps, ret, ns, env);
    case _ =>
  }

  lemma {:induction false} LoopTestMeans(ops: Ops, test: Expr, env: Env)
    requires Truthful(ops)
    ensures Judge(ops, EvalLoopTest(ops, Intended, test, env)) == Judge(ops, EvalLoopTest(ops, Emitted, test, env))
  {
  }

  /** What a loop does once the verdict on its test is known. */
  function AfterTest(ops: Ops, rule: Reading, s: Stmt, ns: nat, j: Verdict, fuel: nat): StmtResult
    requires s.While?
  {
    match j
    case Neither(x, w) => Error(x, w)
    case No(env) => Normal(env)
    case Yes(env) =>
      match ExecBlock(ops, rule, s.body, ns, env, fuel)
      case Normal(env1) => Exec(ops, rule, s, ns, env1, fuel)
      case stop => stop
  }

  lemma {:induction false} LoopTurn(ops: Ops, rule: Reading, s: Stmt, ns: nat, env: Env, fuel: nat)
    requires s.While? && fuel > 0
    ensures Exec(ops, rule, s, ns, env, fuel) ==
      AfterTest(ops, rule, s, ns, Judge(ops, EvalLoopTest(ops, rule, s.test, env)), fuel - 1)
  {
  }

  lemma {:induction false} PlainLoopMeans(ops: Ops, s: Stmt, ns: nat, env: Env, fuel: nat)
    requires s.While? && PlainBlock(s.body, true) && Truthful(ops)
    ensures Exec(ops, Emitted, s, ns, env, fuel) == Exec(ops, Intended, s, ns, env, fuel)
    decreases fuel, s, 0
  {
    if fuel > 0 {
      LoopTestMeans(ops, s.test, env);
      PlainAfterTest(ops, s, ns, Judge(ops, EvalLoopTest(ops, Emitted, s.test, env)), fuel - 1);
      LoopTurn(ops, Emitted, s, ns, env, fuel);
      LoopTurn(ops, Intended, s, ns, env, fuel);
    }
  }

  lemma {:induction false} PlainAfterTest(ops: Ops, s: Stmt, ns: nat, j: Verdict, fuel: nat)
    requires s.While? && PlainBlock(s.body, true) && Truthful(ops)
    ensures AfterTest(ops, Emitted, s, ns, j, fuel) == AfterTest(ops, Intended, s, ns, j, fuel)
    decreases fuel, s, 2
  {
    if j.Yes? {
      PlainBlockMeans(ops, s.body, true, ns, j.env, fuel);
      var b := ExecBlock(ops, Intended, s.body, ns, j.env, fuel);
      if b.Normal? { PlainStmtMeans(ops, s, true, ns, b.env, fuel); }
    }
  }

  lemma {:induction false} PlainChainMeans(ops: Ops, s: Stmt, loops: bool, ns: nat, env: Env, fuel: nat)
    requires s.IfChain? && Plain(s, loops) && (loops ==> Truthful(ops))
    ensures Exec(ops, Emitted, s, ns, env, fuel) == Exec(ops, Intended, s, ns, env, fuel)
    decreases fuel, s, 0
  {
    if s.arms.NoArms? {
      if s.orelse.Else? { PlainBlockMeans(ops, s.orelse.body, loops, ns, env, fuel); }
    } else {
      var r := EvalTest(ops, s.arms.test, env);
      if r.Val? {
        PlainBlockMeans(ops, s.arms.body, loops, ns, r.env, fuel);
        assert ExecArms(ops, Intended, s.arms.rest, ns + BlockDefs(s.arms.body), r.env, fuel) == Missed(r.env);
      }
    }
  }

  lemma {:induction false} PlainBlockMeans(ops: Ops, b: Block, loops: bool, ns: nat, env: Env, fuel: nat)
    requires PlainBlock(b, loops) && (loops ==> Truthful(ops))
    ensures ExecBlock(ops, Emitted, b, ns, env, fuel) == ExecBlock(ops, Intended, b, ns, env, fuel)
    decreases fuel, b, 0
  {
    match b
    case Empty =>
    case Then(h, t) =>
      PlainStmtMeans(ops, h, loops, ns, env, fuel);
      var r := Exec(ops, Intended, h, ns, env, fuel);
      if r.Normal? { PlainBlockMeans(ops, t, loops, ns + Defs(h), r.env, fuel); }
  }

  lemma {:induction false} PlainAgrees(ops: Ops, s: Stmt, loops: bool, ns: nat, env: Env)
    requires Plain(s, loops) && (loops ==> Truthful(ops))
    ensures Agrees(ops, s, ns, env)
  {
    forall fuel: nat ensures Exec(ops, Emitted, s, ns, env, fuel) == Exec(ops, Intended, s, ns, env, fuel) {
      PlainStmtMeans(ops, s, loops, ns, env, fuel);
    }
    SameAgrees(ops, s, ns, env);
  }

  /** Lowering keeps the intended meaning of every plain program; with loops in it, wherever tests are truthful. */
  lemma {:induction false} PlainProgramsArePreserved(code: seq<Inst>, ops: Ops, b: Block, loops: bool, ns: nat,
        st: State, o: Outcome)
    requires Lowered(code, b, ns) && st.ip == 0 && PlainBlock(b, loops) && (loops ==> Truthful(ops))
    ensures Halts(code, ops, st, o) <==> Ends(ops, Intended, b, ns, st.env, o)
  {
    LoweringPreservesMeaning(code, ops, b, ns, st, o);
    forall fuel: nat
      ensures ExecBlock(ops, Emitted, b, ns, st.env, fuel) == ExecBlock(ops, Intended, b, ns, st.env, fuel) {
      PlainBlockMeans(ops, b, loops, ns, st.env, fuel);
    }
  }

  // ---- exactly in which worlds loops do what they mean ----

  /** `while n0: return n0` */
  const PROBE := While(NameRef(0), Then(ReturnStmt(Some(NameRef(0))), Empty))

  /** How that loop ends, given what becomes of its test. */
  function ProbeResult(v: Object, j: Verdict): StmtResult {
    match j
    case Yes(env) => Leave(v, env.world)
    case No(env) => Normal(env)
    case Neither(x, w) => Error(x, w)
  }

  lemma {:induction false} ProbeEnds(ops: Ops, rule: Reading, v: Object, env: Env)
    requires 0 in env.locals && env.locals[0] == v
    ensures Exec(ops, rule, PROBE, 0, env, 1) == ProbeResult(v, Judge(ops, EvalLoopTest(ops, rule, NameRef(0), env)))
  {
    var body, r := Then(ReturnStmt(Some(NameRef(0))), Empty), EvalLoopTest(ops, rule, NameRef(0), env);
    assert EvalExpr(ops, NameRef(0), env) == Val(v, env);
    if r.Val? {
      assert EvalExpr(ops, NameRef(0), r.env) == Val(v, r.env);
      assert Exec(ops, rule, body.head, 0, r.env, 0) == Leave(v, r.env.world);
      assert ExecBlock(ops, rule, body, 0, r.env, 0) == Leave(v, r.env.world);
    }
  }

  /** In a world, plain statements all do what they mean exactly if its objects are truthful. */
  lemma {:induction false} LoopsAgreeExactly(ops: Ops)
    ensures (forall s, ns, env :: Plain(s, true) ==> Agrees(ops, s, ns, env)) <==> Truthful(ops)
  {
    if Truthful(ops) {
      forall s, ns, env | Plain(s, true) ensures Agrees(ops, s, ns, env) { PlainAgrees(ops, s, true, ns, env); }
    } else {
      var v, env :| Judge(ops, Invoke(ops, env, v, AsBool, [v])) != Judge(ops, Val(v, env));
      var env1 := env.(locals := env.locals[0 := v]);
      ProbeEnds(ops, Emitted, v, env1);
      ProbeEnds(ops, Intended, v, env1);
      assert EvalLoopTest(ops, Emitted, NameRef(0), env1) == Val(v, env1);
      assert EvalLoopTest(ops, Intended, NameRef(0), env1) == Invoke(ops, env1, v, AsBool, [v]);
      TellApart(ops, PROBE, 0, env1, 1, Exec(ops, Emitted, PROBE, 0, env1, 1), Exec(ops, Intended, PROBE, 0, env1, 1));
      assert Plain(PROBE, true);
    }
  }

  /** No loop at all does what it means in every world: `__bool__` may call false what is not a `bool`. */
  lemma {:induction false} EveryLoopDisagrees(s: Stmt, ns: nat, env: Env)
    requires s.While? && env.scope == None && env.locals == map[]
    ensures !Agrees(NoBools(), s, ns, env)
  {
    var ops := NoBools();
    ExprValue(s.test, env, env.world, 1, 2, 0, 2);
    TestValue(s.test, env, env.world, 1, 2, 0, 2);
    var r := EvalExpr(ops, s.test, env);
    TellApart(ops, s, ns, env, 1, Error(NotBool, env.world), Normal(r.env));
  }

  // ---- what both readings take over from the code ----

  /** `True or n1` */
  const TRUE_OR := BinOp(Lit(BoolConst(true)), Or, NameRef(1))

  /** `or` evaluates its right operand whatever the left one is: with no name defined, `True or n1` raises. */
  lemma {:induction false} OrIsEager(ops: Ops, l: Expr, r: Expr, env: Env)
    ensures var a := EvalExpr(ops, l, env);
      a.Val? && EvalExpr(ops, r, a.env).Fail? ==> EvalExpr(ops, BinOp(l, Or, r), env) == EvalExpr(ops, r, a.env)
    ensures env.locals == map[] ==> EvalExpr(NoNames(), TRUE_OR, env) == Fail(Raised(1), env.world)
  {
    assert EvalExpr(NoNames(), TRUE_OR.left, env) == Val(0, env);
    assert env.locals == map[] ==> EvalExpr(NoNames(), TRUE_OR.right, env) == Fail(Raised(1), env.world);
  }
}
