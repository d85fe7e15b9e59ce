/**
 How far the emitted code of an `if` chain is what the chain means.

 Patching overwrites the false edge of each test: the last one goes to the end
 of the chain (so an `else` body is never entered), and every other one goes
 to the test itself (so control never leaves it).
 */
module Chains {
  import opened RawInst
  import opened Ast
  import opened Machine
  import opened Lower
  import opened Meaning
  import opened Correctness
  import opened Worlds
  import opened Plain
  import opened Attributes
  import opened Clock

  // ---- exactly when a chain does what it means ----

  /** The first test of the chain is false in `env`; the rest of the chain starts in the environment it leaves. */
  predicate FirstTestFalse(ops: Ops, s: Stmt, env: Env)
    requires s.IfChain? && s.arms.Arm?
  {
    var r := EvalTest(ops, s.arms.test, env);
    r.Val? && r.v == ops.falseV && r.v != ops.trueV
  }

  /** The `else` body ends normally and changes nothing. */
  ghost predicate SilentElse(ops: Ops, o: OrElse, ns: nat, env: Env) {
    exists fuel: nat :: ExecElse(ops, Intended, o, ns, env, fuel) == Normal(env)
  }

  /** With an `elif` to try, the emitted code of a chain is stuck as soon as its first test is false. */
  lemma {:induction false} ElifNeverEnds(ops: Ops, s: Stmt, ns: nat, env: Env)
    requires s.IfChain? && s.arms.Arm? && s.arms.rest.Arm? && FirstTestFalse(ops, s, env)
    ensures NeverEnds(ops, Emitted, s, ns, env)
  {
    forall fuel: nat ensures Exec(ops, Emitted, s, ns, env, fuel).OutOfFuel? {
      assert ExecArms(ops, Emitted, s.arms, ns, env, fuel) == Took(OutOfFuel);
    }
  }

  /** The first test of the chain is true in `env`. */
  predicate FirstTestTrue(ops: Ops, s: Stmt, env: Env)
    requires s.IfChain? && s.arms.Arm?
  {
    var r := EvalTest(ops, s.arms.test, env);
    r.Val? && r.v == ops.trueV
  }

  /** The block ends with `r`. */
  ghost predicate BlockEndsAs(ops: Ops, rule: Reading, b: Block, ns: nat, env: Env, r: StmtResult) {
    !r.OutOfFuel? && exists fuel: nat :: ExecBlock(ops, rule, b, ns, env, fuel) == r
  }

  ghost predicate BlockAgrees(ops: Ops, b: Block, ns: nat, env: Env) {
    forall r :: BlockEndsAs(ops, Emitted, b, ns, env, r) <==> BlockEndsAs(ops, Intended, b, ns, env, r)
  }

  /**
   A chain does what it means in `env` exactly when
   - its first test is true, and its first body does what it means, or
   - its first test is neither true nor false, or fails, or
   - its first test is false, it has no `elif`, and its `else` body would change nothing and end normally, or
   - its first test is false, it has an `elif`, and its remaining branches would never end either.
   */
  lemma {:induction false} ChainAgreesExactly(ops: Ops, s: Stmt, ns: nat, env: Env)
    requires s.IfChain? && s.arms.Arm?
    ensures
      var r := EvalTest(ops, s.arms.test, env);
      Agrees(ops, s, ns, env) <==>
        if FirstTestTrue(ops, s, env) then BlockAgrees(ops, s.arms.body, ns, r.env)
        else if !FirstTestFalse(ops, s, env) then true
        else if s.arms.rest.NoArms? then SilentElse(ops, s.orelse, ns + ArmsDefs(s.arms), r.env)
        else NeverEnds(ops, Intended, IfChain(s.arms.rest, s.orelse), ns + BlockDefs(s.arms.body), r.env)
  {
    var env1 := if FirstTestTrue(ops, s, env) ||
      FirstTestFalse(ops, s, env) then EvalTest(ops, s.arms.test, env).env else env;
    if FirstTestTrue(ops, s, env) {
      FirstBodyDecides(ops, s, ns, env, env1);
    } else if !FirstTestFalse(ops, s, env) {
      forall fuel: nat ensures Exec(ops, Emitted, s, ns, env, fuel) == Exec(ops, Intended, s, ns, env, fuel) {}
    } else if s.arms.rest.NoArms? {
      ElseSkipped(ops, s, ns, env, env1, ns + ArmsDefs(s.arms));
    } else {
      StuckAgrees(ops, s, ns, env, env1, IfChain(s.arms.rest, s.orelse), ns + BlockDefs(s.arms.body));
    }
  }

  lemma {:induction false} ElseSkipped(ops: Ops, s: Stmt, ns: nat, env: Env, env1: Env, n1: nat)
    requires s.IfChain? && s.arms.Arm? && FirstTestFalse(ops, s, env) && s.arms.rest.NoArms?
    requires env1 == EvalTest(ops, s.arms.test, env).env && n1 == ns + ArmsDefs(s.arms)
    ensures Agrees(ops, s, ns, env) <==> SilentElse(ops, s.orelse, n1, env1)
  {
    forall fuel: nat
      ensures Exec(ops, Intended, s, ns, env, fuel) == ExecElse(ops, Intended, s.orelse, n1, env1, fuel) {
      assert ExecArms(ops, Intended, s.arms.rest, ns + BlockDefs(s.arms.body), env1, fuel) == Missed(env1);
      assert ExecArms(ops, Intended, s.arms, ns, env, fuel) == Missed(env1);
    }
    assert Exec(ops, Emitted, s, ns, env, 0) == Normal(env1);
    EndsOnce(ops, Emitted, s, ns, env, 0, Normal(env1));
    if fuel: nat :| ExecElse(ops, Intended, s.orelse, n1, env1, fuel) == Normal(env1) {
      assert Exec(ops, Intended, s, ns, env, fuel) == Normal(env1);
      EndsOnce(ops, Intended, s, ns, env, fuel, Normal(env1));
    }
    if Agrees(ops, s, ns, env) {
      assert EndsAs(ops, Intended, s, ns, env, Normal(env1));
      var fuel: nat :| Exec(ops, Intended, s, ns, env, fuel) == Normal(env1);
      assert ExecElse(ops, Intended, s.orelse, n1, env1, fuel) == Normal(env1);
    }
  }

  lemma {:induction false} StuckAgrees(ops: Ops, s: Stmt, ns: nat, env: Env, env1: Env, rest: Stmt, n1: nat)
    requires s.IfChain? && s.arms.Arm? && FirstTestFalse(ops, s, env) && s.arms.rest.Arm?
    requires env1 == EvalTest(ops, s.arms.test, env).env
    requires rest == IfChain(s.arms.rest, s.orelse) && n1 == ns + BlockDefs(s.arms.body)
    ensures Agrees(ops, s, ns, env) <==> NeverEnds(ops, Intended, rest, n1, env1)
  {
    ElifNeverEnds(ops, s, ns, env);
    forall fuel: nat ensures Exec(ops, Intended, s, ns, env, fuel) == Exec(ops, Intended, rest, n1, env1, fuel) {
      assert ns + ArmsDefs(s.arms) == n1 + ArmsDefs(s.arms.rest);
    }
    forall r ensures EndsAs(ops, Intended, s, ns, env, r) <==> EndsAs(ops, Intended, rest, n1, env1, r) {
      if EndsAs(ops, Intended, s, ns, env, r) {
        var f: nat :| Exec(ops, Intended, s, ns, env, f) == r;
        assert Exec(ops, Intended, rest, n1, env1, f) == r;
      }
      if EndsAs(ops, Intended, rest, n1, env1, r) {
        var f: nat :| Exec(ops, Intended, rest, n1, env1, f) == r;
        assert Exec(ops, Intended, s, ns, env, f) == r;
      }
    }
  }

  /** After a true test the chain ends as its first body does, by either reading. */
  lemma {:induction false} FirstBodyDecides(ops: Ops, s: Stmt, ns: nat, env: Env, env1: Env)
    requires s.IfChain? && s.arms.Arm? && FirstTestTrue(ops, s, env)
    requires env1 == EvalTest(ops, s.arms.test, env).env
    ensures Agrees(ops, s, ns, env) <==> BlockAgrees(ops, s.arms.body, ns, env1)
  {
    var b := s.arms.body;
    forall rule, r ensures EndsAs(ops, rule, s, ns, env, r) <==> BlockEndsAs(ops, rule, b, ns, env1, r) {
      forall fuel: nat ensures Exec(ops, rule, s, ns, env, fuel) == ExecBlock(ops, rule, b, ns, env1, fuel) {}
      if EndsAs(ops, rule, s, ns, env, r) {
        var f: nat :| Exec(ops, rule, s, ns, env, f) == r;
        assert ExecBlock(ops, rule, b, ns, env1, f) == r;
      }
      if BlockEndsAs(ops, rule, b, ns, env1, r) {
        var f: nat :| ExecBlock(ops, rule, b, ns, env1, f) == r;
        assert Exec(ops, rule, s, ns, env, f) == r;
      }
    }
  }

  // ---- exactly which chains do what they mean in every world ----

  /** In the world where everything is false, no loop turns and no body of a chain is entered. */
  lemma {:induction false} EndsInAllFalse(s: Stmt, ns: nat, env: Env)
    ensures !Exec(AllFalse(), Intended, s, ns, env, 1).OutOfFuel?
    decreases s, 1
  {
    if s.IfChain? { ChainEndsInAllFalse(s.arms, s.orelse, ns, env); }
  }

  lemma {:induction false} BlockEndsInAllFalse(b: Block, ns: nat, env: Env)
    ensures !ExecBlock(AllFalse(), Intended, b, ns, env, 1).OutOfFuel?
    decreases b, 1
  {
    if b.Then? {
      EndsInAllFalse(b.head, ns, env);
      var r := Exec(AllFalse(), Intended, b.head, ns, env, 1);
      if r.Normal? { BlockEndsInAllFalse(b.tail, ns + Defs(b.head), r.env); }
    }
  }

  lemma {:induction false} ChainEndsInAllFalse(arms: Arms, orelse: OrElse, ns: nat, env: Env)
    ensures ExecArms(AllFalse(), Intended, arms, ns, env, 1) != Took(OutOfFuel)
    ensures var r := ExecArms(AllFalse(), Intended, arms, ns, env, 1);
      r.Missed? ==> !ExecElse(AllFalse(), Intended, orelse, ns + ArmsDefs(arms), r.env, 1).OutOfFuel?
    decreases orelse, arms
  {
    if arms.Arm? {
      var r := EvalTest(AllFalse(), arms.test, env);
      if r.Val? { ChainEndsInAllFalse(arms.rest, orelse, ns + BlockDefs(arms.body), r.env); }
    } else if orelse.Else? {
      BlockEndsInAllFalse(orelse.body, ns, env);
    }
  }

  /** That world tells every chain with a second branch from what it means. */
  lemma {:induction false} SecondBranchDisagrees(s: Stmt, ns: nat, env: Env)
    requires s.IfChain? && s.arms.Arm? && s.arms.rest.Arm? && env.scope == None
    ensures !Agrees(AllFalse(), s, ns, env)
  {
    TestValue(s.arms.test, env, env.world, 1, 0, 0, 0);
    ElifNeverEnds(AllFalse(), s, ns, env);
    EndsInAllFalse(s, ns, env);
    var r := Exec(AllFalse(), Intended, s, ns, env, 1);
    assert EndsAs(AllFalse(), Intended, s, ns, env, r);
  }

  /** Whatever its bodies: a chain that does what it means in every world has no second branch. */
  lemma {:induction false} AgreeingChainsHaveOneBranch(s: Stmt, ns: nat, w: World)
    requires s.IfChain? && s.arms.Arm?
    ensures (forall ops, env :: Agrees(ops, s, ns, env)) ==> s.arms.rest.NoArms?
  {
    if s.arms.rest.Arm? { SecondBranchDisagrees(s, ns, Env(None, map[], w)); }
  }

  /** The world that counts tells every chain with a single test whose `else` body does something. */
  lemma {:induction false} BusyElseDisagrees(s: Stmt, ns: nat, at: nat -> World)
    requires s.IfChain? && s.arms.Arm? && s.arms.rest.NoArms? && BindsNothing(s.arms.test)
    requires Counts(at) && !QuietElse(s.orelse)
    ensures !Agrees(Ticking(at), s, ns, Env(None, map[], at(0)))
  {
    var ops, env, n1 := Ticking(at), Env(None, map[], at(0)), ns + ArmsDefs(s.arms);
    TestTicks(at, s.arms.test, env, 0);
    ExprKeepsNames(ops, s.arms.test, env);
    var env1 := EvalTest(ops, s.arms.test, env).env;
    ElseSkipped(ops, s, ns, env, env1, n1);
    if fuel: nat :| ExecElse(ops, Intended, s.orelse, n1, env1, fuel) == Normal(env1) {
      var j: nat :| j >= 0 && env1.world == at(j);
      ElseTicks(at, s.orelse, n1, env1, j);
      var r := ExecElse(ops, Intended, s.orelse, n1, env1, 1);
      if fuel == 0 { ElseFuel(ops, Intended, s.orelse, n1, env1, 0, 1); }
      else { ElseFuel(ops, Intended, s.orelse, n1, env1, 1, fuel); }
      assert false;
    }
  }

  /**
   A chain with a plain first body does what it means in every world and every
   environment exactly when it has a single test, and an `else` body that does nothing if any.
   */
  lemma {:induction false} ChainsAgreeExactly(s: Stmt, ns: nat, at: nat -> World)
    requires s.IfChain? && s.arms.Arm? && BindsNothing(s.arms.test) && PlainBlock(s.arms.body, false) && Counts(at)
    ensures (forall ops, env :: Agrees(ops, s, ns, env)) <==> s.arms.rest.NoArms? && QuietElse(s.orelse)
  {
    if s.arms.rest.Arm? {
      AgreeingChainsHaveOneBranch(s, ns, at(0));
    } else if !QuietElse(s.orelse) {
      BusyElseDisagrees(s, ns, at);
    } else {
      forall ops, env ensures Agrees(ops, s, ns, env) { QuietChainAgrees(ops, s, ns, env); }
    }
  }

  lemma {:induction false} QuietChainAgrees(ops: Ops, s: Stmt, ns: nat, env: Env)
    requires s.IfChain? && s.arms.Arm? && PlainBlock(s.arms.body, false)
    requires s.arms.rest.NoArms? && QuietElse(s.orelse)
    ensures Agrees(ops, s, ns, env)
  {
    ChainAgreesExactly(ops, s, ns, env);
    var r := EvalTest(ops, s.arms.test, env);
    if FirstTestTrue(ops, s, env) {
      forall fuel: nat
        ensures ExecBlock(ops, Emitted, s.arms.body, ns, r.env, fuel) ==
          ExecBlock(ops, Intended, s.arms.body, ns, r.env, fuel) {
        PlainBlockMeans(ops, s.arms.body, false, ns, r.env, fuel);
      }
    } else if FirstTestFalse(ops, s, env) {
      QuietElseKeeps(ops, Intended, s.orelse, ns + ArmsDefs(s.arms), r.env, 0);
    }
  }

  // ---- two programs the code gets wrong ----

  const FALSE_TEST := Lit(BoolConst(false))

  /** `if False: pass` / `else: return None` */
  const ELSE_CHAIN := IfChain(Arm(FALSE_TEST, Empty, NoArms), Else(Then(ReturnStmt(None), Empty)))

  /** `if False: pass` / `elif False: pass` */
  const ELIF_CHAIN := IfChain(Arm(FALSE_TEST, Empty, Arm(FALSE_TEST, Empty, NoArms)), NoElse)

  lemma {:induction false} FalseTest(env: Env)
    ensures EvalTest(AllFalse(), FALSE_TEST, env) == Val(0, env)
  {
    assert EvalExpr(AllFalse(), FALSE_TEST, env) == Val(0, env);
  }

  /** A false test before an `else` that leaves: the chain should leave, and the code runs on instead. */
  lemma {:induction false} ElseIsSkipped(code: seq<Inst>, ops: Ops, s: Stmt, ns: nat, st: State, fuel: nat)
    requires st.ip == 0 && Lowered(code, Then(s, Empty), ns)
    requires s.IfChain? && s.arms.Arm? && s.arms.rest.NoArms? && FirstTestFalse(ops, s, st.env)
    requires ExecElse(ops, Intended, s.orelse, ns + ArmsDefs(s.arms), EvalTest(ops, s.arms.test, st.env).env,
      fuel).Leave?
    ensures exists v, w :: Ends(ops, Intended, Then(s, Empty), ns, st.env, Returned(v, w))
    ensures Halts(code, ops, st, Completed(EvalTest(ops, s.arms.test, st.env).env))
  {
    var b, env, env1 := Then(s, Empty), st.env, EvalTest(ops, s.arms.test, st.env).env;
    var r := ExecElse(ops, Intended, s.orelse, ns + ArmsDefs(s.arms), env1, fuel);
    assert ExecArms(ops, Intended, s.arms.rest, ns + BlockDefs(s.arms.body), env1, fuel) == Missed(env1);
    assert Exec(ops, Intended, s, ns, env, fuel) == r;
    assert OutcomeOf(ExecBlock(ops, Intended, b, ns, env, fuel)) == Some(Returned(r.v, r.w));
    assert Exec(ops, Emitted, s, ns, env, 0) == Normal(env1);
    assert OutcomeOf(ExecBlock(ops, Emitted, b, ns, env, 0)) == Some(Completed(env1));
    EndsImpliesHalts(code, ops, b, ns, st, Completed(env1));
  }

  /** A false test before another branch: the code never halts, whatever the chain should do. */
  lemma {:induction false} ElifIsStuck(code: seq<Inst>, ops: Ops, s: Stmt, ns: nat, st: State, o: Outcome)
    requires st.ip == 0 && Lowered(code, Then(s, Empty), ns)
    requires s.IfChain? && s.arms.Arm? && s.arms.rest.Arm? && FirstTestFalse(ops, s, st.env)
    ensures !Halts(code, ops, st, o)
  {
    var b := Then(s, Empty);
    LoweringPreservesMeaning(code, ops, b, ns, st, o);
    forall fuel: nat ensures ExecBlock(ops, Emitted, b, ns, st.env, fuel).OutOfFuel? {
      assert ExecArms(ops, Emitted, s.arms, ns, st.env, fuel) == Took(OutOfFuel);
    }
  }

  /** Both really happen: here the two chains above disagree with what they mean. */
  lemma {:induction false} TwoWrongChains(env: Env)
    ensures !Agrees(AllFalse(), ELSE_CHAIN, 1, env)
    ensures !Agrees(AllFalse(), ELIF_CHAIN, 1, env)
  {
    var ops := AllFalse();
    FalseTest(env);
    assert ExecArms(ops, Intended, NoArms, 1, env, 0) == Missed(env);
    assert Exec(ops, Intended, ReturnStmt(None), 1, env, 0) == Leave(0, env.world);
    assert ExecBlock(ops, Intended, Then(ReturnStmt(None), Empty), 1, env, 0) == Leave(0, env.world);
    assert Exec(ops, Intended, ELSE_CHAIN, 1, env, 0) == Leave(0, env.world);
    EndsOnce(ops, Intended, ELSE_CHAIN, 1, env, 0, Leave(0, env.world));
    assert Exec(ops, Emitted, ELSE_CHAIN, 1, env, 0) == Normal(env);
    EndsOnce(ops, Emitted, ELSE_CHAIN, 1, env, 0, Normal(env));
    assert EndsAs(ops, Emitted, ELSE_CHAIN, 1, env, Normal(env));

    assert ExecArms(ops, Intended, ELIF_CHAIN.arms.rest, 1, env, 0) == Missed(env);
    assert ExecArms(ops, Intended, ELIF_CHAIN.arms, 1, env, 0) == Missed(env);
    assert Exec(ops, Intended, ELIF_CHAIN, 1, env, 0) == Normal(env);
    assert EndsAs(ops, Intended, ELIF_CHAIN, 1, env, Normal(env));
    ElifNeverEnds(ops, ELIF_CHAIN, 1, env);
  }
}
