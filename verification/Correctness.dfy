/**
 Lowering preserves meaning: for every program, every behaviour of the outside
 world and every outcome, the flat machine halts with the outcome exactly when
 the program ends with it.
 */
module Correctness {
  import opened RawInst
  import opened Ast
  import opened Machine
  import opened Lower
  import opened Meaning
  import opened SimExpr
  import opened SimStmt

  // ---- more fuel does not change an outcome ----

  lemma {:induction false} StmtFuel(ops: Ops, rule: Reading, s: Stmt, ns: nat, env: Env, f: nat, g: nat)
    requires f <= g && !Exec(ops, rule, s, ns, env, f).OutOfFuel?
    ensures Exec(ops, rule, s, ns, env, g) == Exec(ops, rule, s, ns, env, f)
    decreases f, s, 0
  {
    match s
    case While(test, body) =>
      var r := EvalLoopTest(ops, rule, test, env);
      if r.Val? && r.v == ops.trueV {
        BlockFuel(ops, rule, body, ns, r.env, f - 1, g - 1);
        var b := ExecBlock(ops, rule, body, ns, r.env, f - 1);
        if b.Normal? { StmtFuel(ops, rule, s, ns, b.env, f - 1, g - 1); }
      }
    case IfChain(arms, orelse) =>
      ArmsFuel(ops, rule, arms, ns, env, f, g);
      var r := ExecArms(ops, rule, arms, ns, env, f);
      if r.Missed? { ElseFuel(ops, rule, orelse, ns + ArmsDefs(arms), r.env, f, g); }
    case _ =>
  }

  lemma {:induction false} BlockFuel(ops: Ops, rule: Reading, b: Block, ns: nat, env: Env, f: nat, g: nat)
    requires f <= g && !ExecBlock(ops, rule, b, ns, env, f).OutOfFuel?
    ensures ExecBlock(ops, rule, b, ns, env, g) == ExecBlock(ops, rule, b, ns, env, f)
    decreases f, b, 0
  {
    match b
    case Empty =>
    case Then(h, t) =>
      StmtFuel(ops, rule, h, ns, env, f, g);
      var r := Exec(ops, rule, h, ns, env, f);
      if r.Normal? { BlockFuel(ops, rule, t, ns + Defs(h), r.env, f, g); }
  }

  lemma {:induction false} ArmsFuel(ops: Ops, rule: Reading, arms: Arms, ns: nat, env: Env, f: nat, g: nat)
    requires f <= g && ExecArms(ops, rule, arms, ns, env, f) != Took(OutOfFuel)
    ensures ExecArms(ops, rule, arms, ns, env, g) == ExecArms(ops, rule, arms, ns, env, f)
    decreases f, arms, 0
  {
    match arms
    case NoArms =>
    case Arm(test, body, rest) =>
      var r := EvalTest(ops, test, env);
      if r.Val? && r.v == ops.trueV {
        BlockFuel(ops, rule, body, ns, r.env, f, g);
      } else if r.Val? && r.v == ops.falseV && rule.Intended? {
        ArmsFuel(ops, rule, rest, ns + BlockDefs(body), r.env, f, g);
      }
  }

  lemma {:induction false} ElseFuel(ops: Ops, rule: Reading, o: OrElse, ns: nat, env: Env, f: nat, g: nat)
    requires f <= g && !ExecElse(ops, rule, o, ns, env, f).OutOfFuel?
    ensures ExecElse(ops, rule, o, ns, env, g) == ExecElse(ops, rule, o, ns, env, f)
    decreases f, o, 0
  {
    match o
    case NoElse =>
    case Else(body) => BlockFuel(ops, rule, body, ns, env, f, g);
  }

  // ---- a run that halts comes from an execution that ends ----

  ghost predicate HaltsIn(code: seq<Inst>, ops: Ops, a: State, k: nat) {
    exists o :: Stops(code, ops, a, k, o)
  }

  /** What is left of a halting run after a prefix of it. */
  lemma {:induction false} Rest(code: seq<Inst>, ops: Ops, a: State, n: nat, b: State, k: nat)
    requires Path(code, ops, a, n, b) && HaltsIn(code, ops, a, k)
    ensures n <= k && HaltsIn(code, ops, b, k - n)
  {
    var o :| Stops(code, ops, a, k, o);
    assert Run(code, ops, a, n + 0) == Run(code, ops, b, 0);
    forall m: nat | m >= k - n ensures Run(code, ops, b, m) == Done(o) {
      assert Run(code, ops, a, n + m) == Run(code, ops, b, m);
    }
    assert n <= k ==> Stops(code, ops, b, k - n, o);
  }

  lemma {:induction false} RestOne(code: seq<Inst>, ops: Ops, a: State, b: State, k: nat)
    requires Step(code, ops, a) == Next(b) && HaltsIn(code, ops, a, k)
    ensures 1 <= k && HaltsIn(code, ops, b, k - 1)
  {
    PathOne(code, ops, a);
    Rest(code, ops, a, 1, b, k);
  }

  lemma {:induction false} StmtEnds(code: seq<Inst>, ops: Ops, s: Stmt, ns: nat, st: State, k: nat) returns (fuel: nat)
    requires StmtAt(code, s, st.ip, ns) && HaltsIn(code, ops, st, k)
    ensures !Exec(ops, Emitted, s, ns, st.env, fuel).OutOfFuel?
    decreases k, s, 2
  {
    fuel := 0;
    match s
    case While(_, _) => fuel := WhileEnds(code, ops, s, ns, st, k);
    case IfChain(_, _) => fuel := ChainEnds(code, ops, s, ns, st, k);
    case _ =>
  }

  lemma {:induction false} WhileEnds(code: seq<Inst>, ops: Ops, s: Stmt, ns: nat, st: State, k: nat) returns (fuel: nat)
    requires s.While? && WhileAt(code, s, st.ip, ns) && HaltsIn(code, ops, st, k)
    ensures !Exec(ops, Emitted, s, ns, st.env, fuel).OutOfFuel?
    decreases k, s, 1
  {
    var b := st.(ip := st.ip + 1);
    RestOne(code, ops, st, b, k);
    fuel := LoopEnds(code, ops, s, ns, b, k - 1);
  }

  lemma {:induction false} BlockEnds(code: seq<Inst>, ops: Ops, b: Block, ns: nat, st: State, k: nat)
    returns (fuel: nat)
    requires BlockAt(code, b, st.ip, ns) && HaltsIn(code, ops, st, k)
    ensures !ExecBlock(ops, Emitted, b, ns, st.env, fuel).OutOfFuel?
    decreases k, b, 3
  {
    fuel := 0;
    match b
    case Empty =>
    case Then(h, t) =>
      fuel := StmtEnds(code, ops, h, ns, st, k);
      var r := Exec(ops, Emitted, h, ns, st.env, fuel);
      if r.Normal? {
        var n, c := StmtSim(code, ops, h, ns, st, fuel);
        Rest(code, ops, st, n, c, k);
        var g := BlockEnds(code, ops, t, ns + Defs(h), c, k - n);
        var f := if fuel < g then g else fuel;
        StmtFuel(ops, Emitted, h, ns, st.env, fuel, f);
        BlockFuel(ops, Emitted, t, ns + Defs(h), c.env, g, f);
        fuel := f;
      }
  }

  lemma {:induction false} LoopEnds(code: seq<Inst>, ops: Ops, s: Stmt, ns: nat, st: State, k: nat) returns (fuel: nat)
    requires s.While? && st.ip > 0 && WhileAt(code, s, st.ip - 1, ns) && HaltsIn(code, ops, st, k)
    ensures !Exec(ops, Emitted, s, ns, st.env, fuel).OutOfFuel?
    decreases k, s, 1
  {
    fuel := 1;
    var r := EvalExpr(ops, s.test, st.env);
    if r.Val? && r.v == ops.trueV {
      var n, c := LoopTest(code, ops, s, ns, st);
      Rest(code, ops, st, n, c, k);
      fuel := TurnEnds(code, ops, s, ns, st.ip, st.env, c, k - n);
    }
  }

  /** A loop whose test came out true. */
  lemma {:induction false} TurnEnds(code: seq<Inst>, ops: Ops, s: Stmt, ns: nat, head: nat, env: Env, c: State,
        k: nat) returns (fuel: nat)
    requires s.While? && head > 0 && WhileAt(code, s, head - 1, ns)
    requires EvalExpr(ops, s.test, env) == Val(ops.trueV, c.env)
    requires c.ip == ExprEnd(s.test, head + 1) + 2 && HaltsIn(code, ops, c, k)
    ensures !Exec(ops, Emitted, s, ns, env, fuel).OutOfFuel?
    decreases k, s, 2
  {
    var g := BlockEnds(code, ops, s.body, ns, c, k);
    var h := 0;
    if ExecBlock(ops, Emitted, s.body, ns, c.env, g).Normal? {
      var m, e := BackToHead(code, ops, s, ns, head, c, g, k);
      h := LoopEnds(code, ops, s, ns, e, m);
    }
    fuel := LoopFuel(ops, s, ns, env, c.env, g, h);
  }

  /** From a loop body that ends normally back to the head of the loop. */
  lemma {:induction false} BackToHead(code: seq<Inst>, ops: Ops, s: Stmt, ns: nat, head: nat, c: State, g: nat,
        k: nat) returns (m: nat, e: State)
    requires s.While? && head > 0 && WhileAt(code, s, head - 1, ns)
    requires c.ip == ExprEnd(s.test, head + 1) + 2 && HaltsIn(code, ops, c, k)
    requires ExecBlock(ops, Emitted, s.body, ns, c.env, g).Normal?
    ensures m < k && HaltsIn(code, ops, e, m)
    ensures e.ip == head && e.env == ExecBlock(ops, Emitted, s.body, ns, c.env, g).env
  {
    var n, d := BlockSim(code, ops, s.body, ns, c, g);
    Rest(code, ops, c, n, d, k);
    e := d.(ip := head);
    RestOne(code, ops, d, e, k - n);
    m := k - n - 1;
  }

  /** Join the fuel of one turn of a loop with that of the remaining turns. */
  lemma {:induction false} LoopFuel(ops: Ops, s: Stmt, ns: nat, env: Env, env1: Env, g: nat, h: nat) returns (fuel: nat)
    requires s.While? && EvalExpr(ops, s.test, env) == Val(ops.trueV, env1)
    requires var b := ExecBlock(ops, Emitted, s.body, ns, env1, g);
      !b.OutOfFuel? && (b.Normal? ==> !Exec(ops, Emitted, s, ns, b.env, h).OutOfFuel?)
    ensures !Exec(ops, Emitted, s, ns, env, fuel).OutOfFuel?
  {
    var b := ExecBlock(ops, Emitted, s.body, ns, env1, g);
    var f := if g < h then h else g;
    BlockFuel(ops, Emitted, s.body, ns, env1, g, f);
    if b.Normal? { StmtFuel(ops, Emitted, s, ns, b.env, h, f); }
    fuel := f + 1;
  }

  lemma {:induction false} ChainEnds(code: seq<Inst>, ops: Ops, s: Stmt, ns: nat, st: State, k: nat) returns (fuel: nat)
    requires s.IfChain? && ChainAt(code, s, st.ip, ns) && HaltsIn(code, ops, st, k)
    ensures !Exec(ops, Emitted, s, ns, st.env, fuel).OutOfFuel?
    decreases k, s, 1
  {
    if s.arms.NoArms? {
      fuel := ElseEnds(code, ops, s.orelse, ns, st, ChainAfter(s, st.ip), k);
    } else {
      fuel := ArmEnds(code, ops, s.arms, ns, st, ChainBodies(s.arms, st.ip), ChainAfter(s, st.ip), k);
    }
  }

  lemma {:induction false} ElseEnds(code: seq<Inst>, ops: Ops, o: OrElse, ns: nat, st: State, after: nat,
        k: nat) returns (fuel: nat)
    requires ElseAt(code, o, st.ip, ns, after) && HaltsIn(code, ops, st, k)
    ensures !ExecElse(ops, Emitted, o, ns, st.env, fuel).OutOfFuel?
    decreases k, o, 1
  {
    fuel := 0;
    if o.Else? {
      var b := st.(ip := st.ip + 1);
      RestOne(code, ops, st, b, k);
      fuel := BlockEnds(code, ops, o.body, ns, b, k - 1);
    }
  }

  lemma {:induction false} ArmEnds(code: seq<Inst>, ops: Ops, arms: Arms, ns: nat, st: State, q: nat, after: nat,
        k: nat) returns (fuel: nat)
    requires arms.Arm? && q >= st.ip && after >= st.ip
    requires st.ip == 0 ==> |code| > 0 && code[0] == JumpTarget
    requires TestsAt(code, arms, ChainTests(arms, st.ip), q, after) && BodiesAt(code, arms, q, ns, after)
    requires HaltsIn(code, ops, st, k)
    ensures ExecArms(ops, Emitted, arms, ns, st.env, fuel) != Took(OutOfFuel)
    decreases k, arms, 1
  {
    fuel := 0;
    var r := EvalTest(ops, arms.test, st.env);
    if r.Val? && (r.v == ops.trueV || r.v == ops.falseV) {
      var n, c := ChainTest(code, ops, arms, st, q, after);
      Rest(code, ops, st, n, c, k);
      if r.v == ops.trueV {
        fuel := FirstBodyEnds(code, ops, arms, ns, c, q, after, k - n);
      } else if arms.rest.Arm? {
        StuckNeverHalts(code, ops, c, k - n);
        assert false;
      }
    }
  }

  lemma {:induction false} FirstBodyEnds(code: seq<Inst>, ops: Ops, arms: Arms, ns: nat, c: State, q: nat, after: nat,
        k: nat)
    returns (fuel: nat)
    requires arms.Arm? && BodiesAt(code, arms, q, ns, after) && c.ip == q && HaltsIn(code, ops, c, k)
    ensures !ExecBlock(ops, Emitted, arms.body, ns, c.env, fuel).OutOfFuel?
    decreases k, arms, 0
  {
    var d := c.(ip := q + 1);
    RestOne(code, ops, c, d, k);
    fuel := BlockEnds(code, ops, arms.body, ns, d, k - 1);
  }

  /** An `If` whose false edge is the `If` itself never gets past a false test. */
  lemma {:induction false} SelfLoop(code: seq<Inst>, ops: Ops, c: State, n: nat)
    requires c.ip < |code| && code[c.ip].If? && code[c.ip].falsey == Some(c.ip)
    requires Holds(c.values, code[c.ip].test, ops.falseV) && ops.falseV != ops.trueV
    ensures Run(code, ops, c, n) == Running(c)
  {
    if n > 0 { SelfLoop(code, ops, c, n - 1); }
  }

  lemma {:induction false} StuckNeverHalts(code: seq<Inst>, ops: Ops, c: State, n: nat)
    requires c.ip < |code| && code[c.ip].If? && code[c.ip].falsey == Some(c.ip)
    requires Holds(c.values, code[c.ip].test, ops.falseV) && ops.falseV != ops.trueV
    ensures !HaltsIn(code, ops, c, n)
  {
    SelfLoop(code, ops, c, n);
  }

  // ---- the theorem ----

  function OutcomeOf(r: StmtResult): Option<Outcome> {
    match r
    case Normal(env) => Some(Completed(env))
    case Leave(v, w) => Some(Returned(v, w))
    case Error(x, w) => Some(Failed(x, w))
    case OutOfFuel => None
  }

  /** Executing the block ends with `o`. */
  ghost predicate Ends(ops: Ops, rule: Reading, b: Block, ns: nat, env: Env, o: Outcome) {
    exists fuel: nat :: OutcomeOf(ExecBlock(ops, rule, b, ns, env, fuel)) == Some(o)
  }

  /** The flat machine halts with `o`. */
  ghost predicate Halts(code: seq<Inst>, ops: Ops, st: State, o: Outcome) {
    exists n: nat :: Run(code, ops, st, n) == Done(o)
  }

  /** `code` is what lowering `b` on its own emits. */
  predicate Lowered(code: seq<Inst>, b: Block, ns: nat) {
    BlockAt(code, b, 0, ns) && |code| == BlockEnd(b, 0)
  }

  /** Every way a program can end is a way its code can halt: with the same value, locals, world or fault. */
  lemma {:induction false} EndsImpliesHalts(code: seq<Inst>, ops: Ops, b: Block, ns: nat, st: State, o: Outcome)
    requires Lowered(code, b, ns) && st.ip == 0
    requires Ends(ops, Emitted, b, ns, st.env, o)
    ensures Halts(code, ops, st, o)
  {
    var fuel: nat :| OutcomeOf(ExecBlock(ops, Emitted, b, ns, st.env, fuel)) == Some(o);
    var n, c := BlockSim(code, ops, b, ns, st, fuel);
    if o.Completed? {
      PathOne(code, ops, c);
      PathStops(code, ops, st, n, c, 1, Completed(c.env));
    }
    assert Run(code, ops, st, n + 1) == Done(o);
  }

  lemma {:induction false} HaltsUnique(code: seq<Inst>, ops: Ops, st: State, o: Outcome, p: Outcome)
    requires Halts(code, ops, st, o) && Halts(code, ops, st, p)
    ensures o == p
  {
    var n: nat :| Run(code, ops, st, n) == Done(o);
    var m: nat :| Run(code, ops, st, m) == Done(p);
    if n <= m { RunHalted(code, ops, st, n, m); } else { RunHalted(code, ops, st, m, n); }
  }

  lemma {:induction false} LoweringPreservesMeaning(code: seq<Inst>, ops: Ops, b: Block, ns: nat, st: State, o: Outcome)
    requires Lowered(code, b, ns) && st.ip == 0
    ensures Halts(code, ops, st, o) <==> Ends(ops, Emitted, b, ns, st.env, o)
  {
    if Ends(ops, Emitted, b, ns, st.env, o) {
      EndsImpliesHalts(code, ops, b, ns, st, o);
    }
    if Halts(code, ops, st, o) {
      var k: nat :| Run(code, ops, st, k) == Done(o);
      forall m: nat | m >= k ensures Run(code, ops, st, m) == Done(o) { RunHalted(code, ops, st, k, m); }
      assert Stops(code, ops, st, k, o);
      var fuel := BlockEnds(code, ops, b, ns, st, k);
      var p := OutcomeOf(ExecBlock(ops, Emitted, b, ns, st.env, fuel)).value;
      assert Ends(ops, Emitted, b, ns, st.env, p);
      EndsImpliesHalts(code, ops, b, ns, st, p);
      HaltsUnique(code, ops, st, o, p);
    }
  }
}
