/**
 Running the instructions of a statement does what executing it does, by the
 emitted reading of `if` chains; and a run that halts corresponds to an
 execution that ends.
 */
module SimStmt {
  import opened RawInst
  import opened Ast
  import opened Machine
  import opened Lower
  import opened Meaning
  import opened SimExpr

  /** The run mirrors `r`: it halts likewise, or goes on at `end`. */
  ghost predicate Performs(code: seq<Inst>, ops: Ops, st: State, n: nat, st1: State, r: StmtResult, end: nat) {
    match r
    case Normal(env) => Arrives(code, ops, st, n, st1, end, env)
    case Leave(v, w) => Stops(code, ops, st, n, Returned(v, w))
    case Error(x, w) => Stops(code, ops, st, n, Failed(x, w))
    case OutOfFuel => true
  }

  lemma {:induction false} PerformsThen(code: seq<Inst>, ops: Ops, a: State, n: nat, b: State, m: nat, c: State,
        r: StmtResult, end: nat)
    requires Arrives(code, ops, a, n, b, b.ip, b.env) && a.ip <= b.ip
    requires Performs(code, ops, b, m, c, r, end)
    ensures Performs(code, ops, a, n + m, c, r, end)
  {
    match r
    case Normal(_) => ArrivesThen(code, ops, a, n, b, m, c);
    case Leave(v, w) => PathStops(code, ops, a, n, b, m, Returned(v, w));
    case Error(x, w) => PathStops(code, ops, a, n, b, m, Failed(x, w));
    case OutOfFuel =>
  }

  /** An instruction that only moves on, or jumps. */
  lemma {:induction false} Hop(code: seq<Inst>, ops: Ops, a: State, n: nat, b: State, ip: nat)
    requires Arrives(code, ops, a, n, b, b.ip, b.env) && a.ip <= b.ip
    requires Step(code, ops, b) == Next(b.(ip := ip))
    ensures Arrives(code, ops, a, n + 1, b.(ip := ip), ip, b.env)
  {
    PathOne(code, ops, b);
    PathThen(code, ops, a, n, b, 1, b.(ip := ip));
  }

  lemma {:induction false} Stay(code: seq<Inst>, ops: Ops, a: State)
    ensures Arrives(code, ops, a, 0, a, a.ip, a.env)
  {
  }

  // ---- forward ----

  lemma {:induction false} StmtSim(code: seq<Inst>, ops: Ops, s: Stmt, ns: nat, st: State, fuel: nat)
    returns (n: nat, st1: State)
    requires StmtAt(code, s, st.ip, ns)
    ensures Performs(code, ops, st, n, st1, Exec(ops, Emitted, s, ns, st.env, fuel), StmtEnd(s, st.ip))
    decreases fuel, s, 3
  {
    if s.While? {
      n, st1 := WhileSim(code, ops, s, ns, st, fuel);
    } else if s.IfChain? {
      n, st1 := ChainSim(code, ops, s, ns, st, fuel);
    } else if s.FuncDef? {
      n, st1 := DefSim(code, ops, s, ns, st, fuel);
    } else {
      n, st1 := SimpleSim(code, ops, s, ns, st, fuel);
    }
  }

  lemma {:induction false} SimpleSim(code: seq<Inst>, ops: Ops, s: Stmt, ns: nat, st: State, fuel: nat)
    returns (n: nat, st1: State)
    requires !s.While? && !s.IfChain? && !s.FuncDef? && StmtAt(code, s, st.ip, ns)
    ensures Performs(code, ops, st, n, st1, Exec(ops, Emitted, s, ns, st.env, fuel), StmtEnd(s, st.ip))
  {
    match s
    case ExprStmt(e) => n, st1 := ExprSim(code, ops, e, st);
    case Assign(_, _) => n, st1 := AssignSim(code, ops, s, ns, st, fuel);
    case AssignAttr(_, _, _) => n, st1 := AssignAttrSim(code, ops, s, ns, st, fuel);
    case Annotate(_, _) => n, st1 := AnnotateSim(code, ops, s, ns, st, fuel);
    case ReturnStmt(_) => n, st1 := ReturnSim(code, ops, s, ns, st, fuel);
    case Pass =>
      PathOne(code, ops, st);
      n, st1 := 1, st.(ip := st.ip + 1);
  }

  lemma {:induction false} BlockSim(code: seq<Inst>, ops: Ops, b: Block, ns: nat, st: State, fuel: nat)
    returns (n: nat, st1: State)
    requires BlockAt(code, b, st.ip, ns)
    ensures Performs(code, ops, st, n, st1, ExecBlock(ops, Emitted, b, ns, st.env, fuel), BlockEnd(b, st.ip))
    decreases fuel, b, 3
  {
    n, st1 := 0, st;
    match b
    case Empty => Stay(code, ops, st);
    case Then(h, t) =>
      n, st1 := StmtSim(code, ops, h, ns, st, fuel);
      if Exec(ops, Emitted, h, ns, st.env, fuel).Normal? {
        var c := st1;
        var m;
        m, st1 := BlockSim(code, ops, t, ns + Defs(h), c, fuel);
        PerformsThen(code, ops, st, n, c, m, st1, ExecBlock(ops, Emitted, t, ns + Defs(h), c.env, fuel),
          BlockEnd(b, st.ip));
        n := n + m;
      }
  }

  lemma {:induction false} WhileSim(code: seq<Inst>, ops: Ops, s: Stmt, ns: nat, st: State, fuel: nat)
    returns (n: nat, st1: State)
    requires s.While? && WhileAt(code, s, st.ip, ns)
    ensures Performs(code, ops, st, n, st1, Exec(ops, Emitted, s, ns, st.env, fuel),
                     BlockEnd(s.body, ExprEnd(s.test, st.ip + 2) + 2) + 2)
    decreases fuel, s, 2, 1
  {
    var b := st.(ip := st.ip + 1);
    assert Arrives(code, ops, st, 1, b, b.ip, b.env) by { PathOne(code, ops, st); }
    n, st1 := LoopSim(code, ops, s, ns, b, fuel);
    PerformsThen(code, ops, st, 1, b, n, st1, Exec(ops, Emitted, s, ns, b.env, fuel),
                 BlockEnd(s.body, ExprEnd(s.test, b.ip + 1) + 2) + 2);
    n := n + 1;
  }

  lemma {:induction false} AnnotateSim(code: seq<Inst>, ops: Ops, s: Stmt, ns: nat, st: State, fuel: nat)
    returns (n: nat, st1: State)
    requires s.Annotate? && StmtAt(code, s, st.ip, ns)
    ensures Performs(code, ops, st, n, st1, Exec(ops, Emitted, s, ns, st.env, fuel), StmtEnd(s, st.ip))
  {
    n, st1 := ExprSim(code, ops, s.kind, st);
    if EvalExpr(ops, s.kind, st.env).Val? {
      Hop(code, ops, st, n, st1, st1.ip + 1);
      n, st1 := n + 1, st1.(ip := st1.ip + 1);
    }
  }

  lemma {:induction false} AssignSim(code: seq<Inst>, ops: Ops, s: Stmt, ns: nat, st: State, fuel: nat)
    returns (n: nat, st1: State)
    requires s.Assign? && StmtAt(code, s, st.ip, ns)
    ensures Performs(code, ops, st, n, st1, Exec(ops, Emitted, s, ns, st.env, fuel), StmtEnd(s, st.ip))
  {
    var e := Named(s.name, s.value);
    assert ExprEnd(e, st.ip) == StmtEnd(s, st.ip);
    assert ExprAt(code, e, st.ip);
    n, st1 := ExprSim(code, ops, e, st);
  }

  lemma {:induction false} AssignAttrSim(code: seq<Inst>, ops: Ops, s: Stmt, ns: nat, st: State, fuel: nat)
    returns (n: nat, st1: State)
    requires s.AssignAttr? && StmtAt(code, s, st.ip, ns)
    ensures Performs(code, ops, st, n, st1, Exec(ops, Emitted, s, ns, st.env, fuel), StmtEnd(s, st.ip))
  {
    n, st1 := ExprSim(code, ops, s.object_, st);
    if EvalExpr(ops, s.object_, st.env).Val? {
      var b := st1;
      var k := ops.refAsStr(s.attr, b.env.world);
      st1 := StoreSim(code, ops, b, k);
      ComputesThen(code, ops, st, n, b, 1, st1, Finish(b.env, k), b.ip, b.ip + 1);
      n := n + 1;
      if k.Value? {
        n, st1 := SetAttrTail(code, ops, s.value, st, n, st1, ExprSlot(s.object_, st.ip), b.ip);
      }
    }
  }

  lemma {:induction false} SetAttrTail(code: seq<Inst>, ops: Ops, e: Expr, a: State, n: nat, b: State, x: nat,
        k: nat) returns (m: nat, c: State)
    requires Arrives(code, ops, a, n, b, b.ip, b.env) && a.ip <= b.ip
    requires x in b.values && k in b.values && x < b.ip && k < b.ip
    requires ExprAt(code, e, b.ip) && ExprEnd(e, b.ip) < |code|
    requires code[ExprEnd(e, b.ip)] == SetAttribute(x, k, ExprSlot(e, b.ip))
    ensures
      match EvalExpr(ops, e, b.env)
      case Fail(f, w) => Stops(code, ops, a, m, Failed(f, w))
      case Val(v, env) =>
        match ops.setAttr(b.values[x], b.values[k], v, env.world)
        case Throw(f, w) => Stops(code, ops, a, m, Failed(f, w))
        case Value(_, w) => Arrives(code, ops, a, m, c, ExprEnd(e, b.ip) + 1, env.(world := w))
  {
    m, c := ExprSim(code, ops, e, b);
    ComputesThen(code, ops, a, n, b, m, c, EvalExpr(ops, e, b.env), ExprSlot(e, b.ip), ExprEnd(e, b.ip));
    m := n + m;
    if EvalExpr(ops, e, b.env).Val? {
      PathOne(code, ops, c);
      var d := c;
      if Step(code, ops, c).Next? {
        c := Step(code, ops, c).st;
        PathThen(code, ops, a, m, d, 1, c);
      } else {
        PathStops(code, ops, a, m, d, 1, Step(code, ops, c).outcome);
      }
      m := m + 1;
    }
  }

  lemma {:induction false} ReturnSim(code: seq<Inst>, ops: Ops, s: Stmt, ns: nat, st: State, fuel: nat)
    returns (n: nat, st1: State)
    requires s.ReturnStmt? && StmtAt(code, s, st.ip, ns)
    ensures Performs(code, ops, st, n, st1, Exec(ops, Emitted, s, ns, st.env, fuel), StmtEnd(s, st.ip))
  {
    var e := if s.returned.Some? then s.returned.value else Lit(NoneConst);
    n, st1 := ExprSim(code, ops, e, st);
    var r := EvalExpr(ops, e, st.env);
    if r.Val? {
      PathOne(code, ops, st1);
      PathStops(code, ops, st, n, st1, 1, Returned(r.v, r.env.world));
      n := n + 1;
    }
  }

  /** A loop, entered at the jump target before its test. */
  lemma {:induction false} LoopSim(code: seq<Inst>, ops: Ops, s: Stmt, ns: nat, st: State, fuel: nat)
    returns (n: nat, st1: State)
    requires s.While? && st.ip > 0 && WhileAt(code, s, st.ip - 1, ns)
    ensures Performs(code, ops, st, n, st1, Exec(ops, Emitted, s, ns, st.env, fuel),
                     BlockEnd(s.body, ExprEnd(s.test, st.ip + 1) + 2) + 2)
    decreases fuel, s, 2, 0
  {
    n, st1 := 0, st;
    if fuel > 0 {
      var r := EvalExpr(ops, s.test, st.env);
      n, st1 := LoopTest(code, ops, s, ns, st);
      if r.Val? && r.v == ops.trueV {
        n, st1 := LoopBody(code, ops, s, ns, st, n, st1, fuel);
      }
    }
  }

  /** From the head of a loop into its body or past its end. */
  lemma {:induction false} LoopTest(code: seq<Inst>, ops: Ops, s: Stmt, ns: nat, st: State) returns (n: nat, c: State)
    requires s.While? && st.ip > 0 && WhileAt(code, s, st.ip - 1, ns)
    ensures n > 0
    ensures
      var j := ExprEnd(s.test, st.ip + 1);
      match EvalExpr(ops, s.test, st.env)
      case Fail(x, w) => Stops(code, ops, st, n, Failed(x, w))
      case Val(v, env) =>
        if v == ops.trueV then Arrives(code, ops, st, n, c, j + 2, env)
        else if v == ops.falseV then Arrives(code, ops, st, n, c, BlockEnd(s.body, j + 2) + 2, env)
        else Stops(code, ops, st, n, Failed(NotBool, env.world))
  {
    var j := ExprEnd(s.test, st.ip + 1);
    var k := BlockEnd(s.body, j + 2);
    var r := EvalExpr(ops, s.test, st.env);
    Stay(code, ops, st);
    Hop(code, ops, st, 0, st, st.ip + 1);
    var b := st.(ip := st.ip + 1);
    n, c := ExprSim(code, ops, s.test, b);
    ComputesThen(code, ops, st, 1, b, n, c, r, ExprSlot(s.test, b.ip), j);
    n := n + 1;
    if r.Val? {
      BranchSim(code, ops, st, n, c, r.v, Some(j + 1), Some(k + 1));
      n := n + 1;
      if r.v == ops.trueV {
        c := c.(ip := j + 1);
        Hop(code, ops, st, n, c, j + 2);
        n, c := n + 1, c.(ip := j + 2);
      } else if r.v == ops.falseV {
        c := c.(ip := k + 1);
        Hop(code, ops, st, n, c, k + 2);
        n, c := n + 1, c.(ip := k + 2);
      }
    }
  }

  /** The body of a loop, and what follows it. */
  lemma {:induction false} LoopBody(code: seq<Inst>, ops: Ops, s: Stmt, ns: nat, st: State, n: nat, c: State,
        fuel: nat) returns (m: nat, st1: State)
    requires s.While? && st.ip > 0 && WhileAt(code, s, st.ip - 1, ns) && fuel > 0
    requires Arrives(code, ops, st, n, c, c.ip, c.env) && c.ip == ExprEnd(s.test, st.ip + 1) + 2
    ensures Performs(code, ops, st, m, st1,
                     match ExecBlock(ops, Emitted, s.body, ns, c.env, fuel - 1)
                     case Normal(env2) => Exec(ops, Emitted, s, ns, env2, fuel - 1)
                     case stop => stop,
                     BlockEnd(s.body, c.ip) + 2)
    decreases fuel, s, 1
  {
    var r := ExecBlock(ops, Emitted, s.body, ns, c.env, fuel - 1);
    var k := BlockEnd(s.body, c.ip);
    m, st1 := BlockSim(code, ops, s.body, ns, c, fuel - 1);
    PerformsThen(code, ops, st, n, c, m, st1, r, k);
    m := n + m;
    if r.Normal? {
      Hop(code, ops, st, m, st1, st.ip);
      var d := st1.(ip := st.ip);
      var i;
      i, st1 := LoopSim(code, ops, s, ns, d, fuel - 1);
      PerformsThen(code, ops, st, m + 1, d, i, st1, Exec(ops, Emitted, s, ns, d.env, fuel - 1), k + 2);
      m := m + 1 + i;
    }
  }

  lemma {:induction false} ChainSim(code: seq<Inst>, ops: Ops, s: Stmt, ns: nat, st: State, fuel: nat)
    returns (n: nat, st1: State)
    requires s.IfChain? && ChainAt(code, s, st.ip, ns)
    ensures Performs(code, ops, st, n, st1, Exec(ops, Emitted, s, ns, st.env, fuel), ChainAfter(s, st.ip) + 1)
    decreases fuel, s, 2
  {
    if s.arms.NoArms? {
      n, st1 := ElseSim(code, ops, s.orelse, ns, st, fuel);
    } else {
      n, st1 := ArmsSim(code, ops, s.arms, ns, st, fuel, ChainBodies(s.arms, st.ip), ChainAfter(s, st.ip));
    }
  }

  /** By the emitted reading the first test decides. */
  function FirstArm(ops: Ops, arms: Arms, ns: nat, env: Env, fuel: nat): (r: StmtResult)
    requires arms.Arm?
    ensures ExecArms(ops, Emitted, arms, ns, env, fuel) == Took(r)
  {
    match EvalTest(ops, arms.test, env)
    case Fail(x, w) => Error(x, w)
    case Val(t, env1) =>
      if t == ops.trueV then ExecBlock(ops, Emitted, arms.body, ns, env1, fuel)
      else if t != ops.falseV then Error(NotBool, env1.world)
      else if arms.rest.Arm? then OutOfFuel
      else Normal(env1)
  }

  /** A chain with a test: the emitted code looks at the first one only. */
  lemma {:induction false} ArmsSim(code: seq<Inst>, ops: Ops, arms: Arms, ns: nat, st: State, fuel: nat, q: nat,
        after: nat)
    returns (n: nat, st1: State)
    requires arms.Arm? && q >= st.ip && st.ip <= after < |code| && code[after] == JumpTarget
    requires st.ip == 0 ==> |code| > 0 && code[0] == JumpTarget
    requires TestsAt(code, arms, ChainTests(arms, st.ip), q, after) &&
      BodiesAt(code, arms, q, ns, after)
    ensures Performs(code, ops, st, n, st1, FirstArm(ops, arms, ns, st.env, fuel), after + 1)
    decreases fuel, arms, 5
  {
    n, st1 := ChainTest(code, ops, arms, st, q, after);
    var r := EvalTest(ops, arms.test, st.env);
    if r.Val? && r.v == ops.trueV {
      n, st1 := FirstBodySim(code, ops, arms, ns, st, n, st1, fuel, after);
    } else if r.Val? && r.v == ops.falseV && arms.rest.NoArms? {
      Hop(code, ops, st, n, st1, after + 1);
      n, st1 := n + 1, st1.(ip := after + 1);
    }
  }

  lemma {:induction false} FirstBodySim(code: seq<Inst>, ops: Ops, arms: Arms, ns: nat, a: State, n: nat, c: State,
        fuel: nat, after: nat)
    returns (m: nat, st1: State)
    requires arms.Arm? && BodiesAt(code, arms, c.ip, ns, after) && after < |code| && code[after] == JumpTarget
    requires Arrives(code, ops, a, n, c, c.ip, c.env) && a.ip <= c.ip && a.ip <= after
    ensures Performs(code, ops, a, m, st1, ExecBlock(ops, Emitted, arms.body, ns, c.env, fuel), after + 1)
    decreases fuel, arms, 4
  {
    m, st1 := ArmBodySim(code, ops, arms.body, ns, a, n, c, fuel, after);
  }

  /** The first test of a chain: into the first body, or to wherever the false edge goes. */
  lemma {:induction false} ChainTest(code: seq<Inst>, ops: Ops, arms: Arms, st: State, q: nat, after: nat)
    returns (n: nat, c: State)
    requires arms.Arm? && q >= st.ip && after >= st.ip
    requires st.ip == 0 ==> |code| > 0 && code[0] == JumpTarget
    requires TestsAt(code, arms, ChainTests(arms, st.ip), q, after)
    ensures n > 0
    ensures
      match EvalTest(ops, arms.test, st.env)
      case Fail(x, w) => Stops(code, ops, st, n, Failed(x, w))
      case Val(v, env) =>
        var p := TestEnd(arms.test, ChainTests(arms, st.ip));
        if v == ops.trueV then Arrives(code, ops, st, n, c, q, env)
        else if v == ops.falseV then
          && Arrives(code, ops, st, n, c, if arms.rest.NoArms? then after else p, env)
          && Holds(c.values, p - 1, v)
        else Stops(code, ops, st, n, Failed(NotBool, env.world))
  {
    var b := st.(ip := ChainTests(arms, st.ip));
    var k := if st.ip == 0 then 1 else 0;
    Stay(code, ops, st);
    if st.ip == 0 { Hop(code, ops, st, 0, st, 1); }
    var p := TestEnd(arms.test, b.ip);
    var r := EvalTest(ops, arms.test, st.env);
    n, c := TestSim(code, ops, arms.test, b);
    ComputesThen(code, ops, st, k, b, n, c, r, p - 1, p);
    n := n + k;
    if r.Val? {
      var no := if arms.rest.NoArms? then after else p;
      BranchSim(code, ops, st, n, c, r.v, Some(q), Some(no));
      n := n + 1;
      c := c.(ip := if r.v == ops.trueV then q else no);
    } else {
      StopsLater(code, ops, st, n, Failed(r.fault, r.w));
      n := n + 1;
    }
  }

  lemma {:induction false} StopsLater(code: seq<Inst>, ops: Ops, a: State, n: nat, o: Outcome)
    requires Stops(code, ops, a, n, o)
    ensures Stops(code, ops, a, n + 1, o)
  {
  }

  /** A body of a chain, from its jump target up to and past the end of the chain. */
  lemma {:induction false} ArmBodySim(code: seq<Inst>, ops: Ops, body: Block, ns: nat, a: State, n: nat, c: State,
        fuel: nat, after: nat)
    returns (m: nat, st1: State)
    requires Arrives(code, ops, a, n, c, c.ip, c.env) && a.ip <= c.ip && a.ip <= after
    requires BlockAt(code, body, c.ip + 1, ns) && BlockEnd(body, c.ip + 1) < |code| && after < |code|
    requires code[c.ip] == JumpTarget && code[BlockEnd(body, c.ip + 1)] == Br(after) && code[after] == JumpTarget
    ensures Performs(code, ops, a, m, st1, ExecBlock(ops, Emitted, body, ns, c.env, fuel), after + 1)
    decreases fuel, body, 4
  {
    Hop(code, ops, a, n, c, c.ip + 1);
    var d := c.(ip := c.ip + 1);
    m, st1 := BlockSim(code, ops, body, ns, d, fuel);
    m, st1 := BodyExit(code, ops, a, n + 1, d, m, st1, ExecBlock(ops, Emitted, body, ns, d.env, fuel),
                       BlockEnd(body, d.ip), after);
  }

  /** What comes after a body: unless it left or failed, its branch to the end of the chain. */
  lemma {:induction false} BodyExit(code: seq<Inst>, ops: Ops, a: State, n: nat, d: State, i: nat, e: State,
        r: StmtResult,
      end: nat, after: nat)
    returns (m: nat, st1: State)
    requires Arrives(code, ops, a, n, d, d.ip, d.env) && a.ip <= d.ip <= end && a.ip <= after
    requires Performs(code, ops, d, i, e, r, end)
    requires end < |code| && after < |code| && code[end] == Br(after) && code[after] == JumpTarget
    ensures Performs(code, ops, a, m, st1, r, after + 1)
  {
    PerformsThen(code, ops, a, n, d, i, e, r, end);
    m, st1 := n + i, e;
    if r.Normal? {
      st1 := Exit(code, ops, a, m, st1, after);
      m := m + 2;
    }
  }

  /** A branch to a jump target, and past it. */
  lemma {:induction false} Exit(code: seq<Inst>, ops: Ops, a: State, n: nat, b: State, to: nat) returns (c: State)
    requires Arrives(code, ops, a, n, b, b.ip, b.env) && a.ip <= b.ip && a.ip <= to
    requires b.ip < |code| && to < |code| && code[b.ip] == Br(to) && code[to] == JumpTarget
    ensures Arrives(code, ops, a, n + 2, c, to + 1, b.env)
  {
    Hop(code, ops, a, n, b, to);
    c := b.(ip := to);
    Hop(code, ops, a, n + 1, c, to + 1);
    c := b.(ip := to + 1);
  }

  /** A chain without a test: its `else` body, if any. */
  lemma {:induction false} ElseSim(code: seq<Inst>, ops: Ops, o: OrElse, ns: nat, st: State, fuel: nat)
    returns (n: nat, st1: State)
    requires ElseEnd(o, st.ip) < |code| && ElseAt(code, o, st.ip, ns, ElseEnd(o, st.ip))
    requires code[ElseEnd(o, st.ip)] == JumpTarget
    ensures Performs(code, ops, st, n, st1, ExecElse(ops, Emitted, o, ns, st.env, fuel), ElseEnd(o, st.ip) + 1)
    decreases fuel, o, 3
  {
    Stay(code, ops, st);
    match o
    case NoElse =>
      Hop(code, ops, st, 0, st, st.ip + 1);
      n, st1 := 1, st.(ip := st.ip + 1);
    case Else(body) =>
      n, st1 := ArmBodySim(code, ops, body, ns, st, 0, st, fuel, ElseEnd(o, st.ip));
  }

  // ---- function definitions ----

  lemma {:induction false} OptSim(code: seq<Inst>, ops: Ops, e: Option<Expr>, a: State, n: nat, b: State)
    returns (m: nat, c: State)
    requires Arrives(code, ops, a, n, b, b.ip, b.env) && a.ip <= b.ip && OptAt(code, e, b.ip)
    ensures
      match EvalOpt(ops, e, b.env)
      case FailOpt(x, w) => Stops(code, ops, a, m, Failed(x, w))
      case OptVal(v, env) =>
        && Arrives(code, ops, a, m, c, OptEnd(e, b.ip), env) && Keeps(b.values, c.values, b.ip)
        && OptPresent(c.values, OptSlot(e, b.ip)) && OptRead(c.values, OptSlot(e, b.ip)) == v
  {
    m, c := n, b;
    if e.Some? {
      m, c := ExprSim(code, ops, e.value, b);
      ComputesThen(code, ops, a, n, b, m, c, EvalExpr(ops, e.value, b.env), ExprSlot(e.value, b.ip),
        ExprEnd(e.value, b.ip));
      m := n + m;
    }
  }

  lemma {:induction false} ParamsSim(code: seq<Inst>, ops: Ops, ps: Params, a: State, n: nat, b: State)
    returns (m: nat, c: State)
    requires Arrives(code, ops, a, n, b, b.ip, b.env) && a.ip <= b.ip && ParamsAt(code, ps, b.ip)
    ensures
      match EvalParams(ops, ps, b.env)
      case FailParams(x, w) => Stops(code, ops, a, m, Failed(x, w))
      case ParamVals(vs, env) =>
        && Arrives(code, ops, a, m, c, ParamsEnd(ps, b.ip), env) && Keeps(b.values, c.values, b.ip)
        && ParamsPresent(c.values, ParamsSlots(ps, b.ip)) && ReadParams(c.values, ParamsSlots(ps, b.ip)) == vs
    decreases ps
  {
    m, c := n, b;
    match ps
    case NoParams =>
    case Param(name, ann, rest) =>
      m, c := OptSim(code, ops, ann, a, n, b);
      var r := EvalOpt(ops, ann, b.env);
      if r.OptVal? {
        var d := c;
        m, c := ParamsSim(code, ops, rest, a, m, d);
        var rs := EvalParams(ops, rest, d.env);
        if rs.ParamVals? {
          ParamsJoin(c.values, name, OptSlot(ann, b.ip), d.values, ParamsSlots(rest, d.ip), d.ip);
        }
      }
  }

  lemma {:induction false} ParamsJoin(after: map<nat, Object>, name: Name, slot: Option<nat>, before: map<nat, Object>,
        rest: seq<(Name, Option<nat>)>, at: nat)
    requires Keeps(before, after, at) && OptPresent(before, slot) && (slot.Some? ==> slot.value < at)
    requires ParamsPresent(after, rest)
    ensures ParamsPresent(after, [(name, slot)] + rest)
    ensures ReadParams(after, [(name, slot)] + rest) == [(name, OptRead(before, slot))] + ReadParams(after, rest)
  {
  }

  lemma {:induction false} CallsSim(code: seq<Inst>, ops: Ops, decs: seq<nat>, ds: seq<Object>, f: nat, a: State,
        n: nat, b: State) returns (m: nat, c: State)
    requires Arrives(code, ops, a, n, b, b.ip, b.env) && a.ip <= b.ip && CallsAt(code, decs, f, b.ip)
    requires f in b.values && f < b.ip && Present(b.values, decs) && Read(b.values, decs) == ds
    requires forall i :: 0 <= i < |decs| ==> decs[i] < b.ip
    ensures
      match Decorate(ops, ds, b.values[f], b.env)
      case Fail(x, w) => Stops(code, ops, a, m, Failed(x, w))
      case Val(_, env) => Arrives(code, ops, a, m, c, b.ip + |decs|, env)
    decreases decs
  {
    m, c := n, b;
    if decs != [] {
      var r := ops.call(ds[0], [b.values[f]], b.env.world);
      assert Read(b.values, [f]) == [b.values[f]];
      assert ds[0] == b.values[decs[0]];
      c := StoreSim(code, ops, b, r);
      ComputesThen(code, ops, a, n, b, 1, c, Finish(b.env, r), b.ip, b.ip + 1);
      m := n + 1;
      if r.Value? {
        assert Read(c.values, decs[1..]) == ds[1..];
        m, c := CallsSim(code, ops, decs[1..], ds[1..], b.ip, a, m, c);
      }
    }
  }

  lemma {:induction false} DefSim(code: seq<Inst>, ops: Ops, s: Stmt, ns: nat, st: State, fuel: nat)
    returns (n: nat, st1: State)
    requires s.FuncDef? && DefAt(code, s, st.ip, ns)
    ensures Performs(code, ops, st, n, st1, Exec(ops, Emitted, s, ns, st.env, fuel), StmtEnd(s, st.ip))
  {
    var decs := Reverse(s.decorators);
    var slots := ExprsSlots(decs, st.ip);
    n, st1 := ExprsSim(code, ops, decs, st);
    var r := EvalExprs(ops, decs, st.env);
    if r.Vals? {
      var b := st1;
      var p := EvalParams(ops, s.params, b.env);
      n, st1 := ParamsSim(code, ops, s.params, st, n, b);
      if p.ParamVals? {
        var c := st1;
        var q := EvalOpt(ops, s.result, c.env);
        n, st1 := OptSim(code, ops, s.result, st, n, c);
        if q.OptVal? {
          KeepsParams(c.values, st1.values, ParamsSlots(s.params, b.ip), c.ip);
          KeepsRead(b.values, st1.values, slots, b.ip);
          n, st1 := DefnSim(code, ops, st, n, st1, FuncInfo(s.name, p.ps, q.v, ns), slots, r.vs);
        }
      }
    }
  }

  lemma {:induction false} KeepsParams(before: map<nat, Object>, after: map<nat, Object>, ps: seq<(Name, Option<nat>)>,
        at: nat)
    requires Keeps(before, after, at) && ParamsPresent(before, ps)
    requires forall i :: 0 <= i < |ps| && ps[i].1.Some? ==> ps[i].1.value < at
    ensures ParamsPresent(after, ps) && ReadParams(after, ps) == ReadParams(before, ps)
  {
  }

  lemma {:induction false} KeepsRead(before: map<nat, Object>, after: map<nat, Object>, slots: seq<nat>, at: nat)
    requires Keeps(before, after, at) && Present(before, slots)
    requires forall i :: 0 <= i < |slots| ==> slots[i] < at
    ensures Present(after, slots) && Read(after, slots) == Read(before, slots)
  {
  }

  /** Making the function, binding it, and calling the decorators. */
  lemma {:induction false} DefnSim(code: seq<Inst>, ops: Ops, a: State, n: nat, b: State, info: FuncInfo,
        slots: seq<nat>, ds: seq<Object>) returns (m: nat, c: State)
    requires Arrives(code, ops, a, n, b, b.ip, b.env) && a.ip <= b.ip && b.ip + 2 <= |code|
    requires code[b.ip].Defn? && code[b.ip].name == info.name && code[b.ip].sequenceId == info.sequenceId
    requires ParamsPresent(b.values, code[b.ip].params) && ReadParams(b.values, code[b.ip].params) == info.params
    requires OptPresent(b.values, code[b.ip].result) && OptRead(b.values, code[b.ip].result) == info.result
    requires code[b.ip + 1] == SetVar(info.name, b.ip) && CallsAt(code, slots, b.ip, b.ip + 2)
    requires Present(b.values, slots) && Read(b.values, slots) == ds && forall i :: 0 <= i < |slots| ==> slots[i] < b.ip
    ensures
      match ops.makeFunction(info, b.env.world)
      case Throw(x, w) => Stops(code, ops, a, m, Failed(x, w))
      case Value(f, w) =>
        match Define(ops, b.env.(world := w), info.name, f)
        case Bad(x, w1) => Stops(code, ops, a, m, Failed(x, w1))
        case Ok(env4) =>
          match Rebind(ops, info.name, f, env4)
          case Fail(x, w1) => Stops(code, ops, a, m, Failed(x, w1))
          case Val(_, env5) =>
            match Decorate(ops, ds, f, env5)
            case Fail(x, w1) => Stops(code, ops, a, m, Failed(x, w1))
            case Val(_, env) => Arrives(code, ops, a, m, c, b.ip + 2 + |slots|, env)
  {
    PathOne(code, ops, b);
    m, c := n + 1, b;
    match Step(code, ops, b)
    case Halt(o) => PathStops(code, ops, a, n, b, 1, o);
    case Next(d) =>
      PathThen(code, ops, a, n, b, 1, d);
      m, c := BindSim(code, ops, a, n + 1, d, info.name, b.ip);
      if Define(ops, d.env, info.name, d.values[b.ip]).Ok? {
        KeepsRead(b.values, c.values, slots, b.ip);
        m, c := CallsSim(code, ops, slots, ds, b.ip, a, m, c);
      }
  }
}
