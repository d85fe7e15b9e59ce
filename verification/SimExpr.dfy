/**
 Running the instructions of an expression does what evaluating it does.
 */
module SimExpr {
  import opened RawInst
  import opened Ast
  import opened Machine
  import opened Lower
  import opened Meaning

  /** The slots below `at` hold what they held. */
  ghost predicate Keeps(before: map<nat, Object>, after: map<nat, Object>, at: nat) {
    forall k :: k in before && k < at ==> k in after && after[k] == before[k]
  }

  /** The run goes from `st` to `st1` at `end`, with `env`, and the slots below `st.ip` kept. */
  ghost predicate Arrives(code: seq<Inst>, ops: Ops, st: State, n: nat, st1: State, end: nat, env: Env) {
    Path(code, ops, st, n, st1) && st1.ip == end && st1.env == env && Keeps(st.values, st1.values, st.ip)
  }

  ghost predicate Holds(values: map<nat, Object>, slot: nat, v: Object) {
    slot in values && values[slot] == v
  }

  /** The run mirrors `r`: it fails likewise, or goes on at `end` with the value in `slot`. */
  ghost predicate Computes(code: seq<Inst>, ops: Ops, st: State, n: nat, st1: State, r: ExprResult, slot: nat,
        end: nat) {
    match r
    case Fail(x, w) => Stops(code, ops, st, n, Failed(x, w))
    case Val(v, env) => Arrives(code, ops, st, n, st1, end, env) && Holds(st1.values, slot, v)
  }

  ghost predicate ComputesAll(code: seq<Inst>, ops: Ops, st: State, n: nat, st1: State, r: ExprsResult,
        slots: seq<nat>, end: nat) {
    match r
    case FailAll(x, w) => Stops(code, ops, st, n, Failed(x, w))
    case Vals(vs, env) =>
      Arrives(code, ops, st, n, st1, end, env) && Present(st1.values, slots) && Read(st1.values, slots) == vs
  }

  lemma {:induction false} ArrivesThen(code: seq<Inst>, ops: Ops, a: State, n: nat, b: State, m: nat, c: State)
    requires Arrives(code, ops, a, n, b, b.ip, b.env) && Arrives(code, ops, b, m, c, c.ip, c.env)
    requires a.ip <= b.ip
    ensures Arrives(code, ops, a, n + m, c, c.ip, c.env)
  {
    PathThen(code, ops, a, n, b, m, c);
  }

  /** Put a run that computes `r` after one that arrives. */
  lemma {:induction false} ComputesThen(code: seq<Inst>, ops: Ops, a: State, n: nat, b: State, m: nat, c: State,
        r: ExprResult, slot: nat, end: nat)
    requires Arrives(code, ops, a, n, b, b.ip, b.env) && a.ip <= b.ip
    requires Computes(code, ops, b, m, c, r, slot, end)
    ensures Computes(code, ops, a, n + m, c, r, slot, end)
  {
    match r
    case Fail(x, w) => PathStops(code, ops, a, n, b, m, Failed(x, w));
    case Val(_, _) => ArrivesThen(code, ops, a, n, b, m, c);
  }

  /** One instruction that stores its answer computes it. */
  lemma {:induction false} StoreSim(code: seq<Inst>, ops: Ops, st: State, a: Answer) returns (st1: State)
    requires Step(code, ops, st) == Store(st, a)
    ensures Computes(code, ops, st, 1, st1, Finish(st.env, a), st.ip, st.ip + 1)
  {
    PathOne(code, ops, st);
    st1 := if a.Value? then Store(st, a).st else st;
  }

  /** `GetDunder` followed by `Call` is `Invoke`. */
  lemma {:induction false} InvokeSim(code: seq<Inst>, ops: Ops, st: State, o: nat, d: Dunder, args: seq<nat>,
        vs: seq<Object>)
    returns (n: nat, st1: State)
    requires InvokeAt(code, st.ip, o, d, args)
    requires o in st.values && Present(st.values, args) && Read(st.values, args) == vs
    requires forall i :: 0 <= i < |args| ==> args[i] < st.ip
    ensures Computes(code, ops, st, n, st1, Invoke(ops, st.env, st.values[o], d, vs), st.ip + 1, st.ip + 2)
  {
    n := 1;
    st1 := StoreSim(code, ops, st, ops.getDunder(st.values[o], d, st.env.world));
    var a := ops.getDunder(st.values[o], d, st.env.world);
    if a.Value? {
      assert Read(st1.values, args) == vs;
      var b := st1;
      assert Step(code, ops, b) == Store(b, ops.call(a.v, vs, a.w));
      st1 := StoreSim(code, ops, b, ops.call(a.v, vs, a.w));
      n := 2;
      ComputesThen(code, ops, st, 1, b, 1, st1, Finish(b.env, ops.call(a.v, vs, a.w)), b.ip, b.ip + 1);
    }
  }

  lemma {:induction false} ExprSim(code: seq<Inst>, ops: Ops, e: Expr, st: State) returns (n: nat, st1: State)
    requires ExprAt(code, e, st.ip)
    ensures Computes(code, ops, st, n, st1, EvalExpr(ops, e, st.env), ExprSlot(e, st.ip), ExprEnd(e, st.ip))
    decreases e, 2
  {
    match e
    case Lit(c) => n := 1; st1 := StoreSim(code, ops, st, ops.constant(c, st.env.world));
    case NameRef(x) => n := 1; st1 := StoreSim(code, ops, st, Lookup(ops, st.env, x));
    case TupleLit(_) => n, st1 := TupleSim(code, ops, e, st);
    case BinOp(_, _, _) => n, st1 := BinOpSim(code, ops, e, st);
    case Unary(_, _) => n, st1 := UnarySim(code, ops, e, st);
    case Ternary(_, _, _) => n, st1 := TernarySim(code, ops, e, st);
    case Named(_, _) => n, st1 := NamedSim(code, ops, e, st);
    case CallExpr(_, _) => n, st1 := CallSim(code, ops, e, st);
    case Subscript(_, _) => n, st1 := SubscriptSim(code, ops, e, st);
    case Attribute(_, _) => n, st1 := AttributeSim(code, ops, e, st);
  }

  lemma {:induction false} BinOpSim(code: seq<Inst>, ops: Ops, e: Expr, st: State) returns (n: nat, st1: State)
    requires e.BinOp?
    requires ExprAt(code, e, st.ip)
    ensures Computes(code, ops, st, n, st1, EvalExpr(ops, e, st.env), ExprSlot(e, st.ip), ExprEnd(e, st.ip))
    decreases e, 1
  {
    n, st1 := ExprSim(code, ops, e.left, st);
    if EvalExpr(ops, e.left, st.env).Val? {
      var b := st1;
      var m, c := ExprSim(code, ops, e.right, b);
      n, st1 := PairTail(code, ops, st, n, b, m, c, EvalExpr(ops, e.right, b.env), ExprSlot(e.left, st.ip),
        ExprSlot(e.right, b.ip), InfixDunder(e.op));
    }
  }

  lemma {:induction false} SubscriptSim(code: seq<Inst>, ops: Ops, e: Expr, st: State) returns (n: nat, st1: State)
    requires e.Subscript?
    requires ExprAt(code, e, st.ip)
    ensures Computes(code, ops, st, n, st1, EvalExpr(ops, e, st.env), ExprSlot(e, st.ip), ExprEnd(e, st.ip))
    decreases e, 1
  {
    n, st1 := ExprSim(code, ops, e.base, st);
    if EvalExpr(ops, e.base, st.env).Val? {
      var b := st1;
      var m, c := ExprSim(code, ops, e.index, b);
      n, st1 := PairTail(code, ops, st, n, b, m, c, EvalExpr(ops, e.index, b.env), ExprSlot(e.base, st.ip),
        ExprSlot(e.index, b.ip), GetItem);
    }
  }

  /** The second operand and the invocation, once the first operand is in slot `x`. */
  lemma {:induction false} PairTail(code: seq<Inst>, ops: Ops, a: State, n: nat, b: State, m: nat, c: State,
        r: ExprResult, x: nat, y: nat, d: Dunder)
    returns (k: nat, z: State)
    requires Arrives(code, ops, a, n, b, b.ip, b.env) && a.ip <= b.ip && x in b.values && x < b.ip <= y
    requires Computes(code, ops, b, m, c, r, y, if r.Val? then c.ip else 0)
    requires r.Val? ==> y < c.ip && InvokeAt(code, c.ip, x, d, [x, y])
    ensures r.Fail? ==> Stops(code, ops, a, k, Failed(r.fault, r.w))
    ensures r.Val? ==>
      Computes(code, ops, a, k, z, Invoke(ops, r.env, b.values[x], d, [b.values[x], r.v]), c.ip + 1, c.ip + 2)
  {
    k, z := n + m, c;
    match r
    case Fail(f, w) => PathStops(code, ops, a, n, b, m, Failed(f, w));
    case Val(v, _) =>
      ArrivesThen(code, ops, a, n, b, m, c);
      var vs := [b.values[x], v];
      assert Read(c.values, [x, y]) == vs;
      k, z := InvokeSim(code, ops, c, x, d, [x, y], vs);
      ComputesThen(code, ops, a, n + m, c, k, z, Invoke(ops, c.env, b.values[x], d, vs), c.ip + 1, c.ip + 2);
      k := n + m + k;
  }

  lemma {:induction false} UnarySim(code: seq<Inst>, ops: Ops, e: Expr, st: State) returns (n: nat, st1: State)
    requires e.Unary?
    requires ExprAt(code, e, st.ip)
    ensures Computes(code, ops, st, n, st1, EvalExpr(ops, e, st.env), ExprSlot(e, st.ip), ExprEnd(e, st.ip))
    decreases e, 1
  {
    n, st1 := ExprSim(code, ops, e.operand, st);
    if EvalExpr(ops, e.operand, st.env).Val? {
      n, st1 := InvokeAfter(code, ops, st, n, st1, ExprSlot(e.operand, st.ip), UnaryDunder(e.unaryOp));
    }
  }

  lemma {:induction false} InvokeAfter(code: seq<Inst>, ops: Ops, a: State, n: nat, b: State, x: nat,
        d: Dunder) returns (m: nat, c: State)
    requires Arrives(code, ops, a, n, b, b.ip, b.env) && a.ip <= b.ip
    requires x in b.values && x < b.ip
    requires InvokeAt(code, b.ip, x, d, [x])
    ensures Computes(code, ops, a, m, c, Invoke(ops, b.env, b.values[x], d, [b.values[x]]), b.ip + 1, b.ip + 2)
  {
    assert Read(b.values, [x]) == [b.values[x]];
    m, c := InvokeSim(code, ops, b, x, d, [x], [b.values[x]]);
    ComputesThen(code, ops, a, n, b, m, c, Invoke(ops, b.env, b.values[x], d, [b.values[x]]), b.ip + 1, b.ip + 2);
    m := n + m;
  }

  lemma {:induction false} TestSim(code: seq<Inst>, ops: Ops, e: Expr, st: State) returns (n: nat, st1: State)
    requires TestAt(code, e, st.ip)
    ensures Computes(code, ops, st, n, st1, EvalTest(ops, e, st.env), TestEnd(e, st.ip) - 1, TestEnd(e, st.ip))
    decreases e, 3
  {
    n, st1 := ExprSim(code, ops, e, st);
    if EvalExpr(ops, e, st.env).Val? {
      n, st1 := InvokeAfter(code, ops, st, n, st1, ExprSlot(e, st.ip), AsBool);
    }
  }

  lemma {:induction false} NamedSim(code: seq<Inst>, ops: Ops, e: Expr, st: State) returns (n: nat, st1: State)
    requires e.Named?
    requires ExprAt(code, e, st.ip)
    ensures Computes(code, ops, st, n, st1, EvalExpr(ops, e, st.env), ExprSlot(e, st.ip), ExprEnd(e, st.ip))
    decreases e, 1
  {
    n, st1 := ExprSim(code, ops, e.bound, st);
    if EvalExpr(ops, e.bound, st.env).Val? {
      n, st1 := BindSim(code, ops, st, n, st1, e.target, ExprSlot(e.bound, st.ip));
    }
  }

  /** `SetVar` after a run that left a value in slot `x`. */
  lemma {:induction false} BindSim(code: seq<Inst>, ops: Ops, a: State, n: nat, b: State, name: Name, x: nat)
    returns (m: nat, c: State)
    requires Arrives(code, ops, a, n, b, b.ip, b.env) && a.ip <= b.ip
    requires b.ip < |code| && code[b.ip] == SetVar(name, x) && x in b.values
    ensures
      match Define(ops, b.env, name, b.values[x])
      case Bad(y, w) => Stops(code, ops, a, m, Failed(y, w))
      case Ok(env) => Arrives(code, ops, a, m, c, b.ip + 1, env) && c.values == b.values
  {
    PathOne(code, ops, b);
    m, c := n + 1, b;
    match Define(ops, b.env, name, b.values[x])
    case Bad(y, w) => PathStops(code, ops, a, n, b, 1, Failed(y, w));
    case Ok(env) =>
      c := Step(code, ops, b).st;
      PathThen(code, ops, a, n, b, 1, c);
  }

  lemma {:induction false} AttributeSim(code: seq<Inst>, ops: Ops, e: Expr, st: State) returns (n: nat, st1: State)
    requires e.Attribute?
    requires ExprAt(code, e, st.ip)
    ensures Computes(code, ops, st, n, st1, EvalExpr(ops, e, st.env), ExprSlot(e, st.ip), ExprEnd(e, st.ip))
    decreases e, 1
  {
    n, st1 := ExprSim(code, ops, e.base, st);
    if EvalExpr(ops, e.base, st.env).Val? {
      var b := st1;
      var x := ExprSlot(e.base, st.ip);
      var s := ops.refAsStr(e.attr, b.env.world);
      st1 := StoreSim(code, ops, b, s);
      ComputesThen(code, ops, st, n, b, 1, st1, Finish(b.env, s), b.ip, b.ip + 1);
      n := n + 1;
      if s.Value? {
        var c := st1;
        var r := ops.getAttr(b.values[x], s.v, s.w);
        assert Step(code, ops, c) == Store(c, r);
        st1 := StoreSim(code, ops, c, r);
        ComputesThen(code, ops, st, n, c, 1, st1, Finish(c.env, r), c.ip, c.ip + 1);
        n := n + 1;
      }
    }
  }

  lemma {:induction false} ExprsSim(code: seq<Inst>, ops: Ops, es: Exprs, st: State) returns (n: nat, st1: State)
    requires ExprsAt(code, es, st.ip)
    ensures ComputesAll(code, ops, st, n, st1, EvalExprs(ops, es, st.env), ExprsSlots(es, st.ip), ExprsEnd(es, st.ip))
    decreases es, 2
  {
    n, st1 := 0, st;
    match es
    case NoExprs =>
    case MoreExprs(h, t) =>
      n, st1 := ExprSim(code, ops, h, st);
      if EvalExpr(ops, h, st.env).Val? {
        var b := st1;
        var m, c := ExprsSim(code, ops, t, b);
        n, st1 := ComputesAllThen(code, ops, st, n, b, m, c, EvalExprs(ops, t, b.env),
                                  ExprSlot(h, st.ip), ExprsSlots(t, b.ip), ExprsEnd(es, st.ip));
      }
  }

  /** Put a run that computes the rest of a list after one that computed its head. */
  lemma {:induction false} ComputesAllThen(code: seq<Inst>, ops: Ops, a: State, n: nat, b: State, m: nat, c: State,
                        r: ExprsResult, x: nat, xs: seq<nat>, end: nat) returns (k: nat, st1: State)
    requires Arrives(code, ops, a, n, b, b.ip, b.env) && a.ip <= b.ip
    requires x in b.values && x < b.ip
    requires ComputesAll(code, ops, b, m, c, r, xs, end)
    ensures r.FailAll? ==> Stops(code, ops, a, k, Failed(r.fault, r.w))
    ensures r.Vals? ==> ComputesAll(code, ops, a, k, st1, Vals([b.values[x]] + r.vs, r.env), [x] + xs, end)
    ensures r.Vals? ==> Arrives(code, ops, a, k, st1, end, r.env) && Holds(st1.values, x, b.values[x]) && st1 == c
  {
    k, st1 := n + m, c;
    match r
    case FailAll(y, w) => PathStops(code, ops, a, n, b, m, Failed(y, w));
    case Vals(vs, _) =>
      ArrivesThen(code, ops, a, n, b, m, c);
      assert Read(c.values, [x] + xs) == [b.values[x]] + vs;
  }

  lemma {:induction false} TupleSim(code: seq<Inst>, ops: Ops, e: Expr, st: State) returns (n: nat, st1: State)
    requires e.TupleLit?
    requires ExprAt(code, e, st.ip)
    ensures Computes(code, ops, st, n, st1, EvalExpr(ops, e, st.env), ExprSlot(e, st.ip), ExprEnd(e, st.ip))
    decreases e, 1
  {
    n, st1 := ExprsSim(code, ops, e.elems, st);
    var r := EvalExprs(ops, e.elems, st.env);
    if r.Vals? {
      var b := st1;
      var a := ops.tuple(r.vs, b.env.world);
      assert Step(code, ops, b) == Store(b, a);
      st1 := StoreSim(code, ops, b, a);
      ComputesThen(code, ops, st, n, b, 1, st1, Finish(b.env, a), b.ip, b.ip + 1);
      n := n + 1;
    }
  }

  lemma {:induction false} CallSim(code: seq<Inst>, ops: Ops, e: Expr, st: State) returns (n: nat, st1: State)
    requires e.CallExpr?
    requires ExprAt(code, e, st.ip)
    ensures Computes(code, ops, st, n, st1, EvalExpr(ops, e, st.env), ExprSlot(e, st.ip), ExprEnd(e, st.ip))
    decreases e, 1
  {
    n, st1 := ExprSim(code, ops, e.func, st);
    if EvalExpr(ops, e.func, st.env).Val? {
      var b := st1;
      var x, xs := ExprSlot(e.func, st.ip), ExprsSlots(e.args, b.ip);
      var r := EvalExprs(ops, e.args, b.env);
      var m, c := ExprsSim(code, ops, e.args, b);
      n, st1 := ComputesAllThen(code, ops, st, n, b, m, c, r, x, xs, ExprsEnd(e.args, b.ip));
      if r.Vals? {
        var a := ops.call(b.values[x], r.vs, c.env.world);
        assert Step(code, ops, c) == Store(c, a);
        st1 := StoreSim(code, ops, c, a);
        ComputesThen(code, ops, st, n, c, 1, st1, Finish(c.env, a), c.ip, c.ip + 1);
        n := n + 1;
      }
    }
  }

  lemma {:induction false} TernarySim(code: seq<Inst>, ops: Ops, e: Expr, st: State) returns (n: nat, st1: State)
    requires e.Ternary?
    requires ExprAt(code, e, st.ip)
    ensures Computes(code, ops, st, n, st1, EvalExpr(ops, e, st.env), ExprSlot(e, st.ip), ExprEnd(e, st.ip))
    decreases e, 1
  {
    n, st1 := TestSim(code, ops, e.test, st);
    var r := EvalTest(ops, e.test, st.env);
    if r.Val? {
      n, st1 := TernaryArms(code, ops, e, st, n, st1, r.v);
    }
  }

  /** A ternary once its test is decided. */
  lemma {:induction false} TernaryArms(code: seq<Inst>, ops: Ops, e: Expr, a: State, n: nat, c: State, v: Object)
    returns (m: nat, st1: State)
    requires Arrives(code, ops, a, n, c, c.ip, c.env) && a.ip < c.ip && Holds(c.values, c.ip - 1, v)
    requires e.Ternary? && ArmsAt(code, e, c.ip)
    ensures Computes(code, ops, a, m, st1,
                     if v == ops.trueV then EvalExpr(ops, e.body, c.env)
                     else if v == ops.falseV then EvalExpr(ops, e.orelse, c.env)
                     else Fail(NotBool, c.env.world),
                     ArmsEnd(e, c.ip) - 1, ArmsEnd(e, c.ip))
    decreases e, 0
  {
    var j := ExprEnd(e.body, c.ip + 2);
    var recv := ArmsEnd(e, c.ip) - 1;
    BranchSim(code, ops, a, n, c, v, None, Some(j + 1));
    m, st1 := n + 1, c;
    if v == ops.trueV {
      m, st1 := ArmSim(code, ops, e.body, a, m, c.(ip := c.ip + 1), recv);
    } else if v == ops.falseV {
      m, st1 := ArmSim(code, ops, e.orelse, a, m, c.(ip := j + 1), recv);
    }
  }

  /** An `If` at the end of a run that left `v` in the slot it tests. */
  lemma {:induction false} BranchSim(code: seq<Inst>, ops: Ops, a: State, n: nat, b: State, v: Object,
        truthy: Option<int>, falsey: Option<int>)
    requires Arrives(code, ops, a, n, b, b.ip, b.env) && a.ip <= b.ip
    requires b.ip < |code| && code[b.ip].If? && code[b.ip].truthy == truthy && code[b.ip].falsey == falsey
    requires Holds(b.values, code[b.ip].test, v)
    requires Choose(truthy, b.ip) >= a.ip && Choose(falsey, b.ip) >= a.ip
    ensures v == ops.trueV ==>
      var ip := Choose(truthy, b.ip); Arrives(code, ops, a, n + 1, b.(ip := ip), ip, b.env)
    ensures v == ops.falseV && v != ops.trueV ==>
      var ip := Choose(falsey, b.ip); Arrives(code, ops, a, n + 1, b.(ip := ip), ip, b.env)
    ensures v != ops.trueV && v != ops.falseV ==> Stops(code, ops, a, n + 1, Failed(NotBool, b.env.world))
  {
    PathOne(code, ops, b);
    if v != ops.trueV && v != ops.falseV {
      PathStops(code, ops, a, n, b, 1, Failed(NotBool, b.env.world));
    } else {
      PathThen(code, ops, a, n, b, 1, Step(code, ops, b).st);
    }
  }

  /** One arm of a ternary, from its jump target up to and past the `PhiRecv` it jumps to. */
  lemma {:induction false} ArmSim(code: seq<Inst>, ops: Ops, e: Expr, a: State, k: nat, st: State, recv: nat)
    returns (n: nat, st1: State)
    requires Arrives(code, ops, a, k, st, st.ip, st.env) && a.ip <= st.ip
    requires st.ip < |code| && code[st.ip] == JumpTarget
    requires ExprAt(code, e, st.ip + 1)
    requires ExprEnd(e, st.ip + 1) < recv < |code|
    requires code[ExprEnd(e, st.ip + 1)] == PhiJump(recv, ExprSlot(e, st.ip + 1))
    requires code[recv] == PhiRecv
    ensures Computes(code, ops, a, n, st1, EvalExpr(ops, e, st.env), recv, recv + 1)
    decreases e, 3
  {
    PathOne(code, ops, st);
    var b := st.(ip := st.ip + 1);
    ArrivesThen(code, ops, a, k, st, 1, b);
    var m, c := ExprSim(code, ops, e, b);
    ComputesThen(code, ops, a, k + 1, b, m, c, EvalExpr(ops, e, b.env), ExprSlot(e, b.ip), ExprEnd(e, b.ip));
    n, st1 := k + 1 + m, c;
    if EvalExpr(ops, e, b.env).Val? {
      n, st1 := PhiSim(code, ops, a, n, c, recv, ExprSlot(e, b.ip));
    }
  }

  lemma {:induction false} PhiSim(code: seq<Inst>, ops: Ops, a: State, n: nat, c: State, recv: nat, x: nat)
    returns (m: nat, st1: State)
    requires Arrives(code, ops, a, n, c, c.ip, c.env) && a.ip <= c.ip
    requires c.ip < recv < |code| && code[c.ip] == PhiJump(recv, x) && code[recv] == PhiRecv
    requires x in c.values
    ensures Computes(code, ops, a, m, st1, Val(c.values[x], c.env), recv, recv + 1)
  {
    PathOne(code, ops, c);
    var d := Step(code, ops, c).st;
    PathThen(code, ops, a, n, c, 1, d);
    PathOne(code, ops, d);
    st1 := d.(ip := recv + 1);
    PathThen(code, ops, a, n + 1, d, 1, st1);
    m := n + 2;
  }
}
