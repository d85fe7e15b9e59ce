/**
 Programs that the walk does not cover.

 The walk has no way into the true arm of a ternary, so it covers no program
 that comes to a ternary on its first way down, with every test true.
 */
module Ternaries {
  import opened RawInst
  import opened Ast
  import opened Machine
  import opened Lower
  import opened Meaning
  import opened Correctness
  import opened SimExpr
  import opened SimStmt
  import opened Worlds
  import opened Decorators
  import opened Targets
  import opened Blocks
  import opened Coverage

  // ---- programs that come to a ternary ----

  /** With every test true the statement evaluates a ternary, before any loop turns. */
  predicate Meets(s: Stmt) {
    match s
    case ExprStmt(e) => !FreeExpr(e)
    case Assign(_, e) => !FreeExpr(e)
    case AssignAttr(o, _, e) => !FreeExpr(o) || !FreeExpr(e)
    case Annotate(_, k) => !FreeExpr(k)
    case ReturnStmt(r) => !FreeOpt(r)
    case Pass => false
    case While(test, _) => !FreeExpr(test)
    case IfChain(arms, _) => arms.Arm? && (!FreeExpr(arms.test) || MeetsBlock(arms.body))
    case FuncDef(_, decs, ps, ret, _) => !FreeExprs(Reverse(decs)) || !FreeParams(ps) || !FreeOpt(ret)
  }

  predicate MeetsBlock(b: Block) {
    match b
    case Empty => false
    case Then(h, t) => Meets(h) || (Passes(h) && MeetsBlock(t))
  }

  /** With every test true control gets past the statement without a loop. */
  predicate Passes(s: Stmt) {
    match s
    case ReturnStmt(_) => false
    case While(_, _) => false
    case IfChain(arms, _) => arms.Arm? && PassesBlock(arms.body)
    case _ => true
  }

  predicate PassesBlock(b: Block) {
    match b
    case Empty => true
    case Then(h, t) => Passes(h) && PassesBlock(t)
  }

  // ---- every test is true ----

  lemma {:induction false} TrueValue(e: Expr, env: Env)
    requires env.scope == None
    ensures var r := EvalExpr(AllCalls(), e, env); r.Val? && r.env.scope == None
    ensures var t := EvalTest(AllCalls(), e, env); t.Val? && t.v == AllCalls().trueV && t.env.scope == None
  {
    ExprValue(e, env, env.world, CALLED, 0, CALLED, CALLED);
    TestValue(e, env, env.world, CALLED, 0, CALLED, CALLED);
  }

  lemma {:induction false} StmtPasses(s: Stmt, ns: nat, env: Env)
    requires Passes(s) && env.scope == None
    ensures var r := Exec(AllCalls(), Emitted, s, ns, env, 0); r.Normal? && r.env.scope == None
    decreases s
  {
    match s
    case ExprStmt(e) => TrueValue(e, env);
    case Assign(n, e) => TrueValue(Named(n, e), env);
    case AssignAttr(o, _, e) =>
      TrueValue(o, env);
      var a := EvalExpr(AllCalls(), o, env).env;
      TrueValue(e, a);
      assert a.(world := a.world) == a;
    case Annotate(_, k) => TrueValue(k, env);
    case Pass =>
    case IfChain(arms, _) =>
      TrueValue(arms.test, env);
      BlockPasses(arms.body, ns, EvalTest(AllCalls(), arms.test, env).env);
    case FuncDef(n, decs, ps, ret, _) => BoundTo(Emitted, n, decs, ps, ret, ns, env, env.world);
  }

  lemma {:induction false} BlockPasses(b: Block, ns: nat, env: Env)
    requires PassesBlock(b) && env.scope == None
    ensures var r := ExecBlock(AllCalls(), Emitted, b, ns, env, 0); r.Normal? && r.env.scope == None
    decreases b
  {
    if b.Then? {
      StmtPasses(b.head, ns, env);
      BlockPasses(b.tail, ns + Defs(b.head), Exec(AllCalls(), Emitted, b.head, ns, env, 0).env);
    }
  }

  // ---- a run that comes to a ternary slips ----

  /** Sooner or later the run slips. */
  ghost predicate WillSlip(code: seq<Inst>, st: State) {
    exists n: nat :: SlipsAt(code, AllCalls(), st, n)
  }

  lemma {:induction false} SlipLater(code: seq<Inst>, a: State, n: nat, b: State)
    requires Path(code, AllCalls(), a, n, b) && WillSlip(code, b)
    ensures WillSlip(code, a)
  {
    var m: nat :| SlipsAt(code, AllCalls(), b, m);
    assert Run(code, AllCalls(), a, n + m) == Run(code, AllCalls(), b, m);
    assert SlipsAt(code, AllCalls(), a, n + m);
  }

  /** The next instruction only moves to `to`. */
  lemma {:induction false} SlipNext(code: seq<Inst>, st: State, to: nat)
    requires Step(code, AllCalls(), st) == Next(st.(ip := to)) && WillSlip(code, st.(ip := to))
    ensures WillSlip(code, st)
  {
    PathOne(code, AllCalls(), st);
    SlipLater(code, st, 1, st.(ip := to));
  }

  /** Past an expression. */
  lemma {:induction false} AfterExpr(code: seq<Inst>, e: Expr, st: State) returns (n: nat, c: State)
    requires ExprAt(code, e, st.ip) && st.env.scope == None
    ensures Path(code, AllCalls(), st, n, c) && c.ip == ExprEnd(e, st.ip) && c.env.scope == None
  {
    TrueValue(e, st.env);
    n, c := ExprSim(code, AllCalls(), e, st);
  }

  lemma {:induction false} TernarySlips(code: seq<Inst>, e: Expr, st: State)
    requires e.Ternary? && ExprAt(code, e, st.ip) && st.env.scope == None
    ensures WillSlip(code, st)
  {
    var ops := AllCalls();
    TernaryTest(code, e, st.ip);
    TrueValue(e.test, st.env);
    var n, c := TestSim(code, ops, e.test, st);
    assert Run(code, ops, st, n + 0) == Run(code, ops, c, 0);
    assert SlipsAt(code, ops, st, n);
  }

  lemma {:induction false} TernaryTest(code: seq<Inst>, e: Expr, at: nat)
    requires e.Ternary? && ExprAt(code, e, at)
    ensures var i := TestEnd(e.test, at);
      TestAt(code, e.test, at) && i < |code| && OneWay(code[i]) && code[i].test == i - 1
  {
    assert ExprShape(code, e, at);
    assert ArmsAt(code, e, TestEnd(e.test, at));
  }

  lemma {:induction false} ExprSlips(code: seq<Inst>, e: Expr, st: State)
    requires ExprAt(code, e, st.ip) && !FreeExpr(e) && st.env.scope == None
    ensures WillSlip(code, st)
    decreases e, 1
  {
    match e
    case TupleLit(elems) => ExprsSlip(code, elems, st);
    case BinOp(l, _, r) => PairSlips(code, e, l, r, st);
    case Unary(_, v) => ExprSlips(code, v, st);
    case Ternary(_, _, _) => TernarySlips(code, e, st);
    case Named(_, v) => ExprSlips(code, v, st);
    case CallExpr(func, args) =>
      if !FreeExpr(func) {
        ExprSlips(code, func, st);
      } else {
        var n, c := AfterExpr(code, func, st);
        ExprsSlip(code, args, c);
        SlipLater(code, st, n, c);
      }
    case Subscript(base, index) => PairSlips(code, e, base, index, st);
    case Attribute(base, _) => ExprSlips(code, base, st);
  }

  lemma {:induction false} PairSlips(code: seq<Inst>, e: Expr, l: Expr, r: Expr, st: State)
    requires l < e && r < e && ExprAt(code, l, st.ip) && ExprAt(code, r, ExprEnd(l, st.ip))
    requires !(FreeExpr(l) && FreeExpr(r)) && st.env.scope == None
    ensures WillSlip(code, st)
    decreases e, 0
  {
    if !FreeExpr(l) {
      ExprSlips(code, l, st);
    } else {
      var n, c := AfterExpr(code, l, st);
      ExprSlips(code, r, c);
      SlipLater(code, st, n, c);
    }
  }

  lemma {:induction false} ExprsSlip(code: seq<Inst>, es: Exprs, st: State)
    requires ExprsAt(code, es, st.ip) && !FreeExprs(es) && st.env.scope == None
    ensures WillSlip(code, st)
    decreases es, 1
  {
    if !FreeExpr(es.head) {
      ExprSlips(code, es.head, st);
    } else {
      var n, c := AfterExpr(code, es.head, st);
      ExprsSlip(code, es.tail, c);
      SlipLater(code, st, n, c);
    }
  }

  // ---- statements ----

  lemma {:induction false} ParamsSlip(code: seq<Inst>, ps: Params, st: State)
    requires ParamsAt(code, ps, st.ip) && !FreeParams(ps) && st.env.scope == None
    ensures WillSlip(code, st)
    decreases ps
  {
    if !FreeOpt(ps.annotation) {
      ExprSlips(code, ps.annotation.value, st);
    } else if ps.annotation.None? {
      ParamsSlip(code, ps.rest, st);
    } else {
      var n, c := AfterExpr(code, ps.annotation.value, st);
      ParamsSlip(code, ps.rest, c);
      SlipLater(code, st, n, c);
    }
  }

  lemma {:induction false} ParamsPass(code: seq<Inst>, ps: Params, st: State) returns (n: nat, c: State)
    requires ParamsAt(code, ps, st.ip) && st.env.scope == None
    ensures Path(code, AllCalls(), st, n, c) && c.ip == ParamsEnd(ps, st.ip) && c.env.scope == None
  {
    ParamsValue(ps, st.env, st.env.world);
    Stay(code, AllCalls(), st);
    n, c := ParamsSim(code, AllCalls(), ps, st, 0, st);
  }

  lemma {:induction false} DefSlips(code: seq<Inst>, s: Stmt, ns: nat, st: State)
    requires s.FuncDef? && DefAt(code, s, st.ip, ns) && Meets(s) && st.env.scope == None
    ensures WillSlip(code, st)
  {
    var decs := Reverse(s.decorators);
    if !FreeExprs(decs) {
      ExprsSlip(code, decs, st);
    } else {
      ExprsValue(decs, st.env, st.env.world, CALLED, 0, CALLED, CALLED);
      var n, c := ExprsSim(code, AllCalls(), decs, st);
      SignatureSlips(code, s, c);
      SlipLater(code, st, n, c);
    }
  }

  lemma {:induction false} SignatureSlips(code: seq<Inst>, s: Stmt, st: State)
    requires s.FuncDef? && ParamsAt(code, s.params, st.ip) && OptAt(code, s.result, ParamsEnd(s.params, st.ip))
    requires !(FreeParams(s.params) && FreeOpt(s.result)) && st.env.scope == None
    ensures WillSlip(code, st)
  {
    if !FreeParams(s.params) {
      ParamsSlip(code, s.params, st);
    } else {
      var n, c := ParamsPass(code, s.params, st);
      ExprSlips(code, s.result.value, c);
      SlipLater(code, st, n, c);
    }
  }

  lemma {:induction false} AttrSlips(code: seq<Inst>, s: Stmt, ns: nat, st: State)
    requires s.AssignAttr? && StmtAt(code, s, st.ip, ns) && Meets(s) && st.env.scope == None
    ensures WillSlip(code, st)
  {
    if !FreeExpr(s.object_) {
      ExprSlips(code, s.object_, st);
    } else {
      var n, b := AfterExpr(code, s.object_, st);
      PathOne(code, AllCalls(), b);
      var c := Step(code, AllCalls(), b).st;
      ExprSlips(code, s.value, c);
      SlipLater(code, b, 1, c);
      SlipLater(code, st, n, b);
    }
  }

  lemma {:induction false} LoopSlips(code: seq<Inst>, s: Stmt, ns: nat, st: State)
    requires s.While? && WhileAt(code, s, st.ip, ns) && !FreeExpr(s.test) && st.env.scope == None
    ensures WillSlip(code, st)
  {
    ExprSlips(code, s.test, st.(ip := st.ip + 2));
    SlipNext(code, st.(ip := st.ip + 1), st.ip + 2);
    SlipNext(code, st, st.ip + 1);
  }

  lemma {:induction false} StmtSlips(code: seq<Inst>, s: Stmt, ns: nat, st: State)
    requires StmtAt(code, s, st.ip, ns) && Meets(s) && st.env.scope == None
    ensures WillSlip(code, st)
    decreases s, 1
  {
    match s
    case ExprStmt(e) => ExprSlips(code, e, st);
    case Assign(_, e) => ExprSlips(code, e, st);
    case AssignAttr(_, _, _) => AttrSlips(code, s, ns, st);
    case Annotate(_, k) => ExprSlips(code, k, st);
    case ReturnStmt(r) => ExprSlips(code, r.value, st);
    case While(_, _) => LoopSlips(code, s, ns, st);
    case IfChain(_, _) => ChainSlips(code, s, ns, st);
    case FuncDef(_, _, _, _, _) => DefSlips(code, s, ns, st);
  }

  lemma {:induction false} ChainSlips(code: seq<Inst>, s: Stmt, ns: nat, st: State)
    requires s.IfChain? && ChainAt(code, s, st.ip, ns) && Meets(s) && st.env.scope == None
    ensures WillSlip(code, st)
    decreases s, 0
  {
    var q, after := ChainBodies(s.arms, st.ip), ChainAfter(s, st.ip);
    if !FreeExpr(s.arms.test) {
      ExprSlips(code, s.arms.test, st.(ip := ChainTests(s.arms, st.ip)));
      if st.ip == 0 { SlipNext(code, st, 1); }
    } else {
      TrueValue(s.arms.test, st.env);
      var n, c := ChainTest(code, AllCalls(), s.arms, st, q, after);
      BodySlips(code, s.arms, ns, after, c);
      SlipLater(code, st, n, c);
    }
  }

  lemma {:induction false} BodySlips(code: seq<Inst>, arms: Arms, ns: nat, after: nat, st: State)
    requires arms.Arm? && BodiesAt(code, arms, st.ip, ns, after) && MeetsBlock(arms.body)
    requires st.env.scope == None
    ensures WillSlip(code, st)
    decreases arms
  {
    BlockSlips(code, arms.body, ns, st.(ip := st.ip + 1));
    SlipNext(code, st, st.ip + 1);
  }

  lemma {:induction false} BlockSlips(code: seq<Inst>, b: Block, ns: nat, st: State)
    requires BlockAt(code, b, st.ip, ns) && MeetsBlock(b) && st.env.scope == None
    ensures WillSlip(code, st)
    decreases b, 0
  {
    if Meets(b.head) {
      StmtSlips(code, b.head, ns, st);
    } else {
      StmtPasses(b.head, ns, st.env);
      var n, c := StmtSim(code, AllCalls(), b.head, ns, st, 0);
      BlockSlips(code, b.tail, ns + Defs(b.head), c);
      SlipLater(code, st, n, c);
    }
  }

  /** The walk of a program that comes to a ternary does not cover its runs. */
  lemma {:induction false} TernaryIsNotCovered(code: seq<Inst>, b: Block, ns: nat, edges: seq<CfgEdge>, w: World)
    requires Lowered(code, b, ns) && RegularBlock(b, false) && MeetsBlock(b) && IsGraph(code, edges)
    ensures !Covers(code, edges)
  {
    var st := State(0, map[], Env(None, map[], w));
    BlockSlips(code, b, ns, st);
    CoversExactly(code, b, ns, edges);
    var n: nat :| SlipsAt(code, AllCalls(), st, n);
  }

  /** `1 if True else 2` */
  const ONE_OR_TWO := Ternary(Lit(BoolConst(true)), Lit(IntConst(1)), Lit(IntConst(2)))

  const ONE_OR_TWO_CODE := [
    Const(BoolConst(true)), GetDunder(0, AsBool), Call(1, [0]), If(2, None, Some(7)),
    JumpTarget, Const(IntConst(1)), PhiJump(10, 5), JumpTarget, Const(IntConst(2)), PhiJump(10, 8), PhiRecv]

  lemma {:induction false} OneOrTwoIsNotCovered(edges: seq<CfgEdge>, w: World)
    requires IsGraph(ONE_OR_TWO_CODE, edges)
    ensures Lowered(ONE_OR_TWO_CODE, Then(ExprStmt(ONE_OR_TWO), Empty), 1)
    ensures !Covers(ONE_OR_TWO_CODE, edges)
  {
    OneOrTwoIsLowered();
    TernaryIsNotCovered(ONE_OR_TWO_CODE, Then(ExprStmt(ONE_OR_TWO), Empty), 1, edges, w);
  }

  lemma {:induction false} OneOrTwoIsLowered()
    ensures Lowered(ONE_OR_TWO_CODE, Then(ExprStmt(ONE_OR_TWO), Empty), 1)
  {
    LiteralsChosen(ONE_OR_TWO_CODE, BoolConst(true), IntConst(1), IntConst(2));
    OneExpr(ONE_OR_TWO_CODE, ONE_OR_TWO, 1);
  }

  lemma {:induction false} LitAt(code: seq<Inst>, c: Constant, at: nat)
    requires at < |code| && code[at] == Const(c)
    ensures ExprEnd(Lit(c), at) == at + 1 && ExprSlot(Lit(c), at) == at && ExprAt(code, Lit(c), at)
  {
  }

  lemma {:induction false} LiteralsChosen(code: seq<Inst>, a: Constant, b: Constant, c: Constant)
    requires |code| == 11 && code[0] == Const(a) && code[1] == GetDunder(0, AsBool) && code[2] == Call(1, [0])
    requires code[3] == If(2, None, Some(7)) && code[4] == JumpTarget && code[5] == Const(b) &&
      code[6] == PhiJump(10, 5)
    requires code[7] == JumpTarget && code[8] == Const(c) && code[9] == PhiJump(10, 8) && code[10] == PhiRecv
    ensures var e := Ternary(Lit(a), Lit(b), Lit(c)); ExprEnd(e, 0) == 11 && ExprAt(code, e, 0)
  {
    var e := Ternary(Lit(a), Lit(b), Lit(c));
    LitAt(code, a, 0);
    LitAt(code, b, 5);
    LitAt(code, c, 8);
    assert TestEnd(e.test, 0) == 3 && TestAt(code, e.test, 0);
    assert ArmsAt(code, e, 3);
    assert ExprEnd(e, 0) == 11 && ExprShape(code, e, 0);
  }

  lemma {:induction false} OneExpr(code: seq<Inst>, e: Expr, ns: nat)
    requires ExprAt(code, e, 0) && ExprEnd(e, 0) == |code|
    ensures Lowered(code, Then(ExprStmt(e), Empty), ns)
  {
    assert StmtAt(code, ExprStmt(e), 0, ns) && StmtEnd(ExprStmt(e), 0) == |code|;
  }
}
