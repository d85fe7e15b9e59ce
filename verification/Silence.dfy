/**
 Which blocks emit nothing.

 Analysing a block that emits nothing fails an assertion at the end of
 `analyze_block` (montyc_driver/src/typeck/typing_machine.rs).  In lowered code
 those are the blocks that hold jump targets and `Nop`s only, such as the exit
 of a loop that ends a function.
 */
module Silence {
  import opened RawInst
  import opened Ast
  import opened Lower
  import opened Correctness
  import opened FlatCode
  import opened Targets
  import opened Blocks
  import opened Worklist
  import opened Coverage
  import opened Codegen

  predicate Mute(i: Inst) {
    i.JumpTarget? || i.Nop?
  }

  /** An instruction that emits something or stops the analysis, whatever the types. */
  predicate Sounds(i: Inst) {
    && !Mute(i) && !i.RefAsStr? && !i.GetAttribute? && !i.GetDunder? && !i.Call?
    && (i.If? ==> i.truthy.Some? || i.falsey.Some?)
  }

  /** Instruction `k`, or one before it in its block, sounds. */
  predicate Heard(code: seq<Inst>, k: nat)
    requires k < |code|
    decreases k, code
  {
    Sounds(code[k]) || (k > 0 && !IsHead(code[k]) && Heard(code, k - 1))
  }

  ghost predicate HeardOn(code: seq<Inst>, lo: nat, hi: nat) {
    hi <= |code| && forall k :: lo <= k < hi ==> Heard(code, k) || Mute(code[k])
  }

  // ---- expressions ----

  lemma {:induction false} ExprHeard(code: seq<Inst>, e: Expr, at: nat)
    requires ExprAt(code, e, at)
    ensures HeardOn(code, at, ExprEnd(e, at)) && Heard(code, ExprEnd(e, at) - 1)
    decreases e, 2
  {
    match e
    case Lit(_) =>
    case NameRef(_) =>
    case TupleLit(_) => ListHeard(code, e, at);
    case BinOp(_, _, _) => BinOpHeard(code, e, at);
    case Unary(_, _) => PartHeard(code, e, at);
    case Ternary(_, _, _) => TernaryHeard(code, e, at);
    case Named(_, _) => PartHeard(code, e, at);
    case CallExpr(_, _) => ListHeard(code, e, at);
    case Subscript(_, _) => SubscriptHeard(code, e, at);
    case Attribute(_, _) => PartHeard(code, e, at);
  }

  lemma {:induction false} PartHeard(code: seq<Inst>, e: Expr, at: nat)
    requires (e.Unary? || e.Named? || e.Attribute?) && ExprAt(code, e, at)
    ensures HeardOn(code, at, ExprEnd(e, at)) && Heard(code, ExprEnd(e, at) - 1)
    decreases e, 1
  {
    ExprHeard(code, if e.Unary? then e.operand else if e.Named? then e.bound else e.base, at);
  }

  lemma {:induction false} ListHeard(code: seq<Inst>, e: Expr, at: nat)
    requires (e.TupleLit? || e.CallExpr?) && ExprAt(code, e, at)
    ensures HeardOn(code, at, ExprEnd(e, at)) && Heard(code, ExprEnd(e, at) - 1)
    decreases e, 1
  {
    if e.TupleLit? {
      ExprsHeard(code, e.elems, at);
    } else {
      ExprHeard(code, e.func, at);
      ExprsHeard(code, e.args, ExprEnd(e.func, at));
    }
  }

  lemma {:induction false} TestHeard(code: seq<Inst>, e: Expr, at: nat)
    requires TestAt(code, e, at)
    ensures HeardOn(code, at, TestEnd(e, at))
    decreases e, 3
  {
    ExprHeard(code, e, at);
  }

  lemma {:induction false} BinOpHeard(code: seq<Inst>, e: Expr, at: nat)
    requires e.BinOp? && ExprAt(code, e, at)
    ensures HeardOn(code, at, ExprEnd(e, at)) && Heard(code, ExprEnd(e, at) - 1)
    decreases e, 1
  {
    PairHeard(code, e, e.left, e.right, at);
  }

  lemma {:induction false} SubscriptHeard(code: seq<Inst>, e: Expr, at: nat)
    requires e.Subscript? && ExprAt(code, e, at)
    ensures HeardOn(code, at, ExprEnd(e, at)) && Heard(code, ExprEnd(e, at) - 1)
    decreases e, 1
  {
    PairHeard(code, e, e.base, e.index, at);
  }

  lemma {:induction false} PairHeard(code: seq<Inst>, e: Expr, l: Expr, r: Expr, at: nat)
    requires l < e && r < e && ExprAt(code, l, at) && ExprAt(code, r, ExprEnd(l, at))
    requires var d := ExprEnd(r, ExprEnd(l, at)); d + 2 <= |code| && !IsHead(code[d]) && !IsHead(code[d + 1])
    ensures var end := ExprEnd(r, ExprEnd(l, at)) + 2; HeardOn(code, at, end) && Heard(code, end - 1)
    decreases e, 0
  {
    ExprHeard(code, l, at);
    ExprHeard(code, r, ExprEnd(l, at));
  }

  lemma {:induction false} TernaryHeard(code: seq<Inst>, e: Expr, at: nat)
    requires e.Ternary? && ExprAt(code, e, at)
    ensures HeardOn(code, at, ExprEnd(e, at)) && Heard(code, ExprEnd(e, at) - 1)
    decreases e, 1
  {
    TestHeard(code, e.test, at);
    ArmsHeard(code, e, TestEnd(e.test, at));
  }

  lemma {:induction false} ArmsHeard(code: seq<Inst>, e: Expr, at: nat)
    requires e.Ternary? && at > 0 && ArmsAt(code, e, at)
    ensures HeardOn(code, at, ArmsEnd(e, at)) && Heard(code, ArmsEnd(e, at) - 1)
    decreases e, 0
  {
    var j := ExprEnd(e.body, at + 2);
    ExprHeard(code, e.body, at + 2);
    ExprHeard(code, e.orelse, j + 2);
  }

  lemma {:induction false} ExprsHeard(code: seq<Inst>, es: Exprs, at: nat)
    requires ExprsAt(code, es, at) && at <= |code|
    ensures HeardOn(code, at, ExprsEnd(es, at)) && (es.MoreExprs? ==> Heard(code, ExprsEnd(es, at) - 1))
    decreases es, 2
  {
    match es
    case NoExprs =>
    case MoreExprs(h, t) =>
      ExprHeard(code, h, at);
      ExprsHeard(code, t, ExprEnd(h, at));
  }

  lemma {:induction false} OptHeard(code: seq<Inst>, e: Option<Expr>, at: nat)
    requires OptAt(code, e, at) && at <= |code|
    ensures HeardOn(code, at, OptEnd(e, at))
  {
    if e.Some? { ExprHeard(code, e.value, at); }
  }

  lemma {:induction false} ParamsHeard(code: seq<Inst>, ps: Params, at: nat)
    requires ParamsAt(code, ps, at) && at <= |code|
    ensures HeardOn(code, at, ParamsEnd(ps, at))
    decreases ps
  {
    match ps
    case NoParams =>
    case Param(_, ann, rest) =>
      OptHeard(code, ann, at);
      ParamsHeard(code, rest, OptEnd(ann, at));
  }

  // ---- statements ----

  lemma {:induction false} StmtHeard(code: seq<Inst>, s: Stmt, at: nat, ns: nat)
    requires StmtAt(code, s, at, ns)
    ensures HeardOn(code, at, StmtEnd(s, at))
    decreases s, 2
  {
    match s
    case While(_, _) => WhileHeard(code, s, at, ns);
    case IfChain(_, _) => ChainHeard(code, s, at, ns);
    case FuncDef(_, _, _, _, _) => DefHeard(code, s, at, ns);
    case _ => SimpleHeard(code, s, at, ns);
  }

  lemma {:induction false} SimpleHeard(code: seq<Inst>, s: Stmt, at: nat, ns: nat)
    requires !s.While? && !s.IfChain? && !s.FuncDef? && StmtAt(code, s, at, ns)
    ensures HeardOn(code, at, StmtEnd(s, at))
  {
    match s
    case ExprStmt(e) => ExprHeard(code, e, at);
    case Assign(_, e) => ExprHeard(code, e, at);
    case AssignAttr(_, _, _) => AttrHeard(code, s, at, ns);
    case Annotate(_, t) => ExprHeard(code, t, at);
    case ReturnStmt(r) => OptHeard(code, r, at);
    case Pass =>
  }

  lemma {:induction false} AttrHeard(code: seq<Inst>, s: Stmt, at: nat, ns: nat)
    requires s.AssignAttr? && StmtAt(code, s, at, ns)
    ensures HeardOn(code, at, StmtEnd(s, at))
  {
    ExprHeard(code, s.object_, at);
    ExprHeard(code, s.value, ExprEnd(s.object_, at) + 1);
  }

  lemma {:induction false} BlockHeard(code: seq<Inst>, b: Block, at: nat, ns: nat)
    requires BlockAt(code, b, at, ns) && at <= |code|
    ensures HeardOn(code, at, BlockEnd(b, at))
    decreases b, 3
  {
    match b
    case Empty =>
    case Then(h, t) =>
      StmtHeard(code, h, at, ns);
      BlockHeard(code, t, StmtEnd(h, at), ns + Defs(h));
  }

  lemma {:induction false} WhileHeard(code: seq<Inst>, s: Stmt, at: nat, ns: nat)
    requires s.While? && WhileAt(code, s, at, ns)
    ensures HeardOn(code, at, StmtEnd(s, at))
    decreases s, 1
  {
    ExprHeard(code, s.test, at + 2);
    BlockHeard(code, s.body, ExprEnd(s.test, at + 2) + 2, ns);
  }

  lemma {:induction false} DefHeard(code: seq<Inst>, s: Stmt, at: nat, ns: nat)
    requires s.FuncDef? && DefAt(code, s, at, ns)
    ensures HeardOn(code, at, StmtEnd(s, at))
  {
    var decs := Reverse(s.decorators);
    var d := ExprsEnd(decs, at);
    var p := ParamsEnd(s.params, d);
    var f := OptEnd(s.result, p);
    ExprsHeard(code, decs, at);
    ParamsHeard(code, s.params, d);
    OptHeard(code, s.result, p);
    CallsHeard(code, ExprsSlots(decs, at), f, f + 2);
  }

  lemma {:induction false} CallsHeard(code: seq<Inst>, decs: seq<nat>, func: nat, at: nat)
    requires CallsAt(code, decs, func, at) && 0 < at && Heard(code, at - 1)
    ensures HeardOn(code, at, at + |decs|)
    decreases |decs|
  {
    if decs != [] { CallsHeard(code, decs[1..], at, at + 1); }
  }

  lemma {:induction false} ChainHeard(code: seq<Inst>, s: Stmt, at: nat, ns: nat)
    requires s.IfChain? && ChainAt(code, s, at, ns)
    ensures HeardOn(code, at, StmtEnd(s, at))
    decreases s, 1
  {
    var p, q := ChainTests(s.arms, at), ChainBodies(s.arms, at);
    var r, after := BodiesEnd(s.arms, q), ChainAfter(s, at);
    assert HeardOn(code, p, q) by { TestsHeard(code, s.arms, p, q, after); }
    assert HeardOn(code, q, r) by { BodiesHeard(code, s.arms, q, ns, after); }
    assert HeardOn(code, r, after) by { ElseHeard(code, s.orelse, r, ns + ArmsDefs(s.arms), after); }
  }

  lemma {:induction false} TestsHeard(code: seq<Inst>, arms: Arms, at: nat, q: nat, after: nat)
    requires TestsAt(code, arms, at, q, after)
    ensures HeardOn(code, at, TestsEnd(arms, at))
    decreases arms
  {
    if arms.Arm? {
      var p := TestEnd(arms.test, at);
      assert HeardOn(code, at, p) by { TestHeard(code, arms.test, at); }
      assert HeardOn(code, p + 1, TestsEnd(arms.rest, p + 1)) by {
        TestsHeard(code, arms.rest, p + 1, BlockEnd(arms.body, q + 1) + 1, after);
      }
      JoinHeard(code, at, p, TestsEnd(arms.rest, p + 1));
    }
  }

  lemma {:induction false} JoinHeard(code: seq<Inst>, lo: nat, mid: nat, hi: nat)
    requires lo <= mid < hi && HeardOn(code, lo, mid) && HeardOn(code, mid + 1, hi) && Sounds(code[mid])
    ensures HeardOn(code, lo, hi)
  {
  }

  lemma {:induction false} BodiesHeard(code: seq<Inst>, arms: Arms, at: nat, ns: nat, after: nat)
    requires BodiesAt(code, arms, at, ns, after)
    ensures HeardOn(code, at, BodiesEnd(arms, at))
    decreases arms, 3
  {
    if arms.Arm? {
      var e := BlockEnd(arms.body, at + 1);
      assert HeardOn(code, at + 1, e) by { BlockHeard(code, arms.body, at + 1, ns); }
      assert HeardOn(code, e + 1, BodiesEnd(arms.rest, e + 1)) by {
        BodiesHeard(code, arms.rest, e + 1, ns + BlockDefs(arms.body), after);
      }
      assert Mute(code[at]);
      JoinHeard(code, at + 1, e, BodiesEnd(arms.rest, e + 1));
    }
  }

  lemma {:induction false} ElseHeard(code: seq<Inst>, o: OrElse, at: nat, ns: nat, after: nat)
    requires ElseAt(code, o, at, ns, after)
    ensures HeardOn(code, at, ElseEnd(o, at))
    decreases o, 3
  {
    if o.Else? { BlockHeard(code, o.body, at + 1, ns); }
  }

  // ---- exactly when a block analyses ----

  lemma {:induction false} HeardInBlock(code: seq<Inst>, k: nat) returns (j: nat)
    requires k < |code| && Heard(code, k)
    ensures j <= k && Sounds(code[j]) && BlockOf(code, j) == BlockOf(code, k)
    decreases k
  {
    if Sounds(code[k]) { j := k; } else { j := HeardInBlock(code, k - 1); }
  }

  /** In lowered code every jump has a block to go to. */
  lemma {:induction false} SkeletonExists(code: seq<Inst>, b: nat, n: nat, plain: bool)
    requires Local(code, 0, |code|, plain) && b < |Split(Numbered(code))| && n <= |Split(Numbered(code))[b]|
    ensures Skeleton(Split(Numbered(code)), Split(Numbered(code))[b], n).Some?
    decreases n
  {
    if n > 0 {
      SkeletonExists(code, b, n - 1, plain);
      WholeIsBlocked(code);
      var blocks := Split(Numbered(code));
      assert Fits(code, |code|, blocks[b], b, n - 1);
      var k := blocks[b][0].value + n - 1;
      assert Lands(code, k, 0, |code|, plain);
      forall t | JumpsTo(code[k], t) ensures BlockTo(blocks, t).Some? { FindIsBlockOf(code, t); }
      ControlExists(blocks, code[k]);
    }
  }

  lemma {:induction false} ControlExists(blocks: seq<BasicBlock>, i: Inst)
    requires forall t :: JumpsTo(i, t) ==> BlockTo(blocks, t).Some?
    ensures Control(blocks, i).Some?
  {
    match i
    case If(_, truthy, falsey) =>
      if truthy.Some? { assert JumpsTo(i, truthy.value); }
      if falsey.Some? { assert JumpsTo(i, falsey.value); }
    case Br(to) => assert JumpsTo(i, to);
    case PhiJump(recv, _) => assert JumpsTo(i, recv);
    case _ =>
  }

  ghost predicate AllMute(block: BasicBlock) {
    forall i :: 0 <= i < |block| ==> Mute(block[i].op)
  }

  /**
   A block of lowered code analyses exactly when none of its instructions stops
   the analysis and it holds more than jump targets and `Nop`s.
   */
  lemma {:induction false} AnalysesExactly(code: seq<Inst>, b: Block, ns: nat, x: nat, typing: Typing)
    requires Lowered(code, b, ns) && x < |Split(Numbered(code))|
    ensures var block := Split(Numbered(code))[x];
      Analyses(code, x, typing) <==> !SomeStop(block, |block|, typing) && !AllMute(block)
  {
    var block := Split(Numbered(code))[x];
    LoweredIsLocal(code, b, ns);
    SkeletonExists(code, x, |block|, OneTestBlock(b));
    if !AllMute(block) && !SomeStop(block, |block|, typing) {
      assert HeardOn(code, 0, |code|) by { BlockHeard(code, b, 0, ns); }
      var i :| 0 <= i < |block| && !Mute(block[i].op);
      HeardEmits(code, x, i, typing);
    }
  }

  lemma {:induction false} HeardEmits(code: seq<Inst>, x: nat, i: nat, typing: Typing)
    requires HeardOn(code, 0, |code|) && x < |Split(Numbered(code))|
    requires var block := Split(Numbered(code))[x];
      i < |block| && !Mute(block[i].op) && !SomeStop(block, |block|, typing)
    ensures var block := Split(Numbered(code))[x]; SomeEmit(block, |block|, typing)
  {
    var k := IndexAt(code, x, i);
    var j := HeardInBlock(code, k);
    var m := PositionOf(code, j);
    SoundEmits(Split(Numbered(code))[x], m, typing);
  }

  lemma {:induction false} IndexAt(code: seq<Inst>, x: nat, i: nat) returns (k: nat)
    requires x < |Split(Numbered(code))| && i < |Split(Numbered(code))[x]|
    ensures k < |code| && BlockOf(code, k) == x && Split(Numbered(code))[x][i] == FlatInst(code[k], k)
  {
    var block := Split(Numbered(code))[x];
    WholeIsBlocked(code);
    assert Fits(code, |code|, block, x, i);
    k := block[0].value + i;
  }

  lemma {:induction false} SoundEmits(block: BasicBlock, m: nat, typing: Typing)
    requires m < |block| && Sounds(block[m].op) && !SomeStop(block, |block|, typing)
    ensures SomeEmit(block, |block|, typing)
  {
    assert SlotEffect(block[m], typing).Emits?;
  }

  lemma {:induction false} WalkedInRange(code: seq<Inst>, edges: seq<CfgEdge>, x: nat)
    requires |code| > 0 && IsGraph(code, edges) && Walked(edges, x)
    ensures x < |Split(Numbered(code))|
  {
    var blocks := Split(Numbered(code));
    WholeIsBlocked(code);
    forall y: nat, z: nat | y < |blocks| && z in CfgOf(edges)(y) ensures z < |blocks| {
      OutgoingIs(edges, y, z);
      FindInRange(blocks, AllEdges(blocks, |blocks|), edges, y, z);
    }
    ReachableInherits(CfgOf(edges), (y: nat) => y < |blocks|, 0, x);
  }

  /**
   The analysis of lowered code comes to its end exactly when no walked block
   holds an instruction that stops it, or nothing but jump targets and `Nop`s.
   */
  lemma {:induction false} ChecksExactly(code: seq<Inst>, b: Block, ns: nat, edges: seq<CfgEdge>, typing: Typing)
    requires Lowered(code, b, ns) && |code| > 0 && IsGraph(code, edges)
    ensures var blocks := Split(Numbered(code));
      (forall x: nat :: Walked(edges, x) ==> Analyses(code, x, typing)) <==>
      forall x: nat :: Walked(edges, x) ==>
        x < |blocks| && !SomeStop(blocks[x], |blocks[x]|, typing) && !AllMute(blocks[x])
  {
    forall x: nat | Walked(edges, x) ensures x < |Split(Numbered(code))| {
      WalkedInRange(code, edges, x);
    }
    forall x: nat | Walked(edges, x)
      ensures var block := Split(Numbered(code))[x];
        Analyses(code, x, typing) <==> !SomeStop(block, |block|, typing) && !AllMute(block)
    {
      AnalysesExactly(code, b, ns, x, typing);
    }
  }
}
