/**
 Which function bodies always fail the analysis.

 A loop and a chain end in a jump target, and where nothing but `pass` follows,
 the block it begins emits nothing.  The walk always comes to the last block,
 so a body that ends that way never gets through the analysis; and in code
 without ternaries no other block is mute.
 */
module Endings {
  import opened RawInst
  import opened Ast
  import opened Lower
  import opened Correctness
  import opened FlatCode
  import opened Targets
  import opened Blocks
  import opened Worklist
  import opened Coverage
  import opened Codegen
  import opened Silence

  // ---- stretches without a block head ----

  ghost predicate NoHead(code: seq<Inst>, lo: nat, hi: nat) {
    hi <= |code| && forall k :: lo <= k < hi ==> !IsHead(code[k])
  }

  lemma {:induction false} ExprNoHead(code: seq<Inst>, e: Expr, at: nat)
    requires ExprAt(code, e, at) && FreeExpr(e)
    ensures NoHead(code, at, ExprEnd(e, at))
    decreases e, 2
  {
    match e
    case Lit(_) =>
    case NameRef(_) =>
    case TupleLit(elems) => ExprsNoHead(code, elems, at);
    case BinOp(_, _, _) => BinOpNoHead(code, e, at);
    case Unary(_, v) => ExprNoHead(code, v, at);
    case Named(_, v) => ExprNoHead(code, v, at);
    case CallExpr(func, args) => CallNoHead(code, e, at);
    case Subscript(_, _) => SubscriptNoHead(code, e, at);
    case Attribute(base, _) => ExprNoHead(code, base, at);
  }

  lemma {:induction false} BinOpNoHead(code: seq<Inst>, e: Expr, at: nat)
    requires e.BinOp? && ExprAt(code, e, at) && FreeExpr(e)
    ensures NoHead(code, at, ExprEnd(e, at))
    decreases e, 1
  {
    PairNoHead(code, e, e.left, e.right, at);
  }

  lemma {:induction false} SubscriptNoHead(code: seq<Inst>, e: Expr, at: nat)
    requires e.Subscript? && ExprAt(code, e, at) && FreeExpr(e)
    ensures NoHead(code, at, ExprEnd(e, at))
    decreases e, 1
  {
    PairNoHead(code, e, e.base, e.index, at);
  }

  lemma {:induction false} PairNoHead(code: seq<Inst>, e: Expr, l: Expr, r: Expr, at: nat)
    requires l < e && r < e && FreeExpr(l) && FreeExpr(r)
    requires ExprAt(code, l, at) && ExprAt(code, r, ExprEnd(l, at))
    requires var d := ExprEnd(r, ExprEnd(l, at)); d + 2 <= |code| && !IsHead(code[d]) && !IsHead(code[d + 1])
    ensures NoHead(code, at, ExprEnd(r, ExprEnd(l, at)) + 2)
    decreases e, 0
  {
    ExprNoHead(code, l, at);
    ExprNoHead(code, r, ExprEnd(l, at));
  }

  lemma {:induction false} CallNoHead(code: seq<Inst>, e: Expr, at: nat)
    requires e.CallExpr? && ExprAt(code, e, at) && FreeExpr(e)
    ensures NoHead(code, at, ExprEnd(e, at))
    decreases e, 1
  {
    ExprNoHead(code, e.func, at);
    ExprsNoHead(code, e.args, ExprEnd(e.func, at));
  }

  lemma {:induction false} ExprsNoHead(code: seq<Inst>, es: Exprs, at: nat)
    requires ExprsAt(code, es, at) && FreeExprs(es) && at <= |code|
    ensures NoHead(code, at, ExprsEnd(es, at))
    decreases es, 2
  {
    match es
    case NoExprs =>
    case MoreExprs(h, t) =>
      ExprNoHead(code, h, at);
      ExprsNoHead(code, t, ExprEnd(h, at));
  }

  lemma {:induction false} SameBlock(code: seq<Inst>, j: nat, k: nat)
    requires j <= k < |code| && NoHead(code, j + 1, k + 1)
    ensures BlockOf(code, k) == BlockOf(code, j)
    decreases k
  {
    if j < k { SameBlock(code, j, k - 1); }
  }

  lemma {:induction false} ParamsNoHead(code: seq<Inst>, ps: Params, at: nat)
    requires ParamsAt(code, ps, at) && FreeParams(ps) && at <= |code|
    ensures NoHead(code, at, ParamsEnd(ps, at))
    decreases ps
  {
    if ps.Param? {
      if ps.annotation.Some? { ExprNoHead(code, ps.annotation.value, at); }
      ParamsNoHead(code, ps.rest, OptEnd(ps.annotation, at));
    }
  }

  lemma {:induction false} CallsNoHead(code: seq<Inst>, decs: seq<nat>, func: nat, at: nat)
    requires CallsAt(code, decs, func, at)
    ensures NoHead(code, at, at + |decs|)
    decreases |decs|
  {
    if decs != [] { CallsNoHead(code, decs[1..], at, at + 1); }
  }

  /** A statement that is neither a loop nor a chain. */
  predicate Inline(s: Stmt) {
    !s.While? && !s.IfChain?
  }

  lemma {:induction false} InlineNoHead(code: seq<Inst>, s: Stmt, at: nat, ns: nat)
    requires Inline(s) && StmtAt(code, s, at, ns) && Regular(s, true)
    ensures NoHead(code, at, StmtEnd(s, at))
  {
    match s
    case ExprStmt(e) => ExprNoHead(code, e, at);
    case Assign(_, e) => ExprNoHead(code, e, at);
    case AssignAttr(o, _, e) =>
      ExprNoHead(code, o, at);
      ExprNoHead(code, e, ExprEnd(o, at) + 1);
    case Annotate(_, k) => ExprNoHead(code, k, at);
    case ReturnStmt(r) =>
      if r.Some? { ExprNoHead(code, r.value, at); }
    case Pass =>
    case FuncDef(_, _, _, _, _) => DefNoHead(code, s, at, ns);
  }

  lemma {:induction false} DefNoHead(code: seq<Inst>, s: Stmt, at: nat, ns: nat)
    requires s.FuncDef? && DefAt(code, s, at, ns) && Regular(s, true)
    ensures NoHead(code, at, StmtEnd(s, at))
  {
    var decs := Reverse(s.decorators);
    var d := ExprsEnd(decs, at);
    var p := ParamsEnd(s.params, d);
    var f := OptEnd(s.result, p);
    ExprsNoHead(code, decs, at);
    ParamsNoHead(code, s.params, d);
    if s.result.Some? { ExprNoHead(code, s.result.value, p); }
    CallsNoHead(code, ExprsSlots(decs, at), f, f + 2);
  }

  // ---- the last block is always walked ----

  /** No ternary in the top-level statements and in the tests of top-level loops and chains. */
  predicate FreeTop(b: Block) {
    match b
    case Empty => true
    case Then(h, t) => FreeHead(h) && FreeTop(t)
  }

  predicate FreeHead(s: Stmt) {
    match s
    case While(test, _) => FreeExpr(test)
    case IfChain(arms, _) => arms.Arm? && FreeTests(arms)
    case _ => Regular(s, true)
  }

  predicate FreeTests(arms: Arms) {
    match arms
    case NoArms => true
    case Arm(test, _, rest) => FreeExpr(test) && FreeTests(rest)
  }

  /** The walk comes to what stands before `at`. */
  ghost predicate WalkedTo(code: seq<Inst>, edges: seq<CfgEdge>, at: nat) {
    at <= |code| && (at > 0 ==> Walked(edges, BlockOf(code, at - 1)))
  }

  /** It goes on through whatever has no block head in it. */
  lemma {:induction false} WalkOn(code: seq<Inst>, edges: seq<CfgEdge>, at: nat, to: nat)
    requires WalkedTo(code, edges, at) && at <= to <= |code|
    requires NoHead(code, if at == 0 then 1 else at, to)
    ensures WalkedTo(code, edges, to)
  {
    if at < to {
      if at == 0 { ReachesItself(CfgOf(edges), 0); }
      SameBlock(code, if at == 0 then 0 else at - 1, to - 1);
    }
  }

  /** It follows every jump. */
  lemma {:induction false} WalkJump(code: seq<Inst>, edges: seq<CfgEdge>, k: nat, t: nat)
    requires WalkedTo(code, edges, k + 1) && t < |code| && Connects(code[k], t) && IsGraph(code, edges)
    ensures WalkedTo(code, edges, t + 1)
  {
    assert BlockJump(code, BlockOf(code, k), BlockOf(code, t));
    JumpIsWalked(code, edges, BlockOf(code, k), BlockOf(code, t));
  }

  lemma {:induction false} WalkThenJump(code: seq<Inst>, edges: seq<CfgEdge>, at: nat, k: nat, t: nat)
    requires WalkedTo(code, edges, at) && IsGraph(code, edges)
    requires at <= k < |code| && NoHead(code, if at == 0 then 1 else at, k + 1)
    requires t < |code| && Connects(code[k], t)
    ensures WalkedTo(code, edges, t + 1)
  {
    WalkOn(code, edges, at, k + 1);
    WalkJump(code, edges, k, t);
  }

  lemma {:induction false} StmtWalked(code: seq<Inst>, edges: seq<CfgEdge>, s: Stmt, at: nat, ns: nat)
    requires StmtAt(code, s, at, ns) && FreeHead(s) && IsGraph(code, edges) && WalkedTo(code, edges, at)
    ensures WalkedTo(code, edges, StmtEnd(s, at))
  {
    if s.While? {
      LoopWalked(code, edges, s, at, ns);
    } else if s.IfChain? {
      ChainParts(code, s, at, ns);
      ChainWalked(code, edges, s.arms, at, ChainBodies(s.arms, at), ChainAfter(s, at));
    } else {
      InlineNoHead(code, s, at, ns);
      WalkOn(code, edges, at, StmtEnd(s, at));
    }
  }

  lemma {:induction false} ChainParts(code: seq<Inst>, s: Stmt, at: nat, ns: nat)
    requires s.IfChain? && StmtAt(code, s, at, ns)
    ensures var after := ChainAfter(s, at);
      && ChainBodies(s.arms, at) <= after < |code| && StmtEnd(s, at) == after + 1
      && TestsAt(code, s.arms, ChainTests(s.arms, at), ChainBodies(s.arms, at), after) == true
  {
    assert ChainAt(code, s, at, ns) == true;
  }

  lemma {:induction false} LoopWalked(code: seq<Inst>, edges: seq<CfgEdge>, s: Stmt, at: nat, ns: nat)
    requires s.While? && WhileAt(code, s, at, ns) && FreeExpr(s.test)
    requires IsGraph(code, edges) && WalkedTo(code, edges, at)
    ensures WalkedTo(code, edges, StmtEnd(s, at))
  {
    var j := ExprEnd(s.test, at + 2);
    ExprNoHead(code, s.test, at + 2);
    LoopWay(code, edges, at, j, StmtEnd(s, at) - 1);
  }

  lemma {:induction false} LoopWay(code: seq<Inst>, edges: seq<CfgEdge>, at: nat, j: nat, exit: nat)
    requires IsGraph(code, edges) && WalkedTo(code, edges, at) && at + 2 <= j < exit < |code|
    requires code[at] == Br(at + 1) && NoHead(code, at + 2, j) && code[j].If? && code[j].falsey == Some(exit)
    ensures WalkedTo(code, edges, exit + 1)
  {
    WalkThenJump(code, edges, at, at, at + 1);
    WalkThenJump(code, edges, at + 2, j, exit);
  }

  lemma {:induction false} TestsNoHead(code: seq<Inst>, arms: Arms, at: nat, q: nat, after: nat)
    requires TestsAt(code, arms, at, q, after) && FreeTests(arms)
    ensures NoHead(code, at, TestsEnd(arms, at))
    ensures arms.Arm? ==> at < TestsEnd(arms, at) && Connects(code[TestsEnd(arms, at) - 1], after)
    decreases arms
  {
    if arms.Arm? {
      var p := TestEnd(arms.test, at);
      ExprNoHead(code, arms.test, at);
      TestsNoHead(code, arms.rest, p + 1, BlockEnd(arms.body, q + 1) + 1, after);
    }
  }

  lemma {:induction false} ChainWalked(code: seq<Inst>, edges: seq<CfgEdge>, arms: Arms, at: nat, q: nat, after: nat)
    requires arms.Arm? && FreeTests(arms) && TestsAt(code, arms, ChainTests(arms, at), q, after) == true
    requires q == ChainBodies(arms, at) <= after < |code| && IsGraph(code, edges) && WalkedTo(code, edges, at)
    ensures WalkedTo(code, edges, after + 1)
  {
    TestsNoHead(code, arms, ChainTests(arms, at), q, after);
    WalkThenJump(code, edges, at, q - 1, after);
  }

  lemma {:induction false} BlockWalked(code: seq<Inst>, edges: seq<CfgEdge>, b: Block, at: nat, ns: nat)
    requires BlockAt(code, b, at, ns) && FreeTop(b) && IsGraph(code, edges) && WalkedTo(code, edges, at)
    ensures WalkedTo(code, edges, BlockEnd(b, at))
    decreases b
  {
    if b.Then? {
      StmtWalked(code, edges, b.head, at, ns);
      BlockWalked(code, edges, b.tail, StmtEnd(b.head, at), ns + Defs(b.head));
    }
  }

  // ---- bodies with a mute end ----

  predicate AllPass(b: Block) {
    match b
    case Empty => true
    case Then(h, t) => h.Pass? && AllPass(t)
  }

  /** Up to any `pass` at its end, the body is empty or ends with a loop or a chain. */
  predicate MuteEnd(b: Block) {
    match b
    case Empty => true
    case Then(h, t) => if AllPass(t) then h.Pass? || h.While? || h.IfChain? else MuteEnd(t)
  }

  ghost predicate AllNops(code: seq<Inst>, lo: nat, hi: nat) {
    hi <= |code| && forall k :: lo <= k < hi ==> code[k] == Nop
  }

  lemma {:induction false} PassesAreNops(code: seq<Inst>, b: Block, at: nat, ns: nat)
    requires BlockAt(code, b, at, ns) == true && AllPass(b) && at <= |code|
    ensures AllNops(code, at, BlockEnd(b, at))
    decreases b
  {
    if b.Then? {
      assert StmtAt(code, Pass, at, ns) == true;
      PassesAreNops(code, b.tail, at + 1, ns);
    }
  }

  lemma {:induction false} EndsInTarget(code: seq<Inst>, s: Stmt, at: nat, ns: nat)
    requires (s.While? || s.IfChain?) && StmtAt(code, s, at, ns)
    ensures code[StmtEnd(s, at) - 1] == JumpTarget
  {
    if s.While? { assert WhileAt(code, s, at, ns); } else { assert ChainAt(code, s, at, ns); }
  }

  /** Everything from `m` on is a `Nop`, and `m` is where the block starts or follows a jump target. */
  lemma {:induction false} MuteTail(code: seq<Inst>, b: Block, at: nat, ns: nat) returns (m: nat)
    requires BlockAt(code, b, at, ns) && MuteEnd(b) && at <= |code|
    ensures at <= m <= BlockEnd(b, at) && AllNops(code, m, BlockEnd(b, at))
    ensures if AllPass(b) then m == at else at < m && code[m - 1] == JumpTarget
    decreases b
  {
    m := at;
    if AllPass(b) {
      PassesAreNops(code, b, at, ns);
    } else if AllPass(b.tail) {
      m := StmtEnd(b.head, at);
      PassesAreNops(code, b.tail, m, ns + Defs(b.head));
      EndsInTarget(code, b.head, at, ns);
    } else {
      m := MuteTail(code, b.tail, StmtEnd(b.head, at), ns + Defs(b.head));
    }
  }

  lemma {:induction false} ExprLast(code: seq<Inst>, e: Expr, at: nat)
    requires ExprAt(code, e, at)
    ensures !Mute(code[ExprEnd(e, at) - 1])
  {
    assert ExprShape(code, e, at);
    if e.Ternary? { assert ArmsAt(code, e, TestEnd(e.test, at)); }
  }

  lemma {:induction false} CallsLast(code: seq<Inst>, decs: seq<nat>, func: nat, at: nat)
    requires CallsAt(code, decs, func, at) && decs != []
    ensures code[at + |decs| - 1].Call?
    decreases |decs|
  {
    if |decs| > 1 { CallsLast(code, decs[1..], at, at + 1); }
  }

  lemma {:induction false} InlineLast(code: seq<Inst>, s: Stmt, at: nat, ns: nat)
    requires Inline(s) && !s.Pass? && StmtAt(code, s, at, ns)
    ensures !Mute(code[StmtEnd(s, at) - 1])
  {
    if s.ExprStmt? {
      ExprLast(code, s.expr, at);
    } else if s.FuncDef? {
      var decs := Reverse(s.decorators);
      var f := OptEnd(s.result, ParamsEnd(s.params, ExprsEnd(decs, at)));
      assert DefAt(code, s, at, ns);
      if ExprsSlots(decs, at) != [] { CallsLast(code, ExprsSlots(decs, at), f, f + 2); }
    }
  }

  /** Any other end has an instruction that is not mute, with nothing but `Nop`s after it. */
  lemma {:induction false} SoundTail(code: seq<Inst>, b: Block, at: nat, ns: nat) returns (m: nat)
    requires BlockAt(code, b, at, ns) && !MuteEnd(b) && at <= |code|
    ensures at <= m < BlockEnd(b, at) && AllNops(code, m + 1, BlockEnd(b, at)) && !Mute(code[m])
    decreases b
  {
    var mid := StmtEnd(b.head, at);
    if AllPass(b.tail) {
      m := mid - 1;
      InlineLast(code, b.head, at, ns);
      PassesAreNops(code, b.tail, mid, ns + Defs(b.head));
    } else {
      m := SoundTail(code, b.tail, mid, ns + Defs(b.head));
    }
  }

  // ---- the last block ----

  function LastBlock(code: seq<Inst>): nat
    requires |code| > 0
  {
    BlockOf(code, |code| - 1)
  }

  lemma {:induction false} LastInRange(code: seq<Inst>)
    requires |code| > 0
    ensures LastBlock(code) < |Split(Numbered(code))|
  {
    var m := PositionOf(code, |code| - 1);
  }

  /** The last block is mute exactly when the body has a mute end. */
  lemma {:induction false} LastIsMute(code: seq<Inst>, b: Block, ns: nat)
    requires Lowered(code, b, ns) && |code| > 0
    ensures LastBlock(code) < |Split(Numbered(code))|
    ensures AllMute(Split(Numbered(code))[LastBlock(code)]) <==> MuteEnd(b)
  {
    LastInRange(code);
    var x := LastBlock(code);
    var block := Split(Numbered(code))[x];
    if MuteEnd(b) {
      var m := MuteTail(code, b, 0, ns);
      forall i | 0 <= i < |block| ensures Mute(block[i].op) {
        var k := IndexAt(code, x, i);
        if m > 0 && k < m - 1 {
          HeadsDiffer(code, k, m - 1);
          BlockOfGrows(code, m - 1, |code| - 1);
        }
      }
    } else {
      var m := SoundTail(code, b, 0, ns);
      SameBlock(code, m, |code| - 1);
      var i := PositionOf(code, m);
    }
  }

  /** Where a block ends, and that a head comes next if anything. */
  lemma {:induction false} EndOfBlock(code: seq<Inst>, x: nat) returns (k: nat)
    requires x < |Split(Numbered(code))|
    ensures k < |code| && BlockOf(code, k) == x && (k + 1 < |code| ==> IsHead(code[k + 1]))
    ensures AllMute(Split(Numbered(code))[x]) ==> Mute(code[k])
  {
    var blocks := Split(Numbered(code));
    WholeIsBlocked(code);
    var i := |blocks[x]| - 1;
    k := IndexAt(code, x, i);
    assert Fits(code, |code|, blocks[x], x, i);
    if k + 1 < |code| { assert Holds(blocks, BlockOf(code, k + 1), k + 1); }
  }

  /** Without ternaries every other block ends with a jump, so it is not mute. */
  lemma {:induction false} OthersAreNotMute(code: seq<Inst>, x: nat)
    requires Straight(code, 0, |code|, true) && x < |Split(Numbered(code))| && AllMute(Split(Numbered(code))[x])
    ensures |code| > 0 && x == LastBlock(code)
  {
    var k := EndOfBlock(code, x);
    assert k + 1 < |code| ==> StraightAt(code, k + 1, true);
  }

  // ---- which bodies fail ----

  lemma {:induction false} FreeIsFreeTop(b: Block)
    requires RegularBlock(b, true)
    ensures FreeTop(b)
    decreases b
  {
    if b.Then? {
      if b.head.IfChain? { FreeIsFreeTests(b.head.arms); }
      FreeIsFreeTop(b.tail);
    }
  }

  lemma {:induction false} FreeIsFreeTests(arms: Arms)
    requires RegularArms(arms, true)
    ensures FreeTests(arms)
    decreases arms
  {
    if arms.Arm? { FreeIsFreeTests(arms.rest); }
  }

  lemma {:induction false} LastIsWalked(code: seq<Inst>, b: Block, ns: nat, edges: seq<CfgEdge>)
    requires Lowered(code, b, ns) && |code| > 0 && FreeTop(b) && IsGraph(code, edges)
    ensures Walked(edges, LastBlock(code))
  {
    BlockWalked(code, edges, b, 0, ns);
  }

  /**
   Whatever the types, and whatever stands in its loops and branches: a body with
   a mute end never gets through the analysis.
   */
  lemma {:induction false} MuteEndIsNeverChecked(code: seq<Inst>, b: Block, ns: nat, edges: seq<CfgEdge>,
        typing: Typing)
    requires Lowered(code, b, ns) && |code| > 0 && FreeTop(b) && IsGraph(code, edges) && MuteEnd(b)
    ensures exists x :: Walked(edges, x) && !Analyses(code, x, typing)
  {
    LastIsWalked(code, b, ns, edges);
    LastIsMute(code, b, ns);
    AnalysesExactly(code, b, ns, LastBlock(code), typing);
  }

  /**
   Without ternaries, a body gets through the analysis exactly when it has no
   mute end and no walked block holds an instruction that stops it.
   */
  lemma {:induction false} ChecksByItsEnd(code: seq<Inst>, b: Block, ns: nat, edges: seq<CfgEdge>, typing: Typing)
    requires Lowered(code, b, ns) && |code| > 0 && RegularBlock(b, true) && IsGraph(code, edges)
    ensures var blocks := Split(Numbered(code));
      (forall x: nat :: Walked(edges, x) ==> Analyses(code, x, typing)) <==>
      !MuteEnd(b) &&
      forall x: nat :: Walked(edges, x) ==> x < |blocks| && !SomeStop(blocks[x], |blocks[x]|, typing)
  {
    FreeIsFreeTop(b);
    LastIsMute(code, b, ns);
    LastIsWalked(code, b, ns, edges);
    LoweredIsStraight(code, b, ns, true);
    ChecksExactly(code, b, ns, edges, typing);
    forall x: nat | Walked(edges, x) && x < |Split(Numbered(code))|
      ensures AllMute(Split(Numbered(code))[x]) ==> x == LastBlock(code)
    {
      if AllMute(Split(Numbered(code))[x]) { OthersAreNotMute(code, x); }
    }
  }

  // ---- bodies that the analysis has no arms for ----

  /** At its top level the body defines a function, annotates a variable or assigns to an attribute. */
  predicate HasUnwritten(b: Block) {
    match b
    case Empty => false
    case Then(h, t) => h.FuncDef? || h.Annotate? || h.AssignAttr? || HasUnwritten(t)
  }

  lemma {:induction false} UnwrittenIn(code: seq<Inst>, s: Stmt, at: nat, ns: nat) returns (k: nat)
    requires (s.FuncDef? || s.Annotate? || s.AssignAttr?) && StmtAt(code, s, at, ns) == true
    ensures at <= k < StmtEnd(s, at) && Unwritten(code[k])
  {
    if s.FuncDef? {
      assert DefAt(code, s, at, ns);
      k := OptEnd(s.result, ParamsEnd(s.params, ExprsEnd(Reverse(s.decorators), at)));
    } else {
      k := StmtEnd(s, at) - 1;
    }
  }

  lemma {:induction false} UnwrittenHere(code: seq<Inst>, edges: seq<CfgEdge>, s: Stmt, at: nat, ns: nat)
    returns (k: nat)
    requires (s.FuncDef? || s.Annotate? || s.AssignAttr?) && StmtAt(code, s, at, ns) == true && Regular(s, true)
    requires IsGraph(code, edges) && WalkedTo(code, edges, at)
    ensures k < |code| && Unwritten(code[k]) && Walked(edges, BlockOf(code, k))
  {
    k := UnwrittenIn(code, s, at, ns);
    assert NoHead(code, at, k + 1) by { InlineNoHead(code, s, at, ns); }
    WalkOn(code, edges, at, k + 1);
  }

  lemma {:induction false} UnwrittenWalked(code: seq<Inst>, edges: seq<CfgEdge>, b: Block, at: nat, ns: nat)
    returns (k: nat)
    requires BlockAt(code, b, at, ns) == true && FreeTop(b) && HasUnwritten(b)
    requires IsGraph(code, edges) && WalkedTo(code, edges, at)
    ensures k < |code| && Unwritten(code[k]) && Walked(edges, BlockOf(code, k))
    decreases b
  {
    var h := b.head;
    if h.FuncDef? || h.Annotate? || h.AssignAttr? {
      k := UnwrittenHere(code, edges, h, at, ns);
    } else {
      StmtWalked(code, edges, h, at, ns);
      k := UnwrittenWalked(code, edges, b.tail, StmtEnd(h, at), ns + Defs(h));
    }
  }

  /** Whatever the types, such a body never gets through the analysis. */
  lemma {:induction false} UnwrittenIsNeverChecked(code: seq<Inst>, b: Block, ns: nat, edges: seq<CfgEdge>,
        typing: Typing)
    requires Lowered(code, b, ns) && FreeTop(b) && HasUnwritten(b) && IsGraph(code, edges)
    ensures exists x :: Walked(edges, x) && !Analyses(code, x, typing)
  {
    var k := UnwrittenWalked(code, edges, b, 0, ns);
    var x := BlockOf(code, k);
    if x < |Split(Numbered(code))| {
      assert StopsAt(code, k, typing);
      StopsExactly(code, x, typing);
    }
    assert !Analyses(code, x, typing);
  }
}
