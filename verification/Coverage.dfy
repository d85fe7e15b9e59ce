/**
 What the type checker walks, compared with what the machine runs
 (montyc_driver/src/typeck/mod.rs, block_cfg.rs and cfg_reducer.rs).

 `WalkBlocks` splits a sequence into blocks, builds their graph and walks it.
 A run stays in the blocks of the walk exactly as long as it neither falls from
 the test of a ternary into its true arm nor takes a phi jump; the graph has
 edges for neither.
 */
module Coverage {
  import opened RawInst
  import opened Ast
  import opened Machine
  import opened Lower
  import opened Correctness
  import opened FlatCode
  import opened Targets
  import opened Blocks
  import opened Worklist

  // ---- the outgoing edges of a block ----

  /** Targets of the edges leaving block `a`, the latest edge first. */
  function Outgoing(edges: seq<CfgEdge>, a: nat): seq<nat> {
    if |edges| == 0 then []
    else
      var last := edges[|edges| - 1];
      (if last.from == a then [last.to] else []) + Outgoing(edges[..|edges| - 1], a)
  }

  lemma {:induction false} OutgoingIs(edges: seq<CfgEdge>, a: nat, b: nat)
    ensures b in Outgoing(edges, a) <==> HasEdge(edges, a, b)
    decreases |edges|
  {
    if |edges| > 0 {
      var front, last := edges[..|edges| - 1], edges[|edges| - 1];
      OutgoingIs(front, a, b);
      if HasEdge(edges, a, b) {
        var i :| 0 <= i < |edges| && edges[i].from == a && edges[i].to == b;
        if i < |edges| - 1 { assert front[i] == edges[i]; }
      }
      if HasEdge(front, a, b) {
        var i :| 0 <= i < |front| && front[i].from == a && front[i].to == b;
        assert edges[i] == front[i];
      }
      assert last.from == a && last.to == b ==> HasEdge(edges, a, b) by { assert edges[|edges| - 1] == last; }
    }
  }

  // ---- the walk ----

  /** The graph that the walk of a sequence follows. */
  function CfgOf(edges: seq<CfgEdge>): Graph {
    (a: nat) => Outgoing(edges, a)
  }

  /** `edges` is the graph that is built for `code`. */
  ghost predicate IsGraph(code: seq<Inst>, edges: seq<CfgEdge>) {
    var blocks := Split(Numbered(code));
    Settled(blocks, AllEdges(blocks, |blocks|), edges)
  }

  /** The walk comes to block `b`. */
  ghost predicate Walked(edges: seq<CfgEdge>, b: nat) {
    Reachable(CfgOf(edges), 0, b)
  }

  /**
   Split, connect and walk a sequence; `ok` says which blocks type check.
   Nothing is walked if a jump leaves the sequence, which is a panic, or if the
   walk comes to a block that does not check.  Otherwise the walk is the list of
   all blocks that the graph leads to.
   */
  method WalkBlocks(code: seq<Inst>, ok: nat -> bool)
    returns (ghost edges: seq<CfgEdge>, walked: Option<seq<nat>>)
    requires |code| > 0
    ensures Inside(code) ==> IsGraph(code, edges)
    ensures walked.Some? ==> Sorted(walked.value) && forall b :: b in walked.value <==> Walked(edges, b)
    ensures walked.None? <==> !Inside(code) || exists b :: Walked(edges, b) && !ok(b)
  {
    var blocks := FlatSeqToBlocks(Numbered(code));
    var cfg := NewFromBlocks(blocks);
    GraphExists(code);
    if cfg.None? { return [], None; }
    edges := cfg.value;
    WholeIsBlocked(code);
    forall x: nat, y: nat | x < |blocks| && y in CfgOf(cfg.value)(x) ensures y < |blocks| {
      OutgoingIs(cfg.value, x, y);
      FindInRange(blocks, AllEdges(blocks, |blocks|), cfg.value, x, y);
    }
    ghost var calls;
    walked, calls := Visit(CfgOf(cfg.value), |blocks|, 0, ok);
  }

  lemma {:induction false} FindBound(blocks: seq<BasicBlock>, v: int, from: nat)
    requires from <= |blocks|
    ensures var r := FindBlockOfVal(blocks, v, from); r.Some? ==> r.value < |blocks|
    decreases |blocks| - from
  {
    if from < |blocks| { FindBound(blocks, v, from + 1); }
  }

  lemma {:induction false} FindInRange(blocks: seq<BasicBlock>, pending: seq<Pending>, edges: seq<CfgEdge>, a: nat,
        b: nat)
    requires Settled(blocks, pending, edges) && HasEdge(edges, a, b)
    ensures b < |blocks|
  {
    var i :| 0 <= i < |edges| && edges[i].from == a && edges[i].to == b;
    FindBound(blocks, pending[i].to, 0);
  }

  /** A jump leads from a walked block to a walked block. */
  lemma {:induction false} JumpIsWalked(code: seq<Inst>, edges: seq<CfgEdge>, a: nat, b: nat)
    requires IsGraph(code, edges) && Walked(edges, a) && BlockJump(code, a, b)
    ensures Walked(edges, b)
  {
    GraphIsExact(code, edges, a, b);
    OutgoingIs(edges, a, b);
    ReachesNext(CfgOf(edges), 0, a, b);
  }

  lemma {:induction false} LoweredIsInside(code: seq<Inst>, b: Block, ns: nat)
    requires Lowered(code, b, ns)
    ensures Inside(code)
  {
    LoweredIsLocal(code, b, ns);
    forall k, t | 0 <= k < |code| && Connects(code[k], t) ensures 0 <= t < |code| {
      assert Lands(code, k, 0, |code|, OneTestBlock(b));
    }
  }

  // ---- the kinds of edges ----

  /** Instruction `k` stands at position `m` of block `b`. */
  predicate PlacedAt(code: seq<Inst>, b: nat, m: nat, k: nat) {
    var blocks := Split(Numbered(code));
    k < |code| && b < |blocks| && m < |blocks[b]| && blocks[b][m] == FlatInst(code[k], k)
  }

  /** Every edge comes from the instruction that its kind names, and goes to the block that this one jumps to. */
  lemma {:induction false} EdgeSource(code: seq<Inst>, edges: seq<CfgEdge>, j: nat) returns (k: nat, to: nat)
    requires IsGraph(code, edges) && j < |edges|
    ensures PlacedAt(code, edges[j].from, edges[j].kind.at, k) && BlockOf(code, k) == edges[j].from
    ensures to < |code| && BlockOf(code, to) == edges[j].to && OriginOf(code[k], edges[j].kind, to)
    ensures edges[j].kind.OrElse? ==> edges[j].kind.at > 0 && k > 0 && NoFalseEdge(code[k - 1])
    ensures edges[j].kind.Direct? && edges[j].kind.at > 0 ==> k > 0 && !NoFalseEdge(code[k - 1])
  {
    var blocks := Split(Numbered(code));
    var p := AllEdges(blocks, |blocks|)[j];
    EdgeOrigin(blocks, |blocks|, p);
    EdgeShape(blocks[p.from], p.from, p);
    k := IndexOf(code, p.from, p.kind.at);
    FindIsBlockOf(code, p.to);
    to := p.to;
  }

  lemma {:induction false} IndexOf(code: seq<Inst>, b: nat, m: nat) returns (k: nat)
    requires b < |Split(Numbered(code))| && m < |Split(Numbered(code))[b]|
    ensures PlacedAt(code, b, m, k) && BlockOf(code, k) == b
    ensures m > 0 ==> k > 0 && code[k - 1] == Split(Numbered(code))[b][m - 1].op
  {
    var block := Split(Numbered(code))[b];
    WholeIsBlocked(code);
    assert Fits(code, |code|, block, b, m);
    k := block[0].value + m;
    if m > 0 { assert Fits(code, |code|, block, b, m - 1); }
  }

  /** The outcome of the test that an edge stands for; a `Br` has no test. */
  predicate TakesEdge(i: Inst, ops: Ops, st: State, kind: EdgeKind) {
    match kind
    case IfTrue(_) => i.If? && i.test in st.values && st.values[i.test] == ops.trueV
    case IfFalse(_) =>
      i.If? && i.test in st.values && st.values[i.test] == ops.falseV && st.values[i.test] != ops.trueV
    case _ => true
  }

  /** From the origin of an edge, on its outcome, the machine goes into its target block. */
  lemma {:induction false} KindsAreOutcomes(code: seq<Inst>, edges: seq<CfgEdge>, j: nat, ops: Ops, st: State)
    requires IsGraph(code, edges) && j < |edges| && PlacedAt(code, edges[j].from, edges[j].kind.at, st.ip)
    requires TakesEdge(code[st.ip], ops, st, edges[j].kind)
    ensures var s := Step(code, ops, st); s.Next? && s.st.ip < |code| && BlockOf(code, s.st.ip) == edges[j].to
  {
    var k, to := EdgeSource(code, edges, j);
  }

  /** Lowered code has no edge for a `Br` behind an `If` without a false edge. */
  lemma {:induction false} NoOrElseEdges(code: seq<Inst>, b: Block, ns: nat, edges: seq<CfgEdge>, j: nat)
    requires Lowered(code, b, ns) && RegularBlock(b, false) && IsGraph(code, edges) && j < |edges|
    ensures !edges[j].kind.OrElse?
  {
    LoweredIsStraight(code, b, ns, false);
    var k, to := EdgeSource(code, edges, j);
    assert k > 0 ==> StraightAt(code, k - 1, false);
  }

  // ---- steps that the graph has no edge for ----

  /** The next step falls from a one-way `If` into its jump target, or takes a phi jump. */
  ghost predicate Slips(code: seq<Inst>, ops: Ops, st: State) {
    && st.ip < |code| && Step(code, ops, st).Next?
    && (code[st.ip].PhiJump? || (OneWay(code[st.ip]) && Step(code, ops, st).st.ip == st.ip + 1))
  }

  /** Step number `i` of the run slips. */
  ghost predicate SlipsAt(code: seq<Inst>, ops: Ops, st: State, i: nat) {
    var r := Run(code, ops, st, i);
    r.Running? && Slips(code, ops, r.st)
  }

  /** A step that does not slip stays in its block or follows an edge of the graph. */
  lemma {:induction false} StepFollows(code: seq<Inst>, ops: Ops, st: State)
    requires Straight(code, 0, |code|, false) && st.ip < |code| && !Slips(code, ops, st)
    ensures var s := Step(code, ops, st);
      s.Next? && s.st.ip < |code| ==>
        var a, b := BlockOf(code, st.ip), BlockOf(code, s.st.ip);
        a == b || BlockJump(code, a, b)
  {
    var s := Step(code, ops, st);
    assert StraightAt(code, st.ip, false);
    if s.Next? && s.st.ip < |code| {
      if Connects(code[st.ip], s.st.ip) {
        assert BlockJump(code, BlockOf(code, st.ip), BlockOf(code, s.st.ip));
      } else {
        assert s.st.ip == st.ip + 1 && StraightAt(code, s.st.ip, false);
      }
    }
  }

  lemma {:induction false} StepIsWalked(code: seq<Inst>, edges: seq<CfgEdge>, ops: Ops, st: State)
    requires Straight(code, 0, |code|, false) && IsGraph(code, edges)
    requires st.ip < |code| && !Slips(code, ops, st) && Walked(edges, BlockOf(code, st.ip))
    ensures var s := Step(code, ops, st); s.Next? && s.st.ip < |code| ==> Walked(edges, BlockOf(code, s.st.ip))
  {
    var s := Step(code, ops, st);
    if s.Next? && s.st.ip < |code| {
      StepFollows(code, ops, st);
      if BlockOf(code, s.st.ip) != BlockOf(code, st.ip) {
        JumpIsWalked(code, edges, BlockOf(code, st.ip), BlockOf(code, s.st.ip));
      }
    }
  }

  /** The run is at no instruction, or at one in a walked block. */
  ghost predicate InWalk(code: seq<Inst>, edges: seq<CfgEdge>, r: RunResult) {
    r.Running? && r.st.ip < |code| ==> Walked(edges, BlockOf(code, r.st.ip))
  }

  lemma {:induction false} NoSlipStays(code: seq<Inst>, edges: seq<CfgEdge>, ops: Ops, st: State, n: nat)
    requires Straight(code, 0, |code|, false) && IsGraph(code, edges)
    requires InWalk(code, edges, Running(st)) && forall i: nat :: i < n ==> !SlipsAt(code, ops, st, i)
    ensures InWalk(code, edges, Run(code, ops, st, n))
    decreases n
  {
    var s := Step(code, ops, st);
    if n > 0 && s.Next? {
      assert st.ip < |code| && !Slips(code, ops, st) by { assert !SlipsAt(code, ops, st, 0); }
      StepIsWalked(code, edges, ops, st);
      forall i: nat | i < n - 1 ensures !SlipsAt(code, ops, s.st, i) {
        assert !SlipsAt(code, ops, st, i + 1);
      }
      NoSlipStays(code, edges, ops, s.st, n - 1);
    }
  }

  // ---- where a slip leads is never walked ----

  /** Two heads are never in the same block. */
  lemma {:induction false} HeadsDiffer(code: seq<Inst>, j: nat, k: nat)
    requires j < k < |code| && IsHead(code[k])
    ensures BlockOf(code, j) < BlockOf(code, k)
  {
    BlockOfGrows(code, j, k - 1);
  }

  lemma {:induction false} BlockOfGrows(code: seq<Inst>, j: nat, k: nat)
    requires j <= k < |code|
    ensures BlockOf(code, j) <= BlockOf(code, k)
    decreases k
  {
    if j < k { BlockOfGrows(code, j, k - 1); }
  }

  /** The head of the true arm of a ternary, or of the block where its arms meet. */
  predicate Unlinked(code: seq<Inst>, k: nat) {
    0 < k < |code| && (code[k].PhiRecv? || (code[k].JumpTarget? && OneWay(code[k - 1])))
  }

  /**
   In any lowered sequence, the walk comes neither to the true arm of a ternary
   nor to the block where its arms meet.
   */
  lemma {:induction false} TernaryIsNeverWalked(code: seq<Inst>, b: Block, ns: nat, edges: seq<CfgEdge>, k: nat)
    requires Lowered(code, b, ns) && IsGraph(code, edges) && Unlinked(code, k)
    ensures !Walked(edges, BlockOf(code, k))
  {
    var g, join := CfgOf(edges), BlockOf(code, k);
    HeadsDiffer(code, 0, k);
    LoweredIsLocal(code, b, ns);
    forall x: nat, y: nat | x != join && y in g(x) ensures y != join {
      OutgoingIs(edges, x, y);
      GraphIsExact(code, edges, x, y);
      if y == join { NoWayIn(code, k, x, OneTestBlock(b)); }
    }
    if Walked(edges, join) { ReachableInherits(g, (x: nat) => x != join, 0, join); }
  }

  lemma {:induction false} NoWayIn(code: seq<Inst>, k: nat, x: nat, plain: bool)
    requires Unlinked(code, k) && Local(code, 0, |code|, plain) && x != BlockOf(code, k)
    ensures !BlockJump(code, x, BlockOf(code, k))
  {
    forall j, t | 0 <= j < |code| && 0 <= t < |code| && Connects(code[j], t) && BlockOf(code, j) == x
      ensures BlockOf(code, t) != BlockOf(code, k)
    {
      assert Lands(code, j, 0, |code|, plain);
      if Door(code, t) {
        assert t != k;
        if t < k { HeadsDiffer(code, t, k); } else { HeadsDiffer(code, k, t); }
      }
    }
  }

  lemma {:induction false} SlipLeavesWalk(code: seq<Inst>, b: Block, ns: nat, edges: seq<CfgEdge>, ops: Ops, st: State)
    requires Lowered(code, b, ns) && Straight(code, 0, |code|, false) && IsGraph(code, edges)
    requires Slips(code, ops, st)
    ensures !InWalk(code, edges, Running(Step(code, ops, st).st))
  {
    var to := Step(code, ops, st).st.ip;
    LoweredIsLocal(code, b, ns);
    assert Lands(code, st.ip, 0, |code|, OneTestBlock(b));
    assert StraightAt(code, st.ip, false);
    if code[st.ip].PhiJump? { assert JumpsTo(code[st.ip], to); }
    TernaryIsNeverWalked(code, b, ns, edges, to);
  }

  // ---- exactly when a run stays in the walk ----

  /** The first `n` steps stay in walked blocks exactly when none of them slips. */
  lemma {:induction false} WalkIsExact(code: seq<Inst>, b: Block, ns: nat, edges: seq<CfgEdge>, ops: Ops, st: State,
        n: nat)
    requires Lowered(code, b, ns) && RegularBlock(b, false) && IsGraph(code, edges) && st.ip == 0
    ensures (forall i: nat :: i <= n ==> InWalk(code, edges, Run(code, ops, st, i)))
       <==> (forall i: nat :: i < n ==> !SlipsAt(code, ops, st, i))
  {
    LoweredIsStraight(code, b, ns, false);
    ReachesItself(CfgOf(edges), 0);
    if forall i: nat :: i < n ==> !SlipsAt(code, ops, st, i) {
      forall i: nat | i <= n ensures InWalk(code, edges, Run(code, ops, st, i)) {
        NoSlipStays(code, edges, ops, st, i);
      }
    } else {
      var i: nat :| i < n && SlipsAt(code, ops, st, i);
      var c := Run(code, ops, st, i).st;
      SlipLeavesWalk(code, b, ns, edges, ops, c);
      NextRun(code, ops, st, i);
      assert !InWalk(code, edges, Run(code, ops, st, i + 1));
    }
  }

  lemma {:induction false} NextRun(code: seq<Inst>, ops: Ops, st: State, i: nat)
    requires var r := Run(code, ops, st, i); r.Running? && Step(code, ops, r.st).Next?
    ensures Run(code, ops, st, i + 1) == Running(Step(code, ops, Run(code, ops, st, i).st).st)
    decreases i
  {
    if i > 0 { NextRun(code, ops, Step(code, ops, st).st, i - 1); }
  }

  /** Every instruction that a run comes to lies in a walked block. */
  ghost predicate Covers(code: seq<Inst>, edges: seq<CfgEdge>) {
    forall ops, st: State, n: nat :: st.ip == 0 ==> InWalk(code, edges, Run(code, ops, st, n))
  }

  /** The walk covers every run exactly when no run slips. */
  lemma {:induction false} CoversExactly(code: seq<Inst>, b: Block, ns: nat, edges: seq<CfgEdge>)
    requires Lowered(code, b, ns) && RegularBlock(b, false) && IsGraph(code, edges)
    ensures Covers(code, edges) <==> forall ops, st: State, n: nat :: st.ip == 0 ==> !SlipsAt(code, ops, st, n)
  {
    forall ops, st: State, n: nat | st.ip == 0 && SlipsAt(code, ops, st, n) ensures !Covers(code, edges) {
      WalkIsExact(code, b, ns, edges, ops, st, n + 1);
    }
    if forall ops, st: State, n: nat :: st.ip == 0 ==> !SlipsAt(code, ops, st, n) {
      forall ops, st: State, n: nat | st.ip == 0 ensures InWalk(code, edges, Run(code, ops, st, n)) {
        WalkIsExact(code, b, ns, edges, ops, st, n);
      }
    }
  }

  /** Without ternaries the walk covers every run. */
  lemma {:induction false} WalkCovers(code: seq<Inst>, b: Block, ns: nat, edges: seq<CfgEdge>)
    requires Lowered(code, b, ns) && RegularBlock(b, true) && IsGraph(code, edges)
    ensures Covers(code, edges)
  {
    LoweredIsStraight(code, b, ns, true);
    StraightIsCovered(code, edges);
  }

  lemma {:induction false} StraightIsCovered(code: seq<Inst>, edges: seq<CfgEdge>)
    requires Straight(code, 0, |code|, true) && IsGraph(code, edges)
    ensures Covers(code, edges)
  {
    FreeIsStraight(code);
    ReachesItself(CfgOf(edges), 0);
    forall ops, st: State, n: nat | st.ip == 0 ensures InWalk(code, edges, Run(code, ops, st, n)) {
      forall i: nat | i < n ensures !SlipsAt(code, ops, st, i) {
        var r := Run(code, ops, st, i);
        if r.Running? { NeverSlips(code, ops, r.st); }
      }
      NoSlipStays(code, edges, ops, st, n);
    }
  }

  lemma {:induction false} FreeIsStraight(code: seq<Inst>)
    requires Straight(code, 0, |code|, true)
    ensures Straight(code, 0, |code|, false)
  {
    forall k | 0 <= k < |code| ensures StraightAt(code, k, false) {
      assert StraightAt(code, k, true);
    }
  }

  lemma {:induction false} NeverSlips(code: seq<Inst>, ops: Ops, st: State)
    requires Straight(code, 0, |code|, true)
    ensures !Slips(code, ops, st)
  {
    if st.ip < |code| { assert StraightAt(code, st.ip, true); }
  }
}
