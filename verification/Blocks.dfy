/**
 Basic blocks and their control-flow graph
 (montyc_driver/src/typeck/mod.rs, montyc_driver/src/typeck/block_cfg.rs).
 */
module Blocks {
  import opened RawInst
  import opened FlatCode
  import opened Targets

  type BasicBlock = seq<FlatInst>

  /** The instructions of a finished sequence, each with its index. */
  function Numbered(code: seq<Inst>): (s: seq<FlatInst>)
    ensures |s| == |code|
    ensures forall i :: 0 <= i < |s| ==> s[i] == FlatInst(code[i], i)
  {
    seq(|code|, i requires 0 <= i < |code| => FlatInst(code[i], i))
  }

  // ---- flatseq_to_blocks ----

  /** Put one more instruction where it belongs: a head opens a block. */
  function Place(blocks: seq<BasicBlock>, i: FlatInst): (r: seq<BasicBlock>) {
    if |blocks| == 0 || IsHead(i.op) then blocks + [[i]]
    else blocks[|blocks| - 1 := blocks[|blocks| - 1] + [i]]
  }

  function Split(s: seq<FlatInst>): seq<BasicBlock> {
    if |s| == 0 then [] else Place(Split(s[..|s| - 1]), s[|s| - 1])
  }

  method FlatSeqToBlocks(insts: seq<FlatInst>) returns (blocks: seq<BasicBlock>)
    ensures blocks == Split(insts)
  {
    blocks := [];
    for i := 0 to |insts|
      invariant blocks == Split(insts[..i])
    {
      blocks := Place(blocks, insts[i]);
      assert insts[..i + 1][..i] == insts[..i];
    }
    assert insts[..|insts|] == insts;
  }

  /** The number of the block that holds instruction `k`. */
  function BlockOf(code: seq<Inst>, k: nat): nat
    requires k < |code|
  {
    if k == 0 then 0 else BlockOf(code, k - 1) + if IsHead(code[k]) then 1 else 0
  }

  /**
   `blocks` holds the first `n` instructions: each block is a run of
   consecutive instructions, instruction `k` is in block `BlockOf(code, k)`,
   and heads are found only at the start of blocks.
   */
  ghost predicate Blocked(code: seq<Inst>, n: nat, blocks: seq<BasicBlock>)
    requires n <= |code|
  {
    && |blocks| == (if n == 0 then 0 else BlockOf(code, n - 1) + 1)
    && (forall b :: 0 <= b < |blocks| ==> |blocks[b]| > 0)
    && (forall b, i :: 0 <= b < |blocks| && 0 <= i < |blocks[b]| ==> Fits(code, n, blocks[b], b, i))
    && (forall k :: 0 <= k < n ==> Holds(blocks, BlockOf(code, k), k))
  }

  /** Position `i` of block `b` holds the right instruction. */
  ghost predicate Fits(code: seq<Inst>, n: nat, block: BasicBlock, b: nat, i: nat)
    requires n <= |code| && i < |block|
  {
    var k := block[0].value + i;
    k < n && block[i] == FlatInst(code[k], k) && BlockOf(code, k) == b && (i > 0 ==> !IsHead(code[k]))
  }

  /** Instruction `k` is in block `b`. */
  predicate Holds(blocks: seq<BasicBlock>, b: nat, k: nat) {
    b < |blocks| && |blocks[b]| > 0 && blocks[b][0].value <= k < blocks[b][0].value + |blocks[b]|
  }

  lemma {:induction false} SplitIsBlocked(code: seq<Inst>, n: nat)
    requires n <= |code|
    ensures Blocked(code, n, Split(Numbered(code)[..n]))
    decreases n
  {
    if n > 0 {
      SplitIsBlocked(code, n - 1);
      var s := Numbered(code)[..n];
      assert s[..n - 1] == Numbered(code)[..n - 1];
      PlaceIsBlocked(code, n - 1, Split(s[..n - 1]));
    }
  }

  lemma {:induction false} PlaceIsBlocked(code: seq<Inst>, n: nat, blocks: seq<BasicBlock>)
    requires n < |code| && Blocked(code, n, blocks)
    ensures Blocked(code, n + 1, Place(blocks, FlatInst(code[n], n)))
  {
    var x := FlatInst(code[n], n);
    var r, last := Place(blocks, x), |blocks| - 1;
    var m := n + 1;
    if |blocks| > 0 && !IsHead(code[n]) {
      LastBlockEnds(code, n, blocks);
      assert r[last] == blocks[last] + [x];
    }
    forall b, i | 0 <= b < |r| && 0 <= i < |r[b]| ensures Fits(code, m, r[b], b, i) {
      if b < |blocks| && i < |blocks[b]| { assert Fits(code, n, blocks[b], b, i); }
    }
    forall k | 0 <= k <= n ensures Holds(r, BlockOf(code, k), k) {
      if k < n { assert Holds(blocks, BlockOf(code, k), k); }
    }
  }

  /** The last block runs up to the last instruction. */
  lemma {:induction false} LastBlockEnds(code: seq<Inst>, n: nat, blocks: seq<BasicBlock>)
    requires 0 < n <= |code| && Blocked(code, n, blocks)
    ensures var last := blocks[|blocks| - 1]; last[0].value + |last| == n
  {
    var last := blocks[|blocks| - 1];
    assert Holds(blocks, BlockOf(code, n - 1), n - 1);
    assert Fits(code, n, last, |blocks| - 1, |last| - 1);
  }

  lemma {:induction false} WholeIsBlocked(code: seq<Inst>)
    ensures Blocked(code, |code|, Split(Numbered(code)))
  {
    SplitIsBlocked(code, |code|);
    assert Numbered(code)[..|code|] == Numbered(code);
  }

  /** Nothing is lost or reordered: the blocks, one after the other, are the sequence. */
  function Joined(blocks: seq<BasicBlock>): seq<FlatInst> {
    if |blocks| == 0 then [] else Joined(blocks[..|blocks| - 1]) + blocks[|blocks| - 1]
  }

  lemma {:induction false} SplitJoins(s: seq<FlatInst>)
    ensures Joined(Split(s)) == s
    decreases |s|
  {
    if |s| > 0 {
      var front, i := s[..|s| - 1], s[|s| - 1];
      SplitJoins(front);
      var blocks := Split(front);
      var r := Place(blocks, i);
      if |blocks| == 0 || IsHead(i.op) {
        assert r[..|r| - 1] == blocks;
      } else {
        assert r[..|r| - 1] == blocks[..|blocks| - 1];
        assert Joined(r) == Joined(blocks) + [i];
      }
      assert s == front + [i];
    }
  }

  // ---- find_block_of_val, find_inst ----

  predicate HasValue(block: BasicBlock, v: int) {
    exists i :: 0 <= i < |block| && block[i].value == v
  }

  /** The first block that holds an instruction with this slot. */
  function FindBlockOfVal(blocks: seq<BasicBlock>, v: int, from: nat): (r: Option<nat>)
    requires from <= |blocks|
    decreases |blocks| - from, v
  {
    if from == |blocks| then None
    else if HasValue(blocks[from], v) then Some(from)
    else FindBlockOfVal(blocks, v, from + 1)
  }

  lemma {:induction false} FindFirst(blocks: seq<BasicBlock>, v: int, from: nat, b: nat)
    requires from <= b < |blocks| && HasValue(blocks[b], v)
    requires forall c :: from <= c < |blocks| && HasValue(blocks[c], v) ==> c == b
    ensures FindBlockOfVal(blocks, v, from) == Some(b)
    decreases |blocks| - from
  {
    if !HasValue(blocks[from], v) { FindFirst(blocks, v, from + 1, b); }
  }

  lemma {:induction false} FindNone(blocks: seq<BasicBlock>, v: int, from: nat)
    requires from <= |blocks| && forall c :: from <= c < |blocks| ==> !HasValue(blocks[c], v)
    ensures FindBlockOfVal(blocks, v, from) == None
    decreases |blocks| - from
  {
    if from < |blocks| { FindNone(blocks, v, from + 1); }
  }

  /** In the blocks of a sequence the search finds exactly the block of an instruction. */
  lemma {:induction false} FindIsBlockOf(code: seq<Inst>, v: int)
    ensures FindBlockOfVal(Split(Numbered(code)), v, 0) == if 0 <= v < |code| then Some(BlockOf(code, v)) else None
  {
    var blocks := Split(Numbered(code));
    WholeIsBlocked(code);
    if 0 <= v < |code| {
      var b := BlockOf(code, v);
      assert Holds(blocks, b, v);
      assert Fits(code, |code|, blocks[b], b, v - blocks[b][0].value);
      assert blocks[b][v - blocks[b][0].value].value == v;
      forall c | 0 <= c < |blocks| && HasValue(blocks[c], v) ensures c == b {
        var i :| 0 <= i < |blocks[c]| && blocks[c][i].value == v;
        assert Fits(code, |code|, blocks[c], c, i);
      }
      FindFirst(blocks, v, 0, b);
    } else {
      forall c | 0 <= c < |blocks| ensures !HasValue(blocks[c], v) {
        forall i | 0 <= i < |blocks[c]| ensures blocks[c][i].value != v { assert Fits(code, |code|, blocks[c], c, i); }
      }
      FindNone(blocks, v, 0);
    }
  }

  // ---- new_from_blocks ----

  datatype EdgeKind = IfTrue(at: nat) | IfFalse(at: nat) | OrElse(at: nat) | Direct(at: nat)

  /** An edge whose target is still an instruction. */
  datatype Pending = Pending(from: nat, to: int, kind: EdgeKind)

  datatype CfgEdge = CfgEdge(from: nat, to: nat, kind: EdgeKind)

  function OptEdge(b: nat, to: Option<int>, kind: EdgeKind): seq<Pending> {
    if to.Some? then [Pending(b, to.value, kind)] else []
  }

  /** The edges that instruction `i` of block `b` calls for; phi jumps call for none. */
  function InstEdges(block: BasicBlock, b: nat, i: nat): seq<Pending>
    requires i < |block|
  {
    match block[i].op
    case If(_, truthy, falsey) => OptEdge(b, truthy, IfTrue(i)) + OptEdge(b, falsey, IfFalse(i))
    case Br(to) =>
      if i > 0 && block[i - 1].op.If? && block[i - 1].op.falsey.None? then [Pending(b, to, OrElse(i))]
      else [Pending(b, to, Direct(i))]
    case _ => []
  }

  function BlockEdges(block: BasicBlock, b: nat, n: nat): seq<Pending>
    requires n <= |block|
  {
    if n == 0 then [] else BlockEdges(block, b, n - 1) + InstEdges(block, b, n - 1)
  }

  function AllEdges(blocks: seq<BasicBlock>, n: nat): seq<Pending>
    requires n <= |blocks|
  {
    if n == 0 then [] else AllEdges(blocks, n - 1) + BlockEdges(blocks[n - 1], n - 1, |blocks[n - 1]|)
  }

  /** `edges` are the pending edges with their target instructions replaced by blocks. */
  ghost predicate Settled(blocks: seq<BasicBlock>, pending: seq<Pending>, edges: seq<CfgEdge>) {
    && |edges| == |pending|
    && forall i :: 0 <= i < |edges| ==>
         && FindBlockOfVal(blocks, pending[i].to, 0) == Some(edges[i].to)
         && edges[i].from == pending[i].from && edges[i].kind == pending[i].kind
  }

  lemma {:induction false} JoinAfter<T>(a: seq<T>, b: seq<T>, c: seq<T>)
    ensures (a + b) + c == a + (b + c)
  {
  }

  /** The edges that all instructions of all blocks call for. */
  method CollectEdges(blocks: seq<BasicBlock>) returns (pending: seq<Pending>)
    ensures pending == AllEdges(blocks, |blocks|)
  {
    pending := [];
    for b := 0 to |blocks|
      invariant pending == AllEdges(blocks, b)
    {
      for i := 0 to |blocks[b]|
        invariant pending == AllEdges(blocks, b) + BlockEdges(blocks[b], b, i)
      {
        var more := InstEdges(blocks[b], b, i);
        assert BlockEdges(blocks[b], b, i + 1) == BlockEdges(blocks[b], b, i) + more;
        JoinAfter(AllEdges(blocks, b), BlockEdges(blocks[b], b, i), more);
        pending := pending + more;
      }
    }
  }

  /** Build the graph; a target that no block holds is a panic. */
  method NewFromBlocks(blocks: seq<BasicBlock>) returns (r: Option<seq<CfgEdge>>)
    ensures r.Some? ==> Settled(blocks, AllEdges(blocks, |blocks|), r.value)
    ensures r.None? <==> exists p :: p in AllEdges(blocks, |blocks|) && FindBlockOfVal(blocks, p.to, 0) == None
  {
    var pending := CollectEdges(blocks);
    var edges: seq<CfgEdge> := [];
    for i := 0 to |pending|
      invariant Settled(blocks, pending[..i], edges)
    {
      var to := FindBlockOfVal(blocks, pending[i].to, 0);
      if to.None? { return None; }
      edges := edges + [CfgEdge(pending[i].from, to.value, pending[i].kind)];
    }
    assert pending[..|pending|] == pending;
    return Some(edges);
  }

  /** A jump for which the graph has an edge. */
  predicate Connects(i: Inst, t: int) {
    JumpsTo(i, t) && !i.PhiJump?
  }

  lemma {:induction false} InInstEdges(block: BasicBlock, b: nat, i: nat, t: int) returns (kind: EdgeKind)
    requires i < |block| && Connects(block[i].op, t)
    ensures Pending(b, t, kind) in InstEdges(block, b, i)
  {
    var es := InstEdges(block, b, i);
    match block[i].op
    case If(_, truthy, _) =>
      kind := if truthy == Some(t) then IfTrue(i) else IfFalse(i);
      assert Pending(b, t, kind) in es;
    case Br(_) =>
      assert es[0].from == b && es[0].to == t;
      kind := es[0].kind;
  }

  lemma {:induction false} InBlockEdges(block: BasicBlock, b: nat, n: nat, i: nat, t: int) returns (kind: EdgeKind)
    requires i < n <= |block| && Connects(block[i].op, t)
    ensures Pending(b, t, kind) in BlockEdges(block, b, n)
    decreases n
  {
    if i < n - 1 {
      kind := InBlockEdges(block, b, n - 1, i, t);
    } else {
      kind := InInstEdges(block, b, i, t);
    }
  }

  lemma {:induction false} FromBlockEdges(block: BasicBlock, b: nat, n: nat, p: Pending) returns (i: nat)
    requires n <= |block| && p in BlockEdges(block, b, n)
    ensures i < n && p.from == b && Connects(block[i].op, p.to)
    decreases n
  {
    if p in BlockEdges(block, b, n - 1) { i := FromBlockEdges(block, b, n - 1, p); } else { i := n - 1; }
  }

  lemma {:induction false} InAllEdges(blocks: seq<BasicBlock>, n: nat, b: nat, i: nat, t: int) returns (kind: EdgeKind)
    requires b < n <= |blocks| && i < |blocks[b]| && Connects(blocks[b][i].op, t)
    ensures Pending(b, t, kind) in AllEdges(blocks, n)
    decreases n
  {
    var front, back := AllEdges(blocks, n - 1), BlockEdges(blocks[n - 1], n - 1, |blocks[n - 1]|);
    assert AllEdges(blocks, n) == front + back;
    if b < n - 1 {
      kind := InAllEdges(blocks, n - 1, b, i, t);
      assert Pending(b, t, kind) in front;
    } else {
      kind := InBlockEdges(blocks[b], b, |blocks[b]|, i, t);
      assert Pending(b, t, kind) in back;
    }
  }

  lemma {:induction false} FromAllEdges(blocks: seq<BasicBlock>, n: nat, p: Pending) returns (b: nat, i: nat)
    requires n <= |blocks| && p in AllEdges(blocks, n)
    ensures b < n && i < |blocks[b]| && p.from == b && Connects(blocks[b][i].op, p.to)
    decreases n
  {
    if p in AllEdges(blocks, n - 1) {
      b, i := FromAllEdges(blocks, n - 1, p);
    } else {
      b := n - 1;
      i := FromBlockEdges(blocks[b], b, |blocks[b]|, p);
    }
  }

  /** The edge is one that the instruction named by its kind calls for. */
  predicate CalledFor(blocks: seq<BasicBlock>, p: Pending) {
    p.from < |blocks| && p.kind.at < |blocks[p.from]| && p in InstEdges(blocks[p.from], p.from, p.kind.at)
  }

  lemma {:induction false} EdgeOrigin(blocks: seq<BasicBlock>, n: nat, p: Pending)
    requires n <= |blocks| && p in AllEdges(blocks, n)
    ensures CalledFor(blocks, p) == true
    decreases n
  {
    var front, back := AllEdges(blocks, n - 1), BlockEdges(blocks[n - 1], n - 1, |blocks[n - 1]|);
    assert AllEdges(blocks, n) == front + back;
    if p in front { EdgeOrigin(blocks, n - 1, p); } else { BlockEdgeOrigin(blocks[n - 1], n - 1, |blocks[n - 1]|, p); }
  }

  lemma {:induction false} BlockEdgeOrigin(block: BasicBlock, b: nat, n: nat, p: Pending)
    requires n <= |block| && p in BlockEdges(block, b, n)
    ensures p.from == b && p.kind.at < n && p in InstEdges(block, b, p.kind.at)
    decreases n
  {
    if p in BlockEdges(block, b, n - 1) { BlockEdgeOrigin(block, b, n - 1, p); }
  }

  /** What the kind of an edge says about the instruction it comes from, and where that one jumps. */
  predicate OriginOf(i: Inst, kind: EdgeKind, to: int) {
    match kind
    case IfTrue(_) => i.If? && i.truthy == Some(to)
    case IfFalse(_) => i.If? && i.falsey == Some(to)
    case _ => i == Br(to)
  }

  /** An `If` that has no false edge. */
  predicate NoFalseEdge(i: Inst) {
    i.If? && i.falsey.None?
  }

  /** A `Br` behind an `If` without a false edge is told from any other. */
  lemma {:induction false} EdgeShape(block: BasicBlock, b: nat, p: Pending)
    requires p.kind.at < |block| && p in InstEdges(block, b, p.kind.at)
    ensures OriginOf(block[p.kind.at].op, p.kind, p.to)
    ensures p.kind.OrElse? ==> p.kind.at > 0 && NoFalseEdge(block[p.kind.at - 1].op)
    ensures p.kind.Direct? && p.kind.at > 0 ==> !NoFalseEdge(block[p.kind.at - 1].op)
  {
  }

  ghost predicate HasEdge(edges: seq<CfgEdge>, a: nat, b: nat) {
    exists i :: 0 <= i < |edges| && edges[i].from == a && edges[i].to == b
  }

  /** Some instruction of block `a` jumps into block `b`. */
  ghost predicate BlockJump(code: seq<Inst>, a: nat, b: nat) {
    exists k, t :: 0 <= k < |code| && 0 <= t < |code| && Connects(code[k], t) && BlockOf(code, k) == a &&
      BlockOf(code, t) == b
  }

  lemma {:induction false} EdgeIsJump(code: seq<Inst>, edges: seq<CfgEdge>, j: nat)
    requires var blocks := Split(Numbered(code)); Settled(blocks, AllEdges(blocks, |blocks|), edges)
    requires j < |edges|
    ensures BlockJump(code, edges[j].from, edges[j].to)
  {
    var blocks := Split(Numbered(code));
    var p := AllEdges(blocks, |blocks|)[j];
    WholeIsBlocked(code);
    var c, i := FromAllEdges(blocks, |blocks|, p);
    assert Fits(code, |code|, blocks[c], c, i);
    FindIsBlockOf(code, p.to);
    assert Connects(code[blocks[c][0].value + i], p.to);
  }

  /** Where instruction `k` stands among the blocks. */
  lemma {:induction false} PositionOf(code: seq<Inst>, k: nat) returns (m: nat)
    requires k < |code|
    ensures var blocks, b := Split(Numbered(code)), BlockOf(code, k);
      b < |blocks| && m < |blocks[b]| && blocks[b][m] == FlatInst(code[k], k)
  {
    var blocks, b := Split(Numbered(code)), BlockOf(code, k);
    WholeIsBlocked(code);
    assert Holds(blocks, b, k);
    m := k - blocks[b][0].value;
    assert Fits(code, |code|, blocks[b], b, m);
  }

  /** Every jump is among the pending edges. */
  lemma {:induction false} JumpIsPending(code: seq<Inst>, k: nat, t: int) returns (kind: EdgeKind)
    requires k < |code| && Connects(code[k], t)
    ensures var blocks := Split(Numbered(code)); Pending(BlockOf(code, k), t, kind) in AllEdges(blocks, |blocks|)
  {
    var m := PositionOf(code, k);
    var blocks := Split(Numbered(code));
    kind := InAllEdges(blocks, |blocks|, BlockOf(code, k), m, t);
  }

  lemma {:induction false} JumpIsEdge(code: seq<Inst>, edges: seq<CfgEdge>, k: nat, t: nat)
    requires var blocks := Split(Numbered(code)); Settled(blocks, AllEdges(blocks, |blocks|), edges)
    requires k < |code| && t < |code| && Connects(code[k], t)
    ensures HasEdge(edges, BlockOf(code, k), BlockOf(code, t))
  {
    var kind := JumpIsPending(code, k, t);
    FindIsBlockOf(code, t);
    var blocks := Split(Numbered(code));
    SettledEdge(blocks, AllEdges(blocks, |blocks|), edges, Pending(BlockOf(code, k), t, kind), BlockOf(code, t));
  }

  lemma {:induction false} SettledEdge(blocks: seq<BasicBlock>, pending: seq<Pending>, edges: seq<CfgEdge>, p: Pending,
        to: nat)
    requires Settled(blocks, pending, edges) && p in pending && FindBlockOfVal(blocks, p.to, 0) == Some(to)
    ensures HasEdge(edges, p.from, to)
  {
    var j :| 0 <= j < |pending| && pending[j] == p;
    assert edges[j].from == p.from && edges[j].to == to;
  }

  /** The graph of a sequence has exactly the edges that its jumps call for. */
  lemma {:induction false} GraphIsExact(code: seq<Inst>, edges: seq<CfgEdge>, a: nat, b: nat)
    requires var blocks := Split(Numbered(code)); Settled(blocks, AllEdges(blocks, |blocks|), edges)
    ensures HasEdge(edges, a, b) <==> BlockJump(code, a, b)
  {
    if HasEdge(edges, a, b) {
      var j :| 0 <= j < |edges| && edges[j].from == a && edges[j].to == b;
      EdgeIsJump(code, edges, j);
    }
    if BlockJump(code, a, b) {
      var k, t :| 0 <= k < |code| && 0 <= t < |code| && Connects(code[k], t) && BlockOf(code, k) == a &&
        BlockOf(code, t) == b;
      JumpIsEdge(code, edges, k, t);
    }
  }

  /** Every jump that makes an edge stays inside the sequence. */
  ghost predicate Inside(code: seq<Inst>) {
    forall k, t :: 0 <= k < |code| && Connects(code[k], t) ==> 0 <= t < |code|
  }

  /** Building the graph of a sequence panics exactly on a jump that leaves it. */
  lemma {:induction false} GraphExists(code: seq<Inst>)
    ensures var blocks := Split(Numbered(code));
      Inside(code) <==> forall p :: p in AllEdges(blocks, |blocks|) ==> FindBlockOfVal(blocks, p.to, 0).Some?
  {
    var blocks := Split(Numbered(code));
    WholeIsBlocked(code);
    forall p | p in AllEdges(blocks, |blocks|) ensures exists k ::
      0 <= k < |code| && Connects(code[k], p.to) && (FindBlockOfVal(blocks, p.to, 0).Some? <==> 0 <= p.to < |code|)
    {
      var c, i := FromAllEdges(blocks, |blocks|, p);
      assert Fits(code, |code|, blocks[c], c, i);
      FindIsBlockOf(code, p.to);
      assert Connects(code[blocks[c][0].value + i], p.to);
    }
    forall k, t | 0 <= k < |code| && Connects(code[k], t) && !(0 <= t < |code|)
      ensures exists p :: p in AllEdges(blocks, |blocks|) && FindBlockOfVal(blocks, p.to, 0).None?
    {
      LostJump(code, k, t);
    }
  }

  lemma {:induction false} LostJump(code: seq<Inst>, k: nat, t: int)
    requires k < |code| && Connects(code[k], t) && !(0 <= t < |code|)
    ensures var blocks := Split(Numbered(code));
      exists p :: p in AllEdges(blocks, |blocks|) && FindBlockOfVal(blocks, p.to, 0).None?
  {
    var kind := JumpIsPending(code, k, t);
    FindIsBlockOf(code, t);
    assert FindBlockOfVal(Split(Numbered(code)), Pending(BlockOf(code, k), t, kind).to, 0).None?;
  }
}
