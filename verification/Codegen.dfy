/**
 Analysing blocks and the control skeleton of code generation
 (montyc_driver/src/typeck/typing_machine.rs).

 Emitted jumps name blocks instead of instructions, and a two-way `If` becomes a
 conditional jump followed by a jump.  Running the emitted jumps on the test
 outcomes of a machine run visits the same blocks in the same order, stops where
 the run ends, and returns the slot that the run returns.
 */
module Codegen {
  import opened RawInst
  import opened Ast
  import opened Machine
  import opened Lower
  import opened Correctness
  import opened FlatCode
  import opened Targets
  import opened Blocks
  import opened Worklist
  import opened Coverage

  datatype CgInst =
    | Jump(to: nat, arg: Option<nat>)
    | JumpIfTrue(to: nat, ctrl: nat)
    | JumpIfFalse(to: nat, ctrl: nat)
    | CgReturn(value: nat)

  /** `find_inst`: the block of an instruction. */
  function BlockTo(blocks: seq<BasicBlock>, t: int): Option<nat> {
    FindBlockOfVal(blocks, t, 0)
  }

  /** What one instruction contributes; a target that is not found is a panic. */
  function Control(blocks: seq<BasicBlock>, i: Inst): Option<seq<CgInst>> {
    match i
    case Br(to) => (
      match BlockTo(blocks, to)
      case None => None
      case Some(b) => Some([Jump(b, None)]))
    case If(_, None, None) => Some([])
    case If(test, None, Some(f)) => (
      match BlockTo(blocks, f)
      case None => None
      case Some(b) => Some([JumpIfFalse(b, test)]))
    case If(test, Some(t), None) => (
      match BlockTo(blocks, t)
      case None => None
      case Some(b) => Some([JumpIfTrue(b, test)]))
    case If(test, Some(t), Some(f)) => (
      match (BlockTo(blocks, t), BlockTo(blocks, f))
      case (Some(b), Some(c)) => Some([JumpIfTrue(b, test), Jump(c, None)])
      case _ => None)
    case PhiJump(recv, v) => (
      match BlockTo(blocks, recv)
      case None => None
      case Some(b) => Some([Jump(b, Some(v))]))
    case Return(v) => Some([CgReturn(v)])
    case _ => Some([])
  }

  /** The jumps of the first `n` instructions of a block. */
  function Skeleton(blocks: seq<BasicBlock>, block: BasicBlock, n: nat): Option<seq<CgInst>>
    requires n <= |block|
  {
    if n == 0 then Some([])
    else
      match (Skeleton(blocks, block, n - 1), Control(blocks, block[n - 1].op))
      case (Some(a), Some(b)) => Some(a + b)
      case _ => None
  }

  /**
   A phi jump becomes a jump to the block of its receiver, with the slot whose value
   the machine puts into the receiver.
   */
  lemma {:induction false} PhiCarriesItsValue(code: seq<Inst>, ops: Ops, st: State)
    requires st.ip < |code| && code[st.ip].PhiJump?
    requires Step(code, ops, st).Next? && Step(code, ops, st).st.ip < |code|
    ensures var c, st1 := Control(Split(Numbered(code)), code[st.ip]), Step(code, ops, st).st;
      && c.Some? && |c.value| == 1 && c.value[0].Jump? && c.value[0].to == BlockOf(code, st1.ip)
      && c.value[0].arg.Some? && c.value[0].arg.value in st.values
      && st1.ip in st1.values && st1.values[st1.ip] == st.values[c.value[0].arg.value]
  {
    FindIsBlockOf(code, code[st.ip].recv);
  }

  /** Where the jumps `c` lead on the outcome of the test in slot `ctrl`, if anywhere. */
  function Taken(c: seq<CgInst>, ctrl: nat, outcome: bool): Option<nat> {
    if |c| == 0 then None
    else
      match c[0]
      case Jump(to, _) => Some(to)
      case CgReturn(_) => None
      case JumpIfTrue(to, on) => if on == ctrl && outcome then Some(to) else Taken(c[1..], ctrl, outcome)
      case JumpIfFalse(to, on) => if on == ctrl && !outcome then Some(to) else Taken(c[1..], ctrl, outcome)
  }

  /**
   For any `If` at all, also for those that lowering never makes: on the outcome of
   its test the emitted jumps lead to the block the machine jumps to, and nowhere
   if it falls through.
   */
  lemma {:induction false} JumpsAreTheMachines(code: seq<Inst>, ops: Ops, st: State)
    requires st.ip < |code| && code[st.ip].If? && Control(Split(Numbered(code)), code[st.ip]).Some?
    requires Step(code, ops, st).Next?
    ensures var i, st1 := code[st.ip], Step(code, ops, st).st;
      var outcome := st.values[i.test] == ops.trueV;
      match Taken(Control(Split(Numbered(code)), i).value, i.test, outcome)
      case Some(b) => st1.ip < |code| && BlockOf(code, st1.ip) == b && JumpsTo(i, st1.ip)
      case None => st1.ip == st.ip + 1 && (if outcome then i.truthy.None? else i.falsey.None?)
  {
    var i := code[st.ip];
    if i.truthy.Some? { FindIsBlockOf(code, i.truthy.value); }
    if i.falsey.Some? { FindIsBlockOf(code, i.falsey.value); }
    var c := Control(Split(Numbered(code)), i).value;
    var outcome := st.values[i.test] == ops.trueV;
    if |c| > 0 {
      assert c[1..] == if |c| == 2 then [c[1]] else [];
      assert Taken([], i.test, outcome) == None;
      assert |c| == 2 ==> Taken([c[1]], i.test, outcome) == Some(c[1].to);
      assert Taken(c, i.test, outcome) ==
        if c[0].JumpIfTrue? == outcome then Some(c[0].to) else Taken(c[1..], i.test, outcome);
    }
  }

  // ---- analyze_block ----

  /** What analysing an instruction comes to: something is emitted, or nothing, or the analysis stops. */
  datatype Effect = Emits | Quiet | Stops

  /**
   The arms of `analyze_block`.  Where an arm looks at types, `typed` says what
   they make of it, as far as the arm leaves a choice.  An arm that is not
   written yet stops the analysis.
   */
  function EffectOf(i: Inst, typed: Effect): Effect {
    match i
    case Br(_) => Emits
    case If(_, truthy, falsey) => if truthy.None? && falsey.None? then Quiet else Emits
    case PhiJump(_, _) => Emits
    case Const(_) => Emits
    case Tuple(_) => Emits
    case SetVar(_, _) => Emits
    case UseVar(_) => if typed.Stops? then Stops else Emits
    case Return(_) => if typed.Stops? then Stops else Emits
    case Call(_, _) => typed
    case GetAttribute(_, _) => if typed.Stops? then Stops else Quiet
    case GetDunder(_, _) => if typed.Stops? then Stops else Quiet
    case RefAsStr(_) => Quiet
    case Nop => Quiet
    case JumpTarget => Quiet
    case Defn(_, _, _, _) => Stops
    case SetAnnotation(_, _) => Stops
    case SetAttribute(_, _, _) => Stops
    case PhiRecv => Stops
  }

  /** What the types make of the instruction in each slot. */
  type Typing = nat -> Effect

  function SlotEffect(i: FlatInst, typing: Typing): Effect {
    EffectOf(i.op, if i.value >= 0 then typing(i.value) else Stops)
  }

  predicate SomeStop(block: BasicBlock, n: nat, typing: Typing)
    requires n <= |block|
  {
    exists i :: 0 <= i < n && SlotEffect(block[i], typing).Stops?
  }

  predicate SomeEmit(block: BasicBlock, n: nat, typing: Typing)
    requires n <= |block|
  {
    exists i :: 0 <= i < n && SlotEffect(block[i], typing).Emits?
  }

  /** What a block emits; nothing at all fails an assertion. */
  function Analysis(blocks: seq<BasicBlock>, block: BasicBlock, typing: Typing): Option<seq<CgInst>> {
    if SomeStop(block, |block|, typing) || !SomeEmit(block, |block|, typing) then None
    else Skeleton(blocks, block, |block|)
  }

  method AnalyzeBlock(blocks: seq<BasicBlock>, b: nat, typing: Typing) returns (cg: Option<seq<CgInst>>)
    requires b < |blocks|
    ensures cg == Analysis(blocks, blocks[b], typing)
  {
    var block, out, emitted := blocks[b], [], false;
    for i := 0 to |block|
      invariant Skeleton(blocks, block, i) == Some(out)
      invariant !SomeStop(block, i, typing) && emitted == SomeEmit(block, i, typing)
    {
      var effect := SlotEffect(block[i], typing);
      if effect.Stops? {
        assert SomeStop(block, |block|, typing);
        return None;
      }
      var c := Control(blocks, block[i].op);
      if c.None? {
        SkeletonStays(blocks, block, i + 1, |block|);
        return None;
      }
      out := out + c.value;
      emitted := emitted || effect.Emits?;
    }
    return if emitted then Some(out) else None;
  }

  lemma {:induction false} SkeletonStays(blocks: seq<BasicBlock>, block: BasicBlock, n: nat, m: nat)
    requires n <= m <= |block|
    ensures var a, c := Skeleton(blocks, block, n), Skeleton(blocks, block, m);
      (a.None? ==> c.None?) && (c.Some? ==> a.Some? && a.value <= c.value)
    decreases m
  {
    if n < m { SkeletonStays(blocks, block, n, m - 1); }
  }

  /** The analysis has no arm for these yet. */
  predicate Unwritten(i: Inst) {
    i.Defn? || i.SetAnnotation? || i.SetAttribute? || i.PhiRecv?
  }

  /** What these come to depends on types. */
  predicate AsksTypes(i: Inst) {
    i.UseVar? || i.Return? || i.Call? || i.GetAttribute? || i.GetDunder?
  }

  /** An arm that is not written, or something that does not check. */
  predicate StopsAt(code: seq<Inst>, k: nat, typing: Typing)
    requires k < |code|
  {
    Unwritten(code[k]) || (AsksTypes(code[k]) && typing(k) == Stops)
  }

  /** That is what stops the analysis of a block, and nothing else. */
  lemma {:induction false} StopsExactly(code: seq<Inst>, x: nat, typing: Typing)
    requires x < |Split(Numbered(code))|
    ensures var block := Split(Numbered(code))[x];
      SomeStop(block, |block|, typing) <==>
        exists k: nat :: k < |code| && BlockOf(code, k) == x && StopsAt(code, k, typing)
  {
    var block := Split(Numbered(code))[x];
    if SomeStop(block, |block|, typing) {
      var i :| 0 <= i < |block| && SlotEffect(block[i], typing).Stops?;
      WholeIsBlocked(code);
      assert Fits(code, |code|, block, x, i);
      assert StopsAt(code, block[0].value + i, typing);
    }
    if k: nat :| k < |code| && BlockOf(code, k) == x && StopsAt(code, k, typing) {
      var m := PositionOf(code, k);
      assert SlotEffect(block[m], typing).Stops?;
    }
  }

  /** Something that is emitted whatever the types. */
  predicate Sure(i: Inst) {
    i.Br? || i.PhiJump? || i.Const? || i.Tuple? || i.SetVar? || (i.If? && (i.truthy.Some? || i.falsey.Some?))
  }

  /** A use or a return that checks emits something, and so does a call if its type says so. */
  predicate EmitsAt(code: seq<Inst>, k: nat, typing: Typing)
    requires k < |code|
  {
    || Sure(code[k]) || (code[k].Call? && typing(k) == Emits)
    || ((code[k].UseVar? || code[k].Return?) && typing(k) != Stops)
  }

  /** That is what emits something in a block, and nothing else. */
  lemma {:induction false} EmitsExactly(code: seq<Inst>, x: nat, typing: Typing)
    requires x < |Split(Numbered(code))|
    ensures var block := Split(Numbered(code))[x];
      SomeEmit(block, |block|, typing) <==>
        exists k: nat :: k < |code| && BlockOf(code, k) == x && EmitsAt(code, k, typing)
  {
    var block := Split(Numbered(code))[x];
    if SomeEmit(block, |block|, typing) {
      var i :| 0 <= i < |block| && SlotEffect(block[i], typing).Emits?;
      WholeIsBlocked(code);
      assert Fits(code, |code|, block, x, i);
      assert EmitsAt(code, block[0].value + i, typing);
    }
    if k: nat :| k < |code| && BlockOf(code, k) == x && EmitsAt(code, k, typing) {
      var m := PositionOf(code, k);
      assert SlotEffect(block[m], typing).Emits?;
    }
  }

  /** Block `b` of the sequence analyses. */
  predicate Analyses(code: seq<Inst>, b: nat, typing: Typing) {
    var blocks := Split(Numbered(code));
    b < |blocks| && Analysis(blocks, blocks[b], typing).Some?
  }

  /** `cg` holds the jumps of every walked block. */
  ghost predicate Emitted(code: seq<Inst>, edges: seq<CfgEdge>, cg: seq<seq<CgInst>>) {
    var blocks := Split(Numbered(code));
    && IsGraph(code, edges) && |cg| == |blocks|
    && forall b :: 0 <= b < |blocks| && Walked(edges, b) ==> Skeleton(blocks, blocks[b], |blocks[b]|) == Some(cg[b])
  }

  /**
   Walk a sequence and analyse each block on the way.  This comes to its end
   exactly when no jump leaves the sequence and every walked block analyses; then
   the walked blocks hold their jumps and the others are empty.
   */
  method TypeCheck(code: seq<Inst>, typing: Typing) returns (ghost edges: seq<CfgEdge>, cg: Option<seq<seq<CgInst>>>)
    requires |code| > 0
    ensures Inside(code) ==> IsGraph(code, edges)
    ensures cg.None? <==> !Inside(code) || exists b :: Walked(edges, b) && !Analyses(code, b, typing)
    ensures cg.Some? ==> Emitted(code, edges, cg.value)
    ensures cg.Some? ==> forall b :: 0 <= b < |cg.value| && !Walked(edges, b) ==> cg.value[b] == []
  {
    var blocks := FlatSeqToBlocks(Numbered(code));
    var walked;
    edges, walked := WalkBlocks(code, (b: nat) => Analyses(code, b, typing));
    if walked.None? { return edges, None; }
    var out: seq<seq<CgInst>> := [];
    for b := 0 to |blocks|
      invariant |out| == b
      invariant forall c :: 0 <= c < b ==>
        if c in walked.value then Skeleton(blocks, blocks[c], |blocks[c]|) == Some(out[c]) else out[c] == []
    {
      if b in walked.value {
        var one := AnalyzeBlock(blocks, b, typing);
        assert Analyses(code, b, typing);
        out := out + [one.value];
      } else {
        out := out + [[]];
      }
    }
    return edges, Some(out);
  }

  // ---- what a run and the emitted jumps have in common ----

  /** A test: its slot and its outcome. */
  type Test = (nat, bool)

  /** The blocks that a run jumps to, and the tests on the way, during `n` steps. */
  datatype Route = Route(blocks: seq<nat>, tests: seq<Test>)

  function RouteOf(code: seq<Inst>, ops: Ops, st: State, n: nat): Route
    decreases n, code, ops, st
  {
    if n == 0 || st.ip >= |code| then Route([], []) else
    match Step(code, ops, st)
    case Halt(_) => Route([], [])
    case Next(st1) =>
      var r := RouteOf(code, ops, st1, n - 1);
      var i := code[st.ip];
      Route((if (i.If? || i.Br?) && st1.ip < |code| then [BlockOf(code, st1.ip)] else []) + r.blocks,
            (if i.If? && i.test in st.values then [(i.test, st.values[i.test] == ops.trueV)] else []) + r.tests)
  }

  /** Where the emitted jumps go, and the slot that they end up returning, if they get to a return. */
  datatype Trip = Trip(blocks: seq<nat>, slot: Option<nat>)

  /** What emitted code does with the given tests, from position `i` of block `b`, up to some number of jumps. */
  function Follow(cg: seq<seq<CgInst>>, b: nat, i: nat, tests: seq<Test>, jumps: nat): Trip
    decreases jumps, if b < |cg| && i <= |cg[b]| then |cg[b]| - i else 0, cg, tests
  {
    if jumps == 0 || b >= |cg| || i >= |cg[b]| then Trip([], None) else
    match cg[b][i]
    case Jump(to, _) => Via(to, Follow(cg, to, 0, tests, jumps - 1))
    case CgReturn(slot) => Trip([], Some(slot))
    case JumpIfTrue(to, ctrl) =>
      if tests == [] || tests[0].0 != ctrl then Trip([], None)
      else if tests[0].1 then Via(to, Follow(cg, to, 0, tests[1..], jumps - 1))
      else Follow(cg, b, i + 1, tests[1..], jumps)
    case JumpIfFalse(to, ctrl) =>
      if tests == [] || tests[0].0 != ctrl then Trip([], None)
      else if !tests[0].1 then Via(to, Follow(cg, to, 0, tests[1..], jumps - 1))
      else Follow(cg, b, i + 1, tests[1..], jumps)
  }

  function Via(to: nat, rest: Trip): Trip {
    Trip([to] + rest.blocks, rest.slot)
  }

  /** The state in which the run stands after `n` steps, or in which it ended. */
  function Last(code: seq<Inst>, ops: Ops, st: State, n: nat): State
    decreases n, code, ops, st
  {
    if n == 0 then st else
    match Step(code, ops, st)
    case Halt(_) => st
    case Next(st1) => Last(code, ops, st1, n - 1)
  }

  /**
   If the run has returned, this is a slot, and it held what the run returned; if
   the run has run off the end, it is no slot.
   */
  ghost predicate Answered(slot: Option<nat>, code: seq<Inst>, ops: Ops, st: State, n: nat) {
    match Run(code, ops, st, n)
    case Done(Returned(v, _)) =>
      slot.Some? && slot.value in Last(code, ops, st, n).values && Last(code, ops, st, n).values[slot.value] == v
    case Done(Completed(_)) => slot.None?
    case _ => true
  }

  // ---- simulation ----

  /** `cg` holds the jumps of the blocks in `live`. */
  ghost predicate EmittedOn(code: seq<Inst>, live: set<nat>, cg: seq<seq<CgInst>>) {
    var blocks := Split(Numbered(code));
    && |cg| == |blocks|
    && forall b :: b in live ==> b < |blocks| && Skeleton(blocks, blocks[b], |blocks[b]|) == Some(cg[b])
  }

  /** Nothing is emitted for the part of the block before instruction `k`. */
  ghost predicate Fresh(code: seq<Inst>, k: nat)
    requires k < |code|
  {
    var blocks, b := Split(Numbered(code)), BlockOf(code, k);
    Holds(blocks, b, k) && Skeleton(blocks, blocks[b], k - blocks[b][0].value) == Some([])
  }

  /** What is emitted for a fresh instruction stands first in its block. */
  lemma {:induction false} EmittedFirst(code: seq<Inst>, live: set<nat>, cg: seq<seq<CgInst>>, k: nat)
    requires k < |code| && EmittedOn(code, live, cg) && BlockOf(code, k) in live && Fresh(code, k)
    ensures var c, b := Control(Split(Numbered(code)), code[k]), BlockOf(code, k);
      && b < |cg| && c.Some? && c.value <= cg[b]
      && (c.value == [] && k + 1 < |code| && BlockOf(code, k + 1) == b ==> Fresh(code, k + 1))
      && (c.value == [] && k + 1 == |code| ==> cg[b] == [])
  {
    var blocks, b := Split(Numbered(code)), BlockOf(code, k);
    WholeIsBlocked(code);
    var block := blocks[b];
    var m := k - block[0].value;
    assert Fits(code, |code|, block, b, m);
    SkeletonStays(blocks, block, m + 1, |block|);
    if k + 1 < |code| && BlockOf(code, k + 1) == b { assert Holds(blocks, b, k + 1); }
    if k + 1 == |code| { LastInBlock(code, b, m); }
  }

  lemma {:induction false} LastInBlock(code: seq<Inst>, b: nat, m: nat)
    requires var blocks := Split(Numbered(code));
      b < |blocks| && m < |blocks[b]| && blocks[b][0].value + m + 1 == |code|
    ensures m + 1 == |Split(Numbered(code))[b]|
  {
    WholeIsBlocked(code);
    var block := Split(Numbered(code))[b];
    assert m + 1 < |block| ==> Fits(code, |code|, block, b, m + 1);
  }

  lemma {:induction false} HeadIsFresh(code: seq<Inst>, k: nat)
    requires k < |code| && (k == 0 || IsHead(code[k]))
    ensures Fresh(code, k)
  {
    var blocks, b := Split(Numbered(code)), BlockOf(code, k);
    WholeIsBlocked(code);
    assert Holds(blocks, b, k);
    assert Fits(code, |code|, blocks[b], b, k - blocks[b][0].value);
  }

  /** Jumps do not leave the blocks in `live`. */
  ghost predicate Closed(code: seq<Inst>, live: set<nat>) {
    forall k, t :: 0 <= k < |code| && 0 <= t < |code| && Connects(code[k], t) && BlockOf(code, k) in live ==>
      BlockOf(code, t) in live
  }

  /** Lowered code, as far as control goes, and blocks that its jumps do not leave. */
  ghost predicate Structured(code: seq<Inst>, live: set<nat>) {
    Straight(code, 0, |code|, false) && Local(code, 0, |code|, false) && Closed(code, live)
  }

  /** A state of a run: in a walked block, with nothing emitted before it there. */
  ghost predicate Tracked(code: seq<Inst>, live: set<nat>, ip: nat) {
    ip < |code| && BlockOf(code, ip) in live && Fresh(code, ip)
  }

  /** A jump lands on a tracked instruction, and the search finds its block. */
  lemma {:induction false} JumpLands(code: seq<Inst>, live: set<nat>, k: nat, t: int)
    requires Structured(code, live) && Tracked(code, live, k) && Connects(code[k], t)
    ensures 0 <= t < |code| && Tracked(code, live, t) && BlockTo(Split(Numbered(code)), t) == Some(BlockOf(code, t))
  {
    assert Lands(code, k, 0, |code|, false);
    if t != k { HeadIsFresh(code, t); }
    FindIsBlockOf(code, t);
  }

  /** An instruction that does not jump leads on to a tracked one, or to the end of what is emitted. */
  lemma {:induction false} Along(code: seq<Inst>, live: set<nat>, cg: seq<seq<CgInst>>, k: nat)
    requires Structured(code, live) && EmittedOn(code, live, cg) && Tracked(code, live, k) && !Exits(code[k], false)
    ensures k + 1 < |code| ==> Tracked(code, live, k + 1) && BlockOf(code, k + 1) == BlockOf(code, k)
    ensures k + 1 == |code| ==> BlockOf(code, k) < |cg| && cg[BlockOf(code, k)] == []
  {
    assert StraightAt(code, k, false);
    if k + 1 < |code| { assert StraightAt(code, k + 1, false); }
    EmittedFirst(code, live, cg, k);
    assert Control(Split(Numbered(code)), code[k]) == Some([]);
  }

  /** The run has ended by running off the end or by returning. */
  predicate Finished(r: RunResult) {
    r.Done? && (r.outcome.Completed? || r.outcome.Returned?)
  }

  /** Following `m` jumps makes sense after `n` steps: as many as the run made, or more if it has ended. */
  ghost predicate Enough(code: seq<Inst>, ops: Ops, st: State, n: nat, m: nat) {
    var k := |RouteOf(code, ops, st, n).blocks|;
    m == k || (m > k && Finished(Run(code, ops, st, n)))
  }

  /** From `st` on, the emitted jumps go where the run goes. */
  ghost predicate Followed(code: seq<Inst>, cg: seq<seq<CgInst>>, ops: Ops, st: State, n: nat, m: nat)
    requires st.ip < |code|
  {
    var r := RouteOf(code, ops, st, n);
    Goes(cg, BlockOf(code, st.ip), r, m, code, ops, st, n)
  }

  /** From block `b`, the emitted jumps follow the route, and if they may go further, return what the run returns. */
  ghost predicate Goes(cg: seq<seq<CgInst>>, b: nat, r: Route, m: nat, code: seq<Inst>, ops: Ops, st: State, n: nat) {
    var t := Follow(cg, b, 0, r.tests, m);
    t.blocks == r.blocks && (m > |r.blocks| ==> Answered(t.slot, code, ops, st, n))
  }

  /** None of the next `n` steps slips. */
  ghost predicate Steady(code: seq<Inst>, ops: Ops, st: State, n: nat) {
    forall i: nat :: i < n ==> !SlipsAt(code, ops, st, i)
  }

  lemma {:induction false} SteadyNext(code: seq<Inst>, ops: Ops, st: State, n: nat)
    requires n > 0 && Steady(code, ops, st, n)
    ensures !Slips(code, ops, st)
    ensures Step(code, ops, st).Next? ==> Steady(code, ops, Step(code, ops, st).st, n - 1)
  {
    assert !SlipsAt(code, ops, st, 0);
    if Step(code, ops, st).Next? {
      forall i: nat | i < n - 1 ensures !SlipsAt(code, ops, Step(code, ops, st).st, i) {
        assert !SlipsAt(code, ops, st, i + 1);
      }
    }
  }

  ghost predicate Followable(code: seq<Inst>, live: set<nat>, cg: seq<seq<CgInst>>, ops: Ops, st: State, n: nat, m: nat)
  {
    && Structured(code, live) && EmittedOn(code, live, cg) && Tracked(code, live, st.ip)
    && Enough(code, ops, st, n, m) && Steady(code, ops, st, n)
  }

  lemma {:induction false} RouteIsFollowed(code: seq<Inst>, live: set<nat>, cg: seq<seq<CgInst>>, ops: Ops, st: State,
      n: nat, m: nat)
    requires Followable(code, live, cg, ops, st, n, m)
    ensures Followed(code, cg, ops, st, n, m)
    decreases n, 2
  {
    if n > 0 {
      var s := Step(code, ops, st);
      if s.Halt? {
        HaltIsFollowed(code, live, cg, ops, st, n, m);
      } else if code[st.ip].If? {
        IfIsFollowed(code, live, cg, ops, st, n, m);
      } else if code[st.ip].Br? {
        BrIsFollowed(code, live, cg, ops, st, n, m);
      } else {
        OtherIsFollowed(code, live, cg, ops, st, n, m);
      }
    }
  }

  /** Only a return ends a run in the middle of the code, and it is the next thing emitted. */
  lemma {:induction false} HaltIsFollowed(code: seq<Inst>, live: set<nat>, cg: seq<seq<CgInst>>, ops: Ops, st: State,
      n: nat, m: nat)
    requires Followable(code, live, cg, ops, st, n, m)
    requires n > 0 && Step(code, ops, st).Halt?
    ensures Followed(code, cg, ops, st, n, m)
  {
    assert RouteOf(code, ops, st, n) == Route([], []);
    assert Run(code, ops, st, n) == Done(Step(code, ops, st).outcome);
    if m > 0 {
      HaltIsReturn(code, live, ops, st);
      EmittedFirst(code, live, cg, st.ip);
      assert Control(Split(Numbered(code)), code[st.ip]) == Some([CgReturn(code[st.ip].value)]);
    }
  }

  lemma {:induction false} HaltIsReturn(code: seq<Inst>, live: set<nat>, ops: Ops, st: State)
    requires Structured(code, live) && st.ip < |code| && Step(code, ops, st).Halt? &&
      !Step(code, ops, st).outcome.Failed?
    ensures code[st.ip].Return?
  {
    assert Lands(code, st.ip, 0, |code|, false);
    assert StraightAt(code, st.ip, false);
    match code[st.ip]
    case If(_, truthy, falsey) =>
      assert truthy.Some? ==> JumpsTo(code[st.ip], truthy.value);
      assert JumpsTo(code[st.ip], falsey.value);
    case Br(to) => assert JumpsTo(code[st.ip], to);
    case _ =>
  }

  lemma {:induction false} OtherIsFollowed(code: seq<Inst>, live: set<nat>, cg: seq<seq<CgInst>>, ops: Ops, st: State,
      n: nat, m: nat)
    requires Followable(code, live, cg, ops, st, n, m)
    requires n > 0 && Step(code, ops, st).Next? && !code[st.ip].If? && !code[st.ip].Br?
    ensures Followed(code, cg, ops, st, n, m)
    decreases n, 0
  {
    SteadyNext(code, ops, st, n);
    StepAlong(code, live, ops, st);
    Along(code, live, cg, st.ip);
    OtherRoute(code, ops, st, n, m);
    var st1 := Step(code, ops, st).st;
    if st1.ip < |code| {
      RouteIsFollowed(code, live, cg, ops, st1, n - 1, m);
      SameAnswer(code, ops, st, n);
    } else {
      RanOff(code, ops, st, n);
    }
  }

  lemma {:induction false} SameAnswer(code: seq<Inst>, ops: Ops, st: State, n: nat)
    requires n > 0 && Step(code, ops, st).Next?
    ensures forall slot :: Answered(slot, code, ops, Step(code, ops, st).st, n - 1) <==>
      Answered(slot, code, ops, st, n)
  {
    assert Run(code, ops, st, n) == Run(code, ops, Step(code, ops, st).st, n - 1);
    assert Last(code, ops, st, n) == Last(code, ops, Step(code, ops, st).st, n - 1);
  }

  lemma {:induction false} RanOff(code: seq<Inst>, ops: Ops, st: State, n: nat)
    requires n > 0 && Step(code, ops, st).Next? && Step(code, ops, st).st.ip >= |code|
    ensures Answered(None, code, ops, st, n)
  {
    var st1 := Step(code, ops, st).st;
    assert Run(code, ops, st, n) == Run(code, ops, st1, n - 1);
    assert Step(code, ops, st1) == Halt(Completed(st1.env));
  }

  /** What any other instruction adds to the route: nothing. */
  lemma {:induction false} OtherRoute(code: seq<Inst>, ops: Ops, st: State, n: nat, m: nat)
    requires st.ip < |code| && n > 0 && Step(code, ops, st).Next? && !code[st.ip].If? && !code[st.ip].Br?
    requires Enough(code, ops, st, n, m)
    ensures var st1 := Step(code, ops, st).st;
      && RouteOf(code, ops, st, n) == RouteOf(code, ops, st1, n - 1)
      && Enough(code, ops, st1, n - 1, m)
      && (st1.ip >= |code| ==> RouteOf(code, ops, st, n) == Route([], []))
  {
    assert Run(code, ops, st, n) == Run(code, ops, Step(code, ops, st).st, n - 1);
  }

  lemma {:induction false} StepAlong(code: seq<Inst>, live: set<nat>, ops: Ops, st: State)
    requires Structured(code, live) && st.ip < |code| && !code[st.ip].If? && !code[st.ip].Br? &&
      Step(code, ops, st).Next? && !Slips(code, ops, st)
    ensures Step(code, ops, st).st.ip == st.ip + 1 && !Exits(code[st.ip], false)
  {
    assert StraightAt(code, st.ip, false);
  }

  /** What a jump adds to the route. */
  lemma {:induction false} JumpRoute(code: seq<Inst>, ops: Ops, st: State, n: nat, m: nat)
    requires st.ip < |code| && n > 0 && Step(code, ops, st).Next? && (code[st.ip].If? || code[st.ip].Br?)
    requires Enough(code, ops, st, n, m) && Step(code, ops, st).st.ip < |code|
    ensures RouteOf(code, ops, st, n) == Onward(code, ops, st, RouteOf(code, ops, Step(code, ops, st).st, n - 1))
    ensures m > 0 && Enough(code, ops, Step(code, ops, st).st, n - 1, m - 1)
  {
    assert Run(code, ops, st, n) == Run(code, ops, Step(code, ops, st).st, n - 1);
  }

  /** The route of a jump and of what follows it. */
  function Onward(code: seq<Inst>, ops: Ops, st: State, rest: Route): Route
    requires st.ip < |code| && Step(code, ops, st).Next? && Step(code, ops, st).st.ip < |code|
    requires code[st.ip].If? || code[st.ip].Br?
  {
    var i := code[st.ip];
    Route([BlockOf(code, Step(code, ops, st).st.ip)] + rest.blocks,
          (if i.If? then [(i.test, st.values[i.test] == ops.trueV)] else []) + rest.tests)
  }

  lemma {:induction false} BrIsFollowed(code: seq<Inst>, live: set<nat>, cg: seq<seq<CgInst>>, ops: Ops, st: State,
      n: nat, m: nat)
    requires Followable(code, live, cg, ops, st, n, m)
    requires n > 0 && Step(code, ops, st).Next? && code[st.ip].Br?
    ensures Followed(code, cg, ops, st, n, m)
    decreases n, 1
  {
    BrEmitted(code, live, cg, ops, st);
    var rest, slot := RestIsFollowed(code, live, cg, ops, st, n, m);
    JumpTaken(code, cg, ops, st, rest, slot, m);
  }

  /** What comes after a jump is followed. */
  lemma {:induction false} RestIsFollowed(code: seq<Inst>, live: set<nat>, cg: seq<seq<CgInst>>, ops: Ops, st: State,
      n: nat, m: nat)
    returns (rest: Route, slot: Option<nat>)
    requires Followable(code, live, cg, ops, st, n, m)
    requires n > 0 && Step(code, ops, st).Next? && (code[st.ip].If? || code[st.ip].Br?)
    requires Tracked(code, live, Step(code, ops, st).st.ip)
    ensures m > 0 && RouteOf(code, ops, st, n) == Onward(code, ops, st, rest)
    ensures Follow(cg, BlockOf(code, Step(code, ops, st).st.ip), 0, rest.tests, m - 1) == Trip(rest.blocks, slot)
    ensures m - 1 > |rest.blocks| ==> Answered(slot, code, ops, st, n)
    decreases n, 0
  {
    JumpRoute(code, ops, st, n, m);
    SteadyNext(code, ops, st, n);
    RouteIsFollowed(code, live, cg, ops, Step(code, ops, st).st, n - 1, m - 1);
    rest := RouteOf(code, ops, Step(code, ops, st).st, n - 1);
    slot := Follow(cg, BlockOf(code, Step(code, ops, st).st.ip), 0, rest.tests, m - 1).slot;
    SameAnswer(code, ops, st, n);
  }

  /** The jump emitted for a `Br`. */
  lemma {:induction false} BrEmitted(code: seq<Inst>, live: set<nat>, cg: seq<seq<CgInst>>, ops: Ops, st: State)
    requires Structured(code, live) && EmittedOn(code, live, cg) && Tracked(code, live, st.ip)
    requires code[st.ip].Br? && Step(code, ops, st).Next?
    ensures var b, st1 := BlockOf(code, st.ip), Step(code, ops, st).st;
      && Tracked(code, live, st1.ip)
      && b < |cg| && 0 < |cg[b]| && cg[b][0] == Jump(BlockOf(code, st1.ip), None)
  {
    JumpLands(code, live, st.ip, code[st.ip].to);
    EmittedFirst(code, live, cg, st.ip);
    var c := [Jump(BlockOf(code, code[st.ip].to), None)];
    assert Control(Split(Numbered(code)), code[st.ip]) == Some(c) && cg[BlockOf(code, st.ip)][0] == c[0];
  }

  lemma {:induction false} JumpTaken(code: seq<Inst>, cg: seq<seq<CgInst>>, ops: Ops, st: State, rest: Route,
        slot: Option<nat>, m: nat)
    requires st.ip < |code| && code[st.ip].Br? && Step(code, ops, st).Next? && Step(code, ops, st).st.ip < |code|
    requires var b, to := BlockOf(code, st.ip), BlockOf(code, Step(code, ops, st).st.ip);
      && b < |cg| && 0 < |cg[b]| && cg[b][0] == Jump(to, None) && m > 0
      && Follow(cg, to, 0, rest.tests, m - 1) == Trip(rest.blocks, slot)
    ensures var r := Onward(code, ops, st, rest);
      Follow(cg, BlockOf(code, st.ip), 0, r.tests, m) == Trip(r.blocks, slot)
  {
    assert Onward(code, ops, st, rest).tests == rest.tests;
  }

  lemma {:induction false} IfIsFollowed(code: seq<Inst>, live: set<nat>, cg: seq<seq<CgInst>>, ops: Ops, st: State,
      n: nat, m: nat)
    requires Followable(code, live, cg, ops, st, n, m)
    requires n > 0 && Step(code, ops, st).Next? && code[st.ip].If?
    ensures Followed(code, cg, ops, st, n, m)
    decreases n, 1
  {
    SteadyNext(code, ops, st, n);
    var c := IfEmitted(code, live, cg, ops, st);
    var rest, slot := RestIsFollowed(code, live, cg, ops, st, n, m);
    var i := code[st.ip];
    IfTaken(cg, BlockOf(code, st.ip), c, (i.test, st.values[i.test] == ops.trueV), rest, slot,
            BlockOf(code, Step(code, ops, st).st.ip), m);
  }

  /** The jumps `c` on the outcome of a test lead to block `to`. */
  predicate LeadsTo(c: seq<CgInst>, ctrl: nat, outcome: bool, to: nat) {
    if |c| == 2 then
      && c[0].JumpIfTrue? && c[0].ctrl == ctrl && c[1].Jump?
      && to == if outcome then c[0].to else c[1].to
    else
      |c| == 1 && c[0].JumpIfFalse? && c[0].ctrl == ctrl && !outcome && to == c[0].to
  }

  /** The jumps emitted for an `If`, and where the run goes. */
  lemma {:induction false} IfEmitted(code: seq<Inst>, live: set<nat>, cg: seq<seq<CgInst>>, ops: Ops, st: State)
    returns (c: seq<CgInst>)
    requires Structured(code, live) && EmittedOn(code, live, cg) && Tracked(code, live, st.ip)
    requires code[st.ip].If? && Step(code, ops, st).Next? && !Slips(code, ops, st)
    ensures var b, st1 := BlockOf(code, st.ip), Step(code, ops, st).st;
      && b < |cg| && c <= cg[b] && Tracked(code, live, st1.ip)
      && LeadsTo(c, code[st.ip].test, st.values[code[st.ip].test] == ops.trueV, BlockOf(code, st1.ip))
  {
    var i := code[st.ip];
    assert StraightAt(code, st.ip, false);
    JumpLands(code, live, st.ip, i.falsey.value);
    EmittedFirst(code, live, cg, st.ip);
    if i.truthy.Some? {
      JumpLands(code, live, st.ip, i.truthy.value);
      c := [JumpIfTrue(BlockOf(code, i.truthy.value), i.test), Jump(BlockOf(code, i.falsey.value), None)];
    } else {
      c := [JumpIfFalse(BlockOf(code, i.falsey.value), i.test)];
    }
    assert Control(Split(Numbered(code)), i) == Some(c);
  }

  /** The jumps of an `If`, on one test. */
  lemma {:induction false} IfTaken(cg: seq<seq<CgInst>>, b: nat, c: seq<CgInst>, test: Test, rest: Route,
        slot: Option<nat>, to: nat, m: nat)
    requires b < |cg| && c <= cg[b] && m > 0 && LeadsTo(c, test.0, test.1, to)
    requires Follow(cg, to, 0, rest.tests, m - 1) == Trip(rest.blocks, slot)
    ensures Follow(cg, b, 0, [test] + rest.tests, m) == Trip([to] + rest.blocks, slot)
  {
    assert ([test] + rest.tests)[1..] == rest.tests;
    assert cg[b][0] == c[0] && (|c| == 2 ==> cg[b][1] == c[1]);
  }

  /** The walked blocks of a lowered sequence. */
  lemma {:induction false} WalkedIsStructured(code: seq<Inst>, b: Block, ns: nat, edges: seq<CfgEdge>,
        cg: seq<seq<CgInst>>)
    returns (live: set<nat>)
    requires Lowered(code, b, ns) && RegularBlock(b, false) && |code| > 0 && Emitted(code, edges, cg)
    ensures Structured(code, live) && EmittedOn(code, live, cg) && 0 in live
  {
    LoweredIsStraight(code, b, ns, false);
    LoweredIsLocal(code, b, ns);
    Widen(code, 0, |code|, 0, |code|, OneTestBlock(b), 0, |code|, false);
    WholeIsBlocked(code);
    live := set x | 0 <= x < |cg| && Walked(edges, x);
    forall k, t | 0 <= k < |code| && 0 <= t < |code| && Connects(code[k], t) && BlockOf(code, k) in live
      ensures BlockOf(code, t) in live
    {
      assert BlockJump(code, BlockOf(code, k), BlockOf(code, t));
      JumpIsWalked(code, edges, BlockOf(code, k), BlockOf(code, t));
      assert Holds(Split(Numbered(code)), BlockOf(code, t), t);
    }
    ReachesItself(CfgOf(edges), 0);
    assert Holds(Split(Numbered(code)), BlockOf(code, 0), 0);
  }

  /**
   What emitted code has to do with the first `n` steps of a run: it visits the
   blocks that the run jumps to, and when the run has ended it visits no others,
   and gets to a return exactly if the run returned, of a slot that held what the
   run returned.
   */
  ghost predicate FollowsRun(code: seq<Inst>, cg: seq<seq<CgInst>>, ops: Ops, st: State, n: nat) {
    var r := RouteOf(code, ops, st, n);
    && Follow(cg, 0, 0, r.tests, |r.blocks|).blocks == r.blocks
    && (Finished(Run(code, ops, st, n)) ==> forall m: nat :: m > |r.blocks| ==>
          var t := Follow(cg, 0, 0, r.tests, m); t.blocks == r.blocks && Answered(t.slot, code, ops, st, n))
  }

  /** As long as a run does not slip, emitted code follows it, on its tests. */
  lemma {:induction false} CodegenFollowsTheMachine(code: seq<Inst>, b: Block, ns: nat, edges: seq<CfgEdge>,
      cg: seq<seq<CgInst>>, ops: Ops, st: State, n: nat)
    requires Lowered(code, b, ns) && RegularBlock(b, false) && |code| > 0
    requires Emitted(code, edges, cg) && st.ip == 0 && Steady(code, ops, st, n)
    ensures FollowsRun(code, cg, ops, st, n)
  {
    var live := WalkedIsStructured(code, b, ns, edges, cg);
    HeadIsFresh(code, 0);
    var r := RouteOf(code, ops, st, n);
    RouteIsFollowed(code, live, cg, ops, st, n, |r.blocks|);
    if Finished(Run(code, ops, st, n)) {
      forall m: nat | m > |r.blocks|
        ensures var t := Follow(cg, 0, 0, r.tests, m); t.blocks == r.blocks && Answered(t.slot, code, ops, st, n)
      {
        RouteIsFollowed(code, live, cg, ops, st, n, m);
        assert Followed(code, cg, ops, st, n, m);
      }
    }
  }

  /** Without ternaries the emitted jumps follow every run. */
  lemma {:induction false} CodegenFollowsEveryRun(code: seq<Inst>, b: Block, ns: nat, edges: seq<CfgEdge>,
      cg: seq<seq<CgInst>>, ops: Ops, st: State, n: nat)
    requires Lowered(code, b, ns) && RegularBlock(b, true) && |code| > 0
    requires Emitted(code, edges, cg) && st.ip == 0
    ensures FollowsRun(code, cg, ops, st, n)
  {
    RegularAnyway(b);
    LoweredIsStraight(code, b, ns, true);
    forall i: nat | i < n ensures !SlipsAt(code, ops, st, i) {
      var r := Run(code, ops, st, i);
      if r.Running? { NeverSlips(code, ops, r.st); }
    }
    CodegenFollowsTheMachine(code, b, ns, edges, cg, ops, st, n);
  }

  lemma {:induction false} RegularAnyway(b: Block)
    requires RegularBlock(b, true)
    ensures RegularBlock(b, false)
    decreases b, 0
  {
    match b
    case Empty =>
    case Then(h, t) => StmtRegular(h); RegularAnyway(t);
  }

  lemma {:induction false} StmtRegular(s: Stmt)
    requires Regular(s, true)
    ensures Regular(s, false)
    decreases s, 0
  {
    match s
    case While(_, body) => RegularAnyway(body);
    case IfChain(arms, orelse) =>
      ArmsRegular(arms);
      if orelse.Else? { RegularAnyway(orelse.body); }
    case _ =>
  }

  lemma {:induction false} ArmsRegular(arms: Arms)
    requires RegularArms(arms, true)
    ensures RegularArms(arms, false)
    decreases arms, 0
  {
    if arms.Arm? {
      RegularAnyway(arms.body);
      ArmsRegular(arms.rest);
    }
  }
}
