/**
 Definite assignment for whole programs: in every frame of a compiled program,
 however deep, no instruction finds a slot it reads empty, and the slots that
 are filled when a frame is entered are never observed.
 */
module Frames {
  import opened RawInst
  import opened Ast
  import opened Machine
  import opened Correctness
  import opened Assigned
  import opened Ticks
  import opened Compile

  predicate NotMissing(a: Answer) {
    a.Throw? ==> !a.fault.MissingSlot?
  }

  /** No operation of the host reports an empty slot by itself. */
  ghost predicate Honest(ops: Ops) {
    && (forall c, w :: NotMissing(ops.constant(c, w)))
    && (forall n, w :: NotMissing(ops.refAsStr(n, w)))
    && (forall vs, w :: NotMissing(ops.tuple(vs, w)))
    && (forall o, d, w :: NotMissing(ops.getDunder(o, d, w)))
    && (forall o, a, w :: NotMissing(ops.getAttr(o, a, w)))
    && (forall o, a, v, w :: NotMissing(ops.setAttr(o, a, v, w)))
    && (forall o, n, w :: NotMissing(ops.lookup(o, n, w)))
    && (forall o, n, v, w :: NotMissing(ops.publish(o, n, v, w)))
    && (forall i, w :: NotMissing(ops.makeFunction(i, w)))
    && (forall f, vs, w :: NotMissing(ops.call(f, vs, w)))
  }

  predicate Misses(o: Outcome) {
    o.Failed? && o.fault.MissingSlot?
  }

  lemma {:induction false} StepNeverMisses(code: seq<Inst>, ops: Ops, st: State)
    requires Honest(ops) && st.ip < |code| && Reads(code[st.ip]) <= st.values.Keys
    ensures var s := Step(code, ops, st); s.Halt? ==> !Misses(s.outcome)
  {
    if code[st.ip].Defn? { ParamSlotsPresent(st.values, code[st.ip].params); }
  }

  /** A promise that the frame's sequence keeps, and that the frame has met so far. */
  ghost predicate Promised(p: Prog, id: nat, need: Promise, st: State) {
    SoundOn(Code(p, id), need, 0, |Code(p, id)|) && need(st.ip) <= st.values.Keys
  }

  lemma {:induction false} EntryPromised(p: Prog, main: Block, id: nat, st: State) returns (need: Promise)
    requires IsCompiled(p.seqs, main) && st.ip == 0
    ensures Promised(p, id, need, st)
  {
    if id < |p.seqs| {
      need := LoweredIsSound(p.seqs[id], AllBodies(main)[id], id + 1);
    } else {
      need := (k: nat) => {};
    }
  }

  /** With the answer of a call at hand, a turn is a step under a host that gives this answer. */
  lemma {:induction false} TurnIsStep(p: Prog, id: nat, st: State, ticks: nat) returns (ops: Ops)
    requires Grounded(p) && ticks > 0 && st.ip < |Code(p, id)| && Turn(p, id, st, ticks).Stepped?
    ensures Turn(p, id, st, ticks).next.Next? ==> Step(Code(p, id), ops, st) == Turn(p, id, st, ticks).next
  {
    var next := Turn(p, id, st, ticks).next;
    ops := p.host;
    if Entering(p, id, st).Some? && next.Next? {
      var v, w := next.st.values[st.ip], next.st.env.world;
      ops := p.host.(call := (_, _, _) => Value(v, w));
    }
  }

  lemma {:induction false} NextPromised(p: Prog, id: nat, need: Promise, st: State, ticks: nat)
    requires Grounded(p) && ticks > 0 && Promised(p, id, need, st) && st.ip < |Code(p, id)|
    requires Turn(p, id, st, ticks).Stepped? && Turn(p, id, st, ticks).next.Next?
    ensures Promised(p, id, need, Turn(p, id, st, ticks).next.st)
  {
    var ops := TurnIsStep(p, id, st, ticks);
    StepKeeps(Code(p, id), ops, need, st);
  }

  // ---- no slot is found empty ----

  lemma {:induction false} FrameNeverMisses(p: Prog, main: Block, id: nat, need: Promise, st: State, ticks: nat)
    requires IsCompiled(p.seqs, main) && Grounded(p) && Honest(p.host) && ticks > 0 && Promised(p, id, need, st)
    ensures var r := RunFrom(p, id, st, ticks); r.end.Ended? ==> !Misses(r.end.outcome)
    decreases ticks, if st.ip == 0 then 0 else 1, 1
  {
    if st.ip < |Code(p, id)| {
      TurnNeverMisses(p, main, id, need, st, ticks);
      var t := Turn(p, id, st, ticks);
      if t.Stepped? && t.next.Next? && t.left > 1 {
        FrameNeverMisses(p, main, id, need, t.next.st, t.left - 1);
      }
    }
  }

  lemma {:induction false} TurnNeverMisses(p: Prog, main: Block, id: nat, need: Promise, st: State, ticks: nat)
    requires IsCompiled(p.seqs, main) && Grounded(p) && Honest(p.host) && ticks > 0 && Promised(p, id, need, st)
    requires st.ip < |Code(p, id)|
    ensures var t := Turn(p, id, st, ticks);
      t.Stepped? ==> if t.next.Halt? then !Misses(t.next.outcome) else Promised(p, id, need, t.next.st)
    decreases ticks, if st.ip == 0 then 0 else 1, 0
  {
    var t, e := Turn(p, id, st, ticks), Entering(p, id, st);
    if e.None? {
      StepKeeps(Code(p, id), p.host, need, st);
      StepNeverMisses(Code(p, id), p.host, st);
    } else if e.value.callee.sequenceId < |p.seqs| {
      var inner := Enter(e.value.callee, e.value.args, st.env.world);
      var promise := EntryPromised(p, main, e.value.callee.sequenceId, inner);
      FrameNeverMisses(p, main, e.value.callee.sequenceId, promise, inner, ticks);
    }
    if t.Stepped? && t.next.Next? { NextPromised(p, id, need, st, ticks); }
  }

  /**
   No frame of a compiled program ends for want of a slot, whatever its slots
   hold when it is entered, and no more does any frame that it enters.
   */
  lemma {:induction false} FramesNeverMiss(p: Prog, main: Block, id: nat, st: State, ticks: nat)
    requires IsCompiled(p.seqs, main) && Honest(p.host) && st.ip == 0 && ticks > 0
    ensures Grounded(p)
    ensures var r := RunFrom(p, id, st, ticks); r.end.Ended? ==> !Misses(r.end.outcome)
  {
    CompiledIsGrounded(p, main);
    var need := EntryPromised(p, main, id, st);
    FrameNeverMisses(p, main, id, need, st, ticks);
  }

  // ---- filled slots are not observed ----

  lemma {:induction false} EnteringFuller(p: Prog, id: nat, a: State, b: State)
    requires Fuller(a, b) && (b.ip < |Code(p, id)| ==> Reads(Code(p, id)[b.ip]) <= b.values.Keys)
    ensures Entering(p, id, a) == Entering(p, id, b)
  {
    var code := Code(p, id);
    if b.ip < |code| && code[b.ip].Call? {
      assert Read(a.values, code[b.ip].arguments) == Read(b.values, code[b.ip].arguments);
    }
  }

  ghost predicate SameTurn(x: TurnResult, y: TurnResult) {
    if x.Stepped? && y.Stepped? then SameStep(x.next, y.next) && x.left == y.left && x.trace == y.trace else x == y
  }

  lemma {:induction false} TurnFuller(p: Prog, id: nat, need: Promise, a: State, b: State, ticks: nat)
    requires Grounded(p) && ticks > 0 && Promised(p, id, need, b) && Fuller(a, b) && b.ip < |Code(p, id)|
    ensures SameTurn(Turn(p, id, a, ticks), Turn(p, id, b, ticks))
  {
    StepKeeps(Code(p, id), p.host, need, b);
    EnteringFuller(p, id, a, b);
    StepFuller(Code(p, id), p.host, a, b);
  }

  lemma {:induction false} FrameFuller(p: Prog, id: nat, need: Promise, a: State, b: State, ticks: nat)
    requires Grounded(p) && ticks > 0 && Promised(p, id, need, b) && Fuller(a, b)
    ensures RunFrom(p, id, a, ticks) == RunFrom(p, id, b, ticks)
    decreases ticks
  {
    if b.ip < |Code(p, id)| {
      TurnFuller(p, id, need, a, b, ticks);
      var t, u := Turn(p, id, a, ticks), Turn(p, id, b, ticks);
      if u.Stepped? && u.next.Next? && u.left > 1 {
        NextPromised(p, id, need, b, ticks);
        FrameFuller(p, id, need, t.next.st, u.next.st, u.left - 1);
      }
    }
  }

  /**
   Whatever the slots of a frame hold when it is entered, it ends alike, with the same ticks
   left and the same trace.
   */
  lemma {:induction false} FramesIgnoreSeeds(p: Prog, main: Block, id: nat, seed: map<nat, Object>, env: Env,
        ticks: nat)
    requires IsCompiled(p.seqs, main) && ticks > 0
    ensures Grounded(p)
    ensures RunFrom(p, id, State(0, seed, env), ticks) == RunFrom(p, id, State(0, map[], env), ticks)
  {
    CompiledIsGrounded(p, main);
    var need := EntryPromised(p, main, id, State(0, map[], env));
    FrameFuller(p, id, need, State(0, seed, env), State(0, map[], env), ticks);
  }
}
