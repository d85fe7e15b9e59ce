/**
 Whole programs: the sequences of a program call one another, as deep as they
 like.  The bounded evaluator, given enough ticks, ends with an outcome exactly
 when the program does, where every call of a compiled function means running
 the body it was compiled from.
 */
module Program {
  import opened RawInst
  import opened Ast
  import opened Machine
  import opened Lower
  import opened Meaning
  import opened Correctness
  import opened Plain
  import opened Ticks

  type CallFn = (Object, seq<Object>, World) -> Answer

  /** Calls that are not done with yet answer `Lost`, and `Lost` leaves every frame. */
  predicate IsLost(a: Answer) {
    a.Throw? && a.fault.Lost?
  }

  predicate IsLostOutcome(o: Outcome) {
    o.Failed? && o.fault.Lost?
  }

  /** `b` answers as `a` does wherever `a` answers. */
  ghost predicate Below(a: CallFn, b: CallFn) {
    forall f, args, w :: IsLost(a(f, args, w)) || b(f, args, w) == a(f, args, w)
  }

  // ---- steps and runs under a better-informed `call` ----

  lemma {:induction false} StepAgrees(code: seq<Inst>, host: Ops, a: CallFn, b: CallFn, st: State)
    requires Step(code, host.(call := a), st) != Step(code, host.(call := b), st)
    ensures st.ip < |code| && code[st.ip].Call? && code[st.ip].callable in st.values &&
      Present(st.values, code[st.ip].arguments)
    ensures var f, args := st.values[code[st.ip].callable], Read(st.values, code[st.ip].arguments);
      a(f, args, st.env.world) != b(f, args, st.env.world)
  {
  }

  lemma {:induction false} RunBelow(code: seq<Inst>, host: Ops, a: CallFn, b: CallFn, st: State, n: nat, o: Outcome)
    requires Below(a, b) && Run(code, host.(call := a), st, n) == Done(o) && !IsLostOutcome(o)
    ensures Run(code, host.(call := b), st, n) == Done(o)
    decreases n
  {
    var s := Step(code, host.(call := a), st);
    if s != Step(code, host.(call := b), st) { StepAgrees(code, host, a, b, st); }
    if s.Next? { RunBelow(code, host, a, b, s.st, n - 1, o); }
  }

  /** An increasing chain of meanings for `call`. */
  ghost predicate Chain(c: nat -> CallFn) {
    forall t, u :: t <= u ==> Below(c(t), c(u))
  }

  /** Every answer that `a` gives is reached somewhere along the chain. */
  ghost predicate Reached(a: CallFn, c: nat -> CallFn) {
    forall f, args, w :: IsLost(a(f, args, w)) || exists t :: c(t)(f, args, w) == a(f, args, w)
  }

  /** A run makes finitely many calls, so one element of the chain answers them all. */
  lemma {:induction false} RunReaches(code: seq<Inst>, host: Ops, a: CallFn, c: nat -> CallFn, st: State, n: nat,
        o: Outcome) returns (t: nat)
    requires Chain(c) && Reached(a, c) && Run(code, host.(call := a), st, n) == Done(o) && !IsLostOutcome(o)
    ensures Run(code, host.(call := c(t)), st, n) == Done(o)
    decreases n
  {
    var s := Step(code, host.(call := a), st);
    t := StepReaches(code, host, a, c, st);
    if s.Next? {
      var u := RunReaches(code, host, a, c, s.st, n - 1, o);
      var m := if t < u then u else t;
      RunBelow(code, host, c(u), c(m), s.st, n - 1, o);
      StepBelow(code, host, c(t), c(m), st);
      t := m;
    }
  }

  predicate IsLostStep(s: StepResult) {
    s.Halt? && IsLostOutcome(s.outcome)
  }

  lemma {:induction false} StepReaches(code: seq<Inst>, host: Ops, a: CallFn, c: nat -> CallFn, st: State)
    returns (t: nat)
    requires Reached(a, c) && !IsLostStep(Step(code, host.(call := a), st))
    ensures Step(code, host.(call := c(t)), st) == Step(code, host.(call := a), st)
  {
    t := 0;
    if Step(code, host.(call := a), st) != Step(code, host.(call := c(0)), st) {
      StepAgrees(code, host, a, c(0), st);
      var f, args := st.values[code[st.ip].callable], Read(st.values, code[st.ip].arguments);
      t :| c(t)(f, args, st.env.world) == a(f, args, st.env.world);
    }
  }

  lemma {:induction false} StepBelow(code: seq<Inst>, host: Ops, a: CallFn, b: CallFn, st: State)
    requires Below(a, b) && !IsLostStep(Step(code, host.(call := a), st))
    ensures Step(code, host.(call := b), st) == Step(code, host.(call := a), st)
  {
    if Step(code, host.(call := a), st) != Step(code, host.(call := b), st) { StepAgrees(code, host, a, b, st); }
  }

  // ---- calls within a number of ticks ----

  ghost function BoundAnswer(p: Prog, t: nat, f: Object, args: seq<Object>, w: World): Answer
    requires Grounded(p)
  {
    match p.callee(f, w)
    case None => p.host.call(f, args, w)
    case Some(c) =>
      if c.sequenceId >= |p.seqs| then Throw(NoSequence, w)
      else if t == 0 then Throw(Lost, w)
      else
        match RunFrom(p, c.sequenceId, Enter(c, args, w), t).end
        case Ended(o) => AnswerOf(p.host, o)
        case Tripped(w1) => Throw(Lost, w1)
  }

  ghost function BoundCall(p: Prog, t: nat): CallFn
    requires Grounded(p)
  {
    (f: Object, args: seq<Object>, w: World) => BoundAnswer(p, t, f, args, w)
  }

  lemma {:induction false} BoundBelow(p: Prog, t: nat, u: nat)
    requires Grounded(p) && t <= u
    ensures Below(BoundCall(p, t), BoundCall(p, u))
  {
    forall f, args, w
      ensures IsLost(BoundAnswer(p, t, f, args, w)) || BoundAnswer(p, u, f, args, w) == BoundAnswer(p, t, f, args, w) {
      var c := p.callee(f, w);
      if t > 0 && c.Some? && c.value.sequenceId < |p.seqs| {
        LargerBound(p, c.value.sequenceId, Enter(c.value, args, w), t, u - t);
      }
    }
  }

  /**
   With `bound` ticks for each call, the machine does what a bounded run does; a frame that
   has not begun needs a tick less.
   */
  lemma {:induction false} BoundedRuns(p: Prog, id: nat, st: State, ticks: nat, bound: nat, o: Outcome) returns (n: nat)
    requires Grounded(p) && ticks > 0 && bound >= (if st.ip == 0 then ticks - 1 else ticks)
    requires RunFrom(p, id, st, ticks).end == Ended(o)
    ensures Run(Code(p, id), p.host.(call := BoundCall(p, bound)), st, n) == Done(o)
    decreases ticks
  {
    n := 1;
    if st.ip < |Code(p, id)| {
      BoundedTurn(p, id, st, ticks, bound);
      var t := Turn(p, id, st, ticks);
      if t.next.Next? {
        n := BoundedRuns(p, id, t.next.st, t.left - 1, bound, o);
        n := n + 1;
      }
    }
  }

  lemma {:induction false} BoundedTurn(p: Prog, id: nat, st: State, ticks: nat, bound: nat)
    requires Grounded(p) && ticks > 0 && bound >= (if st.ip == 0 then ticks - 1 else ticks)
    requires st.ip < |Code(p, id)| && Turn(p, id, st, ticks).Stepped?
    ensures Step(Code(p, id), p.host.(call := BoundCall(p, bound)), st) == Turn(p, id, st, ticks).next
  {
    var e := Entering(p, id, st);
    if e.Some? && e.value.callee.sequenceId < |p.seqs| {
      LargerBound(p, e.value.callee.sequenceId, Enter(e.value.callee, e.value.args, st.env.world), ticks,
        bound - ticks);
    }
  }

  /** Conversely some number of ticks suffices for what the machine does. */
  lemma {:induction false} RunsBounded(p: Prog, id: nat, st: State, bound: nat, n: nat, o: Outcome) returns (ticks: nat)
    requires Grounded(p) && Run(Code(p, id), p.host.(call := BoundCall(p, bound)), st, n) == Done(o) &&
      !IsLostOutcome(o)
    ensures ticks > 0 && RunFrom(p, id, st, ticks).end == Ended(o)
    decreases n
  {
    ticks := bound + 1;
    if st.ip < |Code(p, id)| {
      var s := Step(Code(p, id), p.host.(call := BoundCall(p, bound)), st);
      if s.Next? {
        var t1 := RunsBounded(p, id, s.st, bound, n - 1, o);
        ticks := bound + t1 + 1;
        StepIsTurn(p, id, st, bound, ticks);
        var u := Turn(p, id, st, ticks);
        LargerBound(p, id, s.st, t1, u.left - 1 - t1);
      } else {
        StepIsTurn(p, id, st, bound, ticks);
      }
    }
  }

  lemma {:induction false} StepIsTurn(p: Prog, id: nat, st: State, bound: nat, ticks: nat)
    requires Grounded(p) && st.ip < |Code(p, id)| && ticks > bound
    requires !IsLostStep(Step(Code(p, id), p.host.(call := BoundCall(p, bound)), st))
    ensures var t := Turn(p, id, st, ticks);
      t.Stepped? && t.next == Step(Code(p, id), p.host.(call := BoundCall(p, bound)), st) && t.left >= ticks - bound
  {
    var e := Entering(p, id, st);
    if e.Some? && e.value.callee.sequenceId < |p.seqs| && bound > 0 {
      LargerBound(p, e.value.callee.sequenceId, Enter(e.value.callee, e.value.args, st.env.world), bound,
        ticks - bound);
    }
  }

  // ---- calls as the source means them ----

  /** A program and the bodies its sequences were compiled from. */
  datatype Source = Source(p: Prog, bodies: seq<Block>, rule: Reading)

  ghost predicate Compiled(s: Source) {
    && |s.p.seqs| == |s.bodies|
    && (forall id :: 0 <= id < |s.bodies| ==> Lowered(s.p.seqs[id], s.bodies[id], id + 1))
    && (s.rule.Intended? ==> PlainBodies(s.bodies, false) || (PlainBodies(s.bodies, true) && PlainTests(s.p)))
  }

  predicate PlainBodies(bodies: seq<Block>, loops: bool) {
    forall id :: 0 <= id < |bodies| ==> PlainBlock(bodies[id], loops)
  }

  /** Tests are truthful, and it is the host that says what they are. */
  ghost predicate PlainTests(p: Prog) {
    Truthful(p.host) && forall v, w :: HostTest(p, p.host.getDunder(v, AsBool, w))
  }

  /** A special method that no sequence was compiled for. */
  predicate HostTest(p: Prog, m: Answer) {
    m.Value? ==> p.callee(m.v, m.w).None?
  }

  /** `call` does what the host does with everything that is not a compiled function. */
  ghost predicate Extends(p: Prog, call: CallFn) {
    forall f, args, w :: p.callee(f, w).None? ==> call(f, args, w) == p.host.call(f, args, w)
  }

  lemma {:induction false} StillTruthful(p: Prog, call: CallFn)
    requires PlainTests(p) && Extends(p, call)
    ensures Truthful(p.host.(call := call))
  {
    var ops := p.host.(call := call);
    forall v, env: Env ensures Judge(ops, Invoke(ops, env, v, AsBool, [v])) == Judge(ops, Val(v, env)) {
      assert HostTest(p, p.host.getDunder(v, AsBool, env.world));
      assert Judge(p.host, Invoke(p.host, env, v, AsBool, [v])) == Judge(p.host, Val(v, env));
    }
  }

  ghost predicate EndsAt(s: Source, call: CallFn, id: nat, env: Env, o: Outcome)
    requires id < |s.bodies|
  {
    Ends(s.p.host.(call := call), s.rule, s.bodies[id], id + 1, env, o)
  }

  /** A call at most `d` deep: run the body, with calls in it at most `d - 1` deep. */
  ghost function SourceAnswer(s: Source, d: nat, f: Object, args: seq<Object>, w: World): Answer
    decreases d, 0
  {
    match s.p.callee(f, w)
    case None => s.p.host.call(f, args, w)
    case Some(c) =>
      if c.sequenceId >= |s.bodies| then Throw(NoSequence, w)
      else if d == 0 then Throw(Lost, w)
      else
        var inner, env := SourceCall(s, d - 1), Enter(c, args, w).env;
        if exists o :: EndsAt(s, inner, c.sequenceId, env, o) && !IsLostOutcome(o) then
          var o :| EndsAt(s, inner, c.sequenceId, env, o) && !IsLostOutcome(o);
          AnswerOf(s.p.host, o)
        else Throw(Lost, w)
  }

  ghost function SourceCall(s: Source, d: nat): CallFn
    decreases d, 1
  {
    (f: Object, args: seq<Object>, w: World) => SourceAnswer(s, d, f, args, w)
  }

  /** Lowering one sequence preserves meaning, whatever calls of compiled functions mean. */
  lemma {:induction false} OneSequence(s: Source, call: CallFn, id: nat, st: State, o: Outcome)
    requires Compiled(s) && id < |s.bodies| && st.ip == 0 && Extends(s.p, call)
    ensures Halts(Code(s.p, id), s.p.host.(call := call), st, o) <==> EndsAt(s, call, id, st.env, o)
  {
    var ops := s.p.host.(call := call);
    LoweringPreservesMeaning(s.p.seqs[id], ops, s.bodies[id], id + 1, st, o);
    if s.rule.Intended? {
      var loops := !PlainBodies(s.bodies, false);
      if loops { StillTruthful(s.p, call); }
      PlainProgramsArePreserved(s.p.seqs[id], ops, s.bodies[id], loops, id + 1, st, o);
    }
  }

  lemma {:induction false} SourceExtends(s: Source, d: nat)
    ensures Extends(s.p, SourceCall(s, d))
  {
  }

  /** Where a call ends, that is its answer. */
  lemma {:induction false} SourceAnswers(s: Source, d: nat, c: Callee, f: Object, args: seq<Object>, w: World,
        o: Outcome)
    requires Compiled(s) && s.p.callee(f, w) == Some(c) && c.sequenceId < |s.bodies| && !IsLostOutcome(o)
    requires EndsAt(s, SourceCall(s, d), c.sequenceId, Enter(c, args, w).env, o)
    ensures SourceAnswer(s, d + 1, f, args, w) == AnswerOf(s.p.host, o)
  {
    var st, inner := Enter(c, args, w), SourceCall(s, d);
    SourceExtends(s, d);
    forall q | EndsAt(s, inner, c.sequenceId, st.env, q) ensures q == o {
      OneSequence(s, inner, c.sequenceId, st, q);
      OneSequence(s, inner, c.sequenceId, st, o);
      HaltsUnique(Code(s.p, c.sequenceId), s.p.host.(call := inner), st, q, o);
    }
  }

  /** The outcome behind an answer that is neither the host's nor `Lost`. */
  lemma {:induction false} SourceAnswered(s: Source, d: nat, c: Callee, f: Object, args: seq<Object>, w: World)
    returns (o: Outcome)
    requires s.p.callee(f, w) == Some(c) && c.sequenceId < |s.bodies| && !IsLost(SourceAnswer(s, d, f, args, w))
    ensures d > 0 && EndsAt(s, SourceCall(s, d - 1), c.sequenceId, Enter(c, args, w).env, o) && !IsLostOutcome(o)
    ensures SourceAnswer(s, d, f, args, w) == AnswerOf(s.p.host, o)
  {
    var inner, env := SourceCall(s, d - 1), Enter(c, args, w).env;
    o :| EndsAt(s, inner, c.sequenceId, env, o) && !IsLostOutcome(o) &&
      SourceAnswer(s, d, f, args, w) == AnswerOf(s.p.host, o);
  }

  /** A run under `a` is a run under a better-informed `b`, hence so is an execution of the source. */
  lemma {:induction false} EndsBelow(s: Source, a: CallFn, b: CallFn, id: nat, st: State, o: Outcome)
    requires Compiled(s) && id < |s.bodies| && st.ip == 0 && Below(a, b) && EndsAt(s, a, id, st.env, o) &&
      !IsLostOutcome(o)
    requires Extends(s.p, a) && Extends(s.p, b)
    ensures EndsAt(s, b, id, st.env, o)
  {
    OneSequence(s, a, id, st, o);
    OneSequence(s, b, id, st, o);
    var n: nat :| Run(Code(s.p, id), s.p.host.(call := a), st, n) == Done(o);
    RunBelow(Code(s.p, id), s.p.host, a, b, st, n, o);
  }

  lemma {:induction false} SourceBelow(s: Source, d: nat, e: nat)
    requires Compiled(s) && d <= e
    ensures Below(SourceCall(s, d), SourceCall(s, e))
    decreases d
  {
    forall f, args, w
      ensures IsLost(SourceAnswer(s, d, f, args, w)) ||
      SourceAnswer(s, e, f, args, w) == SourceAnswer(s, d, f, args, w) {
      var c := s.p.callee(f, w);
      if c.Some? && c.value.sequenceId < |s.bodies| && !IsLost(SourceAnswer(s, d, f, args, w)) {
        var o := SourceAnswered(s, d, c.value, f, args, w);
        SourceBelow(s, d - 1, e - 1);
        SourceExtends(s, d - 1);
        SourceExtends(s, e - 1);
        EndsBelow(s, SourceCall(s, d - 1), SourceCall(s, e - 1), c.value.sequenceId, Enter(c.value, args, w), o);
        SourceAnswers(s, e - 1, c.value, f, args, w, o);
      }
    }
  }

  ghost function SourceChain(s: Source): nat -> CallFn {
    (d: nat) => SourceCall(s, d)
  }

  ghost function BoundChain(p: Prog): nat -> CallFn
    requires Grounded(p)
  {
    (t: nat) => BoundCall(p, t)
  }

  lemma {:induction false} BothChains(s: Source)
    requires Compiled(s) && Grounded(s.p)
    ensures Chain(SourceChain(s)) && Chain(BoundChain(s.p))
  {
    forall t: nat, u: nat | t <= u
      ensures Below(SourceChain(s)(t), SourceChain(s)(u)) && Below(BoundChain(s.p)(t), BoundChain(s.p)(u))
    {
      SourceBelow(s, t, u);
      BoundBelow(s.p, t, u);
    }
  }

  /** Whatever a call answers in the source, the evaluator answers within some number of ticks. */
  lemma {:induction false} SourceReached(s: Source, d: nat)
    requires Compiled(s) && Grounded(s.p)
    ensures Reached(SourceCall(s, d), BoundChain(s.p))
    decreases d
  {
    forall f, args, w | !IsLost(SourceAnswer(s, d, f, args, w))
      ensures exists t :: BoundChain(s.p)(t)(f, args, w) == SourceAnswer(s, d, f, args, w)
    {
      var c := s.p.callee(f, w);
      if c.Some? && c.value.sequenceId < |s.bodies| {
        var o := SourceAnswered(s, d, c.value, f, args, w);
        SourceReached(s, d - 1);
        var t := EnoughTicks(s, d - 1, c.value.sequenceId, Enter(c.value, args, w), o);
        assert BoundChain(s.p)(t)(f, args, w) == SourceAnswer(s, d, f, args, w);
      } else {
        assert BoundChain(s.p)(0)(f, args, w) == SourceAnswer(s, d, f, args, w);
      }
    }
  }

  lemma {:induction false} EnoughTicks(s: Source, d: nat, id: nat, st: State, o: Outcome) returns (ticks: nat)
    requires Compiled(s) && Grounded(s.p) && id < |s.bodies| && st.ip == 0 && !IsLostOutcome(o)
    requires Reached(SourceCall(s, d), BoundChain(s.p)) && EndsAt(s, SourceCall(s, d), id, st.env, o)
    ensures ticks > 0 && RunFrom(s.p, id, st, ticks).end == Ended(o)
  {
    var code := Code(s.p, id);
    SourceExtends(s, d);
    OneSequence(s, SourceCall(s, d), id, st, o);
    var n: nat :| Run(code, s.p.host.(call := SourceCall(s, d)), st, n) == Done(o);
    BothChains(s);
    var t := RunReaches(code, s.p.host, SourceCall(s, d), BoundChain(s.p), st, n, o);
    ticks := RunsBounded(s.p, id, st, t, n, o);
  }

  /** Whatever the evaluator answers within a number of ticks, the source answers at some depth. */
  lemma {:induction false} BoundReached(s: Source, t: nat)
    requires Compiled(s) && Grounded(s.p)
    ensures Reached(BoundCall(s.p, t), SourceChain(s))
    decreases t
  {
    forall f, args, w | !IsLost(BoundAnswer(s.p, t, f, args, w))
      ensures exists d :: SourceChain(s)(d)(f, args, w) == BoundAnswer(s.p, t, f, args, w)
    {
      var c := s.p.callee(f, w);
      if c.Some? && c.value.sequenceId < |s.bodies| {
        var st := Enter(c.value, args, w);
        var o := RunFrom(s.p, c.value.sequenceId, st, t).end.outcome;
        BoundReached(s, t - 1);
        var d := EnoughDepth(s, c.value.sequenceId, st, t, o);
        SourceAnswers(s, d, c.value, f, args, w, o);
        assert SourceChain(s)(d + 1)(f, args, w) == BoundAnswer(s.p, t, f, args, w);
      } else {
        assert SourceChain(s)(0)(f, args, w) == BoundAnswer(s.p, t, f, args, w);
      }
    }
  }

  lemma {:induction false} EnoughDepth(s: Source, id: nat, st: State, ticks: nat, o: Outcome) returns (d: nat)
    requires Compiled(s) && Grounded(s.p) && id < |s.bodies| && st.ip == 0 && ticks > 0 && !IsLostOutcome(o)
    requires Reached(BoundCall(s.p, ticks - 1), SourceChain(s)) && RunFrom(s.p, id, st, ticks).end == Ended(o)
    ensures EndsAt(s, SourceCall(s, d), id, st.env, o)
  {
    var n := BoundedRuns(s.p, id, st, ticks, ticks - 1, o);
    BothChains(s);
    d := RunReaches(Code(s.p, id), s.p.host, BoundCall(s.p, ticks - 1), SourceChain(s), st, n, o);
    SourceExtends(s, d);
    OneSequence(s, SourceCall(s, d), id, st, o);
  }

  /** Some tick bound lets the evaluator end with `o`. */
  ghost predicate Evaluates(p: Prog, id: nat, st: State, o: Outcome)
    requires Grounded(p)
  {
    exists ticks: nat | ticks > 0 :: RunFrom(p, id, st, ticks).end == Ended(o)
  }

  /** The source ends with `o`, with calls nested to some depth. */
  ghost predicate Means(s: Source, id: nat, env: Env, o: Outcome)
    requires id < |s.bodies|
  {
    exists d: nat :: EndsAt(s, SourceCall(s, d), id, env, o)
  }

  /**
   For every compiled program, with functions calling one another to any depth:
   the evaluator ends with `o`, given enough ticks, exactly when the source does.
   */
  lemma {:induction false} ProgramsArePreserved(s: Source, id: nat, st: State, o: Outcome)
    requires Compiled(s) && Grounded(s.p) && id < |s.bodies| && st.ip == 0 && !IsLostOutcome(o)
    ensures Evaluates(s.p, id, st, o) <==> Means(s, id, st.env, o)
  {
    if Evaluates(s.p, id, st, o) {
      var ticks: nat :| ticks > 0 && RunFrom(s.p, id, st, ticks).end == Ended(o);
      BoundReached(s, ticks - 1);
      var d := EnoughDepth(s, id, st, ticks, o);
    }
    if Means(s, id, st.env, o) {
      var d: nat :| EndsAt(s, SourceCall(s, d), id, st.env, o);
      SourceReached(s, d);
      var ticks := EnoughTicks(s, d, id, st, o);
    }
  }
}
