/**
 The evaluator with nested calls and a tick bound
 (montyc_hlirt/src/eval/ctx/evaluator.rs).

 Every instruction that does not end its frame costs one tick.  The tick that
 finds the counter at one fails, and the failure leaves every frame.  `RunFrom`
 says what a frame does with a given number of ticks, nested frames included,
 and records what happened; `Evaluator` is the mutable evaluator, proved
 against it.
 */
module Ticks {
  import opened RawInst
  import opened Machine

  /** What the evaluator knows of a compiled function: its parameters and its sequence. */
  datatype Callee = Callee(params: seq<Name>, sequenceId: nat)

  /**
   The sequences of a program, the operations of its host, and which objects
   are compiled functions; all other calls go to `host.call`.
   */
  datatype Prog = Prog(seqs: seq<seq<Inst>>, host: Ops, callee: (Object, World) -> Option<Callee>)

  function Code(p: Prog, id: nat): seq<Inst> {
    if id < |p.seqs| then p.seqs[id] else []
  }

  /** No sequence begins with a call. */
  predicate Grounded(p: Prog) {
    forall id :: 0 <= id < |p.seqs| && |p.seqs[id]| > 0 ==> !p.seqs[id][0].Call?
  }

  // ---- frames ----

  /** Bind arguments to parameters, as many as there are of both; the last binding of a name counts. */
  function Bind(params: seq<Name>, args: seq<Object>): map<Name, Object>
    decreases |args|, params
  {
    var n := if |params| < |args| then |params| else |args|;
    if n == 0 then map[] else Bind(params[..n - 1], args[..n - 1])[params[n - 1] := args[n - 1]]
  }

  /** The first slots of a call frame hold the arguments before anything runs. */
  function Seed(params: seq<Name>, args: seq<Object>): map<nat, Object> {
    map n: nat | n < |params| && n < |args| :: args[n]
  }

  function Enter(c: Callee, args: seq<Object>, w: World): (st: State)
    ensures st.ip == 0
  {
    State(0, Seed(c.params, args), Env(None, Bind(c.params, args), w))
  }

  /** What a caller gets from a frame; running past the end answers `None`. */
  function AnswerOf(host: Ops, o: Outcome): Answer {
    match o
    case Completed(env) => Value(host.noneV, env.world)
    case Returned(v, w) => Value(v, w)
    case Failed(x, w) => Throw(x, w)
  }

  /** A call that is about to enter a compiled function. */
  datatype Entry = Entry(callee: Callee, args: seq<Object>)

  function Entering(p: Prog, id: nat, st: State): (e: Option<Entry>)
    ensures e.Some? ==> st.ip < |Code(p, id)| && Code(p, id)[st.ip].Call?
  {
    var code := Code(p, id);
    if st.ip < |code| && code[st.ip].Call? && code[st.ip].callable in st.values &&
      Present(st.values, code[st.ip].arguments) then
      match p.callee(st.values[code[st.ip].callable], st.env.world)
      case None => None
      case Some(c) => Some(Entry(c, Read(st.values, code[st.ip].arguments)))
    else None
  }

  // ---- bounded runs ----

  datatype Event = Executed(sequenceId: nat, ip: nat) | Tick

  datatype Ending = Ended(outcome: Outcome) | Tripped(w: World)

  /** How a run ends, the ticks it leaves, and all that happened, in every frame. */
  datatype Bounded = Bounded(end: Ending, left: nat, trace: seq<Event>)

  /** One instruction, with all the frames it enters: a step, or the bound tripped in one of them. */
  datatype TurnResult = Stepped(next: StepResult, left: nat, trace: seq<Event>) | Cut(w: World, left: nat,
    trace: seq<Event>)

  function RunFrom(p: Prog, id: nat, st: State, ticks: nat): (r: Bounded)
    requires Grounded(p) && ticks > 0
    ensures 0 < r.left <= ticks
    decreases ticks, if st.ip == 0 then 0 else 1, 1, p, id
  {
    if st.ip >= |Code(p, id)| then Bounded(Ended(Completed(st.env)), ticks, []) else
    match Turn(p, id, st, ticks)
    case Cut(w, left, trace) => Bounded(Tripped(w), left, trace)
    case Stepped(Halt(o), left, trace) => Bounded(Ended(o), left, trace)
    case Stepped(Next(st1), left, trace) =>
      if left == 1 then Bounded(Tripped(st1.env.world), 1, trace + [Tick])
      else
        var r := RunFrom(p, id, st1, left - 1);
        r.(trace := trace + [Tick] + r.trace)
  }

  function Turn(p: Prog, id: nat, st: State, ticks: nat): (r: TurnResult)
    requires Grounded(p) && ticks > 0 && st.ip < |Code(p, id)|
    ensures 0 < r.left <= ticks
    decreases ticks, if st.ip == 0 then 0 else 1, 0, p, id
  {
    match Entering(p, id, st)
    case None => Stepped(Step(Code(p, id), p.host, st), ticks, [Executed(id, st.ip)])
    case Some(Entry(c, args)) =>
      if c.sequenceId >= |p.seqs| then Stepped(Halt(Failed(NoSequence, st.env.world)), ticks, [Executed(id, st.ip)])
      else
        var r := RunFrom(p, c.sequenceId, Enter(c, args, st.env.world), ticks);
        match r.end
        case Tripped(w) => Cut(w, r.left, [Executed(id, st.ip)] + r.trace)
        case Ended(o) => Stepped(Store(st, AnswerOf(p.host, o)), r.left, [Executed(id, st.ip)] + r.trace)
  }

  /** The number of ticks in a trace. */
  function Count(trace: seq<Event>): nat {
    if trace == [] then 0 else Count(trace[1..]) + (if trace[0].Tick? then 1 else 0)
  }

  lemma {:induction false} CountJoin(a: seq<Event>, b: seq<Event>)
    ensures Count(a + b) == Count(a) + Count(b)
  {
    if a == [] {
      assert a + b == b;
    } else {
      assert (a + b)[1..] == a[1..] + b;
      CountJoin(a[1..], b);
    }
  }

  /** Ticks are conserved over all frames, and a tripped bound is the last thing that happens anywhere. */
  ghost predicate Accounted(tripped: bool, left: nat, trace: seq<Event>, ticks: nat) {
    if tripped then left == 1 && Count(trace) == ticks && |trace| > 0 && trace[|trace| - 1] == Tick
    else Count(trace) + left == ticks
  }

  lemma {:induction false} TicksAreConserved(p: Prog, id: nat, st: State, ticks: nat)
    requires Grounded(p) && ticks > 0
    ensures var r := RunFrom(p, id, st, ticks); Accounted(r.end.Tripped?, r.left, r.trace, ticks)
    decreases ticks, if st.ip == 0 then 0 else 1, 1
  {
    if st.ip < |Code(p, id)| {
      TurnIsAccounted(p, id, st, ticks);
      var t := Turn(p, id, st, ticks);
      if t.Stepped? && t.next.Next? {
        CountJoin(t.trace, [Tick]);
        if t.left > 1 {
          TicksAreConserved(p, id, t.next.st, t.left - 1);
          CountJoin(t.trace + [Tick], RunFrom(p, id, t.next.st, t.left - 1).trace);
        }
      }
    }
  }

  lemma {:induction false} TurnIsAccounted(p: Prog, id: nat, st: State, ticks: nat)
    requires Grounded(p) && ticks > 0 && st.ip < |Code(p, id)|
    ensures var t := Turn(p, id, st, ticks); Accounted(t.Cut?, t.left, t.trace, ticks)
    decreases ticks, if st.ip == 0 then 0 else 1, 0
  {
    var e := Entering(p, id, st);
    if e.Some? && e.value.callee.sequenceId < |p.seqs| {
      var st1 := Enter(e.value.callee, e.value.args, st.env.world);
      TicksAreConserved(p, e.value.callee.sequenceId, st1, ticks);
      CountJoin([Executed(id, st.ip)], RunFrom(p, e.value.callee.sequenceId, st1, ticks).trace);
    }
  }

  // ---- a larger bound ----

  /** What `more` extra ticks change: nothing but the ticks left, unless the bound tripped; then the run goes on. */
  ghost predicate Extends(r: Bounded, s: Bounded, more: nat) {
    && r.trace <= s.trace
    && (r.end.Ended? ==> s == r.(left := r.left + more))
  }

  lemma {:induction false} LargerBound(p: Prog, id: nat, st: State, ticks: nat, more: nat)
    requires Grounded(p) && ticks > 0
    ensures Extends(RunFrom(p, id, st, ticks), RunFrom(p, id, st, ticks + more), more)
    decreases ticks, if st.ip == 0 then 0 else 1, 1
  {
    if st.ip < |Code(p, id)| {
      LargerTurn(p, id, st, ticks, more);
      var t, u := Turn(p, id, st, ticks), Turn(p, id, st, ticks + more);
      if t.Cut? {
        assert u.trace <= RunFrom(p, id, st, ticks + more).trace;
      } else if t.next.Next? && t.left > 1 {
        LargerBound(p, id, t.next.st, t.left - 1, more);
        assert t.left - 1 + more == u.left - 1;
      }
    }
  }

  lemma {:induction false} LargerTurn(p: Prog, id: nat, st: State, ticks: nat, more: nat)
    requires Grounded(p) && ticks > 0 && st.ip < |Code(p, id)|
    ensures var t, u := Turn(p, id, st, ticks), Turn(p, id, st, ticks + more);
      t.trace <= u.trace && (t.Stepped? ==> u == Stepped(t.next, t.left + more, t.trace))
    decreases ticks, if st.ip == 0 then 0 else 1, 0
  {
    var e := Entering(p, id, st);
    if e.Some? && e.value.callee.sequenceId < |p.seqs| {
      LargerBound(p, e.value.callee.sequenceId, Enter(e.value.callee, e.value.args, st.env.world), ticks, more);
    }
  }

  // ---- the evaluator ----

  class Evaluator {
    const p: Prog
    var nTicks: nat
    /** Everything executed and every tick, in order. */
    ghost var log: seq<Event>

    constructor (p: Prog, bound: nat)
      requires Grounded(p) && bound > 0
      ensures this.p == p && nTicks == bound && log == []
    {
      this.p := p;
      nTicks, log := bound, [];
    }

    ghost predicate Valid()
      reads this
    {
      Grounded(p) && nTicks > 0
    }

    /** `tick`: count down, and fail instead of reaching zero. */
    method Tick() returns (ok: bool)
      requires Valid()
      modifies this
      ensures Valid() && log == old(log) + [Event.Tick] && ok == (old(nTicks) > 1)
      ensures nTicks == if ok then old(nTicks) - 1 else old(nTicks)
    {
      log := log + [Event.Tick];
      if nTicks == 1 { return false; }
      nTicks := nTicks - 1;
      return true;
    }

    /**
     The main loop of `run_until_complete`: sequence 0 in the frame of its module; a module
     that returns is a panic.
     */
    method RunUntilComplete(start: State) returns (r: ModuleEnd)
      requires Valid() && start.ip == 0
      modifies this
      ensures Valid()
      ensures var b := RunFrom(p, 0, start, old(nTicks));
        && nTicks == b.left && log == old(log) + b.trace
        && match b.end
           case Tripped(_) => r == OutOfTicks
           case Ended(Completed(env)) => r == Finished(env)
           case Ended(Failed(x, _)) => r == Uncaught(x)
           case Ended(Returned(_, _)) => r == ReturnInModule
    {
      var end := ExecSeqWithFrame(0, start);
      match end
      case Tripped(_) => r := OutOfTicks;
      case Ended(Completed(env)) => r := Finished(env);
      case Ended(Failed(x, _)) => r := Uncaught(x);
      case Ended(Returned(_, _)) => r := ReturnInModule;
    }

    /** `exec_seq_with_frame`: run a sequence in a frame until it ends or the bound trips. */
    method ExecSeqWithFrame(id: nat, start: State) returns (end: Ending)
      requires Valid()
      modifies this
      ensures Valid()
      ensures var r := RunFrom(p, id, start, old(nTicks)); end == r.end && nTicks == r.left && log == old(log) + r.trace
      decreases nTicks, if start.ip == 0 then 0 else 1, 2
    {
      ghost var whole, before := RunFrom(p, id, start, nTicks), log;
      var frame := start;
      while frame.ip < |Code(p, id)|
        invariant Valid() && nTicks <= old(nTicks) && (frame == start || nTicks < old(nTicks))
        invariant RestOf(whole, before, RunFrom(p, id, frame, nTicks), log)
        decreases nTicks
      {
        var next := ExecTurn(id, frame);
        match next {
          case Over(e) => return e;
          case Onward(st) => frame := st;
        }
      }
      return Ended(Completed(frame.env));
    }

    /** One turn of the loop: an instruction, and a tick unless it ended the frame. */
    method ExecTurn(id: nat, st: State) returns (next: Progress)
      requires Valid() && st.ip < |Code(p, id)|
      modifies this
      ensures Valid() && (next.Onward? ==> nTicks < old(nTicks))
      ensures next.Over? ==> RestOf(RunFrom(p, id, st, old(nTicks)), old(log), Bounded(next.end, nTicks, []), log)
      ensures next.Onward? ==> RestOf(RunFrom(p, id, st, old(nTicks)), old(log), RunFrom(p, id, next.st, nTicks), log)
      decreases nTicks, if st.ip == 0 then 0 else 1, 1
    {
      var turn := ExecInst(id, st);
      TurnRest(p, id, st, old(nTicks), old(log));
      match turn
      case CutShort(w) => next := Over(Tripped(w));
      case Went(Halt(o)) => next := Over(Ended(o));
      case Went(Next(st1)) =>
        var ok := Tick();
        next := if ok then Onward(st1) else Over(Tripped(st1.env.world));
    }

    /** `exec_inst`, where a call of a compiled function runs a frame of its own. */
    method ExecInst(id: nat, st: State) returns (next: TurnEnd)
      requires Valid() && st.ip < |Code(p, id)|
      modifies this
      ensures Valid()
      ensures var t := Turn(p, id, st, old(nTicks)); next == EndOf(t) && nTicks == t.left && log == old(log) + t.trace
      decreases nTicks, if st.ip == 0 then 0 else 1, 0
    {
      log := log + [Executed(id, st.ip)];
      match Entering(p, id, st)
      case None => next := Went(Step(Code(p, id), p.host, st));
      case Some(Entry(c, args)) =>
        if c.sequenceId >= |p.seqs| { return Went(Halt(Failed(NoSequence, st.env.world))); }
        var end := ExecSeqWithFrame(c.sequenceId, Enter(c, args, st.env.world));
        match end
        case Tripped(w) => next := CutShort(w);
        case Ended(o) => next := Went(Store(st, AnswerOf(p.host, o)));
    }
  }

  /** What is left to do, after what has been logged since `before`. */
  ghost predicate RestOf(whole: Bounded, before: seq<Event>, rest: Bounded, log: seq<Event>) {
    rest.end == whole.end && rest.left == whole.left && log + rest.trace == before + whole.trace
  }

  /** After one turn, what is left of a run. */
  lemma {:induction false} TurnRest(p: Prog, id: nat, st: State, ticks: nat, before: seq<Event>)
    requires Grounded(p) && ticks > 0 && st.ip < |Code(p, id)|
    ensures var whole, t := RunFrom(p, id, st, ticks), Turn(p, id, st, ticks);
      match t
      case Cut(w, left, trace) => RestOf(whole, before, Bounded(Tripped(w), left, []), before + trace)
      case Stepped(Halt(o), left, trace) => RestOf(whole, before, Bounded(Ended(o), left, []), before + trace)
      case Stepped(Next(st1), left, trace) =>
        var log := before + trace + [Tick];
        if left == 1 then RestOf(whole, before, Bounded(Tripped(st1.env.world), 1, []), log)
        else RestOf(whole, before, RunFrom(p, id, st1, left - 1), log)
  {
    var t := Turn(p, id, st, ticks);
    if t.Stepped? && t.next.Next? && t.left > 1 {
      var rest := RunFrom(p, id, t.next.st, t.left - 1).trace;
      assert before + t.trace + [Tick] + rest == before + (t.trace + [Tick] + rest);
    }
  }

  datatype ModuleEnd = Finished(env: Env) | Uncaught(fault: Fault) | OutOfTicks | ReturnInModule

  datatype Progress = Over(end: Ending) | Onward(st: State)

  datatype TurnEnd = Went(next: StepResult) | CutShort(w: World)

  function EndOf(t: TurnResult): TurnEnd {
    match t
    case Stepped(next, _, _) => Went(next)
    case Cut(w, _, _) => CutShort(w)
  }
}
