/**
 The flat machine (montyc_hlirt/src/eval/inst_exec.rs and
 montyc_hlirt/src/eval/ctx/evaluator.rs): one frame, one instruction at a time.

 Everything outside the frame is the `World`.  The operations that reach it
 are parameters: they receive the current world and hand back the next one,
 so the order in which they happen, and that each happens once, is part of
 every statement made about a run.
 */
module Machine {
  import opened RawInst

  /** An object id. */
  type Object = nat

  type World(!new)

  datatype Fault =
    | Raised(kind: nat)   // an exception
    | NotBool             // an `If` test that is neither `True` nor `False`
    | MissingSlot         // an operand slot that holds nothing
    | NoSequence          // a function whose sequence does not exist
    | Lost                // a nested call that never returns

  datatype Answer = Value(v: Object, w: World) | Throw(fault: Fault, w: World)

  datatype FuncInfo = FuncInfo(name: Name, params: seq<(Name, Option<Object>)>, result: Option<Object>, sequenceId: nat)

  datatype Ops = Ops(
    trueV: Object,
    falseV: Object,
    noneV: Object,
    constant: (Constant, World) -> Answer,
    refAsStr: (Name, World) -> Answer,
    tuple: (seq<Object>, World) -> Answer,
    getDunder: (Object, Dunder, World) -> Answer,
    getAttr: (Object, Object, World) -> Answer,
    setAttr: (Object, Object, Object, World) -> Answer,
    lookup: (Option<Object>, Name, World) -> Answer,
    publish: (Object, Name, Object, World) -> Answer,
    makeFunction: (FuncInfo, World) -> Answer,
    call: (Object, seq<Object>, World) -> Answer)

  /** The names a frame can see: its namespace object (module frames only) and its locals. */
  datatype Env = Env(scope: Option<Object>, locals: map<Name, Object>, world: World)

  datatype EnvResult = Ok(env: Env) | Bad(fault: Fault, w: World)

  /** `define`: publish on the namespace object if there is one, then bind the local. */
  function Define(ops: Ops, env: Env, n: Name, v: Object): EnvResult {
    match env.scope
    case None => Ok(env.(locals := env.locals[n := v]))
    case Some(o) =>
      match ops.publish(o, n, v, env.world)
      case Throw(x, w) => Bad(x, w)
      case Value(_, w) => Ok(env.(locals := env.locals[n := v], world := w))
  }

  /** `lookup`: the locals first, then the enclosing scopes. */
  function Lookup(ops: Ops, env: Env, n: Name): Answer {
    if n in env.locals then Value(env.locals[n], env.world) else ops.lookup(env.scope, n, env.world)
  }

  // ---- one step ----

  datatype State = State(ip: nat, values: map<nat, Object>, env: Env)

  datatype Outcome =
    | Completed(env: Env)           // ran past the last instruction
    | Returned(v: Object, w: World)
    | Failed(fault: Fault, w: World)

  datatype StepResult = Next(st: State) | Halt(outcome: Outcome)

  /** Store a result in the current slot and go on. */
  function Store(st: State, a: Answer): StepResult {
    match a
    case Value(v, w) => Next(State(st.ip + 1, st.values[st.ip := v], st.env.(world := w)))
    case Throw(x, w) => Halt(Failed(x, w))
  }

  function Skip(st: State): StepResult {
    Next(st.(ip := st.ip + 1))
  }

  function Crash(st: State): StepResult {
    Halt(Failed(MissingSlot, st.env.world))
  }

  predicate Present(values: map<nat, Object>, slots: seq<nat>) {
    forall i :: 0 <= i < |slots| ==> slots[i] in values
  }

  function Read(values: map<nat, Object>, slots: seq<nat>): (r: seq<Object>)
    requires Present(values, slots)
  {
    seq(|slots|, i requires 0 <= i < |slots| => values[slots[i]])
  }

  predicate OptPresent(values: map<nat, Object>, slot: Option<nat>) {
    slot.Some? ==> slot.value in values
  }

  function OptRead(values: map<nat, Object>, slot: Option<nat>): Option<Object>
    requires OptPresent(values, slot)
  {
    if slot.None? then None else Some(values[slot.value])
  }

  predicate ParamsPresent(values: map<nat, Object>, params: seq<(Name, Option<nat>)>) {
    forall i :: 0 <= i < |params| ==> OptPresent(values, params[i].1)
  }

  function ReadParams(values: map<nat, Object>, params: seq<(Name, Option<nat>)>): seq<(Name, Option<Object>)>
    requires ParamsPresent(values, params)
  {
    seq(|params|, i requires 0 <= i < |params| => (params[i].0, OptRead(values, params[i].1)))
  }

  /** Where `if` goes: a missing case falls through. */
  function Choose(target: Option<int>, ip: nat): int {
    match target
    case None => ip + 1
    case Some(t) => t
  }

  /** A jump to something that is not an index leaves the instruction vector. */
  function Jump(st: State, to: int): StepResult {
    if to < 0 then Halt(Completed(st.env)) else Next(st.(ip := to))
  }

  function Step(code: seq<Inst>, ops: Ops, st: State): StepResult {
    if st.ip >= |code| then Halt(Completed(st.env)) else
    var vs := st.values;
    var w := st.env.world;
    match code[st.ip]
    case Const(c) => Store(st, ops.constant(c, w))
    case RefAsStr(r) => Store(st, ops.refAsStr(r, w))
    case UseVar(n) => Store(st, Lookup(ops, st.env, n))
    case Tuple(elems) =>
      if Present(vs, elems) then Store(st, ops.tuple(Read(vs, elems), w)) else Crash(st)
    case GetDunder(o, d) =>
      if o in vs then Store(st, ops.getDunder(vs[o], d, w)) else Crash(st)
    case GetAttribute(o, a) =>
      if o in vs && a in vs then Store(st, ops.getAttr(vs[o], vs[a], w)) else Crash(st)
    case Call(f, args) =>
      if f in vs && Present(vs, args) then Store(st, ops.call(vs[f], Read(vs, args), w)) else Crash(st)
    case SetAttribute(o, a, v) =>
      if o in vs && a in vs && v in vs then
        match ops.setAttr(vs[o], vs[a], vs[v], w)
        case Throw(x, w1) => Halt(Failed(x, w1))
        case Value(_, w1) => Next(State(st.ip + 1, vs, st.env.(world := w1)))
      else Crash(st)
    case SetVar(n, v) =>
      if v in vs then
        match Define(ops, st.env, n, vs[v])
        case Bad(x, w1) => Halt(Failed(x, w1))
        case Ok(env) => Next(State(st.ip + 1, vs, env))
      else Crash(st)
    case Defn(n, ps, r, id) =>
      if ParamsPresent(vs, ps) && OptPresent(vs, r) then
        match ops.makeFunction(FuncInfo(n, ReadParams(vs, ps), OptRead(vs, r), id), w)
        case Throw(x, w1) => Halt(Failed(x, w1))
        case Value(f, w1) =>
          match Define(ops, st.env.(world := w1), n, f)
          case Bad(x, w2) => Halt(Failed(x, w2))
          case Ok(env) => Next(State(st.ip + 1, vs[st.ip := f], env))
      else Crash(st)
    case If(test, truthy, falsey) =>
      if test !in vs then Crash(st)
      else if vs[test] == ops.trueV then Jump(st, Choose(truthy, st.ip))
      else if vs[test] == ops.falseV then Jump(st, Choose(falsey, st.ip))
      else Halt(Failed(NotBool, w))
    case Br(to) => Jump(st, to)
    case PhiJump(recv, v) =>
      if v in vs then Next(State(recv, vs[recv := vs[v]], st.env)) else Crash(st)
    case Return(v) =>
      if v in vs then Halt(Outcome.Returned(vs[v], w)) else Crash(st)
    case Nop => Skip(st)
    case JumpTarget => Skip(st)
    case PhiRecv => Skip(st)
    case SetAnnotation(_, _) => Skip(st)
  }

  // ---- runs ----

  datatype RunResult = Running(st: State) | Done(outcome: Outcome)

  /** The machine after at most `n` steps. */
  function Run(code: seq<Inst>, ops: Ops, st: State, n: nat): RunResult
    decreases n, code, ops, st
  {
    if n == 0 then Running(st) else
    match Step(code, ops, st)
    case Halt(o) => Done(o)
    case Next(st1) => Run(code, ops, st1, n - 1)
  }

  /** The machine gets from `a` to `b` in `n` steps. */
  ghost predicate Path(code: seq<Inst>, ops: Ops, a: State, n: nat, b: State) {
    forall m: nat {:trigger Run(code, ops, b, m)} :: Run(code, ops, a, n + m) == Run(code, ops, b, m)
  }

  /** The machine started at `a` has halted with `o` after at most `n` steps. */
  ghost predicate Stops(code: seq<Inst>, ops: Ops, a: State, n: nat, o: Outcome) {
    forall m: nat {:trigger Run(code, ops, a, m)} :: m >= n ==> Run(code, ops, a, m) == Done(o)
  }

  lemma {:induction false} PathOne(code: seq<Inst>, ops: Ops, a: State)
    ensures Step(code, ops, a).Next? ==> Path(code, ops, a, 1, Step(code, ops, a).st)
    ensures Step(code, ops, a).Halt? ==> Stops(code, ops, a, 1, Step(code, ops, a).outcome)
  {
  }

  lemma {:induction false} PathThen(code: seq<Inst>, ops: Ops, a: State, n: nat, b: State, m: nat, c: State)
    requires Path(code, ops, a, n, b) && Path(code, ops, b, m, c)
    ensures Path(code, ops, a, n + m, c)
  {
    forall k: nat ensures Run(code, ops, a, n + m + k) == Run(code, ops, c, k) {
      assert Run(code, ops, b, m + k) == Run(code, ops, c, k);
      assert Run(code, ops, a, n + (m + k)) == Run(code, ops, b, m + k);
      assert n + (m + k) == n + m + k;
    }
  }

  lemma {:induction false} PathStops(code: seq<Inst>, ops: Ops, a: State, n: nat, b: State, m: nat, o: Outcome)
    requires Path(code, ops, a, n, b) && Stops(code, ops, b, m, o)
    ensures Stops(code, ops, a, n + m, o)
  {
    forall k: nat | k >= n + m ensures Run(code, ops, a, k) == Done(o) {
      assert Run(code, ops, b, k - n) == Done(o);
      assert Run(code, ops, a, n + (k - n)) == Run(code, ops, b, k - n);
      assert n + (k - n) == k;
    }
  }

  /** A run that has halted stays halted. */
  lemma {:induction false} RunHalted(code: seq<Inst>, ops: Ops, a: State, n: nat, m: nat)
    requires Run(code, ops, a, n).Done? && n <= m
    ensures Run(code, ops, a, m) == Run(code, ops, a, n)
    decreases n
  {
    if Step(code, ops, a).Next? {
      RunHalted(code, ops, Step(code, ops, a).st, n - 1, m - 1);
    }
  }
}
