/**
 What calling a compiled function answers, from the body it was compiled from.
 */
module Calls {
  import opened RawInst
  import opened Ast
  import opened Machine
  import opened Lower
  import opened Meaning
  import opened Correctness
  import opened Clock
  import opened Ticks
  import opened Program
  import opened Names

  /** `f` is a function with the body `b`, known to the program as `c`. */
  ghost predicate Calls(s: Source, c: Callee, f: Object, w: World, b: Block) {
    Compiled(s) && s.p.callee(f, w) == Some(c) && c.sequenceId < |s.bodies| && s.bodies[c.sequenceId] == b
  }

  /**
   A body that runs to its end answers `None`, one that returns answers the value
   it returns, and an exception that leaves it leaves the call.
   */
  lemma {:induction false} CallAnswers(s: Source, d: nat, c: Callee, f: Object, args: seq<Object>, w: World,
        b: Block, fuel: nat)
    requires Calls(s, c, f, w, b)
    ensures var r := ExecBlock(s.p.host.(call := SourceCall(s, d)), s.rule, b, c.sequenceId + 1, Enter(c, args, w).env,
        fuel);
      match r
      case Normal(env) => SourceAnswer(s, d + 1, f, args, w) == Value(s.p.host.noneV, env.world)
      case Leave(v, w1) => SourceAnswer(s, d + 1, f, args, w) == Value(v, w1)
      case Error(x, w1) => !x.Lost? ==> SourceAnswer(s, d + 1, f, args, w) == Throw(x, w1)
      case OutOfFuel => true
  {
    var r := ExecBlock(s.p.host.(call := SourceCall(s, d)), s.rule, b, c.sequenceId + 1, Enter(c, args, w).env, fuel);
    if !r.OutOfFuel? && !(r.Error? && r.fault.Lost?) {
      var o := OutcomeOf(r).value;
      assert EndsAt(s, SourceCall(s, d), c.sequenceId, Enter(c, args, w).env, o);
      SourceAnswers(s, d, c, f, args, w, o);
    }
  }

  /** A function whose body is `pass` answers `None` and changes nothing. */
  lemma {:induction false} PassAnswersNone(s: Source, d: nat, c: Callee, f: Object, args: seq<Object>, w: World,
        b: Block)
    requires Calls(s, c, f, w, b) && QuietBlock(b)
    ensures SourceAnswer(s, d + 1, f, args, w) == Value(s.p.host.noneV, w)
  {
    QuietBlockKeeps(s.p.host.(call := SourceCall(s, d)), s.rule, b, c.sequenceId + 1, Enter(c, args, w).env, 0);
    CallAnswers(s, d, c, f, args, w, b, 0);
  }

  /** A function that returns one of its parameters answers the argument in that place. */
  lemma {:induction false} ParameterIsAnswered(s: Source, d: nat, c: Callee, f: Object, args: seq<Object>, w: World,
        i: nat)
    requires i < Paired(c.params, args) && forall j :: i < j < Paired(c.params, args) ==> c.params[j] != c.params[i]
    requires Calls(s, c, f, w, Then(ReturnStmt(Some(NameRef(c.params[i]))), Empty))
    ensures SourceAnswer(s, d + 1, f, args, w) == Value(args[i], w)
  {
    var ops, env := s.p.host.(call := SourceCall(s, d)), Enter(c, args, w).env;
    var b := Then(ReturnStmt(Some(NameRef(c.params[i]))), Empty);
    ParameterMeans(ops, c, args, w, i);
    assert Exec(ops, s.rule, b.head, c.sequenceId + 1, env, 0) == Leave(args[i], w);
    assert ExecBlock(ops, s.rule, b, c.sequenceId + 1, env, 0) == Leave(args[i], w);
    CallAnswers(s, d, c, f, args, w, b, 0);
  }
}
