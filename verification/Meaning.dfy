/**
 What a program means, defined on the syntax tree.

 Expressions evaluate by structural recursion.  Only `while` can run forever,
 so statements take a bound on loop unfoldings and answer `OutOfFuel` when it
 is not enough.

 Four statements read in two ways, as they are meant (`Intended`) or as the
 emitted instructions behave (`Emitted`): loops, `if` chains, attribute
 assignments and decorated definitions.  In everything else the two are the
 same and follow the code: an operator evaluates both operands and calls the
 special method of the left one (`or` too, whose tree is that of `|`), `not`
 calls a special method, annotations are evaluated, a name that is not yet
 bound in the frame is looked up outside, and making a function binds its name
 before any decorator is called.
 */
module Meaning {
  import opened RawInst
  import opened Ast
  import opened Machine
  import opened Lower

  datatype Reading = Intended | Emitted

  datatype ExprResult = Val(v: Object, env: Env) | Fail(fault: Fault, w: World)
  datatype ExprsResult = Vals(vs: seq<Object>, env: Env) | FailAll(fault: Fault, w: World)
  datatype OptResult = OptVal(v: Option<Object>, env: Env) | FailOpt(fault: Fault, w: World)
  datatype ParamsResult = ParamVals(ps: seq<(Name, Option<Object>)>, env: Env) | FailParams(fault: Fault, w: World)

  function Finish(env: Env, a: Answer): ExprResult {
    match a
    case Value(v, w) => Val(v, env.(world := w))
    case Throw(x, w) => Fail(x, w)
  }

  /** Fetch a special method of `o` and call it on `args`. */
  function Invoke(ops: Ops, env: Env, o: Object, d: Dunder, args: seq<Object>): ExprResult {
    match ops.getDunder(o, d, env.world)
    case Throw(x, w) => Fail(x, w)
    case Value(m, w) => Finish(env, ops.call(m, args, w))
  }

  function EvalExpr(ops: Ops, e: Expr, env: Env): ExprResult
    decreases e, 0, ops, env
  {
    match e
    case Lit(c) => Finish(env, ops.constant(c, env.world))
    case NameRef(n) => Finish(env, Lookup(ops, env, n))
    case TupleLit(elems) => (
      match EvalExprs(ops, elems, env)
      case FailAll(x, w) => Fail(x, w)
      case Vals(vs, env1) => Finish(env1, ops.tuple(vs, env1.world)))
    case BinOp(l, op, r) => (
      match EvalExpr(ops, l, env)
      case Fail(x, w) => Fail(x, w)
      case Val(a, env1) =>
        match EvalExpr(ops, r, env1)
        case Fail(x, w) => Fail(x, w)
        case Val(b, env2) => Invoke(ops, env2, a, InfixDunder(op), [a, b]))
    case Unary(op, v) => (
      match EvalExpr(ops, v, env)
      case Fail(x, w) => Fail(x, w)
      case Val(a, env1) => Invoke(ops, env1, a, UnaryDunder(op), [a]))
    case Ternary(test, body, orelse) => (
      match EvalTest(ops, test, env)
      case Fail(x, w) => Fail(x, w)
      case Val(t, env1) =>
        if t == ops.trueV then EvalExpr(ops, body, env1)
        else if t == ops.falseV then EvalExpr(ops, orelse, env1)
        else Fail(NotBool, env1.world))
    case Named(n, v) => (
      match EvalExpr(ops, v, env)
      case Fail(x, w) => Fail(x, w)
      case Val(a, env1) =>
        match Define(ops, env1, n, a)
        case Bad(x, w) => Fail(x, w)
        case Ok(env2) => Val(a, env2))
    case CallExpr(func, args) => (
      match EvalExpr(ops, func, env)
      case Fail(x, w) => Fail(x, w)
      case Val(f, env1) =>
        match EvalExprs(ops, args, env1)
        case FailAll(x, w) => Fail(x, w)
        case Vals(vs, env2) => Finish(env2, ops.call(f, vs, env2.world)))
    case Subscript(base, index) => (
      match EvalExpr(ops, base, env)
      case Fail(x, w) => Fail(x, w)
      case Val(a, env1) =>
        match EvalExpr(ops, index, env1)
        case Fail(x, w) => Fail(x, w)
        case Val(b, env2) => Invoke(ops, env2, a, GetItem, [a, b]))
    case Attribute(base, attr) => (
      match EvalExpr(ops, base, env)
      case Fail(x, w) => Fail(x, w)
      case Val(a, env1) =>
        match ops.refAsStr(attr, env1.world)
        case Throw(x, w) => Fail(x, w)
        case Value(s, w) => Finish(env1, ops.getAttr(a, s, w)))
  }

  /** A test through `__bool__`. */
  function EvalTest(ops: Ops, e: Expr, env: Env): ExprResult
    decreases e, 1, ops, env
  {
    match EvalExpr(ops, e, env)
    case Fail(x, w) => Fail(x, w)
    case Val(a, env1) => Invoke(ops, env1, a, AsBool, [a])
  }

  function EvalExprs(ops: Ops, es: Exprs, env: Env): ExprsResult
    decreases es, 0, ops, env
  {
    match es
    case NoExprs => Vals([], env)
    case MoreExprs(h, t) =>
      match EvalExpr(ops, h, env)
      case Fail(x, w) => FailAll(x, w)
      case Val(v, env1) =>
        match EvalExprs(ops, t, env1)
        case FailAll(x, w) => FailAll(x, w)
        case Vals(vs, env2) => Vals([v] + vs, env2)
  }

  function EvalOpt(ops: Ops, e: Option<Expr>, env: Env): OptResult {
    match e
    case None => OptVal(None, env)
    case Some(x) =>
      match EvalExpr(ops, x, env)
      case Fail(y, w) => FailOpt(y, w)
      case Val(v, env1) => OptVal(Some(v), env1)
  }

  function EvalParams(ops: Ops, ps: Params, env: Env): ParamsResult {
    match ps
    case NoParams => ParamVals([], env)
    case Param(n, ann, rest) =>
      match EvalOpt(ops, ann, env)
      case FailOpt(x, w) => FailParams(x, w)
      case OptVal(v, env1) =>
        match EvalParams(ops, rest, env1)
        case FailParams(x, w) => FailParams(x, w)
        case ParamVals(vs, env2) => ParamVals([(n, v)] + vs, env2)
  }

  /** Apply the decorators one after the other, each to the result of the one before. */
  function Decorate(ops: Ops, decs: seq<Object>, f: Object, env: Env): ExprResult {
    if decs == [] then Val(f, env) else
    match ops.call(decs[0], [f], env.world)
    case Throw(x, w) => Fail(x, w)
    case Value(g, w) => Decorate(ops, decs[1..], g, env.(world := w))
  }

  function Backwards<T>(s: seq<T>): seq<T> {
    seq(|s|, i requires 0 <= i < |s| => s[|s| - 1 - i])
  }

  /**
   A function definition: decorators, annotations and result annotation are
   evaluated, and the function is made, which binds its name.  Then the name is
   bound once more and the decorators are called, the one next to the definition
   first.  As intended the decorators are evaluated first to last, and the
   binding comes after the calls and binds what they answer.  As emitted they
   are evaluated last to first, and the binding comes before the calls and binds
   the bare function.
   */
  function EvalDef(ops: Ops, rule: Reading, n: Name, decs: Exprs, ps: Params, ret: Option<Expr>, id: nat, env: Env)
    : ExprResult
  {
    match EvalExprs(ops, if rule.Intended? then decs else Reverse(decs), env)
    case FailAll(x, w) => Fail(x, w)
    case Vals(ds, env1) =>
      match EvalParams(ops, ps, env1)
      case FailParams(x, w) => Fail(x, w)
      case ParamVals(params, env2) =>
        match EvalOpt(ops, ret, env2)
        case FailOpt(x, w) => Fail(x, w)
        case OptVal(r, env3) =>
          match ops.makeFunction(FuncInfo(n, params, r, id), env3.world)
          case Throw(x, w) => Fail(x, w)
          case Value(f, w) =>
            match Define(ops, env3.(world := w), n, f)
            case Bad(x, w1) => Fail(x, w1)
            case Ok(env4) =>
              if rule.Intended? then
                match Decorate(ops, Backwards(ds), f, env4)
                case Fail(x, w1) => Fail(x, w1)
                case Val(g, env5) => Rebind(ops, n, g, env5)
              else
                match Rebind(ops, n, f, env4)
                case Fail(x, w1) => Fail(x, w1)
                case Val(_, env5) => Decorate(ops, ds, f, env5)
  }

  function Rebind(ops: Ops, n: Name, v: Object, env: Env): ExprResult {
    match Define(ops, env, n, v)
    case Bad(x, w) => Fail(x, w)
    case Ok(env1) => Val(v, env1)
  }

  // ---- statements ----

  /** The test of a loop goes through `__bool__`, like any other; the emitted code uses the value as it is. */
  function EvalLoopTest(ops: Ops, rule: Reading, test: Expr, env: Env): ExprResult {
    if rule.Intended? then EvalTest(ops, test, env) else EvalExpr(ops, test, env)
  }

  datatype StmtResult =
    | Normal(env: Env)
    | Leave(v: Object, w: World)
    | Error(fault: Fault, w: World)
    | OutOfFuel

  function Discard(r: ExprResult): StmtResult {
    match r
    case Val(_, env) => Normal(env)
    case Fail(x, w) => Error(x, w)
  }

  /** `o.attr = e`: the value comes first; the emitted code evaluates the object first. */
  function ExecAttr(ops: Ops, rule: Reading, o: Expr, attr: Name, e: Expr, env: Env): StmtResult {
    if rule.Intended? then
      match EvalExpr(ops, e, env)
      case Fail(x, w) => Error(x, w)
      case Val(b, env1) =>
        match EvalExpr(ops, o, env1)
        case Fail(x, w) => Error(x, w)
        case Val(a, env2) =>
          match ops.refAsStr(attr, env2.world)
          case Throw(x, w) => Error(x, w)
          case Value(k, w) => Discard(Finish(env2, ops.setAttr(a, k, b, w)))
    else
      match EvalExpr(ops, o, env)
      case Fail(x, w) => Error(x, w)
      case Val(a, env1) =>
        match ops.refAsStr(attr, env1.world)
        case Throw(x, w) => Error(x, w)
        case Value(k, w) =>
          match EvalExpr(ops, e, env1.(world := w))
          case Fail(x, w1) => Error(x, w1)
          case Val(b, env2) => Discard(Finish(env2, ops.setAttr(a, k, b, env2.world)))
  }

  function Exec(ops: Ops, rule: Reading, s: Stmt, ns: nat, env: Env, fuel: nat): StmtResult
    decreases fuel, s, 0, ops, rule, ns, env
  {
    match s
    case ExprStmt(e) => Discard(EvalExpr(ops, e, env))
    case Assign(n, e) => Discard(EvalExpr(ops, Named(n, e), env))
    case AssignAttr(o, attr, e) => ExecAttr(ops, rule, o, attr, e, env)
    case Annotate(_, k) => Discard(EvalExpr(ops, k, env))
    case ReturnStmt(None) => (
      match ops.constant(NoneConst, env.world)
      case Throw(x, w) => Error(x, w)
      case Value(v, w) => Leave(v, w))
    case ReturnStmt(Some(e)) => (
      match EvalExpr(ops, e, env)
      case Fail(x, w) => Error(x, w)
      case Val(v, env1) => Leave(v, env1.world))
    case Pass => Normal(env)
    case While(test, body) => (
      if fuel == 0 then OutOfFuel else
      match EvalLoopTest(ops, rule, test, env)
      case Fail(x, w) => Error(x, w)
      case Val(t, env1) =>
        if t == ops.trueV then
          match ExecBlock(ops, rule, body, ns, env1, fuel - 1)
          case Normal(env2) => Exec(ops, rule, s, ns, env2, fuel - 1)
          case stop => stop
        else if t == ops.falseV then Normal(env1)
        else Error(NotBool, env1.world))
    case IfChain(arms, orelse) => (
      match ExecArms(ops, rule, arms, ns, env, fuel)
      case Took(r) => r
      case Missed(env1) => ExecElse(ops, rule, orelse, ns + ArmsDefs(arms), env1, fuel))
    case FuncDef(n, decs, ps, ret, _) => Discard(EvalDef(ops, rule, n, decs, ps, ret, ns, env))
  }

  function ExecBlock(ops: Ops, rule: Reading, b: Block, ns: nat, env: Env, fuel: nat): StmtResult
    decreases fuel, b, 0, ops, rule, ns, env
  {
    match b
    case Empty => Normal(env)
    case Then(h, t) =>
      match Exec(ops, rule, h, ns, env, fuel)
      case Normal(env1) => ExecBlock(ops, rule, t, ns + Defs(h), env1, fuel)
      case stop => stop
  }

  /** Either some branch of a chain decided the outcome, or all tests were false. */
  datatype ArmsResult = Took(r: StmtResult) | Missed(env: Env)

  /**
   The branches of a chain.  By the emitted rule a false test that is followed
   by another branch never gets anywhere, and one that is not skips the `else`
   body too.
   */
  function ExecArms(ops: Ops, rule: Reading, arms: Arms, ns: nat, env: Env, fuel: nat): ArmsResult
    decreases fuel, arms, 0, ops, rule, ns, env
  {
    match arms
    case NoArms => Missed(env)
    case Arm(test, body, rest) =>
      match EvalTest(ops, test, env)
      case Fail(x, w) => Took(Error(x, w))
      case Val(t, env1) =>
        if t == ops.trueV then Took(ExecBlock(ops, rule, body, ns, env1, fuel))
        else if t == ops.falseV then
          if rule.Intended? then ExecArms(ops, rule, rest, ns + BlockDefs(body), env1, fuel)
          else if rest.Arm? then Took(OutOfFuel)
          else Took(Normal(env1))
        else Took(Error(NotBool, env1.world))
  }

  function ExecElse(ops: Ops, rule: Reading, orelse: OrElse, ns: nat, env: Env, fuel: nat): StmtResult
    decreases fuel, orelse, 0, ops, rule, ns, env
  {
    match orelse
    case NoElse => Normal(env)
    case Else(body) => ExecBlock(ops, rule, body, ns, env, fuel)
  }
}
