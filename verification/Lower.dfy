/**
 What lowering emits (montyc_flatcode/src/lower.rs), as a layout of finished
 instructions.

 The builder in FlatCode.dfy appends placeholders and overwrites them in
 place.  Here `XAt(code, x, at)` says that the finished instructions of `x`
 occupy `code` from index `at` up to `XEnd(x, at)`; every index in between is
 determined.  `XSlot` is the slot that holds the value of an expression, and
 `ns` is the number of sequences that exist when a visit begins.
 */
module Lower {
  import opened RawInst
  import opened Ast

  // ---- extents ----

  function ExprEnd(e: Expr, at: nat): (end: nat)
    ensures end > at
    decreases e, 1, at
  {
    match e
    case Lit(_) => at + 1
    case NameRef(_) => at + 1
    case TupleLit(elems) => ExprsEnd(elems, at) + 1
    case BinOp(l, _, r) => ExprEnd(r, ExprEnd(l, at)) + 2
    case Unary(_, v) => ExprEnd(v, at) + 2
    case Ternary(test, _, _) => ArmsEnd(e, TestEnd(test, at))
    case Named(_, v) => ExprEnd(v, at) + 1
    case CallExpr(func, args) => ExprsEnd(args, ExprEnd(func, at)) + 1
    case Subscript(base, index) => ExprEnd(index, ExprEnd(base, at)) + 2
    case Attribute(base, _) => ExprEnd(base, at) + 2
  }

  /** The two arms of a ternary, from the `If` that chooses one. */
  function ArmsEnd(e: Expr, at: nat): (end: nat)
    requires e.Ternary?
    ensures end > ExprEnd(e.body, at + 2) + 2
    decreases e, 0, at
  {
    ExprEnd(e.orelse, ExprEnd(e.body, at + 2) + 2) + 2
  }

  /** A test that goes through `__bool__`, as in `if` and ternaries (but not `while`). */
  function TestEnd(e: Expr, at: nat): (end: nat)
    ensures end > at + 2
    decreases e, 2, at
  {
    ExprEnd(e, at) + 2
  }

  function ExprsEnd(es: Exprs, at: nat): (end: nat)
    ensures end >= at
    decreases es, 0, at
  {
    match es
    case NoExprs => at
    case MoreExprs(h, t) => ExprsEnd(t, ExprEnd(h, at))
  }

  // ---- result slots ----

  /** The last instruction of an expression, except that a named expression answers with the slot it binds. */
  function ExprSlot(e: Expr, at: nat): (slot: nat)
    ensures at <= slot < ExprEnd(e, at)
  {
    if e.Named? then ExprSlot(e.bound, at) else ExprEnd(e, at) - 1
  }

  function ExprsSlots(es: Exprs, at: nat): (slots: seq<nat>)
    ensures forall i :: 0 <= i < |slots| ==> at <= slots[i] < ExprsEnd(es, at)
  {
    match es
    case NoExprs => []
    case MoreExprs(h, t) => [ExprSlot(h, at)] + ExprsSlots(t, ExprEnd(h, at))
  }

  // ---- layout of expressions ----

  predicate ExprAt(code: seq<Inst>, e: Expr, at: nat)
    decreases e, 1, 1, code, at
  {
    ExprEnd(e, at) <= |code| && ExprShape(code, e, at)
  }

  predicate ExprShape(code: seq<Inst>, e: Expr, at: nat)
    requires ExprEnd(e, at) <= |code|
    decreases e, 1, 0, code, at
  {
    var end := ExprEnd(e, at);
    match e
    case Lit(c) => code[at] == Const(c)
    case NameRef(n) => code[at] == UseVar(n)
    case TupleLit(elems) => ExprsAt(code, elems, at) && code[end - 1] == Tuple(ExprsSlots(elems, at))
    case BinOp(l, op, r) =>
      var mid := ExprEnd(l, at);
      && ExprAt(code, l, at) && ExprAt(code, r, mid)
      && InvokeAt(code, end - 2, ExprSlot(l, at), InfixDunder(op), [ExprSlot(l, at), ExprSlot(r, mid)])
    case Unary(op, v) =>
      ExprAt(code, v, at) && InvokeAt(code, end - 2, ExprSlot(v, at), UnaryDunder(op), [ExprSlot(v, at)])
    case Ternary(test, _, _) => TestAt(code, test, at) && ArmsAt(code, e, TestEnd(test, at))
    case Named(n, v) => ExprAt(code, v, at) && code[end - 1] == SetVar(n, ExprSlot(v, at))
    case CallExpr(func, args) =>
      var mid := ExprEnd(func, at);
      && ExprAt(code, func, at) && ExprsAt(code, args, mid)
      && code[end - 1] == Call(ExprSlot(func, at), ExprsSlots(args, mid))
    case Subscript(base, index) =>
      var mid := ExprEnd(base, at);
      && ExprAt(code, base, at) && ExprAt(code, index, mid)
      && InvokeAt(code, end - 2, ExprSlot(base, at), GetItem, [ExprSlot(base, at), ExprSlot(index, mid)])
    case Attribute(base, attr) =>
      && ExprAt(code, base, at)
      && code[end - 2] == RefAsStr(attr) && code[end - 1] == GetAttribute(ExprSlot(base, at), end - 2)
  }

  predicate ArmsAt(code: seq<Inst>, e: Expr, at: nat)
    requires e.Ternary? && at > 0
    decreases e, 0, code, at
  {
    var j := ExprEnd(e.body, at + 2);
    var k := ExprEnd(e.orelse, j + 2);
    && k + 2 <= |code|
    && code[at] == If(at - 1, None, Some(j + 1)) && code[at + 1] == JumpTarget
    && ExprAt(code, e.body, at + 2)
    && code[j] == PhiJump(k + 1, ExprSlot(e.body, at + 2)) && code[j + 1] == JumpTarget
    && ExprAt(code, e.orelse, j + 2)
    && code[k] == PhiJump(k + 1, ExprSlot(e.orelse, j + 2)) && code[k + 1] == PhiRecv
  }

  predicate InvokeAt(code: seq<Inst>, at: nat, o: nat, d: Dunder, args: seq<nat>) {
    at + 2 <= |code| && code[at] == GetDunder(o, d) && code[at + 1] == Call(at, args)
  }

  predicate TestAt(code: seq<Inst>, e: Expr, at: nat)
    decreases e, 2, code, at
  {
    ExprAt(code, e, at) && InvokeAt(code, ExprEnd(e, at), ExprSlot(e, at), AsBool, [ExprSlot(e, at)])
  }

  predicate ExprsAt(code: seq<Inst>, es: Exprs, at: nat)
    decreases es, 0, code, at
  {
    match es
    case NoExprs => true
    case MoreExprs(h, t) => ExprAt(code, h, at) && ExprsAt(code, t, ExprEnd(h, at))
  }

  // ---- optional expressions and parameters ----

  function OptEnd(e: Option<Expr>, at: nat): (end: nat)
    ensures end >= at
  {
    if e.None? then at else ExprEnd(e.value, at)
  }

  function OptSlot(e: Option<Expr>, at: nat): (slot: Option<nat>)
    ensures slot.Some? ==> at <= slot.value < OptEnd(e, at)
  {
    if e.None? then None else Some(ExprSlot(e.value, at))
  }

  predicate OptAt(code: seq<Inst>, e: Option<Expr>, at: nat) {
    e.Some? ==> ExprAt(code, e.value, at)
  }

  function ParamsEnd(ps: Params, at: nat): (end: nat)
    ensures end >= at
  {
    match ps
    case NoParams => at
    case Param(_, ann, rest) => ParamsEnd(rest, OptEnd(ann, at))
  }

  function ParamsSlots(ps: Params, at: nat): (params: seq<(Name, Option<nat>)>)
    ensures forall i :: 0 <= i < |params| && params[i].1.Some? ==> at <= params[i].1.value < ParamsEnd(ps, at)
  {
    match ps
    case NoParams => []
    case Param(n, ann, rest) => [(n, OptSlot(ann, at))] + ParamsSlots(rest, OptEnd(ann, at))
  }

  predicate ParamsAt(code: seq<Inst>, ps: Params, at: nat) {
    match ps
    case NoParams => true
    case Param(_, ann, rest) => OptAt(code, ann, at) && ParamsAt(code, rest, OptEnd(ann, at))
  }

  // ---- the definitions of a statement, which number its functions ----

  function Defs(s: Stmt): nat {
    match s
    case While(_, body) => BlockDefs(body)
    case IfChain(arms, orelse) => ArmsDefs(arms) + ElseDefs(orelse)
    case FuncDef(_, _, _, _, body) => 1 + BlockDefs(body)
    case _ => 0
  }

  function BlockDefs(b: Block): nat {
    match b
    case Empty => 0
    case Then(h, t) => Defs(h) + BlockDefs(t)
  }

  function ArmsDefs(arms: Arms): nat {
    match arms
    case NoArms => 0
    case Arm(_, body, rest) => BlockDefs(body) + ArmsDefs(rest)
  }

  function ElseDefs(o: OrElse): nat {
    match o
    case NoElse => 0
    case Else(body) => BlockDefs(body)
  }

  // ---- extents of statements ----

  function StmtEnd(s: Stmt, at: nat): (end: nat)
    ensures end > at
    decreases s, 1, at
  {
    match s
    case ExprStmt(e) => ExprEnd(e, at)
    case Assign(_, e) => ExprEnd(e, at) + 1
    case AssignAttr(o, _, e) => ExprEnd(e, ExprEnd(o, at) + 1) + 1
    case Annotate(_, k) => ExprEnd(k, at) + 1
    case ReturnStmt(None) => at + 2
    case ReturnStmt(Some(e)) => ExprEnd(e, at) + 1
    case Pass => at + 1
    case While(test, body) => BlockEnd(body, ExprEnd(test, at + 2) + 2) + 2
    case IfChain(arms, orelse) => ChainAfter(s, at) + 1
    case FuncDef(_, decs, ps, ret, _) =>
      OptEnd(ret, ParamsEnd(ps, ExprsEnd(Reverse(decs), at))) + 2 + |ExprsSlots(Reverse(decs), at)|
  }

  function BlockEnd(b: Block, at: nat): (end: nat)
    ensures end >= at
    decreases b, 1, at
  {
    match b
    case Empty => at
    case Then(h, t) => BlockEnd(t, StmtEnd(h, at))
  }

  /** A chain at the very start of a sequence is given a jump target to stand on. */
  function ChainTests(arms: Arms, at: nat): nat {
    if at == 0 && arms.Arm? then 1 else at
  }

  /** Where the bodies of a chain start: all the tests come first. */
  function ChainBodies(arms: Arms, at: nat): (q: nat)
    ensures q >= at
  {
    TestsEnd(arms, ChainTests(arms, at))
  }

  /** The jump target that ends a chain. */
  function ChainAfter(s: Stmt, at: nat): (after: nat)
    requires s.IfChain?
    ensures after >= at
    decreases s, 0, at
  {
    ElseEnd(s.orelse, BodiesEnd(s.arms, ChainBodies(s.arms, at)))
  }

  function TestsEnd(arms: Arms, at: nat): (end: nat)
    ensures end >= at
  {
    match arms
    case NoArms => at
    case Arm(test, _, rest) => TestsEnd(rest, TestEnd(test, at) + 1)
  }

  function BodiesEnd(arms: Arms, at: nat): (end: nat)
    ensures end >= at
    decreases arms, 1, at
  {
    match arms
    case NoArms => at
    case Arm(_, body, rest) => BodiesEnd(rest, BlockEnd(body, at + 1) + 1)
  }

  function ElseEnd(o: OrElse, at: nat): (end: nat)
    ensures end >= at
    decreases o, 1, at
  {
    match o
    case NoElse => at
    case Else(body) => BlockEnd(body, at + 1) + 1
  }

  // ---- layout of statements ----

  predicate StmtAt(code: seq<Inst>, s: Stmt, at: nat, ns: nat)
    decreases s, 2, code, at, ns
  {
    StmtEnd(s, at) <= |code| && StmtShape(code, s, at, ns)
  }

  predicate StmtShape(code: seq<Inst>, s: Stmt, at: nat, ns: nat)
    requires StmtEnd(s, at) <= |code|
    decreases s, 1, code, at, ns
  {
    var end := StmtEnd(s, at);
    match s
    case ExprStmt(e) => ExprAt(code, e, at)
    case Assign(n, e) => ExprAt(code, e, at) && code[end - 1] == SetVar(n, ExprSlot(e, at))
    case AssignAttr(o, attr, e) =>
      var d := ExprEnd(o, at);
      && ExprAt(code, o, at) && code[d] == RefAsStr(attr) && ExprAt(code, e, d + 1)
      && code[end - 1] == SetAttribute(ExprSlot(o, at), d, ExprSlot(e, d + 1))
    case Annotate(n, k) => ExprAt(code, k, at) && code[end - 1] == SetAnnotation(n, ExprSlot(k, at))
    case ReturnStmt(None) => code[at] == Const(NoneConst) && code[at + 1] == Return(at)
    case ReturnStmt(Some(e)) => ExprAt(code, e, at) && code[end - 1] == Return(ExprSlot(e, at))
    case Pass => code[at] == Nop
    case While(_, _) => WhileAt(code, s, at, ns)
    case IfChain(_, _) => ChainAt(code, s, at, ns)
    case FuncDef(_, _, _, _, _) => DefAt(code, s, at, ns)
  }

  predicate WhileAt(code: seq<Inst>, s: Stmt, at: nat, ns: nat)
    requires s.While?
    decreases s, 0, code, at, ns
  {
    var j := ExprEnd(s.test, at + 2);
    var k := BlockEnd(s.body, j + 2);
    && k + 2 <= |code|
    && code[at] == Br(at + 1) && code[at + 1] == JumpTarget && ExprAt(code, s.test, at + 2)
    && code[j] == If(ExprSlot(s.test, at + 2), Some(j + 1), Some(k + 1)) && code[j + 1] == JumpTarget
    && BlockAt(code, s.body, j + 2, ns) && code[k] == Br(at + 1) && code[k + 1] == JumpTarget
  }

  predicate ChainAt(code: seq<Inst>, s: Stmt, at: nat, ns: nat)
    requires s.IfChain?
    decreases s, 0, code, at, ns
  {
    var after := ChainAfter(s, at);
    var q := ChainBodies(s.arms, at);
    && after < |code|
    && (at == 0 && s.arms.Arm? ==> code[0] == JumpTarget)
    && TestsAt(code, s.arms, ChainTests(s.arms, at), q, after)
    && BodiesAt(code, s.arms, q, ns, after)
    && ElseAt(code, s.orelse, BodiesEnd(s.arms, q), ns + ArmsDefs(s.arms), after)
    && code[after] == JumpTarget
  }

  predicate DefAt(code: seq<Inst>, s: Stmt, at: nat, ns: nat)
    requires s.FuncDef?
  {
    var decs := Reverse(s.decorators);
    var d := ExprsEnd(decs, at);
    var p := ParamsEnd(s.params, d);
    var f := OptEnd(s.result, p);
    && f + 2 <= |code|
    && ExprsAt(code, decs, at) && ParamsAt(code, s.params, d) && OptAt(code, s.result, p)
    && code[f] == Defn(s.name, ParamsSlots(s.params, d), OptSlot(s.result, p), ns) && code[f + 1] == SetVar(s.name, f)
    && CallsAt(code, ExprsSlots(decs, at), f, f + 2)
  }

  predicate BlockAt(code: seq<Inst>, b: Block, at: nat, ns: nat)
    decreases b, 1, code, at, ns
  {
    match b
    case Empty => true
    case Then(h, t) => StmtAt(code, h, at, ns) && BlockAt(code, t, StmtEnd(h, at), ns + Defs(h))
  }

  /** One call per decorator, each applied to the result of the one before. */
  predicate CallsAt(code: seq<Inst>, decs: seq<nat>, func: nat, at: nat) {
    && at + |decs| <= |code|
    && (decs != [] ==> code[at] == Call(decs[0], [func]) && CallsAt(code, decs[1..], at, at + 1))
  }

  /**
   The tests of a chain, with the bodies starting at `q`.  The entry recorded
   for a following branch is the instruction before its test, which is the
   preceding `If`: a false test that is not the last one jumps to itself.
   */
  predicate TestsAt(code: seq<Inst>, arms: Arms, at: nat, q: nat, after: nat) {
    && TestsEnd(arms, at) <= |code|
    && match arms
       case NoArms => true
       case Arm(test, body, rest) =>
         var p := TestEnd(test, at);
         && TestAt(code, test, at)
         && code[p] == If(p - 1, Some(q), Some(if rest.NoArms? then after else p))
         && TestsAt(code, rest, p + 1, BlockEnd(body, q + 1) + 1, after)
  }

  predicate BodiesAt(code: seq<Inst>, arms: Arms, at: nat, ns: nat, after: int)
    decreases arms, 1, code, at, ns, after
  {
    && BodiesEnd(arms, at) <= |code|
    && match arms
       case NoArms => true
       case Arm(_, body, rest) =>
         var k := BlockEnd(body, at + 1);
         && code[at] == JumpTarget && BlockAt(code, body, at + 1, ns) && code[k] == Br(after)
         && BodiesAt(code, rest, k + 1, ns + BlockDefs(body), after)
  }

  predicate ElseAt(code: seq<Inst>, o: OrElse, at: nat, ns: nat, after: int)
    decreases o, 1, code, at, ns, after
  {
    && ElseEnd(o, at) <= |code|
    && match o
       case NoElse => true
       case Else(body) =>
         code[at] == JumpTarget && BlockAt(code, body, at + 1, ns) && code[BlockEnd(body, at + 1)] == Br(after)
  }

  // ---- layout of the functions a statement defines, each in a sequence of its own ----

  /** Sequence number `id`, where `seqs` lists the sequences from number `base` on. */
  function Sequence(seqs: seq<seq<Inst>>, base: nat, id: nat): seq<Inst> {
    if base <= id < base + |seqs| then seqs[id - base] else []
  }

  /** Sequence number `id` is what lowering the body emits. */
  predicate BodyAt(seqs: seq<seq<Inst>>, base: nat, id: nat, body: Block) {
    var code := Sequence(seqs, base, id);
    && base <= id < base + |seqs|
    && BlockAt(code, body, 0, id + 1) && |code| == BlockEnd(body, 0)
  }

  predicate StmtSeqs(seqs: seq<seq<Inst>>, base: nat, s: Stmt, ns: nat)
    decreases s, 1, seqs, base, ns
  {
    match s
    case While(_, body) => BlockSeqs(seqs, base, body, ns)
    case IfChain(arms, orelse) => ArmsSeqs(seqs, base, arms, ns) && ElseSeqs(seqs, base, orelse, ns + ArmsDefs(arms))
    case FuncDef(_, _, _, _, body) => BodyAt(seqs, base, ns, body) && BlockSeqs(seqs, base, body, ns + 1)
    case _ => true
  }

  predicate BlockSeqs(seqs: seq<seq<Inst>>, base: nat, b: Block, ns: nat)
    decreases b, 1, seqs, base, ns
  {
    match b
    case Empty => true
    case Then(h, t) => StmtSeqs(seqs, base, h, ns) && BlockSeqs(seqs, base, t, ns + Defs(h))
  }

  predicate ArmsSeqs(seqs: seq<seq<Inst>>, base: nat, arms: Arms, ns: nat)
    decreases arms, 1, seqs, base, ns
  {
    match arms
    case NoArms => true
    case Arm(_, body, rest) => BlockSeqs(seqs, base, body, ns) && ArmsSeqs(seqs, base, rest, ns + BlockDefs(body))
  }

  predicate ElseSeqs(seqs: seq<seq<Inst>>, base: nat, o: OrElse, ns: nat)
    decreases o, 1, seqs, base, ns
  {
    match o
    case NoElse => true
    case Else(body) => BlockSeqs(seqs, base, body, ns)
  }
}
