/**
 Where lowered code can go.

 Every jump stays within the construct it belongs to and lands on the head of
 a block; the one exception is a chain with a second branch, where a test that
 is not the last may also jump to itself.  Control runs into a block head from
 above only in a ternary, and no jump lands on such a head.
 */
module Targets {
  import opened RawInst
  import opened Ast
  import opened Lower
  import opened Correctness

  predicate IsHead(i: Inst) {
    i.JumpTarget? || i.PhiRecv?
  }

  predicate JumpsTo(i: Inst, t: int) {
    match i
    case If(_, truthy, falsey) => truthy == Some(t) || falsey == Some(t)
    case Br(to) => t == to
    case PhiJump(recv, _) => t == recv
    case _ => false
  }

  /** An `If` that falls through when its test is true. */
  predicate OneWay(i: Inst) {
    i.If? && i.truthy.None? && i.falsey.Some?
  }

  /** A jump target that no one-way `If` falls into. */
  predicate Door(code: seq<Inst>, t: int) {
    0 <= t < |code| && code[t].JumpTarget? && (t > 0 ==> !OneWay(code[t - 1]))
  }

  /** Where the jump `i` may land: a phi jump on a phi receiver, every other jump on a jump target. */
  predicate Landing(code: seq<Inst>, i: Inst, t: int) {
    if i.PhiJump? then 0 < t < |code| && code[t].PhiRecv? else Door(code, t)
  }

  /** The jump at `k`, if there is one, lands between `lo` and `hi`: on a head or, unless `plain`, an `If` on itself. */
  ghost predicate Lands(code: seq<Inst>, k: nat, lo: nat, hi: nat, plain: bool)
    requires k < |code| && hi <= |code|
  {
    forall t :: JumpsTo(code[k], t) ==> lo <= t < hi && (Landing(code, code[k], t) || (!plain && t == k && code[k].If?))
  }

  ghost predicate Within(code: seq<Inst>, from: nat, to: nat, lo: nat, hi: nat, plain: bool) {
    && to <= |code| && hi <= |code|
    && forall k :: from <= k < to ==> Lands(code, k, lo, hi, plain)
  }

  lemma {:induction false} Widen(code: seq<Inst>, from: nat, to: nat, lo: nat, hi: nat, plain: bool, lo1: nat,
        hi1: nat, plain1: bool)
    requires Within(code, from, to, lo, hi, plain) && lo1 <= lo && hi <= hi1 <= |code| && (plain1 ==> plain)
    ensures Within(code, from, to, lo1, hi1, plain1)
  {
    forall k | from <= k < to ensures Lands(code, k, lo1, hi1, plain1) { assert Lands(code, k, lo, hi, plain); }
  }

  ghost predicate Local(code: seq<Inst>, lo: nat, hi: nat, plain: bool) {
    Within(code, lo, hi, lo, hi, plain)
  }

  // ---- chains of a single test, with or without `else` ----

  predicate OneTest(s: Stmt) {
    match s
    case While(_, body) => OneTestBlock(body)
    case IfChain(arms, orelse) =>
      (arms.Arm? ==> arms.rest.NoArms?) && OneTestArms(arms) && OneTestElse(orelse)
    case _ => true
  }

  predicate OneTestBlock(b: Block) {
    match b
    case Empty => true
    case Then(h, t) => OneTest(h) && OneTestBlock(t)
  }

  predicate OneTestArms(arms: Arms) {
    match arms
    case NoArms => true
    case Arm(_, body, rest) => OneTestBlock(body) && OneTestArms(rest)
  }

  predicate OneTestElse(o: OrElse) {
    match o
    case NoElse => true
    case Else(body) => OneTestBlock(body)
  }

  // ---- expressions ----

  lemma {:induction false} ExprLocal(code: seq<Inst>, e: Expr, at: nat, lo: nat, hi: nat)
    requires ExprAt(code, e, at) && lo <= at && ExprEnd(e, at) <= hi <= |code|
    ensures Within(code, at, ExprEnd(e, at), lo, hi, true)
    decreases e, 2
  {
    match e
    case Lit(_) =>
    case NameRef(_) =>
    case TupleLit(_) => ListLocal(code, e, at, lo, hi);
    case BinOp(l, _, r) => PairLocal(code, e, l, r, at, lo, hi);
    case Unary(_, _) => PartLocal(code, e, at, lo, hi);
    case Ternary(_, _, _) => TernaryLocal(code, e, at, lo, hi);
    case Named(_, _) => PartLocal(code, e, at, lo, hi);
    case CallExpr(_, _) => ListLocal(code, e, at, lo, hi);
    case Subscript(base, index) => PairLocal(code, e, base, index, at, lo, hi);
    case Attribute(_, _) => PartLocal(code, e, at, lo, hi);
  }

  lemma {:induction false} PartLocal(code: seq<Inst>, e: Expr, at: nat, lo: nat, hi: nat)
    requires (e.Unary? || e.Named? || e.Attribute?) && ExprAt(code, e, at)
    requires lo <= at && ExprEnd(e, at) <= hi <= |code|
    ensures Within(code, at, ExprEnd(e, at), lo, hi, true)
    decreases e, 1
  {
    ExprLocal(code, if e.Unary? then e.operand else if e.Named? then e.bound else e.base, at, lo, hi);
  }

  lemma {:induction false} ListLocal(code: seq<Inst>, e: Expr, at: nat, lo: nat, hi: nat)
    requires (e.TupleLit? || e.CallExpr?) && ExprAt(code, e, at)
    requires lo <= at && ExprEnd(e, at) <= hi <= |code|
    ensures Within(code, at, ExprEnd(e, at), lo, hi, true)
    decreases e, 1
  {
    if e.TupleLit? {
      ExprsLocal(code, e.elems, at, lo, hi);
    } else {
      ExprLocal(code, e.func, at, lo, hi);
      ExprsLocal(code, e.args, ExprEnd(e.func, at), lo, hi);
    }
  }

  lemma {:induction false} TernaryLocal(code: seq<Inst>, e: Expr, at: nat, lo: nat, hi: nat)
    requires e.Ternary? && ExprAt(code, e, at) && lo <= at && ExprEnd(e, at) <= hi <= |code|
    ensures Within(code, at, ExprEnd(e, at), lo, hi, true)
    decreases e, 1
  {
    TestLocal(code, e.test, at, lo, hi);
    ArmsLocal(code, e, TestEnd(e.test, at), lo, hi);
  }

  lemma {:induction false} PairLocal(code: seq<Inst>, e: Expr, l: Expr, r: Expr, at: nat, lo: nat, hi: nat)
    requires (e.BinOp? && e.left == l && e.right == r) || (e.Subscript? && e.base == l && e.index == r)
    requires ExprAt(code, e, at) && lo <= at && ExprEnd(e, at) <= hi <= |code|
    ensures Within(code, at, ExprEnd(e, at), lo, hi, true)
    decreases e, 1
  {
    ExprLocal(code, l, at, lo, hi);
    ExprLocal(code, r, ExprEnd(l, at), lo, hi);
  }

  lemma {:induction false} TestLocal(code: seq<Inst>, e: Expr, at: nat, lo: nat, hi: nat)
    requires TestAt(code, e, at) && lo <= at && TestEnd(e, at) <= hi <= |code|
    ensures Within(code, at, TestEnd(e, at), lo, hi, true)
    decreases e, 3
  {
    ExprLocal(code, e, at, lo, hi);
  }

  lemma {:induction false} ArmsLocal(code: seq<Inst>, e: Expr, at: nat, lo: nat, hi: nat)
    requires e.Ternary? && at > 0 && ArmsAt(code, e, at) && lo <= at && ArmsEnd(e, at) <= hi <= |code|
    ensures Within(code, at, ArmsEnd(e, at), lo, hi, true)
    decreases e, 0
  {
    var j := ExprEnd(e.body, at + 2);
    ExprLocal(code, e.body, at + 2, lo, hi);
    ExprLocal(code, e.orelse, j + 2, lo, hi);
  }

  lemma {:induction false} ExprsLocal(code: seq<Inst>, es: Exprs, at: nat, lo: nat, hi: nat)
    requires ExprsAt(code, es, at) && lo <= at && ExprsEnd(es, at) <= hi <= |code|
    ensures Within(code, at, ExprsEnd(es, at), lo, hi, true)
    decreases es, 2
  {
    match es
    case NoExprs =>
    case MoreExprs(h, t) => ExprLocal(code, h, at, lo, hi); ExprsLocal(code, t, ExprEnd(h, at), lo, hi);
  }

  lemma {:induction false} ParamsLocal(code: seq<Inst>, ps: Params, at: nat, lo: nat, hi: nat)
    requires ParamsAt(code, ps, at) && lo <= at && ParamsEnd(ps, at) <= hi <= |code|
    ensures Within(code, at, ParamsEnd(ps, at), lo, hi, true)
    decreases ps
  {
    match ps
    case NoParams =>
    case Param(_, ann, rest) =>
      if ann.Some? { ExprLocal(code, ann.value, at, lo, hi); }
      ParamsLocal(code, rest, OptEnd(ann, at), lo, hi);
  }

  // ---- statements ----

  lemma {:induction false} StmtLocal(code: seq<Inst>, s: Stmt, at: nat, ns: nat)
    requires StmtAt(code, s, at, ns)
    ensures Local(code, at, StmtEnd(s, at), OneTest(s))
    decreases s, 2
  {
    match s
    case While(_, _) => WhileLocal(code, s, at, ns);
    case IfChain(_, _) => ChainLocal(code, s, at, ns);
    case FuncDef(_, _, _, _, _) => DefLocal(code, s, at, ns);
    case _ => SimpleLocal(code, s, at, ns);
  }

  lemma {:induction false} SimpleLocal(code: seq<Inst>, s: Stmt, at: nat, ns: nat)
    requires !s.While? && !s.IfChain? && !s.FuncDef? && StmtAt(code, s, at, ns)
    ensures Local(code, at, StmtEnd(s, at), true)
  {
    var end := StmtEnd(s, at);
    match s
    case ExprStmt(e) => ExprLocal(code, e, at, at, end);
    case Assign(_, e) => ExprLocal(code, e, at, at, end);
    case AssignAttr(_, _, _) => AttrLocal(code, s, at, ns);
    case Annotate(_, t) => ExprLocal(code, t, at, at, end);
    case ReturnStmt(r) => if r.Some? { ExprLocal(code, r.value, at, at, end); }
    case Pass =>
  }

  lemma {:induction false} AttrLocal(code: seq<Inst>, s: Stmt, at: nat, ns: nat)
    requires s.AssignAttr? && StmtAt(code, s, at, ns)
    ensures Local(code, at, StmtEnd(s, at), true)
  {
    ExprLocal(code, s.object_, at, at, StmtEnd(s, at));
    ExprLocal(code, s.value, ExprEnd(s.object_, at) + 1, at, StmtEnd(s, at));
  }

  lemma {:induction false} BlockLocal(code: seq<Inst>, b: Block, at: nat, ns: nat, lo: nat, hi: nat, plain: bool)
    requires BlockAt(code, b, at, ns) && lo <= at && BlockEnd(b, at) <= hi <= |code| &&
      (plain ==> OneTestBlock(b))
    ensures Within(code, at, BlockEnd(b, at), lo, hi, plain)
    decreases b, 3
  {
    match b
    case Empty =>
    case Then(h, t) =>
      var mid := StmtEnd(h, at);
      StmtLocal(code, h, at, ns);
      Widen(code, at, mid, at, mid, OneTest(h), lo, hi, plain);
      BlockLocal(code, t, mid, ns + Defs(h), lo, hi, plain);
  }

  lemma {:induction false} WhileLocal(code: seq<Inst>, s: Stmt, at: nat, ns: nat)
    requires s.While? && WhileAt(code, s, at, ns)
    ensures Local(code, at, StmtEnd(s, at), OneTest(s))
    decreases s, 1
  {
    var j, end := ExprEnd(s.test, at + 2), StmtEnd(s, at);
    assert Within(code, at + 2, j, at, end, OneTest(s)) by {
      ExprLocal(code, s.test, at + 2, at, end);
      Widen(code, at + 2, j, at, end, true, at, end, OneTest(s));
    }
    BlockLocal(code, s.body, j + 2, ns, at, end, OneTest(s));
    LoopLocal(code, at, j, end, OneTest(s));
  }

  lemma {:induction false} LoopLocal(code: seq<Inst>, at: nat, j: nat, end: nat, plain: bool)
    requires at + 2 <= j && j + 4 <= end <= |code| && code[at] == Br(at + 1) && code[at + 1] == JumpTarget
    requires code[j].If? && code[j].truthy == Some(j + 1) && code[j].falsey == Some(end - 1) &&
      code[j + 1] == JumpTarget
    requires code[end - 2] == Br(at + 1) && code[end - 1] == JumpTarget
    requires Within(code, at + 2, j, at, end, plain) && Within(code, j + 2, end - 2, at, end, plain)
    ensures Local(code, at, end, plain)
  {
  }

  lemma {:induction false} DefLocal(code: seq<Inst>, s: Stmt, at: nat, ns: nat)
    requires s.FuncDef? && DefAt(code, s, at, ns)
    ensures Local(code, at, StmtEnd(s, at), true)
  {
    var decs, end := Reverse(s.decorators), StmtEnd(s, at);
    var d := ExprsEnd(decs, at);
    var p := ParamsEnd(s.params, d);
    var f := OptEnd(s.result, p);
    ExprsLocal(code, decs, at, at, end);
    ParamsLocal(code, s.params, d, at, end);
    if s.result.Some? { ExprLocal(code, s.result.value, p, at, end); }
    CallsLocal(code, ExprsSlots(decs, at), f, f + 2, at, end);
  }

  lemma {:induction false} CallsLocal(code: seq<Inst>, decs: seq<nat>, func: nat, at: nat, lo: nat, hi: nat)
    requires CallsAt(code, decs, func, at) && hi <= |code|
    ensures Within(code, at, at + |decs|, lo, hi, true)
    decreases |decs|
  {
    if decs != [] { CallsLocal(code, decs[1..], at, at + 1, lo, hi); }
  }

  lemma {:induction false} ChainLocal(code: seq<Inst>, s: Stmt, at: nat, ns: nat)
    requires s.IfChain? && ChainAt(code, s, at, ns)
    ensures ChainAfter(s, at) < |code| && Local(code, at, ChainAfter(s, at) + 1, OneTest(s))
    decreases s, 1
  {
    var p, q, after := ChainTests(s.arms, at), ChainBodies(s.arms, at), ChainAfter(s, at);
    var r := BodiesEnd(s.arms, q);
    assert TestsAt(code, s.arms, p, q, after) && BodiesAt(code, s.arms, q, ns, after);
    assert ElseAt(code, s.orelse, r, ns + ArmsDefs(s.arms), after);
    if s.arms.Arm? {
      LastTest(code, s.arms, p, q, after);
      LastBody(code, s.arms, q, ns, after);
    }
    PartsLocal(code, s, at, ns, p, q, r, after);
  }

  lemma {:induction false} LastTest(code: seq<Inst>, arms: Arms, at: nat, q: nat, after: nat)
    requires arms.Arm? && TestsAt(code, arms, at, q, after)
    ensures var p := TestsEnd(arms, at) - 1; p >= at && code[p].If? && code[p].truthy.Some? && code[p].falsey.Some?
    decreases arms
  {
    if arms.rest.Arm? {
      LastTest(code, arms.rest, TestEnd(arms.test, at) + 1, BlockEnd(arms.body, q + 1) + 1, after);
    }
  }

  lemma {:induction false} LastBody(code: seq<Inst>, arms: Arms, at: nat, ns: nat, after: nat)
    requires arms.Arm? && BodiesAt(code, arms, at, ns, after)
    ensures code[at].JumpTarget?
    ensures var k := BodiesEnd(arms, at) - 1; k >= at && code[k].Br?
    decreases arms
  {
    var k := BlockEnd(arms.body, at + 1);
    if arms.rest.Arm? { LastBody(code, arms.rest, k + 1, ns + BlockDefs(arms.body), after); }
  }

  lemma {:induction false} PartsLocal(code: seq<Inst>, s: Stmt, at: nat, ns: nat, p: nat, q: nat, r: nat, after: nat)
    requires s.IfChain? && at <= p <= at + 1 && (at < p ==> at < |code| && code[at] == JumpTarget)
    requires q == TestsEnd(s.arms, p) && r == BodiesEnd(s.arms, q) && after == ElseEnd(s.orelse, r)
    requires after < |code| && code[after] == JumpTarget
    requires TestsAt(code, s.arms, p, q, after) && BodiesAt(code, s.arms, q, ns, after)
    requires ElseAt(code, s.orelse, r, ns + ArmsDefs(s.arms), after)
    requires s.arms.Arm? ==> Door(code, q) && r > at && code[r - 1].Br?
    ensures Local(code, at, after + 1, OneTest(s))
    decreases s, 0
  {
    var plain := OneTest(s);
    assert Within(code, p, q, at, after + 1, plain) && Within(code, q, r, at, after + 1, plain) by {
      ArmsParts(code, s.arms, p, q, r, ns, after, at, plain);
    }
    assert Within(code, r, after, at, after + 1, plain) by {
      ElseLocal(code, s.orelse, r, ns + ArmsDefs(s.arms), after, at, after + 1, plain);
    }
    JoinChain(code, at, p, q, r, after, plain);
  }

  lemma {:induction false} ArmsParts(code: seq<Inst>, arms: Arms, p: nat, q: nat, r: nat, ns: nat, after: nat,
      lo: nat, plain: bool)
    requires q == TestsEnd(arms, p) && r == BodiesEnd(arms, q) && lo <= p && r <= after < |code|
    requires code[after] == JumpTarget
    requires TestsAt(code, arms, p, q, after) && BodiesAt(code, arms, q, ns, after)
    requires arms.Arm? ==> Door(code, q) && Door(code, after)
    requires plain ==> OneTestArms(arms) && (arms.Arm? ==> arms.rest.NoArms?)
    ensures Within(code, p, q, lo, after + 1, plain) && Within(code, q, r, lo, after + 1, plain)
    decreases arms, 4
  {
    assert Within(code, p, q, lo, after + 1, plain) by {
      BodiesDoors(code, arms, q, ns, after, lo, after + 1);
      TestsLocal(code, arms, p, q, after, lo, after + 1, plain);
    }
    BodiesLocal(code, arms, q, ns, after, lo, after + 1, plain);
  }

  lemma {:induction false} JoinChain(code: seq<Inst>, at: nat, p: nat, q: nat, r: nat, after: nat, plain: bool)
    requires at <= p <= at + 1 && at <= after < |code|
    requires (at < p ==> code[at] == JumpTarget) && code[after] == JumpTarget
    requires Within(code, p, q, at, after + 1, plain) && Within(code, q, r, at, after + 1, plain)
    requires Within(code, r, after, at, after + 1, plain)
    ensures Local(code, at, after + 1, plain)
  {
  }

  /** Each body of a chain starts with a door between `lo` and `hi`. */
  predicate Doors(code: seq<Inst>, arms: Arms, q: nat, lo: nat, hi: nat) {
    arms.Arm? ==>
      lo <= q < hi && Door(code, q) && Doors(code, arms.rest, BlockEnd(arms.body, q + 1) + 1, lo, hi)
  }

  lemma {:induction false} BodiesDoors(code: seq<Inst>, arms: Arms, q: nat, ns: nat, after: nat, lo: nat, hi: nat)
    requires BodiesAt(code, arms, q, ns, after) && lo <= q && BodiesEnd(arms, q) <= hi
    requires arms.Arm? ==> Door(code, q)
    ensures Doors(code, arms, q, lo, hi)
    decreases arms
  {
    if arms.Arm? {
      var k := BlockEnd(arms.body, q + 1) + 1;
      assert BodiesAt(code, arms.rest, k, ns + BlockDefs(arms.body), after) && code[k - 1].Br?;
      BodiesDoors(code, arms.rest, k, ns + BlockDefs(arms.body), after, lo, hi);
    }
  }

  lemma {:induction false} TestsLocal(code: seq<Inst>, arms: Arms, at: nat, q: nat, after: nat,
      lo: nat, hi: nat, plain: bool)
    requires TestsAt(code, arms, at, q, after) && Doors(code, arms, q, lo, hi)
    requires lo <= at && TestsEnd(arms, at) <= hi <= |code| && (arms.Arm? ==> lo <= after < hi && Door(code, after))
    requires plain && arms.Arm? ==> arms.rest.NoArms?
    ensures Within(code, at, TestsEnd(arms, at), lo, hi, plain)
    decreases arms
  {
    if arms.Arm? {
      var p := TestEnd(arms.test, at);
      assert Within(code, at, p + 1, lo, hi, plain) by {
        BranchLocal(code, arms.test, at, q, if arms.rest.NoArms? then after else p, lo, hi, plain);
      }
      assert Within(code, p + 1, TestsEnd(arms.rest, p + 1), lo, hi, plain) by {
        TestsLocal(code, arms.rest, p + 1, BlockEnd(arms.body, q + 1) + 1, after, lo, hi, plain);
      }
      JoinWithin(code, at, p + 1, TestsEnd(arms.rest, p + 1), lo, hi, plain);
    }
  }

  lemma {:induction false} JoinWithin(code: seq<Inst>, from: nat, mid: nat, to: nat, lo: nat, hi: nat, plain: bool)
    requires Within(code, from, mid, lo, hi, plain) && Within(code, mid, to, lo, hi, plain)
    ensures Within(code, from, to, lo, hi, plain)
  {
  }

  lemma {:induction false} BranchLocal(code: seq<Inst>, test: Expr, at: nat, q: nat, other: nat,
      lo: nat, hi: nat, plain: bool)
    requires TestAt(code, test, at) && lo <= at && hi <= |code|
    requires var p := TestEnd(test, at);
      && p < hi && code[p] == If(p - 1, Some(q), Some(other))
      && lo <= q < hi && Door(code, q) && lo <= other < hi && (Door(code, other) || (!plain && other == p))
    ensures Within(code, at, TestEnd(test, at) + 1, lo, hi, plain)
  {
    TestLocal(code, test, at, lo, hi);
    Widen(code, at, TestEnd(test, at), lo, hi, true, lo, hi, plain);
  }

  lemma {:induction false} BodiesLocal(code: seq<Inst>, arms: Arms, at: nat, ns: nat, after: nat,
      lo: nat, hi: nat, plain: bool)
    requires BodiesAt(code, arms, at, ns, after) && (plain ==> OneTestArms(arms))
    requires lo <= at && BodiesEnd(arms, at) <= after < hi <= |code| && (arms.Arm? ==> Door(code, after))
    ensures Within(code, at, BodiesEnd(arms, at), lo, hi, plain)
    decreases arms, 3
  {
    if arms.Arm? {
      BodyLocal(code, arms.body, at, ns, after, lo, hi, plain);
      BodiesLocal(code, arms.rest, BlockEnd(arms.body, at + 1) + 1, ns + BlockDefs(arms.body), after, lo, hi, plain);
    }
  }

  lemma {:induction false} BodyLocal(code: seq<Inst>, body: Block, at: nat, ns: nat, after: nat,
      lo: nat, hi: nat, plain: bool)
    requires lo <= at && BlockEnd(body, at + 1) < after < hi <= |code| && (plain ==> OneTestBlock(body))
    requires BlockAt(code, body, at + 1, ns)
    requires code[at] == JumpTarget && code[BlockEnd(body, at + 1)] == Br(after) && Door(code, after)
    ensures Within(code, at, BlockEnd(body, at + 1) + 1, lo, hi, plain)
    decreases body, 4
  {
    BlockLocal(code, body, at + 1, ns, lo, hi, plain);
  }

  lemma {:induction false} ElseLocal(code: seq<Inst>, o: OrElse, at: nat, ns: nat, after: nat,
      lo: nat, hi: nat, plain: bool)
    requires ElseAt(code, o, at, ns, after) && (plain ==> OneTestElse(o))
    requires lo <= at && ElseEnd(o, at) <= after < hi <= |code| && (o.Else? ==> Door(code, after))
    ensures Within(code, at, ElseEnd(o, at), lo, hi, plain)
    decreases o, 3
  {
    if o.Else? { BodyLocal(code, o.body, at, ns, after, lo, hi, plain); }
  }

  /** In a finished sequence no placeholder is left and every jump has a place to go. */
  lemma {:induction false} LoweredIsLocal(code: seq<Inst>, b: Block, ns: nat)
    requires Lowered(code, b, ns)
    ensures Local(code, 0, |code|, OneTestBlock(b))
  {
    BlockLocal(code, b, 0, ns, 0, |code|, OneTestBlock(b));
  }

  // ---- straight code: chains have at least one test, and if `free` there are no ternaries ----

  predicate FreeExpr(e: Expr) {
    match e
    case Lit(_) => true
    case NameRef(_) => true
    case TupleLit(elems) => FreeExprs(elems)
    case BinOp(l, _, r) => FreeExpr(l) && FreeExpr(r)
    case Unary(_, v) => FreeExpr(v)
    case Ternary(_, _, _) => false
    case Named(_, v) => FreeExpr(v)
    case CallExpr(func, args) => FreeExpr(func) && FreeExprs(args)
    case Subscript(base, index) => FreeExpr(base) && FreeExpr(index)
    case Attribute(base, _) => FreeExpr(base)
  }

  predicate FreeExprs(es: Exprs) {
    match es
    case NoExprs => true
    case MoreExprs(h, t) => FreeExpr(h) && FreeExprs(t)
  }

  predicate FreeOpt(e: Option<Expr>) {
    e.Some? ==> FreeExpr(e.value)
  }

  predicate FreeParams(ps: Params) {
    match ps
    case NoParams => true
    case Param(_, ann, rest) => FreeOpt(ann) && FreeParams(rest)
  }

  predicate Regular(s: Stmt, free: bool) {
    match s
    case ExprStmt(e) => free ==> FreeExpr(e)
    case Assign(_, e) => free ==> FreeExpr(e)
    case AssignAttr(o, _, e) => free ==> FreeExpr(o) && FreeExpr(e)
    case Annotate(_, t) => free ==> FreeExpr(t)
    case ReturnStmt(r) => free ==> FreeOpt(r)
    case Pass => true
    case While(test, body) => (free ==> FreeExpr(test)) && RegularBlock(body, free)
    case IfChain(arms, orelse) =>
      arms.Arm? && RegularArms(arms, free) && (orelse.Else? ==> RegularBlock(orelse.body, free))
    case FuncDef(_, decs, ps, ret, _) => free ==> FreeExprs(Reverse(decs)) && FreeParams(ps) && FreeOpt(ret)
  }

  predicate RegularBlock(b: Block, free: bool) {
    match b
    case Empty => true
    case Then(h, t) => Regular(h, free) && RegularBlock(t, free)
  }

  predicate RegularArms(arms: Arms, free: bool) {
    match arms
    case NoArms => true
    case Arm(test, body, rest) => (free ==> FreeExpr(test)) && RegularBlock(body, free) && RegularArms(rest, free)
  }

  /** An instruction that neither moves control nor is a place to move it to. */
  predicate Inert(i: Inst) {
    !i.If? && !i.Br? && !i.PhiJump? && !i.Return? && !IsHead(i)
  }

  /** Control leaves by a jump: `If` on both outcomes, `Br`, or `Return`. */
  predicate Leaves(i: Inst) {
    i.Br? || i.Return? || (i.If? && i.truthy.Some? && i.falsey.Some?)
  }

  /** The instructions that a ternary ends its parts with. */
  predicate Slippery(i: Inst) {
    i.PhiJump? || OneWay(i)
  }

  predicate Exits(i: Inst, free: bool) {
    Leaves(i) || (!free && Slippery(i))
  }

  /**
   Where a head stands, the instruction before it exits.  `If`s go both ways by
   jumping, except that a one-way `If` falls into a jump target.
   */
  predicate StraightAt(code: seq<Inst>, k: nat, free: bool)
    requires k < |code|
  {
    || Inert(code[k])
    || (Exits(code[k], free) && (OneWay(code[k]) ==> k + 1 < |code| && code[k + 1].JumpTarget?))
    || (IsHead(code[k]) && (k == 0 || Exits(code[k - 1], free)))
  }

  ghost predicate Straight(code: seq<Inst>, lo: nat, hi: nat, free: bool) {
    hi <= |code| && forall k :: lo <= k < hi ==> StraightAt(code, k, free)
  }

  lemma {:induction false} ExprStraight(code: seq<Inst>, e: Expr, at: nat, free: bool)
    requires ExprAt(code, e, at) && (free ==> FreeExpr(e))
    ensures Straight(code, at, ExprEnd(e, at), free)
    decreases e, 2
  {
    match e
    case Lit(_) =>
    case NameRef(_) =>
    case TupleLit(_) => ListStraight(code, e, at, free);
    case BinOp(_, _, _) => BinOpStraight(code, e, at, free);
    case Unary(_, _) => PartStraight(code, e, at, free);
    case Ternary(_, _, _) => TernaryStraight(code, e, at, free);
    case Named(_, _) => PartStraight(code, e, at, free);
    case CallExpr(_, _) => ListStraight(code, e, at, free);
    case Subscript(_, _) => SubscriptStraight(code, e, at, free);
    case Attribute(_, _) => PartStraight(code, e, at, free);
  }

  lemma {:induction false} PartStraight(code: seq<Inst>, e: Expr, at: nat, free: bool)
    requires (e.Unary? || e.Named? || e.Attribute?) && ExprAt(code, e, at) && (free ==> FreeExpr(e))
    ensures Straight(code, at, ExprEnd(e, at), free)
    decreases e, 1
  {
    ExprStraight(code, if e.Unary? then e.operand else if e.Named? then e.bound else e.base, at, free);
  }

  lemma {:induction false} ListStraight(code: seq<Inst>, e: Expr, at: nat, free: bool)
    requires (e.TupleLit? || e.CallExpr?) && ExprAt(code, e, at) && (free ==> FreeExpr(e))
    ensures Straight(code, at, ExprEnd(e, at), free)
    decreases e, 1
  {
    if e.TupleLit? {
      ExprsStraight(code, e.elems, at, free);
    } else {
      ExprStraight(code, e.func, at, free);
      ExprsStraight(code, e.args, ExprEnd(e.func, at), free);
    }
  }

  lemma {:induction false} TestStraight(code: seq<Inst>, e: Expr, at: nat, free: bool)
    requires TestAt(code, e, at) && (free ==> FreeExpr(e))
    ensures Straight(code, at, TestEnd(e, at), free)
    decreases e, 3
  {
    ExprStraight(code, e, at, free);
  }

  lemma {:induction false} TernaryStraight(code: seq<Inst>, e: Expr, at: nat, free: bool)
    requires e.Ternary? && ExprAt(code, e, at) && !free
    ensures Straight(code, at, ExprEnd(e, at), free)
    decreases e, 1
  {
    var i := TestEnd(e.test, at);
    var j := ExprEnd(e.body, i + 2);
    TestStraight(code, e.test, at, free);
    ArmsStraight(code, e, i, j, ExprEnd(e.orelse, j + 2), free);
  }

  lemma {:induction false} ArmsStraight(code: seq<Inst>, e: Expr, i: nat, j: nat, k: nat, free: bool)
    requires e.Ternary? && i > 0 && ArmsAt(code, e, i) && !free
    requires j == ExprEnd(e.body, i + 2) && k == ExprEnd(e.orelse, j + 2)
    ensures Straight(code, i, k + 2, free)
    decreases e, 0
  {
    ExprStraight(code, e.body, i + 2, free);
    ExprStraight(code, e.orelse, j + 2, free);
  }

  lemma {:induction false} BinOpStraight(code: seq<Inst>, e: Expr, at: nat, free: bool)
    requires e.BinOp? && ExprAt(code, e, at) && (free ==> FreeExpr(e))
    ensures Straight(code, at, ExprEnd(e, at), free)
    decreases e, 1
  {
    PairStraight(code, e, e.left, e.right, at, free);
  }

  lemma {:induction false} SubscriptStraight(code: seq<Inst>, e: Expr, at: nat, free: bool)
    requires e.Subscript? && ExprAt(code, e, at) && (free ==> FreeExpr(e))
    ensures Straight(code, at, ExprEnd(e, at), free)
    decreases e, 1
  {
    PairStraight(code, e, e.base, e.index, at, free);
  }

  lemma {:induction false} PairStraight(code: seq<Inst>, e: Expr, l: Expr, r: Expr, at: nat, free: bool)
    requires l < e && r < e && (free ==> FreeExpr(l) && FreeExpr(r))
    requires ExprAt(code, l, at) && ExprAt(code, r, ExprEnd(l, at))
    requires var d := ExprEnd(r, ExprEnd(l, at)); d + 2 <= |code| && Inert(code[d]) && Inert(code[d + 1])
    ensures Straight(code, at, ExprEnd(r, ExprEnd(l, at)) + 2, free)
    decreases e, 0
  {
    ExprStraight(code, l, at, free);
    ExprStraight(code, r, ExprEnd(l, at), free);
  }

  lemma {:induction false} ExprsStraight(code: seq<Inst>, es: Exprs, at: nat, free: bool)
    requires ExprsAt(code, es, at) && (free ==> FreeExprs(es)) && at <= |code|
    ensures Straight(code, at, ExprsEnd(es, at), free)
    decreases es, 2
  {
    match es
    case NoExprs =>
    case MoreExprs(h, t) =>
      ExprStraight(code, h, at, free);
      ExprsStraight(code, t, ExprEnd(h, at), free);
  }

  lemma {:induction false} OptStraight(code: seq<Inst>, e: Option<Expr>, at: nat, free: bool)
    requires OptAt(code, e, at) && (free ==> FreeOpt(e)) && at <= |code|
    ensures Straight(code, at, OptEnd(e, at), free)
  {
    if e.Some? { ExprStraight(code, e.value, at, free); }
  }

  lemma {:induction false} ParamsStraight(code: seq<Inst>, ps: Params, at: nat, free: bool)
    requires ParamsAt(code, ps, at) && (free ==> FreeParams(ps)) && at <= |code|
    ensures Straight(code, at, ParamsEnd(ps, at), free)
    decreases ps
  {
    match ps
    case NoParams =>
    case Param(_, ann, rest) =>
      OptStraight(code, ann, at, free);
      ParamsStraight(code, rest, OptEnd(ann, at), free);
  }

  lemma {:induction false} StmtStraight(code: seq<Inst>, s: Stmt, at: nat, ns: nat, free: bool)
    requires StmtAt(code, s, at, ns) && Regular(s, free)
    ensures Straight(code, at, StmtEnd(s, at), free)
    decreases s, 2
  {
    match s
    case While(_, _) => WhileStraight(code, s, at, ns, free);
    case IfChain(_, _) => ChainStraight(code, s, at, ns, free);
    case FuncDef(_, _, _, _, _) => DefStraight(code, s, at, ns, free);
    case _ => SimpleStraight(code, s, at, ns, free);
  }

  lemma {:induction false} SimpleStraight(code: seq<Inst>, s: Stmt, at: nat, ns: nat, free: bool)
    requires !s.While? && !s.IfChain? && !s.FuncDef? && StmtAt(code, s, at, ns) && Regular(s, free)
    ensures Straight(code, at, StmtEnd(s, at), free)
  {
    match s
    case ExprStmt(e) => ExprStraight(code, e, at, free);
    case Assign(_, e) => ExprStraight(code, e, at, free);
    case AssignAttr(_, _, _) => AttrStraight(code, s, at, ns, free);
    case Annotate(_, t) => ExprStraight(code, t, at, free);
    case ReturnStmt(r) => OptStraight(code, r, at, free);
    case Pass =>
  }

  lemma {:induction false} AttrStraight(code: seq<Inst>, s: Stmt, at: nat, ns: nat, free: bool)
    requires s.AssignAttr? && StmtAt(code, s, at, ns) && Regular(s, free)
    ensures Straight(code, at, StmtEnd(s, at), free)
  {
    ExprStraight(code, s.object_, at, free);
    ExprStraight(code, s.value, ExprEnd(s.object_, at) + 1, free);
  }

  lemma {:induction false} BlockStraight(code: seq<Inst>, b: Block, at: nat, ns: nat, free: bool)
    requires BlockAt(code, b, at, ns) && RegularBlock(b, free) && at <= |code|
    ensures Straight(code, at, BlockEnd(b, at), free)
    decreases b, 3
  {
    match b
    case Empty =>
    case Then(h, t) =>
      StmtStraight(code, h, at, ns, free);
      BlockStraight(code, t, StmtEnd(h, at), ns + Defs(h), free);
  }

  lemma {:induction false} WhileStraight(code: seq<Inst>, s: Stmt, at: nat, ns: nat, free: bool)
    requires s.While? && WhileAt(code, s, at, ns) && Regular(s, free)
    ensures Straight(code, at, StmtEnd(s, at), free)
    decreases s, 1
  {
    var j, end := ExprEnd(s.test, at + 2), StmtEnd(s, at);
    assert Straight(code, at + 2, j, free) by { ExprStraight(code, s.test, at + 2, free); }
    assert Straight(code, j + 2, end - 2, free) by { BlockStraight(code, s.body, j + 2, ns, free); }
    LoopStraight(code, at, j, end, free);
  }

  lemma {:induction false} LoopStraight(code: seq<Inst>, at: nat, j: nat, end: nat, free: bool)
    requires at + 2 <= j && j + 4 <= end <= |code| && code[at].Br? && code[at + 1] == JumpTarget
    requires code[j].If? && code[j].truthy.Some? && code[j].falsey.Some? && code[j + 1] == JumpTarget
    requires code[end - 2].Br? && code[end - 1] == JumpTarget
    requires Straight(code, at + 2, j, free) && Straight(code, j + 2, end - 2, free)
    ensures Straight(code, at, end, free)
  {
  }

  lemma {:induction false} DefStraight(code: seq<Inst>, s: Stmt, at: nat, ns: nat, free: bool)
    requires s.FuncDef? && DefAt(code, s, at, ns) && Regular(s, free)
    ensures Straight(code, at, StmtEnd(s, at), free)
  {
    var decs := Reverse(s.decorators);
    var d := ExprsEnd(decs, at);
    var p := ParamsEnd(s.params, d);
    var f := OptEnd(s.result, p);
    ExprsStraight(code, decs, at, free);
    ParamsStraight(code, s.params, d, free);
    OptStraight(code, s.result, p, free);
    CallsStraight(code, ExprsSlots(decs, at), f, f + 2, free);
  }

  lemma {:induction false} CallsStraight(code: seq<Inst>, decs: seq<nat>, func: nat, at: nat, free: bool)
    requires CallsAt(code, decs, func, at)
    ensures Straight(code, at, at + |decs|, free)
    decreases |decs|
  {
    if decs != [] { CallsStraight(code, decs[1..], at, at + 1, free); }
  }

  lemma {:induction false} ChainStraight(code: seq<Inst>, s: Stmt, at: nat, ns: nat, free: bool)
    requires s.IfChain? && ChainAt(code, s, at, ns) && Regular(s, free)
    ensures Straight(code, at, StmtEnd(s, at), free)
    decreases s, 1
  {
    var p, q := ChainTests(s.arms, at), ChainBodies(s.arms, at);
    var r, after := BodiesEnd(s.arms, q), ChainAfter(s, at);
    assert Straight(code, p, q, free) && p < q && Leaves(code[q - 1]) by {
      TestsStraight(code, s.arms, p, q, after, free);
      LastTest(code, s.arms, p, q, after);
    }
    assert Straight(code, q, r, free) && Leaves(code[r - 1]) by {
      BodiesStraight(code, s.arms, q, ns, after, free);
    }
    assert Straight(code, r, after, free) && Leaves(code[after - 1]) by {
      ElseStraight(code, s.orelse, r, ns + ArmsDefs(s.arms), after, free);
    }
    PartsStraight(code, at, p, q, r, after, free);
  }

  lemma {:induction false} PartsStraight(code: seq<Inst>, at: nat, p: nat, q: nat, r: nat, after: nat, free: bool)
    requires at <= p <= at + 1 && p < q <= r <= after < |code| && (at < p ==> at == 0 && code[0] == JumpTarget)
    requires Straight(code, p, q, free) && Straight(code, q, r, free)
    requires Straight(code, r, after, free) && Leaves(code[after - 1]) && code[after] == JumpTarget
    ensures Straight(code, at, after + 1, free)
  {
  }

  lemma {:induction false} JoinStraight(code: seq<Inst>, lo: nat, mid: nat, hi: nat, free: bool)
    requires lo <= mid < hi && Straight(code, lo, mid, free) && Straight(code, mid + 1, hi, free)
    requires code[mid].If? && code[mid].truthy.Some? && code[mid].falsey.Some?
    ensures Straight(code, lo, hi, free)
  {
  }

  lemma {:induction false} TestsStraight(code: seq<Inst>, arms: Arms, at: nat, q: nat, after: nat, free: bool)
    requires TestsAt(code, arms, at, q, after) && RegularArms(arms, free)
    ensures Straight(code, at, TestsEnd(arms, at), free)
    decreases arms
  {
    if arms.Arm? {
      var p := TestEnd(arms.test, at);
      assert Straight(code, at, p, free) by { TestStraight(code, arms.test, at, free); }
      assert Straight(code, p + 1, TestsEnd(arms.rest, p + 1), free) by {
        TestsStraight(code, arms.rest, p + 1, BlockEnd(arms.body, q + 1) + 1, after, free);
      }
      JoinStraight(code, at, p, TestsEnd(arms.rest, p + 1), free);
    }
  }

  lemma {:induction false} BodiesStraight(code: seq<Inst>, arms: Arms, at: nat, ns: nat, after: nat, free: bool)
    requires BodiesAt(code, arms, at, ns, after) && RegularArms(arms, free)
    requires 0 < at <= |code| && Leaves(code[at - 1])
    ensures Straight(code, at, BodiesEnd(arms, at), free) && Leaves(code[BodiesEnd(arms, at) - 1])
    decreases arms, 3
  {
    if arms.Arm? {
      var e := BlockEnd(arms.body, at + 1);
      BlockStraight(code, arms.body, at + 1, ns, free);
      BodiesStraight(code, arms.rest, e + 1, ns + BlockDefs(arms.body), after, free);
    }
  }

  lemma {:induction false} ElseStraight(code: seq<Inst>, o: OrElse, at: nat, ns: nat, after: nat, free: bool)
    requires ElseAt(code, o, at, ns, after) && (o.Else? ==> RegularBlock(o.body, free))
    requires 0 < at <= |code| && Leaves(code[at - 1])
    ensures Straight(code, at, ElseEnd(o, at), free) && Leaves(code[ElseEnd(o, at) - 1])
    decreases o, 3
  {
    if o.Else? { BlockStraight(code, o.body, at + 1, ns, free); }
  }

  lemma {:induction false} LoweredIsStraight(code: seq<Inst>, b: Block, ns: nat, free: bool)
    requires Lowered(code, b, ns) && RegularBlock(b, free)
    ensures Straight(code, 0, |code|, free)
  {
    BlockStraight(code, b, 0, ns, free);
  }
}
