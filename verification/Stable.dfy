/**
 A layout depends only on the instructions inside its extent, and the layout
 of nested functions only on the sequences they are given.
 */
module Stable {
  import opened RawInst
  import opened Ast
  import opened Lower

  ghost predicate AgreeOn(c: seq<Inst>, d: seq<Inst>, lo: nat, hi: nat) {
    hi <= |c| && hi <= |d| && forall i :: lo <= i < hi ==> d[i] == c[i]
  }

  lemma {:induction false} ExprStable(c: seq<Inst>, d: seq<Inst>, e: Expr, at: nat)
    requires ExprAt(c, e, at) && AgreeOn(c, d, at, ExprEnd(e, at))
    ensures ExprAt(d, e, at)
    decreases e, 1
  {
    match e
    case Lit(_) =>
    case NameRef(_) =>
    case TupleLit(elems) => ExprsStable(c, d, elems, at);
    case Unary(_, v) => ExprStable(c, d, v, at);
    case Named(_, v) => ExprStable(c, d, v, at);
    case Attribute(base, _) => ExprStable(c, d, base, at);
    case Ternary(_, _, _) => TernaryStable(c, d, e, at);
    case BinOp(_, _, _) => BinOpStable(c, d, e, at);
    case Subscript(_, _) => SubscriptStable(c, d, e, at);
    case CallExpr(_, _) => CallStable(c, d, e, at);
  }

  lemma {:induction false} BinOpStable(c: seq<Inst>, d: seq<Inst>, e: Expr, at: nat)
    requires e.BinOp? && ExprAt(c, e, at) && AgreeOn(c, d, at, ExprEnd(e, at))
    ensures ExprAt(d, e, at)
    decreases e, 0, 1
  {
    ExprStable(c, d, e.left, at);
    ExprStable(c, d, e.right, ExprEnd(e.left, at));
  }

  lemma {:induction false} SubscriptStable(c: seq<Inst>, d: seq<Inst>, e: Expr, at: nat)
    requires e.Subscript? && ExprAt(c, e, at) && AgreeOn(c, d, at, ExprEnd(e, at))
    ensures ExprAt(d, e, at)
    decreases e, 0, 1
  {
    ExprStable(c, d, e.base, at);
    ExprStable(c, d, e.index, ExprEnd(e.base, at));
  }

  lemma {:induction false} CallStable(c: seq<Inst>, d: seq<Inst>, e: Expr, at: nat)
    requires e.CallExpr? && ExprAt(c, e, at) && AgreeOn(c, d, at, ExprEnd(e, at))
    ensures ExprAt(d, e, at)
    decreases e, 0, 1
  {
    ExprStable(c, d, e.func, at);
    ExprsStable(c, d, e.args, ExprEnd(e.func, at));
  }

  lemma {:induction false} TernaryStable(c: seq<Inst>, d: seq<Inst>, e: Expr, at: nat)
    requires e.Ternary? && ExprAt(c, e, at) && AgreeOn(c, d, at, ExprEnd(e, at))
    ensures ExprAt(d, e, at)
    decreases e, 0, 1
  {
    TestStable(c, d, e.test, at);
    ArmsStable(c, d, e, TestEnd(e.test, at));
  }

  lemma {:induction false} ArmsStable(c: seq<Inst>, d: seq<Inst>, e: Expr, at: nat)
    requires e.Ternary? && at > 0 && ArmsAt(c, e, at) && AgreeOn(c, d, at, ArmsEnd(e, at))
    ensures ArmsAt(d, e, at)
    decreases e, 0, 0
  {
    ExprStable(c, d, e.body, at + 2);
    ExprStable(c, d, e.orelse, ExprEnd(e.body, at + 2) + 2);
  }

  lemma {:induction false} TestStable(c: seq<Inst>, d: seq<Inst>, e: Expr, at: nat)
    requires TestAt(c, e, at) && AgreeOn(c, d, at, TestEnd(e, at))
    ensures TestAt(d, e, at)
    decreases e, 2
  {
    ExprStable(c, d, e, at);
  }

  lemma {:induction false} ExprsStable(c: seq<Inst>, d: seq<Inst>, es: Exprs, at: nat)
    requires ExprsAt(c, es, at) && AgreeOn(c, d, at, ExprsEnd(es, at))
    ensures ExprsAt(d, es, at)
    decreases es, 1
  {
    match es
    case NoExprs =>
    case MoreExprs(h, t) => ExprStable(c, d, h, at); ExprsStable(c, d, t, ExprEnd(h, at));
  }

  lemma {:induction false} OptStable(c: seq<Inst>, d: seq<Inst>, e: Option<Expr>, at: nat)
    requires OptAt(c, e, at) && AgreeOn(c, d, at, OptEnd(e, at))
    ensures OptAt(d, e, at)
  {
    if e.Some? { ExprStable(c, d, e.value, at); }
  }

  lemma {:induction false} ParamsStable(c: seq<Inst>, d: seq<Inst>, ps: Params, at: nat)
    requires ParamsAt(c, ps, at) && AgreeOn(c, d, at, ParamsEnd(ps, at))
    ensures ParamsAt(d, ps, at)
    decreases ps
  {
    match ps
    case NoParams =>
    case Param(_, ann, rest) => OptStable(c, d, ann, at); ParamsStable(c, d, rest, OptEnd(ann, at));
  }

  lemma {:induction false} CallsStable(c: seq<Inst>, d: seq<Inst>, decs: seq<nat>, f: nat, at: nat)
    requires CallsAt(c, decs, f, at) && AgreeOn(c, d, at, at + |decs|)
    ensures CallsAt(d, decs, f, at)
    decreases decs
  {
    if decs != [] { CallsStable(c, d, decs[1..], at, at + 1); }
  }

  lemma {:induction false} StmtStable(c: seq<Inst>, d: seq<Inst>, s: Stmt, at: nat, ns: nat)
    requires StmtAt(c, s, at, ns) && AgreeOn(c, d, at, StmtEnd(s, at))
    ensures StmtAt(d, s, at, ns)
    decreases s, 2
  {
    match s
    case While(_, _) => WhileStable(c, d, s, at, ns);
    case IfChain(_, _) => ChainStable(c, d, s, at, ns);
    case FuncDef(_, decs, ps, ret, _) => DefStable(c, d, s, at, ns);
    case _ => SimpleStable(c, d, s, at, ns);
  }

  lemma {:induction false} SimpleStable(c: seq<Inst>, d: seq<Inst>, s: Stmt, at: nat, ns: nat)
    requires !s.While? && !s.IfChain? && !s.FuncDef?
    requires StmtAt(c, s, at, ns) && AgreeOn(c, d, at, StmtEnd(s, at))
    ensures StmtAt(d, s, at, ns)
  {
    match s
    case ExprStmt(e) => ExprStable(c, d, e, at);
    case Assign(_, e) => ExprStable(c, d, e, at);
    case AssignAttr(_, _, _) => AssignAttrStable(c, d, s, at, ns);
    case Annotate(_, k) => ExprStable(c, d, k, at);
    case ReturnStmt(r) => if r.Some? { ExprStable(c, d, r.value, at); }
    case Pass =>
  }

  lemma {:induction false} AssignAttrStable(c: seq<Inst>, d: seq<Inst>, s: Stmt, at: nat, ns: nat)
    requires s.AssignAttr? && StmtAt(c, s, at, ns) && AgreeOn(c, d, at, StmtEnd(s, at))
    ensures StmtAt(d, s, at, ns)
  {
    ExprStable(c, d, s.object_, at);
    ExprStable(c, d, s.value, ExprEnd(s.object_, at) + 1);
  }

  lemma {:induction false} WhileStable(c: seq<Inst>, d: seq<Inst>, s: Stmt, at: nat, ns: nat)
    requires s.While? && WhileAt(c, s, at, ns) && AgreeOn(c, d, at, StmtEnd(s, at))
    ensures WhileAt(d, s, at, ns)
    decreases s, 1
  {
    ExprStable(c, d, s.test, at + 2);
    BlockStable(c, d, s.body, ExprEnd(s.test, at + 2) + 2, ns);
  }

  lemma {:induction false} DefStable(c: seq<Inst>, d: seq<Inst>, s: Stmt, at: nat, ns: nat)
    requires s.FuncDef? && DefAt(c, s, at, ns) && AgreeOn(c, d, at, StmtEnd(s, at))
    ensures DefAt(d, s, at, ns)
  {
    var decs := Reverse(s.decorators);
    var p := ExprsEnd(decs, at);
    var r := ParamsEnd(s.params, p);
    var f := OptEnd(s.result, r);
    ExprsStable(c, d, decs, at);
    ParamsStable(c, d, s.params, p);
    OptStable(c, d, s.result, r);
    CallsStable(c, d, ExprsSlots(decs, at), f, f + 2);
  }

  lemma {:induction false} ChainStable(c: seq<Inst>, d: seq<Inst>, s: Stmt, at: nat, ns: nat)
    requires s.IfChain? && ChainAt(c, s, at, ns) && AgreeOn(c, d, at, ChainAfter(s, at) + 1)
    ensures ChainAt(d, s, at, ns)
    decreases s, 1
  {
    var p, q, after := ChainTests(s.arms, at), ChainBodies(s.arms, at), ChainAfter(s, at);
    var r, defs := BodiesEnd(s.arms, q), ns + ArmsDefs(s.arms);
    assert TestsAt(d, s.arms, p, q, after) by { TestsStable(c, d, s.arms, p, q, after); }
    assert BodiesAt(d, s.arms, q, ns, after) by { BodiesStable(c, d, s.arms, q, ns, after); }
    assert ElseAt(d, s.orelse, r, defs, after) by { ElseStable(c, d, s.orelse, r, defs, after); }
  }

  lemma {:induction false} BlockStable(c: seq<Inst>, d: seq<Inst>, b: Block, at: nat, ns: nat)
    requires BlockAt(c, b, at, ns) && AgreeOn(c, d, at, BlockEnd(b, at))
    ensures BlockAt(d, b, at, ns)
    decreases b, 2
  {
    match b
    case Empty =>
    case Then(h, t) => StmtStable(c, d, h, at, ns); BlockStable(c, d, t, StmtEnd(h, at), ns + Defs(h));
  }

  lemma {:induction false} TestsStable(c: seq<Inst>, d: seq<Inst>, arms: Arms, at: nat, q: nat, after: nat)
    requires TestsAt(c, arms, at, q, after) && AgreeOn(c, d, at, TestsEnd(arms, at))
    ensures TestsAt(d, arms, at, q, after)
    decreases arms, 1
  {
    if arms.Arm? {
      TestsParts(c, arms, at, q, after);
      TestsStableStep(c, d, arms, at, TestEnd(arms.test, at), q, BlockEnd(arms.body, q + 1) + 1, after);
    }
  }

  /** The first test of a chain, and the other ones. */
  lemma {:induction false} TestsParts(c: seq<Inst>, arms: Arms, at: nat, q: nat, after: nat)
    requires arms.Arm? && TestsAt(c, arms, at, q, after)
    ensures var p := TestEnd(arms.test, at);
      && p < |c| && TestAt(c, arms.test, at)
      && c[p] == If(p - 1, Some(q), Some(if arms.rest.NoArms? then after else p))
      && TestsAt(c, arms.rest, p + 1, BlockEnd(arms.body, q + 1) + 1, after)
  {
  }

  lemma {:induction false} TestsStableStep(c: seq<Inst>, d: seq<Inst>, arms: Arms, at: nat, p: nat, q: nat, q1: nat,
        after: nat)
    requires arms.Arm? && p == TestEnd(arms.test, at) && q1 == BlockEnd(arms.body, q + 1) + 1
    requires p < |c| && TestAt(c, arms.test, at) == true && TestsAt(c, arms.rest, p + 1, q1, after) == true
    requires c[p] == If(p - 1, Some(q), Some(if arms.rest.NoArms? then after else p))
    requires AgreeOn(c, d, at, TestsEnd(arms, at))
    ensures TestsAt(d, arms, at, q, after) == true
    decreases arms, 0
  {
    assert TestAt(d, arms.test, at) == true by { TestStable(c, d, arms.test, at); }
    assert TestsAt(d, arms.rest, p + 1, q1, after) == true by { TestsStable(c, d, arms.rest, p + 1, q1, after); }
    TestsAtCons(d, arms, at, q, after);
  }

  lemma {:induction false} TestsAtCons(z: seq<Inst>, arms: Arms, at: nat, q: nat, after: nat)
    requires arms.Arm? && TestsEnd(arms, at) <= |z| && TestAt(z, arms.test, at)
    requires var p := TestEnd(arms.test, at);
      && z[p] == If(p - 1, Some(q), Some(if arms.rest.NoArms? then after else p))
      && TestsAt(z, arms.rest, p + 1, BlockEnd(arms.body, q + 1) + 1, after)
    ensures TestsAt(z, arms, at, q, after)
  {
  }

  lemma {:induction false} BodiesStable(c: seq<Inst>, d: seq<Inst>, arms: Arms, at: nat, ns: nat, after: int)
    requires BodiesAt(c, arms, at, ns, after) && AgreeOn(c, d, at, BodiesEnd(arms, at))
    ensures BodiesAt(d, arms, at, ns, after)
    decreases arms, 2
  {
    if arms.Arm? {
      var k, defs := BlockEnd(arms.body, at + 1), ns + BlockDefs(arms.body);
      assert BlockAt(d, arms.body, at + 1, ns) by { BlockStable(c, d, arms.body, at + 1, ns); }
      assert BodiesAt(d, arms.rest, k + 1, defs, after) by {
        BodiesStable(c, d, arms.rest, k + 1, defs, after);
      }
      BodiesAtCons(d, arms, at, ns, after);
    }
  }

  lemma {:induction false} BodiesAtCons(z: seq<Inst>, arms: Arms, at: nat, ns: nat, after: int)
    requires arms.Arm? && BodiesEnd(arms, at) <= |z| && z[at] == JumpTarget
    requires var k := BlockEnd(arms.body, at + 1);
      && BlockAt(z, arms.body, at + 1, ns) && z[k] == Br(after)
      && BodiesAt(z, arms.rest, k + 1, ns + BlockDefs(arms.body), after)
    ensures BodiesAt(z, arms, at, ns, after)
  {
  }

  lemma {:induction false} ElseStable(c: seq<Inst>, d: seq<Inst>, o: OrElse, at: nat, ns: nat, after: int)
    requires ElseAt(c, o, at, ns, after) && AgreeOn(c, d, at, ElseEnd(o, at))
    ensures ElseAt(d, o, at, ns, after)
    decreases o, 2
  {
    match o
    case NoElse =>
    case Else(body) => BlockStable(c, d, body, at + 1, ns);
  }

  // ---- sequences ----

  /** `y` (from number `by`) lists the sequences numbered `lo` to `hi` as `x` (from number `bx`) does. */
  ghost predicate SameSeqs(x: seq<seq<Inst>>, bx: nat, y: seq<seq<Inst>>, by_: nat, lo: nat, hi: nat) {
    && bx <= lo && hi <= bx + |x| && by_ <= lo && hi <= by_ + |y|
    && forall k :: lo <= k < hi ==> Sequence(y, by_, k) == Sequence(x, bx, k)
  }

  lemma {:induction false} StmtSeqsStable(x: seq<seq<Inst>>, bx: nat, y: seq<seq<Inst>>, by_: nat, s: Stmt, ns: nat)
    requires StmtSeqs(x, bx, s, ns) && SameSeqs(x, bx, y, by_, ns, ns + Defs(s))
    ensures StmtSeqs(y, by_, s, ns)
    decreases s
  {
    match s
    case While(_, body) => BlockSeqsStable(x, bx, y, by_, body, ns);
    case IfChain(arms, orelse) =>
      ArmsSeqsStable(x, bx, y, by_, arms, ns);
      ElseSeqsStable(x, bx, y, by_, orelse, ns + ArmsDefs(arms));
    case FuncDef(_, _, _, _, body) =>
      assert Sequence(y, by_, ns) == Sequence(x, bx, ns);
      BlockSeqsStable(x, bx, y, by_, body, ns + 1);
    case _ =>
  }

  lemma {:induction false} BlockSeqsStable(x: seq<seq<Inst>>, bx: nat, y: seq<seq<Inst>>, by_: nat, b: Block, ns: nat)
    requires BlockSeqs(x, bx, b, ns) && SameSeqs(x, bx, y, by_, ns, ns + BlockDefs(b))
    ensures BlockSeqs(y, by_, b, ns)
    decreases b
  {
    match b
    case Empty =>
    case Then(h, t) => StmtSeqsStable(x, bx, y, by_, h, ns); BlockSeqsStable(x, bx, y, by_, t, ns + Defs(h));
  }

  lemma {:induction false} ArmsSeqsStable(x: seq<seq<Inst>>, bx: nat, y: seq<seq<Inst>>, by_: nat, arms: Arms, ns: nat)
    requires ArmsSeqs(x, bx, arms, ns) && SameSeqs(x, bx, y, by_, ns, ns + ArmsDefs(arms))
    ensures ArmsSeqs(y, by_, arms, ns)
    decreases arms
  {
    if arms.Arm? {
      BlockSeqsStable(x, bx, y, by_, arms.body, ns);
      ArmsSeqsStable(x, bx, y, by_, arms.rest, ns + BlockDefs(arms.body));
    }
  }

  lemma {:induction false} ElseSeqsStable(x: seq<seq<Inst>>, bx: nat, y: seq<seq<Inst>>, by_: nat, o: OrElse, ns: nat)
    requires ElseSeqs(x, bx, o, ns) && SameSeqs(x, bx, y, by_, ns, ns + ElseDefs(o))
    ensures ElseSeqs(y, by_, o, ns)
    decreases o
  {
    if o.Else? { BlockSeqsStable(x, bx, y, by_, o.body, ns); }
  }
}
