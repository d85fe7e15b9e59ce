/**
 What the lowered code of a body says about its names: the annotations, the
 functions it defines with the numbers of their sequences, and the attributes it
 assigns stand in the code in the order in which they stand in the source, and
 nowhere else.
 */
module Marks {
  import opened RawInst
  import opened Ast
  import opened Lower
  import opened Correctness
  import opened Targets

  datatype Mark = Annotation(name: Name) | Definition(name: Name, id: nat) | AttributeSet

  function MarkOf(i: Inst): seq<Mark> {
    match i
    case SetAnnotation(n, _) => [Annotation(n)]
    case Defn(n, _, _, id) => [Definition(n, id)]
    case SetAttribute(_, _, _) => [AttributeSet]
    case _ => []
  }

  /** The marks between `lo` and `hi`. */
  function MarksIn(code: seq<Inst>, lo: nat, hi: nat): seq<Mark>
    requires hi <= |code|
    decreases hi, code, lo
  {
    if lo >= hi then [] else MarksIn(code, lo, hi - 1) + MarkOf(code[hi - 1])
  }

  // ---- the marks of the source ----

  /** The marks of a statement whose first function gets the number `ns`. */
  function StmtMarks(s: Stmt, ns: nat): seq<Mark> {
    match s
    case AssignAttr(_, _, _) => [AttributeSet]
    case Annotate(n, _) => [Annotation(n)]
    case FuncDef(n, _, _, _, _) => [Definition(n, ns)]
    case While(_, body) => BlockMarks(body, ns)
    case IfChain(arms, orelse) =>
      ArmsMarks(arms, ns) + ElseMarks(orelse, ns + ArmsDefs(arms))
    case _ => []
  }

  function BlockMarks(b: Block, ns: nat): seq<Mark> {
    match b
    case Empty => []
    case Then(h, t) => StmtMarks(h, ns) + BlockMarks(t, ns + Defs(h))
  }

  function ArmsMarks(arms: Arms, ns: nat): seq<Mark> {
    match arms
    case NoArms => []
    case Arm(_, body, rest) => BlockMarks(body, ns) + ArmsMarks(rest, ns + BlockDefs(body))
  }

  function ElseMarks(o: OrElse, ns: nat): seq<Mark> {
    match o
    case NoElse => []
    case Else(body) => BlockMarks(body, ns)
  }

  // ---- stretches of code ----

  lemma {:induction false} MarksJoin(code: seq<Inst>, lo: nat, mid: nat, hi: nat)
    requires lo <= mid <= hi <= |code|
    ensures MarksIn(code, lo, hi) == MarksIn(code, lo, mid) + MarksIn(code, mid, hi)
    decreases hi
  {
    if mid < hi { MarksJoin(code, lo, mid, hi - 1); }
  }

  ghost predicate Unmarked(code: seq<Inst>, lo: nat, hi: nat) {
    hi <= |code| && forall k :: lo <= k < hi ==> MarkOf(code[k]) == []
  }

  lemma {:induction false} NoMarks(code: seq<Inst>, lo: nat, hi: nat)
    requires Unmarked(code, lo, hi)
    ensures MarksIn(code, lo, hi) == []
    decreases hi
  {
    if lo < hi {
      NoMarks(code, lo, hi - 1);
      assert MarkOf(code[hi - 1]) == [];
    }
  }

  /** The code from `lo` to `hi` has these marks. */
  ghost predicate Marked(code: seq<Inst>, lo: nat, hi: nat, ms: seq<Mark>) {
    lo <= hi <= |code| && MarksIn(code, lo, hi) == ms
  }

  lemma {:induction false} MarkedThen(code: seq<Inst>, lo: nat, mid: nat, hi: nat, a: seq<Mark>, b: seq<Mark>)
    requires Marked(code, lo, mid, a) == true && Marked(code, mid, hi, b) == true
    ensures Marked(code, lo, hi, a + b) == true
  {
    MarksJoin(code, lo, mid, hi);
  }

  /** Unmarked code around marked code. */
  lemma {:induction false} MarkedInside(code: seq<Inst>, lo: nat, a: nat, b: nat, hi: nat, ms: seq<Mark>)
    requires lo <= a && b <= hi && Unmarked(code, lo, a) && Marked(code, a, b, ms) && Unmarked(code, b, hi)
    ensures Marked(code, lo, hi, ms) == true
  {
    NoMarks(code, lo, a);
    NoMarks(code, b, hi);
    MarksJoin(code, lo, a, hi);
    MarksJoin(code, a, b, hi);
  }

  /** Unmarked code around one instruction. */
  lemma {:induction false} MarkedAt(code: seq<Inst>, lo: nat, k: nat, hi: nat)
    requires lo <= k < hi && Unmarked(code, lo, k) && Unmarked(code, k + 1, hi)
    ensures Marked(code, lo, hi, MarkOf(code[k])) == true
  {
    assert MarksIn(code, k, k) == [];
    assert MarksIn(code, k, k + 1) == MarkOf(code[k]);
    MarkedInside(code, lo, k, k + 1, hi, MarkOf(code[k]));
  }

  // ---- expressions have none ----

  lemma {:induction false} ExprUnmarked(code: seq<Inst>, e: Expr, at: nat)
    requires ExprAt(code, e, at)
    ensures Unmarked(code, at, ExprEnd(e, at))
    decreases e, 2
  {
    match e
    case Lit(_) =>
    case NameRef(_) =>
    case TupleLit(elems) => ExprsUnmarked(code, elems, at);
    case BinOp(l, _, r) => PairUnmarked(code, e, l, r, at);
    case Unary(_, v) => ExprUnmarked(code, v, at);
    case Ternary(_, _, _) => TernaryUnmarked(code, e, at);
    case Named(_, v) => ExprUnmarked(code, v, at);
    case CallExpr(func, args) =>
      ExprUnmarked(code, func, at);
      ExprsUnmarked(code, args, ExprEnd(func, at));
    case Subscript(base, index) => PairUnmarked(code, e, base, index, at);
    case Attribute(base, _) => ExprUnmarked(code, base, at);
  }

  lemma {:induction false} PairUnmarked(code: seq<Inst>, e: Expr, l: Expr, r: Expr, at: nat)
    requires (e.BinOp? && e.left == l && e.right == r) || (e.Subscript? && e.base == l && e.index == r)
    requires ExprAt(code, e, at)
    ensures Unmarked(code, at, ExprEnd(e, at))
    decreases e, 1
  {
    ExprUnmarked(code, l, at);
    ExprUnmarked(code, r, ExprEnd(l, at));
  }

  lemma {:induction false} TernaryUnmarked(code: seq<Inst>, e: Expr, at: nat)
    requires e.Ternary? && ExprAt(code, e, at)
    ensures Unmarked(code, at, ExprEnd(e, at))
    decreases e, 1
  {
    TestUnmarked(code, e.test, at);
    ArmsUnmarked(code, e, TestEnd(e.test, at));
  }

  lemma {:induction false} ArmsUnmarked(code: seq<Inst>, e: Expr, at: nat)
    requires e.Ternary? && at > 0 && ArmsAt(code, e, at)
    ensures Unmarked(code, at, ArmsEnd(e, at))
    decreases e, 0
  {
    ExprUnmarked(code, e.body, at + 2);
    ExprUnmarked(code, e.orelse, ExprEnd(e.body, at + 2) + 2);
  }

  lemma {:induction false} TestUnmarked(code: seq<Inst>, e: Expr, at: nat)
    requires TestAt(code, e, at)
    ensures Unmarked(code, at, TestEnd(e, at))
    decreases e, 3
  {
    ExprUnmarked(code, e, at);
  }

  lemma {:induction false} ExprsUnmarked(code: seq<Inst>, es: Exprs, at: nat)
    requires ExprsAt(code, es, at) && at <= |code|
    ensures Unmarked(code, at, ExprsEnd(es, at))
    decreases es, 2
  {
    if es.MoreExprs? {
      ExprUnmarked(code, es.head, at);
      ExprsUnmarked(code, es.tail, ExprEnd(es.head, at));
    }
  }

  lemma {:induction false} ParamsUnmarked(code: seq<Inst>, ps: Params, at: nat)
    requires ParamsAt(code, ps, at) && at <= |code|
    ensures Unmarked(code, at, ParamsEnd(ps, at))
    decreases ps
  {
    if ps.Param? {
      if ps.annotation.Some? { ExprUnmarked(code, ps.annotation.value, at); }
      ParamsUnmarked(code, ps.rest, OptEnd(ps.annotation, at));
    }
  }

  lemma {:induction false} CallsUnmarked(code: seq<Inst>, decs: seq<nat>, func: nat, at: nat)
    requires CallsAt(code, decs, func, at)
    ensures Unmarked(code, at, at + |decs|)
    decreases |decs|
  {
    if decs != [] { CallsUnmarked(code, decs[1..], at, at + 1); }
  }

  lemma {:induction false} TestsUnmarked(code: seq<Inst>, arms: Arms, at: nat, q: nat, after: nat)
    requires TestsAt(code, arms, at, q, after)
    ensures Unmarked(code, at, TestsEnd(arms, at))
    decreases arms
  {
    if arms.Arm? {
      var p := TestEnd(arms.test, at);
      TestUnmarked(code, arms.test, at);
      TestsUnmarked(code, arms.rest, p + 1, BlockEnd(arms.body, q + 1) + 1, after);
    }
  }

  // ---- statements have their own ----

  lemma {:induction false} StmtMarked(code: seq<Inst>, s: Stmt, at: nat, ns: nat)
    requires StmtAt(code, s, at, ns) == true
    ensures Marked(code, at, StmtEnd(s, at), StmtMarks(s, ns)) == true
    decreases s, 2
  {
    match s
    case While(_, _) => LoopMarked(code, s, at, ns);
    case IfChain(_, _) => ChainMarked(code, s, at, ns);
    case FuncDef(_, _, _, _, _) => DefMarked(code, s, at, ns);
    case AssignAttr(_, _, _) => AttrMarked(code, s, at, ns);
    case ExprStmt(e) => ExprStmtMarked(code, e, at);
    case _ => SimpleMarked(code, s, at, ns);
  }

  lemma {:induction false} SimpleMarked(code: seq<Inst>, s: Stmt, at: nat, ns: nat)
    requires (s.Assign? || s.Annotate? || s.ReturnStmt? || s.Pass?) && StmtAt(code, s, at, ns)
    ensures Marked(code, at, StmtEnd(s, at), StmtMarks(s, ns)) == true
  {
    SimpleUnmarked(code, s, at, ns);
    MarkedAt(code, at, StmtEnd(s, at) - 1, StmtEnd(s, at));
  }

  lemma {:induction false} ExprStmtMarked(code: seq<Inst>, e: Expr, at: nat)
    requires ExprAt(code, e, at)
    ensures Marked(code, at, ExprEnd(e, at), []) == true
  {
    ExprUnmarked(code, e, at);
    NoMarks(code, at, ExprEnd(e, at));
  }

  lemma {:induction false} SimpleUnmarked(code: seq<Inst>, s: Stmt, at: nat, ns: nat)
    requires (s.Assign? || s.Annotate? || s.ReturnStmt? || s.Pass?) && StmtAt(code, s, at, ns)
    ensures Unmarked(code, at, StmtEnd(s, at) - 1) && MarkOf(code[StmtEnd(s, at) - 1]) == StmtMarks(s, ns)
  {
    match s
    case Assign(_, e) => ExprUnmarked(code, e, at);
    case Annotate(_, k) => ExprUnmarked(code, k, at);
    case ReturnStmt(r) =>
      if r.Some? { ExprUnmarked(code, r.value, at); }
    case Pass =>
  }

  lemma {:induction false} AttrMarked(code: seq<Inst>, s: Stmt, at: nat, ns: nat)
    requires s.AssignAttr? && StmtAt(code, s, at, ns)
    ensures Marked(code, at, StmtEnd(s, at), StmtMarks(s, ns)) == true
  {
    ExprUnmarked(code, s.object_, at);
    ExprUnmarked(code, s.value, ExprEnd(s.object_, at) + 1);
    MarkedAt(code, at, StmtEnd(s, at) - 1, StmtEnd(s, at));
  }

  lemma {:induction false} DefMarked(code: seq<Inst>, s: Stmt, at: nat, ns: nat)
    requires s.FuncDef? && DefAt(code, s, at, ns)
    ensures Marked(code, at, StmtEnd(s, at), StmtMarks(s, ns)) == true
  {
    var decs := Reverse(s.decorators);
    var d := ExprsEnd(decs, at);
    var p := ParamsEnd(s.params, d);
    var f := OptEnd(s.result, p);
    ExprsUnmarked(code, decs, at);
    ParamsUnmarked(code, s.params, d);
    if s.result.Some? { ExprUnmarked(code, s.result.value, p); }
    CallsUnmarked(code, ExprsSlots(decs, at), f, f + 2);
    MarkedAt(code, at, f, StmtEnd(s, at));
  }

  lemma {:induction false} LoopMarked(code: seq<Inst>, s: Stmt, at: nat, ns: nat)
    requires s.While? && WhileAt(code, s, at, ns) == true
    ensures Marked(code, at, StmtEnd(s, at), StmtMarks(s, ns)) == true
    decreases s, 1
  {
    var j := ExprEnd(s.test, at + 2);
    var k := BlockEnd(s.body, j + 2);
    assert Unmarked(code, at + 2, j) by { ExprUnmarked(code, s.test, at + 2); }
    assert Marked(code, j + 2, k, BlockMarks(s.body, ns)) == true by { BlockMarked(code, s.body, j + 2, ns); }
    LoopJoined(code, at, j, k, BlockMarks(s.body, ns));
  }

  lemma {:induction false} LoopJoined(code: seq<Inst>, at: nat, j: nat, k: nat, ms: seq<Mark>)
    requires at + 2 <= j <= k && k + 2 <= |code| && code[at].Br? && code[at + 1] == JumpTarget
    requires Unmarked(code, at + 2, j) && Marked(code, j + 2, k, ms) == true
    requires code[j].If? && code[j + 1] == JumpTarget && code[k].Br? && code[k + 1] == JumpTarget
    ensures Marked(code, at, k + 2, ms) == true
  {
    MarkedInside(code, at, j + 2, k, k + 2, ms);
  }

  lemma {:induction false} ChainMarked(code: seq<Inst>, s: Stmt, at: nat, ns: nat)
    requires s.IfChain? && ChainAt(code, s, at, ns) == true
    ensures Marked(code, at, StmtEnd(s, at), StmtMarks(s, ns)) == true
    decreases s, 1
  {
    var p, q := ChainTests(s.arms, at), ChainBodies(s.arms, at);
    var r, after := BodiesEnd(s.arms, q), ChainAfter(s, at);
    var n := ns + ArmsDefs(s.arms);
    assert Unmarked(code, p, q) by { TestsUnmarked(code, s.arms, p, q, after); }
    assert Marked(code, q, r, ArmsMarks(s.arms, ns)) == true by { BodiesMarked(code, s.arms, q, ns, after); }
    assert Marked(code, r, after, ElseMarks(s.orelse, n)) == true by { ElseMarked(code, s.orelse, r, n, after); }
    ChainJoined(code, at, p, q, r, after, ArmsMarks(s.arms, ns), ElseMarks(s.orelse, n));
  }

  lemma {:induction false} ChainJoined(code: seq<Inst>, at: nat, p: nat, q: nat, r: nat, after: nat, a: seq<Mark>,
        b: seq<Mark>)
    requires at <= p <= at + 1 && p <= q && Unmarked(code, p, q) && after < |code|
    requires Marked(code, q, r, a) == true && Marked(code, r, after, b) == true
    requires code[after] == JumpTarget && (at < p ==> code[at] == JumpTarget)
    ensures Marked(code, at, after + 1, a + b) == true
  {
    MarkedThen(code, q, r, after, a, b);
    MarkedInside(code, at, q, after, after + 1, a + b);
  }

  lemma {:induction false} BodiesMarked(code: seq<Inst>, arms: Arms, at: nat, ns: nat, after: nat)
    requires BodiesAt(code, arms, at, ns, after) == true
    ensures Marked(code, at, BodiesEnd(arms, at), ArmsMarks(arms, ns)) == true
    decreases arms, 3
  {
    if arms.Arm? {
      var e := BlockEnd(arms.body, at + 1);
      var n := ns + BlockDefs(arms.body);
      BodyParts(code, arms, at, ns, after);
      assert Marked(code, at + 1, e, BlockMarks(arms.body, ns)) == true by {
        BlockMarked(code, arms.body, at + 1, ns);
      }
      assert Marked(code, e + 1, BodiesEnd(arms.rest, e + 1), ArmsMarks(arms.rest, n)) == true by {
        BodiesMarked(code, arms.rest, e + 1, n, after);
      }
      BodyJoined(code, at, e, BodiesEnd(arms.rest, e + 1), BlockMarks(arms.body, ns), ArmsMarks(arms.rest, n));
    }
  }

  lemma {:induction false} BodyParts(code: seq<Inst>, arms: Arms, at: nat, ns: nat, after: nat)
    requires arms.Arm? && BodiesAt(code, arms, at, ns, after) == true
    ensures var e := BlockEnd(arms.body, at + 1);
      && e < |code| && code[at] == JumpTarget && code[e].Br? && BlockAt(code, arms.body, at + 1, ns) == true
      && BodiesAt(code, arms.rest, e + 1, ns + BlockDefs(arms.body), after) == true
      && BodiesEnd(arms, at) == BodiesEnd(arms.rest, e + 1)
  {
  }

  lemma {:induction false} BodyJoined(code: seq<Inst>, at: nat, e: nat, hi: nat, a: seq<Mark>, b: seq<Mark>)
    requires Marked(code, at + 1, e, a) == true && Marked(code, e + 1, hi, b) == true
    requires code[at] == JumpTarget && code[e].Br?
    ensures Marked(code, at, hi, a + b) == true
  {
    MarkedInside(code, at, at + 1, e, e + 1, a);
    MarkedThen(code, at, e + 1, hi, a, b);
  }

  lemma {:induction false} ElseMarked(code: seq<Inst>, o: OrElse, at: nat, ns: nat, after: nat)
    requires ElseAt(code, o, at, ns, after) == true
    ensures Marked(code, at, ElseEnd(o, at), ElseMarks(o, ns)) == true
    decreases o, 3
  {
    if o.Else? {
      var e := BlockEnd(o.body, at + 1);
      assert Marked(code, at + 1, e, BlockMarks(o.body, ns)) == true by { BlockMarked(code, o.body, at + 1, ns); }
      MarkedInside(code, at, at + 1, e, e + 1, BlockMarks(o.body, ns));
    }
  }

  lemma {:induction false} BlockMarked(code: seq<Inst>, b: Block, at: nat, ns: nat)
    requires BlockAt(code, b, at, ns) == true && at <= |code|
    ensures Marked(code, at, BlockEnd(b, at), BlockMarks(b, ns)) == true
    decreases b, 3
  {
    if b.Then? {
      var mid, n := StmtEnd(b.head, at), ns + Defs(b.head);
      assert Marked(code, at, mid, StmtMarks(b.head, ns)) == true by { StmtMarked(code, b.head, at, ns); }
      assert Marked(code, mid, BlockEnd(b.tail, mid), BlockMarks(b.tail, n)) == true by {
        BlockMarked(code, b.tail, mid, n);
      }
      MarkedThen(code, at, mid, BlockEnd(b.tail, mid), StmtMarks(b.head, ns), BlockMarks(b.tail, n));
    }
  }

  /** The annotations, definitions and attribute assignments of lowered code are those of the body, in order. */
  lemma {:induction false} MarksArePreserved(code: seq<Inst>, b: Block, ns: nat)
    requires Lowered(code, b, ns)
    ensures MarksIn(code, 0, |code|) == BlockMarks(b, ns)
  {
    BlockMarked(code, b, 0, ns);
  }
}
