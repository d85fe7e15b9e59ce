/**
 Definite assignment: on every run of lowered code, finished or not, every slot
 an instruction reads has been written earlier in the same frame.

 `Need…(x, at, k)` is the set of slots that must hold a value whenever control
 reaches index `k` of the code of `x`.  `Sound` says that one instruction keeps
 this promise along each of its edges.
 */
module Assigned {
  import opened RawInst
  import opened Ast
  import opened Lower
  import opened Machine
  import opened Correctness

  // ---- what an instruction reads, where it goes, what it writes ----

  function Elems(s: seq<nat>): set<nat> {
    set x | x in s
  }

  function Opt(o: Option<nat>): set<nat> {
    if o.None? then {} else {o.value}
  }

  function ParamSlots(ps: seq<(Name, Option<nat>)>): set<nat> {
    if ps == [] then {} else Opt(ps[0].1) + ParamSlots(ps[1..])
  }

  function Reads(i: Inst): set<nat> {
    match i
    case Tuple(elems) => Elems(elems)
    case GetDunder(o, _) => {o}
    case GetAttribute(o, a) => {o, a}
    case Call(f, args) => {f} + Elems(args)
    case SetAttribute(o, a, v) => {o, a, v}
    case SetVar(_, v) => {v}
    case Defn(_, ps, r, _) => ParamSlots(ps) + Opt(r)
    case If(test, _, _) => {test}
    case PhiJump(_, v) => {v}
    case Return(v) => {v}
    case SetAnnotation(_, v) => {v}
    case _ => {}
  }

  /** Instructions that store a result in their own slot. */
  predicate Produces(i: Inst) {
    i.Const? || i.RefAsStr? || i.UseVar? || i.Tuple? || i.GetDunder? || i.GetAttribute? || i.Call? || i.Defn?
  }

  type Promise = nat -> set<nat>

  /** Going to `t` breaks no promise when `have` holds values. */
  ghost predicate Flows(need: Promise, have: set<nat>, t: int) {
    t >= 0 && need(t) <= have
  }

  ghost predicate Sound(code: seq<Inst>, need: Promise, k: nat)
    requires k < |code|
  {
    && Reads(code[k]) <= need(k)
    && match code[k]
       case If(_, truthy, falsey) => Flows(need, need(k), Choose(truthy, k)) && Flows(need, need(k), Choose(falsey, k))
       case Br(to) => Flows(need, need(k), to)
       case PhiJump(recv, _) => Flows(need, need(k) + {recv}, recv)
       case Return(_) => true
       case i => Flows(need, if Produces(i) then need(k) + {k} else need(k), k + 1)
  }

  ghost predicate SoundOn(code: seq<Inst>, need: Promise, lo: nat, hi: nat) {
    hi <= |code| && forall k :: lo <= k < hi ==> Sound(code, need, k)
  }

  lemma {:induction false} JoinSound(code: seq<Inst>, need: Promise, lo: nat, mid: nat, hi: nat)
    requires SoundOn(code, need, lo, mid) && SoundOn(code, need, mid, hi)
    ensures SoundOn(code, need, lo, hi) == true
  {
  }

  // ---- expressions ----

  function NeedExpr(e: Expr, at: nat, k: nat): set<nat>
    decreases e, 1, at, k
  {
    var end := ExprEnd(e, at);
    match e
    case Lit(_) => {}
    case NameRef(_) => {}
    case TupleLit(elems) => if k < end - 1 then NeedExprs(elems, at, k) else Elems(ExprsSlots(elems, at))
    case BinOp(l, _, r) =>
      var mid := ExprEnd(l, at);
      if k < mid then NeedExpr(l, at, k)
      else if k < end - 2 then {ExprSlot(l, at)} + NeedExpr(r, mid, k)
      else NeedInvoke({ExprSlot(l, at), ExprSlot(r, mid)}, end - 2, k)
    case Unary(_, v) => if k < end - 2 then NeedExpr(v, at, k) else NeedInvoke({ExprSlot(v, at)}, end - 2, k)
    case Ternary(test, _, _) =>
      var p := TestEnd(test, at);
      if k < p then NeedTest(test, at, k) else NeedArms(e, p, k)
    case Named(_, v) => if k < end - 1 then NeedExpr(v, at, k) else {ExprSlot(v, at)}
    case CallExpr(func, args) =>
      var mid := ExprEnd(func, at);
      if k < mid then NeedExpr(func, at, k)
      else if k < end - 1 then {ExprSlot(func, at)} + NeedExprs(args, mid, k)
      else {ExprSlot(func, at)} + Elems(ExprsSlots(args, mid))
    case Subscript(base, index) =>
      var mid := ExprEnd(base, at);
      if k < mid then NeedExpr(base, at, k)
      else if k < end - 2 then {ExprSlot(base, at)} + NeedExpr(index, mid, k)
      else NeedInvoke({ExprSlot(base, at), ExprSlot(index, mid)}, end - 2, k)
    case Attribute(base, _) => if k < end - 2 then NeedExpr(base, at, k)
      else NeedInvoke({ExprSlot(base, at)}, end - 2, k)
  }

  /** A special method is fetched at `d` and called right after. */
  function NeedInvoke(s: set<nat>, d: nat, k: nat): set<nat> {
    if k == d then s else s + {d}
  }

  function NeedTest(e: Expr, at: nat, k: nat): set<nat>
    decreases e, 2, at, k
  {
    var end := ExprEnd(e, at);
    if k < end then NeedExpr(e, at, k) else NeedInvoke({ExprSlot(e, at)}, end, k)
  }

  function NeedArms(e: Expr, at: nat, k: nat): set<nat>
    requires e.Ternary? && at > 0
    decreases e, 0, at, k
  {
    var j := ExprEnd(e.body, at + 2);
    var m := ExprEnd(e.orelse, j + 2);
    if k == at then {at - 1}
    else if k == at + 1 then {}
    else if k < j then NeedExpr(e.body, at + 2, k)
    else if k == j then {ExprSlot(e.body, at + 2)}
    else if k == j + 1 then {}
    else if k < m then NeedExpr(e.orelse, j + 2, k)
    else if k == m then {ExprSlot(e.orelse, j + 2)}
    else {m + 1}
  }

  function NeedExprs(es: Exprs, at: nat, k: nat): set<nat>
    decreases es, 0, at, k
  {
    match es
    case NoExprs => {}
    case MoreExprs(h, t) =>
      var mid := ExprEnd(h, at);
      if k < mid then NeedExpr(h, at, k) else {ExprSlot(h, at)} + NeedExprs(t, mid, k)
  }

  /** Nothing is needed at the start of an expression. */
  lemma {:induction false} ExprStart(e: Expr, at: nat)
    ensures NeedExpr(e, at, at) == {}
    decreases e, 1
  {
    match e
    case Lit(_) =>
    case NameRef(_) =>
    case TupleLit(elems) => ExprsStart(elems, at);
    case BinOp(l, _, _) => ExprStart(l, at);
    case Unary(_, v) => ExprStart(v, at);
    case Ternary(test, _, _) => ExprStart(test, at);
    case Named(_, v) => ExprStart(v, at);
    case CallExpr(func, _) => ExprStart(func, at);
    case Subscript(base, _) => ExprStart(base, at);
    case Attribute(base, _) => ExprStart(base, at);
  }

  lemma {:induction false} ExprsStart(es: Exprs, at: nat)
    ensures ExprsEnd(es, at) > at ==> NeedExprs(es, at, at) == {}
    ensures ExprsEnd(es, at) == at ==> ExprsSlots(es, at) == []
    decreases es, 0
  {
    match es
    case NoExprs =>
    case MoreExprs(h, t) => ExprStart(h, at);
  }

  /**
   On the code of `e`, `need` asks for `base` and what `e` needs; afterwards for no more than
   `base` and its value.
   */
  ghost predicate ForExpr(need: Promise, base: set<nat>, e: Expr, at: nat) {
    && (forall k :: at <= k < ExprEnd(e, at) ==> need(k) == base + NeedExpr(e, at, k))
    && need(ExprEnd(e, at)) <= base + {ExprSlot(e, at)}
  }

  ghost predicate ForExprs(need: Promise, base: set<nat>, es: Exprs, at: nat) {
    && (forall k :: at <= k < ExprsEnd(es, at) ==> need(k) == base + NeedExprs(es, at, k))
    && need(ExprsEnd(es, at)) <= base + Elems(ExprsSlots(es, at))
  }

  lemma {:induction false} ExprSound(code: seq<Inst>, need: Promise, base: set<nat>, e: Expr, at: nat)
    requires ExprAt(code, e, at) && ForExpr(need, base, e, at)
    ensures SoundOn(code, need, at, ExprEnd(e, at))
    decreases e, 3
  {
    match e
    case Lit(_) =>
    case NameRef(_) =>
    case TupleLit(elems) => TupleSound(code, need, base, e, at);
    case BinOp(_, _, _) => BinOpSound(code, need, base, e, at);
    case Unary(_, _) => UnarySound(code, need, base, e, at);
    case Ternary(_, _, _) => TernarySound(code, need, base, e, at);
    case Named(_, _) => NamedSound(code, need, base, e, at);
    case CallExpr(_, _) => CallSound(code, need, base, e, at);
    case Subscript(_, _) => SubscriptSound(code, need, base, e, at);
    case Attribute(_, _) => AttrSound(code, need, base, e, at);
  }

  lemma {:induction false} TupleSound(code: seq<Inst>, need: Promise, base: set<nat>, e: Expr, at: nat)
    requires e.TupleLit? && ExprAt(code, e, at) && ForExpr(need, base, e, at)
    ensures SoundOn(code, need, at, ExprEnd(e, at))
    decreases e, 2
  {
    ExprsSound(code, need, base, e.elems, at);
  }

  lemma {:induction false} UnarySound(code: seq<Inst>, need: Promise, base: set<nat>, e: Expr, at: nat)
    requires e.Unary? && ExprAt(code, e, at) && ForExpr(need, base, e, at)
    ensures SoundOn(code, need, at, ExprEnd(e, at))
    decreases e, 2
  {
    ExprSound(code, need, base, e.operand, at);
  }

  lemma {:induction false} NamedSound(code: seq<Inst>, need: Promise, base: set<nat>, e: Expr, at: nat)
    requires e.Named? && ExprAt(code, e, at) && ForExpr(need, base, e, at)
    ensures SoundOn(code, need, at, ExprEnd(e, at))
    decreases e, 2
  {
    ExprSound(code, need, base, e.bound, at);
  }

  lemma {:induction false} AttrSound(code: seq<Inst>, need: Promise, base: set<nat>, e: Expr, at: nat)
    requires e.Attribute? && ExprAt(code, e, at) && ForExpr(need, base, e, at)
    ensures SoundOn(code, need, at, ExprEnd(e, at))
    decreases e, 2
  {
    ExprSound(code, need, base, e.base, at);
  }

  lemma {:induction false} TernarySound(code: seq<Inst>, need: Promise, base: set<nat>, e: Expr, at: nat)
    requires e.Ternary? && ExprAt(code, e, at) && ForExpr(need, base, e, at)
    ensures SoundOn(code, need, at, ExprEnd(e, at))
    decreases e, 2
  {
    var p := TestEnd(e.test, at);
    TernaryNeeds(need, base, e, at);
    assert SoundOn(code, need, at, p) by { TestSound(code, need, base, e.test, at); }
    assert SoundOn(code, need, p, ArmsEnd(e, p)) by { ArmsSound(code, need, base, e, p); }
    JoinSound(code, need, at, p, ArmsEnd(e, p));
  }

  /** The same for the arms of a ternary. */
  ghost predicate ForArms(need: Promise, base: set<nat>, e: Expr, at: nat)
    requires e.Ternary? && at > 0
  {
    && (forall k :: at <= k < ArmsEnd(e, at) ==> need(k) == base + NeedArms(e, at, k))
    && need(ArmsEnd(e, at)) <= base + {ArmsEnd(e, at) - 1}
  }

  lemma {:induction false} TernaryNeeds(need: Promise, base: set<nat>, e: Expr, at: nat)
    requires e.Ternary? && ForExpr(need, base, e, at)
    ensures forall k :: at <= k < TestEnd(e.test, at) ==> need(k) == base + NeedTest(e.test, at, k)
    ensures need(TestEnd(e.test, at)) == base + {TestEnd(e.test, at) - 1}
    ensures ForArms(need, base, e, TestEnd(e.test, at))
  {
    var p := TestEnd(e.test, at);
    assert NeedExpr(e, at, p) == NeedArms(e, p, p) == {p - 1};
  }

  lemma {:induction false} BinOpSound(code: seq<Inst>, need: Promise, base: set<nat>, e: Expr, at: nat)
    requires e.BinOp? && ExprAt(code, e, at) && ForExpr(need, base, e, at)
    ensures SoundOn(code, need, at, ExprEnd(e, at))
    decreases e, 2
  {
    BinOpNeeds(need, base, e, at);
    PairSound(code, need, base, e, e.left, e.right, at);
  }

  lemma {:induction false} SubscriptSound(code: seq<Inst>, need: Promise, base: set<nat>, e: Expr, at: nat)
    requires e.Subscript? && ExprAt(code, e, at) && ForExpr(need, base, e, at)
    ensures SoundOn(code, need, at, ExprEnd(e, at))
    decreases e, 2
  {
    SubscriptNeeds(need, base, e, at);
    PairSound(code, need, base, e, e.base, e.index, at);
  }

  lemma {:induction false} PairSound(code: seq<Inst>, need: Promise, base: set<nat>, e: Expr, l: Expr, r: Expr, at: nat)
    requires l < e && r < e && PairParts(need, base, l, r, at)
    requires var mid := ExprEnd(l, at);
      var d, x := ExprEnd(r, mid), ExprSlot(l, at);
      && ExprAt(code, l, at) && ExprAt(code, r, mid)
      && d + 2 <= |code| && code[d].GetDunder? && code[d].object_ == x && code[d + 1] == Call(d, [x, ExprSlot(r, mid)])
    ensures SoundOn(code, need, at, ExprEnd(r, ExprEnd(l, at)) + 2)
    decreases e, 1
  {
    var mid := ExprEnd(l, at);
    var x, y := ExprSlot(l, at), ExprSlot(r, mid);
    ExprSound(code, need, base, l, at);
    ExprSound(code, need, base + {x}, r, mid);
    InvokeSound(code, need, base + {x, y}, ExprEnd(r, mid), x, [x, y]);
  }

  /** What is needed on two operands `l` and `r` and on the call of a special method after them. */
  ghost predicate PairParts(need: Promise, base: set<nat>, l: Expr, r: Expr, at: nat) {
    var mid := ExprEnd(l, at);
    var d, have := ExprEnd(r, mid), base + {ExprSlot(l, at), ExprSlot(r, mid)};
    && ForExpr(need, base, l, at) && ForExpr(need, base + {ExprSlot(l, at)}, r, mid)
    && need(d) == have && need(d + 1) == have + {d} && need(d + 2) <= have + {d, d + 1}
  }

  lemma {:induction false} BinOpNeeds(need: Promise, base: set<nat>, e: Expr, at: nat)
    requires e.BinOp? && ForExpr(need, base, e, at)
    ensures PairParts(need, base, e.left, e.right, at)
  {
    assert need(ExprEnd(e.left, at)) == base + {ExprSlot(e.left, at)} by { ExprStart(e.right, ExprEnd(e.left, at)); }
  }

  lemma {:induction false} SubscriptNeeds(need: Promise, base: set<nat>, e: Expr, at: nat)
    requires e.Subscript? && ForExpr(need, base, e, at)
    ensures PairParts(need, base, e.base, e.index, at)
  {
    assert need(ExprEnd(e.base, at)) == base + {ExprSlot(e.base, at)} by { ExprStart(e.index, ExprEnd(e.base, at)); }
  }

  lemma {:induction false} InvokeSound(code: seq<Inst>, need: Promise, have: set<nat>, d: nat, o: nat, args: seq<nat>)
    requires d + 2 <= |code| && code[d].GetDunder? && code[d].object_ == o && code[d + 1] == Call(d, args)
    requires o in have && Elems(args) <= have
    requires need(d) == have && need(d + 1) == have + {d} && need(d + 2) <= have + {d, d + 1}
    ensures SoundOn(code, need, d, d + 2)
  {
  }

  lemma {:induction false} CallSound(code: seq<Inst>, need: Promise, base: set<nat>, e: Expr, at: nat)
    requires e.CallExpr? && ExprAt(code, e, at) && ForExpr(need, base, e, at)
    ensures SoundOn(code, need, at, ExprEnd(e, at))
    decreases e, 2
  {
    var mid, end, f := ExprEnd(e.func, at), ExprEnd(e, at), ExprSlot(e.func, at);
    CallNeeds(need, base, e, at);
    ExprSound(code, need, base, e.func, at);
    ExprsSound(code, need, base + {f}, e.args, mid);
    CallPoint(code, need, end - 1, f, ExprsSlots(e.args, mid));
  }

  lemma {:induction false} CallNeeds(need: Promise, base: set<nat>, e: Expr, at: nat)
    requires e.CallExpr? && ForExpr(need, base, e, at)
    ensures ForExpr(need, base, e.func, at)
    ensures ForExprs(need, base + {ExprSlot(e.func, at)}, e.args, ExprEnd(e.func, at))
    ensures var end, f, xs := ExprEnd(e, at), ExprSlot(e.func, at), ExprsSlots(e.args, ExprEnd(e.func, at));
      need(end - 1) == base + {f} + Elems(xs) && need(end) <= base + {end - 1}
  {
    ExprsStart(e.args, ExprEnd(e.func, at));
  }

  lemma {:induction false} CallPoint(code: seq<Inst>, need: Promise, k: nat, f: nat, args: seq<nat>)
    requires k < |code| && code[k] == Call(f, args) && f in need(k) && Elems(args) <= need(k) &&
      need(k + 1) <= need(k) + {k}
    ensures SoundOn(code, need, k, k + 1)
  {
  }

  lemma {:induction false} TestSound(code: seq<Inst>, need: Promise, base: set<nat>, e: Expr, at: nat)
    requires TestAt(code, e, at)
    requires forall k :: at <= k < TestEnd(e, at) ==> need(k) == base + NeedTest(e, at, k)
    requires need(TestEnd(e, at)) <= base + {TestEnd(e, at) - 1}
    ensures SoundOn(code, need, at, TestEnd(e, at))
    decreases e, 4
  {
    var d, x := ExprEnd(e, at), ExprSlot(e, at);
    TestNeeds(need, base, e, at);
    ExprSound(code, need, base, e, at);
    InvokeSound(code, need, base + {x}, d, x, [x]);
  }

  lemma {:induction false} TestNeeds(need: Promise, base: set<nat>, e: Expr, at: nat)
    requires forall k :: at <= k < TestEnd(e, at) ==> need(k) == base + NeedTest(e, at, k)
    ensures ForExpr(need, base, e, at)
    ensures var d, have := ExprEnd(e, at), base + {ExprSlot(e, at)};
      need(d) == have && need(d + 1) == have + {d}
  {
  }

  lemma {:induction false} ArmsSound(code: seq<Inst>, need: Promise, base: set<nat>, e: Expr, at: nat)
    requires e.Ternary? && at > 0 && ArmsAt(code, e, at)
    requires ForArms(need, base, e, at)
    ensures SoundOn(code, need, at, ArmsEnd(e, at))
    decreases e, 1
  {
    var j := ExprEnd(e.body, at + 2);
    ArmsNeeds(need, base, e, at, j);
    ArmsParts(code, need, base, e, at, j, ExprEnd(e.orelse, j + 2));
  }

  lemma {:induction false} ArmsParts(code: seq<Inst>, need: Promise, base: set<nat>, e: Expr, at: nat, j: nat, m: nat)
    requires e.Ternary? && at > 0 && ArmsAt(code, e, at) == true
    requires j == ExprEnd(e.body, at + 2) && m == ExprEnd(e.orelse, j + 2)
    requires ForExpr(need, base, e.body, at + 2) == true && ForExpr(need, base, e.orelse, j + 2) == true
    requires need(at) == base + {at - 1} && need(at + 1) == base && need(at + 2) == base
    requires need(j) == base + {ExprSlot(e.body, at + 2)} && need(j + 1) == base && need(j + 2) == base
    requires need(m) == base + {ExprSlot(e.orelse, j + 2)}
    requires need(m + 1) == base + {m + 1} && need(m + 2) <= base + {m + 1}
    ensures SoundOn(code, need, at, m + 2) == true
    decreases e, 0
  {
    assert SoundOn(code, need, at + 2, j) == true by { ExprSound(code, need, base, e.body, at + 2); }
    assert SoundOn(code, need, j + 2, m) == true by { ExprSound(code, need, base, e.orelse, j + 2); }
    ArmsPoints(code, need, base, at, j, m, ExprSlot(e.body, at + 2), ExprSlot(e.orelse, j + 2));
  }

  lemma {:induction false} ArmsNeeds(need: Promise, base: set<nat>, e: Expr, at: nat, j: nat)
    requires e.Ternary? && at > 0 && j == ExprEnd(e.body, at + 2)
    requires ForArms(need, base, e, at)
    ensures ForExpr(need, base, e.body, at + 2)
    ensures ForExpr(need, base, e.orelse, j + 2)
    ensures need(at) == base + {at - 1} && need(at + 1) == base && need(at + 2) == base
    ensures need(j) == base + {ExprSlot(e.body, at + 2)} && need(j + 1) == base && need(j + 2) == base
    ensures var m := ExprEnd(e.orelse, j + 2);
      && ArmsEnd(e, at) == m + 2 && need(m) == base + {ExprSlot(e.orelse, j + 2)}
      && need(m + 1) == base + {m + 1} && need(m + 2) <= base + {m + 1}
  {
    assert need(at + 2) == base by { ExprStart(e.body, at + 2); }
    assert need(j + 2) == base by { ExprStart(e.orelse, j + 2); }
  }

  /** The jumps of a ternary and their targets around its arms; `x` and `y` are the values of these. */
  lemma {:induction false} ArmsPoints(code: seq<Inst>, need: Promise, base: set<nat>, at: nat, j: nat, m: nat, x: nat,
        y: nat)
    requires 0 < at && at + 2 <= j && j + 2 <= m && m + 2 <= |code|
    requires code[at] == If(at - 1, None, Some(j + 1)) && code[at + 1] == JumpTarget
    requires code[j] == PhiJump(m + 1, x) && code[j + 1] == JumpTarget
    requires code[m] == PhiJump(m + 1, y) && code[m + 1] == PhiRecv
    requires need(at) == base + {at - 1} && need(at + 1) == base && need(at + 2) == base
    requires need(j) == base + {x} && need(j + 1) == base && need(j + 2) == base
    requires need(m) == base + {y} && need(m + 1) == base + {m + 1} && need(m + 2) <= base + {m + 1}
    requires SoundOn(code, need, at + 2, j) && SoundOn(code, need, j + 2, m)
    ensures SoundOn(code, need, at, m + 2)
  {
    assert Sound(code, need, at) && Sound(code, need, at + 1) && Sound(code, need, j) && Sound(code, need, j + 1);
    assert Sound(code, need, m) && Sound(code, need, m + 1);
  }

  lemma {:induction false} ExprsSound(code: seq<Inst>, need: Promise, base: set<nat>, es: Exprs, at: nat)
    requires ExprsAt(code, es, at) && ForExprs(need, base, es, at)
    ensures ExprsEnd(es, at) <= |code| || es.NoExprs?
    ensures es.MoreExprs? ==> SoundOn(code, need, at, ExprsEnd(es, at))
    decreases es, 3
  {
    match es
    case NoExprs =>
    case MoreExprs(h, t) =>
      var mid := ExprEnd(h, at);
      ExprsStart(t, mid);
      ExprSound(code, need, base, h, at);
      ExprsSound(code, need, base + {ExprSlot(h, at)}, t, mid);
  }

  // ---- optional expressions and parameters ----

  function NeedOpt(e: Option<Expr>, at: nat, k: nat): set<nat> {
    if e.None? then {} else NeedExpr(e.value, at, k)
  }

  function NeedParams(ps: Params, at: nat, k: nat): set<nat> {
    match ps
    case NoParams => {}
    case Param(_, ann, rest) =>
      if k < OptEnd(ann, at) then NeedOpt(ann, at, k) else Opt(OptSlot(ann, at)) + NeedParams(rest, OptEnd(ann, at), k)
  }

  lemma {:induction false} ParamsStart(ps: Params, at: nat)
    ensures ParamsEnd(ps, at) > at ==> NeedParams(ps, at, at) == {}
    ensures ParamsEnd(ps, at) == at ==> ParamSlots(ParamsSlots(ps, at)) == {}
    decreases ps
  {
    match ps
    case NoParams =>
    case Param(n, ann, rest) =>
      if ann.Some? { ExprStart(ann.value, at); } else { ParamsStart(rest, at); }
      assert ([(n, OptSlot(ann, at))] + ParamsSlots(rest, OptEnd(ann, at)))[1..] == ParamsSlots(rest, OptEnd(ann, at));
  }

  ghost predicate ForParams(need: Promise, base: set<nat>, ps: Params, at: nat) {
    && (forall k :: at <= k < ParamsEnd(ps, at) ==> need(k) == base + NeedParams(ps, at, k))
    && need(ParamsEnd(ps, at)) <= base + ParamSlots(ParamsSlots(ps, at))
  }

  lemma {:induction false} ParamsSound(code: seq<Inst>, need: Promise, base: set<nat>, ps: Params, at: nat)
    requires ParamsAt(code, ps, at) && at <= |code|
    requires ForParams(need, base, ps, at)
    ensures SoundOn(code, need, at, ParamsEnd(ps, at))
    decreases ps
  {
    match ps
    case NoParams =>
    case Param(n, ann, rest) =>
      var mid := OptEnd(ann, at);
      assert ([(n, OptSlot(ann, at))] + ParamsSlots(rest, mid))[1..] == ParamsSlots(rest, mid);
      ParamsStart(rest, mid);
      if ann.Some? { ExprSound(code, need, base, ann.value, at); }
      ParamsSound(code, need, base + Opt(OptSlot(ann, at)), rest, mid);
  }

  // ---- statements: nothing is needed between them ----

  function NeedStmt(s: Stmt, at: nat, k: nat): set<nat>
    decreases s, 2, at, k
  {
    match s
    case ExprStmt(e) => NeedExpr(e, at, k)
    case Assign(_, e) => NeedLast(e, at, k)
    case AssignAttr(o, _, e) => NeedAssignAttr(o, e, at, k)
    case Annotate(_, t) => NeedLast(t, at, k)
    case ReturnStmt(None) => if k == at then {} else {at}
    case ReturnStmt(Some(e)) => NeedLast(e, at, k)
    case Pass => {}
    case While(_, _) => NeedWhile(s, at, k)
    case IfChain(_, _) => NeedChain(s, at, k)
    case FuncDef(_, decs, ps, ret, _) => NeedDef(Reverse(decs), ps, ret, at, k)
  }

  /** An expression and one instruction that uses its value. */
  function NeedLast(e: Expr, at: nat, k: nat): set<nat> {
    if k < ExprEnd(e, at) then NeedExpr(e, at, k) else {ExprSlot(e, at)}
  }

  function NeedAssignAttr(o: Expr, e: Expr, at: nat, k: nat): set<nat> {
    var d := ExprEnd(o, at);
    if k < d then NeedExpr(o, at, k)
    else if k == d then {ExprSlot(o, at)}
    else {ExprSlot(o, at), d} + NeedLast(e, d + 1, k)
  }

  function NeedWhile(s: Stmt, at: nat, k: nat): set<nat>
    requires s.While?
    decreases s, 0, at, k
  {
    var j := ExprEnd(s.test, at + 2);
    if k < at + 2 then {}
    else if k < j then NeedExpr(s.test, at + 2, k)
    else if k == j then {ExprSlot(s.test, at + 2)}
    else if k < j + 2 then {}
    else NeedBlock(s.body, j + 2, k)
  }

  function NeedChain(s: Stmt, at: nat, k: nat): set<nat>
    requires s.IfChain?
    decreases s, 1, at, k
  {
    var q := ChainBodies(s.arms, at);
    NeedParts(s, ChainTests(s.arms, at), q, BodiesEnd(s.arms, q), k)
  }

  /** The parts of a chain: tests from `p`, bodies from `q`, the `else` body from `r`. */
  function NeedParts(s: Stmt, p: nat, q: nat, r: nat, k: nat): set<nat>
    requires s.IfChain?
    decreases s, 0, p, q, r, k
  {
    if k < p then {}
    else if k < q then NeedTests(s.arms, p, k)
    else if k < r then NeedBodies(s.arms, q, k)
    else NeedElse(s.orelse, r, k)
  }

  function NeedTests(arms: Arms, at: nat, k: nat): set<nat> {
    match arms
    case NoArms => {}
    case Arm(test, _, rest) =>
      var p := TestEnd(test, at);
      if k < p then NeedTest(test, at, k) else if k == p then {p - 1} else NeedTests(rest, p + 1, k)
  }

  function NeedBodies(arms: Arms, at: nat, k: nat): set<nat>
    decreases arms, 1, at, k
  {
    match arms
    case NoArms => {}
    case Arm(_, body, rest) =>
      var e := BlockEnd(body, at + 1);
      if k == at then {} else if k <= e then NeedBlock(body, at + 1, k) else NeedBodies(rest, e + 1, k)
  }

  function NeedElse(o: OrElse, at: nat, k: nat): set<nat>
    decreases o, 1, at, k
  {
    match o
    case NoElse => {}
    case Else(body) => if k == at then {} else NeedBlock(body, at + 1, k)
  }

  function NeedBlock(b: Block, at: nat, k: nat): set<nat>
    decreases b, 1, at, k
  {
    match b
    case Empty => {}
    case Then(h, t) => if k < StmtEnd(h, at) then NeedStmt(h, at, k) else NeedBlock(t, StmtEnd(h, at), k)
  }

  function NeedDef(decs: Exprs, ps: Params, ret: Option<Expr>, at: nat, k: nat): set<nat> {
    var d := ExprsEnd(decs, at);
    var p := ParamsEnd(ps, d);
    var f := OptEnd(ret, p);
    var ds, qs := Elems(ExprsSlots(decs, at)), ParamSlots(ParamsSlots(ps, d));
    if k < d then NeedExprs(decs, at, k)
    else if k < p then ds + NeedParams(ps, d, k)
    else if k < f then ds + qs + NeedOpt(ret, p, k)
    else if k == f then ds + qs + Opt(OptSlot(ret, p))
    else ds + {if k <= f + 2 then f else k - 1}
  }

  lemma {:induction false} StmtStart(s: Stmt, at: nat)
    ensures NeedStmt(s, at, at) == {}
    decreases s, 1
  {
    match s
    case ExprStmt(e) => ExprStart(e, at);
    case Assign(_, e) => ExprStart(e, at);
    case AssignAttr(o, _, _) => ExprStart(o, at);
    case Annotate(_, t) => ExprStart(t, at);
    case ReturnStmt(r) => if r.Some? { ExprStart(r.value, at); }
    case Pass =>
    case While(_, _) =>
    case IfChain(_, _) => ChainStart(s, at);
    case FuncDef(_, decs, ps, ret, _) => DefStart(Reverse(decs), ps, ret, at);
  }

  lemma {:induction false} ChainStart(s: Stmt, at: nat)
    requires s.IfChain?
    ensures NeedChain(s, at, at) == {}
  {
    if s.arms.NoArms? {
      assert ChainBodies(s.arms, at) == at && NeedElse(s.orelse, at, at) == {};
    } else if at > 0 {
      ExprStart(s.arms.test, at);
      assert NeedTests(s.arms, at, at) == NeedTest(s.arms.test, at, at) == {};
    }
  }

  lemma {:induction false} DefStart(decs: Exprs, ps: Params, ret: Option<Expr>, at: nat)
    ensures NeedDef(decs, ps, ret, at, at) == {}
  {
    ExprsStart(decs, at);
    ParamsStart(ps, ExprsEnd(decs, at));
    if ret.Some? { ExprStart(ret.value, ParamsEnd(ps, ExprsEnd(decs, at))); }
  }

  lemma {:induction false} BlockStart(b: Block, at: nat)
    ensures NeedBlock(b, at, at) == {}
    decreases b, 1
  {
    if b.Then? { StmtStart(b.head, at); }
  }

  ghost predicate ForStmt(need: Promise, s: Stmt, at: nat) {
    && (forall k :: at <= k < StmtEnd(s, at) ==> need(k) == NeedStmt(s, at, k))
    && need(StmtEnd(s, at)) == {}
  }

  ghost predicate ForBlock(need: Promise, b: Block, at: nat) {
    forall k :: at <= k <= BlockEnd(b, at) ==> need(k) == NeedBlock(b, at, k)
  }

  lemma {:induction false} StmtSound(code: seq<Inst>, need: Promise, s: Stmt, at: nat, ns: nat)
    requires StmtAt(code, s, at, ns) && ForStmt(need, s, at)
    ensures SoundOn(code, need, at, StmtEnd(s, at))
    decreases s, 2
  {
    match s
    case While(_, _) => WhileSound(code, need, s, at, ns);
    case IfChain(_, _) => ChainSound(code, need, s, at, ns);
    case FuncDef(_, _, _, _, _) => DefSound(code, need, s, at, ns);
    case _ => SimpleSound(code, need, s, at, ns);
  }

  lemma {:induction false} SimpleSound(code: seq<Inst>, need: Promise, s: Stmt, at: nat, ns: nat)
    requires !s.While? && !s.IfChain? && !s.FuncDef? && StmtAt(code, s, at, ns) && ForStmt(need, s, at)
    ensures SoundOn(code, need, at, StmtEnd(s, at))
  {
    match s
    case ExprStmt(_) => BareSound(code, need, s, at, ns);
    case Assign(_, _) => UseSound(code, need, s, at, ns);
    case AssignAttr(_, _, _) => AssignAttrSound(code, need, s, at, ns);
    case Annotate(_, _) => UseSound(code, need, s, at, ns);
    case ReturnStmt(r) => if r.None? { BareSound(code, need, s, at, ns); } else { UseSound(code, need, s, at, ns); }
    case Pass => BareSound(code, need, s, at, ns);
  }

  lemma {:induction false} BareSound(code: seq<Inst>, need: Promise, s: Stmt, at: nat, ns: nat)
    requires s.ExprStmt? || s.Pass? || s == ReturnStmt(None)
    requires StmtAt(code, s, at, ns) && ForStmt(need, s, at)
    ensures SoundOn(code, need, at, StmtEnd(s, at))
  {
    if s.ExprStmt? { ExprSound(code, need, {}, s.expr, at); }
  }

  lemma {:induction false} UseSound(code: seq<Inst>, need: Promise, s: Stmt, at: nat, ns: nat)
    requires s.Assign? || s.Annotate? || (s.ReturnStmt? && s.returned.Some?)
    requires StmtAt(code, s, at, ns) && ForStmt(need, s, at)
    ensures SoundOn(code, need, at, StmtEnd(s, at))
  {
    var e := if s.Assign? then s.value else if s.Annotate? then s.kind else s.returned.value;
    LastSound(code, need, {}, e, at);
  }

  lemma {:induction false} LastSound(code: seq<Inst>, need: Promise, base: set<nat>, e: Expr, at: nat)
    requires ExprAt(code, e, at) && ExprEnd(e, at) < |code|
    requires ForLast(need, base, e, at) && need(ExprEnd(e, at) + 1) == {}
    requires var i, x := code[ExprEnd(e, at)], ExprSlot(e, at);
      || (i.SetVar? && i.value == x) || (i.SetAnnotation? && i.annotation == x) || i == Return(x)
      || (i.SetAttribute? && i.value == x && {i.object_, i.attr} <= base)
    ensures SoundOn(code, need, at, ExprEnd(e, at) + 1)
  {
    LastNeeds(need, base, e, at);
    ExprSound(code, need, base, e, at);
  }

  /** The same for an expression and one instruction that uses its value. */
  ghost predicate ForLast(need: Promise, base: set<nat>, e: Expr, at: nat) {
    forall k :: at <= k <= ExprEnd(e, at) ==> need(k) == base + NeedLast(e, at, k)
  }

  lemma {:induction false} LastNeeds(need: Promise, base: set<nat>, e: Expr, at: nat)
    requires ForLast(need, base, e, at)
    ensures ForExpr(need, base, e, at) && need(ExprEnd(e, at)) == base + {ExprSlot(e, at)}
  {
  }

  lemma {:induction false} AssignAttrSound(code: seq<Inst>, need: Promise, s: Stmt, at: nat, ns: nat)
    requires s.AssignAttr? && StmtAt(code, s, at, ns) && ForStmt(need, s, at)
    ensures SoundOn(code, need, at, StmtEnd(s, at))
  {
    var d := ExprEnd(s.object_, at);
    AssignAttrNeeds(need, s, at);
    AssignAttrParts(code, need, s, at, ns, d, ExprSlot(s.object_, at));
  }

  lemma {:induction false} AssignAttrNeeds(need: Promise, s: Stmt, at: nat)
    requires s.AssignAttr? && ForStmt(need, s, at)
    ensures var d, x := ExprEnd(s.object_, at), ExprSlot(s.object_, at);
      && ForExpr(need, {}, s.object_, at) && need(d) == {x} && need(d + 1) == {x, d}
      && ForLast(need, {x, d}, s.value, d + 1) && need(ExprEnd(s.value, d + 1) + 1) == {}
  {
    ExprStart(s.value, ExprEnd(s.object_, at) + 1);
  }

  lemma {:induction false} AssignAttrParts(code: seq<Inst>, need: Promise, s: Stmt, at: nat, ns: nat, d: nat, x: nat)
    requires s.AssignAttr? && StmtAt(code, s, at, ns)
    requires d == ExprEnd(s.object_, at) && x == ExprSlot(s.object_, at)
    requires ForExpr(need, {}, s.object_, at) && need(d) == {x} && need(d + 1) == {x, d}
    requires ForLast(need, {x, d}, s.value, d + 1) && need(ExprEnd(s.value, d + 1) + 1) == {}
    ensures SoundOn(code, need, at, StmtEnd(s, at))
  {
    assert SoundOn(code, need, at, d) by { ExprSound(code, need, {}, s.object_, at); }
    assert SoundOn(code, need, d, d + 1) by { assert Sound(code, need, d); }
    assert SoundOn(code, need, d + 1, StmtEnd(s, at)) by { LastSound(code, need, {x, d}, s.value, d + 1); }
    JoinSound(code, need, at, d, d + 1);
    JoinSound(code, need, at, d + 1, StmtEnd(s, at));
  }

  lemma {:induction false} WhileSound(code: seq<Inst>, need: Promise, s: Stmt, at: nat, ns: nat)
    requires s.While? && WhileAt(code, s, at, ns) && need(StmtEnd(s, at)) == {}
    requires forall k :: at <= k < StmtEnd(s, at) ==> need(k) == NeedWhile(s, at, k)
    ensures SoundOn(code, need, at, StmtEnd(s, at))
    decreases s, 1
  {
    var j := ExprEnd(s.test, at + 2);
    var m := BlockEnd(s.body, j + 2);
    WhileNeeds(need, s, at, j, m);
    WhileParts(code, need, s, at, ns, j, m);
  }

  lemma {:induction false} WhileParts(code: seq<Inst>, need: Promise, s: Stmt, at: nat, ns: nat, j: nat, m: nat)
    requires s.While? && WhileAt(code, s, at, ns)
    requires j == ExprEnd(s.test, at + 2) && m == BlockEnd(s.body, j + 2)
    requires ForExpr(need, {}, s.test, at + 2) && ForBlock(need, s.body, j + 2)
    requires need(at) == {} && need(at + 1) == {} && need(at + 2) == {}
    requires need(j) == {ExprSlot(s.test, at + 2)} && need(j + 1) == {} && need(j + 2) == {}
    requires need(m) == {} && need(m + 1) == {} && need(m + 2) == {}
    ensures SoundOn(code, need, at, m + 2)
    decreases s, 0
  {
    assert SoundOn(code, need, at + 2, j) by { ExprSound(code, need, {}, s.test, at + 2); }
    assert SoundOn(code, need, j + 2, m) by { BlockSound(code, need, s.body, j + 2, ns); }
    WhilePoints(code, need, at, j, m, ExprSlot(s.test, at + 2));
  }

  lemma {:induction false} WhileNeeds(need: Promise, s: Stmt, at: nat, j: nat, m: nat)
    requires s.While? && j == ExprEnd(s.test, at + 2) && m == BlockEnd(s.body, j + 2)
    requires forall k :: at <= k < m + 2 ==> need(k) == NeedWhile(s, at, k)
    ensures ForExpr(need, {}, s.test, at + 2) && ForBlock(need, s.body, j + 2)
    ensures need(at) == {} && need(at + 1) == {} && need(at + 2) == {}
    ensures need(j) == {ExprSlot(s.test, at + 2)} && need(j + 1) == {} && need(j + 2) == {}
    ensures need(m) == {} && need(m + 1) == {}
  {
    assert need(at + 2) == {} by { ExprStart(s.test, at + 2); }
    assert need(j + 2) == {} by { BlockStart(s.body, j + 2); }
    assert need(m) == {} by { BlockPast(s.body, j + 2, m); }
    assert need(m + 1) == {} by { BlockPast(s.body, j + 2, m + 1); }
  }

  lemma {:induction false} WhilePoints(code: seq<Inst>, need: Promise, at: nat, j: nat, m: nat, x: nat)
    requires at + 2 <= j && j + 2 <= m && m + 2 <= |code|
    requires code[at] == Br(at + 1) && code[at + 1] == JumpTarget && code[j] == If(x, Some(j + 1), Some(m + 1))
    requires code[j + 1] == JumpTarget && code[m] == Br(at + 1) && code[m + 1] == JumpTarget
    requires need(at) == {} && need(at + 1) == {} && need(at + 2) == {} && need(j) == {x}
    requires need(j + 1) == {} && need(j + 2) == {} && need(m) == {} && need(m + 1) == {} && need(m + 2) == {}
    requires SoundOn(code, need, at + 2, j) && SoundOn(code, need, j + 2, m)
    ensures SoundOn(code, need, at, m + 2)
  {
    assert Sound(code, need, at) && Sound(code, need, at + 1) && Sound(code, need, j) && Sound(code, need, j + 1);
    assert Sound(code, need, m) && Sound(code, need, m + 1);
  }

  lemma {:induction false} BlockPast(b: Block, at: nat, k: nat)
    requires k >= BlockEnd(b, at)
    ensures NeedBlock(b, at, k) == {}
    decreases b
  {
    if b.Then? { BlockPast(b.tail, StmtEnd(b.head, at), k); }
  }

  lemma {:induction false} BlockSound(code: seq<Inst>, need: Promise, b: Block, at: nat, ns: nat)
    requires BlockAt(code, b, at, ns) && at <= |code| && ForBlock(need, b, at)
    ensures SoundOn(code, need, at, BlockEnd(b, at))
    decreases b, 3
  {
    match b
    case Empty =>
    case Then(h, t) =>
      var mid := StmtEnd(h, at);
      BlockNeeds(need, h, t, at);
      assert SoundOn(code, need, at, mid) by { StmtSound(code, need, h, at, ns); }
      assert SoundOn(code, need, mid, BlockEnd(t, mid)) by { BlockSound(code, need, t, mid, ns + Defs(h)); }
      JoinSound(code, need, at, mid, BlockEnd(t, mid));
  }

  lemma {:induction false} BlockNeeds(need: Promise, h: Stmt, t: Block, at: nat)
    requires ForBlock(need, Then(h, t), at)
    ensures ForStmt(need, h, at) && ForBlock(need, t, StmtEnd(h, at))
  {
    BlockStart(t, StmtEnd(h, at));
  }

  lemma {:induction false} ChainSound(code: seq<Inst>, need: Promise, s: Stmt, at: nat, ns: nat)
    requires s.IfChain? && ChainAt(code, s, at, ns) && need(StmtEnd(s, at)) == {}
    requires forall k :: at <= k < StmtEnd(s, at) ==> need(k) == NeedChain(s, at, k)
    ensures SoundOn(code, need, at, StmtEnd(s, at))
    decreases s, 1
  {
    var p, q := ChainTests(s.arms, at), ChainBodies(s.arms, at);
    var r, after := BodiesEnd(s.arms, q), ChainAfter(s, at);
    ChainNeeds(need, s, at, p, q, r, after);
    assert SoundOn(code, need, p, q) by { TestsSound(code, need, s.arms, p, q, after); }
    assert SoundOn(code, need, q, r) by { BodiesSound(code, need, s.arms, q, ns, after); }
    assert SoundOn(code, need, r, after) by { ElseSound(code, need, s.orelse, r, ns + ArmsDefs(s.arms), after); }
    HeadSound(code, need, after);
    if at < p { HeadSound(code, need, at); }
  }

  lemma {:induction false} HeadSound(code: seq<Inst>, need: Promise, k: nat)
    requires k < |code| && code[k] == JumpTarget && need(k + 1) <= need(k)
    ensures SoundOn(code, need, k, k + 1)
  {
  }

  lemma {:induction false} ChainNeeds(need: Promise, s: Stmt, at: nat, p: nat, q: nat, r: nat, after: nat)
    requires s.IfChain? && at <= p && (at == p || s.arms.Arm?)
    requires q == TestsEnd(s.arms, p) && r == BodiesEnd(s.arms, q) && after == ElseEnd(s.orelse, r)
    requires forall k :: at <= k <= after ==> need(k) == NeedParts(s, p, q, r, k)
    ensures ForTests(need, s.arms, p)
    ensures ForBodies(need, s.arms, q)
    ensures forall k :: r <= k <= after ==> need(k) == NeedElse(s.orelse, r, k)
    ensures need(after) == {} && need(q) == {} && (at < p ==> need(p) == {}) && BodyHeads(need, s.arms, q)
  {
    assert forall k :: p <= k < q ==> need(k) == NeedTests(s.arms, p, k);
    if s.arms.NoArms? {
      assert NeedElse(s.orelse, q, q) == {};
    } else {
      assert NeedBodies(s.arms, q, q) == {} && q < r;
    }
    assert NeedParts(s, p, q, r, q) == {};
    BodiesStart(need, s.arms, q);
    if s.orelse.Else? { BlockPast(s.orelse.body, r + 1, after); }
    if at < p { ExprStart(s.arms.test, p); }
  }

  lemma {:induction false} TestsSound(code: seq<Inst>, need: Promise, arms: Arms, at: nat, q: nat, after: nat)
    requires TestsAt(code, arms, at, q, after) == true && need(after) == {}
    requires ForTests(need, arms, at) == true && BodyHeads(need, arms, q) == true
    ensures SoundOn(code, need, at, TestsEnd(arms, at)) == true
    decreases arms, 4
  {
    if arms.Arm? {
      var p, q1 := TestsRule(code, need, arms, at, q, after);
      TestsStep(code, need, arms, at, p, q, q1, after);
    }
  }

  /** What is known of the first test of a chain and of the other ones. */
  lemma {:induction false} TestsRule(code: seq<Inst>, need: Promise, arms: Arms, at: nat, q: nat, after: nat)
    returns (p: nat, q1: nat)
    requires arms.Arm? && TestsAt(code, arms, at, q, after) && BodyHeads(need, arms, q)
    requires ForTests(need, arms, at)
    ensures p == TestEnd(arms.test, at) && TestAt(code, arms.test, at) && p < |code|
    ensures code[p] == If(p - 1, Some(q), Some(if arms.rest.NoArms? then after else p))
    ensures TestsAt(code, arms.rest, p + 1, q1, after)
    ensures need(q) == {} && BodyHeads(need, arms.rest, q1)
    ensures ForTest(need, arms.test, at) && ForTests(need, arms.rest, p + 1)
  {
    p, q1 := TestEnd(arms.test, at), BlockEnd(arms.body, q + 1) + 1;
    TestsNeeds(need, arms, at);
  }

  lemma {:induction false} TestsStep(code: seq<Inst>, need: Promise, arms: Arms, at: nat, p: nat, q: nat, q1: nat,
        after: nat)
    requires arms.Arm? && p == TestEnd(arms.test, at) && TestAt(code, arms.test, at) == true && p < |code|
    requires code[p] == If(p - 1, Some(q), Some(if arms.rest.NoArms? then after else p))
    requires TestsAt(code, arms.rest, p + 1, q1, after) == true
    requires need(q) == {} && BodyHeads(need, arms.rest, q1) == true && need(after) == {}
    requires ForTest(need, arms.test, at) == true && ForTests(need, arms.rest, p + 1) == true
    ensures SoundOn(code, need, at, TestsEnd(arms, at)) == true
    decreases arms, 3
  {
    assert SoundOn(code, need, at, p + 1) == true by {
      BranchSound(code, need, arms.test, at, q, if arms.rest.NoArms? then after else p);
    }
    assert SoundOn(code, need, p + 1, TestsEnd(arms.rest, p + 1)) == true by {
      TestsSound(code, need, arms.rest, p + 1, q1, after);
    }
    JoinSound(code, need, at, p + 1, TestsEnd(arms.rest, p + 1));
  }

  /** Nothing is needed in a test but what the test itself needs, and then its outcome. */
  ghost predicate ForTest(need: Promise, test: Expr, at: nat) {
    && (forall k :: at <= k < TestEnd(test, at) ==> need(k) == NeedTest(test, at, k))
    && need(TestEnd(test, at)) == {TestEnd(test, at) - 1}
  }

  /** The same for the tests of a chain. */
  ghost predicate ForTests(need: Promise, arms: Arms, at: nat) {
    (forall k :: at <= k < TestsEnd(arms, at) ==> need(k) == NeedTests(arms, at, k)) && need(TestsEnd(arms, at)) == {}
  }

  lemma {:induction false} TestsNeeds(need: Promise, arms: Arms, at: nat)
    requires arms.Arm? && ForTests(need, arms, at)
    ensures ForTest(need, arms.test, at) && ForTests(need, arms.rest, TestEnd(arms.test, at) + 1)
  {
  }

  lemma {:induction false} BranchSound(code: seq<Inst>, need: Promise, test: Expr, at: nat, q: nat, other: nat)
    requires var p := TestEnd(test, at);
      && TestAt(code, test, at) == true && p < |code| && code[p] == If(p - 1, Some(q), Some(other))
      && ForTest(need, test, at) == true && need(q) == {} && (other == p || need(other) == {})
    ensures SoundOn(code, need, at, TestEnd(test, at) + 1) == true
  {
    TestSound(code, need, {}, test, at);
  }

  /** Nothing is needed where a body starts. */
  ghost predicate BodyHeads(need: Promise, arms: Arms, at: nat) {
    match arms
    case NoArms => true
    case Arm(_, body, rest) => need(at) == {} && BodyHeads(need, rest, BlockEnd(body, at + 1) + 1)
  }

  lemma {:induction false} BodiesStart(need: Promise, arms: Arms, at: nat)
    requires ForBodies(need, arms, at)
    ensures BodyHeads(need, arms, at)
    decreases arms
  {
    if arms.Arm? {
      BodiesStart(need, arms.rest, BlockEnd(arms.body, at + 1) + 1);
    }
  }

  lemma {:induction false} BodiesSound(code: seq<Inst>, need: Promise, arms: Arms, at: nat, ns: nat, after: nat)
    requires BodiesAt(code, arms, at, ns, after) && need(after) == {} && ForBodies(need, arms, at)
    ensures SoundOn(code, need, at, BodiesEnd(arms, at))
    decreases arms, 4
  {
    if arms.Arm? {
      var e := BlockEnd(arms.body, at + 1);
      BodiesNeeds(need, arms, at);
      assert SoundOn(code, need, at, e + 1) by { BodySound(code, need, arms.body, at, ns, after); }
      assert SoundOn(code, need, e + 1, BodiesEnd(arms.rest, e + 1)) by {
        BodiesSound(code, need, arms.rest, e + 1, ns + BlockDefs(arms.body), after);
      }
      JoinSound(code, need, at, e + 1, BodiesEnd(arms.rest, e + 1));
    }
  }

  /** The same for the bodies of a chain. */
  ghost predicate ForBodies(need: Promise, arms: Arms, at: nat) {
    forall k :: at <= k < BodiesEnd(arms, at) ==> need(k) == NeedBodies(arms, at, k)
  }

  /** The same for one body, its jump target and its closing branch. */
  ghost predicate ForBody(need: Promise, body: Block, at: nat) {
    need(at) == {} && ForBlock(need, body, at + 1)
  }

  lemma {:induction false} BodiesNeeds(need: Promise, arms: Arms, at: nat)
    requires arms.Arm? && ForBodies(need, arms, at)
    ensures ForBody(need, arms.body, at) && ForBodies(need, arms.rest, BlockEnd(arms.body, at + 1) + 1)
  {
  }

  lemma {:induction false} BodySound(code: seq<Inst>, need: Promise, body: Block, at: nat, ns: nat, after: nat)
    requires BlockEnd(body, at + 1) < |code| && code[at] == JumpTarget && code[BlockEnd(body, at + 1)] == Br(after)
    requires BlockAt(code, body, at + 1, ns) && need(after) == {} && ForBody(need, body, at)
    ensures SoundOn(code, need, at, BlockEnd(body, at + 1) + 1)
    decreases body, 4
  {
    var e := BlockEnd(body, at + 1);
    BodyNeeds(need, body, at);
    assert SoundOn(code, need, at + 1, e) by { BlockSound(code, need, body, at + 1, ns); }
    HeadSound(code, need, at);
    assert Sound(code, need, e);
    JoinSound(code, need, at, at + 1, e);
    JoinSound(code, need, at, e, e + 1);
  }

  lemma {:induction false} BodyNeeds(need: Promise, body: Block, at: nat)
    requires ForBody(need, body, at)
    ensures need(at) == {} && need(at + 1) == {} && need(BlockEnd(body, at + 1)) == {}
    ensures ForBlock(need, body, at + 1)
  {
    BlockStart(body, at + 1);
    BlockPast(body, at + 1, BlockEnd(body, at + 1));
  }

  lemma {:induction false} ElseSound(code: seq<Inst>, need: Promise, o: OrElse, at: nat, ns: nat, after: nat)
    requires ElseAt(code, o, at, ns, after) && need(after) == {}
    requires forall k :: at <= k < ElseEnd(o, at) ==> need(k) == NeedElse(o, at, k)
    ensures SoundOn(code, need, at, ElseEnd(o, at))
    decreases o, 4
  {
    assert o.Else? ==> ForBody(need, o.body, at);
    if o.Else? { BodySound(code, need, o.body, at, ns, after); }
  }

  ghost predicate ForDef(need: Promise, decs: Exprs, ps: Params, ret: Option<Expr>, at: nat, end: nat) {
    forall k :: at <= k < end ==> need(k) == NeedDef(decs, ps, ret, at, k)
  }

  lemma {:induction false} DefSound(code: seq<Inst>, need: Promise, s: Stmt, at: nat, ns: nat)
    requires s.FuncDef? && DefAt(code, s, at, ns) && need(StmtEnd(s, at)) == {}
    requires forall k :: at <= k < StmtEnd(s, at) ==>
      need(k) == NeedDef(Reverse(s.decorators), s.params, s.result, at, k)
    ensures SoundOn(code, need, at, StmtEnd(s, at))
  {
    var decs := Reverse(s.decorators);
    var d := ExprsEnd(decs, at);
    var p := ParamsEnd(s.params, d);
    var f := OptEnd(s.result, p);
    var slots := ExprsSlots(decs, at);
    assert ForDef(need, decs, s.params, s.result, at, f + 2 + |slots|);
    DefNeeds(need, decs, s.params, s.result, at, d, p, f, f + 2 + |slots|);
    DefParts(code, need, decs, s, at, ns, d, p, f, slots);
  }

  lemma {:induction false} DefParts(code: seq<Inst>, need: Promise, decs: Exprs, s: Stmt, at: nat, ns: nat,
      d: nat, p: nat, f: nat, slots: seq<nat>)
    requires s.FuncDef? && decs == Reverse(s.decorators) && DefAt(code, s, at, ns) == true
    requires d == ExprsEnd(decs, at) && p == ParamsEnd(s.params, d) && f == OptEnd(s.result, p)
    requires slots == ExprsSlots(decs, at) && need(f + 2 + |slots|) == {}
    requires DefPromises(need, decs, s.params, s.result, at, d, p, f, f + 2 + |slots|) == true
    ensures SoundOn(code, need, at, f + 2 + |slots|) == true
  {
    var ds, qs := Elems(slots), ParamSlots(ParamsSlots(s.params, d));
    assert SoundOn(code, need, at, d) == true by { ExprsSound(code, need, {}, decs, at); }
    assert SoundOn(code, need, d, p) == true by { ParamsSound(code, need, ds, s.params, d); }
    assert SoundOn(code, need, p, f) == true by {
      if s.result.Some? { ExprSound(code, need, ds + qs, s.result.value, p); }
    }
    assert SoundOn(code, need, f, f + 2 + |slots|) == true by {
      DefTailSound(code, need, ds, qs, s.params, d, OptSlot(s.result, p), f, slots, s.name, ns);
    }
    JoinSound(code, need, at, d, p);
    JoinSound(code, need, at, p, f);
    JoinSound(code, need, at, f, f + 2 + |slots|);
  }

  lemma {:induction false} DefTailSound(code: seq<Inst>, need: Promise, ds: set<nat>, qs: set<nat>, ps: Params, d: nat,
        ret: Option<nat>,
                                        f: nat, slots: seq<nat>, name: Name, ns: nat)
    requires f + 2 <= |code| && code[f] == Defn(name, ParamsSlots(ps, d), ret, ns) && code[f + 1] == SetVar(name, f)
    requires qs == ParamSlots(ParamsSlots(ps, d)) && ds == Elems(slots) && CallsAt(code, slots, f, f + 2)
    requires need(f) == ds + qs + Opt(ret) && need(f + 1) == ds + {f} && need(f + 2 + |slots|) == {}
    requires forall k :: f + 2 <= k < f + 2 + |slots| ==> need(k) == ds + {if k == f + 2 then f else k - 1}
    ensures SoundOn(code, need, f, f + 2 + |slots|)
  {
    CallsSound(code, need, ds, slots, f, f + 2);
    assert need(f + 2) <= ds + {f};
  }

  /**
   `need` on the parts of a definition: decorators up to `d`, parameters up to `p`, the
   result up to `f`, then the calls.
   */
  ghost predicate DefPromises(need: Promise, decs: Exprs, ps: Params, ret: Option<Expr>, at: nat,
      d: nat, p: nat, f: nat, end: nat) {
    var ds, qs := Elems(ExprsSlots(decs, at)), ParamSlots(ParamsSlots(ps, d));
    && ForExprs(need, {}, decs, at) && ForParams(need, ds, ps, d)
    && (ret.Some? ==> ForExpr(need, ds + qs, ret.value, p))
    && need(f) == ds + qs + Opt(OptSlot(ret, p)) && need(f + 1) == ds + {f}
    && (forall k :: f + 2 <= k < end ==> need(k) == ds + {if k == f + 2 then f else k - 1})
  }

  lemma {:induction false} DefNeeds(need: Promise, decs: Exprs, ps: Params, ret: Option<Expr>, at: nat,
      d: nat, p: nat, f: nat, end: nat)
    requires d == ExprsEnd(decs, at) && p == ParamsEnd(ps, d) && f == OptEnd(ret, p) && f + 2 <= end
    requires ForDef(need, decs, ps, ret, at, end)
    ensures DefPromises(need, decs, ps, ret, at, d, p, f, end)
  {
    DecoratorsNeed(need, decs, ps, ret, at, d, p, f, end);
    ParamsNeed(need, decs, ps, ret, at, d, p, f, end);
    ResultNeeds(need, decs, ps, ret, at, d, p, f, end);
  }

  lemma {:induction false} DecoratorsNeed(need: Promise, decs: Exprs, ps: Params, ret: Option<Expr>, at: nat,
      d: nat, p: nat, f: nat, end: nat)
    requires d == ExprsEnd(decs, at) && p == ParamsEnd(ps, d) && f == OptEnd(ret, p) && f + 2 <= end
    requires ForDef(need, decs, ps, ret, at, end)
    ensures ForExprs(need, {}, decs, at)
  {
    assert need(d) <= Elems(ExprsSlots(decs, at)) by {
      ParamsStart(ps, d);
      if ret.Some? { ExprStart(ret.value, p); }
    }
  }

  lemma {:induction false} ParamsNeed(need: Promise, decs: Exprs, ps: Params, ret: Option<Expr>, at: nat,
      d: nat, p: nat, f: nat, end: nat)
    requires d == ExprsEnd(decs, at) && p == ParamsEnd(ps, d) && f == OptEnd(ret, p) && f + 2 <= end
    requires ForDef(need, decs, ps, ret, at, end)
    ensures ForParams(need, Elems(ExprsSlots(decs, at)), ps, d)
  {
    if ret.Some? { ExprStart(ret.value, p); }
  }

  lemma {:induction false} ResultNeeds(need: Promise, decs: Exprs, ps: Params, ret: Option<Expr>, at: nat,
      d: nat, p: nat, f: nat, end: nat)
    requires d == ExprsEnd(decs, at) && p == ParamsEnd(ps, d) && f == OptEnd(ret, p) && f + 2 <= end
    requires ForDef(need, decs, ps, ret, at, end)
    ensures var ds, qs := Elems(ExprsSlots(decs, at)), ParamSlots(ParamsSlots(ps, d));
      && (ret.Some? ==> ForExpr(need, ds + qs, ret.value, p))
      && need(f) == ds + qs + Opt(OptSlot(ret, p)) && need(f + 1) == ds + {f}
      && (forall k :: f + 2 <= k < end ==> need(k) == ds + {if k == f + 2 then f else k - 1})
  {
  }

  lemma {:induction false} CallsSound(code: seq<Inst>, need: Promise, ds: set<nat>, decs: seq<nat>, func: nat, at: nat)
    requires CallsAt(code, decs, func, at) && Elems(decs) <= ds
    requires decs != [] ==> need(at) == ds + {func}
    requires forall k :: at < k < at + |decs| ==> need(k) == ds + {k - 1}
    requires need(at + |decs|) == {}
    ensures SoundOn(code, need, at, at + |decs|)
    decreases |decs|
  {
    if decs != [] {
      CallsSound(code, need, ds, decs[1..], at, at + 1);
    }
  }

  // ---- runs ----

  /** One promise for a whole sequence that every instruction keeps. */
  lemma {:induction false} LoweredIsSound(code: seq<Inst>, b: Block, ns: nat) returns (need: Promise)
    requires Lowered(code, b, ns)
    ensures SoundOn(code, need, 0, |code|) && need(0) == {}
  {
    need := (k: nat) => NeedBlock(b, 0, k);
    assert ForBlock(need, b, 0);
    BlockSound(code, need, b, 0, ns);
    BlockStart(b, 0);
  }

  lemma {:induction false} ParamSlotsPresent(values: map<nat, Object>, ps: seq<(Name, Option<nat>)>)
    requires ParamSlots(ps) <= values.Keys
    ensures ParamsPresent(values, ps)
    decreases |ps|
  {
    if ps != [] {
      ParamSlotsPresent(values, ps[1..]);
      forall i | 0 <= i < |ps| ensures OptPresent(values, ps[i].1) {
        if i > 0 { assert ps[i] == ps[1..][i - 1]; }
      }
    }
  }

  /** One step from a state in which every promise is kept. */
  lemma {:induction false} StepKeeps(code: seq<Inst>, ops: Ops, need: Promise, st: State)
    requires SoundOn(code, need, 0, |code|) && st.ip < |code| && need(st.ip) <= st.values.Keys
    ensures Reads(code[st.ip]) <= st.values.Keys
    ensures var s := Step(code, ops, st); s.Next? ==> need(s.st.ip) <= s.st.values.Keys
  {
    assert Sound(code, need, st.ip);
    if code[st.ip].Defn? { ParamSlotsPresent(st.values, code[st.ip].params); }
  }

  lemma {:induction false} RunKeeps(code: seq<Inst>, ops: Ops, need: Promise, st: State, n: nat)
    requires SoundOn(code, need, 0, |code|) && need(st.ip) <= st.values.Keys
    ensures var r := Run(code, ops, st, n); r.Running? ==> need(r.st.ip) <= r.st.values.Keys
    decreases n
  {
    if n > 0 && st.ip < |code| {
      StepKeeps(code, ops, need, st);
      var s := Step(code, ops, st);
      if s.Next? { RunKeeps(code, ops, need, s.st, n - 1); }
    }
  }

  lemma {:induction false} ReadsFrom(code: seq<Inst>, ops: Ops, need: Promise, st: State, n: nat)
    requires SoundOn(code, need, 0, |code|) && need(st.ip) <= st.values.Keys
    ensures var r := Run(code, ops, st, n);
      r.Running? && r.st.ip < |code| ==> Reads(code[r.st.ip]) <= r.st.values.Keys
  {
    RunKeeps(code, ops, need, st, n);
    var r := Run(code, ops, st, n);
    if r.Running? && r.st.ip < |code| { StepKeeps(code, ops, need, r.st); }
  }

  /**
   Every slot that the next instruction of a run reads has been written by the
   run: the frame starts with no slot written, and nothing but the run writes
   its slots.
   */
  lemma {:induction false} ReadsAreAssigned(code: seq<Inst>, b: Block, ns: nat, ops: Ops, env: Env, n: nat)
    requires Lowered(code, b, ns)
    ensures var r := Run(code, ops, State(0, map[], env), n);
      r.Running? && r.st.ip < |code| ==> Reads(code[r.st.ip]) <= r.st.values.Keys
  {
    var need := LoweredIsSound(code, b, ns);
    ReadsFrom(code, ops, need, State(0, map[], env), n);
  }

  // ---- slots that hold something beforehand are never observed ----

  /** `a` is `b` with perhaps more slots filled. */
  ghost predicate Fuller(a: State, b: State) {
    a.ip == b.ip && a.env == b.env && b.values.Keys <= a.values.Keys &&
      forall s <- b.values :: a.values[s] == b.values[s]
  }

  ghost predicate SameStep(x: StepResult, y: StepResult) {
    if x.Next? && y.Next? then Fuller(x.st, y.st) else x == y
  }

  lemma {:induction false} StepFuller(code: seq<Inst>, ops: Ops, a: State, b: State)
    requires Fuller(a, b) && (b.ip < |code| ==> Reads(code[b.ip]) <= b.values.Keys)
    ensures SameStep(Step(code, ops, a), Step(code, ops, b))
  {
    if b.ip < |code| {
      match code[b.ip]
      case Tuple(elems) => assert Read(a.values, elems) == Read(b.values, elems);
      case Call(_, args) => assert Read(a.values, args) == Read(b.values, args);
      case Defn(_, _, _, _) => DefnFuller(code, ops, a, b);
      case _ =>
    }
  }

  lemma {:induction false} DefnFuller(code: seq<Inst>, ops: Ops, a: State, b: State)
    requires Fuller(a, b) && b.ip < |code| && code[b.ip].Defn? && Reads(code[b.ip]) <= b.values.Keys
    ensures SameStep(Step(code, ops, a), Step(code, ops, b))
  {
    var ps := code[b.ip].params;
    ParamSlotsPresent(a.values, ps);
    ParamSlotsPresent(b.values, ps);
    assert ReadParams(a.values, ps) == ReadParams(b.values, ps);
  }

  ghost predicate SameRun(x: RunResult, y: RunResult) {
    if x.Running? && y.Running? then Fuller(x.st, y.st) else x == y
  }

  lemma {:induction false} RunFuller(code: seq<Inst>, ops: Ops, need: Promise, a: State, b: State, n: nat)
    requires SoundOn(code, need, 0, |code|) && need(b.ip) <= b.values.Keys && Fuller(a, b)
    ensures SameRun(Run(code, ops, a, n), Run(code, ops, b, n))
    decreases n
  {
    if n > 0 {
      if b.ip < |code| { StepKeeps(code, ops, need, b); }
      StepFuller(code, ops, a, b);
      var s, t := Step(code, ops, a), Step(code, ops, b);
      if s.Next? && t.Next? { RunFuller(code, ops, need, s.st, t.st, n - 1); }
    }
  }

  /** Whatever the slots of a frame hold when it is entered, the run is the same as from empty slots. */
  lemma {:induction false} SeedsAreNeverObserved(code: seq<Inst>, b: Block, ns: nat, ops: Ops, seed: map<nat, Object>,
        env: Env, n: nat)
    requires Lowered(code, b, ns)
    ensures SameRun(Run(code, ops, State(0, seed, env), n), Run(code, ops, State(0, map[], env), n))
  {
    var need := LoweredIsSound(code, b, ns);
    RunFuller(code, ops, need, State(0, seed, env), State(0, map[], env), n);
  }
}
