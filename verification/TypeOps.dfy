/**
 Unions, tuples, layouts and unification over the table of types
 (montyc_core/src/typing.rs).
 */
module TypeOps {
  import opened RawInst
  import opened TypeTable

  // ---- what a type denotes ----

  ghost predicate Below(t: Table, ids: seq<TypeId>, bound: nat) {
    forall i :: 0 <= i < |ids| ==> ids[i] < bound && Has(t, ids[i])
  }

  lemma {:induction false} UnionBelow(t: Table, id: TypeId)
    requires WellFounded(t) && Has(t, id)
    ensures Below(t, Mentions(KindOf(t, id)), id)
  {
  }

  /** The leaf types of a type: a union stands for what its members stand for, any other type for itself. */
  ghost function Denote(t: Table, id: TypeId): set<TypeId>
    requires WellFounded(t) && Has(t, id)
    decreases id, 1, 0, t
  {
    if KindOf(t, id).Union? then UnionBelow(t, id); DenoteAll(t, Members(KindOf(t, id).members), id) else {id}
  }

  ghost function DenoteAll(t: Table, ids: seq<TypeId>, bound: nat): set<TypeId>
    requires WellFounded(t) && Below(t, ids, bound)
    decreases bound, 0, |ids|, t
  {
    if |ids| == 0 then {} else Denote(t, ids[0]) + DenoteAll(t, ids[1..], bound)
  }

  lemma {:induction false} InDenoteAll(t: Table, ids: seq<TypeId>, bound: nat, x: TypeId)
    requires WellFounded(t) && Below(t, ids, bound)
    ensures x in DenoteAll(t, ids, bound) <==> exists i :: 0 <= i < |ids| && x in Denote(t, ids[i])
    decreases |ids|
  {
    if |ids| > 0 {
      InDenoteAll(t, ids[1..], bound, x);
      if x in DenoteAll(t, ids[1..], bound) {
        var i :| 0 <= i < |ids[1..]| && x in Denote(t, ids[1..][i]);
        assert ids[i + 1] == ids[1..][i];
      }
      if i :| 0 <= i < |ids| && x in Denote(t, ids[i]) {
        if i > 0 { assert ids[1..][i - 1] == ids[i]; }
      }
    }
  }

  /** A type keeps its denotation as the table grows. */
  lemma {:induction false} DenoteStable(t: Table, u: Table, id: TypeId)
    requires WellFounded(t) && WellFounded(u) && Extends(t, u) && Has(t, id)
    ensures Denote(u, id) == Denote(t, id)
    decreases id, 1, 0
  {
    if KindOf(t, id).Union? {
      UnionBelow(t, id);
      DenoteAllStable(t, u, Members(KindOf(t, id).members), id);
    }
  }

  lemma {:induction false} DenoteAllStable(t: Table, u: Table, ids: seq<TypeId>, bound: nat)
    requires WellFounded(t) && WellFounded(u) && Extends(t, u) && Below(t, ids, bound)
    ensures Below(u, ids, bound) && DenoteAll(u, ids, bound) == DenoteAll(t, ids, bound)
    decreases bound, 0, |ids|
  {
    if |ids| > 0 {
      DenoteStable(t, u, ids[0]);
      DenoteAllStable(t, u, ids[1..], bound);
    }
  }

  // ---- make_union ----

  /** What a side contributes to a union: its members if it is one, else itself. */
  function Parts(t: Table, id: TypeId): seq<TypeId>
    requires Has(t, id)
  {
    if KindOf(t, id).Union? then Members(KindOf(t, id).members) else [id]
  }

  /** `ms` lists the parts of both sides, in any order. */
  ghost predicate Lists(t: Table, l: TypeId, r: TypeId, ms: seq<TypeId>)
    requires Has(t, l) && Has(t, r)
  {
    forall x :: x in ms <==> x in Parts(t, l) || x in Parts(t, r)
  }

  function UnionKind(ms: seq<TypeId>): Kind {
    Union(if |ms| == 0 then None else Some(ms))
  }

  lemma {:induction false} PartsKnown(t: Table, id: TypeId, x: TypeId)
    requires WellFounded(t) && Has(t, id) && x in Parts(t, id)
    ensures Has(t, x) && x <= id
  {
    if KindOf(t, id).Union? {
      UnionBelow(t, id);
      var i :| 0 <= i < |Parts(t, id)| && Parts(t, id)[i] == x;
      assert Mentions(KindOf(t, id))[i] == x;
    }
  }

  lemma {:induction false} PartsDenote(t: Table, id: TypeId, x: TypeId)
    requires WellFounded(t) && Has(t, id)
    ensures x in Denote(t, id) <==> exists p :: p in Parts(t, id) && Has(t, p) && x in Denote(t, p)
  {
    if KindOf(t, id).Union? {
      UnionBelow(t, id);
      var ms := Members(KindOf(t, id).members);
      InDenoteAll(t, ms, id, x);
      if i :| 0 <= i < |ms| && x in Denote(t, ms[i]) { assert ms[i] in Parts(t, id); }
    } else {
      assert id in Parts(t, id);
    }
  }

  lemma {:induction false} ListedKnown(t: Table, l: TypeId, r: TypeId, ms: seq<TypeId>)
    requires WellFounded(t) && Has(t, l) && Has(t, r) && Lists(t, l, r, ms)
    ensures Known(t, Mentions(UnionKind(ms)))
  {
    forall i | 0 <= i < |ms| ensures Has(t, ms[i]) {
      assert ms[i] in ms;
      if ms[i] in Parts(t, l) { PartsKnown(t, l, ms[i]); } else { PartsKnown(t, r, ms[i]); }
    }
  }

  /** In whatever order its members are listed, a union denotes the union of what its sides denote. */
  lemma {:induction false} UnionDenotesUnion(t: Table, l: TypeId, r: TypeId, ms: seq<TypeId>)
    requires Valid(t) && WellFounded(t) && Has(t, l) && Has(t, r) && Lists(t, l, r, ms)
    ensures var (u, id) := Insert(t, Bare(UnionKind(ms)));
      Valid(u) && WellFounded(u) && Extends(t, u) && Has(u, id) && Denote(u, id) == Denote(t, l) + Denote(t, r)
  {
    ListedKnown(t, l, r, ms);
    InsertKeeps(t, UnionKind(ms));
    InsertKeepsFounded(t, UnionKind(ms));
    var (u, id) := Insert(t, Bare(UnionKind(ms)));
    assert Parts(u, id) == ms;
    forall x ensures x in Denote(u, id) <==> x in Denote(t, l) || x in Denote(t, r) {
      PartsDenote(u, id, x);
      PartsDenote(t, l, x);
      PartsDenote(t, r, x);
      forall p | p in ms && Has(t, p) ensures Denote(u, p) == Denote(t, p) { DenoteStable(t, u, p); }
      forall p | p in ms ensures Has(t, p) {
        if p in Parts(t, l) { PartsKnown(t, l, p); } else { PartsKnown(t, r, p); }
      }
    }
  }

  // ---- layout_of ----

  datatype Layout = Layout(size: nat, align: nat)

  const I64_LAYOUT: Layout := Layout(8, 8)

  /** The layout of a type; `None` where the computation panics. */
  ghost function LayoutOf(t: Table, id: TypeId): Option<Layout>
    requires WellFounded(t) && Has(t, id)
    decreases id, 1, 0, t
  {
    UnionBelow(t, id);
    match KindOf(t, id)
    case Any => Some(I64_LAYOUT)
    case Callable(_, _) => Some(I64_LAYOUT)
    case Class(_, m) => LargestLayout(t, Members(m), id)
    case Tuple(m) => LargestLayout(t, Members(m), id)
    case Union(m) => LargestLayout(t, Members(m), id)
    case Basic(b) => if SizeInBytes(b) == 0 then None else Some(Layout(SizeInBytes(b), 1))
    case _ => None
  }

  /** The largest layout of some types, the last one of several; there must be one. */
  ghost function LargestLayout(t: Table, ids: seq<TypeId>, bound: nat): Option<Layout>
    requires WellFounded(t) && Below(t, ids, bound)
    decreases bound, 0, |ids|, t
  {
    if |ids| == 0 then None else
    var last := LayoutOf(t, ids[|ids| - 1]);
    if |ids| == 1 || last.None? then last
    else
      match LargestLayout(t, ids[..|ids| - 1], bound)
      case None => None
      case Some(m) => if last.value.size >= m.size then last else Some(m)
  }

  /** `n` is the largest size among these types. */
  ghost predicate LargestSize(t: Table, ids: seq<TypeId>, n: nat)
    requires WellFounded(t) && Known(t, ids)
  {
    && (forall i :: 0 <= i < |ids| ==> LayoutOf(t, ids[i]).Some? && LayoutOf(t, ids[i]).value.size <= n)
    && (exists i :: 0 <= i < |ids| && LayoutOf(t, ids[i]).Some? && LayoutOf(t, ids[i]).value.size == n)
  }

  lemma {:induction false} LargestIs(t: Table, ids: seq<TypeId>, bound: nat)
    requires WellFounded(t) && Below(t, ids, bound)
    ensures var r := LargestLayout(t, ids, bound); r.Some? ==> LargestSize(t, ids, r.value.size)
    ensures |ids| > 0 && (forall i :: 0 <= i < |ids| ==> LayoutOf(t, ids[i]).Some?) ==>
      LargestLayout(t, ids, bound).Some?
    decreases |ids|
  {
    if |ids| > 0 {
      var front, last := ids[..|ids| - 1], |ids| - 1;
      LargestIs(t, front, bound);
      assert forall i :: 0 <= i < |front| ==> front[i] == ids[i];
      var r := LargestLayout(t, ids, bound);
      if r.Some? && |front| > 0 {
        var m := LargestLayout(t, front, bound).value;
        var j :| 0 <= j < |front| && LayoutOf(t, front[j]).Some? && LayoutOf(t, front[j]).value.size == m.size;
        assert LayoutOf(t, ids[j]).value.size == m.size;
      }
    }
  }

  lemma {:induction false} LayoutStable(t: Table, u: Table, id: TypeId)
    requires WellFounded(t) && WellFounded(u) && Extends(t, u) && Has(t, id)
    ensures LayoutOf(u, id) == LayoutOf(t, id)
    decreases id, 1, 0
  {
    UnionBelow(t, id);
    var k := KindOf(t, id);
    if k.Class? || k.Tuple? || k.Union? { LargestStable(t, u, Mentions(k), id); }
  }

  lemma {:induction false} LargestStable(t: Table, u: Table, ids: seq<TypeId>, bound: nat)
    requires WellFounded(t) && WellFounded(u) && Extends(t, u) && Below(t, ids, bound)
    ensures Below(u, ids, bound) && LargestLayout(u, ids, bound) == LargestLayout(t, ids, bound)
    decreases bound, 0, |ids|
  {
    if |ids| > 0 {
      LayoutStable(t, u, ids[|ids| - 1]);
      LargestStable(t, u, ids[..|ids| - 1], bound);
    }
  }

  /** The size of a type is the largest size among its parts. */
  lemma {:induction false} PartsSize(t: Table, id: TypeId)
    requires WellFounded(t) && Has(t, id) && LayoutOf(t, id).Some?
    ensures Known(t, Parts(t, id)) && LargestSize(t, Parts(t, id), LayoutOf(t, id).value.size)
  {
    if KindOf(t, id).Union? {
      UnionBelow(t, id);
      LargestIs(t, Members(KindOf(t, id).members), id);
    } else {
      assert LayoutOf(t, Parts(t, id)[0]).value.size == LayoutOf(t, id).value.size;
    }
  }

  function Max(a: nat, b: nat): nat {
    if a < b then b else a
  }

  /** The size of a union is the larger of the sizes of its sides. */
  lemma {:induction false} UnionSize(t: Table, l: TypeId, r: TypeId, ms: seq<TypeId>)
    requires Valid(t) && WellFounded(t) && Has(t, l) && Has(t, r) && Lists(t, l, r, ms)
    requires LayoutOf(t, l).Some? && LayoutOf(t, r).Some?
    ensures var (u, id) := Insert(t, Bare(UnionKind(ms)));
      && WellFounded(u) && Has(u, id) && LayoutOf(u, id).Some?
      && LayoutOf(u, id).value.size == Max(LayoutOf(t, l).value.size, LayoutOf(t, r).value.size)
  {
    UnionDenotesUnion(t, l, r, ms);
    ListedKnown(t, l, r, ms);
    var (u, id) := Insert(t, Bare(UnionKind(ms)));
    InsertKeeps(t, UnionKind(ms));
    PartsSize(t, l);
    PartsSize(t, r);
    SidesSize(t, l, r, ms);
    UnionBelow(u, id);
    forall i | 0 <= i < |ms| ensures LayoutOf(u, ms[i]) == LayoutOf(t, ms[i]) { LayoutStable(t, u, ms[i]); }
    LargestIs(u, ms, id);
    assert Mentions(KindOf(u, id)) == ms;
  }

  lemma {:induction false} SidesSize(t: Table, l: TypeId, r: TypeId, ms: seq<TypeId>)
    requires WellFounded(t) && Has(t, l) && Has(t, r) && Lists(t, l, r, ms) && Known(t, ms)
    requires LayoutOf(t, l).Some? && LayoutOf(t, r).Some?
    requires Known(t, Parts(t, l)) && LargestSize(t, Parts(t, l), LayoutOf(t, l).value.size)
    requires Known(t, Parts(t, r)) && LargestSize(t, Parts(t, r), LayoutOf(t, r).value.size)
    ensures LargestSize(t, ms, Max(LayoutOf(t, l).value.size, LayoutOf(t, r).value.size))
  {
    var side := if LayoutOf(t, l).value.size < LayoutOf(t, r).value.size then r else l;
    var i :| 0 <= i < |Parts(t, side)| && LayoutOf(t, Parts(t, side)[i]).Some? &&
      LayoutOf(t, Parts(t, side)[i]).value.size == LayoutOf(t, side).value.size;
    assert Parts(t, side)[i] in ms;
    forall j | 0 <= j < |ms|
      ensures LayoutOf(t, ms[j]).Some? &&
        LayoutOf(t, ms[j]).value.size <= Max(LayoutOf(t, l).value.size, LayoutOf(t, r).value.size)
    {
      assert ms[j] in ms;
      var from := if ms[j] in Parts(t, l) then l else r;
      var k :| 0 <= k < |Parts(t, from)| && Parts(t, from)[k] == ms[j];
    }
  }
}
