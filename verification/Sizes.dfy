/**
 How much room a type takes (`layout_of` in montyc_core/src/typing.rs).

 A class, a tuple or a union is laid out like the largest of the types it is made
 of in the end, the last of several.
 */
module Sizes {
  import opened RawInst
  import opened TypeTable
  import opened TypeOps

  /** A kind that is made of other types. */
  predicate IsContainer(k: Kind) {
    k.Class? || k.Tuple? || k.Union?
  }

  /** The layout of a type that is not made of others, by its number if it is a builtin one. */
  function LeafLayout(k: Kind): Option<Layout> {
    match k
    case Any => Some(Layout(8, 8))
    case Callable(_, _) => Some(Layout(8, 8))
    case Basic(b) =>
      if 100 <= Tag(b) < 108 then Some(Layout([1, 2, 4, 8][(Tag(b) - 100) % 4], 1))
      else if Tag(b) in {6, 8, 255} then None
      else Some(Layout(8, 1))
    case _ => None
  }

  /** The types that a type is made of in the end, in order. */
  ghost function Leaves(t: Table, id: TypeId): seq<TypeId>
    requires WellFounded(t) && Has(t, id)
    decreases id, 1, 0, t
  {
    UnionBelow(t, id);
    if IsContainer(KindOf(t, id)) then LeavesOf(t, Mentions(KindOf(t, id)), id) else [id]
  }

  ghost function LeavesOf(t: Table, ids: seq<TypeId>, bound: nat): seq<TypeId>
    requires WellFounded(t) && Below(t, ids, bound)
    decreases bound, 0, |ids|, t
  {
    if |ids| == 0 then [] else LeavesOf(t, ids[..|ids| - 1], bound) + Leaves(t, ids[|ids| - 1])
  }

  /** Nothing in the type is empty, and everything it is made of has a layout. */
  ghost predicate Sized(t: Table, id: TypeId)
    requires WellFounded(t) && Has(t, id)
    decreases id, 1, 0, t
  {
    UnionBelow(t, id);
    if IsContainer(KindOf(t, id)) then
      |Mentions(KindOf(t, id))| > 0 && AllSized(t, Mentions(KindOf(t, id)), id)
    else LeafLayout(KindOf(t, id)).Some?
  }

  ghost predicate AllSized(t: Table, ids: seq<TypeId>, bound: nat)
    requires WellFounded(t) && Below(t, ids, bound)
    decreases bound, 0, |ids|, t
  {
    |ids| > 0 ==> AllSized(t, ids[..|ids| - 1], bound) && Sized(t, ids[|ids| - 1])
  }

  function LeafAt(t: Table, id: TypeId): Option<Layout> {
    if Has(t, id) then LeafLayout(KindOf(t, id)) else None
  }

  /** All of these types have layouts, and `l` is the largest of them, the last of several. */
  ghost predicate LastLargest(t: Table, ids: seq<TypeId>, l: Layout) {
    exists i :: LastLargestAt(t, ids, l, i)
  }

  predicate LastLargestAt(t: Table, ids: seq<TypeId>, l: Layout, i: int) {
    && 0 <= i < |ids| && LeafAt(t, ids[i]) == Some(l)
    && (forall j :: 0 <= j < |ids| ==> LeafAt(t, ids[j]).Some?)
    && (forall j :: 0 <= j < i ==> LeafAt(t, ids[j]).value.size <= l.size)
    && (forall j :: i < j < |ids| ==> LeafAt(t, ids[j]).value.size < l.size)
  }

  lemma {:induction false} LargestOfBoth(t: Table, a: seq<TypeId>, b: seq<TypeId>, m: Layout, l: Layout)
    requires LastLargest(t, a, m) && LastLargest(t, b, l)
    ensures LastLargest(t, a + b, if l.size >= m.size then l else m)
  {
    var i :| LastLargestAt(t, a, m, i);
    var j :| LastLargestAt(t, b, l, j);
    var all, best, at := a + b, if l.size >= m.size then l else m, if l.size >= m.size then |a| + j else i;
    forall k | 0 <= k < |all|
      ensures LeafAt(t, all[k]).Some? && LeafAt(t, all[k]).value.size <= best.size
      ensures k > at ==> LeafAt(t, all[k]).value.size < best.size
    {
      assert all[k] == if k < |a| then a[k] else b[k - |a|];
      assert k < |a| ==> LeafAt(t, a[k]).Some? && LeafAt(t, a[k]).value.size <= m.size;
      assert k >= |a| ==> LeafAt(t, b[k - |a|]).Some? && LeafAt(t, b[k - |a|]).value.size <= l.size;
    }
    assert LastLargestAt(t, all, best, at);
  }

  /** A type has a layout exactly when it is sized, and it is that of the largest of its leaves, the last of several. */
  lemma {:induction false} LayoutIsLargestLeaf(t: Table, id: TypeId)
    requires WellFounded(t) && Has(t, id)
    ensures LayoutOf(t, id).Some? <==> Sized(t, id)
    ensures LayoutOf(t, id).Some? ==> LastLargest(t, Leaves(t, id), LayoutOf(t, id).value)
    decreases id, 1, 0
  {
    UnionBelow(t, id);
    var k := KindOf(t, id);
    if IsContainer(k) {
      MembersLargest(t, Mentions(k), id);
    } else {
      LeafIs(t, id);
      if LayoutOf(t, id).Some? { assert LastLargestAt(t, [id], LayoutOf(t, id).value, 0); }
    }
  }

  lemma {:induction false} LeafIs(t: Table, id: TypeId)
    requires WellFounded(t) && Has(t, id) && !IsContainer(KindOf(t, id))
    ensures LayoutOf(t, id) == LeafLayout(KindOf(t, id)) && Leaves(t, id) == [id]
  {
    if KindOf(t, id).Basic? { SizesAre(KindOf(t, id).basic); }
  }

  lemma {:induction false} MembersLargest(t: Table, ids: seq<TypeId>, bound: nat)
    requires WellFounded(t) && Below(t, ids, bound)
    ensures LargestLayout(t, ids, bound).Some? <==> |ids| > 0 && AllSized(t, ids, bound)
    ensures LargestLayout(t, ids, bound).Some? ==>
      LastLargest(t, LeavesOf(t, ids, bound), LargestLayout(t, ids, bound).value)
    decreases bound, 0, |ids|
  {
    if |ids| > 0 {
      var front, last := ids[..|ids| - 1], ids[|ids| - 1];
      MembersLargest(t, front, bound);
      LayoutIsLargestLeaf(t, last);
      if |front| == 0 {
        assert LeavesOf(t, ids, bound) == Leaves(t, last);
      } else if LargestLayout(t, ids, bound).Some? {
        LargestOfBoth(t, LeavesOf(t, front, bound), Leaves(t, last), LargestLayout(t, front, bound).value,
          LayoutOf(t, last).value);
      }
    }
  }
}
