/**
 The value store and its mirror of the runtime heap
 (montyc_driver/src/value_store.rs, and `stir_the_pot` in
 montyc_driver/src/global_context/mod.rs).

 Association keys are hashed in the program; here two keys are the same
 exactly when they are equal.  Hash maps and sets are walked in any order.
 */
module Mirror {
  import opened RawInst

  type ObjectId = nat
  type ValueId = nat

  datatype Meta = Meta(objectId: Option<ObjectId>, internalRefs: Option<seq<ValueId>>)

  type Metas = map<ValueId, Meta>
  type Assocs = map<ObjectId, ValueId>

  /** The references of a value; none recorded is none at all. */
  function RefsOf(m: Meta): seq<ValueId> {
    if m.internalRefs.None? then [] else m.internalRefs.value
  }

  /** What each runtime object refers to. */
  type Heap = map<ObjectId, seq<ObjectId>>

  /** The references of an object, leaving out the uninitialised id. */
  function Defined(refs: seq<ObjectId>, uninit: ObjectId): set<ObjectId> {
    (set r | r in refs) - {uninit}
  }

  ghost predicate Closed(heap: Heap, uninit: ObjectId) {
    forall o, r :: o in heap && r in Defined(heap[o], uninit) ==> r in heap
  }

  function OrEmpty(refs: Option<set<ObjectId>>): set<ObjectId> {
    if refs.None? then {} else refs.value
  }

  // ---- what holds of a store ----

  /**
   Every value below `size` has metadata, associations go to different values,
   and the back pointer of a value is the object it is associated with.  The
   objects in `blank` have a value whose back pointer is not set yet.
   */
  ghost predicate Linked(size: nat, metadata: Metas, assocs: Assocs, blank: set<ObjectId>) {
    && (forall v: ValueId :: v in metadata <==> v < size)
    && (forall o :: o in assocs ==>
          assocs[o] in metadata && metadata[assocs[o]].objectId == if o in blank then None else Some(o))
    && (forall o, p :: o in assocs && p in assocs && assocs[o] == assocs[p] ==> o == p)
    && (forall v :: v in metadata && metadata[v].objectId.Some? ==>
          metadata[v].objectId.value in assocs && assocs[metadata[v].objectId.value] == v)
    && (forall v, r :: v in metadata && r in RefsOf(metadata[v]) ==> r in assocs.Values)
  }

  /** These values are the values of exactly these objects. */
  ghost predicate Refers(assocs: Assocs, rs: seq<ValueId>, refs: set<ObjectId>) {
    && (forall x :: x in refs ==> x in assocs && assocs[x] in rs)
    && (forall r :: r in rs ==> exists x :: x in refs && x in assocs && assocs[x] == r)
  }

  /** The value of `o` refers to the values of exactly these objects. */
  ghost predicate Synced(metadata: Metas, assocs: Assocs, o: ObjectId, refs: set<ObjectId>) {
    o in assocs && assocs[o] in metadata && Refers(assocs, RefsOf(metadata[assocs[o]]), refs)
  }

  /**
   The store mirrors a heap: every object has a value which points back to it,
   and whose references point back to exactly the defined references of the
   object.
   */
  ghost predicate Mirrors(metadata: Metas, assocs: Assocs, heap: Heap, uninit: ObjectId) {
    forall o :: o in heap ==>
      && o in assocs && assocs[o] in metadata
      && metadata[assocs[o]].objectId == Some(o)
      && PointsBack(metadata, RefsOf(metadata[assocs[o]]), Defined(heap[o], uninit))
  }

  ghost predicate PointsBack(metadata: Metas, rs: seq<ValueId>, refs: set<ObjectId>) {
    && (forall r :: r in rs ==> r in metadata && metadata[r].objectId.Some? && metadata[r].objectId.value in refs)
    && (forall x :: x in refs ==> exists r :: r in rs && r in metadata && metadata[r].objectId == Some(x))
  }

  /** In a store whose values are all linked, synchronised objects are mirrored. */
  lemma {:induction false} SyncedMirrors(size: nat, metadata: Metas, assocs: Assocs, heap: Heap, uninit: ObjectId)
    requires Linked(size, metadata, assocs, {})
    requires forall o :: o in heap ==> Synced(metadata, assocs, o, Defined(heap[o], uninit))
    ensures Mirrors(metadata, assocs, heap, uninit)
  {
    forall o | o in heap ensures PointsBack(metadata, RefsOf(metadata[assocs[o]]), Defined(heap[o], uninit)) {
      var rs, refs := RefsOf(metadata[assocs[o]]), Defined(heap[o], uninit);
      assert Synced(metadata, assocs, o, refs);
      forall x | x in refs ensures exists r :: r in rs && r in metadata && metadata[r].objectId == Some(x) {
        assert assocs[x] in rs && metadata[assocs[x]].objectId == Some(x);
      }
    }
  }

  // ---- what one step does ----

  /** A new value for a new object. */
  lemma {:induction false} AddLinks(size: nat, metadata: Metas, assocs: Assocs, blank: set<ObjectId>, id: ObjectId)
    requires Linked(size, metadata, assocs, blank) && id !in assocs
    ensures Linked(size + 1, metadata[size := Meta(None, None)], assocs[id := size], blank + {id})
  {
    var assocs1 := assocs[id := size];
    forall r | r in assocs.Values ensures r in assocs1.Values {
      var o :| o in assocs && assocs[o] == r;
      assert assocs1[o] == r;
    }
  }

  /** The back pointer and the references of a value are set. */
  lemma {:induction false} FillLinks(size: nat, metadata: Metas, assocs: Assocs, blank: set<ObjectId>, id: ObjectId,
        rs: seq<ValueId>)
    requires Linked(size, metadata, assocs, blank) && id in assocs && forall r :: r in rs ==> r in assocs.Values
    ensures Linked(size, metadata[assocs[id] := Meta(Some(id), Some(rs))], assocs, blank - {id})
  {
  }

  /** Setting the metadata of one object leaves the others synchronised. */
  lemma {:induction false} OthersStay(size: nat, metadata: Metas, assocs: Assocs, blank: set<ObjectId>, id: ObjectId,
        m: Meta, o: ObjectId, refs: set<ObjectId>)
    requires Linked(size, metadata, assocs, blank) && id in assocs && o != id && Synced(metadata, assocs, o, refs)
    ensures Synced(metadata[assocs[id] := m], assocs, o, refs)
  {
  }

  class ValueStore {
    /** The number of values; they are numbered from 0. */
    var size: nat
    var metadata: Metas
    var assocs: Assocs
    var dirty: bool
    const uninit: ObjectId

    constructor (uninit: ObjectId)
      ensures Valid() && assocs == map[] && this.uninit == uninit && dirty
    {
      size, metadata, assocs, dirty := 0, map[], map[], true;
      this.uninit := uninit;
    }

    ghost predicate Valid()
      reads this
    {
      Linked(size, metadata, assocs, {})
    }

    /** `insert` */
    method Insert() returns (v: ValueId)
      requires size !in metadata
      modifies this
      ensures v == old(size) && size == v + 1 && metadata == old(metadata)[v := Meta(None, None)]
      ensures assocs == old(assocs) && dirty == old(dirty)
    {
      v := size;
      size := size + 1;
      metadata := metadata[v := Meta(None, None)];
    }

    /** `assoc`: the first association of a key stays. */
    method Assoc(o: ObjectId, v: ValueId)
      modifies this
      ensures assocs == if o in old(assocs) then old(assocs) else old(assocs)[o := v]
      ensures size == old(size) && metadata == old(metadata) && dirty == old(dirty)
    {
      if o !in assocs { assocs := assocs[o := v]; }
    }

    /** Resolve references to values, in any order. */
    method ResolveAll(refs: set<ObjectId>) returns (rs: seq<ValueId>)
      requires forall x :: x in refs ==> x in assocs
      ensures Refers(assocs, rs, refs) && forall r :: r in rs ==> r in assocs.Values
    {
      rs := [];
      var rest, done: set<ObjectId> := refs, {};
      while rest != {}
        invariant rest + done == refs && rest !! done && Refers(assocs, rs, done) && forall r :: r in rs ==>
          r in assocs.Values
        decreases |rest|
      {
        var x :| x in rest;
        rs := rs + [assocs[x]];
        rest, done := rest - {x}, done + {x};
      }
    }

    /** The objects behind some values. */
    method ObjectsOf(rs: seq<ValueId>) returns (objects: set<ObjectId>)
      requires Valid() && forall r :: r in rs ==> r in assocs.Values
      ensures Refers(assocs, rs, objects)
    {
      objects := {};
      for i := 0 to |rs|
        invariant Refers(assocs, rs[..i], objects)
      {
        assert rs[i] in rs;
        objects := objects + {metadata[rs[i]].objectId.value};
        assert rs[..i + 1] == rs[..i] + [rs[i]];
      }
      assert rs[..|rs|] == rs;
    }

    /** Compare the heap with the store: which objects are new, and which have references that changed? */
    method Scan(heap: Heap) returns (news: map<ObjectId, set<ObjectId>>, updates: map<ObjectId, Option<set<ObjectId>>>)
      requires Valid()
      ensures news.Keys == heap.Keys - assocs.Keys && forall o :: o in news ==> news[o] == Defined(heap[o], uninit)
      ensures updates.Keys <= heap.Keys * assocs.Keys
      ensures forall o :: o in updates ==> OrEmpty(updates[o]) == Defined(heap[o], uninit)
      ensures forall o :: o in heap && o in assocs && o !in updates ==>
        Synced(metadata, assocs, o, Defined(heap[o], uninit))
    {
      news, updates := map[], map[];
      var rest := heap.Keys;
      while rest != {}
        invariant rest <= heap.Keys
        invariant news.Keys == heap.Keys - rest - assocs.Keys && forall o :: o in news ==>
          news[o] == Defined(heap[o], uninit)
        invariant updates.Keys <= (heap.Keys - rest) * assocs.Keys
        invariant forall o :: o in updates ==> OrEmpty(updates[o]) == Defined(heap[o], uninit)
        invariant forall o :: o in heap && o !in rest && o in assocs && o !in updates ==>
          Synced(metadata, assocs, o, Defined(heap[o], uninit))
        decreases |rest|
      {
        var id :| id in rest;
        rest := rest - {id};
        var refs := set r | r in heap[id] && r != uninit;
        assert refs == Defined(heap[id], uninit);
        if id !in assocs {
          news := news[id := refs];
        } else {
          var update := Compare(id, refs);
          if update.Some? { updates := updates[id := update.value]; }
        }
      }
    }

    /** What to record for a known object, if anything. */
    method Compare(id: ObjectId, refs: set<ObjectId>) returns (update: Option<Option<set<ObjectId>>>)
      requires Valid() && id in assocs
      ensures update.Some? ==> OrEmpty(update.value) == refs
      ensures update.None? ==> Synced(metadata, assocs, id, refs)
    {
      var internal := metadata[assocs[id]].internalRefs;
      var found := if refs == {} then None else Some(refs);
      match (internal, found)
      case (None, None) => update := None;
      case (Some(a), Some(b)) =>
        assert a == RefsOf(metadata[assocs[id]]);
        var objects := ObjectsOf(a);
        update := if objects != b then Some(Some(b)) else None;
      case (Some(_), None) => update := Some(found);
      case (None, Some(_)) => update := Some(found);
    }

    /** Give a new object a value, with no back pointer and no references yet. */
    method AddValue(id: ObjectId, ghost blank: set<ObjectId>)
      requires Linked(size, metadata, assocs, blank) == true && id !in assocs
      modifies this
      ensures Linked(size, metadata, assocs, blank + {id}) == true && dirty == old(dirty)
      ensures Grows(old(metadata), old(assocs), metadata, assocs, {id}) == true
    {
      AddLinks(size, metadata, assocs, blank, id);
      assert size !in metadata;
      var v := Insert();
      Assoc(id, v);
    }

    /** Give each new object a value. */
    method AddValues(news: set<ObjectId>)
      requires Valid() && forall o :: o in news ==> o !in assocs
      modifies this
      ensures Linked(size, metadata, assocs, news) == true && dirty == old(dirty)
      ensures Grows(old(metadata), old(assocs), metadata, assocs, news) == true
    {
      ghost var m0, a0 := metadata, assocs;
      var rest := news;
      GrowsNot(metadata, assocs);
      while rest != {}
        invariant rest <= news && dirty == old(dirty)
        invariant Progress(size, metadata, assocs, m0, a0, news - rest) == true
        decreases |rest|
      {
        var id :| id in rest;
        ghost var m, a := metadata, assocs;
        assert id !in assocs;
        AddValue(id, news - rest);
        GrowsMore(m0, a0, m, a, metadata, assocs, news - rest, id);
        assert (news - rest) + {id} == news - (rest - {id});
        rest := rest - {id};
      }
      assert news - rest == news;
    }

    /**
     Set the references of some values, and for new ones the back pointer as
     well.
     */
    method FillAll(refs: map<ObjectId, set<ObjectId>>, adopt: bool, ghost blank: set<ObjectId>)
      requires Linked(size, metadata, assocs, blank) == true && blank <= refs.Keys <= assocs.Keys &&
        (!adopt ==> blank == {})
      requires forall o, x :: o in refs && x in refs[o] ==> x in assocs
      modifies this
      ensures Linked(size, metadata, assocs, {}) == true && assocs == old(assocs) && dirty == old(dirty)
      ensures forall o :: o in refs ==> Synced(metadata, assocs, o, refs[o])
      ensures forall o, s :: o !in refs && Synced(old(metadata), assocs, o, s) ==> Synced(metadata, assocs, o, s)
    {
      var rest := refs.Keys;
      while rest != {}
        invariant rest <= refs.Keys && assocs == old(assocs) && dirty == old(dirty)
        invariant Linked(size, metadata, assocs, blank * rest) == true
        invariant forall o :: o in refs && o !in rest ==> Synced(metadata, assocs, o, refs[o])
        invariant forall o, s :: o !in refs && Synced(old(metadata), assocs, o, s) ==> Synced(metadata, assocs, o, s)
        decreases |rest|
      {
        var id :| id in rest;
        Fill(id, refs[id], adopt, blank * rest);
        assert blank * rest - {id} == blank * (rest - {id});
        rest := rest - {id};
      }
      assert blank * rest == {};
    }

    method Fill(id: ObjectId, refs: set<ObjectId>, adopt: bool, ghost blank: set<ObjectId>)
      requires Linked(size, metadata, assocs, blank) == true && id in assocs && (id in blank ==> adopt)
      requires forall x :: x in refs ==> x in assocs
      modifies this
      ensures Linked(size, metadata, assocs, blank - {id}) == true && assocs == old(assocs) && dirty == old(dirty)
      ensures Synced(metadata, assocs, id, refs)
      ensures forall o, s :: o != id && Synced(old(metadata), assocs, o, s) ==> Synced(metadata, assocs, o, s)
    {
      var v := assocs[id];
      var rs := ResolveAll(refs);
      FillLinks(size, metadata, assocs, blank, id, rs);
      metadata := metadata[v := Meta(if adopt then Some(id) else metadata[v].objectId, Some(rs))];
      forall o, s | o != id && Synced(old(metadata), assocs, o, s) ensures Synced(metadata, assocs, o, s) {
        OthersStay(size, old(metadata), assocs, blank, id, metadata[v], o, s);
      }
    }

    /** Add the new objects, and bring these and the changed ones into step. */
    method Apply(heap: Heap, news: map<ObjectId, set<ObjectId>>, changed: map<ObjectId, set<ObjectId>>)
      requires Valid() && Closed(heap, uninit) && news.Keys == heap.Keys - assocs.Keys &&
        changed.Keys <= heap.Keys * assocs.Keys
      requires forall o :: o in news ==> news[o] == Defined(heap[o], uninit)
      requires forall o :: o in changed ==> changed[o] == Defined(heap[o], uninit)
      requires forall o :: o in heap && o in assocs && o !in changed ==>
        Synced(metadata, assocs, o, Defined(heap[o], uninit))
      modifies this
      ensures Valid() && forall o :: o in heap ==> Synced(metadata, assocs, o, Defined(heap[o], uninit))
      ensures forall o :: o in old(assocs) ==> o in assocs && assocs[o] == old(assocs)[o]
      ensures assocs.Keys <= old(assocs).Keys + heap.Keys
    {
      ghost var m, a := metadata, assocs;
      AddValues(news.Keys);
      SyncedGrows(m, a, metadata, assocs, news.Keys);
      assert heap.Keys <= assocs.Keys by {
        forall o | o in heap.Keys ensures o in assocs.Keys { assert o in a || o in news; }
      }
      FillAll(news, true, news.Keys);
      FillAll(changed, false, {});
    }

    /** `stir_the_pot`: bring the store in step with the heap, unless nothing has been run since the last time. */
    method StirThePot(heap: Heap)
      requires Valid() && Closed(heap, uninit) && (!dirty ==> Mirrors(metadata, assocs, heap, uninit))
      modifies this
      ensures Valid() && Mirrors(metadata, assocs, heap, uninit) && !dirty
      ensures forall o :: o in old(assocs) ==> o in assocs && assocs[o] == old(assocs)[o]
      ensures assocs.Keys <= old(assocs).Keys + heap.Keys
    {
      if !dirty { return; }
      var news, updates := Scan(heap);
      var changed := map o | o in updates :: OrEmpty(updates[o]);
      Apply(heap, news, changed);
      SyncedMirrors(size, metadata, assocs, heap, uninit);
      dirty := false;
    }

    /**
     Run code, which leaves another heap behind, and stir; again and again.
     `seen` is the store after each stir.
     */
    method Session(heaps: seq<Heap>) returns (ghost seen: seq<(Metas, Assocs)>)
      requires Valid() && forall i :: 0 <= i < |heaps| ==> Closed(heaps[i], uninit)
      modifies this
      ensures Valid() && |seen| == |heaps| && (|heaps| > 0 ==> seen[|heaps| - 1] == (metadata, assocs))
      ensures forall i :: 0 <= i < |heaps| ==> Mirrors(seen[i].0, seen[i].1, heaps[i], uninit)
      ensures forall i, o :: 0 <= i < |heaps| && o in seen[i].1 ==> o in assocs && assocs[o] == seen[i].1[o]
      ensures forall o :: o in old(assocs) ==> o in assocs && assocs[o] == old(assocs)[o]
    {
      seen := [];
      for i := 0 to |heaps|
        invariant Valid() && |seen| == i && (i > 0 ==> seen[i - 1] == (metadata, assocs))
        invariant forall j :: 0 <= j < i ==> Mirrors(seen[j].0, seen[j].1, heaps[j], uninit)
        invariant forall j, o :: 0 <= j < i && o in seen[j].1 ==> o in assocs && assocs[o] == seen[j].1[o]
        invariant forall o :: o in old(assocs) ==> o in assocs && assocs[o] == old(assocs)[o]
      {
        dirty := true;
        StirThePot(heaps[i]);
        seen := seen + [(metadata, assocs)];
      }
    }
  }

  /** More associations and values, and the old ones as they were. */
  ghost predicate Grows(m: Metas, a: Assocs, m1: Metas, a1: Assocs, news: set<ObjectId>) {
    && (forall o :: o in a1 <==> o in a || o in news)
    && (forall o :: o in a ==> o in a1 && a1[o] == a[o])
    && (forall v :: v in m ==> v in m1 && m1[v] == m[v])
  }

  ghost predicate Progress(size: nat, metadata: Metas, assocs: Assocs, m: Metas, a: Assocs, done: set<ObjectId>) {
    Linked(size, metadata, assocs, done) && Grows(m, a, metadata, assocs, done)
  }

  lemma {:induction false} GrowsNot(m: Metas, a: Assocs)
    ensures Grows(m, a, m, a, {})
  {
  }

  lemma {:induction false} GrowsMore(m: Metas, a: Assocs, m1: Metas, a1: Assocs, m2: Metas, a2: Assocs,
        done: set<ObjectId>, id: ObjectId)
    requires Grows(m, a, m1, a1, done) && Grows(m1, a1, m2, a2, {id})
    ensures Grows(m, a, m2, a2, done + {id})
  {
  }

  lemma {:induction false} SyncedGrows(m: Metas, a: Assocs, m1: Metas, a1: Assocs, news: set<ObjectId>)
    requires Grows(m, a, m1, a1, news)
    ensures forall o, s :: Synced(m, a, o, s) ==> Synced(m1, a1, o, s)
  {
    forall o, s | Synced(m, a, o, s) ensures Synced(m1, a1, o, s) {
      var rs := RefsOf(m[a[o]]);
      forall r | r in rs ensures exists x :: x in s && x in a1 && a1[x] == r {
        var x :| x in s && x in a && a[x] == r;
        assert a1[x] == r;
      }
    }
  }
}
