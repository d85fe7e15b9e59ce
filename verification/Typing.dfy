/**
 The registrar of types (`TypingData` in montyc_driver/src/global_context/mod.rs
 with the default methods of `TypingContext` in montyc_core/src/typing.rs).

 Each method is proved against the operation of the same name on tables.
 */
module Typing {
  import opened RawInst
  import opened SsaMap
  import opened TypeTable
  import opened Properties
  import opened TypeOps
  import opened Tuples

  class TypingData {
    const inner: SsaMap<Type>
    var clobber: map<Type, TypeId>

    ghost function Abs(): Table
      reads this, inner
    {
      Table(inner.inner, clobber)
    }

    ghost predicate Ready()
      reads this, inner
    {
      inner.Valid() && Valid(Abs()) && WellFounded(Abs())
    }

    /** `initialized`: register the builtin types at their tags and make them findable. */
    constructor ()
      ensures Ready() && fresh(inner)
      ensures |Abs().slots| == 256 && forall id :: Has(Abs(), id) ==> exists b :: id == Tag(b)
    {
      inner := new SsaMap();
      clobber := map[];
      new;
      WriteSsa();
      for id := 0 to 256
        invariant inner.Valid() && |inner.inner| == 256 &&
          (forall i :: 0 <= i < 256 ==> inner.inner[i] == InitialSlot(i))
        invariant forall ty :: ty in clobber <==> exists i: nat :: i < id && inner.inner[i] == Some(ty)
        invariant forall ty :: ty in clobber ==> clobber[ty] < id && inner.inner[clobber[ty]] == Some(ty)
      {
        var slot := inner.Get(id);
        if slot.Some? { clobber := clobber[slot.value := id]; }
      }
      InitialIsValid(Abs());
      forall id: nat | Has(Abs(), id) ensures exists b :: id == Tag(b) { BuiltinAtTag(id, |BUILTINS|); }
    }

    /** `write_ssa`: the builtin types in order, each after skipping to its tag. */
    method WriteSsa()
      requires inner.Valid() && inner.inner == []
      modifies inner
      ensures inner.Valid() && |inner.inner| == 256 && forall i :: 0 <= i < 256 ==> inner.inner[i] == InitialSlot(i)
    {
      var empty := inner.IsEmpty();
      assert empty;
      for j := 0 to |BUILTINS|
        invariant inner.Valid() && |inner.inner| == (if j == 0 then 0 else Tag(BUILTINS[j - 1]) + 1)
        invariant forall i :: 0 <= i < |inner.inner| ==> inner.inner[i] == InitialSlot(i)
      {
        var tag := Tag(BUILTINS[j]);
        TagsIncrease(j);
        var ok := inner.SkipToNth(tag);
        assert ok;
        var key := inner.Insert(Bare(Basic(BUILTINS[j])));
        assert key == tag;
      }
      GapIsEmpty(|BUILTINS|);
      var ok := inner.SkipToNth(256);
      assert ok;
    }

    /** `insert` */
    method InsertType(ty: Type) returns (id: TypeId)
      requires inner.Valid()
      modifies this, inner
      ensures inner.Valid() && (Abs(), id) == Insert(old(Abs()), ty)
    {
      if ty in clobber { return clobber[ty]; }
      id := inner.Insert(ty);
      clobber := clobber[ty := id];
    }

    /** `insert_property` */
    method InsertProperty(base: TypeId, name: string, p: Property) returns (previous: Option<Property>)
      requires inner.Valid()
      modifies this, inner
      ensures inner.Valid() && Abs() == SetProperty(old(Abs()), base, name, p)
      ensures previous == OwnProperty(old(Abs()), base, name)
    {
      var slot := inner.Get(base);
      if slot.None? { return None; }
      var ty := slot.value;
      previous := if name in ty.properties then Some(ty.properties[name]) else None;
      ty := ty.(properties := ty.properties[name := p]);
      inner.Update(base, ty);
      clobber := clobber[ty := base];
    }

    /** `get_property` */
    method PropertyOf(base: TypeId, name: string) returns (p: Option<Property>)
      requires inner.Valid() && Has(Abs(), base)
      modifies this, inner
      ensures inner.Valid() && (Abs(), p) == GetProperty(old(Abs()), base, name)
      ensures Valid(old(Abs())) ==> Finds(old(Abs()), base, name, p)
    {
      if Valid(Abs()) { PropertyIsFound(Abs(), base, name); }
      var ty := inner.Get(base).value;
      if name in ty.properties { return Some(ty.properties[name]); }
      var klass := InsertType(Bare(TypeOf(base)));
      var repr := inner.Get(klass);
      if repr.None? || name !in repr.value.properties { return None; }
      return Some(repr.value.properties[name]);
    }

    method AddMethodTo(base: TypeId, name: string, params: seq<TypeId>, ret: TypeId)
      requires inner.Valid()
      modifies this, inner
      ensures inner.Valid() && Abs() == AddMethod(old(Abs()), base, name, params, ret)
    {
      var sig := InsertType(Bare(Callable(Some(params), ret)));
      var _ := InsertProperty(base, name, Property(sig, ByName(base, name)));
    }

    /** `tuple` */
    method MakeTuple(elements: seq<TypeId>) returns (id: TypeId)
      requires Ready() && Known(Abs(), elements)
      modifies this, inner
      ensures Ready() && (Abs(), id) == TupleType(old(Abs()), elements)
    {
      TupleIsMade(Abs(), elements);
      id := InsertType(Bare(Kind.Tuple(OptMembers(elements))));
      var uniq := Unique(elements);
      var elem;
      if |uniq| == 0 {
        elem := Tag(Never);
      } else if |uniq| == 1 {
        elem := uniq[0];
      } else {
        elem := InsertType(Bare(Union(Some(uniq))));
      }
      AddMethodTo(id, "__getitem__", [id, Tag(Int)], elem);
      AddMethodTo(id, "__setitem__", [id, Tag(Int), StoredType(elements, elem)], Tag(NoneT));
    }

    /** `make_union`: the members come out of a hash set, in an order that is not known. */
    method MakeUnion(l: TypeId, r: TypeId) returns (id: Option<TypeId>)
      requires Ready()
      modifies this, inner
      ensures Ready() && Extends(old(Abs()), Abs())
      ensures id.Some? <==> Has(old(Abs()), l) && Has(old(Abs()), r)
      ensures id.None? ==> Abs() == old(Abs())
      ensures id.Some? ==>
        Has(Abs(), id.value) && Denote(Abs(), id.value) == Denote(old(Abs()), l) + Denote(old(Abs()), r)
      ensures id.Some? && LayoutOf(old(Abs()), l).Some? && LayoutOf(old(Abs()), r).Some? ==>
                LayoutOf(Abs(), id.value).Some?
                && LayoutOf(Abs(), id.value).value.size ==
                  Max(LayoutOf(old(Abs()), l).value.size, LayoutOf(old(Abs()), r).value.size)
    {
      var lhs, rhs := inner.Get(l), inner.Get(r);
      if lhs.None? || rhs.None? { return None; }
      ghost var t := Abs();
      var members := (set x | x in PartsOf(l, lhs.value.kind)) + (set x | x in PartsOf(r, rhs.value.kind));
      var ms := Listing(members);
      assert Lists(t, l, r, ms);
      UnionDenotesUnion(t, l, r, ms);
      if LayoutOf(t, l).Some? && LayoutOf(t, r).Some? { UnionSize(t, l, r, ms); }
      var u := InsertType(Bare(UnionKind(ms)));
      return Some(u);
    }

    /** `unify_func` */
    method UnifyFunc(func: TypeId, args: seq<TypeId>, ret: TypeId) returns (r: Unification)
      requires Has(Abs(), func)
      ensures r == Unify(Abs(), func, args, ret)
    {
      var kind := inner.Get(func).value.kind;
      if !kind.Callable? { return NotCallable; }
      var params := Members(kind.params);
      if |params| != |args| || (ret != Tag(Unknown) && kind.ret != ret) { return UnequalArity(|params|, |args|); }
      var errors;
      if |params| > 0 && params[0] == Tag(TSelf) {
        errors := CompareArgs(params[1..], args[1..]);
      } else {
        errors := CompareArgs(params, args);
      }
      return if |errors| == 0 then Unified(kind) else BadArguments(errors);
    }
  }

  /** Compare parameters and arguments one by one. */
  method CompareArgs(params: seq<TypeId>, args: seq<TypeId>) returns (errors: seq<(nat, TypeId, TypeId)>)
    requires |params| == |args|
    ensures errors == Mismatches(params, args, 0)
  {
    errors := [];
    for i := 0 to |params|
      invariant errors + Mismatches(params[i..], args[i..], i) == Mismatches(params, args, 0)
    {
      MismatchStep(params, args, i, errors);
      if params[i] != Tag(Unknown) && params[i] != args[i] { errors := errors + [(i, params[i], args[i])]; }
    }
  }

  lemma {:induction false} MismatchStep(ps: seq<TypeId>, xs: seq<TypeId>, i: nat, errors: seq<(nat, TypeId, TypeId)>)
    requires i < |ps| == |xs|
    ensures errors + Mismatches(ps[i..], xs[i..], i)
         == (if ps[i] != Tag(Unknown) && ps[i] != xs[i] then errors + [(i, ps[i], xs[i])] else errors)
           + Mismatches(ps[i + 1..], xs[i + 1..], i + 1)
  {
    assert ps[i..][1..] == ps[i + 1..] && xs[i..][1..] == xs[i + 1..];
  }

  function PartsOf(id: TypeId, k: Kind): seq<TypeId> {
    if k.Union? then Members(k.members) else [id]
  }

  /** Take the elements of a set in any order. */
  method Listing(s: set<TypeId>) returns (ms: seq<TypeId>)
    ensures (forall x :: x in ms <==> x in s) && |ms| == |s|
  {
    ms := [];
    var rest := s;
    while rest != {}
      invariant rest <= s && (forall x :: x in ms <==> x in s && x !in rest) && |ms| + |rest| == |s|
      decreases |rest|
    {
      var x :| x in rest;
      ms, rest := ms + [x], rest - {x};
    }
  }

  /** The first `n` builtin types are listed in the order of their tags. */
  predicate TagsSorted(n: nat)
    requires n <= |BUILTINS|
  {
    n <= 1 || (Tag(BUILTINS[n - 2]) < Tag(BUILTINS[n - 1]) && TagsSorted(n - 1))
  }

  lemma {:induction false} TagsLess(a: nat, b: nat, n: nat)
    requires a < b < n <= |BUILTINS| && TagsSorted(n)
    ensures Tag(BUILTINS[a]) < Tag(BUILTINS[b])
    decreases n
  {
    if b < n - 1 { TagsLess(a, b, n - 1); } else if a < b - 1 { TagsLess(a, b - 1, n - 1); }
  }

  lemma {:induction false} AllTagsSorted()
    ensures TagsSorted(|BUILTINS|)
  {
    assert TagsSorted(3) && TagsSorted(6) && TagsSorted(9) && TagsSorted(12) && TagsSorted(15) && TagsSorted(18) &&
      TagsSorted(21);
  }

  /** Between two builtin types there is nothing. */
  lemma {:induction false} TagsIncrease(j: nat)
    requires j < |BUILTINS|
    ensures j > 0 ==> Tag(BUILTINS[j - 1]) < Tag(BUILTINS[j])
    ensures InitialSlot(Tag(BUILTINS[j])) == Some(Bare(Basic(BUILTINS[j])))
    ensures forall i :: (if j == 0 then 0 else Tag(BUILTINS[j - 1]) + 1) <= i < Tag(BUILTINS[j]) ==>
      InitialSlot(i) == None
  {
    AllTagsSorted();
    if j > 0 { TagsLess(j - 1, j, |BUILTINS|); }
    BuiltinAtTag(Tag(BUILTINS[j]), |BUILTINS|);
    TagInjective(BUILTINS[j], BuiltinAt(Tag(BUILTINS[j]), |BUILTINS|).value);
    forall i | (if j == 0 then 0 else Tag(BUILTINS[j - 1]) + 1) <= i < Tag(BUILTINS[j]) ensures InitialSlot(i) == None {
      forall m | 0 <= m < |BUILTINS| ensures Tag(BUILTINS[m]) != i {
        if m < j - 1 { TagsLess(m, j - 1, |BUILTINS|); }
        if j < m { TagsLess(j, m, |BUILTINS|); }
      }
      BuiltinAtTag(i, |BUILTINS|);
    }
  }

  lemma {:induction false} GapIsEmpty(n: nat)
    requires n == |BUILTINS|
    ensures Tag(BUILTINS[n - 1]) == 255
  {
  }
}
