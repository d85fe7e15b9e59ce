/**
 Looking properties up: on a type, and else on the class of the type
 (`get_property` and `LazyPropertyAccess` in montyc_core/src/typing.rs).
 */
module Properties {
  import opened RawInst
  import opened TypeTable

  /** The property that a type itself has. */
  function OwnProperty(t: Table, id: TypeId, name: string): Option<Property> {
    if Has(t, id) && name in t.slots[id].value.properties then Some(t.slots[id].value.properties[name]) else None
  }

  predicate IsClassOf(t: Table, klass: TypeId, base: TypeId) {
    Has(t, klass) && KindOf(t, klass) == TypeOf(base)
  }

  /** The right answer: an own property, else one of the class, else nothing. */
  ghost predicate Finds(t: Table, base: TypeId, name: string, p: Option<Property>) {
    && (OwnProperty(t, base, name).Some? ==> p == OwnProperty(t, base, name))
    && (OwnProperty(t, base, name).None? ==> forall klass :: IsClassOf(t, klass, base) ==>
          p == OwnProperty(t, klass, name))
    && (p.Some? ==>
          || p == OwnProperty(t, base, name)
          || exists klass :: IsClassOf(t, klass, base) && p == OwnProperty(t, klass, name))
  }

  /** An own property wins, a property of the class is found, and there is none exactly when neither has it. */
  lemma {:induction false} PropertyIsFound(t: Table, base: TypeId, name: string)
    requires Valid(t) && Has(t, base)
    ensures Finds(t, base, name, GetProperty(t, base, name).1)
  {
    var (u, klass) := Insert(t, Bare(TypeOf(base)));
    InsertKeeps(t, TypeOf(base));
    forall k | IsClassOf(t, k, base) ensures k == klass && u == t {
      assert t.clobber[Bare(KindOf(t, k))] == k;
    }
    if Bare(TypeOf(base)) in t.clobber { assert IsClassOf(t, klass, base); }
  }

  /** Looking up changes no property of any type. */
  lemma {:induction false} LookupKeepsProperties(t: Table, base: TypeId, name: string, id: TypeId, other: string)
    requires Valid(t) && Has(t, base)
    ensures OwnProperty(GetProperty(t, base, name).0, id, other) == OwnProperty(t, id, other)
  {
  }

  /** Setting a property sets that one and no other. */
  lemma {:induction false} SetIsOwn(t: Table, base: TypeId, name: string, p: Property, id: TypeId, other: string)
    requires Valid(t)
    ensures OwnProperty(SetProperty(t, base, name, p), id, other) ==
      if Has(t, base) && id == base && other == name then Some(p) else OwnProperty(t, id, other)
  {
  }

  /**
   What is set on the class of a type is found on the type, unless the type has a
   property of that name; this is how the builtin types get their methods.
   */
  lemma {:induction false} SetOnClassIsFound(t: Table, base: TypeId, name: string, p: Property)
    requires Valid(t) && WellFounded(t) && Has(t, base)
    ensures var (t1, klass) := Insert(t, Bare(TypeOf(base)));
      var t2 := SetProperty(t1, klass, name, p);
      && Valid(t2) && Has(t2, base)
      && GetProperty(t2, base, name).1 ==
        if OwnProperty(t, base, name).Some? then OwnProperty(t, base, name) else Some(p)
  {
    InsertKeeps(t, TypeOf(base));
    var (t1, klass) := Insert(t, Bare(TypeOf(base)));
    var t2 := SetProperty(t1, klass, name, p);
    SetPropertyKeeps(t1, klass, name, p);
    PropertyIsFound(t2, base, name);
    assert IsClassOf(t2, klass, base);
    assert klass != base by {
      if Bare(TypeOf(base)) in t.clobber { assert Mentions(KindOf(t, klass))[0] == base; }
    }
    SetIsOwn(t1, klass, name, p, base, name);
    SetIsOwn(t1, klass, name, p, klass, name);
  }
}
