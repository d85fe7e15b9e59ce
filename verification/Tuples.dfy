/**
 Tuple types, their subscript methods, and unification
 (`tuple` and `unify_func` in montyc_core/src/typing.rs).
 */
module Tuples {
  import opened RawInst
  import opened TypeTable
  import opened TypeOps

  // ---- sorting and dropping duplicates ----

  ghost predicate Increasing(s: seq<TypeId>) {
    forall i, j :: 0 <= i < j < |s| ==> s[i] < s[j]
  }

  function Place(s: seq<TypeId>, x: TypeId): seq<TypeId> {
    if |s| == 0 || x < s[0] then [x] + s
    else if x == s[0] then s
    else [s[0]] + Place(s[1..], x)
  }

  /** The elements in increasing order, each once. */
  function Unique(s: seq<TypeId>): seq<TypeId> {
    if |s| == 0 then [] else Place(Unique(s[1..]), s[0])
  }

  lemma {:induction false} PlaceIs(s: seq<TypeId>, x: TypeId)
    requires Increasing(s)
    ensures Increasing(Place(s, x)) && forall y :: y in Place(s, x) <==> y in s || y == x
    decreases |s|
  {
    if |s| > 0 && x > s[0] {
      PlaceIs(s[1..], x);
      var rest := Place(s[1..], x);
      assert s == [s[0]] + s[1..];
      forall i | 0 <= i < |rest| ensures s[0] < rest[i] { assert rest[i] in rest; }
    }
  }

  lemma {:induction false} UniqueIs(s: seq<TypeId>)
    ensures Increasing(Unique(s)) && forall y :: y in Unique(s) <==> y in s
    decreases |s|
  {
    if |s| > 0 {
      UniqueIs(s[1..]);
      PlaceIs(Unique(s[1..]), s[0]);
      assert s == [s[0]] + s[1..];
    }
  }

  lemma {:induction false} HasFirst(s: seq<TypeId>)
    requires |s| > 0
    ensures exists x :: x in s
  {
    assert s[0] in s;
  }

  /** An increasing sequence is determined by its elements. */
  lemma {:induction false} IncreasingDetermined(a: seq<TypeId>, b: seq<TypeId>)
    requires Increasing(a) && Increasing(b) && forall x :: x in a <==> x in b
    ensures a == b
    decreases |a|
  {
    if |a| == 0 {
      if |b| > 0 { HasFirst(b); assert false; }
    } else {
      assert a[0] in a && a[0] in b;
      assert b[0] in b && b[0] in a;
      assert a[0] == b[0];
      assert a == [a[0]] + a[1..] && b == [b[0]] + b[1..];
      forall x ensures x in a[1..] <==> x in b[1..] {
        assert x in a[1..] ==> x in a && x > a[0];
        assert x in b[1..] ==> x in b && x > b[0];
      }
      IncreasingDetermined(a[1..], b[1..]);
    }
  }

  // ---- tuple ----

  function OptMembers(elements: seq<TypeId>): Option<seq<TypeId>> {
    if |elements| == 0 then None else Some(elements)
  }

  /** The type of an element picked by an index that is not known. */
  function ElementType(t: Table, elements: seq<TypeId>): (Table, TypeId) {
    var uniq := Unique(elements);
    if |uniq| == 0 then (t, Tag(Never))
    else if |uniq| == 1 then (t, uniq[0])
    else Insert(t, Bare(Union(Some(uniq))))
  }

  /** Give a type a builtin method with this signature. */
  function AddMethod(t: Table, base: TypeId, name: string, params: seq<TypeId>, ret: TypeId): Table {
    var (t1, sig) := Insert(t, Bare(Callable(Some(params), ret)));
    SetProperty(t1, base, name, Property(sig, ByName(base, name)))
  }

  /** The type that the third parameter of `__setitem__` has. */
  function StoredType(elements: seq<TypeId>, elem: TypeId): TypeId {
    if |elements| == 0 then Tag(AnyType) else elem
  }

  /** Give a tuple type its methods. */
  function AddSubscripts(t: Table, id: TypeId, elements: seq<TypeId>, elem: TypeId): Table {
    var t1 := AddMethod(t, id, "__getitem__", [id, Tag(Int)], elem);
    AddMethod(t1, id, "__setitem__", [id, Tag(Int), StoredType(elements, elem)], Tag(NoneT))
  }

  function TupleType(t: Table, elements: seq<TypeId>): (Table, TypeId) {
    var (t1, id) := Insert(t, Bare(Kind.Tuple(OptMembers(elements))));
    var (t2, elem) := ElementType(t1, elements);
    (AddSubscripts(t2, id, elements, elem), id)
  }

  // ---- unify_func ----

  datatype Unification =
    | Unified(kind: Kind)
    | NotCallable
    | UnequalArity(expected: nat, actual: nat)
    | BadArguments(errors: seq<(nat, TypeId, TypeId)>)

  /** The positions, counted from `from`, at which an argument has the wrong type. */
  function Mismatches(params: seq<TypeId>, args: seq<TypeId>, from: nat): seq<(nat, TypeId, TypeId)>
    decreases |params|, args, from
  {
    if |params| == 0 || |args| == 0 then []
    else
      (if params[0] != Tag(Unknown) && params[0] != args[0] then [(from, params[0], args[0])] else [])
      + Mismatches(params[1..], args[1..], from + 1)
  }

  function Unify(t: Table, func: TypeId, args: seq<TypeId>, ret: TypeId): Unification
    requires Has(t, func)
  {
    match KindOf(t, func)
    case Callable(ps, r) =>
      var params := Members(ps);
      if |params| != |args| || (ret != Tag(Unknown) && r != ret) then UnequalArity(|params|, |args|)
      else
        var bound := |params| > 0 && params[0] == Tag(TSelf);
        var errors := if bound then Mismatches(params[1..], args[1..], 0) else Mismatches(params, args, 0);
        if |errors| == 0 then Unified(KindOf(t, func)) else BadArguments(errors)
    case _ => NotCallable
  }

  /** A parameter takes an argument. */
  predicate Takes(param: TypeId, arg: TypeId) {
    param == Tag(Unknown) || param == arg
  }

  lemma {:induction false} NoMismatches(params: seq<TypeId>, args: seq<TypeId>, from: nat)
    requires |params| == |args|
    ensures Mismatches(params, args, from) == [] <==> forall i :: 0 <= i < |params| ==> Takes(params[i], args[i])
    decreases |params|
  {
    if |params| > 0 {
      NoMismatches(params[1..], args[1..], from + 1);
      if forall i :: 0 <= i < |params[1..]| ==> Takes(params[1..][i], args[1..][i]) {
        forall i | 0 < i < |params| ensures Takes(params[i], args[i]) {
          assert Takes(params[1..][i - 1], args[1..][i - 1]);
        }
      }
    }
  }

  /**
   Unification succeeds exactly on callables of this arity and result whose parameters take
   the arguments, `self` taking anything.
   */
  lemma {:induction false} UnifiesExactly(t: Table, func: TypeId, args: seq<TypeId>, ret: TypeId)
    requires Has(t, func)
    ensures Unify(t, func, args, ret).Unified? <==>
            var k := KindOf(t, func);
            && k.Callable? && |Members(k.params)| == |args| && Takes(ret, k.ret)
            && (forall i :: 0 <= i < |args| ==>
                  Takes(Members(k.params)[i], args[i]) || (i == 0 && Members(k.params)[0] == Tag(TSelf)))
    ensures Unify(t, func, args, ret).Unified? ==> Unify(t, func, args, ret).kind == KindOf(t, func)
  {
    var k := KindOf(t, func);
    if k.Callable? && |Members(k.params)| == |args| {
      var params := Members(k.params);
      if |params| > 0 && params[0] == Tag(TSelf) {
        NoMismatches(params[1..], args[1..], 0);
        forall i | 0 < i < |params| ensures params[i] == params[1..][i - 1] && args[i] == args[1..][i - 1] { }
      } else {
        NoMismatches(params, args, 0);
      }
    }
  }

  // ---- subscripting always type checks ----

  lemma {:induction false} ElementKeeps(t: Table, elements: seq<TypeId>)
    requires Valid(t) && WellFounded(t) && Known(t, elements)
    ensures var (u, e) := ElementType(t, elements);
      && Valid(u) && WellFounded(u) && Extends(t, u) && Has(u, e)
      && (|elements| == 0 ==> e == Tag(Never))
      && (|elements| > 0 ==> forall x :: x in Denote(u, e) <==>
            exists i :: 0 <= i < |elements| && x in Denote(t, elements[i]))
  {
    var uniq := Unique(elements);
    UniqueIs(elements);
    var (u, e) := ElementType(t, elements);
    if |elements| == 0 { assert uniq == []; } else { assert elements[0] in uniq; }
    forall i | 0 <= i < |uniq| ensures Has(t, uniq[i]) { assert uniq[i] in elements; }
    if |uniq| > 1 {
      InsertKeeps(t, Union(Some(uniq)));
      InsertKeepsFounded(t, Union(Some(uniq)));
    }
    if |elements| > 0 {
      forall x ensures x in Denote(u, e) <==> exists i :: 0 <= i < |elements| && x in Denote(t, elements[i]) {
        ElementDenotes(t, u, e, elements, uniq, x);
      }
    }
  }

  lemma {:induction false} ElementDenotes(t: Table, u: Table, e: TypeId, elements: seq<TypeId>, uniq: seq<TypeId>,
        x: TypeId)
    requires WellFounded(t) && WellFounded(u) && Extends(t, u) && Known(t, elements) && Has(u, e)
    requires |uniq| > 0 && (forall y :: y in uniq <==> y in elements)
    requires if |uniq| == 1 then e == uniq[0] else KindOf(u, e) == Union(Some(uniq))
    ensures x in Denote(u, e) <==> exists i :: 0 <= i < |elements| && x in Denote(t, elements[i])
  {
    assert x in Denote(u, e) <==> exists p :: p in uniq && Has(u, p) && x in Denote(u, p) by {
      if |uniq| > 1 { PartsDenote(u, e, x); assert Parts(u, e) == uniq; } else { assert e in uniq; }
    }
    forall i | 0 <= i < |elements|
      ensures elements[i] in uniq && Has(u, elements[i]) && Denote(u, elements[i]) == Denote(t, elements[i]) {
      DenoteStable(t, u, elements[i]);
      assert elements[i] in elements;
    }
  }

  /** The type as it stands can be found again. */
  predicate Recorded(t: Table, id: TypeId)
    requires Has(t, id)
  {
    t.slots[id].value in t.clobber
  }

  /** The type has a method of this name and signature. */
  predicate HasMethod(t: Table, base: TypeId, name: string, params: seq<TypeId>, ret: TypeId)
    requires Has(t, base)
  {
    var ps := t.slots[base].value.properties;
    && name in ps && Has(t, ps[name].typeId)
    && KindOf(t, ps[name].typeId) == Callable(Some(params), ret) && ps[name].value == ByName(base, name)
  }

  lemma {:induction false} MethodKeeps(t: Table, base: TypeId, name: string, params: seq<TypeId>, ret: TypeId)
    requires Valid(t) && WellFounded(t) && Has(t, base) && Known(t, params + [ret])
    ensures var u := AddMethod(t, base, name, params, ret);
      && Valid(u) && WellFounded(u) && Extends(t, u) && Recorded(u, base) && HasMethod(u, base, name, params, ret)
      && (forall other, ps, r :: other != name && HasMethod(t, base, other, ps, r) ==> HasMethod(u, base, other, ps, r))
  {
    var k := Callable(Some(params), ret);
    InsertKeeps(t, k);
    InsertKeepsFounded(t, k);
    var (t1, sig) := Insert(t, Bare(k));
    SetPropertyKeeps(t1, base, name, Property(sig, ByName(base, name)));
  }

  /** Adding a method that is there changes nothing. */
  lemma {:induction false} MethodAgain(t: Table, base: TypeId, name: string, params: seq<TypeId>, ret: TypeId)
    requires Valid(t) && Has(t, base) && Recorded(t, base) && HasMethod(t, base, name, params, ret)
    ensures AddMethod(t, base, name, params, ret) == t
  {
    var ty := t.slots[base].value;
    var sig := ty.properties[name].typeId;
    assert Insert(t, Bare(Callable(Some(params), ret))) == (t, sig);
    assert ty.(properties := ty.properties[name := Property(sig, ByName(base, name))]) == ty;
    assert t.clobber[ty] == base by {
      IdsAreKinds(t, t.clobber[ty], base);
    }
    assert t.slots[base := Some(ty)] == t.slots && t.clobber[ty := base] == t.clobber;
  }

  /** What `tuple` leaves behind. */
  ghost predicate TupleMade(u: Table, elements: seq<TypeId>, id: TypeId, elem: TypeId) {
    && Valid(u) && WellFounded(u) && Has(u, id) && KindOf(u, id) == Kind.Tuple(OptMembers(elements)) && Recorded(u, id)
    && ElementType(u, elements) == (u, elem)
    && HasMethod(u, id, "__getitem__", [id, Tag(Int)], elem)
    && HasMethod(u, id, "__setitem__", [id, Tag(Int), StoredType(elements, elem)], Tag(NoneT))
  }

  /** Once the element type is known, looking it up again finds it. */
  lemma {:induction false} ElementAgain(t: Table, u: Table, elements: seq<TypeId>)
    requires Valid(t) && Valid(u) && Extends(ElementType(t, elements).0, u)
    ensures ElementType(u, elements) == (u, ElementType(t, elements).1)
  {
    var uniq := Unique(elements);
    if |uniq| > 1 {
      InsertKeeps(t, Union(Some(uniq)));
      var (t1, e) := ElementType(t, elements);
      assert Has(u, e) && KindOf(u, e) == Union(Some(uniq));
    }
  }

  lemma {:induction false} SubscriptsAdded(t: Table, id: TypeId, elements: seq<TypeId>, elem: TypeId)
    requires Valid(t) && WellFounded(t) && Has(t, id) && Has(t, elem)
    ensures var u := AddSubscripts(t, id, elements, elem);
      && Valid(u) && WellFounded(u) && Extends(t, u) && Has(u, id) && Recorded(u, id)
      && HasMethod(u, id, "__getitem__", [id, Tag(Int)], elem)
      && HasMethod(u, id, "__setitem__", [id, Tag(Int), StoredType(elements, elem)], Tag(NoneT))
  {
    GetterAdded(t, id, elem);
    var t1 := AddMethod(t, id, "__getitem__", [id, Tag(Int)], elem);
    SetterAdded(t1, id, StoredType(elements, elem), elem);
    ExtendsThen(t, t1, AddSubscripts(t, id, elements, elem));
  }

  lemma {:induction false} ExtendsThen(t: Table, u: Table, v: Table)
    requires Extends(t, u) && Extends(u, v)
    ensures Extends(t, v)
  {
  }

  lemma {:induction false} GetterAdded(t: Table, id: TypeId, elem: TypeId)
    requires Valid(t) && WellFounded(t) && Has(t, id) && Has(t, elem)
    ensures var u := AddMethod(t, id, "__getitem__", [id, Tag(Int)], elem);
      && Valid(u) && WellFounded(u) && Extends(t, u) && Has(u, id) && Has(u, elem) && Has(u, Tag(AnyType))
      && HasMethod(u, id, "__getitem__", [id, Tag(Int)], elem)
  {
    assert Known(t, [id, Tag(Int)] + [elem]);
    MethodKeeps(t, id, "__getitem__", [id, Tag(Int)], elem);
  }

  lemma {:induction false} SetterAdded(t: Table, id: TypeId, stored: TypeId, elem: TypeId)
    requires Valid(t) && WellFounded(t) && Has(t, id) && Has(t, stored)
    requires HasMethod(t, id, "__getitem__", [id, Tag(Int)], elem)
    ensures var u := AddMethod(t, id, "__setitem__", [id, Tag(Int), stored], Tag(NoneT));
      && Valid(u) && WellFounded(u) && Extends(t, u) && Has(u, id) && Recorded(u, id)
      && HasMethod(u, id, "__getitem__", [id, Tag(Int)], elem)
      && HasMethod(u, id, "__setitem__", [id, Tag(Int), stored], Tag(NoneT))
  {
    assert Known(t, [id, Tag(Int), stored] + [Tag(NoneT)]);
    MethodKeeps(t, id, "__setitem__", [id, Tag(Int), stored], Tag(NoneT));
  }

  lemma {:induction false} TupleIsMade(t: Table, elements: seq<TypeId>)
    requires Valid(t) && WellFounded(t) && Known(t, elements)
    ensures var (u, id) := TupleType(t, elements);
      Extends(t, u) && TupleMade(u, elements, id, ElementType(u, elements).1)
  {
    var k := Kind.Tuple(OptMembers(elements));
    InsertKeeps(t, k);
    InsertKeepsFounded(t, k);
    var (t1, id) := Insert(t, Bare(k));
    ElementKeeps(t1, elements);
    var (t2, elem) := ElementType(t1, elements);
    SubscriptsAdded(t2, id, elements, elem);
    ElementAgain(t1, AddSubscripts(t2, id, elements, elem), elements);
  }

  /** The signature of the subscript method of a type. */
  function SubscriptOf(t: Table, id: TypeId): Option<TypeId> {
    if !Has(t, id) then None
    else
      match GetProperty(t, id, "__getitem__").1
      case None => None
      case Some(p) => Some(p.typeId)
  }

  /** Subscripting a tuple type `id` of the elements with an `int` type checks and gives `elem`. */
  ghost predicate SubscriptsTo(u: Table, id: TypeId, elem: TypeId) {
    && SubscriptOf(u, id).Some? && Has(u, SubscriptOf(u, id).value) && Has(u, elem)
    && Unify(u, SubscriptOf(u, id).value, [id, Tag(Int)], Tag(Unknown)) == Unified(Callable(Some([id, Tag(Int)]), elem))
  }

  lemma {:induction false} MadeSubscripts(u: Table, elements: seq<TypeId>, id: TypeId, elem: TypeId)
    requires TupleMade(u, elements, id, elem)
    ensures SubscriptsTo(u, id, elem)
  {
    var sig := SubscriptOf(u, id).value;
    UnifiesExactly(u, sig, [id, Tag(Int)], Tag(Unknown));
    assert Mentions(KindOf(u, sig))[2] == elem;
  }

  /**
   For every list of existing types, the subscript method of their tuple type
   unifies with a tuple and an `int`, and its result denotes exactly what the
   elements denote; the empty tuple answers `never`.
   */
  lemma {:induction false} SubscriptTypeChecks(t: Table, elements: seq<TypeId>, u: Table, id: TypeId)
    returns (elem: TypeId)
    requires Valid(t) && WellFounded(t) && Known(t, elements) && (u, id) == TupleType(t, elements)
    ensures WellFounded(u) && Extends(t, u) && SubscriptsTo(u, id, elem) && elem == ElementType(u, elements).1
    ensures |elements| == 0 ==> elem == Tag(Never)
    ensures |elements| > 0 ==> forall x :: x in Denote(u, elem) <==>
      exists i :: 0 <= i < |elements| && x in Denote(t, elements[i])
  {
    TupleIsMade(t, elements);
    elem := ElementType(u, elements).1;
    MadeSubscripts(u, elements, id, elem);
    forall i | 0 <= i < |elements| ensures Has(u, elements[i]) && Denote(u, elements[i]) == Denote(t, elements[i]) {
      DenoteStable(t, u, elements[i]);
    }
    ElementKeeps(u, elements);
  }

  /** Making the same tuple type again answers with the same id and leaves the table as it is. */
  lemma {:induction false} TupleAgain(t: Table, elements: seq<TypeId>)
    requires Valid(t) && WellFounded(t) && Known(t, elements)
    ensures var (u, id) := TupleType(t, elements); TupleType(u, elements) == (u, id)
  {
    TupleIsMade(t, elements);
    var (u, id) := TupleType(t, elements);
    var elem := ElementType(u, elements).1;
    assert Insert(u, Bare(Kind.Tuple(OptMembers(elements)))) == (u, id);
    MethodAgain(u, id, "__getitem__", [id, Tag(Int)], elem);
    MethodAgain(u, id, "__setitem__", [id, Tag(Int), StoredType(elements, elem)], Tag(NoneT));
  }

  lemma {:induction false} TupleListsElements(t: Table, elements: seq<TypeId>, u: Table, id: TypeId)
    requires Valid(t) && WellFounded(t) && Known(t, elements) && (u, id) == TupleType(t, elements)
    ensures Valid(u) && WellFounded(u) && Extends(t, u) && Has(u, id) && ListsElements(u, id, elements)
  {
    TupleIsMade(t, elements);
  }

  /** A tuple type of exactly these elements. */
  predicate ListsElements(t: Table, id: TypeId, elements: seq<TypeId>)
    requires Has(t, id)
  {
    KindOf(t, id).Tuple? && Members(KindOf(t, id).members) == elements &&
    (KindOf(t, id).members.None? <==> elements == [])
  }

  /** The type of a tuple lists its elements, so different lists are different types. */
  lemma {:induction false} TupleIdsAreElements(t: Table, a: seq<TypeId>, u: Table, i: TypeId, b: seq<TypeId>, v: Table,
        j: TypeId)
    requires Valid(t) && WellFounded(t) && Known(t, a) && Known(t, b)
    requires (u, i) == TupleType(t, a) && (v, j) == TupleType(u, b)
    ensures Has(v, i) && Has(v, j) && ListsElements(v, i, a) && ListsElements(v, j, b)
    ensures i == j <==> a == b
  {
    TupleListsElements(t, a, u, i);
    KnownStill(t, u, b);
    TupleListsElements(u, b, v, j);
    TellElements(u, a, i, v, b, j);
  }

  lemma {:induction false} KnownStill(t: Table, u: Table, ids: seq<TypeId>)
    requires Extends(t, u) && Known(t, ids)
    ensures Known(u, ids)
  {
  }

  lemma {:induction false} TellElements(u: Table, a: seq<TypeId>, i: TypeId, v: Table, b: seq<TypeId>, j: TypeId)
    requires Valid(v) && Extends(u, v) && Has(u, i) && ListsElements(u, i, a) && Has(v, j) && ListsElements(v, j, b)
    ensures Has(v, i) && ListsElements(v, i, a) && (i == j <==> a == b)
  {
    assert KindOf(v, i) == KindOf(u, i);
    IdsAreKinds(v, i, j);
  }

  /** Tuples of the same element types, in whatever order and number, subscript to the same type. */
  lemma {:induction false} ReorderingKeepsElementType(t: Table, a: seq<TypeId>, b: seq<TypeId>)
    requires Valid(t) && WellFounded(t) && Known(t, a) && forall x :: x in a <==> x in b
    ensures var u := TupleType(t, a).0;
      ElementType(TupleType(u, b).0, b).1 == ElementType(u, a).1
  {
    UniqueIs(a);
    UniqueIs(b);
    IncreasingDetermined(Unique(a), Unique(b));
    TupleIsMade(t, a);
    var u := TupleType(t, a).0;
    forall i | 0 <= i < |b| ensures Has(u, b[i]) { assert b[i] in b; }
    TupleIsMade(u, b);
    assert ElementType(u, b) == ElementType(u, a);
    ElementAgain(u, TupleType(u, b).0, b);
  }

  // ---- what unification reports ----

  /** The mismatches are exactly the arguments that are not taken, each with its position and both types. */
  lemma {:induction false} MismatchesAre(params: seq<TypeId>, args: seq<TypeId>, from: nat, e: (nat, TypeId, TypeId))
    requires |params| == |args|
    ensures e in Mismatches(params, args, from) <==>
      exists i :: 0 <= i < |params| && !Takes(params[i], args[i]) && e == (from + i, params[i], args[i])
    decreases |params|
  {
    if |params| > 0 {
      MismatchesAre(params[1..], args[1..], from + 1, e);
      if i :| 0 <= i < |params| && !Takes(params[i], args[i]) && e == (from + i, params[i], args[i]) {
        if i > 0 { assert params[i] == params[1..][i - 1] && args[i] == args[1..][i - 1]; }
      }
      var ps, xs := params[1..], args[1..];
      if i :| 0 <= i < |ps| && !Takes(ps[i], xs[i]) && e == (from + 1 + i, ps[i], xs[i]) {
        assert params[i + 1] == ps[i] && args[i + 1] == xs[i];
      }
    }
  }

  /** Positions from `from` on, in order. */
  ghost predicate InOrder(es: seq<(nat, TypeId, TypeId)>, from: nat) {
    && (forall i :: 0 <= i < |es| ==> from <= es[i].0)
    && (forall i, j :: 0 <= i < j < |es| ==> es[i].0 < es[j].0)
  }

  lemma {:induction false} MismatchesOrdered(params: seq<TypeId>, args: seq<TypeId>, from: nat)
    ensures InOrder(Mismatches(params, args, from), from)
    decreases |params|
  {
    if |params| > 0 && |args| > 0 {
      MismatchesOrdered(params[1..], args[1..], from + 1);
      var rest := Mismatches(params[1..], args[1..], from + 1);
      var first := if params[0] != Tag(Unknown) && params[0] != args[0] then [(from, params[0], args[0])] else [];
      FirstInOrder(first, rest, from);
    }
  }

  lemma {:induction false} FirstInOrder(first: seq<(nat, TypeId, TypeId)>, rest: seq<(nat, TypeId, TypeId)>, from: nat)
    requires InOrder(rest, from + 1) && |first| <= 1 && (|first| == 1 ==> first[0].0 == from)
    ensures InOrder(first + rest, from)
  {
  }

  /** The number of leading parameters that are not compared: `self`, if there is one. */
  function Receivers(params: seq<TypeId>): nat {
    if |params| > 0 && params[0] == Tag(TSelf) then 1 else 0
  }

  /**
   What is reported when unification fails: that it is no callable; the numbers of
   parameters and arguments, also if it is the result that does not fit; or exactly
   the arguments that are not taken, counted after `self`.
   */
  lemma {:induction false} UnifyReports(t: Table, func: TypeId, args: seq<TypeId>, ret: TypeId)
    requires Has(t, func)
    ensures
      match Unify(t, func, args, ret)
      case Unified(k) => k == KindOf(t, func)
      case NotCallable => !KindOf(t, func).Callable?
      case UnequalArity(expected, actual) =>
        && KindOf(t, func).Callable? && expected == |Members(KindOf(t, func).params)| && actual == |args|
        && (expected == actual ==> !Takes(ret, KindOf(t, func).ret))
      case BadArguments(errors) =>
        && KindOf(t, func).Callable? && |Members(KindOf(t, func).params)| == |args| && |errors| > 0
        && var params := Members(KindOf(t, func).params);
           var skip := Receivers(params);
           && InOrder(errors, 0)
           && forall e :: e in errors <==>
                exists i :: skip <= i < |params| && !Takes(params[i], args[i]) && e == (i - skip, params[i], args[i])
  {
    var k := KindOf(t, func);
    if k.Callable? && |Members(k.params)| == |args| {
      var params, skip := Members(k.params), Receivers(Members(k.params));
      var ps, xs := params[skip..], args[skip..];
      assert skip == 0 ==> ps == params && xs == args;
      MismatchesOrdered(ps, xs, 0);
      forall e ensures e in Mismatches(ps, xs, 0) <==>
        exists i :: skip <= i < |params| && !Takes(params[i], args[i]) && e == (i - skip, params[i], args[i]) {
        MismatchesAre(ps, xs, 0, e);
        if i :| skip <= i < |params| && !Takes(params[i], args[i]) && e == (i - skip, params[i], args[i]) {
          assert ps[i - skip] == params[i] && xs[i - skip] == args[i];
        }
        if i :| 0 <= i < |ps| && !Takes(ps[i], xs[i]) && e == (0 + i, ps[i], xs[i]) {
          assert params[i + skip] == ps[i] && args[i + skip] == xs[i];
        }
      }
    }
  }

  // ---- storing ----

  /** The signature of the method that stores an element of a tuple. */
  function StoreOf(t: Table, id: TypeId): Option<TypeId> {
    if !Has(t, id) then None
    else
      match GetProperty(t, id, "__setitem__").1
      case None => None
      case Some(p) => Some(p.typeId)
  }

  /**
   Storing into a tuple at an `int` type checks exactly for what its elements are
   read as, so what is read can be stored back; into an empty tuple, which reads as
   `never`, it checks exactly for `any`.
   */
  lemma {:induction false} StoreTypeChecks(t: Table, elements: seq<TypeId>, u: Table, id: TypeId, x: TypeId)
    requires Valid(t) && WellFounded(t) && Known(t, elements) && (u, id) == TupleType(t, elements)
    ensures StoreOf(u, id).Some? && Has(u, StoreOf(u, id).value)
    ensures Unify(u, StoreOf(u, id).value, [id, Tag(Int), x], Tag(NoneT)).Unified? <==>
      if |elements| == 0 then x == Tag(AnyType) else Takes(ElementType(u, elements).1, x)
  {
    TupleIsMade(t, elements);
    var elem := ElementType(u, elements).1;
    StoreMade(u, elements, id, elem);
    StoreUnifies(u, StoreOf(u, id).value, id, StoredType(elements, elem), x);
  }

  lemma {:induction false} StoreMade(u: Table, elements: seq<TypeId>, id: TypeId, elem: TypeId)
    requires TupleMade(u, elements, id, elem)
    ensures id >= 256 && StoreOf(u, id).Some? && Has(u, StoreOf(u, id).value)
    ensures KindOf(u, StoreOf(u, id).value) == Callable(Some([id, Tag(Int), StoredType(elements, elem)]), Tag(NoneT))
  {
    IdsAreKinds(u, id, id);
  }

  lemma {:induction false} StoreUnifies(u: Table, sig: TypeId, id: TypeId, stored: TypeId, x: TypeId)
    requires Has(u, sig) && id >= 256 && KindOf(u, sig) == Callable(Some([id, Tag(Int), stored]), Tag(NoneT))
    ensures Unify(u, sig, [id, Tag(Int), x], Tag(NoneT)).Unified? <==> Takes(stored, x)
  {
    UnifiesExactly(u, sig, [id, Tag(Int), x], Tag(NoneT));
    var params, args := [id, Tag(Int), stored], [id, Tag(Int), x];
    assert params[2] == stored && args[2] == x;
  }
}
