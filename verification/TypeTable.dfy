/**
 The table of types (montyc_core/src/typing.rs,
 montyc_driver/src/global_context/mod.rs), as a value.

 A type is a kind and a set of properties.  Types are found again through
 `clobber`, whose keys compare kind and properties, so a type that has been
 given properties is known under several keys.
 */
module TypeTable {
  import opened RawInst

  type TypeId = nat

  datatype Builtin =
    | Int | Float | Str | Bool | NoneT | Ellipsis | Module | Unknown | TypeT | ObjectT | TSelf
    | UntypedFunc | UntypedTuple | AnyType | Bytes
    | U8 | U16 | U32 | U64 | I8 | I16 | I32 | I64
    | Never

  function Tag(b: Builtin): TypeId {
    match b
    case Int => 1 case Float => 2 case Str => 3 case Bool => 4 case NoneT => 5 case Ellipsis => 6
    case Module => 7 case Unknown => 8 case TypeT => 9 case ObjectT => 10 case TSelf => 11
    case UntypedFunc => 12 case UntypedTuple => 13 case AnyType => 14 case Bytes => 15
    case U8 => 100 case U16 => 101 case U32 => 102 case U64 => 103
    case I8 => 104 case I16 => 105 case I32 => 106 case I64 => 107
    case Never => 255
  }

  function SizeInBytes(b: Builtin): nat {
    match b
    case Ellipsis => 0 case Unknown => 0 case Never => 0
    case U8 => 1 case I8 => 1 case U16 => 2 case I16 => 2 case U32 => 4 case I32 => 4
    case _ => 8
  }

  /** All builtin types, in the order in which they are registered. */
  const BUILTINS: seq<Builtin> := [
    Int, Float, Str, Bool, NoneT, Ellipsis, Module, Unknown, TypeT, ObjectT, TSelf,
    UntypedFunc, UntypedTuple, AnyType, Bytes, U8, U16, U32, U64, I8, I16, I32, I64, Never]

  /** The types up to `bytes` are numbered from 1, those of sized integers from 100, and `never` is 255. */
  lemma {:induction false} TagsAre(j: nat)
    requires j < |BUILTINS|
    ensures Tag(BUILTINS[j]) == if j < 15 then j + 1 else if j < 23 then 85 + j else 255
  {
    assert BUILTINS[..5] == [Int, Float, Str, Bool, NoneT] && BUILTINS[5..10] == [Ellipsis, Module, Unknown, TypeT,
      ObjectT];
    assert BUILTINS[10..15] == [TSelf, UntypedFunc, UntypedTuple, AnyType, Bytes];
    assert BUILTINS[15..19] == [U8, U16, U32, U64] && BUILTINS[19..] == [I8, I16, I32, I64, Never];
  }

  /**
   Sized integers, signed or not, have one, two, four and eight bytes; `never`,
   `unknown` and the ellipsis have none, and everything else is a word of eight.
   */
  lemma {:induction false} SizesAre(b: Builtin)
    ensures 100 <= Tag(b) < 108 ==> SizeInBytes(b) == [1, 2, 4, 8][(Tag(b) - 100) % 4]
    ensures !(100 <= Tag(b) < 108) ==> SizeInBytes(b) == if Tag(b) in {6, 8, 255} then 0 else 8
  {
  }

  datatype Kind =
    | NoReturn
    | Any
    | Tuple(members: Option<seq<TypeId>>)
    | List(inner: TypeId)
    | Union(members: Option<seq<TypeId>>)
    | TypeOf(of: TypeId)
    | Class(objectId: nat, members: Option<seq<TypeId>>)
    | Instance(value: nat)
    | TypeVar(name: nat)
    | Callable(params: Option<seq<TypeId>>, ret: TypeId)
    | Generic(args: Option<seq<TypeId>>)
    | Basic(basic: Builtin)

  datatype PropertyValue = ById(value: nat) | ByName(owner: TypeId, name: string)

  datatype Property = Property(typeId: TypeId, value: PropertyValue)

  datatype Type = Type(kind: Kind, properties: map<string, Property>)

  function Bare(k: Kind): Type {
    Type(k, map[])
  }

  predicate IsBuiltin(id: TypeId) {
    id <= 255
  }

  // ---- the operations ----

  datatype Table = Table(slots: seq<Option<Type>>, clobber: map<Type, TypeId>)

  predicate Has(t: Table, id: TypeId) {
    id < |t.slots| && t.slots[id].Some?
  }

  function KindOf(t: Table, id: TypeId): Kind
    requires Has(t, id)
  {
    t.slots[id].value.kind
  }

  /** `insert`: find the type, or append it. */
  function Insert(t: Table, ty: Type): (Table, TypeId) {
    if ty in t.clobber then (t, t.clobber[ty])
    else (Table(t.slots + [Some(ty)], t.clobber[ty := |t.slots|]), |t.slots|)
  }

  /** `insert_property`: add to the type in place, and make the result findable too. */
  function SetProperty(t: Table, base: TypeId, name: string, p: Property): Table {
    if !Has(t, base) then t
    else
      var ty := t.slots[base].value;
      var ty1 := ty.(properties := ty.properties[name := p]);
      Table(t.slots[base := Some(ty1)], t.clobber[ty1 := base])
  }

  /** `get_property`: on the type, else on the class of the type, which comes into being if need be. */
  function GetProperty(t: Table, base: TypeId, name: string): (Table, Option<Property>)
    requires Has(t, base)
  {
    var ps := t.slots[base].value.properties;
    if name in ps then (t, Some(ps[name]))
    else
      var (t1, klass) := Insert(t, Bare(TypeOf(base)));
      (t1, if Has(t1, klass) &&
        name in t1.slots[klass].value.properties then Some(t1.slots[klass].value.properties[name]) else None)
  }

  // ---- what every operation keeps ----

  function Members(m: Option<seq<TypeId>>): seq<TypeId> {
    if m.None? then [] else m.value
  }

  function Mentions(k: Kind): seq<TypeId> {
    match k
    case Tuple(m) => Members(m)
    case List(x) => [x]
    case Union(m) => Members(m)
    case TypeOf(x) => [x]
    case Class(_, m) => Members(m)
    case Callable(ps, ret) => Members(ps) + [ret]
    case Generic(m) => Members(m)
    case _ => []
  }

  ghost predicate Known(t: Table, ids: seq<TypeId>) {
    forall i :: 0 <= i < |ids| ==> Has(t, ids[i])
  }

  /**
   Findable types are where `clobber` says, every type is found by its kind
   alone, and the builtin types stand at their tags with nothing else below 256.
   */
  ghost predicate Valid(t: Table) {
    && |t.slots| >= 256
    && (forall ty :: ty in t.clobber ==> Has(t, t.clobber[ty]) && KindOf(t, t.clobber[ty]) == ty.kind)
    && (forall id :: Has(t, id) ==> Bare(KindOf(t, id)) in t.clobber && t.clobber[Bare(KindOf(t, id))] == id)
    && (forall b: Builtin :: Has(t, Tag(b)) && KindOf(t, Tag(b)) == Basic(b))
    && (forall id :: Has(t, id) && id < 256 ==> KindOf(t, id).Basic?)
  }

  /** Kinds mention only smaller ids, so recursion over a type ends. */
  ghost predicate WellFounded(t: Table) {
    forall id, i :: Has(t, id) && 0 <= i < |Mentions(KindOf(t, id))| ==>
      Mentions(KindOf(t, id))[i] < id && Has(t, Mentions(KindOf(t, id))[i])
  }

  /** Ids keep their kinds. */
  ghost predicate Extends(t: Table, u: Table) {
    |t.slots| <= |u.slots| && forall id :: Has(t, id) ==> Has(u, id) && KindOf(u, id) == KindOf(t, id)
  }

  /** Two ids are equal exactly when their kinds are, and builtin ids are the ids of builtin kinds. */
  lemma {:induction false} IdsAreKinds(t: Table, a: TypeId, b: TypeId)
    requires Valid(t) && Has(t, a) && Has(t, b)
    ensures a == b <==> KindOf(t, a) == KindOf(t, b)
    ensures IsBuiltin(a) <==> KindOf(t, a).Basic?
    ensures KindOf(t, a).Basic? ==> a == Tag(KindOf(t, a).basic)
  {
    if KindOf(t, a).Basic? {
      var tag := Tag(KindOf(t, a).basic);
      assert t.clobber[Bare(KindOf(t, a))] == a && t.clobber[Bare(KindOf(t, tag))] == tag;
    }
    assert t.clobber[Bare(KindOf(t, a))] == a && t.clobber[Bare(KindOf(t, b))] == b;
  }

  /** Inserting a kind hands out its one id: the old one, or a fresh one that is no builtin. */
  lemma {:induction false} InsertKeeps(t: Table, k: Kind)
    requires Valid(t)
    ensures var (u, id) := Insert(t, Bare(k));
      && Valid(u) && Extends(t, u) && Has(u, id) && KindOf(u, id) == k
      && (u == t || (id == |t.slots| >= 256 && |u.slots| == |t.slots| + 1))
  {
    var (u, id) := Insert(t, Bare(k));
    if Bare(k) !in t.clobber {
      assert forall i :: Has(t, i) ==> Has(u, i) && KindOf(u, i) == KindOf(t, i);
      forall i | Has(u, i) ensures Bare(KindOf(u, i)) in u.clobber && u.clobber[Bare(KindOf(u, i))] == i {
        if i != id { assert Has(t, i) && KindOf(t, i) != k; }
      }
    }
  }

  lemma {:induction false} InsertKeepsFounded(t: Table, k: Kind)
    requires Valid(t) && WellFounded(t) && Known(t, Mentions(k))
    ensures WellFounded(Insert(t, Bare(k)).0)
  {
    var (u, id) := Insert(t, Bare(k));
    if Bare(k) !in t.clobber {
      forall j, i | Has(u, j) && 0 <= i < |Mentions(KindOf(u, j))|
        ensures Mentions(KindOf(u, j))[i] < j && Has(u, Mentions(KindOf(u, j))[i])
      {
        if j != id { assert Has(t, j) && KindOf(t, j) == KindOf(u, j); } else { assert Has(t, Mentions(k)[i]); }
      }
    }
  }

  lemma {:induction false} SetPropertyKeeps(t: Table, base: TypeId, name: string, p: Property)
    requires Valid(t)
    ensures var u := SetProperty(t, base, name, p);
      && Valid(u) && Extends(t, u) && |u.slots| == |t.slots| && (WellFounded(t) ==> WellFounded(u))
      && (forall id :: Has(t, id) <==> Has(u, id))
  {
    var u := SetProperty(t, base, name, p);
    if Has(t, base) {
      assert forall i :: Has(t, i) <==> Has(u, i);
      assert forall i :: Has(t, i) ==> KindOf(u, i) == KindOf(t, i);
    }
  }

  lemma {:induction false} GetPropertyKeeps(t: Table, base: TypeId, name: string)
    requires Valid(t) && Has(t, base)
    ensures var u := GetProperty(t, base, name).0;
      Valid(u) && Extends(t, u) && (WellFounded(t) ==> WellFounded(u))
  {
    InsertKeeps(t, TypeOf(base));
    if WellFounded(t) { InsertKeepsFounded(t, TypeOf(base)); }
  }

  // ---- any interleaving of operations ----

  datatype Action =
    | InsertKind(kind: Kind)
    | PutProperty(base: TypeId, name: string, property: Property)
    | LookUp(base: TypeId, name: string)

  /** Looking a property up on a type that does not exist panics; the table is not used any more. */
  function Perform(t: Table, a: Action): Option<Table> {
    match a
    case InsertKind(k) => Some(Insert(t, Bare(k)).0)
    case PutProperty(base, name, p) => Some(SetProperty(t, base, name, p))
    case LookUp(base, name) => if Has(t, base) then Some(GetProperty(t, base, name).0) else None
  }

  function PerformAll(t: Table, actions: seq<Action>): Option<Table>
    decreases |actions|, t
  {
    if |actions| == 0 then Some(t)
    else
      match Perform(t, actions[0])
      case None => None
      case Some(u) => PerformAll(u, actions[1..])
  }

  /** Whatever is done with the table, it stays valid and no id ever changes its kind. */
  lemma {:induction false} EveryInterleavingKeeps(t: Table, actions: seq<Action>)
    requires Valid(t)
    ensures var u := PerformAll(t, actions); u.Some? ==> Valid(u.value) && Extends(t, u.value)
    decreases |actions|
  {
    if |actions| > 0 {
      match actions[0] {
        case InsertKind(k) => InsertKeeps(t, k);
        case PutProperty(base, name, p) => SetPropertyKeeps(t, base, name, p);
        case LookUp(base, name) => if Has(t, base) { GetPropertyKeeps(t, base, name); }
      }
      if Perform(t, actions[0]).Some? { EveryInterleavingKeeps(Perform(t, actions[0]).value, actions[1..]); }
    }
  }

  /** Action `n` is the one that fails: it looks up a property of a type that there is not, when its turn comes. */
  predicate FailsAt(t: Table, actions: seq<Action>, n: nat) {
    && n < |actions| && actions[n].LookUp?
    && PerformAll(t, actions[..n]).Some? && !Has(PerformAll(t, actions[..n]).value, actions[n].base)
  }

  /** Nothing else ever fails. */
  lemma {:induction false} FailsExactly(t: Table, actions: seq<Action>)
    ensures PerformAll(t, actions).None? <==> exists n :: FailsAt(t, actions, n)
    decreases |actions|
  {
    if |actions| > 0 {
      assert actions[..0] == [];
      var u := Perform(t, actions[0]);
      if u.None? {
        assert FailsAt(t, actions, 0);
      } else {
        FailsExactly(u.value, actions[1..]);
        forall n: nat | n < |actions| - 1 ensures FailsAt(t, actions, n + 1) <==> FailsAt(u.value, actions[1..], n) {
          assert actions[..n + 1][1..] == actions[1..][..n];
        }
        if n: nat :| FailsAt(u.value, actions[1..], n) { assert FailsAt(t, actions, n + 1); }
        if n: nat :| FailsAt(t, actions, n) {
          assert n > 0;
          assert FailsAt(u.value, actions[1..], n - 1);
        }
      }
    }
  }

  // ---- the initial table ----

  function BuiltinAt(id: TypeId, n: nat): Option<Builtin>
    requires n <= |BUILTINS|
  {
    if n == 0 then None else if Tag(BUILTINS[n - 1]) == id then Some(BUILTINS[n - 1]) else BuiltinAt(id, n - 1)
  }

  /** Slot `id` of a fresh table. */
  function InitialSlot(id: TypeId): Option<Type> {
    match BuiltinAt(id, |BUILTINS|)
    case None => None
    case Some(b) => Some(Bare(Basic(b)))
  }

  lemma {:induction false} BuiltinAtTag(id: TypeId, n: nat)
    requires n <= |BUILTINS|
    ensures BuiltinAt(id, n).Some? ==> Tag(BuiltinAt(id, n).value) == id
    ensures (forall i :: 0 <= i < n ==> Tag(BUILTINS[i]) != id) ==> BuiltinAt(id, n).None?
    ensures BuiltinAt(id, n).None? ==> forall i :: 0 <= i < n ==> Tag(BUILTINS[i]) != id
    decreases n
  {
    if n > 0 { BuiltinAtTag(id, n - 1); }
  }

  lemma {:induction false} InitialIsValid(t: Table)
    requires |t.slots| == 256 && (forall id :: 0 <= id < 256 ==> t.slots[id] == InitialSlot(id))
    requires forall ty :: ty in t.clobber <==> exists id: nat :: Has(t, id) && t.slots[id].value == ty
    requires forall ty :: ty in t.clobber ==> Has(t, t.clobber[ty]) && t.slots[t.clobber[ty]].value == ty
    ensures Valid(t) && WellFounded(t)
  {
    forall b: Builtin ensures Has(t, Tag(b)) && KindOf(t, Tag(b)) == Basic(b) {
      BuiltinAtTag(Tag(b), |BUILTINS|);
      assert exists i :: 0 <= i < |BUILTINS| && BUILTINS[i] == b by { BuiltinListed(b); }
      TagInjective(b, BuiltinAt(Tag(b), |BUILTINS|).value);
    }
    forall id: nat | Has(t, id)
      ensures KindOf(t, id).Basic? && Bare(KindOf(t, id)) in t.clobber && t.clobber[Bare(KindOf(t, id))] == id
    {
      BuiltinAtTag(id, |BUILTINS|);
      var other := t.clobber[t.slots[id].value];
      BuiltinAtTag(other, |BUILTINS|);
    }
  }

  lemma {:induction false} TagInjective(a: Builtin, b: Builtin)
    requires Tag(a) == Tag(b)
    ensures a == b
  {
  }

  lemma {:induction false} BuiltinListed(b: Builtin)
    ensures b in BUILTINS
  {
  }
}
