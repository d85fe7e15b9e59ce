/**
 A slot allocator with single assignment (montyc_core/src/utils/ssamap.rs).

 Keys are handed out in order and never reused while they hold a value.
 */
module SsaMap {
  import opened RawInst

  datatype Cancel = Cancelled | NotLast | Panic

  class SsaMap<V(==)> {
    var inner: seq<Option<V>>
    var nextFree: nat

    ghost predicate Valid()
      reads this
    {
      nextFree == |inner|
    }

    constructor ()
      ensures Valid() && inner == []
    {
      inner, nextFree := [], 0;
    }

    function Get(key: nat): (r: Option<V>)
      reads this
      ensures r.Some? ==> key < |inner| && inner[key] == r
      ensures r.None? ==> key >= |inner| || inner[key].None?
    {
      if key < |inner| then inner[key] else None
    }

    method IsEmpty() returns (empty: bool)
      ensures empty <==> forall k :: 0 <= k < |inner| ==> inner[k].None?
    {
      for k := 0 to |inner|
        invariant forall j :: 0 <= j < k ==> inner[j].None?
      {
        if inner[k].Some? { return false; }
      }
      return true;
    }

    method Skip(n: nat)
      requires Valid()
      modifies this
      ensures Valid() && inner == old(inner) + seq(n, _ => None)
    {
      nextFree := nextFree + n;
      for i := 0 to n
        invariant nextFree == old(nextFree) + n && inner == old(inner) + seq(i, _ => None)
      {
        inner := inner + [None];
      }
    }

    /** Skip up to a key; fails, changing nothing, when it has been passed. */
    method SkipToNth(pos: nat) returns (ok: bool)
      requires Valid()
      modifies this
      ensures Valid() && ok == (pos >= |old(inner)|)
      ensures inner == old(inner) + if ok then seq(pos - |old(inner)|, _ => None) else []
    {
      if pos < nextFree { return false; }
      var gap := pos - nextFree;
      nextFree := pos;
      for i := 0 to gap
        invariant nextFree == pos && inner == old(inner) + seq(i, _ => None)
      {
        inner := inner + [None];
      }
      return true;
    }

    method Insert(value: V) returns (key: nat)
      requires Valid()
      modifies this
      ensures Valid() && key == |old(inner)| && inner == old(inner) + [Some(value)]
    {
      key := nextFree;
      nextFree := nextFree + 1;
      inner := inner + [Some(value)];
    }

    method Reserve() returns (key: nat)
      requires Valid()
      modifies this
      ensures Valid() && key == |old(inner)| && inner == old(inner) + [None]
    {
      key := nextFree;
      nextFree := nextFree + 1;
      inner := inner + [None];
    }

    /** Give back the last key, which must not have been filled. */
    method CancelReserve(k: nat) returns (r: Cancel)
      requires Valid()
      modifies this
      ensures Valid()
      ensures r.Cancelled? <==> k + 1 == |old(inner)| && old(inner)[k].None?
      ensures r.Cancelled? ==> old(inner) == inner + [None] && k == |inner|
      ensures !r.Cancelled? ==> inner == old(inner)
      ensures r.NotLast? <==> k <= |old(inner)| && k + 1 != |old(inner)|
    {
      if k > nextFree { return Panic; }
      if nextFree - k != 1 { return NotLast; }
      if inner[k].Some? { return Panic; }
      inner := inner[..k];
      nextFree := k;
      return Cancelled;
    }

    /** Fill a reserved key; a filled one keeps its value. */
    method TrySetValue(k: nat, v: V) returns (ok: bool)
      requires Valid()
      modifies this
      ensures Valid() && ok == (k < |old(inner)| && old(inner)[k].None?)
      ensures inner == if ok then old(inner)[k := Some(v)] else old(inner)
    {
      if k >= |inner| || inner[k].Some? { return false; }
      inner := inner[k := Some(v)];
      return true;
    }

    /** A value for a key that has none goes to a fresh key, which is where it is found from then on. */
    method GetOrInsert(key: nat, v: V) returns (used: nat)
      requires Valid()
      modifies this
      ensures Valid() && Get(used).Some?
      ensures old(Get(key)).Some? ==> used == key && inner == old(inner)
      ensures old(Get(key)).None? ==> used == |old(inner)| && inner == old(inner) + [Some(v)]
    {
      used := key;
      if Get(key).None? { used := Insert(v); }
    }

    /** `get_mut` followed by a write. */
    method Update(k: nat, v: V)
      requires Valid() && Get(k).Some?
      modifies this
      ensures Valid() && inner == old(inner)[k := Some(v)]
    {
      inner := inner[k := Some(v)];
    }

    /** The first key of a value, or a fresh one. */
    method Entry(value: V) returns (key: nat)
      requires Valid()
      modifies this
      ensures Valid() && key < |inner| && inner[key] == Some(value)
      ensures inner == if Some(value) in old(inner) then old(inner) else old(inner) + [Some(value)]
      ensures forall j :: 0 <= j < key ==> inner[j] != Some(value)
    {
      for k := 0 to |inner|
        invariant inner == old(inner) && nextFree == |inner| && forall j :: 0 <= j < k ==> inner[j] != Some(value)
      {
        if inner[k] == Some(value) { return k; }
      }
      key := Insert(value);
    }
  }
}
