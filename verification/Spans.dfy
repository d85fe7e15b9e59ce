/**
 The span interner (montyc_parser/src/span_interner.rs).

 Every inserted span gets a number of its own and a group: the number of the
 first span whose text has the same hash.
 */
module Spans {
  import opened RawInst
  import opened SsaMap

  type Hash = nat

  datatype SpanData = SpanData(start: nat, end: nat, hash: Hash, module_: nat)

  datatype SpanRef = SpanRef(group: nat, distinct_: nat)

  // ---- groups of a sequence of hashes ----

  /** The first position of a hash that occurs. */
  function First(hs: seq<Hash>, h: Hash): (i: nat)
    requires h in hs
    ensures i < |hs| && hs[i] == h && forall k :: 0 <= k < i ==> hs[k] != h
  {
    if hs[0] == h then 0
    else
      assert hs == [hs[0]] + hs[1..];
      var i := First(hs[1..], h);
      assert forall k :: 0 < k < i + 1 ==> hs[k] == hs[1..][k - 1];
      i + 1
  }

  /** Each hash that occurs, with its first position. */
  ghost predicate Grouped(hs: seq<Hash>, groups: map<Hash, nat>) {
    && (forall h :: h in groups <==> h in hs)
    && (forall h :: h in groups ==> groups[h] == First(hs, h))
  }

  /** Appending adds a group for a hash that is new and changes no other. */
  lemma {:induction false} GroupedMore(hs: seq<Hash>, groups: map<Hash, nat>, h: Hash)
    requires Grouped(hs, groups)
    ensures Grouped(hs + [h], if h in groups then groups else groups[h := |hs|])
  {
    var all := hs + [h];
    forall g | g in hs ensures First(all, g) == First(hs, g) {
      assert all[First(hs, g)] == g;
      assert forall k :: 0 <= k < First(hs, g) ==> all[k] == hs[k];
    }
    if h !in groups {
      assert all[|hs|] == h && forall k :: 0 <= k < |hs| ==> all[k] == hs[k];
      assert First(all, h) == |hs|;
    }
  }

  /** The reference handed out for the `i`th span. */
  function RefOf(hs: seq<Hash>, i: nat): SpanRef
    requires i < |hs|
  {
    SpanRef(First(hs, hs[i]), i)
  }

  /**
   Two references share a group exactly when their hashes agree; each is told apart by its
   number; a group is its own first member.
   */
  lemma {:induction false} GroupsAreClasses(hs: seq<Hash>, i: nat, j: nat)
    requires i < |hs| && j < |hs|
    ensures RefOf(hs, i).group == RefOf(hs, j).group <==> hs[i] == hs[j]
    ensures RefOf(hs, RefOf(hs, i).group) == SpanRef(RefOf(hs, i).group, RefOf(hs, i).group)
    ensures RefOf(hs, i).group <= i
  {
    var g := First(hs, hs[i]);
    assert hs[g] == hs[i];
  }

  /** `refs` are the references to the first `k` spans, those with a given hash. */
  ghost predicate Lists(refs: seq<SpanRef>, hs: seq<Hash>, k: nat, hash: Hash, group: nat)
    requires k <= |hs|
  {
    forall r :: r in refs <==> exists i: nat :: i < k && hs[i] == hash && r == SpanRef(group, i)
  }

  lemma {:induction false} ListsMore(refs: seq<SpanRef>, hs: seq<Hash>, k: nat, hash: Hash, group: nat)
    requires k < |hs| && Lists(refs, hs, k, hash, group)
    ensures Lists(if hs[k] == hash then refs + [SpanRef(group, k)] else refs, hs, k + 1, hash, group)
  {
  }

  /** `refs` are all the references of a group; none at all means that there is no such group. */
  ghost predicate IsGroup(refs: Option<seq<SpanRef>>, hs: seq<Hash>, group: nat) {
    && (refs.Some? <==> exists i: nat :: i < |hs| && RefOf(hs, i).group == group)
    && (refs.Some? ==> forall r ::
          r in refs.value <==> exists i: nat :: i < |hs| && RefOf(hs, i) == r && r.group == group)
  }

  /** The references of a group are those of the spans with its hash. */
  lemma {:induction false} ListsGroup(refs: seq<SpanRef>, hs: seq<Hash>, hash: Hash, group: nat)
    requires Lists(refs, hs, |hs|, hash, group) && group < |hs| && hs[group] == hash && RefOf(hs, group).group == group
    ensures IsGroup(Some(refs), hs, group)
  {
    forall r: SpanRef, i: nat | i < |hs|
      ensures hs[i] == hash && r == SpanRef(group, i) <==> RefOf(hs, i) == r && r.group == group
    {
      GroupsAreClasses(hs, i, group);
    }
  }

  lemma {:induction false} NoGroup(hs: seq<Hash>, groups: map<Hash, nat>, group: nat)
    requires Grouped(hs, groups) && forall h :: h in groups ==> groups[h] != group
    ensures IsGroup(None, hs, group)
  {
    forall i: nat | i < |hs| ensures RefOf(hs, i).group != group {
      assert hs[i] in groups;
    }
  }

  /** A group is the first position of its hash. */
  lemma {:induction false} GroupHash(hs: seq<Hash>, groups: map<Hash, nat>, h: Hash)
    requires Grouped(hs, groups) && h in groups
    ensures var g := groups[h]; g < |hs| && hs[g] == h && RefOf(hs, g).group == g
  {
    GroupsAreClasses(hs, groups[h], groups[h]);
  }

  lemma {:induction false} LastRef(hs: seq<Hash>, groups: map<Hash, nat>, h: Hash)
    requires Grouped(hs + [h], groups)
    ensures h in groups && SpanRef(groups[h], |hs|) == RefOf(hs + [h], |hs|)
  {
    assert (hs + [h])[|hs|] == h;
  }

  ghost function HashesOf(spans: seq<Option<SpanData>>): (hs: seq<Hash>)
    ensures |hs| == |spans| && forall i :: 0 <= i < |hs| && spans[i].Some? ==> hs[i] == spans[i].value.hash
  {
    seq(|spans|, i requires 0 <= i < |spans| => if spans[i].Some? then spans[i].value.hash else 0)
  }

  class SpanInterner {
    const spans: SsaMap<SpanData>
    var groups: map<Hash, nat>

    /** The hash of every span inserted so far. */
    ghost function Hashes(): seq<Hash>
      reads spans
    {
      HashesOf(spans.inner)
    }

    ghost predicate Valid()
      reads this, spans
    {
      && spans.Valid() && (forall i :: 0 <= i < |spans.inner| ==> spans.inner[i].Some?)
      && Grouped(Hashes(), groups)
    }

    constructor ()
      ensures Valid() && Hashes() == [] && fresh(spans)
    {
      spans := new SsaMap();
      groups := map[];
    }

    /** `insert`: intern a part of a source text. */
    method Insert(source: string, start: nat, end: nat, module_: nat, hashOf: string -> Hash) returns (r: SpanRef)
      requires Valid() && start <= end <= |source|
      modifies this, spans
      ensures Valid() && Hashes() == old(Hashes()) + [hashOf(source[start..end])]
      ensures r == RefOf(Hashes(), |old(Hashes())|)
      ensures spans.inner == old(spans.inner) + [Some(SpanData(start, end, hashOf(source[start..end]), module_))]
    {
      var hash := hashOf(source[start..end]);
      ghost var hs := Hashes();
      var distinct_ := spans.Insert(SpanData(start, end, hash, module_));
      assert Hashes() == hs + [hash];
      GroupedMore(hs, groups, hash);
      if hash !in groups { groups := groups[hash := distinct_]; }
      assert Hashes() == hs + [hash];
      LastRef(hs, groups, hash);
      r := SpanRef(groups[hash], distinct_);
    }

    /** `spangroup_of_hash` */
    method SpangroupOfHash(hash: Hash) returns (group: Option<nat>)
      requires Valid()
      ensures group == if hash in Hashes() then Some(First(Hashes(), hash)) else None
    {
      group := if hash in groups then Some(groups[hash]) else None;
    }

    /** `spanrefs_of_group`: all the references that were handed out for a group. */
    method SpanrefsOfGroup(group: nat) returns (refs: Option<seq<SpanRef>>)
      requires Valid()
      ensures IsGroup(refs, Hashes(), group)
    {
      ghost var all := Hashes();
      var hs := set h | h in groups && groups[h] == group;
      if hs == {} {
        assert forall h :: h in groups && groups[h] == group ==> h in hs;
        NoGroup(all, groups, group);
        return None;
      }
      var hash :| hash in hs;
      GroupHash(all, groups, hash);
      var out: seq<SpanRef> := [];
      for k := 0 to |spans.inner|
        invariant Lists(out, all, k, hash, group)
      {
        ListsMore(out, all, k, hash, group);
        if spans.inner[k].value.hash == hash { out := out + [SpanRef(group, k)]; }
      }
      ListsGroup(out, all, hash, group);
      return Some(out);
    }

    /** `spanref_to_str`: the resolver is given back what was interned. */
    method SpanrefToStr(r: SpanRef, resolver: (nat, nat, nat) -> Option<string>) returns (text: Option<string>)
      requires Valid()
      ensures r.distinct_ >= |Hashes()| ==> text == None
      ensures r.distinct_ < |Hashes()| ==>
                var d := spans.inner[r.distinct_].value; text == resolver(d.module_, d.start, d.end)
    {
      var data := spans.Get(r.distinct_);
      if data.None? { return None; }
      text := resolver(data.value.module_, data.value.start, data.value.end);
    }
  }
}
