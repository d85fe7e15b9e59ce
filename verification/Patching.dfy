/**
 The placeholders of an `if` chain, and what patching them all amounts to.

 `Ifs` are the test jumps of the branches, `Heads` the jump targets of their
 bodies and `Tails` the branches that end them.
 */
module Patching {
  import opened RawInst
  import opened Ast
  import opened Lower
  import opened Stable

  function Ifs(arms: Arms, at: nat): seq<nat> {
    match arms
    case NoArms => []
    case Arm(test, _, rest) => [TestEnd(test, at)] + Ifs(rest, TestEnd(test, at) + 1)
  }

  function Heads(arms: Arms, at: nat): seq<nat> {
    match arms
    case NoArms => []
    case Arm(_, body, rest) => [at] + Heads(rest, BlockEnd(body, at + 1) + 1)
  }

  function Tails(arms: Arms, at: nat): seq<nat> {
    match arms
    case NoArms => []
    case Arm(_, body, rest) => [BlockEnd(body, at + 1)] + Tails(rest, BlockEnd(body, at + 1) + 1)
  }

  ghost predicate Increasing(xs: seq<nat>, lo: nat, hi: nat) {
    && (forall i :: 0 <= i < |xs| ==> lo <= xs[i] < hi)
    && (forall i, j :: 0 <= i < j < |xs| ==> xs[i] < xs[j])
  }

  lemma {:induction false} IncreasingCons(x: nat, xs: seq<nat>, lo: nat, hi: nat)
    requires lo <= x < hi && Increasing(xs, x + 1, hi)
    ensures Increasing([x] + xs, lo, hi)
  {
  }

  lemma {:induction false} IfsOrder(arms: Arms, at: nat)
    ensures Increasing(Ifs(arms, at), at + 1, TestsEnd(arms, at))
    decreases arms
  {
    if arms.Arm? {
      var p := TestEnd(arms.test, at);
      IfsOrder(arms.rest, p + 1);
      IncreasingCons(p, Ifs(arms.rest, p + 1), at + 1, TestsEnd(arms, at));
    }
  }

  lemma {:induction false} TailsOrder(arms: Arms, at: nat)
    ensures Increasing(Tails(arms, at), at + 1, BodiesEnd(arms, at))
    ensures |Heads(arms, at)| == |Tails(arms, at)|
    decreases arms
  {
    if arms.Arm? {
      var k := BlockEnd(arms.body, at + 1);
      TailsOrder(arms.rest, k + 1);
      IncreasingCons(k, Tails(arms.rest, k + 1), at + 1, BodiesEnd(arms, at));
    }
  }

  lemma {:induction false} OnePerArm(arms: Arms, at: nat, q: nat)
    ensures |Ifs(arms, at)| == |Heads(arms, q)|
    ensures |Ifs(arms, at)| == 0 <==> arms.NoArms?
    decreases arms
  {
    if arms.Arm? {
      OnePerArm(arms.rest, TestEnd(arms.test, at) + 1, BlockEnd(arms.body, q + 1) + 1);
    }
  }

  // ---- chains before patching ----

  /** The tests are in place, each followed by a jump on its outcome. */
  ghost predicate TestsShape(code: seq<Inst>, arms: Arms, at: nat) {
    && TestsEnd(arms, at) <= |code|
    && match arms
       case NoArms => true
       case Arm(test, _, rest) =>
         var p := TestEnd(test, at);
         && TestAt(code, test, at) && code[p].If? && code[p].test == p - 1
         && TestsShape(code, rest, p + 1)
  }

  /** The bodies are in place, each between its jump target and a branch. */
  ghost predicate BodiesShape(code: seq<Inst>, arms: Arms, at: nat, ns: nat) {
    && BodiesEnd(arms, at) <= |code|
    && match arms
       case NoArms => true
       case Arm(_, body, rest) =>
         var k := BlockEnd(body, at + 1);
         && code[at] == JumpTarget && BlockAt(code, body, at + 1, ns)
         && BodiesShape(code, rest, k + 1, ns + BlockDefs(body))
  }

  lemma {:induction false} IfsAreIfs(code: seq<Inst>, arms: Arms, at: nat)
    requires TestsShape(code, arms, at)
    ensures Increasing(Ifs(arms, at), at + 1, TestsEnd(arms, at))
    ensures forall i :: 0 <= i < |Ifs(arms, at)| ==>
      code[Ifs(arms, at)[i]].If? && code[Ifs(arms, at)[i]].test == Ifs(arms, at)[i] - 1
    decreases arms
  {
    IfsOrder(arms, at);
    if arms.Arm? {
      var p := TestEnd(arms.test, at);
      IfsAreIfs(code, arms.rest, p + 1);
      var ifs, more := Ifs(arms, at), Ifs(arms.rest, p + 1);
      forall i | 0 <= i < |ifs| ensures code[ifs[i]].If? && code[ifs[i]].test == ifs[i] - 1 {
        if i > 0 { assert ifs[i] == more[i - 1]; }
      }
    }
  }

  /** Changing only the targets of the test jumps keeps the shape. */
  lemma {:induction false} TestsShapeRetarget(c: seq<Inst>, d: seq<Inst>, arms: Arms, at: nat)
    requires TestsShape(c, arms, at) && |d| >= TestsEnd(arms, at)
    requires forall k :: at <= k < TestsEnd(arms, at) ==>
      d[k] == c[k] || (c[k].If? && d[k].If? && d[k].test == c[k].test && k in Ifs(arms, at))
    ensures TestsShape(d, arms, at)
    decreases arms
  {
    if arms.Arm? {
      var p := TestEnd(arms.test, at);
      var more := Ifs(arms.rest, p + 1);
      RetargetCons(c, d, at, p, more, TestsEnd(arms, at)) by { IfsOrder(arms.rest, p + 1); }
      TestStable(c, d, arms.test, at);
      TestsShapeRetarget(c, d, arms.rest, p + 1);
    }
  }

  lemma {:induction false} RetargetCons(c: seq<Inst>, d: seq<Inst>, lo: nat, p: nat, xs: seq<nat>, hi: nat)
    requires lo <= p < hi <= |c| && hi <= |d| && Increasing(xs, p + 1, hi)
    requires forall k :: lo <= k < hi ==>
      d[k] == c[k] || (c[k].If? && d[k].If? && d[k].test == c[k].test && k in [p] + xs)
    ensures AgreeOn(c, d, lo, p)
    ensures forall k :: p < k < hi ==> d[k] == c[k] || (c[k].If? && d[k].If? && d[k].test == c[k].test && k in xs)
  {
  }

  lemma {:induction false} TestsShapeStable(c: seq<Inst>, d: seq<Inst>, arms: Arms, at: nat)
    requires TestsShape(c, arms, at) && AgreeOn(c, d, at, TestsEnd(arms, at))
    ensures TestsShape(d, arms, at)
    decreases arms
  {
    if arms.Arm? {
      TestStable(c, d, arms.test, at);
      TestsShapeStable(c, d, arms.rest, TestEnd(arms.test, at) + 1);
    }
  }

  lemma {:induction false} BodiesShapeStable(c: seq<Inst>, d: seq<Inst>, arms: Arms, at: nat, ns: nat)
    requires BodiesShape(c, arms, at, ns) && AgreeOn(c, d, at, BodiesEnd(arms, at))
    ensures BodiesShape(d, arms, at, ns)
    decreases arms
  {
    if arms.Arm? {
      BlockStable(c, d, arms.body, at + 1, ns);
      BodiesShapeStable(c, d, arms.rest, BlockEnd(arms.body, at + 1) + 1, ns + BlockDefs(arms.body));
    }
  }

  // ---- chains after patching ----

  /** What the test jumps are once patched. */
  ghost predicate TestsPatched(z: seq<Inst>, ifs: seq<nat>, heads: seq<nat>, after: nat) {
    && |heads| == |ifs|
    && (forall i :: 0 <= i < |ifs| ==> 0 < ifs[i] < |z|)
    && (forall i :: 0 <= i < |ifs| ==>
          z[ifs[i]] == If(ifs[i] - 1, Some(heads[i]), Some(if i + 1 < |ifs| then ifs[i] else after)))
  }

  lemma {:induction false} TestsPatchedCons(z: seq<Inst>, p: nat, ifs: seq<nat>, q: nat, heads: seq<nat>, after: nat)
    requires TestsPatched(z, [p] + ifs, [q] + heads, after)
    ensures 0 < p < |z| && z[p] == If(p - 1, Some(q), Some(if |ifs| > 0 then p else after))
    ensures TestsPatched(z, ifs, heads, after)
  {
    var all, tops := [p] + ifs, [q] + heads;
    assert all[0] == p && tops[0] == q;
    forall i | 0 <= i < |ifs|
      ensures 0 < ifs[i] < |z| &&
        z[ifs[i]] == If(ifs[i] - 1, Some(heads[i]), Some(if i + 1 < |ifs| then ifs[i] else after))
    {
      assert all[i + 1] == ifs[i] && tops[i + 1] == heads[i];
    }
  }

  lemma {:induction false} TestsComplete(c: seq<Inst>, z: seq<Inst>, arms: Arms, at: nat, q: nat, after: nat)
    requires TestsShape(c, arms, at) && |z| >= TestsEnd(arms, at)
    requires TestsPatched(z, Ifs(arms, at), Heads(arms, q), after)
    requires SameOutside(c, z, Ifs(arms, at), at, TestsEnd(arms, at))
    ensures TestsAt(z, arms, at, q, after)
    decreases arms, 1
  {
    if arms.Arm? {
      assert FirstComplete(c, z, arms, at, q, after) by {
        FirstUnpatched(c, z, arms, at);
        FirstPatched(z, arms, at, q, after);
      }
      TestsCompleteStep(c, z, arms, at, q, after);
    }
  }

  /** The first test is finished, and the other ones are ready to be. */
  ghost predicate FirstComplete(c: seq<Inst>, z: seq<Inst>, arms: Arms, at: nat, q: nat, after: nat)
    requires arms.Arm?
  {
    var p, q1, more := TestEnd(arms.test, at), BlockEnd(arms.body, q + 1) + 1,
      Ifs(arms.rest, TestEnd(arms.test, at) + 1);
    && TestAt(z, arms.test, at) && TestsShape(c, arms.rest, p + 1)
    && p < |z| && z[p] == If(p - 1, Some(q), Some(if arms.rest.NoArms? then after else p))
    && TestsPatched(z, more, Heads(arms.rest, q1), after) && SameOutside(c, z, more, p + 1, TestsEnd(arms, at))
  }

  /** `z` is `c` from `lo` to `hi`, except at the indices `xs`. */
  ghost predicate SameOutside(c: seq<Inst>, z: seq<Inst>, xs: seq<nat>, lo: nat, hi: nat) {
    hi <= |c| && hi <= |z| && forall k :: lo <= k < hi && k !in xs ==> z[k] == c[k]
  }

  /** What patching leaves alone of the first test and of the other ones. */
  lemma {:induction false} FirstUnpatched(c: seq<Inst>, z: seq<Inst>, arms: Arms, at: nat)
    requires arms.Arm? && TestsShape(c, arms, at)
    requires SameOutside(c, z, Ifs(arms, at), at, TestsEnd(arms, at))
    ensures var p := TestEnd(arms.test, at);
      && TestAt(z, arms.test, at) && TestsShape(c, arms.rest, p + 1)
      && SameOutside(c, z, Ifs(arms.rest, p + 1), p + 1, TestsEnd(arms, at))
  {
    var p := TestEnd(arms.test, at);
    OutsideCons(c, z, at, p, Ifs(arms.rest, p + 1), TestsEnd(arms, at)) by { IfsOrder(arms.rest, p + 1); }
    FirstStable(c, z, arms, at);
  }

  /** What patching makes of the first test jump and of the other ones. */
  lemma {:induction false} FirstPatched(z: seq<Inst>, arms: Arms, at: nat, q: nat, after: nat)
    requires arms.Arm? && TestsPatched(z, Ifs(arms, at), Heads(arms, q), after)
    ensures var p, q1 := TestEnd(arms.test, at), BlockEnd(arms.body, q + 1) + 1;
      && p < |z| && z[p] == If(p - 1, Some(q), Some(if arms.rest.NoArms? then after else p))
      && TestsPatched(z, Ifs(arms.rest, p + 1), Heads(arms.rest, q1), after)
  {
    var p, q1 := TestEnd(arms.test, at), BlockEnd(arms.body, q + 1) + 1;
    TestsPatchedCons(z, p, Ifs(arms.rest, p + 1), q, Heads(arms.rest, q1), after);
    OnePerArm(arms.rest, p + 1, q1);
  }

  lemma {:induction false} TestsCompleteStep(c: seq<Inst>, z: seq<Inst>, arms: Arms, at: nat, q: nat, after: nat)
    requires arms.Arm? && TestsEnd(arms, at) <= |z| && FirstComplete(c, z, arms, at, q, after)
    ensures TestsAt(z, arms, at, q, after)
    decreases arms, 0
  {
    var p, q1 := TestEnd(arms.test, at), BlockEnd(arms.body, q + 1) + 1;
    assert TestsAt(z, arms.rest, p + 1, q1, after) by { TestsComplete(c, z, arms.rest, p + 1, q1, after); }
    TestsAtCons(z, arms, at, q, after);
  }

  /** The first test, where nothing has changed. */
  lemma {:induction false} FirstStable(c: seq<Inst>, z: seq<Inst>, arms: Arms, at: nat)
    requires arms.Arm? && TestsShape(c, arms, at) && AgreeOn(c, z, at, TestEnd(arms.test, at))
    ensures TestAt(z, arms.test, at) && TestsShape(c, arms.rest, TestEnd(arms.test, at) + 1)
  {
    TestStable(c, z, arms.test, at);
  }

  /** Two sequences that agree outside `[p] + xs`, where `p` comes first. */
  lemma {:induction false} OutsideCons(c: seq<Inst>, z: seq<Inst>, lo: nat, p: nat, xs: seq<nat>, hi: nat)
    requires lo <= p < hi && Increasing(xs, p + 1, hi) && SameOutside(c, z, [p] + xs, lo, hi)
    ensures AgreeOn(c, z, lo, p) && SameOutside(c, z, xs, p + 1, hi)
  {
  }

  ghost predicate TailsPatched(z: seq<Inst>, tails: seq<nat>, after: int) {
    forall i :: 0 <= i < |tails| ==> tails[i] < |z| && z[tails[i]] == Br(after)
  }

  lemma {:induction false} TailsPatchedCons(z: seq<Inst>, k: nat, tails: seq<nat>, after: int)
    requires TailsPatched(z, [k] + tails, after)
    ensures k < |z| && z[k] == Br(after) && TailsPatched(z, tails, after)
  {
    var all := [k] + tails;
    assert all[0] == k;
    forall i | 0 <= i < |tails| ensures tails[i] < |z| && z[tails[i]] == Br(after) { assert all[i + 1] == tails[i]; }
  }

  lemma {:induction false} BodiesComplete(c: seq<Inst>, z: seq<Inst>, arms: Arms, at: nat, ns: nat, after: int)
    requires BodiesShape(c, arms, at, ns) && |z| >= BodiesEnd(arms, at)
    requires TailsPatched(z, Tails(arms, at), after)
    requires SameOutside(c, z, Tails(arms, at), at, BodiesEnd(arms, at))
    ensures BodiesAt(z, arms, at, ns, after)
    decreases arms
  {
    if arms.Arm? {
      var k, more := BlockEnd(arms.body, at + 1), Tails(arms.rest, BlockEnd(arms.body, at + 1) + 1);
      OutsideCons(c, z, at, k, more, BodiesEnd(arms, at)) by { TailsOrder(arms.rest, k + 1); }
      TailsPatchedCons(z, k, more, after);
      BodyStable(c, z, arms, at, ns);
      assert BodiesAt(z, arms.rest, k + 1, ns + BlockDefs(arms.body), after) by {
        BodiesComplete(c, z, arms.rest, k + 1, ns + BlockDefs(arms.body), after);
      }
      BodiesAtCons(z, arms, at, ns, after);
    }
  }

  /** The first body, where nothing but its closing branch has changed. */
  lemma {:induction false} BodyStable(c: seq<Inst>, z: seq<Inst>, arms: Arms, at: nat, ns: nat)
    requires arms.Arm? && BodiesShape(c, arms, at, ns)
    requires AgreeOn(c, z, at, BlockEnd(arms.body, at + 1))
    ensures z[at] == JumpTarget && BlockAt(z, arms.body, at + 1, ns)
    ensures BodiesShape(c, arms.rest, BlockEnd(arms.body, at + 1) + 1, ns + BlockDefs(arms.body))
  {
    BlockStable(c, z, arms.body, at + 1, ns);
  }

  // ---- patching, branch by branch ----

  /** The entry recorded for a branch is `first`, or the test jump of the branch before it. */
  ghost predicate EntriesOf(ifs: seq<nat>, entries: seq<nat>, first: nat) {
    && |entries| == |ifs|
    && (|ifs| > 0 ==> entries[0] == first)
    && (forall j :: 0 < j < |ifs| ==> entries[j] == ifs[j - 1])
  }

  lemma {:induction false} EntriesCons(br: nat, ifs: seq<nat>, entry: nat, entries: seq<nat>)
    requires EntriesOf(ifs, entries, br)
    ensures EntriesOf([br] + ifs, [entry] + entries, entry)
  {
  }

  /** The first `i` branches have been patched; the false edge of a branch is settled by the next one. */
  ghost predicate Progress(c0: seq<Inst>, c: seq<Inst>, ifs: seq<nat>, heads: seq<nat>, tails: seq<nat>, after: nat,
        i: nat)
  {
    && |c| == |c0| && |ifs| == |heads| == |tails| && i <= |ifs|
    && (forall j :: 0 <= j < |ifs| ==> 0 < ifs[j] < |c| && 0 <= tails[j] < |c|)
    && (forall j :: 0 <= j < i ==>
          c[ifs[j]] == If(ifs[j] - 1, Some(heads[j]), Some(if j + 1 < i then ifs[j] else after)))
    && (forall j :: i <= j < |ifs| ==> c[ifs[j]].If? && c[ifs[j]].test == ifs[j] - 1)
    && (forall j :: 0 <= j < i ==> c[tails[j]] == Br(after))
    && (forall k :: 0 <= k < |c| && k !in ifs && k !in tails ==> c[k] == c0[k])
  }

  lemma {:induction false} ProgressStep(c0: seq<Inst>, c: seq<Inst>, d: seq<Inst>, ifs: seq<nat>, heads: seq<nat>,
      tails: seq<nat>, after: nat, i: nat, mid: nat)
    requires i < |ifs| && Progress(c0, c, ifs, heads, tails, after, i)
    requires Increasing(ifs, 1, mid) && Increasing(tails, mid, |c|)
    requires |d| == |c| && d[ifs[i]] == If(ifs[i] - 1, Some(heads[i]), Some(after)) && d[tails[i]] == Br(after)
    requires i > 0 ==> d[ifs[i - 1]] == c[ifs[i - 1]].(falsey := Some(ifs[i - 1]))
    requires forall k :: 0 <= k < |c| && k != ifs[i] && k != tails[i] && (i > 0 ==> k != ifs[i - 1]) ==> d[k] == c[k]
    ensures Progress(c0, d, ifs, heads, tails, after, i + 1)
  {
    assert forall j :: i < j < |ifs| ==> d[ifs[j]].If? && d[ifs[j]].test == ifs[j] - 1 by {
      OtherTests(c, d, ifs, tails, i, mid);
    }
    assert forall j :: 0 <= j < i + 1 ==>
      d[ifs[j]] == If(ifs[j] - 1, Some(heads[j]), Some(if j + 1 < i + 1 then ifs[j] else after)) by
    {
      OtherTests(c, d, ifs, tails, i, mid);
      MoreTests(c, d, ifs, heads, after, i);
    }
    assert forall j :: 0 <= j < i + 1 ==> d[tails[j]] == Br(after) by {
      OtherTails(c, d, ifs, tails, i, mid);
    }
    assert forall k :: 0 <= k < |c| && k !in ifs && k !in tails ==> d[k] == c0[k] by {
      forall k | 0 <= k < |c| && k !in ifs && k !in tails ensures d[k] == c0[k] {
        assert k != ifs[i] && k != tails[i];
      }
    }
  }

  /** The test jumps up to `i` in `d`, when those before it are as they should be in `c`. */
  lemma {:induction false} MoreTests(c: seq<Inst>, d: seq<Inst>, ifs: seq<nat>, heads: seq<nat>, after: nat, i: nat)
    requires i < |ifs| == |heads| && |d| == |c| && forall j :: 0 <= j < |ifs| ==> 0 < ifs[j] < |c|
    requires forall j :: 0 <= j < i ==>
      c[ifs[j]] == If(ifs[j] - 1, Some(heads[j]), Some(if j + 1 < i then ifs[j] else after))
    requires d[ifs[i]] == If(ifs[i] - 1, Some(heads[i]), Some(after))
    requires i > 0 ==> d[ifs[i - 1]] == c[ifs[i - 1]].(falsey := Some(ifs[i - 1]))
    requires forall j :: 0 <= j < |ifs| && j != i && j != i - 1 ==> d[ifs[j]] == c[ifs[j]]
    ensures forall j :: 0 <= j < i + 1 ==>
      d[ifs[j]] == If(ifs[j] - 1, Some(heads[j]), Some(if j + 1 < i + 1 then ifs[j] else after))
  {
    forall j | 0 <= j < i + 1
      ensures d[ifs[j]] == If(ifs[j] - 1, Some(heads[j]), Some(if j + 1 < i + 1 then ifs[j] else after))
    {
      if j < i - 1 { assert d[ifs[j]] == c[ifs[j]]; }
    }
  }

  /** Patching one branch leaves the test jumps of the others, except the one before, as they were. */
  lemma {:induction false} OtherTests(c: seq<Inst>, d: seq<Inst>, ifs: seq<nat>, tails: seq<nat>, i: nat, mid: nat)
    requires i < |ifs| == |tails| && |d| == |c| && Increasing(ifs, 1, mid) && Increasing(tails, mid, |c|)
    requires forall k :: 0 <= k < |c| && k != ifs[i] && k != tails[i] && (i > 0 ==> k != ifs[i - 1]) ==> d[k] == c[k]
    ensures forall j :: 0 <= j < |ifs| ==> ifs[j] < |c|
    ensures forall j :: 0 <= j < |ifs| && j != i && j != i - 1 ==> d[ifs[j]] == c[ifs[j]]
  {
    assert tails[i] < |c|;
    forall j | 0 <= j < |ifs| && j != i && j != i - 1 ensures d[ifs[j]] == c[ifs[j]] {
      assert ifs[j] < tails[i] && ifs[j] != ifs[i] && (i > 0 ==> ifs[j] != ifs[i - 1]);
    }
  }

  lemma {:induction false} OtherTails(c: seq<Inst>, d: seq<Inst>, ifs: seq<nat>, tails: seq<nat>, i: nat, mid: nat)
    requires i < |ifs| == |tails| && |d| == |c| && Increasing(ifs, 1, mid) && Increasing(tails, mid, |c|)
    requires forall k :: 0 <= k < |c| && k != ifs[i] && k != tails[i] && (i > 0 ==> k != ifs[i - 1]) ==> d[k] == c[k]
    ensures forall j :: 0 <= j < |ifs| && j != i ==> d[tails[j]] == c[tails[j]]
  {
    forall j | 0 <= j < |ifs| && j != i ensures d[tails[j]] == c[tails[j]] {
      assert tails[j] != tails[i] && ifs[i] < mid <= tails[j] && (i > 0 ==> ifs[i - 1] < mid);
    }
  }
}
