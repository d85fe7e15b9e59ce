/**
 The sorted worklist (montyc_driver/src/typeck/cfg_reducer.rs).

 `Visit` keeps the blocks it has processed and the blocks it has yet to look
 at in sorted vectors, which it searches by bisection.
 */
module Worklist {
  import opened RawInst

  type Graph = nat -> seq<nat>

  // ---- reachability ----

  ghost predicate IsWalk(g: Graph, p: seq<nat>) {
    |p| > 0 && forall i :: 0 <= i < |p| - 1 ==> p[i + 1] in g(p[i])
  }

  ghost predicate Reachable(g: Graph, a: nat, b: nat) {
    exists p :: IsWalk(g, p) && p[0] == a && p[|p| - 1] == b
  }

  lemma {:induction false} ReachesItself(g: Graph, a: nat)
    ensures Reachable(g, a, a)
  {
    assert IsWalk(g, [a]);
  }

  lemma {:induction false} ReachesNext(g: Graph, a: nat, b: nat, c: nat)
    requires Reachable(g, a, b) && c in g(b)
    ensures Reachable(g, a, c)
  {
    var p :| IsWalk(g, p) && p[0] == a && p[|p| - 1] == b;
    assert IsWalk(g, p + [c]);
    assert (p + [c])[0] == a && (p + [c])[|p|] == c;
  }

  /** A property of `a` that spreads along edges holds of all that `a` reaches. */
  lemma {:induction false} ReachableInherits(g: Graph, inv: nat -> bool, a: nat, b: nat)
    requires inv(a) && (forall x, y :: inv(x) && y in g(x) ==> inv(y)) && Reachable(g, a, b)
    ensures inv(b)
  {
    var p :| IsWalk(g, p) && p[0] == a && p[|p| - 1] == b;
    WalkInherits(g, inv, p);
  }

  lemma {:induction false} WalkInherits(g: Graph, inv: nat -> bool, p: seq<nat>)
    requires IsWalk(g, p) && inv(p[0]) && forall x, y :: inv(x) && y in g(x) ==> inv(y)
    ensures inv(p[|p| - 1])
    decreases |p|
  {
    if |p| > 1 {
      WalkInherits(g, inv, p[..|p| - 1]);
      assert p[|p| - 2 + 1] in g(p[|p| - 2]);
    }
  }

  // ---- bisection ----

  /** Strictly increasing, hence without duplicates. */
  ghost predicate Sorted(a: seq<nat>) {
    forall i, j :: 0 <= i < j < |a| ==> a[i] < a[j]
  }

  datatype Search = Found(at: nat) | Absent(at: nat)

  method BinarySearch(a: seq<nat>, x: nat) returns (r: Search)
    requires Sorted(a)
    ensures r.Found? ==> r.at < |a| && a[r.at] == x
    ensures r.Absent? ==>
      r.at <= |a| && (forall i :: 0 <= i < r.at ==> a[i] < x) && (forall i :: r.at <= i < |a| ==> x < a[i])
  {
    var lo, hi := 0, |a|;
    while lo < hi
      invariant 0 <= lo <= hi <= |a|
      invariant forall i :: 0 <= i < lo ==> a[i] < x
      invariant forall i :: hi <= i < |a| ==> x < a[i]
    {
      var mid := (lo + hi) / 2;
      if a[mid] == x { return Found(mid); }
      if a[mid] < x { lo := mid + 1; } else { hi := mid; }
    }
    return Absent(lo);
  }

  function InsertAt(a: seq<nat>, i: nat, x: nat): seq<nat>
    requires i <= |a|
  {
    a[..i] + [x] + a[i..]
  }

  lemma {:induction false} InsertKeepsSorted(a: seq<nat>, i: nat, x: nat)
    requires Sorted(a) && i <= |a| && (forall k :: 0 <= k < i ==> a[k] < x) && (forall k :: i <= k < |a| ==> x < a[k])
    ensures Sorted(InsertAt(a, i, x)) && x !in a && forall y :: y in InsertAt(a, i, x) <==> y in a || y == x
  {
    var b := InsertAt(a, i, x);
    assert forall k :: 0 <= k < |a| ==> a[k] == b[if k < i then k else k + 1];
  }

  lemma {:induction false} SortedFits(a: seq<nat>, n: nat)
    requires Sorted(a) && forall x :: x in a ==> x < n
    ensures |a| <= n
    decreases n
  {
    if |a| > 0 {
      var front, last := a[..|a| - 1], a[|a| - 1];
      assert last in a;
      forall x | x in front ensures x < last { }
      SortedFits(front, n - 1);
    }
  }

  // ---- the walk ----

  ghost predicate NoDuplicates(a: seq<nat>) {
    forall i, j :: 0 <= i < j < |a| ==> a[i] != a[j]
  }

  /** What holds between two turns of the walk, when the successors of `x` in `pending` are still to be looked at. */
  ghost predicate Invariant(g: Graph, n: nat, entry: nat, processed: seq<nat>, queue: seq<nat>, x: nat,
        pending: seq<nat>) {
    && Sorted(processed) && Sorted(queue)
    && (forall y :: y in processed || y in queue ==> y < n && Reachable(g, entry, y))
    && (forall y :: y in processed ==> y !in queue)
    && (entry in processed || entry in queue)
    && (forall y, z :: y in processed && z in g(y) ==> z in processed || z in queue || (y == x && z in pending))
  }

  /** Queue the successors of `x` that are neither processed nor queued. */
  method Enqueue(g: Graph, n: nat, ghost entry: nat, processed: seq<nat>, queue: seq<nat>, x: nat)
    returns (more: seq<nat>)
    requires x in processed && Invariant(g, n, entry, processed, queue, x, g(x)) && forall y :: y in g(x) ==> y < n
    ensures Invariant(g, n, entry, processed, more, x, [])
  {
    var nodes := g(x);
    more := queue;
    for i := 0 to |nodes|
      invariant Invariant(g, n, entry, processed, more, x, nodes[i..])
    {
      var node := nodes[i];
      assert nodes[i..] == [node] + nodes[i + 1..];
      var p := BinarySearch(processed, node);
      if p.Absent? {
        var q := BinarySearch(more, node);
        if q.Absent? {
          ReachesNext(g, entry, x, node);
          InsertKeepsSorted(more, q.at, node);
          more := InsertAt(more, q.at, node);
        }
      }
    }
  }

  /**
   The walk from `entry`.  Processing a block may fail, and then the walk
   stops; otherwise it processes every reachable block, each of them once.
   */
  method Visit(g: Graph, n: nat, entry: nat, ok: nat -> bool) returns (r: Option<seq<nat>>, ghost calls: seq<nat>)
    requires entry < n && forall x: nat, y: nat :: x < n && y in g(x) ==> y < n
    ensures NoDuplicates(calls) && forall x :: x in calls ==> Reachable(g, entry, x)
    ensures r.Some? ==> Sorted(r.value) && (forall x :: x in r.value <==> x in calls) && forall x :: x in r.value <==>
      Reachable(g, entry, x)
    ensures r.None? <==> exists x :: Reachable(g, entry, x) && !ok(x)
  {
    var processed: seq<nat>, queue := [], [entry];
    calls := [];
    ReachesItself(g, entry);
    while |queue| > 0
      invariant Invariant(g, n, entry, processed, queue, 0, [])
      invariant NoDuplicates(calls) && forall x :: x in calls <==> x in processed
      invariant forall x :: x in processed ==> ok(x)
      decreases n - |processed|, |queue|
    {
      var ix := queue[0];
      queue := queue[1..];
      var s := BinarySearch(processed, ix);
      if s.Found? { continue; }
      calls := calls + [ix];
      if !ok(ix) { return None, calls; }
      InsertKeepsSorted(processed, s.at, ix);
      processed := InsertAt(processed, s.at, ix);
      SortedFits(processed, n);
      queue := Enqueue(g, n, entry, processed, queue, ix);
    }
    forall x | Reachable(g, entry, x) ensures x in processed { ReachableInherits(g, y => y in processed, entry, x); }
    return Some(processed), calls;
  }
}
