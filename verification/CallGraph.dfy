/**
 Collecting the functions a program needs
 (`call_graph_of` in montyc_driver/src/global_context/query.rs).

 A function counts as collected only after its references have been scanned,
 so a function can be pushed, and processed, more than once.
 */
module CallGraph {
  import opened RawInst
  import opened Worklist

  datatype Kind = Callable | UntypedFunc | Other

  /**
   What the session knows about its values: types, the kinds of types, the
   references of a function, and whether its body type checks.
   */
  datatype Values = Values(typeOf: nat -> nat, kindOf: nat -> Kind, refs: nat -> seq<nat>, checks: nat -> bool)

  function KindOf(v: Values, x: nat): Kind {
    v.kindOf(v.typeOf(x))
  }

  /** The callable ones among some references. */
  function Callables(v: Values, refs: seq<nat>): seq<nat> {
    if |refs| == 0 then []
    else Callables(v, refs[..|refs| - 1]) + (if KindOf(v, refs[|refs| - 1]) == Callable then [refs[|refs| - 1]] else [])
  }

  function CallsOf(v: Values): Graph {
    (f: nat) => Callables(v, v.refs(f))
  }

  lemma {:induction false} InCallables(v: Values, refs: seq<nat>, x: nat)
    ensures x in Callables(v, refs) <==> x in refs && KindOf(v, x) == Callable
    decreases |refs|
  {
    if |refs| > 0 {
      InCallables(v, refs[..|refs| - 1], x);
      assert refs == refs[..|refs| - 1] + [refs[|refs| - 1]];
    }
  }

  /** A function that must not be part of a call graph: it, or something it refers to, is an untyped function. */
  predicate Untyped(v: Values, f: nat) {
    KindOf(v, f) == UntypedFunc || exists r :: r in v.refs(f) && KindOf(v, r) == UntypedFunc
  }

  datatype Outcome = Collected(functions: map<nat, nat>) | Panicked | Errored

  /** What the scan of some references pushes. */
  function Pushed(v: Values, collected: map<nat, nat>, refs: seq<nat>): seq<nat> {
    if |refs| == 0 then []
    else
      var r := refs[|refs| - 1];
      Pushed(v, collected, refs[..|refs| - 1]) + (if KindOf(v, r) == Callable && r !in collected then [r] else [])
  }

  lemma {:induction false} InPushed(v: Values, collected: map<nat, nat>, refs: seq<nat>, x: nat)
    ensures x in Pushed(v, collected, refs) <==> x in Callables(v, refs) && x !in collected
    decreases |refs|
  {
    if |refs| > 0 { InPushed(v, collected, refs[..|refs| - 1], x); }
  }

  method ScanRefs(v: Values, collected: map<nat, nat>, refs: seq<nat>, stack: seq<nat>) returns (r: Option<seq<nat>>)
    ensures r.None? <==> exists x :: x in refs && KindOf(v, x) == UntypedFunc
    ensures r.Some? ==> r.value == stack + Pushed(v, collected, refs)
  {
    var out := stack;
    for i := 0 to |refs|
      invariant forall x :: x in refs[..i] ==> KindOf(v, x) != UntypedFunc
      invariant out == stack + Pushed(v, collected, refs[..i])
    {
      assert refs[..i + 1][..i] == refs[..i];
      match v.kindOf(v.typeOf(refs[i])) {
        case Callable => if refs[i] !in collected { out := out + [refs[i]]; }
        case UntypedFunc => return None;
        case Other =>
      }
    }
    assert refs[..|refs|] == refs;
    return Some(out);
  }

  /** What holds between two turns of the collection. */
  ghost predicate Invariant(v: Values, n: nat, entry: nat, collected: map<nat, nat>, stack: seq<nat>) {
    && (forall x :: x in collected || x in stack ==> x < n && Reachable(CallsOf(v), entry, x))
    && (forall x :: x in collected ==> collected[x] == v.typeOf(x) && !Untyped(v, x) && v.checks(x))
    && (entry in collected || entry in stack)
    && (forall x, y :: x in collected && y in CallsOf(v)(x) ==> y in collected || y in stack)
  }

  ghost predicate TopCollected(collected: map<nat, nat>, stack: seq<nat>) {
    |stack| > 0 && stack[|stack| - 1] in collected
  }

  lemma {:induction false} FewBelow(s: set<nat>, n: nat)
    requires forall x :: x in s ==> x < n
    ensures |s| <= n
    decreases n
  {
    if n > 0 {
      FewBelow(s - {n - 1}, n - 1);
      assert |s| <= |s - {n - 1}| + 1;
    } else {
      assert s == {};
    }
  }

  /**
   The collection itself.  It ends because each turn collects a function, or
   uncovers one that is not collected yet, or shortens the stack.
   */
  method CallGraphOf(v: Values, n: nat, entry: nat) returns (r: Outcome)
    requires entry < n && forall f: nat, x: nat :: f < n && x in v.refs(f) ==> x < n
    ensures r.Collected? ==> forall f :: f in r.functions <==> Reachable(CallsOf(v), entry, f)
    ensures r.Collected? ==> forall f :: f in r.functions ==> r.functions[f] == v.typeOf(f)
    ensures r.Collected? <==> forall f :: Reachable(CallsOf(v), entry, f) ==> !Untyped(v, f) && v.checks(f)
    ensures r.Panicked? ==> exists f :: Reachable(CallsOf(v), entry, f) && Untyped(v, f)
    ensures r.Errored? ==> exists f :: Reachable(CallsOf(v), entry, f) && !v.checks(f)
  {
    var collected: map<nat, nat> := map[];
    var stack := [entry];
    ReachesItself(CallsOf(v), entry);
    while |stack| > 0
      invariant Invariant(v, n, entry, collected, stack)
      decreases n - |collected|, if TopCollected(collected, stack) then 1 else 0, |stack|
    {
      ghost var oldStack, oldCollected := stack, collected;
      var f := stack[|stack| - 1];
      stack := stack[..|stack| - 1];
      if v.kindOf(v.typeOf(f)) == UntypedFunc { return Panicked; }
      if !v.checks(f) { return Errored; }
      var scanned := ScanRefs(v, collected, v.refs(f), stack);
      if scanned.None? { return Panicked; }
      stack := scanned.value;
      collected := collected[f := v.typeOf(f)];
      TurnKeeps(v, n, entry, oldCollected, oldStack, f);
      FewBelow(collected.Keys, n);
      TurnProgress(v, oldCollected, oldStack, f);
    }
    collected := collected[entry := v.typeOf(entry)];
    forall f | Reachable(CallsOf(v), entry, f) ensures f in collected {
      ReachableInherits(CallsOf(v), x => x in collected, entry, f);
    }
    return Collected(collected);
  }

  lemma {:induction false} TurnKeeps(v: Values, n: nat, entry: nat, collected: map<nat, nat>, stack: seq<nat>, f: nat)
    requires |stack| > 0 && f == stack[|stack| - 1] && Invariant(v, n, entry, collected, stack)
    requires !Untyped(v, f) && v.checks(f) && forall x: nat :: x in v.refs(f) ==> x < n
    ensures Invariant(v, n, entry, collected[f := v.typeOf(f)], stack[..|stack| - 1] + Pushed(v, collected, v.refs(f)))
  {
    var rest, more := stack[..|stack| - 1], Pushed(v, collected, v.refs(f));
    assert forall x :: x in stack <==> x in rest || x == f by { assert stack == rest + [f]; }
    forall x: nat ensures x in more <==> x in CallsOf(v)(f) && x !in collected { InPushed(v, collected, v.refs(f), x); }
    forall x | x in more ensures x < n && Reachable(CallsOf(v), entry, x) {
      InCallables(v, v.refs(f), x);
      ReachesNext(CallsOf(v), entry, f, x);
    }
  }

  /** The measure of the collection goes down. */
  lemma {:induction false} TurnProgress(v: Values, collected: map<nat, nat>, stack: seq<nat>, f: nat)
    requires |stack| > 0 && f == stack[|stack| - 1]
    ensures var c, s := collected[f := v.typeOf(f)], stack[..|stack| - 1] + Pushed(v, collected, v.refs(f));
      || (f !in collected && |c| == |collected| + 1)
      || (f in collected && |c| == |collected| && (|s| < |stack| || !TopCollected(c, s)))
  {
    var more := Pushed(v, collected, v.refs(f));
    if f in collected {
      assert collected[f := v.typeOf(f)].Keys == collected.Keys;
      if |more| > 0 { InPushed(v, collected, v.refs(f), more[|more| - 1]); }
    } else {
      assert collected[f := v.typeOf(f)].Keys == collected.Keys + {f};
    }
  }
}
