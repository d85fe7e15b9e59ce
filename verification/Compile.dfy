/**
 From a module to a running program: the builder is run on the module body, and
 its sequences are what the evaluator executes.
 */
module Compile {
  import opened RawInst
  import opened Ast
  import opened Lower
  import opened Machine
  import opened Meaning
  import opened Correctness
  import opened Plain
  import opened FlatCode
  import opened Assigned
  import opened Ticks
  import opened Program

  // ---- the bodies behind the sequences, in the order of their numbers ----

  function StmtBodies(s: Stmt): (bodies: seq<Block>)
    ensures |bodies| == Defs(s)
  {
    match s
    case While(_, body) => BlockBodies(body)
    case IfChain(arms, orelse) => ArmsBodies(arms) + ElseBodies(orelse)
    case FuncDef(_, _, _, _, body) => [body] + BlockBodies(body)
    case _ => []
  }

  function BlockBodies(b: Block): (bodies: seq<Block>)
    ensures |bodies| == BlockDefs(b)
  {
    match b
    case Empty => []
    case Then(h, t) => StmtBodies(h) + BlockBodies(t)
  }

  function ArmsBodies(arms: Arms): (bodies: seq<Block>)
    ensures |bodies| == ArmsDefs(arms)
  {
    match arms
    case NoArms => []
    case Arm(_, body, rest) => BlockBodies(body) + ArmsBodies(rest)
  }

  function ElseBodies(o: OrElse): (bodies: seq<Block>)
    ensures |bodies| == ElseDefs(o)
  {
    match o
    case NoElse => []
    case Else(body) => BlockBodies(body)
  }

  /** The sequences from number `ns` on are the bodies, lowered. */
  ghost predicate Table(seqs: seq<seq<Inst>>, base: nat, ns: nat, bodies: seq<Block>) {
    forall i :: 0 <= i < |bodies| ==> BodyAt(seqs, base, ns + i, bodies[i])
  }

  lemma {:induction false} TableThen(seqs: seq<seq<Inst>>, base: nat, ns: nat, xs: seq<Block>, ys: seq<Block>)
    requires Table(seqs, base, ns, xs) && Table(seqs, base, ns + |xs|, ys)
    ensures Table(seqs, base, ns, xs + ys)
  {
    forall i | 0 <= i < |xs + ys| ensures BodyAt(seqs, base, ns + i, (xs + ys)[i]) {
      if i >= |xs| { assert BodyAt(seqs, base, ns + |xs| + (i - |xs|), ys[i - |xs|]); }
    }
  }

  lemma {:induction false} StmtTable(seqs: seq<seq<Inst>>, base: nat, s: Stmt, ns: nat)
    requires StmtSeqs(seqs, base, s, ns)
    ensures Table(seqs, base, ns, StmtBodies(s))
    decreases s
  {
    match s
    case While(_, body) => BlockTable(seqs, base, body, ns);
    case IfChain(arms, orelse) =>
      ArmsTable(seqs, base, arms, ns);
      if orelse.Else? { BlockTable(seqs, base, orelse.body, ns + ArmsDefs(arms)); }
      TableThen(seqs, base, ns, ArmsBodies(arms), ElseBodies(orelse));
    case FuncDef(_, _, _, _, body) =>
      BlockTable(seqs, base, body, ns + 1);
      TableThen(seqs, base, ns, [body], BlockBodies(body));
    case _ =>
  }

  lemma {:induction false} BlockTable(seqs: seq<seq<Inst>>, base: nat, b: Block, ns: nat)
    requires BlockSeqs(seqs, base, b, ns)
    ensures Table(seqs, base, ns, BlockBodies(b))
    decreases b
  {
    match b
    case Empty =>
    case Then(h, t) =>
      StmtTable(seqs, base, h, ns);
      BlockTable(seqs, base, t, ns + Defs(h));
      TableThen(seqs, base, ns, StmtBodies(h), BlockBodies(t));
  }

  lemma {:induction false} ArmsTable(seqs: seq<seq<Inst>>, base: nat, arms: Arms, ns: nat)
    requires ArmsSeqs(seqs, base, arms, ns)
    ensures Table(seqs, base, ns, ArmsBodies(arms))
    decreases arms
  {
    match arms
    case NoArms =>
    case Arm(_, body, rest) =>
      BlockTable(seqs, base, body, ns);
      ArmsTable(seqs, base, rest, ns + BlockDefs(body));
      TableThen(seqs, base, ns, BlockBodies(body), ArmsBodies(rest));
  }

  // ---- the builder's sequences ----

  /** Sequence 0 is the module body and the others are its functions, however nested. */
  function AllBodies(main: Block): seq<Block> {
    [main] + BlockBodies(main)
  }

  ghost predicate IsCompiled(seqs: seq<seq<Inst>>, main: Block) {
    && |seqs| == |AllBodies(main)|
    && forall id :: 0 <= id < |seqs| ==> Lowered(seqs[id], AllBodies(main)[id], id + 1)
  }

  lemma {:induction false} WholeTable(code: seq<Inst>, added: seq<seq<Inst>>, main: Block)
    requires PlacedBlock([], main, code, 1) && |added| == BlockDefs(main) && BlockSeqs(added, 1, main, 1)
    ensures IsCompiled([code] + added, main)
  {
    BlockTable(added, 1, main, 1);
    var seqs, bodies := [code] + added, AllBodies(main);
    forall id | 0 < id < |seqs| ensures Lowered(seqs[id], bodies[id], id + 1) {
      assert BodyAt(added, 1, 1 + (id - 1), BlockBodies(main)[id - 1]);
    }
  }

  /** Lower a whole module. */
  method CompileModule(main: Block) returns (seqs: seq<seq<Inst>>)
    ensures IsCompiled(seqs, main)
  {
    var builder := new FlatCode();
    ghost var added := builder.VisitBlock(main);
    ghost var table := [builder.sequences[0].Code()] + added;
    WholeTable(table[0], added, main);
    seqs := [];
    var i := 0;
    while i < |builder.sequences|
      invariant 0 <= i <= |builder.sequences| == |table| && seqs == table[..i]
      invariant forall k :: 0 <= k < |table| ==> builder.sequences[k].Code() == table[k]
    {
      var code := builder.sequences[i].Ops();
      seqs := seqs + [code];
      i := i + 1;
    }
    assert table[..i] == table;
  }

  // ---- what every compiled program satisfies ----

  lemma {:induction false} CallReadsCallee(i: Inst)
    ensures i.Call? ==> i.callable in Reads(i)
  {
  }

  /** No compiled sequence begins with a call: a call reads a slot, and no slot has been written there. */
  lemma {:induction false} CompiledIsGrounded(p: Prog, main: Block)
    requires IsCompiled(p.seqs, main)
    ensures Grounded(p)
  {
    forall id | 0 <= id < |p.seqs| && |p.seqs[id]| > 0 ensures !p.seqs[id][0].Call? {
      var need := LoweredIsSound(p.seqs[id], AllBodies(main)[id], id + 1);
      assert Sound(p.seqs[id], need, 0);
      CallReadsCallee(p.seqs[id][0]);
    }
  }

  /**
   Compiling a module and evaluating it gives what the module means: some tick
   bound lets the evaluator end with `o` exactly when the module ends with `o`.
   */
  lemma {:induction false} CompilationPreservesMeaning(p: Prog, main: Block, rule: Reading, st: State, o: Outcome)
    requires IsCompiled(p.seqs, main) && st.ip == 0 && !IsLostOutcome(o)
    requires rule.Intended? ==>
      PlainBodies(AllBodies(main), false) || (PlainBodies(AllBodies(main), true) && PlainTests(p))
    ensures Grounded(p)
    ensures Evaluates(p, 0, st, o) <==> Means(Source(p, AllBodies(main), rule), 0, st.env, o)
  {
    CompiledIsGrounded(p, main);
    ProgramsArePreserved(Source(p, AllBodies(main), rule), 0, st, o);
  }
}
