/**
 The FlatCode builder (montyc_flatcode/src/lib.rs, montyc_flatcode/src/lower.rs).

 Instructions are appended to the current sequence; a jump whose target is not
 known yet is appended with a placeholder and overwritten later.  Each visitor
 is proved to leave exactly the layout of Lower.dfy behind, to change nothing
 that was there before, and to come back to the sequence it started in.

 Expression visitors only touch the current sequence, so they are methods of
 `FlatSeq`; statement visitors may open further sequences.
 */
module FlatCode {
  import opened RawInst
  import opened Ast
  import opened Lower
  import opened Stable
  import opened Patching

  /** An instruction and the slot that receives its result. */
  datatype FlatInst = FlatInst(op: Inst, value: nat)

  ghost function OpsOf(s: seq<FlatInst>): (ops: seq<Inst>)
    ensures |ops| == |s|
    ensures forall i :: 0 <= i < |s| ==> ops[i] == s[i].op
  {
    seq(|s|, i requires 0 <= i < |s| => s[i].op)
  }

  /** `e` was appended to `c`, giving `d`. */
  ghost predicate Appended(c: seq<Inst>, e: Expr, d: seq<Inst>) {
    c <= d && |d| == ExprEnd(e, |c|) && ExprAt(d, e, |c|)
  }

  ghost predicate AppendedAll(c: seq<Inst>, es: Exprs, d: seq<Inst>) {
    c <= d && |d| == ExprsEnd(es, |c|) && ExprsAt(d, es, |c|)
  }

  /** The statement `s` was appended to `c`, giving `d`. */
  ghost predicate Placed(c: seq<Inst>, s: Stmt, d: seq<Inst>, ns: nat) {
    c <= d && |d| == StmtEnd(s, |c|) && StmtAt(d, s, |c|, ns)
  }

  ghost predicate PlacedBlock(c: seq<Inst>, b: Block, d: seq<Inst>, ns: nat) {
    c <= d && |d| == BlockEnd(b, |c|) && BlockAt(d, b, |c|, ns)
  }

  /** The part of a definition that precedes its body was appended to `c`, giving `d`. */
  ghost predicate Opened(c: seq<Inst>, s: Stmt, d: seq<Inst>)
    requires s.FuncDef?
  {
    var decs := Reverse(s.decorators);
    var p := ExprsEnd(decs, |c|);
    var r := ParamsEnd(s.params, p);
    && c <= d && |d| == OptEnd(s.result, r)
    && ExprsAt(d, decs, |c|) && ParamsAt(d, s.params, p) && OptAt(d, s.result, r)
  }

  lemma {:induction false} DefPlaced(c: seq<Inst>, z: seq<Inst>, s: Stmt, at: nat, id: nat)
    requires s.FuncDef? && at <= |c| && Opened(c[..at], s, c) && c <= z
    requires var decs := Reverse(s.decorators);
      var p := ExprsEnd(decs, at);
      && |z| == |c| + 2 + |ExprsSlots(decs, at)|
      && z[|c|] == Defn(s.name, ParamsSlots(s.params, p), OptSlot(s.result, ParamsEnd(s.params, p)), id)
      && z[|c| + 1] == SetVar(s.name, |c|)
      && CallsAt(z, ExprsSlots(decs, at), |c|, |c| + 2)
    ensures Placed(c[..at], s, z, id)
  {
    var decs := Reverse(s.decorators);
    var p := ExprsEnd(decs, at);
    ExprsStable(c, z, decs, at);
    ParamsStable(c, z, s.params, p);
    OptStable(c, z, s.result, ParamsEnd(s.params, p));
  }

  class FlatSeq {
    var inst: seq<FlatInst>

    /** Every instruction is numbered by its index. */
    ghost predicate Valid()
      reads this
    {
      forall i :: 0 <= i < |inst| ==> inst[i].value == i
    }

    ghost function Code(): (code: seq<Inst>)
      reads this
      ensures |code| == |inst|
    {
      OpsOf(inst)
    }

    constructor ()
      ensures Valid() && Code() == []
    {
      inst := [];
    }

    /** The instructions without their numbers. */
    method Ops() returns (ops: seq<Inst>)
      ensures ops == Code()
    {
      ops := seq(|inst|, i requires 0 <= i < |inst| reads this => inst[i].op);
    }

    /** `inst`: append an instruction and answer with its slot. */
    method Emit(op: Inst) returns (v: nat)
      requires Valid()
      modifies this
      ensures Valid() && v == |old(Code())| && Code() == old(Code()) + [op]
    {
      v := |inst|;
      inst := inst + [FlatInst(op, v)];
    }

    /** Overwrite an instruction; its slot stays. */
    method Patch(i: nat, op: Inst)
      requires Valid() && i < |Code()|
      modifies this
      ensures Valid() && Code() == old(Code())[i := op]
    {
      inst := inst[i := inst[i].(op := op)];
    }

    method EmitTwo(a: Inst, b: Inst) returns (v: nat)
      requires Valid()
      modifies this
      ensures Valid() && v == |old(Code())| && Code() == old(Code()) + [a, b]
    {
      v := Emit(a);
      var _ := Emit(b);
    }

    method PatchThree(i: nat, a: Inst, j: nat, b: Inst, k: nat, c: Inst)
      requires Valid() && i < j < k < |Code()|
      modifies this
      ensures Valid() && Code() == old(Code())[i := a][j := b][k := c]
    {
      Patch(i, a);
      Patch(j, b);
      Patch(k, c);
    }

    /** Fetch a special method of `o` and call it. */
    method EmitInvoke(o: nat, d: Dunder, args: seq<nat>) returns (v: nat)
      requires Valid()
      modifies this
      ensures Valid() && v == |old(Code())| + 1
      ensures Code() == old(Code()) + [GetDunder(o, d), Call(|old(Code())|, args)]
    {
      var dunder := Emit(GetDunder(o, d));
      v := Emit(Call(dunder, args));
    }

    method VisitExpr(e: Expr) returns (v: nat)
      requires Valid()
      modifies this
      ensures Valid() && Appended(old(Code()), e, Code()) && v == ExprSlot(e, |old(Code())|)
      decreases e, 2
    {
      match e
      case Lit(c) => v := Emit(Const(c));
      case NameRef(n) => v := Emit(UseVar(n));
      case TupleLit(_) => v := VisitTuple(e);
      case BinOp(_, _, _) => v := VisitBinOp(e);
      case Unary(_, _) => v := VisitUnary(e);
      case Ternary(_, _, _) => v := VisitTernary(e);
      case Named(_, _) => v := VisitNamed(e);
      case CallExpr(_, _) => v := VisitCall(e);
      case Subscript(_, _) => v := VisitSubscript(e);
      case Attribute(_, _) => v := VisitAttr(e);
    }

    method VisitTuple(e: Expr) returns (v: nat)
      requires Valid() && e.TupleLit?
      modifies this
      ensures Valid() && Appended(old(Code()), e, Code()) && v == ExprSlot(e, |old(Code())|)
      decreases e, 1
    {
      var vs := VisitExprs(e.elems);
      ghost var c := Code();
      v := Emit(Tuple(vs));
      ExprsStable(c, Code(), e.elems, |old(Code())|);
    }

    method VisitBinOp(e: Expr) returns (v: nat)
      requires Valid() && e.BinOp?
      modifies this
      ensures Valid() && Appended(old(Code()), e, Code()) && v == ExprSlot(e, |old(Code())|)
      decreases e, 1
    {
      var left := VisitExpr(e.left);
      ghost var c := Code();
      var right := VisitExpr(e.right);
      ghost var d := Code();
      v := EmitInvoke(left, InfixDunder(e.op), [left, right]);
      ExprStable(c, Code(), e.left, |old(Code())|);
      ExprStable(d, Code(), e.right, |c|);
    }

    method VisitUnary(e: Expr) returns (v: nat)
      requires Valid() && e.Unary?
      modifies this
      ensures Valid() && Appended(old(Code()), e, Code()) && v == ExprSlot(e, |old(Code())|)
      decreases e, 1
    {
      var value := VisitExpr(e.operand);
      ghost var c := Code();
      v := EmitInvoke(value, UnaryDunder(e.unaryOp), [value]);
      ExprStable(c, Code(), e.operand, |old(Code())|);
    }

    method VisitNamed(e: Expr) returns (v: nat)
      requires Valid() && e.Named?
      modifies this
      ensures Valid() && Appended(old(Code()), e, Code()) && v == ExprSlot(e, |old(Code())|)
      decreases e, 1
    {
      v := VisitExpr(e.bound);
      ghost var c := Code();
      var _ := Emit(SetVar(e.target, v));
      ExprStable(c, Code(), e.bound, |old(Code())|);
    }

    method VisitSubscript(e: Expr) returns (v: nat)
      requires Valid() && e.Subscript?
      modifies this
      ensures Valid() && Appended(old(Code()), e, Code()) && v == ExprSlot(e, |old(Code())|)
      decreases e, 1
    {
      var object_ := VisitExpr(e.base);
      ghost var c := Code();
      var index := VisitExpr(e.index);
      ghost var d := Code();
      v := EmitInvoke(object_, GetItem, [object_, index]);
      ExprStable(c, Code(), e.base, |old(Code())|);
      ExprStable(d, Code(), e.index, |c|);
    }

    method VisitCall(e: Expr) returns (v: nat)
      requires Valid() && e.CallExpr?
      modifies this
      ensures Valid() && Appended(old(Code()), e, Code()) && v == ExprSlot(e, |old(Code())|)
      decreases e, 1
    {
      var callable := VisitExpr(e.func);
      ghost var c := Code();
      var arguments := VisitExprs(e.args);
      ghost var d := Code();
      v := Emit(Call(callable, arguments));
      ExprStable(c, Code(), e.func, |old(Code())|);
      ExprsStable(d, Code(), e.args, |c|);
    }

    method VisitAttr(e: Expr) returns (v: nat)
      requires Valid() && e.Attribute?
      modifies this
      ensures Valid() && Appended(old(Code()), e, Code()) && v == ExprSlot(e, |old(Code())|)
      decreases e, 1
    {
      var object_ := VisitExpr(e.base);
      ghost var c := Code();
      var attr := Emit(RefAsStr(e.attr));
      v := Emit(GetAttribute(object_, attr));
      ExprStable(c, Code(), e.base, |old(Code())|);
    }

    /** The test of an `if` or a ternary. */
    method VisitTest(e: Expr) returns (v: nat)
      requires Valid()
      modifies this
      ensures Valid() && old(Code()) <= Code()
      ensures |Code()| == TestEnd(e, |old(Code())|) && TestAt(Code(), e, |old(Code())|)
      ensures v == |Code()| - 1
      decreases e, 3
    {
      var test := VisitExpr(e);
      ghost var c := Code();
      v := EmitInvoke(test, AsBool, [test]);
      ExprStable(c, Code(), e, |old(Code())|);
    }

    method VisitTernary(e: Expr) returns (v: nat)
      requires Valid() && e.Ternary?
      modifies this
      ensures Valid() && Appended(old(Code()), e, Code()) && v == ExprSlot(e, |old(Code())|)
      decreases e, 1
    {
      var test := VisitTest(e.test);
      ghost var c := Code();
      v := VisitArms(e, test);
      TestStable(c, Code(), e.test, |old(Code())|);
    }

    /** The part of a ternary that follows its test, with a dummy where the test jump goes. */
    method VisitArms(e: Expr, test: nat) returns (v: nat)
      requires Valid() && e.Ternary? && test == |Code()| - 1
      modifies this
      ensures Valid() && old(Code()) <= Code()
      ensures |Code()| == ArmsEnd(e, |old(Code())|) && ArmsAt(Code(), e, |old(Code())|) && v == |Code()| - 1
      decreases e, 0
    {
      ghost var c1 := Code();
      var testJump := EmitTwo(Nop, JumpTarget);
      var trueValue := VisitExpr(e.body);
      ghost var c2 := Code();
      var afterTrue := EmitTwo(Br(INVALID_VALUE), JumpTarget);
      var falseHeader := afterTrue + 1;
      var falseValue := VisitExpr(e.orelse);
      ghost var c3 := Code();
      var afterFalse := EmitTwo(Br(INVALID_VALUE), PhiRecv);
      v := afterFalse + 1;
      PatchThree(testJump, If(test, None, Some(falseHeader)),
                 afterTrue, PhiJump(v, trueValue), afterFalse, PhiJump(v, falseValue));
      ArmsPatched(c1, c2, c3, Code(), e);
    }

    method VisitExprs(es: Exprs) returns (vs: seq<nat>)
      requires Valid()
      modifies this
      ensures Valid() && AppendedAll(old(Code()), es, Code()) && vs == ExprsSlots(es, |old(Code())|)
      decreases es, 2
    {
      match es
      case NoExprs => vs := [];
      case MoreExprs(h, t) =>
        var v := VisitExpr(h);
        ghost var c := Code();
        var rest := VisitExprs(t);
        vs := [v] + rest;
        ExprStable(c, Code(), h, |old(Code())|);
    }

    /** A loop up to the jump target of its body; `c1` is what precedes the test jump. */
    method OpenLoop(test: Expr) returns (start: nat, v: nat, jump: nat, ghost c1: seq<Inst>)
      requires Valid()
      modifies this
      ensures Valid() && start == |old(Code())| + 1 && v == ExprSlot(test, |old(Code())| + 2) && jump == |c1|
      ensures old(Code()) + [Br(start), JumpTarget] <= c1 && |c1| == ExprEnd(test, start + 1) &&
        ExprAt(c1, test, start + 1)
      ensures Code() == c1 + [If(v, None, None), JumpTarget]
    {
      var toStart := EmitTwo(JumpTarget, JumpTarget);
      start := toStart + 1;
      Patch(toStart, Br(start));
      assert Code() == old(Code()) + [Br(start), JumpTarget];
      v := VisitExpr(test);
      c1 := Code();
      jump := EmitTwo(If(v, None, None), JumpTarget);
    }

    /** The back edge and the exit of a loop; only now is the test jump known. */
    method CloseLoop(start: nat, test: nat, jump: nat)
      requires Valid() && jump + 1 < |Code()|
      modifies this
      ensures Valid() && |Code()| == |old(Code())| + 2
      ensures forall i :: 0 <= i < |old(Code())| && i != jump ==> Code()[i] == old(Code())[i]
      ensures Code()[jump] == If(test, Some(jump + 1), Some(|old(Code())| + 1))
      ensures Code()[|old(Code())|] == Br(start) && Code()[|old(Code())| + 1] == JumpTarget
    {
      var backedge := EmitTwo(Br(start), JumpTarget);
      Patch(jump, If(test, Some(jump + 1), Some(backedge + 1)));
    }

    /** The tests of a chain, each followed by a jump to be patched, and the entry recorded for each branch. */
    method VisitTests(arms: Arms) returns (ifs: seq<nat>, entries: seq<nat>)
      requires Valid()
      modifies this
      ensures Valid() && TestsVisited(old(Code()), arms, Code(), ifs, entries) == true
      decreases arms
    {
      ifs, entries := [], [];
      match arms
      case NoArms =>
      case Arm(test, _, rest) =>
        var br, entry := VisitBranch(test);
        ghost var d := Code();
        ifs, entries := VisitTests(rest);
        TestsJoin(old(Code()), d, Code(), arms, ifs, entries);
        ifs, entries := [br] + ifs, [entry] + entries;
    }

    /** The test of one branch of a chain. */
    method VisitBranch(test: Expr) returns (br: nat, entry: nat)
      requires Valid()
      modifies this
      ensures Valid() && BranchVisited(old(Code()), test, Code())
      ensures br == |Code()| - 1 && entry == EntryOf(old(Code()))
    {
      if |inst| > 0 {
        entry := |inst| - 1;
      } else {
        entry := Emit(JumpTarget);
      }
      ghost var b := Code();
      var v := VisitTest(test);
      ghost var c := Code();
      br := Emit(If(v, Some(INVALID_VALUE), Some(INVALID_VALUE)));
      TestStable(c, Code(), test, |b|);
      assert c[..|b|] == b && Code()[..|b|] == b;
    }

    /** Give every jump of a chain its target, branch by branch. */
    method PatchChain(ifs: seq<nat>, entries: seq<nat>, heads: seq<nat>, tails: seq<nat>, after: nat, ghost mid: nat)
      requires Valid() && |ifs| == |entries| == |heads| == |tails|
      requires Increasing(ifs, 1, mid) && Increasing(tails, mid, |Code()|) && mid <= |Code()|
      requires |ifs| > 0 ==> EntriesOf(ifs, entries, entries[0])
      requires forall i :: 0 <= i < |ifs| ==> Code()[ifs[i]].If? && Code()[ifs[i]].test == ifs[i] - 1
      modifies this
      ensures Valid() && |Code()| == |old(Code())|
      ensures TestsPatched(Code(), ifs, heads, after)
      ensures TailsPatched(Code(), tails, after)
      ensures forall k :: 0 <= k < |Code()| && k !in ifs && k !in tails ==> Code()[k] == old(Code())[k]
    {
      var i := 0;
      while i < |ifs|
        invariant 0 <= i <= |ifs| && Valid() && Progress(old(Code()), Code(), ifs, heads, tails, after, i)
      {
        PatchNext(ifs, entries, heads, tails, after, i, old(Code()), mid);
        i := i + 1;
      }
    }

    /** One turn of the patching loop: settle the false edge of the previous branch, then this branch. */
    method PatchNext(ifs: seq<nat>, entries: seq<nat>, heads: seq<nat>, tails: seq<nat>, after: nat, i: nat,
                     ghost c0: seq<Inst>, ghost mid: nat)
      requires Valid() && i < |ifs| && |entries| == |ifs| && Progress(c0, Code(), ifs, heads, tails, after, i)
      requires Increasing(ifs, 1, mid) && Increasing(tails, mid, |Code()|)
      requires i > 0 ==> entries[i] == ifs[i - 1]
      modifies this
      ensures Valid() && Progress(c0, Code(), ifs, heads, tails, after, i + 1)
    {
      ghost var c := Code();
      if i > 0 {
        var prev := ifs[i - 1];
        Patch(prev, inst[prev].op.(falsey := Some(entries[i])));
        assert Code() == c[prev := c[prev].(falsey := Some(prev))];
      }
      PatchBranch(ifs[i], heads[i], tails[i], after);
      ProgressStep(c0, c, Code(), ifs, heads, tails, after, i, mid);
    }

    /** The jump target of an `else` body, made the false edge of the last test for the time being. */
    method OpenElse(ifs: seq<nat>)
      requires Valid() && (|ifs| > 0 ==> ifs[|ifs| - 1] < |Code()| && Code()[ifs[|ifs| - 1]].If?)
      modifies this
      ensures Valid() && Retargeted(old(Code()), Code(), ifs)
      ensures |Code()| == |old(Code())| + 1 && Code()[|old(Code())|] == JumpTarget
    {
      var orElseBody := Emit(JumpTarget);
      if |ifs| > 0 {
        var last := ifs[|ifs| - 1];
        Patch(last, inst[last].op.(falsey := Some(orElseBody)));
      }
    }

    /** The end of a chain: the jump target after it, and all the patches. */
    method FinishChain(s: Stmt, ifs: seq<nat>, entries: seq<nat>, heads: seq<nat>, tails: seq<nat>, orElseTail: int,
                       ghost c1: seq<Inst>, ghost at: nat, ghost ns: nat)
      requires Valid() && s.IfChain? && ChainVisited(c1, Code(), s, at, ns, ifs)
      requires EntriesOf(ifs, entries, if |entries| > 0 then entries[0] else 0)
      requires heads == Heads(s.arms, ChainBodies(s.arms, at)) && tails == Tails(s.arms, ChainBodies(s.arms, at))
      requires orElseTail == if s.orelse.NoElse? then INVALID_VALUE else |Code()| - 1
      modifies this
      ensures Valid() && Placed(c1[..at], s, Code(), ns)
    {
      ghost var d := Code();
      ChainReady(c1, d, s, at, ns);
      SetJumps(ifs, entries, heads, tails, orElseTail, ChainBodies(s.arms, at), |c1|);
      ChainPatched(c1, d, Code(), s, at, ns);
    }

    method SetJumps(ifs: seq<nat>, entries: seq<nat>, heads: seq<nat>, tails: seq<nat>, orElseTail: int,
          ghost mid: nat, ghost hi: nat)
      requires Valid() && JumpsOpen(Code(), ifs, heads, tails, mid, hi)
      requires EntriesOf(ifs, entries, if |entries| > 0 then entries[0] else 0)
      requires orElseTail == INVALID_VALUE || hi <= orElseTail == |Code()| - 1
      modifies this
      ensures Valid() && JumpsSet(old(Code()), Code(), ifs, heads, tails, orElseTail != INVALID_VALUE)
    {
      ghost var d := Code();
      var after := Emit(JumpTarget);
      PatchChain(ifs, entries, heads, tails, after, mid);
      ghost var e := Code();
      assert JumpsSet(d, e, ifs, heads, tails, false);
      if orElseTail != INVALID_VALUE {
        Patch(orElseTail, Br(after));
        ElseSet(d, e, Code(), ifs, heads, tails, mid, hi);
      }
    }

    method PatchBranch(br: nat, head: nat, tail: nat, after: nat)
      requires Valid() && br < tail < |Code()| && Code()[br].If?
      modifies this
      ensures Valid() &&
        Code() == old(Code())[br := If(old(Code())[br].test, Some(head), Some(after))][tail := Br(after)]
    {
      Patch(br, inst[br].op.(truthy := Some(head), falsey := Some(after)));
      Patch(tail, Br(after));
    }

    // ---- parts of statements that stay in the current sequence ----

    method VisitOpt(e: Option<Expr>) returns (v: Option<nat>)
      requires Valid()
      modifies this
      ensures Valid() && old(Code()) <= Code()
      ensures |Code()| == OptEnd(e, |old(Code())|) && OptAt(Code(), e, |old(Code())|) && v == OptSlot(e, |old(Code())|)
    {
      v := None;
      if e.Some? {
        var x := VisitExpr(e.value);
        v := Some(x);
      }
    }

    method VisitParams(ps: Params) returns (vs: seq<(Name, Option<nat>)>)
      requires Valid()
      modifies this
      ensures Valid() && old(Code()) <= Code()
      ensures |Code()| == ParamsEnd(ps, |old(Code())|) && ParamsAt(Code(), ps, |old(Code())|)
      ensures vs == ParamsSlots(ps, |old(Code())|)
      decreases ps
    {
      match ps
      case NoParams => vs := [];
      case Param(n, ann, rest) =>
        var v := VisitOpt(ann);
        ghost var c := Code();
        var ws := VisitParams(rest);
        vs := [(n, v)] + ws;
        OptStable(c, Code(), ann, |old(Code())|);
    }

    /** Call each decorator on the result of the one before. */
    method EmitCalls(decs: seq<nat>, func: nat) returns (v: nat)
      requires Valid()
      modifies this
      ensures Valid() && old(Code()) <= Code()
      ensures |Code()| == |old(Code())| + |decs| && CallsAt(Code(), decs, func, |old(Code())|)
      ensures v == if decs == [] then func else |Code()| - 1
      decreases decs
    {
      v := func;
      if decs != [] {
        ghost var at := |Code()|;
        var call := Emit(Call(decs[0], [func]));
        v := EmitCalls(decs[1..], call);
        assert Code()[at] == Call(decs[0], [func]);
      }
    }

    /** What a definition evaluates before its body is lowered: decorators, annotations, result annotation. */
    method OpenDef(s: Stmt) returns (decs: seq<nat>, params: seq<(Name, Option<nat>)>, result: Option<nat>)
      requires Valid() && s.FuncDef?
      modifies this
      ensures Valid() && Opened(old(Code()), s, Code())
      ensures decs == ExprsSlots(Reverse(s.decorators), |old(Code())|)
      ensures params == ParamsSlots(s.params, ExprsEnd(Reverse(s.decorators), |old(Code())|))
      ensures result == OptSlot(s.result, ParamsEnd(s.params, ExprsEnd(Reverse(s.decorators), |old(Code())|)))
    {
      decs := VisitExprs(Reverse(s.decorators));
      ghost var c := Code();
      params := VisitParams(s.params);
      ghost var d := Code();
      result := VisitOpt(s.result);
      ExprsStable(c, Code(), Reverse(s.decorators), |old(Code())|);
      ParamsStable(d, Code(), s.params, |c|);
    }

    /** The definition itself, its binding, and the decorator calls. */
    method CloseDef(s: Stmt, decs: seq<nat>, params: seq<(Name, Option<nat>)>, result: Option<nat>, id: nat,
          ghost at: nat)
      returns (v: nat)
      requires Valid() && s.FuncDef? && at <= |Code()| && Opened(Code()[..at], s, Code())
      requires decs == ExprsSlots(Reverse(s.decorators), at)
      requires params == ParamsSlots(s.params, ExprsEnd(Reverse(s.decorators), at))
      requires result == OptSlot(s.result, ParamsEnd(s.params, ExprsEnd(Reverse(s.decorators), at)))
      modifies this
      ensures Valid() && Placed(old(Code()[..at]), s, Code(), id)
    {
      ghost var c := Code();
      var func := EmitTwo(Defn(s.name, params, result, id), SetVar(s.name, |inst|));
      ghost var d := Code();
      v := EmitCalls(decs, func);
      DefPlaced(c, Code(), s, at, id);
    }

    method VisitSimple(s: Stmt, ghost ns: nat) returns (v: nat)
      requires Valid() && !s.While? && !s.IfChain? && !s.FuncDef?
      modifies this
      ensures Valid() && Placed(old(Code()), s, Code(), ns)
    {
      match s
      case ExprStmt(e) => v := VisitExpr(e);
      case Assign(n, e) =>
        var value := VisitExpr(e);
        ghost var c := Code();
        v := Emit(SetVar(n, value));
        ExprStable(c, Code(), e, |old(Code())|);
      case AssignAttr(_, _, _) => v := VisitAssignAttr(s, ns);
      case Annotate(n, k) =>
        var annotation := VisitExpr(k);
        ghost var c := Code();
        v := Emit(SetAnnotation(n, annotation));
        ExprStable(c, Code(), k, |old(Code())|);
      case ReturnStmt(None) =>
        var rv := Emit(Const(NoneConst));
        v := Emit(Return(rv));
      case ReturnStmt(Some(e)) =>
        var rv := VisitExpr(e);
        ghost var c := Code();
        v := Emit(Return(rv));
        ExprStable(c, Code(), e, |old(Code())|);
      case Pass => v := Emit(Nop);
    }

    method VisitAssignAttr(s: Stmt, ghost ns: nat) returns (v: nat)
      requires Valid() && s.AssignAttr?
      modifies this
      ensures Valid() && Placed(old(Code()), s, Code(), ns)
    {
      var object_ := VisitExpr(s.object_);
      ghost var c := Code();
      var attr := Emit(RefAsStr(s.attr));
      var value := VisitExpr(s.value);
      ghost var d := Code();
      v := Emit(SetAttribute(object_, attr, value));
      AssignAttrPlaced(old(Code()), c, d, Code(), s, ns);
    }
  }

  /** Patching the three placeholders of a ternary completes its layout. */
  lemma {:induction false} ArmsPatched(c1: seq<Inst>, c2: seq<Inst>, c3: seq<Inst>, z: seq<Inst>, e: Expr)
    requires e.Ternary? && |c1| > 0
    requires c1 + [Nop, JumpTarget] <= c2 && |c2| == ExprEnd(e.body, |c1| + 2) && ExprAt(c2, e.body, |c1| + 2)
    requires c2 + [Br(INVALID_VALUE), JumpTarget] <= c3 && |c3| == ExprEnd(e.orelse, |c2| + 2) &&
      ExprAt(c3, e.orelse, |c2| + 2)
    requires |z| == |c3| + 2 && forall i :: 0 <= i < |c3| && i != |c1| && i != |c2| ==> z[i] == c3[i]
    requires z[|c1|] == If(|c1| - 1, None, Some(|c2| + 1))
    requires z[|c2|] == PhiJump(|c3| + 1, ExprSlot(e.body, |c1| + 2))
    requires z[|c3|] == PhiJump(|c3| + 1, ExprSlot(e.orelse, |c2| + 2)) && z[|c3| + 1] == PhiRecv
    ensures c1 <= z && |z| == ArmsEnd(e, |c1|) && ArmsAt(z, e, |c1|)
  {
    ArmsKept(c1, c2, c3, z);
    ArmsComplete(c2, c3, z, e, |c1|);
  }

  lemma {:induction false} ArmsComplete(c2: seq<Inst>, c3: seq<Inst>, z: seq<Inst>, e: Expr, at: nat)
    requires e.Ternary? && at > 0
    requires |c2| == ExprEnd(e.body, at + 2) && ExprAt(c2, e.body, at + 2) && AgreeOn(c2, z, at + 2, |c2|)
    requires |c3| == ExprEnd(e.orelse, |c2| + 2) && ExprAt(c3, e.orelse, |c2| + 2) && AgreeOn(c3, z, |c2| + 2, |c3|)
    requires |z| == |c3| + 2
    requires z[at] == If(at - 1, None, Some(|c2| + 1)) && z[at + 1] == JumpTarget
    requires z[|c2|] == PhiJump(|c3| + 1, ExprSlot(e.body, at + 2)) && z[|c2| + 1] == JumpTarget
    requires z[|c3|] == PhiJump(|c3| + 1, ExprSlot(e.orelse, |c2| + 2)) && z[|c3| + 1] == PhiRecv
    ensures |z| == ArmsEnd(e, at) && ArmsAt(z, e, at)
  {
    ExprStable(c2, z, e.body, at + 2);
    ExprStable(c3, z, e.orelse, |c2| + 2);
  }

  lemma {:induction false} ArmsKept(c1: seq<Inst>, c2: seq<Inst>, c3: seq<Inst>, z: seq<Inst>)
    requires c1 + [Nop, JumpTarget] <= c2 && c2 + [Br(INVALID_VALUE), JumpTarget] <= c3
    requires |z| == |c3| + 2 && z[|c3| + 1] == PhiRecv
    requires forall i :: 0 <= i < |c3| && i != |c1| && i != |c2| ==> z[i] == c3[i]
    ensures c1 <= z && z[|c1| + 1] == JumpTarget && z[|c2| + 1] == JumpTarget
    ensures AgreeOn(c2, z, |c1| + 2, |c2|) && AgreeOn(c3, z, |c2| + 2, |c3|)
  {
    assert c3[|c1| + 1] == c2[|c1| + 1] == (c1 + [Nop, JumpTarget])[|c1| + 1];
    assert c3[|c2| + 1] == (c2 + [Br(INVALID_VALUE), JumpTarget])[|c2| + 1];
    forall i | 0 <= i < |c1| ensures z[i] == c1[i] { assert c3[i] == c2[i]; }
  }

  lemma {:induction false} AssignAttrPlaced(c0: seq<Inst>, c: seq<Inst>, d: seq<Inst>, z: seq<Inst>, s: Stmt, ns: nat)
    requires s.AssignAttr? && Appended(c0, s.object_, c) && Appended(c + [RefAsStr(s.attr)], s.value, d)
    requires z == d + [SetAttribute(ExprSlot(s.object_, |c0|), |c|, ExprSlot(s.value, |c| + 1))]
    ensures Placed(c0, s, z, ns)
  {
    assert d[|c|] == (c + [RefAsStr(s.attr)])[|c|];
    assert c <= d && d <= z;
    ExprStable(c, z, s.object_, |c0|);
    ExprStable(d, z, s.value, |c| + 1);
  }

  lemma {:induction false} ThenPlaced(c0: seq<Inst>, c: seq<Inst>, d: seq<Inst>, h: Stmt, t: Block, ns: nat)
    requires Placed(c0, h, c, ns) && PlacedBlock(c, t, d, ns + Defs(h))
    ensures PlacedBlock(c0, Then(h, t), d, ns)
  {
    StmtStable(c, d, h, |c0|, ns);
  }

  class FlatCode {
    var sequenceIndex: nat
    var sequences: seq<FlatSeq>

    ghost predicate Valid()
      reads this, if sequenceIndex < |sequences| then {sequences[sequenceIndex]} else {}
    {
      sequenceIndex < |sequences| && sequences[sequenceIndex].Valid()
    }

    /** The current sequence. */
    function Cur(): FlatSeq
      requires sequenceIndex < |sequences|
      reads this
    {
      sequences[sequenceIndex]
    }

    constructor ()
      ensures Valid() && sequenceIndex == 0 && |sequences| == 1 && sequences[0].Code() == []
      ensures fresh(sequences[0])
    {
      var s := new FlatSeq();
      sequenceIndex, sequences := 0, [s];
    }

    /** Old sequences are kept, and new ones with the instructions `added` follow them. */
    twostate predicate Kept(added: seq<seq<Inst>>)
      reads this, sequences
    {
      && Valid() && sequenceIndex == old(sequenceIndex)
      && |sequences| == |old(sequences)| + |added| && old(sequences) <= sequences
      && forall k :: |old(sequences)| <= k < |sequences| ==>
           fresh(sequences[k]) && sequences[k].Valid() && sequences[k].Code() == Sequence(added, |old(sequences)|, k)
    }

    method VisitBlock(b: Block) returns (ghost added: seq<seq<Inst>>)
      requires Valid()
      modifies this, Cur()
      ensures Kept(added) && |added| == BlockDefs(b)
      ensures PlacedBlock(old(Cur().Code()), b, Cur().Code(), |old(sequences)|)
      ensures BlockSeqs(added, |old(sequences)|, b, |old(sequences)|)
      decreases b, 5
    {
      added := [];
      match b
      case Empty =>
      case Then(h, t) =>
        ghost var ns := |sequences|;
        ghost var a1;
        a1 := VisitStmt(h);
        ghost var c := Cur().Code();
        ghost var a2 := VisitBlock(t);
        added := a1 + a2;
        assert PlacedBlock(old(Cur().Code()), b, Cur().Code(), ns) by {
          ThenPlaced(old(Cur().Code()), c, Cur().Code(), h, t, ns);
        }
        ThenSeqs(a1, a2, h, t, ns);
        forall k | ns <= k < |sequences| ensures sequences[k].Code() == Sequence(added, ns, k) {
          TableJoin(a1, a2, ns, k);
        }
    }

    method VisitStmt(s: Stmt) returns (ghost added: seq<seq<Inst>>)
      requires Valid()
      modifies this, Cur()
      ensures Kept(added) && |added| == Defs(s)
      ensures Placed(old(Cur().Code()), s, Cur().Code(), |old(sequences)|)
      ensures StmtSeqs(added, |old(sequences)|, s, |old(sequences)|)
      decreases s, 5
    {
      if s.While? {
        added := VisitWhile(s);
      } else if s.FuncDef? {
        added := VisitFuncDef(s);
      } else if s.IfChain? {
        added := VisitIfStmt(s);
      } else {
        var _ := Cur().VisitSimple(s, |sequences|);
        added := [];
      }
    }

    method VisitWhile(s: Stmt) returns (ghost added: seq<seq<Inst>>)
      requires Valid() && s.While?
      modifies this, Cur()
      ensures Kept(added) && |added| == Defs(s)
      ensures Placed(old(Cur().Code()), s, Cur().Code(), |old(sequences)|)
      ensures BlockSeqs(added, |old(sequences)|, s.body, |old(sequences)|)
      decreases s, 4
    {
      ghost var c0 := Cur().Code();
      ghost var c1;
      var start, test, jump;
      start, test, jump, c1 := Cur().OpenLoop(s.test);
      added := VisitBlock(s.body);
      ghost var c2 := Cur().Code();
      Cur().CloseLoop(start, test, jump);
      WhilePatched(c0, c1, c2, Cur().Code(), s, |old(sequences)|);
    }

    method VisitFuncDef(s: Stmt) returns (ghost added: seq<seq<Inst>>)
      requires Valid() && s.FuncDef?
      modifies this, Cur()
      ensures Kept(added) && |added| == Defs(s)
      ensures Placed(old(Cur().Code()), s, Cur().Code(), |old(sequences)|)
      ensures StmtSeqs(added, |old(sequences)|, s, |old(sequences)|)
      decreases s, 4
    {
      ghost var at := |Cur().Code()|;
      var decorators, params, result := Cur().OpenDef(s);
      var sequenceId;
      sequenceId, added := NewSequence(s.body);
      var _ := Cur().CloseDef(s, decorators, params, result, sequenceId, at);
    }

    /** `with_new_sequence`: lower a function body into a sequence of its own and come back. */
    method NewSequence(body: Block) returns (index: nat, ghost added: seq<seq<Inst>>)
      requires Valid()
      modifies this
      ensures index == |old(sequences)| && Kept(added) && |added| == 1 + BlockDefs(body)
      ensures Cur() == old(Cur()) && Cur().Code() == old(Cur().Code())
      ensures BodyAt(added, index, index, body) && BlockSeqs(added, index, body, index + 1)
      decreases body, 6
    {
      var oldIndex := sequenceIndex;
      sequenceIndex := |sequences|;
      var s := new FlatSeq();
      sequences := sequences + [s];
      index := sequenceIndex;
      ghost var inner := VisitBlock(body);
      sequenceIndex := oldIndex;
      added := [s.Code()] + inner;
      NewSeqs(s.Code(), inner, body, index);
    }

    method VisitIfStmt(s: Stmt) returns (ghost added: seq<seq<Inst>>)
      requires Valid() && s.IfChain?
      modifies this, Cur()
      ensures Kept(added) && |added| == Defs(s)
      ensures Placed(old(Cur().Code()), s, Cur().Code(), |old(sequences)|)
      ensures StmtSeqs(added, |old(sequences)|, s, |old(sequences)|)
      decreases s, 4
    {
      ghost var at, ns := |Cur().Code()|, |sequences|;
      var ifs, entries, heads, tails, orElseTail;
      ghost var c1;
      ifs, entries, heads, tails, orElseTail, c1, added := VisitChainParts(s);
      Cur().FinishChain(s, ifs, entries, heads, tails, orElseTail, c1, at, ns);
    }

    /** All parts of a chain, with its jumps still open; `c1` ends with the bodies. */
    method VisitChainParts(s: Stmt)
      returns (ifs: seq<nat>, entries: seq<nat>, heads: seq<nat>, tails: seq<nat>, orElseTail: int,
        ghost c1: seq<Inst>, ghost added: seq<seq<Inst>>)
      requires Valid() && s.IfChain?
      modifies this, Cur()
      ensures Kept(added) && |added| == Defs(s)
      ensures StmtSeqs(added, |old(sequences)|, s, |old(sequences)|) == true
      ensures old(Cur().Code()) <= c1 &&
        ChainVisited(c1, Cur().Code(), s, |old(Cur().Code())|, |old(sequences)|, ifs) == true
      ensures EntriesOf(ifs, entries, if |entries| > 0 then entries[0] else 0)
      ensures heads == Heads(s.arms, ChainBodies(s.arms, |old(Cur().Code())|))
      ensures tails == Tails(s.arms, ChainBodies(s.arms, |old(Cur().Code())|))
      ensures orElseTail == if s.orelse.NoElse? then INVALID_VALUE else |Cur().Code()| - 1
      decreases s, 3
    {
      ghost var at, ns := |Cur().Code()|, |sequences|;
      ifs, entries := Cur().VisitTests(s.arms);
      ghost var c := Cur().Code();
      assert |ifs| > 0 ==> ifs[|ifs| - 1] < |c| && c[ifs[|ifs| - 1]].If? by {
        TestsKept(c, c, s.arms, ChainTests(s.arms, at));
      }
      heads, tails, orElseTail, c1, added := VisitBranches(s, ifs);
      ghost var c0, d := old(Cur().Code()), Cur().Code();
      assert c0 <= c1 && ChainVisited(c1, d, s, at, ns, ifs) == true by {
        ChainIsVisited(c0, c, c1, d, s, ns, ifs, entries);
      }
    }

    /** What follows the tests of a chain. */
    method VisitBranches(s: Stmt, ifs: seq<nat>)
      returns (heads: seq<nat>, tails: seq<nat>, orElseTail: int, ghost c1: seq<Inst>, ghost added: seq<seq<Inst>>)
      requires Valid() && s.IfChain?
      requires |ifs| > 0 ==> ifs[|ifs| - 1] < |Cur().Code()| && Cur().Code()[ifs[|ifs| - 1]].If?
      modifies this, Cur()
      ensures Kept(added) && |added| == Defs(s)
      ensures StmtSeqs(added, |old(sequences)|, s, |old(sequences)|) == true
      ensures old(Cur().Code()) <= c1 && |c1| == BodiesEnd(s.arms, |old(Cur().Code())|)
      ensures BodiesShape(c1, s.arms, |old(Cur().Code())|, |old(sequences)|) == true
      ensures ElsePlaced(c1, s.orelse, Cur().Code(), |old(sequences)| + ArmsDefs(s.arms), ifs) == true
      ensures heads == Heads(s.arms, |old(Cur().Code())|) && tails == Tails(s.arms, |old(Cur().Code())|)
      ensures orElseTail == if s.orelse.NoElse? then INVALID_VALUE else |Cur().Code()| - 1
      decreases s, 2
    {
      ghost var ns := |sequences|;
      ghost var a1, a2;
      heads, tails, a1 := VisitBodies(s.arms);
      c1 := Cur().Code();
      orElseTail, a2 := VisitElse(s.orelse, ifs);
      added := a1 + a2;
      assert |added| == Defs(s) && StmtSeqs(added, ns, s, ns) == true by { ChainSeqs(a1, a2, s, ns); }
      assert Kept(added) by {
        forall k | ns <= k < |sequences| ensures sequences[k].Code() == Sequence(added, ns, k) {
          TableJoin(a1, a2, ns, k);
        }
      }
    }

    /** The `else` body.  The false edge of the last test is set to it, only to be overwritten later. */
    method VisitElse(o: OrElse, ifs: seq<nat>) returns (tail: int, ghost added: seq<seq<Inst>>)
      requires Valid()
      requires |ifs| > 0 ==> ifs[|ifs| - 1] < |Cur().Code()| && Cur().Code()[ifs[|ifs| - 1]].If?
      modifies this, Cur()
      ensures Kept(added) && |added| == ElseDefs(o)
      ensures ElsePlaced(old(Cur().Code()), o, Cur().Code(), |old(sequences)|, ifs)
      ensures tail == if o.NoElse? then INVALID_VALUE else |Cur().Code()| - 1
      ensures ElseSeqs(added, |old(sequences)|, o, |old(sequences)|)
      decreases o, 6
    {
      tail, added := INVALID_VALUE, [];
      match o
      case NoElse =>
      case Else(body) =>
        ghost var c := Cur().Code();
        Cur().OpenElse(ifs);
        ghost var d := Cur().Code();
        added := VisitBlock(body);
        ghost var e := Cur().Code();
        tail := Cur().Emit(Br(INVALID_VALUE));
        ElseClosed(c, d, e, Cur().Code(), o, |old(sequences)|, ifs);
    }

    /** The bodies of a chain, each left with an unpatched branch at its end. */
    method VisitBodies(arms: Arms) returns (heads: seq<nat>, tails: seq<nat>, ghost added: seq<seq<Inst>>)
      requires Valid()
      modifies this, Cur()
      ensures Kept(added) && |added| == ArmsDefs(arms)
      ensures BodiesVisited(old(Cur().Code()), arms, Cur().Code(), |old(sequences)|, heads, tails) == true
      ensures ArmsSeqs(added, |old(sequences)|, arms, |old(sequences)|) == true
      decreases arms, 6
    {
      heads, tails, added := [], [], [];
      match arms
      case NoArms =>
      case Arm(_, body, rest) =>
        ghost var ns := |sequences|;
        var head, tail;
        ghost var a1, a2;
        head, tail, a1 := VisitBody(body);
        ghost var c := Cur().Code();
        heads, tails, a2 := VisitBodies(rest);
        added := a1 + a2;
        assert Kept(added) by {
          forall k | ns <= k < |sequences| ensures sequences[k].Code() == Sequence(added, ns, k) {
            TableJoin(a1, a2, ns, k);
          }
        }
        BodiesJoin(old(Cur().Code()), c, Cur().Code(), arms, ns, head, tail, heads, tails, a1, a2);
        heads, tails := [head] + heads, [tail] + tails;
    }

    /** One body of a chain, between its jump target and a branch to be patched. */
    method VisitBody(body: Block) returns (head: nat, tail: nat, ghost added: seq<seq<Inst>>)
      requires Valid()
      modifies this, Cur()
      ensures Kept(added) && |added| == BlockDefs(body) && head == |old(Cur().Code())|
      ensures tail == BlockEnd(body, head + 1)
      ensures BodyPlaced(old(Cur().Code()), body, Cur().Code(), |old(sequences)|) == true
      ensures BlockSeqs(added, |old(sequences)|, body, |old(sequences)|) == true
      decreases body, 6
    {
      head := Cur().Emit(JumpTarget);
      ghost var c := Cur().Code();
      added := VisitBlock(body);
      ghost var d := Cur().Code();
      tail := Cur().Emit(Br(INVALID_VALUE));
      BlockStable(d, Cur().Code(), body, |c|, |old(sequences)|);
      assert d[head] == c[head];
    }
  }

  /** `d` is `c` with the false edge of the last test changed. */
  ghost predicate Retargeted(c: seq<Inst>, d: seq<Inst>, ifs: seq<nat>) {
    && |c| <= |d|
    && forall k :: 0 <= k < |c| ==>
         d[k] == c[k] || (c[k].If? && d[k].If? && d[k].test == c[k].test && k in ifs)
  }

  ghost predicate ElsePlaced(c: seq<Inst>, o: OrElse, d: seq<Inst>, ns: nat, ifs: seq<nat>) {
    Retargeted(c, d, ifs) && |d| == ElseEnd(o, |c|) && ElseAt(d, o, |c|, ns, INVALID_VALUE)
  }

  /** All parts of a chain are in place in `c`, where `c1` ends with the bodies; only the jumps are open. */
  ghost predicate ChainVisited(c1: seq<Inst>, c: seq<Inst>, s: Stmt, at: nat, ns: nat, ifs: seq<nat>)
    requires s.IfChain?
  {
    var p := ChainTests(s.arms, at);
    var q := ChainBodies(s.arms, at);
    && at <= |c1| == BodiesEnd(s.arms, q)
    && (at == 0 && s.arms.Arm? ==> c1[0] == JumpTarget)
    && TestsShape(c1, s.arms, p) && BodiesShape(c1, s.arms, q, ns)
    && ifs == Ifs(s.arms, p) && ElsePlaced(c1, s.orelse, c, ns + ArmsDefs(s.arms), ifs)
  }

  lemma {:induction false} ElseClosed(c: seq<Inst>, d: seq<Inst>, e: seq<Inst>, z: seq<Inst>, o: OrElse, ns: nat,
        ifs: seq<nat>)
    requires o.Else? && Retargeted(c, d, ifs) && |d| == |c| + 1 && d[|c|] == JumpTarget
    requires PlacedBlock(d, o.body, e, ns) && z == e + [Br(INVALID_VALUE)]
    ensures ElsePlaced(c, o, z, ns, ifs)
  {
    BlockStable(e, z, o.body, |d|, ns);
    ElseKept(c, d, z, ifs);
  }

  lemma {:induction false} ElseKept(c: seq<Inst>, d: seq<Inst>, z: seq<Inst>, ifs: seq<nat>)
    requires Retargeted(c, d, ifs) && |d| == |c| + 1 && d <= z
    ensures Retargeted(c, z, ifs) && z[|c|] == d[|c|]
  {
    forall k | 0 <= k < |c| ensures z[k] == d[k] { }
  }

  lemma {:induction false} ChainSeqs(a1: seq<seq<Inst>>, a2: seq<seq<Inst>>, s: Stmt, ns: nat)
    requires s.IfChain? && |a1| == ArmsDefs(s.arms) && ArmsSeqs(a1, ns, s.arms, ns)
    requires |a2| == ElseDefs(s.orelse) && ElseSeqs(a2, ns + |a1|, s.orelse, ns + |a1|)
    ensures |a1 + a2| == Defs(s) && StmtSeqs(a1 + a2, ns, s, ns)
  {
    ArmsSeqsStable(a1, ns, a1 + a2, ns, s.arms, ns);
    ElseSeqsStable(a2, ns + |a1|, a1 + a2, ns, s.orelse, ns + |a1|);
  }

  ghost predicate BodyPlaced(c: seq<Inst>, body: Block, d: seq<Inst>, ns: nat) {
    var k := BlockEnd(body, |c| + 1);
    && c <= d && |d| == k + 1 && d[|c|] == JumpTarget && BlockAt(d, body, |c| + 1, ns) && d[k] == Br(INVALID_VALUE)
  }

  /** The entry recorded for a branch: the instruction before it, or the jump target put there for it. */
  function EntryOf(c: seq<Inst>): nat {
    if |c| == 0 then 0 else |c| - 1
  }

  /** A test and its unpatched jump were appended to `c`, giving `d`. */
  ghost predicate BranchVisited(c: seq<Inst>, test: Expr, d: seq<Inst>) {
    var at := if |c| == 0 then 1 else |c|;
    var p := TestEnd(test, at);
    && c <= d && |d| == p + 1 && (|c| == 0 ==> d[0] == JumpTarget)
    && TestAt(d, test, at) && d[p] == If(p - 1, Some(INVALID_VALUE), Some(INVALID_VALUE))
  }

  ghost predicate TestsVisited(c: seq<Inst>, arms: Arms, z: seq<Inst>, ifs: seq<nat>, entries: seq<nat>) {
    var at := ChainTests(arms, |c|);
    && c <= z && |z| == TestsEnd(arms, at) && (|c| == 0 && arms.Arm? ==> z[0] == JumpTarget)
    && TestsShape(z, arms, at) && ifs == Ifs(arms, at) && EntriesOf(ifs, entries, EntryOf(c))
  }

  lemma {:induction false} TestsJoin(c: seq<Inst>, d: seq<Inst>, z: seq<Inst>, arms: Arms, ifs: seq<nat>,
        entries: seq<nat>)
    requires arms.Arm? && BranchVisited(c, arms.test, d) && TestsVisited(d, arms.rest, z, ifs, entries)
    ensures TestsVisited(c, arms, z, [|d| - 1] + ifs, [EntryOf(c)] + entries)
  {
    var at := ChainTests(arms, |c|);
    TestStable(d, z, arms.test, at);
    EntriesCons(|d| - 1, ifs, EntryOf(c), entries);
    assert |c| == 0 ==> z[0] == d[0];
    assert c <= z;
  }

  /** The bodies of a chain were appended to `c`, giving `d`; they begin at `heads` and end at `tails`. */
  ghost predicate BodiesVisited(c: seq<Inst>, arms: Arms, d: seq<Inst>, ns: nat, heads: seq<nat>, tails: seq<nat>) {
    && c <= d && |d| == BodiesEnd(arms, |c|) && BodiesShape(d, arms, |c|, ns)
    && heads == Heads(arms, |c|) && tails == Tails(arms, |c|)
  }

  /** A body and the ones after it, with the sequences of the functions in them. */
  lemma {:induction false} BodiesJoin(c0: seq<Inst>, c: seq<Inst>, d: seq<Inst>, arms: Arms, ns: nat, head: nat,
        tail: nat,
      heads: seq<nat>, tails: seq<nat>, a1: seq<seq<Inst>>, a2: seq<seq<Inst>>)
    requires arms.Arm? && BodyPlaced(c0, arms.body, c, ns) == true
    requires head == |c0| && tail == BlockEnd(arms.body, |c0| + 1)
    requires |a1| == BlockDefs(arms.body) && BlockSeqs(a1, ns, arms.body, ns)
    requires BodiesVisited(c, arms.rest, d, ns + |a1|, heads, tails) == true
    requires |a2| == ArmsDefs(arms.rest) && ArmsSeqs(a2, ns + |a1|, arms.rest, ns + |a1|)
    ensures BodiesVisited(c0, arms, d, ns, [head] + heads, [tail] + tails) == true
    ensures |a1 + a2| == ArmsDefs(arms) && ArmsSeqs(a1 + a2, ns, arms, ns) == true
  {
    BodiesVisitedJoin(c0, c, d, arms, ns, heads, tails);
    ArmsSeqsJoin(a1, a2, arms, ns);
  }

  lemma {:induction false} BodiesVisitedJoin(c0: seq<Inst>, c: seq<Inst>, d: seq<Inst>, arms: Arms, ns: nat,
      heads: seq<nat>, tails: seq<nat>)
    requires arms.Arm? && BodyPlaced(c0, arms.body, c, ns)
    requires BodiesVisited(c, arms.rest, d, ns + BlockDefs(arms.body), heads, tails)
    ensures BodiesVisited(c0, arms, d, ns, [|c0|] + heads, [BlockEnd(arms.body, |c0| + 1)] + tails)
  {
    BlockStable(c, d, arms.body, |c0| + 1, ns);
    assert c0 <= d;
  }

  lemma {:induction false} ArmsSeqsJoin(a1: seq<seq<Inst>>, a2: seq<seq<Inst>>, arms: Arms, ns: nat)
    requires arms.Arm? && |a1| == BlockDefs(arms.body) && BlockSeqs(a1, ns, arms.body, ns)
    requires |a2| == ArmsDefs(arms.rest) && ArmsSeqs(a2, ns + |a1|, arms.rest, ns + |a1|)
    ensures |a1 + a2| == ArmsDefs(arms) && ArmsSeqs(a1 + a2, ns, arms, ns)
  {
    BlockSeqsStable(a1, ns, a1 + a2, ns, arms.body, ns);
    ArmsSeqsStable(a2, ns + |a1|, a1 + a2, ns, arms.rest, ns + |a1|);
  }

  lemma {:induction false} TableJoin(a1: seq<seq<Inst>>, a2: seq<seq<Inst>>, ns: nat, k: nat)
    requires ns <= k < ns + |a1| + |a2|
    ensures Sequence(a1 + a2, ns, k) == if k < ns + |a1| then Sequence(a1, ns, k) else Sequence(a2, ns + |a1|, k)
  {
  }

  /** Patching the test jump of a loop completes its layout. */
  lemma {:induction false} WhilePatched(c0: seq<Inst>, c1: seq<Inst>, c2: seq<Inst>, z: seq<Inst>, s: Stmt, ns: nat)
    requires s.While?
    requires c0 + [Br(|c0| + 1), JumpTarget] <= c1 && |c1| == ExprEnd(s.test, |c0| + 2) && ExprAt(c1, s.test, |c0| + 2)
    requires c1 + [If(ExprSlot(s.test, |c0| + 2), None, None), JumpTarget] <= c2
    requires |c2| == BlockEnd(s.body, |c1| + 2) && BlockAt(c2, s.body, |c1| + 2, ns)
    requires |z| == |c2| + 2 && forall i :: 0 <= i < |c2| && i != |c1| ==> z[i] == c2[i]
    requires z[|c1|] == If(ExprSlot(s.test, |c0| + 2), Some(|c1| + 1), Some(|c2| + 1))
    requires z[|c2|] == Br(|c0| + 1) && z[|c2| + 1] == JumpTarget
    ensures Placed(c0, s, z, ns)
  {
    WhileKept(c0, c1, c2, z, ExprSlot(s.test, |c0| + 2));
    WhileComplete(c1, c2, z, s, |c0|, ns);
  }

  lemma {:induction false} WhileKept(c0: seq<Inst>, c1: seq<Inst>, c2: seq<Inst>, z: seq<Inst>, test: nat)
    requires c0 + [Br(|c0| + 1), JumpTarget] <= c1 && c1 + [If(test, None, None), JumpTarget] <= c2
    requires |z| == |c2| + 2 && forall i :: 0 <= i < |c2| && i != |c1| ==> z[i] == c2[i]
    ensures c0 <= z && z[|c0|] == Br(|c0| + 1) && z[|c0| + 1] == JumpTarget && z[|c1| + 1] == JumpTarget
    ensures AgreeOn(c1, z, |c0| + 2, |c1|) && AgreeOn(c2, z, |c1| + 2, |c2|)
  {
    assert forall i :: 0 <= i < |c1| ==> c2[i] == c1[i];
    assert c1[|c0|] == (c0 + [Br(|c0| + 1), JumpTarget])[|c0|];
    assert c1[|c0| + 1] == (c0 + [Br(|c0| + 1), JumpTarget])[|c0| + 1];
    assert c2[|c1| + 1] == (c1 + [If(test, None, None), JumpTarget])[|c1| + 1];
  }

  lemma {:induction false} WhileComplete(c1: seq<Inst>, c2: seq<Inst>, z: seq<Inst>, s: Stmt, at: nat, ns: nat)
    requires s.While? && |z| == |c2| + 2
    requires |c1| == ExprEnd(s.test, at + 2) && ExprAt(c1, s.test, at + 2) && AgreeOn(c1, z, at + 2, |c1|)
    requires |c2| == BlockEnd(s.body, |c1| + 2) && BlockAt(c2, s.body, |c1| + 2, ns) && AgreeOn(c2, z, |c1| + 2, |c2|)
    requires z[at] == Br(at + 1) && z[at + 1] == JumpTarget
    requires z[|c1|] == If(ExprSlot(s.test, at + 2), Some(|c1| + 1), Some(|c2| + 1)) && z[|c1| + 1] == JumpTarget
    requires z[|c2|] == Br(at + 1) && z[|c2| + 1] == JumpTarget
    ensures |z| == StmtEnd(s, at) && StmtAt(z, s, at, ns)
  {
    ExprStable(c1, z, s.test, at + 2);
    BlockStable(c2, z, s.body, |c1| + 2, ns);
  }

  lemma {:induction false} NewSeqs(code: seq<Inst>, inner: seq<seq<Inst>>, body: Block, id: nat)
    requires PlacedBlock([], body, code, id + 1)
    requires |inner| == BlockDefs(body) && BlockSeqs(inner, id + 1, body, id + 1)
    ensures BodyAt([code] + inner, id, id, body) && BlockSeqs([code] + inner, id, body, id + 1)
    ensures forall k :: id < k <= id + |inner| ==> Sequence([code] + inner, id, k) == Sequence(inner, id + 1, k)
  {
    BlockSeqsStable(inner, id + 1, [code] + inner, id, body, id + 1);
  }

  lemma {:induction false} ThenSeqs(a1: seq<seq<Inst>>, a2: seq<seq<Inst>>, h: Stmt, t: Block, ns: nat)
    requires |a1| == Defs(h) && StmtSeqs(a1, ns, h, ns)
    requires |a2| == BlockDefs(t) && BlockSeqs(a2, ns + Defs(h), t, ns + Defs(h))
    ensures |a1 + a2| == BlockDefs(Then(h, t)) && BlockSeqs(a1 + a2, ns, Then(h, t), ns)
  {
    StmtSeqsStable(a1, ns, a1 + a2, ns, h, ns);
    BlockSeqsStable(a2, ns + Defs(h), a1 + a2, ns, t, ns + Defs(h));
  }

  /** What the patching loop needs to know of a chain: the tests come before `mid`, the bodies between it and `hi`. */
  ghost predicate JumpsOpen(c: seq<Inst>, ifs: seq<nat>, heads: seq<nat>, tails: seq<nat>, mid: nat, hi: nat) {
    && |ifs| == |heads| == |tails| && mid <= hi <= |c|
    && Increasing(ifs, 1, mid) && Increasing(tails, mid, hi)
    && (forall i :: 0 <= i < |ifs| ==> c[ifs[i]].If? && c[ifs[i]].test == ifs[i] - 1)
  }

  /** `z` is `d` with a jump target after it and every jump of the chain set. */
  ghost predicate JumpsSet(d: seq<Inst>, z: seq<Inst>, ifs: seq<nat>, heads: seq<nat>, tails: seq<nat>, hasElse: bool) {
    && |z| == |d| + 1 && z[|d|] == JumpTarget
    && TestsPatched(z, ifs, heads, |d|) && TailsPatched(z, tails, |d|)
    && (hasElse ==> |d| > 0 && z[|d| - 1] == Br(|d|))
    && (forall k :: 0 <= k < |d| && k !in ifs && k !in tails && (hasElse ==> k != |d| - 1) ==> z[k] == d[k])
  }

  lemma {:induction false} ElseSet(d: seq<Inst>, e: seq<Inst>, z: seq<Inst>, ifs: seq<nat>, heads: seq<nat>,
        tails: seq<nat>, mid: nat, hi: nat)
    requires JumpsOpen(d, ifs, heads, tails, mid, hi) && hi < |d|
    requires JumpsSet(d, e, ifs, heads, tails, false)
    requires z == e[|d| - 1 := Br(|d|)]
    ensures JumpsSet(d, z, ifs, heads, tails, true)
  {
  }

  lemma {:induction false} ChainIsVisited(c0: seq<Inst>, c: seq<Inst>, c1: seq<Inst>, d: seq<Inst>, s: Stmt, ns: nat,
        ifs: seq<nat>, entries: seq<nat>)
    requires s.IfChain? && TestsVisited(c0, s.arms, c, ifs, entries) == true
    requires c <= c1 && |c1| == BodiesEnd(s.arms, |c|) && BodiesShape(c1, s.arms, |c|, ns) == true
    requires ElsePlaced(c1, s.orelse, d, ns + ArmsDefs(s.arms), ifs) == true
    ensures c0 <= c1 && ChainVisited(c1, d, s, |c0|, ns, ifs) == true
  {
    assert TestsShape(c1, s.arms, ChainTests(s.arms, |c0|)) == true by {
      TestsKept(c, c1, s.arms, ChainTests(s.arms, |c0|));
    }
    assert |c0| == 0 && s.arms.Arm? ==> c1[0] == c[0];
  }

  lemma {:induction false} ChainReady(c1: seq<Inst>, d: seq<Inst>, s: Stmt, at: nat, ns: nat)
    requires s.IfChain? && ChainVisited(c1, d, s, at, ns, Ifs(s.arms, ChainTests(s.arms, at)))
    ensures JumpsOpen(d, Ifs(s.arms, ChainTests(s.arms, at)), Heads(s.arms, ChainBodies(s.arms, at)),
                      Tails(s.arms, ChainBodies(s.arms, at)), ChainBodies(s.arms, at), |c1|)
    ensures s.orelse.Else? ==> |c1| < |d|
  {
    var p, q := ChainTests(s.arms, at), ChainBodies(s.arms, at);
    OnePerArm(s.arms, p, q);
    TailsOrder(s.arms, q);
    IfsAreIfs(c1, s.arms, p);
  }

  lemma {:induction false} TestsKept(c: seq<Inst>, c1: seq<Inst>, arms: Arms, at: nat)
    requires c <= c1 && |c| == TestsEnd(arms, at) && TestsShape(c, arms, at) == true
    ensures TestsShape(c1, arms, at) == true
    ensures var ifs := Ifs(arms, at);
      |ifs| > 0 ==> ifs[|ifs| - 1] < |c1| && c1[ifs[|ifs| - 1]].If?
  {
    TestsShapeStable(c, c1, arms, at);
    IfsAreIfs(c1, arms, at);
  }

  /** Once every jump of a chain has its target, the chain is laid out. */
  lemma {:induction false} ChainPatched(c1: seq<Inst>, d: seq<Inst>, z: seq<Inst>, s: Stmt, at: nat, ns: nat)
    requires s.IfChain? && ChainVisited(c1, d, s, at, ns, Ifs(s.arms, ChainTests(s.arms, at)))
    requires JumpsSet(d, z, Ifs(s.arms, ChainTests(s.arms, at)), Heads(s.arms, ChainBodies(s.arms, at)),
                      Tails(s.arms, ChainBodies(s.arms, at)), s.orelse.Else?)
    ensures Placed(c1[..at], s, z, ns)
  {
    ChainParts(c1, d, z, s, at, ns);
    ChainEnds(c1, d, z, s, at, ns);
    assert ChainAt(z, s, at, ns) by {
      TestsDone(c1, d, z, s, at, ns);
      BodiesDone(c1, d, z, s, at, ns);
      ElseDone(c1, d, z, s, at, ns);
      ChainFolded(z, s, at, ns);
    }
    ChainIsStmt(z, s, at, ns);
    ChainPlaced(c1, z, s, at, ns);
  }

  lemma {:induction false} ChainPlaced(c1: seq<Inst>, z: seq<Inst>, s: Stmt, at: nat, ns: nat)
    requires s.IfChain? && |z| == ChainAfter(s, at) + 1 && at <= |c1| && c1[..at] <= z && StmtAt(z, s, at, ns)
    ensures Placed(c1[..at], s, z, ns)
  {
  }

  /** The parts of a chain are in place, its jumps are set, and nothing else has changed. */
  ghost predicate ChainDone(c1: seq<Inst>, d: seq<Inst>, z: seq<Inst>, s: Stmt, at: nat, ns: nat)
    requires s.IfChain?
  {
    var ifs := Ifs(s.arms, ChainTests(s.arms, at));
    var q := ChainBodies(s.arms, at);
    && ChainVisited(c1, d, s, at, ns, ifs)
    && JumpsSet(d, z, ifs, Heads(s.arms, q), Tails(s.arms, q), s.orelse.Else?)
    && Outside(c1, d, z, ifs, Tails(s.arms, q), at, q, s.orelse.Else?)
  }

  lemma {:induction false} TestsDone(c1: seq<Inst>, d: seq<Inst>, z: seq<Inst>, s: Stmt, at: nat, ns: nat)
    requires s.IfChain? && ChainDone(c1, d, z, s, at, ns)
    ensures TestsAt(z, s.arms, ChainTests(s.arms, at), ChainBodies(s.arms, at), |d|)
  {
    TestsComplete(c1, z, s.arms, ChainTests(s.arms, at), ChainBodies(s.arms, at), |d|);
  }

  lemma {:induction false} BodiesDone(c1: seq<Inst>, d: seq<Inst>, z: seq<Inst>, s: Stmt, at: nat, ns: nat)
    requires s.IfChain? && ChainDone(c1, d, z, s, at, ns)
    ensures BodiesAt(z, s.arms, ChainBodies(s.arms, at), ns, |d|)
  {
    BodiesComplete(c1, z, s.arms, ChainBodies(s.arms, at), ns, |d|);
  }

  lemma {:induction false} ElseDone(c1: seq<Inst>, d: seq<Inst>, z: seq<Inst>, s: Stmt, at: nat, ns: nat)
    requires s.IfChain? && ChainDone(c1, d, z, s, at, ns)
    ensures ElseAt(z, s.orelse, |c1|, ns + ArmsDefs(s.arms), |d|)
  {
    ElseComplete(c1, d, z, s.orelse, ns + ArmsDefs(s.arms), Ifs(s.arms, ChainTests(s.arms, at)));
  }

  lemma {:induction false} ChainEnds(c1: seq<Inst>, d: seq<Inst>, z: seq<Inst>, s: Stmt, at: nat, ns: nat)
    requires s.IfChain? && ChainDone(c1, d, z, s, at, ns)
    ensures |d| == ChainAfter(s, at) && |c1| == BodiesEnd(s.arms, ChainBodies(s.arms, at))
    ensures |z| == |d| + 1 && z[|d|] == JumpTarget && at <= |c1| && c1[..at] <= z
    ensures at == 0 && s.arms.Arm? ==> z[0] == JumpTarget
  {
  }

  /** The parts of a chain make it up; an equation, so that the verifier does not take the definition apart. */
  lemma {:induction false} ChainFolded(z: seq<Inst>, s: Stmt, at: nat, ns: nat)
    requires s.IfChain? && ChainAfter(s, at) < |z|
    requires z[ChainAfter(s, at)] == JumpTarget && (at == 0 && s.arms.Arm? ==> z[0] == JumpTarget)
    requires TestsAt(z, s.arms, ChainTests(s.arms, at), ChainBodies(s.arms, at), ChainAfter(s, at))
    requires BodiesAt(z, s.arms, ChainBodies(s.arms, at), ns, ChainAfter(s, at))
    requires ElseAt(z, s.orelse, BodiesEnd(s.arms, ChainBodies(s.arms, at)), ns + ArmsDefs(s.arms),
      ChainAfter(s, at))
    ensures ChainAt(z, s, at, ns)
  {
  }

  lemma {:induction false} ChainIsStmt(z: seq<Inst>, s: Stmt, at: nat, ns: nat)
    requires s.IfChain? && ChainAfter(s, at) < |z| && ChainAt(z, s, at, ns)
    ensures StmtAt(z, s, at, ns)
  {
  }

  /** Outside the jumps of a chain the finished code is the code as it was emitted. */
  ghost predicate Outside(c1: seq<Inst>, d: seq<Inst>, z: seq<Inst>, ifs: seq<nat>, tails: seq<nat>, at: nat, mid: nat,
        hasElse: bool)
  {
    && at <= mid <= |c1| <= |d| < |z| && 0 !in ifs
    && c1[..at] <= z && (hasElse ==> |c1| < |d|)
    && (forall k :: 0 <= k < mid && k !in ifs ==> z[k] == c1[k])
    && (forall k :: mid <= k < |c1| && k !in tails ==> z[k] == c1[k])
    && AgreeOn(d, z, |c1|, if hasElse then |d| - 1 else |d|)
  }

  lemma {:induction false} ChainParts(c1: seq<Inst>, d: seq<Inst>, z: seq<Inst>, s: Stmt, at: nat, ns: nat)
    requires s.IfChain? && ChainVisited(c1, d, s, at, ns, Ifs(s.arms, ChainTests(s.arms, at)))
    requires JumpsSet(d, z, Ifs(s.arms, ChainTests(s.arms, at)), Heads(s.arms, ChainBodies(s.arms, at)),
                      Tails(s.arms, ChainBodies(s.arms, at)), s.orelse.Else?)
    ensures ChainDone(c1, d, z, s, at, ns)
  {
    var p, q := ChainTests(s.arms, at), ChainBodies(s.arms, at);
    IfsOrder(s.arms, p);
    TailsOrder(s.arms, q);
    OutsideJumps(c1, d, z, Ifs(s.arms, p), Heads(s.arms, q), Tails(s.arms, q), at, q, s.orelse.Else?);
  }

  lemma {:induction false} OutsideJumps(c1: seq<Inst>, d: seq<Inst>, z: seq<Inst>, ifs: seq<nat>, heads: seq<nat>,
        tails: seq<nat>,
                     at: nat, mid: nat, hasElse: bool)
    requires at <= mid <= |c1| && JumpsSet(d, z, ifs, heads, tails, hasElse) && Retargeted(c1, d, ifs)
    requires Increasing(ifs, if at == 0 then 1 else at, mid) && Increasing(tails, mid + 1, |c1|) &&
      (hasElse ==> |c1| < |d|)
    ensures Outside(c1, d, z, ifs, tails, at, mid, hasElse)
  {
    assert forall k :: 0 <= k < |c1| && k !in ifs ==> d[k] == c1[k];
    assert forall k :: 0 <= k < |c1| && k !in ifs && k !in tails ==> z[k] == c1[k];
  }

  lemma {:induction false} ElseComplete(c1: seq<Inst>, d: seq<Inst>, z: seq<Inst>, o: OrElse, ns: nat, ifs: seq<nat>)
    requires ElsePlaced(c1, o, d, ns, ifs) && |z| == |d| + 1 &&
      (o.Else? ==> |c1| < |d| && z[|d| - 1] == Br(|d|))
    requires AgreeOn(d, z, |c1|, if o.Else? then |d| - 1 else |d|)
    ensures ElseAt(z, o, |c1|, ns, |d|)
  {
    if o.Else? { BlockStable(d, z, o.body, |c1| + 1, ns); }
  }
}
