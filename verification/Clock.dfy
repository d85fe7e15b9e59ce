/**
 A world that counts: every operation answers at once and moves the world on by
 one, every `__bool__` answers `False`, and names are never published.  In a
 frame without locals, whatever evaluates an expression shows.
 */
module Clock {
  import opened RawInst
  import opened Ast
  import opened Machine
  import opened Lower
  import opened Meaning
  import opened Worlds

  /** No two numbers share a state of the world. */
  ghost predicate Counts(at: nat -> World) {
    forall i: nat, j: nat :: at(i) == at(j) ==> i == j
  }

  ghost function Tick(at: nat -> World, w: World): World {
    if i: nat :| at(i) == w then at(i + 1) else w
  }

  ghost function Ticking(at: nat -> World): Ops {
    var tick := (w: World) => Value(0, Tick(at, w));
    Ops(1, 0, 2, (_, w) => tick(w), (_, w) => tick(w), (_, w) => tick(w), (_, _, w) => tick(w), (_, _, w) => tick(w),
        (_, _, _, w) => tick(w), (_, _, w) => tick(w), (_, _, _, w) => tick(w), (_, w) => tick(w), (_, _, w) => tick(w))
  }

  /** The world stands at `i` or later, in the frame of a function. */
  ghost predicate Since(at: nat -> World, i: nat, env: Env) {
    env.scope == None && exists j: nat :: j >= i && env.world == at(j)
  }

  lemma {:induction false} TickMoves(at: nat -> World, i: nat, env: Env)
    requires Counts(at) && Since(at, i, env)
    ensures Since(at, i, env) && Since(at, i + 1, env.(world := Tick(at, env.world)))
  {
    var j: nat :| j >= i && env.world == at(j);
    assert Tick(at, at(j)) == at(j + 1);
  }

  // ---- expressions ----

  lemma {:induction false} ExprTicks(at: nat -> World, e: Expr, env: Env, i: nat)
    requires Counts(at) && Since(at, i, env)
    ensures var r := EvalExpr(Ticking(at), e, env);
      r.Val? && Since(at, i, r.env) && (env.locals == map[] ==> Since(at, i + 1, r.env))
    decreases e, 1
  {
    var ops := Ticking(at);
    match e
    case Lit(_) => TickMoves(at, i, env);
    case NameRef(_) => TickMoves(at, i, env);
    case TupleLit(elems) =>
      ExprsTick(at, elems, env, i);
      TickMoves(at, i, EvalExprs(ops, elems, env).env);
    case BinOp(l, _, r) => PairTicks(at, e, l, r, env, i);
    case Unary(_, v) =>
      ExprTicks(at, v, env, i);
      InvokeTicks(at, EvalExpr(ops, v, env).env, i);
    case Ternary(_, _, _) => TernaryTicks(at, e, env, i);
    case Named(_, v) => ExprTicks(at, v, env, i);
    case CallExpr(func, args) =>
      ExprTicks(at, func, env, i);
      var f := EvalExpr(ops, func, env).env;
      ExprsTick(at, args, f, i);
      TickMoves(at, i, EvalExprs(ops, args, f).env);
    case Subscript(base, index) => PairTicks(at, e, base, index, env, i);
    case Attribute(base, _) =>
      ExprTicks(at, base, env, i);
      InvokeTicks(at, EvalExpr(ops, base, env).env, i);
  }

  /** Two operations, one after the other. */
  lemma {:induction false} InvokeTicks(at: nat -> World, env: Env, i: nat)
    requires Counts(at) && Since(at, i, env)
    ensures Since(at, i + 1, env.(world := Tick(at, Tick(at, env.world))))
  {
    TickMoves(at, i, env);
    TickMoves(at, i + 1, env.(world := Tick(at, env.world)));
  }

  lemma {:induction false} PairTicks(at: nat -> World, e: Expr, l: Expr, r: Expr, env: Env, i: nat)
    requires Counts(at) && Since(at, i, env)
    requires (e.BinOp? && e.left == l && e.right == r) || (e.Subscript? && e.base == l && e.index == r)
    ensures var q := EvalExpr(Ticking(at), e, env); q.Val? && Since(at, i, q.env) && Since(at, i + 1, q.env)
    decreases e, 0
  {
    var ops := Ticking(at);
    ExprTicks(at, l, env, i);
    var a := EvalExpr(ops, l, env).env;
    ExprTicks(at, r, a, i);
    InvokeTicks(at, EvalExpr(ops, r, a).env, i);
  }

  lemma {:induction false} TernaryTicks(at: nat -> World, e: Expr, env: Env, i: nat)
    requires Counts(at) && Since(at, i, env) && e.Ternary?
    ensures var r := EvalExpr(Ticking(at), e, env); r.Val? && Since(at, i, r.env) && Since(at, i + 1, r.env)
    decreases e, 0
  {
    TestTicks(at, e.test, env, i);
    ExprTicks(at, e.orelse, EvalTest(Ticking(at), e.test, env).env, i + 1);
  }

  /** Every test is false. */
  lemma {:induction false} TestTicks(at: nat -> World, e: Expr, env: Env, i: nat)
    requires Counts(at) && Since(at, i, env)
    ensures var r := EvalTest(Ticking(at), e, env); r.Val? && r.v == 0 && Since(at, i, r.env) && Since(at, i + 1, r.env)
    decreases e, 2
  {
    ExprTicks(at, e, env, i);
    InvokeTicks(at, EvalExpr(Ticking(at), e, env).env, i);
  }

  lemma {:induction false} ExprsTick(at: nat -> World, es: Exprs, env: Env, i: nat)
    requires Counts(at) && Since(at, i, env)
    ensures var r := EvalExprs(Ticking(at), es, env); r.Vals? && Since(at, i, r.env)
    decreases es, 1
  {
    if es.MoreExprs? {
      ExprTicks(at, es.head, env, i);
      ExprsTick(at, es.tail, EvalExpr(Ticking(at), es.head, env).env, i);
    }
  }

  // ---- definitions ----

  lemma {:induction false} OptTicks(at: nat -> World, e: Option<Expr>, env: Env, i: nat)
    requires Counts(at) && Since(at, i, env)
    ensures var r := EvalOpt(Ticking(at), e, env); r.OptVal? && Since(at, i, r.env)
  {
    if e.Some? { ExprTicks(at, e.value, env, i); }
  }

  lemma {:induction false} ParamsTick(at: nat -> World, ps: Params, env: Env, i: nat)
    requires Counts(at) && Since(at, i, env)
    ensures var r := EvalParams(Ticking(at), ps, env); r.ParamVals? && Since(at, i, r.env)
    decreases ps
  {
    if ps.Param? {
      OptTicks(at, ps.annotation, env, i);
      ParamsTick(at, ps.rest, EvalOpt(Ticking(at), ps.annotation, env).env, i);
    }
  }

  lemma {:induction false} DecorateTicks(at: nat -> World, ds: seq<Object>, f: Object, env: Env, i: nat)
    requires Counts(at) && Since(at, i, env)
    ensures var r := Decorate(Ticking(at), ds, f, env); r.Val? && Since(at, i, r.env)
    decreases |ds|
  {
    if ds != [] {
      TickMoves(at, i, env);
      DecorateTicks(at, ds[1..], 0, env.(world := Tick(at, env.world)), i);
    }
  }

  lemma {:induction false} DefTicks(at: nat -> World, s: Stmt, ns: nat, env: Env, i: nat)
    requires Counts(at) && Since(at, i, env) && s.FuncDef?
    ensures var r := EvalDef(Ticking(at), Intended, s.name, s.decorators, s.params, s.result, ns, env);
      r.Val? && Since(at, i + 1, r.env)
  {
    var ops := Ticking(at);
    ExprsTick(at, s.decorators, env, i);
    var a := EvalExprs(ops, s.decorators, env);
    ParamsTick(at, s.params, a.env, i);
    var b := EvalParams(ops, s.params, a.env).env;
    OptTicks(at, s.result, b, i);
    var c := EvalOpt(ops, s.result, b).env;
    TickMoves(at, i, c);
    var d := c.(world := Tick(at, c.world), locals := c.locals[s.name := 0]);
    DecorateTicks(at, Backwards(a.vs), 0, d, i + 1);
  }

  // ---- statements ----

  /** A statement that does nothing. */
  predicate Quiet(s: Stmt) {
    s.Pass? || (s.IfChain? && s.arms.NoArms? && QuietElse(s.orelse))
  }

  predicate QuietBlock(b: Block) {
    match b
    case Empty => true
    case Then(h, t) => Quiet(h) && QuietBlock(t)
  }

  predicate QuietElse(o: OrElse) {
    match o
    case NoElse => true
    case Else(body) => QuietBlock(body)
  }

  /** It does nothing in any world. */
  lemma {:induction false} QuietKeeps(ops: Ops, rule: Reading, s: Stmt, ns: nat, env: Env, fuel: nat)
    requires Quiet(s)
    ensures Exec(ops, rule, s, ns, env, fuel) == Normal(env)
    decreases s
  {
    if s.IfChain? { QuietElseKeeps(ops, rule, s.orelse, ns + ArmsDefs(s.arms), env, fuel); }
  }

  lemma {:induction false} QuietBlockKeeps(ops: Ops, rule: Reading, b: Block, ns: nat, env: Env, fuel: nat)
    requires QuietBlock(b)
    ensures ExecBlock(ops, rule, b, ns, env, fuel) == Normal(env)
    decreases b
  {
    if b.Then? {
      QuietKeeps(ops, rule, b.head, ns, env, fuel);
      QuietBlockKeeps(ops, rule, b.tail, ns + Defs(b.head), env, fuel);
    }
  }

  lemma {:induction false} QuietElseKeeps(ops: Ops, rule: Reading, o: OrElse, ns: nat, env: Env, fuel: nat)
    requires QuietElse(o)
    ensures ExecElse(ops, rule, o, ns, env, fuel) == Normal(env)
    decreases o
  {
    if o.Else? { QuietBlockKeeps(ops, rule, o.body, ns, env, fuel); }
  }

  /** The statement has ended, and if normally then at `i` or later. */
  ghost predicate Goes(at: nat -> World, i: nat, r: StmtResult) {
    !r.OutOfFuel? && (r.Normal? ==> Since(at, i, r.env))
  }

  /** Every statement ends, and one that does something can be told by the clock. */
  lemma {:induction false} StmtTicks(at: nat -> World, s: Stmt, ns: nat, env: Env, i: nat)
    requires Counts(at) && Since(at, i, env)
    ensures var r := Exec(Ticking(at), Intended, s, ns, env, 1);
      Goes(at, i, r) && (env.locals == map[] && !Quiet(s) ==> Goes(at, i + 1, r))
    decreases s, 1
  {
    match s
    case ExprStmt(e) => ExprTicks(at, e, env, i);
    case Assign(n, e) => ExprTicks(at, Named(n, e), env, i);
    case AssignAttr(_, _, _) => AttrTicks(at, s, env, i);
    case Annotate(_, k) => ExprTicks(at, k, env, i);
    case ReturnStmt(r) =>
      if r.Some? { ExprTicks(at, r.value, env, i); }
    case Pass =>
    case While(test, _) => TestTicks(at, test, env, i);
    case IfChain(_, _) => ChainTicks(at, s, ns, env, i);
    case FuncDef(_, _, _, _, _) =>
      DefTicks(at, s, ns, env, i);
      Sooner(at, i, EvalDef(Ticking(at), Intended, s.name, s.decorators, s.params, s.result, ns, env).env);
  }

  lemma {:induction false} Sooner(at: nat -> World, i: nat, env: Env)
    requires Since(at, i + 1, env)
    ensures Since(at, i, env)
  {
  }

  lemma {:induction false} AttrTicks(at: nat -> World, s: Stmt, env: Env, i: nat)
    requires Counts(at) && Since(at, i, env) && s.AssignAttr?
    ensures var r := ExecAttr(Ticking(at), Intended, s.object_, s.attr, s.value, env);
      Goes(at, i, r) && Goes(at, i + 1, r)
  {
    var ops := Ticking(at);
    ExprTicks(at, s.value, env, i);
    var a := EvalExpr(ops, s.value, env).env;
    ExprTicks(at, s.object_, a, i);
    var b := EvalExpr(ops, s.object_, a).env;
    InvokeTicks(at, b, i);
    Sooner(at, i, b.(world := Tick(at, Tick(at, b.world))));
  }

  lemma {:induction false} ChainTicks(at: nat -> World, s: Stmt, ns: nat, env: Env, i: nat)
    requires Counts(at) && Since(at, i, env) && s.IfChain?
    ensures var r := Exec(Ticking(at), Intended, s, ns, env, 1);
      Goes(at, i, r) && (env.locals == map[] && !Quiet(s) ==> Goes(at, i + 1, r))
    decreases s, 0
  {
    ArmsTick(at, s.arms, ns, env, i);
    var env1 := ExecArms(Ticking(at), Intended, s.arms, ns, env, 1).env;
    ElseTicks(at, s.orelse, ns + ArmsDefs(s.arms), env1, i);
    if s.arms.Arm? { ElseTicks(at, s.orelse, ns + ArmsDefs(s.arms), env1, i + 1); }
  }

  lemma {:induction false} ArmsTick(at: nat -> World, arms: Arms, ns: nat, env: Env, i: nat)
    requires Counts(at) && Since(at, i, env)
    ensures var r := ExecArms(Ticking(at), Intended, arms, ns, env, 1);
      if arms.Arm? then r.Missed? && Since(at, i, r.env) && Since(at, i + 1, r.env) else r == Missed(env)
    decreases arms
  {
    if arms.Arm? {
      TestTicks(at, arms.test, env, i);
      ArmsTick(at, arms.rest, ns + BlockDefs(arms.body), EvalTest(Ticking(at), arms.test, env).env, i + 1);
      Sooner(at, i, ExecArms(Ticking(at), Intended, arms, ns, env, 1).env);
    }
  }

  lemma {:induction false} ElseTicks(at: nat -> World, o: OrElse, ns: nat, env: Env, i: nat)
    requires Counts(at) && Since(at, i, env)
    ensures var r := ExecElse(Ticking(at), Intended, o, ns, env, 1);
      Goes(at, i, r) && (env.locals == map[] && !QuietElse(o) ==> Goes(at, i + 1, r))
    decreases o, 0
  {
    if o.Else? { BlockTicks(at, o.body, ns, env, i); }
  }

  lemma {:induction false} BlockTicks(at: nat -> World, b: Block, ns: nat, env: Env, i: nat)
    requires Counts(at) && Since(at, i, env)
    ensures var r := ExecBlock(Ticking(at), Intended, b, ns, env, 1);
      Goes(at, i, r) && (env.locals == map[] && !QuietBlock(b) ==> Goes(at, i + 1, r))
    decreases b, 0
  {
    if b.Then? {
      StmtTicks(at, b.head, ns, env, i);
      var r := Exec(Ticking(at), Intended, b.head, ns, env, 1);
      if r.Normal? {
        BlockTicks(at, b.tail, ns + Defs(b.head), r.env, i);
        if Quiet(b.head) {
          QuietKeeps(Ticking(at), Intended, b.head, ns, env, 1);
        } else if env.locals == map[] {
          BlockTicks(at, b.tail, ns + Defs(b.head), r.env, i + 1);
        }
      }
    }
  }
}
