# Monty: a verified model of the compiler core

Monty is a small Python compiler.  It lowers syntax trees to FlatCode, runs
FlatCode in an interpreter with a tick budget, splits it into basic blocks for
type checking and code generation, and keeps tables of types, values, spans and
layouts on the side.  This project models that pipeline in Dafny and proves it
correct.  `dafny verify dfyconfig.toml` checks everything.

## What is modelled

**Lowering and the flat machine.**  `Ast` and `RawInst` are the syntax tree and
the instructions.  `FlatCode` is the builder: a class that appends instructions
and overwrites placeholders in place.  `Lower` describes the finished
instructions as a layout, `Patching` and `Stable` connect the two, and the
builder is proved to leave exactly that layout behind.  `Machine` is the
interpreter, one step at a time; everything outside the frame is a world that
the operations thread, so evaluation order and evaluate-once are part of every
statement.  `Meaning` is a structured semantics of the tree.  `SimExpr`,
`SimStmt` and `Correctness` prove that the machine halts with an outcome exactly
when the tree ends with it.  `Ticks` adds nested calls and the tick bound,
`Program` and `Compile` lift the theorem to whole programs whose functions call
one another to any depth.  `Names` and `Calls` say what names, parameters and calls
stand for, and `Marks` which definitions and annotations the code holds.  `Plain`,
`Chains`, `Attributes` and `Decorators` compare what statements do with what they
mean, with the help of the outside worlds in `Worlds` and `Clock`.

**Facts about every run.**  `Assigned` proves definite assignment for a frame and
`Frames` for all frames of a program, `Targets` that jumps stay inside their
construct and land on block heads.

**Blocks, walk, code generation.**  `Blocks` splits sequences and builds the
control-flow graph, `Worklist` is the sorted worklist, `Coverage` says exactly when
a run stays in the blocks of the walk, and `Ternaries` which programs leave them.
`Codegen` analyses the blocks on the way and proves that the emitted jumps take the
same way through the blocks as the machine; `Silence` says exactly which blocks fail
the analysis because they emit nothing, and `Endings` which function bodies.

**Tables.**  `CallGraph` collects functions, `SsaMap` allocates slots,
`TypeTable`, `Properties`, `TypeOps`, `Sizes`, `Tuples` and `Typing` are the
hash-consed types with properties, unions, layouts, tuples and unification, `Mirror`
is the value store that follows the runtime heap, `Layout` and `StructBuf` are the
two layout computations, `Spans` is the span interner.

**Parser.**  `Parser` is the backtracking expression parser, `Rendering` the
grammar of what it accepts in canonical form, `RoundTrip` the proof that parsing
inverts rendering, `Unusual` says what becomes of
shifts, `await` and parentheses, `Dangling` what becomes of an operator whose right
operand cannot be read, and `Floats` what float literals come to.

Conventions: an object whose methods update its fields is a class, and its
methods are proved against functions on values; a panic of the program is an
explicit outcome.  Contracts write `P(x) == true` where the verifier should not
take the recursive predicate `P` apart, and `decreases` clauses of recursive
functions list every parameter for the same reason.

## Where the program does not do what it means

The model follows the code.  `Meaning` has two readings of a statement, the
intended one and the emitted one.  The machine agrees with the emitted one on
every program.  The two differ for `if` chains, loops, attribute assignments and
decorated definitions, and for each of these it is said exactly when that shows.

- `visit_ifstmt` gives the false edge of the last test the end of the chain, after
  it had been given the `else` body, and the false edge of every other test that
  test itself.  `Chains.AgreeingChainsHaveOneBranch` says that no chain with an
  `elif` does what it means in every world, and `Chains.ChainsAgreeExactly` that a
  chain whose first body is plain does so exactly when it has a single test and no
  `else`, or one that does nothing.  `Chains.ChainAgreesExactly` says the same for
  one world and one environment, and `Chains.TwoWrongChains` gives two chains that
  go wrong.
- `visit_while` uses the value of a test as it is, where every other test goes
  through `__bool__`.  `Plain.EveryLoopDisagrees` says that no loop does what it
  means in every world, and `Plain.LoopsAgreeExactly` that loops do so exactly in
  those worlds where every object, used as a test, is what its `__bool__` says.
- `visit_assign` evaluates the object of an attribute assignment before the value.
  `Attributes.AttributesAgreeExactly` says that this goes unnoticed, whatever the
  operations do, exactly when the value is a local variable, and
  `Attributes.WrongAssignment` shows it on `n1.x = n2` with neither name defined.
- `visit_funcdef` evaluates decorators last to first, and the name stays bound to
  the bare function.  `Decorators.DefinitionsAgreeExactly` says that a definition
  does what it means, in every world, exactly when it has no decorators, and
  `Decorators.TwoWrongDefinitions` gives two that do not.

In all other respects the intended reading is the code's own, and it is not always
that of Python.  An operator evaluates both operands and calls the special method of
the left one, and no other.  That goes for `or`, too, because the parser gives it the
tree of `|` (`RoundTrip.OrParsesAsPipe`): `True or n1` evaluates `n1`
(`Plain.OrIsEager`).  `not` calls a special method, comparisons nest to the right
instead of being chained, annotations are evaluated wherever they stand, a name that
is not yet bound in the frame is looked up outside, and making a function binds its
name before any decorator is called.

In the parser, the digits after the point of a float literal are a number of their
own, written out again after the point.  `Floats.FloatMeans` says that the literal is
read as what it says exactly when that loses neither a zero nor a sign, and
`Floats.OneAndAHalf` that `1.05` is read as `1.5`.

Two more things go wrong on the way to code generation.

- The graph of blocks has no edge for the fall from the test of a ternary into its
  true arm, and none for a phi jump, so neither the true arm of a ternary nor its
  join is ever walked.  `Coverage.WalkIsExact` says that a run stays in the walk
  exactly as long as it takes neither of these steps, `Ternaries.TernaryIsNotCovered`
  that a program which comes to a ternary with every test true is not covered, and
  `Ternaries.OneOrTwoIsNotCovered` is one that comes to it at once.
- `analyze_block` asserts that a block emits something.  `Silence.AnalysesExactly`
  says when the blocks of lowered code do, `Endings.MuteEndIsNeverChecked` that,
  ternaries aside, a body that ends with a loop or a chain never gets through the
  analysis, and `Endings.ChecksByItsEnd` that no other body fails for this reason.
  Definitions, annotations and attribute assignments have no arm in the analysis yet;
  `Endings.UnwrittenIsNeverChecked` says that no body with one of them gets through.

## Model

| member | source | states |
|---|---|---|
| FlatCode.FlatSeq.Emit | montyc_flatcode/src/lib.rs:114-128 | an instruction is appended and numbered by its index, and everything before it is kept |
| FlatCode.FlatSeq.Patch | montyc_flatcode/src/lib.rs:72-74 | overwriting an instruction changes that instruction only and keeps the numbering |
| FlatCode.FlatSeq.VisitExpr | montyc_flatcode/src/lower.rs:110-126 | an expression is appended as its finished layout, answers with its slot, and changes nothing that was there |
| FlatCode.FlatSeq.VisitTernary | montyc_flatcode/src/lower.rs:591-657 | after the three patches the test jump, both phi jumps and the receiver have their final targets |
| FlatCode.FlatSeq.VisitBinOp | montyc_flatcode/src/lower.rs:557-573 | left operand, right operand, then the special method of the left one, called on both |
| FlatCode.FlatSeq.VisitUnary | montyc_flatcode/src/lower.rs:575-589 | the operand, then its special method called on it |
| FlatCode.FlatSeq.VisitNamed | montyc_flatcode/src/lower.rs:659-673 | the value is bound, and the slot of the value (not of the binding) is the answer |
| FlatCode.FlatSeq.VisitCall | montyc_flatcode/src/lower.rs:675-694 | callee before arguments, arguments in order, one call |
| FlatCode.FlatSeq.VisitSubscript | montyc_flatcode/src/lower.rs:696-712 | base, index, then `__getitem__` of the base called on both |
| FlatCode.FlatSeq.VisitAttr | montyc_flatcode/src/lower.rs:714-723 | the object, the name as a string, then the attribute |
| FlatCode.FlatSeq.VisitTuple | montyc_flatcode/src/lower.rs:155-171 | the elements in order, then the tuple of their slots |
| FlatCode.FlatSeq.PatchChain | montyc_flatcode/src/lower.rs:413-459 | every test jump and every closing branch of a chain gets its final target, and no other instruction changes |
| FlatCode.FlatSeq.VisitSimple | montyc_flatcode/src/lower.rs:464-516 | `pass`, assignments, annotations and returns are appended as their finished layout |
| FlatCode.FlatCode.VisitWhile | montyc_flatcode/src/lower.rs:522-555 | a loop is appended with its back edge, exit and test jump patched; the parent sequences and the current index are kept |
| FlatCode.FlatCode.VisitIfStmt | montyc_flatcode/src/lower.rs:335-462 | a chain of any length, with or without `else`, is appended with every jump patched as the code patches it |
| FlatCode.FlatCode.VisitFuncDef | montyc_flatcode/src/lower.rs:42-108 | a definition is appended to the current sequence and its body to a sequence of its own |
| FlatCode.FlatCode.NewSequence | montyc_flatcode/src/lib.rs:147-172 | lowering a body elsewhere leaves the current sequence and the current index as they were |
| FlatCode.FlatCode.VisitBlock | montyc_flatcode/src/lower.rs:725-731 | statements are appended one after the other, and functions are numbered in the order in which they are met |
| Correctness.LoweringPreservesMeaning | montyc_flatcode/src/lower.rs:335-723 | for every program, host and outcome, the flat machine halts with the outcome (value, locals, world or fault) if and only if the program ends with it |
| SimExpr.ExprSim | montyc_hlirt/src/eval/inst_exec.rs:18-94 | running the code of an expression reaches its end with its value in its slot, the same locals and world, and all earlier slots unchanged |
| SimStmt.StmtSim | montyc_hlirt/src/eval/inst_exec.rs:18-94 | running the code of a statement ends, returns or fails just as the statement does |
| Names.AssignBinds | montyc_hlirt/src/eval/ctx/evaluator.rs:552-572 | in any frame and by either reading, an assignment evaluates its value and binds the name to it, and publishes the binding where the frame has a namespace object |
| Names.AssignedIsRead | montyc_hlirt/src/eval/ctx/evaluator.rs:552-582 | afterwards the name stands for the value and every other local for what it did; the frame is the same, and so is the world but for the publishing |
| Names.AssignedIsReturned | montyc_flatcode/src/lower.rs:468-516 | the code of `n = e` and `return n` returns the value of `e`, or fails as the publishing does |
| Names.NameMeans | montyc_hlirt/src/eval/ctx/evaluator.rs:575-590 | a name is the local variable if there is one, and is looked up from the scope of the frame otherwise |
| Plain.PlainProgramsArePreserved | montyc_flatcode/src/lower.rs:335-555 | the flat machine halts with an outcome if and only if the program ends with it by its intended reading, for programs without `elif`, `else`, attribute assignments and decorators, and without loops unless tests are truthful |
| Plain.LoopsAgreeExactly | montyc_flatcode/src/lower.rs:522-555 | in a world, all plain statements, loops included, do what they mean if and only if every object, used as a test, is what its `__bool__` says |
| Plain.EveryLoopDisagrees | montyc_flatcode/src/lower.rs:530-536 | one world tells every loop from what it means |
| Plain.OrIsEager | montyc_flatcode/src/lower.rs:557-573 | `or` evaluates its right operand whatever the left one is; `True or n1` raises for an undefined `n1` |
| Attributes.AttributesAgreeExactly | montyc_flatcode/src/lower.rs:468-505 | in a given frame an attribute assignment does what it means, whatever the operations do, if and only if its value is a local variable |
| Attributes.WrongAssignment | montyc_flatcode/src/lower.rs:468-505 | with neither name of `n1.x = n2` defined, the object raises instead of the value |
| Chains.ChainsAgreeExactly | montyc_flatcode/src/lower.rs:391-430 | a chain with a plain first body does what it means in every world and environment if and only if it has a single test and no `else`, or one that does nothing |
| Chains.AgreeingChainsHaveOneBranch | montyc_flatcode/src/lower.rs:413-430 | whatever its bodies, a chain that does what it means in every world and environment has no second branch |
| Chains.SecondBranchDisagrees | montyc_flatcode/src/lower.rs:413-430 | one world tells every chain with a second branch from what it means |
| Chains.BusyElseDisagrees | montyc_flatcode/src/lower.rs:428-430 | a world that counts tells every chain with a single test, whose `else` body does anything, from what it means |
| Chains.ChainAgreesExactly | montyc_flatcode/src/lower.rs:391-430 | when a chain does what it means in one world and environment: if the first test is true, if and only if the first body does; if it is false, if and only if it is followed by an `else` that changes nothing, or by branches that never end; and always if it fails or is neither |
| Chains.ElifIsStuck | montyc_flatcode/src/lower.rs:341-345 | after a false test that is followed by another branch the code never halts |
| Chains.ElseIsSkipped | montyc_flatcode/src/lower.rs:428-430 | after a false last test the code runs past an `else` body that would have returned |
| Chains.TwoWrongChains | montyc_flatcode/src/lower.rs:413-430 | two concrete chains on which code and meaning disagree |
| Decorators.DefinitionsAgreeExactly | montyc_flatcode/src/lower.rs:42-108 | a definition does what it means in every world and environment if and only if it has no decorators |
| Decorators.DecoratedDisagrees | montyc_flatcode/src/lower.rs:95-105 | one world tells every decorated definition from what it means |
| Decorators.TwoWrongDefinitions | montyc_flatcode/src/lower.rs:43-48 | a decorated name stands for the bare function instead of what its decorator answers, and of two decorators that cannot be evaluated the last one raises instead of the first |
| Decorators.InsideOut | montyc_flatcode/src/lower.rs:95-105 | of two decorators the one next to the definition should be applied first |
| Ticks.Evaluator.Tick | montyc_hlirt/src/eval/ctx/evaluator.rs:702-713 | the counter goes down by one, and fails at one without changing |
| Ticks.Evaluator.ExecSeqWithFrame | montyc_hlirt/src/eval/ctx/evaluator.rs:678-699 | the execution loop terminates, does what the bounded run says, and logs every instruction and tick of every frame |
| Ticks.Evaluator.ExecInst | montyc_hlirt/src/eval/ctx/evaluator.rs:328-340 | a call of a compiled function runs a frame of its own on the same counter, and a tripped bound passes through it |
| Ticks.Evaluator.RunUntilComplete | montyc_hlirt/src/eval/ctx/evaluator.rs:925-941 | sequence 0 is run in the frame of the module, and a module that returns is a panic |
| Names.ParameterMeans | montyc_hlirt/src/eval/ctx/evaluator.rs:204-207 | in the frame of a call a parameter stands for its own argument, unless a later parameter has its name |
| Names.OtherNameMeans | montyc_hlirt/src/eval/ctx/evaluator.rs:202-207 | no other name is bound there; it is looked up outside, without a namespace object |
| Ticks.TicksAreConserved | montyc_hlirt/src/eval/ctx/evaluator.rs:678-713 | over all frames the ticks spent and the ticks left add up to the bound; a run that trips ticks exactly as often as the bound says, and that tick is the last thing that happens in any frame |
| Ticks.LargerBound | montyc_hlirt/src/eval/ctx/evaluator.rs:811-820 | a larger bound changes nothing about a run that did not trip, and otherwise continues it from where it stopped |
| Program.ProgramsArePreserved | montyc_hlirt/src/eval/ctx/evaluator.rs:165-214 | with functions calling one another to any depth, some bound lets the evaluator end with an outcome if and only if the source ends with it |
| Calls.CallAnswers | montyc_hlirt/src/eval/ctx/evaluator.rs:197-210 | a body that runs to its end answers `None`, one that returns answers the value, and an exception that leaves it leaves the call |
| Calls.PassAnswersNone | montyc_hlirt/src/eval/ctx/evaluator.rs:678-699 | a function whose body is `pass` answers `None` and changes nothing |
| Calls.ParameterIsAnswered | montyc_hlirt/src/eval/ctx/evaluator.rs:197-210 | a function that returns one of its parameters answers the argument in that place |
| Compile.CompileModule | montyc_flatcode/src/lib.rs:177-199 | the builder's sequences are the module body and all nested function bodies, each lowered, in the order of their numbers |
| Compile.CompiledIsGrounded | montyc_hlirt/src/eval/ctx/evaluator.rs:328-340 | no compiled sequence begins with a call, which is what makes nested bounded runs terminate |
| Compile.CompilationPreservesMeaning | montyc_hlirt/src/eval/ctx/evaluator.rs:839-941 | compiling a module and evaluating it gives what the module means, by the emitted reading always, and by the intended one for plain modules |
| Marks.MarksArePreserved | montyc_flatcode/src/lower.rs:42-555 | the annotations, the definitions with the numbers of their sequences and the attribute assignments of lowered code are those of the body, in its order |
| Assigned.ReadsAreAssigned | montyc_hlirt/src/eval/ctx/evaluator.rs:328-394 | at every point of every run, finished or not, each slot the next instruction reads has been written in the same frame |
| Assigned.SeedsAreNeverObserved | montyc_hlirt/src/eval/ctx/evaluator.rs:197-210 | whatever slots hold when a frame is entered, the run is the same as from empty slots |
| Frames.FramesNeverMiss | montyc_hlirt/src/eval/ctx/evaluator.rs:328-394 | no frame of a compiled program, however deep, ends for want of a slot, unless the host reports one |
| Frames.FramesIgnoreSeeds | montyc_hlirt/src/eval/ctx/evaluator.rs:197-210 | the argument slots of a call frame change nothing: it ends alike, with the same ticks left and the same trace as from empty slots |
| Targets.LoweredIsLocal | montyc_flatcode/src/lower.rs:369-459 | no placeholder is left, and every jump lands inside the sequence on the head of a block of the right sort, one that no test falls into; only where a chain has a second branch may a test also jump to itself |
| Targets.StmtLocal | montyc_flatcode/src/lower.rs:522-657 | every jump of a statement stays within the instructions of that statement |
| Targets.LoweredIsStraight | montyc_flatcode/src/lower.rs:522-657 | control runs into a block head from the instruction above it only from the test of a ternary, and without ternaries never |
| Blocks.FlatSeqToBlocks | montyc_driver/src/typeck/mod.rs:33-54 | the fold computes the splitting of the sequence at its block heads |
| Blocks.SplitIsBlocked | montyc_driver/src/typeck/mod.rs:33-54 | blocks are runs of consecutive instructions, heads stand only at their start, and each instruction is in the block its heads count to |
| Blocks.SplitJoins | montyc_driver/src/typeck/mod.rs:33-54 | the blocks joined again are the sequence |
| Blocks.FindIsBlockOf | montyc_driver/src/typeck/block_cfg.rs:86-92 | the search finds the block of every instruction and nothing else |
| Blocks.NewFromBlocks | montyc_driver/src/typeck/block_cfg.rs:28-71 | the edges are those the instructions call for, in order, and the panic happens exactly when a target is in no block |
| Blocks.GraphExists | montyc_driver/src/typeck/block_cfg.rs:65-68 | building the graph of a sequence panics if and only if some branch leaves the sequence |
| Blocks.GraphIsExact | montyc_driver/src/typeck/block_cfg.rs:39-61 | the graph has an edge between two blocks if and only if a branch in one jumps into the other |
| Coverage.EdgeSource | montyc_driver/src/typeck/block_cfg.rs:39-66 | every edge comes from the instruction at the position its kind names, goes to the block this one jumps to, and is told apart by what stands before a `Br` |
| Coverage.KindsAreOutcomes | montyc_driver/src/typeck/block_cfg.rs:39-61 | from the origin of an edge, on the outcome its kind stands for, the machine goes into its target block |
| Coverage.NoOrElseEdges | montyc_driver/src/typeck/block_cfg.rs:52-56 | lowered code has no edge for a `Br` behind an `If` without a false edge |
| Worklist.BinarySearch | montyc_driver/src/typeck/cfg_reducer.rs:41-58 | finds the element or the position that keeps the order |
| Worklist.Visit | montyc_driver/src/typeck/cfg_reducer.rs:27-72 | terminates, calls each block at most once, keeps both lists sorted and free of duplicates, and ends with exactly the reachable blocks, or stops at a block that does not check |
| Coverage.WalkBlocks | montyc_driver/src/typeck/mod.rs:95-118 | splitting, connecting and walking any sequence ends with exactly the blocks the graph leads to, sorted, or stops if and only if a branch leaves the sequence or one of those blocks does not check |
| Coverage.LoweredIsInside | montyc_flatcode/src/lower.rs:335-657 | no branch of lowered code leaves its sequence |
| Coverage.WalkIsExact | montyc_driver/src/typeck/block_cfg.rs:39-61 | the first n steps of a run stay in walked blocks if and only if none of them falls from the test of a ternary into its true arm or takes a phi jump |
| Coverage.CoversExactly | montyc_driver/src/typeck/block_cfg.rs:39-61 | the walk covers every run if and only if no run takes such a step |
| Coverage.WalkCovers | montyc_driver/src/typeck/block_cfg.rs:39-61 | without ternaries the walk covers every run |
| Coverage.TernaryIsNeverWalked | montyc_driver/src/typeck/block_cfg.rs:39-61 | in any lowered code neither the true arm of a ternary nor the block where its arms meet is reachable in the graph |
| Ternaries.TernaryIsNotCovered | montyc_flatcode/src/lower.rs:591-657 | a program that comes to a ternary, anywhere in a statement, when every test is true and before any loop turns, is not covered by its walk |
| Ternaries.OneOrTwoIsNotCovered | montyc_flatcode/src/lower.rs:591-657 | the eleven instructions of `1 if True else 2`, whose walk does not cover its runs |
| Codegen.AnalyzeBlock | montyc_driver/src/typeck/typing_machine.rs:39-589 | a block gives its jumps and returns, or stops the analysis: on an instruction that does not check or has no arm yet, on a target in no block, or at the assertion that something was emitted |
| Codegen.StopsExactly | montyc_driver/src/typeck/typing_machine.rs:39-586 | an instruction stops the analysis if and only if its arm is unwritten (definitions, annotations, attribute assignments, phi receivers) or its types do not check |
| Codegen.EmitsExactly | montyc_driver/src/typeck/typing_machine.rs:39-586 | an instruction emits something if and only if it jumps, makes or binds a value, is a use or a return that checks, or is a call whose type says so |
| Codegen.JumpsAreTheMachines | montyc_driver/src/typeck/typing_machine.rs:86-134 | for any `If` at all, on the outcome of its test the emitted jumps lead to the block the machine jumps to, and nowhere if it falls through |
| Codegen.PhiCarriesItsValue | montyc_driver/src/typeck/typing_machine.rs:558-565 | a phi jump becomes a jump to the block of its receiver, with the slot whose value the machine puts into the receiver |
| Codegen.TypeCheck | montyc_driver/src/typeck/cfg_reducer.rs:27-72 | walking and analysing ends if and only if no branch leaves the sequence and every walked block analyses; then the walked blocks hold their jumps and the others are empty |
| Codegen.CodegenFollowsTheMachine | montyc_driver/src/typeck/typing_machine.rs:86-580 | as long as a run stays in the walk, emitted code on its tests visits the same blocks in the same order; once the run has ended it visits no others, and it gets to a return if and only if the run returned, of a slot that held what the run returned |
| Codegen.CodegenFollowsEveryRun | montyc_driver/src/typeck/typing_machine.rs:86-580 | without ternaries this holds of every run |
| Silence.AnalysesExactly | montyc_driver/src/typeck/typing_machine.rs:136-586 | a block of lowered code analyses if and only if none of its instructions stops the analysis and it holds more than jump targets and `Nop`s |
| Silence.ChecksExactly | montyc_driver/src/typeck/cfg_reducer.rs:27-72 | the walk of lowered code gets through the analysis if and only if no walked block holds an instruction that stops it, or nothing but jump targets and `Nop`s |
| Endings.MuteEndIsNeverChecked | montyc_driver/src/typeck/typing_machine.rs:586 | whatever the types and whatever the inner bodies hold, a function body without ternaries in its top-level statements and tests that ends with a loop or a chain, up to any `pass` after it, does not get through the walk: its last block is walked and emits nothing |
| Endings.ChecksByItsEnd | montyc_driver/src/typeck/typing_machine.rs:136-586 | a body without ternaries gets through the walk if and only if it does not end that way and no walked block holds an instruction that stops the analysis |
| Endings.LastIsMute | montyc_flatcode/src/lower.rs:335-555 | the last block of lowered code holds nothing but jump targets and `Nop`s if and only if the body is empty or ends with a loop or a chain, up to any `pass` after it |
| Endings.UnwrittenIsNeverChecked | montyc_driver/src/typeck/typing_machine.rs:73-84 | whatever the types, a body without ternaries in its top-level statements and tests that defines a function, annotates a variable or assigns to an attribute there does not get through the walk |
| CallGraph.CallGraphOf | montyc_driver/src/global_context/query.rs:311-373 | terminates and collects exactly the functions reachable through callable references; it succeeds if and only if all of them are typed and check |
| CallGraph.TurnProgress | montyc_driver/src/global_context/query.rs:314-365 | each turn collects a function, uncovers one not collected, or shortens the stack |
| CallGraph.ScanRefs | montyc_driver/src/global_context/query.rs:336-363 | pushes the callable references that are not collected, in order, and panics exactly on an untyped one |
| SsaMap.SsaMap.SkipToNth | montyc_core/src/utils/ssamap.rs:54-68 | skips up to a key, or fails and changes nothing |
| SsaMap.SsaMap.Insert | montyc_core/src/utils/ssamap.rs:123-137 | hands out the next key and keeps all others |
| SsaMap.SsaMap.Reserve | montyc_core/src/utils/ssamap.rs:70-77 | hands out the next key without a value and keeps all others |
| SsaMap.SsaMap.CancelReserve | montyc_core/src/utils/ssamap.rs:80-102 | undoes the last reservation if and only if it has not been filled, and changes nothing otherwise |
| SsaMap.SsaMap.TrySetValue | montyc_core/src/utils/ssamap.rs:105-120 | fills a reserved key once |
| SsaMap.SsaMap.GetOrInsert | montyc_core/src/utils/ssamap.rs:140-156 | a missing key is not filled; the value goes to a fresh one |
| SsaMap.SsaMap.Entry | montyc_core/src/utils/ssamap.rs:159-181 | the first key of a value, or a fresh one |
| TypeTable.IdsAreKinds | montyc_core/src/typing.rs:17-21 | two ids are equal if and only if their kinds are, and `is_builtin` is right for every id |
| TypeTable.InsertKeeps | montyc_driver/src/global_context/mod.rs:203-212 | inserting a kind answers with its one id, old or fresh and at least 256, and no id changes its kind |
| TypeTable.SetPropertyKeeps | montyc_driver/src/global_context/mod.rs:214-237 | adding a property keeps the table valid, its ids and their kinds |
| TypeTable.EveryInterleavingKeeps | montyc_driver/src/global_context/mod.rs:174-237 | the same for any sequence of inserts, property inserts and property lookups |
| TypeTable.FailsExactly | montyc_core/src/typing.rs:356-363 | the only thing that fails in such a sequence is a lookup on a type that there is not when its turn comes |
| TypeTable.InitialIsValid | montyc_core/src/typing.rs:85-100 | the fresh table has the builtin types at their tags |
| TypeTable.TagsAre | montyc_core/src/typing.rs:115-145 | the builtin types are numbered from 1, sized integers from 100, and `never` is 255 |
| TypeTable.SizesAre | montyc_core/src/typing.rs:115-145 | sized integers have one, two, four and eight bytes, signed or not; the ellipsis, `unknown` and `never` have none, and all others eight |
| Properties.PropertyIsFound | montyc_core/src/typing.rs:356-363 | an own property wins, else one of the class is found, and there is none if and only if neither has the name |
| Properties.SetIsOwn | montyc_driver/src/global_context/mod.rs:214-237 | setting a property sets that one and no other, on that type and no other |
| Properties.SetOnClassIsFound | montyc_driver/src/global_context/mod.rs:664-668 | what is set on the class of a type is found on the type, unless the type has a property of that name |
| TypeOps.UnionDenotesUnion | montyc_core/src/typing.rs:543-571 | in whatever order the members come, a union denotes the union of what its sides denote |
| TypeOps.UnionSize | montyc_core/src/typing.rs:400-440 | the size of a union is the larger of the sizes of its sides |
| Sizes.LayoutIsLargestLeaf | montyc_core/src/typing.rs:400-440 | a type has a layout if and only if nothing in it is empty and all it is made of in the end has one, and it is that of the largest of these, the last of several |
| Tuples.SubscriptTypeChecks | montyc_core/src/typing.rs:444-508 | the subscript method of every tuple type unifies with (tuple, int), and its result denotes exactly what the elements denote |
| Tuples.TupleAgain | montyc_core/src/typing.rs:444-508 | making a tuple type again gives the same id and the same table |
| Tuples.TupleIdsAreElements | montyc_core/src/typing.rs:444-460 | a tuple type lists its elements, and two lists of elements have the same type if and only if they are equal |
| Tuples.ReorderingKeepsElementType | montyc_core/src/typing.rs:462-472 | reordered and repeated elements subscript to the same type id |
| Tuples.UnifiesExactly | montyc_core/src/typing.rs:575-610 | unification succeeds if and only if arity, result and every parameter match, `self` and unknown types taking anything |
| Tuples.UnifyReports | montyc_core/src/typing.rs:575-610 | what is reported on failure: no callable, the numbers of parameters and arguments, or exactly the arguments that are not taken with their positions and types, in order |
| Tuples.StoreTypeChecks | montyc_core/src/typing.rs:480-504 | storing into a tuple checks exactly for what its elements are read as, and into the empty tuple exactly for `any` |
| Typing.TypingData.constructor | montyc_driver/src/global_context/mod.rs:174-191 | the fresh registrar is valid and holds the builtin types only |
| Typing.TypingData.WriteSsa | montyc_core/src/typing.rs:85-100 | each builtin type comes to stand at its tag, and 256 is the next free key |
| Typing.TypingData.InsertType | montyc_driver/src/global_context/mod.rs:203-212 | does what inserting does on tables |
| Typing.TypingData.InsertProperty | montyc_driver/src/global_context/mod.rs:214-237 | does what adding a property does on tables, and answers with the property it replaces |
| Typing.TypingData.PropertyOf | montyc_core/src/typing.rs:356-363 | looks on the type, then on its class, which comes into being if need be; an own property wins, and there is none if and only if neither has it |
| Typing.TypingData.MakeTuple | montyc_core/src/typing.rs:444-508 | does what making a tuple type does on tables |
| Typing.TypingData.MakeUnion | montyc_core/src/typing.rs:543-571 | fails exactly on an unknown side; otherwise denotation and size are those of a union |
| Typing.TypingData.UnifyFunc | montyc_core/src/typing.rs:575-610 | does what unification does on tables, with every mismatch reported at its position |
| Mirror.ValueStore.StirThePot | montyc_driver/src/global_context/mod.rs:978-1109 | on a heap closed under references, afterwards every object has exactly one value, which points back to it, and whose references point back to exactly the object's defined references; known objects keep their values |
| Mirror.ValueStore.Session | montyc_driver/src/global_context/mod.rs:819-844 | in any sequence of heap changes, each followed by a stir, the store mirrors the heap after each of them, and every object known before or after any of them keeps its value to the end |
| Mirror.ValueStore.Scan | montyc_driver/src/global_context/mod.rs:1000-1043 | finds the new objects, and records an update for every known object that is out of step |
| Mirror.ValueStore.AddValues | montyc_driver/src/global_context/mod.rs:1046-1050 | each new object gets a value and old ones are kept |
| Mirror.ValueStore.FillAll | montyc_driver/src/global_context/mod.rs:1085-1104 | the given objects come into step and the others stay as they were |
| Mirror.ValueStore.Insert | montyc_driver/src/value_store.rs:156-166 | a fresh value with empty metadata |
| Mirror.ValueStore.Assoc | montyc_driver/src/value_store.rs:147-153 | the first association of a key stays |
| Mirror.SyncedMirrors | montyc_driver/src/value_store.rs:209-211 | in a linked store, objects in step are mirrored |
| Layout.CalculateLayout | montyc_core/src/typing.rs:309-328 | computes the greedy offsets and the padded size, and panics exactly when an offset does not fit or nothing has any size |
| Layout.GreedyIsPlacement | montyc_core/src/typing.rs:309-328 | greedy offsets are aligned, in order, disjoint and in bounds |
| Layout.GreedyIsLowest | montyc_core/src/typing.rs:309-328 | no order-preserving aligned placement puts any field lower or ends lower |
| Layout.PaddedSizeIsLeast | montyc_core/src/typing.rs:309-328 | the padded size is a multiple of every alignment, and no placement with that property is smaller |
| StructBuf.AllocFromTemplate | cranelift-structbuf/src/lib.rs:188-242 | succeeds if and only if no nested struct is empty; the result is what `FieldAt` asks for; ranges tile the slots, each slot is at the sum of all earlier scalar sizes, and the size is the sum of all bytes |
| StructBuf.FieldAt | cranelift-structbuf/src/lib.rs:256-261 | a field is at the sum of the bytes of the earlier fields |
| StructBuf.SumIsBytes | cranelift-structbuf/src/lib.rs:45-50 | the bytes of a struct are the sum of the sizes of its scalars |
| StructBuf.GroupsAreDepths | cranelift-structbuf/src/lib.rs:188-242 | the group of a slot is the number of structs its scalar is nested in |
| Spans.SpanInterner.Insert | montyc_parser/src/span_interner.rs:131-152 | a span gets the next number, and the number of the first span with its hash as its group |
| Spans.GroupsAreClasses | montyc_parser/src/span_interner.rs:131-152 | references share a group if and only if their hashes agree, and a group is its own first member |
| Spans.SpanInterner.SpangroupOfHash | montyc_parser/src/span_interner.rs:64-66 | the group of a hash that has been interned |
| Spans.SpanInterner.SpanrefsOfGroup | montyc_parser/src/span_interner.rs:69-84 | exactly the references that were handed out for a group |
| Spans.SpanInterner.SpanrefToStr | montyc_parser/src/span_interner.rs:87-95 | the resolver is given the module and the range that were interned |
| RoundTrip.ExpressionParses | montyc_parser/src/comb/expr.rs:445-476 | every expression of the canonical grammar, with any white space around its operators, followed by tokens that do not continue it, parses to its tree and stops right there |
| Floats.FloatParses | montyc_parser/src/comb/atom.rs:61-80 | a float literal is read back, and as the number that its digits stand for if and only if no zero right after its point and no sign of a zero is lost |
| Floats.FloatMeans | montyc_parser/src/comb/atom.rs:69-71 | the constant made of the numbers before and after the point is the value of the literal if and only if this is so |
| Floats.OneAndAHalf | montyc_parser/src/comb/atom.rs:69-71 | `1.5` is read as one and a half, and so is `1.05` |
| RoundTrip.SumPrefix | montyc_parser/src/comb/expr.rs:139-181 | sums associate to the left |
| RoundTrip.ChainParses | montyc_parser/src/comb/primary.rs:135-161 | attributes, calls and subscripts are read greedily from left to right |
| RoundTrip.ArgsParse | montyc_parser/src/comb/primary.rs:63-110 | arguments are read back up to the closing parenthesis, without a panic |
| RoundTrip.InnerParses | montyc_parser/src/comb/atom.rs:101-136 | tuple elements are read back up to the closing bracket |
| RoundTrip.ComparisonParses | montyc_parser/src/comb/expr.rs:315-353 | comparisons nest to the right and a single `=` is not one |
| RoundTrip.OrParsesAsPipe | montyc_parser/src/comb/expr.rs:407-434 | a disjunction with `or` parses to the same tree as with the pipe operator in its place |
| Unusual.ShiftIsRead | montyc_parser/src/comb/expr.rs:184-217 | a shift takes everything to its right, and the second of its two tokens is always `<` |
| Unusual.OneAngleFails | montyc_parser/src/comb/expr.rs:192-195 | an angle that is not followed by `<` ends the parse without a match: neither `a < b` nor `a >> b` is read |
| Unusual.AwaitIsDropped | montyc_parser/src/comb/expr.rs:13-17 | `await` leaves no trace in the tree |
| Unusual.ParenthesesFail | montyc_parser/src/comb/atom.rs:139-153 | an expression in parentheses is no expression, only a tuple may stand there |
| Unusual.PanicSpreads | montyc_parser/src/comb/atom.rs:101-153 | a panic in any element of a tuple is a panic of the whole expression |
| Dangling.TermDangles | montyc_parser/src/comb/expr.rs:76-136 | a product with nothing to read behind its operator is given up: its left operand is the whole expression and the operator is left, unless the right operand panics |
| Dangling.SumDangles | montyc_parser/src/comb/expr.rs:139-181 | the same of a sum |
| Dangling.ComparisonDangles | montyc_parser/src/comb/expr.rs:315-353 | the same of a comparison |
| Dangling.OrDangles | montyc_parser/src/comb/expr.rs:408-434 | the same of a disjunction written with `or` |
| Dangling.IfDangles | montyc_parser/src/comb/expr.rs:448-471 | the same of an `if` without a test |
| Dangling.NoElseDangles | montyc_parser/src/comb/expr.rs:454-471 | an `if` with a test that no `else` follows is left in the same way |
| Dangling.ElseDangles | montyc_parser/src/comb/expr.rs:455-471 | and so is one whose `else` has nothing behind it |
| Dangling.PowerDangles | montyc_parser/src/comb/expr.rs:14-40 | a power with nothing to read behind its operator is no expression at all, and a panic there is one of the whole |
| Dangling.BitDangles | montyc_parser/src/comb/expr.rs:220-313 | the same of the bit operators, and of `and` |
| Dangling.ShiftDangles | montyc_parser/src/comb/expr.rs:184-217 | the same of a shift |
| Dangling.SignDangles | montyc_parser/src/comb/expr.rs:43-73 | the same of a sign |
| Dangling.NotDangles | montyc_parser/src/comb/expr.rs:356-376 | the same of `not` |
| Dangling.CallPanics | montyc_parser/src/comb/primary.rs:73-97 | where neither an argument nor the closing parenthesis of a call can be read, the parser panics |
| Dangling.OpenCallPanics | montyc_parser/src/comb/primary.rs:80-89 | so does an argument that neither a comma nor the closing parenthesis follows |
| Dangling.IndexDangles | montyc_parser/src/comb/primary.rs:21-60 | a bracket behind which no index can be read is left behind |
| Parser.Expression | montyc_parser/src/comb/expr.rs:445-476 | the mutually recursive parser terminates, and a match consumes at least one token |

## Left out

- Class bodies and imports (`visit_classdef`, `visit_import`): class lowering can produce operands that no instruction defines, and imports reach the file system.
- Comments, spans and other attributes of instructions: they do not affect execution.
- `GetDunder`, `Tuple`, `SetAttribute` and attribute access are abstract operations of the host that receive and hand back the world; the interpreter leaves some of them unwritten.
- `lookup` beyond the locals of a frame, and the publishing of module variables, are operations of the host.
- Native functions are operations of the host; they do not run FlatCode again.
- The placeholder of an unpatched jump is -1 in the model and `usize::MAX` in the program; neither is an index.
- An unbounded evaluation (no tick bound) is the flat machine itself; the evaluator class takes a bound.
- ProgramsArePreserved: an outcome `Lost` stands for a call that does not return, so the statement is about outcomes other than `Lost`, which no operation of the program produces.
- AnalyzeBlock: what the types make of a use, call, attribute or return (whether it checks, and whether a call emits anything) is a parameter by slot; type errors and emitted instructions other than jumps and returns are not modelled.
- CodegenFollowsTheMachine: says nothing about a run from where it leaves the walk on, because the blocks it comes to there are not analysed.
- MuteEndIsNeverChecked: ternaries in the top-level statements and tests are not covered, because the walk does not get past the first of them.
- DefinitionsAgreeExactly: the intended reading keeps the binding that making a function does in the program, before the decorators are called; Python binds the name once, after them.
- AttributesAgreeExactly: operands that bind names with `:=` are not covered; there the answer depends on the values of the names they bind.
- ChainsAgreeExactly: first tests that bind names with `:=`, and first bodies with loops, `elif`, `else`, attribute assignments or decorators, are not covered; `Chains.ChainAgreesExactly` covers them in one environment.
- TernaryIsNotCovered: says nothing about ternaries that only a false test or the turn of a loop leads to.
- Chains without a test: the parser does not produce them.  The lowering theorems cover them, the statements about blocks (`RegularBlock`) do not.
- The parser works on a list of tokens; the lexer, the lazily grown token buffer and spans are not modelled, and its loops are recursive functions on the remaining tokens.
- Expression: what it answers outside the canonical grammar, no match or a panic, is modelled but stated only for the cases in `Unusual`, and in `Dangling` for operands that are missing, begin with a closing bracket, or panic at once.
- ExpressionParses: shift expressions, `await` and walrus expressions are not part of the canonical grammar, and neither are parentheses other than those of tuples, calls and subscripts, which the parser does not accept.
- FloatMeans: constants are real numbers; rounding to the nearest representable one is not modelled.
- Statement and indentation parsing.
- Properties of modules copied by `stir_the_pot` (the `properties` map), and metadata other than the back pointer and the references.
- Hash collisions: association keys and span hashes are compared as the values they stand for.
- Widths of machine integers, except the 32-bit limit on layout offsets.
- `display_type`, `get_type_repr_mut`, inserting types that already carry properties, and `Instance` types.
- Alignment of a union: it depends on the order in which a hash set lists members of equal size.
- Cranelift instruction building, object emission, linking, command line and logging.
