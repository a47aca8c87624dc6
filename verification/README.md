# Zuri: a model of its compiler, its escape analysis and a few of its algorithms

Zuri is a dynamic language with a register-bytecode compiler and an optimizing JIT. This
project models the parts where a mistake would be hard to see, and proves what they are for.

`Values` are the values and operators everything else is about.

**Escape analysis** (`src/jit/escape.rs`). `Shapes` and `Bytecode` are the instructions,
`InstrShapes` is what the analysis sees of each: what it reads and writes, where it leads and
where its error is caught. `CatchRegions` and `ShapeSound` prove that this is what the machine
does. `MustFacts` is the "must" worklist (intersection): which registers hold a function's own
name. `Spread`, `Escape` and `Sites` are the "may" worklists (union), the sweep for second names,
the summary of a self-recursive function and the verdict on an allocation site. `Runs` is a step
semantics with frames, calls of the function to itself, closures, errors caught and objects that
leak. `EscapeSound` proves against it that, under its side conditions, the verdicts miss nothing;
`SiteExact` and `EscapeExact` prove that what is tracked and what is flagged is no more than it
must be; `EscapeGaps` and `RaiseGaps` show with concrete runs that the side conditions are needed,
and say exactly what each of them buys.

**Bytecode compiler** (`src/compiler/compiler.rs`). `Core` is the language the compiler
accepts, with a reference semantics that knows nothing of registers or jumps; the semantics has
a second rule, which departs from the language where the emitted code does, and `Fidelity` says
when the two rules come to the same. `Machine` runs
instructions. `CodeGen` says which code is emitted, as a function of the statement and of the
compiler's state; `Compiler` is the compiler itself, a class whose methods allocate registers,
append code and patch jumps in place, and `Compiling`, `CompilingStmts` and `Redirect` prove
that it emits that code. `ExprSim`, `StmtSim`, `ProgramSim` and `Functions` prove that the code
does what the source means; `Handlers` that the handlers open at an instruction are those of the
`catch` bodies the compiler had open, and `Frame` that the frame is large enough. `Upvalues`,
`Using` and `ListLiteral` treat three more constructs, each on a machine just large enough for it.

**Lowering** (`src/compiler/lower.rs`). `Surface` is the tree the parser hands over, with
`for`, `iter`, `do` and the shorthands, and what it means, in three readings: as the language
means it; written out, where receivers are evaluated twice, ranges in a header are counted and
the first run of a `do` body comes before the loop; and with care, where a run goes wrong as soon
as the two could differ. `Lower` is the pass. `LowerExprs`, `LowerFor`, `CountLoop` and
`LowerSound` prove that it does exactly what the written-out reading says, with nothing excluded;
`RangeLoop` and `Readings` prove that the three readings agree on every run that does not go
wrong; `LowerGaps` shows where they differ.

**All of it.** `Connections` is where these meet: compiled code is what the escape analysis asks
for, except that a leading loop may break one of its side conditions, and lowered programs are
programs the compiler is made for. `Pipeline` proves that the two semantics agree and draws the
conclusion: from the parser's tree to the machine, a program keeps its meaning.

**Self-contained parts.** `Background` is the compile pool as a state machine, `ListSort` the
merge sort under any comparator, `Calendar` the civil calendar, `ParserCursor` the parser's
cursor.

Numbers are integers and registers, offsets and indices unbounded naturals, except that the
calendar's divisions are written out as the program's. What operators, calls and comparators
answer is a parameter everywhere; where they may have side effects, the answer may depend on
everything asked before.

## Results that are not what one would expect

- The parameter summary can be wrong in six ways, each with a run: a loop that comes back to the
  first instruction with the parameter in another register (`EscapeGaps.EntryLoopGap`; the
  compiler makes such code of a plain `while` loop, `Connections.EntryLoopIsCompiled`), an
  argument collected into a variadic function's list (`EscapeGaps.CollectorGap`), a copy into a
  register a closure has captured (`EscapeGaps.MovedUnderClosureGap`), a closure that replaces
  a variable the analysis takes to hold the function itself (`EscapeGaps.OverwrittenNameGap`), an
  error caught in such a variable (`RaiseGaps.CaughtNameGap`), and an instruction that raises
  before it overwrites the parameter (`RaiseGaps.ForgottenGap`; at the level of bytecode only, as
  compiled expressions write to registers that hold no variable). The last two come of control-flow
  edges to a `catch` that are treated as if the instruction had completed.
  Where none of this happens to a parameter called safe, the summary is right in every run
  (`EscapeSound.ParamSummaryIsSound`); functions that start with a loop, variadic functions,
  functions with captured variables and functions that catch errors are all covered.
- A `catch` handler is promised to run only if something raised
  (`docs/book/src/ch07-00-error-handling.md`, lines 70-72). The emitted code asks instead whether
  the variable is unequal to nil, so a body that assigns to the variable decides for itself
  (`CompilerGaps.CatchGap`). The code agrees exactly when that test is right
  (`Fidelity.CatchExactly`), and it is always right in programs whose `catch` bodies leave their
  variable alone (`Fidelity.TidyIsFaithful`).
- A declaration that is the whole of a branch is in scope afterwards even if the branch did not
  run, and then reads whatever was in its register (`CompilerGaps.UnbracedGap`); the code goes on
  well exactly when the branch that ran made all the declarations (`CompilerGaps.BranchExactly`).
- A `do` body is written out twice, so a `break` or `continue` in its first run acts on the loop
  around (`LowerGaps.DoGap`); lowering keeps the meaning exactly when the first run does not end
  that way (`LowerGaps.DoKeepsMeaningExactly`).
- The receiver and index of a compound assignment are evaluated twice (`LowerGaps.CompoundGap`).
  That is harmless when the second evaluation gives the same and changes nothing, and visible to
  the runtime whenever the second evaluation asks it anything (`LowerGaps.CompoundExactly`): so
  `a[i + 1] += 1` is fine, and `a.b.c += 1` reads `a.b` twice. Reading, combining and writing back
  are otherwise what the language says, for every receiver (`LowerExprs.SimUpdate`).
- A loop over a range in its header counts with its own variable, so a turn that changes the
  variable changes the values that follow, which the range's protocol would not
  (`LowerGaps.RangeGap`, `RangeLoop.NextValueExactly`).
- `using` runs the last arm with a repeated constant, not the first, and looks at constants
  before expressions; `Using.DispatchIsScanExactly` says exactly when that makes no difference.

## Model

| member | source | states |
|---|---|---|
| `InstrShapes.EveryUseIsJudged` | src/jit/escape.rs:541-690 | for every instruction, an operand it uses is reported as an escaping read unless it is one of the uses verified to be safe: the default is to deny |
| `ShapeSound.StepsFollowShapes` | src/jit/typeflow.rs:3709-3871 | every step of the machine, in every state, either goes where the flow says and changes no register but the destination the shape names, or fails, goes to the innermost handler and changes no register but that handler's variable |
| `ShapeSound.RunsFollowShapes` | src/vm/chunk.rs:1041-1065 | in every run of every compiled function each step takes an edge the analysis is given, and changes only what the analysis expects: the destination, or, where an error is caught, the variable named there |
| `ShapeSound.FlowIsExact` | src/jit/typeflow.rs:3836-3871 | an instruction's flow holds a place if and only if some machine goes there without an error; the one exception is the instruction after a `raise` |
| `ShapeSound.UnusedDoesNotMatter` | src/jit/escape.rs:541-690 | what a register holds makes no difference to a step that does not use it: so every way for a value to get anywhere is a use that is judged |
| `ShapeSound.ValuesFollowShapes` | src/jit/escape.rs:336-409 | a move copies its source, and what the analysis takes for a load of nil or a bool is one |
| `ShapeSound.AnswersFollowShapes` | src/jit/escape.rs:336-409 | what it takes for a read of a global, an equality or a return reads that global, stores the answer to comparing those registers, and ends the call with that register |
| `ShapeSound.KindsAreKept` | src/jit/escape.rs:541-690 | the instructions the analysis treats on their own are those and no others, with their operands |
| `ShapeSound.ObjectsFollowShapes` | src/jit/typeflow.rs:3709-3871 | of the instructions on objects, too, the shape names the destination, and the flow every place they go on at, by falling through, through a jump table or by an error caught |
| `CatchRegions.ErrorsAreCaught` | src/vm/chunk.rs:1041-1065 | in every run of a compiled function, whatever path it took, the handler found by looking through the code for the last `catch` body around an instruction is the innermost one open, and there is none if it finds none |
| `MustFacts.GlobalRefFacts` | src/jit/escape.rs:336-409 | the worklist ends, and its facts are at every instruction exactly the registers no taint reaches, and are consistent with every edge |
| `MustFacts.ExactIsGreatest` | src/jit/escape.rs:336-409 | those facts contain every consistent assignment: the result is the greatest one |
| `MustFacts.FactsHoldOnPaths` | src/jit/escape.rs:336-409 | a register reported at an instruction holds, on every path from entry, a value read from the target global and only moved since |
| `MustFacts.FactsAreExactOnPaths` | src/jit/escape.rs:336-409 | without dead code, a register is reported exactly when that is so on every path |
| `MustFacts.SelfReferenceFacts` | src/jit/escape.rs:301-334 | a method is given no facts, any other function those of its own name |
| `Escape.AnalyzeParamEscape` | src/jit/escape.rs:1052-1180 | the answer is yes exactly when a register the parameter may reach is escaped by some instruction, given what is assumed of the function's own parameters |
| `Escape.AnalyzeSite` | src/jit/escape.rs:816-988 | the answer is yes exactly when the newest object of the site may reach an escaping use, or the site has no destination |
| `Sites.MovedElsewhere` | src/jit/escape.rs:695-724 | the sweeps settle, and the answer is yes exactly when on some path the object still in its register is moved to another one |
| `Sites.ParamSummary` | src/jit/escape.rs:1192-1228 | at most arity + 1 rounds, and the result is the least fixed point of the per-parameter analysis |
| `Sites.EscapeIsMonotone` | src/jit/escape.rs:1192-1228 | assuming more parameters escape never makes one stop escaping |
| `Sites.GatherFacts` | src/jit/escape.rs:735-748 | the facts gathered for a function are the exact self-reference facts and the least summary that covers itself |
| `Sites.InPlace` | src/jit/escape.rs:750-769 | a site is accepted exactly when its object does not escape and never gets a second name |
| `EscapeSound.ParamSummaryIsSound` | src/jit/escape.rs:1052-1228 | in every run, at any depth of self-recursion, an object passed only in parameters the summary calls safe never escapes, if those parameters come back to the entry unmoved, are not handed to a collector, not copied under an open upvalue and not forgotten where an error is caught, and no upvalue or `catch` variable replaces a proven name |
| `EscapeSound.InPlaceIsSound` | src/jit/escape.rs:695-769 | under the same conditions, in every run, no object ever allocated at an accepted site escapes, in this turn of a loop or an earlier one, and while its frame lasts it is held in the destination register only |
| `EscapeSound.SanePreserved` | src/jit/escape.rs:336-409 | every step keeps what the facts say true of every frame: registers reported as the function's own name hold it, and upvalues are open only on registers a closure captured and nothing closed since |
| `EscapeSound.ContainedPreserved` | src/jit/escape.rs:816-1180 | every step keeps a tracked object within the registers the analyses let it reach, in every frame, and out of the escaped set |
| `EscapeExact.SiteFlagsExactly` | src/jit/escape.rs:937-944 | the converse: in a register that may hold an object at all, a use of an allocation that is no argument of a proven self-call is flagged if and only if, in some state the facts describe, it lets out an object of which the known names are fields; of what a method's register 0 holds only the method's own class is known |
| `EscapeExact.ParamFlagsExactly` | src/jit/escape.rs:1052-1180 | the same for a parameter, of whose class nothing is known unless it is a method's receiver |
| `EscapeExact.PlainJustLoaded` | src/jit/escape.rs:516-532 | an operand of a comparison is taken to be nil or a bool if and only if every way into the comparison is the instruction before it, and that leaves neither an object nor the function there, whatever the registers hold |
| `EscapeExact.ArgumentsFlaggedExactly` | src/jit/escape.rs:1192-1228 | at a proven self-call exactly the arguments are flagged that no parameter cleared by the summary takes |
| `EscapeExact.ArgumentsAreTaken` | src/jit/escape.rs:1192-1228 | such a call does hand its k-th argument to the k-th parameter, unless it is collected |
| `EscapeExact.TrackedExactly` | src/jit/escape.rs:1052-1180 | wherever the analysis looks for a parameter some activation has it, and the paths of control and of errors lead to just the places where one has it |
| `SiteExact.SiteTrackedExactly` | src/jit/escape.rs:816-988 | the analysis of a site looks in exactly the registers that the site's newest object can be in before the site comes round again, short of an error caught |
| `SiteExact.SecondNameExactly` | src/jit/escape.rs:695-724 | the sweep answers yes if and only if some activation copies the object the site made |
| `EscapeGaps.HeldOnEveryPath` | src/jit/escape.rs:1087-1089 | the analysis tracks a parameter along every path of control and of errors if and only if the parameter comes back to the first instruction in its own register only and is never forgotten where an error is caught: the analysis never merges at the first instruction, and takes each edge to come after the instruction |
| `EscapeGaps.EntryLoopGap` | src/jit/escape.rs:1087-1089 | otherwise a parameter called safe can escape: in a run of six steps it does |
| `EscapeGaps.FlaggedExactly` | src/jit/escape.rs:1136-1137 | in every state the facts describe, what an instruction lets out is flagged if and only if it is not the argument a variadic function collects under the summary of its list; that argument is always let out |
| `EscapeGaps.CollectorGap` | src/jit/escape.rs:1136-1137 | so an argument collected into a list escapes although its parameter is called safe |
| `EscapeGaps.ShownExactly` | src/jit/escape.rs:541-690 | a copy shows an object through an upvalue if and only if it copies the object into a register an upvalue is open on |
| `EscapeGaps.MovedUnderClosureGap` | src/jit/escape.rs:541-690 | a parameter moved into a register captured before escapes through the closure although it is called safe |
| `EscapeGaps.NamesStayExactly` | src/jit/escape.rs:301-334 | while a frame waits, its proven self-references stay true, whatever other code does, if and only if no upvalue is open on one of them |
| `EscapeGaps.OverwrittenNameGap` | src/jit/escape.rs:301-334 | a closure replaces the function in a variable, the facts still say the function's own name is there, and a parameter called safe escapes |
| `RaiseGaps.NamesLandExactly` | src/jit/escape.rs:301-334 | proven self-references are true where an error is caught, whatever the error, if and only if the variable of the `catch` is not one of them |
| `RaiseGaps.CaughtNameGap` | src/jit/escape.rs:301-334 | a `catch` variable the facts take for the function holds the error instead, and a parameter called safe escapes |
| `RaiseGaps.ForgottenGap` | src/jit/escape.rs:1052-1180 | an instruction raises before it overwrites a parameter called safe, and the parameter is printed where the error is caught |
| `ExprSim.SimExpr` | src/compiler/compiler.rs:1718-1946 | running the code of any expression leaves its value in the register returned, or raises its error, and changes no register below the entry mark |
| `StmtSim.NeverNormal` | src/compiler/compiler.rs:489-500 | a statement said never to fall through never ends normally, so the jump over `else` can be left out |
| `StmtSim.SimLeaving` | src/compiler/compiler.rs:458-475 | the code of `break` and `continue` reaches the loop's target with exactly the handlers opened inside the loop dropped |
| `ProgramSim.SimStmt` | src/compiler/compiler.rs:2668-2846 | running the code of any statement comes to what the statement comes to, by the language if the run is faithful and by the code's own rule in any case: the code after it, the loop's target, a handler or the end of the function, with locals, globals and output as in the source; or it is still running after as many steps as there were turns |
| `ProgramSim.SimWhile` | src/compiler/compiler.rs:2762-2794 | the same for a loop, by induction over its turns |
| `ProgramSim.SimSeq` | src/compiler/compiler.rs:2708-2726 | the same for the statements of a block, with `continue` before a `FixContinue` going on after it |
| `ProgramSim.SimCatch` | src/compiler/compiler.rs:2453-2528 | the same for `catch`: an error in the body lands in the variable, everything else passes through, and, in a faithful run, the handler runs if and only if the body raised |
| `Fidelity.CatchExactly` | src/compiler/compiler.rs:2508-2527 | a `catch` means the same by the language and by the code, whatever its handler does, if and only if the nil test is right: the variable equals nil after a body that did not raise, and the error does not equal nil after one that did |
| `Fidelity.FaithfulIsSame` | src/compiler/compiler.rs:2508-2527 | a run in which every such test is right and every branch makes its declarations is the same by both rules |
| `Fidelity.TidyIsFaithful` | docs/book/src/ch07-00-error-handling.md:70-72 | every run of a program is like that if no `catch` body assigns to its variable, no branch is a declaration, and only errors are raised and differ from nil |
| `CompilerGaps.CatchGap` | src/compiler/compiler.rs:2508-2527 | `catch { e = 1 } as e { echo 7 }` prints 7 although nothing raises |
| `Functions.FunctionRuns` | src/compiler/compiler.rs:581-635 | for every number of turns, the compiled function ends as its source does, or has run for that many steps |
| `Functions.CompiledFunctionAgrees` | src/compiler/compiler.rs:581-635 | a call of the compiled function ends with a given result, globals and output if and only if the source does, so it diverges if and only if the source does: by the language if its runs are faithful, by the code's rule if the locals stay those the compiler takes to be visible |
| `Functions.TidyFunctionAgrees` | src/compiler/compiler.rs:581-635 | the same by the language for every run of every program that is tidy in the sense above |
| `Functions.CompiledFunctionIgnoresGarbage` | src/compiler/compiler.rs:398-422 | what registers above the arguments held before the call makes no difference, unless the locals stop being those the compiler takes to be visible |
| `Handlers.HandlerHeights` | src/compiler/compiler.rs:113-117 | in every run, on whatever path, the handlers open at an instruction are exactly those of the `catch` bodies the compiler had open there, outermost first, each with its place to resume and its variable |
| `Handlers.CompiledFunctionNeverStuck` | src/compiler/compiler.rs:581-635 | compiled code never runs off its end nor pops a handler that is not there |
| `Handlers.StmtLevels` | src/compiler/compiler.rs:2453-2528 | every instruction of a statement leads only to instructions where the handlers then open are the expected ones |
| `Redirect.Redirects` | src/compiler/compiler.rs:436-456 | code emitted for other jump targets is the same code with the recorded jumps redirected |
| `CompilingStmts.WhileResult` | src/compiler/compiler.rs:2762-2794 | pushing the loop, compiling the body, patching the exit and every recorded `break` gives the code whose targets were known from the start |
| `CompilingStmts.SeqFix` | src/compiler/compiler.rs:2836-2846 | patching every recorded `continue` at a `FixContinue` gives the code in which they went there from the start |
| `Compiler.FunctionScope.PatchJump` | src/compiler/compiler.rs:436-456 | the jump, of the same kind and on the same register, now leads to where the next instruction will be; every other instruction is the same and every other jump leads where it led |
| `Compiler.FunctionScope.LeaveLoopCatches` | src/compiler/compiler.rs:458-463 | appends one `PopCatch` for each `catch` body opened inside the innermost loop |
| `Compiler.FunctionScope.CompileExpression` | src/compiler/compiler.rs:1718-1946 | appends the expression's code, returns its register and leaves the allocator's mark and high-water mark where the specification has them |
| `Compiler.FunctionScope.CompileStatement` | src/compiler/compiler.rs:2668-2846 | appends the statement's code, records the jumps of its own loop, and leaves scope, marks, loops and open handlers where the specification has them |
| `Compiler.CompileFunction` | src/compiler/compiler.rs:581-650 | the function's code is the code proved to do what its source means, and no instruction names a register outside the frame it asks for |
| `Frame.StmtBelow` | src/compiler/compiler.rs:398-422 | the code of a statement names only registers below the allocator's high-water mark |
| `CompilerGaps.BranchExactly` | src/compiler/compiler.rs:2727-2761 | an `if` that ends normally leaves a state that agrees with the compiler's scope if and only if the branch that ran made all the declarations of both; an error in the branch is fine, too |
| `CompilerGaps.UnbracedGap` | src/compiler/compiler.rs:2727-2761 | a variable declared by an unbraced branch that did not run reads what its register held before, where the source has no such variable |
| `Upvalues.Nest.ResolveUpvalue` | src/compiler/compiler.rs:531-549 | an index is found exactly when some enclosing function has the name; following descriptors from it ends at the innermost such local of the nearest such function, which is marked as captured; no other local changes |
| `Upvalues.Nest.AddUpvalue` | src/compiler/compiler.rs:565-575 | the descriptor is at the index returned, and earlier ones stay where they are |
| `Upvalues.FollowStays` | src/compiler/compiler.rs:565-575 | what an index stands for never changes as more is resolved |
| `Using.CompileUsing` | src/compiler/compiler.rs:2249-2381 | the loops that emit comparisons, register constants, collect jumps and patch them to their arms leave the code that is proved to dispatch |
| `Using.CodeDispatches` | src/compiler/compiler.rs:2249-2381 | the code runs the table's arm without comparing, or else the first match among the expressions, or, for an instance with `@eq`, among all labels |
| `Using.DispatchIsScanExactly` | src/compiler/compiler.rs:2249-2381 | that is the arm a scan of the labels in order finds, if and only if the table has nothing for the subject or no label of an arm before the table's matches |
| `Using.DistinctLabelsDispatch` | src/compiler/compiler.rs:2249-2381 | with distinct constants, and no expression equal to a subject the table has, the first match runs |
| `Using.InstancesAreScanned` | src/compiler/compiler.rs:2320-2345 | an `@eq` subject is compared with the labels in source order until the first match, and with no others |
| `Using.DuplicateGap` | src/compiler/compiler.rs:2355-2363 | of two arms with the same constant, the second runs |
| `ListLiteral.ListLiteralBuilds` | src/compiler/compiler.rs:1533-1599 | a literal of any length leaves a fresh list of exactly its elements in order, and changes no register below the entry mark and no other list |
| `ListLiteral.ChunksBuildTheSame` | src/compiler/compiler.rs:1533-1599 | chunking builds the list a single `MakeList` would |
| `ListLiteral.ListLiteralFits` | src/compiler/compiler.rs:1517-1599 | its registers stay within a fixed number above the entry mark, plus what the greediest element needs, however long it is |
| `ListLiteral.Registers.CompileListLiteral` | src/compiler/compiler.rs:1533-1554 | the loop over chunks emits that code |
| `ListLiteral.Registers.CompileChunk` | src/compiler/compiler.rs:1562-1599 | the loop over elements emits a chunk's code and frees its registers |
| `ListLiteral.Registers.EmitExtendCall` | src/compiler/compiler.rs:1688-1716 | from any state, what it emits appends the list in one register to the list in the other, and keeps every other list and every register in use |
| `LowerSound.LoweringWritesOut` | src/compiler/lower.rs:64-289 | for every runtime and every program, with nothing excluded: the lowered program ends as the program does read as written out, with the same globals, visible locals and dealings with the runtime |
| `LowerSound.LoweringPreservesMeaning` | src/compiler/lower.rs:64-289 | a program that, read with care, does not go wrong, and in which no free jump or bare declaration is in the body of a `do` and no bare declaration is that of a counting `for`, ends, once lowered, as the program does, with the same globals, visible locals and dealings with the runtime; it goes wrong only when a range in a header has bounds that are not numbers, a turn of its loop changes the variable, or the receiver or index of a compound assignment, evaluated again, is not the same or changes something |
| `LowerSound.SimStmt` | src/compiler/lower.rs:64-137 | the same from any state that shows the program's when hidden variables are left out, and hidden variables of loops around keep their values |
| `LowerSound.SimForTurns` | src/compiler/lower.rs:344-409 | a `for` loop takes the turns the `@key`/`@value` protocol gives, with the iterable evaluated once |
| `LowerSound.SimIterTurns` | src/compiler/lower.rs:516-546 | an `iter` loop runs its steps after every turn that goes on, also after `continue` |
| `LowerSound.SimCountTurns` | src/compiler/lower.rs:418-511 | for bounds of any kind the lowered loop counts its turns and moves its variable on as the written-out reading says, also after `continue` |
| `Readings.CountsLikeRange` | src/compiler/lower.rs:418-511 | for integer bounds in either direction, counting takes exactly the turns, with the values in the order, that the range's protocol gives, as long as no turn changes the variable |
| `RangeLoop.RangeFetch` | src/builtins/range.rs:163-215 | by the protocol, turn `i` of a range has its `i`-th value, and there are as many turns as the range is wide |
| `Readings.CarefulIsAny` | src/compiler/lower.rs:64-289 | a run in which none of that happens is the same in all three readings |
| `LowerExprs.SimExpr` | src/compiler/lower.rs:143-215 | every lowered expression has the value, the error and the effects of the original, receivers evaluated twice; there is no exception |
| `LowerExprs.SimUpdate` | src/compiler/lower.rs:236-260 | compound assignment, `++` and `--`, for every receiver and index: they are evaluated, then evaluated again; the place is read by the second, combined with the operand, and written by the first |
| `LowerExprs.SimSegments` | src/compiler/lower.rs:265-290 | an interpolated string |
| `Lower.LoweredIsCore` | src/compiler/compiler.rs:2923-2925 | what the pass hands on has no loop but `while` and no shorthand, so the compiler never meets one |
| `Lower.Interpolate` | src/compiler/lower.rs:265-290 | the loop over segments builds the chain of `+` |
| `Lower.BuildIterLoop` | src/compiler/lower.rs:516-546 | the loop over steps builds the body with the steps after the `FixContinue` |
| `LowerGaps.DoKeepsMeaningExactly` | src/compiler/lower.rs:80-85 | a `do` loop keeps its outcome if and only if the first run of its body, which may jump wherever it likes, does not end with `break` or `continue` |
| `LowerGaps.DoGap` | src/compiler/lower.rs:80-85 | `do { break } while true` breaks out of the loop around it |
| `LowerGaps.CompoundExactly` | src/compiler/lower.rs:236-260 | for every runtime, receiver and index: what the pass makes of a compound assignment has the value and effects of evaluating them once if they can be evaluated again; and with an operand that asks nothing, it asks the runtime the same only if the second evaluation asks it nothing |
| `LowerGaps.OnceIsMeant` | src/compiler/lower.rs:236-260 | evaluating them once is what the language means by it |
| `LowerGaps.CompoundGap` | src/compiler/lower.rs:236-260 | `make().f += 1` asks for the receiver twice |
| `RangeLoop.NextValueExactly` | src/compiler/lower.rs:418-511 | after a turn of a counting loop the next value is the range's if and only if the turn left the variable alone |
| `LowerGaps.RangeGap` | src/compiler/lower.rs:418-511 | `for var i in 0..2 { echo i = i + 5 }` prints 5 and 6 by the range's protocol, and 5 and 11 once lowered |
| `Connections.LoweredFits` | src/compiler/lower.rs:64-137 | whatever its expressions become, a lowered program has every jump in a loop and every `FixContinue` in a loop's own block, after one statement that declares nothing: the programs the compiler's theorems are about |
| `Connections.LoopFirstIsJumpTarget` | src/compiler/compiler.rs:2762-2794 | a function whose body starts with a loop compiles to code that comes back to its first instruction |
| `Connections.EntryLoopIsCompiled` | src/compiler/compiler.rs:2762-2794 | the function on which the parameter summary is shown wrong is what `while q { echo q; q = p }` compiles to |
| `Connections.FrameIsEnough` | src/compiler/compiler.rs:398-422 | code that names only registers below the high-water mark meets what the escape analysis assumes of a prototype's registers |
| `Pipeline.StmtMeansTheSame` | src/compiler/lower.rs:64-137 | on lowered programs whose operators the compiler model has, the meaning of the tree and the meaning the compiler is proved against agree, state by state and turn by turn |
| `Pipeline.WrittenOutToMachine` | src/compiler/compiler.rs:581-635 | a function body with counted `for`, `iter`, `do` and `while` loops, `catch`, compound assignments and interpolated strings, lowered and compiled, ends on the machine with the result, globals and output it has read as written out, if and only if it ends by that reading |
| `Pipeline.TreeToMachine` | src/compiler/compiler.rs:581-635 | and with the result, globals and output its tree has by the language, if and only if the tree ends, when read with care it does not go wrong |
| `Background.NullIsNeverCompiled` | src/jit/background.rs:282-318 | in every interleaving, no worker compiles an empty job |
| `Background.JobsAreConserved` | src/jit/background.rs:163-180 | a job is compiled at most once, gives at most one result, which comes of compiling it, and is always in exactly one place: queued, with a worker, a result, delivered or dropped |
| `Background.NothingDroppedAlive` | src/jit/background.rs:163-180 | until the handle is dropped no job is |
| `Background.NobodyQuitsInUse` | src/jit/background.rs:282-318 | in every run, while the handle is in use no worker has quit, and each can go on unless it waits for a job and there is none |
| `Background.EveryJobCanBeDelivered` | src/jit/background.rs:282-408 | with at least one worker, from every state of every run with the handle in use, some continuation delivers any job submitted |
| `Background.ResultsAreSeen` | src/vm/vm.rs:3420-3438 | a result never waits unannounced: if the owner is idle and no worker is about to announce, the flag is set |
| `Background.LooksFollowAnnouncements` | src/vm/vm.rs:3420-3438 | the owner drains at most once for each announcement |
| `Background.NoneWaitsForever` | src/jit/background.rs:119-128 | once the handle is gone every worker that is not done can go on; one waiting for a job finds the queue not empty |
| `Background.WorkersFinish` | src/jit/background.rs:282-408 | once the flag is set the workers take at most seven more actions each, in any run |
| `ListSort.Sort.CompareThrough` | src/builtins/list.rs:471-494 | the comparator is asked once, or, after it failed, not at all; the log says so |
| `ListSort.Sort.MergeSort` | src/builtins/list.rs:429-463 | always a permutation; for a total preorder sorted and stable; no call after a failure |
| `ListSort.Sort.SortWith` | src/builtins/list.rs:389-426 | the list's k-th value is the one at the k-th position of the arrangement found, the values are those it had, and for a total preorder they stand in order, equal ones as before; after a failure it is what the comparator left |
| `ListSort.RankedInOrder` | src/builtins/list.rs:409-424 | written back by position, a sorted and stable arrangement is a sorted list whose equal elements keep their order |
| `ListSort.RankedIsPermutation` | src/builtins/list.rs:409-424 | written back by position, an arrangement of the positions has the values the list had |
| `ListSort.OrderIsUnique` | src/builtins/list.rs:383-388 | sorted and stable leaves no choice: there is one such arrangement |
| `Calendar.DateRoundTrip` | src/modules/date.rs:89-114 | every valid proleptic Gregorian date comes back from its day number |
| `Calendar.DayRoundTrip` | src/modules/date.rs:89-114 | every integer is the day number of a valid date |
| `Calendar.DaysFollow` | src/modules/date.rs:101-118 | consecutive days have consecutive dates and weekdays |
| `Calendar.NextDayNumber` | src/modules/date.rs:89-99 | the day after a date has the next number, over month and year ends |
| `Calendar.EpochDay` | src/modules/date.rs:114-118 | day 0 is Thursday, the first of January 1970 |
| `Calendar.TimeRoundTrip` | src/modules/date.rs:153-170 | a second taken apart gives valid fields, which put together give the second |
| `Calendar.FieldsRoundTrip` | src/modules/date.rs:350-366 | valid fields put together and taken apart again are the same |
| `Calendar.YearDayCounts` | src/modules/date.rs:153-170 | the day of the year counts the days of the months before and of this one |
| `Calendar.WeekdaysFollow` | src/modules/date.rs:153-171 | second 0 is on a Thursday, seconds of one date are on one weekday, and a day later it is the next |
| `ParserCursor.Cursor.ScanRealToken` | src/compiler/parser.rs:351-371 | the next token without comments; each comment read is put aside once, in order |
| `ParserCursor.Cursor.PeekAt` | src/compiler/parser.rs:320-327 | the n-th token ahead, and the cursor stays where it is |
| `ParserCursor.Cursor.Advance` | src/compiler/parser.rs:411-433 | one token further in the stream without comments, with count, brace depth and last end of the tokens before |
| `ParserCursor.DepthCounts` | src/compiler/parser.rs:411-433 | the depth is the number of `{` less the number of `}` among the tokens before |
| `ParserCursor.LastEndIsLast` | src/compiler/parser.rs:411-433 | the last end is that of the last word or brace before, and 0 if there is none |
| `ParserCursor.Cursor.Rewind` | src/compiler/parser.rs:446-458 | after an advance: current token, pending tokens, count, brace depth and last end as before it |
| `ParserCursor.Cursor.TakeTrivia` | src/compiler/parser.rs:387-395 | the pending comments are split at the given place without loss |
| `ParserCursor.Cursor.Synchronize` | src/compiler/parser.rs:468-489 | recovery stops at the first place, from here on, where a statement may start |

## Left out

- Concurrency beyond interleaving: `Background` has every access to shared state as one step; relaxed loads of the flag are taken to see a store that happened before.
- `CompileJob::reply_to`, tiers, panics in the compiler and the JIT's logging: only the pool's own result channel is modelled.
- Cranelift plumbing, unwind registration and warm-up thresholds: foreign calls, or only arithmetic on floats.
- Garbage collection, pinning and write barriers: pinned slots are an ordinary sequence.
- Classes, imports, type hints and private names in the compiler: many branches, easy claims.
- Embedded assignment expressions and closures in the semantic-preservation fragment: assignment is a statement there, and `CloseUpvalues` is not emitted.
- Top-level code, where `var` declares a global, and the REPL's extra instructions.
- Register numbers and jump offsets that do not fit their operands, and how that is reported.
- Floating-point numbers: NaN, negative zero and rounding.
- Dictionary literals: the same strategy as lists, with two registers an entry.
- `using` labels that are expressions: their values are given, so what evaluating them does is not modelled.
- Line numbers, spans, diagnostics and lexer errors: skipped tokens are skipped, not reported.
- `EscapeSound.ParamSummaryIsSound`: an activation has a register window of its own, so a callee that overlaps its caller's window is not modelled; the name a function is bound to is never rebound.
- `EscapeSound.InPlaceIsSound`: assumes, as the analysis does, that the site does not read its own old destination, that no open upvalue points there, and that no instruction about to overwrite it raises where the analysis then no longer looks for it.
- `MustFacts.GlobalRefFacts`: register sets are sets; their packing into words is not modelled.
- `Escape.AnalyzeParamEscape`: the first instruction does not jump to itself; the worklist would not end otherwise.
- `LowerSound.LoweringPreservesMeaning`: anonymous functions, `using`, `assert`, imports and declarations are mapped through unchanged by the pass and are not in the tree here; where a bare declaration is the whole body of a `do` or of a counting `for`, only `LowerSound.LoweringWritesOut` says what the lowered program does; that of an `iter` is always in braces, as in the grammar.
- `Pipeline.TreeToMachine`: calls, fields, indices, ranges as values and loops over anything but a written-out range are in the tree's semantics and in lowering, but not in the compiler model.
- `CompilerGaps.BranchExactly`: when the branch without the declaration ends by an error or a jump, nothing is said of the code, which was compiled with the variable in view.
- `ParserCursor.Cursor.Rewind`: may follow only an advance, as the parser uses it.
- The parser's grammar, the remaining builtins, modules, the command line and the REPL.
