# A verified model of the GDScript compiler's backend

The compiler turns GDScript into a register IR and from there into native C or a RISC-V ELF.
This project models the parts of it that decide something about every run, every merge or every
byte, and proves those decisions right.

**C backend.** `Ir` is the instruction set (a representative subset with the operand roles DST,
SRC and INOUT) and what the IR verifier establishes. `Machine` runs it with the C backend's
tagging: comparisons and logic yield BOOL, integer division by zero fails, running off the end
returns r0. `Roles` shows that the operand roles and the control-flow graph are exact. `Interpreter`
is the second evaluator, proved to agree with the machine on whole runs that need no engine. The engine is a parameter, `Host`: it answers every request as it likes, subject only
to the result types the generator itself relies on (`TypeSoundness.HostContract`). `TypeFlow` is
the worklist type-set analysis, `TypeSoundness` and `TypeExactness` say that it is right and that it
loses nothing on single types, `Liveness` the backward liveness fixpoint. `Rewrites` deletes dead
MOVEs and turns proven COERCEs into MOVEs. `Ownership` is the machine the generator emits: Variant
slots, reference counts, transfers from dead sources, unboxed registers that keep a payload and no
tag, and a cleanup that skips what owns nothing; `Frames` has the slot macros on a real array.
`Backend` puts the stages together for one function.

**Whole programs.** `Programs` runs a program as a stack of frames, with the argument count and type
checks of an emitted entry. `Linking` relates such runs to functions whose calls a host answers, and
so carries rewriting over from functions to programs. `NativeRuns` is the emitted code's own stack:
callees work on the counts of their callers. Its steps are proved to follow the IR's one by one, so
runs that never end are covered too. `Generator` compiles a program. `BorrowSafety` is the
call-graph fixpoint, `Borrowing` what it is for: a borrowed argument keeps its value.

**Scripts and metadata.** `Chain` folds an `extends` chain into one program. `Wire`,
`FunctionCodec`, `ClassCodec` and `DebugCodec` are the binary metadata formats. `DebugRanges`
moves live ranges across optimization, `KnownBlobs` fixes the bytes of the formats, `Elf` lays out the image, `Labels` interns names and
resolves jumps, `IntegerAgreement` compares the two 64-bit evaluators (`Int64` has the shared
word arithmetic, `Options` the optional values).

Loops of the source are methods with invariants, objects it updates are classes, and each method
is proved against a specification about which the theorems are stated. Every theorem is for all
inputs, all hosts and all runs; the conditions that remain are listed where they matter:

- *Verified functions.* Theorems about a function ask for what the IR verifier establishes:
  structure, definite assignment, and a type hint on every reachable COERCE.
- *Copy propagation* is a pass of the IR optimizer and a parameter here: any pass that returns an
  equivalent verified function (`Rewrites.SafePass`).
- *Running off the end.* The type analysis does not count the implicit read of r0 at the end of a
  body. `RunningOffTheEnd` says for each run exactly when the reported set still covers it,
  `RunningOffTheEndIsCovered` gives the condition both analyses can state beforehand,
  `RunningOffTheEndCanEscape` is a verified body where the least solution does not cover it, and
  `EntryAgreesExactly` and `EscapingReturnsZero` carry this to the emitted code. A body that ends in
  a terminator, as the front end emits (`src/gdscript/compiler/codegen.cpp:1215-1220`), is never
  affected.
- *Untouched r0.* A RETURN reached without r0 ever having been looked at or written gives nil when
  compiled and 0 when interpreted. `Interpreter.StepAgrees` says that this is the only difference of a
  returned value, `UntouchedReturn` is the instance.
- *Setters.* The operand roles call the receiver of VSET, ARRAY_SET and DICT_SET only read
  (`src/gdscript/compiler/ir_opcodes.def:209`), but the emitted code writes it back. `ExecuteWrites`
  says which instructions assign what; the analyses are proved sound with these writes, on the
  engine's part assuming only that a setter keeps its receiver's type (`ReceiverKeepsTag`).
- *Entries.* An emitted entry checks the number of arguments, converts those for a parameter of one
  declared type other than Object, and looks only at parameters its body mentions. Arguments for a
  parameter declared with several types are not checked anywhere; `Programs.Good` asks that they fit,
  and `AcceptedProgram` that every CALL is statically so. What is checked is decided by the emitted
  body: `PruningCanDropACheck` has a check disappear with a dead MOVE, and `ChecksMatterExactly`
  says for which arguments that makes a difference.
- *Borrowing.* The scan for functions that may borrow looks at the instructions of a body, not at the
  conversions a CALL makes on entry. `SafeCallCanChangeGlobals` is a program it calls safe in which a
  conversion to String changes a global mid-call; `EntryKeepsGlobalsExactly` is the exact condition
  on one entry, and `SafeRunKeepsGlobals` asks of each CALL what implies it: where the entry would
  convert to String, the argument is a proven String.
- *Declared names.* `merge_chain` overwrites `chain_name` when it displaces a function. A function
  that already has one, as a displaced trait method does
  (`src/gdscript/compiler/traits.cpp:185-188`), changes its declared name.
  `DeclaredNameKept` is the exact condition, `TraitCopyIsRenamed` the instance.
- *Last stamp.* A debug range that ends past 2^32-1 loses the one instruction that has the last
  32-bit stamp; `RegionMembership` is exact.
- *Required arguments.* A decoder clamps `required_arguments` to the parameter count, so the round
  trip of functions, and of classes with nested functions, holds exactly when they were in range.
- *Undefined integer results.* `posmod(INT64_MIN, -1)` and some `wrapi` calls overflow a signed
  operation; `PosmodExactly` and `WrapiExactly` say exactly which, and what the others yield.

## Model

| member | source | states |
|---|---|---|
| Machine.ExecuteAgree | src/gdscript/compiler/ir.cpp:176-222 | the operand roles are complete: an instruction's value, world change and control transfer depend only on the registers the role queries say it reads |
| Machine.ExecuteWrites | src/gdscript/compiler/c_codegen.cpp:1038-1047 | an instruction that does not fail assigns a register exactly when the role queries give it a destination or it is a setter, whose emission writes the receiver back |
| Machine.StepFollowsEdge | src/gdscript/compiler/ir_interpreter.cpp:83-116 | every control transfer any step makes is an edge of the control-flow graph the analyses walk |
| Machine.StaysInside | src/gdscript/compiler/c_codegen.cpp:1165-1181 | no run of a body ending in a terminator reaches the position past its end |
| Machine.OnlyReturnReturns | src/gdscript/compiler/c_codegen.cpp:1178-1183 | inside the body only RETURN ends a call normally, with the value of r0 |
| Roles.ReadsMatter | src/gdscript/compiler/ir.cpp:189-222 | the roles say no more than what happens: for each register an instruction is said to read, two states that differ only there make it act, or return, differently |
| Roles.EdgesAreTaken | src/gdscript/compiler/c_codegen.cpp:213-246 | and neither does the graph: every edge, but for the one past a THROW, is a step some state takes |
| Roles.ThrowEnds | src/gdscript/compiler/ir_opcodes.def:200-231 | a THROW fails and a RETURN returns r0; the graph has an edge past the one, which is no terminator, and none past the other |
| Roles.OperandsInOrder | src/gdscript/compiler/c_codegen.cpp:428-446 | a request to the engine carries the operands in the order the instruction lists them, a receiver first, and nothing else |
| Interpreter.ExecuteFunction | src/gdscript/compiler/ir_interpreter.cpp:83-116 | the interpreter's loop runs the step function until the body returns, throws, ends or exceeds 20000000 steps |
| Interpreter.TruthAgrees | src/gdscript/compiler/ir_interpreter.cpp:638-650 | gj_boolean and get_bool agree; nil is false, a truth value or integer is true iff it is not 0 |
| Interpreter.CompareAgrees | src/gdscript/compiler/ir_interpreter.cpp:793-806 | for all 64-bit x and y the emitted comparison writes the truth value, and the interpreter the integer, of x == y, x < y and so on, on the integers |
| Interpreter.SwitchAgrees | src/gdscript/compiler/ir_interpreter.cpp:408-424 | a dense switch dispatches on exactly the integers from its base to base plus count, to the label at that distance, in both evaluators |
| Interpreter.StepAgrees | src/gdscript/compiler/ir_interpreter.cpp:135-555 | one step of both evaluators that needs no engine: same next instruction, same registers and globals; results of a RETURN are the same iff r0 was touched before |
| Interpreter.InterpreterAgrees | src/gdscript/compiler/ir_interpreter.cpp:61-116 | whole runs: as long as a run of the compiled function needs no engine the interpreter is in the same state after every number of steps, and returns when it does |
| Interpreter.DoublesMatch | src/gdscript/compiler/ir_interpreter.cpp:692-705 | the premise that both evaluators use the same doubles can be met |
| Interpreter.UntouchedReturn | src/gdscript/compiler/ir_interpreter.cpp:548-555 | a function that only returns gives nil when compiled and 0 when interpreted |
| Liveness.LiveInUnfold | src/gdscript/compiler/c_codegen.cpp:235-253 | liveness defined by paths to a use satisfies the backward equation at every instruction |
| Liveness.CollectLabels | src/gdscript/compiler/c_codegen.cpp:229-231 | the label map sends every label of the body, and nothing else, to its position |
| Liveness.Join | src/gdscript/compiler/c_codegen.cpp:238-246 | the merged set is the union over exactly the successors, with r0 for running off the end |
| Liveness.LiveAfter | src/gdscript/compiler/c_codegen.cpp:226-256 | the do-while loop stops, and a register is in `after[at]` iff some path from after `at` reaches a read of it, or the end for r0, with no write in between |
| Liveness.StepAgrees | src/gdscript/compiler/c_codegen.cpp:224-256 | two states agreeing on live registers take the same step: same outcome, same world, again agreeing on live registers |
| Liveness.DeadRegistersDoNotInterfere | src/gdscript/compiler/c_codegen.cpp:224-256 | overwriting a register that is not live after `at` with any value changes no result, no world and no failure of any continuation, step for step |
| TypeFlow.MaskMonotone | src/gdscript/compiler/c_codegen.cpp:124-197 | for every opcode the result type set grows with the operand sets |
| TypeFlow.AfterMonotone | src/gdscript/compiler/c_codegen.cpp:113-203 | the flow through any stretch of code is monotone and stays within 64 bits |
| TypeFlow.FindBlocks | src/gdscript/compiler/c_codegen.cpp:91-103 | block starts are exactly the positions after a transfer, the labels and the entry, and each label maps to the block it starts |
| TypeFlow.EdgeOutOfBlock | src/gdscript/compiler/c_codegen.cpp:91-103 | every transfer a run can make out of a block lands on a block start that is a block-graph successor |
| TypeFlow.Successors | src/gdscript/compiler/c_codegen.cpp:213-217 | the blocks merged into are exactly the block-graph successors |
| TypeFlow.FlowBlock | src/gdscript/compiler/c_codegen.cpp:115-203 | one pass gives the state at the block's end and the least extension of the per-register unions that covers every read and write in it |
| TypeFlow.MergeEdge | src/gdscript/compiler/c_codegen.cpp:204-212 | merging joins the state into the target and queues it exactly when something grew or it was unreached |
| TypeFlow.VisitBlock | src/gdscript/compiler/c_codegen.cpp:113-218 | a visit keeps the worklist invariant, that every reached unqueued block already flows into its successors, and either grows the solution or shrinks the queue |
| TypeFlow.SolveTypes | src/gdscript/compiler/c_codegen.cpp:78-218 | the worklist terminates in a solution of the block equations that is below every other solution |
| TypeFlow.ProvenLocals | src/gdscript/compiler/c_codegen.cpp:78-223 | a register is reported as kind t exactly when its union in the least solution is {t} |
| TypeSoundness.ResultSound | src/gdscript/compiler/c_codegen.cpp:124-197 | from operands within their sets, any execution of any instruction under any honest host yields a value within the computed result set |
| TypeSoundness.ReceiverKeepsTag | src/gdscript/compiler/c_codegen.cpp:1038-1047 | the write the roles do not mention leaves the receiver's tag what it was, under any honest host |
| TypeSoundness.SolutionFlows | src/gdscript/compiler/c_codegen.cpp:113-218 | a block-level solution is an invariant at every instruction: block boundaries miss no transfer |
| TypeSoundness.TypesAreSound | src/gdscript/compiler/c_codegen.cpp:78-218 | at every step of every run on conforming arguments, each register read and each register written has its tag in the reported union, around loops included |
| TypeSoundness.ProvenKindsAreSound | src/gdscript/compiler/c_codegen.cpp:78-223 | whenever one kind t is reported for a register, every value read from or written to it in every run has tag t |
| TypeSoundness.RunningOffTheEnd | src/gdscript/compiler/c_codegen.cpp:105-112 | run by run: what a run off the end returns is covered by r0's union iff the function has parameters, or nil is in the union, or the run wrote r0 |
| TypeSoundness.ResultIsCovered | src/gdscript/compiler/c_codegen.cpp:105-112 | for a body ending in a terminator every returned value is covered by r0's union |
| TypeSoundness.RunningOffTheEndIsCovered | src/gdscript/compiler/c_codegen.cpp:105-112 | stated before any run: if the function has parameters, or nil is in r0's union, or r0 is not live on entry, no run off the end escapes the union |
| TypeSoundness.ReportsOnce | src/gdscript/compiler/c_codegen.cpp:219-223 | the kinds the analysis reports are determined by the function |
| TypeSoundness.RunningOffTheEndCanEscape | src/gdscript/compiler/c_codegen.cpp:105-112 | a verified body for which the analysis can only report INT for r0, its least solution having {INT} there, although a run returns nil |
| TypeExactness.ResultExact | src/gdscript/compiler/c_codegen.cpp:124-197 | on operands of one type each the transfer is exact: every tag of the result set is what some honest host yields |
| TypeExactness.EntryExact | src/gdscript/compiler/c_codegen.cpp:80-112 | a parameter starts with exactly the tags a conforming call can pass, and r0 of a function without parameters with nil |
| TypeExactness.KindExactly | src/gdscript/compiler/c_codegen.cpp:113-223 | a register all whose writers give one and the same set, whatever their operands, is reported as kind t iff that set is {t} |
| TypeExactness.CallKindExactly | src/gdscript/compiler/c_codegen.cpp:145-152 | a register written only by calls of one function is reported as kind t iff the function declares the set {t}, or no set and the hint t, 1 <= t < 39 and t not 24 |
| TypeExactness.NullIsHonest | src/gdscript/compiler/c_codegen.cpp:149-149 | a function declared to return an Object may return null |
| Rewrites.FindMoved | src/gdscript/compiler/c_codegen.cpp:1335-1337 | after deletion every label is found where its position moved to |
| Rewrites.KeepMeansTheSame | src/gdscript/compiler/c_codegen.cpp:1329-1338 | one round of deleting MOVEs to never-read registers leaves results, worlds and failures of every run unchanged |
| Rewrites.CollectReads | src/gdscript/compiler/c_codegen.cpp:1329-1333 | the read set is exactly the registers some instruction reads, with r0 |
| Rewrites.RemoveDead | src/gdscript/compiler/c_codegen.cpp:1334-1337 | the in-place removal keeps exactly the other instructions, in order |
| Rewrites.Prune | src/gdscript/compiler/c_codegen.cpp:1326-1340 | the loop terminates in the iterated deletion |
| Rewrites.PrunedIsClean | src/gdscript/compiler/c_codegen.cpp:1326-1340 | at the fixpoint every remaining MOVE writes r0 or a register that a remaining instruction reads |
| Rewrites.OnlyMovesGo | src/gdscript/compiler/c_codegen.cpp:1334-1337 | pruning deletes MOVEs and nothing else: the other instructions stay, in order, and so do moves to r0 |
| Rewrites.PrunedMeansTheSame | src/gdscript/compiler/c_codegen.cpp:1326-1340 | pruning to the fixpoint preserves the meaning of every body from every initial state |
| Rewrites.PrunedVerified | src/gdscript/compiler/c_codegen.cpp:1326-1340 | a verified body stays verified: labels, ranges, definite assignment and reachable hints survive the shifts |
| Rewrites.SimplifiedRunsTheSame | src/gdscript/compiler/c_codegen.cpp:1344-1354 | replacing COERCE by MOVE where the proven kind is the hint gives the same state after every number of steps |
| Rewrites.Simplify | src/gdscript/compiler/c_codegen.cpp:1348-1353 | exactly the COERCEs whose source kind is proven equal to the hint become MOVEs, and the flag says whether any did |
| Rewrites.SimplifiedIsClean | src/gdscript/compiler/c_codegen.cpp:1348-1353 | afterwards no COERCE of a proven kind to that kind is left, and every changed instruction was one |
| Rewrites.PruneIsEquivalent | src/gdscript/compiler/c_codegen.cpp:1326-1340 | the pruned function is verified, called the same way, still ends in a terminator if it did, and has the same outcomes on every conforming call |
| Rewrites.SimplifyIsEquivalent | src/gdscript/compiler/c_codegen.cpp:1344-1354 | so is the function with proven COERCEs replaced |
| Rewrites.Optimize | src/gdscript/compiler/c_codegen.cpp:1319-1358 | runs copies and prune, simplify, and copies and prune again exactly when this or another function was simplified |
| Rewrites.OptimizedMeansTheSame | src/gdscript/compiler/c_codegen.cpp:1319-1358 | for any copy propagation that preserves meaning, the whole sequence does: result, global writes, engine effects and failures of every conforming call are those of the original |
| Ownership.MakePlan | src/gdscript/compiler/c_codegen.cpp:78-256 | the decisions rest on kinds proved by the type analysis, on exact liveness and on the registers in use |
| Ownership.OwnsExactly | src/gdscript/compiler/c_abi.h:184-185 | a value owns one reference to its payload iff its tag is above 3 and at least 24 or a zero bit of 0x90f7ef, computed by shift and mask; every other kind but nil is kept unboxed |
| Ownership.UsedExactly | src/gdscript/compiler/c_codegen.cpp:812-816 | the registers in use are r0 and those some instruction names |
| Ownership.SkippedExactly | src/gdscript/compiler/c_codegen.cpp:1183-1183 | the cleanup skips a register iff it is unused or of a reported kind for which the macro holds; never a String, Object or Array |
| Ownership.CleanupReleases | src/gdscript/compiler/c_codegen.cpp:1183-1183 | a String, Object or Array left in a used register loses exactly its reference |
| Ownership.MoveTransfersExactly | src/gdscript/compiler/c_codegen.cpp:900-907 | a MOVE between boxed registers hands over its reference and leaves nil iff the source is dead after it, else it retains |
| Ownership.CopyBalances | src/gdscript/compiler/c_abi.h:200-202 | a copy into a slot keeps reference counts equal to holders |
| Ownership.TakeBalances | src/gdscript/compiler/c_abi.h:204-206 | a transfer keeps them equal although nothing is retained |
| Ownership.ClearBalances | src/gdscript/compiler/c_codegen.cpp:1183-1183 | clearing a frame without the skipped registers releases exactly what the frame holds |
| Ownership.CleanupBalances | src/gdscript/compiler/c_codegen.cpp:1165-1186 | the cleanup hands over r0 or keeps the caller's slot, and leaves exactly the references outside the frame |
| Ownership.KeptWhole | src/gdscript/compiler/c_codegen.cpp:382-420 | a value written to an unboxed register survives the loss of its tag, because its tag is the proven kind |
| Ownership.RunsUntagged | src/gdscript/compiler/c_codegen.cpp:1201-1206 | whatever the plan, every run from the entry frame keeps nothing but payloads in unboxed registers: storing what a register holds would change nothing |
| Ownership.StepRealizes | src/gdscript/compiler/c_codegen.cpp:900-909 | each emitted instruction matches the IR step on live registers and keeps counts balanced, with takes, writes that drop the tag and skipped clears |
| Ownership.EntryAgreesExactly | src/gdscript/compiler/c_codegen.cpp:105-112 | the emitted frame starts in agreement with the IR iff r0 is a parameter, is not kept as an inline kind, or is not live at entry |
| Ownership.TerminatedStartsAlike | src/gdscript/compiler/codegen.cpp:1215-1220 | a body that ends in a terminator meets that condition |
| Ownership.EmittedCodeIsFaithful | src/gdscript/compiler/c_codegen.cpp:900-907 | after any number of steps the emitted code, with its untagged registers, is where the IR is; at return or failure it has the IR's result and world, and every count is what the result, globals, engine and callers hold, with no unfounded release |
| Ownership.EscapingReturnsZero | src/gdscript/compiler/c_codegen.cpp:105-112 | for that body the generator's own plan fails the entry condition, and its emitted code returns 0 where the IR returns nil |
| Frames.Frame.Clear | src/gdscript/compiler/c_abi.h:186-189 | the slot becomes nil and gives up the reference that its tag, by the macro's shift and mask, says it owns; nothing else changes |
| Frames.Frame.Move | src/gdscript/compiler/c_abi.h:200-202 | the destination holds the source's value with its own reference and the old one is released, also when the slots are the same |
| Frames.Frame.Take | src/gdscript/compiler/c_abi.h:204-206 | ownership passes to the destination and the source is nil; a slot onto itself is unchanged |
| Frames.Frame.ClearFrame | src/gdscript/compiler/c_codegen.cpp:1183-1183 | the loop clears, in place, every slot that is not skipped |
| Frames.Frame.ClearBalanced | src/gdscript/compiler/c_codegen.cpp:1183-1183 | if skipped slots own nothing, only the outside references remain after the loop |
| Backend.Compile | src/gdscript/compiler/c_codegen.cpp:1319-1360 | rewriting and planning a verified function that ends in a terminator gives code whose calls end, for every host, arguments and world, exactly as calls of the source do and in no other way, with all reference counts balanced |
| Backend.LoopIsVerified | src/gdscript/compiler/ir_verifier.h:8-10 | the premises about one function hold together: a body with a loop and a COERCE is verified, a host that answers every request with a promised tag meets the contract, and there is a safe copy propagation |
| Backend.CompiledCallIsFaithful | src/gdscript/compiler/c_codegen.cpp:900-1360 | for every equivalent rewriting, plan, host, call and final outcome, the source IR ends in it iff the emitted code does, with all reference counts balanced |
| Backend.CompiledCallEndsLikeIr | src/gdscript/compiler/c_codegen.cpp:1165-1186 | emitted code that ends has a result, world and counts that the IR accounts for |
| Programs.EnterConforms | src/gdscript/compiler/c_codegen.cpp:840-869 | whatever arguments are passed, those an entry admits are of the declared types, and the world stays well-typed when it refuses |
| Programs.EntryConvertsExactly | src/gdscript/compiler/c_codegen.cpp:856-869 | an entry asks for a conversion iff the declared set is one type from 1 to 38 other than 24 and the argument is of another |
| Programs.ConformingAdmitted | src/gdscript/compiler/c_codegen.cpp:856-869 | arguments of the declared types are admitted unchanged, without asking the engine |
| Programs.AcceptedIsSound | src/gdscript/compiler/c_codegen.cpp:145-152 | in every run of an accepted function under every honest host, each CALL passes arguments its callee's entry can take and each return is of the declared set |
| Programs.RewrittenIsSound | src/gdscript/compiler/c_codegen.cpp:1319-1358 | so is every run of a rewritten program, for any rewriting that preserves results, worlds and failures: a host could otherwise tell the two apart |
| Linking.LinkedIsHonest | src/gdscript/compiler/c_codegen.cpp:145-152 | assume and guarantee by induction on call depth: what callers assume of callees holds at every depth, recursion included |
| Linking.LinkedAlike | src/gdscript/compiler/c_codegen.cpp:978-1020 | at every depth, calls that run rewritten functions are answered as calls that run the originals |
| Linking.RunTraces | src/gdscript/compiler/c_codegen.cpp:978-1020 | each frame of a stack run, at every step, is at a state of its function's own run when a host answers its calls; when the stack run ends, the function's run ends in the same outcome |
| Linking.LinkedReaches | src/gdscript/compiler/c_codegen.cpp:978-1020 | conversely an outcome that does not come from the base host is reached by the stack run |
| Linking.RewrittenRunsTheSame | src/gdscript/compiler/c_codegen.cpp:1319-1358 | rewriting function by function preserves whole programs: for every call, of any number and types of arguments, the stack runs of both end in the same outcomes or both never end |
| NativeRuns.EnterRealizes | src/gdscript/compiler/c_codegen.cpp:840-869 | the emitted entry, copying and converting argument by argument, fills the frame with what the IR admits, or refuses with a frame that cleans up; counts stay balanced throughout |
| NativeRuns.Unwinds | src/gdscript/compiler/c_codegen.cpp:1165-1186 | a failure at any depth cleans up every frame below it and leaves exactly the references outside the stack |
| NativeRuns.ReturnCounts | src/gdscript/compiler/c_codegen.cpp:1014-1020 | a returning callee's value replaces the one in its caller's destination slot, with every count moved accordingly |
| NativeRuns.EmittedRunKeeps | src/gdscript/compiler/c_codegen.cpp:769-1186 | whole runs, step by step and whether or not they end: the emitted stack is where the IR stack is, frame by frame on live registers, and every count is what the frames, globals, engine, result slot and callers hold, with no unfounded release |
| NativeRuns.StackUntagged | src/gdscript/compiler/c_codegen.cpp:1201-1206 | through calls, conversions and returns, whatever the plans, no frame keeps more than payloads in unboxed registers |
| NativeRuns.ProgramIsFaithful | src/gdscript/compiler/c_codegen.cpp:769-1360 | from source IR to emitted code: for every accepted program, call, arguments and outcome, the source run ends in it iff the emitted run does, with all reference counts balanced |
| NativeRuns.ProgramEndsLikeSource | src/gdscript/compiler/c_codegen.cpp:1165-1186 | the emitted program has no other endings; one whose source never ends never ends |
| Generator.CompileProgram | src/gdscript/compiler/c_codegen.cpp:1319-1360 | the generator's loops over a program rewrite every function into an equivalent one and plan it |
| Generator.RecursiveIsAccepted | src/gdscript/compiler/c_codegen.cpp:145-152 | the premises about programs are met together by a recursive function that relies on conversion on entry |
| Generator.CompileRecursive | src/gdscript/compiler/c_codegen.cpp:1319-1360 | and that program compiles, so those about compiled programs are met too |
| Generator.ChecksMatterExactly | src/gdscript/compiler/c_codegen.cpp:841-869 | two choices of which parameters an entry looks at agree, for every host and world, iff the arguments they differ on already have their declared type |
| Generator.PruningCanDropACheck | src/gdscript/compiler/c_codegen.cpp:1334-1337 | a body whose pruning takes the last mention of a parameter, and with it the check of its argument |
| BorrowSafety.ScanBodies | src/gdscript/compiler/c_codegen.cpp:1219-1244 | the first pass marks exactly the functions with a locally unsafe instruction, receivers judged by the kinds the type analysis reports for that body |
| BorrowSafety.SafeExactly | src/gdscript/compiler/c_codegen.cpp:1223-1243 | opcode by opcode, when the scan finds nothing unsafe in a body |
| BorrowSafety.CallsUnsafe | src/gdscript/compiler/c_codegen.cpp:1250-1253 | the scan finds a call to an unsafe function iff there is one |
| BorrowSafety.BorrowSafe | src/gdscript/compiler/c_codegen.cpp:1219-1255 | the fixpoint terminates and a function is safe iff no function reachable through CALL or CALL_HOSTED, itself included, is locally unsafe |
| BorrowSafety.SafeReachesNothing | src/gdscript/compiler/c_codegen.cpp:1245-1255 | a set closed under calls with only locally safe members reaches no unsafe instruction |
| BorrowSafety.SafeReceiverIsBuiltin | src/gdscript/compiler/c_codegen.cpp:1229-1232 | whenever a run reaches a method call the scan let pass, its receiver has the built-in type it was judged by |
| Borrowing.SafeRunKeepsGlobals | src/gdscript/compiler/c_codegen.cpp:1217-1255 | from the start of a safe function's body through every step of everything it calls, no global changes, if its calls pass proven Strings where an entry would convert to String |
| Borrowing.BorrowedKeepsItsValue | src/gdscript/compiler/c_codegen.cpp:1192-1196 | so whatever a borrowed argument points to, a global or a register of a waiting frame, holds its value until the function returns |
| Borrowing.EntryKeepsGlobalsExactly | src/gdscript/compiler/c_codegen.cpp:856-861 | an entry leaves the globals alone under every engine the scan allows iff no argument has to be converted to String |
| Borrowing.SafeCallCanChangeGlobals | src/gdscript/compiler/c_codegen.cpp:1219-1255 | an accepted program that the scan calls safe, and an honest engine under which a global changes in the middle of a call |
| Borrowing.BorrowAlone | src/gdscript/compiler/c_codegen.cpp:1219-1255 | the premises of the borrowing theorem hold together |
| Chain.DisplacedSymbolInjective | src/gdscript/compiler/chain.cpp:33-35 | a displaced symbol determines its link and its name |
| Chain.DisplacedSpelling | src/gdscript/compiler/chain.cpp:33-35 | the spelling of displaced symbols, for the first and the last possible link |
| Chain.CheckPaths | src/gdscript/compiler/chain.cpp:69-80 | accepts exactly the chains without a repeated nonempty path |
| Chain.Declare | src/gdscript/compiler/chain.cpp:37-50 | a name list is accepted iff it repeats nothing declared before or within it |
| Chain.MergeTables | src/gdscript/compiler/chain.cpp:115-156 | succeeds iff no member name and no type name is declared twice, and then appends all five tables link by link |
| Chain.AddFunction | src/gdscript/compiler/chain.cpp:163-183 | adding a declaration, with the renaming of the copy it overrides, keeps functions, origins and the visible index what they should be for all declarations so far |
| Chain.MergeFunctions | src/gdscript/compiler/chain.cpp:158-184 | succeeds iff no link declares a function twice, and then yields the tables of all declarations |
| Chain.MergeChain | src/gdscript/compiler/chain.cpp:54-187 | a chain of two or more merges iff it is at most 16 deep with distinct paths, members, types and per-link functions; too deep and repeated paths are reported as such; one script is returned unchanged. Said of the appended tables: within 16 links with distinct paths and functions it merges iff globals and signals, and structs, traits and named enums, are pairwise distinct, and then they are in the result |
| Chain.NamesApartExactly | src/gdscript/compiler/chain.cpp:121-155 | the link-by-link name tests are exactly that the appended tables have no name twice, unnamed enums apart |
| Chain.TablesInOrder | src/gdscript/compiler/chain.cpp:121-155 | the appended tables hold each link's table whole, in its place, and nothing else |
| Chain.DeclarationAt | src/gdscript/compiler/chain.cpp:158-184 | function i of link k is at its place among all declarations, under the number of its link |
| Chain.MergeConserves | src/gdscript/compiler/chain.cpp:158-184 | each declaration is in the merged program exactly once, in order, with its link and body |
| Chain.DeclaredNameKept | src/gdscript/compiler/chain.cpp:172-178 | the declared name is unchanged iff the function is not overridden, or had no other chain name and is not nameless |
| Chain.TraitCopyIsRenamed | src/gdscript/compiler/traits.cpp:182-191 | two links that displace the same trait method: the lower copy's declared name changes |
| Chain.SymbolsDistinct | src/gdscript/compiler/chain.cpp:32-35 | merged symbols are pairwise distinct iff no visible function carries the symbol of a displaced one |
| Chain.PlainNamesAreFree | src/gdscript/compiler/chain.cpp:32-35 | that is so whenever no source name starts with '@super' |
| Chain.MostDerivedIsVisible | src/gdscript/compiler/chain.cpp:171-182 | a merged function carries a plain name iff it is the declaration of it with the highest link |
| Chain.TablesDistinct | src/gdscript/compiler/chain.cpp:121-136 | merged globals are distinct, signals are distinct, and no signal shares a name with a global |
| Chain.SuperOf | src/gdscript/compiler/ast.h:631-643 | returns the last listed origin below the link, or nothing when there is none |
| Chain.SuperExists | src/gdscript/compiler/ast.h:631-643 | `super` has a target iff a strictly lower link declares the name |
| Chain.SuperIsNearest | src/gdscript/compiler/ast.h:631-643 | the target is the nearest strictly lower declaration, and its symbol names that function and no other in the merged program |
| Wire.ReadsWhatWasWritten | src/gdscript/compiler/function_signature.cpp:9-19 | a scalar written in n bytes reads back |
| Wire.WritesWhatWasRead | src/gdscript/compiler/debug_layout.cpp:13-17 | bytes read as a scalar are the bytes that writing it gives |
| Wire.TextReads | src/gdscript/compiler/function_signature.cpp:40-49 | a string reads back when all of it is there and fails when cut anywhere |
| Wire.ManyReads | src/gdscript/compiler/function_signature.cpp:146-197 | if each item reads back or fails when cut, so does any list of them |
| Wire.Reader.Scalar | src/gdscript/compiler/function_signature.cpp:28-38 | advances and reads iff nothing failed before and the bytes are there, else fails for good |
| Wire.Reader.String | src/gdscript/compiler/function_signature.cpp:40-49 | same, for a length and that many bytes |
| FunctionCodec.EncodeSignatures | src/gdscript/compiler/function_signature.cpp:54-130 | writes the sectioned encoding, which decodes to the same signatures when required arguments are in range |
| FunctionCodec.DecodeSignatures | src/gdscript/compiler/function_signature.cpp:132-284 | the cursor decoder accepts exactly what the format's parser accepts, with its value, and leaves the output empty otherwise |
| FunctionCodec.PrefixDecodes | src/gdscript/compiler/function_signature.cpp:92-128 | every prefix of an encoding: cut after the legacy records, STAT, STYP or DECL it decodes with later fields at their defaults, whole it decodes fully, cut anywhere else it is rejected |
| FunctionCodec.RoundTrip | src/gdscript/compiler/function_signature.cpp:192-195 | decoding undoes encoding iff no function requires more arguments than it has parameters |
| FunctionCodec.TakeRecord | src/gdscript/compiler/function_signature.cpp:146-197 | the legacy record loop body reads what the parser reads, or fails where it fails |
| FunctionCodec.TakeStatics | src/gdscript/compiler/function_signature.cpp:206-226 | STAT is checked byte by byte and updates the decoded signatures in place |
| FunctionCodec.TakeTyped | src/gdscript/compiler/function_signature.cpp:230-249 | STYP is rejected on any count mismatch and else fills in class names |
| FunctionCodec.TakeDeclarations | src/gdscript/compiler/function_signature.cpp:250-267 | DECL keeps reading after a failure and still ends failed |
| FunctionCodec.TakeHooks | src/gdscript/compiler/function_signature.cpp:268-278 | HOOK likewise |
| ClassCodec.EncodeClasses | src/gdscript/compiler/function_signature.cpp:327-386 | writes the sectioned encoding, which decodes to the same classes when nested required arguments are in range |
| ClassCodec.DecodeClasses | src/gdscript/compiler/function_signature.cpp:388-539 | accepts exactly what the format's parser accepts, with its value, and leaves the output empty otherwise |
| ClassCodec.BlobReads | src/gdscript/compiler/function_signature.cpp:489-496 | a nested function-signature blob reads back from exactly its own bytes, with required arguments clamped |
| ClassCodec.TakeBlob | src/gdscript/compiler/function_signature.cpp:489-496 | the nested decoder is run on those bytes and the cursor moves past them only if it accepts |
| ClassCodec.TakeTraits | src/gdscript/compiler/function_signature.cpp:471-518 | TRAT with its two nested blobs and two counted lists per class |
| ClassCodec.PrefixDecodes | src/gdscript/compiler/function_signature.cpp:388-539 | every prefix: section boundaries decode with defaults, whole decodes fully, any other cut is rejected, for all nested signatures |
| ClassCodec.RoundTrip | src/gdscript/compiler/function_signature.cpp:327-539 | every published field of every class, with nested methods and signals, comes back iff no nested function requires more arguments than it has parameters |
| DebugCodec.EncodeVariables | src/gdscript/compiler/debug_layout.cpp:27-38 | writes a blob that, within the limits, decodes to the same records |
| DebugCodec.DecodeVariables | src/gdscript/compiler/debug_layout.cpp:40-59 | publishes records only after the whole blob was accepted; otherwise, absent data included, the output is empty |
| DebugCodec.PrefixDecodes | src/gdscript/compiler/debug_layout.cpp:40-59 | whole blobs decode whatever their minor version, every strict prefix is rejected |
| DebugCodec.AcceptedIsEncoded | src/gdscript/compiler/debug_layout.cpp:40-59 | an accepted blob is the encoding of its records, all within the limits, up to the minor version |
| DebugCodec.DecodesExactly | src/gdscript/compiler/debug_layout.cpp:40-59 | a blob decodes to given records iff they are valid, the blob is within the size limit and is their encoding under some minor version |
| DebugCodec.Canonical | src/gdscript/compiler/debug_layout.cpp:27-59 | re-encoding an accepted blob changes at most bytes 6 and 7 |
| KnownBlobs.TextBytes | src/gdscript/compiler/function_signature.cpp:9-26 | a text is its length in four bytes, least significant first, and its bytes |
| KnownBlobs.DefaultBytes | src/gdscript/compiler/function_signature.cpp:68-90 | the byte that names each kind of default, and what follows it |
| KnownBlobs.FunctionBlob | src/gdscript/compiler/function_signature.cpp:54-130 | for every function with a parameter, the bytes of its blob in order, with STAT, STYP, DECL and HOOK spelled out |
| KnownBlobs.ClassBlob | src/gdscript/compiler/function_signature.cpp:327-386 | for every class with a field, a method, a use and a trait field, the bytes of its blob in order, with SDOC, TRAT and CSIG spelled out |
| KnownBlobs.DebugBlob | src/gdscript/compiler/debug_layout.cpp:27-38 | for every debug variable, the bytes of its blob in order, from DVAR on |
| KnownBlobs.DebugLimits | src/gdscript/compiler/debug_layout.cpp:8-12 | the limits of accepted debug blobs, as numbers |
| DebugRanges.StampAll | src/gdscript/compiler/compiler.cpp:370-377 | positions get their 32-bit stamps, one more than the position while that fits |
| DebugRanges.RunningMaximum | src/gdscript/compiler/compiler.cpp:387-394 | the searched array is the running maximum of the stamps and is sorted for any optimizer output |
| DebugRanges.LowerBound | src/gdscript/compiler/compiler.cpp:395-398 | the search splits a sorted array at the stamp, at the only place it can |
| DebugRanges.Remap | src/gdscript/compiler/compiler.cpp:382-403 | locals of vanished registers are dropped and the others moved, in order |
| DebugRanges.RangesStayApart | src/gdscript/compiler/compiler.cpp:387-403 | for any optimizer output ranges do not invert, stay within the code, and disjoint ranges stay disjoint |
| DebugRanges.RegionMembership | src/gdscript/compiler/compiler.cpp:395-403 | an instruction in its own region is in a moved range iff its position was in the range, except exactly when it has the last stamp and the range ends past it |
| DebugRanges.MembershipKept | src/gdscript/compiler/compiler.cpp:387-403 | the same for every surviving instruction when stamps kept their order |
| DebugRanges.MembershipExactly | src/gdscript/compiler/compiler.cpp:387-403 | all ranges agree on an instruction iff no earlier stamp is higher and its own is not the last |
| Elf.BuildTable | src/gdscript/compiler/elf_builder.cpp:91-121 | the table is the names with their terminators and each offset is where its name starts |
| Elf.NameReadsBack | src/gdscript/compiler/elf_builder.cpp:91-121 | a name reads back from its offset iff it has no zero byte |
| Elf.SymbolsReadBack | src/gdscript/compiler/elf_builder.cpp:102-290 | from the two tables, every symbol entry reads back, and its name offset leads to its name iff that has no zero byte |
| Elf.ImageSymbols | src/gdscript/compiler/elf_builder.cpp:102-470 | from the file alone: exactly one section header is a symbol table, its link leads to the string table, and every symbol and name is recovered |
| Elf.ChunkLands | src/gdscript/compiler/elf_builder.cpp:388-428 | however parts are aligned, each lands at the offset computed for it |
| Elf.SectionsApart | src/gdscript/compiler/elf_builder.cpp:292-326 | headers, sections and the section header table occupy disjoint ranges inside the file |
| Elf.ImageSize | src/gdscript/compiler/elf_builder.cpp:292-326 | padding and headers add less than three pages to the inputs |
| Elf.ImageSections | src/gdscript/compiler/elf_builder.cpp:292-502 | a reader that follows the ELF header to the section headers and the name table recovers the name and the bytes of every section |
| Elf.ImageSegments | src/gdscript/compiler/elf_builder.cpp:355-386 | each loadable segment's header is found, its bytes are at its offset, and offset and address agree modulo the alignment as the Program Header section of chapter 5 of the System V ABI asks |
| Elf.ImageHeader | src/gdscript/compiler/elf_builder.cpp:326-352 | the file header number by number at its ELF64 offset: identification, RISC-V, entry, tables and counts |
| Elf.SegmentNumbers | src/gdscript/compiler/elf_builder.cpp:355-386 | each program header number by number at its ELF64 offset |
| Elf.SectionHeaderBytes | src/gdscript/compiler/elf_builder.cpp:428-500 | a section header that is found has its numbers at their ELF64 offsets |
| Elf.SymbolBytes | src/gdscript/compiler/elf_builder.cpp:102-290 | so has a symbol |
| Elf.SectionsSpelled | src/gdscript/compiler/elf_builder.cpp:428-500 | section names as bytes, their types, and that text and data together are the code |
| Elf.LoadedImage | src/gdscript/compiler/elf_builder.cpp:355-386 | what is loaded, as numbers from the file: text readable and executable at 0x10000, data readable and writable at the first page boundary after it, not overlapping, both where their section headers say; the entry point is inside text iff that is longer than 8 bytes |
| Elf.Place | src/gdscript/compiler/elf_builder.cpp:388-428 | the padding loop brings the file to the computed offset and appends there |
| Elf.LayOut | src/gdscript/compiler/elf_builder.cpp:292-326 | the running offset gives every section and the header table the start of its part |
| Elf.Build | src/gdscript/compiler/elf_builder.cpp:91-502 | the file written step by step is the laid-out image those theorems are about, so a reader recovers every section from it |
| IntegerAgreement.BinaryAgrees | src/gdscript/compiler/ir_interpreter.cpp:667-727 | for all 64-bit inputs and nonzero divisors the emitted C form and the interpreter agree; arithmetic is the exact result wrapped to 64 bits, INT64_MIN by -1 included, and each bit of a bitwise result is the operator on the bits in its place |
| IntegerAgreement.BitsExactly | src/gdscript/compiler/ir_interpreter.cpp:678-681 | each bit of a bitwise result is the conjunction, disjunction or difference of the two bits in its place |
| IntegerAgreement.QuotientAgrees | src/gdscript/compiler/c_codegen.cpp:652-655 | guarded division and remainder are truncating division and remainder wrapped to 64 bits |
| IntegerAgreement.ShiftAgrees | src/gdscript/compiler/c_codegen.cpp:656-660 | with the count masked by 63, shifts multiply or divide by the power of two of the count modulo 64 |
| IntegerAgreement.UnaryAgrees | src/gdscript/compiler/c_codegen.cpp:959-962 | negation and complement agree, and INT64_MIN negates to itself |
| IntegerAgreement.AbsAgrees | src/gdscript/compiler/globals.cpp:743-748 | the sign-mask form, xor and subtract, equals the emitted conditional and is the magnitude except at INT64_MIN |
| IntegerAgreement.GlobalAgrees | src/gdscript/compiler/globals.cpp:731-762 | absi, signi, mini, maxi, clampi: emitted expression, evaluator and mathematical meaning coincide in range, and too few arguments fail |
| IntegerAgreement.PosmodExactly | src/gdscript/compiler/globals.cpp:763-774 | posmod is the remainder with the divisor's sign, 0 for a zero divisor, and undefined at exactly one pair of inputs |
| IntegerAgreement.WrapiExactly | src/gdscript/compiler/globals.cpp:775-782 | wrapi is defined exactly when span and distance fit and the rest of the distance leaves room for one more span; then it lies in the range and is congruent to its argument modulo the span |
| IntegerAgreement.UndefinedInputs | src/gdscript/compiler/globals.cpp:763-782 | inputs at which each is undefined, and a neighbour at which it is not |
| Labels.StringTable.Intern | src/gdscript/compiler/ir.h:137-146 | a known text keeps its id, a new one goes last, no other id changes, and the id reads back |
| Labels.StringTable.InternAll | src/gdscript/compiler/ir.h:137-151 | over any sequence of calls old ids stay, ids read back, and equal ids mean equal texts |
| Labels.InverseExactly | src/gdscript/compiler/ir.h:134-151 | ids and texts are mutually inverse iff there are at most 2^32 texts, and the invalid id is unused iff there are fewer |
| Labels.CollectTexts | src/gdscript/compiler/ir_interpreter.cpp:90-97 | the interpreter's map sends each text to the last label with it |
| Labels.TextAndIdAgree | src/gdscript/compiler/ir_interpreter.cpp:126-133 | jumps resolved by text and by id hit the same instruction, or neither is found |
| Labels.LoopFollowsStep | src/gdscript/compiler/ir_interpreter.cpp:99-114 | the step loop's test never mistakes a taken jump for falling through: it continues exactly where the instruction says |

## Left out

- Ownership.MakePlan: borrowed parameters, the fused array step and the typed calling convention, with its conversion of results, are not part of the plan; parameters are owned slots.
- NativeRuns.ProgramIsFaithful: which parameters an entry looks at is taken from the emitted body on both sides; `ChecksMatterExactly` says when that matters.
- Elf.Build: the symbols come in as a list; how the code generator's addresses fill them is not modelled.
- Chain.MergeChain: class names, tool flags, `uses` lists and the positions in error messages are not modelled.
- Labels.TextAndIdAgree: a label id that no table entry has is outside it; operands carry interned ids.
- FunctionCodec.RoundTrip: `default_function` is not on the wire and is not part of a parameter here.
- ClassCodec.RoundTrip: `source_path` is not on the wire and is not part of a class here.
- BorrowSafety.ScanBodies: the opcode table, which says which opcodes have effects, is a parameter, and callees are indices, names being resolved before.
- Coroutines, AWAIT, debug hooks and breakpoints: a protocol with the host.
- Lexer, parser, front-end code generation, the IR optimizer and the RISC-V code generator: their documented contracts appear as preconditions.
- Interpreter.InterpreterAgrees: Strings, calls and global functions of the interpreter are not modelled.
- Engine operations: what the host computes, apart from the result types the generator relies on.
- Floating-point arithmetic and the floating-point global functions: doubles are opaque.
- RPC configurations, script constants, line tables and the metadata container: further codecs of the same kind with weaker rejection rules.
- Emitted C text, command line and input/output.
