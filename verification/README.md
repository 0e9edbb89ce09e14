# The back ends of the KMY compiler

KMY compiles a function in one of two ways. The native pipeline lowers structured code to a control-flow graph over a
variable store (`CodegenIR/IRBuilder.cpp`), puts the graph into SSA form (`SSA/SSABuilder.cpp`), and turns phis into
moves and the rest into machine instructions (`MachineIR/MIRBuilder.cpp`). The bytecode compiler
(`Compiler/compiler.cpp`) emits stack code in one pass, patching its jumps, for a virtual machine
(`BytecodeVM/vm.cpp`). This project models both and proves that compiled functions behave as their source does: they
print the same, stop with the same result or error, and run forever exactly when the source does, for all arguments.
The source language means one thing to each back end; a last module proves where the two agree, and shows where they
do not.

How the files follow the program:

| part | files |
|---|---|
| source language and its meaning, scopes | `Source`, `Scoping` |
| lowering: `IRBuilder` as a class, its specification, and its proofs | `IrBuilder`, `Lowering`, `LoweringGrowth`, `LoweringSteps`, `LoweringSim`, `LoweringCorrect`, `LoweringShape`, `LoweringEdges`, `LoweringEnds`, `LoweringSound`, `LoweringReady` |
| the intermediate code and its meaning | `Hir` |
| dominance and frontiers | `Graph`, `DomFixpoint`, `Frontier` |
| SSA construction: `SSABuilder` as a class, its specification, and its proofs | `SsaBuilder`, `PhiPlan`, `RenamePlan`, `SsaForm`, `SsaCorrect`, `PhiInsertion`, `SsaStrict` |
| SSA destruction: `MIRBuilder` as a class, parallel copies, machine code and its meaning | `MirBuilder`, `ParallelCopy`, `MirLowering`, `MirCorrect`, `Mir` |
| the passes together | `Pipeline`, `MachineForm`, `NativeCompiler` |
| the virtual machine, what statements mean to it, and the laws of its operators | `VirtualMachine`, `VmSource`, `ValueLaws` |
| bytecode: `Compiler` as a class, the layout of its code, and its proofs | `BytecodeCompiler`, `BytecodeLayout`, `BytecodeCorrect`, `BytecodeHeights`, `BytecodeBackend` |
| both back ends on one function: values, statements, calls | `ValueTypes`, `StatementsAgree`, `BackEndsAgree` |

Each pass is a method over mutable state, proved equal to a function of its input (`LowerFunction`, `Renamed`,
`LowerCode`, ...) or to satisfy a declarative relation (`PhisInserted`, `IsSsaOf`, `IsLowering`), and the theorems
about runs are lemmas about those. Blocks and values are numbers, graphs carry their own predecessor and successor
lists as the original does, and every meaning is an interpreter: a big-step one with fuel for the source, one block
per step for the two graph languages, one instruction per step for bytecode. A division by zero traps. A phi reads the
store as it was when the edge was taken.

## Findings

Properties one would expect of the pipeline that the code does not have. Each has the input that shows it and the
exact condition.

- **Merge blocks nothing leads to.** When both arms of an `if` leave (return, break or continue), its merge block is
  still made (CodegenIR/IRBuilder.cpp:1842-1861) and gets no predecessor; dominator computation then fails its
  assertion (SSA/SSABuilder.cpp:83). `LoweringReady.BothReturnIsOrphaned` shows
  `if (x) return 1; else return 2;`; `LoweringReady.GraphWellFormedIff` shows that the lowered graph is acceptable
  exactly when no `if` that gets lowered has two leaving arms, which is `Scoping.MergesLive`.
- **Logical negation has no machine form.** `!` is lowered to `LOGICAL_NOT` (CodegenIR/IRBuilder.cpp:252, 739-746),
  and machine lowering throws on it (MachineIR/MIRBuilder.cpp:416-421).
  `NativeCompiler.ReturnNotHasNoMachineCode` shows `return !x;`; `NativeCompiler.Compile` produces machine code exactly
  when neither this nor the first finding applies, with `Scoping.UsesNot` for "uses negation in code that gets
  lowered".
- **The redirection of a cycle reaches one copy.** The comment at MachineIR/MIRBuilder.cpp:765-766 says that every
  pending copy of the saved source now reads the temporary. The loop's test reads `S` through a reference to the
  element it overwrites first (MachineIR/MIRBuilder.cpp:751, 767-771), so only the first copy is redirected. The model
  follows the code. No harm comes of it: copies are only ever redirected when stuck, and then no two have the same
  source (`ParallelCopy.StuckIsPermutation`).
- **The virtual machine passes arguments backwards.** A call pushes its arguments last to first
  (Compiler/compiler.cpp:288-291), its frame starts at the lowest of them (BytecodeVM/vm.cpp:442), and parameters have
  the slots from there up in order (Semantics/ClosureAnalyser.cpp:51), so the first parameter gets the last argument;
  native code passes them in order (CodegenIR/IRBuilder.cpp:1075-1079). `BackEndsAgree.CallFrame` computes the frame;
  `BackEndsAgree.SubtractsBackwards`: `return a - b;` called with 5 and 3 gives 2 natively and -2 in the machine.
  `BackEndsAgree.AgreeInOrderIff`: all calls with given arguments that the type rules accept
  (Semantics/Resolver.cpp:445-451, 488-492) agree, up to the next finding, if and only if the argument list reads the
  same backwards, as every list of one does. The kinds of the values count, not only their words: `return a + 1;`
  called with 1 and true, both 1 natively, gives 2 natively and a double in the machine, whose `a` is true
  (`BackEndsAgree.AddsToTrue`). `BackEndsAgree.AgreeReversedIff` and `FailReversedIff`: all accepted calls do in the
  machine what they do natively on the reversed arguments, and fail alike, if and only if numbers and booleans are in
  the places where they are read backwards. `BackEndsAgree.BackEndsAgree` therefore compares the machine's call with
  the native call on the reversed arguments, for functions whose parameter types read the same backwards.
- **The virtual machine does not skip an operand.** The bytecode of `&&` and `||` evaluates both operands
  (Compiler/compiler.cpp:134-138), where native code skips the right one (CodegenIR/IRBuilder.cpp:261-301), so a guard
  does not guard: `x != 0 && 10 / x > 1` is false natively for 0 and an error in the machine
  (`BackEndsAgree.GuardDoesNotGuard`). `ValueTypes.ExprAgrees`: the machine has a value for a typed expression if and
  only if no operand at all divides by zero, needed or not. `StatementsAgree.FailsIff` and
  `BackEndsAgree.BackEndsAgree` carry this to statements and calls: the machine fails if and only if the native run
  evaluates an expression that is not `Total` in this sense. A condition on the text alone, no division in the right
  operand of a `&&` or `||` (`Unguarded`), makes both fail on the same calls.
- **`2 && 3`.** The type rules accept it (Semantics/Resolver.cpp:235-238); natively it is the right operand, 3, in the
  machine it is true (`BackEndsAgree.AndOfIntegersDiffers`). `ValueTypes.AndAgreesIff` and `ValueTypes.OrAgreesIff`: on
  operands that agree, `&&` agrees if and only if the left value is 0 or the right one is 0 or 1, and `||` if and only
  if the left value is not 0 or the right one is 0 or 1. The types of `ValueTypes` therefore take any left operand, give
  a boolean when the right operand is one, and otherwise a value that may only be used as a condition, where 3 and true
  do the same.

## Model

| member | source | states |
|---|---|---|
| NativeCompiler.CompiledBehavesAsSource | MachineIR/MIRBuilder.cpp:590-780 | For every well-scoped function without dead merges, any SSA form of its lowering and any machine lowering of that: for all arguments, whatever fuel the source is given, the machine reaches the state the source reached (same output, same result or trap) or, the source still going, is still going with the same output; and the machine stops only as the source does |
| NativeCompiler.Compile | SSA/SSABuilder.cpp:11-44 | The passes in order, from their own methods. For every function whose variables are declared before use and whose break and continue are in loops where they get lowered: machine code results if and only if no `if` has two leaving arms and negation is not used in lowered code; it then behaves as the source for all arguments, and its frame has a slot for everything it reads and writes |
| NativeCompiler.ReturnNotHasNoMachineCode | MachineIR/MIRBuilder.cpp:416-421 | `return !x;` is well scoped, has no dead merge, and yet no machine function is a lowering of any SSA form of it |
| MachineForm.LoweredHasMachineForm | CodegenIR/IRBuilder.cpp:247-259 | The lowered graph is free of logical negation exactly when the source is, in the code that gets lowered |
| MachineForm.SsaKeepsMachineForm | SSA/SSABuilder.cpp:506-792 | SSA construction neither introduces nor removes logical negation |
| Pipeline.SsaPreservesRuns | SSA/SSABuilder.cpp:11-44 | For every well-scoped graph, all inputs and any number of blocks run, the SSA form is in the same block with the same output, variables and values as the variable-store graph, or has ended the same way |
| Pipeline.BackendPreservesRuns | MachineIR/MIRBuilder.cpp:590-780 | The same for machine code, given that a lowering of the SSA form exists; one exists only when no instruction is a logical negation, since IsLowering demands it as the code throws on one (NativeCompiler.Compile says when). Branches must not go back to a dominating block, which lowered code never does |
| Graph.DomChain | SSA/SSABuilder.cpp:100-153 | Two dominators of one block: one dominates the other. This is why the test of the immediate dominator cannot select two blocks; that it selects exactly one is IDomExists, IDomUnique and ComputeIDoms |
| Graph.IDomExists | SSA/SSABuilder.cpp:124-152 | Every block but the entry has a strict dominator that all its other strict dominators dominate, so the candidate assertion holds |
| Graph.IDomUnique | SSA/SSABuilder.cpp:142-146 | There is only one such block |
| Graph.TreeIsDominance | SSA/SSABuilder.cpp:156-163 | Climbing immediate dominators from b reaches d if and only if every path from the entry to b passes d |
| DomFixpoint.FixpointIsDominance | SSA/SSABuilder.cpp:76-97 | A fixpoint of the meet over predecessors that starts from all blocks, and never loses a dominator on the way, holds exactly the dominators |
| SsaBuilder.SSABuilder.EveryBlockEntered | SSA/SSABuilder.cpp:83 | Decides the assertion of dominator computation: every block but the entry has a predecessor |
| SsaBuilder.SSABuilder.ComputeDoms | SSA/SSABuilder.cpp:62-98 | Terminates, and D ends in dom[B] if and only if every entry-to-B path passes D |
| SsaBuilder.SSABuilder.ComputeIDoms | SSA/SSABuilder.cpp:100-154 | Finds for every block but the entry the one immediate dominator, and none for the entry |
| SsaBuilder.SSABuilder.BuildDomTree | SSA/SSABuilder.cpp:156-163 | c is a child of x if and only if x is the immediate dominator of c |
| SsaBuilder.SSABuilder.ComputeDFNaive | SSA/SSABuilder.cpp:323-348 | The definition-based computation gives each block its dominance frontier |
| SsaBuilder.SSABuilder.ComputeDF | SSA/SSABuilder.cpp:350-385 | The bottom-up computation over the dominator tree gives the same sets |
| SsaBuilder.SSABuilder.ComputeDFRunner | SSA/SSABuilder.cpp:248-263 | The runner computation gives the same sets, and every climb ends at the immediate dominator |
| Frontier.RunnerTest | SSA/SSABuilder.cpp:255-262 | On the climb from a predecessor of y, the runner has y in its frontier exactly until it is y's immediate dominator, and its next stop is on the climb too |
| SsaBuilder.SSABuilder.CollectDefs | SSA/SSABuilder.cpp:388-394 | A variable is mapped to exactly the blocks that record a definition of it |
| SsaBuilder.SSABuilder.IteratedFrontier | SSA/SSABuilder.cpp:461-496 | The worklist of one variable terminates with the least set of blocks that contains the frontier of each definition and of each of its own members |
| SsaBuilder.SSABuilder.ComputePhiPos | SSA/SSABuilder.cpp:458-498 | A block is a candidate for v if and only if it is in the iterated frontier of v's definitions |
| Frontier.NoPhiNoDefinition | SSA/SSABuilder.cpp:458-498 | Enough phis: on a walk from the immediate dominator of a block without a phi to the block, the variable is not defined after the last visit to the immediate dominator |
| SsaCorrect.PruningExact | SSA/SSABuilder.cpp:522-542 | The test "every predecessor has a dominating definition" holds if and only if the declaring block strictly dominates the candidate |
| SsaCorrect.LiveIsDeclaredAbove | SSA/SSABuilder.cpp:514-542 | A variable that may still be read from the start of a block is declared in a strict dominator of it, so no dropped phi was live |
| SsaBuilder.SSABuilder.InsertPhis | SSA/SSABuilder.cpp:506-573 | In front of each block's code exactly one phi for each surviving candidate, with a fresh value and one entry per predecessor; nothing else changes |
| PhiInsertion.InsertionPreservesRuns | SSA/SSABuilder.cpp:506-573 | Inserting the phis changes no run in anything but the new values |
| SsaBuilder.SSABuilder.LookupVar | SSA/SSABuilder.cpp:576-589 | The top of the variable's stack, or the error when it is empty or absent |
| SsaBuilder.SSABuilder.Rename | SSA/SSABuilder.cpp:635-779 | Renames exactly the blocks below this one in the dominator tree, each with the stack tops of its position, and puts every stack back; fails if and only if some lookup below finds no reaching definition |
| SsaBuilder.SSABuilder.RenameSSA | SSA/SSABuilder.cpp:781-791 | The whole function becomes its renaming; fails if and only if some read, anywhere, has no reaching definition |
| SsaCorrect.RenamingPreservesRuns | SSA/SSABuilder.cpp:635-791 | Every run of the renamed function equals the run of the function it came from, because wherever control is, the top of each variable's stack is a value that holds the variable's current content |
| SsaStrict.RenamedIsStrict | SSA/SSABuilder.cpp:591-689 | No variable reference survives: every operand is a value produced once, in code that dominates the use, and phi entries at the end of their predecessor |
| SsaBuilder.SSABuilder.Build | SSA/SSABuilder.cpp:11-44 | On success the function is an SSA form of what it was; on every well-scoped function it succeeds and the result is strict |
| ParallelCopy.FirstSafe | MachineIR/MIRBuilder.cpp:702-738 | The first copy whose destination no other pending copy reads, or none when there is none |
| ParallelCopy.RedirectSources | MachineIR/MIRBuilder.cpp:751-771 | With the aliasing of the original: from a stuck list only the first copy reads the temporary afterwards |
| ParallelCopy.StuckIsPermutation | MachineIR/MIRBuilder.cpp:747-749 | When no copy is safe the sources are the destinations, no two sources are equal and none copies to itself |
| ParallelCopy.RedirectFrees | MachineIR/MIRBuilder.cpp:753-772 | Redirecting the first copy of a stuck list makes the copy into the saved source safe |
| ParallelCopy.NoneLeftPending | MachineIR/MIRBuilder.cpp:747-774 | A list is stuck only when every copy broken earlier has been drained, so cycles are broken one at a time |
| ParallelCopy.Drain | MachineIR/MIRBuilder.cpp:690-775 | Terminates; the emitted moves leave everything but fresh temporaries as the copies done all at once; one move per copy and temporary, at most n + n/2 for n copies; every temporary is written, and nothing outside the values and temporaries is touched |
| MirBuilder.MirBuilder.LowerHirInstr | MachineIR/MIRBuilder.cpp:28-559 | Phis and binds vanish, other instructions map one to one; the errors are an operand that is still a variable and logical negation, and no other |
| MirBuilder.MirBuilder.EmitMoves | MachineIR/MIRBuilder.cpp:690-775 | A block's code is followed by moves that perform all copies the phis of its successors ask for; other blocks stay as they are |
| MirBuilder.MirBuilder.LowerHirFunc | MachineIR/MIRBuilder.cpp:590-780 | Succeeds if and only if every instruction, phi entry and operand is convertible; the result is then a lowering of the function, its value count covers every value its code and terminators use, and what the count adds are temporaries that are used |
| Mir.RunInFrame | X86Codegen/x86Builder.cpp:669-672 | Code that fits its frame never writes a value without a slot, in any run with any arguments |
| MirLowering.CopiesDistinct | MachineIR/MIRBuilder.cpp:627-651 | The copies collected at one predecessor never write the same value twice |
| MirCorrect.LoweringPreservesRuns | MachineIR/MIRBuilder.cpp:590-780 | For every strict SSA function whose branches do not go back to blocks with phis: after any number of blocks machine code is in the same block with the same output and every value the graph can still use, or has ended the same way |
| LoweringSim.ExprRuns | CodegenIR/IRBuilder.cpp:261-479 | In any finished graph that contains the code of an expression, running from its start gives the source's value in the result operand, or traps when the source does, with output and variables unchanged; `&&`, `or` and `??` evaluate their right operand only when the source does |
| LoweringCorrect.StmtRuns | CodegenIR/IRBuilder.cpp:1781-2119 | In any finished graph that contains the code of a statement, running from its start ends as the source does: at the end of its code, at the loop's break or continue block, returned, trapped, or out of fuel with the same output |
| LoweringCorrect.FunctionRuns | CodegenIR/IRBuilder.cpp:1275-1620 | Whatever fuel the source is given, some number of blocks brings the graph to where the source got; out of fuel, the graph has run at least that many blocks, is still going and has printed the same |
| LoweringCorrect.FunctionEnds | CodegenIR/IRBuilder.cpp:1275-1620 | The graph ends within n blocks only if the source ends within fuel n, and then in the same way |
| LoweringEnds.EndsIs | CodegenIR/IRBuilder.cpp:1930-1985 | Lowering a statement leaves the current block ended if and only if the statement is a return, break or continue, or a block with one of them inside |
| LoweringEdges.StmtFills | CodegenIR/IRBuilder.cpp:1791-1928 | Lowering gives new predecessors only to blocks it makes and to the targets of enclosing loops, and leaves no block it makes unstarted |
| LoweringSound.StmtSound | CodegenIR/IRBuilder.cpp:1781-2119 | Every statement keeps the invariant of the graph under construction: edges mirrored in both lists and equal to the terminators' targets, each phi with one entry per predecessor in order, single producers, every operand's producer or declaration in a dominator or earlier in the block, recorded definitions equal to marked ones |
| LoweringReady.LoweredIsReady | CodegenIR/IRBuilder.cpp:1275-1620 | The graph of a well-scoped function without dead merges meets all that SSA construction needs, with one declaring block per variable above all its uses, and no branch goes back |
| LoweringReady.GraphWellFormedIff | CodegenIR/IRBuilder.cpp:1791-1862 | For well-scoped functions the lowered graph is well formed if and only if no `if` has two leaving arms, and exactly then does every block but the entry have a predecessor |
| LoweringReady.BothReturnIsOrphaned | CodegenIR/IRBuilder.cpp:1842-1861 | The function whose `if` returns in both arms is well scoped and its graph is not well formed |
| Scoping.LoopsOkAccepted | CodegenIR/IRBuilder.cpp:1940-1987 | When break and continue occur only inside loops, the checks of lowering never raise their error |
| Scoping.CheckIff | Semantics/Resolver.cpp:139-155 | The scope check accepts a statement if and only if no variable is free in it but those in scope, and every declaration is of a variable not declared before; afterwards exactly the statement's own declaration is in scope in addition |
| VmSource.FitsIff | Compiler/compiler.cpp:318-325 | A frame is large enough if and only if it has a slot for each variable that is read, assigned or declared |
| IrBuilder.IRBuilder.VisitExpr | CodegenIR/IRBuilder.cpp:88-479 | The visitor's effect on blocks, current block, value counter and last value is that of LowerExpr |
| IrBuilder.IRBuilder.VisitStmt | CodegenIR/IRBuilder.cpp:1781-2119 | The visitor's effect is that of LowerStmt; it fails if and only if a break or continue that gets lowered is outside a loop |
| IrBuilder.IRBuilder.VisitIf | CodegenIR/IRBuilder.cpp:1791-1862 | The same for `if`, with its blocks made before the condition is lowered |
| IrBuilder.IRBuilder.VisitWhile | CodegenIR/IRBuilder.cpp:1864-1928 | The same for loops; the stack of loops is pushed for the body and put back |
| IrBuilder.IRBuilder.BindLocalDefinition | CodegenIR/IRBuilder.cpp:1989-2035 | An aliasing definition emits a bind, any other marks the last instruction as the definition, and the block records it |
| IrBuilder.LowerFunctionExpr | CodegenIR/IRBuilder.cpp:1275-1620 | The graph of the function, with parameters defined in the entry block and an implicit return, or the error of a misplaced break or continue |
| LoweringSim.OperatorsAgree | CodegenIR/IRBuilder.cpp:217-230 | The instruction chosen for an operator computes what the operator means, traps included |
| ValueLaws.DivisionIff | Core/value.cpp:313-333 | `/` and `%` give q and r if and only if x is y times q plus r, r is smaller than y, and r is 0 or has the sign of x: division rounds toward zero, in the source and both native codes |
| ValueLaws.OnWords | Core/value.cpp:284-410 | On numbers and booleans of any mix every operator of the machine follows the integer one on their words: integers from two integers, else the double of that size, exact division, and comparison by size |
| ValueLaws.NegationOnWords | Core/value.cpp:435-444 | Negation of a number or boolean is that of its word, as an integer or a double |
| ValueLaws.SumLaws | Core/value.cpp:294-299 | Addition of numbers of any kinds is commutative and associative with 0 neutral, in the machine's own equality |
| ValueLaws.ProductLaws | Core/value.cpp:307-311 | Multiplication is commutative with 1 neutral and distributes over addition |
| ValueLaws.DifferenceLaws | Core/value.cpp:301-305 | Subtraction undoes addition and is the addition of the negative |
| ValueLaws.QuotientLaws | Core/value.cpp:313-333 | Division of numbers not both integers is undone by multiplication, and fails exactly on zero; a remainder exists only of numbers and booleans |
| ValueLaws.EqualityLaws | Core/value.cpp:212-257 | Equality is symmetric and transitive, reflexive exactly on numbers, and `!=` is its opposite |
| ValueLaws.OrderLaws | Core/value.cpp:393-410 | Of two numbers of any kinds exactly one of `<`, `==` and `>` holds; `<=` and `>=` are what they say |
| ValueLaws.LessIff | Core/value.cpp:399-406 | One number is less than another if and only if something positive added to it gives the other |
| ValueLaws.GarbageFails | Core/value.cpp:426-430 | On an unset slot all operators but `==` and `!=` are errors |
| ValueLaws.TruthLaws | Core/value.cpp:142-172 | A number of any kind counts as true if and only if it does not equal 0, for `!`, `&&` and `||` alike |
| ValueLaws.JumpsOnZero | BytecodeVM/vm.cpp:347-353 | The conditional jump is taken if and only if the popped number equals 0 |
| ValueLaws.IfOnZero | Compiler/compiler.cpp:527-541 | In the machine an `if` takes its else arm if and only if its condition equals 0 |
| ValueLaws.LoopOnZero | Compiler/compiler.cpp:544-571 | And a loop ends if and only if its condition equals 0 |
| BytecodeCompiler.Compiler.AddConstant | Compiler/compiler.cpp:36-49 | The pool keeps each constant once, and the index returned is the constant's |
| BytecodeCompiler.Compiler.VisitExpr | Compiler/compiler.cpp:52-166 | Appends the code of the expression and changes nothing before it; fails if and only if the expression contains `??`, which has no instruction |
| BytecodeCompiler.Compiler.VisitStmt | Compiler/compiler.cpp:506-716 | Appends the laid-out code of the statement and changes nothing before it; the breaks of the loop around it are left unpatched and recorded, the stack of loops is otherwise as before; fails if and only if the statement contains `??` or a break or continue outside a loop |
| BytecodeCompiler.Compiler.VisitIf | Compiler/compiler.cpp:527-541 | The same for `if`: the two jumps are patched to the else arm and to the end |
| BytecodeCompiler.Compiler.VisitWhile | Compiler/compiler.cpp:544-571 | The same for loops: back jump, exit jump and all breaks of this loop, and of no other, are patched |
| BytecodeCompiler.Compiler.PatchAll | Compiler/compiler.cpp:564-568 | Every recorded jump goes to the end of the code, and no other instruction changes |
| BytecodeLayout.StmtPatched | Compiler/compiler.cpp:564-568 | Patching exactly the recorded breaks to t turns code whose breaks are open into code whose breaks go to t, breaks in nested loops untouched |
| BytecodeCorrect.ExprRuns | BytecodeVM/vm.cpp:205-296 | Running the code of an expression pushes one value, what the expression means to the machine, and leaves the rest of the stack, or fails when an operator does |
| BytecodeCorrect.StmtRuns | BytecodeVM/vm.cpp:205-353 | Running the code of a statement ends as its meaning says: past its code with the frame updated and nothing pushed, at the break or continue target, returned, failed, or still going with the same output |
| BytecodeHeights.StmtBalanced | BytecodeVM/vm.cpp:153-155 | Every instruction of compiled code has one stack height, agreed on by every way to it; an expression leaves one value and a statement none |
| BytecodeHeights.StepKeeps | BytecodeVM/vm.cpp:132-151 | On balanced code no step leaves the code, pops from an empty stack or misses a slot or constant; only an operator can fail |
| BytecodeBackend.CodeFollows | BytecodeVM/vm.cpp:205-508 | Whatever is on the stack below and in the frame, and whatever fuel the source is given, some number of instructions brings the machine to where the source got; the caller finds the result in place of the function |
| BytecodeBackend.CodeEnds | BytecodeVM/vm.cpp:205-508 | The machine stops within n instructions only if the source ends within fuel n, and then in the same way |
| BytecodeBackend.CodeIsSafe | BytecodeVM/vm.cpp:132-151 | In every run of a function's code the stack has the height of its position, and no failure but an operator's occurs |
| BytecodeBackend.CompileFunction | Compiler/compiler.cpp:318-384 | A chunk results if and only if the body has no `??` and no break or continue outside a loop; it is the body's code and a return, its constants are distinct, and every call follows the body, ends only as it does and is safe |
| ValueTypes.ExprAgrees | Core/value.cpp:267-460 | On typed expressions and agreeing variables the machine's evaluation succeeds if and only if no operand traps, needed or not, and then matches the native value at the expression's type: the same number or boolean, or the same truth |
| ValueTypes.AndAgreesIff | Core/value.cpp:378-379 | On operands with the same value in both back ends, `&&` has the same value if and only if the left one is 0 or the right one 0 or 1 |
| ValueTypes.OrAgreesIff | Core/value.cpp:381-382 | The same for `||`: if and only if the left one is not 0 or the right one 0 or 1 |
| ValueTypes.UnguardedTotal | CodegenIR/IRBuilder.cpp:261-365 | Where no operand that may be skipped has a division in it, skipping makes no difference: natively, too, the expression has a value if and only if no operand traps |
| StatementsAgree.StmtAgrees | BytecodeVM/vm.cpp:287-353 | Run for the same fuel, the two meanings of a typed statement go the same way with the same output and matching variables, unless the machine's fails, and then its output is the beginning of native code's; without a division that may be skipped, failures are the same too |
| StatementsAgree.FailsIff | BytecodeVM/vm.cpp:246-273 | The machine's meaning of a typed statement fails if and only if its native run evaluates an expression some operand of which, needed or not, has no value |
| BackEndsAgree.CallFrame | BytecodeVM/vm.cpp:416-452 | After a call's arguments have been pushed as the compiler pushes them, the callee's frame holds them in reverse, then unset slots |
| BackEndsAgree.BackEndsAgree | BytecodeVM/vm.cpp:205-508 | A call that the type rules accept, of a function whose parameter types read the same backwards, from the frame that CALL makes, against native code called with the reversed arguments: when the machine returns, native code stops with the same result and output; when native code stops, the machine has done the same or failed; it fails at all if and only if the native run evaluates an expression that is not total; without a division that may be skipped, errors are the same too |
| BackEndsAgree.CompileBoth | Compiler/compiler.cpp:318-384 | Both compilers on one function: when the bytecode compiler succeeds (with its exact condition), every call does what the body means to the machine on the reversed arguments; when both do, accepted calls of parameters whose types read the same backwards agree as BackEndsAgree says |
| BackEndsAgree.AgreeInOrderIff | Compiler/compiler.cpp:288-291 | All accepted calls with the arguments do in the machine what they do natively, where a failure is right exactly when the native run evaluates an expression that is not total, if and only if the arguments, kinds included, read the same backwards |
| BackEndsAgree.AgreeReversedIff | Semantics/Resolver.cpp:445-451 | All accepted calls with the arguments do in the machine what they do natively on the arguments in reverse if and only if numbers and booleans are in the places where they are read backwards |
| BackEndsAgree.FailReversedIff | BytecodeVM/vm.cpp:246-273 | The same condition is exact for failures alone: in all accepted calls with the arguments the machine fails exactly when the native run on the reversed arguments evaluates an expression that is not total |
| BackEndsAgree.AddsToTrue | Semantics/Resolver.cpp:488-492 | `return a + 1;` called with 1 and true is accepted, its words read the same backwards, and it returns 2 natively and the double 2.0 in the machine |
| BackEndsAgree.SubtractsBackwards | Compiler/compiler.cpp:288-291 | `return a - b;` called with 5 and 3 is accepted, and returns 2 natively and -2 in the machine |
| BackEndsAgree.GuardDoesNotGuard | Compiler/compiler.cpp:134-138 | `x != 0 && 10 / x > 1` at 0 is typed, false natively and an error in the virtual machine |
| BackEndsAgree.AndOfIntegersDiffers | Core/value.cpp:378-382 | `2 && 3` is 3 natively and true in the virtual machine |

## Left out

- Classes, records, arrays, pointers, strings, calls, closures with captured variables, modules and globals: they go through memory or the runtime, and address-taken variables leave the SSA argument.
- Of the virtual machine: calls and nested frames (a call is followed from its first instruction to its return), upvalues, the top-level chunk and its HALT. The closure analysis is a pass of its own.
- Arithmetic on doubles, which arises in the machine from arithmetic on booleans, is on reals; a double divided by zero fails in the model. Integer division by zero is undefined in the machine's implementation (Core/value.cpp:313-317); in the model it fails.
- Assignment to a constant variable, which the bytecode compiler also rejects (Compiler/compiler.cpp:211-213).
- BackEndsAgree.BackEndsAgree: covers number and boolean variables and parameters; a boolean counts as the same when native code has 1 for true and 0 for false, and how values are written as text is not modelled. The call instruction itself is its effect on the stack (EnterFrame); calls inside the function are left out. Arguments with defaults, variadic ones and the receiver of a method are left out.
- LoweringSound.StmtSound: says nothing about code with dead merges, whose graphs dominator computation rejects (LoweringReady.GraphWellFormedIff).
- The null literal, and with it nullable values; strings and doubles as literals.
- The lexer, the parsers, the resolver and the type checker: a source program here is a tree, and what the resolver guarantees is the predicate `LoweringReady.WellScopedFunction`.
- Programs in `Examples/`, among them the hash map and the self-hosted parser.
- Widths: integers are unbounded, so 32- and 64-bit wrap-around is not modelled. Bit operations are left out for the same reason.
- Force unwrap, casts, null checks and indexing; `??` is modelled on the integer test the lowering emits.
- Assignments inside expressions, `++` and `--`: an assignment is a statement. A nested one overwrites the mark of its producer (CodegenIR/IRBuilder.cpp:2015-2019).
- `return` without a value, which dereferences null (CodegenIR/IRBuilder.cpp:2115-2116).
- `for` and compound assignment, which the parser turns into `while` and plain assignment.
- Assembly output in `X86Codegen/` and the interpreter in `Interpreter/`.
- The environment parameter of a closure, and with it the shift by one of parameter numbers.
- Debug output of all passes.
- Order of iteration over hash sets and maps: where it can be seen (phis of a block, children in the dominator tree, predecessors with copies) the methods take an arbitrary order and the contracts hold for each.
- Pipeline.BackendPreservesRuns: says nothing about whether a machine lowering exists; NativeCompiler.Compile does.
