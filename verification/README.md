# MITScript: compiler, machine, collector and JIT passes

This project models the MITScript implementation in `mitscript/` and proves what its stages
promise each other.  A program goes through these stages:

1. `BytecodeCompiler.dfy` (and `Compiler.dfy`, which does it in place) turns a syntax tree into
   labelled stack bytecode.  `Scanners.dfy` and `RefsScanner.dfy` are the name scanners that run
   first, `ClosureConversion.dfy` and `CallFrames.dfy` the closures and frames that captured
   variables need.  `NameResolution.dfy` says which names a function resolves and
   `ResolvedPrograms.dfy` which programs leave none unresolved.  `Checker.dfy` is the linear
   stack-size check.
2. `Bytecode.dfy` is the bytecode machine, `InterpreterLoop.dfy` its loop over a mutable stack.
   `TreeWalker.dfy` gives source programs their meaning, closures included, and
   `CompilerCorrectness.dfy` with `StatementCorrectness.dfy` relate the two (`EmittedCode.dfy`
   has the pieces of code and the machine's way over them).  In `SourcePrograms.dfy` calls
   evaluate the callee and in `ProgramRuns.dfy` they run it, up to whole programs;
   `FunctionTables.dfy` and `CalleeFrames.dfy` say which compiled function and which frame
   belong to which literal.  `StackDiscipline.dfy` follows the operand stack.
3. `IrCompiler.dfy` (`IrCompilerClass.dfy` in place) turns bytecode into instructions on temps,
   whose machine is `Ir.dfy`.  `IrSimulation.dfy` and `IrRuns.dfy` prove the simulation.
4. The passes: `TempRanges.dfy`, `TempUses.dfy` and `TempLiveness.dfy` (where temps live),
   `LinearScan.dfy` and `RegisterAllocation.dfy` (registers), `LocatedIr.dfy` and
   `AllocatedIr.dfy` (running on registers and slots), `TypeHints.dfy`, `HintSoundness.dfy`,
   `HintRewriting.dfy` and `TypeSpecialization.dfy` (type hints), `ConstantTemps.dfy`,
   `ConstantFolding.dfy`, `FoldingRuns.dfy` and `ObsoleteRemoval.dfy` (constants),
   `PassPipeline.dfy` (these passes in the program's order) and `HintExamples.dfy` (where its
   conditions fail), `CopyForwarding.dfy` and `CopyRuns.dfy` (copies), `RewritingExact.dfy` (when
   each pass rewrites), `TaggedWords.dfy` (machine arithmetic).
5. The run time: `HeapModel.dfy`, `HeapSafety.dfy`, `HeapRuns.dfy`, `CollectedHeap.dfy` and
   `Roots.dfy` (the generational collector), `Ropes.dfy` (string trees), `Runtime.dfy` (values,
   operators and the object store that all machines share) and `RuntimeLaws.dfy` (what those
   operations must compute).

What the source updates in place is a class or a method with a loop, proved equal to a
function of the old state; the theorems are about those functions.

## Conditions

Where a promise holds only under a condition, the condition is in the theorem and a concrete
lemma shows the failure:

- The VM checks the second operand of `&` and `|` only when the first does not decide; the IR
  asserts both (`IrRuns.LazyAndDiffers`).  `IrRuns.RunExact` says exactly when they agree.
- A name that was not known where a function was compiled throws there, even when it is a
  global by the time the function runs (`CompilerCorrectness.NameExact`).  Whether a program has
  such names can be read off its syntax tree (`ResolvedPrograms.ProgramResolved`).
- A captured parameter with the name of a captured variable of the enclosing function stands for
  that variable (`CallFrames.ShadowedParameter`).
- A capture of a new cell by an old closure breaks the collector's invariant, there being no
  barrier in `add_reference` (`HeapSafety.AddReferenceExact`, `HeapRuns.LateCaptureLosesCell`).
- The running closure is no root (`Roots.RunningClosureExact`, `Roots.RunningClosureFreed`).
- The full collection is exact as long as the generation count fits 32 bits, or nothing is
  reachable (`HeapSafety.FullExact`).
- Acceptance by the checker does not exclude underflow (`Checker.AcceptedUnderflow`), being
  compiled does (`StackDiscipline.CompiledNeverUnderflows`).
- The JIT's multiplication is the VM's exactly when the product lies in [-2^57, 2^57)
  (`TaggedWords.MulAgreesIff`, `TaggedWords.MulOverflows`).
- A local that is hinted must be assigned before it is read; otherwise a parameter can lose the
  assert that protects it (`HintExamples.LateStoreLosesAssert`).  The types must also have come
  to rest, which two propagations do not ensure (`HintExamples.ScheduleLosesAssert`).
- Constant folding computes with 32-bit ints; for `+`, `-` and `*` that is right exactly when
  the machine's result fits in 32 bits (`ConstantFolding.FoldIntsIff`).

Where the code and its comments differ the code is followed: `RecordValue::get` enters a
missing key with None (the tree walker does not), `<` and `<=` compile their right operand
first, arguments are compiled before the callee, and a loop that returned does not evaluate its
condition again.  A name that is no variable of a function or of its closure is a global, as in
the walker.

## Model

| member | source | states |
|---|---|---|
| `StatementCorrectness.FunctionOk` | mitscript/bccompiler/Compiler.cpp:165-256 | For every body, function literals and the closures they make at run time included, whose evaluation ends without an exception and whose code looks up no name in vain (ResolvedPrograms.FunctionResolved says when), the compiled code run by the machine, with calls as an arbitrary function, ends with the same return value, the same world, and locals that match the final frame; the run is strict, so And and Or saw two booleans. |
| `StatementCorrectness.ExecOk` | mitscript/bccompiler/Compiler.cpp:191-256 | A statement compiled anywhere in a function, or at the top level, takes the machine from in front of its code to behind it with the operand stack as it was, or ends the run with the value of the return that the source reached. |
| `StatementCorrectness.WhileOk` | mitscript/bccompiler/Compiler.cpp:237-251 | A loop, by its three labels, runs its condition and body as often as the source does, and is left with the frame the source leaves. |
| `CompilerCorrectness.EvalOk` | mitscript/bccompiler/Compiler.cpp:361-454 | The code of an expression, function literals included, pushes exactly the value the expression evaluates to, in the world that its evaluation leaves. |
| `CompilerCorrectness.LiteralOk` | mitscript/bccompiler/Compiler.cpp:335-358 | The code of a function literal builds the closure that the source builds there: the same function, and the cells of the variables that the body needs, by name. |
| `CompilerCorrectness.NameExact` | mitscript/bccompiler/Compiler.cpp:120-163 | A variable or global that the source can read is pushed by the compiled code if and only if the name was resolved where it was compiled; otherwise the machine throws. |
| `StatementCorrectness.StoreOk` | mitscript/bccompiler/Compiler.cpp:120-189 | The code of a left-hand side pops the value below it into the variable, field or element that the source assigns. |
| `ProgramRuns.ProgramOk` | mitscript/vm/Interpreter.cpp:16-24 | Whole programs: when the evaluation of a program ends without an exception, closures made where their literals are evaluated, at any nesting, and calls evaluating the callee, the compiled program run by the machine, its calls setting up frames and running the compiled callees, ends with the same world and, if it returned, the same value, otherwise zero, or None when a return is among its statements. The conditions are on the syntax tree: parameter names new among captured variables, and every name usable where it stands. |
| `ProgramRuns.CallOk` | mitscript/vm/Value.cpp:239-288 | The same of every call in such a program: however functions make closures and call each other and themselves in it, compiled and source call give the same value and world. |
| `ProgramRuns.Located` | mitscript/bccompiler/Compiler.cpp:258-359 | The function record at a path of function tables is the compiled literal with the same path in the source, in a scope whose tables list the variables that the source gives it. |
| `FunctionTables.TranspileNumbers` | mitscript/bccompiler/Compiler.cpp:258-268 | Compiling a tree adds exactly its own literals to the function table, in the order of evaluation, each compiled in a scope of the same shape. |
| `CalleeFrames.FramesMatch` | mitscript/vm/Value.cpp:244-265 | The frame of a call holds, by the indices of the compiled code, the variables, own cells, given cells and globals that the source opens by name. |
| `CalleeFrames.SameWorld` | mitscript/vm/Value.cpp:252-265 | The world of a call is the caller's with the new cells, captured parameters in them holding their arguments. |
| `NameResolution.EnterGlobalsExact` | mitscript/bccompiler/CompilerDependenciesScanner.cpp:10-38 | A name is a global of a function if and only if the function declares it, or mentions it outside nested functions, has it neither as a local nor as a captured variable, and some enclosing scope has it as a global or the assignment under way at the top level stores to it. |
| `NameResolution.TopStoreDeclares` | mitscript/bccompiler/Compiler.cpp:147-149 | A store at the top level emits one StoreGlobal of the name and nothing else, and the name is a global from then on. |
| `ResolvedPrograms.ProgramResolved` | mitscript/bccompiler/Compiler.cpp:120-163 | A program compiles to code in which no name is looked up in vain if and only if every name of the syntax tree can be used where it stands: in a function its variables, captured variables, the names that it or an enclosing function declares, and the globals stored at the top level before it; at the top level the names stored before. |
| `ResolvedPrograms.FunctionResolved` | mitscript/bccompiler/Compiler.cpp:258-359 | The same of the code of one function, with those nested in it, in whatever scope it is compiled. |
| `ResolvedPrograms.AssignedUsable` | mitscript/bccompiler/CompilerLocalsScanner.cpp:11-16 | What the statements of a function assign, in branches and loop bodies too, can be used in it. |
| `ResolvedPrograms.ReturnedExact` | mitscript/bccompiler/Compiler.cpp:253-256 | The compiler notes a return if and only if a return statement is in the tree, nested functions left out. |
| `ResolvedPrograms.ProgramReturned` | mitscript/bccompiler/Compiler.cpp:106-112 | So a program gets a last return if and only if none of its statements, at any depth outside functions, is a return. |
| `BytecodeCompiler.LoopCollects` | mitscript/bccompiler/Compiler.cpp:237-251 | Every turn of a loop passes a collection: the code starts with the label and a GarbageCollect, and ends with the jump back to that label. |
| `BytecodeCompiler.CallCollects` | mitscript/bccompiler/Compiler.cpp:210-214 | The code of a statement that is a call ends with a collection, the value popped before. |
| `ProgramRuns.RunAnswers` | mitscript/vm/Interpreter.cpp:389-405 | A run that ends well ends so with calls that answer more, and with more steps. |
| `Compiler.Compiler.Accept` | mitscript/bccompiler/Compiler.cpp:43-48 | Each visit method, run on the mutable tables, code and flags, leaves the state that the specification of the compiler gives, and the storing flag as it found it. |
| `Compiler.Compiler.VisitIf` | mitscript/bccompiler/Compiler.cpp:220-235 | The in-place emission of a branch with its three reserved labels is the specified one. |
| `Compiler.Compiler.VisitWhile` | mitscript/bccompiler/Compiler.cpp:237-251 | The in-place emission of a loop with its three reserved labels is the specified one. |
| `Compiler.Compiler.VisitFunction` | mitscript/bccompiler/Compiler.cpp:258-359 | Entering a function, compiling its body, the default return, the argument mapping, going back to the enclosing function and emitting the closure, in place, is the specified closure conversion. |
| `Compiler.Compiler.VisitProgram` | mitscript/bccompiler/Compiler.cpp:106-112 | A whole program, with a return added unless one was compiled anywhere. |
| `Compiler.Compiler.OutputReferences` | mitscript/bccompiler/Compiler.cpp:341-351 | References are pushed from the last to the first. |
| `VirtualMachine.RunCompose` | mitscript/vm/Interpreter.cpp:196-612 | Runs of the machine can be cut anywhere. |
| `VirtualMachine.StrictRun` | mitscript/vm/Interpreter.cpp:503-521 | A run of the machine that checks both operands of And and Or, and throws nothing, is a run of the machine that does not. |
| `InterpreterLoop.FunctionRun.Step` | mitscript/vm/Interpreter.cpp:196-612 | One turn of the loop over the instruction pointer and the mutable stack does what the specified step does, exceptions and the empty stack included. |
| `InterpreterLoop.FunctionRun.Run` | mitscript/vm/Interpreter.cpp:195-202 | Any number of turns. |
| `InterpreterLoop.FunctionRun.PopCells` | mitscript/vm/Interpreter.cpp:371-381 | Cells of a closure are popped from the top down. |
| `StackDiscipline.TranspileFlow` | mitscript/bccompiler/Compiler.cpp:165-256 | On every path an expression leaves one more value, a statement the stack as it was, and every jump goes to a label that is placed or still to be placed, at depth zero. |
| `StackDiscipline.FunctionGood` | mitscript/bccompiler/Compiler.cpp:258-359 | Every compiled function and every function nested in it keeps the stack discipline, all jump targets being placed labels. |
| `StackDiscipline.ProgramGood` | mitscript/bccompiler/Compiler.cpp:106-112 | So does the compiled program. |
| `StackDiscipline.StepDepth` | mitscript/vm/Interpreter.cpp:144-160 | At a step the machine does not underflow, and its stack is again as deep as the count over the straight code says, jumps included. |
| `StackDiscipline.CompiledNeverUnderflows` | mitscript/vm/Interpreter.cpp:144-160 | No run of a compiled function, however long and whatever it reads or calls, pops or looks at an empty stack. |
| `Checker.CheckFunction` | mitscript/bccchecker/Checker.h:17-84 | The loop with its running count decides acceptance. |
| `Checker.CompiledAccepted` | mitscript/bccchecker/Checker.h:17-84 | The checker accepts a compiled program if and only if every name of its syntax tree can be used where it stands. |
| `Checker.AcceptsExact` | mitscript/bccchecker/Checker.h:17-84 | The checker accepts a function if and only if it accepts those nested in it and, by what its instructions push and pop in the order of the code, one value is there at every return and conditional jump, none at the end, and no name is unresolved. |
| `Checker.AcceptedUnderflow` | mitscript/bccchecker/Checker.h:17-84 | Acceptance alone does not exclude an underflow: code is given that is accepted and underflows. |
| `ClosureConversion.FreeVariables` | mitscript/bccompiler/Compiler.cpp:283-301 | The free variables of a nested function are its captured cells followed by the cells passed on, without repetition. |
| `ClosureConversion.EnterSeparate` | mitscript/bccompiler/Compiler.cpp:258-301 | With new parameter names, a function has no name both as a cell of its own and as a cell it was given. |
| `ClosureConversion.ClosureBuilt` | mitscript/bccompiler/Compiler.cpp:338-358 | Running the emitted pushes, LoadFunc and AllocClosure leaves a closure whose cell number i is the enclosing frame's cell for free variable number i. |
| `ClosureConversion.PopPushed` | mitscript/vm/Interpreter.cpp:371-381 | AllocClosure pops the cells in the order in which they were listed. |
| `CallFrames.SetUpFrame` | mitscript/vm/Value.cpp:239-265 | The loops of a call build the frame that the specification gives, or report a wrong number of arguments. |
| `CallFrames.CallFramePlaces` | mitscript/vm/Value.cpp:244-265 | A call puts every argument in its place, keeps the closure's cells in order behind new cells of its own, and changes no older object. |
| `CallFrames.ParameterAccess` | mitscript/bccompiler/Compiler.cpp:320-333 | In the frame of a call every parameter is found by the compiled access, local or cell, with its own argument; parameters distinct, not global, and not named as a captured variable of the enclosing function. |
| `CallFrames.ShadowedParameter` | mitscript/bccompiler/Compiler.cpp:258-301 | Why parameter names must be new: a captured parameter named as a captured variable of the enclosing function stands for the outer variable. |
| `CallFrames.CallOpens` | mitscript/vm/Value.cpp:239-265 | The frame set up from a closure built in another frame is a level nested in that frame, which is what the next row takes. |
| `CallFrames.CellIdentity` | mitscript/bccompiler/Compiler.cpp:258-359 | At any nesting depth a name that is free in all the functions below the first stands for the first frame's own cell of that name, all index look-ups succeeding. |
| `Scanners.ScanRefsExact` | mitscript/bccompiler/CompilerRefsScanner.cpp:31-52 | The scanner finds a name if and only if it is a needle and is read, or is a field name, at a place where the innermost function has neither assigned it before, nor declared it global, nor has it as a parameter. |
| `Scanners.CapturedExactly` | mitscript/bccompiler/CompilerRefsScanner.cpp:8-25 | A variable is captured if and only if a nested function reads it there, and an outer variable is needed if and only if the function, which neither assigns it nor declares it global, or one nested in it reads it there. |
| `Scanners.ScanLocalsExact` | mitscript/bccompiler/CompilerLocalsScanner.cpp:11-16 | A name is found as a local if and only if it was before, or it is not declared global and the tree assigns it in an assignment that lies in no other, loop bodies, branches and nested functions included. |
| `Scanners.ScanGlobalsExact` | mitscript/bccompiler/CompilerGlobalsScanner.cpp:11-15 | A name is found as declared if and only if it was before, or a global statement of the tree, nested functions left out, declares it. |
| `Scanners.AssignedAreKnown` | mitscript/bccompiler/CompilerScanner.cpp:55-64 | Every name that a statement of a body assigns, functions left out, is found as a local or as declared. |
| `Scanners.ArgumentLeaks` | mitscript/bccompiler/CompilerScanner.cpp:70-75 | The scanner for locals finds more: what a function literal assigns that is an argument of a call is a local outside. |
| `RefsScanner.CompilerRefsScanner.Scan` | mitscript/bccompiler/CompilerRefsScanner.cpp:8-52 | The scanner with its stack of ignore sets computes the specified captured names and leaves the stack below its top unchanged. |
| `RefsScanner.Captured` | mitscript/bccompiler/CompilerRefsScanner.cpp:8-14 | The scanner for variables captured below a function. |
| `RefsScanner.CapturedOuter` | mitscript/bccompiler/CompilerRefsScanner.cpp:17-25 | The scanner for outer variables that a function needs. |
| `NameTables.IndexOfDistinct` | mitscript/bccompiler/Util.impl.h:10-33 | In a table without repetition the index of an entry is its position. |
| `NameTables.LexLessExact` | mitscript/bccompiler/CompilerLocalsScanner.h:16-17 | Names are ordered by their first difference, a prefix in front. |
| `NameTables.SetInsertSorted` | mitscript/bccompiler/CompilerLocalsScanner.h:16-17 | A set of names stays in order, so its names are numbered in order. |
| `RuntimeLaws.DivisionExact` | mitscript/vm/Interpreter.cpp:475 | Division, for all signs: it is the one quotient whose remainder is smaller than the divisor and is zero or has the sign of the dividend. |
| `RuntimeLaws.DigitsRead` | mitscript/vm/Value.cpp:13-15 | The text of a number consists of digits, starts with a zero for zero only, and read from left to right is the number. |
| `RuntimeLaws.TextRead` | mitscript/vm/Value.cpp:11-30 | A string is its own text; the text of an integer, boolean or None, read back, is the value. |
| `RuntimeLaws.InsertThenGet` | mitscript/vm/Value.cpp:113-127 | What is inserted in a record is read back; other keys and other objects are as before, and only records take fields. |
| `RuntimeLaws.GetEnters` | mitscript/vm/Value.cpp:113-115 | Reading a record gives the field; a missing one reads as None and is a field from then on. |
| `IrCompilerClass.Compiler.CompileOne` | mitscript/ir/Compiler.cpp:124-292 | One bytecode compiled on the mutable operand stack and instruction list is its specified translation. |
| `IrCompilerClass.Compiler.Compile` | mitscript/ir/Compiler.cpp:124-301 | So is a whole function. |
| `IrCompiler.TranslateAllOperands` | mitscript/ir/Compiler.cpp:10-31 | The temps on the compile-time stack are distinct and have been handed out. |
| `IrSimulation.BinBlock` | mitscript/ir/Compiler.cpp:74-122 | Where the strict machine computes an operator, the asserts of its block pass and the block defines a new temp with the same value. |
| `IrSimulation.CallBlock` | mitscript/ir/Compiler.cpp:127-137 | Calls and closures: the same callee, arguments and cells in the same order, the same effect, the result in a new temp. |
| `IrSimulation.HelperBlock` | mitscript/ir/Compiler.cpp:216-246 | Records and the collector: the same effect, and where there is a result a new temp that holds it. |
| `IrSimulation.LabelPosition` | mitscript/ir/Compiler.cpp:258-274 | A label is found in the IR where the bytecode of that label was translated. |
| `IrRuns.StepSim` | mitscript/ir/Compiler.cpp:124-292 | Each step of the strict machine is a run of the IR to a state with the same frame and world whose temps on the compile-time stack hold the operand stack. |
| `IrRuns.RunSim` | mitscript/ir/Compiler.cpp:124-292 | So is each run. |
| `IrRuns.RunExact` | mitscript/vm/Interpreter.cpp:503-521 | For every VM run that reaches a return, the IR ends with the same result, locals and world if and only if the strict machine does not throw; otherwise it fails. |
| `IrRuns.CompiledIrExact` | mitscript/ir/Compiler.cpp:295-301 | The same for every compiled function from its entry, for any locals, world and cells. |
| `IrRuns.SourceToIr` | mitscript/bccompiler/Compiler.cpp:165-256 | A body, function literals included, that evaluates without an exception and looks up no name in vain gives its value, world and locals in the IR. |
| `IrRuns.LazyAndDiffers` | mitscript/vm/Interpreter.cpp:509-514 | `return false & 1` gives false in the VM and fails in the IR. |
| `TempRanges.CompiledFresh` | mitscript/ir/Compiler.cpp:124-292 | In compiled IR every temp is defined once, and between its definition and each use there is no label and no jump. |
| `TempUses.CompiledDisciplined` | mitscript/ir/Compiler.cpp:124-292 | Every temp is used once apart from the asserts of the operator that uses it, and a stored temp is used for nothing else. |
| `TempLiveness.TempLivenessOptimization.Optimize` | mitscript/ir/TempLivenessOptimization.h:27-212 | The pass sets the start of every temp to its last definition and the end to its last use, leaving the others as they were. |
| `TempLiveness.RangesExact` | mitscript/ir/TempLivenessOptimization.h:13-212 | On compiled IR the range is exactly from the one definition to the last use, with straight code between; a temp that nothing reads keeps its open end. |
| `LinearScan.VisitKeeps` | mitscript/ir/RegisterAllocationOptimization.cpp:43-84 | A turn of the scan finds a register or an operand to spill, and keeps the invariant: registers accounted for, active ordered by end, overlapping owners apart. |
| `LinearScan.RegistersAccounted` | mitscript/ir/RegisterAllocationOptimization.cpp:12-63 | At every point of the scan the registers in use are those of the active and the dropped operands, one each, at most seven were dropped, and when all are in use some operand is active. |
| `LinearScan.NeverExhausted` | mitscript/ir/RegisterAllocationOptimization.cpp:16-31 | For all live ranges of temps and variables the allocation ends without RegistersExhausted. |
| `LinearScan.OverlapApart` | mitscript/ir/RegisterAllocationOptimization.cpp:43-84 | For all live ranges two operands that own registers and whose half-open ranges overlap have different ones. |
| `LinearScan.OrderSorted` | mitscript/ir/RegisterAllocationOptimization.h:13-28 | The scan visits the operands in the order of their starts, each once. |
| `LinearScan.ExpireKeeps` | mitscript/ir/RegisterAllocationOptimization.cpp:43-51 | Expiry removes exactly the operands that end by the start of the new one. |
| `RegisterAllocation.RegisterAllocationOptimization.AllocateReg` | mitscript/ir/RegisterAllocationOptimization.cpp:16-31 | A variable's last register when it is free, else the first free one. |
| `RegisterAllocation.RegisterAllocationOptimization.SpillAtInterval` | mitscript/ir/RegisterAllocationOptimization.cpp:53-63 | The operand that ends last gives up its register if it ends later, with everything of the same end dropped from the list. |
| `RegisterAllocation.RegisterAllocationOptimization.LinearScanAllocate` | mitscript/ir/RegisterAllocationOptimization.cpp:65-94 | The loop over the mutable sets and fields ends in the specified allocation. |
| `LocatedIr.LocatedRun` | mitscript/asm/Compiler.cpp:261-289 | Code in segments runs the same with temps in places as with temps of their own, wherever no definition overwrites a live temp's place; and no place is read unwritten. |
| `AllocatedIr.AllocationApart` | mitscript/ir/RegisterAllocationOptimization.cpp:65-84 | The ranges of the liveness pass and the registers of the scan never let a definition overwrite a live temp. |
| `AllocatedIr.AllocationPreserves` | mitscript/ir/RegisterAllocationOptimization.cpp:65-84 | For compiled IR with only temps as operands, every run with allocated registers and slots is the run with unbounded temps. |
| `AllocatedIr.VmToAllocated` | mitscript/asm/Compiler.cpp:110-112 | From the VM to the allocated IR: the same result, locals and world, except where And or Or see a second operand that is no boolean. |
| `TypeHints.FixedPointSettled` | mitscript/ir/PropagateTypesOptimization.h:12-42 | When a pass changes no hint, every assignment and store has handed on its types. |
| `TypeSpecialization.OptimizationPasses.PropagateTypes` | mitscript/ir/PropagateTypesOptimization.h:12-42 | The loop that rewrites hints in place is the specified propagation. |
| `HintRewriting.ConstructHints` | mitscript/ir/Instructions.h:329-468 | The constructors hint the results of operators, and no temp that nothing defines. |
| `HintRewriting.FixedPointClosed` | mitscript/ir/PropagateTypesOptimization.h:12-42 | At a fixed point, with everything stored to a hinted variable hinted, the hints are closed under the code. |
| `HintSoundness.SoundRun` | mitscript/ir/Instructions.h:25-158 | On every run each temp and each assigned local holds a value whose type is among its hints, when the locals that have hints are assigned before they are read; parameters without hints may be read as they come. |
| `HintRewriting.RewrittenRun` | mitscript/ir/TypeSpecializationOptimization.h:12-39 | Replacing instructions as true hints justify changes no run. |
| `TypeSpecialization.SpecializePreserves` | mitscript/ir/TypeSpecializationOptimization.h:12-39 | Switching to IntAdd and FastEq changes no run. |
| `RewritingExact.ConstantPropagated` | mitscript/ir/PropagateTypesOptimization.h:12-42 | After one propagation a temp that is assigned a constant, and stored to no variable, is hinted to hold that constant. |
| `RewritingExact.SpecializeExact` | mitscript/ir/TypeSpecializationOptimization.h:12-39 | An addition becomes one of integers if and only if its operands must be integers by the hints at that point, an equality a fast one if and only if they must both be integers or both booleans; all else stays. |
| `TypeSpecialization.OptimizationPasses.SpecializeTypes` | mitscript/ir/TypeSpecializationOptimization.h:12-39 | The loop that replaces instructions and adds hints in place is the specified specialization. |
| `ObsoleteRemoval.AssertsRemoved` | mitscript/ir/RemoveObsoleteOptimization.h:57-73 | At a fixed point of the propagation the type asserts that the hints decide can be removed without changing a run. |
| `ConstantTemps.PropagateConsts` | mitscript/ir/PropagateTypesOptimization.h:12-42 | Propagation keeps constant hints true, apart from temps that are stored; variables never get one. |
| `ConstantTemps.ConstantIsValue` | mitscript/ir/Instructions.h:42-54 | Wherever a pass reads the constant of a temp that something other than a store uses, it is the temp's value on every run. |
| `RewritingExact.FoldsBinary` | mitscript/ir/ConstantFoldingOptimization.h:62-177 | A binary operator is folded if and only if its operands hold constants of kinds the pass computes with: two integers, for + also two strings, for & and \| two booleans, for a fast equality two of either, and no quotient that the 32-bit division leaves undefined. |
| `RewritingExact.FoldsUnary` | mitscript/ir/ConstantFoldingOptimization.h:179-223 | A negation is folded if and only if its operand holds an integer constant, a Not if and only if it holds a boolean one. |
| `RewritingExact.ObsoleteExact` | mitscript/ir/ConstantFoldingOptimization.h:16-36 | Only folded operators change, and a temp is obsolete if and only if a folded operator used it. |
| `RewritingExact.TypeAssertRemoved` | mitscript/ir/RemoveObsoleteOptimization.h:57-73 | An assert that its argument is an integer, or a boolean, is removed if and only if the argument is obsolete or every value that its hint allows meets it. |
| `RewritingExact.ZeroAssertRemoved` | mitscript/ir/RemoveObsoleteOptimization.h:62-69 | An assert on a divisor is removed if and only if the divisor is obsolete or an integer constant other than zero. |
| `FoldingRuns.NeverMisread` | mitscript/ir/ConstantFoldingOptimization.h:16-20 | Folding never takes the number of a variable for a constant. |
| `ConstantFolding.FoldIntsIff` | mitscript/ir/ConstantFoldingOptimization.h:87-116 | For addition, subtraction and multiplication the folded constant is the machine's result if and only if that fits in 32 bits. |
| `ConstantFolding.FoldOneRight` | mitscript/ir/ConstantFoldingOptimization.h:15-61 | With 32-bit operands and results a folded operator computes the constant put in its place. |
| `FoldingRuns.FoldPreserves` | mitscript/ir/ConstantFoldingOptimization.h:62-227 | Folding a whole function with 32-bit integers changes no run. |
| `ObsoleteRemoval.FoldSpends` | mitscript/ir/ConstantFoldingOptimization.h:22-26 | A temp that folding makes obsolete holds a constant, and only asserts that this constant meets still use it. |
| `ObsoleteRemoval.RemovedRun` | mitscript/ir/RemoveObsoleteOptimization.h:31-79 | Removing assignments to obsolete temps and asserts that must hold changes no run, but for the obsolete temps. |
| `ObsoleteRemoval.FoldAndRemove` | mitscript/ir/RemoveObsoleteOptimization.h:31-79 | Folding followed by the removal preserves every run. |
| `ObsoleteRemoval.ConstantPasses.FoldConstants` | mitscript/ir/ConstantFoldingOptimization.h:62-227 | The in-place loop is the specified folding, and stops where the compiler throws. |
| `ObsoleteRemoval.ConstantPasses.RemoveObsolete` | mitscript/ir/RemoveObsoleteOptimization.h:31-79 | The in-place loop is the specified removal. |
| `PassPipeline.FoldAndRemoveObsolete` | mitscript/ir/ConstantFoldingOptimization.h:15-227 | For every compiled function, folding and the removal of the assignments and asserts that it makes obsolete preserve every run, on the one condition that folded integers and results fit in 32 bits. |
| `PassPipeline.FoldAndRemoveCompiled` | mitscript/ir/ConstantFoldingOptimization.h:15-227 | With the asserts removed that the hints decide, too: for every compiled function, parameters read or not, folding and removal preserve every run when the folded integers and results fit in 32 bits; hints come from the constructors and propagation to a fixed point, and a local that ends up hinted is assigned before it is read, from hinted temps. |
| `PassPipeline.PipelinePreserves` | mitscript/ir/OptimizingCompiler.h:47-55 | Propagation, folding, specialization, propagation and removal in the program's order preserve every run of compiled IR under the same conditions. |
| `PassPipeline.FoldAllKept` | mitscript/ir/ConstantFoldingOptimization.h:62-227 | Folding keeps the hints true, closed and covering the operators, and the assignments before reads. |
| `HintExamples.LateStoreLosesAssert` | mitscript/ir/RemoveObsoleteOptimization.h:57-60 | For `fun(x) { y = x - 1; x = 3; }` the propagation comes to rest with the parameter hinted as an integer, the assert on it is removed, and a call with a string computes on the string instead of failing. |
| `HintExamples.ScheduleLosesAssert` | mitscript/ir/OptimizingCompiler.h:47-55 | With one propagation before folding and one before the removal, as the program runs them, `x = 1; w = 1; v = 1; while (x > 0) { x = w; w = v; v = "s"; }` loses the assert on `x` though every local is assigned before it is read: the original fails in the fourth turn, the optimized code compares a string. |
| `ObsoleteRemoval.PassesMayStart` | mitscript/ir/Compiler.cpp:124-292 | Compiled IR with the hints of its constructors meets the conditions of all these passes. |
| `CopyForwarding.CopyOptimization.Optimize` | mitscript/ir/CopyOptimization.h:37-64 | The pass with its running index and insertions computes the specified forwarding. |
| `CopyForwarding.ForwardAppend` | mitscript/ir/CopyOptimization.h:15-34 | A further instruction is appended, or turns the store in front of it and itself into a fork, a store and an assignment of fresh temps. |
| `CopyRuns.LabelCorresponds` | mitscript/ir/CopyOptimization.h:14-64 | Labels are found at corresponding places. |
| `CopyRuns.CopyPreserves` | mitscript/ir/CopyOptimization.h:14-64 | For every IR list, jumps included, the forwarded code ends in exactly the outcomes the code ends in. |
| `RewritingExact.ForwardableExact` | mitscript/ir/CopyOptimization.h:15-34 | A store and the load behind it are forwarded if and only if the load reads what the store wrote in every frame, world and function. |
| `TaggedWords.IntegerRoundTrip` | mitscript/vm/Value.h:86-91 | Untagging a tagged integer gives its 61-bit wrap. |
| `TaggedWords.WordRoundTrip` | mitscript/vm/Value.h:132-134 | Tagging an untagged integer word gives the word back. |
| `TaggedWords.BooleanRoundTrip` | mitscript/vm/Value.h:79-84 | Booleans round trip, and words of the boolean tag do exactly when they are 2 or 10. |
| `TaggedWords.TagsTell` | mitscript/vm/Value.h:33-40 | The tag tests tell integers, booleans, None, strings and pointers apart. |
| `TaggedWords.EqualWords` | mitscript/vm/Value.h:117-122 | Words of values other than strings are equal exactly when the values are. |
| `TaggedWords.IntAddAgrees` | mitscript/asm/Compiler.cpp:489-498 | Addition of words is the VM's addition, overflow included. |
| `TaggedWords.SubAgrees` | mitscript/asm/Compiler.cpp:499-508 | So is subtraction. |
| `TaggedWords.NegAgrees` | mitscript/asm/Compiler.cpp:587-594 | So is negation. |
| `TaggedWords.MulAgreesIff` | mitscript/asm/Compiler.cpp:509-519 | Multiplication is the VM's if and only if the product lies in [-2^57, 2^57). |
| `TaggedWords.MulOverflows` | mitscript/asm/Compiler.cpp:509-519 | At 2^29 times 2^28 the sequence leaves -2^57 where the VM gives 2^57. |
| `TaggedWords.DivAgrees` | mitscript/asm/Compiler.cpp:520-536 | Division does not trap on a divisor other than zero and is the VM's for all integers. |
| `TaggedWords.CompareAgrees` | mitscript/asm/Compiler.cpp:537-586 | Comparisons of integer words are those of the integers. |
| `TaggedWords.FastEqBooleans` | mitscript/asm/Compiler.cpp:574-586 | FastEq on booleans. |
| `TaggedWords.AndAgrees` | mitscript/asm/Compiler.cpp:761-770 | And on boolean words. |
| `TaggedWords.OrAgrees` | mitscript/asm/Compiler.cpp:771-780 | Or on boolean words. |
| `TaggedWords.NotAgrees` | mitscript/asm/Compiler.cpp:595-602 | Negation of a boolean word. |
| `TaggedWords.AssertsAgree` | mitscript/asm/Compiler.cpp:716-738 | The asserts pass for exactly the values the IR lets through. |
| `TaggedWords.CondJumpAgrees` | mitscript/asm/Compiler.cpp:613-620 | The conditional jump is taken for the value true only, whatever the word holds. |
| `HeapSafety.RecordInsertKeeps` | mitscript/vm/Value.cpp:117-127 | Inserting into a record keeps every pointer from an old to a new object in a remembered field. |
| `HeapSafety.CellWriteKeeps` | mitscript/vm/Value.cpp:173-181 | So does writing a cell. |
| `HeapSafety.AddReferenceExact` | mitscript/vm/Value.cpp:224-227 | A capture keeps the invariant if and only if the heap is not generational, the closure is new, or the cell is old. |
| `HeapSafety.AllocateKeeps` | mitscript/gc/CollectedHeap.h:89-112 | So does an allocation. |
| `HeapSafety.CollectFastKeeps` | mitscript/gc/CollectedHeap.h:124-160 | A fast collection keeps the whole invariant. |
| `HeapSafety.CollectFullKeeps` | mitscript/gc/CollectedHeap.h:163-196 | So does a full one. |
| `HeapSafety.FastSafe` | mitscript/gc/CollectedHeap.h:124-160 | The fast collection frees nothing that the roots reach, although marking stops at old objects. |
| `HeapSafety.FullExact` | mitscript/gc/CollectedHeap.h:163-196 | The full collection leaves exactly the objects reachable from the roots if and only if the generation count fits 32 bits or nothing is reachable. |
| `HeapModel.MarkingExact` | mitscript/gc/Collectable.cpp:5-10 | Marking in a fresh generation marks exactly what can be reached. |
| `HeapRuns.ProgramSafe` | mitscript/vm/Interpreter.cpp:60-125 | Over every run of allocations, field and cell writes, loads, captures by new closures or of old cells, drops and both collections, what the program holds stays alive and the remembered-set invariant holds. |
| `HeapModel.ChildrenExact` | mitscript/vm/Value.cpp:92-100 | What marking follows from an object is exactly the addresses stored in it: both operands of a string tree, all fields of a record, the content of a cell, the cells of a closure. |
| `HeapRuns.StoredSurvives` | mitscript/gc/CollectedHeap.h:124-196 | After either collection every address stored in a kept object, an operand of a string tree say, is in the store. |
| `HeapRuns.LateCaptureLosesCell` | mitscript/vm/Value.cpp:224-227 | A capture by an old closure can lose a reachable cell. |
| `CollectedHeaps.CollectedHeap.Mark` | mitscript/gc/Collectable.cpp:5-10 | The recursive marking of a cyclic heap ends (fewer objects are unmarked) and marks what is reachable. |
| `CollectedHeaps.CollectedHeap.SweepList` | mitscript/gc/CollectedHeap.h:141-158 | The sweep keeps the marked objects of a list in order and makes all of them old. |
| `CollectedHeaps.CollectedHeap.GcFast` | mitscript/gc/CollectedHeap.h:124-160 | The method on the two lists is the specified fast collection. |
| `CollectedHeaps.CollectedHeap.GcFull` | mitscript/gc/CollectedHeap.h:163-196 | The method on the two lists is the specified full collection. |
| `Roots.Interpreter.BuildRoots` | mitscript/vm/Interpreter.cpp:73-106 | The roots are the main closure and the pointers in all frames, cells, operand stacks and globals; each operand stack is emptied from its top, filled again, and left as it was. |
| `Roots.Interpreter.PotentiallyGarbageCollect` | mitscript/vm/Interpreter.cpp:60-126 | A collection, fast, full or both, keeps everything the interpreter holds and what that reaches. |
| `Roots.RunningClosureExact` | mitscript/vm/operations.cpp:23-29 | The closure of the running function, popped before the call and read by later instructions, outlives a collection if and only if the roots reach it or, in a fast collection that freed enough, it is old or marked from a remembered field. |
| `Roots.RunningClosureSafe` | mitscript/vm/Interpreter.cpp:60-125 | A running closure that something else holds, as the interpreter holds the main one, outlives every collection. |
| `Roots.RunningClosureFreed` | mitscript/vm/operations.cpp:23-29 | A function that overwrites the global that held it is freed by a collection while it runs. |
| `Ropes.TreesShrink` | mitscript/vm/Value.cpp:42-65 | A tree is higher than both operands, so flattening ends. |
| `Ropes.AddAgrees` | mitscript/vm/operations.cpp:5-17 | Addition with or without trees is the addition of the runtime model, exceptions included, and changes no record. |
| `Ropes.EqualAgrees` | mitscript/vm/Value.h:117-122 | Equality of words is equality of what they stand for, strings by text. |
| `Ropes.SequenceOk` | mitscript/vm/Value.cpp:77-82 | Every sequence of additions, comparisons and record operations computes what it computes on plain values. |
| `Ropes.TreesAreStrings` | mitscript/vm/operations.cpp:5-17 | String trees and flat strings give the same values, texts and comparisons for every sequence. |
| `Ropes.TextCaptured` | mitscript/vm/Value.cpp:42-54 | A record operand enters a string as its text at the time of the addition. |

## Left out

- StatementCorrectness.FunctionOk: calls are an arbitrary function of the world, callee and arguments; ProgramRuns.CallOk makes them runs of the callee.
- ProgramRuns.ProgramOk: a source closure carries the cells that the name scanners ask for (Scanners.CapturedExactly says which), not the whole frame, and local variables are those of the scanners; calls of natives and of values that are no closures are an arbitrary function.
- AllocatedIr.AllocationPreserves: only temps are operands; temps that share a variable's register are not covered, since a variable's register outlives its range in the code.
- LinearScan.OverlapApart: speaks of operands that own their register, not of temps that took over the register of their variable.
- HintSoundness.SoundRun: hints of globals and dereferences are not modelled, because the code shares those operands between functions through static maps; they count as having no hint.
- FoldingRuns.FoldPreserves: integers beyond 32 bits are excluded by its condition; signed overflow of the host is modelled as wrapping.
- PassPipeline.PipelinePreserves: the removal of no-ops and the dead-variable and dead-temp passes that the program runs between rounds are not part of it; the hypothesis that propagation has come to rest is one the program does not test, and HintExamples.ScheduleLosesAssert shows it to be needed.
- Ropes.TextCaptured: the text of a record is an abstract function of the heap, as printing a cyclic record does not end.
- CallFrames.SetUpFrame: a closure with too few references, where the code would read beyond the end, is excluded.
- InterpreterLoop.FunctionRun.Run: runs a given number of turns, the loop of the code has no bound.
- TempLiveness.TempLivenessOptimization.Optimize: the ends of variables, which the pass raises when a hinted temp dies, are not modelled.
- Roots.Interpreter.PotentiallyGarbageCollect: the byte counters and the trigger are two parameters.
- Reads of a missing global give None in the IR and throw in the VM; the simulation starts from VM runs that do not throw.
- A program whose only return is inside a branch may run off the end of its code, where the VM gives None; the IR theorems are about functions, whose code ends in a return.
- Integers of the tree walker are 32 bits wide; the source semantics uses the 61 bits of the machine.
- The option that turns unresolved names into compile errors, and the errors scanner.
- The natives print, input and intcast, which are part of the abstract call function.
- VarLivenessOptimization, DeadVariableAssignmentOptimization, LoadParams and ShortJump: they use bytecode label positions as indexes into the IR, so nothing about intervals of variables follows from them.
- DeadTempOptimization: its alias part needs temp-to-temp assignments, which only copy forwarding makes, and the pipeline does not switch that on.
- The assembler's register sets, helper calls, stack alignment, code bytes and executable memory; only arithmetic sequences and the place of temps are modelled.
- Parsers, lexers, printers, command-line programs, and the vendored libraries udis86 and x64asm.
- Objects in the machines' world are never removed; the collector is modelled on its own store.
