/**
  Whole runs: compiled bytecode and its IR reach the same result, and the IR fails
  exactly where the strict machine throws although the VM goes on.
 */
module IrRuns {
  import opened Runtime
  import opened Ir
  import opened IrCompiler
  import opened IrSimulation
  import opened StackDiscipline
  import SD = StackDiscipline
  import B = Bytecode
  import VM = VirtualMachine
  import opened BytecodeCompiler
  import opened Ast
  import Walker = TreeWalker
  import opened CompilerCorrectness
  import EmittedCode
  import StatementCorrectness

  /** Everything known at a related point: the operands, and where the block lies. */
  lemma AtPoint(a: VM.Activation, vm: VM.State, s: State)
    requires WellFormed(a.fn) && Flow(a.fn.code).Some? && Related(a, vm, s)
    ensures var i := a.fn.code[vm.ip];
            && Flow(a.fn.code[..vm.ip + 1]) == SD.Effect(i, |vm.stack|)
            && Flow(a.fn.code[..vm.ip + 1]).Some?
            && AtBlock(TempProgram(a), a, i, TranslateAll(a.fn.code[..vm.ip], a.fn.consts), vm, s)
  {
    hide WellFormed, Block, Flow, Translate, OperandsOk;
    var t := TranslateAll(a.fn.code[..vm.ip], a.fn.consts);
    FlowPrefix(a.fn.code, vm.ip);
    BlockInPlace(a.fn, vm.ip);
    TranslateAllOperands(a.fn.code[..vm.ip], a.fn.consts);
  }

  /** Bytecodes after which control goes to the next one. */
  predicate Straight(i: B.Instr) { !i.Goto? && !i.If? && !i.Return? }

  /** One straight step of the strict machine is the run of its block. */
  lemma StraightBlock(p: Program, a: VM.Activation, i: B.Instr, t: IrState, vm: VM.State, s: State) returns (n: nat, s1: State)
    requires AtBlock(p, a, i, t, vm, s) && a.strict && Straight(i) && VM.Execute(a, i, vm).Running?
    ensures Leaves(p, a, i, t, VM.Execute(a, i, vm).state, s, n, s1)
    ensures VM.Execute(a, i, vm).state.ip == vm.ip + 1
  {
    hide VM.Execute, Leaves, Block, Translate, Mirrors, Run, OperandsOk, OwnSlots;
    StraightAdvances(a, i, vm);
    hide AtBlock;
    match i
    case Bin(op) => n, s1 := BinBlock(p, a, op, t, vm, s);
    case Un(op) => n, s1 := UnBlock(p, a, op, t, vm, s);
    case Pop => n, s1 := PopBlock(p, a, i, t, vm, s);
    case Label(_) => n, s1 := PopBlock(p, a, i, t, vm, s);
    case Swap => SwapBlock(p, a, t, vm, s); n, s1 := 0, s;
    case Dup => n, s1 := DupBlock(p, a, t, vm, s);
    case Call(_) => n, s1 := CallBlock(p, a, i, t, vm, s);
    case AllocClosure(_) => n, s1 := CallBlock(p, a, i, t, vm, s);
    case _ =>
      if IsLoad(i) { n, s1 := LoadBlock(p, a, i, t, vm, s); }
      else if IsStore(i) { n, s1 := StoreBlock(p, a, i, t, vm, s); }
      else { n, s1 := HelperBlock(p, a, i, t, vm, s); }
  }

  lemma StraightAdvances(a: VM.Activation, i: B.Instr, vm: VM.State)
    requires VM.Pops(i) <= |vm.stack| && Straight(i) && VM.Execute(a, i, vm).Running?
    ensures VM.Execute(a, i, vm).state.ip == vm.ip + 1 && !i.ThrowUninitialized?
  {
    hide Binary, Text, RecordGet, RecordInsert, VM.PopCells, Unary;
  }

  /** A jump target is related to its label in the IR, both at an empty operand stack. */
  lemma JumpLands(a: VM.Activation, l: nat, vm1: VM.State, s1: State)
    requires WellFormed(a.fn) && Flow(a.fn.code).Some?
    requires exists q :: 0 <= q < |a.fn.code| && SD.JumpTo(a.fn.code[q], l)
    requires vm1.ip == VM.LabelTarget(a.fn, l) && vm1.stack == []
    requires s1.pc == FindLabel(TempProgram(a).code, l)
    requires s1.rest.locals == vm1.locals && s1.rest.world == vm1.world
    ensures Related(a, vm1, s1)
  {
    hide Flow, TranslateAll;
    GoodFlow(a.fn);
    var q := a.fn.labels[l];
    FlowPrefix(a.fn.code, q);
    LabelDepth(a.fn.code, q);
    LabelPosition(a.fn, q, l);
  }

  lemma LabelDepth(code: seq<B.Instr>, q: nat)
    requires q < |code| && code[q].Label? && Flow(code[..q]).Some? && Flow(code[..q + 1]).Some?
    ensures Flow(code[..q]) == Some(0)
  {
    assert code[..q + 1][..q] == code[..q];
  }

  /** The block at a related point starts with its first instruction. */
  lemma FirstIns(p: Program, a: VM.Activation, i: B.Instr, t: IrState, vm: VM.State, s: State)
    requires AtBlock(p, a, i, t, vm, s) && |Block(i, a.fn.consts, t)| > 0
    ensures AtIns(p, s, Block(i, a.fn.consts, t)[0])
  {
    hide OwnSlots, Block, Mirrors, OperandsOk;
    assert p.code[s.pc + 0] == Block(i, a.fn.consts, t)[0];
  }

  lemma JumpIns(p: Program, a: VM.Activation, l: nat, t: IrState, vm: VM.State, s: State)
    requires AtBlock(p, a, B.Goto(l), t, vm, s)
    ensures Run(p, s, 1) == Running(s.(pc := FindLabel(p.code, l)))
  {
    hide Mirrors, OperandsOk;
    FirstIns(p, a, B.Goto(l), t, vm, s);
    RunOne(p, s, s.(pc := FindLabel(p.code, l)));
  }

  lemma GotoStep(a: VM.Activation, l: nat, vm: VM.State, s: State) returns (s1: State)
    requires WellFormed(a.fn) && Flow(a.fn.code).Some? && Related(a, vm, s) && a.fn.code[vm.ip] == B.Goto(l)
    ensures VM.Step(a, vm).Running?
    ensures Run(TempProgram(a), s, 1) == Running(s1) && Related(a, VM.Step(a, vm).state, s1)
  {
    AtPoint(a, vm, s);
    hide Flow, WellFormed, Mirrors, OperandsOk, OwnSlots, Run, TranslateAll, Block;
    var p := TempProgram(a);
    JumpIns(p, a, l, TranslateAll(a.fn.code[..vm.ip], a.fn.consts), vm, s);
    s1 := s.(pc := FindLabel(p.code, l));
    assert |vm.stack| == 0;
    assert SD.JumpTo(a.fn.code[vm.ip], l);
    JumpLands(a, l, vm.(ip := VM.LabelTarget(a.fn, l)), s1);
  }

  /** The conditional jump of the IR, with the assert before it. */
  lemma CondIns(p: Program, a: VM.Activation, l: nat, t: IrState, vm: VM.State, s: State) returns (s1: State)
    requires AtBlock(p, a, B.If(l), t, vm, s) && vm.stack[|vm.stack| - 1].BoolV?
    ensures Run(p, s, 2) == Running(s1) && s1.temps == s.temps && s1.rest == s.rest
    ensures s1.pc == if vm.stack[|vm.stack| - 1].b then FindLabel(p.code, l) else s.pc + 2
  {
    hide OwnSlots, Mirrors, OperandsOk, Translate, Run;
    var b := Block(B.If(l), a.fn.consts, t);
    assert p.code[s.pc + 0] == b[0] && p.code[s.pc + 1] == b[1];
    OperandValue(t, s.temps, vm.stack, 0);
    AssertPasses(p, s, AssertBool, Operand(t, 0));
    var s0 := s.(pc := s.pc + 1);
    ReadOne(p, s0, Operand(t, 0));
    s1 := s.(pc := if vm.stack[|vm.stack| - 1].b then FindLabel(p.code, l) else s.pc + 2);
    RunOne(p, s0, s1);
    JoinRuns(p, s, 1, s0, 1);
  }

  lemma BranchExecutes(a: VM.Activation, l: nat, vm: VM.State)
    requires vm.ip < |a.fn.code| && a.fn.code[vm.ip] == B.If(l) && VM.Step(a, vm).Running?
    ensures |vm.stack| > 0 && vm.stack[|vm.stack| - 1].BoolV?
    ensures VM.Step(a, vm).state ==
              vm.(ip := if vm.stack[|vm.stack| - 1].b then VM.LabelTarget(a.fn, l) else vm.ip + 1, stack := vm.stack[..|vm.stack| - 1])
  {
  }

  lemma IfStep(a: VM.Activation, l: nat, vm: VM.State, s: State) returns (s1: State)
    requires WellFormed(a.fn) && Flow(a.fn.code).Some? && Related(a, vm, s) && a.fn.code[vm.ip] == B.If(l)
    requires VM.Step(a, vm).Running?
    ensures Run(TempProgram(a), s, 2) == Running(s1) && Related(a, VM.Step(a, vm).state, s1)
  {
    AtPoint(a, vm, s);
    BranchExecutes(a, l, vm);
    hide Flow, WellFormed, Mirrors, OperandsOk, OwnSlots, Run, TranslateAll, VM.Step;
    var p := TempProgram(a);
    var t := TranslateAll(a.fn.code[..vm.ip], a.fn.consts);
    s1 := CondIns(p, a, l, t, vm, s);
    assert |vm.stack| == 1;
    if vm.stack[0].b {
      assert SD.JumpTo(a.fn.code[vm.ip], l);
      JumpLands(a, l, VM.State(VM.LabelTarget(a.fn, l), [], vm.locals, vm.world), s1);
    } else {
      FallThrough(a, l, vm, s, s1);
    }
  }

  lemma FallThrough(a: VM.Activation, l: nat, vm: VM.State, s: State, s1: State)
    requires WellFormed(a.fn) && Flow(a.fn.code).Some? && Related(a, vm, s) && a.fn.code[vm.ip] == B.If(l)
    requires |vm.stack| == 1 && s1 == s.(pc := s.pc + 2)
    ensures Related(a, vm.(ip := vm.ip + 1, stack := []), s1)
  {
    hide Block, Flow, TranslateAll, OperandsOk;
    var k := vm.ip;
    var t := TranslateAll(a.fn.code[..k], a.fn.consts);
    FlowPrefix(a.fn.code, k);
    BlockInPlace(a.fn, k);
    IfTranslated(a.fn.consts, l, t);
  }

  lemma IfTranslated(consts: seq<Constant>, l: nat, t: IrState)
    requires |t.operands| == 1
    ensures Translate(B.If(l), consts, t).operands == [] && |Block(B.If(l), consts, t)| == 2
  {
  }

  lemma StraightStep(a: VM.Activation, vm: VM.State, s: State) returns (n: nat, s1: State)
    requires WellFormed(a.fn) && Flow(a.fn.code).Some? && Related(a, vm, s) && a.strict
    requires Straight(a.fn.code[vm.ip]) && VM.Step(a, vm).Running?
    ensures Run(TempProgram(a), s, n) == Running(s1) && Related(a, VM.Step(a, vm).state, s1)
  {
    AtPoint(a, vm, s);
    hide Flow, WellFormed, Mirrors, OperandsOk, OwnSlots, Run, TranslateAll, Block, VM.Execute, Translate;
    var i, k := a.fn.code[vm.ip], vm.ip;
    var t := TranslateAll(a.fn.code[..k], a.fn.consts);
    n, s1 := StraightBlock(TempProgram(a), a, i, t, vm, s);
    FlowPrefix(a.fn.code, k);
    BlockInPlace(a.fn, k);
    LastIsReturn(a.fn, k);
  }

  lemma LastIsReturn(fn: B.Fn, k: nat)
    requires WellFormed(fn) && k < |fn.code| && Straight(fn.code[k])
    ensures k + 1 < |fn.code|
  {
    hide Good;
  }

  /** One step of the strict machine that goes on is a run of the IR to the related state. */
  lemma StepSim(a: VM.Activation, vm: VM.State, s: State) returns (n: nat, s1: State)
    requires WellFormed(a.fn) && Flow(a.fn.code).Some? && Related(a, vm, s) && a.strict && VM.Step(a, vm).Running?
    ensures Run(TempProgram(a), s, n) == Running(s1) && Related(a, VM.Step(a, vm).state, s1)
  {
    hide Flow, WellFormed, Run, TranslateAll, VM.Execute;
    var i := a.fn.code[vm.ip];
    if i.Goto? {
      s1 := GotoStep(a, i.target, vm, s);
      n := 1;
    } else if i.If? {
      s1 := IfStep(a, i.target, vm, s);
      n := 2;
    } else if i.Return? {
      ReturnStops(a, vm);
    } else {
      n, s1 := StraightStep(a, vm, s);
    }
  }

  lemma ReturnStops(a: VM.Activation, vm: VM.State)
    requires vm.ip < |a.fn.code| && a.fn.code[vm.ip].Return?
    ensures !VM.Step(a, vm).Running?
  {
  }

  lemma OnlyReturnStops(a: VM.Activation, vm: VM.State)
    requires vm.ip < |a.fn.code| && VM.Step(a, vm).Done?
    ensures a.fn.code[vm.ip].Return? && |vm.stack| > 0
    ensures VM.Step(a, vm) == VM.Done(vm.stack[|vm.stack| - 1], vm.locals, vm.world)
  {
    hide Binary, Text, RecordGet, RecordInsert, VM.PopCells, Unary, VM.Operate;
  }

  lemma ReturnBlock(p: Program, a: VM.Activation, t: IrState, vm: VM.State, s: State)
    requires AtBlock(p, a, B.Return, t, vm, s)
    ensures Run(p, s, 1) == Done(vm.stack[|vm.stack| - 1], vm.locals, vm.world)
  {
    hide Mirrors, OperandsOk;
    FirstIns(p, a, B.Return, t, vm, s);
    OperandValue(t, s.temps, vm.stack, 0);
    ReadOne(p, s, Operand(t, 0));
  }

  /** A return ends both programs with the same result, locals and world. */
  lemma ReturnSim(a: VM.Activation, vm: VM.State, s: State)
    requires WellFormed(a.fn) && Flow(a.fn.code).Some? && Related(a, vm, s) && VM.Step(a, vm).Done?
    ensures var o := VM.Step(a, vm); Run(TempProgram(a), s, 1) == Done(o.result, o.locals, o.world)
  {
    OnlyReturnStops(a, vm);
    AtPoint(a, vm, s);
    hide *;
    ReturnBlock(TempProgram(a), a, TranslateAll(a.fn.code[..vm.ip], a.fn.consts), vm, s);
  }

  // ----- whole runs -----

  /** As long as the strict machine runs, the IR runs along, its temps holding the operand stack. */
  lemma {:induction false} RunSim(a: VM.Activation, vm: VM.State, s: State, n: nat) returns (m: nat, s1: State)
    requires WellFormed(a.fn) && Flow(a.fn.code).Some? && Related(a, vm, s) && a.strict && VM.Run(a, vm, n).Running?
    ensures Run(TempProgram(a), s, m) == Running(s1) && Related(a, VM.Run(a, vm, n).state, s1)
    decreases n
  {
    hide WellFormed, Flow, Related, VM.Step, Step, TempProgram;
    m, s1 := 0, s;
    if n > 0 {
      var vm0 := VM.Step(a, vm).state;
      var m0, s0 := StepSim(a, vm, s);
      m, s1 := RunSim(a, vm0, s0, n - 1);
      JoinRuns(TempProgram(a), s, m0, s0, m);
      m := m0 + m;
    }
  }

  /** A run that ends is a run that goes on, and then one last step. */
  lemma {:induction false} LastStep(a: VM.Activation, vm: VM.State, n: nat) returns (k: nat)
    requires !VM.Run(a, vm, n).Running?
    ensures k < n && VM.Run(a, vm, k).Running? && VM.Step(a, VM.Run(a, vm, k).state) == VM.Run(a, vm, n)
    decreases n
  {
    hide VM.Step;
    k := 0;
    if VM.Step(a, vm).Running? {
      k := LastStep(a, VM.Step(a, vm).state, n - 1);
      k := k + 1;
    }
  }

  /** Where the strict machine throws and the VM does not, an operator's second operand is no boolean. */
  lemma LazyOperator(a: VM.Activation, vm: VM.State)
    requires !a.strict && vm.ip < |a.fn.code| && VM.Step(a.(strict := true), vm).Thrown? && !VM.Step(a, vm).Thrown?
    ensures a.fn.code[vm.ip] == B.Bin(And) || a.fn.code[vm.ip] == B.Bin(Or)
    ensures |vm.stack| > 1 && !vm.stack[|vm.stack| - 1].BoolV?
  {
    hide Binary, Text, RecordGet, RecordInsert, VM.PopCells, Unary;
  }

  lemma LazyIns(p: Program, a: VM.Activation, op: BinOp, t: IrState, vm: VM.State, s: State)
    requires AtBlock(p, a, B.Bin(op), t, vm, s) && (op == And || op == Or) && !vm.stack[|vm.stack| - 1].BoolV?
    ensures Run(p, s, 1) == Failed
  {
    hide Mirrors, OperandsOk;
    FirstIns(p, a, B.Bin(op), t, vm, s);
    OperandValue(t, s.temps, vm.stack, 0);
    AssertFails(p, s, AssertBool, Operand(t, 0), 1);
  }

  lemma LazyFails(a: VM.Activation, vm: VM.State, s: State)
    requires WellFormed(a.fn) && Flow(a.fn.code).Some? && Related(a, vm, s)
    requires a.fn.code[vm.ip] == B.Bin(And) || a.fn.code[vm.ip] == B.Bin(Or)
    requires |vm.stack| > 1 && !vm.stack[|vm.stack| - 1].BoolV?
    ensures Run(TempProgram(a), s, 1) == Failed
  {
    AtPoint(a, vm, s);
    hide *;
    LazyIns(TempProgram(a), a, a.fn.code[vm.ip].bop, TranslateAll(a.fn.code[..vm.ip], a.fn.consts), vm, s);
  }

  /** How the strict run of a run that ends well goes: as long as the VM's, or up to a lazy operator. */
  lemma {:induction false} StrictOrLazy(a: VM.Activation, vm: VM.State, n: nat) returns (k: nat)
    requires a.strict && VM.Run(a.(strict := false), vm, n).Done?
    ensures k < n && VM.Run(a, vm, k).Running?
    ensures var o := VM.Step(a, VM.Run(a, vm, k).state);
            && o == VM.Run(a, vm, n)
            && if o.Thrown? then !VM.Step(a.(strict := false), VM.Run(a, vm, k).state).Thrown?
               else o == VM.Run(a.(strict := false), vm, n)
    decreases n
  {
    hide VM.Step;
    var lax := a.(strict := false);
    assert lax.(strict := true) == a;
    k := 0;
    assert VM.Run(a, vm, 0) == VM.Running(vm);
    if !VM.Step(a, vm).Thrown? {
      VM.StrictStep(lax, vm);
      if VM.Step(a, vm).Running? {
        k := StrictOrLazy(a, VM.Step(a, vm).state, n - 1);
        k := k + 1;
      }
    }
  }

  /**
    On every VM run that reaches a return without an exception, the IR gives the same
    result, locals and world; except that it fails where And or Or see a second operand
    that is no boolean, which is exactly where the strict machine throws.
   */
  lemma RunExact(a: VM.Activation, vm: VM.State, s: State, n: nat) returns (m: nat)
    requires WellFormed(a.fn) && Flow(a.fn.code).Some? && Related(a, vm, s) && a.strict
    requires VM.Run(a.(strict := false), vm, n).Done?
    ensures var o := VM.Run(a.(strict := false), vm, n);
            Run(TempProgram(a), s, m) == if VM.Run(a, vm, n).Thrown? then Failed else Done(o.result, o.locals, o.world)
  {
    hide *;
    var k := StrictOrLazy(a, vm, n);
    var vm1 := VM.Run(a, vm, k).state;
    var m1, s1 := RunSim(a, vm, s, k);
    if VM.Run(a, vm, n).Thrown? {
      InsideCode(a, vm1, s1);
      assert a.(strict := false).(strict := true) == a;
      LazyOperator(a.(strict := false), vm1);
      LazyFails(a, vm1, s1);
    } else {
      ReturnSim(a, vm1, s1);
    }
    JoinRuns(TempProgram(a), s, m1, s1, 1);
    m := m1 + 1;
  }

  lemma InsideCode(a: VM.Activation, vm: VM.State, s: State)
    requires Flow(a.fn.code).Some? && Related(a, vm, s)
    ensures vm.ip < |a.fn.code|
  {
    hide Flow, TranslateAll;
  }

  // ----- from the source -----

  lemma CompiledWellFormed(params: seq<string>, body: Node, s: Scope)
    requires Ok(s) && Is(BlockSort, body)
    ensures WellFormed(CompileFunction(params, body, s)) && Flow(CompileFunction(params, body, s).code).Some?
  {
    hide *;
    FunctionGood(params, body, s);
    var fn := CompileFunction(params, body, s);
    GoodFlow(fn);
    CompileIsLeave(params, body, s);
    LeaveFormed(Transpile(body, false, Enter(params, body, s)));
    Formed(fn);
  }

  lemma Formed(fn: B.Fn)
    requires Good(fn) && |fn.code| > 0 && fn.code[|fn.code| - 1].Return?
    requires forall p, l :: 0 <= p < |fn.code| && fn.code[p] == B.Label(l) ==> l in fn.labels && fn.labels[l] == p
    ensures WellFormed(fn)
  {
    hide Good;
  }

  lemma CompileIsLeave(params: seq<string>, body: Node, s: Scope)
    requires Ok(s)
    ensures CompileFunction(params, body, s) == Leave(Transpile(body, false, Enter(params, body, s))).fn
  {
    hide Ok, Grows, Transpile, Enter, Leave;
  }

  /** A function's code ends in a return, and its label table is that of its Label instructions. */
  lemma LeaveFormed(s: Scope)
    requires Ok(s)
    ensures var fn := Leave(s).fn;
            && |fn.code| > 0 && fn.code[|fn.code| - 1].Return?
            && forall p, l :: 0 <= p < |fn.code| && fn.code[p] == B.Label(l) ==> l in fn.labels && fn.labels[l] == p
  {
    hide Grows, LoadConstant;
  }

  /** The two programs start at related states. */
  lemma StartRelated(a: VM.Activation, locals: seq<Value>, w: World)
    requires WellFormed(a.fn) && Flow(a.fn.code).Some?
    ensures Related(a, VM.State(0, [], locals, w), State(0, map[], Rest(NoneV, locals, w)))
  {
    hide Good;
    assert a.fn.code[..0] == [];
  }

  /** For compiled functions: the IR run from the entry, on any locals, world and cells. */
  lemma CompiledIrExact(x: Externals, self: FnPath, refs: seq<nat>, params: seq<string>, body: Node, s: Scope,
                        locals: seq<Value>, w: World, n: nat) returns (m: nat)
    requires Ok(s) && Is(BlockSort, body)
    requires var a := VM.Activation(x, CompileFunction(params, body, s), self, refs, false);
             VM.Run(a, VM.State(0, [], locals, w), n).Done?
    ensures var a := VM.Activation(x, CompileFunction(params, body, s), self, refs, true);
            var vm := VM.State(0, [], locals, w);
            var o := VM.Run(a.(strict := false), vm, n);
            && Flow(a.fn.code).Some?
            && Run(TempProgram(a), State(0, map[], Rest(NoneV, locals, w)), m)
               == if VM.Run(a, vm, n).Thrown? then Failed else Done(o.result, o.locals, o.world)
  {
    var a := VM.Activation(x, CompileFunction(params, body, s), self, refs, true);
    assert a.(strict := false) == VM.Activation(x, CompileFunction(params, body, s), self, refs, false);
    hide VM.Run, Run, Flow, WellFormed, CompileFunction, TempProgram;
    CompiledWellFormed(params, body, s);
    StartRelated(a, locals, w);
    m := RunExact(a, VM.State(0, [], locals, w), State(0, map[], Rest(NoneV, locals, w)), n);
  }

  /** Source to IR: a body that evaluates without an exception gives its value in the IR. */
  lemma SourceToIr(x: Externals, self: FnPath, params: seq<string>, body: Node, s: Scope,
                   f: Walker.Frame, refs: seq<nat>, locals: seq<Value>, w: World, fuel: nat)
      returns (m: nat, locals': seq<Value>)
    requires Ok(s) && Is(BlockSort, body) && EmittedCode.Resolved(CompileFunction(params, body, s).code)
    requires Matches(f, TablesOf(Enter(params, body, s)), refs, locals) && f.self == self
    requires Walker.RunBody(x, f, w, body, fuel).Returned?
    ensures var r := Walker.RunBody(x, f, w, body, fuel);
            var a := VM.Activation(x, CompileFunction(params, body, s), self, refs, true);
            && Flow(a.fn.code).Some?
            && Run(TempProgram(a), State(0, map[], Rest(NoneV, locals, w)), m) == Done(r.value, locals', r.world)
            && Matches(r.frame, TablesOf(Enter(params, body, s)), refs, locals')
  {
    hide VM.Run, Run, Flow, WellFormed, CompileFunction, TempProgram, Matches, Walker.RunBody, Enter, Ok;
    var a := VM.Activation(x, CompileFunction(params, body, s), self, refs, true);
    var st := VM.State(0, [], locals, w);
    var k;
    k, locals' := StatementCorrectness.FunctionOk(x, self, params, body, s, f, refs, locals, w, fuel, true);
    VM.StrictRun(a, st, k);
    m := CompiledIrExact(x, self, refs, params, body, s, locals, w, k);
  }

  /** `return false & 1`: the VM returns false, the IR fails its second assert. */
  lemma LazyAndDiffers(x: Externals, self: FnPath, refs: seq<nat>, w: World)
    ensures var code := [B.LoadConst(0), B.LoadConst(1), B.Bin(And), B.Return];
            var fn := B.Fn(code, [ConstBool(false), ConstInt(1)], [], map[], [], [], [], [], 0, []);
            var a := VM.Activation(x, fn, self, refs, false);
            && WellFormed(fn) && Flow(fn.code).Some?
            && VM.Run(a, VM.State(0, [], [], w), 4) == VM.Done(BoolV(false), [], w)
            && exists m :: Run(TempProgram(a.(strict := true)), State(0, map[], Rest(NoneV, [], w)), m) == Failed
  {
    var code := [B.LoadConst(0), B.LoadConst(1), B.Bin(And), B.Return];
    var fn := B.Fn(code, [ConstBool(false), ConstInt(1)], [], map[], [], [], [], [], 0, []);
    var a := VM.Activation(x, fn, self, refs, true);
    LazyAndFlow(code);
    LazyAndRuns(a, fn, w);
    LazyAndFormed(fn);
    hide VM.Run, Run, Flow, TempProgram, WellFormed;
    StartRelated(a, [], w);
    assert a.(strict := false) == VM.Activation(x, fn, self, refs, false);
    var m := RunExact(a, VM.State(0, [], [], w), State(0, map[], Rest(NoneV, [], w)), 4);
  }

  lemma FlowAppend(code: seq<B.Instr>, i: B.Instr)
    requires Flow(code).Some?
    ensures Flow(code + [i]) == SD.Effect(i, Flow(code).value)
  {
    hide Flow, SD.Effect;
    assert (code + [i])[..|code|] == code;
    FlowStep(code + [i]);
  }

  lemma LazyAndFlow(code: seq<B.Instr>)
    requires code == [B.LoadConst(0), B.LoadConst(1), B.Bin(And), B.Return]
    ensures Flow(code) == Some(0)
  {
    hide Flow, SD.Effect;
    FlowEmpty();
    LoadEffect(0, 0);
    LoadEffect(1, 1);
    AndEffect();
    ReturnEffect();
    LazyAndCode(code);
    var none: seq<B.Instr> := [];
    FlowAppend(none, B.LoadConst(0));
    FlowAppend(none + [B.LoadConst(0)], B.LoadConst(1));
    FlowAppend((none + [B.LoadConst(0)]) + [B.LoadConst(1)], B.Bin(And));
    FlowAppend(((none + [B.LoadConst(0)]) + [B.LoadConst(1)]) + [B.Bin(And)], B.Return);
  }

  lemma LoadEffect(k: nat, d: nat)
    ensures SD.Effect(B.LoadConst(k), d) == Some(d + 1)
  {
  }

  lemma AndEffect()
    ensures SD.Effect(B.Bin(And), 2) == Some(1)
  {
  }

  lemma ReturnEffect()
    ensures SD.Effect(B.Return, 1) == Some(0)
  {
  }

  lemma LazyAndCode(code: seq<B.Instr>)
    requires code == [B.LoadConst(0), B.LoadConst(1), B.Bin(And), B.Return]
    ensures var none: seq<B.Instr> := []; code == (((none + [B.LoadConst(0)]) + [B.LoadConst(1)]) + [B.Bin(And)]) + [B.Return]
  {
  }

  lemma FlowEmpty()
    ensures Flow([]) == Some(0)
  {
  }

  lemma FlowStep(code: seq<B.Instr>)
    requires code != [] && Flow(code[..|code| - 1]).Some?
    ensures Flow(code) == SD.Effect(code[|code| - 1], Flow(code[..|code| - 1]).value)
  {
    hide SD.Effect;
  }

  lemma LazyAndFormed(fn: B.Fn)
    requires fn.code == [B.LoadConst(0), B.LoadConst(1), B.Bin(And), B.Return] && fn.labels == map[] && fn.funcs == []
    ensures WellFormed(fn)
  {
    LazyAndFlow(fn.code);
    hide Flow;
  }

  lemma LazyAndRuns(a: VM.Activation, fn: B.Fn, w: World)
    requires fn.code == [B.LoadConst(0), B.LoadConst(1), B.Bin(And), B.Return] && fn.consts == [ConstBool(false), ConstInt(1)]
    requires a.fn == fn && a.strict
    ensures VM.Run(a.(strict := false), VM.State(0, [], [], w), 4) == VM.Done(BoolV(false), [], w)
    ensures VM.Run(a, VM.State(0, [], [], w), 4).Thrown?
  {
    var lax := a.(strict := false);
    var s1 := VM.State(1, [BoolV(false)], [], w);
    var s2 := VM.State(2, [BoolV(false), IntV(1)], [], w);
    var s3 := VM.State(3, [BoolV(false)], [], w);
    assert VM.Step(a, VM.State(0, [], [], w)) == VM.Running(s1) && VM.Step(a, s1) == VM.Running(s2) && VM.Step(a, s2).Thrown?;
    assert VM.Step(lax, VM.State(0, [], [], w)) == VM.Running(s1) && VM.Step(lax, s1) == VM.Running(s2);
    assert VM.Step(lax, s2) == VM.Running(s3) && VM.Step(lax, s3) == VM.Done(BoolV(false), [], w);
    assert VM.Run(lax, s3, 1) == VM.Done(BoolV(false), [], w);
    assert VM.Run(lax, s2, 2) == VM.Run(lax, s3, 1) && VM.Run(lax, s1, 3) == VM.Run(lax, s2, 2);
    assert VM.Run(a, s2, 2).Thrown? && VM.Run(a, s1, 3).Thrown?;
  }
}
