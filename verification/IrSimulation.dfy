/**
  The IR simulates the bytecode: the machine's operand stack is always the values of the
  temps on the compile-time stack, and each step of the strict machine is the run of the
  block it was compiled to.
 */
module IrSimulation {
  import opened Runtime
  import opened Ir
  import opened IrCompiler
  import opened StackDiscipline
  import B = Bytecode
  import VM = VirtualMachine

  /** The IR of a function, every temp in its own slot. */
  function TempProgram(a: VM.Activation): Program
    requires Flow(a.fn.code).Some?
  {
    Program(TranslateAll(a.fn.code, a.fn.consts).code, (t: nat) => Slot(t), Context(a.x, a.fn, a.self, a.refs))
  }

  /** The values of the temps on the compile-time stack are the operand stack. */
  ghost predicate Mirrors(operands: seq<nat>, temps: map<Place, Value>, stack: seq<Value>) {
    && |operands| == |stack|
    && forall j :: 0 <= j < |stack| ==> Slot(operands[j]) in temps && temps[Slot(operands[j])] == stack[j]
  }

  /** The same point of the two programs, with the same frame and world. */
  ghost predicate Related(a: VM.Activation, vm: VM.State, s: State)
    requires Flow(a.fn.code).Some?
  {
    && vm.ip < |a.fn.code| && Flow(a.fn.code[..vm.ip]).Some?
    && var t := TranslateAll(a.fn.code[..vm.ip], a.fn.consts);
    && s.pc == |t.code| && Mirrors(t.operands, s.temps, vm.stack)
    && s.rest.locals == vm.locals && s.rest.world == vm.world
  }

  // ----- single instructions of the IR -----

  /** The machine is at instruction `i` of a program that keeps temps in slots. */
  ghost predicate AtIns(p: Program, s: State, i: Ins) {
    OwnSlots(p) && s.pc < |p.code| && p.code[s.pc] == i
  }

  lemma RunOne(p: Program, s: State, t: State)
    requires Step(p, s) == Running(t)
    ensures Run(p, s, 1) == Running(t)
  {
    assert Run(p, t, 0) == Running(t);
    hide Step;
  }

  lemma JoinRuns(p: Program, s: State, n: nat, t: State, m: nat)
    requires Run(p, s, n) == Running(t)
    ensures Run(p, s, n + m) == Run(p, t, m)
  {
    RunCompose(p, s, n, m);
  }

  lemma AssertPasses(p: Program, s: State, kind: AssertKind, t: nat)
    requires AtIns(p, s, AssertIns(kind, t)) && Slot(t) in s.temps && Holds(kind, s.temps[Slot(t)])
    ensures Run(p, s, 1) == Running(s.(pc := s.pc + 1))
  {
    RunOne(p, s, s.(pc := s.pc + 1));
  }

  lemma AssertFails(p: Program, s: State, kind: AssertKind, t: nat, n: nat)
    requires AtIns(p, s, AssertIns(kind, t)) && Slot(t) in s.temps && !Holds(kind, s.temps[Slot(t)]) && n > 0
    ensures Run(p, s, n) == Failed
  {
  }

  /** An instruction that defines one temp. */
  lemma DefineOne(p: Program, s: State, i: Ins, vals: seq<Value>, d: nat, v: Value, r: Rest)
    requires AtIns(p, s, i) && Defs(i) == [d] && CanRead(p, s, Uses(i)) && Values(p, s, Uses(i)) == vals
    requires Perform(p.c, i, vals, s.rest) == Go([v], r)
    ensures Run(p, s, 1) == Running(State(s.pc + 1, s.temps[Slot(d) := v], r))
  {
    hide Perform;
    RunOne(p, s, State(s.pc + 1, s.temps[Slot(d) := v], r));
  }

  /** An instruction that defines no temp. */
  lemma DefineNone(p: Program, s: State, i: Ins, vals: seq<Value>, r: Rest)
    requires AtIns(p, s, i) && Defs(i) == [] && CanRead(p, s, Uses(i)) && Values(p, s, Uses(i)) == vals
    requires Perform(p.c, i, vals, s.rest) == Go([], r)
    ensures Run(p, s, 1) == Running(State(s.pc + 1, s.temps, r))
  {
    hide Perform;
    RunOne(p, s, State(s.pc + 1, s.temps, r));
  }

  /** A helper call, and the assignment of the return register after it. */
  lemma CallThenAssign(p: Program, s: State, i: Ins, vals: seq<Value>, d: nat, r: Rest)
    requires AtIns(p, s, i) && Defs(i) == [] && CanRead(p, s, Uses(i)) && Values(p, s, Uses(i)) == vals
    requires Perform(p.c, i, vals, s.rest) == Go([], r)
    requires s.pc + 1 < |p.code| && p.code[s.pc + 1] == Assign(d, RetSrc)
    ensures Run(p, s, 2) == Running(State(s.pc + 2, s.temps[Slot(d) := r.ret], r))
  {
    DefineNone(p, s, i, vals, r);
    var s1 := State(s.pc + 1, s.temps, r);
    DefineOne(p, s1, Assign(d, RetSrc), [], d, r.ret, r);
    JoinRuns(p, s, 1, s1, 1);
  }

  // ----- what one bytecode leaves -----

  lemma MirrorsPush(t: IrState, temps: map<Place, Value>, stack: seq<Value>, pops: nat, v: Value)
    requires OperandsOk(t) && Mirrors(t.operands, temps, stack) && pops <= |stack|
    ensures Mirrors(t.operands[..|stack| - pops] + [t.temps], temps[Slot(t.temps) := v], stack[..|stack| - pops] + [v])
  {
  }

  lemma MirrorsPop(t: IrState, temps: map<Place, Value>, stack: seq<Value>, pops: nat)
    requires Mirrors(t.operands, temps, stack) && pops <= |stack|
    ensures Mirrors(t.operands[..|stack| - pops], temps, stack[..|stack| - pops])
  {
  }

  /** `t` has been translated up to here, and the block of `i` lies at the machine's position. */
  ghost predicate AtBlock(p: Program, a: VM.Activation, i: B.Instr, t: IrState, vm: VM.State, s: State) {
    && OwnSlots(p) && p.c == Context(a.x, a.fn, a.self, a.refs)
    && OperandsOk(t) && Mirrors(t.operands, s.temps, vm.stack) && |t.operands| == |vm.stack|
    && s.rest.locals == vm.locals && s.rest.world == vm.world
    && VM.Pops(i) <= |vm.stack|
    && var b := Block(i, a.fn.consts, t);
       s.pc + |b| <= |p.code| && forall j :: 0 <= j < |b| ==> p.code[s.pc + j] == b[j]
  }

  /** The block ran to its end and the relation holds again. */
  ghost predicate Leaves(p: Program, a: VM.Activation, i: B.Instr, t: IrState, vm1: VM.State, s: State, n: nat, s1: State)
    requires VM.Pops(i) <= |t.operands|
  {
    && Run(p, s, n) == Running(s1) && s1.pc == s.pc + |Block(i, a.fn.consts, t)|
    && Mirrors(Translate(i, a.fn.consts, t).operands, s1.temps, vm1.stack)
    && s1.rest.locals == vm1.locals && s1.rest.world == vm1.world
  }

  lemma LeavesPush(p: Program, a: VM.Activation, i: B.Instr, t: IrState, vm: VM.State, s: State, vm1: VM.State, n: nat, s1: State, v: Value)
    requires AtBlock(p, a, i, t, vm, s) && Pushes(i) == 1
    requires Run(p, s, n) == Running(s1) && s1.pc == s.pc + |Block(i, a.fn.consts, t)|
    requires s1.temps == s.temps[Slot(t.temps) := v] && vm1.stack == vm.stack[..|vm.stack| - VM.Pops(i)] + [v]
    requires s1.rest.locals == vm1.locals && s1.rest.world == vm1.world
    ensures Leaves(p, a, i, t, vm1, s, n, s1)
  {
    hide Block, Run, OwnSlots;
    MirrorsPush(t, s.temps, vm.stack, VM.Pops(i), v);
    assert [t.temps, t.temps + 1][..1] == [t.temps];
  }

  lemma LeavesPop(p: Program, a: VM.Activation, i: B.Instr, t: IrState, vm: VM.State, s: State, vm1: VM.State, n: nat, s1: State)
    requires AtBlock(p, a, i, t, vm, s) && Pushes(i) == 0
    requires Run(p, s, n) == Running(s1) && s1.pc == s.pc + |Block(i, a.fn.consts, t)|
    requires s1.temps == s.temps && vm1.stack == vm.stack[..|vm.stack| - VM.Pops(i)]
    requires s1.rest.locals == vm1.locals && s1.rest.world == vm1.world
    ensures Leaves(p, a, i, t, vm1, s, n, s1)
  {
    hide Block, Run, OwnSlots;
    MirrorsPop(t, s.temps, vm.stack, VM.Pops(i));
    assert t.operands[..|vm.stack| - VM.Pops(i)] + [t.temps, t.temps + 1][..0] == t.operands[..|vm.stack| - VM.Pops(i)];
  }

  /** Bytecodes that assign one source to the next temp. */
  predicate IsLoad(i: B.Instr) {
    i.LoadConst? || i.LoadFunc? || i.LoadLocal? || i.LoadGlobal? || i.PushReference? || i.LoadReference?
  }

  lemma LoadBlock(p: Program, a: VM.Activation, i: B.Instr, t: IrState, vm: VM.State, s: State) returns (n: nat, s1: State)
    requires AtBlock(p, a, i, t, vm, s) && IsLoad(i) && VM.Execute(a, i, vm).Running?
    ensures Leaves(p, a, i, t, VM.Execute(a, i, vm).state, s, n, s1)
  {
    hide OwnSlots, Mirrors, OperandsOk, Translate, Leaves, Run;
    var vm1 := VM.Execute(a, i, vm).state;
    var b := Block(i, a.fn.consts, t);
    assert p.code[s.pc + 0] == b[0];
    var v := vm1.stack[|vm.stack|];
    var r := s.rest.(world := vm1.world);
    assert Perform(p.c, b[0], [], s.rest) == Go([v], r);
    DefineOne(p, s, b[0], [], t.temps, v, r);
    n, s1 := 1, State(s.pc + 1, s.temps[Slot(t.temps) := v], r);
    LeavesPush(p, a, i, t, vm, s, vm1, n, s1, v);
  }

  /** The operand `k` below the top holds the stack value `k` below the top. */
  lemma OperandValue(t: IrState, temps: map<Place, Value>, stack: seq<Value>, k: nat)
    requires Mirrors(t.operands, temps, stack) && k < |stack|
    ensures Slot(Operand(t, k)) in temps && temps[Slot(Operand(t, k))] == stack[|stack| - 1 - k]
  {
  }

  lemma SliceValues(t: IrState, temps: map<Place, Value>, stack: seq<Value>, from: nat, to: nat)
    requires Mirrors(t.operands, temps, stack) && from <= to <= |stack|
    ensures |t.operands| == |stack|
    ensures forall j :: 0 <= j < to - from ==>
              Slot(t.operands[from..to][j]) in temps && temps[Slot(t.operands[from..to][j])] == stack[from..to][j]
  {
  }

  lemma ReadOne(p: Program, s: State, t: nat)
    requires OwnSlots(p) && Slot(t) in s.temps
    ensures CanRead(p, s, [t]) && Values(p, s, [t]) == [s.temps[Slot(t)]]
  {
  }

  lemma ReadTwo(p: Program, s: State, t: nat, u: nat)
    requires OwnSlots(p) && Slot(t) in s.temps && Slot(u) in s.temps
    ensures CanRead(p, s, [t, u]) && Values(p, s, [t, u]) == [s.temps[Slot(t)], s.temps[Slot(u)]]
  {
  }

  lemma ReadThree(p: Program, s: State, t: nat, u: nat, v: nat)
    requires OwnSlots(p) && Slot(t) in s.temps && Slot(u) in s.temps && Slot(v) in s.temps
    ensures CanRead(p, s, [t, u, v])
    ensures Values(p, s, [t, u, v]) == [s.temps[Slot(t)], s.temps[Slot(u)], s.temps[Slot(v)]]
  {
  }

  predicate IsStore(i: B.Instr) { i.StoreLocal? || i.StoreGlobal? || i.StoreReference? }

  lemma StoreBlock(p: Program, a: VM.Activation, i: B.Instr, t: IrState, vm: VM.State, s: State) returns (n: nat, s1: State)
    requires AtBlock(p, a, i, t, vm, s) && IsStore(i) && VM.Execute(a, i, vm).Running?
    ensures Leaves(p, a, i, t, VM.Execute(a, i, vm).state, s, n, s1)
  {
    hide OwnSlots, Mirrors, OperandsOk, Translate, Leaves, Run;
    var vm1 := VM.Execute(a, i, vm).state;
    var b := Block(i, a.fn.consts, t);
    assert p.code[s.pc + 0] == b[0];
    OperandValue(t, s.temps, vm.stack, 0);
    ReadOne(p, s, Operand(t, 0));
    var v := vm.stack[|vm.stack| - 1];
    var r := s.rest.(locals := vm1.locals, world := vm1.world);
    assert Perform(p.c, b[0], [v], s.rest) == Go([], r);
    DefineNone(p, s, b[0], [v], r);
    n, s1 := 1, State(s.pc + 1, s.temps, r);
    assert vm.stack[..|vm.stack| - 1] + [] == vm.stack[..|vm.stack| - 1];
    LeavesPop(p, a, i, t, vm, s, vm1, n, s1);
  }

  predicate IsHelper(i: B.Instr) {
    i.AllocRecord? || i.FieldLoad? || i.FieldStore? || i.IndexLoad? || i.IndexStore? || i.GarbageCollect?
  }

  /** The operands of a helper call, deepest first. */
  function HelperOperands(t: IrState, pops: nat): seq<nat>
    requires pops <= |t.operands| && pops <= 3
  {
    if pops == 0 then []
    else if pops == 1 then [Operand(t, 0)]
    else if pops == 2 then [Operand(t, 1), Operand(t, 0)]
    else [Operand(t, 2), Operand(t, 1), Operand(t, 0)]
  }

  lemma HelperUses(i: B.Instr, consts: seq<Constant>, t: IrState)
    requires IsHelper(i) && VM.Pops(i) <= |t.operands|
    ensures VM.Pops(i) <= 3 && |Block(i, consts, t)| > 0
    ensures Uses(Block(i, consts, t)[0]) == HelperOperands(t, VM.Pops(i)) && Defs(Block(i, consts, t)[0]) == []
    ensures var b := Block(i, consts, t); if Pushes(i) == 1 then |b| == 2 && b[1] == Assign(t.temps, RetSrc) else Pushes(i) == 0 && |b| == 1
  {
    hide Operand;
  }

  lemma OperandsRead(p: Program, t: IrState, s: State, stack: seq<Value>, pops: nat)
    requires OwnSlots(p) && Mirrors(t.operands, s.temps, stack) && pops <= |stack| == |t.operands| && pops <= 3
    ensures var ts := HelperOperands(t, pops);
            |ts| == pops && CanRead(p, s, ts) && Values(p, s, ts) == stack[|stack| - pops..]
  {
    if pops > 0 { OperandValue(t, s.temps, stack, 0); }
    if pops > 1 { OperandValue(t, s.temps, stack, 1); }
    if pops > 2 { OperandValue(t, s.temps, stack, 2); }
    hide OwnSlots, Mirrors, Operand, CanRead, Values;
    if pops == 0 { ReadNone(p, s); }
    if pops == 1 { ReadOne(p, s, Operand(t, 0)); }
    if pops == 2 { ReadTwo(p, s, Operand(t, 1), Operand(t, 0)); }
    if pops == 3 { ReadThree(p, s, Operand(t, 2), Operand(t, 1), Operand(t, 0)); }
  }

  lemma ReadNone(p: Program, s: State)
    ensures CanRead(p, s, []) && Values(p, s, []) == []
  {
  }

  /** What the helper call of a bytecode reads. */
  lemma HelperReads(p: Program, a: VM.Activation, i: B.Instr, t: IrState, vm: VM.State, s: State) returns (vals: seq<Value>)
    requires AtBlock(p, a, i, t, vm, s) && IsHelper(i)
    ensures |Block(i, a.fn.consts, t)| > 0
    ensures var b := Block(i, a.fn.consts, t)[0];
            |vals| == |Uses(b)| == VM.Pops(i) && CanRead(p, s, Uses(b)) && Values(p, s, Uses(b)) == vals
    ensures vals == vm.stack[|vm.stack| - VM.Pops(i)..]
  {
    hide OwnSlots, OperandsOk, Mirrors, Block, Uses, CanRead, Values;
    HelperUses(i, a.fn.consts, t);
    OperandsRead(p, t, s, vm.stack, VM.Pops(i));
    vals := vm.stack[|vm.stack| - VM.Pops(i)..];
  }

  /** The helper does what the bytecode does, and leaves a pushed value in the return register. */
  ghost predicate HelperOk(a: VM.Activation, c: Context, i: B.Instr, b: Ins, vm: VM.State, rest: Rest, r: Rest)
    requires VM.Pops(i) <= |vm.stack|
  {
    var vals := vm.stack[|vm.stack| - VM.Pops(i)..];
    VM.Execute(a, i, vm).Running? ==>
      var vm1 := VM.Execute(a, i, vm).state;
      && |Uses(b)| == |vals| && Perform(c, b, vals, rest) == Go([], r)
      && vm1.stack == vm.stack[..|vm.stack| - VM.Pops(i)] + (if Pushes(i) == 1 then [r.ret] else [])
      && r.locals == vm1.locals && r.world == vm1.world
  }

  lemma AllocAgrees(a: VM.Activation, c: Context, i: B.Instr, t: IrState, vm: VM.State, rest: Rest) returns (r: Rest)
    requires (i.AllocRecord? || i.GarbageCollect?) && rest.locals == vm.locals && rest.world == vm.world
    ensures HelperOk(a, c, i, Block(i, a.fn.consts, t)[0], vm, rest, r)
  {
    hide RecordGet, RecordInsert, Text, CellAddrs, Arith, VM.Operate, Unary, CellRead, CellWrite, VM.PopCells, ReadGlobal;
    var vm1 := VM.Execute(a, i, vm).state;
    r := rest.(world := vm1.world, ret := if Pushes(i) == 1 then vm1.stack[|vm1.stack| - 1] else rest.ret);
  }

  lemma FieldAgrees(a: VM.Activation, c: Context, i: B.Instr, t: IrState, vm: VM.State, rest: Rest) returns (r: Rest)
    requires c == Context(a.x, a.fn, a.self, a.refs) && (i.FieldLoad? || i.FieldStore?) && VM.Pops(i) <= |vm.stack| == |t.operands|
    requires rest.locals == vm.locals && rest.world == vm.world
    ensures HelperOk(a, c, i, Block(i, a.fn.consts, t)[0], vm, rest, r)
  {
    hide RecordGet, RecordInsert;
    r := rest;
    if VM.Execute(a, i, vm).Running? {
      var vm1 := VM.Execute(a, i, vm).state;
      r := rest.(world := vm1.world, ret := if Pushes(i) == 1 then vm1.stack[|vm1.stack| - 1] else rest.ret);
    }
  }

  lemma IndexAgrees(a: VM.Activation, c: Context, i: B.Instr, t: IrState, vm: VM.State, rest: Rest) returns (r: Rest)
    requires c == Context(a.x, a.fn, a.self, a.refs) && (i.IndexLoad? || i.IndexStore?) && VM.Pops(i) <= |vm.stack| == |t.operands|
    requires rest.locals == vm.locals && rest.world == vm.world
    ensures HelperOk(a, c, i, Block(i, a.fn.consts, t)[0], vm, rest, r)
  {
    hide RecordGet, RecordInsert, Text;
    r := rest;
    if VM.Execute(a, i, vm).Running? {
      var vm1 := VM.Execute(a, i, vm).state;
      r := rest.(world := vm1.world, ret := if Pushes(i) == 1 then vm1.stack[|vm1.stack| - 1] else rest.ret);
    }
  }

  lemma HelperAgrees(a: VM.Activation, c: Context, i: B.Instr, t: IrState, vm: VM.State, rest: Rest) returns (r: Rest)
    requires c == Context(a.x, a.fn, a.self, a.refs) && IsHelper(i) && VM.Pops(i) <= |vm.stack| == |t.operands|
    requires rest.locals == vm.locals && rest.world == vm.world
    ensures |Block(i, a.fn.consts, t)| > 0 && HelperOk(a, c, i, Block(i, a.fn.consts, t)[0], vm, rest, r)
  {
    hide Block, HelperOk;
    HelperUses(i, a.fn.consts, t);
    if i.AllocRecord? || i.GarbageCollect? {
      r := AllocAgrees(a, c, i, t, vm, rest);
    } else if i.FieldLoad? || i.FieldStore? {
      r := FieldAgrees(a, c, i, t, vm, rest);
    } else {
      r := IndexAgrees(a, c, i, t, vm, rest);
    }
  }

  /** Records and the collector: one helper call, and where it returns a value an assignment. */
  lemma HelperBlock(p: Program, a: VM.Activation, i: B.Instr, t: IrState, vm: VM.State, s: State) returns (n: nat, s1: State)
    requires AtBlock(p, a, i, t, vm, s) && IsHelper(i) && VM.Execute(a, i, vm).Running?
    ensures Leaves(p, a, i, t, VM.Execute(a, i, vm).state, s, n, s1)
  {
    hide OwnSlots, Mirrors, OperandsOk, Translate, Leaves, Run, Step, VM.Execute, Perform, Block, Uses, Defs;
    var vm1 := VM.Execute(a, i, vm).state;
    var b := Block(i, a.fn.consts, t);
    HelperUses(i, a.fn.consts, t);
    assert p.code[s.pc + 0] == b[0];
    var vals := HelperReads(p, a, i, t, vm, s);
    var r := HelperAgrees(a, p.c, i, t, vm, s.rest);
    if Pushes(i) == 1 {
      assert p.code[s.pc + 1] == b[1];
      CallThenAssign(p, s, b[0], vals, t.temps, r);
      n, s1 := 2, State(s.pc + 2, s.temps[Slot(t.temps) := r.ret], r);
      LeavesPush(p, a, i, t, vm, s, vm1, n, s1, r.ret);
    } else {
      DefineNone(p, s, b[0], vals, r);
      n, s1 := 1, State(s.pc + 1, s.temps, r);
      LeavesPop(p, a, i, t, vm, s, vm1, n, s1);
    }
  }

  // ----- calls and closures -----

  lemma ReadMany(p: Program, s: State, top: nat, ts: seq<nat>, v: Value, vs: seq<Value>)
    requires OwnSlots(p) && Slot(top) in s.temps && s.temps[Slot(top)] == v && |vs| == |ts|
    requires forall j :: 0 <= j < |ts| ==> Slot(ts[j]) in s.temps && s.temps[Slot(ts[j])] == vs[j]
    ensures CanRead(p, s, [top] + ts) && Values(p, s, [top] + ts) == [v] + vs
  {
  }

  function ReverseValues(v: seq<Value>): (r: seq<Value>)
    ensures |r| == |v| && forall j :: 0 <= j < |v| ==> r[j] == v[|v| - 1 - j]
  {
    if v == [] then [] else ReverseValues(v[1..]) + [v[0]]
  }

  /** The machine pops cells from the top down; the IR lists them in that order. */
  lemma {:induction false} CellsAgree(w: World, stack: seq<Value>, n: nat)
    requires n <= |stack|
    ensures CellAddrs(w, ReverseValues(stack[|stack| - n..])) == VM.PopCells(w, stack, n)
    decreases n
  {
    var r := ReverseValues(stack[|stack| - n..]);
    if n > 0 {
      var top := stack[|stack| - 1];
      var below := stack[..|stack| - 1];
      CellsAgree(w, below, n - 1);
      var q := ReverseValues(below[|below| - (n - 1)..]);
      assert r == [top] + q;
      assert r[1..] == q;
    }
  }

  /** The operands of a call or of a closure, and what they hold. */
  lemma ArgsRead(p: Program, t: IrState, s: State, stack: seq<Value>, k: nat)
    requires OwnSlots(p) && Mirrors(t.operands, s.temps, stack) && k < |stack| == |t.operands|
    ensures var m := |stack|;
            var ts, vs := t.operands[m - 1 - k..m - 1], stack[m - 1 - k..m - 1];
            && CanRead(p, s, [Operand(t, 0)] + ts) && Values(p, s, [Operand(t, 0)] + ts) == [stack[m - 1]] + vs
            && CanRead(p, s, [Operand(t, 0)] + Reverse(ts)) && Values(p, s, [Operand(t, 0)] + Reverse(ts)) == [stack[m - 1]] + ReverseValues(vs)
  {
    var m := |stack|;
    var ts, vs := t.operands[m - 1 - k..m - 1], stack[m - 1 - k..m - 1];
    OperandValue(t, s.temps, stack, 0);
    SliceValues(t, s.temps, stack, m - 1 - k, m - 1);
    ReversedHold(s.temps, ts, vs);
    hide *;
    ReadMany(p, s, Operand(t, 0), ts, stack[m - 1], vs);
    ReadMany(p, s, Operand(t, 0), Reverse(ts), stack[m - 1], ReverseValues(vs));
  }

  lemma ReversedHold(temps: map<Place, Value>, ts: seq<nat>, vs: seq<Value>)
    requires |ts| == |vs| && forall j :: 0 <= j < |ts| ==> Slot(ts[j]) in temps && temps[Slot(ts[j])] == vs[j]
    ensures |Reverse(ts)| == |ReverseValues(vs)| == |ts|
    ensures forall j :: 0 <= j < |ts| ==> Slot(Reverse(ts)[j]) in temps && temps[Slot(Reverse(ts)[j])] == ReverseValues(vs)[j]
  {
    hide Reverse, ReverseValues;
  }

  /** What a call or a closure instruction reads: the top, then the rest in its own order. */
  lemma CallReads(p: Program, a: VM.Activation, i: B.Instr, t: IrState, vm: VM.State, s: State) returns (args: seq<Value>)
    requires AtBlock(p, a, i, t, vm, s) && (i.Call? || i.AllocClosure?)
    ensures |Block(i, a.fn.consts, t)| == 2
    ensures var b := Block(i, a.fn.consts, t)[0];
            var m := |vm.stack|;
            && args == (if i.Call? then vm.stack[m - 1 - i.count..m - 1] else ReverseValues(vm.stack[m - 1 - i.count..m - 1]))
            && CanRead(p, s, Uses(b)) && Values(p, s, Uses(b)) == [vm.stack[m - 1]] + args
  {
    hide OwnSlots, OperandsOk, Mirrors, Block, Uses, CanRead, Values, Reverse, ReverseValues, Operand;
    CallUses(i, a.fn.consts, t);
    ArgsRead(p, t, s, vm.stack, i.count);
    var m := |vm.stack|;
    var slice := vm.stack[m - 1 - i.count..m - 1];
    args := if i.Call? then slice else ReverseValues(slice);
  }

  lemma CallAgrees(a: VM.Activation, c: Context, i: B.Instr, t: IrState, vm: VM.State, vm1: VM.State, rest: Rest, args: seq<Value>)
    returns (r: Rest)
    requires c == Context(a.x, a.fn, a.self, a.refs) && (i.Call? || i.AllocClosure?) && VM.Pops(i) <= |vm.stack| == |t.operands|
    requires rest.locals == vm.locals && rest.world == vm.world && VM.Execute(a, i, vm) == VM.Running(vm1)
    requires var slice := vm.stack[|vm.stack| - 1 - i.count..|vm.stack| - 1];
             args == if i.Call? then slice else ReverseValues(slice)
    ensures |Block(i, a.fn.consts, t)| == 2 && |Uses(Block(i, a.fn.consts, t)[0])| == 1 + |args|
    ensures Perform(c, Block(i, a.fn.consts, t)[0], [vm.stack[|vm.stack| - 1]] + args, rest) == Go([], r)
    ensures vm1.stack == vm.stack[..|vm.stack| - VM.Pops(i)] + [r.ret]
    ensures r.locals == vm1.locals && r.world == vm1.world
  {
    hide *;
    CallUses(i, a.fn.consts, t);
    CallPops(i);
    var m := |vm.stack|;
    if i.AllocClosure? {
      CellsAgree(vm.world, vm.stack[..m - 1], i.count);
      assert vm.stack[..m - 1][m - 1 - i.count..] == vm.stack[m - 1 - i.count..m - 1];
      r := ClosureAgrees(a, c, i.count, Block(i, a.fn.consts, t)[0], vm, vm1, rest, args);
    } else {
      r := CallResult(a, c, i.count, Block(i, a.fn.consts, t)[0], vm, vm1, rest, args);
    }
  }

  lemma CallPops(i: B.Instr)
    requires i.Call? || i.AllocClosure?
    ensures VM.Pops(i) == 1 + i.count
  {
  }

  lemma CallResult(a: VM.Activation, c: Context, k: nat, i: Ins, vm: VM.State, vm1: VM.State, rest: Rest, args: seq<Value>)
    returns (r: Rest)
    requires c == Context(a.x, a.fn, a.self, a.refs) && rest.locals == vm.locals && rest.world == vm.world && 1 + k <= |vm.stack|
    requires VM.Execute(a, B.Call(k), vm) == VM.Running(vm1) && args == vm.stack[|vm.stack| - 1 - k..|vm.stack| - 1]
    requires i.CallIns? && |Uses(i)| == 1 + |args|
    ensures Perform(c, i, [vm.stack[|vm.stack| - 1]] + args, rest) == Go([], r)
    ensures vm1.stack == vm.stack[..|vm.stack| - 1 - k] + [r.ret]
    ensures r.locals == vm1.locals && r.world == vm1.world
  {
    var m := |vm.stack|;
    assert ([vm.stack[m - 1]] + args)[1..] == args;
    var (v, w) := a.x.call(vm.world, vm.stack[m - 1], args).value;
    r := rest.(ret := v, world := w);
  }

  lemma ClosureAgrees(a: VM.Activation, c: Context, k: nat, i: Ins, vm: VM.State, vm1: VM.State, rest: Rest, args: seq<Value>)
    returns (r: Rest)
    requires rest.locals == vm.locals && rest.world == vm.world && 1 + k <= |vm.stack|
    requires VM.Execute(a, B.AllocClosure(k), vm) == VM.Running(vm1)
    requires i.ClosureIns? && |Uses(i)| == 1 + |args|
    requires CellAddrs(vm.world, args) == VM.PopCells(vm.world, vm.stack[..|vm.stack| - 1], k)
    ensures Perform(c, i, [vm.stack[|vm.stack| - 1]] + args, rest) == Go([], r)
    ensures vm1.stack == vm.stack[..|vm.stack| - 1 - k] + [r.ret]
    ensures r.locals == vm1.locals && r.world == vm1.world
  {
    hide VM.PopCells, CellAddrs;
    var m := |vm.stack|;
    assert ([vm.stack[m - 1]] + args)[1..] == args;
    var f, cells := VM.BareAt(vm.world, vm.stack[m - 1]).value, CellAddrs(vm.world, args).value;
    var (w, addr) := Alloc(vm.world, ClosureObj(f, cells));
    r := rest.(ret := PtrV(addr), world := w);
  }

  lemma CallBlock(p: Program, a: VM.Activation, i: B.Instr, t: IrState, vm: VM.State, s: State) returns (n: nat, s1: State)
    requires AtBlock(p, a, i, t, vm, s) && (i.Call? || i.AllocClosure?) && VM.Execute(a, i, vm).Running?
    ensures Leaves(p, a, i, t, VM.Execute(a, i, vm).state, s, n, s1)
  {
    hide OwnSlots, Mirrors, OperandsOk, Translate, Leaves, Run, Step, VM.Execute, Perform, Block, Uses, Defs;
    var vm1 := VM.Execute(a, i, vm).state;
    var b := Block(i, a.fn.consts, t);
    CallUses(i, a.fn.consts, t);
    assert p.code[s.pc + 0] == b[0] && p.code[s.pc + 1] == b[1];
    var args := CallReads(p, a, i, t, vm, s);
    var r := CallAgrees(a, p.c, i, t, vm, vm1, s.rest, args);
    CallThenAssign(p, s, b[0], [vm.stack[|vm.stack| - 1]] + args, t.temps, r);
    n, s1 := 2, State(s.pc + 2, s.temps[Slot(t.temps) := r.ret], r);
    LeavesPush(p, a, i, t, vm, s, vm1, n, s1, r.ret);
  }

  // ----- stack shuffling -----

  lemma PopBlock(p: Program, a: VM.Activation, i: B.Instr, t: IrState, vm: VM.State, s: State) returns (n: nat, s1: State)
    requires AtBlock(p, a, i, t, vm, s) && (i.Pop? || i.Label?)
    ensures VM.Execute(a, i, vm).Running? && Leaves(p, a, i, t, VM.Execute(a, i, vm).state, s, n, s1)
  {
    hide OwnSlots, Mirrors, OperandsOk, Translate, Leaves;
    var vm1 := VM.Execute(a, i, vm).state;
    var b := Block(i, a.fn.consts, t);
    n, s1 := |b|, s.(pc := s.pc + |b|);
    if i.Label? {
      assert p.code[s.pc + 0] == b[0];
      DefineNone(p, s, b[0], [], s.rest);
    }
    var below := vm.stack[..|vm.stack| - VM.Pops(i)];
    assert below + [] == below;
    LeavesPop(p, a, i, t, vm, s, vm1, n, s1);
  }

  lemma SwapBlock(p: Program, a: VM.Activation, t: IrState, vm: VM.State, s: State)
    requires AtBlock(p, a, B.Swap, t, vm, s)
    ensures VM.Execute(a, B.Swap, vm).Running? && Leaves(p, a, B.Swap, t, VM.Execute(a, B.Swap, vm).state, s, 0, s)
  {
    hide OwnSlots, OperandsOk;
    OperandValue(t, s.temps, vm.stack, 0);
    OperandValue(t, s.temps, vm.stack, 1);
  }

  lemma DupBlock(p: Program, a: VM.Activation, t: IrState, vm: VM.State, s: State) returns (n: nat, s1: State)
    requires AtBlock(p, a, B.Dup, t, vm, s)
    ensures VM.Execute(a, B.Dup, vm).Running? && Leaves(p, a, B.Dup, t, VM.Execute(a, B.Dup, vm).state, s, n, s1)
  {
    var b := Block(B.Dup, a.fn.consts, t);
    var m := |vm.stack|;
    assert p.code[s.pc + 0] == b[0];
    OperandValue(t, s.temps, vm.stack, 0);
    ReadOne(p, s, Operand(t, 0));
    var v := vm.stack[m - 1];
    var temps := s.temps[Slot(t.temps) := v][Slot(t.temps + 1) := v];
    n, s1 := 1, State(s.pc + 1, temps, s.rest);
    RunOne(p, s, s1);
    assert t.operands[..m - 1] + [t.temps, t.temps + 1][..2] == t.operands[..m - 1] + [t.temps, t.temps + 1];
    assert vm.stack[..m] + [v] == vm.stack[..m - 1] + [v, v];
  }

  // ----- operators -----

  /** Where the strict machine computes a value, every assert of the block holds. */
  lemma OperatorAgrees(a: VM.Activation, c: Context, op: BinOp, w: World, l: Value, r: Value)
    requires a.strict && c.x == a.x && VM.Operate(a, w, op, l, r).Some?
    ensures var b := BinaryBlock(op, 0, 1, 2);
            |b| > 0 && b[|b| - 1].BinIns? && forall j :: 0 <= j < |b| - 1 ==> b[j].AssertIns? && Holds(b[j].kind, if b[j].arg == 1 then r else l)
    ensures var b := BinaryBlock(op, 0, 1, 2);
            var last := b[|b| - 1];
            Arith(c, w, last.bop, if last.src1 == 1 then r else l, if last.src2 == 1 then r else l) == VM.Operate(a, w, op, l, r)
  {
  }

  lemma AssertSucceeds(p: Program, s: State, s0: State, n: nat, kind: AssertKind, t: nat)
    requires Run(p, s0, n) == Running(s) && AtIns(p, s, AssertIns(kind, t)) && Slot(t) in s.temps && Holds(kind, s.temps[Slot(t)])
    ensures Run(p, s0, n + 1) == Running(s.(pc := s.pc + 1))
  {
    hide Run, Step;
    AssertPasses(p, s, kind, t);
    JoinRuns(p, s0, n, s, 1);
  }

  lemma BinBlock(p: Program, a: VM.Activation, op: BinOp, t: IrState, vm: VM.State, s: State) returns (n: nat, s1: State)
    requires AtBlock(p, a, B.Bin(op), t, vm, s) && a.strict && VM.Execute(a, B.Bin(op), vm).Running?
    ensures Leaves(p, a, B.Bin(op), t, VM.Execute(a, B.Bin(op), vm).state, s, n, s1)
  {
    hide OwnSlots, Mirrors, OperandsOk, Translate, Leaves, Run, Step, VM.Operate, Arith, Block, BinaryBlock;
    var i := B.Bin(op);
    var m := |vm.stack|;
    var l, r := vm.stack[m - 2], vm.stack[m - 1];
    var arg1, arg2 := Operand(t, 0), Operand(t, 1);
    OperandValue(t, s.temps, vm.stack, 0);
    OperandValue(t, s.temps, vm.stack, 1);
    OperatorAgrees(a, p.c, op, vm.world, l, r);
    var b := BinaryBlock(op, t.temps, arg1, arg2);
    BinaryShape(op, t.temps, arg1, arg2, a.fn.consts, t);
    n := |b| - 1;
    RunAsserts(p, s, op, t.temps, arg1, arg2, l, r);
    var s0 := s.(pc := s.pc + n);
    assert p.code[s.pc + n] == b[n];
    var v := VM.Operate(a, vm.world, op, l, r).value;
    ReadTwo(p, s0, b[n].src1, b[n].src2);
    var vals := [s.temps[Slot(b[n].src1)], s.temps[Slot(b[n].src2)]];
    LastArith(p.c, op, t.temps, arg1, arg2, vm.world, l, r, s.temps);
    assert Arith(p.c, vm.world, b[n].bop, vals[0], vals[1]) == Some(v);
    assert Perform(p.c, b[n], vals, s.rest) == Go([v], s.rest);
    DefineOne(p, s0, b[n], vals, t.temps, v, s.rest);
    JoinRuns(p, s, n, s0, 1);
    n, s1 := n + 1, State(s.pc + |b|, s.temps[Slot(t.temps) := v], s.rest);
    LeavesPush(p, a, i, t, vm, s, VM.Execute(a, i, vm).state, n, s1, v);
  }

  /** An operator's block ends in the operator itself, on the two operands. */
  lemma BinaryShape(op: BinOp, d: nat, arg1: nat, arg2: nat, consts: seq<Constant>, t: IrState)
    requires |t.operands| >= 2 && d == t.temps && arg1 == Operand(t, 0) && arg2 == Operand(t, 1)
    ensures var b := BinaryBlock(op, d, arg1, arg2);
            && b == Block(B.Bin(op), consts, t) && |b| > 0 && b[|b| - 1].BinIns? && b[|b| - 1].dest == d
            && (b[|b| - 1].src1 == arg1 || b[|b| - 1].src1 == arg2) && (b[|b| - 1].src2 == arg1 || b[|b| - 1].src2 == arg2)
  {
  }

  /** The asserts of an operator's block pass. */
  lemma RunAsserts(p: Program, s: State, op: BinOp, t: nat, arg1: nat, arg2: nat, l: Value, r: Value)
    requires OwnSlots(p) && Slot(arg1) in s.temps && s.temps[Slot(arg1)] == r && Slot(arg2) in s.temps && s.temps[Slot(arg2)] == l
    requires var b := BinaryBlock(op, 0, 1, 2);
             forall j :: 0 <= j < |b| - 1 ==> b[j].AssertIns? && Holds(b[j].kind, if b[j].arg == 1 then r else l)
    requires var b := BinaryBlock(op, t, arg1, arg2);
             s.pc + |b| <= |p.code| && forall j :: 0 <= j < |b| ==> p.code[s.pc + j] == b[j]
    ensures var n := |BinaryBlock(op, t, arg1, arg2)| - 1; Run(p, s, n) == Running(s.(pc := s.pc + n))
  {
    hide OwnSlots, Step, Run, Holds;
    var b, c := BinaryBlock(op, t, arg1, arg2), BinaryBlock(op, 0, 1, 2);
    assert Run(p, s, 0) == Running(s) by { RunZero(p, s); }
    if |b| > 1 {
      assert p.code[s.pc + 0] == b[0] && p.code[s.pc + 1] == b[1];
      assert c[0].kind == b[0].kind && c[1].kind == b[1].kind;
      AssertSucceeds(p, s, s, 0, b[0].kind, arg1);
      AssertSucceeds(p, s.(pc := s.pc + 1), s, 1, b[1].kind, arg2);
    }
    if |b| > 3 {
      assert p.code[s.pc + 2] == b[2] && c[2].kind == b[2].kind;
      AssertSucceeds(p, s.(pc := s.pc + 2), s, 2, b[2].kind, arg1);
    }
  }

  lemma RunZero(p: Program, s: State)
    ensures Run(p, s, 0) == Running(s)
  {
    hide Step;
  }

  lemma LastArith(c: Context, op: BinOp, t: nat, arg1: nat, arg2: nat, w: World, l: Value, r: Value, temps: map<Place, Value>)
    requires Slot(arg1) in temps && temps[Slot(arg1)] == r && Slot(arg2) in temps && temps[Slot(arg2)] == l
    ensures var b, k := BinaryBlock(op, t, arg1, arg2), BinaryBlock(op, 0, 1, 2);
            var i, j := b[|b| - 1], k[|k| - 1];
            Arith(c, w, i.bop, temps[Slot(i.src1)], temps[Slot(i.src2)])
            == Arith(c, w, j.bop, if j.src1 == 1 then r else l, if j.src2 == 1 then r else l)
  {
    hide Arith;
  }

  lemma UnBlock(p: Program, a: VM.Activation, op: UnOp, t: IrState, vm: VM.State, s: State) returns (n: nat, s1: State)
    requires AtBlock(p, a, B.Un(op), t, vm, s) && VM.Execute(a, B.Un(op), vm).Running?
    ensures Leaves(p, a, B.Un(op), t, VM.Execute(a, B.Un(op), vm).state, s, n, s1)
  {
    hide OwnSlots, Mirrors, OperandsOk, Translate, Leaves, Run, Step;
    var i := B.Un(op);
    var b := Block(i, a.fn.consts, t);
    assert p.code[s.pc + 0] == b[0] && p.code[s.pc + 1] == b[1];
    OperandValue(t, s.temps, vm.stack, 0);
    var v := Unary(op, vm.stack[|vm.stack| - 1]).value;
    AssertPasses(p, s, b[0].kind, Operand(t, 0));
    var s0 := s.(pc := s.pc + 1);
    ReadOne(p, s0, Operand(t, 0));
    DefineOne(p, s0, b[1], [vm.stack[|vm.stack| - 1]], t.temps, v, s.rest);
    JoinRuns(p, s, 1, s0, 1);
    n, s1 := 2, State(s.pc + 2, s.temps[Slot(t.temps) := v], s.rest);
    LeavesPush(p, a, i, t, vm, s, VM.Execute(a, i, vm).state, n, s1, v);
  }

  // ----- jumps -----

  /** The table and the Label instructions agree, each label is placed once, and the code ends in a return. */
  ghost predicate WellFormed(fn: B.Fn) {
    && Good(fn) && |fn.code| > 0 && fn.code[|fn.code| - 1].Return?
    && forall p, l :: 0 <= p < |fn.code| && fn.code[p] == B.Label(l) ==> l in fn.labels && fn.labels[l] == p
  }

  lemma {:induction false} LabelOrigin(code: seq<B.Instr>, consts: seq<Constant>, l: nat)
    requires Flow(code).Some? && OutputLabel(l) in TranslateAll(code, consts).code
    ensures B.Label(l) in code
  {
    if code != [] {
      var init, last := code[..|code| - 1], code[|code| - 1];
      var t := TranslateAll(init, consts);
      if OutputLabel(l) in t.code {
        LabelOrigin(init, consts, l);
      } else {
        LabelBlock(last, consts, t, l);
      }
    }
  }

  lemma LabelBlock(i: B.Instr, consts: seq<Constant>, t: IrState, l: nat)
    requires VM.Pops(i) <= |t.operands| && OutputLabel(l) in Block(i, consts, t)
    ensures i == B.Label(l)
  {
  }

  /** Of a label placed once, the IR before it holds no copy. */
  lemma NoEarlierLabel(fn: B.Fn, q: nat, l: nat)
    requires WellFormed(fn) && q < |fn.code| && fn.code[q] == B.Label(l) && Flow(fn.code[..q]).Some?
    ensures OutputLabel(l) !in TranslateAll(fn.code[..q], fn.consts).code
  {
    hide Good, Flow, TranslateAll;
    assert B.Label(l) !in fn.code[..q];
    if OutputLabel(l) in TranslateAll(fn.code[..q], fn.consts).code {
      LabelOrigin(fn.code[..q], fn.consts, l);
    }
  }

  /** The label of the IR stands where the label of the bytecode was translated. */
  lemma LabelPosition(fn: B.Fn, q: nat, l: nat)
    requires WellFormed(fn) && q < |fn.code| && fn.code[q] == B.Label(l)
    requires Flow(fn.code).Some? && Flow(fn.code[..q]).Some? && Flow(fn.code[..q + 1]).Some?
    ensures FindLabel(TranslateAll(fn.code, fn.consts).code, l) == |TranslateAll(fn.code[..q], fn.consts).code|
  {
    hide Good, Translate, Flow, TranslateAll, WellFormed;
    var ir := TranslateAll(fn.code, fn.consts).code;
    var t := TranslateAll(fn.code[..q], fn.consts);
    BlockInPlace(fn, q);
    NoEarlierLabel(fn, q, l);
    var k := |t.code|;
    assert ir[k + 0] == Block(fn.code[q], fn.consts, t)[0];
    assert forall j :: 0 <= j < k ==> ir[j] == t.code[j];
    FindLabelAt(ir, l, k);
  }

  lemma GoodFlow(fn: B.Fn)
    requires Good(fn)
    ensures Flow(fn.code) == Some(0) && Placed(fn.code, fn.labels) && Closed(fn.code, fn.labels, {})
  {
  }

  /** The block of every bytecode lies in the final IR, right behind the blocks before it. */
  lemma BlockInPlace(fn: B.Fn, k: nat)
    requires Flow(fn.code).Some? && k < |fn.code| && Flow(fn.code[..k]).Some? && Flow(fn.code[..k + 1]).Some?
    ensures var ir := TranslateAll(fn.code, fn.consts).code;
            var t := TranslateAll(fn.code[..k], fn.consts);
            && VM.Pops(fn.code[k]) <= |t.operands|
            && TranslateAll(fn.code[..k + 1], fn.consts) == Translate(fn.code[k], fn.consts, t)
            && t.code <= ir
            && var b := Block(fn.code[k], fn.consts, t);
               |t.code| + |b| <= |ir| && forall j :: 0 <= j < |b| ==> ir[|t.code| + j] == b[j]
  {
    hide Block, Flow;
    FlowPrefix(fn.code, k);
    TranslateGrows(fn.code, fn.consts, k);
    TranslateGrows(fn.code, fn.consts, k + 1);
    assert fn.code[..k + 1][..k] == fn.code[..k];
    var ir := TranslateAll(fn.code, fn.consts).code;
    var next := TranslateAll(fn.code[..k + 1], fn.consts);
    var t := TranslateAll(fn.code[..k], fn.consts);
    var b := Block(fn.code[k], fn.consts, t);
    assert next.code == t.code + b;
    forall j | 0 <= j < |b| ensures ir[|t.code| + j] == b[j] {
      assert next.code[|t.code| + j] == b[j];
    }
  }
}
