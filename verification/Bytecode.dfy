/** The stack bytecode and the function records that hold it. */
module Bytecode {
  import opened Runtime

  datatype Instr =
    | LoadConst(index: nat)
    | LoadFunc(fn: int)
    | LoadLocal(index: nat)
    | StoreLocal(index: nat)
    | LoadGlobal(index: nat)
    | StoreGlobal(index: nat)
    | PushReference(index: nat)
    | LoadReference(index: nat)
    | StoreReference(index: nat)
    | AllocRecord
    | FieldLoad(index: nat)
    | FieldStore(index: nat)
    | IndexLoad
    | IndexStore
    | AllocClosure(count: nat)
    | Call(count: nat)
    | Return
    | Bin(bop: BinOp)
    | Un(uop: UnOp)
    | Goto(target: nat)
    | If(target: nat)
    | Dup
    | Swap
    | Pop
    | GarbageCollect
    | Label(target: nat)
    | ThrowUninitialized(index: nat)

  datatype Fn = Fn(
    code: seq<Instr>,
    consts: seq<Constant>,
    names: seq<string>,
    labels: map<nat, nat>,
    funcs: seq<Fn>,
    locals: seq<string>,
    cells: seq<string>,  // local_reference_vars_
    free: seq<string>,
    paramCount: nat,
    argMapping: seq<int>)

  const EMPTY_FN := Fn([], [], [], map[], [], [], [], [], 0, [])
}

/** The bytecode machine: one instruction, then runs of instructions. */
module VirtualMachine {
  import opened Runtime
  import opened Bytecode

  /**
    What stays fixed while one call runs: the function, its path and its cells.
    A strict machine also throws where And or Or see a second operand that is no boolean;
    the VM is not strict, the IR compiled from the bytecode is.
   */
  datatype Activation = Activation(x: Externals, fn: Fn, self: FnPath, refs: seq<nat>, strict: bool)

  datatype State = State(ip: nat, stack: seq<Value>, locals: seq<Value>, world: World)

  /** Underflow is the machine's InsufficentStackException, Thrown any other exception. */
  datatype Outcome =
    | Running(state: State)
    | Done(result: Value, locals: seq<Value>, world: World)
    | Thrown
    | Underflow

  /** Operands an instruction pops (or only looks at) and pushes. */
  function Pops(i: Instr): nat {
    match i
    case StoreLocal(_) => 1
    case StoreGlobal(_) => 1
    case StoreReference(_) => 1
    case FieldLoad(_) => 1
    case FieldStore(_) => 2
    case IndexLoad => 2
    case IndexStore => 3
    case AllocClosure(n) => 1 + n
    case Call(n) => 1 + n
    case Return => 1
    case Bin(_) => 2
    case Un(_) => 1
    case If(_) => 1
    case Dup => 1
    case Swap => 2
    case Pop => 1
    case _ => 0
  }

  function LabelTarget(fn: Fn, l: nat): nat {
    if l in fn.labels then fn.labels[l] else 0
  }

  /** Natives have the negative indices -1, -2 and -3. */
  function FunctionObject(a: Activation, index: int): Option<Object> {
    if -3 <= index < 0 then Some(NativeObj(-index - 1))
    else if 0 <= index < |a.fn.funcs| then Some(BareObj(a.self + [index]))
    else None
  }

  /** The cells popped by AllocClosure, first popped first; None when a value is not a cell. */
  function PopCells(w: World, stack: seq<Value>, n: nat): Option<seq<nat>>
    requires n <= |stack|
  {
    if n == 0 then Some([]) else
    var top := stack[|stack| - 1];
    if top.PtrV? && top.addr < |w.objs| && w.objs[top.addr].CellObj? then
      var rest :- PopCells(w, stack[..|stack| - 1], n - 1);
      Some([top.addr] + rest)
    else None
  }

  function BareAt(w: World, v: Value): Option<FnPath> {
    if v.PtrV? && v.addr < |w.objs| && w.objs[v.addr].BareObj? then Some(w.objs[v.addr].fn) else None
  }

  function Operate(a: Activation, w: World, op: BinOp, l: Value, r: Value): Option<Value> {
    if a.strict && (op == And || op == Or) && !r.BoolV? then None else Binary(a.x, w, op, l, r)
  }

  /** The state after an instruction that pops `pops` operands and pushes `push`. */
  function Advance(s: State, pops: nat, push: seq<Value>, w: World): Outcome
    requires pops <= |s.stack|
  {
    Running(State(s.ip + 1, s.stack[..|s.stack| - pops] + push, s.locals, w))
  }

  function PushOpt(s: State, pops: nat, v: Option<Value>): Outcome
    requires pops <= |s.stack|
  {
    if v.Some? then Advance(s, pops, [v.value], s.world) else Thrown
  }

  function PushIn(s: State, pops: nat, r: Option<(Value, World)>): Outcome
    requires pops <= |s.stack|
  {
    if r.Some? then Advance(s, pops, [r.value.0], r.value.1) else Thrown
  }

  function InWorld(s: State, pops: nat, w: Option<World>): Outcome
    requires pops <= |s.stack|
  {
    if w.Some? then Advance(s, pops, [], w.value) else Thrown
  }

  function Execute(a: Activation, i: Instr, s: State): Outcome
    requires Pops(i) <= |s.stack|
  {
    var n := |s.stack|;
    match i
    case LoadConst(k) =>
      if k < |a.fn.consts| then Advance(s, 0, [ConstantValue(a.fn.consts[k])], s.world) else Thrown
    case LoadFunc(k) =>
      var o := FunctionObject(a, k);
      if o.Some? then
        var (w, addr) := Alloc(s.world, o.value);
        Advance(s, 0, [PtrV(addr)], w)
      else Thrown
    case LoadLocal(k) => if k < |s.locals| then Advance(s, 0, [s.locals[k]], s.world) else Thrown
    case StoreLocal(k) =>
      if k < |s.locals| then
        Running(State(s.ip + 1, s.stack[..n - 1], s.locals[k := s.stack[n - 1]], s.world))
      else Thrown
    case LoadGlobal(k) =>
      if k < |a.fn.names| && a.fn.names[k] in s.world.globals then
        Advance(s, 0, [s.world.globals[a.fn.names[k]]], s.world)
      else Thrown
    case StoreGlobal(k) =>
      if k < |a.fn.names| then
        Advance(s, 1, [], s.world.(globals := s.world.globals[a.fn.names[k] := s.stack[n - 1]]))
      else Thrown
    case PushReference(k) => if k < |a.refs| then Advance(s, 0, [PtrV(a.refs[k])], s.world) else Thrown
    case LoadReference(k) => if k < |a.refs| then PushOpt(s, 0, CellRead(s.world, a.refs[k])) else Thrown
    case StoreReference(k) =>
      if k < |a.refs| then InWorld(s, 1, CellWrite(s.world, a.refs[k], s.stack[n - 1])) else Thrown
    case AllocRecord =>
      var (w, addr) := Alloc(s.world, RecordObj(map[]));
      Advance(s, 0, [PtrV(addr)], w)
    case FieldLoad(k) =>
      if k < |a.fn.names| then PushIn(s, 1, RecordGet(s.world, s.stack[n - 1], a.fn.names[k])) else Thrown
    case FieldStore(k) =>
      if k < |a.fn.names| then
        InWorld(s, 2, RecordInsert(s.world, s.stack[n - 2], a.fn.names[k], s.stack[n - 1]))
      else Thrown
    case IndexLoad =>
      PushIn(s, 2, RecordGet(s.world, s.stack[n - 2], Text(a.x, s.world, s.stack[n - 1])))
    case IndexStore =>
      InWorld(s, 3, RecordInsert(s.world, s.stack[n - 3], Text(a.x, s.world, s.stack[n - 2]), s.stack[n - 1]))
    case AllocClosure(k) =>
      var f := BareAt(s.world, s.stack[n - 1]);
      var cells := PopCells(s.world, s.stack[..n - 1], k);
      if f.Some? && cells.Some? then
        var (w, addr) := Alloc(s.world, ClosureObj(f.value, cells.value));
        Advance(s, 1 + k, [PtrV(addr)], w)
      else Thrown
    case Call(k) => PushIn(s, 1 + k, a.x.call(s.world, s.stack[n - 1], s.stack[n - 1 - k..n - 1]))
    case Return => Done(s.stack[n - 1], s.locals, s.world)
    case Bin(op) => PushOpt(s, 2, Operate(a, s.world, op, s.stack[n - 2], s.stack[n - 1]))
    case Un(op) => PushOpt(s, 1, Unary(op, s.stack[n - 1]))
    case Goto(l) => Running(s.(ip := LabelTarget(a.fn, l)))
    case If(l) =>
      var c := s.stack[n - 1];
      if c.BoolV? then
        Running(s.(ip := if c.b then LabelTarget(a.fn, l) else s.ip + 1, stack := s.stack[..n - 1]))
      else Thrown
    case Dup => Advance(s, 0, [s.stack[n - 1]], s.world)
    case Swap => Advance(s, 2, [s.stack[n - 1], s.stack[n - 2]], s.world)
    case Pop => Advance(s, 1, [], s.world)
    case GarbageCollect => Advance(s, 0, [], s.world)
    case Label(_) => Advance(s, 0, [], s.world)
    case ThrowUninitialized(_) => Thrown
  }

  /** One turn of the machine's loop; running off the end of the code returns None. */
  function Step(a: Activation, s: State): Outcome {
    if s.ip >= |a.fn.code| then Done(NoneV, s.locals, s.world)
    else if Pops(a.fn.code[s.ip]) > |s.stack| then Underflow
    else Execute(a, a.fn.code[s.ip], s)
  }

  function Run(a: Activation, s: State, n: nat): Outcome
    decreases n
  {
    if n == 0 then Running(s) else
    var o := Step(a, s);
    if o.Running? then Run(a, o.state, n - 1) else o
  }

  lemma {:induction false} RunCompose(a: Activation, s: State, n: nat, m: nat)
    requires Run(a, s, n).Running?
    ensures Run(a, s, n + m) == Run(a, Run(a, s, n).state, m)
    decreases n
  {
    hide Step;
    if n > 0 {
      RunCompose(a, Step(a, s).state, n - 1, m);
    }
  }

  lemma StrictStep(a: Activation, s: State)
    requires !Step(a.(strict := true), s).Thrown?
    ensures Step(a.(strict := false), s) == Step(a.(strict := true), s)
  {
    hide Binary, Text, PopCells, RecordGet, RecordInsert;
  }

  /** A run of the strict machine that throws nothing is a run of the machine. */
  lemma {:induction false} StrictRun(a: Activation, s: State, n: nat)
    requires !Run(a.(strict := true), s, n).Thrown?
    ensures Run(a.(strict := false), s, n) == Run(a.(strict := true), s, n)
    decreases n
  {
    hide Step;
    if n > 0 {
      var strict := Step(a.(strict := true), s);
      StrictStep(a, s);
      if strict.Running? {
        StrictRun(a, strict.state, n - 1);
      }
    }
  }
}
