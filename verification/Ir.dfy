/** The temp-based intermediate representation and the machine that gives it meaning. */
module Ir {
  import opened Runtime
  import Bytecode
  import VM = VirtualMachine

  datatype Source =
    | VarSrc(num: nat)
    | ConstSrc(value: Value)
    | RetSrc
    | RefSrc(num: nat)
    | DerefSrc(num: nat)
    | GlobSrc(num: nat)
    | FnSrc(fn: int)
    | TempSrc(temp: nat)

  datatype Dest = VarDst(num: nat) | DerefDst(num: nat) | GlobDst(num: nat)

  datatype BinaryOp =
    | IrAdd | IntAdd | IrSub | IrMul | IrDiv | IrGt | IrGeq | IrEq | FastEq | IrAnd | IrOr

  datatype AssertKind = AssertInt | AssertNotZero | AssertBool

  datatype Ins =
    | Assign(dest: nat, src: Source)
    | Store(dst: Dest, value: nat)
    | BinIns(bop: BinaryOp, dest: nat, src1: nat, src2: nat)
    | UnIns(uop: UnOp, dest: nat, operand: nat)
    | CallIns(closure: nat, args: seq<nat>)
    | ClosureIns(function_: nat, cells: seq<nat>)
    | ReturnIns(value: nat)
    | OutputLabel(target: nat)
    | Jump(target: nat)
    | CondJump(cond: nat, target: nat)
    | CollectIns
    | RecordIns
    | FieldLoadIns(name: nat, record: nat)
    | FieldStoreIns(name: nat, record: nat, value: nat)
    | IndexLoadIns(record: nat, index: nat)
    | IndexStoreIns(record: nat, index: nat, value: nat)
    | ThrowIns(name: nat)
    | AssertIns(kind: AssertKind, arg: nat)
    | Noop
    | Fork(from: nat, dest1: nat, dest2: nat)

  /** Temps an instruction reads, in a fixed order. */
  function Uses(i: Ins): seq<nat> {
    match i
    case Assign(_, src) => if src.TempSrc? then [src.temp] else []
    case Store(_, v) => [v]
    case BinIns(_, _, s1, s2) => [s1, s2]
    case UnIns(_, _, s) => [s]
    case CallIns(c, args) => [c] + args
    case ClosureIns(f, cells) => [f] + cells
    case ReturnIns(v) => [v]
    case CondJump(c, _) => [c]
    case FieldLoadIns(_, r) => [r]
    case FieldStoreIns(_, r, v) => [r, v]
    case IndexLoadIns(r, k) => [r, k]
    case IndexStoreIns(r, k, v) => [r, k, v]
    case AssertIns(_, t) => [t]
    case Fork(s, _, _) => [s]
    case _ => []
  }

  /** Temps an instruction writes, in the order of the writes. */
  function Defs(i: Ins): seq<nat> {
    match i
    case Assign(d, _) => [d]
    case BinIns(_, d, _, _) => [d]
    case UnIns(_, d, _) => [d]
    case Fork(_, d1, d2) => [d1, d2]
    case _ => []
  }

  // ----- what an instruction does, apart from where temps live -----

  datatype Rest = Rest(ret: Value, locals: seq<Value>, world: World)

  datatype Effect =
    | Go(defs: seq<Value>, rest: Rest)
    | JumpTo(target: nat)
    | Finish(result: Value)
    | Fail
    | Garbage

  /** The function being run: its names, path and cells. */
  datatype Context = Context(x: Externals, fn: Bytecode.Fn, self: FnPath, refs: seq<nat>)

  /** None where the operands are not of the operator's types, or the divisor is zero. */
  function Arith(c: Context, w: World, op: BinaryOp, v1: Value, v2: Value): Option<Value> {
    match op
    case IrAdd => Binary(c.x, w, Add, v1, v2)
    case IntAdd => if v1.IntV? && v2.IntV? then Some(IntV(Wrap61(v1.i + v2.i))) else None
    case IrSub => Binary(c.x, w, Sub, v2, v1)
    case IrMul => Binary(c.x, w, Mul, v2, v1)
    case IrDiv => Binary(c.x, w, Div, v1, v2)
    case IrGt => Binary(c.x, w, Gt, v2, v1)
    case IrGeq => Binary(c.x, w, Geq, v2, v1)
    case IrEq => Some(BoolV(v1 == v2))
    case FastEq =>
      if (v1.IntV? && v2.IntV?) || (v1.BoolV? && v2.BoolV?) then Some(BoolV(v1 == v2)) else None
    case IrAnd => if v1.BoolV? && v2.BoolV? then Some(BoolV(v1.b && v2.b)) else None
    case IrOr => if v1.BoolV? && v2.BoolV? then Some(BoolV(v1.b || v2.b)) else None
  }

  /** A missing global reads as None, and is entered in the table. */
  function ReadGlobal(w: World, x: string): (Value, World) {
    if x in w.globals then (w.globals[x], w) else (NoneV, w.(globals := w.globals[x := NoneV]))
  }

  function Put(v: Value, r: Rest): Effect { Go([v], r) }

  function PutOpt(v: Option<Value>, r: Rest): Effect {
    if v.Some? then Go([v.value], r) else Fail
  }

  /** Addition is a helper call that throws; the other operators would compute on the bits of any word. */
  function Operate(v: Option<Value>, throws: bool, r: Rest): Effect {
    if v.None? && !throws then Garbage else PutOpt(v, r)
  }

  function Read(c: Context, src: Source, vals: seq<Value>, r: Rest): Effect
    requires src.TempSrc? ==> |vals| == 1
  {
    match src
    case VarSrc(k) => if k < |r.locals| then Put(r.locals[k], r) else Fail
    case ConstSrc(v) => Put(v, r)
    case RetSrc => Put(r.ret, r)
    case RefSrc(k) => if k < |c.refs| then Put(PtrV(c.refs[k]), r) else Fail
    case DerefSrc(k) => if k < |c.refs| then PutOpt(CellRead(r.world, c.refs[k]), r) else Fail
    case GlobSrc(k) =>
      if k < |c.fn.names| then
        var (v, w) := ReadGlobal(r.world, c.fn.names[k]);
        Put(v, r.(world := w))
      else Fail
    case FnSrc(k) =>
      var o := VM.FunctionObject(VM.Activation(c.x, c.fn, c.self, c.refs, true), k);
      if o.Some? then
        var (w, a) := Alloc(r.world, o.value);
        Put(PtrV(a), r.(world := w))
      else Fail
    case TempSrc(_) => Put(vals[0], r)
  }

  function Write(c: Context, dst: Dest, v: Value, r: Rest): Effect {
    match dst
    case VarDst(k) => if k < |r.locals| then Go([], r.(locals := r.locals[k := v])) else Fail
    case DerefDst(k) =>
      if k < |c.refs| then InWorld(CellWrite(r.world, c.refs[k], v), r) else Fail
    case GlobDst(k) =>
      if k < |c.fn.names| then Go([], r.(world := r.world.(globals := r.world.globals[c.fn.names[k] := v])))
      else Fail
  }

  function InWorld(w: Option<World>, r: Rest): Effect {
    if w.Some? then Go([], r.(world := w.value)) else Fail
  }

  /** Helper calls leave their result in the return register. */
  function Returning(v: Option<(Value, World)>, r: Rest): Effect {
    if v.Some? then Go([], r.(ret := v.value.0, world := v.value.1)) else Fail
  }

  function CellAddrs(w: World, vs: seq<Value>): Option<seq<nat>> {
    if vs == [] then Some([])
    else if vs[0].PtrV? && vs[0].addr < |w.objs| && w.objs[vs[0].addr].CellObj? then
      var rest :- CellAddrs(w, vs[1..]);
      Some([vs[0].addr] + rest)
    else None
  }

  predicate Holds(kind: AssertKind, v: Value) {
    match kind
    case AssertInt => v.IntV?
    case AssertNotZero => v != IntV(0)
    case AssertBool => v.BoolV?
  }

  function Perform(c: Context, i: Ins, vals: seq<Value>, r: Rest): Effect
    requires |vals| == |Uses(i)|
  {
    match i
    case Assign(_, src) => Read(c, src, vals, r)
    case Store(dst, _) => Write(c, dst, vals[0], r)
    case BinIns(op, _, _, _) => Operate(Arith(c, r.world, op, vals[0], vals[1]), op == IrAdd, r)
    case UnIns(op, _, _) => Operate(Unary(op, vals[0]), false, r)
    case CallIns(_, _) => Returning(c.x.call(r.world, vals[0], vals[1..]), r)
    case ClosureIns(_, _) =>
      var f, cells := VM.BareAt(r.world, vals[0]), CellAddrs(r.world, vals[1..]);
      if f.Some? && cells.Some? then
        var (w, a) := Alloc(r.world, ClosureObj(f.value, cells.value));
        Go([], r.(ret := PtrV(a), world := w))
      else Fail
    case ReturnIns(_) => Finish(vals[0])
    case OutputLabel(_) => Go([], r)
    case Jump(l) => JumpTo(l)
    case CondJump(_, l) => if vals[0] == BoolV(true) then JumpTo(l) else Go([], r)
    case CollectIns => Go([], r)
    case RecordIns =>
      var (w, a) := Alloc(r.world, RecordObj(map[]));
      Go([], r.(ret := PtrV(a), world := w))
    case FieldLoadIns(k, _) =>
      if k < |c.fn.names| then Returning(RecordGet(r.world, vals[0], c.fn.names[k]), r) else Fail
    case FieldStoreIns(k, _, _) =>
      if k < |c.fn.names| then InWorld(RecordInsert(r.world, vals[0], c.fn.names[k], vals[1]), r) else Fail
    case IndexLoadIns(_, _) => Returning(RecordGet(r.world, vals[0], Text(c.x, r.world, vals[1])), r)
    case IndexStoreIns(_, _, _) =>
      InWorld(RecordInsert(r.world, vals[0], Text(c.x, r.world, vals[1]), vals[2]), r)
    case ThrowIns(_) => Fail
    case AssertIns(kind, _) => if Holds(kind, vals[0]) then Go([], r) else Fail
    case Noop => Go([], r)
    case Fork(_, _, _) => Go([vals[0], vals[0]], r)
  }

  lemma DefsMatch(c: Context, i: Ins, vals: seq<Value>, r: Rest)
    requires |vals| == |Uses(i)| && Perform(c, i, vals, r).Go?
    ensures |Perform(c, i, vals, r).defs| == |Defs(i)| <= 2
  {
    hide CellAddrs, Binary, RecordGet, RecordInsert, Text;
  }

  // ----- the machine -----

  /** A temp lives in a register, or in the stack slot that is its own. */
  datatype Place = Reg(reg: nat) | Slot(temp: nat)

  /** Code together with the place of every temp. */
  datatype Program = Program(code: seq<Ins>, place: nat -> Place, c: Context)

  datatype State = State(pc: nat, temps: map<Place, Value>, rest: Rest)

  /**
    Stuck: the program reads a place that nothing wrote.  Wild: an operator that no assert
    protects meets a value it is not made for.
   */
  datatype Outcome =
    | Running(state: State)
    | Done(result: Value, locals: seq<Value>, world: World)
    | Failed
    | Stuck
    | Wild

  /** Every temp has its own slot. */
  ghost predicate OwnSlots(p: Program) { forall t: nat :: p.place(t) == Slot(t) }

  predicate CanRead(p: Program, s: State, ts: seq<nat>) {
    forall t :: t in ts ==> p.place(t) in s.temps
  }

  function Values(p: Program, s: State, ts: seq<nat>): (vs: seq<Value>)
    requires CanRead(p, s, ts)
    ensures |vs| == |ts| && forall j :: 0 <= j < |ts| ==> vs[j] == s.temps[p.place(ts[j])]
  {
    seq(|ts|, j requires 0 <= j < |ts| => s.temps[p.place(ts[j])])
  }

  function WriteTemps(p: Program, temps: map<Place, Value>, ds: seq<nat>, vs: seq<Value>): map<Place, Value>
    requires |ds| == |vs| <= 2
  {
    if |ds| == 0 then temps
    else if |ds| == 1 then temps[p.place(ds[0]) := vs[0]]
    else temps[p.place(ds[0]) := vs[0]][p.place(ds[1]) := vs[1]]
  }

  /** The position of a label; the end of the code when it is missing. */
  function FindLabel(code: seq<Ins>, l: nat): (k: nat)
    ensures k <= |code|
  {
    if code == [] then 0 else if code[0] == OutputLabel(l) then 0 else 1 + FindLabel(code[1..], l)
  }

  function Step(p: Program, s: State): Outcome {
    if s.pc >= |p.code| then Failed else
    var i := p.code[s.pc];
    if !CanRead(p, s, Uses(i)) then Stuck else
    var e := Perform(p.c, i, Values(p, s, Uses(i)), s.rest);
    match e
    case Go(vs, r) =>
      DefsMatch(p.c, i, Values(p, s, Uses(i)), s.rest);
      Running(State(s.pc + 1, WriteTemps(p, s.temps, Defs(i), vs), r))
    case JumpTo(l) => Running(s.(pc := FindLabel(p.code, l)))
    case Finish(v) => Done(v, s.rest.locals, s.rest.world)
    case Fail => Failed
    case Garbage => Wild
  }

  /** What a step does with the values it reads. */
  lemma StepIs(p: Program, s: State)
    requires s.pc < |p.code| && CanRead(p, s, Uses(p.code[s.pc]))
    ensures var i := p.code[s.pc];
            match Perform(p.c, i, Values(p, s, Uses(i)), s.rest)
            case Go(vs, rest) =>
              |Defs(i)| == |vs| && Step(p, s) == Running(State(s.pc + 1, WriteTemps(p, s.temps, Defs(i), vs), rest))
            case JumpTo(l) => Step(p, s) == Running(s.(pc := FindLabel(p.code, l)))
            case Finish(v) => Step(p, s) == Done(v, s.rest.locals, s.rest.world)
            case Fail => Step(p, s) == Failed
            case Garbage => Step(p, s) == Wild
  {
    hide Perform, Uses, Defs, CanRead, Values, WriteTemps, FindLabel;
    var i := p.code[s.pc];
    if Perform(p.c, i, Values(p, s, Uses(i)), s.rest).Go? {
      DefsMatch(p.c, i, Values(p, s, Uses(i)), s.rest);
    }
  }

  function Run(p: Program, s: State, n: nat): Outcome
    decreases n
  {
    if n == 0 then Running(s) else
    var o := Step(p, s);
    if o.Running? then Run(p, o.state, n - 1) else o
  }

  lemma {:induction false} RunCompose(p: Program, s: State, n: nat, m: nat)
    requires Run(p, s, n).Running?
    ensures Run(p, s, n + m) == Run(p, Run(p, s, n).state, m)
    decreases n
  {
    hide Step;
    if n > 0 {
      RunCompose(p, Step(p, s).state, n - 1, m);
    }
  }

  lemma {:induction false} FindLabelAt(code: seq<Ins>, l: nat, k: nat)
    requires k < |code| && code[k] == OutputLabel(l) && forall j :: 0 <= j < k ==> code[j] != OutputLabel(l)
    ensures FindLabel(code, l) == k
    decreases |code|
  {
    if k > 0 {
      FindLabelAt(code[1..], l, k - 1);
    }
  }
}
