/**
  The compiler from stack bytecode to temps: the operand stack of the machine becomes a
  compile-time stack of temps.
 */
module IrCompiler {
  import opened Runtime
  import opened Ir
  import B = Bytecode
  import VM = VirtualMachine
  import opened StackDiscipline

  /** The compile-time operand stack, the number of temps and the instructions so far. */
  datatype IrState = IrState(operands: seq<nat>, temps: nat, code: seq<Ins>)

  const EMPTY: IrState := IrState([], 0, [])

  /** The operand `k` below the top. */
  function Operand(s: IrState, k: nat): (t: nat)
    requires k < |s.operands|
    ensures t in s.operands
  {
    s.operands[|s.operands| - 1 - k]
  }

  /** Pops `pops` operands, pushes `pushed` new temps and appends a block. */
  function Append(s: IrState, pops: nat, pushed: nat, block: seq<Ins>): IrState
    requires pops <= |s.operands| && pushed <= 2
  {
    IrState(s.operands[..|s.operands| - pops] + [s.temps, s.temps + 1][..pushed], s.temps + pushed, s.code + block)
  }

  function Reverse(v: seq<nat>): (r: seq<nat>)
    ensures |r| == |v| && forall j :: 0 <= j < |v| ==> r[j] == v[|v| - 1 - j]
  {
    if v == [] then [] else Reverse(v[1..]) + [v[0]]
  }

  /** Both operands are asserted, the right one first. */
  function CheckedBlock(kind: AssertKind, op: BinaryOp, t: nat, arg1: nat, arg2: nat): seq<Ins> {
    [AssertIns(kind, arg1), AssertIns(kind, arg2), BinIns(op, t, arg1, arg2)]
  }

  function BinaryBlock(op: BinOp, t: nat, arg1: nat, arg2: nat): seq<Ins> {
    match op
    case Add => [BinIns(IrAdd, t, arg2, arg1)]
    case Eq => [BinIns(IrEq, t, arg2, arg1)]
    case Sub => CheckedBlock(AssertInt, IrSub, t, arg1, arg2)
    case Mul => CheckedBlock(AssertInt, IrMul, t, arg1, arg2)
    case Div =>
      [AssertIns(AssertInt, arg1), AssertIns(AssertInt, arg2), AssertIns(AssertNotZero, arg1), BinIns(IrDiv, t, arg2, arg1)]
    case Gt => CheckedBlock(AssertInt, IrGt, t, arg1, arg2)
    case Geq => CheckedBlock(AssertInt, IrGeq, t, arg1, arg2)
    case And => CheckedBlock(AssertBool, IrAnd, t, arg1, arg2)
    case Or => CheckedBlock(AssertBool, IrOr, t, arg1, arg2)
  }

  function ConstantAt(consts: seq<Constant>, k: nat): Value {
    if k < |consts| then ConstantValue(consts[k]) else NoneV
  }

  /** The instructions of one bytecode; `t` is the next temp. */
  function Block(i: B.Instr, consts: seq<Constant>, s: IrState): seq<Ins>
    requires VM.Pops(i) <= |s.operands|
  {
    var t := s.temps;
    var n := |s.operands|;
    match i
    case LoadConst(k) => [Assign(t, ConstSrc(ConstantAt(consts, k)))]
    case LoadFunc(k) => [Assign(t, FnSrc(k))]
    case LoadLocal(k) => [Assign(t, VarSrc(k))]
    case StoreLocal(k) => [Store(VarDst(k), Operand(s, 0))]
    case LoadGlobal(k) => [Assign(t, GlobSrc(k))]
    case StoreGlobal(k) => [Store(GlobDst(k), Operand(s, 0))]
    case PushReference(k) => [Assign(t, RefSrc(k))]
    case LoadReference(k) => [Assign(t, DerefSrc(k))]
    case StoreReference(k) => [Store(DerefDst(k), Operand(s, 0))]
    case AllocRecord => [RecordIns, Assign(t, RetSrc)]
    case FieldLoad(k) => [FieldLoadIns(k, Operand(s, 0)), Assign(t, RetSrc)]
    case FieldStore(k) => [FieldStoreIns(k, Operand(s, 1), Operand(s, 0))]
    case IndexLoad => [IndexLoadIns(Operand(s, 1), Operand(s, 0)), Assign(t, RetSrc)]
    case IndexStore => [IndexStoreIns(Operand(s, 2), Operand(s, 1), Operand(s, 0))]
    case AllocClosure(k) => [ClosureIns(Operand(s, 0), Reverse(s.operands[n - 1 - k..n - 1])), Assign(t, RetSrc)]
    case Call(k) => [CallIns(Operand(s, 0), s.operands[n - 1 - k..n - 1]), Assign(t, RetSrc)]
    case Return => [ReturnIns(Operand(s, 0))]
    case Bin(op) => BinaryBlock(op, t, Operand(s, 0), Operand(s, 1))
    case Un(op) =>
      [AssertIns(if op == Neg then AssertInt else AssertBool, Operand(s, 0)), UnIns(op, t, Operand(s, 0))]
    case Goto(l) => [Jump(l)]
    case If(l) => [AssertIns(AssertBool, Operand(s, 0)), CondJump(Operand(s, 0), l)]
    case Dup => [Fork(Operand(s, 0), t, t + 1)]
    case Swap => []
    case Pop => []
    case GarbageCollect => [CollectIns]
    case Label(l) => [OutputLabel(l)]
    case ThrowUninitialized(k) => [ThrowIns(k)]
  }

  /** A call reads the callee and its arguments; a closure its function and its cells, the last pushed first. */
  lemma CallUses(i: B.Instr, consts: seq<Constant>, s: IrState)
    requires VM.Pops(i) <= |s.operands| && (i.Call? || i.AllocClosure?)
    ensures |Block(i, consts, s)| == 2 && Block(i, consts, s)[1] == Assign(s.temps, RetSrc)
    ensures if i.Call? then Block(i, consts, s)[0].CallIns? else Block(i, consts, s)[0].ClosureIns?
    ensures Uses(Block(i, consts, s)[1]) == [] && Defs(Block(i, consts, s)[0]) == []
    ensures var slice := s.operands[|s.operands| - 1 - i.count..|s.operands| - 1];
            Uses(Block(i, consts, s)[0]) == [Operand(s, 0)] + if i.Call? then slice else Reverse(slice)
  {
    hide Reverse, Operand;
    if i.Call? {
      assert Block(i, consts, s)[0] == CallIns(Operand(s, 0), s.operands[|s.operands| - 1 - i.count..|s.operands| - 1]);
    }
  }

  function Translate(i: B.Instr, consts: seq<Constant>, s: IrState): (r: IrState)
    requires VM.Pops(i) <= |s.operands|
    ensures |r.operands| == |s.operands| - VM.Pops(i) + Pushes(i)
    ensures r.code == s.code + Block(i, consts, s)
  {
    if i.Swap? then
      s.(operands := s.operands[..|s.operands| - 2] + [Operand(s, 0), Operand(s, 1)], code := s.code + [])
    else Append(s, VM.Pops(i), Pushes(i), Block(i, consts, s))
  }

  /** The whole function; the discipline of compiled code guarantees the operands. */
  function TranslateAll(code: seq<B.Instr>, consts: seq<Constant>): (r: IrState)
    requires Flow(code).Some?
    ensures |r.operands| == Flow(code).value
  {
    if code == [] then EMPTY else
    Translate(code[|code| - 1], consts, TranslateAll(code[..|code| - 1], consts))
  }

  lemma {:induction false} TranslateGrows(code: seq<B.Instr>, consts: seq<Constant>, k: nat)
    requires Flow(code).Some? && k <= |code|
    ensures Flow(code[..k]).Some?
    ensures TranslateAll(code[..k], consts).code <= TranslateAll(code, consts).code
    ensures TranslateAll(code[..k], consts).temps <= TranslateAll(code, consts).temps
    decreases |code|
  {
    hide Block;
    if k == |code| {
      assert code[..k] == code;
    } else {
      var init := code[..|code| - 1];
      assert init[..k] == code[..k];
      TranslateGrows(init, consts, k);
    }
  }

  // ----- operands are fresh and distinct -----

  ghost predicate OperandsOk(s: IrState) {
    && (forall j :: 0 <= j < |s.operands| ==> s.operands[j] < s.temps)
    && (forall i, j :: 0 <= i < j < |s.operands| ==> s.operands[i] != s.operands[j])
  }

  lemma TranslateOperands(i: B.Instr, consts: seq<Constant>, s: IrState)
    requires VM.Pops(i) <= |s.operands| && OperandsOk(s)
    ensures OperandsOk(Translate(i, consts, s)) && s.temps <= Translate(i, consts, s).temps
  {
    hide Block;
  }

  lemma {:induction false} TranslateAllOperands(code: seq<B.Instr>, consts: seq<Constant>)
    requires Flow(code).Some?
    ensures OperandsOk(TranslateAll(code, consts))
  {
    hide OperandsOk, Translate;
    if code != [] {
      TranslateAllOperands(code[..|code| - 1], consts);
      TranslateOperands(code[|code| - 1], consts, TranslateAll(code[..|code| - 1], consts));
    } else {
      EmptyOperands();
    }
  }

  lemma EmptyOperands()
    ensures OperandsOk(EMPTY)
  {
  }
}
