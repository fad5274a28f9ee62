/**
  How compiled IR uses its temps: once, apart from the asserts in front of that use; and a
  temp that is stored is used for nothing else.
 */
module TempUses {
  import opened Runtime
  import opened Ir
  import opened IrCompiler
  import opened TempRanges
  import B = Bytecode
  import VM = VirtualMachine
  import SD = StackDiscipline

  /** A temp that is stored has no other use. */
  ghost predicate StoresAlone(code: seq<Ins>) {
    forall t: nat, u: nat, w: nat :: UsedAt(code, t, u) && code[u].Store? && UsedAt(code, t, w) ==> u == w
  }

  /** Apart from asserts a temp has one use. */
  ghost predicate OneUse(code: seq<Ins>) {
    forall t: nat, u: nat, w: nat ::
      UsedAt(code, t, u) && UsedAt(code, t, w) && !code[u].AssertIns? && !code[w].AssertIns? ==> u == w
  }

  /** The asserts on a temp are those of the operator that uses it. */
  predicate AssertFor(kind: AssertKind, i: Ins, t: nat) {
    match kind
    case AssertInt => (i.BinIns? && (i.bop == IrSub || i.bop == IrMul || i.bop == IrDiv || i.bop == IrGt || i.bop == IrGeq))
                      || (i.UnIns? && i.uop == Neg)
    case AssertNotZero => i.BinIns? && i.bop == IrDiv && i.src2 == t
    case AssertBool => (i.BinIns? && (i.bop == IrAnd || i.bop == IrOr)) || (i.UnIns? && i.uop == Not) || i.CondJump?
  }

  ghost predicate AssertsBelong(code: seq<Ins>) {
    forall t: nat, u: nat, w: nat ::
      UsedAt(code, t, u) && code[u].AssertIns? && UsedAt(code, t, w) && !code[w].AssertIns? ==> AssertFor(code[u].kind, code[w], t)
  }

  ghost predicate Disciplined(code: seq<Ins>) { StoresAlone(code) && OneUse(code) && AssertsBelong(code) }

  /** Nothing has used the operands on the compile-time stack. */
  ghost predicate Unused(s: IrState) {
    && (forall t: nat, u: nat :: UsedAt(s.code, t, u) ==> t < s.temps && t !in s.operands)
  }

  function Popped(i: B.Instr, s: IrState): seq<nat>
    requires VM.Pops(i) <= |s.operands|
  {
    s.operands[|s.operands| - VM.Pops(i)..]
  }

  lemma InSlice(v: seq<nat>, from: nat, to: nat, t: nat)
    requires from <= to <= |v| && t in v[from..to]
    ensures t in v[from..]
  {
    var j :| 0 <= j < to - from && v[from..to][j] == t;
    assert v[from..][j] == t;
  }

  lemma PoppedCall(i: B.Instr, consts: seq<Constant>, s: IrState, t: nat)
    requires VM.Pops(i) <= |s.operands| && (i.Call? || i.AllocClosure?) && t in Uses(Block(i, consts, s)[0])
    ensures t in Popped(i, s)
  {
    hide Block, Uses, Reverse;
    CallUses(i, consts, s);
    var n := |s.operands|;
    var slice := s.operands[n - 1 - i.count..n - 1];
    assert Popped(i, s)[i.count] == Operand(s, 0);
    if t in Reverse(slice) { ReverseMembers(slice, t); }
    if t in slice { InSlice(s.operands, n - 1 - i.count, n - 1, t); }
  }

  lemma PoppedBlock(i: B.Instr, consts: seq<Constant>, s: IrState, j: nat, t: nat)
    requires VM.Pops(i) <= |s.operands| && j < |Block(i, consts, s)| && t in Uses(Block(i, consts, s)[j])
    requires !i.Call? && !i.AllocClosure?
    ensures t in Popped(i, s)
  {
    hide Reverse, Operand, Popped;
    FewPopped(i, s);
  }

  lemma FewPopped(i: B.Instr, s: IrState)
    requires VM.Pops(i) <= |s.operands|
    ensures VM.Pops(i) > 0 ==> Operand(s, 0) in Popped(i, s)
    ensures VM.Pops(i) > 1 ==> Operand(s, 1) in Popped(i, s)
    ensures VM.Pops(i) > 2 ==> Operand(s, 2) in Popped(i, s)
  {
    hide VM.Pops;
    var k := VM.Pops(i);
    assert k > 0 ==> Popped(i, s)[k - 1] == Operand(s, 0);
    assert k > 1 ==> Popped(i, s)[k - 2] == Operand(s, 1);
    assert k > 2 ==> Popped(i, s)[k - 3] == Operand(s, 2);
  }

  /** A block reads only the operands it pops. */
  lemma BlockPopped(i: B.Instr, consts: seq<Constant>, s: IrState)
    requires VM.Pops(i) <= |s.operands| && !i.Swap?
    ensures forall j, t: nat :: 0 <= j < |Block(i, consts, s)| && t in Uses(Block(i, consts, s)[j]) ==> t in Popped(i, s)
  {
    forall j, t: nat | 0 <= j < |Block(i, consts, s)| && t in Uses(Block(i, consts, s)[j]) ensures t in Popped(i, s) {
      hide Block, Uses, Popped;
      if i.Call? || i.AllocClosure? {
        if j == 0 { PoppedCall(i, consts, s, t); } else { CallUses(i, consts, s); }
      } else {
        PoppedBlock(i, consts, s, j, t);
      }
    }
  }

  /** Within a block the discipline holds. */
  lemma BlockDisciplined(i: B.Instr, consts: seq<Constant>, s: IrState)
    requires VM.Pops(i) <= |s.operands| && OperandsOk(s)
    ensures Disciplined(Block(i, consts, s))
  {
    hide Disciplined, Uses, Reverse;
    var b := Block(i, consts, s);
    if i.Bin? {
      assert Operand(s, 0) != Operand(s, 1);
      CheckedDisciplined(i.bop, s.temps, Operand(s, 0), Operand(s, 1));
    } else if i.Un? {
      AssertedPair(b[0].kind, Operand(s, 0), b[1]);
    } else if i.If? {
      AssertedPair(AssertBool, Operand(s, 0), b[1]);
    } else if |b| <= 1 {
      SingleDisciplined(b);
    } else {
      SecondReadsNothing(i, consts, s);
      FirstReads(b);
    }
  }

  /** An assert and the instruction it belongs to. */
  lemma AssertedPair(kind: AssertKind, t: nat, j: Ins)
    requires AssertFor(kind, j, t) && ((j.UnIns? && j.operand == t) || (j.CondJump? && j.cond == t))
    ensures Disciplined([AssertIns(kind, t), j])
  {
  }

  /** A helper call is followed by the assignment of the return register. */
  lemma SecondReadsNothing(i: B.Instr, consts: seq<Constant>, s: IrState)
    requires VM.Pops(i) <= |s.operands| && !i.Bin? && !i.Un? && !i.If? && |Block(i, consts, s)| > 1
    ensures |Block(i, consts, s)| == 2 && Uses(Block(i, consts, s)[1]) == []
  {
    hide Reverse, Operand;
  }

  lemma FirstReads(b: seq<Ins>)
    requires |b| == 2 && Uses(b[1]) == []
    ensures Disciplined(b)
  {
    hide Uses, AssertFor;
    assert forall t: nat, u: nat :: UsedAt(b, t, u) ==> u == 0;
  }

  lemma SingleDisciplined(b: seq<Ins>)
    requires |b| <= 1
    ensures Disciplined(b)
  {
  }

  lemma CheckedDisciplined(op: BinOp, t: nat, arg1: nat, arg2: nat)
    requires arg1 != arg2
    ensures Disciplined(BinaryBlock(op, t, arg1, arg2))
  {
    var b := BinaryBlock(op, t, arg1, arg2);
    if |b| == 1 {
      SingleDisciplined(b);
    } else {
      forall u: nat, x: nat | UsedAt(b, x, u)
        ensures u < |b| - 1 ==> b[u].AssertIns? && AssertFor(b[u].kind, b[|b| - 1], x)
        ensures u == |b| - 1 ==> b[u].BinIns?
      {
      }
      hide BinaryBlock, AssertFor;
    }
  }

  // ----- all of the code -----

  /** The uses in `code + b` are those of the code and those of the block, of different temps. */
  ghost predicate Apart(code: seq<Ins>, b: seq<Ins>) {
    forall t: nat, u: nat, w: nat :: UsedAt(code, t, u) && UsedAt(b, t, w) ==> false
  }

  lemma SplitUse(code: seq<Ins>, b: seq<Ins>, t: nat, u: nat)
    requires UsedAt(code + b, t, u)
    ensures u < |code| ==> UsedAt(code, t, u) && (code + b)[u] == code[u]
    ensures u >= |code| ==> UsedAt(b, t, u - |code|) && (code + b)[u] == b[u - |code|]
  {
  }

  lemma JoinDisciplined(code: seq<Ins>, b: seq<Ins>)
    requires Disciplined(code) && Disciplined(b) && Apart(code, b)
    ensures Disciplined(code + b)
  {
    forall t: nat, u: nat, w: nat | UsedAt(code + b, t, u) && UsedAt(code + b, t, w)
      ensures u < |code| <==> w < |code|
      ensures (code + b)[u].Store? ==> u == w
      ensures !(code + b)[u].AssertIns? && !(code + b)[w].AssertIns? ==> u == w
      ensures (code + b)[u].AssertIns? && !(code + b)[w].AssertIns? ==> AssertFor((code + b)[u].kind, (code + b)[w], t)
    {
      hide UsedAt, AssertFor;
      SplitUse(code, b, t, u);
      SplitUse(code, b, t, w);
    }
    hide UsedAt, AssertFor, Apart;
  }

  lemma BlockApart(s: IrState, b: seq<Ins>)
    requires Unused(s) && forall j, t: nat :: 0 <= j < |b| && t in Uses(b[j]) ==> t in s.operands
    ensures Apart(s.code, b)
  {
    forall t: nat, u: nat, w: nat | UsedAt(b, t, w) ensures !UsedAt(s.code, t, u) {
      assert t in Uses(b[w]);
    }
  }

  /** A popped operand is not among those left. */
  lemma NotLeft(i: B.Instr, s: IrState, t: nat)
    requires VM.Pops(i) <= |s.operands| && OperandsOk(s) && t in Popped(i, s)
    ensures t < s.temps && t !in s.operands[..|s.operands| - VM.Pops(i)]
  {
    var j :| 0 <= j < VM.Pops(i) && Popped(i, s)[j] == t;
    assert s.operands[|s.operands| - VM.Pops(i) + j] == t;
  }

  lemma StillUnused(s: IrState, i: B.Instr, consts: seq<Constant>)
    requires VM.Pops(i) <= |s.operands| && !i.Swap? && Unused(s) && OperandsOk(s)
    ensures Unused(Translate(i, consts, s))
  {
    BlockPopped(i, consts, s);
    var b, r := Block(i, consts, s), Translate(i, consts, s);
    var left := s.operands[..|s.operands| - VM.Pops(i)];
    hide Block, Uses, OperandsOk;
    assert r.operands == left + [s.temps, s.temps + 1][..SD.Pushes(i)] && r.code == s.code + b;
    assert forall t: nat :: t in left ==> t in s.operands;
    hide Translate, VM.Pops, SD.Pushes;
    forall t: nat, u: nat | UsedAt(r.code, t, u) ensures t < r.temps && t !in r.operands {
      SplitUse(s.code, b, t, u);
      if u >= |s.code| { NotLeft(i, s, t); }
    }
  }

  lemma SwapUnused(s: IrState, consts: seq<Constant>)
    requires 2 <= |s.operands| && Unused(s)
    ensures Unused(Translate(B.Swap, consts, s)) && Translate(B.Swap, consts, s).code == s.code
  {
    assert s.code + [] == s.code;
    var r := Translate(B.Swap, consts, s);
    forall t: nat | t in r.operands ensures t in s.operands {
    }
  }

  lemma {:induction false} CompiledDisciplined(code: seq<B.Instr>, consts: seq<Constant>)
    requires SD.Flow(code).Some?
    ensures Disciplined(TranslateAll(code, consts).code) && Unused(TranslateAll(code, consts))
    decreases |code|
  {
    hide Disciplined, Unused, Translate;
    if code == [] {
      EmptyDisciplined();
    } else {
      var init, i := code[..|code| - 1], code[|code| - 1];
      var s := TranslateAll(init, consts);
      CompiledDisciplined(init, consts);
      TranslateAllOperands(init, consts);
      if i.Swap? {
        SwapUnused(s, consts);
      } else {
        BlockDisciplined(i, consts, s);
        BlockPopped(i, consts, s);
        PoppedOperands(i, s);
        BlockApart(s, Block(i, consts, s));
        JoinDisciplined(s.code, Block(i, consts, s));
        StillUnused(s, i, consts);
      }
    }
  }

  lemma PoppedOperands(i: B.Instr, s: IrState)
    requires VM.Pops(i) <= |s.operands|
    ensures forall t: nat :: t in Popped(i, s) ==> t in s.operands
  {
  }

  lemma EmptyDisciplined()
    ensures Disciplined([]) && Unused(EMPTY)
  {
  }
}
