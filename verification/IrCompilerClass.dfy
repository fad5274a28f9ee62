/** The compiler from bytecode to temps as it runs: an operand stack and a growing list. */
module IrCompilerClass {
  import opened Runtime
  import opened Ir
  import opened IrCompiler
  import B = Bytecode
  import VM = VirtualMachine
  import SD = StackDiscipline

  class Compiler {
    var operands: seq<nat>
    var temps: nat
    var instructions: seq<Ins>
    const consts: seq<Constant>

    function State(): IrState
      reads this
    {
      IrState(operands, temps, instructions)
    }

    constructor (consts: seq<Constant>)
      ensures State() == EMPTY && this.consts == consts
    {
      this.consts := consts;
      operands, temps, instructions := [], 0, [];
    }

    method ExtraTemp() returns (t: nat)
      modifies this`temps
      ensures t == old(temps) && temps == t + 1
    {
      t := temps;
      temps := temps + 1;
    }

    method NextTemp() returns (t: nat)
      modifies this`temps, this`operands
      ensures t == old(temps) && temps == t + 1 && operands == old(operands) + [t]
    {
      t := ExtraTemp();
      operands := operands + [t];
    }

    method PopTemp() returns (t: nat)
      requires operands != []
      modifies this`operands
      ensures t == old(operands)[|old(operands)| - 1] && operands == old(operands)[..|old(operands)| - 1]
    {
      t := operands[|operands| - 1];
      operands := operands[..|operands| - 1];
    }

    method SwapTemp()
      requires |operands| >= 2
      modifies this`operands
      ensures var n := |old(operands)|; operands == old(operands)[..n - 2] + [old(operands)[n - 1], old(operands)[n - 2]]
    {
      var t1 := PopTemp();
      var t2 := PopTemp();
      operands := operands + [t1, t2];
    }

    method Push(i: Ins)
      modifies this`instructions
      ensures instructions == old(instructions) + [i]
    {
      instructions := instructions + [i];
    }

    method AssignNext(src: Source)
      modifies this
      ensures State() == IrState(old(operands) + [old(temps)], old(temps) + 1, old(instructions) + [Assign(old(temps), src)])
    {
      var t := NextTemp();
      Push(Assign(t, src));
    }

    method StoreTop(dst: Dest)
      requires operands != []
      modifies this
      ensures State() == IrState(old(operands)[..|old(operands)| - 1], old(temps),
                                 old(instructions) + [Store(dst, old(operands)[|old(operands)| - 1])])
    {
      var t := PopTemp();
      Push(Store(dst, t));
    }

    /** Pops `n` operands; the first one popped comes first. */
    method PopMany(n: nat) returns (ts: seq<nat>)
      requires n <= |operands|
      modifies this`operands
      ensures ts == Reverse(old(operands)[|old(operands)| - n..]) && operands == old(operands)[..|old(operands)| - n]
    {
      ts := [];
      var all := operands;
      for i := 0 to n
        invariant operands == all[..|all| - i] && |ts| == i
        invariant forall j :: 0 <= j < i ==> ts[j] == all[|all| - 1 - j]
      {
        var t := PopTemp();
        ts := ts + [t];
      }
      assert |Reverse(all[|all| - n..])| == n;
    }

    method HelperBinop(op: BinaryOp, kind: AssertKind)
      requires |operands| >= 2
      modifies this
      ensures var n := |old(operands)|;
              var a1, a2 := old(operands)[n - 1], old(operands)[n - 2];
              State() == IrState(old(operands)[..n - 2] + [old(temps)], old(temps) + 1,
                                 old(instructions) + CheckedBlock(kind, op, old(temps), a1, a2))
    {
      var arg1 := PopTemp();
      var arg2 := PopTemp();
      Push(AssertIns(kind, arg1));
      Push(AssertIns(kind, arg2));
      var t := NextTemp();
      Push(BinIns(op, t, arg1, arg2));
    }

    method HelperUnop(op: UnOp, kind: AssertKind)
      requires |operands| >= 1
      modifies this
      ensures var n := |old(operands)|;
              State() == IrState(old(operands)[..n - 1] + [old(temps)], old(temps) + 1,
                                 old(instructions) + [AssertIns(kind, old(operands)[n - 1]), UnIns(op, old(temps), old(operands)[n - 1])])
    {
      var arg := PopTemp();
      Push(AssertIns(kind, arg));
      var t := NextTemp();
      Push(UnIns(op, t, arg));
    }

    /** Addition and equality assert nothing about their operands. */
    method HelperPlain(op: BinaryOp)
      requires |operands| >= 2
      modifies this
      ensures var n := |old(operands)|;
              State() == IrState(old(operands)[..n - 2] + [old(temps)], old(temps) + 1,
                                 old(instructions) + [BinIns(op, old(temps), old(operands)[n - 2], old(operands)[n - 1])])
    {
      var arg1 := PopTemp();
      var arg2 := PopTemp();
      var t := NextTemp();
      Push(BinIns(op, t, arg2, arg1));
    }

    method HelperDivision()
      requires |operands| >= 2
      modifies this
      ensures var n := |old(operands)|;
              State() == IrState(old(operands)[..n - 2] + [old(temps)], old(temps) + 1,
                                 old(instructions) + BinaryBlock(BinOp.Div, old(temps), old(operands)[n - 1], old(operands)[n - 2]))
    {
      var arg1 := PopTemp();
      var arg2 := PopTemp();
      Push(AssertIns(AssertInt, arg1));
      Push(AssertIns(AssertInt, arg2));
      Push(AssertIns(AssertNotZero, arg1));
      var t := NextTemp();
      Push(BinIns(IrDiv, t, arg2, arg1));
    }

    method CompileOperator(op: BinOp)
      requires |operands| >= 2
      modifies this
      ensures State() == Translate(B.Bin(op), consts, old(State()))
    {
      match op {
        case Sub => HelperBinop(IrSub, AssertInt);
        case Mul => HelperBinop(IrMul, AssertInt);
        case Gt => HelperBinop(IrGt, AssertInt);
        case Geq => HelperBinop(IrGeq, AssertInt);
        case And => HelperBinop(IrAnd, AssertBool);
        case Or => HelperBinop(IrOr, AssertBool);
        case Div => HelperDivision();
        case Add => HelperPlain(IrAdd);
        case Eq => HelperPlain(IrEq);
      }
    }

    /** Pops the callee (or the bare function) and `count` operands below it, the first popped first. */
    method PopCall(count: nat) returns (top: nat, args: seq<nat>)
      requires 1 + count <= |operands|
      modifies this`operands
      ensures var n := |old(operands)|;
              && top == old(operands)[n - 1] && args == Reverse(old(operands)[n - 1 - count..n - 1])
              && operands == old(operands)[..n - 1 - count]
    {
      var all := operands;
      top := PopTemp();
      args := PopMany(count);
      assert all[..|all| - 1][|all| - 1 - count..] == all[|all| - 1 - count..|all| - 1];
    }

    method CompileCall(count: nat)
      requires 1 + count <= |operands|
      modifies this
      ensures State() == Translate(B.Call(count), consts, old(State()))
    {
      hide Reverse;
      var slice := operands[|operands| - 1 - count..|operands| - 1];
      var top, args := PopCall(count);
      args := ReverseInPlace(args);
      ReverseTwice(slice);
      Push(CallIns(top, args));
      AssignNext(RetSrc);
    }

    method CompileClosure(count: nat)
      requires 1 + count <= |operands|
      modifies this
      ensures State() == Translate(B.AllocClosure(count), consts, old(State()))
    {
      hide Reverse;
      var top, cells := PopCall(count);
      Push(ClosureIns(top, cells));
      AssignNext(RetSrc);
    }

    method CompileHelper(i: B.Instr)
      requires VM.Pops(i) <= |operands|
      requires i.AllocRecord? || i.FieldLoad? || i.FieldStore? || i.IndexLoad? || i.IndexStore? || i.GarbageCollect? || i.ThrowUninitialized?
      modifies this
      ensures State() == Translate(i, consts, old(State()))
    {
      match i {
        case GarbageCollect => Push(CollectIns);
        case AllocRecord => Push(RecordIns); AssignNext(RetSrc);
        case FieldLoad(k) =>
          var r := PopTemp();
          Push(FieldLoadIns(k, r));
          AssignNext(RetSrc);
        case FieldStore(k) =>
          var v := PopTemp();
          var r := PopTemp();
          Push(FieldStoreIns(k, r, v));
        case IndexLoad =>
          var x := PopTemp();
          var r := PopTemp();
          Push(IndexLoadIns(r, x));
          AssignNext(RetSrc);
        case IndexStore =>
          var v := PopTemp();
          var x := PopTemp();
          var r := PopTemp();
          Push(IndexStoreIns(r, x, v));
        case ThrowUninitialized(k) => Push(ThrowIns(k));
      }
    }

    method CompileLoad(i: B.Instr)
      requires i.LoadConst? || i.LoadFunc? || i.LoadLocal? || i.LoadGlobal? || i.PushReference? || i.LoadReference?
      modifies this
      ensures State() == Translate(i, consts, old(State()))
    {
      match i {
        case LoadConst(k) => AssignNext(ConstSrc(ConstantAt(consts, k)));
        case LoadFunc(k) => AssignNext(FnSrc(k));
        case LoadLocal(k) => AssignNext(VarSrc(k));
        case LoadGlobal(k) => AssignNext(GlobSrc(k));
        case PushReference(k) => AssignNext(RefSrc(k));
        case LoadReference(k) => AssignNext(DerefSrc(k));
      }
    }

    method CompileStore(i: B.Instr)
      requires (i.StoreLocal? || i.StoreGlobal? || i.StoreReference?) && operands != []
      modifies this
      ensures State() == Translate(i, consts, old(State()))
    {
      match i {
        case StoreLocal(k) => StoreTop(VarDst(k));
        case StoreGlobal(k) => StoreTop(GlobDst(k));
        case StoreReference(k) => StoreTop(DerefDst(k));
      }
    }

    method CompileJump(i: B.Instr)
      requires (i.Goto? || i.If? || i.Label? || i.Return?) && VM.Pops(i) <= |operands|
      modifies this
      ensures State() == Translate(i, consts, old(State()))
    {
      match i {
        case Goto(l) => Push(Ir.Jump(l));
        case If(l) =>
          var cond := PopTemp();
          Push(AssertIns(AssertBool, cond));
          Push(CondJump(cond, l));
        case Label(l) => Push(OutputLabel(l));
        case Return =>
          var t := PopTemp();
          Push(ReturnIns(t));
      }
    }

    method CompileShuffle(i: B.Instr)
      requires (i.Dup? || i.Swap? || i.Pop?) && VM.Pops(i) <= |operands|
      modifies this
      ensures State() == Translate(i, consts, old(State()))
    {
      match i {
        case Dup =>
          var t := PopTemp();
          var t1 := NextTemp();
          var t2 := NextTemp();
          Push(Fork(t, t1, t2));
        case Swap => SwapTemp();
        case Pop => var t := PopTemp();
      }
    }

    method CompileOne(i: B.Instr)
      requires VM.Pops(i) <= |operands|
      modifies this
      ensures State() == Translate(i, consts, old(State()))
    {
      hide Translate;
      if i.Call? { CompileCall(i.count); }
      else if i.AllocClosure? { CompileClosure(i.count); }
      else if i.Bin? { CompileOperator(i.bop); }
      else if i.Un? {
        HelperUnop(i.uop, if i.uop == Neg then AssertInt else AssertBool);
        UnTranslated(i.uop, consts, old(State()));
      }
      else if i.StoreLocal? || i.StoreGlobal? || i.StoreReference? { CompileStore(i); }
      else if i.Goto? || i.If? || i.Label? || i.Return? { CompileJump(i); }
      else if i.Dup? || i.Swap? || i.Pop? { CompileShuffle(i); }
      else if i.LoadConst? || i.LoadFunc? || i.LoadLocal? || i.LoadGlobal? || i.PushReference? || i.LoadReference? { CompileLoad(i); }
      else { CompileHelper(i); }
    }

    method Compile(code: seq<B.Instr>)
      requires State() == EMPTY && SD.Flow(code).Some?
      modifies this
      ensures State() == TranslateAll(code, consts)
    {
      for k := 0 to |code|
        invariant SD.Flow(code[..k]).Some? && State() == TranslateAll(code[..k], consts)
      {
        SD.FlowPrefix(code, k);
        assert code[..k + 1][..k] == code[..k];
        CompileOne(code[k]);
      }
      assert code[..|code|] == code;
    }
  }

  method ReverseInPlace(v: seq<nat>) returns (r: seq<nat>)
    ensures r == Reverse(v)
  {
    r := [];
    for k := 0 to |v|
      invariant |r| == k && forall j :: 0 <= j < k ==> r[j] == v[|v| - 1 - j]
    {
      r := r + [v[|v| - 1 - k]];
    }
  }

  lemma ReverseTwice(v: seq<nat>)
    ensures Reverse(Reverse(v)) == v
  {
  }

  lemma UnTranslated(op: UnOp, consts: seq<Constant>, s: IrState)
    requires s.operands != []
    ensures var n := |s.operands|;
            Translate(B.Un(op), consts, s)
            == IrState(s.operands[..n - 1] + [s.temps], s.temps + 1,
                       s.code + [AssertIns(if op == Neg then AssertInt else AssertBool, s.operands[n - 1]), UnIns(op, s.temps, s.operands[n - 1])])
  {
  }
}
