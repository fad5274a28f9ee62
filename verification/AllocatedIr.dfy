/**
  Register allocation preserves the meaning of compiled IR: the ranges come from the
  liveness pass, the registers from the linear scan, and a temp without a register lives in
  its own slot.
 */
module AllocatedIr {
  import opened Runtime
  import opened Ir
  import opened IrCompiler
  import opened TempRanges
  import opened TempLiveness
  import opened LocatedIr
  import LS = LinearScan
  import B = Bytecode
  import SD = StackDiscipline
  import VM = VirtualMachine
  import IrSimulation
  import IrRuns

  /** The operands of the allocator: all temps, with the ranges of the liveness pass. */
  function Operands(code: seq<Ins>, temps: nat): (ops: seq<LS.Operand>)
    ensures |ops| == temps
    ensures forall t :: 0 <= t < temps ==> ops[t].start == LastDef(code, t, -1) && ops[t].end == LastUse(code, t, INT_MAX)
    ensures forall t: nat :: LS.VariableOf(ops, t) == None
  {
    seq(temps, t requires 0 <= t < temps =>
      LS.Operand(LastDef(code, t, -1), LastUse(code, t, INT_MAX), LS.TempOperand(None)))
  }

  /** A temp with a register lives there, every other temp in its own slot. */
  function Places(s: LS.Allocation): nat -> Place {
    (t: nat) => if t in s.reg then Reg(s.reg[t]) else Slot(t)
  }

  function AllocatedPlaces(code: seq<Ins>, temps: nat): nat -> Place {
    var s := LS.Allocate(Operands(code, temps));
    if s.Some? then Places(s.value) else (t: nat) => Slot(t)
  }

  // ----- without variables nothing is shared -----

  lemma {:induction false} ExpireSharers(ops: seq<LS.Operand>, s: LS.Allocation, start: int)
    ensures LS.Expire(ops, s, start).sharers == s.sharers
    decreases |s.active|
  {
    if s.active != [] && LS.End(ops, s.active[0]) <= start {
      ExpireSharers(ops, LS.DropFirst(ops, s), start);
    }
  }

  lemma {:induction false} NoSharers(ops: seq<LS.Operand>, order: seq<nat>)
    requires forall t: nat :: LS.VariableOf(ops, t) == None
    ensures LS.Scan(ops, order).Some? ==> LS.Scan(ops, order).value.sharers == {}
    decreases |order|
  {
    hide LS.Expire, LS.FirstFree, LS.InsertBy, LS.EraseKey;
    if order != [] {
      var init, o := order[..|order| - 1], order[|order| - 1];
      NoSharers(ops, init);
      if LS.Scan(ops, init).Some? {
        ExpireSharers(ops, LS.Scan(ops, init).value, LS.Start(ops, o));
      }
    }
  }

  // ----- ranges that overlap where a definition meets a live temp -----

  /** `u` is defined where `t` is live: the two half-open ranges overlap. */
  lemma MeetingOverlap(bytecode: seq<B.Instr>, consts: seq<Constant>, t: nat, u: nat, d: nat)
    requires SD.Flow(bytecode).Some? && |TranslateAll(bytecode, consts).code| <= INT_MAX
    requires var code := TranslateAll(bytecode, consts).code; Defines(code, u, d) && Live(code, t, d + 1)
    ensures var s := TranslateAll(bytecode, consts);
            t < s.temps && u < s.temps && LS.Overlap(Operands(s.code, s.temps), t, u)
  {
    var s := TranslateAll(bytecode, consts);
    CompiledFresh(bytecode, consts);
    var e: nat, v: nat :| Defines(s.code, t, e) && UsedAt(s.code, t, v) && e < d + 1 <= v;
    DefinedBelow(s, t, e);
    DefinedBelow(s, u, d);
    hide Fresh, Calm, TranslateAll;
    RangesExact(bytecode, consts, t);
    RangesExact(bytecode, consts, u);
    EndBehind(s.code, t, v);
  }

  lemma DefinedBelow(s: IrState, t: nat, d: nat)
    requires Fresh(s) && Defines(s.code, t, d)
    ensures t < s.temps
  {
  }

  lemma EndBehind(code: seq<Ins>, t: nat, v: nat)
    requires UsedAt(code, t, v)
    ensures LastUse(code, t, INT_MAX) >= v
  {
    LastUseIs(code, t, INT_MAX);
  }

  lemma AllocationApart(bytecode: seq<B.Instr>, consts: seq<Constant>)
    requires SD.Flow(bytecode).Some? && |TranslateAll(bytecode, consts).code| <= INT_MAX
    ensures var s := TranslateAll(bytecode, consts); NoClash(s.code, AllocatedPlaces(s.code, s.temps))
  {
    var s := TranslateAll(bytecode, consts);
    var ops := Operands(s.code, s.temps);
    LS.NeverExhausted(ops);
    NoSharers(ops, LS.Order(ops, |ops|));
    var place := AllocatedPlaces(s.code, s.temps);
    hide LS.Allocate, LS.Overlap, Live, Defines, TranslateAll, Operands;
    var a := LS.Allocate(ops).value;
    assert a.sharers == {} by { AllocateIsScan(ops); }
    forall t: nat, u: nat, d: nat | Defines(s.code, u, d) && t != u && Live(s.code, t, d + 1) ensures place(t) != place(u) {
      MeetingOverlap(bytecode, consts, t, u, d);
      if t in a.reg && u in a.reg {
        LS.OverlapApart(ops, t, u);
      }
    }
  }

  lemma AllocateIsScan(ops: seq<LS.Operand>)
    ensures LS.Allocate(ops) == LS.Scan(ops, LS.Order(ops, |ops|))
  {
  }

  /** The IR of a function with the temps where the allocator put them. */
  function AllocatedProgram(a: VM.Activation): Program
    requires SD.Flow(a.fn.code).Some?
  {
    var s := TranslateAll(a.fn.code, a.fn.consts);
    Program(s.code, AllocatedPlaces(s.code, s.temps), Context(a.x, a.fn, a.self, a.refs))
  }

  /** However long they run, the program on places and the program on temps do the same. */
  lemma AllocationPreserves(a: VM.Activation, rest: Rest, n: nat)
    requires SD.Flow(a.fn.code).Some? && |TranslateAll(a.fn.code, a.fn.consts).code| <= INT_MAX
    ensures var p, q := IrSimulation.TempProgram(a), AllocatedProgram(a);
            SameOutcome(p.code, q.place, Run(p, State(0, map[], rest), n), Run(q, State(0, map[], rest), n))
  {
    var p, q := IrSimulation.TempProgram(a), AllocatedProgram(a);
    CompiledFresh(a.fn.code, a.fn.consts);
    AllocationApart(a.fn.code, a.fn.consts);
    EntryAlike(p.code, q.place, map[], map[], rest);
    assert Segmented(p.code) by { FreshSegmented(TranslateAll(a.fn.code, a.fn.consts)); }
    hide AllocatedPlaces, TranslateAll, Run, NoClash, Alike, Segmented, SameOutcome;
    LocatedRun(p, q, State(0, map[], rest), State(0, map[], rest), n);
  }

  lemma FreshSegmented(s: IrState)
    requires Fresh(s)
    ensures Segmented(s.code)
  {
  }

  /** From the VM to allocated IR: the same result wherever both operands of And and Or are booleans. */
  lemma VmToAllocated(a: VM.Activation, locals: seq<Value>, w: World, n: nat) returns (m: nat)
    requires IrSimulation.WellFormed(a.fn) && SD.Flow(a.fn.code).Some? && a.strict
    requires |TranslateAll(a.fn.code, a.fn.consts).code| <= INT_MAX
    requires VM.Run(a.(strict := false), VM.State(0, [], locals, w), n).Done?
    ensures var vm := VM.State(0, [], locals, w);
            var o := VM.Run(a.(strict := false), vm, n);
            Run(AllocatedProgram(a), State(0, map[], Rest(NoneV, locals, w)), m)
            == if VM.Run(a, vm, n).Thrown? then Failed else Done(o.result, o.locals, o.world)
  {
    var vm := VM.State(0, [], locals, w);
    IrRuns.StartRelated(a, locals, w);
    m := IrRuns.RunExact(a, vm, State(0, map[], Rest(NoneV, locals, w)), n);
    AllocationPreserves(a, Rest(NoneV, locals, w), m);
    hide Run, VM.Run, AllocatedPlaces, TranslateAll, IrSimulation.WellFormed, Alike;
  }
}
