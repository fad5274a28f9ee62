/** Removal of obsolete assignments and of asserts that must hold. */
module ObsoleteRemoval {
  import opened Runtime
  import opened Ir
  import opened TempRanges
  import opened TempUses
  import opened TypeHints
  import opened HintSoundness
  import opened HintRewriting
  import opened ConstantTemps
  import opened ConstantFolding
  import opened FoldingRuns
  import opened IrCompiler
  import B = Bytecode
  import VM = VirtualMachine
  import SD = StackDiscipline

  /** What the pass puts in the place of an instruction. */
  function RemoveOne(h: Hints, obsolete: set<nat>, i: Ins): Ins {
    match i
    case Assign(d, _) => if d in obsolete then Noop else i
    case AssertIns(kind, t) =>
      if t in obsolete then Noop else
      (match kind
       case AssertInt => if IsInt(h, t) then Noop else i
       case AssertNotZero => if IsInt(h, t) && IsConst(h, t) && GetConst(h, t) != Some(IntV(0)) then Noop else i
       case AssertBool => if IsBool(h, t) then Noop else i)
    case _ => i
  }

  function Remove(h: Hints, obsolete: set<nat>, code: seq<Ins>): (r: seq<Ins>)
    ensures |r| == |code| && forall p :: 0 <= p < |code| ==> r[p] == RemoveOne(h, obsolete, code[p])
  {
    seq(|code|, p requires 0 <= p < |code| => RemoveOne(h, obsolete, code[p]))
  }

  // ----- what obsolete means -----

  /** The temp holds a constant, and nothing uses it but asserts that this constant meets. */
  ghost predicate Spent(code: seq<Ins>, t: nat) {
    exists v :: HasConst(code, t, v) && OnlyAsserted(code, t, v)
  }

  ghost predicate OnlyAsserted(code: seq<Ins>, t: nat, v: Value) {
    forall u: nat :: UsedAt(code, t, u) ==> code[u].AssertIns? && Holds(code[u].kind, v)
  }

  ghost predicate AllSpent(code: seq<Ins>, obsolete: set<nat>) { forall t: nat :: t in obsolete ==> Spent(code, t) }

  lemma StaySpent(code: seq<Ins>, new_: seq<Ins>, k: nat, v: Value, t: nat)
    requires Replaced(code, new_, k, v) && Spent(code, t)
    ensures Spent(new_, t)
  {
    var w :| HasConst(code, t, w) && OnlyAsserted(code, t, w);
    ReplacedHas(code, new_, k, v, t, w);
    forall u: nat | UsedAt(new_, t, u) ensures new_[u].AssertIns? && Holds(new_[u].kind, w) {
      ReplacedUse(code, new_, k, v, t, u);
    }
    hide HasConst, Replaced;
    assert OnlyAsserted(new_, t, w);
  }

  /** The operands of a folded operator are spent. */
  lemma OperandSpent(errors: bool, s: Pass, k: nat, new_: seq<Ins>, t: nat)
    requires PassOk(s) && k < |s.code| && FoldOne(errors, s.h, s.code[k]).Put?
    requires Replaced(s.code, new_, k, FoldOne(errors, s.h, s.code[k]).value) && t in Uses(s.code[k])
    requires s.code[k].BinIns? ==> s.code[k].src1 != s.code[k].src2
    ensures Spent(new_, t)
  {
    var i := s.code[k];
    var v := FoldOne(errors, s.h, i).value;
    PutConst(errors, s.h, i);
    var vals := OperandsTrue(s.h, s.code, k);
    var j :| 0 <= j < |Uses(i)| && Uses(i)[j] == t;
    ReplacedHas(s.code, new_, k, v, t, vals[j]);
    assert UsedAt(s.code, t, k);
    forall u: nat | UsedAt(new_, t, u) ensures new_[u].AssertIns? && Holds(new_[u].kind, vals[j]) {
      ReplacedUse(s.code, new_, k, v, t, u);
      OtherUse(s.code, k, t, u);
      FoldOneAsserts(errors, s.h, s.code, i, vals, s.code[u].kind, t, j);
    }
    hide HasConst, Replaced, FoldOne, PassOk, Operands;
    assert OnlyAsserted(new_, t, vals[j]);
  }

  /** Beside the operator only its asserts use an operand. */
  lemma OtherUse(code: seq<Ins>, k: nat, t: nat, u: nat)
    requires Compiled(code) && k < |code| && (code[k].BinIns? || code[k].UnIns?)
    requires UsedAt(code, t, k) && UsedAt(code, t, u) && u != k
    ensures code[u].AssertIns? && AssertFor(code[u].kind, code[k], t)
  {
    hide SingleDefs, AssertFor;
  }

  /** Operators of compiled IR have two different operands. */
  ghost predicate TwoOperands(code: seq<Ins>) {
    forall p :: 0 <= p < |code| && code[p].BinIns? ==> code[p].src1 != code[p].src2
  }

  lemma {:induction false} FoldSpends(errors: bool, h: Hints, code: seq<Ins>, k: nat)
    requires Compiled(code) && TwoOperands(code) && ConstHints(h, code) && k <= |code|
    ensures var r := FoldTo(errors, h, code, k);
            r.Some? ==> AllSpent(r.value.code, r.value.obsolete) && TwoOperands(r.value.code)
    decreases k
  {
    hide Compiled, ConstHints, FoldOne, Spent;
    if k > 0 {
      FoldSpends(errors, h, code, k - 1);
      FoldKeeps(errors, h, code, k - 1);
      var s := FoldTo(errors, h, code, k - 1);
      if s.Some? && FoldOne(errors, s.value.h, s.value.code[k - 1]).Put? {
        PutConst(errors, s.value.h, s.value.code[k - 1]);
        FoldSpendsAt(errors, s.value, k - 1);
      }
    }
  }

  lemma FoldSpendsAt(errors: bool, s: Pass, k: nat)
    requires PassOk(s) && TwoOperands(s.code) && AllSpent(s.code, s.obsolete)
    requires k < |s.code| && FoldOne(errors, s.h, s.code[k]).Put? && (s.code[k].BinIns? || s.code[k].UnIns?)
    ensures var r := FoldAt(errors, s, k).value; AllSpent(r.code, r.obsolete) && TwoOperands(r.code)
  {
    var v := FoldOne(errors, s.h, s.code[k]).value;
    var new_ := s.code[k := Assign(s.code[k].dest, ConstSrc(v))];
    var obsolete := s.obsolete + set t | t in Uses(s.code[k]);
    hide FoldOne, Spent, PassOk, Uses;
    forall t: nat | t in obsolete ensures Spent(new_, t) {
      if t in s.obsolete {
        StaySpent(s.code, new_, k, v, t);
      } else {
        OperandSpent(errors, s, k, new_, t);
      }
    }
  }

  // ----- removal preserves runs -----

  /** Same point, frame and world, and the same temps apart from obsolete ones. */
  ghost predicate SameButSpent(obsolete: set<nat>, s: State, r: State) {
    && r.pc == s.pc && r.rest == s.rest
    && forall t: nat :: t !in obsolete && Slot(t) in s.temps ==> Slot(t) in r.temps && r.temps[Slot(t)] == s.temps[Slot(t)]
  }

  ghost predicate SameEnd(obsolete: set<nat>, o: Outcome, l: Outcome) {
    if o.Running? then l.Running? && SameButSpent(obsolete, o.state, l.state) else l == o
  }

  /** What is known where the code is to run. */
  ghost predicate Trusted(h: Hints, obsolete: set<nat>, code: seq<Ins>, known: seq<set<nat>>) {
    && Compiled(code) && ConstHints(h, code) && AllSpent(code, obsolete)
    && Closed(h, code) && AssignedBeforeRead(h, code, known)
  }

  /** An assert that is removed holds of the value it tests. */
  lemma RemovedHolds(h: Hints, obsolete: set<nat>, code: seq<Ins>, known: seq<set<nat>>, temps: map<Place, Value>, u: nat)
    requires Trusted(h, obsolete, code, known) && SoundTemps(h, temps) && ConstantsTrue(code, temps)
    requires u < |code| && code[u].AssertIns? && RemoveOne(h, obsolete, code[u]) == Noop && Slot(code[u].arg) in temps
    ensures Holds(code[u].kind, temps[Slot(code[u].arg)])
  {
    var t := code[u].arg;
    assert UsedAt(code, t, u);
    hide Closed, AssignedBeforeRead, HasConst;
    if t in obsolete {
      assert Spent(code, t);
      var v :| HasConst(code, t, v) && OnlyAsserted(code, t, v);
    } else if code[u].kind == AssertNotZero {
      ReadConst(h, code, t, u);
    } else {
      FitsInt(h, t, temps[Slot(t)]);
    }
  }

  /** What is left reads no obsolete temp. */
  lemma KeptReads(h: Hints, obsolete: set<nat>, code: seq<Ins>, u: nat, t: nat)
    requires AllSpent(code, obsolete) && UsedAt(code, t, u) && RemoveOne(h, obsolete, code[u]) == code[u]
    ensures t !in obsolete
  {
    assert t in obsolete ==> Spent(code, t);
    hide HasConst;
  }

  /** A removed assignment is that of a constant to an obsolete temp. */
  lemma RemovedAssign(h: Hints, obsolete: set<nat>, code: seq<Ins>, u: nat)
    requires SingleDefs(code) && AllSpent(code, obsolete) && u < |code| && code[u].Assign? && code[u].dest in obsolete
    ensures code[u].src.ConstSrc?
  {
    var t := code[u].dest;
    assert Spent(code, t) && Defines(code, t, u);
    var v :| HasConst(code, t, v) && OnlyAsserted(code, t, v);
    var n := ConstDefinition(code, t, v, u);
  }

  lemma RemovedStep(p: Program, q: Program, h: Hints, obsolete: set<nat>, known: seq<set<nat>>, s: State, r: State)
    requires OwnSlots(p) && OwnSlots(q) && q.c == p.c && q.code == Remove(h, obsolete, p.code)
    requires Trusted(h, obsolete, p.code, known) && SoundTemps(h, s.temps) && ConstantsTrue(p.code, s.temps)
    requires SameButSpent(obsolete, s, r) && !Step(p, s).Stuck?
    ensures SameEnd(obsolete, Step(p, s), Step(q, r))
  {
    if s.pc < |p.code| {
      var i, j := p.code[s.pc], q.code[s.pc];
      if j == i {
        forall t: nat | t in Uses(i) ensures t !in obsolete {
          assert UsedAt(p.code, t, s.pc);
          KeptReads(h, obsolete, p.code, s.pc, t);
        }
        KeptStep(p, q, h, obsolete, s, r);
      } else if i.AssertIns? {
        assert i.arg in Uses(i);
        RemovedHolds(h, obsolete, p.code, known, s.temps, s.pc);
        AssertStep(p, s, i);
        NoopStep(q, r);
        hide *;
      } else {
        RemovedAssign(h, obsolete, p.code, s.pc);
        AssignStep(p, s, i);
        NoopStep(q, r);
        hide Step, Trusted, SoundTemps, ConstantsTrue;
      }
    }
  }

  lemma AssertStep(p: Program, s: State, i: Ins)
    requires OwnSlots(p) && s.pc < |p.code| && p.code[s.pc] == i && i.AssertIns? && !Step(p, s).Stuck?
    requires Slot(i.arg) in s.temps ==> Holds(i.kind, s.temps[Slot(i.arg)])
    ensures Step(p, s) == Running(s.(pc := s.pc + 1))
  {
    assert i.arg in Uses(i);
  }

  lemma AssignStep(p: Program, s: State, i: Ins)
    requires OwnSlots(p) && s.pc < |p.code| && p.code[s.pc] == i && i.Assign? && i.src.ConstSrc?
    ensures Step(p, s) == Running(State(s.pc + 1, s.temps[Slot(i.dest) := i.src.value], s.rest))
  {
  }

  lemma NoopStep(q: Program, r: State)
    requires r.pc < |q.code| && q.code[r.pc] == Noop
    ensures Step(q, r) == Running(r.(pc := r.pc + 1))
  {
  }

  lemma KeptStep(p: Program, q: Program, h: Hints, obsolete: set<nat>, s: State, r: State)
    requires OwnSlots(p) && OwnSlots(q) && q.c == p.c && q.code == Remove(h, obsolete, p.code) && s.pc < |p.code|
    requires q.code[s.pc] == p.code[s.pc] && SameButSpent(obsolete, s, r) && !Step(p, s).Stuck?
    requires forall t :: t in Uses(p.code[s.pc]) ==> t !in obsolete
    ensures SameEnd(obsolete, Step(p, s), Step(q, r))
  {
    hide *;
    var i := p.code[s.pc];
    KeptValues(p, q, obsolete, s, r, i);
    var vals := Values(p, s, Uses(i));
    StepIs(p, s);
    StepIs(q, r);
    match Perform(p.c, i, vals, s.rest)
    case Go(vs, rest) =>
      DefsMatch(p.c, i, vals, s.rest);
      KeptWrites(p, q, obsolete, s, r, i, vs, rest);
    case JumpTo(l) =>
      LabelsStay(h, obsolete, p.code, l);
      SameLabels(p.code, q.code, l);
      KeptJump(obsolete, s, r, FindLabel(p.code, l));
    case _ => KeptEnds(obsolete, Step(p, s));
  }

  /** The kept instruction reads the same values. */
  lemma KeptValues(p: Program, q: Program, obsolete: set<nat>, s: State, r: State, i: Ins)
    requires OwnSlots(p) && OwnSlots(q) && s.pc < |p.code| && p.code[s.pc] == i && !Step(p, s).Stuck?
    requires SameButSpent(obsolete, s, r) && forall t :: t in Uses(i) ==> t !in obsolete
    ensures r.pc == s.pc && r.rest == s.rest && CanRead(p, s, Uses(i))
    ensures CanRead(q, r, Uses(i)) && Values(q, r, Uses(i)) == Values(p, s, Uses(i))
  {
    hide Perform, Uses, Defs;
  }

  lemma KeptWrites(p: Program, q: Program, obsolete: set<nat>, s: State, r: State, i: Ins, vs: seq<Value>, rest: Rest)
    requires OwnSlots(p) && OwnSlots(q) && SameButSpent(obsolete, s, r) && |Defs(i)| == |vs|
    ensures SameEnd(obsolete, Running(State(s.pc + 1, WriteTemps(p, s.temps, Defs(i), vs), rest)),
                    Running(State(r.pc + 1, WriteTemps(q, r.temps, Defs(i), vs), rest)))
  {
    hide Defs;
  }

  lemma KeptJump(obsolete: set<nat>, s: State, r: State, pc: nat)
    requires SameButSpent(obsolete, s, r)
    ensures SameEnd(obsolete, Running(s.(pc := pc)), Running(r.(pc := pc)))
  {
  }

  lemma KeptEnds(obsolete: set<nat>, o: Outcome)
    requires !o.Running?
    ensures SameEnd(obsolete, o, o)
  {
  }

  lemma LabelsStay(h: Hints, obsolete: set<nat>, code: seq<Ins>, l: nat)
    ensures forall p :: 0 <= p < |code| ==> (Remove(h, obsolete, code)[p] == OutputLabel(l) <==> code[p] == OutputLabel(l))
  {
  }

  /** Removing obsolete assignments and asserts that must hold preserves every run. */
  lemma {:induction false} RemovedRun(p: Program, q: Program, h: Hints, obsolete: set<nat>, known: seq<set<nat>>, s: State, r: State, n: nat)
    requires OwnSlots(p) && OwnSlots(q) && q.c == p.c && q.code == Remove(h, obsolete, p.code)
    requires Trusted(h, obsolete, p.code, known) && Sound(h, known, s) && ConstantsTrue(p.code, s.temps)
    requires SameButSpent(obsolete, s, r) && !Run(p, s, n).Stuck?
    ensures SameEnd(obsolete, Run(p, s, n), Run(q, r, n))
    decreases n
  {
    hide Step, SameButSpent, ConstantsTrue, SoundTemps, SoundLocals, RemoveOne, AssignedBeforeRead, Closed, ConstHints, SingleDefs, Disciplined, AllSpent;
    if n > 0 {
      RemovedStep(p, q, h, obsolete, known, s, r);
      SoundStep(p, h, known, s);
      ConstStep(p, s);
      if Step(p, s).Running? {
        RemovedRun(p, q, h, obsolete, known, Step(p, s).state, Step(q, r).state, n - 1);
      }
    }
  }

  /** Folding and then removing, with hints that are closed and true at the removal. */
  lemma FoldAndRemove(errors: bool, h: Hints, p: Program, g: Hints, known: seq<set<nat>>, rest: Rest, n: nat)
    requires OwnSlots(p) && Compiled(p.code) && TwoOperands(p.code) && ConstHints(h, p.code)
    requires FoldTo(errors, h, p.code, |p.code|).Some? && NarrowAll(errors, h, p.code, |p.code|)
    requires !Run(p, State(0, map[], rest), n).Stuck?
    requires var s := FoldTo(errors, h, p.code, |p.code|).value;
             ConstHints(g, s.code) && Closed(g, s.code) && AssignedBeforeRead(g, s.code, known)
    ensures var s := FoldTo(errors, h, p.code, |p.code|).value;
            SameEnd(s.obsolete, Run(p, State(0, map[], rest), n),
                    Run(WithCode(p, Remove(g, s.obsolete, s.code)), State(0, map[], rest), n))
  {
    var s := FoldTo(errors, h, p.code, |p.code|).value;
    var st := State(0, map[], rest);
    FoldPreserves(errors, h, p, |p.code|, rest, n);
    FoldKeeps(errors, h, p.code, |p.code|);
    FoldSpends(errors, h, p.code, |p.code|);
    EntrySound(g, s.code, known, rest);
    hide FoldTo, Run, Compiled, ConstHints, Closed, AssignedBeforeRead, Sound, NarrowAll, Remove;
    RemovedRun(WithCode(p, s.code), WithCode(p, Remove(g, s.obsolete, s.code)), g, s.obsolete, known, st, st, n);
  }

  /**
    At a fixed point of the propagation, type asserts that the hints decide can go: all
    locals being assigned before they are read, and everything stored being hinted.
   */
  lemma AssertsRemoved(h: Hints, p: Program, known: seq<set<nat>>, rest: Rest, n: nat)
    requires OwnSlots(p) && Compiled(p.code) && ConstHints(h, p.code)
    requires Propagate(h, p.code) == h && OperatorsHinted(h, p.code) && AssignedBeforeRead(h, p.code, known)
    requires forall i :: i in p.code ==> Hintable(h, i) && StoreHinted(h, i)
    requires !Run(p, State(0, map[], rest), n).Stuck?
    ensures SameEnd({}, Run(p, State(0, map[], rest), n), Run(WithCode(p, Remove(h, {}, p.code)), State(0, map[], rest), n))
  {
    var st := State(0, map[], rest);
    assert SingleDefs(p.code);
    FixedPointClosed(h, p.code);
    EntrySound(h, p.code, known, rest);
    hide Run, Compiled, ConstHints, Closed, AssignedBeforeRead, Sound, Remove;
    RemovedRun(p, WithCode(p, Remove(h, {}, p.code)), h, {}, known, st, st, n);
  }

  // ----- compiled code -----

  predicate Plain(i: Ins) { NoCopy(i) && (i.BinIns? ==> i.src1 != i.src2) }

  lemma BlockPlain(i: B.Instr, consts: seq<Constant>, s: IrState)
    requires VM.Pops(i) <= |s.operands| && OperandsOk(s)
    ensures forall j :: j in Block(i, consts, s) ==> Plain(j)
  {
    if i.Bin? {
      BinaryPlain(i.bop, s.temps, Operand(s, 0), Operand(s, 1));
    } else {
      SimplePlain(i, consts, s);
    }
  }

  lemma SimplePlain(i: B.Instr, consts: seq<Constant>, s: IrState)
    requires VM.Pops(i) <= |s.operands| && !i.Bin?
    ensures forall k :: 0 <= k < |Block(i, consts, s)| ==> Plain(Block(i, consts, s)[k])
  {
    hide Reverse, Operand;
  }

  lemma BinaryPlain(op: BinOp, t: nat, arg1: nat, arg2: nat)
    requires arg1 != arg2
    ensures forall j :: j in BinaryBlock(op, t, arg1, arg2) ==> Plain(j)
  {
  }

  lemma {:induction false} CompiledPlain(code: seq<B.Instr>, consts: seq<Constant>)
    requires SD.Flow(code).Some?
    ensures forall i :: i in TranslateAll(code, consts).code ==> Plain(i)
    decreases |code|
  {
    hide Plain, Block;
    if code != [] {
      var init, i := code[..|code| - 1], code[|code| - 1];
      CompiledPlain(init, consts);
      TranslateAllOperands(init, consts);
      BlockPlain(i, consts, TranslateAll(init, consts));
    }
  }

  /** What the IR compiler produces, with the hints its constructors write, is where the passes may start. */
  lemma PassesMayStart(code: seq<B.Instr>, consts: seq<Constant>)
    requires SD.Flow(code).Some?
    ensures var ir := TranslateAll(code, consts).code;
            && Compiled(ir) && TwoOperands(ir) && ConstHints(Construct(ir), ir) && OperatorsHinted(Construct(ir), ir)
  {
    var ir := TranslateAll(code, consts).code;
    CompiledPlain(code, consts);
    CompiledFresh(code, consts);
    CompiledDisciplined(code, consts);
    hide TranslateAll, Disciplined, TempsDefined, OperandsReach, UsesReached;
    assert Compiled(ir) by { hide SingleDefs; }
    assert TwoOperands(ir) by {
      forall p | 0 <= p < |ir| && ir[p].BinIns? ensures ir[p].src1 != ir[p].src2 { assert ir[p] in ir; }
    }
    hide SingleDefs, Compiled, TwoOperands, ConstHints;
    assert ir[..|ir|] == ir;
    ConstructConsts(ir, |ir|);
    ConstructHints(ir);
  }

  // ----- the passes -----

  class ConstantPasses {
    var instructions: seq<Ins>
    var hints: Hints
    var obsolete: set<nat>

    constructor (code: seq<Ins>, h: Hints)
      ensures instructions == code && hints == h && obsolete == {}
    {
      instructions, hints, obsolete := code, h, {};
    }

    /** False stands for an exception of the compiler. */
    method FoldConstants(errors: bool) returns (ok: bool)
      requires obsolete == {}
      modifies this
      ensures var r := FoldTo(errors, old(hints), old(instructions), |old(instructions)|);
              ok == r.Some? && (ok ==> Pass(hints, instructions, obsolete) == r.value)
    {
      ghost var was := Pass(hints, instructions, obsolete);
      var count := 0;
      while count < |instructions|
        invariant count <= |instructions| == |was.code|
        invariant FoldTo(errors, was.h, was.code, count) == Some(Pass(hints, instructions, obsolete))
      {
        var i := instructions[count];
        match FoldOne(errors, hints, i) {
          case Keep =>
          case Put(v) =>
            var d := if i.BinIns? || i.UnIns? then i.dest else 0;
            instructions := instructions[count := Assign(d, ConstSrc(v))];
            hints := SetTemp(hints, d, ConstHint(v));
            obsolete := obsolete + set t | t in Uses(i);
          case _ =>
            FailureStays(errors, was.h, was.code, count + 1, |was.code|);
            return false;
        }
        count := count + 1;
      }
      return true;
    }

    method RemoveObsolete()
      modifies this`instructions
      ensures instructions == Remove(hints, obsolete, old(instructions))
    {
      ghost var was := instructions;
      for count := 0 to |instructions|
        invariant |instructions| == |was|
        invariant forall p :: 0 <= p < |was| ==> instructions[p] == if p < count then RemoveOne(hints, obsolete, was[p]) else was[p]
      {
        instructions := instructions[count := RemoveOne(hints, obsolete, instructions[count])];
      }
    }
  }

  lemma {:induction false} FailureStays(errors: bool, h: Hints, code: seq<Ins>, j: nat, k: nat)
    requires j <= k <= |code| && FoldTo(errors, h, code, j).None?
    ensures FoldTo(errors, h, code, k).None?
    decreases k
  {
    hide FoldAt;
    if j < k { FailureStays(errors, h, code, j, k - 1); }
  }
}
