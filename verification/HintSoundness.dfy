/** Hints are true on every run, where every local is assigned before it is read. */
module HintSoundness {
  import opened Runtime
  import opened Ir
  import opened TypeHints
  import VM = VirtualMachine

  // ----- hints that cover what the instructions compute -----

  function ResultKind(op: BinaryOp): Kind {
    match op
    case IrAdd => IntK
    case IntAdd => IntK
    case IrSub => IntK
    case IrMul => IntK
    case IrDiv => IntK
    case _ => BoolK
  }

  /** A hinted operand may only get values from hinted operands, and all their types are its own. */
  predicate Covers(into: set<Kind>, from: set<Kind>) { into == {} || (from != {} && from <= into) }

  predicate Includes(into: set<Kind>, k: Kind) { into == {} || k in into }

  ghost predicate ClosedOne(h: Hints, i: Ins) {
    match i
    case Assign(d, src) =>
      var types := TempHint(h, d).types;
      (match src
       case VarSrc(k) => Covers(types, VarHint(h, k).types)
       case ConstSrc(v) => Includes(types, KindOf(v))
       case TempSrc(t) => Covers(types, TempHint(h, t).types)
       case _ => types == {})
    case Store(VarDst(k), t) => Covers(VarHint(h, k).types, TempHint(h, t).types)
    case Fork(t, d, e) =>
      Covers(TempHint(h, d).types, TempHint(h, t).types) && Covers(TempHint(h, e).types, TempHint(h, t).types)
    case BinIns(op, d, s1, s2) =>
      && Includes(TempHint(h, d).types, ResultKind(op))
      && (op == IrAdd && TempHint(h, d).types != {} ==> IsInt(h, s1) && IsInt(h, s2))
    case UnIns(op, d, _) => Includes(TempHint(h, d).types, if op == UnOp.Neg then IntK else BoolK)
    case _ => true
  }

  ghost predicate Closed(h: Hints, code: seq<Ins>) { forall i :: i in code ==> ClosedOne(h, i) }

  // ----- hinted locals are assigned before they are read -----

  function Stored(i: Ins): set<nat> { if i.Store? && i.dst.VarDst? then {i.dst.num} else {} }

  /** `known` lists, for every point, locals that are assigned on every way to it. */
  ghost predicate AssignedOne(h: Hints, code: seq<Ins>, known: seq<set<nat>>, p: nat)
    requires p < |code| && |known| == |code| + 1
  {
    match code[p]
    case Jump(l) => known[FindLabel(code, l)] <= known[p]
    case CondJump(_, l) => known[FindLabel(code, l)] <= known[p] && known[p + 1] <= known[p]
    case Assign(_, VarSrc(k)) => (VarHint(h, k).types != {} ==> k in known[p]) && known[p + 1] <= known[p]
    case i => known[p + 1] <= known[p] + Stored(i)
  }

  /**
    Locals with a type hint are assigned on every way to a read; parameters and other locals
    without one may be read as they come.
   */
  ghost predicate AssignedBeforeRead(h: Hints, code: seq<Ins>, known: seq<set<nat>>) {
    && |known| == |code| + 1 && known[0] == {}
    && forall p :: 0 <= p < |code| ==> AssignedOne(h, code, known, p)
  }

  // ----- true hints -----

  predicate Fits(types: set<Kind>, v: Value) { Includes(types, KindOf(v)) }

  ghost predicate SoundTemps(h: Hints, temps: map<Place, Value>) {
    forall t: nat :: Slot(t) in temps ==> Fits(TempHint(h, t).types, temps[Slot(t)])
  }

  ghost predicate SoundLocals(h: Hints, locals: seq<Value>, known: set<nat>) {
    forall k: nat :: k in known && k < |locals| ==> Fits(VarHint(h, k).types, locals[k])
  }

  ghost predicate Sound(h: Hints, known: seq<set<nat>>, s: State) {
    s.pc < |known| && SoundTemps(h, s.temps) && SoundLocals(h, s.rest.locals, known[s.pc])
  }

  /** The values read fit the hints of the temps they are read from. */
  ghost predicate ReadsFit(h: Hints, ts: seq<nat>, vals: seq<Value>) {
    |ts| == |vals| && forall j :: 0 <= j < |ts| ==> Fits(TempHint(h, ts[j]).types, vals[j])
  }

  /** The values an instruction computes fit the hints of its results. */
  ghost predicate ResultsFit(h: Hints, i: Ins, e: Effect) {
    e.Go? ==> |e.defs| == |Defs(i)| && forall j :: 0 <= j < |Defs(i)| ==> Fits(TempHint(h, Defs(i)[j]).types, e.defs[j])
  }

  lemma AssignFits(c: Context, h: Hints, i: Ins, vals: seq<Value>, r: Rest, known: set<nat>)
    requires i.Assign? && |vals| == |Uses(i)| && ClosedOne(h, i) && ReadsFit(h, Uses(i), vals)
    requires SoundLocals(h, r.locals, known) && (i.src.VarSrc? && VarHint(h, i.src.num).types != {} ==> i.src.num in known)
    ensures ResultsFit(h, i, Perform(c, i, vals, r))
  {
    hide CellRead;
    if i.src.TempSrc? {
      assert Fits(TempHint(h, Uses(i)[0]).types, vals[0]);
    }
  }

  lemma ArithKind(c: Context, w: World, op: BinaryOp, v1: Value, v2: Value)
    requires Arith(c, w, op, v1, v2).Some? && (op == IrAdd ==> v1.IntV? && v2.IntV?)
    ensures KindOf(Arith(c, w, op, v1, v2).value) == ResultKind(op)
  {
  }

  lemma OperatorFits(c: Context, h: Hints, i: Ins, vals: seq<Value>, r: Rest)
    requires (i.BinIns? || i.UnIns?) && |vals| == |Uses(i)| && ClosedOne(h, i) && ReadsFit(h, Uses(i), vals)
    ensures ResultsFit(h, i, Perform(c, i, vals, r))
  {
    hide Arith;
    if i.BinIns? && Arith(c, r.world, i.bop, vals[0], vals[1]).Some? && TempHint(h, i.dest).types != {} {
      assert Fits(TempHint(h, Uses(i)[0]).types, vals[0]) && Fits(TempHint(h, Uses(i)[1]).types, vals[1]);
      ArithKind(c, r.world, i.bop, vals[0], vals[1]);
    }
  }

  lemma ResultsOk(c: Context, h: Hints, i: Ins, vals: seq<Value>, r: Rest, known: set<nat>)
    requires |vals| == |Uses(i)| && ClosedOne(h, i) && ReadsFit(h, Uses(i), vals)
    requires SoundLocals(h, r.locals, known) && (i.Assign? && i.src.VarSrc? && VarHint(h, i.src.num).types != {} ==> i.src.num in known)
    ensures ResultsFit(h, i, Perform(c, i, vals, r))
  {
    if i.Assign? {
      AssignFits(c, h, i, vals, r, known);
    } else if i.BinIns? || i.UnIns? {
      OperatorFits(c, h, i, vals, r);
    } else {
      hide Arith, CellAddrs, RecordGet, RecordInsert, Text, Fits;
      if i.Fork? { ForkFits(h, i, vals); }
    }
  }

  lemma ForkFits(h: Hints, i: Ins, vals: seq<Value>)
    requires i.Fork? && |vals| == |Uses(i)| && ClosedOne(h, i) && ReadsFit(h, Uses(i), vals)
    ensures Fits(TempHint(h, i.dest1).types, vals[0]) && Fits(TempHint(h, i.dest2).types, vals[0])
  {
    assert Fits(TempHint(h, Uses(i)[0]).types, vals[0]);
  }

  /** Only a store to a local changes the locals. */
  lemma LocalsOk(c: Context, h: Hints, i: Ins, vals: seq<Value>, r: Rest, known: set<nat>, after: set<nat>)
    requires |vals| == |Uses(i)| && ClosedOne(h, i) && ReadsFit(h, Uses(i), vals) && SoundLocals(h, r.locals, known)
    requires Perform(c, i, vals, r).Go? && after <= known + Stored(i)
    ensures SoundLocals(h, Perform(c, i, vals, r).rest.locals, after)
  {
    hide Arith, CellAddrs, RecordGet, RecordInsert, Text, CellRead, CellWrite, VM.FunctionObject, VM.BareAt, ReadGlobal;
    if i.Store? && i.dst.VarDst? {
      assert Fits(TempHint(h, Uses(i)[0]).types, vals[0]);
    } else {
      assert Perform(c, i, vals, r).rest.locals == r.locals;
    }
  }

  lemma ReadsOk(p: Program, h: Hints, s: State, ts: seq<nat>)
    requires OwnSlots(p) && SoundTemps(h, s.temps) && CanRead(p, s, ts)
    ensures ReadsFit(h, ts, Values(p, s, ts))
  {
    hide Fits;
  }

  lemma WritesOk(p: Program, h: Hints, temps: map<Place, Value>, i: Ins, vs: seq<Value>)
    requires OwnSlots(p) && SoundTemps(h, temps) && |vs| == |Defs(i)| <= 2
    requires forall j :: 0 <= j < |Defs(i)| ==> Fits(TempHint(h, Defs(i)[j]).types, vs[j])
    ensures SoundTemps(h, WriteTemps(p, temps, Defs(i), vs))
  {
    hide Fits, Defs;
  }

  lemma SoundStep(p: Program, h: Hints, known: seq<set<nat>>, s: State)
    requires OwnSlots(p) && Closed(h, p.code) && AssignedBeforeRead(h, p.code, known) && Sound(h, known, s)
    ensures Step(p, s).Running? ==> Sound(h, known, Step(p, s).state)
  {
    if s.pc < |p.code| && CanRead(p, s, Uses(p.code[s.pc])) {
      var i := p.code[s.pc];
      assert i in p.code && ClosedOne(h, i) && AssignedOne(h, p.code, known, s.pc);
      var vals := Values(p, s, Uses(i));
      ReadsOk(p, h, s, Uses(i));
      ResultsOk(p.c, h, i, vals, s.rest, known[s.pc]);
      JumpKinds(p.c, i, vals, s.rest);
      hide Perform, Closed, AssignedBeforeRead, SoundTemps, SoundLocals, ReadsFit, ClosedOne, Uses;
      match Perform(p.c, i, vals, s.rest)
      case Go(vs, rest) =>
        DefsMatch(p.c, i, vals, s.rest);
        WritesOk(p, h, s.temps, i, vs);
        LocalsOk(p.c, h, i, vals, s.rest, known[s.pc], known[s.pc + 1]);
      case JumpTo(l) => FewerKnown(h, s.rest.locals, known[s.pc], known[FindLabel(p.code, l)]);
      case _ =>
    }
  }

  lemma JumpKinds(c: Context, i: Ins, vals: seq<Value>, r: Rest)
    requires |vals| == |Uses(i)|
    ensures Perform(c, i, vals, r).JumpTo? ==>
              (i.Jump? || i.CondJump?) && i.target == Perform(c, i, vals, r).target
    ensures Perform(c, i, vals, r).Go? ==> !i.Jump?
  {
    hide Arith, CellAddrs, RecordGet, RecordInsert, Text;
  }

  lemma FewerKnown(h: Hints, locals: seq<Value>, known: set<nat>, fewer: set<nat>)
    requires SoundLocals(h, locals, known) && fewer <= known
    ensures SoundLocals(h, locals, fewer)
  {
    hide Fits;
  }

  /** On every run, every value's type is among the hints of the temp or local that holds it. */
  lemma {:induction false} SoundRun(p: Program, h: Hints, known: seq<set<nat>>, s: State, n: nat)
    requires OwnSlots(p) && Closed(h, p.code) && AssignedBeforeRead(h, p.code, known) && Sound(h, known, s)
    ensures Run(p, s, n).Running? ==> Sound(h, known, Run(p, s, n).state)
    decreases n
  {
    hide Step, Closed, AssignedBeforeRead, Sound;
    if n > 0 {
      SoundStep(p, h, known, s);
      if Step(p, s).Running? { SoundRun(p, h, known, Step(p, s).state, n - 1); }
    }
  }

  /** At the entry no temp is written and no local known. */
  lemma EntrySound(h: Hints, code: seq<Ins>, known: seq<set<nat>>, rest: Rest)
    requires AssignedBeforeRead(h, code, known)
    ensures Sound(h, known, State(0, map[], rest))
  {
  }
}
