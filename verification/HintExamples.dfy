/** Code that loses an assert it needs: the conditions of the passes over hints are there for a reason. */
module HintExamples {
  import opened Runtime
  import opened Ir
  import opened TypeHints
  import opened HintSoundness
  import opened HintRewriting
  import opened TypeSpecialization
  import opened ConstantFolding
  import opened FoldingRuns
  import opened ObsoleteRemoval
  import opened PassPipeline

  // ----- why hinted locals must be assigned before they are read -----

  /** `fun(x) { y = x - 1; x = 3; }`: the parameter is hinted by the store behind the subtraction. */
  const LATE_STORE: seq<Ins> := [
    Assign(0, VarSrc(0)), Assign(1, ConstSrc(IntV(1))), AssertIns(AssertInt, 1), AssertIns(AssertInt, 0),
    BinIns(IrSub, 2, 1, 0), Store(VarDst(1), 2), Assign(3, ConstSrc(IntV(3))), Store(VarDst(0), 3),
    Assign(4, ConstSrc(NoneV)), ReturnIns(4)]

  const LATE_HINTS: Hints := Hints(
    map[0 := Hint(false, true, {IntK}, Number(0)), 1 := ConstHint(IntV(1)), 2 := Hint(false, true, {IntK}, Number(1)),
        3 := Hint(true, true, {IntK}, Number(0)), 4 := ConstHint(NoneV)],
    map[0 := Hint(false, true, {IntK}, Number(0)), 1 := Hint(false, true, {IntK}, Number(1))])

  lemma LateStep(h: Hints, k: nat, g: Hints)
    requires k < |LATE_STORE| && Propagate(h, LATE_STORE[..k]) == h && PropagateOne(h, LATE_STORE[k]) == g
    ensures Propagate(h, LATE_STORE[..k + 1]) == g
  {
    hide Propagate;
    PropagateSplit(h, LATE_STORE, k);
  }

  /** Nothing changes but that the stored constant loses its number, and gets it back. */
  lemma LateFixed()
    ensures Propagate(LATE_HINTS, LATE_STORE) == LATE_HINTS
  {
    var h := LATE_HINTS;
    var mid := h.(temps := h.temps[3 := ConstHint(IntV(3))]);
    LateOnes();
    assert LATE_STORE[..0] == [] && LATE_STORE[..10] == LATE_STORE;
    PropagateNothing(h);
    hide Propagate, PropagateOne;
    LateStep(h, 0, h);
    LateStep(h, 1, h);
    LateStep(h, 2, h);
    LateStep(h, 3, h);
    LateStep(h, 4, h);
    LateStep(h, 5, h);
    LateStep(h, 6, mid);
    PropagateSplit(h, LATE_STORE, 7);
    LateStep(h, 8, h);
    LateStep(h, 9, h);
  }

  lemma LateOnes()
    ensures forall k :: 0 <= k < 10 && k != 6 && k != 7 ==> PropagateOne(LATE_HINTS, LATE_STORE[k]) == LATE_HINTS
    ensures var mid := LATE_HINTS.(temps := LATE_HINTS.temps[3 := ConstHint(IntV(3))]);
            PropagateOne(LATE_HINTS, LATE_STORE[6]) == mid && PropagateOne(mid, LATE_STORE[7]) == LATE_HINTS
  {
    var h := LATE_HINTS;
    assert h.temps[0 := h.temps[0]] == h.temps && h.temps[1 := h.temps[1]] == h.temps && h.temps[4 := h.temps[4]] == h.temps;
    assert h.temps[2 := h.temps[2]] == h.temps && h.vars[1 := h.vars[1]] == h.vars;
    assert h.temps[3 := ConstHint(IntV(3))][3 := h.temps[3]] == h.temps && h.vars[0 := h.vars[0]] == h.vars;
    assert {IntK} + {IntK} == {IntK};
  }

  /**
    At this fixed point the assert on the parameter goes.  Called with a string the function
    fails there; without the assert the subtraction meets the string.
   */
  lemma LateStoreLosesAssert(c: Context, w: World)
    ensures Propagate(LATE_HINTS, LATE_STORE) == LATE_HINTS && Covered(LATE_HINTS, LATE_STORE)
    ensures Remove(LATE_HINTS, {}, LATE_STORE)[3] == Noop
    ensures var p := Program(LATE_STORE, (t: nat) => Slot(t), c);
            var start := State(0, map[], Rest(NoneV, [StrV("a"), NoneV], w));
            Run(p, start, 5) == Failed && Run(WithCode(p, Remove(LATE_HINTS, {}, LATE_STORE)), start, 5) == Wild
  {
    LateFixed();
    LateCovered();
    LateRemoved();
    hide Propagate, Covered, Remove, Run;
    var p := Program(LATE_STORE, (t: nat) => Slot(t), c);
    var r := Rest(NoneV, [StrV("a"), NoneV], w);
    LateRun(p, r, map[Slot(0) := StrV("a")], map[Slot(0) := StrV("a")][Slot(1) := IntV(1)]);
    LateRun(WithCode(p, Remove(LATE_HINTS, {}, LATE_STORE)), r, map[Slot(0) := StrV("a")], map[Slot(0) := StrV("a")][Slot(1) := IntV(1)]);
  }

  lemma LateCovered()
    ensures Covered(LATE_HINTS, LATE_STORE)
  {
    forall k | 0 <= k < 10 ensures Hintable(LATE_HINTS, LATE_STORE[k]) && StoreHinted(LATE_HINTS, LATE_STORE[k]) {
    }
    hide Hintable, StoreHinted;
  }

  lemma LateRemoved()
    ensures var code := Remove(LATE_HINTS, {}, LATE_STORE);
            && |code| == 10 && code[0] == LATE_STORE[0] && code[1] == LATE_STORE[1] && code[2] == Noop && code[3] == Noop
            && code[4] == LATE_STORE[4]
  {
    assert LATE_STORE[0] == Assign(0, VarSrc(0)) && LATE_STORE[1] == Assign(1, ConstSrc(IntV(1)));
    assert LATE_STORE[2] == AssertIns(AssertInt, 1) && LATE_STORE[3] == AssertIns(AssertInt, 0) && LATE_STORE[4] == BinIns(IrSub, 2, 1, 0);
  }

  /** The code of the example up to the subtraction, with or without its asserts. */
  ghost predicate LateCode(p: Program) {
    && OwnSlots(p) && |p.code| == 10
    && p.code[0] == LATE_STORE[0] && p.code[1] == LATE_STORE[1] && p.code[4] == LATE_STORE[4]
    && (p.code[2] == Noop || p.code[2] == LATE_STORE[2]) && (p.code[3] == Noop || p.code[3] == LATE_STORE[3])
  }

  lemma LateLoads(p: Program, r: Rest, temps: map<Place, Value>, both: map<Place, Value>)
    requires LateCode(p) && r.locals == [StrV("a"), NoneV]
    requires temps == map[Slot(0) := StrV("a")] && both == temps[Slot(1) := IntV(1)]
    ensures Step(p, State(0, map[], r)) == Running(State(1, temps, r)) && Step(p, State(1, temps, r)) == Running(State(2, both, r))
  {
    var none: map<Place, Value> := map[];
    assert none[Slot(0) := StrV("a")] == temps;
  }

  lemma LateAssert(p: Program, r: Rest, both: map<Place, Value>, pc: nat)
    requires LateCode(p) && both == map[Slot(0) := StrV("a")][Slot(1) := IntV(1)] && (pc == 2 || pc == 3)
    ensures Step(p, State(pc, both, r)) == if p.code[pc] == Noop || pc == 2 then Running(State(pc + 1, both, r)) else Failed
  {
    hide Arith, Unary, Text;
  }

  lemma LateOperator(p: Program, r: Rest, both: map<Place, Value>)
    requires LateCode(p) && both == map[Slot(0) := StrV("a")][Slot(1) := IntV(1)]
    ensures Step(p, State(4, both, r)) == Wild
  {
    hide Text;
  }

  lemma LateRun(p: Program, r: Rest, temps: map<Place, Value>, both: map<Place, Value>)
    requires LateCode(p) && r.locals == [StrV("a"), NoneV]
    requires temps == map[Slot(0) := StrV("a")] && both == temps[Slot(1) := IntV(1)]
    ensures Run(p, State(0, map[], r), 5) == if p.code[3] == Noop then Wild else Failed
  {
    LateLoads(p, r, temps, both);
    LateAssert(p, r, both, 2);
    LateAssert(p, r, both, 3);
    LateOperator(p, r, both);
    hide Step, Run;
    var s0, s3 := State(0, map[], r), State(3, both, r);
    RunNothing(p, s0);
    Then(p, s0, 0, s0, State(1, temps, r));
    Then(p, s0, 1, State(1, temps, r), State(2, both, r));
    Then(p, s0, 2, State(2, both, r), s3);
    TwoSteps(p, s3);
    Ir.RunCompose(p, s0, 3, 2);
  }

  // ----- why the propagation must have come to rest -----

  /** `x = 1; w = 1; v = 1; while (x > 0) { x = w; w = v; v = "s"; }`, every local assigned before it is read. */
  function Schedule(): seq<Ins> { StartPart() + TestPart() + BodyPart() + EndPart() }

  function StartPart(): seq<Ins> {
    [Assign(0, ConstSrc(IntV(1))), Store(VarDst(0), 0), Assign(1, ConstSrc(IntV(1))), Store(VarDst(1), 1),
     Assign(2, ConstSrc(IntV(1))), Store(VarDst(2), 2)]
  }

  function TestPart(): seq<Ins> {
    [OutputLabel(0), CollectIns, Assign(3, VarSrc(0)), Assign(4, ConstSrc(IntV(0))), AssertIns(AssertInt, 4), AssertIns(AssertInt, 3),
     BinIns(IrGt, 5, 4, 3), AssertIns(AssertBool, 5), CondJump(5, 1), Jump(2)]
  }

  function BodyPart(): seq<Ins> {
    [OutputLabel(1), Assign(6, VarSrc(1)), Store(VarDst(0), 6), Assign(7, VarSrc(2)), Store(VarDst(1), 7),
     Assign(8, ConstSrc(StrV("s"))), Store(VarDst(2), 8), Jump(0)]
  }

  function EndPart(): seq<Ins> { [OutputLabel(2), Assign(9, ConstSrc(NoneV)), ReturnIns(9)] }

  /** Where the parts are. */
  lemma Layout()
    ensures |Schedule()| == 27 && |StartPart()| == 6 && |TestPart()| == 10 && |BodyPart()| == 8 && |EndPart()| == 3
    ensures forall k :: 0 <= k < 6 ==> Schedule()[k] == StartPart()[k]
    ensures forall k :: 6 <= k < 16 ==> Schedule()[k] == TestPart()[k - 6]
    ensures forall k :: 16 <= k < 24 ==> Schedule()[k] == BodyPart()[k - 16]
    ensures forall k :: 24 <= k < 27 ==> Schedule()[k] == EndPart()[k - 24]
  {
    PartLengths();
    hide StartPart, TestPart, BodyPart, EndPart;
  }

  lemma PartLengths()
    ensures |StartPart()| == 6 && |TestPart()| == 10 && |BodyPart()| == 8 && |EndPart()| == 3
  {
  }

  /** The code in front of the loop. */
  lemma StartIs()
    ensures |Schedule()| == 27
    ensures Schedule()[0] == Assign(0, ConstSrc(IntV(1))) && Schedule()[1] == Store(VarDst(0), 0)
    ensures Schedule()[2] == Assign(1, ConstSrc(IntV(1))) && Schedule()[3] == Store(VarDst(1), 1)
    ensures Schedule()[4] == Assign(2, ConstSrc(IntV(1))) && Schedule()[5] == Store(VarDst(2), 2)
  {
    Layout();
    hide Schedule, TestPart, BodyPart, EndPart;
  }

  /** The condition of the loop. */
  lemma TestIs()
    ensures |Schedule()| == 27
    ensures Schedule()[6] == OutputLabel(0) && Schedule()[7] == CollectIns
    ensures Schedule()[8] == Assign(3, VarSrc(0)) && Schedule()[9] == Assign(4, ConstSrc(IntV(0)))
    ensures Schedule()[10] == AssertIns(AssertInt, 4) && Schedule()[11] == AssertIns(AssertInt, 3)
    ensures Schedule()[12] == BinIns(IrGt, 5, 4, 3) && Schedule()[13] == AssertIns(AssertBool, 5)
    ensures Schedule()[14] == CondJump(5, 1) && Schedule()[15] == Jump(2)
  {
    Layout();
    hide Schedule, StartPart, BodyPart, EndPart;
  }

  lemma BodyIs()
    ensures |Schedule()| == 27 && Schedule()[16] == OutputLabel(1)
    ensures Schedule()[17] == Assign(6, VarSrc(1)) && Schedule()[18] == Store(VarDst(0), 6)
    ensures Schedule()[19] == Assign(7, VarSrc(2)) && Schedule()[20] == Store(VarDst(1), 7)
    ensures Schedule()[21] == Assign(8, ConstSrc(StrV("s"))) && Schedule()[22] == Store(VarDst(2), 8) && Schedule()[23] == Jump(0)
  {
    Layout();
    hide Schedule, StartPart, TestPart, EndPart;
  }

  lemma EndIs()
    ensures |Schedule()| == 27
    ensures Schedule()[24] == OutputLabel(2) && Schedule()[25] == Assign(9, ConstSrc(NoneV)) && Schedule()[26] == ReturnIns(9)
  {
    Layout();
    hide Schedule, StartPart, TestPart, BodyPart;
  }

  ghost predicate VarTypes(h: Hints, x: set<Kind>, w: set<Kind>, v: set<Kind>) {
    VarHint(h, 0).types == x && VarHint(h, 1).types == w && VarHint(h, 2).types == v
  }

  /** An instruction that hands on no types. */
  predicate Idle(i: Ins) { !i.Assign? && !i.Store? && !i.BinIns? && !i.UnIns? && !i.Fork? }

  lemma {:induction false} IdlePass(h: Hints, code: seq<Ins>, a: nat, b: nat)
    requires a <= b <= |code| && forall k :: a <= k < b ==> Idle(code[k])
    ensures Propagate(h, code[..b]) == Propagate(h, code[..a]) && Construct(code[..b]) == Construct(code[..a])
    decreases b
  {
    if a < b {
      IdlePass(h, code, a, b - 1);
      PropagateSplit(h, code, b - 1);
      ConstructSplit(code, b - 1);
    }
  }

  lemma ConstructSplit(code: seq<Ins>, k: nat)
    requires k < |code|
    ensures Construct(code[..k + 1]) == ConstructOne(Construct(code[..k]), code[k])
  {
    assert code[..k + 1][..k] == code[..k];
  }

  /** Where the program has neither label, jump nor assert. */
  lemma IdleParts()
    ensures |Schedule()| == 27
    ensures (forall k :: 6 <= k < 8 ==> Idle(Schedule()[k])) && (forall k :: 10 <= k < 12 ==> Idle(Schedule()[k]))
    ensures (forall k :: 13 <= k < 17 ==> Idle(Schedule()[k])) && (forall k :: 23 <= k < 25 ==> Idle(Schedule()[k])) && Idle(Schedule()[26])
  {
    TestIs();
    BodyIs();
    EndIs();
    hide Schedule;
  }

  lemma ScheduleStart(h: Hints, x: set<Kind>, w: set<Kind>, v: set<Kind>)
    requires VarTypes(h, x, w, v) && IntK in x && IntK in w && IntK in v
    ensures var g := Propagate(h, Schedule()[..6]); VarTypes(g, x, w, v) && TempHint(g, 5) == TempHint(h, 5)
  {
    hide Propagate, Schedule;
    StartIs();
    assert Schedule()[..0] == [];
    PropagateNothing(h);
    PropagateSplit(h, Schedule(), 0);
    PropagateSplit(h, Schedule(), 1);
    PropagateSplit(h, Schedule(), 2);
    PropagateSplit(h, Schedule(), 3);
    PropagateSplit(h, Schedule(), 4);
    PropagateSplit(h, Schedule(), 5);
    assert x + {IntK} == x && w + {IntK} == w && v + {IntK} == v;
  }

  /** The condition reads `x` before the body hands it new types. */
  lemma ScheduleTest(h: Hints, x: set<Kind>, w: set<Kind>, v: set<Kind>)
    requires VarTypes(Propagate(h, Schedule()[..6]), x, w, v)
    ensures var g := Propagate(h, Schedule()[..17]);
            && VarTypes(g, x, w, v) && TempHint(g, 3).types == x && TempHint(g, 4).types == {IntK}
            && TempHint(g, 5) == TempHint(Propagate(h, Schedule()[..6]), 5)
  {
    hide Propagate, Construct, Idle, Schedule;
    TestIs();
    IdleParts();
    IdlePass(h, Schedule(), 6, 8);
    IdlePass(h, Schedule(), 10, 12);
    IdlePass(h, Schedule(), 13, 17);
    PropagateSplit(h, Schedule(), 8);
    PropagateSplit(h, Schedule(), 9);
    PropagateSplit(h, Schedule(), 12);
  }

  function SourceTypes(h: Hints, src: Source): set<Kind> {
    match src
    case VarSrc(k) => VarHint(h, k).types
    case ConstSrc(v) => {KindOf(v)}
    case _ => {}
  }

  /** `g` is `h` after the types of a source came to variable `j`, by way of temp `t`. */
  ghost predicate HandedOn(h: Hints, g: Hints, t: nat, src: Source, j: nat) {
    && VarHint(g, j).types == VarHint(h, j).types + SourceTypes(h, src)
    && (forall k: nat :: k != j ==> VarHint(g, k) == VarHint(h, k)) && (forall u: nat :: u != t ==> TempHint(g, u) == TempHint(h, u))
  }

  /** An assignment and a store, as both the constructors and the propagation take them. */
  lemma HandsOn(h: Hints, t: nat, src: Source, j: nat)
    requires src.VarSrc? || src.ConstSrc?
    ensures HandedOn(h, PropagateOne(PropagateOne(h, Assign(t, src)), Store(VarDst(j), t)), t, src, j)
    ensures HandedOn(h, ConstructOne(ConstructOne(h, Assign(t, src)), Store(VarDst(j), t)), t, src, j)
  {
  }

  /** Six instructions that hand on types. */
  ghost predicate BodyHands(h: Hints, g: Hints) {
    exists h1, h2 :: HandedOn(h, h1, 6, VarSrc(1), 0) && HandedOn(h1, h2, 7, VarSrc(2), 1) && HandedOn(h2, g, 8, ConstSrc(StrV("s")), 2)
  }

  lemma BodyRuns(h: Hints)
    ensures BodyHands(Propagate(h, Schedule()[..17]), Propagate(h, Schedule()[..23]))
    ensures BodyHands(Construct(Schedule()[..17]), Construct(Schedule()[..23]))
  {
    hide Propagate, PropagateOne, Construct, ConstructOne, HandedOn, Schedule;
    BodyIs();
    EndIs();
    PropagateSplit(h, Schedule(), 17);
    PropagateSplit(h, Schedule(), 18);
    PropagateSplit(h, Schedule(), 19);
    PropagateSplit(h, Schedule(), 20);
    PropagateSplit(h, Schedule(), 21);
    PropagateSplit(h, Schedule(), 22);
    HandsOn(Propagate(h, Schedule()[..17]), 6, VarSrc(1), 0);
    HandsOn(Propagate(h, Schedule()[..19]), 7, VarSrc(2), 1);
    HandsOn(Propagate(h, Schedule()[..21]), 8, ConstSrc(StrV("s")), 2);
    ConstructSplit(Schedule(), 17);
    ConstructSplit(Schedule(), 18);
    ConstructSplit(Schedule(), 19);
    ConstructSplit(Schedule(), 20);
    ConstructSplit(Schedule(), 21);
    ConstructSplit(Schedule(), 22);
    HandsOn(Construct(Schedule()[..17]), 6, VarSrc(1), 0);
    HandsOn(Construct(Schedule()[..19]), 7, VarSrc(2), 1);
    HandsOn(Construct(Schedule()[..21]), 8, ConstSrc(StrV("s")), 2);
  }

  /** Behind the body nothing is handed on but to the last temp. */
  lemma BodyEnds(h: Hints)
    ensures forall k: nat :: VarHint(Propagate(h, Schedule()), k) == VarHint(Propagate(h, Schedule()[..23]), k)
    ensures forall t: nat :: t != 9 ==> TempHint(Propagate(h, Schedule()), t) == TempHint(Propagate(h, Schedule()[..23]), t)
    ensures forall k: nat :: VarHint(Construct(Schedule()), k) == VarHint(Construct(Schedule()[..23]), k)
    ensures forall t: nat :: t != 9 ==> TempHint(Construct(Schedule()), t) == TempHint(Construct(Schedule()[..23]), t)
  {
    hide Propagate, Construct, Idle, Schedule;
    IdleParts();
    BodyIs();
    EndIs();
    IdlePass(h, Schedule(), 23, 25);
    PropagateSplit(h, Schedule(), 25);
    ConstructSplit(Schedule(), 25);
    IdlePass(h, Schedule(), 26, 27);
    assert Schedule()[..27] == Schedule();
  }

  lemma HandsTypes(h: Hints, g: Hints, x: set<Kind>, w: set<Kind>, v: set<Kind>)
    requires VarTypes(h, x, w, v) && BodyHands(h, g)
    ensures VarTypes(g, x + w, w + v, v + {StringK})
    ensures TempHint(g, 3) == TempHint(h, 3) && TempHint(g, 4) == TempHint(h, 4) && TempHint(g, 5) == TempHint(h, 5)
  {
  }

  lemma ScheduleBody(h: Hints, x: set<Kind>, w: set<Kind>, v: set<Kind>)
    requires VarTypes(Propagate(h, Schedule()[..17]), x, w, v)
    ensures var f, g := Propagate(h, Schedule()[..17]), Propagate(h, Schedule());
            && VarTypes(g, x + w, w + v, v + {StringK})
            && TempHint(g, 3) == TempHint(f, 3) && TempHint(g, 4) == TempHint(f, 4) && TempHint(g, 5) == TempHint(f, 5)
  {
    hide Propagate, Construct, BodyHands;
    BodyRuns(h);
    BodyEnds(h);
    HandsTypes(Propagate(h, Schedule()[..17]), Propagate(h, Schedule()[..23]), x, w, v);
  }

  /** One propagation moves the types one variable further. */
  lemma SchedulePass(h: Hints, x: set<Kind>, w: set<Kind>, v: set<Kind>)
    requires VarTypes(h, x, w, v) && IntK in x && IntK in w && IntK in v
    ensures var g := Propagate(h, Schedule());
            && VarTypes(g, x + w, w + v, v + {StringK}) && TempHint(g, 3).types == x && TempHint(g, 4).types == {IntK}
            && TempHint(g, 5) == TempHint(h, 5)
  {
    hide Propagate, VarTypes;
    ScheduleStart(h, x, w, v);
    ScheduleTest(h, x, w, v);
    ScheduleBody(h, x, w, v);
  }

  lemma ConstructedStart()
    ensures VarTypes(Construct(Schedule()[..6]), {IntK}, {IntK}, {IntK})
  {
    hide Construct, Schedule;
    StartIs();
    assert Schedule()[..0] == [] && Construct([]) == Hints(map[], map[]) by { ConstructNothing(); }
    ConstructSplit(Schedule(), 0);
    ConstructSplit(Schedule(), 1);
    ConstructSplit(Schedule(), 2);
    ConstructSplit(Schedule(), 3);
    ConstructSplit(Schedule(), 4);
    ConstructSplit(Schedule(), 5);
  }

  lemma ConstructNothing()
    ensures Construct([]) == Hints(map[], map[])
  {
  }

  lemma ConstructedTest()
    requires VarTypes(Construct(Schedule()[..6]), {IntK}, {IntK}, {IntK}) && 5 !in Construct(Schedule()[..6]).temps
    ensures VarTypes(Construct(Schedule()[..17]), {IntK}, {IntK}, {IntK}) && TempHint(Construct(Schedule()[..17]), 5).types == {BoolK}
  {
    hide Propagate, Construct, Idle, Schedule;
    TestIs();
    var h := Hints(map[], map[]);
    IdleParts();
    IdlePass(h, Schedule(), 6, 8);
    IdlePass(h, Schedule(), 10, 12);
    IdlePass(h, Schedule(), 13, 17);
    ConstructSplit(Schedule(), 8);
    ConstructSplit(Schedule(), 9);
    ConstructSplit(Schedule(), 12);
  }

  lemma ConstructedBody()
    requires VarTypes(Construct(Schedule()[..17]), {IntK}, {IntK}, {IntK})
    ensures VarTypes(Construct(Schedule()), {IntK}, {IntK}, {IntK, StringK})
    ensures TempHint(Construct(Schedule()), 5) == TempHint(Construct(Schedule()[..17]), 5)
  {
    hide Propagate, Construct, BodyHands;
    var h := Hints(map[], map[]);
    BodyRuns(h);
    BodyEnds(h);
    HandsTypes(Construct(Schedule()[..17]), Construct(Schedule()[..23]), {IntK}, {IntK}, {IntK});
    assert {IntK} + {IntK} == {IntK} && {IntK} + {StringK} == {IntK, StringK};
  }

  // ----- nothing to fold, nothing to specialize -----

  predicate Untouched(i: Ins) { !i.UnIns? && (i.BinIns? ==> i.bop == IrGt) }

  lemma {:induction false} NothingFolded(errors: bool, h: Hints, code: seq<Ins>, k: nat)
    requires k <= |code| && forall i :: i in code ==> Untouched(i)
    ensures FoldTo(errors, h, code, k) == Some(Pass(h, code, {}))
    decreases k
  {
    if k > 0 {
      NothingFolded(errors, h, code, k - 1);
      assert code[k - 1] in code;
    }
  }

  lemma {:induction false} NothingSpecialized(h: Hints, code: seq<Ins>)
    requires forall i :: i in code ==> Untouched(i)
    ensures Specialize(h, code) == (h, code)
    decreases |code|
  {
    if code != [] {
      var init, last := code[..|code| - 1], code[|code| - 1];
      assert code == init + [last] && last in code;
      NothingSpecialized(h, init);
    }
  }

  /** The hints and the code that the schedule of the program comes to. */
  lemma ScheduleOptimized(errors: bool)
    ensures var o := Optimize(errors, Schedule(), 1, 1);
            && o.Some? && o.value.result == Remove(o.value.last, {}, Schedule())
            && TempHint(o.value.last, 3).types == {IntK} && TempHint(o.value.last, 4).types == {IntK}
            && TempHint(o.value.last, 5).types == {BoolK}
            && VarTypes(o.value.last, {IntK, StringK}, {IntK, StringK}, {IntK, StringK})
  {
    hide Construct, Propagate, Remove, VarTypes, FoldTo, Specialize, Schedule;
    ConstructedStart();
    ConstructedTemps();
    ConstructedTest();
    ConstructedBody();
    var h0 := Construct(Schedule());
    var h1 := Propagate(h0, Schedule());
    SchedulePass(h0, {IntK}, {IntK}, {IntK, StringK});
    assert {IntK} + {IntK} == {IntK} && {IntK} + {IntK, StringK} == {IntK, StringK} && {IntK, StringK} + {StringK} == {IntK, StringK};
    assert {IntK, StringK} + {IntK, StringK} == {IntK, StringK};
    SchedulePass(h1, {IntK}, {IntK, StringK}, {IntK, StringK});
    AllUntouched();
    NothingFolded(errors, h1, Schedule(), 27);
    NothingSpecialized(h1, Schedule());
    PropagateOnce(h0, Schedule());
    PropagateOnce(h1, Schedule());
  }

  lemma PropagateOnce(h: Hints, code: seq<Ins>)
    ensures PropagateTimes(h, code, 1) == Propagate(h, code)
  {
    hide Propagate;
    assert PropagateTimes(h, code, 0) == h;
  }

  lemma AllUntouched()
    ensures |Schedule()| == 27 && forall i :: i in Schedule() ==> Untouched(i)
  {
    Layout();
    PartsUntouched();
    hide Schedule, StartPart, TestPart, BodyPart, EndPart, Untouched;
  }

  lemma PartsUntouched()
    ensures forall i :: i in StartPart() || i in BodyPart() || i in EndPart() || i in TestPart() ==> Untouched(i)
  {
  }

  lemma ConstructedTemps()
    ensures 5 !in Construct(Schedule()[..6]).temps
  {
    hide Construct, Schedule;
    StartIs();
    assert Schedule()[..0] == [] && Construct([]) == Hints(map[], map[]) by { ConstructNothing(); }
    ConstructSplit(Schedule(), 0);
    ConstructSplit(Schedule(), 1);
    ConstructSplit(Schedule(), 2);
    ConstructSplit(Schedule(), 3);
    ConstructSplit(Schedule(), 4);
    ConstructSplit(Schedule(), 5);
  }

  // ----- its runs -----

  /** The code of the example, with or without its asserts. */
  ghost predicate ScheduleCode(p: Program) {
    && OwnSlots(p) && |p.code| == 27
    && forall k :: 0 <= k < 27 ==> p.code[k] == Schedule()[k] || ((k == 10 || k == 11 || k == 13) && p.code[k] == Noop)
  }

  lemma Then(p: Program, s: State, n: nat, t: State, u: State)
    requires Run(p, s, n) == Running(t) && Step(p, t) == Running(u)
    ensures Run(p, s, n + 1) == Running(u)
  {
    hide Step;
    assert Run(p, u, 0) == Running(u);
    assert Run(p, t, 1) == Running(u);
    Ir.RunCompose(p, s, n, 1);
  }

  lemma AssignsVar(p: Program, s: State, t: nat, k: nat) returns (u: State)
    requires OwnSlots(p) && s.pc < |p.code| && p.code[s.pc] == Assign(t, VarSrc(k)) && k < |s.rest.locals|
    ensures Step(p, s) == Running(u) && u == State(s.pc + 1, s.temps[Slot(t) := s.rest.locals[k]], s.rest)
  {
    u := State(s.pc + 1, s.temps[Slot(t) := s.rest.locals[k]], s.rest);
  }

  lemma AssignsConst(p: Program, s: State, t: nat, v: Value) returns (u: State)
    requires OwnSlots(p) && s.pc < |p.code| && p.code[s.pc] == Assign(t, ConstSrc(v))
    ensures Step(p, s) == Running(u) && u == State(s.pc + 1, s.temps[Slot(t) := v], s.rest)
  {
    u := State(s.pc + 1, s.temps[Slot(t) := v], s.rest);
  }

  lemma StoresVar(p: Program, s: State, t: nat, k: nat) returns (u: State)
    requires OwnSlots(p) && s.pc < |p.code| && p.code[s.pc] == Store(VarDst(k), t) && k < |s.rest.locals| && Slot(t) in s.temps
    ensures Step(p, s) == Running(u)
    ensures u == State(s.pc + 1, s.temps, s.rest.(locals := s.rest.locals[k := s.temps[Slot(t)]]))
  {
    u := State(s.pc + 1, s.temps, s.rest.(locals := s.rest.locals[k := s.temps[Slot(t)]]));
  }

  /** Labels, collections, no-ops and asserts that hold. */
  lemma Passes(p: Program, s: State) returns (u: State)
    requires OwnSlots(p) && s.pc < |p.code|
    requires var i := p.code[s.pc];
             i.OutputLabel? || i.CollectIns? || i.Noop? || (i.AssertIns? && Slot(i.arg) in s.temps && Holds(i.kind, s.temps[Slot(i.arg)]))
    ensures Step(p, s) == Running(u) && u == s.(pc := s.pc + 1)
  {
    u := s.(pc := s.pc + 1);
  }

  lemma Compares(p: Program, s: State, x: int) returns (u: State)
    requires OwnSlots(p) && s.pc < |p.code| && p.code[s.pc] == BinIns(IrGt, 5, 4, 3)
    requires Slot(3) in s.temps && Slot(4) in s.temps && s.temps[Slot(3)] == IntV(x) && s.temps[Slot(4)] == IntV(0)
    ensures Step(p, s) == Running(u) && u == State(s.pc + 1, s.temps[Slot(5) := BoolV(x > 0)], s.rest)
  {
    u := State(s.pc + 1, s.temps[Slot(5) := BoolV(x > 0)], s.rest);
  }

  lemma Branches(p: Program, s: State) returns (u: State)
    requires ScheduleCode(p) && s.pc == 14 && Slot(5) in s.temps && s.temps[Slot(5)] == BoolV(true)
    ensures Step(p, s) == Running(u) && u == s.(pc := 16)
  {
    hide Schedule, FindLabel, ScheduleCode, Step;
    CodeParts(p);
    JumpCode(p);
    CodeLabels(p);
    TakesJump(p, s, 5, 1);
    u := s.(pc := 16);
  }

  lemma JumpsBack(p: Program, s: State) returns (u: State)
    requires ScheduleCode(p) && s.pc == 23
    ensures Step(p, s) == Running(u) && u == s.(pc := 6)
  {
    hide Schedule, FindLabel, ScheduleCode, Step;
    CodeParts(p);
    JumpCode(p);
    CodeLabels(p);
    Jumps(p, s, 0);
    u := s.(pc := 6);
  }

  lemma JumpCode(p: Program)
    requires ScheduleCode(p)
    ensures p.code[14] == CondJump(5, 1) && p.code[23] == Jump(0)
  {
    hide Schedule;
    TestIs();
    BodyIs();
  }

  lemma TakesJump(p: Program, s: State, c: nat, l: nat)
    requires OwnSlots(p) && s.pc < |p.code| && p.code[s.pc] == CondJump(c, l) && Slot(c) in s.temps && s.temps[Slot(c)] == BoolV(true)
    ensures Step(p, s) == Running(s.(pc := FindLabel(p.code, l)))
  {
    hide FindLabel;
  }

  lemma Jumps(p: Program, s: State, l: nat)
    requires s.pc < |p.code| && p.code[s.pc] == Jump(l)
    ensures Step(p, s) == Running(s.(pc := FindLabel(p.code, l)))
  {
    hide FindLabel;
  }

  lemma StartCode(p: Program)
    requires ScheduleCode(p)
    ensures |Schedule()| == 27 && forall k :: 0 <= k < 6 ==> p.code[k] == Schedule()[k]
  {
    hide Schedule;
    StartIs();
  }

  lemma TestCode(p: Program)
    requires ScheduleCode(p)
    ensures p.code[6] == OutputLabel(0) && p.code[7] == CollectIns && p.code[8] == Assign(3, VarSrc(0)) && p.code[9] == Assign(4, ConstSrc(IntV(0)))
    ensures p.code[10] == Noop || p.code[10] == AssertIns(AssertInt, 4)
    ensures p.code[11] == Noop || p.code[11] == AssertIns(AssertInt, 3)
    ensures p.code[12] == BinIns(IrGt, 5, 4, 3) && (p.code[13] == Noop || p.code[13] == AssertIns(AssertBool, 5))
  {
    hide Schedule;
    StartIs();
    TestIs();
  }

  lemma RestCode(p: Program)
    requires ScheduleCode(p)
    ensures p.code[16] == OutputLabel(1)
    ensures forall k :: 17 <= k < 23 ==> p.code[k] == Schedule()[k]
  {
    BodyIs();
    hide Schedule;
  }

  /** The three labels of the loop. */
  lemma ScheduleLabels(k: nat)
    requires k < 27
    ensures |Schedule()| == 27 && (Schedule()[k].OutputLabel? <==> k == 6 || k == 16 || k == 24)
  {
    hide Schedule;
    if k < 6 {
      StartIs();
    } else if k < 16 {
      TestIs();
    } else if k < 24 {
      BodyIs();
    } else {
      EndIs();
    }
  }

  /** The labels are where they were, whichever asserts went. */
  lemma CodeLabels(p: Program)
    requires ScheduleCode(p)
    ensures FindLabel(p.code, 0) == 6 && FindLabel(p.code, 1) == 16
  {
    TestIs();
    BodyIs();
    hide Schedule;
    forall k | 0 <= k < 16 ensures p.code[k].OutputLabel? ==> k == 6 {
      ScheduleLabels(k);
    }
    FindLabelAt(p.code, 0, 6);
    FindLabelAt(p.code, 1, 16);
  }

  lemma StartRun(p: Program, r: Rest) returns (u: State)
    requires ScheduleCode(p) && |r.locals| == 3
    ensures Run(p, State(0, map[], r), 6) == Running(u) && u.pc == 6 && u.rest == r.(locals := [IntV(1), IntV(1), IntV(1)])
  {
    hide Step, ScheduleCode, Schedule;
    StartIs();
    StartCode(p);
    CodeParts(p);
    var s0 := State(0, map[], r);
    assert Run(p, s0, 0) == Running(s0);
    var s1 := AssignsConst(p, s0, 0, IntV(1));
    Then(p, s0, 0, s0, s1);
    var s2 := StoresVar(p, s1, 0, 0);
    Then(p, s0, 1, s1, s2);
    var s3 := AssignsConst(p, s2, 1, IntV(1));
    Then(p, s0, 2, s2, s3);
    var s4 := StoresVar(p, s3, 1, 1);
    Then(p, s0, 3, s3, s4);
    var s5 := AssignsConst(p, s4, 2, IntV(1));
    Then(p, s0, 4, s4, s5);
    u := StoresVar(p, s5, 2, 2);
    Then(p, s0, 5, s5, u);
  }

  lemma CodeParts(p: Program)
    requires ScheduleCode(p)
    ensures OwnSlots(p) && |p.code| == 27
  {
  }

  /** Up to the assert on `x`. */
  lemma TestRun(p: Program, s: State) returns (u: State)
    requires ScheduleCode(p) && s.pc == 6 && |s.rest.locals| == 3
    ensures Run(p, s, 5) == Running(u)
    ensures u == State(11, s.temps[Slot(3) := s.rest.locals[0]][Slot(4) := IntV(0)], s.rest)
  {
    hide Step, ScheduleCode, Run;
    TestCode(p);
    CodeParts(p);
    RunNothing(p, s);
    var s1 := Passes(p, s);
    Then(p, s, 0, s, s1);
    var s2 := Passes(p, s1);
    Then(p, s, 1, s1, s2);
    var s3 := AssignsVar(p, s2, 3, 0);
    Then(p, s, 2, s2, s3);
    var s4 := AssignsConst(p, s3, 4, IntV(0));
    Then(p, s, 3, s3, s4);
    u := Passes(p, s4);
    Then(p, s, 4, s4, u);
  }

  lemma RunNothing(p: Program, s: State)
    ensures Run(p, s, 0) == Running(s)
  {
    hide Step;
  }

  /** From the assert on `x` into the body, while `x` is positive. */
  lemma GuardRun(p: Program, s: State, x: int) returns (u: State)
    requires ScheduleCode(p) && s.pc == 11 && x > 0
    requires Slot(3) in s.temps && Slot(4) in s.temps && s.temps[Slot(3)] == IntV(x) && s.temps[Slot(4)] == IntV(0)
    ensures Run(p, s, 5) == Running(u) && u.pc == 17 && u.rest == s.rest
  {
    hide Step, ScheduleCode, Run;
    TestCode(p);
    RestCode(p);
    CodeParts(p);
    RunNothing(p, s);
    var s1 := Passes(p, s);
    Then(p, s, 0, s, s1);
    var s2 := Compares(p, s1, x);
    Then(p, s, 1, s1, s2);
    var s3 := Passes(p, s2);
    Then(p, s, 2, s2, s3);
    var s4 := Branches(p, s3);
    Then(p, s, 3, s3, s4);
    u := Passes(p, s4);
    Then(p, s, 4, s4, u);
  }

  lemma BodyRun(p: Program, s: State) returns (u: State)
    requires ScheduleCode(p) && s.pc == 17 && |s.rest.locals| == 3
    ensures Run(p, s, 7) == Running(u) && u.pc == 6
    ensures u.rest == s.rest.(locals := [s.rest.locals[1], s.rest.locals[2], StrV("s")])
  {
    hide Step, ScheduleCode, Run;
    RestCode(p);
    BodyIs();
    EndIs();
    CodeParts(p);
    RunNothing(p, s);
    var s1 := AssignsVar(p, s, 6, 1);
    Then(p, s, 0, s, s1);
    var s2 := StoresVar(p, s1, 6, 0);
    Then(p, s, 1, s1, s2);
    var s3 := AssignsVar(p, s2, 7, 2);
    Then(p, s, 2, s2, s3);
    var s4 := StoresVar(p, s3, 7, 1);
    Then(p, s, 3, s3, s4);
    var s5 := AssignsConst(p, s4, 8, StrV("s"));
    Then(p, s, 4, s4, s5);
    var s6 := StoresVar(p, s5, 8, 2);
    Then(p, s, 5, s5, s6);
    u := JumpsBack(p, s6);
    Then(p, s, 6, s6, u);
    assert s6.rest.locals == [s.rest.locals[1], s.rest.locals[2], StrV("s")];
  }

  /** One turn of the loop moves the values one variable further. */
  lemma TurnRun(p: Program, s: State, x: int) returns (u: State)
    requires ScheduleCode(p) && s.pc == 6 && |s.rest.locals| == 3 && s.rest.locals[0] == IntV(x) && x > 0
    ensures Run(p, s, 17) == Running(u) && u.pc == 6
    ensures u.rest == s.rest.(locals := [s.rest.locals[1], s.rest.locals[2], StrV("s")])
  {
    hide Step, ScheduleCode, Run;
    var s1 := TestRun(p, s);
    var s2 := GuardRun(p, s1, x);
    u := BodyRun(p, s2);
    Ir.RunCompose(p, s, 5, 5);
    Ir.RunCompose(p, s, 10, 7);
  }

  /** With a string in `x` the assert fails; without it the comparison meets the string. */
  lemma StringRun(p: Program, s: State)
    requires ScheduleCode(p) && s.pc == 6 && |s.rest.locals| == 3 && s.rest.locals[0] == StrV("s")
    ensures Run(p, s, 7) == if p.code[11] == Noop then Wild else Failed
  {
    hide ScheduleCode, Run, Step;
    TestCode(p);
    CodeParts(p);
    var s1 := TestRun(p, s);
    Ir.RunCompose(p, s, 5, 2);
    if p.code[11] == Noop {
      var s2 := Passes(p, s1);
      WildCompare(p, s2);
      TwoSteps(p, s1);
    } else {
      FailingAssert(p, s1);
      TwoSteps(p, s1);
    }
  }

  lemma TwoSteps(p: Program, s: State)
    ensures var o := Step(p, s); Run(p, s, 2) == if o.Running? then Step(p, o.state) else o
  {
    hide Step;
    var o := Step(p, s);
    if o.Running? {
      var q := Step(p, o.state);
      if q.Running? { assert Run(p, q.state, 0) == q; }
      assert Run(p, o.state, 1) == q;
    }
  }

  lemma WildCompare(p: Program, s: State)
    requires OwnSlots(p) && s.pc < |p.code| && p.code[s.pc] == BinIns(IrGt, 5, 4, 3)
    requires Slot(3) in s.temps && Slot(4) in s.temps && s.temps[Slot(3)].StrV?
    ensures Step(p, s) == Wild
  {
  }

  lemma FailingAssert(p: Program, s: State)
    requires OwnSlots(p) && s.pc < |p.code| && p.code[s.pc] == AssertIns(AssertInt, 3)
    requires Slot(3) in s.temps && s.temps[Slot(3)].StrV?
    ensures Step(p, s) == Failed
  {
  }

  lemma ScheduleRun(p: Program, r: Rest)
    requires ScheduleCode(p) && |r.locals| == 3
    ensures Run(p, State(0, map[], r), 64) == if p.code[11] == Noop then Wild else Failed
  {
    hide ScheduleCode, Run, Step;
    var s0 := State(0, map[], r);
    var s1 := StartRun(p, r);
    var s2 := TurnRun(p, s1, 1);
    var s3 := TurnRun(p, s2, 1);
    var s4 := TurnRun(p, s3, 1);
    StringRun(p, s4);
    Ir.RunCompose(p, s0, 6, 17);
    Ir.RunCompose(p, s0, 23, 17);
    Ir.RunCompose(p, s0, 40, 17);
    Ir.RunCompose(p, s0, 57, 7);
  }

  // ----- what the schedule makes of it -----

  lemma ScheduleRemoved(h: Hints, c: Context)
    requires TempHint(h, 3).types == {IntK} && TempHint(h, 4).types == {IntK} && TempHint(h, 5).types == {BoolK}
    ensures ScheduleCode(Program(Schedule(), (t: nat) => Slot(t), c))
    ensures var q := Program(Remove(h, {}, Schedule()), (t: nat) => Slot(t), c); ScheduleCode(q) && q.code[11] == Noop
  {
    hide Schedule, RemoveOne;
    RemovedAsserts(h);
    forall k | 0 <= k < 27 && k != 10 && k != 11 && k != 13 ensures RemoveOne(h, {}, Schedule()[k]) == Schedule()[k] {
      FewAsserts(k);
      Unremoved(h, Schedule()[k]);
    }
  }

  lemma RemovedAsserts(h: Hints)
    requires TempHint(h, 3).types == {IntK} && TempHint(h, 4).types == {IntK} && TempHint(h, 5).types == {BoolK}
    ensures |Schedule()| == 27
    ensures RemoveOne(h, {}, Schedule()[10]) == RemoveOne(h, {}, Schedule()[11]) == RemoveOne(h, {}, Schedule()[13]) == Noop
  {
    hide Schedule;
    TestIs();
  }

  lemma Unremoved(h: Hints, i: Ins)
    requires !i.AssertIns?
    ensures RemoveOne(h, {}, i) == i
  {
  }

  lemma FewAsserts(k: nat)
    requires k < 27 && k != 10 && k != 11 && k != 13
    ensures |Schedule()| == 27 && !Schedule()[k].AssertIns?
  {
    hide Schedule;
    if k < 6 {
      StartIs();
    } else if k < 16 {
      TestIs();
    } else if k < 24 {
      BodyIs();
    } else {
      EndIs();
    }
  }

  /** Which of the three locals are assigned at each point. */
  function ScheduleKnown(): (known: seq<set<nat>>)
    ensures |known| == 28 && known[0] == known[1] == {} && known[2] == known[3] == {0} && known[4] == known[5] == {0, 1}
    ensures forall p :: 6 <= p < 28 ==> known[p] == {0, 1, 2}
  {
    seq(28, p => if p < 2 then {} else if p < 4 then {0} else if p < 6 then {0, 1} else {0, 1, 2})
  }

  lemma StartAssigned(h: Hints, p: nat)
    requires p < 6
    ensures AssignedOne(h, Schedule(), ScheduleKnown(), p)
  {
    StartIs();
    hide FindLabel, ScheduleKnown, Schedule;
  }

  lemma ThreeLocals(p: nat)
    requires p < 27
    ensures |Schedule()| == 27 && (Schedule()[p].Assign? && Schedule()[p].src.VarSrc? ==> Schedule()[p].src.num in {0, 1, 2})
  {
    StartIs();
    TestIs();
    BodyIs();
    EndIs();
    hide Schedule;
  }

  lemma KnownAtMost(p: nat)
    requires p < 28
    ensures ScheduleKnown()[p] <= {0, 1, 2}
  {
  }

  /** In the loop all three are known. */
  lemma LoopAssigned(h: Hints, p: nat)
    requires 6 <= p < 27
    ensures AssignedOne(h, Schedule(), ScheduleKnown(), p)
  {
    ThreeLocals(p);
    var i := Schedule()[p];
    if i.Jump? || i.CondJump? { KnownAtMost(FindLabel(Schedule(), i.target)); }
    hide FindLabel, ScheduleKnown, Schedule;
  }

  lemma ScheduleAssigned(h: Hints)
    ensures AssignedBeforeRead(h, Schedule(), ScheduleKnown())
  {
    StartIs();
    hide AssignedOne, ScheduleKnown, Schedule;
    forall p | 0 <= p < 27 ensures AssignedOne(h, Schedule(), ScheduleKnown(), p) {
      if p < 6 { StartAssigned(h, p); } else { LoopAssigned(h, p); }
    }
  }

  lemma AssertThere()
    ensures |Schedule()| == 27 && Schedule()[11] != Noop
  {
    hide Schedule;
    TestIs();
  }

  lemma NotAtRest(h: Hints)
    requires VarTypes(h, {IntK, StringK}, {IntK, StringK}, {IntK, StringK}) && TempHint(h, 3).types == {IntK}
    ensures Propagate(h, Schedule()) != h
  {
    hide Propagate, VarTypes, Schedule;
    SchedulePass(h, {IntK, StringK}, {IntK, StringK}, {IntK, StringK});
    assert StringK in {IntK, StringK} && StringK !in {IntK};
  }

  /**
    With one propagation before folding and one before the removal, as the program runs them,
    the assert on `x` goes although every local is assigned before it is read: the string
    needs a third propagation to come to the condition.  In the fourth turn the code fails at
    the assert, and the optimized code compares a string.
   */
  lemma ScheduleLosesAssert(errors: bool, c: Context, ret: Value, locals: seq<Value>, w: World)
    requires |locals| == 3
    ensures var o := Optimize(errors, Schedule(), 1, 1);
            && o.Some? && AssignedBeforeRead(o.value.last, Schedule(), ScheduleKnown())
            && Propagate(o.value.last, Schedule()) != o.value.last
            && var p, start := Program(Schedule(), (t: nat) => Slot(t), c), State(0, map[], Rest(ret, locals, w));
               Run(p, start, 64) == Failed && Run(WithCode(p, o.value.result), start, 64) == Wild
  {
    hide Optimize, AssignedBeforeRead, Run, Remove, Propagate, VarTypes, ScheduleCode, Schedule, ScheduleKnown;
    ScheduleOptimized(errors);
    var h := Optimize(errors, Schedule(), 1, 1).value.last;
    ScheduleAssigned(h);
    NotAtRest(h);
    ScheduleRemoved(h, c);
    var p := Program(Schedule(), (t: nat) => Slot(t), c);
    ScheduleRun(p, Rest(ret, locals, w));
    ScheduleRun(Program(Remove(h, {}, Schedule()), (t: nat) => Slot(t), c), Rest(ret, locals, w));
    AssertThere();
  }
}
