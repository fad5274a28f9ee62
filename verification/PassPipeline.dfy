/**
  The passes in the order in which the optimizing compiler runs them: propagate types, fold
  constants, specialize operators, propagate again, remove what is obsolete or must hold.
 */
module PassPipeline {
  import opened Runtime
  import opened Ir
  import opened IrCompiler
  import opened TempRanges
  import opened TempUses
  import opened TypeHints
  import opened HintSoundness
  import opened HintRewriting
  import opened TypeSpecialization
  import opened ConstantTemps
  import opened ConstantFolding
  import opened FoldingRuns
  import opened ObsoleteRemoval
  import LocatedIr
  import B = Bytecode
  import SD = StackDiscipline

  /** Propagation, `n` times over. */
  function PropagateTimes(h: Hints, code: seq<Ins>, n: nat): Hints {
    if n == 0 then h else Propagate(PropagateTimes(h, code, n - 1), code)
  }

  lemma {:induction false} PropagateTimesKeeps(h: Hints, code: seq<Ins>, n: nat)
    requires Compiled(code) && ConstHints(h, code) && OperatorsHinted(h, code)
    ensures ConstHints(PropagateTimes(h, code, n), code) && OperatorsHinted(PropagateTimes(h, code, n), code)
    decreases n
  {
    hide Compiled, ConstHints, OperatorHinted, Propagate;
    if n > 0 {
      PropagateTimesKeeps(h, code, n - 1);
      var g := PropagateTimes(h, code, n - 1);
      assert code[..|code|] == code;
      PropagateConsts(g, code, |code|);
      forall p | 0 <= p < |code| ensures OperatorHinted(Propagate(g, code), code[p]) {
        CompiledSingle(code);
        PropagateHinted(g, code, code, p);
      }
    }
  }

  lemma CompiledSingle(code: seq<Ins>)
    requires Compiled(code)
    ensures SingleDefs(code) && Disciplined(code)
  {
  }

  /** The types of variables only grow. */
  lemma {:induction false} PropagateTimesGrows(h: Hints, code: seq<Ins>, n: nat, k: nat)
    ensures VarHint(h, k).types <= VarHint(PropagateTimes(h, code, n), k).types
    decreases n
  {
    hide Propagate;
    if n > 0 {
      PropagateTimesGrows(h, code, n - 1, k);
      var g := PropagateTimes(h, code, n - 1);
      assert code[..|code|] == code && code[..0] == [];
      VarsGrow(g, code, 0, |code|, k);
      assert Propagate(g, []) == g by { PropagateNothing(g); }
    }
  }

  lemma PropagateNothing(h: Hints)
    ensures Propagate(h, []) == h
  {
  }

  // ----- folding keeps what the later passes need -----

  /** Another temp's hint changes nothing for an operator. */
  lemma OtherTemp(h: Hints, d: nat, x: Hint, i: Ins)
    requires OperatorHinted(h, i) && d !in Defs(i)
    ensures OperatorHinted(SetTemp(h, d, x), i)
  {
    if i.Assign? || i.BinIns? || i.UnIns? { assert i.dest in Defs(i); }
  }

  lemma OnlyDef(code: seq<Ins>, k: nat, p: nat)
    requires SingleDefs(code) && k < |code| && p < |code| && p != k && (code[k].BinIns? || code[k].UnIns?)
    ensures code[k].dest !in Defs(code[p])
  {
    var d := code[k].dest;
    assert Defines(code, d, k);
    if d in Defs(code[p]) { assert Defines(code, d, p); }
  }

  lemma FoldOperators(h: Hints, code: seq<Ins>, new_: seq<Ins>, k: nat, v: Value)
    requires Replaced(code, new_, k, v) && SingleDefs(code) && OperatorsHinted(h, code)
    ensures OperatorsHinted(SetTemp(h, code[k].dest, ConstHint(v)), new_)
  {
    hide SingleDefs, OperatorHinted;
    forall p | 0 <= p < |new_| ensures OperatorHinted(SetTemp(h, code[k].dest, ConstHint(v)), new_[p]) {
      if p != k {
        OnlyDef(code, k, p);
        OtherTemp(h, code[k].dest, ConstHint(v), code[p]);
      } else {
        ConstHinted(SetTemp(h, code[k].dest, ConstHint(v)), code[k].dest, v);
      }
    }
  }

  lemma ConstHinted(h: Hints, d: nat, v: Value)
    ensures OperatorHinted(h, Assign(d, ConstSrc(v)))
  {
  }

  /** A folded operator's result keeps a type it had, or gets its first. */
  lemma FoldedKind(errors: bool, s: Pass, k: nat)
    requires PassOk(s) && k < |s.code| && FoldOne(errors, s.h, s.code[k]).Put? && Closed(s.h, s.code) && OperatorsHinted(s.h, s.code)
    ensures (s.code[k].BinIns? || s.code[k].UnIns?)
         && Includes(TempHint(s.h, s.code[k].dest).types, KindOf(FoldOne(errors, s.h, s.code[k]).value))
  {
    var i := s.code[k];
    assert i in s.code && ClosedOne(s.h, i) && OperatorHinted(s.h, i);
    PutConst(errors, s.h, i);
    hide PassOk, Closed, OperatorsHinted, FoldInts;
  }

  /** The hints stay closed when an operator becomes its constant. */
  lemma FoldClosedOne(h: Hints, d: nat, v: Value, i: Ins)
    requires ClosedOne(h, i) && d !in Defs(i) && Includes(TempHint(h, d).types, KindOf(v))
    ensures ClosedOne(SetTemp(h, d, ConstHint(v)), i)
  {
    match i
    case Assign(e, _) => assert e in Defs(i);
    case BinIns(_, e, _, _) => assert e in Defs(i);
    case UnIns(_, e, _) => assert e in Defs(i);
    case Fork(_, e, f) => assert e in Defs(i) && f in Defs(i);
    case _ =>
  }

  lemma FoldClosed(h: Hints, code: seq<Ins>, new_: seq<Ins>, k: nat, v: Value)
    requires Replaced(code, new_, k, v) && SingleDefs(code) && Closed(h, code)
    requires Includes(TempHint(h, code[k].dest).types, KindOf(v))
    ensures Closed(SetTemp(h, code[k].dest, ConstHint(v)), new_)
  {
    var g := SetTemp(h, code[k].dest, ConstHint(v));
    forall i | i in new_ ensures ClosedOne(g, i) {
      var p :| 0 <= p < |new_| && new_[p] == i;
      if p != k {
        assert code[p] in code && ClosedOne(h, code[p]);
        OnlyDef(code, k, p);
        FoldClosedOne(h, code[k].dest, v, code[p]);
      }
    }
  }

  lemma FoldAssigned(h: Hints, code: seq<Ins>, new_: seq<Ins>, k: nat, v: Value, known: seq<set<nat>>)
    requires Replaced(code, new_, k, v) && AssignedBeforeRead(h, code, known)
    ensures AssignedBeforeRead(h, new_, known)
  {
    ReplacedLabels(code, new_, k, v);
    forall p | 0 <= p < |new_| ensures AssignedOne(h, new_, known, p) {
      assert AssignedOne(h, code, known, p);
      if p == k { assert Stored(code[p]) == {}; }
      hide FindLabel;
    }
  }

  /** What folding keeps: the shape, and hints that are true, closed and cover the operators. */
  ghost predicate FoldKept(s: Pass, h: Hints) {
    && PassOk(s) && OperatorsHinted(s.h, s.code) && s.h.vars == h.vars
    && TwoOperands(s.code) && AllSpent(s.code, s.obsolete)
  }

  lemma FoldAtKept(errors: bool, s: Pass, h: Hints, k: nat, known: seq<set<nat>>, g: Hints)
    requires FoldKept(s, h) && k < |s.code| && FoldAt(errors, s, k).Some?
    ensures FoldKept(FoldAt(errors, s, k).value, h)
    ensures Closed(s.h, s.code) ==> Closed(FoldAt(errors, s, k).value.h, FoldAt(errors, s, k).value.code)
    ensures AssignedBeforeRead(g, s.code, known) ==> AssignedBeforeRead(g, FoldAt(errors, s, k).value.code, known)
  {
    FoldAtKeeps(errors, s, k);
    var f := FoldOne(errors, s.h, s.code[k]);
    hide FoldOne, ConstHints, AllSpent, TwoOperands, Closed, AssignedBeforeRead, OperatorsHinted;
    if f.Put? {
      PutConst(errors, s.h, s.code[k]);
      var new_ := s.code[k := Assign(s.code[k].dest, ConstSrc(f.value))];
      CompiledSingle(s.code);
      hide Compiled;
      FoldOperators(s.h, s.code, new_, k, f.value);
      FoldSpendsAt(errors, s, k);
      if Closed(s.h, s.code) {
        FoldedKind(errors, s, k);
        FoldClosed(s.h, s.code, new_, k, f.value);
      }
      if AssignedBeforeRead(g, s.code, known) { FoldAssigned(g, s.code, new_, k, f.value, known); }
    }
  }

  lemma {:induction false} FoldAllKept(errors: bool, h: Hints, code: seq<Ins>, k: nat, known: seq<set<nat>>, g: Hints)
    requires Compiled(code) && TwoOperands(code) && ConstHints(h, code) && OperatorsHinted(h, code) && k <= |code|
    requires FoldTo(errors, h, code, k).Some?
    ensures FoldKept(FoldTo(errors, h, code, k).value, h)
    ensures Closed(h, code) ==> Closed(FoldTo(errors, h, code, k).value.h, FoldTo(errors, h, code, k).value.code)
    ensures AssignedBeforeRead(g, code, known) ==> AssignedBeforeRead(g, FoldTo(errors, h, code, k).value.code, known)
    decreases k
  {
    hide Compiled, TwoOperands, ConstHints, OperatorsHinted, Closed, AssignedBeforeRead, FoldAt;
    if k > 0 {
      FoldAllKept(errors, h, code, k - 1, known, g);
      FoldAtKept(errors, FoldTo(errors, h, code, k - 1).value, h, k - 1, known, g);
      hide FoldKept;
    } else {
      hide Spent;
    }
  }

  // ----- specialization keeps it too -----

  /** `new_` is `code` with some additions and comparisons in their specialized form. */
  ghost predicate Respelled(code: seq<Ins>, new_: seq<Ins>) {
    |new_| == |code| && forall p :: 0 <= p < |code| ==> RespelledOne(code[p], new_[p])
  }

  predicate RespelledOne(i: Ins, j: Ins) {
    j == i || (i.BinIns? && ((i.bop == IrAdd && j == i.(bop := IntAdd)) || (i.bop == IrEq && j == i.(bop := FastEq))))
  }

  lemma {:induction false} SpecializeRespells(h: Hints, code: seq<Ins>)
    ensures Respelled(code, Specialize(h, code).1)
    decreases |code|
  {
    if code != [] {
      SpecializeRespells(h, code[..|code| - 1]);
    }
  }

  lemma RespelledUse(code: seq<Ins>, new_: seq<Ins>, t: nat, u: nat)
    requires Respelled(code, new_)
    ensures UsedAt(new_, t, u) <==> UsedAt(code, t, u)
    ensures Defines(new_, t, u) <==> Defines(code, t, u)
    ensures u < |code| ==> RespelledOne(code[u], new_[u])
  {
    if u < |code| { assert RespelledOne(code[u], new_[u]); }
  }

  lemma RespelledUses(code: seq<Ins>, new_: seq<Ins>)
    requires Respelled(code, new_) && Disciplined(code)
    ensures Disciplined(new_)
  {
    forall t: nat, u: nat | UsedAt(new_, t, u)
      ensures UsedAt(code, t, u) && (new_[u] == code[u] || (new_[u].BinIns? && code[u].BinIns?))
    {
      RespelledUse(code, new_, t, u);
    }
    forall t: nat, u: nat, w: nat | UsedAt(new_, t, u) && new_[u].AssertIns? && UsedAt(new_, t, w) && !new_[w].AssertIns?
      ensures AssertFor(new_[u].kind, new_[w], t)
    {
      hide StoresAlone, OneUse, Respelled, UsedAt;
      RespelledAssert(code, new_, t, u, w);
    }
    hide UsedAt, Respelled, AssertFor;
  }

  lemma RespelledAssert(code: seq<Ins>, new_: seq<Ins>, t: nat, u: nat, w: nat)
    requires Respelled(code, new_) && AssertsBelong(code)
    requires UsedAt(new_, t, u) && new_[u].AssertIns? && UsedAt(new_, t, w) && !new_[w].AssertIns?
    ensures AssertFor(new_[u].kind, new_[w], t)
  {
    RespelledUse(code, new_, t, u);
    RespelledUse(code, new_, t, w);
    hide Respelled, UsedAt;
    assert AssertFor(code[u].kind, code[w], t);
  }

  lemma RespelledCompiled(code: seq<Ins>, new_: seq<Ins>)
    requires Respelled(code, new_) && Compiled(code) && TwoOperands(code)
    ensures Compiled(new_) && TwoOperands(new_)
  {
    RespelledUses(code, new_);
    hide Disciplined;
    forall t: nat, p: nat | Defines(new_, t, p) ensures Defines(code, t, p) {
      RespelledUse(code, new_, t, p);
    }
    forall p | 0 <= p < |new_| ensures |Defs(new_[p])| == 2 ==> Defs(new_[p])[0] != Defs(new_[p])[1] {
      assert RespelledOne(code[p], new_[p]);
    }
    forall i | i in new_ ensures NoCopy(i) {
      var p :| 0 <= p < |new_| && new_[p] == i;
      assert RespelledOne(code[p], new_[p]) && code[p] in code && NoCopy(code[p]);
    }
    forall p | 0 <= p < |new_| && new_[p].BinIns? ensures new_[p].src1 != new_[p].src2 {
      assert RespelledOne(code[p], new_[p]);
    }
  }

  lemma {:induction false} RespelledVal(code: seq<Ins>, new_: seq<Ins>, t: nat, v: Value, n: nat)
    requires Respelled(code, new_) && ConstVal(code, t, v, n)
    ensures ConstVal(new_, t, v, n)
    decreases n
  {
    var d: nat :| Defines(code, t, d) && ConstHere(code, code[d], v, n);
    assert RespelledOne(code[d], new_[d]);
    if code[d].Fork? { RespelledVal(code, new_, code[d].from, v, n - 1); }
    assert Defines(new_, t, d) && ConstHere(new_, new_[d], v, n);
  }

  lemma RespelledConst(code: seq<Ins>, new_: seq<Ins>, t: nat, v: Value)
    requires Respelled(code, new_) && HasConst(code, t, v)
    ensures HasConst(new_, t, v)
  {
    var n: nat :| ConstVal(code, t, v, n);
    RespelledVal(code, new_, t, v, n);
  }

  lemma RespelledSpent(code: seq<Ins>, new_: seq<Ins>, t: nat)
    requires Respelled(code, new_) && Spent(code, t)
    ensures Spent(new_, t)
  {
    var v :| HasConst(code, t, v) && OnlyAsserted(code, t, v);
    RespelledConst(code, new_, t, v);
    forall u: nat | UsedAt(new_, t, u) ensures new_[u].AssertIns? && Holds(new_[u].kind, v) {
      RespelledUse(code, new_, t, u);
    }
    hide HasConst, Respelled;
    assert OnlyAsserted(new_, t, v);
  }

  lemma RespelledHints(h: Hints, code: seq<Ins>, new_: seq<Ins>)
    requires Respelled(code, new_) && ConstHints(h, code)
    ensures ConstHints(h, new_)
  {
    forall t: nat | IsConst(h, t) ensures StoredAway(new_, t) || TrueConst(h, new_, t) {
      if StoredAway(code, t) {
        var u: nat :| UsedAt(code, t, u) && code[u].Store?;
        RespelledUse(code, new_, t, u);
        assert UsedAt(new_, t, u) && new_[u].Store?;
      } else {
        RespelledConst(code, new_, t, TempHint(h, t).payload.value);
      }
    }
  }

  lemma RespelledAssigned(h: Hints, code: seq<Ins>, new_: seq<Ins>, known: seq<set<nat>>)
    requires Respelled(code, new_) && AssignedBeforeRead(h, code, known)
    ensures AssignedBeforeRead(h, new_, known)
  {
    forall l: nat ensures FindLabel(new_, l) == FindLabel(code, l) {
      forall p | 0 <= p < |code| ensures new_[p] == OutputLabel(l) <==> code[p] == OutputLabel(l) {
        assert RespelledOne(code[p], new_[p]);
      }
      SameLabels(code, new_, l);
    }
    forall p | 0 <= p < |new_| ensures AssignedOne(h, new_, known, p) {
      assert AssignedOne(h, code, known, p) && RespelledOne(code[p], new_[p]);
      hide FindLabel;
    }
  }

  /** Wherever a specialized hint appears the code has the specialized operator. */
  lemma {:induction false} SpecializeHinted(h: Hints, code: seq<Ins>, all: seq<Ins>, p: nat)
    requires code <= all && SingleDefs(all) && OperatorsHinted(h, all) && p < |all|
    ensures var (g, new_) := Specialize(h, code); OperatorHinted(g, if p < |code| then new_[p] else all[p])
    decreases |code|
  {
    if code == [] {
      assert OperatorHinted(h, all[p]);
    } else {
      var init, i := code[..|code| - 1], code[|code| - 1];
      SpecializeHinted(h, init, all, p);
      var (g, done) := Specialize(h, init);
      SpecializeRespells(h, init);
      hide SingleDefs, OperatorsHinted;
      if p != |init| {
        var j := if p < |init| then done[p] else all[p];
        assert p < |init| ==> RespelledOne(init[p], done[p]) && init[p] == all[p];
        if i.BinIns? {
          OnlyDef(all, |init|, p);
          RespelledDefs(all[p], j);
          OtherSpecialized(g, i, j);
        }
      } else {
        SpecializedHere(g, i);
      }
    }
  }

  lemma RespelledDefs(i: Ins, j: Ins)
    requires RespelledOne(i, j)
    ensures Defs(j) == Defs(i)
  {
  }

  lemma OtherSpecialized(g: Hints, i: Ins, j: Ins)
    requires i.BinIns? && i.dest !in Defs(j) && OperatorHinted(g, j)
    ensures OperatorHinted(SpecializeOne(g, i).0, j)
  {
    hide OperatorHinted;
    if SpecializeOne(g, i).0 != g {
      OtherTemp(g, i.dest, TempHint(SpecializeOne(g, i).0, i.dest), j);
    }
  }

  lemma SpecializedHere(g: Hints, i: Ins)
    requires OperatorHinted(g, i)
    ensures OperatorHinted(SpecializeOne(g, i).0, SpecializeOne(g, i).1)
  {
  }

  lemma {:induction false} SpecializeConst(h: Hints, code: seq<Ins>, all: seq<Ins>)
    requires code <= all && Compiled(all) && ConstHints(h, all)
    ensures ConstHints(Specialize(h, code).0, all)
    decreases |code|
  {
    hide Compiled, ConstHints;
    if code != [] {
      var init, i := code[..|code| - 1], code[|code| - 1];
      SpecializeConst(h, init, all);
      var g := Specialize(h, init).0;
      assert all[|init|] == i;
      if i.BinIns? {
        AddTypesConst(g, all, i.dest, |init|, {IntK});
        AddTypesConst(g, all, i.dest, |init|, {BoolK});
      }
    }
  }

  // ----- whole pipelines -----

  /** Compiled IR never reads a temp that nothing wrote. */
  lemma NeverStuck(p: Program, rest: Rest, n: nat)
    requires OwnSlots(p) && Segmented(p.code)
    ensures !Run(p, State(0, map[], rest), n).Stuck?
  {
    assert LocatedIr.NoClash(p.code, p.place) by { hide LocatedIr.Live; }
    LocatedIr.EntryAlike(p.code, p.place, map[], map[], rest);
    hide Run, Segmented, LocatedIr.NoClash, LocatedIr.Alike;
    LocatedIr.LocatedRun(p, p, State(0, map[], rest), State(0, map[], rest), n);
  }

  /** Everything that hints a variable is hinted, copies and forks included. */
  ghost predicate Covered(h: Hints, code: seq<Ins>) {
    forall i :: i in code ==> Hintable(h, i) && StoreHinted(h, i)
  }

  predicate FromCode(code: seq<Ins>, i: Ins) { i in code || (i.Assign? && i.src.ConstSrc?) || i.BinIns? }

  lemma {:induction false} FoldOrigin(errors: bool, h: Hints, code: seq<Ins>, k: nat)
    requires k <= |code| && FoldTo(errors, h, code, k).Some?
    ensures forall i :: i in FoldTo(errors, h, code, k).value.code ==> FromCode(code, i)
    decreases k
  {
    if k > 0 {
      hide FoldOne;
      FoldOrigin(errors, h, code, k - 1);
    }
  }

  lemma StillCovered(h: Hints, code: seq<Ins>, new_: seq<Ins>)
    requires Covered(h, code) && forall i :: i in new_ ==> FromCode(code, i)
    ensures Covered(h, new_)
  {
    forall i | i in new_ ensures Hintable(h, i) && StoreHinted(h, i) {
      assert FromCode(code, i);
    }
  }

  lemma RespelledOrigin(code: seq<Ins>, mid: seq<Ins>, new_: seq<Ins>)
    requires Respelled(mid, new_) && forall i :: i in mid ==> FromCode(code, i)
    ensures forall i :: i in new_ ==> FromCode(code, i)
  {
    forall i | i in new_ ensures FromCode(code, i) {
      var p :| 0 <= p < |new_| && new_[p] == i;
      assert RespelledOne(mid[p], new_[p]) && mid[p] in mid;
    }
  }

  /** The state in which the first propagations of a compiled function end. */
  lemma FirstHints(bytecode: seq<B.Instr>, consts: seq<Constant>, a: nat)
    requires SD.Flow(bytecode).Some?
    ensures var ir := TranslateAll(bytecode, consts).code;
            var h := PropagateTimes(Construct(ir), ir, a);
            Compiled(ir) && TwoOperands(ir) && ConstHints(h, ir) && OperatorsHinted(h, ir) && Segmented(ir)
  {
    var ir := TranslateAll(bytecode, consts).code;
    CompiledFresh(bytecode, consts);
    assert Segmented(ir);
    PassesMayStart(bytecode, consts);
    hide *;
    PropagateTimesKeeps(Construct(ir), ir, a);
  }

  /** Propagation to a fixed point closes the hints. */
  lemma FixedClosed(h: Hints, code: seq<Ins>)
    requires Propagate(h, code) == h && Covered(h, code) && Compiled(code) && OperatorsHinted(h, code)
    ensures Closed(h, code)
  {
    CompiledSingle(code);
    hide Compiled, SingleDefs, OperatorsHinted, Propagate;
    FixedPointClosed(h, code);
  }

  const UNHINTED := Hints(map[], map[])

  /** Without hints the removal takes out the obsolete instructions only, and needs to know nothing about locals. */
  lemma UnhintedTrusted(code: seq<Ins>, known: seq<set<nat>>)
    requires known == seq(|code| + 1, _ => {})
    ensures ConstHints(UNHINTED, code) && Closed(UNHINTED, code) && AssignedBeforeRead(UNHINTED, code, known)
  {
    forall i | i in code ensures ClosedOne(UNHINTED, i) {
    }
    forall p | 0 <= p < |code| ensures AssignedOne(UNHINTED, code, known, p) {
      hide FindLabel;
    }
    hide ClosedOne, AssignedOne;
  }

  /**
    Folding and the removal of what it makes obsolete: for every compiled function, as long
    as the integers that are folded, and their results, fit in 32 bits.
   */
  lemma FoldAndRemoveObsolete(errors: bool, bytecode: seq<B.Instr>, consts: seq<Constant>, p: Program, a: nat, rest: Rest, n: nat)
    requires SD.Flow(bytecode).Some? && OwnSlots(p) && p.code == TranslateAll(bytecode, consts).code
    requires var h := PropagateTimes(Construct(p.code), p.code, a);
             FoldTo(errors, h, p.code, |p.code|).Some? && NarrowAll(errors, h, p.code, |p.code|)
    ensures var s := FoldTo(errors, PropagateTimes(Construct(p.code), p.code, a), p.code, |p.code|).value;
            SameEnd(s.obsolete, Run(p, State(0, map[], rest), n),
                    Run(WithCode(p, Remove(UNHINTED, s.obsolete, s.code)), State(0, map[], rest), n))
  {
    hide *;
    var h := PropagateTimes(Construct(p.code), p.code, a);
    var s := FoldTo(errors, h, p.code, |p.code|).value;
    var known: seq<set<nat>> := seq(|s.code| + 1, _ => {});
    FirstHints(bytecode, consts, a);
    FoldAllKept(errors, h, p.code, |p.code|, known, UNHINTED);
    KeptParts(s, h);
    UnhintedTrusted(s.code, known);
    NeverStuck(p, rest, n);
    FoldAndRemove(errors, h, p, UNHINTED, known, rest, n);
  }

  /**
    Folding and removal on a compiled function.  The integers that are folded fit in 32 bits;
    the hints at the removal are those of folding, propagated to a fixed point; and a local
    that has a type hint then is assigned before it is read, from hinted temps.  Functions
    that read their parameters are among these: a parameter nothing hints needs no store.
   */
  lemma FoldAndRemoveCompiled(errors: bool, bytecode: seq<B.Instr>, consts: seq<Constant>, p: Program, a: nat, b: nat,
                              known: seq<set<nat>>, rest: Rest, n: nat)
    requires SD.Flow(bytecode).Some? && OwnSlots(p) && p.code == TranslateAll(bytecode, consts).code
    requires var h := PropagateTimes(Construct(p.code), p.code, a);
             FoldTo(errors, h, p.code, |p.code|).Some? && NarrowAll(errors, h, p.code, |p.code|)
    requires var s := FoldTo(errors, PropagateTimes(Construct(p.code), p.code, a), p.code, |p.code|).value;
             var g := PropagateTimes(s.h, s.code, b);
             Propagate(g, s.code) == g && Covered(g, p.code) && AssignedBeforeRead(g, p.code, known)
    ensures var s := FoldTo(errors, PropagateTimes(Construct(p.code), p.code, a), p.code, |p.code|).value;
            var g := PropagateTimes(s.h, s.code, b);
            SameEnd(s.obsolete, Run(p, State(0, map[], rest), n),
                    Run(WithCode(p, Remove(g, s.obsolete, s.code)), State(0, map[], rest), n))
  {
    hide *;
    var h := PropagateTimes(Construct(p.code), p.code, a);
    var s := FoldTo(errors, h, p.code, |p.code|).value;
    var g := PropagateTimes(s.h, s.code, b);
    FirstHints(bytecode, consts, a);
    FoldAllKept(errors, h, p.code, |p.code|, known, g);
    KeptParts(s, h);
    PropagateTimesKeeps(s.h, s.code, b);
    FoldOrigin(errors, h, p.code, |p.code|);
    StillCovered(g, p.code, s.code);
    FixedClosed(g, s.code);
    NeverStuck(p, rest, n);
    FoldAndRemove(errors, h, p, g, known, rest, n);
  }

  lemma KeptParts(s: Pass, h: Hints)
    requires FoldKept(s, h)
    ensures Compiled(s.code) && ConstHints(s.h, s.code) && OperatorsHinted(s.h, s.code) && s.h.vars == h.vars
    ensures TwoOperands(s.code) && AllSpent(s.code, s.obsolete)
  {
    hide Compiled, ConstHints, OperatorsHinted, TwoOperands, AllSpent;
  }

  /** What each pass of the pipeline leaves, from the first propagations to the removal. */
  datatype Optimized = Optimized(first: Hints, folded: Pass, special: Hints, specialized: seq<Ins>, last: Hints, result: seq<Ins>)

  /** The passes in their order, with `a` and `b` rounds of propagation; None where folding stops the compiler. */
  function Optimize(errors: bool, code: seq<Ins>, a: nat, b: nat): Option<Optimized> {
    var h := PropagateTimes(Construct(code), code, a);
    var s :- FoldTo(errors, h, code, |code|);
    var (f, c) := Specialize(s.h, s.code);
    var g := PropagateTimes(f, c, b);
    Some(Optimized(h, s, f, c, g, Remove(g, s.obsolete, c)))
  }

  /** Both times the propagation has come to rest, with everything that hints a variable hinted. */
  ghost predicate AtRest(code: seq<Ins>, o: Optimized) {
    && Propagate(o.first, code) == o.first && Covered(o.first, code)
    && Propagate(o.last, o.specialized) == o.last && Covered(o.last, code)
  }

  lemma AssignedFewer(g: Hints, h: Hints, code: seq<Ins>, known: seq<set<nat>>)
    requires AssignedBeforeRead(g, code, known) && forall k: nat :: VarHint(h, k).types <= VarHint(g, k).types
    ensures AssignedBeforeRead(h, code, known)
  {
    hide FindLabel;
    forall p | 0 <= p < |code| ensures AssignedOne(h, code, known, p) {
      assert AssignedOne(g, code, known, p);
    }
  }

  /** Specialization of folded code: what the last propagation and the removal start from. */
  lemma SpecializedKept(s: Pass, h: Hints)
    requires FoldKept(s, h)
    ensures var (f, c) := Specialize(s.h, s.code);
            && Respelled(s.code, c) && Compiled(c) && ConstHints(f, c) && OperatorsHinted(f, c)
            && AllSpent(c, s.obsolete) && f.vars == s.h.vars
  {
    KeptParts(s, h);
    hide *;
    var (f, c) := Specialize(s.h, s.code);
    SpecializeRespells(s.h, s.code);
    RespelledCompiled(s.code, c);
    SpecializeConst(s.h, s.code, s.code);
    RespelledHints(f, s.code, c);
    CompiledSingle(s.code);
    SpecializedOperators(s.h, s.code);
    SpecializeUpgrades(s.h, s.code);
    SpentKept(s.code, c, s.obsolete);
    VarsKept(s.h, f, s.code);
  }

  lemma VarsKept(h: Hints, g: Hints, code: seq<Ins>)
    requires Upgraded(h, g, code)
    ensures g.vars == h.vars
  {
    hide NewInt;
  }

  lemma SpentKept(code: seq<Ins>, new_: seq<Ins>, obsolete: set<nat>)
    requires Respelled(code, new_) && AllSpent(code, obsolete)
    ensures AllSpent(new_, obsolete)
  {
    hide Spent, Respelled;
    forall t: nat | t in obsolete ensures Spent(new_, t) {
      RespelledSpent(code, new_, t);
    }
  }

  lemma SpecializedOperators(h: Hints, code: seq<Ins>)
    requires SingleDefs(code) && OperatorsHinted(h, code)
    ensures OperatorsHinted(Specialize(h, code).0, Specialize(h, code).1)
  {
    hide SingleDefs, OperatorHinted, Specialize;
    forall p | 0 <= p < |code| ensures OperatorHinted(Specialize(h, code).0, Specialize(h, code).1[p]) {
      SpecializeHinted(h, code, code, p);
    }
  }

  /**
    From compiled IR through propagation, folding, specialization, propagation and removal:
    however far it runs, the optimized code is at the same place with the same locals, world
    and temps (but for obsolete ones), or has ended with the same outcome.
   */
  lemma PipelinePreserves(errors: bool, bytecode: seq<B.Instr>, consts: seq<Constant>, p: Program, a: nat, b: nat,
                          known: seq<set<nat>>, rest: Rest, n: nat)
    requires SD.Flow(bytecode).Some? && OwnSlots(p) && p.code == TranslateAll(bytecode, consts).code
    requires NarrowAll(errors, PropagateTimes(Construct(p.code), p.code, a), p.code, |p.code|)
    requires var o := Optimize(errors, p.code, a, b);
             o.Some? && AtRest(p.code, o.value) && AssignedBeforeRead(o.value.last, p.code, known)
    ensures var o := Optimize(errors, p.code, a, b).value;
            SameEnd(o.folded.obsolete, Run(p, State(0, map[], rest), n), Run(WithCode(p, o.result), State(0, map[], rest), n))
  {
    var o := Optimize(errors, p.code, a, b).value;
    var s, st := o.folded, State(0, map[], rest);
    assert FoldTo(errors, o.first, p.code, |p.code|) == Some(s) && (o.special, o.specialized) == Specialize(s.h, s.code)
           && o.last == PropagateTimes(o.special, o.specialized, b) && o.result == Remove(o.last, s.obsolete, o.specialized);
    assert Propagate(o.first, p.code) == o.first && Covered(o.first, p.code)
           && Propagate(o.last, o.specialized) == o.last && Covered(o.last, p.code);
    hide *;
    FirstHints(bytecode, consts, a);
    FixedClosed(o.first, p.code);
    FoldAllKept(errors, o.first, p.code, |p.code|, known, o.last);
    KeptParts(s, o.first);
    FoldOrigin(errors, o.first, p.code, |p.code|);
    SpecializedKept(s, o.first);
    CompiledSingle(s.code);
    NeverStuck(p, rest, n);
    FoldPreserves(errors, o.first, p, |p.code|, rest, n);
    forall k: nat ensures VarHint(o.special, k).types <= VarHint(o.last, k).types {
      PropagateTimesGrows(o.special, o.specialized, b, k);
    }
    AssignedFewer(o.last, o.special, s.code, known);
    SameSlots(p, s.code);
    SameSlots(p, o.specialized);
    SpecializePreserves(WithCode(p, s.code), WithCode(p, o.specialized), s.h, known, rest, n);
    RemoveLast(errors, p, o, known, rest, n, b);
  }

  lemma SameSlots(p: Program, code: seq<Ins>)
    requires OwnSlots(p)
    ensures OwnSlots(WithCode(p, code)) && WithCode(p, code).c == p.c && WithCode(p, code).code == code
  {
  }

  /** The last two passes, on specialized code. */
  lemma RemoveLast(errors: bool, p: Program, o: Optimized, known: seq<set<nat>>, rest: Rest, n: nat, b: nat)
    requires OwnSlots(p) && Compiled(o.specialized) && ConstHints(o.special, o.specialized)
    requires OperatorsHinted(o.special, o.specialized) && AllSpent(o.specialized, o.folded.obsolete)
    requires Respelled(o.folded.code, o.specialized) && AssignedBeforeRead(o.last, o.folded.code, known)
    requires forall i :: i in o.folded.code ==> FromCode(p.code, i)
    requires o.last == PropagateTimes(o.special, o.specialized, b) && o.result == Remove(o.last, o.folded.obsolete, o.specialized)
    requires Propagate(o.last, o.specialized) == o.last && Covered(o.last, p.code)
    requires !Run(WithCode(p, o.specialized), State(0, map[], rest), n).Stuck?
    ensures SameEnd(o.folded.obsolete, Run(WithCode(p, o.specialized), State(0, map[], rest), n),
                    Run(WithCode(p, o.result), State(0, map[], rest), n))
  {
    hide *;
    var st := State(0, map[], rest);
    PropagateTimesKeeps(o.special, o.specialized, b);
    RespelledOrigin(p.code, o.folded.code, o.specialized);
    StillCovered(o.last, p.code, o.specialized);
    FixedClosed(o.last, o.specialized);
    RespelledAssigned(o.last, o.folded.code, o.specialized, known);
    SameSlots(p, o.specialized);
    SameSlots(p, o.result);
    MayRemove(o.last, o.folded.obsolete, o.specialized, known, rest);
    RemovedRun(WithCode(p, o.specialized), WithCode(p, o.result), o.last, o.folded.obsolete, known, st, st, n);
  }

  lemma MayRemove(h: Hints, obsolete: set<nat>, code: seq<Ins>, known: seq<set<nat>>, rest: Rest)
    requires Compiled(code) && ConstHints(h, code) && AllSpent(code, obsolete) && Closed(h, code) && AssignedBeforeRead(h, code, known)
    ensures var st := State(0, map[], rest);
            Trusted(h, obsolete, code, known) && Sound(h, known, st) && ConstantsTrue(code, st.temps) && SameButSpent(obsolete, st, st)
  {
    EntrySound(h, code, known, rest);
    hide Compiled, ConstHints, AllSpent, Closed, AssignedBeforeRead, Sound;
  }
}
