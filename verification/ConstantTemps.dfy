/** Temps that hold a constant on every run, and when the hints may be believed about them. */
module ConstantTemps {
  import opened Runtime
  import opened Ir
  import opened TempRanges
  import opened TempUses
  import opened TypeHints
  import opened HintSoundness
  import opened HintRewriting

  /** Behind at most `n` forks the temp is assigned the constant. */
  ghost predicate ConstVal(code: seq<Ins>, t: nat, v: Value, n: nat)
    decreases n
  {
    exists d: nat :: Defines(code, t, d) && ConstHere(code, code[d], v, n)
  }

  ghost predicate ConstHere(code: seq<Ins>, i: Ins, v: Value, n: nat)
    decreases n, 0
  {
    (i.Assign? && i.src == ConstSrc(v)) || (i.Fork? && n > 0 && ConstVal(code, i.from, v, n - 1))
  }

  ghost predicate HasConst(code: seq<Ins>, t: nat, v: Value) { exists n: nat :: ConstVal(code, t, v, n) }

  /** The temp is stored to a variable; propagation then puts the variable's number into its hint. */
  ghost predicate StoredAway(code: seq<Ins>, t: nat) {
    exists u: nat :: UsedAt(code, t, u) && code[u].Store?
  }

  predicate IsConst(h: Hints, t: nat) { TempHint(h, t).isConst }

  /** `getConst`; None where the hint holds the number of a variable instead. */
  function GetConst(h: Hints, t: nat): Option<Value> {
    if IsConst(h, t) && TempHint(h, t).payload.Constant? then Some(TempHint(h, t).payload.value) else None
  }

  ghost predicate TrueConst(h: Hints, code: seq<Ins>, t: nat) {
    var x := TempHint(h, t);
    x.payload.Constant? && x.types == {KindOf(x.payload.value)} && HasConst(code, t, x.payload.value)
  }

  /** A constant hint is true, or the temp is stored away; variables never carry one. */
  ghost predicate ConstHints(h: Hints, code: seq<Ins>) {
    && (forall t: nat :: IsConst(h, t) ==> StoredAway(code, t) || TrueConst(h, code, t))
    && forall k: nat :: k in h.vars ==> !h.vars[k].isConst
  }

  predicate NoCopy(i: Ins) { i.Assign? ==> !i.src.TempSrc? }

  /** The shape of compiled IR, which the passes keep. */
  ghost predicate Compiled(code: seq<Ins>) {
    SingleDefs(code) && Disciplined(code) && forall i :: i in code ==> NoCopy(i)
  }

  /** Wherever a temp is used other than by a store, its constant hint is true. */
  lemma ReadConst(h: Hints, code: seq<Ins>, t: nat, p: nat)
    requires Disciplined(code) && ConstHints(h, code) && IsConst(h, t)
    requires UsedAt(code, t, p) && !code[p].Store?
    ensures TrueConst(h, code, t)
  {
    hide OneUse, AssertsBelong, TrueConst;
    forall u: nat | UsedAt(code, t, u) ensures !code[u].Store? {
    }
  }

  // ----- constants on runs -----

  ghost predicate ConstantsTrue(code: seq<Ins>, temps: map<Place, Value>) {
    forall t: nat, v :: HasConst(code, t, v) && Slot(t) in temps ==> temps[Slot(t)] == v
  }

  /** The one definition of a constant temp. */
  lemma ConstDefinition(code: seq<Ins>, t: nat, v: Value, d: nat) returns (n: nat)
    requires SingleDefs(code) && HasConst(code, t, v) && Defines(code, t, d)
    ensures ConstHere(code, code[d], v, n) && ConstVal(code, t, v, n)
  {
    n :| ConstVal(code, t, v, n);
    var e: nat :| Defines(code, t, e) && ConstHere(code, code[e], v, n);
    assert e == d;
  }

  lemma ConstResult(c: Context, code: seq<Ins>, temps: map<Place, Value>, p: nat, vals: seq<Value>, r: Rest, t: nat, v: Value)
    requires SingleDefs(code) && ConstantsTrue(code, temps) && p < |code| && |vals| == |Uses(code[p])|
    requires HasConst(code, t, v) && Defines(code, t, p)
    requires forall j :: 0 <= j < |vals| ==> Slot(Uses(code[p])[j]) in temps && vals[j] == temps[Slot(Uses(code[p])[j])]
    ensures Perform(c, code[p], vals, r).Go? ==> forall w :: w in Perform(c, code[p], vals, r).defs ==> w == v
  {
    var n := ConstDefinition(code, t, v, p);
    if code[p].Fork? {
      assert HasConst(code, code[p].from, v);
      assert Uses(code[p])[0] == code[p].from;
    }
  }

  lemma ConstStep(p: Program, s: State)
    requires OwnSlots(p) && SingleDefs(p.code) && ConstantsTrue(p.code, s.temps)
    ensures Step(p, s).Running? ==> ConstantsTrue(p.code, Step(p, s).state.temps)
  {
    if s.pc < |p.code| && CanRead(p, s, Uses(p.code[s.pc])) {
      var i := p.code[s.pc];
      var vals := Values(p, s, Uses(i));
      var e := Perform(p.c, i, vals, s.rest);
      if e.Go? {
        DefsMatch(p.c, i, vals, s.rest);
        forall t: nat, v | t in Defs(i) && HasConst(p.code, t, v) ensures forall w :: w in e.defs ==> w == v {
          assert Defines(p.code, t, s.pc);
          ConstResult(p.c, p.code, s.temps, s.pc, vals, s.rest, t, v);
        }
        hide Perform, Uses, Defs, HasConst, SingleDefs;
        WriteConstants(p, s.temps, Defs(i), e.defs);
      }
    }
  }

  lemma WriteConstants(p: Program, temps: map<Place, Value>, ds: seq<nat>, vs: seq<Value>)
    requires OwnSlots(p) && ConstantsTrue(p.code, temps) && |ds| == |vs| <= 2
    requires forall t: nat, v :: t in ds && HasConst(p.code, t, v) ==> forall w :: w in vs ==> w == v
    ensures ConstantsTrue(p.code, WriteTemps(p, temps, ds, vs))
  {
    hide HasConst;
    assert |vs| > 0 ==> vs[0] in vs && ds[0] in ds;
    assert |vs| > 1 ==> vs[1] in vs && ds[1] in ds;
    var after := WriteTemps(p, temps, ds, vs);
    forall t: nat, v | HasConst(p.code, t, v) && Slot(t) in after ensures after[Slot(t)] == v {
      if t !in ds { assert Slot(t) in temps && after[Slot(t)] == temps[Slot(t)]; }
    }
  }

  lemma {:induction false} ConstRun(p: Program, s: State, n: nat)
    requires OwnSlots(p) && SingleDefs(p.code) && ConstantsTrue(p.code, s.temps)
    ensures Run(p, s, n).Running? ==> ConstantsTrue(p.code, Run(p, s, n).state.temps)
    decreases n
  {
    hide Step, ConstantsTrue, SingleDefs;
    if n > 0 {
      ConstStep(p, s);
      if Step(p, s).Running? { ConstRun(p, Step(p, s).state, n - 1); }
    }
  }

  /** Wherever a pass reads a temp's constant, that is the temp's value on every run. */
  lemma ConstantIsValue(p: Program, h: Hints, rest: Rest, n: nat, t: nat, u: nat)
    requires OwnSlots(p) && Compiled(p.code) && ConstHints(h, p.code) && IsConst(h, t)
    requires UsedAt(p.code, t, u) && !p.code[u].Store?
    requires Run(p, State(0, map[], rest), n).Running? && Slot(t) in Run(p, State(0, map[], rest), n).state.temps
    ensures GetConst(h, t) == Some(Run(p, State(0, map[], rest), n).state.temps[Slot(t)])
  {
    ReadConst(h, p.code, t, u);
    ConstRun(p, State(0, map[], rest), n);
    hide Run, Compiled, ConstHints;
  }

  // ----- the passes keep the hints true -----

  lemma SetTrue(h: Hints, code: seq<Ins>, d: nat, v: Value, p: nat)
    requires ConstHints(h, code) && p < |code| && code[p] == Assign(d, ConstSrc(v))
    ensures ConstHints(SetTemp(h, d, ConstHint(v)), code)
  {
    assert Defines(code, d, p) && ConstHere(code, code[p], v, 0);
    assert ConstVal(code, d, v, 0);
    var g := SetTemp(h, d, ConstHint(v));
    assert TrueConst(g, code, d);
    hide HasConst, StoredAway;
  }

  lemma SetPlain(h: Hints, code: seq<Ins>, d: nat, x: Hint)
    requires ConstHints(h, code) && !x.isConst
    ensures ConstHints(SetTemp(h, d, x), code)
  {
    hide HasConst, StoredAway;
  }

  lemma PropagateConst(h: Hints, code: seq<Ins>, p: nat)
    requires Compiled(code) && ConstHints(h, code) && p < |code|
    ensures ConstHints(PropagateOne(h, code[p]), code)
  {
    var i := code[p];
    assert i in code && NoCopy(i);
    match i
    case Assign(d, ConstSrc(v)) => SetTrue(h, code, d, v, p);
    case Assign(d, VarSrc(k)) => SetPlain(h, code, d, VarHint(h, k));
    case Store(VarDst(k), t) =>
      assert UsedAt(code, t, p);
      assert StoredAway(code, t);
      hide HasConst, Compiled;
    case _ =>
  }

  lemma {:induction false} PropagateConsts(h: Hints, code: seq<Ins>, k: nat)
    requires Compiled(code) && ConstHints(h, code) && k <= |code|
    ensures ConstHints(Propagate(h, code[..k]), code)
    decreases k
  {
    hide ConstHints, PropagateOne, Compiled;
    if k > 0 {
      PropagateConsts(h, code, k - 1);
      PropagateSplit(h, code, k - 1);
      PropagateConst(Propagate(h, code[..k - 1]), code, k - 1);
    }
  }

  /** A new type hint on an operator's result. */
  lemma AddTypesConst(h: Hints, code: seq<Ins>, d: nat, p: nat, more: set<Kind>)
    requires Compiled(code) && ConstHints(h, code) && p < |code| && (code[p].BinIns? || code[p].UnIns?) && code[p].dest == d
    ensures ConstHints(SetTemp(h, d, AddTypes(TempHint(h, d), more)), code)
  {
    if IsConst(h, d) && !StoredAway(code, d) {
      assert Defines(code, d, p);
      var n := ConstDefinition(code, d, TempHint(h, d).payload.value, p);
    }
    hide HasConst, StoredAway, Compiled;
  }

  /** The constructors give true hints. */
  lemma ConstructConst(h: Hints, code: seq<Ins>, p: nat)
    requires Compiled(code) && ConstHints(h, code) && p < |code|
    ensures ConstHints(ConstructOne(h, code[p]), code)
  {
    var i := code[p];
    assert i in code && NoCopy(i);
    match i
    case Assign(d, src) =>
      if src.ConstSrc? {
        SetTrue(h, code, d, src.value, p);
      } else {
        SetPlain(h, code, d, if src.VarSrc? then VarHint(h, src.num) else NO_HINT);
      }
    case Store(VarDst(k), t) => hide HasConst, StoredAway, Compiled;
    case BinIns(op, d, _, _) => AddTypesConst(h, code, d, p, {ResultKind(op)});
    case UnIns(op, d, _) => AddTypesConst(h, code, d, p, {if op == UnOp.Neg then IntK else BoolK});
    case Fork(t, d, e) => ForkConst(h, code, p);
    case _ =>
  }

  lemma ForkConst(h: Hints, code: seq<Ins>, p: nat)
    requires Compiled(code) && ConstHints(h, code) && p < |code| && code[p].Fork?
    ensures ConstHints(ConstructOne(h, code[p]), code)
  {
    var i := code[p];
    assert UsedAt(code, i.from, p) && Defines(code, i.dest1, p) && Defines(code, i.dest2, p);
    var x := TempHint(h, i.from);
    if x.isConst {
      ReadConst(h, code, i.from, p);
      var n: nat :| ConstVal(code, i.from, x.payload.value, n);
      assert ConstHere(code, i, x.payload.value, n + 1);
      assert ConstVal(code, i.dest1, x.payload.value, n + 1) && ConstVal(code, i.dest2, x.payload.value, n + 1);
    }
    hide StoredAway, Compiled;
  }

  lemma {:induction false} ConstructConsts(code: seq<Ins>, k: nat)
    requires Compiled(code) && k <= |code|
    ensures ConstHints(Construct(code[..k]), code)
    decreases k
  {
    hide ConstructOne, Compiled;
    if k > 0 {
      ConstructConsts(code, k - 1);
      hide ConstHints;
      assert code[..k][..k - 1] == code[..k - 1];
      ConstructConst(Construct(code[..k - 1]), code, k - 1);
    }
  }
}
