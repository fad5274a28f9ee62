/**
  Rewriting by hints: type asserts that cannot fail become no-ops, additions of integers
  become IntAdd, comparisons of like types become FastEq, and no run changes.
 */
module HintRewriting {
  import opened Runtime
  import opened Ir
  import opened TempRanges
  import opened TypeHints
  import opened HintSoundness

  // ----- the hints a function starts with -----

  /** What the constructors of the instructions write into the operands. */
  function ConstructOne(h: Hints, i: Ins): Hints {
    match i
    case Assign(d, src) =>
      var x := SourceHint(h, src);
      SetTemp(h, d, if x.Some? then x.value else NO_HINT)
    case Store(VarDst(k), t) => h.(vars := h.vars[k := AddTypes(VarHint(h, k), TempHint(h, t).types)])
    case BinIns(op, d, _, _) =>
      if op == IrAdd then h else SetTemp(h, d, AddTypes(TempHint(h, d), {ResultKind(op)}))
    case UnIns(op, d, _) => SetTemp(h, d, AddTypes(TempHint(h, d), {if op == UnOp.Neg then IntK else BoolK}))
    case Fork(t, d, e) => SetTemp(SetTemp(h, d, TempHint(h, t)), e, TempHint(h, t))
    case _ => h
  }

  function Construct(code: seq<Ins>): Hints {
    if code == [] then Hints(map[], map[]) else ConstructOne(Construct(code[..|code| - 1]), code[|code| - 1])
  }

  /** Operators hint their results, plain additions and loads from outside do not. */
  ghost predicate OperatorHinted(h: Hints, i: Ins) {
    match i
    case Assign(d, src) => !src.VarSrc? && !src.ConstSrc? && !src.TempSrc? ==> TempHint(h, d).types == {}
    case BinIns(op, d, _, _) => if op == IrAdd then TempHint(h, d).types == {} else ResultKind(op) in TempHint(h, d).types
    case UnIns(op, d, _) => (if op == UnOp.Neg then IntK else BoolK) in TempHint(h, d).types
    case _ => true
  }

  ghost predicate OperatorsHinted(h: Hints, code: seq<Ins>) {
    forall p :: 0 <= p < |code| ==> OperatorHinted(h, code[p])
  }

  /** Only defined temps have type hints. */
  ghost predicate DefinedHints(h: Hints, code: seq<Ins>) {
    forall t: nat :: TempHint(h, t).types != {} ==> Defined(code, t)
  }

  lemma OtherDefs(code: seq<Ins>, i: Ins, p: nat, t: nat)
    requires SingleDefs(code + [i]) && p < |code| && t in Defs(code[p])
    ensures t !in Defs(i)
  {
    if t in Defs(i) {
      assert Defines(code + [i], t, p) && Defines(code + [i], t, |code|);
    }
  }

  lemma FewerDefs(code: seq<Ins>, i: Ins)
    requires SingleDefs(code + [i])
    ensures SingleDefs(code)
  {
    assert forall t: nat, p: nat :: Defines(code, t, p) ==> Defines(code + [i], t, p);
    assert forall p :: 0 <= p < |code| ==> (code + [i])[p] == code[p];
  }

  /** One instruction writes hints only to what it defines, or that it stores. */
  lemma ConstructOthers(h: Hints, i: Ins, t: nat)
    requires t !in Defs(i)
    ensures TempHint(ConstructOne(h, i), t) == TempHint(h, t)
  {
  }

  lemma {:induction false} ConstructHints(code: seq<Ins>)
    requires SingleDefs(code)
    ensures OperatorsHinted(Construct(code), code) && DefinedHints(Construct(code), code)
    decreases |code|
  {
    if code != [] {
      var init, i := code[..|code| - 1], code[|code| - 1];
      assert code == init + [i];
      FewerDefs(init, i);
      ConstructHints(init);
      var h := Construct(init);
      hide SingleDefs;
      ConstructDefined(h, init, i);
      forall p | 0 <= p < |code| ensures OperatorHinted(Construct(code), code[p]) {
        if p < |init| {
          KeepsHinted(h, init, i, p);
        } else {
          NewHinted(h, init, i);
        }
      }
    }
  }

  lemma ConstructDefined(h: Hints, init: seq<Ins>, i: Ins)
    requires DefinedHints(h, init)
    ensures DefinedHints(ConstructOne(h, i), init + [i])
  {
    forall t: nat | TempHint(ConstructOne(h, i), t).types != {} ensures Defined(init + [i], t) {
      if t in Defs(i) {
        assert Defines(init + [i], t, |init|);
      } else {
        ConstructOthers(h, i, t);
        var p: nat :| Defines(init, t, p);
        assert Defines(init + [i], t, p);
      }
    }
  }

  lemma KeepsHinted(h: Hints, init: seq<Ins>, i: Ins, p: nat)
    requires SingleDefs(init + [i]) && p < |init| && OperatorHinted(h, init[p])
    ensures OperatorHinted(ConstructOne(h, i), init[p])
  {
    var j := init[p];
    if j.Assign? || j.BinIns? || j.UnIns? {
      assert j.dest in Defs(init[p]);
      OtherDefs(init, i, p, j.dest);
      ConstructOthers(h, i, j.dest);
    }
    hide ConstructOne, SingleDefs;
  }

  lemma NewHinted(h: Hints, init: seq<Ins>, i: Ins)
    requires SingleDefs(init + [i]) && DefinedHints(h, init)
    ensures OperatorHinted(ConstructOne(h, i), i)
  {
    if i.BinIns? && i.bop == IrAdd && TempHint(h, i.dest).types != {} {
      var p: nat :| Defines(init, i.dest, p);
      OtherDefs(init, i, p, i.dest);
    }
  }

  /** Propagation leaves the results of operators alone. */
  lemma PropagateOthers(h: Hints, i: Ins, t: nat)
    requires !(i.Assign? && i.dest == t)
    ensures TempHint(PropagateOne(h, i), t).types == TempHint(h, t).types
  {
  }

  lemma {:induction false} PropagateHinted(h: Hints, code: seq<Ins>, all: seq<Ins>, p: nat)
    requires code <= all && SingleDefs(all) && p < |all| && OperatorHinted(h, all[p])
    ensures OperatorHinted(Propagate(h, code), all[p])
    decreases |code|
  {
    if code != [] {
      var init, i, j := code[..|code| - 1], code[|code| - 1], all[p];
      PropagateHinted(h, init, all, p);
      var g := Propagate(h, init);
      if j.Assign? || j.BinIns? || j.UnIns? {
        if i.Assign? && i.dest == j.dest {
          assert Defines(all, i.dest, |code| - 1) && Defines(all, i.dest, p);
        } else {
          PropagateOthers(g, i, j.dest);
        }
      }
    }
  }

  // ----- a fixed point is closed -----

  /** No temp is copied, and a fork's results have types only if its source has, and then all of those. */
  predicate Hintable(h: Hints, i: Ins) {
    && (i.Assign? ==> !i.src.TempSrc?)
    && (i.Fork? ==> Covers(TempHint(h, i.dest1).types, TempHint(h, i.from).types))
    && (i.Fork? ==> Covers(TempHint(h, i.dest2).types, TempHint(h, i.from).types))
  }

  /** What is stored to a hinted variable is hinted. */
  predicate StoreHinted(h: Hints, i: Ins) {
    i.Store? && i.dst.VarDst? && VarHint(h, i.dst.num).types != {} ==> TempHint(h, i.value).types != {}
  }

  lemma ClosedHere(h: Hints, i: Ins)
    requires SettledOne(h, i) && OperatorHinted(h, i) && Hintable(h, i) && StoreHinted(h, i)
    ensures ClosedOne(h, i)
  {
  }

  lemma FixedPointClosed(h: Hints, code: seq<Ins>)
    requires Propagate(h, code) == h && SingleDefs(code) && OperatorsHinted(h, code)
    requires forall i :: i in code ==> Hintable(h, i) && StoreHinted(h, i)
    ensures Closed(h, code)
  {
    assert SingleAssigns(code) by { AssignsAreDefs(code); }
    FixedPointSettled(h, code);
    hide OperatorHinted, SettledOne, ClosedOne, Hintable, StoreHinted, Propagate;
    forall i | i in code ensures ClosedOne(h, i) {
      var p :| 0 <= p < |code| && code[p] == i;
      ClosedHere(h, i);
    }
  }

  lemma AssignsAreDefs(code: seq<Ins>)
    requires SingleDefs(code)
    ensures SingleAssigns(code)
  {
    forall p, q | 0 <= p < |code| && 0 <= q < |code| && code[p].Assign? && code[q].Assign? && code[p].dest == code[q].dest
      ensures p == q
    {
      assert Defines(code, code[p].dest, p) && Defines(code, code[p].dest, q);
    }
  }

  // ----- rewriting -----

  /** `j` may stand for `i`, the hints being true. */
  predicate Justified(h: Hints, i: Ins, j: Ins) {
    || j == i
    || (j == Noop && i.AssertIns? && i.kind == AssertInt && IsInt(h, i.arg))
    || (j == Noop && i.AssertIns? && i.kind == AssertBool && IsBool(h, i.arg))
    || (i.BinIns? && i.bop == IrAdd && j == i.(bop := IntAdd) && IsInt(h, i.src1) && IsInt(h, i.src2))
    || (i.BinIns? && i.bop == IrEq && j == i.(bop := FastEq) &&
        ((IsInt(h, i.src1) && IsInt(h, i.src2)) || (IsBool(h, i.src1) && IsBool(h, i.src2))))
  }

  ghost predicate Rewritten(h: Hints, code: seq<Ins>, new_: seq<Ins>) {
    |new_| == |code| && forall p :: 0 <= p < |code| ==> Justified(h, code[p], new_[p])
  }

  lemma {:induction false} SameLabels(code: seq<Ins>, new_: seq<Ins>, l: nat)
    requires |new_| == |code| && forall p :: 0 <= p < |code| ==> (new_[p] == OutputLabel(l) <==> code[p] == OutputLabel(l))
    ensures FindLabel(new_, l) == FindLabel(code, l)
    decreases |code|
  {
    if code != [] {
      assert new_[0] == OutputLabel(l) <==> code[0] == OutputLabel(l);
      SameLabels(code[1..], new_[1..], l);
    }
  }

  lemma FitsInt(h: Hints, t: nat, v: Value)
    requires Fits(TempHint(h, t).types, v)
    ensures IsInt(h, t) ==> v.IntV?
    ensures IsBool(h, t) ==> v.BoolV?
  {
  }

  lemma JustifiedReads(h: Hints, i: Ins, j: Ins, vals: seq<Value>)
    requires Justified(h, i, j) && ReadsFit(h, Uses(i), vals) && |vals| == |Uses(i)| && j != i
    ensures forall k :: 0 <= k < |vals| ==> (IsInt(h, Uses(i)[k]) ==> vals[k].IntV?) && (IsBool(h, Uses(i)[k]) ==> vals[k].BoolV?)
    ensures i.AssertIns? || i.BinIns?
  {
    forall k | 0 <= k < |vals| ensures (IsInt(h, Uses(i)[k]) ==> vals[k].IntV?) && (IsBool(h, Uses(i)[k]) ==> vals[k].BoolV?) {
      FitsInt(h, Uses(i)[k], vals[k]);
    }
  }

  /** A justified replacement has the same effect. */
  lemma SameEffect(c: Context, h: Hints, i: Ins, j: Ins, vals: seq<Value>, r: Rest)
    requires Justified(h, i, j) && ReadsFit(h, Uses(i), vals) && |vals| == |Uses(i)|
    ensures Uses(j) == Uses(i) || (Uses(j) == [] && j == Noop)
    ensures Defs(j) == Defs(i)
    ensures Perform(c, j, if j == i || j != Noop then vals else [], r) == Perform(c, i, vals, r)
  {
    if j != i {
      JustifiedReads(h, i, j, vals);
      if i.BinIns? {
        hide Text;
        assert vals[0].IntV? || vals[0].BoolV?;
      }
    }
  }

  lemma RewrittenStep(p: Program, q: Program, h: Hints, s: State)
    requires OwnSlots(p) && OwnSlots(q) && q.c == p.c && Rewritten(h, p.code, q.code) && SoundTemps(h, s.temps)
    ensures !Step(p, s).Stuck? ==> Step(q, s) == Step(p, s)
  {
    if s.pc < |p.code| && CanRead(p, s, Uses(p.code[s.pc])) {
      var i, j := p.code[s.pc], q.code[s.pc];
      var vals := Values(p, s, Uses(i));
      ReadsOk(p, h, s, Uses(i));
      SameEffect(p.c, h, i, j, vals, s.rest);
      hide Perform, Uses, Defs, Fits;
      assert Values(q, s, Uses(j)) == if j == i || j != Noop then vals else [];
      match Perform(p.c, i, vals, s.rest)
      case Go(vs, rest) =>
        DefsMatch(p.c, i, vals, s.rest);
        assert WriteTemps(q, s.temps, Defs(i), vs) == WriteTemps(p, s.temps, Defs(i), vs);
      case JumpTo(l) =>
        SameLabels(p.code, q.code, l);
      case _ =>
    }
  }

  /** Removing asserts and specializing operators by true hints changes no run. */
  lemma {:induction false} RewrittenRun(p: Program, q: Program, h: Hints, known: seq<set<nat>>, s: State, n: nat)
    requires OwnSlots(p) && OwnSlots(q) && q.c == p.c && Rewritten(h, p.code, q.code)
    requires Closed(h, p.code) && AssignedBeforeRead(h, p.code, known) && Sound(h, known, s)
    requires !Run(p, s, n).Stuck?
    ensures Run(q, s, n) == Run(p, s, n)
    decreases n
  {
    hide Step, Closed, AssignedBeforeRead, Rewritten, SoundTemps, SoundLocals;
    if n > 0 {
      RewrittenStep(p, q, h, s);
      SoundStep(p, h, known, s);
      if Step(p, s).Running? { RewrittenRun(p, q, h, known, Step(p, s).state, n - 1); }
    }
  }
}
