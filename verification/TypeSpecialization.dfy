/** The passes over hints as they run: propagation, and specialization of operators. */
module TypeSpecialization {
  import opened Ir
  import opened TempRanges
  import opened TypeHints
  import opened HintSoundness
  import opened HintRewriting

  function SpecializeOne(h: Hints, i: Ins): (Hints, Ins) {
    match i
    case BinIns(IrAdd, d, s1, s2) =>
      if IsInt(h, s1) && IsInt(h, s2) then (SetTemp(h, d, AddTypes(TempHint(h, d), {IntK})), BinIns(IntAdd, d, s1, s2))
      else (h, i)
    case BinIns(IrEq, d, s1, s2) =>
      if (IsInt(h, s1) && IsInt(h, s2)) || (IsBool(h, s1) && IsBool(h, s2)) then
        (SetTemp(h, d, AddTypes(TempHint(h, d), {BoolK})), BinIns(FastEq, d, s1, s2))
      else (h, i)
    case _ => (h, i)
  }

  function Specialize(h: Hints, code: seq<Ins>): (r: (Hints, seq<Ins>))
    ensures |r.1| == |code|
  {
    if code == [] then (h, []) else
    var (h1, done) := Specialize(h, code[..|code| - 1]);
    var (h2, i) := SpecializeOne(h1, code[|code| - 1]);
    (h2, done + [i])
  }

  function Types(h: Hints, t: nat): set<Kind> { TempHint(h, t).types }

  /** `i` adds two integers into `t`. */
  predicate AddsInts(h: Hints, i: Ins, t: nat) {
    i.BinIns? && i.bop == IrAdd && i.dest == t && IsInt(h, i.src1) && IsInt(h, i.src2)
  }

  /** The only new hint is the integer of an addition whose operands are integers. */
  ghost predicate NewInt(h: Hints, g: Hints, code: seq<Ins>, t: nat) {
    Types(h, t) == {} && Types(g, t) == {IntK} && exists i :: i in code && AddsInts(g, i, t)
  }

  ghost predicate Upgraded(h: Hints, g: Hints, code: seq<Ins>) {
    && g.vars == h.vars
    && forall t: nat :: Types(g, t) == Types(h, t) || NewInt(h, g, code, t)
  }

  /** What one instruction changes. */
  lemma SpecializedAt(h: Hints, g: Hints, code: seq<Ins>, i: Ins, t: nat)
    requires Upgraded(h, g, code) && OperatorHinted(h, i)
    ensures var g1 := SpecializeOne(g, i).0;
            || Types(g1, t) == Types(g, t)
            || (Types(g, t) == {} == Types(h, t) && Types(g1, t) == {IntK} && AddsInts(g, i, t))
    ensures SpecializeOne(g, i).0.vars == g.vars
  {
    if i.BinIns? {
      var d := i.dest;
      assert Types(g, d) == Types(h, d) || NewInt(h, g, code, d);
      hide NewInt;
      if i.bop == IrEq {
        assert Types(g, d) + {BoolK} == Types(g, d) by { assert BoolK in Types(h, d); BoolKept(h, g, code, d); }
      } else if i.bop == IrAdd {
        assert Types(h, d) == {};
        IntKept(h, g, code, d);
      }
    }
  }

  lemma BoolKept(h: Hints, g: Hints, code: seq<Ins>, d: nat)
    requires Upgraded(h, g, code) && BoolK in Types(h, d)
    ensures BoolK in Types(g, d)
  {
    assert Types(g, d) == Types(h, d) || NewInt(h, g, code, d);
  }

  lemma IntKept(h: Hints, g: Hints, code: seq<Ins>, d: nat)
    requires Upgraded(h, g, code) && Types(h, d) == {}
    ensures Types(g, d) == {} || Types(g, d) == {IntK}
  {
    assert Types(g, d) == Types(h, d) || NewInt(h, g, code, d);
  }

  lemma SpecializeOneSteps(h: Hints, g: Hints, code: seq<Ins>, i: Ins)
    requires Upgraded(h, g, code) && OperatorHinted(h, i)
    ensures Upgraded(h, SpecializeOne(g, i).0, code + [i])
    ensures forall t: nat :: (IsInt(g, t) ==> IsInt(SpecializeOne(g, i).0, t)) && (IsBool(g, t) ==> IsBool(SpecializeOne(g, i).0, t))
    ensures Justified(SpecializeOne(g, i).0, i, SpecializeOne(g, i).1)
  {
    var g1 := SpecializeOne(g, i).0;
    forall t: nat ensures Types(g1, t) == Types(g, t) || (Types(g, t) == {} == Types(h, t) && Types(g1, t) == {IntK} && AddsInts(g, i, t)) {
      SpecializedAt(h, g, code, i, t);
    }
    SpecializedAt(h, g, code, i, 0);
    forall t: nat ensures (IsInt(g, t) ==> IsInt(g1, t)) && (IsBool(g, t) ==> IsBool(g1, t)) {
      assert Types(g1, t) == Types(g, t) || Types(g, t) == {};
    }
    SpecializeJustified(g, i, g1);
    hide SpecializeOne, OperatorHinted;
    forall t: nat ensures Types(g1, t) == Types(h, t) || NewInt(h, g1, code + [i], t) {
      StillNew(h, g, g1, code, i, t);
    }
  }

  lemma SpecializeJustified(g: Hints, i: Ins, g1: Hints)
    requires forall t: nat :: (IsInt(g, t) ==> IsInt(g1, t)) && (IsBool(g, t) ==> IsBool(g1, t))
    ensures Justified(g1, i, SpecializeOne(g, i).1)
  {
  }

  lemma StillNew(h: Hints, g: Hints, g1: Hints, code: seq<Ins>, i: Ins, t: nat)
    requires Upgraded(h, g, code) && forall u: nat :: IsInt(g, u) ==> IsInt(g1, u)
    requires Types(g1, t) == Types(g, t) || (Types(g, t) == {} == Types(h, t) && Types(g1, t) == {IntK} && AddsInts(g, i, t))
    ensures Types(g1, t) == Types(h, t) || NewInt(h, g1, code + [i], t)
  {
    if Types(g1, t) == Types(g, t) {
      if Types(g, t) != Types(h, t) {
        var j :| j in code && AddsInts(g, j, t);
        assert j in code + [i] && AddsInts(g1, j, t);
      }
    } else {
      assert i in code + [i] && AddsInts(g1, i, t);
    }
  }

  lemma {:induction false} SpecializeUpgrades(h: Hints, code: seq<Ins>)
    requires OperatorsHinted(h, code)
    ensures var (g, new_) := Specialize(h, code); Upgraded(h, g, code) && Rewritten(g, code, new_)
    decreases |code|
  {
    if code != [] {
      var init, i := code[..|code| - 1], code[|code| - 1];
      assert OperatorHinted(h, i);
      assert OperatorsHinted(h, init) by {
        forall p | 0 <= p < |init| ensures OperatorHinted(h, init[p]) { assert init[p] == code[p]; }
      }
      SpecializeUpgrades(h, init);
      var (g, done) := Specialize(h, init);
      hide OperatorHinted, OperatorsHinted;
      SpecializeOneSteps(h, g, init, i);
      var (g1, j) := SpecializeOne(g, i);
      assert code == init + [i];
      assert Specialize(h, code) == (g1, done + [j]);
      hide Specialize, SpecializeOne, Upgraded;
      RewrittenMore(g, g1, init, done, i, j);
    } else {
      hide OperatorsHinted;
    }
  }

  lemma RewrittenMore(g: Hints, g1: Hints, code: seq<Ins>, done: seq<Ins>, i: Ins, j: Ins)
    requires Rewritten(g, code, done) && Justified(g1, i, j)
    requires forall t: nat :: (IsInt(g, t) ==> IsInt(g1, t)) && (IsBool(g, t) ==> IsBool(g1, t))
    ensures Rewritten(g1, code + [i], done + [j])
  {
    forall p | 0 <= p < |code| + 1 ensures Justified(g1, (code + [i])[p], (done + [j])[p]) {
      if p < |code| { assert Justified(g, code[p], done[p]); }
    }
  }

  /** The new hints are still closed under the code. */
  lemma UpgradedClosed(h: Hints, g: Hints, code: seq<Ins>)
    requires Upgraded(h, g, code) && Closed(h, code) && SingleDefs(code)
    ensures Closed(g, code)
  {
    forall i | i in code ensures ClosedOne(g, i) {
      var q :| 0 <= q < |code| && code[q] == i;
      assert ClosedOne(h, i);
      forall t: nat | t in Defs(i) && Types(g, t) != Types(h, t) ensures AddsInts(g, i, t) {
        NewIntHere(h, g, code, q, t);
      }
      hide SingleDefs, Closed;
      UpgradedOne(h, g, code, i);
    }
  }

  lemma NewIntHere(h: Hints, g: Hints, code: seq<Ins>, q: nat, t: nat)
    requires NewInt(h, g, code, t) && SingleDefs(code) && q < |code| && t in Defs(code[q])
    ensures AddsInts(g, code[q], t)
  {
    var i :| i in code && AddsInts(g, i, t);
    var p :| 0 <= p < |code| && code[p] == i;
    assert Defines(code, t, p) && Defines(code, t, q);
  }

  lemma HintedKept(h: Hints, g: Hints, code: seq<Ins>, t: nat)
    requires Upgraded(h, g, code)
    ensures Types(h, t) != {} ==> Types(g, t) == Types(h, t)
    ensures Types(g, t) == Types(h, t) || (Types(h, t) == {} && Types(g, t) == {IntK})
  {
    hide AddsInts;
  }

  lemma UpgradedOne(h: Hints, g: Hints, code: seq<Ins>, i: Ins)
    requires Upgraded(h, g, code) && ClosedOne(h, i)
    requires forall t: nat :: t in Defs(i) && Types(g, t) != Types(h, t) ==> AddsInts(g, i, t)
    ensures ClosedOne(g, i)
  {
    forall t: nat | t in Uses(i) || t in Defs(i)
      ensures Types(h, t) != {} ==> Types(g, t) == Types(h, t)
      ensures Types(g, t) == Types(h, t) || (Types(h, t) == {} && Types(g, t) == {IntK})
    {
      HintedKept(h, g, code, t);
    }
    assert g.vars == h.vars;
    hide Upgraded, NewInt;
    match i
    case Assign(d, src) =>
      assert d in Defs(i);
      if src.TempSrc? { assert src.temp in Uses(i); }
    case Store(_, t) => assert t in Uses(i);
    case BinIns(_, d, s1, s2) =>
      assert d in Defs(i) && Uses(i)[0] == s1 && Uses(i)[1] == s2 && s1 in Uses(i) && s2 in Uses(i);
    case UnIns(_, d, _) => assert d in Defs(i);
    case Fork(t, d, e) =>
      assert Defs(i)[0] == d && Defs(i)[1] == e && d in Defs(i) && e in Defs(i) && t in Uses(i);
    case _ =>
  }

  /** Specialization changes no run of a function whose locals are assigned before they are read. */
  lemma SpecializePreserves(p: Program, q: Program, h: Hints, known: seq<set<nat>>, rest: Rest, n: nat)
    requires OwnSlots(p) && OwnSlots(q) && q.c == p.c && q.code == Specialize(h, p.code).1
    requires OperatorsHinted(h, p.code) && SingleDefs(p.code) && Closed(h, p.code)
    requires AssignedBeforeRead(Specialize(h, p.code).0, p.code, known)
    requires !Run(p, State(0, map[], rest), n).Stuck?
    ensures Run(q, State(0, map[], rest), n) == Run(p, State(0, map[], rest), n)
  {
    var g := Specialize(h, p.code).0;
    SpecializeUpgrades(h, p.code);
    UpgradedClosed(h, g, p.code);
    EntrySound(g, p.code, known, rest);
    hide Specialize, Closed, SingleDefs, OperatorsHinted, AssignedBeforeRead, Upgraded, Rewritten;
    RewrittenRun(p, q, g, known, State(0, map[], rest), n);
  }

  // ----- the passes -----

  class OptimizationPasses {
    var instructions: seq<Ins>
    var hints: Hints

    constructor (code: seq<Ins>, h: Hints)
      ensures instructions == code && hints == h
    {
      instructions, hints := code, h;
    }

    method PropagateTypes()
      modifies this`hints
      ensures hints == Propagate(old(hints), instructions)
    {
      for k := 0 to |instructions|
        invariant hints == Propagate(old(hints), instructions[..k])
      {
        var i := instructions[k];
        assert instructions[..k + 1][..k] == instructions[..k];
        match i {
          case Assign(d, src) =>
            var x := SourceHint(hints, src);
            if x.Some? { hints := SetTemp(hints, d, x.value); }
          case Store(dst, t) =>
            if dst.VarDst? {
              var types := TempHint(hints, t).types;
              hints := SetTemp(hints, t, TempHint(hints, t).(isVar := true, payload := Number(dst.num)));
              hints := hints.(vars := hints.vars[dst.num := AddTypes(VarHint(hints, dst.num), types)]);
            }
          case _ =>
        }
      }
      assert instructions[..|instructions|] == instructions;
    }

    method SpecializeTypes()
      modifies this
      ensures (hints, instructions) == Specialize(old(hints), old(instructions))
    {
      ghost var was := instructions;
      var count := 0;
      while count < |instructions|
        invariant count <= |instructions| == |was|
        invariant (hints, instructions[..count]) == Specialize(old(hints), was[..count])
        invariant instructions[count..] == was[count..]
      {
        assert was[..count + 1][..count] == was[..count] && instructions[count] == was[count];
        var (h, i) := SpecializeOne(hints, instructions[count]);
        assert instructions[count := i][..count + 1] == instructions[..count] + [i];
        hints, instructions := h, instructions[count := i];
        count := count + 1;
      }
      assert was[..|was|] == was && instructions[..count] == instructions;
    }
  }
}
