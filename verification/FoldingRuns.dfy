/** Folding constants and removing what becomes obsolete preserves every run. */
module FoldingRuns {
  import opened Runtime
  import opened Ir
  import opened TempRanges
  import opened TempUses
  import opened TypeHints
  import opened HintRewriting
  import opened ConstantTemps
  import opened ConstantFolding

  // ----- one replaced operator -----

  /** `new_` is `code` with the operator at `k` replaced by its constant value. */
  ghost predicate Replaced(code: seq<Ins>, new_: seq<Ins>, k: nat, v: Value) {
    && k < |code| && (code[k].BinIns? || code[k].UnIns?)
    && new_ == code[k := Assign(code[k].dest, ConstSrc(v))]
  }

  lemma ReplacedAt(code: seq<Ins>, new_: seq<Ins>, k: nat, v: Value, p: nat)
    requires Replaced(code, new_, k, v) && p < |code|
    ensures Defs(new_[p]) == Defs(code[p]) && (p != k ==> new_[p] == code[p]) && (p == k ==> Uses(new_[p]) == [])
  {
  }

  lemma ReplacedUse(code: seq<Ins>, new_: seq<Ins>, k: nat, v: Value, t: nat, u: nat)
    requires Replaced(code, new_, k, v) && UsedAt(new_, t, u)
    ensures UsedAt(code, t, u) && new_[u] == code[u] && u != k
  {
  }

  lemma ReplacedDisciplined(code: seq<Ins>, new_: seq<Ins>, k: nat, v: Value)
    requires Replaced(code, new_, k, v) && Disciplined(code)
    ensures Disciplined(new_)
  {
    forall t: nat, u: nat | UsedAt(new_, t, u) ensures UsedAt(code, t, u) && new_[u] == code[u] {
      ReplacedUse(code, new_, k, v, t, u);
    }
    hide UsedAt, AssertFor, Replaced;
  }

  lemma ReplacedCompiled(code: seq<Ins>, new_: seq<Ins>, k: nat, v: Value)
    requires Replaced(code, new_, k, v) && Compiled(code)
    ensures Compiled(new_)
  {
    ReplacedDisciplined(code, new_, k, v);
    hide Disciplined;
    forall t: nat, p: nat | Defines(new_, t, p) ensures Defines(code, t, p) {
      ReplacedAt(code, new_, k, v, p);
    }
    forall p | 0 <= p < |new_| && |Defs(new_[p])| == 2 ensures Defs(new_[p])[0] != Defs(new_[p])[1] {
      ReplacedAt(code, new_, k, v, p);
      assert Defs(new_[p]) == Defs(code[p]);
    }
    forall i | i in new_ ensures NoCopy(i) {
      var p :| 0 <= p < |new_| && new_[p] == i;
      if p != k { assert new_[p] == code[p] && code[p] in code; }
    }
  }

  lemma {:induction false} ReplacedVal(code: seq<Ins>, new_: seq<Ins>, k: nat, v: Value, t: nat, w: Value, n: nat)
    requires Replaced(code, new_, k, v) && ConstVal(code, t, w, n)
    ensures ConstVal(new_, t, w, n)
    decreases n
  {
    var d: nat :| Defines(code, t, d) && ConstHere(code, code[d], w, n);
    ReplacedAt(code, new_, k, v, d);
    if code[d].Fork? && !(code[d].Assign?) {
      ReplacedVal(code, new_, k, v, code[d].from, w, n - 1);
    }
    assert Defines(new_, t, d) && ConstHere(new_, new_[d], w, n);
  }

  lemma ReplacedHas(code: seq<Ins>, new_: seq<Ins>, k: nat, v: Value, t: nat, w: Value)
    requires Replaced(code, new_, k, v) && HasConst(code, t, w)
    ensures HasConst(new_, t, w)
  {
    var n: nat :| ConstVal(code, t, w, n);
    ReplacedVal(code, new_, k, v, t, w, n);
  }

  lemma ReplacedHints(h: Hints, code: seq<Ins>, new_: seq<Ins>, k: nat, v: Value)
    requires Replaced(code, new_, k, v) && ConstHints(h, code)
    ensures ConstHints(SetTemp(h, code[k].dest, ConstHint(v)), new_)
  {
    assert ConstHints(h, new_) by {
      forall t: nat | IsConst(h, t) ensures StoredAway(new_, t) || TrueConst(h, new_, t) {
        if StoredAway(code, t) {
          var u: nat :| UsedAt(code, t, u) && code[u].Store?;
          assert UsedAt(new_, t, u) && new_[u].Store?;
        } else {
          ReplacedHas(code, new_, k, v, t, TempHint(h, t).payload.value);
        }
      }
    }
    hide ConstHints;
    SetTrue(h, new_, code[k].dest, v, k);
  }

  /** Where the operator computes the constant, the step is the same. */
  lemma ReplacedStep(p: Program, q: Program, k: nat, vals: seq<Value>, v: Value, s: State)
    requires OwnSlots(p) && OwnSlots(q) && q.c == p.c && Replaced(p.code, q.code, k, v)
    requires Computes(p.code[k], vals, v) && ConstantsTrue(p.code, s.temps)
    requires forall j :: 0 <= j < |vals| ==> HasConst(p.code, Uses(p.code[k])[j], vals[j])
    ensures !Step(p, s).Stuck? ==> Step(q, s) == Step(p, s)
  {
    if s.pc < |p.code| && CanRead(p, s, Uses(p.code[s.pc])) {
      ReplacedAt(p.code, q.code, k, v, s.pc);
      if s.pc == k {
        OperatorStep(p, q, k, vals, v, s);
      } else {
        hide Computes, ConstantsTrue, HasConst, Step;
        OtherStep(p, q, s) by { ReplacedLabels(p.code, q.code, k, v); }
      }
    }
  }

  lemma ReplacedLabels(code: seq<Ins>, new_: seq<Ins>, k: nat, v: Value)
    requires Replaced(code, new_, k, v)
    ensures forall l :: FindLabel(new_, l) == FindLabel(code, l)
  {
    forall l: nat ensures FindLabel(new_, l) == FindLabel(code, l) {
      SameLabels(code, new_, l);
    }
  }

  /** Where the codes agree the step is the same. */
  lemma OtherStep(p: Program, q: Program, s: State)
    requires OwnSlots(p) && OwnSlots(q) && q.c == p.c && s.pc < |p.code| == |q.code| && q.code[s.pc] == p.code[s.pc]
    requires forall l :: FindLabel(q.code, l) == FindLabel(p.code, l)
    ensures Step(q, s) == Step(p, s)
  {
    hide Perform, Uses, Defs, FindLabel;
    var i := p.code[s.pc];
    if CanRead(p, s, Uses(i)) {
      var vals := Values(p, s, Uses(i));
      assert Values(q, s, Uses(i)) == vals;
      var e := Perform(p.c, i, vals, s.rest);
      if e.Go? {
        DefsMatch(p.c, i, vals, s.rest);
        assert WriteTemps(q, s.temps, Defs(i), e.defs) == WriteTemps(p, s.temps, Defs(i), e.defs);
      }
    }
  }

  lemma OperatorStep(p: Program, q: Program, k: nat, vals: seq<Value>, v: Value, s: State)
    requires OwnSlots(p) && OwnSlots(q) && q.c == p.c && Replaced(p.code, q.code, k, v) && s.pc == k
    requires Computes(p.code[k], vals, v) && ConstantsTrue(p.code, s.temps) && CanRead(p, s, Uses(p.code[k]))
    requires forall j :: 0 <= j < |vals| ==> HasConst(p.code, Uses(p.code[k])[j], vals[j])
    ensures Step(q, s) == Step(p, s)
  {
    var i := p.code[k];
    hide HasConst;
    assert Values(p, s, Uses(i)) == vals;
    assert Perform(p.c, i, vals, s.rest) == Go([v], s.rest);
    assert q.code[k] == Assign(i.dest, ConstSrc(v)) && Defs(i) == [i.dest];
    AssignConst(q, s, i.dest, v);
    hide Perform, Computes;
  }

  lemma AssignConst(q: Program, s: State, d: nat, v: Value)
    requires OwnSlots(q) && s.pc < |q.code| && q.code[s.pc] == Assign(d, ConstSrc(v))
    ensures Step(q, s) == Running(State(s.pc + 1, s.temps[Slot(d) := v], s.rest))
  {
  }

  lemma {:induction false} ReplacedRun(p: Program, q: Program, k: nat, vals: seq<Value>, v: Value, s: State, n: nat)
    requires OwnSlots(p) && OwnSlots(q) && q.c == p.c && Replaced(p.code, q.code, k, v) && SingleDefs(p.code)
    requires Computes(p.code[k], vals, v) && ConstantsTrue(p.code, s.temps)
    requires forall j :: 0 <= j < |vals| ==> HasConst(p.code, Uses(p.code[k])[j], vals[j])
    requires !Run(p, s, n).Stuck?
    ensures Run(q, s, n) == Run(p, s, n)
    decreases n
  {
    hide Step, ConstantsTrue, SingleDefs, Replaced, Computes, HasConst, Uses;
    if n > 0 {
      ReplacedStep(p, q, k, vals, v, s);
      ConstStep(p, s);
      if Step(p, s).Running? { ReplacedRun(p, q, k, vals, v, Step(p, s).state, n - 1); }
    }
  }

  // ----- one turn of the pass -----

  /** The hints of an operator's operands, when both are constants. */
  lemma OperandsTrue(h: Hints, code: seq<Ins>, k: nat) returns (vals: seq<Value>)
    requires Compiled(code) && ConstHints(h, code) && k < |code| && (code[k].BinIns? || code[k].UnIns?)
    requires forall t :: t in Uses(code[k]) ==> IsConst(h, t)
    ensures Operands(h, code, code[k], vals)
  {
    var i := code[k];
    forall j | 0 <= j < |Uses(i)| ensures TrueConst(h, code, Uses(i)[j]) {
      assert Uses(i)[j] in Uses(i) && UsedAt(code, Uses(i)[j], k);
      ReadConst(h, code, Uses(i)[j], k);
    }
    hide HasConst, ConstHints, Compiled;
    vals := seq(|Uses(i)|, j requires 0 <= j < |Uses(i)| => TempHint(h, Uses(i)[j]).payload.value);
  }

  lemma PutConst(errors: bool, h: Hints, i: Ins)
    requires FoldOne(errors, h, i).Put? || FoldOne(errors, h, i).Misread?
    ensures (i.BinIns? || i.UnIns?) && forall t :: t in Uses(i) ==> IsConst(h, t)
  {
  }

  /** What holds of the pass at every position. */
  ghost predicate PassOk(s: Pass) { Compiled(s.code) && ConstHints(s.h, s.code) }

  /** The integers that are folded here fit in 32 bits, and so does the result. */
  ghost predicate NarrowAt(errors: bool, s: Pass, k: nat) {
    k < |s.code| && (FoldOne(errors, s.h, s.code[k]).Put? ==>
      forall vals :: Operands(s.h, s.code, s.code[k], vals) ==> Narrow(s.code[k], vals))
  }

  lemma FoldAtKeeps(errors: bool, s: Pass, k: nat)
    requires PassOk(s) && k < |s.code| && FoldAt(errors, s, k).Some?
    ensures PassOk(FoldAt(errors, s, k).value)
  {
    var f := FoldOne(errors, s.h, s.code[k]);
    hide FoldOne, Compiled, ConstHints;
    if f.Put? {
      PutConst(errors, s.h, s.code[k]);
      var new_ := s.code[k := Assign(s.code[k].dest, ConstSrc(f.value))];
      ReplacedCompiled(s.code, new_, k, f.value);
      ReplacedHints(s.h, s.code, new_, k, f.value);
    }
  }

  lemma FoldAtRun(errors: bool, s: Pass, k: nat, p: Program, q: Program, st: State, n: nat)
    requires PassOk(s) && k < |s.code| && FoldAt(errors, s, k).Some? && NarrowAt(errors, s, k)
    requires OwnSlots(p) && OwnSlots(q) && q.c == p.c && p.code == s.code && q.code == FoldAt(errors, s, k).value.code
    requires ConstantsTrue(p.code, st.temps) && !Run(p, st, n).Stuck?
    ensures Run(q, st, n) == Run(p, st, n)
  {
    var i, f := s.code[k], FoldOne(errors, s.h, s.code[k]);
    if f.Put? {
      PutConst(errors, s.h, i);
      var vals := OperandsTrue(s.h, s.code, k);
      FoldOneRight(errors, s.h, s.code, i, vals);
      hide FoldOne, Run, ConstantsTrue, ConstHints, Narrow, Computes, HasConst;
      ReplacedRun(p, q, k, vals, f.value, st, n);
    } else {
      hide FoldOne;
      SameProgram(p, q, st, n);
    }
  }

  lemma SameStep(p: Program, q: Program, s: State)
    requires OwnSlots(p) && OwnSlots(q) && q.c == p.c && q.code == p.code
    ensures Step(q, s) == Step(p, s)
  {
    hide Perform, Uses, Defs, FindLabel;
    if s.pc < |p.code| && CanRead(p, s, Uses(p.code[s.pc])) {
      var vals := Values(p, s, Uses(p.code[s.pc]));
      assert Values(q, s, Uses(p.code[s.pc])) == vals;
      var e := Perform(p.c, p.code[s.pc], vals, s.rest);
      if e.Go? {
        DefsMatch(p.c, p.code[s.pc], vals, s.rest);
        assert WriteTemps(q, s.temps, Defs(p.code[s.pc]), e.defs) == WriteTemps(p, s.temps, Defs(p.code[s.pc]), e.defs);
      }
    }
  }

  lemma {:induction false} SameProgram(p: Program, q: Program, s: State, n: nat)
    requires OwnSlots(p) && OwnSlots(q) && q.c == p.c && q.code == p.code
    ensures Run(q, s, n) == Run(p, s, n)
    decreases n
  {
    hide Step;
    SameStep(p, q, s);
    if n > 0 && Step(p, s).Running? { SameProgram(p, q, Step(p, s).state, n - 1); }
  }

  lemma {:induction false} FoldKeeps(errors: bool, h: Hints, code: seq<Ins>, k: nat)
    requires Compiled(code) && ConstHints(h, code) && k <= |code|
    ensures FoldTo(errors, h, code, k).Some? ==> PassOk(FoldTo(errors, h, code, k).value)
    decreases k
  {
    hide Compiled, ConstHints, FoldAt;
    if k > 0 {
      FoldKeeps(errors, h, code, k - 1);
      var s := FoldTo(errors, h, code, k - 1);
      if s.Some? && FoldAt(errors, s.value, k - 1).Some? { FoldAtKeeps(errors, s.value, k - 1); }
    }
  }

  /** The pass meets only 32-bit integers. */
  ghost predicate NarrowAll(errors: bool, h: Hints, code: seq<Ins>, k: nat)
    requires k <= |code|
  {
    forall j :: 0 <= j < k ==> var s := FoldTo(errors, h, code, j); s.Some? ==> NarrowAt(errors, s.value, j)
  }

  function WithCode(p: Program, code: seq<Ins>): Program { p.(code := code) }

  /** Folding with 32-bit integers preserves every run. */
  lemma {:induction false} FoldPreserves(errors: bool, h: Hints, p: Program, k: nat, rest: Rest, n: nat)
    requires OwnSlots(p) && Compiled(p.code) && ConstHints(h, p.code) && k <= |p.code|
    requires FoldTo(errors, h, p.code, k).Some? && NarrowAll(errors, h, p.code, k)
    requires !Run(p, State(0, map[], rest), n).Stuck?
    ensures Run(WithCode(p, FoldTo(errors, h, p.code, k).value.code), State(0, map[], rest), n) == Run(p, State(0, map[], rest), n)
    decreases k
  {
    var st := State(0, map[], rest);
    hide Compiled, ConstHints, FoldAt, Run, NarrowAt;
    if k == 0 {
      assert WithCode(p, p.code) == p;
    } else {
      FoldPreserves(errors, h, p, k - 1, rest, n);
      FoldKeeps(errors, h, p.code, k - 1);
      var s := FoldTo(errors, h, p.code, k - 1).value;
      var t := FoldTo(errors, h, p.code, k).value;
      FoldAtRun(errors, s, k - 1, WithCode(p, s.code), WithCode(p, t.code), st, n);
    }
  }

  /** The pass never takes a variable's number for a constant; it can only meet a division it cannot do. */
  lemma NeverMisread(errors: bool, s: Pass, k: nat)
    requires PassOk(s) && k < |s.code| && FoldOne(errors, s.h, s.code[k]).Misread?
    ensures s.code[k].BinIns? && s.code[k].bop == IrDiv
  {
    var i := s.code[k];
    PutConst(errors, s.h, i);
    var vals := OperandsTrue(s.h, s.code, k);
    MisreadDivision(errors, s.h, s.code, i, vals);
  }

  lemma MisreadDivision(errors: bool, h: Hints, code: seq<Ins>, i: Ins, vals: seq<Value>)
    requires (i.BinIns? || i.UnIns?) && Operands(h, code, i, vals) && FoldOne(errors, h, i).Misread?
    requires forall t :: t in Uses(i) && IsConst(h, t) ==> TrueConst(h, code, t)
    ensures i.BinIns? && i.bop == IrDiv
  {
    hide HasConst;
    assert Uses(i)[0] in Uses(i);
    if i.BinIns? { assert Uses(i)[1] in Uses(i); }
  }
}
