/**
  What the IR's operands are hinted to be, and when the hints are true: at a fixed point of
  their propagation every value that a run computes has a type among its hints.
 */
module TypeHints {
  import opened Runtime
  import opened Ir

  datatype Kind = IntK | BoolK | StringK | NoneK | PointerK

  function KindOf(v: Value): Kind {
    match v
    case IntV(_) => IntK
    case BoolV(_) => BoolK
    case NoneV => NoneK
    case StrV(_) => StringK
    case PtrV(_) => PointerK
  }

  /** `src_val` holds the word of a constant or the number of a variable. */
  datatype Payload = Constant(value: Value) | Number(num: nat)

  /** `type_hint`: the two source flags, and the types. */
  datatype Hint = Hint(isConst: bool, isVar: bool, types: set<Kind>, payload: Payload)

  const NO_HINT := Hint(false, false, {}, Number(0))

  /** The hints of the operands that have any. */
  datatype Hints = Hints(temps: map<nat, Hint>, vars: map<nat, Hint>)

  function TempHint(h: Hints, t: nat): Hint { if t in h.temps then h.temps[t] else NO_HINT }

  function VarHint(h: Hints, k: nat): Hint { if k in h.vars then h.vars[k] else Hint(false, true, {}, Number(k)) }

  function ConstHint(v: Value): Hint { Hint(true, false, {KindOf(v)}, Constant(v)) }

  function SetTemp(h: Hints, t: nat, x: Hint): Hints { h.(temps := h.temps[t := x]) }

  function AddTypes(x: Hint, more: set<Kind>): Hint { x.(types := x.types + more) }

  /** `is(type)`: the only type hinted. */
  predicate IsInt(h: Hints, t: nat) { TempHint(h, t).types == {IntK} }
  predicate IsBool(h: Hints, t: nat) { TempHint(h, t).types == {BoolK} }

  // ----- propagation -----

  /** The source of an assignment hands its hint to the temp; the other sources have none. */
  function SourceHint(h: Hints, src: Source): Option<Hint> {
    match src
    case VarSrc(k) => Some(VarHint(h, k))
    case ConstSrc(v) => Some(ConstHint(v))
    case TempSrc(u) => Some(TempHint(h, u))
    case _ => None
  }

  function PropagateOne(h: Hints, i: Ins): Hints {
    match i
    case Assign(d, src) =>
      var x := SourceHint(h, src);
      if x.Some? then SetTemp(h, d, x.value) else h
    case Store(VarDst(k), t) =>
      Hints(h.temps[t := TempHint(h, t).(isVar := true, payload := Number(k))],
            h.vars[k := AddTypes(VarHint(h, k), TempHint(h, t).types)])
    case _ => h
  }

  function Propagate(h: Hints, code: seq<Ins>): Hints {
    if code == [] then h else PropagateOne(Propagate(h, code[..|code| - 1]), code[|code| - 1])
  }

  /** Types that every instruction of the code has handed on. */
  ghost predicate Settled(h: Hints, code: seq<Ins>) {
    forall i :: i in code ==> SettledOne(h, i)
  }

  ghost predicate SettledOne(h: Hints, i: Ins) {
    match i
    case Assign(d, VarSrc(k)) => TempHint(h, d).types == VarHint(h, k).types
    case Assign(d, ConstSrc(v)) => TempHint(h, d).types == {KindOf(v)}
    case Store(VarDst(k), t) => TempHint(h, t).types <= VarHint(h, k).types
    case _ => true
  }

  // ----- a fixed point of the pass is settled -----

  lemma PropagateSplit(h: Hints, code: seq<Ins>, k: nat)
    requires k < |code|
    ensures Propagate(h, code[..k + 1]) == PropagateOne(Propagate(h, code[..k]), code[k])
  {
    assert code[..k + 1][..k] == code[..k];
  }

  /** The types of a variable only grow. */
  lemma {:induction false} VarsGrow(h: Hints, code: seq<Ins>, a: nat, b: nat, k: nat)
    requires a <= b <= |code|
    ensures VarHint(Propagate(h, code[..a]), k).types <= VarHint(Propagate(h, code[..b]), k).types
    decreases b
  {
    if a < b {
      VarsGrow(h, code, a, b - 1, k);
      PropagateSplit(h, code, b - 1);
    }
  }

  /** Only assignments to a temp change its types. */
  lemma {:induction false} TypesStay(h: Hints, code: seq<Ins>, a: nat, b: nat, t: nat)
    requires a <= b <= |code| && forall p :: a <= p < b ==> !(code[p].Assign? && code[p].dest == t)
    ensures TempHint(Propagate(h, code[..b]), t).types == TempHint(Propagate(h, code[..a]), t).types
    decreases b
  {
    if a < b {
      TypesStay(h, code, a, b - 1, t);
      PropagateSplit(h, code, b - 1);
    }
  }

  ghost predicate SingleAssigns(code: seq<Ins>) {
    forall p, q :: 0 <= p < |code| && 0 <= q < |code| && code[p].Assign? && code[q].Assign? && code[p].dest == code[q].dest ==> p == q
  }

  /** Between passes that change nothing the types of a temp are the same at every point. */
  lemma TypesFixed(h: Hints, code: seq<Ins>, k: nat, t: nat)
    requires Propagate(h, code) == h && SingleAssigns(code) && k <= |code|
    ensures TempHint(Propagate(h, code[..k]), t).types == TempHint(h, t).types
  {
    assert code[..|code|] == code && code[..0] == [];
    if p :| 0 <= p < k && code[p].Assign? && code[p].dest == t {
      TypesStay(h, code, k, |code|, t);
    } else {
      TypesStay(h, code, 0, k, t);
    }
  }

  lemma VarsFixed(h: Hints, code: seq<Ins>, k: nat, x: nat)
    requires Propagate(h, code) == h && k <= |code|
    ensures VarHint(Propagate(h, code[..k]), x).types == VarHint(h, x).types
  {
    assert code[..|code|] == code && code[..0] == [];
    VarsGrow(h, code, 0, k, x);
    VarsGrow(h, code, k, |code|, x);
  }

  lemma FixedOne(h: Hints, code: seq<Ins>, p: nat)
    requires Propagate(h, code) == h && SingleAssigns(code) && p < |code|
    ensures SettledOne(h, code[p])
  {
    hide Propagate;
    PropagateSplit(h, code, p);
    var i := code[p];
    if i.Assign? {
      TypesFixed(h, code, p + 1, i.dest);
      if i.src.VarSrc? { VarsFixed(h, code, p, i.src.num); }
    } else if i.Store? && i.dst.VarDst? {
      TypesFixed(h, code, p, i.value);
      VarsFixed(h, code, p + 1, i.dst.num);
    }
  }

  lemma FixedPointSettled(h: Hints, code: seq<Ins>)
    requires Propagate(h, code) == h && SingleAssigns(code)
    ensures Settled(h, code)
  {
    hide SettledOne, Propagate;
    forall i | i in code ensures SettledOne(h, i) {
      var p :| 0 <= p < |code| && code[p] == i;
      FixedOne(h, code, p);
    }
  }
}
