/**
  The temp liveness pass, and what its ranges mean for compiled IR: from the definition of
  a temp to its last use.
 */
module TempLiveness {
  import opened Runtime
  import opened Ir
  import opened TempRanges
  import opened IrCompiler
  import B = Bytecode
  import SD = StackDiscipline

  const INT_MAX: int := 0x7FFF_FFFF

  /** The last position that defines `t`, or `init` when nothing does. */
  function LastDef(code: seq<Ins>, t: nat, init: int): int {
    if code == [] then init
    else if t in Defs(code[|code| - 1]) then |code| - 1
    else LastDef(code[..|code| - 1], t, init)
  }

  function LastUse(code: seq<Ins>, t: nat, init: int): int {
    if code == [] then init
    else if t in Uses(code[|code| - 1]) then |code| - 1
    else LastUse(code[..|code| - 1], t, init)
  }

  class TempLivenessOptimization {
    var count: nat
    var liveStart: seq<int>
    var liveEnd: seq<int>

    constructor (temps: nat)
      ensures count == 0 && |liveStart| == |liveEnd| == temps
      ensures forall t :: 0 <= t < temps ==> liveStart[t] == -1 && liveEnd[t] == INT_MAX
    {
      count := 0;
      liveStart := seq(temps, _ => -1);
      liveEnd := seq(temps, _ => INT_MAX);
    }

    method Alive(t: nat)
      requires t < |liveStart|
      modifies this`liveStart
      ensures liveStart == old(liveStart)[t := count]
    {
      liveStart := liveStart[t := count];
    }

    method Dead(t: nat)
      requires t < |liveEnd|
      modifies this`liveEnd
      ensures liveEnd == old(liveEnd)[t := count]
    {
      liveEnd := liveEnd[t := count];
    }

    /** One instruction: its operands die here (if nothing later reads them), its results are born. */
    method Visit(i: Ins)
      requires |liveStart| == |liveEnd|
      requires forall t :: t in Uses(i) || t in Defs(i) ==> t < |liveStart|
      modifies this`liveStart, this`liveEnd
      ensures |liveStart| == |old(liveStart)| && |liveEnd| == |old(liveEnd)|
      ensures forall t :: 0 <= t < |liveStart| ==> liveStart[t] == if t in Defs(i) then count else old(liveStart)[t]
      ensures forall t :: 0 <= t < |liveEnd| ==> liveEnd[t] == if t in Uses(i) then count else old(liveEnd)[t]
    {
      var uses, defs := Uses(i), Defs(i);
      for k := 0 to |uses|
        invariant liveStart == old(liveStart) && |liveEnd| == |old(liveEnd)|
        invariant forall t :: 0 <= t < |liveEnd| ==> liveEnd[t] == if t in uses[..k] then count else old(liveEnd)[t]
      {
        assert uses[..k + 1] == uses[..k] + [uses[k]];
        assert uses[k] in Uses(i);
        Dead(uses[k]);
      }
      ghost var ends := liveEnd;
      for k := 0 to |defs|
        invariant liveEnd == ends && |liveStart| == |old(liveStart)|
        invariant forall t :: 0 <= t < |liveStart| ==> liveStart[t] == if t in defs[..k] then count else old(liveStart)[t]
      {
        assert defs[..k + 1] == defs[..k] + [defs[k]];
        assert defs[k] in Defs(i);
        Alive(defs[k]);
      }
      assert uses[..|uses|] == uses && defs[..|defs|] == defs;
    }

    method Optimize(code: seq<Ins>)
      requires count == 0 && |liveStart| == |liveEnd|
      requires forall p, t :: 0 <= p < |code| && (t in Uses(code[p]) || t in Defs(code[p])) ==> t < |liveStart|
      modifies this
      ensures count == |code| && |liveStart| == |old(liveStart)| && |liveEnd| == |old(liveEnd)|
      ensures forall t :: 0 <= t < |liveStart| ==> liveStart[t] == LastDef(code, t, old(liveStart)[t])
      ensures forall t :: 0 <= t < |liveEnd| ==> liveEnd[t] == LastUse(code, t, old(liveEnd)[t])
    {
      while count < |code|
        invariant count <= |code| && |liveStart| == |old(liveStart)| && |liveEnd| == |old(liveEnd)| && |liveStart| == |liveEnd|
        invariant forall t :: 0 <= t < |liveStart| ==> liveStart[t] == LastDef(code[..count], t, old(liveStart)[t])
        invariant forall t :: 0 <= t < |liveEnd| ==> liveEnd[t] == LastUse(code[..count], t, old(liveEnd)[t])
      {
        var k := count;
        assert code[..k + 1][..k] == code[..k];
        Visit(code[k]);
        count := count + 1;
      }
      assert code[..|code|] == code;
    }
  }

  // ----- exactness -----

  lemma {:induction false} LastDefIs(code: seq<Ins>, t: nat, init: int)
    ensures var d := LastDef(code, t, init);
            (d == init && !Defined(code, t)) ||
            (d >= 0 && Defines(code, t, d) && forall p: nat :: Defines(code, t, p) ==> p <= d)
    decreases |code|
  {
    if code != [] {
      var init' := code[..|code| - 1];
      LastDefIs(init', t, init);
      assert forall p: nat :: Defines(code, t, p) <==> Defines(init', t, p) || (p == |code| - 1 && t in Defs(code[p]));
    }
  }

  ghost predicate Used(code: seq<Ins>, t: nat) { exists p: nat :: UsedAt(code, t, p) }

  lemma {:induction false} LastUseIs(code: seq<Ins>, t: nat, init: int)
    ensures var u := LastUse(code, t, init);
            (u == init && !Used(code, t)) ||
            (u >= 0 && UsedAt(code, t, u) && forall p: nat :: UsedAt(code, t, p) ==> p <= u)
    decreases |code|
  {
    if code != [] {
      var init' := code[..|code| - 1];
      LastUseIs(init', t, init);
      assert forall p: nat :: UsedAt(code, t, p) <==> UsedAt(init', t, p) || (p == |code| - 1 && t in Uses(code[p]));
    }
  }

  /**
    In compiled IR the range of every temp is exactly from its one definition to its last
    use, and no label or jump lies in between; a temp that nothing reads keeps its end open.
   */
  lemma RangesExact(bytecode: seq<B.Instr>, consts: seq<Constant>, t: nat)
    requires SD.Flow(bytecode).Some? && t < TranslateAll(bytecode, consts).temps
    ensures var code := TranslateAll(bytecode, consts).code;
            var start, end := LastDef(code, t, -1), LastUse(code, t, INT_MAX);
            && start >= 0 && Defines(code, t, start) && (forall p: nat :: Defines(code, t, p) ==> p == start)
            && (if Used(code, t) then
                  && end > start && UsedAt(code, t, end) && Calm(code, start, end)
                  && forall p: nat :: UsedAt(code, t, p) ==> start < p <= end
                else end == INT_MAX)
  {
    var code := TranslateAll(bytecode, consts).code;
    CompiledFresh(bytecode, consts);
    hide Calm, Defines, UsedAt, OperandsReach, Uses, Defs, TranslateAll;
    assert Defined(code, t);
    LastDefIs(code, t, -1);
    LastUseIs(code, t, INT_MAX);
    assert forall p: nat :: UsedAt(code, t, p) ==> Reaches(code, t, p);
  }
}
