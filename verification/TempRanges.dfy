/**
  Where the temps of compiled IR live: each is defined once, and nothing but straight code
  lies between its definition and its uses.
 */
module TempRanges {
  import opened Runtime
  import opened Ir
  import opened IrCompiler
  import B = Bytecode
  import VM = VirtualMachine
  import SD = StackDiscipline

  predicate Defines(code: seq<Ins>, t: nat, d: nat) { d < |code| && t in Defs(code[d]) }

  predicate UsedAt(code: seq<Ins>, t: nat, u: nat) { u < |code| && t in Uses(code[u]) }

  /** Labels and jumps cut code into straight pieces. */
  predicate Cut(i: Ins) { i.OutputLabel? || i.Jump? || i.CondJump? }

  ghost predicate Calm(code: seq<Ins>, from: nat, to: nat) {
    to <= |code| && forall k :: from <= k < to ==> !Cut(code[k])
  }

  /** `t` is defined before `u`, with straight code from the definition up to `u`. */
  ghost predicate Reaches(code: seq<Ins>, t: nat, u: nat) {
    exists d: nat :: d < u && Defines(code, t, d) && Calm(code, d, u)
  }

  ghost predicate SingleDefs(code: seq<Ins>) {
    && (forall t: nat, p: nat, q: nat :: Defines(code, t, p) && Defines(code, t, q) ==> p == q)
    && forall p :: 0 <= p < |code| && |Defs(code[p])| == 2 ==> Defs(code[p])[0] != Defs(code[p])[1]
  }

  ghost predicate UsesReached(code: seq<Ins>) {
    forall t: nat, u: nat :: UsedAt(code, t, u) ==> Reaches(code, t, u)
  }

  /** Every temp is defined once, and its uses follow in the same straight piece. */
  ghost predicate Segmented(code: seq<Ins>) { SingleDefs(code) && UsesReached(code) }

  ghost predicate TempsDefined(code: seq<Ins>, temps: nat) {
    && (forall t: nat, p: nat :: Defines(code, t, p) ==> t < temps)
    && forall t: nat :: t < temps ==> Defined(code, t)
  }

  ghost predicate Defined(code: seq<Ins>, t: nat) { exists p: nat :: Defines(code, t, p) }

  ghost predicate OperandsReach(s: IrState) {
    forall j :: 0 <= j < |s.operands| ==> Reaches(s.code, s.operands[j], |s.code|)
  }

  ghost predicate Fresh(s: IrState) {
    Segmented(s.code) && TempsDefined(s.code, s.temps) && OperandsReach(s)
  }

  // ----- blocks -----

  /** A block reads operands only, and defines the new temps in its last instruction. */
  ghost predicate Shaped(b: seq<Ins>, operands: seq<nat>, temps: nat, pushed: nat, left: seq<nat>) {
    && pushed <= 2
    && (forall j, t: nat :: 0 <= j < |b| && t in Uses(b[j]) ==> t in operands)
    && (forall j :: 0 <= j < |b| - 1 ==> Defs(b[j]) == [] && !Cut(b[j]))
    && (if |b| == 0 then pushed == 0 else Defs(b[|b| - 1]) == [temps, temps + 1][..pushed])
    && (|b| > 0 && Cut(b[|b| - 1]) ==> pushed == 0 && left == [])
  }

  lemma ReverseMembers(v: seq<nat>, t: nat)
    requires t in Reverse(v)
    ensures t in v
  {
    var j :| 0 <= j < |v| && Reverse(v)[j] == t;
    assert v[|v| - 1 - j] == t;
  }

  lemma CallUsesOperands(i: B.Instr, consts: seq<Constant>, s: IrState, t: nat)
    requires VM.Pops(i) <= |s.operands| && (i.Call? || i.AllocClosure?) && t in Uses(Block(i, consts, s)[0])
    ensures t in s.operands
  {
    hide Block, Uses, Reverse;
    CallUses(i, consts, s);
    var slice := s.operands[|s.operands| - 1 - i.count..|s.operands| - 1];
    if t in Reverse(slice) { ReverseMembers(slice, t); }
    assert t in slice ==> t in s.operands;
  }

  lemma BlockUses(i: B.Instr, consts: seq<Constant>, s: IrState, j: nat, t: nat)
    requires VM.Pops(i) <= |s.operands| && j < |Block(i, consts, s)| && t in Uses(Block(i, consts, s)[j])
    requires !i.Call? && !i.AllocClosure?
    ensures t in s.operands
  {
    hide Reverse, Operand;
  }

  lemma BlockDefs(i: B.Instr, consts: seq<Constant>, s: IrState)
    requires VM.Pops(i) <= |s.operands| && !i.Swap?
    ensures var b := Block(i, consts, s);
            && (forall j :: 0 <= j < |b| - 1 ==> Defs(b[j]) == [] && !Cut(b[j]))
            && (if |b| == 0 then SD.Pushes(i) == 0 else Defs(b[|b| - 1]) == [s.temps, s.temps + 1][..SD.Pushes(i)])
            && (|b| > 0 && Cut(b[|b| - 1]) ==> i.Goto? || i.If? || i.Label?)
  {
    hide Operand, Reverse;
  }

  lemma BlockShaped(i: B.Instr, consts: seq<Constant>, s: IrState)
    requires SD.Effect(i, |s.operands|).Some? && !i.Swap?
    ensures Shaped(Block(i, consts, s), s.operands, s.temps, SD.Pushes(i), s.operands[..|s.operands| - VM.Pops(i)])
  {
    BlockDefs(i, consts, s);
    var b := Block(i, consts, s);
    forall j, t: nat | 0 <= j < |b| && t in Uses(b[j]) ensures t in s.operands {
      if i.Call? || i.AllocClosure? {
        if j == 0 { CallUsesOperands(i, consts, s, t); }
      } else {
        BlockUses(i, consts, s, j, t);
      }
    }
  }

  lemma ReachesOn(code: seq<Ins>, b: seq<Ins>, t: nat, u: nat, v: nat)
    requires Reaches(code, t, u) && u <= |code| && u <= v <= |code + b|
    requires Calm(code + b, u, v)
    ensures Reaches(code + b, t, v)
  {
    var d: nat :| d < u && Defines(code, t, d) && Calm(code, d, u);
    assert Defines(code + b, t, d);
    assert Calm(code + b, d, v) by {
      forall k | d <= k < v ensures !Cut((code + b)[k]) {
        if k < u { assert (code + b)[k] == code[k]; }
      }
    }
  }

  lemma OldUse(code: seq<Ins>, b: seq<Ins>, t: nat, u: nat)
    requires UsesReached(code) && UsedAt(code, t, u)
    ensures Reaches(code + b, t, u)
  {
    assert Calm(code + b, u, u);
    hide Defines, Cut;
    ReachesOn(code, b, t, u, u);
  }

  lemma NewUse(s: IrState, b: seq<Ins>, pushed: nat, left: seq<nat>, t: nat, j: nat)
    requires OperandsReach(s) && Shaped(b, s.operands, s.temps, pushed, left) && j < |b| && t in Uses(b[j])
    ensures Reaches(s.code + b, t, |s.code| + j)
  {
    hide Defines, Reaches;
    assert t in s.operands;
    var k :| 0 <= k < |s.operands| && s.operands[k] == t;
    assert Calm(s.code + b, |s.code|, |s.code| + j);
    ReachesOn(s.code, b, t, |s.code|, |s.code| + j);
  }

  lemma AppendUses(s: IrState, b: seq<Ins>, pushed: nat, left: seq<nat>)
    requires Fresh(s) && Shaped(b, s.operands, s.temps, pushed, left)
    ensures UsesReached(s.code + b)
  {
    var code := s.code + b;
    forall t: nat, u: nat | UsedAt(code, t, u) ensures Reaches(code, t, u) {
      hide Reaches, SingleDefs, TempsDefined, OperandsReach, Shaped, Uses, Defs;
      if u < |s.code| {
        OldUse(s.code, b, t, u);
      } else {
        NewUse(s, b, pushed, left, t, u - |s.code|);
      }
    }
  }

  lemma AppendDefs(s: IrState, b: seq<Ins>, pushed: nat, left: seq<nat>)
    requires Fresh(s) && Shaped(b, s.operands, s.temps, pushed, left)
    ensures SingleDefs(s.code + b) && TempsDefined(s.code + b, s.temps + pushed)
  {
    hide UsesReached, OperandsReach;
    var code := s.code + b;
    forall t: nat, p: nat | Defines(code, t, p)
      ensures if p < |s.code| then Defines(s.code, t, p) else s.temps <= t < s.temps + pushed && p == |code| - 1
    {
    }
    forall t: nat | t < s.temps + pushed ensures Defined(code, t) {
      if t < s.temps {
        assert Defined(s.code, t);
        var p: nat :| Defines(s.code, t, p);
        assert Defines(code, t, p);
      } else {
        assert [s.temps, s.temps + 1][..pushed][t - s.temps] == t;
        assert Defines(code, t, |code| - 1);
      }
    }
  }

  lemma AppendOperands(s: IrState, b: seq<Ins>, pops: nat, pushed: nat)
    requires Fresh(s) && pops <= |s.operands|
    requires Shaped(b, s.operands, s.temps, pushed, s.operands[..|s.operands| - pops])
    ensures OperandsReach(Append(s, pops, pushed, b))
  {
    hide Segmented, TempsDefined;
    var code, r := s.code + b, Append(s, pops, pushed, b);
    forall j | 0 <= j < |r.operands| ensures Reaches(code, r.operands[j], |code|) {
      if j < |s.operands| - pops {
        assert r.operands[j] == s.operands[j];
        assert s.operands[..|s.operands| - pops] != [];
        assert Calm(code, |s.code|, |code|);
        ReachesOn(s.code, b, s.operands[j], |s.code|, |code|);
      } else {
        assert [s.temps, s.temps + 1][..pushed][j - (|s.operands| - pops)] == r.operands[j];
        assert Defines(code, r.operands[j], |code| - 1) && Calm(code, |code| - 1, |code|);
      }
    }
  }

  lemma SwapFresh(s: IrState, consts: seq<Constant>)
    requires |s.operands| >= 2 && Fresh(s)
    ensures Fresh(Translate(B.Swap, consts, s))
  {
    hide Segmented, TempsDefined, Reaches;
    assert s.code + [] == s.code;
  }

  lemma TranslateFresh(i: B.Instr, consts: seq<Constant>, s: IrState)
    requires SD.Effect(i, |s.operands|).Some? && Fresh(s)
    ensures Fresh(Translate(i, consts, s))
  {
    if i.Swap? {
      SwapFresh(s, consts);
    } else {
      var b, left := Block(i, consts, s), s.operands[..|s.operands| - VM.Pops(i)];
      BlockShaped(i, consts, s);
      AppendUses(s, b, SD.Pushes(i), left);
      AppendDefs(s, b, SD.Pushes(i), left);
      AppendOperands(s, b, VM.Pops(i), SD.Pushes(i));
      hide SingleDefs, UsesReached, OperandsReach, TempsDefined, Block, Shaped;
    }
  }

  /** Compiled IR is segmented, and the temps it defines are those the compiler made. */
  lemma {:induction false} CompiledFresh(code: seq<B.Instr>, consts: seq<Constant>)
    requires SD.Flow(code).Some?
    ensures Fresh(TranslateAll(code, consts))
  {
    hide Fresh, Translate;
    if code != [] {
      var init := code[..|code| - 1];
      CompiledFresh(init, consts);
      TranslateFresh(code[|code| - 1], consts, TranslateAll(init, consts));
    } else {
      EmptyFresh();
    }
  }

  lemma EmptyFresh()
    ensures Fresh(EMPTY)
  {
  }
}
