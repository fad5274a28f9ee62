/**
  Copy forwarding: a store directly followed by a load of the same variable becomes a fork
  of the stored temp, so the load need not go through the variable.
 */
module CopyForwarding {
  import opened Ir

  /** The load reads what the store has just written. */
  predicate Forwardable(store: Ins, load: Ins) {
    store.Store? && load.Assign? &&
    match store.dst
    case VarDst(k) => load.src == VarSrc(k)
    case DerefDst(k) => load.src == DerefSrc(k)
    case GlobDst(k) => load.src == GlobSrc(k)
  }

  /** What replaces the pair; `f` and `f + 1` are fresh temps. */
  function Forwarded(store: Ins, load: Ins, f: nat): seq<Ins>
    requires Forwardable(store, load)
  {
    [Fork(store.value, f, f + 1), Store(store.dst, f), Assign(load.dest, TempSrc(f + 1))]
  }

  predicate StartsPair(code: seq<Ins>) { |code| >= 2 && Forwardable(code[0], code[1]) }

  /** The rewritten code; fresh temps are numbered from `temps`. */
  function Forward(code: seq<Ins>, temps: nat): (r: seq<Ins>)
    ensures |r| >= |code|
    decreases |code|
  {
    if code == [] then []
    else if StartsPair(code) then Forwarded(code[0], code[1], temps) + Forward(code[2..], temps + 2)
    else [code[0]] + Forward(code[1..], temps)
  }

  function FreshAfter(code: seq<Ins>, temps: nat): (r: nat)
    ensures r >= temps
    decreases |code|
  {
    if code == [] then temps
    else if StartsPair(code) then FreshAfter(code[2..], temps + 2)
    else FreshAfter(code[1..], temps)
  }

  // ----- the pass -----

  /** What one more instruction does to the rewritten code. */
  ghost predicate Appends(code: seq<Ins>, i: Ins, temps: nat) {
    var r, s := Forward(code, temps), Forward(code + [i], temps);
    var f := FreshAfter(code, temps);
    if code != [] && Forwardable(code[|code| - 1], i) then
      && r != [] && r[|r| - 1] == code[|code| - 1]
      && s == r[..|r| - 1] + Forwarded(code[|code| - 1], i, f)
      && FreshAfter(code + [i], temps) == f + 2
    else s == r + [i] && FreshAfter(code + [i], temps) == f
  }

  lemma {:induction false} ForwardAppend(code: seq<Ins>, i: Ins, temps: nat)
    ensures Appends(code, i, temps)
    decreases |code|
  {
    hide Appends, Forward, FreshAfter, Forwardable;
    if code == [] {
      EmptyAppend(i, temps);
    } else if StartsPair(code) {
      ForwardAppend(code[2..], i, temps + 2);
      PairAppend(code, i, temps);
    } else if |code| == 1 {
      SingleAppend(code, i, temps);
    } else {
      ForwardAppend(code[1..], i, temps);
      StepAppend(code, i, temps);
    }
  }

  lemma EmptyAppend(i: Ins, temps: nat)
    ensures Appends([], i, temps)
  {
    assert [] + [i] == [i] && [i][1..] == [];
  }

  lemma SingleAppend(code: seq<Ins>, i: Ins, temps: nat)
    requires |code| == 1
    ensures Appends(code, i, temps)
  {
    var all := code + [i];
    hide Forwardable;
    assert code[1..] == [] && all[1..] == [i] && all[2..] == [] && [i][1..] == [];
    assert Forward([], temps) == [] && Forward([], temps + 2) == [];
    assert Forward([i], temps) == [i] && FreshAfter([i], temps) == temps;
    assert Forward(code, temps) == code && FreshAfter(code, temps) == temps;
    if Forwardable(code[0], i) {
      assert StartsPair(all);
      assert Forward(all, temps) == Forwarded(code[0], i, temps) + [];
      assert FreshAfter(all, temps) == FreshAfter([], temps + 2) == temps + 2;
      assert code[..0] + Forwarded(code[0], i, temps) == Forwarded(code[0], i, temps);
    } else {
      assert !StartsPair(all);
      assert Forward(all, temps) == [code[0]] + Forward(all[1..], temps);
    }
  }

  /** A pair in front: what follows decides. */
  lemma PairAppend(code: seq<Ins>, i: Ins, temps: nat)
    requires StartsPair(code) && Appends(code[2..], i, temps + 2)
    ensures Appends(code, i, temps)
  {
    var all := code + [i];
    assert StartsPair(all) && all[2..] == code[2..] + [i];
    assert Forward(all, temps) == Forwarded(code[0], code[1], temps) + Forward(code[2..] + [i], temps + 2);
    assert FreshAfter(all, temps) == FreshAfter(code[2..] + [i], temps + 2);
    hide Forward, FreshAfter;
    if |code| == 2 {
      assert !Forwardable(code[1], i);
      assert code[2..] == [];
    } else {
      assert code[2..][|code| - 3] == code[|code| - 1];
    }
  }

  /** No pair in front: the first instruction stays. */
  lemma StepAppend(code: seq<Ins>, i: Ins, temps: nat)
    requires |code| > 1 && !StartsPair(code) && Appends(code[1..], i, temps)
    ensures Appends(code, i, temps)
  {
    var all := code + [i];
    assert !StartsPair(all) && all[1..] == code[1..] + [i];
    assert Forward(all, temps) == [code[0]] + Forward(code[1..] + [i], temps);
    assert FreshAfter(all, temps) == FreshAfter(code[1..] + [i], temps);
    hide Forward, FreshAfter, Forwardable;
    assert code[1..][|code| - 2] == code[|code| - 1];
  }

  class CopyOptimization {
    var count: nat
    var newIr: seq<Ins>
    var temps: nat

    constructor (temps: nat)
      ensures count == 0 && newIr == [] && this.temps == temps
    {
      this.temps := temps;
      count, newIr := 0, [];
    }

    method ExtraTemp() returns (t: nat)
      modifies this`temps
      ensures t == old(temps) && temps == t + 1
    {
      t := temps;
      temps := temps + 1;
    }

    /** Rewrites the last two instructions when they are a store and a load of the same variable. */
    method MaybeReplaceCopy(i: Ins) returns (replaced: bool)
      requires 1 <= count && |newIr| == count + 1 && newIr[count] == i
      modifies this
      ensures replaced == Forwardable(old(newIr)[old(count) - 1], i)
      ensures !replaced ==> newIr == old(newIr) && count == old(count) && temps == old(temps)
      ensures replaced ==>
                && newIr == old(newIr)[..old(count) - 1] + Forwarded(old(newIr)[old(count) - 1], i, old(temps))
                && count == old(count) + 1 && temps == old(temps) + 2
    {
      var store := newIr[count - 1];
      if !Forwardable(store, i) {
        return false;
      }
      var f1 := ExtraTemp();
      var f2 := ExtraTemp();
      newIr := newIr[count - 1 := Store(store.dst, f1)];
      newIr := newIr[count := Assign(i.dest, TempSrc(f2))];
      newIr := newIr[..count - 1] + [Fork(store.value, f1, f2)] + newIr[count - 1..];
      count := count + 1;
      return true;
    }

    method Optimize(code: seq<Ins>)
      requires count == 0 && newIr == []
      modifies this
      ensures newIr == Forward(code, old(temps)) && temps == FreshAfter(code, old(temps))
    {
      for k := 0 to |code|
        invariant count == |newIr|
        invariant newIr == Forward(code[..k], old(temps)) && temps == FreshAfter(code[..k], old(temps))
      {
        var i := code[k];
        assert code[..k + 1] == code[..k] + [i];
        hide Forward, FreshAfter;
        ForwardAppend(code[..k], i, old(temps));
        newIr := newIr + [i];
        if count == 0 {
          count := count + 1;
          continue;
        }
        LastStays(code[..k], old(temps));
        if i.Assign? {
          var replaced := MaybeReplaceCopy(i);
        }
        count := count + 1;
      }
      assert code[..|code|] == code;
    }
  }

  /** A store at the end of the rewritten code is the one at the end of the code. */
  lemma LastStays(code: seq<Ins>, temps: nat)
    requires code != []
    ensures var r := Forward(code, temps);
            r != [] && (r[|r| - 1].Store? || code[|code| - 1].Store? ==> r[|r| - 1] == code[|code| - 1])
  {
    var init := code[..|code| - 1];
    assert code == init + [code[|code| - 1]];
    hide Forward;
    ForwardAppend(init, code[|code| - 1], temps);
  }
}
