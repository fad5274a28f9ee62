/** The linear-scan allocator as it runs: two ordered lists and the fields of the operands. */
module RegisterAllocation {
  import opened Runtime
  import opened NameTables
  import opened LinearScan

  class RegisterAllocationOptimization {
    const operands: seq<Operand>
    const order: seq<nat>
    var inUse: set<nat>
    var active: seq<nat>
    var reg: map<nat, nat>
    var lastReg: map<nat, nat>
    var sharedReg: set<nat>
    ghost var dropped: set<nat>
    ghost var sharers: set<nat>

    ghost function State(): Allocation
      reads this
    {
      Allocation(inUse, active, reg, lastReg, sharedReg, dropped, sharers)
    }

    /** Variables and temps enter the multiset one by one, ordered by the start of their ranges. */
    constructor (ops: seq<Operand>)
      ensures operands == ops && order == Order(ops, |ops|) && State() == NOTHING
    {
      operands := ops;
      var sorted: seq<nat> := [];
      for i := 0 to |ops|
        invariant sorted == Order(ops, i)
      {
        sorted := InsertBy(ByStart(ops), sorted, i);
      }
      order := sorted;
      inUse, active, reg, lastReg, sharedReg, dropped, sharers := {}, [], map[], map[], {}, {}, {};
    }

    /** None stands for the RegistersExhausted exception. */
    method AllocateReg(o: nat) returns (r: Option<nat>)
      modifies this
      ensures r == Choose(operands, old(State()), o)
      ensures State() == if r.Some? then old(State()).(inUse := old(inUse) + {r.value}) else old(State())
    {
      if IsVar(operands, o) && o in lastReg && lastReg[o] !in inUse {
        inUse := inUse + {lastReg[o]};
        return Some(lastReg[o]);
      }
      var k := 0;
      while k < POOL
        invariant k <= POOL && FirstFree(inUse, 0) == FirstFree(inUse, k) && State() == old(State())
      {
        if k !in inUse {
          inUse := inUse + {k};
          return Some(k);
        }
        k := k + 1;
      }
      return None;
    }

    method DeallocateReg(o: nat)
      requires o in reg
      modifies this
      ensures State() == Deallocate(operands, old(State()), o)
    {
      inUse := inUse - {reg[o]};
      match VariableOf(operands, o) {
        case Some(v) =>
          sharedReg := sharedReg + {o};
          lastReg := lastReg[v := reg[o]];
        case None =>
      }
    }

    method ExpireOldIntervals(o: nat)
      requires Held(State())
      modifies this
      ensures State() == Expire(operands, old(State()), Start(operands, o))
    {
      while active != []
        invariant Held(State())
        invariant Expire(operands, State(), Start(operands, o)) == Expire(operands, old(State()), Start(operands, o))
        decreases |active|
      {
        if End(operands, active[0]) > Start(operands, o) {
          return;
        }
        DeallocateReg(active[0]);
        active := active[1..];
      }
    }

    method SpillAtInterval(o: nat)
      requires active != [] && Held(State())
      modifies this
      ensures State() == SpillAt(operands, old(State()), o)
    {
      var spill := active[|active| - 1];
      if End(operands, spill) > End(operands, o) {
        reg := reg[o := reg[spill]];
        reg := reg - {spill};
        dropped := dropped + Forgotten(operands, active, spill);
        active := EraseKey(ByEnd(operands), active, End(operands, spill));
        active := InsertBy(ByEnd(operands), active, o);
      } else {
        reg := reg - {o};
      }
    }

    /** One turn of the loop over the operands. */
    method Place(o: nat)
      requires Held(State()) && Visit(operands, State(), o).Some?
      modifies this
      ensures Some(State()) == Visit(operands, old(State()), o)
    {
      ExpireHeld(operands, State(), Start(operands, o));
      ExpireOldIntervals(o);
      match VariableReg(operands, reg, o) {
        case Some(r) =>
          reg := reg[o := r];
          sharedReg := sharedReg + {o};
          sharers := sharers + {o};
          return;
        case None =>
      }
      if |inUse| >= POOL {
        SpillAtInterval(o);
      } else {
        var r := AllocateReg(o);
        reg := reg[o := r.value];
        active := InsertBy(ByEnd(operands), active, o);
      }
    }

    /** The scan ends without an exception, in the allocation that the specification computes. */
    method LinearScanAllocate()
      requires order == Order(operands, |operands|) && State() == NOTHING
      modifies this
      ensures Some(State()) == Allocate(operands)
    {
      hide Visit, ScanValid, Held, Order, Distinct, Sorted, Scan;
      OrderSorted(operands, |operands|);
      ScanNothing(operands);
      for k := 0 to |order|
        invariant Scan(operands, order[..k]) == Some(State())
      {
        ScanStep(operands, order, k, State());
        Place(order[k]);
      }
      assert order[..|order|] == order;
    }
  }

  lemma ScanNothing(ops: seq<Operand>)
    ensures Scan(ops, []) == Some(NOTHING)
  {
  }

  /** One more operand: the scan goes on, from a state in which active operands have registers. */
  lemma ScanStep(ops: seq<Operand>, order: seq<nat>, k: nat, s: Allocation)
    requires Distinct(order) && Sorted(ByStart(ops), order) && k < |order| && Scan(ops, order[..k]) == Some(s)
    ensures Held(s) && Visit(ops, s, order[k]).Some? && Scan(ops, order[..k + 1]) == Visit(ops, s, order[k])
  {
    hide Visit, ScanValid, Held, Distinct, Sorted;
    SortedPrefix(ops, order, k);
    SortedPrefix(ops, order, k + 1);
    ScanKeeps(ops, order[..k]);
    ScanKeeps(ops, order[..k + 1]);
    assert order[..k + 1][..k] == order[..k];
    ScanHeld(ops, order[..k], s);
  }

  lemma SortedPrefix(ops: seq<Operand>, order: seq<nat>, k: nat)
    requires Distinct(order) && Sorted(ByStart(ops), order) && k <= |order|
    ensures Distinct(order[..k]) && Sorted(ByStart(ops), order[..k])
  {
  }

  lemma ScanHeld(ops: seq<Operand>, order: seq<nat>, s: Allocation)
    requires ScanValid(ops, order, s)
    ensures Held(s)
  {
  }

  lemma {:induction false} ExpireHeld(ops: seq<Operand>, s: Allocation, start: int)
    requires Held(s)
    ensures Held(Expire(ops, s, start))
    decreases |s.active|
  {
    if s.active != [] && End(ops, s.active[0]) <= start {
      ExpireHeld(ops, DropFirst(ops, s), start);
    }
  }
}
