/**
  Linear-scan register allocation as a function on the allocator's state.
  RegisterAllocation.dfy has the class that does it in place.
 */
module LinearScan {
  import opened Runtime
  import opened NameTables

  datatype Kind = TempOperand(variable: Option<nat>) | VarOperand

  /** An operand with its live range; a temp may stand for a variable, given by its index. */
  datatype Operand = Operand(start: int, end: int, kind: Kind)

  /**
    `reg` and `lastReg` hold the operands that have such a register.  Two fields are
    history the allocator does not keep: the operands that `active.erase(spill)` drops
    beside the spilled one, and the temps that took over the register of their variable.
   */
  datatype Allocation = Allocation(
    inUse: set<nat>,
    active: seq<nat>,
    reg: map<nat, nat>,
    lastReg: map<nat, nat>,
    sharedReg: set<nat>,
    dropped: set<nat>,
    sharers: set<nat>)

  const NOTHING := Allocation({}, [], map[], map[], {}, {}, {})

  const POOL: nat := 8
  const REGISTERS: set<nat> := {0, 1, 2, 3, 4, 5, 6, 7}

  function Start(ops: seq<Operand>, o: nat): int { if o < |ops| then ops[o].start else 0 }

  function End(ops: seq<Operand>, o: nat): int { if o < |ops| then ops[o].end else 0 }

  function VariableOf(ops: seq<Operand>, o: nat): Option<nat> {
    if o < |ops| && ops[o].kind.TempOperand? then ops[o].kind.variable else None
  }

  predicate IsVar(ops: seq<Operand>, o: nat) { o < |ops| && ops[o].kind.VarOperand? }

  // ----- ordered lists -----

  ghost predicate Sorted(key: nat -> int, a: seq<nat>) {
    forall i, j :: 0 <= i < j < |a| ==> key(a[i]) <= key(a[j])
  }

  /** Insertion behind everything with the same or a smaller key. */
  function InsertBy(key: nat -> int, a: seq<nat>, o: nat): (r: seq<nat>)
    ensures |r| == |a| + 1 && forall x :: x in r <==> x in a || x == o
  {
    if a == [] || key(a[|a| - 1]) <= key(o) then a + [o]
    else InsertBy(key, a[..|a| - 1], o) + [a[|a| - 1]]
  }

  /** What `erase(key)` of a multiset leaves: everything of another key. */
  function EraseKey(key: nat -> int, a: seq<nat>, k: int): (r: seq<nat>)
    ensures forall x :: x in r <==> x in a && key(x) != k
  {
    if a == [] then []
    else if key(a[|a| - 1]) == k then EraseKey(key, a[..|a| - 1], k)
    else EraseKey(key, a[..|a| - 1], k) + [a[|a| - 1]]
  }

  lemma {:induction false} InsertSorted(key: nat -> int, a: seq<nat>, o: nat)
    requires Sorted(key, a)
    ensures Sorted(key, InsertBy(key, a, o))
    decreases |a|
  {
    if a != [] {
      var init, last := a[..|a| - 1], a[|a| - 1];
      assert forall x :: x in init ==> key(x) <= key(last);
      InsertSorted(key, init, o);
    }
  }

  lemma {:induction false} InsertDistinct(key: nat -> int, a: seq<nat>, o: nat)
    requires Distinct(a) && o !in a
    ensures Distinct(InsertBy(key, a, o))
    decreases |a|
  {
    if a != [] {
      var last := a[|a| - 1];
      assert last !in a[..|a| - 1];
      InsertDistinct(key, a[..|a| - 1], o);
    }
  }

  lemma InsertKeeps(key: nat -> int, a: seq<nat>, o: nat)
    requires Sorted(key, a) && Distinct(a) && o !in a
    ensures Sorted(key, InsertBy(key, a, o)) && Distinct(InsertBy(key, a, o))
  {
    hide InsertBy;
    InsertSorted(key, a, o);
    InsertDistinct(key, a, o);
  }

  lemma {:induction false} EraseSorted(key: nat -> int, a: seq<nat>, k: int)
    requires Sorted(key, a)
    ensures Sorted(key, EraseKey(key, a, k))
    decreases |a|
  {
    if a != [] {
      var init, last := a[..|a| - 1], a[|a| - 1];
      assert forall x :: x in init ==> key(x) <= key(last);
      EraseSorted(key, init, k);
    }
  }

  lemma {:induction false} EraseDistinct(key: nat -> int, a: seq<nat>, k: int)
    requires Distinct(a)
    ensures Distinct(EraseKey(key, a, k))
    decreases |a|
  {
    if a != [] {
      var last := a[|a| - 1];
      assert last !in a[..|a| - 1];
      EraseDistinct(key, a[..|a| - 1], k);
    }
  }

  lemma EraseKeeps(key: nat -> int, a: seq<nat>, k: int)
    requires Sorted(key, a) && Distinct(a)
    ensures Sorted(key, EraseKey(key, a, k)) && Distinct(EraseKey(key, a, k))
  {
    hide EraseKey;
    EraseSorted(key, a, k);
    EraseDistinct(key, a, k);
  }

  function ByStart(ops: seq<Operand>): nat -> int { (x: nat) => Start(ops, x) }

  function ByEnd(ops: seq<Operand>): nat -> int { (x: nat) => End(ops, x) }

  /** The first `n` operands in the order of the scan. */
  function Order(ops: seq<Operand>, n: nat): (r: seq<nat>)
    ensures |r| == n && forall x: nat :: x in r <==> x < n
  {
    if n == 0 then [] else InsertBy(ByStart(ops), Order(ops, n - 1), n - 1)
  }

  lemma {:induction false} OrderSorted(ops: seq<Operand>, n: nat)
    ensures Sorted(ByStart(ops), Order(ops, n)) && Distinct(Order(ops, n))
    decreases n
  {
    if n > 0 {
      OrderSorted(ops, n - 1);
      InsertKeeps(ByStart(ops), Order(ops, n - 1), n - 1);
    }
  }

  // ----- the steps -----

  predicate HasFreeReg(s: Allocation) { |s.inUse| < POOL }

  /** The first register of the pool, from `r` on, that is not in use. */
  function FirstFree(inUse: set<nat>, r: nat): Option<nat>
    decreases POOL - r
  {
    if r >= POOL then None else if r !in inUse then Some(r) else FirstFree(inUse, r + 1)
  }

  /** A variable gets its last register back when that is free. None is RegistersExhausted. */
  function Choose(ops: seq<Operand>, s: Allocation, o: nat): Option<nat> {
    if IsVar(ops, o) && o in s.lastReg && s.lastReg[o] !in s.inUse then Some(s.lastReg[o])
    else FirstFree(s.inUse, 0)
  }

  /** The register of an operand that has one, as every active operand does. */
  function RegOf(s: Allocation, o: nat): nat { if o in s.reg then s.reg[o] else POOL }

  function Deallocate(ops: seq<Operand>, s: Allocation, o: nat): Allocation {
    var r := s.(inUse := s.inUse - {RegOf(s, o)});
    match VariableOf(ops, o)
    case Some(v) => r.(sharedReg := s.sharedReg + {o}, lastReg := s.lastReg[v := RegOf(s, o)])
    case None => r
  }

  /** Every active operand has a register. */
  ghost predicate Held(s: Allocation) { forall o :: o in s.active ==> o in s.reg }

  function Expire(ops: seq<Operand>, s: Allocation, start: int): Allocation
    decreases |s.active|
  {
    if s.active == [] then s else
    var first := s.active[0];
    if End(ops, first) > start then s
    else Expire(ops, Deallocate(ops, s, first).(active := s.active[1..]), start)
  }

  /** The operands of `active` that `erase(spill)` removes beside `spill`. */
  function Forgotten(ops: seq<Operand>, active: seq<nat>, spill: nat): set<nat> {
    set x | x in active && End(ops, x) == End(ops, spill) && x != spill
  }

  function SpillAt(ops: seq<Operand>, s: Allocation, o: nat): Allocation
    requires s.active != []
  {
    var spill := s.active[|s.active| - 1];
    if End(ops, spill) > End(ops, o) then
      s.(reg := s.reg[o := RegOf(s, spill)] - {spill},
         active := InsertBy(ByEnd(ops), EraseKey(ByEnd(ops), s.active, End(ops, spill)), o),
         dropped := s.dropped + Forgotten(ops, s.active, spill))
    else s.(reg := s.reg - {o})
  }

  /** The register of the variable that a temp stands for, if it has one. */
  function VariableReg(ops: seq<Operand>, reg: map<nat, nat>, o: nat): Option<nat> {
    match VariableOf(ops, o)
    case Some(v) => if v in reg then Some(reg[v]) else None
    case None => None
  }

  /** One turn of the scan; None is a RegistersExhausted exception or a look into an empty set. */
  function Visit(ops: seq<Operand>, s: Allocation, o: nat): Option<Allocation> {
    var s1 := Expire(ops, s, Start(ops, o));
    match VariableReg(ops, s1.reg, o)
    case Some(r) => Some(s1.(reg := s1.reg[o := r], sharedReg := s1.sharedReg + {o}, sharers := s1.sharers + {o}))
    case None =>
      if !HasFreeReg(s1) then (if s1.active == [] then None else Some(SpillAt(ops, s1, o)))
      else
        var r :- Choose(ops, s1, o);
        Some(s1.(reg := s1.reg[o := r], inUse := s1.inUse + {r}, active := InsertBy(ByEnd(ops), s1.active, o)))
  }

  // ----- what every step keeps -----

  /** `o` owns a register: one of its own, not the one of its variable. */
  predicate Owns(s: Allocation, o: nat) { o in s.reg && o !in s.sharers }

  /** The operands whose registers are taken. */
  predicate Holds(s: Allocation, o: nat) { o in s.active || o in s.dropped }

  /** The registers in use are those of the active and of the dropped operands, each held once. */
  ghost predicate Accounted(s: Allocation) {
    && (forall o :: Holds(s, o) ==> Owns(s, o) && s.reg[o] in s.inUse)
    && (forall o, p :: Holds(s, o) && Holds(s, p) && o != p ==> s.reg[o] != s.reg[p])
    && (forall r :: r in s.inUse ==> exists o :: Holds(s, o) && s.reg[o] == r)
    && (forall o :: o in s.active ==> o !in s.dropped)
    && s.inUse <= REGISTERS
    && (forall o :: o in s.lastReg ==> s.lastReg[o] in REGISTERS)
  }

  /** Not every register belongs to a dropped operand. */
  ghost predicate OneLeft(s: Allocation) {
    exists r :: r in REGISTERS && forall o :: o in s.dropped && o in s.reg ==> s.reg[o] != r
  }

  ghost predicate Overlap(ops: seq<Operand>, o: nat, p: nat) {
    Start(ops, o) < End(ops, p) && Start(ops, p) < End(ops, o)
  }

  ghost predicate Safe(ops: seq<Operand>, s: Allocation, done: set<nat>) {
    forall o, p :: o in done && p in done && o != p && Owns(s, o) && Owns(s, p) && Overlap(ops, o, p) ==>
      s.reg[o] != s.reg[p]
  }

  /** Operands seen so far that own a register still hold it, or ended by `now`. */
  ghost predicate Settled(ops: seq<Operand>, s: Allocation, done: set<nat>, now: int) {
    && (forall o :: o in done && Owns(s, o) ==> Holds(s, o) || End(ops, o) <= now)
    && (forall o :: Holds(s, o) || o in s.reg ==> o in done)
    && (forall o :: o in done ==> Start(ops, o) <= now)
  }

  ghost predicate ActiveOrder(ops: seq<Operand>, s: Allocation) {
    Distinct(s.active) && Sorted(ByEnd(ops), s.active)
  }

  ghost predicate Valid(ops: seq<Operand>, s: Allocation, done: set<nat>, now: int) {
    Held(s) && Accounted(s) && OneLeft(s) && ActiveOrder(ops, s) && Safe(ops, s, done) && Settled(ops, s, done, now)
  }

  lemma Later(ops: seq<Operand>, s: Allocation, done: set<nat>, now: int, start: int)
    requires Valid(ops, s, done, now) && now <= start
    ensures Valid(ops, s, done, start)
  {
  }

  /** The allocation after the operand that ends first has expired. */
  function DropFirst(ops: seq<Operand>, s: Allocation): Allocation
    requires s.active != []
  {
    Deallocate(ops, s, s.active[0]).(active := s.active[1..])
  }

  lemma Members(a: seq<nat>, o: nat)
    requires a != [] && Distinct(a)
    ensures o in a[1..] <==> o in a && o != a[0]
  {
    if o in a[1..] {
      var j :| 0 <= j < |a| - 1 && a[1..][j] == o;
      assert a[j + 1] == o;
    }
  }

  lemma DropAccounted(ops: seq<Operand>, s: Allocation)
    requires Held(s) && s.active != [] && Accounted(s) && Distinct(s.active)
    ensures Accounted(DropFirst(ops, s)) && Held(DropFirst(ops, s))
    ensures forall o :: Holds(DropFirst(ops, s), o) <==> Holds(s, o) && o != s.active[0]
  {
    var t := DropFirst(ops, s);
    forall o: nat ensures Holds(t, o) <==> Holds(s, o) && o != s.active[0] {
      Members(s.active, o);
    }
    forall r | r in t.inUse ensures exists o :: Holds(t, o) && t.reg[o] == r {
      var o :| Holds(s, o) && s.reg[o] == r;
      assert Holds(t, o);
    }
  }

  lemma DropKeeps(ops: seq<Operand>, s: Allocation, done: set<nat>, now: int)
    requires Valid(ops, s, done, now) && s.active != [] && End(ops, s.active[0]) <= now
    ensures Valid(ops, DropFirst(ops, s), done, now)
  {
    DropAccounted(ops, s);
    hide Accounted;
    var t := DropFirst(ops, s);
    assert forall o :: Owns(t, o) <==> Owns(s, o);
    assert OneLeft(t) by {
      var r :| r in REGISTERS && forall o :: o in s.dropped && o in s.reg ==> s.reg[o] != r;
    }
  }

  /** Expiry keeps the invariant and removes exactly the operands that ended by `start`. */
  lemma {:induction false} ExpireKeeps(ops: seq<Operand>, s: Allocation, done: set<nat>, start: int)
    requires Valid(ops, s, done, start)
    ensures Valid(ops, Expire(ops, s, start), done, start)
    ensures var r := Expire(ops, s, start);
            && r.reg == s.reg && r.sharers == s.sharers && r.dropped == s.dropped
            && forall o :: o in r.active <==> o in s.active && End(ops, o) > start
    decreases |s.active|
  {
    hide Accounted, OneLeft, Safe, Settled;
    if s.active != [] && End(ops, s.active[0]) <= start {
      DropKeeps(ops, s, done, start);
      ExpireKeeps(ops, DropFirst(ops, s), done, start);
      forall o: nat ensures o in s.active[1..] <==> o in s.active && o != s.active[0] {
        Members(s.active, o);
      }
    }
  }

  // ----- a spill -----

  lemma AllInUse(inUse: set<nat>)
    requires inUse <= REGISTERS && |inUse| >= POOL
    ensures inUse == REGISTERS
  {
    assert REGISTERS == inUse + (REGISTERS - inUse);
  }

  /** When every register is taken, one of them belongs to an active operand: there is one to spill. */
  lemma SomeActive(s: Allocation)
    requires Accounted(s) && OneLeft(s) && !HasFreeReg(s)
    ensures s.active != []
  {
    AllInUse(s.inUse);
    var r :| r in REGISTERS && forall o :: o in s.dropped && o in s.reg ==> s.reg[o] != r;
    var o :| Holds(s, o) && s.reg[o] == r;
  }

  lemma LastIsActive(s: Allocation)
    requires s.active != []
    ensures s.active[|s.active| - 1] in s.active
  {
  }

  /** The new operand takes the spilled one's register; what ends with it is dropped. */
  lemma SpillAccounted(ops: seq<Operand>, s: Allocation, o: nat)
    requires Held(s) && s.active != [] && Accounted(s) && !Holds(s, o) && o !in s.sharers
    requires End(ops, s.active[|s.active| - 1]) > End(ops, o)
    ensures var r := SpillAt(ops, s, o); Accounted(r) && Held(r) && OneLeft(r) && o in r.active
    ensures var r := SpillAt(ops, s, o);
            forall p: nat :: Holds(r, p) <==> (Holds(s, p) && p != s.active[|s.active| - 1]) || p == o
  {
    var spill := s.active[|s.active| - 1];
    LastIsActive(s);
    var r := SpillAt(ops, s, o);
    hide EraseKey, InsertBy, OneLeft;
    assert o in r.active;
    assert forall p: nat :: Holds(r, p) <==> (Holds(s, p) && p != spill) || p == o;
    SpillRegisters(s, r, spill, o);
    TakenRegister(r, o);
  }

  /** Registers stay accounted for when one operand takes the place of another. */
  lemma SpillRegisters(s: Allocation, r: Allocation, spill: nat, o: nat)
    requires Accounted(s) && Holds(s, spill) && !Holds(s, o) && o !in s.sharers
    requires forall p: nat :: Holds(r, p) <==> (Holds(s, p) && p != spill) || p == o
    requires r.reg == s.reg[o := s.reg[spill]] - {spill} && r.inUse == s.inUse
    requires r.lastReg == s.lastReg && r.sharers == s.sharers && forall p :: p in r.active ==> p !in r.dropped
    ensures Accounted(r)
  {
    forall x | x in r.inUse ensures exists p :: Holds(r, p) && r.reg[p] == x {
      var p :| Holds(s, p) && s.reg[p] == x;
      assert Holds(r, if p == spill then o else p);
    }
  }

  lemma TakenRegister(s: Allocation, o: nat)
    requires Accounted(s) && o in s.active
    ensures OneLeft(s)
  {
    assert Holds(s, o) && s.reg[o] in REGISTERS;
    assert forall p :: p in s.dropped ==> Holds(s, p);
  }

  /** What a step may do to the other operands, and where it may put `o`. */
  ghost predicate Extends(s: Allocation, r: Allocation, done: set<nat>, o: nat) {
    && r.sharers - {o} == s.sharers - {o}
    && (forall p :: p in done && Owns(r, p) ==> Owns(s, p) && r.reg[p] == s.reg[p] && (Holds(s, p) ==> Holds(r, p)))
    && (forall p :: p in done && Holds(s, p) && Owns(r, p) && Owns(r, o) ==> r.reg[o] != r.reg[p])
    && (Owns(r, o) ==> Holds(r, o))
    && (forall p :: Holds(r, p) || p in r.reg ==> p == o || p in done)
  }

  lemma ExtendKeeps(ops: seq<Operand>, s: Allocation, r: Allocation, done: set<nat>, o: nat)
    requires Safe(ops, s, done) && Settled(ops, s, done, Start(ops, o)) && o !in done && Extends(s, r, done, o)
    ensures Safe(ops, r, done + {o}) && Settled(ops, r, done + {o}, Start(ops, o))
  {
    hide Holds;
  }

  lemma SpillExtends(ops: seq<Operand>, s: Allocation, done: set<nat>, o: nat)
    requires Valid(ops, s, done, Start(ops, o)) && o !in done && o !in s.sharers && s.active != []
    ensures Extends(s, SpillAt(ops, s, o), done, o)
  {
    var spill := s.active[|s.active| - 1];
    LastIsActive(s);
    var r := SpillAt(ops, s, o);
    hide Safe, OneLeft, ActiveOrder, EraseKey, InsertBy;
    if End(ops, spill) > End(ops, o) {
      SpillAccounted(ops, s, o);
      hide Accounted;
      assert Holds(s, spill);
      assert forall p :: Holds(s, p) && p != spill ==> s.reg[p] != s.reg[spill] by { HeldApart(s, spill); }
    }
  }

  lemma HeldApart(s: Allocation, o: nat)
    requires Accounted(s) && Holds(s, o)
    ensures o in s.reg && s.reg[o] in REGISTERS
    ensures forall p :: Holds(s, p) && p != o ==> p in s.reg && s.reg[p] != s.reg[o]
  {
  }

  lemma SpillKeeps(ops: seq<Operand>, s: Allocation, done: set<nat>, o: nat)
    requires Valid(ops, s, done, Start(ops, o)) && o !in done && o !in s.sharers && s.active != []
    ensures Valid(ops, SpillAt(ops, s, o), done + {o}, Start(ops, o))
  {
    SpillExtends(ops, s, done, o);
    var r := SpillAt(ops, s, o);
    ExtendKeeps(ops, s, r, done, o);
    var spill := s.active[|s.active| - 1];
    if End(ops, spill) > End(ops, o) {
      SpillAccounted(ops, s, o);
      EraseKeeps(ByEnd(ops), s.active, End(ops, spill));
      InsertKeeps(ByEnd(ops), EraseKey(ByEnd(ops), s.active, End(ops, spill)), o);
    } else {
      NoSpillKeeps(ops, s, done, o);
    }
  }

  lemma NoSpillKeeps(ops: seq<Operand>, s: Allocation, done: set<nat>, o: nat)
    requires Valid(ops, s, done, Start(ops, o)) && o !in done
    ensures var r := s.(reg := s.reg - {o}); Accounted(r) && Held(r) && OneLeft(r) && ActiveOrder(ops, r)
  {
    assert o !in s.reg;
    assert s.reg - {o} == s.reg;
  }

  // ----- a free register, or the variable's -----

  lemma {:induction false} FirstFreeIs(inUse: set<nat>, r: nat)
    ensures var f := FirstFree(inUse, r); f.Some? ==> r <= f.value < POOL && f.value !in inUse
    ensures FirstFree(inUse, r).None? ==> forall x :: r <= x < POOL ==> x in inUse
    decreases POOL - r
  {
    if r < POOL && r in inUse {
      FirstFreeIs(inUse, r + 1);
    }
  }

  lemma SomeFree(inUse: set<nat>)
    requires inUse <= REGISTERS && |inUse| < POOL
    ensures var f := FirstFree(inUse, 0); f.Some? && f.value in REGISTERS && f.value !in inUse
  {
    hide FirstFree;
    FirstFreeIs(inUse, 0);
    if FirstFree(inUse, 0).None? {
      SubsetSize(REGISTERS, inUse);
      PoolSize();
    }
  }

  lemma PoolSize()
    ensures |REGISTERS| == POOL
  {
  }

  /** As long as fewer than eight registers are in use there is one to give. */
  lemma ChooseFinds(ops: seq<Operand>, s: Allocation, o: nat)
    requires Accounted(s) && HasFreeReg(s)
    ensures var c := Choose(ops, s, o); c.Some? && c.value in REGISTERS && c.value !in s.inUse
  {
    hide FirstFree;
    SomeFree(s.inUse);
  }

  /** `o` becomes active with register `r`. */
  function Take(ops: seq<Operand>, s: Allocation, o: nat, r: nat): Allocation {
    s.(reg := s.reg[o := r], inUse := s.inUse + {r}, active := InsertBy(ByEnd(ops), s.active, o))
  }

  lemma TakeAccounted(ops: seq<Operand>, s: Allocation, o: nat, r: nat)
    requires Accounted(s) && !Holds(s, o) && o !in s.sharers && r in REGISTERS && r !in s.inUse
    ensures Accounted(Take(ops, s, o, r)) && forall p: nat :: Holds(Take(ops, s, o, r), p) <==> Holds(s, p) || p == o
  {
    var t := Take(ops, s, o, r);
    TakeHolds(ops, s, o, r);
    hide Take, Holds;
    forall p, q | Holds(t, p) && Holds(t, q) && p != q ensures t.reg[p] != t.reg[q] {
      if p == o { assert Holds(s, q); } else { assert Holds(s, p); }
    }
    forall x | x in t.inUse ensures exists p :: Holds(t, p) && t.reg[p] == x {
      if x == r {
        assert Holds(t, o);
      } else {
        var p :| Holds(s, p) && s.reg[p] == x;
        assert Holds(t, p);
      }
    }
  }

  lemma TakeHolds(ops: seq<Operand>, s: Allocation, o: nat, r: nat)
    requires o !in s.sharers && !Holds(s, o)
    ensures var t := Take(ops, s, o, r);
            && (forall p: nat :: Holds(t, p) <==> Holds(s, p) || p == o)
            && (forall p: nat :: p in t.active <==> p in s.active || p == o) && t.dropped == s.dropped && o !in s.dropped
            && t.reg == s.reg[o := r] && t.inUse == s.inUse + {r} && t.lastReg == s.lastReg && t.sharers == s.sharers
  {
  }

  lemma TakeKeeps(ops: seq<Operand>, s: Allocation, done: set<nat>, o: nat, r: nat)
    requires Valid(ops, s, done, Start(ops, o)) && o !in done && o !in s.sharers && r in REGISTERS && r !in s.inUse
    ensures Valid(ops, Take(ops, s, o, r), done + {o}, Start(ops, o))
  {
    var t := Take(ops, s, o, r);
    TakeAccounted(ops, s, o, r);
    InsertKeeps(ByEnd(ops), s.active, o);
    assert OneLeft(t) by { TakenRegister(t, o); }
    assert Extends(s, t, done, o) by { hide OneLeft, Safe, ActiveOrder, InsertBy; }
    hide Accounted, OneLeft, InsertBy;
    ExtendKeeps(ops, s, t, done, o);
  }

  lemma ShareKeeps(ops: seq<Operand>, s: Allocation, done: set<nat>, o: nat, r: nat)
    requires Valid(ops, s, done, Start(ops, o)) && o !in done
    ensures Valid(ops, s.(reg := s.reg[o := r], sharedReg := s.sharedReg + {o}, sharers := s.sharers + {o}),
                  done + {o}, Start(ops, o))
  {
    var t := s.(reg := s.reg[o := r], sharedReg := s.sharedReg + {o}, sharers := s.sharers + {o});
    assert !Holds(s, o);
    assert Extends(s, t, done, o) by { hide OneLeft, Safe, ActiveOrder; }
    ShareAccounted(s, t, o);
    hide Accounted, OneLeft, Extends;
    ExtendKeeps(ops, s, t, done, o);
  }

  /** Taking over a register changes nothing for the operands that hold theirs. */
  lemma ShareAccounted(s: Allocation, t: Allocation, o: nat)
    requires Held(s) && Accounted(s) && OneLeft(s) && !Holds(s, o)
    requires t.reg - {o} == s.reg - {o} && t.inUse == s.inUse && t.active == s.active && t.dropped == s.dropped
    requires t.lastReg == s.lastReg && t.sharers == s.sharers + {o}
    ensures Held(t) && Accounted(t) && OneLeft(t)
  {
    forall p | Holds(s, p) ensures p in t.reg && t.reg[p] == s.reg[p] {
      assert p in s.reg - {o} && p in t.reg - {o} && (t.reg - {o})[p] == (s.reg - {o})[p];
    }
    assert forall p: nat :: Holds(t, p) <==> Holds(s, p);
    forall x | x in t.inUse ensures exists p :: Holds(t, p) && t.reg[p] == x {
      var p :| Holds(s, p) && s.reg[p] == x;
      assert Holds(t, p);
    }
    assert OneLeft(t) by {
      var x :| x in REGISTERS && forall p :: p in s.dropped && p in s.reg ==> s.reg[p] != x;
      assert forall p :: p in t.dropped ==> Holds(s, p);
    }
  }

  // ----- the whole scan -----

  /** No operand is a sharer before it has been looked at. */
  ghost predicate SharersDone(s: Allocation, done: set<nat>) { s.sharers <= done }

  /** A turn of the scan never runs out of registers, finds one to spill when it must, and keeps the invariant. */
  lemma VisitKeeps(ops: seq<Operand>, s: Allocation, done: set<nat>, now: int, o: nat)
    requires Valid(ops, s, done, now) && SharersDone(s, done) && o !in done && now <= Start(ops, o)
    ensures var r := Visit(ops, s, o);
            r.Some? && Valid(ops, r.value, done + {o}, Start(ops, o)) && SharersDone(r.value, done + {o})
  {
    var start := Start(ops, o);
    Later(ops, s, done, now, start);
    ExpireKeeps(ops, s, done, start);
    var s1 := Expire(ops, s, start);
    if VariableReg(ops, s1.reg, o).Some? {
      ShareKeeps(ops, s1, done, o, VariableReg(ops, s1.reg, o).value);
    } else if HasFreeReg(s1) {
      ChooseFinds(ops, s1, o);
      TakeKeeps(ops, s1, done, o, Choose(ops, s1, o).value);
    } else {
      SomeActive(s1);
      SpillKeeps(ops, s1, done, o);
    }
    hide Valid, Expire, FirstFree;
  }

  function Done(order: seq<nat>): set<nat> { set o | o in order }

  function Scan(ops: seq<Operand>, order: seq<nat>): Option<Allocation> {
    if order == [] then Some(NOTHING) else
    var s :- Scan(ops, order[..|order| - 1]);
    Visit(ops, s, order[|order| - 1])
  }

  ghost predicate ScanValid(ops: seq<Operand>, order: seq<nat>, s: Allocation) {
    SharersDone(s, Done(order)) &&
    if order == [] then s == NOTHING else Valid(ops, s, Done(order), Start(ops, order[|order| - 1]))
  }

  lemma NothingValid(ops: seq<Operand>, now: int)
    ensures Valid(ops, NOTHING, {}, now)
  {
    assert 0 in REGISTERS;
  }

  lemma LastStart(ops: seq<Operand>, order: seq<nat>, init: seq<nat>)
    requires order != [] && init == order[..|order| - 1] && Distinct(order) && Sorted(ByStart(ops), order)
    ensures init == [] ==> Done(init) == {}
    ensures Distinct(init) && Sorted(ByStart(ops), init)
    ensures Done(order) == Done(init) + {order[|order| - 1]} && order[|order| - 1] !in Done(init)
    ensures init != [] ==> Start(ops, init[|init| - 1]) <= Start(ops, order[|order| - 1])
  {
    assert init != [] ==> ByStart(ops)(init[|init| - 1]) <= ByStart(ops)(order[|order| - 1]);
  }

  /** Over operands in the order of their starts the whole scan succeeds and keeps the invariant. */
  lemma {:induction false} ScanKeeps(ops: seq<Operand>, order: seq<nat>)
    requires Distinct(order) && Sorted(ByStart(ops), order)
    ensures var r := Scan(ops, order); r.Some? && ScanValid(ops, order, r.value)
    decreases |order|
  {
    assert SharersDone(NOTHING, Done([]));
    hide Valid, SharersDone, Visit, Distinct, Sorted, Done;
    if order != [] {
      var init, o := order[..|order| - 1], order[|order| - 1];
      LastStart(ops, order, init);
      ScanKeeps(ops, init);
      var s := Scan(ops, init).value;
      var now := if init == [] then Start(ops, o) else Start(ops, init[|init| - 1]);
      if init == [] {
        NothingValid(ops, now);
      }
      VisitKeeps(ops, s, Done(init), now, o);
    }
  }

  /** The allocation of a whole function. */
  function Allocate(ops: seq<Operand>): Option<Allocation> { Scan(ops, Order(ops, |ops|)) }

  /** The allocator never runs out of registers, whatever the live ranges. */
  lemma NeverExhausted(ops: seq<Operand>)
    ensures Allocate(ops).Some?
  {
    OrderSorted(ops, |ops|);
    ScanKeeps(ops, Order(ops, |ops|));
  }

  /**
    Two operands that own registers and are alive together own different ones, for every
    set of live ranges.
   */
  lemma OverlapApart(ops: seq<Operand>, o: nat, p: nat)
    requires Allocate(ops).Some? && o < |ops| && p < |ops| && o != p
    requires Owns(Allocate(ops).value, o) && Owns(Allocate(ops).value, p) && Overlap(ops, o, p)
    ensures Allocate(ops).value.reg[o] != Allocate(ops).value.reg[p]
  {
    OrderSorted(ops, |ops|);
    ScanKeeps(ops, Order(ops, |ops|));
  }

  /**
    At every point of the scan the registers in use are those of the active and of the
    dropped operands, one each, and at most seven operands have been dropped.
   */
  lemma RegistersAccounted(ops: seq<Operand>, n: nat)
    requires n <= |ops|
    ensures var r := Scan(ops, Order(ops, |ops|)[..n]);
            && r.Some? && Accounted(r.value) && |r.value.dropped| < POOL && |r.value.inUse| <= POOL
            && (|r.value.inUse| == POOL ==> r.value.active != [])
  {
    OrderSorted(ops, |ops|);
    var order := Order(ops, |ops|)[..n];
    hide Scan, Order, Accounted, OneLeft;
    ScanKeeps(ops, order);
    ScanAccounted(ops, order, Scan(ops, order).value);
    Counted(Scan(ops, order).value);
  }

  lemma Counted(s: Allocation)
    requires Accounted(s) && OneLeft(s)
    ensures |s.dropped| < POOL && |s.inUse| <= POOL && (|s.inUse| == POOL ==> s.active != [])
  {
    DroppedFew(s);
    assert s.inUse <= REGISTERS;
    hide Accounted, OneLeft;
    SubsetSize(s.inUse, REGISTERS);
    PoolSize();
    if |s.inUse| == POOL { SomeActive(s); }
  }

  lemma ScanAccounted(ops: seq<Operand>, order: seq<nat>, s: Allocation)
    requires ScanValid(ops, order, s)
    ensures Accounted(s) && OneLeft(s)
  {
    hide Accounted, OneLeft;
    NothingValid(ops, 0);
  }

  lemma SubsetSize(a: set<nat>, b: set<nat>)
    requires a <= b
    ensures |a| <= |b|
  {
    assert b == a + (b - a);
  }

  /** The dropped operands have different registers, and one register is none of theirs. */
  lemma DroppedFew(s: Allocation)
    requires Accounted(s) && OneLeft(s)
    ensures |s.dropped| < POOL
  {
    var r :| r in REGISTERS && forall o :: o in s.dropped && o in s.reg ==> s.reg[o] != r;
    var rest := REGISTERS - {r};
    assert forall o :: o in s.dropped ==> Holds(s, o);
    assert forall o :: o in s.dropped ==> o in s.reg && s.reg[o] in REGISTERS;
    assert forall o, p :: o in s.dropped && p in s.dropped && o != p ==> s.reg[o] != s.reg[p];
    hide Accounted, Holds, OneLeft;
    Injective(s.dropped, s.reg, rest);
    OneFewer(r);
  }

  lemma OneFewer(r: nat)
    requires r in REGISTERS
    ensures |REGISTERS - {r}| < POOL
  {
    assert REGISTERS == {r} + (REGISTERS - {r});
    PoolSize();
  }

  lemma {:induction false} Injective(os: set<nat>, reg: map<nat, nat>, into: set<nat>)
    requires forall o :: o in os ==> o in reg && reg[o] in into
    requires forall o, p :: o in os && p in os && o != p ==> reg[o] != reg[p]
    ensures |os| <= |into|
    decreases |os|
  {
    if os != {} {
      var o :| o in os;
      Injective(os - {o}, reg, into - {reg[o]});
    }
  }
}
