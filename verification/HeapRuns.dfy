/** Runs of a program over the heap: it holds pointers, uses what it holds, and collects. */
module HeapRuns {
  import opened HeapModel
  import opened HeapSafety

  /** The heap, and every pointer held in frames, operand stacks and globals. */
  datatype Machine = Machine(heap: Heap, held: set<nat>)

  datatype Event =
    | Alloc(a: nat, payload: Payload)
    | Load(from: nat, child: nat)
    | Insert(record: nat, key: string, v: Value)
    | Get(record: nat, key: string)
    | Write(cell: nat, v: Value)
    | Capture(closure: nat, captured: nat)
    | Drop(a: nat)
    | Fast
    | Full

  /** The program uses only pointers it holds; a closure captures while it is new, or cells that are old. */
  ghost predicate Legal(m: Machine, e: Event) {
    var s := m.heap.store;
    match e
    case Alloc(a, p) => a !in s && forall c :: Stores(p, c) ==> c in m.held
    case Load(from, c) => from in m.held && from in s && Stores(s[from].payload, c)
    case Insert(r, _, v) => r in m.held && r in s && s[r].payload.Record? && Target(v) <= m.held
    case Get(r, _) => r in m.held && r in s && s[r].payload.Record?
    case Write(c, v) => c in m.held && c in s && s[c].payload.Cell? && Target(v) <= m.held
    case Capture(f, c) =>
      f in m.held && f in s && s[f].payload.Closure? && c in m.held && c in s && (m.heap.generational && s[f].isOld ==> s[c].isOld)
    case Drop(_) => true
    case Fast => m.heap.generational && m.heap.generation + 1 < TWO_32
    case Full => m.heap.generation + 1 < TWO_32
  }

  ghost function Next(m: Machine, e: Event): Machine
    requires Legal(m, e)
  {
    match e
    case Alloc(a, p) => Machine(Allocate(m.heap, a, p), m.held + {a})
    case Load(_, c) => m.(held := m.held + {c})
    case Insert(r, k, v) => m.(heap := RecordInsert(m.heap, r, k, v))
    case Get(r, k) => m.(heap := RecordGet(m.heap, r, k))
    case Write(c, v) => m.(heap := CellWrite(m.heap, c, v))
    case Capture(f, c) => m.(heap := AddReference(m.heap, f, c))
    case Drop(a) => m.(held := m.held - {a})
    case Fast => m.(heap := CollectFast(m.heap, m.held))
    case Full => m.(heap := CollectFull(m.heap, m.held))
  }

  ghost predicate LegalRun(m: Machine, es: seq<Event>)
    decreases |es|
  {
    es == [] || (Legal(m, es[0]) && LegalRun(Next(m, es[0]), es[1..]))
  }

  ghost function AfterRun(m: Machine, es: seq<Event>): Machine
    requires LegalRun(m, es)
    decreases |es|
  {
    if es == [] then m else AfterRun(Next(m, es[0]), es[1..])
  }

  /** Everything held is alive, and so is everything that live objects point to. */
  ghost predicate Safe(m: Machine) {
    Inv(m.heap) && m.held <= m.heap.store.Keys
  }

  function Start(generational: bool): Machine {
    Machine(Heap(map[], [], [], 0, [], generational), {})
  }

  lemma HeldSurvives(m: Machine, e: Event)
    requires Safe(m) && (e == Fast || e == Full) && Legal(m, e)
    ensures ReachSet(m.heap.store, false, m.held) <= Next(m, e).heap.store.Keys
    ensures forall a :: a in Next(m, e).heap.store ==>
              a in m.heap.store && Next(m, e).heap.store[a].payload == m.heap.store[a].payload
    ensures m.held <= Next(m, e).heap.store.Keys
  {
    hide Inv, ReachSet;
    if e == Fast {
      FastSafe(m.heap, m.held);
    } else {
      FullExact(m.heap, m.held);
    }
    forall a | a in m.held ensures a in ReachSet(m.heap.store, false, m.held) {
      ReachesSelf(m.heap.store, false, a);
      HeldReached(m.heap.store, m.held, a);
    }
  }

  lemma HeldReached(s: Store, held: set<nat>, a: nat)
    requires a in held && a in s && Reaches(s, false, a, a)
    ensures a in ReachSet(s, false, held)
  {
  }

  lemma StepSafe(m: Machine, e: Event)
    requires Safe(m) && Legal(m, e)
    ensures Safe(Next(m, e))
  {
    hide Inv, CollectFast, CollectFull;
    match e
    case Alloc(a, p) => AllocAlive(m, a, p);
    case Load(from, c) => LoadAlive(m, from, c);
    case Insert(r, k, v) => RecordInsertKeeps(m.heap, r, k, v);
    case Get(r, k) => RecordGetKeeps(m.heap, r, k);
    case Write(c, v) => CellWriteKeeps(m.heap, c, v);
    case Capture(f, c) => AddReferenceExact(m.heap, f, c);
    case Drop(_) =>
    case Fast =>
      CollectFastKeeps(m.heap, m.held);
      HeldSurvives(m, e);
    case Full =>
      CollectFullKeeps(m.heap, m.held);
      HeldSurvives(m, e);
  }

  lemma LoadAlive(m: Machine, from: nat, c: nat)
    requires Safe(m) && from in m.heap.store && Stores(m.heap.store[from].payload, c)
    ensures c in m.heap.store
  {
    ChildrenExact(m.heap.store[from].payload, c);
  }

  lemma AllocAlive(m: Machine, a: nat, p: Payload)
    requires Safe(m) && Legal(m, Alloc(a, p))
    ensures Safe(Next(m, Alloc(a, p)))
  {
    hide Inv, Children;
    forall c | c in Children(p) ensures c in m.held {
      ChildrenExact(p, c);
    }
    AllocateKeeps(m.heap, a, p);
  }

  /** Either collection keeps every pointer that an object it keeps has stored: both operands of a string tree, too. */
  lemma StoredSurvives(m: Machine, e: Event, a: nat, c: nat)
    requires Safe(m) && (e == Fast || e == Full) && Legal(m, e)
    requires a in Next(m, e).heap.store && a in m.heap.store && Stores(m.heap.store[a].payload, c)
    ensures c in Next(m, e).heap.store
  {
    HeldSurvives(m, e);
    StepSafe(m, e);
    hide CollectFast, CollectFull;
    LoadAlive(Next(m, e), a, c);
  }

  /**
    Over every run, in either mode: no held pointer dangles, no pointer inside the heap
    dangles, and every pointer from an old object to a new one is in a remembered field.
   */
  lemma {:induction false} RunSafe(m: Machine, es: seq<Event>)
    requires Safe(m) && LegalRun(m, es)
    ensures Safe(AfterRun(m, es))
    decreases |es|
  {
    hide Safe, Next, Legal;
    if es != [] {
      StepSafe(m, es[0]);
      RunSafe(Next(m, es[0]), es[1..]);
    }
  }

  lemma ProgramSafe(generational: bool, es: seq<Event>)
    requires LegalRun(Start(generational), es)
    ensures Safe(AfterRun(Start(generational), es))
  {
    hide LegalRun, AfterRun;
    assert Safe(Start(generational));
    RunSafe(Start(generational), es);
  }

  /**
    Why a closure must capture while it is new: there is no barrier, so a capture by an old
    closure leaves a cell that the next fast collection frees although the roots reach it.
   */
  lemma LateCaptureLosesCell()
    ensures exists h: Heap, closure: nat, cell: nat ::
              && Inv(h) && h.generational && closure in h.store && h.store[closure].payload.Closure? && cell in h.store
              && h.generation + 1 < TWO_32
              && var g := AddReference(h, closure, cell);
                 cell in ReachSet(g.store, false, {closure}) && cell !in CollectFast(g, {closure}).store
  {
    var s: Store := map[0 := Object(Closure([]), true, 1), 1 := Object(Cell(Plain), false, 0)];
    var h := Heap(s, [1], [0], 1, [], true);
    assert Inv(h);
    var g := AddReference(h, 0, 1);
    hide Inv, AddReference, CollectFast, ReachSet;
    CaptureReached(g.store, 0, 1) by { assert g.store[0].payload == Closure([1]); }
    CaptureFreed(g, 0, 1);
  }

  lemma CaptureReached(s: Store, closure: nat, cell: nat)
    requires closure in s && cell in s && s[closure].payload == Closure([cell])
    ensures cell in ReachSet(s, false, {closure})
  {
    ReachesSelf(s, false, closure);
    assert cell in Children(s[closure].payload);
    ReachesAppend(s, false, closure, closure, cell);
    hide Reaches, Children;
  }

  /** Marking stops at the old closure, and no field remembers the cell. */
  lemma CaptureFreed(h: Heap, closure: nat, cell: nat)
    requires closure in h.store && h.store[closure].isOld && closure != cell && h.remembered == []
    requires cell in h.store && cell in h.recentObjects && h.store[cell].marked != (h.generation + 1) % TWO_32
    ensures cell !in CollectFast(h, {closure}).store
  {
    assert {closure} + RememberedTargets(h.store, h.remembered) == {closure};
    forall p ensures !PathTo(h.store, true, p, closure, cell) {
      assert Blocked(h.store, true, closure);
    }
    hide PathTo, RememberedTargets;
  }
}
