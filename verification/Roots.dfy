/** The interpreter's pointers, and the collection it starts with them as roots. */
module Roots {
  import opened HeapModel
  import opened CollectedHeaps
  import HeapSafety
  import HeapRuns

  function Pointers(vs: seq<Value>): set<nat> {
    set v, a | v in vs && a in Target(v) :: a
  }

  function PointersOf(frames: seq<seq<Value>>): set<nat> {
    set f, a | f in frames && a in Pointers(f) :: a
  }

  function CellsOf(frames: seq<seq<nat>>): set<nat> {
    set f, a | f in frames && a in f :: a
  }

  function GlobalPointers(globals: map<string, Value>, names: set<string>): set<nat> {
    set x, a | x in names && x in globals && a in Target(globals[x]) :: a
  }

  lemma PointersAppend(vs: seq<Value>, v: Value)
    ensures Pointers(vs + [v]) == Pointers(vs) + Target(v)
  {
  }

  lemma PointersFirst(v: Value, vs: seq<Value>)
    ensures Pointers([v] + vs) == Target(v) + Pointers(vs)
  {
  }

  lemma FramesAppend(frames: seq<seq<Value>>, f: seq<Value>)
    ensures PointersOf(frames + [f]) == PointersOf(frames) + Pointers(f)
  {
    hide Pointers;
  }

  lemma CellsAppend(frames: seq<seq<nat>>, f: seq<nat>)
    ensures CellsOf(frames + [f]) == CellsOf(frames) + ToSet(f)
  {
  }

  lemma ToSetConcat(v: seq<nat>, w: seq<nat>)
    ensures ToSet(v + w) == ToSet(v) + ToSet(w)
  {
  }

  lemma GlobalsAppend(globals: map<string, Value>, names: set<string>, x: string)
    requires x in globals
    ensures GlobalPointers(globals, names + {x}) == GlobalPointers(globals, names) + Target(globals[x])
  {
  }

  /** Appends the pointers of one list of values. */
  method PushPointers(roots: seq<nat>, vs: seq<Value>) returns (r: seq<nat>)
    ensures ToSet(r) == ToSet(roots) + Pointers(vs)
  {
    r := roots;
    for i := 0 to |vs|
      invariant ToSet(r) == ToSet(roots) + Pointers(vs[..i])
    {
      assert vs[..i + 1] == vs[..i] + [vs[i]];
      PointersAppend(vs[..i], vs[i]);
      if vs[i].Ptr? {
        ToSetConcat(r, [vs[i].addr]);
        r := r + [vs[i].addr];
      }
    }
    assert vs[..|vs|] == vs;
  }

  class Interpreter {
    var mainClosure: nat
    var localStack: seq<seq<Value>>
    var referenceStack: seq<seq<nat>>
    var operandStacks: seq<seq<Value>>
    var globals: map<string, Value>
    const heap: CollectedHeap

    constructor (heap: CollectedHeap, mainClosure: nat)
      ensures this.heap == heap && Held() == {mainClosure}
    {
      this.heap := heap;
      this.mainClosure := mainClosure;
      localStack, referenceStack, operandStacks, globals := [], [], [], map[];
    }

    ghost function Held(): set<nat>
      reads this
    {
      {mainClosure} + PointersOf(localStack) + CellsOf(referenceStack) + PointersOf(operandStacks) + GlobalPointers(globals, globals.Keys)
    }

    ghost function Machine(): HeapRuns.Machine
      reads this, heap
    {
      HeapRuns.Machine(heap.State(), Held())
    }

    /** One operand stack is emptied from its top, and filled again. */
    method StackRoots(i: nat, roots: seq<nat>) returns (r: seq<nat>)
      requires i < |operandStacks|
      modifies this`operandStacks
      ensures operandStacks == old(operandStacks)
      ensures ToSet(r) == ToSet(roots) + Pointers(operandStacks[i])
    {
      r := roots;
      ghost var all := operandStacks[i];
      var holder: seq<Value> := [];
      assert Pointers(holder) == {};
      while operandStacks[i] != []
        invariant i < |operandStacks| && operandStacks == old(operandStacks)[i := operandStacks[i]]
        invariant operandStacks[i] + holder == all && ToSet(r) == ToSet(roots) + Pointers(holder)
        decreases |operandStacks[i]|
      {
        var stack := operandStacks[i];
        var v := stack[|stack| - 1];
        if v.Ptr? {
          ToSetConcat(r, [v.addr]);
          r := r + [v.addr];
        }
        PointersFirst(v, holder);
        holder := [v] + holder;
        operandStacks := operandStacks[i := stack[..|stack| - 1]];
      }
      assert holder == all;
      for k := 0 to |holder|
        invariant i < |operandStacks| && operandStacks == old(operandStacks)[i := holder[..k]]
      {
        assert holder[..k + 1] == holder[..k] + [holder[k]];
        operandStacks := operandStacks[i := operandStacks[i] + [holder[k]]];
      }
    }

    method BuildRoots() returns (roots: seq<nat>)
      modifies this`operandStacks
      ensures operandStacks == old(operandStacks)
      ensures ToSet(roots) == Held()
    {
      roots := [mainClosure];
      assert localStack[..0] == [] && referenceStack[..0] == [] && operandStacks[..0] == [];
      hide Pointers;
      assert ToSet(roots) == {mainClosure} && PointersOf(localStack[..0]) == {};
      for i := 0 to |localStack|
        invariant operandStacks == old(operandStacks)
        invariant ToSet(roots) == {mainClosure} + PointersOf(localStack[..i])
      {
        assert localStack[..i + 1] == localStack[..i] + [localStack[i]];
        FramesAppend(localStack[..i], localStack[i]);
        roots := PushPointers(roots, localStack[i]);
      }
      assert localStack[..|localStack|] == localStack;
      ghost var locals := ToSet(roots);
      for i := 0 to |referenceStack|
        invariant operandStacks == old(operandStacks)
        invariant ToSet(roots) == locals + CellsOf(referenceStack[..i])
      {
        assert referenceStack[..i + 1] == referenceStack[..i] + [referenceStack[i]];
        CellsAppend(referenceStack[..i], referenceStack[i]);
        ToSetConcat(roots, referenceStack[i]);
        roots := roots + referenceStack[i];
      }
      assert referenceStack[..|referenceStack|] == referenceStack;
      ghost var references := ToSet(roots);
      for i := 0 to |operandStacks|
        invariant operandStacks == old(operandStacks)
        invariant ToSet(roots) == references + PointersOf(operandStacks[..i])
      {
        assert operandStacks[..i + 1] == operandStacks[..i] + [operandStacks[i]];
        FramesAppend(operandStacks[..i], operandStacks[i]);
        roots := StackRoots(i, roots);
      }
      assert operandStacks[..|operandStacks|] == operandStacks;
      roots := PushGlobals(roots);
    }

    method PushGlobals(roots: seq<nat>) returns (r: seq<nat>)
      ensures ToSet(r) == ToSet(roots) + GlobalPointers(globals, globals.Keys)
    {
      r := roots;
      var rest := globals.Keys;
      while rest != {}
        invariant rest <= globals.Keys
        invariant ToSet(r) == ToSet(roots) + GlobalPointers(globals, globals.Keys - rest)
        decreases rest
      {
        var x :| x in rest;
        GlobalsAppend(globals, globals.Keys - rest, x);
        assert globals.Keys - (rest - {x}) == globals.Keys - rest + {x};
        if globals[x].Ptr? {
          ToSetConcat(r, [globals[x].addr]);
          r := r + [globals[x].addr];
        }
        rest := rest - {x};
      }
    }

    /**
      potentially_garbage_collect.  The byte counters are not modelled: `due` stands for the
      trigger and `enough` for the test that the fast collection freed enough.
     */
    method PotentiallyGarbageCollect(due: bool, enough: bool)
      requires HeapRuns.Safe(Machine()) && heap.generation + 2 < TWO_32
      modifies heap, this`operandStacks
      ensures HeapRuns.Safe(Machine()) && Held() == old(Held()) && operandStacks == old(operandStacks)
      ensures ReachSet(old(heap.store), false, Held()) <= heap.store.Keys
      ensures !due ==> heap.State() == old(heap.State())
      ensures due ==> Machine() == Collected(old(Machine()), enough)
    {
      hide HeapSafety.Inv, ReachSet, CollectFast, CollectFull;
      ghost var m := Machine();
      HeldReachable(m);
      if !due {
        return;
      }
      var roots := BuildRoots();
      if heap.generational {
        heap.GcFast(roots);
        HeapRuns.StepSafe(m, HeapRuns.Fast);
        HeapRuns.HeldSurvives(m, HeapRuns.Fast);
        if enough {
          return;
        }
      }
      ghost var n := Machine();
      StillReached(m.heap.store, n.heap.store, Held());
      heap.GcFull(roots);
      HeapRuns.StepSafe(n, HeapRuns.Full);
      HeapRuns.HeldSurvives(n, HeapRuns.Full);
    }
  }

  /** A fast collection in generational mode, and a full one unless that freed enough. */
  ghost function Collected(m: HeapRuns.Machine, enough: bool): HeapRuns.Machine {
    if !m.heap.generational then m.(heap := CollectFull(m.heap, m.held))
    else if enough then m.(heap := CollectFast(m.heap, m.held))
    else m.(heap := CollectFull(CollectFast(m.heap, m.held), m.held))
  }

  lemma HeldReachable(m: HeapRuns.Machine)
    ensures ReachSet(m.heap.store, false, m.held) <= m.heap.store.Keys
  {
  }

  /** Collecting a second time still keeps what was reachable before the first. */
  lemma StillReached(s: Store, t: Store, held: set<nat>)
    requires ReachSet(s, false, held) <= t.Keys
    requires forall a :: a in t ==> a in s && t[a].payload == s[a].payload
    ensures ReachSet(s, false, held) <= ReachSet(t, false, held)
  {
    forall a | a in ReachSet(s, false, held) ensures a in ReachSet(t, false, held) {
      var r :| r in held && Reaches(s, false, r, a);
      var p :| PathTo(s, false, p, r, a);
      forall i | 0 <= i < |p| ensures p[i] in t {
        assert PathTo(s, false, p[..i + 1], r, p[i]);
        assert p[i] in ReachSet(s, false, held);
      }
      assert PathTo(t, false, p, r, a);
    }
  }

  // ----- the closure of the running function -----

  /** Objects that stay keep their pointers, so a path among them was one before. */
  lemma ReachedBefore(s: Store, t: Store, held: set<nat>)
    requires forall a :: a in t ==> a in s && t[a].payload == s[a].payload
    ensures ReachSet(t, false, held) <= ReachSet(s, false, held)
  {
    forall a | a in ReachSet(t, false, held) ensures a in ReachSet(s, false, held) {
      var r :| r in held && Reaches(t, false, r, a);
      var p :| PathTo(t, false, p, r, a);
      assert PathTo(s, false, p, r, a);
    }
  }

  /**
    The closure of a running function is popped before the call and is no root of its own,
    though later instructions read it.  It outlives a collection exactly when the roots reach
    it or, in a fast collection that freed enough, when it is old or in a remembered field.
   */
  lemma RunningClosureExact(m: HeapRuns.Machine, enough: bool, c: nat)
    requires HeapRuns.Safe(m) && c in m.heap.store && m.heap.generation + 2 < TWO_32
    ensures c in Collected(m, enough).heap.store <==>
              if m.heap.generational && enough then m.heap.store[c].isOld || c in FastKept(m.heap, m.held)
              else c in ReachSet(m.heap.store, false, m.held)
  {
    hide HeapSafety.Inv, FastKept, ReachSet, CollectFast, CollectFull;
    var h := m.heap;
    if !h.generational {
      HeapSafety.FullExact(h, m.held);
    } else {
      HeapSafety.FastSurvives(h, m.held, c);
      if !enough {
        HeapSafety.FastSafe(h, m.held);
        HeapRuns.HeldSurvives(m, HeapRuns.Fast);
        var g := CollectFast(h, m.held);
        StillReached(h.store, g.store, m.held);
        ReachedBefore(h.store, g.store, m.held);
        HeapSafety.CollectFastKeeps(h, m.held);
        OneFast(h, m.held);
        HeapSafety.FullExact(g, m.held);
      }
    }
  }

  lemma OneFast(h: Heap, roots: set<nat>)
    ensures CollectFast(h, roots).generation == h.generation + 1
  {
    hide FastKept;
  }

  /** A running function is safe as long as something else holds its closure, as the interpreter does with the main one. */
  lemma RunningClosureSafe(m: HeapRuns.Machine, enough: bool, c: nat)
    requires HeapRuns.Safe(m) && m.heap.generation + 2 < TWO_32 && c in ReachSet(m.heap.store, false, m.held)
    ensures c in Collected(m, enough).heap.store
  {
    hide HeapSafety.Inv, FastKept, ReachSet, CollectFast, CollectFull;
    HeldReachable(m);
    RunningClosureExact(m, enough, c);
    if m.heap.generational {
      HeapSafety.FastSafe(m.heap, m.held);
      HeapSafety.FastSurvives(m.heap, m.held, c);
    }
  }

  /**
    `f = fun() { f = None; ... }; f();`: with the global overwritten nothing else holds the
    closure, and a collection in the call frees it while its function runs.
   */
  lemma RunningClosureFreed(generational: bool, enough: bool)
    ensures var es := [HeapRuns.Alloc(0, Closure([])), HeapRuns.Alloc(1, Closure([])), HeapRuns.Drop(1)];
            HeapRuns.LegalRun(HeapRuns.Start(generational), es) &&
            var m := HeapRuns.AfterRun(HeapRuns.Start(generational), es);
            m.held == {0} && 1 in m.heap.store && 1 !in Collected(m, enough).heap.store
  {
    hide HeapRuns.Safe, HeapRuns.LegalRun, HeapRuns.AfterRun, Collected, ReachSet, FastKept, Children;
    var es := [HeapRuns.Alloc(0, Closure([])), HeapRuns.Alloc(1, Closure([])), HeapRuns.Drop(1)];
    var m := DroppedClosure(generational);
    HeapRuns.ProgramSafe(generational, es);
    RunningClosureExact(m, enough, 1);
    NotReached(m.heap, m.held, 1);
  }

  /** Two closures are allocated and the second is let go. */
  lemma DroppedClosure(generational: bool) returns (m: HeapRuns.Machine)
    ensures var es := [HeapRuns.Alloc(0, Closure([])), HeapRuns.Alloc(1, Closure([])), HeapRuns.Drop(1)];
            HeapRuns.LegalRun(HeapRuns.Start(generational), es) && m == HeapRuns.AfterRun(HeapRuns.Start(generational), es)
    ensures m.held == {0} && m.heap.store.Keys == {0, 1} && !m.heap.store[1].isOld && m.heap.remembered == [] && m.heap.generation == 0
    ensures forall a :: a in m.heap.store ==> Children(m.heap.store[a].payload) == {}
    ensures m.heap.generational == generational
  {
    var m0 := HeapRuns.Start(generational);
    var e0, e1, e2 := HeapRuns.Alloc(0, Closure([])), HeapRuns.Alloc(1, Closure([])), HeapRuns.Drop(1);
    var m1 := HeapRuns.Next(m0, e0);
    var m2 := HeapRuns.Next(m1, e1);
    m := HeapRuns.Next(m2, e2);
    assert HeapRuns.Legal(m2, e2);
    hide HeapRuns.Legal, HeapRuns.Next;
    RunMore(m2, e2, []);
    RunMore(m1, e1, [e2]);
    RunMore(m0, e0, [e1, e2]);
    assert [e0] + [e1, e2] == [e0, e1, e2] && [e1] + [e2] == [e1, e2] && [e2] + [] == [e2];
  }

  lemma RunMore(m: HeapRuns.Machine, e: HeapRuns.Event, es: seq<HeapRuns.Event>)
    requires HeapRuns.Legal(m, e) && HeapRuns.LegalRun(HeapRuns.Next(m, e), es)
    ensures HeapRuns.LegalRun(m, [e] + es)
    ensures HeapRuns.AfterRun(m, [e] + es) == HeapRuns.AfterRun(HeapRuns.Next(m, e), es)
  {
    hide HeapRuns.Legal, HeapRuns.Next;
    assert ([e] + es)[1..] == es;
  }

  lemma FirstStep(s: Store, recentOnly: bool, p: seq<nat>)
    ensures IsPath(s, recentOnly, p) && |p| > 1 ==> p[0] in s && p[1] in Children(s[p[0]].payload)
  {
  }

  /** Without pointers in the heap only the roots are reached. */
  lemma NotReached(h: Heap, roots: set<nat>, c: nat)
    requires c !in roots && h.remembered == [] && forall a :: a in h.store ==> Children(h.store[a].payload) == {}
    ensures c !in ReachSet(h.store, false, roots) && c !in FastKept(h, roots)
  {
    forall recentOnly, r | r in roots ensures !Reaches(h.store, recentOnly, r, c) {
      forall p ensures !PathTo(h.store, recentOnly, p, r, c) {
        FirstStep(h.store, recentOnly, p);
      }
    }
    assert roots + RememberedTargets(h.store, h.remembered) == roots;
  }
}
