/** The collector as it runs: lists, marks and counters updated in place. */
module CollectedHeaps {
  import opened HeapModel
  import HeapSafety
  import NameTables

  class CollectedHeap {
    var store: Store
    var recentObjects: seq<nat>
    var oldObjects: seq<nat>
    var generation: nat
    var crossGenerationPointers: seq<FieldAddr>
    const generational: bool

    ghost function State(): Heap
      reads this
    {
      Heap(store, recentObjects, oldObjects, generation, crossGenerationPointers, generational)
    }

    ghost predicate Valid()
      reads this
    {
      HeapSafety.Inv(State())
    }

    constructor (generational: bool)
      ensures State() == Heap(map[], [], [], 0, [], generational) && Valid()
    {
      store := map[];
      recentObjects, oldObjects, crossGenerationPointers := [], [], [];
      generation := 0;
      this.generational := generational;
    }

    /** The address is the allocator's choice; construction itself happens before registration. */
    method Allocate(a: nat, p: Payload)
      requires Valid() && a !in store && Children(p) <= store.Keys
      modifies this
      ensures State() == HeapModel.Allocate(old(State()), a, p) && Valid()
    {
      HeapSafety.AllocateKeeps(State(), a, p);
      store := store[a := Object(p, false, 0)];
      RegisterAllocation(a);
    }

    method RegisterAllocation(a: nat)
      modifies this`recentObjects, this`oldObjects
      ensures recentObjects == if generational then old(recentObjects) + [a] else old(recentObjects)
      ensures oldObjects == if generational then old(oldObjects) else old(oldObjects) + [a]
    {
      if generational {
        recentObjects := recentObjects + [a];
      } else {
        oldObjects := oldObjects + [a];
      }
    }

    method InsertField(r: nat, key: string, v: Value)
      requires Valid() && r in store && store[r].payload.Record? && Target(v) <= store.Keys
      modifies this
      ensures State() == RecordInsert(old(State()), r, key, v) && Valid()
    {
      HeapSafety.RecordInsertKeeps(State(), r, key, v);
      store := store[r := store[r].(payload := Record(store[r].payload.fields[key := v]))];
      if generational && v.Ptr? && !store[v.addr].isOld && store[r].isOld {
        crossGenerationPointers := crossGenerationPointers + [RecordField(r, key)];
      }
    }

    method WriteCell(c: nat, v: Value)
      requires Valid() && c in store && store[c].payload.Cell? && Target(v) <= store.Keys
      modifies this
      ensures State() == CellWrite(old(State()), c, v) && Valid()
    {
      HeapSafety.CellWriteKeeps(State(), c, v);
      store := store[c := store[c].(payload := Cell(v))];
      if generational && v.Ptr? && !store[v.addr].isOld && store[c].isOld {
        crossGenerationPointers := crossGenerationPointers + [CellField(c)];
      }
    }

    /** A value is looked up by `values[key]`, which enters an absent key. */
    method GetField(r: nat, key: string) returns (v: Value)
      requires Valid() && r in store && store[r].payload.Record?
      modifies this
      ensures State() == RecordGet(old(State()), r, key) && Valid()
      ensures key in store[r].payload.fields && v == store[r].payload.fields[key]
    {
      HeapSafety.RecordGetKeeps(State(), r, key);
      if key !in store[r].payload.fields {
        store := store[r := store[r].(payload := Record(store[r].payload.fields[key := Plain]))];
      }
      v := store[r].payload.fields[key];
    }

    method AddReferenceTo(f: nat, cell: nat)
      requires Valid() && f in store && store[f].payload.Closure? && cell in store
      modifies this
      ensures State() == AddReference(old(State()), f, cell)
      ensures Valid() <==> !generational || !old(store[f].isOld) || old(store[cell].isOld)
    {
      HeapSafety.AddReferenceExact(State(), f, cell);
      store := store[f := store[f].(payload := Closure(store[f].payload.cells + [cell]))];
    }

    ghost function Unmarked(g: nat): set<nat>
      reads this
    {
      set a | a in store && store[a].marked != g
    }

    /** Collectable::mark with markChildren: recursion through a heap that may be cyclic. */
    method Mark(a: nat, g: nat, recentOnly: bool)
      requires HeapSafety.Closed(store) && a in store
      modifies this`store
      ensures Marking(old(store), store, recentOnly, g, {a})
      ensures Unmarked(g) <= old(Unmarked(g)) && HeapSafety.Closed(store) && store.Keys == old(store.Keys)
      decreases Unmarked(g), 1
    {
      if store[a].marked == g || (recentOnly && store[a].isOld) {
        return;
      }
      ghost var before := store;
      store := store[a := store[a].(marked := g)];
      ghost var marked := store;
      assert Unmarked(g) < old(Unmarked(g)) by {
        assert a in old(Unmarked(g)) && a !in Unmarked(g);
      }
      MarkChildren(Children(store[a].payload), g, recentOnly);
      MarkingObject(before, a, store, recentOnly, g);
    }

    /** The fields of a record are visited in no particular order. */
    method MarkChildren(children: set<nat>, g: nat, recentOnly: bool)
      requires HeapSafety.Closed(store) && children <= store.Keys
      modifies this`store
      ensures Marking(old(store), store, recentOnly, g, children)
      ensures Unmarked(g) <= old(Unmarked(g)) && HeapSafety.Closed(store) && store.Keys == old(store.Keys)
      decreases Unmarked(g), 2
    {
      hide Marking, HeapSafety.Closed, Children;
      var rest := children;
      MarkingNothing(store, recentOnly, g);
      assert children - rest == {};
      while rest != {}
        invariant rest <= children && HeapSafety.Closed(store) && store.Keys == old(store.Keys)
        invariant Marking(old(store), store, recentOnly, g, children - rest)
        invariant Unmarked(g) <= old(Unmarked(g))
        decreases rest
      {
        var c :| c in rest;
        ghost var between := store;
        Mark(c, g, recentOnly);
        MarkingThen(old(store), between, store, recentOnly, g, children - rest, {c});
        assert children - (rest - {c}) == (children - rest) + {c};
        rest := rest - {c};
      }
      assert children - rest == children;
    }

    method MarkRoots(roots: seq<nat>, g: nat, recentOnly: bool)
      requires HeapSafety.Closed(store) && forall a :: a in roots ==> a in store
      modifies this`store
      ensures Marking(old(store), store, recentOnly, g, ToSet(roots))
      ensures HeapSafety.Closed(store) && store.Keys == old(store.Keys)
    {
      hide Marking, HeapSafety.Closed, Children;
      MarkingNothing(store, recentOnly, g);
      assert ToSet(roots[..0]) == {};
      for i := 0 to |roots|
        invariant HeapSafety.Closed(store) && store.Keys == old(store.Keys)
        invariant Marking(old(store), store, recentOnly, g, ToSet(roots[..i]))
      {
        ghost var between := store;
        Mark(roots[i], g, recentOnly);
        MarkingThen(old(store), between, store, recentOnly, g, ToSet(roots[..i]), {roots[i]});
        assert ToSet(roots[..i + 1]) == ToSet(roots[..i]) + {roots[i]};
      }
      assert roots[..|roots|] == roots;
    }

    /** The loop over `cross_generation_pointers`: the fields are read when the collection runs. */
    method MarkRemembered(g: nat)
      requires HeapSafety.Closed(store)
      modifies this`store
      ensures Marking(old(store), store, true, g, RememberedTargets(old(store), crossGenerationPointers))
      ensures HeapSafety.Closed(store) && store.Keys == old(store.Keys)
    {
      MarkingNothing(store, true, g);
      ghost var fields := crossGenerationPointers;
      assert RememberedTargets(store, fields[..0]) == {};
      for i := 0 to |crossGenerationPointers|
        invariant HeapSafety.Closed(store) && store.Keys == old(store.Keys) && crossGenerationPointers == fields
        invariant Marking(old(store), store, true, g, RememberedTargets(old(store), fields[..i]))
      {
        var v := Deref(store, crossGenerationPointers[i]);
        DerefSame(old(store), store, fields[i]);
        TargetsExtend(old(store), fields, i);
        if v.Ptr? {
          ghost var between := store;
          HeapSafety.DerefIsChild(store, fields[i]);
          Mark(v.addr, g, true);
          MarkingThen(old(store), between, store, true, g, RememberedTargets(old(store), fields[..i]), {v.addr});
        }
      }
      assert fields[..|fields|] == fields;
    }

    /** One sweep over a list: unmarked objects are deleted, the others become old. */
    method SweepList(list: seq<nat>, g: nat) returns (kept: seq<nat>)
      requires NameTables.Distinct(list) && forall a :: a in list ==> a in store
      modifies this`store
      ensures kept == Filter(list, MarkedSet(old(store), g))
      ensures store == SweptStore(old(store), ToSet(list), g)
    {
      kept := [];
      var i := 0;
      while i < |list|
        invariant i <= |list|
        invariant kept == Filter(list[..i], MarkedSet(old(store), g))
        invariant store == SweptStore(old(store), ToSet(list[..i]), g)
      {
        var a := list[i];
        assert forall k :: 0 <= k < i ==> list[k] != a;
        assert list[..i + 1] == list[..i] + [a];
        FilterAppend(list[..i], a, MarkedSet(old(store), g));
        store := store[a := store[a].(isOld := true)];
        if store[a].marked != g {
          store := store - {a};
        } else {
          kept := kept + [a];
        }
        i := i + 1;
      }
      assert list[..i] == list;
    }

    /** A fast collection; the generation counter is wider than the marks. */
    method GcFast(roots: seq<nat>)
      requires Valid() && generational && forall a :: a in roots ==> a in store
      modifies this
      ensures State() == CollectFast(old(State()), ToSet(roots)) && generation == old(generation) + 1
      ensures generation < TWO_32 ==> Valid() && ReachSet(old(store), false, ToSet(roots)) <= store.Keys
    {
      hide HeapSafety.Inv, Marking, CollectFast, SweptStore, ReachSet, RememberedTargets;
      ghost var before := State();
      HeapSafety.InvParts(before);
      generation := generation + 1;
      var g := generation % TWO_32;
      MarkRoots(roots, g, true);
      ghost var between := store;
      MarkRemembered(g);
      SameRemembered(before.store, between, before.remembered, true, g, ToSet(roots));
      MarkingThen(before.store, between, store, true, g, ToSet(roots), RememberedTargets(before.store, before.remembered));
      crossGenerationPointers := [];
      FastMarked(before, store, ToSet(roots));
      var kept := SweepList(recentObjects, generation);
      oldObjects := oldObjects + kept;
      recentObjects := [];
      if generation < TWO_32 {
        HeapSafety.CollectFastKeeps(before, ToSet(roots));
        HeapSafety.FastSafe(before, ToSet(roots));
      }
    }

    /** A full collection. */
    method GcFull(roots: seq<nat>)
      requires Valid() && forall a :: a in roots ==> a in store
      modifies this
      ensures State() == CollectFull(old(State()), ToSet(roots)) && Valid()
      ensures store.Keys == if generation < TWO_32 then ReachSet(old(store), false, ToSet(roots)) else {}
    {
      hide HeapSafety.Inv, Marking, CollectFull, SweptStore, ReachSet;
      ghost var before := State();
      HeapSafety.InvParts(before);
      generation := generation + 1;
      var g := generation % TWO_32;
      if generational {
        crossGenerationPointers := [];
        HeapSafety.DistinctConcat(oldObjects, recentObjects);
        oldObjects := oldObjects + recentObjects;
        recentObjects := [];
      }
      MarkRoots(roots, g, false);
      FullMarked(before, store, ToSet(roots));
      var kept := SweepList(oldObjects, generation);
      oldObjects := kept;
      HeapSafety.CollectFullKeeps(before, ToSet(roots));
      HeapSafety.FullSurvives(before, ToSet(roots));
    }
  }

  lemma SameRemembered(s: Store, t: Store, fields: seq<FieldAddr>, recentOnly: bool, g: nat, from: set<nat>)
    requires Marking(s, t, recentOnly, g, from)
    ensures RememberedTargets(t, fields) == RememberedTargets(s, fields)
  {
    forall f ensures Deref(t, f) == Deref(s, f) { DerefSame(s, t, f); }
    hide Deref;
  }

  /** What is marked after the mark phase: the kept objects, or nothing once the counter is too wide. */
  lemma MarkedIsKept(h: Heap, t: Store, recentOnly: bool, roots: set<nat>)
    requires HeapSafety.MarksOk(h) && Marking(h.store, t, recentOnly, (h.generation + 1) % TWO_32, roots)
    ensures MarkedSet(t, h.generation + 1) == Kept(h.store, recentOnly, roots, h.generation + 1)
  {
    hide ReachSet, ReachesAny;
    if h.generation + 1 < TWO_32 {
      MarkingExact(h.store, t, recentOnly, h.generation + 1, roots);
    }
  }

  lemma NewlyMarkedNotBlocked(s: Store, t: Store, recentOnly: bool, g: nat, roots: set<nat>, a: nat)
    requires Marking(s, t, recentOnly, g, roots) && a in s && t[a].marked != s[a].marked
    ensures !Blocked(s, recentOnly, a)
  {
    var r :| r in roots && Reaches(s, recentOnly, r, a);
    var p :| PathTo(s, recentOnly, p, r, a);
    assert p[|p| - 1] == a;
  }

  lemma SweptIsSweep(s: Store, t: Store, recentOnly: bool, g: nat, roots: set<nat>, swept: set<nat>, generation: nat)
    requires Marking(s, t, recentOnly, g, roots)
    requires forall a :: a in s && a !in swept ==> t[a] == s[a]
    ensures SweptStore(t, swept, generation) == Sweep(s, swept, MarkedSet(t, generation), generation)
  {
  }

  lemma FastMarked(h: Heap, t: Store, roots: set<nat>)
    requires HeapSafety.Inv(h) && h.generational
    requires Marking(h.store, t, true, (h.generation + 1) % TWO_32, roots + RememberedTargets(h.store, h.remembered))
    ensures var c := CollectFast(h, roots);
            && c.store == SweptStore(t, ToSet(h.recentObjects), h.generation + 1)
            && c.oldObjects == h.oldObjects + Filter(h.recentObjects, MarkedSet(t, h.generation + 1))
            && c.recentObjects == [] && c.generation == h.generation + 1 && c.remembered == []
            && c.generational == h.generational
  {
    var all := roots + RememberedTargets(h.store, h.remembered);
    hide Kept, Children, RememberedTargets, SweptStore, Sweep;
    MarkedIsKept(h, t, true, all);
    forall a | a in h.store && a !in ToSet(h.recentObjects) ensures t[a] == h.store[a] {
      assert h.store[a].isOld;
      if t[a].marked != h.store[a].marked {
        NewlyMarkedNotBlocked(h.store, t, true, (h.generation + 1) % TWO_32, all, a);
      }
    }
    SweptIsSweep(h.store, t, true, (h.generation + 1) % TWO_32, all, ToSet(h.recentObjects), h.generation + 1);
  }

  lemma FullMarked(h: Heap, t: Store, roots: set<nat>)
    requires HeapSafety.Inv(h) && Marking(h.store, t, false, (h.generation + 1) % TWO_32, roots)
    ensures var c := CollectFull(h, roots);
            var all := if h.generational then h.oldObjects + h.recentObjects else h.oldObjects;
            && c.store == SweptStore(t, ToSet(all), h.generation + 1)
            && c.oldObjects == Filter(all, MarkedSet(t, h.generation + 1))
            && c.recentObjects == (if h.generational then [] else h.recentObjects) && c.generation == h.generation + 1
            && c.remembered == (if h.generational then [] else h.remembered) && c.generational == h.generational
  {
    hide Kept, Children, SweptStore, Sweep;
    var all := if h.generational then h.oldObjects + h.recentObjects else h.oldObjects;
    MarkedIsKept(h, t, false, roots);
    assert forall a :: a in h.store ==> a in ToSet(all);
    SweptIsSweep(h.store, t, false, (h.generation + 1) % TWO_32, roots, ToSet(all), h.generation + 1);
  }

  /** The sweep in terms of marks: what is swept and not marked goes, what is swept and marked is old. */
  ghost function SweptStore(s: Store, swept: set<nat>, g: nat): Store {
    map a | a in s && (a in swept ==> s[a].marked == g) :: if a in swept then s[a].(isOld := true) else s[a]
  }

  lemma DerefSame(s: Store, t: Store, f: FieldAddr)
    requires SameGraph(s, t)
    ensures Deref(t, f) == Deref(s, f)
  {
  }

  lemma TargetsExtend(s: Store, fields: seq<FieldAddr>, i: nat)
    requires i < |fields|
    ensures RememberedTargets(s, fields[..i + 1]) == RememberedTargets(s, fields[..i]) + Target(Deref(s, fields[i]))
  {
    assert fields[..i + 1] == fields[..i] + [fields[i]];
  }

  lemma {:induction false} FilterAppend(v: seq<nat>, a: nat, keep: set<nat>)
    ensures Filter(v + [a], keep) == Filter(v, keep) + (if a in keep then [a] else [])
  {
    if v == [] {
      assert v + [a] == [a];
    } else {
      assert (v + [a])[1..] == v[1..] + [a];
      FilterAppend(v[1..], a, keep);
    }
  }
}
