/**
  The remembered-set argument: over every run of the mutator and both collections, each
  pointer from an old object to a new one sits in a remembered field, and so the fast
  collection, whose marking stops at old objects, never frees what the roots reach.
 */
module HeapSafety {
  import opened HeapModel
  import opened NameTables

  /** The two lists hold every object once. */
  ghost predicate ListsOk(h: Heap) {
    && Distinct(h.recentObjects) && Distinct(h.oldObjects)
    && (forall a :: a in h.recentObjects ==> a !in h.oldObjects)
    && (forall a :: a in h.store <==> a in h.recentObjects || a in h.oldObjects)
    && (!h.generational ==> h.recentObjects == [])
  }

  /** No dangling pointers inside the heap. */
  ghost predicate Closed(s: Store) {
    forall a, c :: a in s && c in Children(s[a].payload) ==> c in s
  }

  ghost predicate AgesOk(h: Heap) {
    h.generational ==> forall a :: a in h.store ==> (h.store[a].isOld <==> a in h.oldObjects)
  }

  ghost predicate MarksOk(h: Heap) {
    forall a :: a in h.store ==> h.store[a].marked < TWO_32 && (h.generation < TWO_32 ==> h.store[a].marked <= h.generation)
  }

  ghost predicate IsNew(s: Store, a: nat) { a in s && !s[a].isOld }

  /**
    Every field of an old object that points to a new one is remembered; ropes and closures,
    which have no barrier, point to no new object once they are old.
   */
  ghost predicate Remembered(h: Heap) {
    h.generational ==>
      && (forall f :: Owner(f) in h.store && h.store[Owner(f)].isOld && Deref(h.store, f).Ptr? && IsNew(h.store, Deref(h.store, f).addr)
            ==> f in h.remembered)
      && (forall a, c :: a in h.store && h.store[a].isOld && !HasBarrier(h.store[a].payload) && c in Children(h.store[a].payload)
            ==> !IsNew(h.store, c))
  }

  predicate HasBarrier(p: Payload) { p.Record? || p.Cell? }

  ghost predicate Inv(h: Heap) {
    ListsOk(h) && Closed(h.store) && AgesOk(h) && MarksOk(h) && Remembered(h)
  }

  lemma InvParts(h: Heap)
    requires Inv(h)
    ensures ListsOk(h) && Closed(h.store)
  {
  }

  // ----- the mutator keeps the invariant -----

  lemma AllocateKeeps(h: Heap, a: nat, p: Payload)
    requires Inv(h) && a !in h.store && Children(p) <= h.store.Keys
    ensures Inv(Allocate(h, a, p))
  {
    var g := Allocate(h, a, p);
    AllocateLists(h, a, p);
    forall f | Owner(f) in g.store && g.store[Owner(f)].isOld && Deref(g.store, f).Ptr?
      ensures Deref(h.store, f) == Deref(g.store, f) && Deref(h.store, f).addr in h.store
    {
      DerefIsChild(h.store, f);
    }
    hide Deref;
    forall x, c | g.generational && x in g.store && g.store[x].isOld && !HasBarrier(g.store[x].payload) && c in Children(g.store[x].payload)
      ensures !IsNew(g.store, c)
    {
      assert x in h.store && c in h.store && !IsNew(h.store, c);
    }
  }

  lemma DerefIsChild(s: Store, f: FieldAddr)
    requires Deref(s, f).Ptr?
    ensures Owner(f) in s && Deref(s, f).addr in Children(s[Owner(f)].payload)
  {
    if f.RecordField? {
      var fields := s[f.record].payload.fields;
      assert f.key in fields && Deref(s, f).addr in Target(fields[f.key]);
    }
  }

  lemma AllocateLists(h: Heap, a: nat, p: Payload)
    requires ListsOk(h) && AgesOk(h) && a !in h.store
    ensures ListsOk(Allocate(h, a, p)) && AgesOk(Allocate(h, a, p))
  {
  }

  /** The fields of an object other than `f` read the same before and after. */
  ghost predicate OnlyField(s: Store, t: Store, f: FieldAddr) {
    forall g :: g != f ==> Deref(t, g) == Deref(s, g)
  }

  /** A barrier-protected write: the written field is remembered when it links old to new. */
  lemma WriteKeeps(h: Heap, g: Heap, f: FieldAddr, v: Value)
    requires Inv(h) && Owner(f) in h.store && Target(v) <= h.store.Keys
    requires g == h.(store := g.store, remembered := g.remembered) && Owner(f) in g.store
    requires g.store == h.store[Owner(f) := h.store[Owner(f)].(payload := g.store[Owner(f)].payload)]
    requires OnlyField(h.store, g.store, f) && Deref(g.store, f) == v
    requires HasBarrier(h.store[Owner(f)].payload) && HasBarrier(g.store[Owner(f)].payload)
    requires Children(g.store[Owner(f)].payload) <= Children(h.store[Owner(f)].payload) + Target(v)
    requires forall x :: x in h.remembered ==> x in g.remembered
    requires h.generational && v.Ptr? && IsNew(h.store, v.addr) && h.store[Owner(f)].isOld ==> f in g.remembered
    ensures Inv(g)
  {
    hide Children, Deref;
    forall x | h.generational && Owner(x) in g.store && g.store[Owner(x)].isOld && Deref(g.store, x).Ptr? && IsNew(g.store, Deref(g.store, x).addr)
      ensures x in g.remembered
    {
      if x != f {
        assert x in h.remembered;
      }
    }
    assert ListsOk(g) && Closed(g.store) && AgesOk(g) && MarksOk(g);
    forall a, c | g.generational && a in g.store && g.store[a].isOld && !HasBarrier(g.store[a].payload) && c in Children(g.store[a].payload)
      ensures !IsNew(g.store, c)
    {
      assert a != Owner(f) && !IsNew(h.store, c);
    }
  }

  lemma RecordInsertKeeps(h: Heap, r: nat, key: string, v: Value)
    requires Inv(h) && r in h.store && h.store[r].payload.Record? && Target(v) <= h.store.Keys
    ensures Inv(RecordInsert(h, r, key, v))
  {
    hide Inv;
    WriteKeeps(h, RecordInsert(h, r, key, v), RecordField(r, key), v);
  }

  lemma RecordGetKeeps(h: Heap, r: nat, key: string)
    requires Inv(h) && r in h.store && h.store[r].payload.Record?
    ensures Inv(RecordGet(h, r, key))
  {
    hide Inv;
    if key !in h.store[r].payload.fields {
      WriteKeeps(h, RecordGet(h, r, key), RecordField(r, key), Plain);
    }
  }

  lemma CellWriteKeeps(h: Heap, c: nat, v: Value)
    requires Inv(h) && c in h.store && h.store[c].payload.Cell? && Target(v) <= h.store.Keys
    ensures Inv(CellWrite(h, c, v))
  {
    hide Inv;
    WriteKeeps(h, CellWrite(h, c, v), CellField(c), v);
  }

  /** There is no barrier in a capture: it keeps the invariant unless the closure is old and the cell new. */
  lemma AddReferenceExact(h: Heap, f: nat, cell: nat)
    requires Inv(h) && f in h.store && h.store[f].payload.Closure? && cell in h.store
    ensures Inv(AddReference(h, f, cell)) <==> !h.generational || !h.store[f].isOld || h.store[cell].isOld
  {
    var g := AddReference(h, f, cell);
    CaptureParts(h, f, cell);
    forall x ensures Deref(g.store, x) == Deref(h.store, x) {
    }
    hide Deref, Children;
    if !h.generational || !h.store[f].isOld || h.store[cell].isOld {
      forall a, c | g.generational && a in g.store && g.store[a].isOld && !HasBarrier(g.store[a].payload) && c in Children(g.store[a].payload)
        ensures !IsNew(g.store, c)
      {
        if a != f || c != cell { assert c in Children(h.store[a].payload) && !IsNew(h.store, c); }
      }
    } else {
      assert !HasBarrier(g.store[f].payload) && cell in Children(g.store[f].payload) && IsNew(g.store, cell);
    }
  }

  lemma CaptureParts(h: Heap, f: nat, cell: nat)
    requires Inv(h) && f in h.store && h.store[f].payload.Closure? && cell in h.store
    ensures var g := AddReference(h, f, cell);
            && Children(g.store[f].payload) == Children(h.store[f].payload) + {cell}
            && ListsOk(g) && Closed(g.store) && AgesOk(g) && MarksOk(g)
  {
  }

  // ----- the collections keep the invariant -----

  lemma {:induction false} FilterOk(v: seq<nat>, keep: set<nat>)
    requires Distinct(v)
    ensures Distinct(Filter(v, keep)) && forall a :: a in Filter(v, keep) <==> a in v && a in keep
  {
    if v != [] {
      FilterOk(v[1..], keep);
      assert v == [v[0]] + v[1..];
      assert v[0] !in v[1..];
    }
  }

  lemma DistinctConcat(v: seq<nat>, w: seq<nat>)
    requires Distinct(v) && Distinct(w) && forall a :: a in w ==> a !in v
    ensures Distinct(v + w) && forall a :: a in v + w <==> a in v || a in w
  {
    var u := v + w;
    forall i, j | 0 <= i < j < |u| ensures u[i] != u[j] {
      if i < |v| && j >= |v| {
        assert u[j] == w[j - |v|] && u[j] in w && u[i] in v;
      }
    }
  }

  lemma ChildHasField(s: Store, a: nat, c: nat)
    requires a in s && HasBarrier(s[a].payload) && c in Children(s[a].payload)
    ensures exists f :: Owner(f) == a && Deref(s, f) == Ptr(c)
  {
    match s[a].payload
    case Record(fields) =>
      var k :| k in fields && c in Target(fields[k]);
      assert Owner(RecordField(a, k)) == a && Deref(s, RecordField(a, k)) == Ptr(c);
    case Cell(v) =>
      assert Owner(CellField(a)) == a && Deref(s, CellField(a)) == Ptr(c);
  }

  /** A new object that an old one points to is among the extra roots of the fast collection. */
  lemma OldToNew(h: Heap, a: nat, c: nat)
    requires Inv(h) && h.generational && a in h.store && h.store[a].isOld && c in Children(h.store[a].payload) && IsNew(h.store, c)
    ensures c in RememberedTargets(h.store, h.remembered)
  {
    hide Children, Deref, ListsOk, AgesOk, MarksOk;
    assert HasBarrier(h.store[a].payload);
    ChildHasField(h.store, a, c);
    var f :| Owner(f) == a && Deref(h.store, f) == Ptr(c);
    assert f in h.remembered && c in Target(Deref(h.store, f));
  }

  lemma RootKept(h: Heap, roots: set<nat>, c: nat)
    requires h.generation + 1 < TWO_32 && IsNew(h.store, c) && c in roots + RememberedTargets(h.store, h.remembered)
    ensures c in FastKept(h, roots)
  {
    ReachesSelf(h.store, true, c);
  }

  /** What a kept or an old object points to is kept or old. */
  lemma ChildKept(h: Heap, roots: set<nat>, a: nat, c: nat)
    requires Inv(h) && h.generational && h.generation + 1 < TWO_32
    requires a in h.store && (h.store[a].isOld || a in FastKept(h, roots)) && c in Children(h.store[a].payload)
    ensures c in h.store && (h.store[c].isOld || c in FastKept(h, roots))
  {
    hide Children, ListsOk, AgesOk, MarksOk, Remembered;
    if !h.store[c].isOld {
      if h.store[a].isOld {
        OldToNew(h, a, c);
        RootKept(h, roots, c);
      } else {
        var all := roots + RememberedTargets(h.store, h.remembered);
        var r :| r in all && Reaches(h.store, true, r, a);
        ReachesAppend(h.store, true, r, a, c);
      }
    }
  }

  /** Safety: the fast collection frees nothing that the roots reach, through old objects or new. */
  lemma {:induction false} FastKeepsPath(h: Heap, roots: set<nat>, p: seq<nat>)
    requires Inv(h) && h.generational && h.generation + 1 < TWO_32
    requires IsPath(h.store, false, p) && p[0] in roots
    ensures var a := p[|p| - 1]; h.store[a].isOld || a in FastKept(h, roots)
    decreases |p|
  {
    hide Inv, FastKept;
    if |p| == 1 {
      if !h.store[p[0]].isOld {
        RootKept(h, roots, p[0]);
      }
    } else {
      FastKeepsPath(h, roots, p[..|p| - 1]);
      ChildKept(h, roots, p[|p| - 2], p[|p| - 1]);
    }
  }

  lemma FastSurvives(h: Heap, roots: set<nat>, a: nat)
    requires Inv(h) && h.generational
    ensures a in CollectFast(h, roots).store <==> a in h.store && (h.store[a].isOld || a in FastKept(h, roots))
  {
  }

  lemma FastSafe(h: Heap, roots: set<nat>)
    requires Inv(h) && h.generational && h.generation + 1 < TWO_32
    ensures ReachSet(h.store, false, roots) <= CollectFast(h, roots).store.Keys
  {
    hide Inv, FastKept, CollectFast;
    forall a | a in ReachSet(h.store, false, roots) ensures a in CollectFast(h, roots).store {
      var r :| r in roots && Reaches(h.store, false, r, a);
      var p :| PathTo(h.store, false, p, r, a);
      FastKeepsPath(h, roots, p);
      FastSurvives(h, roots, a);
    }
  }

  lemma CollectFastKeeps(h: Heap, roots: set<nat>)
    requires Inv(h) && h.generational && h.generation + 1 < TWO_32
    ensures Inv(CollectFast(h, roots))
  {
    hide Children, FastKept, Reaches, Deref;
    var g := CollectFast(h, roots);
    FilterOk(h.recentObjects, FastKept(h, roots));
    DistinctConcat(h.oldObjects, Filter(h.recentObjects, FastKept(h, roots)));
    assert ListsOk(g);
    assert AgesOk(g) && MarksOk(g);
    forall a, c | a in g.store && c in Children(g.store[a].payload) ensures c in g.store {
      FastSurvives(h, roots, a);
      ChildKept(h, roots, a, c);
      FastSurvives(h, roots, c);
    }
  }

  lemma FullSurvives(h: Heap, roots: set<nat>)
    requires ListsOk(h)
    ensures CollectFull(h, roots).store.Keys == FullKept(h, roots)
  {
    assert ReachSet(h.store, false, roots) <= h.store.Keys;
  }

  lemma CollectFullKeeps(h: Heap, roots: set<nat>)
    requires Inv(h)
    ensures Inv(CollectFull(h, roots))
  {
    hide Children, FullKept, Reaches, Deref, ReachSet;
    var g := CollectFull(h, roots);
    var all := if h.generational then h.oldObjects + h.recentObjects else h.oldObjects;
    DistinctConcat(h.oldObjects, h.recentObjects);
    assert forall a :: a in h.store <==> a in all;
    FilterOk(all, FullKept(h, roots));
    FullSurvives(h, roots);
    assert ListsOk(g) && AgesOk(g);
    assert FullKept(h, roots) != {} ==> h.generation + 1 < TWO_32 by { FullKeptInTime(h, roots); }
    assert MarksOk(g);
    forall a, c | a in g.store && c in Children(g.store[a].payload) ensures c in g.store {
      FullChildKept(h, roots, a, c);
    }
  }

  lemma FullKeptInTime(h: Heap, roots: set<nat>)
    ensures FullKept(h, roots) != {} ==> h.generation + 1 < TWO_32
  {
  }

  lemma FullChildKept(h: Heap, roots: set<nat>, a: nat, c: nat)
    requires Inv(h) && a in FullKept(h, roots) && a in h.store && c in Children(h.store[a].payload)
    ensures c in FullKept(h, roots)
  {
    hide Children, ListsOk, AgesOk, MarksOk, Remembered;
    var r :| r in roots && Reaches(h.store, false, r, a);
    ReachesAppend(h.store, false, r, a, c);
  }

  /**
    The full collection is exact: precisely the reachable objects stay.  Marks are compared as
    32-bit numbers with a wider counter, so this holds exactly until the counter outgrows them.
   */
  lemma FullExact(h: Heap, roots: set<nat>)
    requires Inv(h)
    ensures CollectFull(h, roots).store.Keys == ReachSet(h.store, false, roots)
            <==> h.generation + 1 < TWO_32 || ReachSet(h.store, false, roots) == {}
  {
    hide CollectFull, ReachSet;
    FullSurvives(h, roots);
  }
}
