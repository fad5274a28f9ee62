/**
  The garbage-collected heap as a value: objects by address, two allocation lists, the
  generation counter and the remembered field addresses.  CollectedHeap.dfy has the class.
 */
module HeapModel {

  /** A word either carries a tagged pointer or no pointer at all. */
  datatype Value = Plain | Ptr(addr: nat)

  datatype Payload =
    | FlatString
    | Rope(left: Value, right: Value)
    | Record(fields: map<string, Value>)
    | Cell(content: Value)
    | Code                           // a bare or built-in function
    | Closure(cells: seq<nat>)

  datatype Object = Object(payload: Payload, isOld: bool, marked: nat)

  type Store = map<nat, Object>

  /** The address of a field: the entries of `cross_generation_pointers`. */
  datatype FieldAddr = RecordField(record: nat, key: string) | CellField(cell: nat)

  datatype Heap = Heap(
    store: Store,
    recentObjects: seq<nat>,
    oldObjects: seq<nat>,
    generation: nat,
    remembered: seq<FieldAddr>,
    generational: bool)

  const TWO_32: nat := 0x1_0000_0000

  function Target(v: Value): set<nat> {
    if v.Ptr? then {v.addr} else {}
  }

  function Children(p: Payload): set<nat> {
    match p
    case FlatString => {}
    case Rope(l, r) => Target(l) + Target(r)
    case Record(fields) => set k, a | k in fields && a in Target(fields[k]) :: a
    case Cell(v) => Target(v)
    case Code => {}
    case Closure(cells) => set c | c in cells
  }

  /** The payload stores a pointer to `c`: as an operand, a field, a content or a reference. */
  predicate Stores(p: Payload, c: nat) {
    match p
    case FlatString => false
    case Rope(l, r) => l == Ptr(c) || r == Ptr(c)
    case Record(fields) => exists k :: k in fields && fields[k] == Ptr(c)
    case Cell(v) => v == Ptr(c)
    case Code => false
    case Closure(cells) => exists i :: 0 <= i < |cells| && cells[i] == c
  }

  /** Marking follows exactly the pointers that are stored. */
  lemma ChildrenExact(p: Payload, c: nat)
    ensures c in Children(p) <==> Stores(p, c)
  {
    if p.Record? {
      forall k | k in p.fields ensures c in Target(p.fields[k]) <==> p.fields[k] == Ptr(c) {
      }
      assert c in Children(p) <==> exists k :: k in p.fields && c in Target(p.fields[k]);
    }
  }

  function Owner(f: FieldAddr): nat {
    match f
    case RecordField(r, _) => r
    case CellField(c) => c
  }

  /** The word a remembered address holds now. */
  function Deref(s: Store, f: FieldAddr): Value {
    if Owner(f) !in s then Plain else
    match (f, s[Owner(f)].payload)
    case (RecordField(_, k), Record(fields)) => if k in fields then fields[k] else Plain
    case (CellField(_), Cell(v)) => v
    case _ => Plain
  }

  // ----- reachability -----

  /** Marking passes through objects that are not blocked: the old ones in a fast collection. */
  predicate Blocked(s: Store, recentOnly: bool, a: nat) {
    recentOnly && a in s && s[a].isOld
  }

  ghost predicate IsPath(s: Store, recentOnly: bool, p: seq<nat>) {
    && |p| > 0
    && (forall i :: 0 <= i < |p| ==> p[i] in s && !Blocked(s, recentOnly, p[i]))
    && (forall i, j :: 0 <= i < j < |p| && j == i + 1 ==> p[j] in Children(s[p[i]].payload))
  }

  ghost predicate PathTo(s: Store, recentOnly: bool, p: seq<nat>, from: nat, to: nat) {
    IsPath(s, recentOnly, p) && p[0] == from && p[|p| - 1] == to
  }

  ghost predicate Reaches(s: Store, recentOnly: bool, from: nat, to: nat) {
    exists p :: PathTo(s, recentOnly, p, from, to)
  }

  ghost predicate ReachesAny(s: Store, recentOnly: bool, roots: set<nat>, to: nat) {
    exists r :: r in roots && Reaches(s, recentOnly, r, to)
  }

  ghost function ReachSet(s: Store, recentOnly: bool, roots: set<nat>): set<nat> {
    set a | a in s && ReachesAny(s, recentOnly, roots, a)
  }

  lemma ReachesSelf(s: Store, recentOnly: bool, a: nat)
    requires a in s && !Blocked(s, recentOnly, a)
    ensures Reaches(s, recentOnly, a, a)
  {
    assert PathTo(s, recentOnly, [a], a, a);
  }

  lemma ReachesPrepend(s: Store, recentOnly: bool, a: nat, c: nat, x: nat)
    requires a in s && !Blocked(s, recentOnly, a) && c in Children(s[a].payload) && Reaches(s, recentOnly, c, x)
    ensures Reaches(s, recentOnly, a, x)
  {
    var p :| PathTo(s, recentOnly, p, c, x);
    var q := [a] + p;
    forall i, j | 0 <= i < j < |q| && j == i + 1 ensures q[j] in Children(s[q[i]].payload) {
      if i > 0 {
        assert q[i] == p[i - 1] && q[j] == p[i];
      }
    }
    assert PathTo(s, recentOnly, q, a, x);
  }

  lemma ReachesAppend(s: Store, recentOnly: bool, a: nat, x: nat, c: nat)
    requires Reaches(s, recentOnly, a, x) && c in s && !Blocked(s, recentOnly, c) && c in Children(s[x].payload)
    ensures Reaches(s, recentOnly, a, c)
  {
    var p :| PathTo(s, recentOnly, p, a, x);
    assert PathTo(s, recentOnly, p + [c], a, c);
  }

  /** Only children and the old flag matter for reachability. */
  ghost predicate SameGraph(s: Store, t: Store) {
    s.Keys == t.Keys && forall a :: a in s ==> t[a].payload == s[a].payload && t[a].isOld == s[a].isOld
  }

  lemma ReachesSame(s: Store, t: Store, recentOnly: bool, a: nat, b: nat)
    requires SameGraph(s, t) && Reaches(s, recentOnly, a, b)
    ensures Reaches(t, recentOnly, a, b)
  {
    var p :| PathTo(s, recentOnly, p, a, b);
    assert PathTo(t, recentOnly, p, a, b);
  }

  // ----- marking -----

  function MarkedSet(s: Store, g: nat): set<nat> {
    set a | a in s && s[a].marked == g
  }

  /** `t` is `s` after marking from some objects: what is newly marked is closed and reachable. */
  ghost predicate Marking(s: Store, t: Store, recentOnly: bool, g: nat, from: set<nat>) {
    && SameGraph(s, t)
    && (forall a :: a in s && t[a].marked != s[a].marked ==> t[a].marked == g)
    && (forall a :: a in s && s[a].marked == g ==> t[a].marked == g)
    && (forall a, c :: (a in s && t[a].marked == g && s[a].marked != g && c in Children(s[a].payload) && c in s
                        && !Blocked(s, recentOnly, c)) ==> t[c].marked == g)
    && (forall a :: a in s && t[a].marked == g && s[a].marked != g ==> ReachesAny(s, recentOnly, from, a))
    && (forall a :: a in from && a in s && !Blocked(s, recentOnly, a) ==> t[a].marked == g)
  }

  lemma MarkingNothing(s: Store, recentOnly: bool, g: nat)
    ensures Marking(s, s, recentOnly, g, {})
  {
  }

  /** Marking from one set of objects, then from another. */
  lemma MarkingThen(s: Store, t: Store, u: Store, recentOnly: bool, g: nat, from: set<nat>, more: set<nat>)
    requires Marking(s, t, recentOnly, g, from) && Marking(t, u, recentOnly, g, more)
    ensures Marking(s, u, recentOnly, g, from + more)
  {
    hide Reaches, Children;
    forall a | a in s && u[a].marked == g && s[a].marked != g
      ensures ReachesAny(s, recentOnly, from + more, a)
    {
      if t[a].marked == g {
        MoreRoots(s, recentOnly, from, from + more, a);
      } else {
        ReachesAnySame(t, s, recentOnly, more, a);
        MoreRoots(s, recentOnly, more, from + more, a);
      }
    }
    hide ReachesAny;
  }

  lemma MoreRoots(s: Store, recentOnly: bool, from: set<nat>, more: set<nat>, a: nat)
    requires ReachesAny(s, recentOnly, from, a) && from <= more
    ensures ReachesAny(s, recentOnly, more, a)
  {
    hide Reaches;
  }

  lemma ReachesAnySame(s: Store, t: Store, recentOnly: bool, from: set<nat>, a: nat)
    requires SameGraph(s, t) && ReachesAny(s, recentOnly, from, a)
    ensures ReachesAny(t, recentOnly, from, a)
  {
    var r :| r in from && Reaches(s, recentOnly, r, a);
    ReachesSame(s, t, recentOnly, r, a);
  }

  /** Marking an object and then its children is marking from the object. */
  lemma MarkingObject(s: Store, a: nat, t: Store, recentOnly: bool, g: nat)
    requires a in s && !Blocked(s, recentOnly, a) && s[a].marked != g
    requires Marking(s[a := s[a].(marked := g)], t, recentOnly, g, Children(s[a].payload))
    ensures Marking(s, t, recentOnly, g, {a})
  {
    var m := s[a := s[a].(marked := g)];
    assert SameGraph(s, m) && SameGraph(m, s);
    forall x | x in s && t[x].marked == g && s[x].marked != g
      ensures ReachesAny(s, recentOnly, {a}, x)
    {
      if x == a {
        ReachesSelf(s, recentOnly, a);
      } else {
        var c :| c in Children(s[a].payload) && Reaches(m, recentOnly, c, x);
        ReachesSame(m, s, recentOnly, c, x);
        ReachesPrepend(s, recentOnly, a, c, x);
      }
      assert a in {a};
    }
  }

  /** Marking from the roots in a fresh generation marks exactly what they reach. */
  lemma MarkingExact(s: Store, t: Store, recentOnly: bool, g: nat, roots: set<nat>)
    requires Marking(s, t, recentOnly, g, roots) && forall a :: a in s ==> s[a].marked != g
    ensures MarkedSet(t, g) == ReachSet(s, recentOnly, roots)
  {
    hide Children, Blocked, Reaches;
    forall x | x in s && ReachesAny(s, recentOnly, roots, x) ensures t[x].marked == g {
      var r :| r in roots && Reaches(s, recentOnly, r, x);
      ReachedMarked(s, t, recentOnly, g, roots, r, x);
    }
    hide ReachesAny;
  }

  lemma ReachedMarked(s: Store, t: Store, recentOnly: bool, g: nat, roots: set<nat>, r: nat, x: nat)
    requires Marking(s, t, recentOnly, g, roots) && forall a :: a in s ==> s[a].marked != g
    requires r in roots && Reaches(s, recentOnly, r, x)
    ensures x in t && t[x].marked == g
  {
    hide Marking;
    var p :| PathTo(s, recentOnly, p, r, x);
    PathMarked(s, t, recentOnly, g, roots, p);
  }

  lemma {:induction false} PathMarked(s: Store, t: Store, recentOnly: bool, g: nat, roots: set<nat>, p: seq<nat>)
    requires Marking(s, t, recentOnly, g, roots) && forall a :: a in s ==> s[a].marked != g
    requires IsPath(s, recentOnly, p) && p[0] in roots
    ensures p[|p| - 1] in t && t[p[|p| - 1]].marked == g
    decreases |p|
  {
    hide Marking;
    if |p| > 1 {
      var last, prior := p[|p| - 1], p[|p| - 2];
      var q := p[..|p| - 1];
      ShorterPath(s, recentOnly, p);
      hide IsPath;
      PathMarked(s, t, recentOnly, g, roots, q);
      MarkedAhead(s, t, recentOnly, g, roots, prior, last);
    } else {
      MarkedAhead(s, t, recentOnly, g, roots, p[0], p[0]);
    }
  }

  lemma ShorterPath(s: Store, recentOnly: bool, p: seq<nat>)
    requires IsPath(s, recentOnly, p) && |p| > 1
    ensures IsPath(s, recentOnly, p[..|p| - 1])
    ensures var last, prior := p[|p| - 1], p[|p| - 2];
            last in s && prior in s && !Blocked(s, recentOnly, last) && last in Children(s[prior].payload)
  {
    hide Blocked, Children;
  }

  /** A child of a newly marked object is marked, and so is a root. */
  lemma MarkedAhead(s: Store, t: Store, recentOnly: bool, g: nat, roots: set<nat>, a: nat, c: nat)
    requires Marking(s, t, recentOnly, g, roots) && c in s && !Blocked(s, recentOnly, c) && a in s && s[a].marked != g
    ensures a in t && c in t
    ensures t[a].marked == g && c in Children(s[a].payload) ==> t[c].marked == g
    ensures c in roots ==> t[c].marked == g
  {
    hide ReachesAny, Children, Blocked;
  }

  // ----- operations -----

  function ToSet(v: seq<nat>): set<nat> { set a | a in v }

  function Allocate(h: Heap, a: nat, p: Payload): Heap {
    var store := h.store[a := Object(p, false, 0)];
    if h.generational then h.(store := store, recentObjects := h.recentObjects + [a])
    else h.(store := store, oldObjects := h.oldObjects + [a])
  }

  predicate IsNewPointer(s: Store, v: Value) { v.Ptr? && v.addr in s && !s[v.addr].isOld }

  /** RecordValue::insert, with its write barrier. */
  function RecordInsert(h: Heap, r: nat, key: string, v: Value): Heap
    requires r in h.store && h.store[r].payload.Record?
  {
    var o := h.store[r];
    var store := h.store[r := o.(payload := Record(o.payload.fields[key := v]))];
    if h.generational && IsNewPointer(store, v) && o.isOld then
      h.(store := store, remembered := h.remembered + [RecordField(r, key)])
    else h.(store := store)
  }

  /** RecordValue::get: an absent key appears, holding no pointer. */
  function RecordGet(h: Heap, r: nat, key: string): Heap
    requires r in h.store && h.store[r].payload.Record?
  {
    var fields := h.store[r].payload.fields;
    if key in fields then h
    else h.(store := h.store[r := h.store[r].(payload := Record(fields[key := Plain]))])
  }

  /** ReferenceValue::write, with its write barrier. */
  function CellWrite(h: Heap, c: nat, v: Value): Heap
    requires c in h.store && h.store[c].payload.Cell?
  {
    var o := h.store[c];
    var store := h.store[c := o.(payload := Cell(v))];
    if h.generational && IsNewPointer(store, v) && o.isOld then
      h.(store := store, remembered := h.remembered + [CellField(c)])
    else h.(store := store)
  }

  /** ClosureFunctionValue::add_reference has no barrier. */
  function AddReference(h: Heap, f: nat, cell: nat): Heap
    requires f in h.store && h.store[f].payload.Closure?
  {
    var o := h.store[f];
    h.(store := h.store[f := o.(payload := Closure(o.payload.cells + [cell]))])
  }

  // ----- collections -----

  function RememberedTargets(s: Store, fields: seq<FieldAddr>): set<nat> {
    set f, a | f in fields && a in Target(Deref(s, f)) :: a
  }

  /** The list without the addresses that are not kept, in order. */
  function Filter(v: seq<nat>, keep: set<nat>): seq<nat> {
    if v == [] then []
    else if v[0] in keep then [v[0]] + Filter(v[1..], keep)
    else Filter(v[1..], keep)
  }

  /** Marks are 32 bits wide while the counter is not: a later generation keeps nothing. */
  ghost function Kept(s: Store, recentOnly: bool, roots: set<nat>, generation: nat): set<nat> {
    if generation < TWO_32 then ReachSet(s, recentOnly, roots) else {}
  }

  /** Survivors among the swept addresses become old; addresses that are not swept stay as they are. */
  ghost function Sweep(s: Store, swept: set<nat>, keep: set<nat>, generation: nat): Store {
    map a | a in s && (a in swept ==> a in keep) ::
      if a in swept then Object(s[a].payload, true, generation) else s[a]
  }

  ghost function FastKept(h: Heap, roots: set<nat>): set<nat> {
    Kept(h.store, true, roots + RememberedTargets(h.store, h.remembered), h.generation + 1)
  }

  /** The fast collection: old objects are neither marked nor swept. */
  ghost function CollectFast(h: Heap, roots: set<nat>): Heap {
    var keep := FastKept(h, roots);
    h.(store := Sweep(h.store, ToSet(h.recentObjects), keep, h.generation + 1),
       recentObjects := [], oldObjects := h.oldObjects + Filter(h.recentObjects, keep),
       generation := h.generation + 1, remembered := [])
  }

  ghost function FullKept(h: Heap, roots: set<nat>): set<nat> {
    Kept(h.store, false, roots, h.generation + 1)
  }

  /** The full collection: everything the roots do not reach goes. */
  ghost function CollectFull(h: Heap, roots: set<nat>): Heap {
    var keep := FullKept(h, roots);
    var all := if h.generational then h.oldObjects + h.recentObjects else h.oldObjects;
    h.(store := Sweep(h.store, ToSet(all), keep, h.generation + 1),
       recentObjects := if h.generational then [] else h.recentObjects,
       oldObjects := Filter(all, keep),
       generation := h.generation + 1,
       remembered := if h.generational then [] else h.remembered)
  }
}
