/**
  Strings as trees: an addition links its operands instead of copying their texts.  Over
  every sequence of additions, comparisons and record changes the trees are the strings of
  the runtime model, whose values know nothing but text.
 */
module Ropes {
  import opened Runtime

  /** A value as the machine holds it; strings are constants or string objects. */
  datatype Word =
    | IntW(i: int)
    | BoolW(b: bool)
    | NoneW
    | ConstantW(text: string)
    | StringW(id: nat)
    | RecordW(addr: nat)

  /** StringValue: flat text (height 0), or two operands under a height. */
  datatype StringValue = Flat(text: string) | Tree(left: Word, right: Word, height: nat)

  datatype Heap = Heap(strings: seq<StringValue>, records: seq<map<string, Word>>)

  predicate IsString(v: Word) { v.ConstantW? || v.StringW? }

  function Height(strings: seq<StringValue>, v: Word): nat {
    if v.StringW? && v.id < |strings| && strings[v.id].Tree? then strings[v.id].height else 0
  }

  function Max(a: nat, b: nat): nat { if a < b then b else a }

  /** The height the constructor gives a tree. */
  function TreeHeight(strings: seq<StringValue>, left: Word, right: Word): nat {
    Max(Max(1, if left.StringW? then Height(strings, left) + 1 else 1),
        if right.StringW? then Height(strings, right) + 1 else 1)
  }

  predicate Known(strings: seq<StringValue>, v: Word) { v.StringW? ==> v.id < |strings| }

  /** Operands of trees are known and no records, and heights are as the constructor set them. */
  ghost predicate Rooted(strings: seq<StringValue>) {
    forall k :: 0 <= k < |strings| && strings[k].Tree? ==>
      var s := strings[k];
      && Known(strings, s.left) && Known(strings, s.right) && !s.left.RecordW? && !s.right.RecordW?
      && s.height == TreeHeight(strings, s.left, s.right)
  }

  ghost predicate Valid(h: Heap) {
    && Rooted(h.strings)
    && forall a :: 0 <= a < |h.records| ==>
         forall k :: k in h.records[a] ==> Known(h.strings, h.records[a][k])
  }

  /** Every tree is higher than both of its operands, so flattening ends. */
  lemma TreesShrink(strings: seq<StringValue>, k: nat)
    requires Rooted(strings) && k < |strings| && strings[k].Tree?
    ensures Height(strings, strings[k].left) < strings[k].height
    ensures Height(strings, strings[k].right) < strings[k].height
  {
  }

  /** `toString` of anything but a record. */
  function Flatten(strings: seq<StringValue>, v: Word): string
    requires Rooted(strings) && Known(strings, v) && !v.RecordW?
    decreases Height(strings, v)
  {
    match v
    case IntW(i) => if i < 0 then "-" + Digits(-i) else Digits(i)
    case BoolW(b) => if b then "True" else "False"
    case NoneW => "None"
    case ConstantW(t) => t
    case StringW(k) =>
      match strings[k]
      case Flat(t) => t
      case Tree(l, r, _) =>
        TreesShrink(strings, k);
        Flatten(strings, l) + Flatten(strings, r)
  }

  // ----- what a word stands for -----

  function Meaning(strings: seq<StringValue>, v: Word): Value
    requires Rooted(strings) && Known(strings, v)
  {
    match v
    case IntW(i) => IntV(i)
    case BoolW(b) => BoolV(b)
    case NoneW => NoneV
    case RecordW(a) => PtrV(a)
    case _ => StrV(Flatten(strings, v))
  }

  function FieldsMeaning(strings: seq<StringValue>, fields: map<string, Word>): map<string, Value>
    requires Rooted(strings) && forall k :: k in fields ==> Known(strings, fields[k])
  {
    map k | k in fields :: Meaning(strings, fields[k])
  }

  function WorldOf(h: Heap): (w: World)
    requires Valid(h)
    ensures |w.objs| == |h.records|
  {
    World(seq(|h.records|, a requires 0 <= a < |h.records| => RecordObj(FieldsMeaning(h.strings, h.records[a]))), map[])
  }

  /** `Value::toString`; the text of a record is abstract. */
  function ToString(x: Externals, h: Heap, v: Word): string
    requires Valid(h) && Known(h.strings, v)
  {
    if v.RecordW? then x.text(WorldOf(h), v.addr) else Flatten(h.strings, v)
  }

  lemma ToStringMeaning(x: Externals, h: Heap, v: Word)
    requires Valid(h) && Known(h.strings, v)
    ensures ToString(x, h, v) == Text(x, WorldOf(h), Meaning(h.strings, v))
  {
  }

  // ----- growing the heap -----

  lemma {:induction false} FlattenKept(strings: seq<StringValue>, more: seq<StringValue>, v: Word)
    requires Rooted(strings) && Rooted(more) && strings <= more && Known(strings, v) && !v.RecordW?
    ensures Known(more, v) && Flatten(more, v) == Flatten(strings, v)
    decreases Height(strings, v)
  {
    if v.StringW? && strings[v.id].Tree? {
      TreesShrink(strings, v.id);
      FlattenKept(strings, more, strings[v.id].left);
      FlattenKept(strings, more, strings[v.id].right);
    }
  }

  lemma MeaningKept(strings: seq<StringValue>, more: seq<StringValue>, v: Word)
    requires Rooted(strings) && Rooted(more) && strings <= more && Known(strings, v)
    ensures Known(more, v) && Meaning(more, v) == Meaning(strings, v)
  {
    if !v.RecordW? { FlattenKept(strings, more, v); }
  }

  /** New string objects change nothing about the records. */
  lemma WorldKept(h: Heap, g: Heap)
    requires Valid(h) && Rooted(g.strings) && h.strings <= g.strings && g.records == h.records
    ensures Valid(g) && WorldOf(g) == WorldOf(h)
  {
    forall a, k | 0 <= a < |h.records| && k in h.records[a]
      ensures Known(g.strings, h.records[a][k]) && Meaning(g.strings, h.records[a][k]) == Meaning(h.strings, h.records[a][k])
    {
      MeaningKept(h.strings, g.strings, h.records[a][k]);
    }
    forall a | 0 <= a < |h.records| ensures WorldOf(g).objs[a] == WorldOf(h).objs[a] {
      assert FieldsMeaning(g.strings, h.records[a]) == FieldsMeaning(h.strings, h.records[a]);
    }
  }

  // ----- addition -----

  function NewFlat(h: Heap, t: string): (Word, Heap) {
    (StringW(|h.strings|), h.(strings := h.strings + [Flat(t)]))
  }

  /** An operand of a tree: a record is replaced by its text of this moment. */
  function Captured(x: Externals, h: Heap, v: Word): (Word, Heap)
    requires Valid(h) && Known(h.strings, v)
  {
    if v.RecordW? then NewFlat(h, ToString(x, h, v)) else (v, h)
  }

  function NewTree(h: Heap, l: Word, r: Word): (Word, Heap) {
    (StringW(|h.strings|), h.(strings := h.strings + [Tree(l, r, TreeHeight(h.strings, l, r))]))
  }

  /** What an allocation may do: a known result, and only new string objects. */
  ghost predicate Allocates(h: Heap, v: Word, g: Heap) {
    Valid(h) && Valid(g) && h.strings <= g.strings && g.records == h.records && Known(g.strings, v)
  }

  lemma NewFlatOk(h: Heap, t: string)
    requires Valid(h)
    ensures var (v, g) := NewFlat(h, t);
            Allocates(h, v, g) && WorldOf(g) == WorldOf(h) && Flatten(g.strings, v) == t
  {
    var (v, g) := NewFlat(h, t);
    WorldKept(h, g) by { RootedMore(h.strings, Flat(t)); }
  }

  lemma RootedMore(strings: seq<StringValue>, s: StringValue)
    requires Rooted(strings)
    requires s.Tree? ==>
               && Known(strings, s.left) && Known(strings, s.right) && !s.left.RecordW? && !s.right.RecordW?
               && s.height == TreeHeight(strings, s.left, s.right)
    ensures Rooted(strings + [s])
  {
  }

  lemma NewTreeOk(h: Heap, l: Word, r: Word)
    requires Valid(h) && Known(h.strings, l) && Known(h.strings, r) && !l.RecordW? && !r.RecordW?
    ensures var (v, g) := NewTree(h, l, r);
            && Allocates(h, v, g) && WorldOf(g) == WorldOf(h)
            && Flatten(g.strings, v) == Flatten(h.strings, l) + Flatten(h.strings, r)
  {
    var (v, g) := NewTree(h, l, r);
    RootedMore(h.strings, Tree(l, r, TreeHeight(h.strings, l, r)));
    WorldKept(h, g);
    FlattenKept(h.strings, g.strings, l);
    FlattenKept(h.strings, g.strings, r);
  }

  lemma CapturedOk(x: Externals, h: Heap, v: Word)
    requires Valid(h) && Known(h.strings, v)
    ensures var (c, g) := Captured(x, h, v);
            Allocates(h, c, g) && WorldOf(g) == WorldOf(h) && !c.RecordW? && Flatten(g.strings, c) == ToString(x, h, v)
  {
    if v.RecordW? { NewFlatOk(h, ToString(x, h, v)); }
  }

  /** The string of two operands, as a tree or as one flat text. */
  function Concat(x: Externals, h: Heap, trees: bool, l: Word, r: Word): (Word, Heap)
    requires Valid(h) && Known(h.strings, l) && Known(h.strings, r)
  {
    if trees then
      var (cl, h1) := Captured(x, h, l);
      CapturedOk(x, h, l);
      var (cr, h2) := Captured(x, h1, r);
      NewTree(h2, cl, cr)
    else NewFlat(h, ToString(x, h, l) + ToString(x, h, r))
  }

  lemma ConcatOk(x: Externals, h: Heap, trees: bool, l: Word, r: Word)
    requires Valid(h) && Known(h.strings, l) && Known(h.strings, r)
    ensures var (v, g) := Concat(x, h, trees, l, r);
            && Allocates(h, v, g) && WorldOf(g) == WorldOf(h) && v.StringW?
            && Flatten(g.strings, v) == ToString(x, h, l) + ToString(x, h, r)
  {
    hide Valid, WorldOf, Flatten, Rooted;
    if trees {
      var (cl, h1) := Captured(x, h, l);
      CapturedOk(x, h, l);
      var (cr, h2) := Captured(x, h1, r);
      CapturedOk(x, h1, r);
      Kept(h, h1, r);
      Kept(h1, h2, cl);
      SameText(x, h, h1, r);
      NewTreeOk(h2, cl, cr);
    } else {
      NewFlatOk(h, ToString(x, h, l) + ToString(x, h, r));
    }
  }

  lemma Kept(h: Heap, g: Heap, v: Word)
    requires Valid(h) && Valid(g) && h.strings <= g.strings && Known(h.strings, v)
    ensures Rooted(h.strings) && Rooted(g.strings)
    ensures Known(g.strings, v) && (!v.RecordW? ==> Flatten(g.strings, v) == Flatten(h.strings, v))
    ensures Meaning(g.strings, v) == Meaning(h.strings, v)
  {
    MeaningKept(h.strings, g.strings, v);
    if !v.RecordW? { FlattenKept(h.strings, g.strings, v); }
  }

  lemma SameText(x: Externals, h: Heap, g: Heap, v: Word)
    requires Valid(h) && Valid(g) && h.strings <= g.strings && WorldOf(g) == WorldOf(h) && Known(h.strings, v)
    ensures Known(g.strings, v) && ToString(x, g, v) == ToString(x, h, v)
  {
    Kept(h, g, v);
  }

  function AddWords(x: Externals, h: Heap, trees: bool, l: Word, r: Word): Option<(Word, Heap)>
    requires Valid(h) && Known(h.strings, l) && Known(h.strings, r)
  {
    if IsString(r) || IsString(l) then Some(Concat(x, h, trees, l, r))
    else if r.IntW? && l.IntW? then Some((IntW(Wrap61(r.i + l.i)), h))
    else None
  }

  /** Whether trees are used or not, addition is the addition of the runtime model. */
  lemma AddAgrees(x: Externals, h: Heap, trees: bool, l: Word, r: Word)
    requires Valid(h) && Known(h.strings, l) && Known(h.strings, r)
    ensures var o := AddWords(x, h, trees, l, r);
            var v := Binary(x, WorldOf(h), Add, Meaning(h.strings, l), Meaning(h.strings, r));
            && (o.Some? <==> v.Some?)
            && (o.Some? ==>
                  && Allocates(h, o.value.0, o.value.1) && WorldOf(o.value.1) == WorldOf(h)
                  && Meaning(o.value.1.strings, o.value.0) == v.value)
  {
    ToStringMeaning(x, h, l);
    ToStringMeaning(x, h, r);
    ConcatOk(x, h, trees, l, r);
    hide Concat, ToString, WorldOf, Text, Flatten;
  }

  /** Words of strings are compared by text, all others as words. */
  function EqualWords(h: Heap, l: Word, r: Word): bool
    requires Valid(h) && Known(h.strings, l) && Known(h.strings, r)
  {
    if IsString(l) && IsString(r) then Flatten(h.strings, l) == Flatten(h.strings, r) else l == r
  }

  lemma EqualAgrees(h: Heap, l: Word, r: Word)
    requires Valid(h) && Known(h.strings, l) && Known(h.strings, r)
    ensures EqualWords(h, l, r) <==> Meaning(h.strings, l) == Meaning(h.strings, r)
  {
    hide Flatten;
  }

  // ----- sequences of operations -----

  /** Operations on a list of values; each names its operands by their place in the list. */
  datatype Operation =
    | Literal(v: Word)
    | Addition(l: nat, r: nat)
    | Equality(l: nat, r: nat)
    | NewRecord
    | Insert(record: nat, key: string, value: nat)
    | Get(record: nat, key: string)

  datatype Machine = Machine(values: seq<Word>, heap: Heap)

  /** The same operations on the values of the runtime model. */
  datatype Model = Model(values: seq<Value>, world: World)

  ghost predicate MachineOk(m: Machine) {
    Valid(m.heap) && forall k :: 0 <= k < |m.values| ==> Known(m.heap.strings, m.values[k])
  }

  function RecordAt(m: Machine, k: nat): Option<nat> {
    if k < |m.values| && m.values[k].RecordW? && m.values[k].addr < |m.heap.records| then Some(m.values[k].addr) else None
  }

  function SetField(h: Heap, a: nat, key: string, v: Word): Heap
    requires a < |h.records|
  {
    h.(records := h.records[a := h.records[a][key := v]])
  }

  /** None is an exception. */
  function Operate(x: Externals, trees: bool, m: Machine, o: Operation): Option<Machine>
    requires MachineOk(m)
  {
    match o
    case Literal(v) => if v.StringW? || v.RecordW? then None else Some(m.(values := m.values + [v]))
    case Addition(l, r) =>
      if l < |m.values| && r < |m.values| then
        var s :- AddWords(x, m.heap, trees, m.values[l], m.values[r]);
        Some(Machine(m.values + [s.0], s.1))
      else None
    case Equality(l, r) =>
      if l < |m.values| && r < |m.values| then
        Some(m.(values := m.values + [BoolW(EqualWords(m.heap, m.values[l], m.values[r]))]))
      else None
    case NewRecord => Some(Machine(m.values + [RecordW(|m.heap.records|)], m.heap.(records := m.heap.records + [map[]])))
    case Insert(k, key, v) =>
      var a :- RecordAt(m, k);
      if v < |m.values| then Some(m.(heap := SetField(m.heap, a, key, m.values[v]))) else None
    case Get(k, key) =>
      var a :- RecordAt(m, k);
      var fields := m.heap.records[a];
      if key in fields then Some(m.(values := m.values + [fields[key]]))
      else Some(Machine(m.values + [NoneW], SetField(m.heap, a, key, NoneW)))
  }

  function LiteralValue(v: Word): Value {
    match v
    case IntW(i) => IntV(i)
    case BoolW(b) => BoolV(b)
    case ConstantW(t) => StrV(t)
    case _ => NoneV
  }

  function OperateModel(x: Externals, m: Model, o: Operation): Option<Model> {
    match o
    case Literal(v) => if v.StringW? || v.RecordW? then None else Some(m.(values := m.values + [LiteralValue(v)]))
    case Addition(l, r) =>
      if l < |m.values| && r < |m.values| then
        var v :- Binary(x, m.world, Add, m.values[l], m.values[r]);
        Some(m.(values := m.values + [v]))
      else None
    case Equality(l, r) =>
      if l < |m.values| && r < |m.values| then
        Some(m.(values := m.values + [BoolV(m.values[l] == m.values[r])]))
      else None
    case NewRecord =>
      var (w, a) := Alloc(m.world, RecordObj(map[]));
      Some(Model(m.values + [PtrV(a)], w))
    case Insert(k, key, v) =>
      if k < |m.values| && v < |m.values| then
        var w :- RecordInsert(m.world, m.values[k], key, m.values[v]);
        Some(m.(world := w))
      else None
    case Get(k, key) =>
      if k < |m.values| then
        var r :- RecordGet(m.world, m.values[k], key);
        Some(Model(m.values + [r.0], r.1))
      else None
  }

  function ModelOf(m: Machine): Model
    requires MachineOk(m)
  {
    Model(seq(|m.values|, k requires 0 <= k < |m.values| => Meaning(m.heap.strings, m.values[k])), WorldOf(m.heap))
  }

  /** The machine after an operation stands for the model after it. */
  ghost predicate Matches(n: Option<Machine>, o: Option<Model>) {
    (n.Some? <==> o.Some?) && (n.Some? ==> MachineOk(n.value) && ModelOf(n.value) == o.value)
  }

  /** A new value behind the old ones, whose meanings stay. */
  lemma PushOk(m: Machine, v: Word, g: Heap)
    requires MachineOk(m) && Allocates(m.heap, v, g) && WorldOf(g) == WorldOf(m.heap)
    ensures MachineOk(Machine(m.values + [v], g))
    ensures ModelOf(Machine(m.values + [v], g)) == Model(ModelOf(m).values + [Meaning(g.strings, v)], WorldOf(m.heap))
  {
    var n := Machine(m.values + [v], g);
    forall k | 0 <= k < |m.values|
      ensures Known(g.strings, m.values[k]) && Meaning(g.strings, m.values[k]) == Meaning(m.heap.strings, m.values[k])
    {
      MeaningKept(m.heap.strings, g.strings, m.values[k]);
    }
    assert ModelOf(n).values == ModelOf(m).values + [Meaning(g.strings, v)];
  }

  lemma AdditionOk(x: Externals, trees: bool, m: Machine, l: nat, r: nat)
    requires MachineOk(m)
    ensures Matches(Operate(x, trees, m, Addition(l, r)), OperateModel(x, ModelOf(m), Addition(l, r)))
  {
    if l < |m.values| && r < |m.values| {
      AddAgrees(x, m.heap, trees, m.values[l], m.values[r]);
      var s := AddWords(x, m.heap, trees, m.values[l], m.values[r]);
      hide AddWords, Meaning, WorldOf, Binary, Valid;
      if s.Some? { PushOk(m, s.value.0, s.value.1); }
    }
  }

  lemma EqualityOk(x: Externals, trees: bool, m: Machine, l: nat, r: nat)
    requires MachineOk(m)
    ensures Matches(Operate(x, trees, m, Equality(l, r)), OperateModel(x, ModelOf(m), Equality(l, r)))
  {
    if l < |m.values| && r < |m.values| {
      EqualAgrees(m.heap, m.values[l], m.values[r]);
      PushOk(m, BoolW(EqualWords(m.heap, m.values[l], m.values[r])), m.heap);
      hide EqualWords, WorldOf, Valid, Flatten;
    }
  }

  lemma LiteralOk(x: Externals, trees: bool, m: Machine, v: Word)
    requires MachineOk(m)
    ensures Matches(Operate(x, trees, m, Literal(v)), OperateModel(x, ModelOf(m), Literal(v)))
  {
    if !v.StringW? && !v.RecordW? {
      PushOk(m, v, m.heap);
      assert Meaning(m.heap.strings, v) == LiteralValue(v);
    }
    hide WorldOf, Valid, Flatten;
  }

  /** A changed field changes the world, and no value: the texts of strings do not look at records. */
  lemma SetFieldOk(h: Heap, a: nat, key: string, v: Word)
    requires Valid(h) && a < |h.records| && Known(h.strings, v)
    ensures Valid(SetField(h, a, key, v)) && SetField(h, a, key, v).strings == h.strings
    ensures WorldOf(SetField(h, a, key, v)) ==
            WorldOf(h).(objs := WorldOf(h).objs[a := RecordObj(WorldOf(h).objs[a].fields[key := Meaning(h.strings, v)])])
  {
    var g := SetField(h, a, key, v);
    assert Valid(g);
    hide Flatten, Rooted;
    assert FieldsMeaning(h.strings, g.records[a]) == FieldsMeaning(h.strings, h.records[a])[key := Meaning(h.strings, v)];
  }

  lemma RecordAtOk(m: Machine, k: nat)
    requires MachineOk(m)
    ensures RecordAt(m, k) == if k < |m.values| then GetRecord(WorldOf(m.heap), ModelOf(m).values[k]) else None
  {
    hide Flatten;
  }

  lemma InsertOk(x: Externals, trees: bool, m: Machine, k: nat, key: string, v: nat)
    requires MachineOk(m)
    ensures Matches(Operate(x, trees, m, Insert(k, key, v)), OperateModel(x, ModelOf(m), Insert(k, key, v)))
  {
    RecordAtOk(m, k);
    var a := RecordAt(m, k);
    if a.Some? && v < |m.values| {
      SetFieldOk(m.heap, a.value, key, m.values[v]);
    }
    hide WorldOf, Valid, Flatten, SetField, Meaning;
  }

  lemma NewRecordOk(x: Externals, trees: bool, m: Machine)
    requires MachineOk(m)
    ensures Matches(Operate(x, trees, m, NewRecord), OperateModel(x, ModelOf(m), NewRecord))
  {
    var g := m.heap.(records := m.heap.records + [map[]]);
    assert Valid(g);
    hide Flatten, Rooted;
    assert FieldsMeaning(g.strings, map[]) == map[];
    assert WorldOf(g).objs == WorldOf(m.heap).objs + [RecordObj(map[])];
    var n := Machine(m.values + [RecordW(|m.heap.records|)], g);
    assert ModelOf(n).values == ModelOf(m).values + [PtrV(|m.heap.records|)];
  }

  lemma GetOk(x: Externals, trees: bool, m: Machine, k: nat, key: string)
    requires MachineOk(m)
    ensures Matches(Operate(x, trees, m, Get(k, key)), OperateModel(x, ModelOf(m), Get(k, key)))
  {
    RecordAtOk(m, k);
    var a := RecordAt(m, k);
    if a.Some? {
      var fields := m.heap.records[a.value];
      FieldsRead(m.heap, a.value, key);
      if key in fields {
        PushOk(m, fields[key], m.heap);
      } else {
        SetFieldOk(m.heap, a.value, key, NoneW);
        ChangedRecord(m, SetField(m.heap, a.value, key, NoneW));
        PushNone(Machine(m.values, SetField(m.heap, a.value, key, NoneW)));
      }
    }
    hide WorldOf, Valid, Flatten, SetField, Meaning;
  }

  lemma FieldsRead(h: Heap, a: nat, key: string)
    requires Valid(h) && a < |h.records|
    ensures WorldOf(h).objs[a].RecordObj?
    ensures key in WorldOf(h).objs[a].fields <==> key in h.records[a]
    ensures key in h.records[a] ==>
              Known(h.strings, h.records[a][key]) && WorldOf(h).objs[a].fields[key] == Meaning(h.strings, h.records[a][key])
  {
    hide Flatten, Rooted;
  }

  lemma ChangedRecord(m: Machine, g: Heap)
    requires MachineOk(m) && Valid(g) && g.strings == m.heap.strings
    ensures MachineOk(Machine(m.values, g)) && ModelOf(Machine(m.values, g)) == Model(ModelOf(m).values, WorldOf(g))
  {
    hide Flatten;
  }

  lemma PushNone(m: Machine)
    requires MachineOk(m)
    ensures MachineOk(Machine(m.values + [NoneW], m.heap))
    ensures ModelOf(Machine(m.values + [NoneW], m.heap)) == Model(ModelOf(m).values + [NoneV], WorldOf(m.heap))
  {
    PushOk(m, NoneW, m.heap);
  }

  /** Every operation on words is the operation of the runtime model. */
  lemma OperateOk(x: Externals, trees: bool, m: Machine, o: Operation)
    requires MachineOk(m)
    ensures Matches(Operate(x, trees, m, o), OperateModel(x, ModelOf(m), o))
  {
    hide Matches, Operate, OperateModel;
    match o
    case Literal(v) => LiteralOk(x, trees, m, v);
    case Addition(l, r) => AdditionOk(x, trees, m, l, r);
    case Equality(l, r) => EqualityOk(x, trees, m, l, r);
    case NewRecord => NewRecordOk(x, trees, m);
    case Insert(k, key, v) => InsertOk(x, trees, m, k, key, v);
    case Get(k, key) => GetOk(x, trees, m, k, key);
  }

  ghost predicate MaybeOk(m: Option<Machine>) { m.Some? ==> MachineOk(m.value) }

  function OperateAll(x: Externals, trees: bool, m: Machine, ops: seq<Operation>): (r: Option<Machine>)
    requires MachineOk(m)
    ensures MaybeOk(r)
    decreases |ops|
  {
    if ops == [] then Some(m) else
    OperateOk(x, trees, m, ops[0]);
    var n :- Operate(x, trees, m, ops[0]);
    OperateAll(x, trees, n, ops[1..])
  }

  function OperateModelAll(x: Externals, m: Model, ops: seq<Operation>): Option<Model>
    decreases |ops|
  {
    if ops == [] then Some(m) else
    var n :- OperateModel(x, m, ops[0]);
    OperateModelAll(x, n, ops[1..])
  }

  /** Whole sequences: exceptions, texts and comparisons are those of the runtime model. */
  lemma {:induction false} SequenceOk(x: Externals, trees: bool, m: Machine, ops: seq<Operation>)
    requires MachineOk(m)
    ensures Matches(OperateAll(x, trees, m, ops), OperateModelAll(x, ModelOf(m), ops))
    decreases |ops|
  {
    hide Operate, OperateModel, MachineOk, ModelOf;
    if ops != [] {
      OperateOk(x, trees, m, ops[0]);
      var n := Operate(x, trees, m, ops[0]);
      if n.Some? { SequenceOk(x, trees, n.value, ops[1..]); }
    }
  }

  const START := Machine([], Heap([], []))

  /** With string trees and without, every sequence computes the same values and the same records. */
  lemma TreesAreStrings(x: Externals, ops: seq<Operation>)
    ensures MachineOk(START)
    ensures var t, f := OperateAll(x, true, START, ops), OperateAll(x, false, START, ops);
            (t.Some? <==> f.Some?) && (t.Some? ==> ModelOf(t.value) == ModelOf(f.value))
  {
    SequenceOk(x, true, START, ops);
    SequenceOk(x, false, START, ops);
    hide OperateAll, OperateModelAll;
  }

  /** The text of a sum is fixed when it is made: no later change of a record shows in it. */
  lemma TextCaptured(x: Externals, trees: bool, m: Machine, l: nat, r: nat, k: nat, key: string, v: nat)
    requires MachineOk(m) && l < |m.values| && r < |m.values| && (IsString(m.values[l]) || IsString(m.values[r]))
    requires OperateAll(x, trees, m, [Addition(l, r), Insert(k, key, v)]).Some?
    ensures var o := OperateAll(x, trees, m, [Addition(l, r), Insert(k, key, v)]).value;
            var w, vs := WorldOf(m.heap), ModelOf(m).values;
            && |ModelOf(o).values| > |m.values|
            && ModelOf(o).values[|m.values|] == StrV(Text(x, w, vs[l]) + Text(x, w, vs[r]))
  {
    SequenceOk(x, trees, m, [Addition(l, r), Insert(k, key, v)]);
    var p := ModelOf(m);
    assert p.values[l].StrV? || p.values[r].StrV?;
    hide OperateAll, ModelOf, MachineOk, Meaning, WorldOf;
    ModelCaptured(x, p, l, r, k, key, v);
  }

  lemma ModelCaptured(x: Externals, m: Model, l: nat, r: nat, k: nat, key: string, v: nat)
    requires l < |m.values| && r < |m.values| && (m.values[l].StrV? || m.values[r].StrV?)
    ensures var o := OperateModelAll(x, m, [Addition(l, r), Insert(k, key, v)]);
            o.Some? ==>
              && |o.value.values| > |m.values|
              && o.value.values[|m.values|] == StrV(Text(x, m.world, m.values[l]) + Text(x, m.world, m.values[r]))
  {
    hide Text, RecordInsert;
    var ops := [Addition(l, r), Insert(k, key, v)];
    assert ops[1..] == [Insert(k, key, v)] && ops[1..][1..] == [];
    var n := OperateModel(x, m, ops[0]).value;
    assert OperateModelAll(x, m, ops) == OperateModelAll(x, n, [Insert(k, key, v)]);
    var o := OperateModel(x, n, Insert(k, key, v));
    if o.Some? {
      assert OperateModelAll(x, o.value, []) == o;
    }
  }
}
