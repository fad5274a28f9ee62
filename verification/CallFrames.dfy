/**
  The frame of a call: its locals, its cells, and the arguments in the places where the
  compiled code looks for the parameters.
 */
module CallFrames {
  import opened Runtime
  import opened Ast
  import opened Bytecode
  import opened NameTables
  import opened Scanners
  import opened BytecodeCompiler
  import opened ClosureConversion
  import opened NameResolution

  datatype Frame = Frame(locals: seq<Value>, refs: seq<nat>, world: World)

  /** What every compiled function with distinct parameters has. */
  ghost predicate Shaped(fn: Fn) {
    && |fn.argMapping| == fn.paramCount <= |fn.locals|
    && forall i :: 0 <= i < |fn.argMapping| ==> -1 <= fn.argMapping[i] < |fn.cells|
  }

  /** New cells for the function's own variables, then the closure's cells. */
  function NewFrame(fn: Fn, references: seq<nat>, w: World): (f: Frame)
    requires |fn.free| <= |references|
    ensures |f.locals| == |fn.locals| && |f.refs| == |fn.cells| + |fn.free|
  {
    Frame(seq(|fn.locals|, _ => NoneV),
          seq(|fn.cells|, i => |w.objs| + i) + references[..|fn.free|],
          w.(objs := w.objs + seq(|fn.cells|, _ => CellObj(NoneV))))
  }

  /** One argument goes to its local or into its cell; None is a reference that is no cell. */
  function StoreArg(fn: Fn, f: Frame, args: seq<Value>, i: nat): Option<Frame>
    requires Shaped(fn) && i < |args| == fn.paramCount && |f.locals| == |fn.locals| && |f.refs| >= |fn.cells|
  {
    var m := fn.argMapping[i];
    if m == -1 then Some(f.(locals := f.locals[i := args[i]]))
    else
      var w :- CellWrite(f.world, f.refs[m], args[i]);
      Some(f.(world := w))
  }

  function StoreArgs(fn: Fn, f: Frame, args: seq<Value>, n: nat): (r: Option<Frame>)
    requires Shaped(fn) && n <= |args| == fn.paramCount && |f.locals| == |fn.locals| && |f.refs| >= |fn.cells|
    ensures r.Some? ==> |r.value.locals| == |fn.locals| && r.value.refs == f.refs
  {
    if n == 0 then Some(f) else
    var g :- StoreArgs(fn, f, args, n - 1);
    StoreArg(fn, g, args, n - 1)
  }

  /** The frame of a call; None when the number of arguments is wrong. */
  function CallFrame(fn: Fn, references: seq<nat>, args: seq<Value>, w: World): Option<Frame>
    requires Shaped(fn) && |fn.free| <= |references|
  {
    if fn.paramCount != |args| then None else StoreArgs(fn, NewFrame(fn, references, w), args, |args|)
  }

  /** `ClosureFunctionValue::call` up to the start of the function's code. */
  method SetUpFrame(fn: Fn, references: seq<nat>, args: seq<Value>, w: World) returns (r: Option<Frame>)
    requires Shaped(fn) && |fn.free| <= |references|
    ensures r == CallFrame(fn, references, args, w)
  {
    if fn.paramCount != |args| {
      return None;
    }
    var locals: seq<Value> := [];
    for i := 0 to |fn.locals|
      invariant locals == seq(i, _ => NoneV)
    {
      locals := locals + [NoneV];
    }
    var refs: seq<nat>, objs := [], w.objs;
    for i := 0 to |fn.cells|
      invariant refs == seq(i, k => |w.objs| + k) && objs == w.objs + seq(i, _ => CellObj(NoneV))
    {
      refs, objs := refs + [|objs|], objs + [CellObj(NoneV)];
    }
    for i := 0 to |fn.free|
      invariant refs == seq(|fn.cells|, k => |w.objs| + k) + references[..i]
    {
      refs := refs + [references[i]];
    }
    var f := Frame(locals, refs, w.(objs := objs));
    assert f == NewFrame(fn, references, w);
    for i := 0 to |args|
      invariant StoreArgs(fn, NewFrame(fn, references, w), args, i) == Some(f)
    {
      var g := StoreArg(fn, f, args, i);
      if g.None? {
        ArgsFail(fn, NewFrame(fn, references, w), args, i + 1, |args|);
        return None;
      }
      f := g.value;
    }
    return Some(f);
  }

  lemma {:induction false} ArgsFail(fn: Fn, f: Frame, args: seq<Value>, n: nat, m: nat)
    requires Shaped(fn) && n <= m <= |args| == fn.paramCount && |f.locals| == |fn.locals| && |f.refs| >= |fn.cells|
    requires StoreArgs(fn, f, args, n).None?
    ensures StoreArgs(fn, f, args, m).None?
    decreases m
  {
    hide Shaped, StoreArg;
    if n < m { ArgsFail(fn, f, args, n, m - 1); }
  }

  // ----- where the arguments end up -----

  /** Different parameters have different places. */
  ghost predicate MappedApart(fn: Fn) {
    forall i, j :: 0 <= i < j < |fn.argMapping| && fn.argMapping[i] != -1 ==> fn.argMapping[i] != fn.argMapping[j]
  }

  /** The argument `i` is in its place. */
  ghost predicate InPlace(fn: Fn, f: Frame, args: seq<Value>, i: nat)
    requires Shaped(fn) && i < |args| == fn.paramCount && |f.locals| == |fn.locals| && |f.refs| >= |fn.cells|
  {
    var m := fn.argMapping[i];
    if m == -1 then f.locals[i] == args[i] else CellRead(f.world, f.refs[m]) == Some(args[i])
  }

  /** The function's own cells are different objects. */
  ghost predicate CellsApart(fn: Fn, f: Frame) {
    && |f.refs| >= |fn.cells| && |f.locals| == |fn.locals|
    && (forall k :: 0 <= k < |fn.cells| ==> f.refs[k] < |f.world.objs| && f.world.objs[f.refs[k]].CellObj?)
    && forall k, l :: 0 <= k < l < |fn.cells| ==> f.refs[k] != f.refs[l]
  }

  lemma StoreArgPlaces(fn: Fn, f: Frame, args: seq<Value>, n: nat)
    requires Shaped(fn) && MappedApart(fn) && n < |args| == fn.paramCount && CellsApart(fn, f)
    requires forall i :: 0 <= i < n ==> InPlace(fn, f, args, i)
    ensures var r := StoreArg(fn, f, args, n);
            r.Some? && CellsApart(fn, r.value) && r.value.refs == f.refs && forall i :: 0 <= i <= n ==> InPlace(fn, r.value, args, i)
    ensures var r := StoreArg(fn, f, args, n).value;
            |r.world.objs| == |f.world.objs| && forall c :: 0 <= c < |f.world.objs| && c !in f.refs[..|fn.cells|] ==> r.world.objs[c] == f.world.objs[c]
  {
    var r := StoreArg(fn, f, args, n).value;
    forall i | 0 <= i <= n ensures InPlace(fn, r, args, i) {
      if i < n { assert InPlace(fn, f, args, i); }
    }
    var m := fn.argMapping[n];
    if m != -1 { assert f.refs[..|fn.cells|][m] == f.refs[m]; }
  }

  lemma {:induction false} StoreArgsPlaces(fn: Fn, f: Frame, args: seq<Value>, n: nat)
    requires Shaped(fn) && MappedApart(fn) && n <= |args| == fn.paramCount && CellsApart(fn, f)
    requires |f.locals| == |fn.locals| && |f.refs| >= |fn.cells|
    ensures var r := StoreArgs(fn, f, args, n);
            r.Some? && CellsApart(fn, r.value) && forall i :: 0 <= i < n ==> InPlace(fn, r.value, args, i)
    ensures var r := StoreArgs(fn, f, args, n).value;
            |r.world.objs| == |f.world.objs| && forall c :: 0 <= c < |f.world.objs| && c !in f.refs[..|fn.cells|] ==> r.world.objs[c] == f.world.objs[c]
    decreases n
  {
    hide StoreArg, CellsApart, InPlace, MappedApart, Shaped;
    if n > 0 {
      StoreArgsPlaces(fn, f, args, n - 1);
      StoreArgPlaces(fn, StoreArgs(fn, f, args, n - 1).value, args, n - 1);
    }
  }

  /** Cells and locals that no argument goes to stay as they are, and so do the globals. */
  lemma {:induction false} StoreArgsRest(fn: Fn, f: Frame, args: seq<Value>, n: nat)
    requires Shaped(fn) && MappedApart(fn) && n <= |args| == fn.paramCount && CellsApart(fn, f)
    requires |f.locals| == |fn.locals| && |f.refs| >= |fn.cells|
    ensures var r := StoreArgs(fn, f, args, n);
            r.Some? && CellsApart(fn, r.value) && r.value.refs == f.refs
            && r.value.world.globals == f.world.globals && |r.value.world.objs| == |f.world.objs|
    ensures var r := StoreArgs(fn, f, args, n).value;
            && (forall k :: 0 <= k < |fn.cells| && (forall i :: 0 <= i < n ==> fn.argMapping[i] != k) ==>
                  r.world.objs[f.refs[k]] == f.world.objs[f.refs[k]])
            && (forall j :: 0 <= j < |fn.locals| && (j >= n || fn.argMapping[j] != -1) ==> r.locals[j] == f.locals[j])
    decreases n
  {
    hide MappedApart, CellsApart, StoreArg, Shaped;
    if n > 0 {
      StoreArgsRest(fn, f, args, n - 1);
      StoreArgRest(fn, StoreArgs(fn, f, args, n - 1).value, args, n - 1);
    }
  }

  lemma StoreArgRest(fn: Fn, f: Frame, args: seq<Value>, n: nat)
    requires Shaped(fn) && n < |args| == fn.paramCount && CellsApart(fn, f)
    ensures var r := StoreArg(fn, f, args, n);
            r.Some? && CellsApart(fn, r.value) && r.value.refs == f.refs
            && r.value.world.globals == f.world.globals && |r.value.world.objs| == |f.world.objs|
    ensures var r := StoreArg(fn, f, args, n).value;
            && (forall k :: 0 <= k < |fn.cells| && fn.argMapping[n] != k ==> r.world.objs[f.refs[k]] == f.world.objs[f.refs[k]])
            && (forall j :: 0 <= j < |fn.locals| && (j != n || fn.argMapping[j] != -1) ==> r.locals[j] == f.locals[j])
  {
    var m := fn.argMapping[n];
    if m != -1 {
      assert forall k :: 0 <= k < |fn.cells| && k != m ==> f.refs[k] != f.refs[m];
    }
  }

  lemma NewFrameApart(fn: Fn, references: seq<nat>, w: World)
    requires |fn.free| <= |references|
    ensures CellsApart(fn, NewFrame(fn, references, w))
  {
  }

  /** A call stores every argument, keeps the closure's cells, and touches no older object. */
  lemma CallFramePlaces(fn: Fn, references: seq<nat>, args: seq<Value>, w: World)
    requires Shaped(fn) && MappedApart(fn) && |fn.free| <= |references| && |args| == fn.paramCount
    ensures var r := CallFrame(fn, references, args, w);
            && r.Some? && |r.value.locals| == |fn.locals| && r.value.refs == NewFrame(fn, references, w).refs
            && (forall i :: 0 <= i < |args| ==> InPlace(fn, r.value, args, i))
            && (forall i :: 0 <= i < |fn.free| ==> r.value.refs[|fn.cells| + i] == references[i])
            && |w.objs| <= |r.value.world.objs| && r.value.world.objs[..|w.objs|] == w.objs
  {
    var f := NewFrame(fn, references, w);
    NewFrameApart(fn, references, w);
    StoreArgsPlaces(fn, f, args, |args|);
    hide StoreArgs, InPlace, CellsApart, MappedApart, Shaped;
    forall c | 0 <= c < |w.objs| ensures c !in f.refs[..|fn.cells|] {
    }
  }

  // ----- compiled functions -----

  lemma InsertAllEmpty(xs: seq<string>)
    requires Distinct(xs)
    ensures InsertAll([], xs) == xs
  {
    hide InsertAll;
    InsertAllNew([], xs);
    assert [] + xs == xs;
  }

  /** With distinct parameters the first locals are the parameters. */
  lemma ParametersFirst(params: seq<string>, body: Node, s: Scope)
    requires Ok(s) && Distinct(params)
    ensures var fn := Enter(params, body, s).fn;
            && params <= fn.locals && Distinct(fn.locals) && Distinct(fn.cells) && fn.paramCount == |params|
  {
    EnterTables(params, body, s);
    InsertAllEmpty(params);
    hide Enter, ScanLocals, ScanGlobals, CapturedBelow, InsertAll;
  }

  /** Of its variables a function has those as globals that it declares. */
  lemma GlobalsEntered(params: seq<string>, body: Node, s: Scope, x: string)
    requires Ok(s)
    ensures var r := Enter(params, body, s);
            && (x in ScanGlobals(body, []) ==> x in r.globals)
            && (x in r.fn.locals || x in r.fn.free ==> (x in r.globals <==> x in ScanGlobals(body, [])))
  {
    hide Ok, Enter, ScanGlobals, KnownIn, Has;
    EnterGlobalsExact(params, body, s, x);
    ScanGlobalsExact(body, [], x);
  }

  /** The record of a finished function, with its argument mapping. */
  lemma LeaveShaped(params: seq<string>, body: Node, s: Scope, last: Scope)
    requires Ok(s) && Ok(last) && Distinct(params) && Grows(Enter(params, body, s), last)
    ensures var fn := Leave(last).fn;
            && Shaped(fn) && MappedApart(fn) && fn.paramCount == |params|
            && fn.locals == last.fn.locals && fn.cells == last.fn.cells && fn.free == last.fn.free
            && MapsParameters(fn, params)
  {
    hide *;
    ParametersFirst(params, body, s);
    SameTables(Enter(params, body, s), last);
    LeaveTables(last);
    MappingShaped(Leave(last).fn, params);
  }

  ghost predicate MapsParameters(fn: Fn, params: seq<string>) {
    |fn.argMapping| == |params| && forall i :: 0 <= i < |params| ==>
      fn.argMapping[i] == if params[i] in fn.cells then IndexOf(fn.cells, params[i]) else -1
  }

  lemma LeaveTables(s: Scope)
    requires Ok(s)
    ensures var fn := Leave(s).fn;
            && fn.locals == s.fn.locals && fn.cells == s.fn.cells && fn.free == s.fn.free && fn.paramCount == s.fn.paramCount
            && fn.argMapping == ArgMapping(fn.locals, fn.cells, fn.paramCount)
  {
    hide Ok, ArgMapping;
    var s1 := LoadConstant(s, ConstNone);
    assert SameShape(s, s1);
    hide LoadConstant;
  }

  lemma MappingShaped(fn: Fn, params: seq<string>)
    requires params <= fn.locals && Distinct(fn.locals) && Distinct(fn.cells) && fn.paramCount == |params|
    requires fn.argMapping == ArgMapping(fn.locals, fn.cells, fn.paramCount)
    ensures Shaped(fn) && MappedApart(fn) && MapsParameters(fn, params)
  {
    assert forall i :: 0 <= i < |params| ==> fn.locals[i] == params[i];
  }

  /**
    In the frame of a call every parameter is found, as a local or in its cell, with its
    own argument: parameters being distinct, not declared global, and sharing no name with
    a captured variable of the enclosing function.
   */
  lemma ParameterAccess(params: seq<string>, body: Node, s: Scope, now: Scope, last: Scope,
                        references: seq<nat>, args: seq<Value>, w: World, i: nat)
    requires Ok(s) && Separate(s) && NewNames(params, s) && Distinct(params)
    requires forall x :: x in params ==> x !in ScanGlobals(body, [])
    requires Ok(now) && Ok(last) && Grows(Enter(params, body, s), now) && Grows(now, last)
    requires i < |args| == |params| && |Leave(last).fn.free| <= |references|
    ensures Shaped(Leave(last).fn) && CallFrame(Leave(last).fn, references, args, w).Some?
    ensures var f := CallFrame(Leave(last).fn, references, args, w).value;
            match Resolve(now, params[i])
            case LocalPlace(k) => k < |f.locals| && f.locals[k] == args[i]
            case CellPlace(k) => k < |f.refs| && CellRead(f.world, f.refs[k]) == Some(args[i])
            case _ => false
  {
    hide *;
    var r, x := Enter(params, body, s), params[i];
    FinishedTables(params, body, s, now, last);
    GrowsTrans(r, now, last);
    LeaveShaped(params, body, s, last);
    ParametersFirst(params, body, s);
    EnterSeparate(params, body, s);
    GlobalsEntered(params, body, s, x);
    SameTables(r, now);
    SameTables(now, last);
    EnterIsNested(params, body, s);
    var fn := Leave(last).fn;
    CallFramePlaces(fn, references, args, w);
    ResolvedPlace(now, fn, params, CallFrame(fn, references, args, w).value, args, i);
  }

  /** `{ return fun() { return x; }; }` */
  function Getter(x: string): Node {
    Seq(Node.Return(Function([], Seq(Node.Return(Name(x)), Empty))), Empty)
  }

  /**
    Why the names of parameters must be new: a parameter that shares its name with a captured
    variable of the enclosing function, and is captured itself, stands for the outer variable.
   */
  lemma ShadowedParameter(s: Scope, x: string)
    requires Ok(s) && x in s.fn.cells
    ensures var r := Enter([x], Getter(x), s);
            && x in r.fn.locals && x in r.fn.cells && x in r.fn.free
            && Resolve(r, x) == CellPlace(|r.fn.cells| + IndexOf(r.fn.free, x))
  {
    hide *;
    var body := Getter(x);
    var r := Enter([x], body, s);
    GetterScanned(x);
    GetterReads(x);
    EnterTables([x], body, s);
    GlobalsEntered([x], body, s, x);
    CapturedExactly(r.fn.locals, s.fn.cells, [], [], body, x);
    CapturedHere(body, s, x);
    assert x in [x] && x in InsertAll(InsertAll([], [x]), ScanLocals(body, ScanGlobals(body, []), []));
    FreeFirst(r, x);
  }

  lemma CapturedHere(body: Node, s: Scope, x: string)
    requires Ok(s) && ScanGlobals(body, []) == [] && ScanLocals(body, [], []) == []
    requires x in CapturedFrom(s.fn.cells, [], [], body)
    ensures forall params :: x in Enter(params, body, s).fn.free
  {
    hide Enter, ScanGlobals, ScanLocals, CapturedFrom, FreeRefs;
    assert x in CellRefs(body, s);
  }

  lemma FreeFirst(s: Scope, x: string)
    requires Ok(s) && x !in s.globals && x in s.fn.free
    ensures Resolve(s, x) == CellPlace(|s.fn.cells| + IndexOf(s.fn.free, x))
  {
    hide Ok, IndexOf;
  }

  lemma GetterScanned(x: string)
    ensures ScanGlobals(Getter(x), []) == [] && ScanLocals(Getter(x), [], []) == []
  {
    var none: seq<string> := [];
    var value := Node.Return(Name(x));
    var inner := Function([], Seq(value, Empty));
    assert ScanLocals(Name(x), none, none) == none && ScanLocals(Empty, none, none) == none;
    assert ScanLocals(value, none, none) == none;
    assert ScanLocals(Seq(value, Empty), none, none) == none;
    assert ScanLocals(inner, none, none) == none && ScanGlobals(inner, none) == none;
    assert ScanLocals(Node.Return(inner), none, none) == none && ScanGlobals(Node.Return(inner), none) == none;
    assert ScanGlobals(Empty, none) == none;
  }

  lemma GetterReads(x: string)
    ensures Reads(Getter(x), false, x, true) && Reads(Getter(x), false, x, false)
  {
    var inner := Seq(Node.Return(Name(x)), Empty);
    assert Reads(Name(x), false, x, false);
    assert Reads(Node.Return(Name(x)), false, x, false);
    assert Reads(inner, false, x, false);
    assert Reads(Function([], inner), false, x, true) && Reads(Function([], inner), false, x, false);
    assert Reads(Node.Return(Function([], inner)), false, x, true) && Reads(Node.Return(Function([], inner)), false, x, false);
  }

  lemma EnterIsNested(params: seq<string>, body: Node, s: Scope)
    requires Ok(s)
    ensures !Enter(params, body, s).top
  {
    hide Enter;
  }

  /** The compiled access of a parameter reads the place of its argument. */
  lemma ResolvedPlace(now: Scope, fn: Fn, params: seq<string>, f: Frame, args: seq<Value>, i: nat)
    requires Ok(now) && now.fn.locals == fn.locals && now.fn.cells == fn.cells
    requires params <= fn.locals && Distinct(fn.locals) && MapsParameters(fn, params)
    requires i < |params| == |args| && params[i] !in now.globals && params[i] !in now.fn.free
    requires Shaped(fn) && |args| == fn.paramCount && |f.locals| == |fn.locals| && |f.refs| >= |fn.cells| && InPlace(fn, f, args, i)
    ensures match Resolve(now, params[i])
            case LocalPlace(k) => k < |f.locals| && f.locals[k] == args[i]
            case CellPlace(k) => k < |f.refs| && CellRead(f.world, f.refs[k]) == Some(args[i])
            case _ => false
  {
    hide Ok;
    assert params[i] == fn.locals[i];
    IndexOfDistinct(fn.locals, i);
    hide Distinct, IndexOf;
  }

  lemma SameTables(s: Scope, t: Scope)
    requires Grows(s, t)
    ensures t.fn.locals == s.fn.locals && t.fn.cells == s.fn.cells && t.fn.free == s.fn.free
    ensures t.top == s.top && (!s.top ==> t.globals == s.globals) && t.fn.paramCount == s.fn.paramCount
  {
  }

  // ----- cells through all nesting depths -----

  /** A function that is being run: the state of its compilation, and the cells of its frame. */
  datatype Level = Level(scope: Scope, refs: seq<nat>)

  /** The frame of `inner` was set up from a closure that the frame of `outer` built. */
  ghost predicate Encloses(outer: Level, inner: Level) {
    exists params, body, references: seq<nat> :: Opens(outer, inner, params, body, references)
  }

  ghost predicate Opens(outer: Level, inner: Level, params: seq<string>, body: Node, references: seq<nat>) {
    && Ok(outer.scope) && NewNames(params, outer.scope) && SameShape(Enter(params, body, outer.scope), inner.scope)
    && CarriesCells(params, body, outer.scope, outer.refs, references)
    && |inner.refs| == |inner.scope.fn.cells| + |inner.scope.fn.free|
    && forall i :: 0 <= i < |references| ==> inner.refs[|inner.scope.fn.cells| + i] == references[i]
  }

  lemma Carried(params: seq<string>, body: Node, s: Scope, refs: seq<nat>, cells: seq<nat>, x: string)
    requires Ok(s) && CarriesCells(params, body, s, refs, cells) && x in Enter(params, body, s).fn.free
    ensures var k := IndexOf(Enter(params, body, s).fn.free, x);
            && k < |cells| && (x in s.fn.cells || x in s.fn.free) && |refs| == |s.fn.cells| + |s.fn.free|
            && cells[k] == refs[CellIndex(s, x)]
  {
    hide Enter, Ok, CellIndex;
    assert Enter(params, body, s).fn.free[IndexOf(Enter(params, body, s).fn.free, x)] == x;
  }

  /** One level: a free variable of the inner function is the outer frame's cell of that name. */
  lemma SameCell(outer: Level, inner: Level, params: seq<string>, body: Node, references: seq<nat>, x: string)
    requires Opens(outer, inner, params, body, references) && Separate(outer.scope) && x in inner.scope.fn.free
    ensures Separate(inner.scope) && (x in outer.scope.fn.free || x in outer.scope.fn.cells)
    ensures CellIndex(inner.scope, x) < |inner.refs| && CellIndex(outer.scope, x) < |outer.refs|
    ensures inner.refs[CellIndex(inner.scope, x)] == outer.refs[CellIndex(outer.scope, x)]
  {
    hide Enter, Ok, NewNames, CarriesCells, Separate, IndexOf;
    EnterSeparate(params, body, outer.scope);
    var r := Enter(params, body, outer.scope);
    Carried(params, body, outer.scope, outer.refs, references, x);
    assert Separate(inner.scope) by { SameSeparate(r, inner.scope); }
  }

  lemma SameSeparate(s: Scope, t: Scope)
    requires SameShape(s, t) && Separate(s)
    ensures Separate(t)
  {
  }

  ghost predicate Chain(levels: seq<Level>) {
    |levels| > 0 && forall i, j :: 0 <= i < j < |levels| && j == i + 1 ==> Encloses(levels[i], levels[j])
  }

  /**
    However deep the nesting: a name that is free in every function below the first stands,
    in the innermost frame, for the first frame's own cell of that name.
   */
  lemma {:induction false} CellIdentity(levels: seq<Level>, x: string)
    requires Chain(levels) && Separate(levels[0].scope)
    requires forall i :: 1 <= i < |levels| ==> x in levels[i].scope.fn.free
    requires |levels| > 1
    ensures var first, last := levels[0], levels[|levels| - 1];
            && Separate(last.scope) && (x in first.scope.fn.cells || x in first.scope.fn.free)
            && CellIndex(first.scope, x) < |first.refs| && CellIndex(last.scope, x) < |last.refs|
            && last.refs[CellIndex(last.scope, x)] == first.refs[CellIndex(first.scope, x)]
    decreases |levels|
  {
    hide Encloses, Separate, CellIndex, Opens;
    var n := |levels| - 1;
    assert Encloses(levels[n - 1], levels[n]);
    if n > 1 {
      CellIdentity(levels[..n], x);
    }
    OneLevel(levels[n - 1], levels[n], x);
  }

  lemma OneLevel(outer: Level, inner: Level, x: string)
    requires Encloses(outer, inner) && Separate(outer.scope) && x in inner.scope.fn.free
    ensures Separate(inner.scope) && (x in outer.scope.fn.free || x in outer.scope.fn.cells)
    ensures CellIndex(inner.scope, x) < |inner.refs| && CellIndex(outer.scope, x) < |outer.refs|
    ensures inner.refs[CellIndex(inner.scope, x)] == outer.refs[CellIndex(outer.scope, x)]
  {
    hide Opens, Separate, CellIndex;
    var params, body, references: seq<nat> :| Opens(outer, inner, params, body, references);
    SameCell(outer, inner, params, body, references, x);
  }

  /** A frame set up from a closure that carries the enclosing frame's cells is such an inner level. */
  lemma CallOpens(params: seq<string>, body: Node, s: Scope, refs: seq<nat>, cells: seq<nat>, now: Scope, last: Scope,
                  args: seq<Value>, w: World)
    requires Ok(s) && Separate(s) && NewNames(params, s) && Distinct(params) && CarriesCells(params, body, s, refs, cells)
    requires Ok(now) && Ok(last) && Grows(Enter(params, body, s), now) && Grows(now, last) && |args| == |params|
    ensures Shaped(Leave(last).fn) && |Leave(last).fn.free| <= |cells|
    ensures var f := CallFrame(Leave(last).fn, cells, args, w);
            f.Some? && Encloses(Level(s, refs), Level(now, f.value.refs))
  {
    hide *;
    var r := Enter(params, body, s);
    FinishedTables(params, body, s, now, last);
    CarriedCount(params, body, s, refs, cells);
    var fn := Leave(last).fn;
    FrameRefs(fn, cells, args, w);
    ShapeKept(r, now);
    OpensHere(Level(s, refs), Level(now, CallFrame(fn, cells, args, w).value.refs), params, body, cells);
  }

  lemma FinishedTables(params: seq<string>, body: Node, s: Scope, now: Scope, last: Scope)
    requires Ok(s) && Distinct(params) && Ok(now) && Ok(last) && Grows(Enter(params, body, s), now) && Grows(now, last)
    ensures var fn := Leave(last).fn;
            && Shaped(fn) && MappedApart(fn) && fn.paramCount == |params|
            && fn.cells == now.fn.cells && fn.free == now.fn.free == Enter(params, body, s).fn.free
  {
    hide *;
    GrowsTrans(Enter(params, body, s), now, last);
    LeaveShaped(params, body, s, last);
    SameTables(Enter(params, body, s), now);
    SameTables(now, last);
  }

  lemma FrameRefs(fn: Fn, references: seq<nat>, args: seq<Value>, w: World)
    requires Shaped(fn) && MappedApart(fn) && |fn.free| <= |references| && |args| == fn.paramCount
    ensures var r := CallFrame(fn, references, args, w);
            && r.Some? && |r.value.refs| == |fn.cells| + |fn.free|
            && forall i :: 0 <= i < |fn.free| ==> r.value.refs[|fn.cells| + i] == references[i]
  {
    hide *;
    CallFramePlaces(fn, references, args, w);
    FrameSize(fn, references, w);
  }

  lemma CarriedCount(params: seq<string>, body: Node, s: Scope, refs: seq<nat>, cells: seq<nat>)
    requires Ok(s) && CarriesCells(params, body, s, refs, cells)
    ensures |cells| == |Enter(params, body, s).fn.free|
  {
    hide Enter, Ok;
  }

  lemma FrameSize(fn: Fn, references: seq<nat>, w: World)
    requires |fn.free| <= |references|
    ensures |NewFrame(fn, references, w).refs| == |fn.cells| + |fn.free|
  {
  }

  lemma ShapeKept(s: Scope, t: Scope)
    requires Grows(s, t)
    ensures SameShape(s, t)
  {
  }

  lemma OpensHere(outer: Level, inner: Level, params: seq<string>, body: Node, references: seq<nat>)
    requires Ok(outer.scope) && NewNames(params, outer.scope) && SameShape(Enter(params, body, outer.scope), inner.scope)
    requires CarriesCells(params, body, outer.scope, outer.refs, references)
    requires |inner.refs| == |inner.scope.fn.cells| + |inner.scope.fn.free| && |references| == |inner.scope.fn.free|
    requires forall i :: 0 <= i < |references| ==> inner.refs[|inner.scope.fn.cells| + i] == references[i]
    ensures Encloses(outer, inner)
  {
    hide Ok, NewNames, CarriesCells, Enter, SameShape, Encloses;
    assert |references| == |inner.scope.fn.free|;
    assert Opens(outer, inner, params, body, references);
    EnclosesBy(outer, inner, params, body, references);
  }

  lemma EnclosesBy(outer: Level, inner: Level, params: seq<string>, body: Node, references: seq<nat>)
    requires Opens(outer, inner, params, body, references)
    ensures Encloses(outer, inner)
  {
    hide Opens;
  }
}
