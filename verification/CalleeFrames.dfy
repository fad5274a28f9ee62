/**
  The frame of a call by names and the frame that the machine sets up: the same variables in
  the same cells.  Every literal of a program is compiled in a scope with the tables of the
  function it stands for.
 */
module CalleeFrames {
  import opened Runtime
  import opened Ast
  import opened NameTables
  import opened Scanners
  import opened BytecodeCompiler
  import opened CompilerCorrectness
  import opened ClosureConversion
  import opened CallFrames
  import opened FunctionTables
  import opened SourcePrograms
  import B = Bytecode

  /** A function literal, with the scope in which it is compiled. */
  datatype Literal = Literal(params: seq<string>, body: Node, scope: Scope)

  ghost predicate Declared(l: Literal) { Ok(l.scope) && Is(BlockSort, l.body) && Distinct(l.params) }

  function Entered(l: Literal): Scope
    requires Ok(l.scope)
  {
    Enter(l.params, l.body, l.scope)
  }

  function Compiled(l: Literal): B.Fn
    requires Ok(l.scope)
  {
    CompileFunction(l.params, l.body, l.scope)
  }

  /** The last scope of a compiled function. */
  function Finished(l: Literal): (r: Scope)
    requires Ok(l.scope)
    ensures Ok(r) && Grows(Entered(l), r)
  {
    Transpile(l.body, false, Entered(l))
  }

  lemma CompiledShaped(l: Literal)
    requires Declared(l)
    ensures var fn := Compiled(l);
            && Shaped(fn) && MappedApart(fn) && fn.paramCount == |l.params| && MapsParameters(fn, l.params)
            && fn.locals == Entered(l).fn.locals && fn.cells == Entered(l).fn.cells && fn.free == Entered(l).fn.free
  {
    hide Enter, Ok, Transpile, Leave, Grows, Shaped, MappedApart, MapsParameters, NewNames, Separate, ScanGlobals;
    CompileIs(l);
    LeaveShaped(l.params, l.body, l.scope, Finished(l));
    SameTables(Entered(l), Finished(l));
  }

  lemma CompileIs(l: Literal)
    requires Ok(l.scope)
    ensures Compiled(l) == Leave(Finished(l)).fn
  {
    hide Enter, Ok, Transpile, Leave, Grows;
  }

  // ----- the two frames are the same -----

  /** The frame of a call to compiled code, ready for its arguments and with all of them. */
  lemma FrameFacts(l: Literal, references: seq<nat>, args: seq<Value>, w: World)
    requires Declared(l) && |args| == |l.params| && |Entered(l).fn.free| <= |references|
    ensures var fn := Compiled(l); Shaped(fn) && |fn.free| <= |references| && fn.paramCount == |l.params| && MapsParameters(fn, l.params)
    ensures FrameIs(Compiled(l), references, args, w)
  {
    hide *;
    DeclaredParts(l);
    CompiledShaped(l);
    CallFrameFacts(Compiled(l), references, args, w);
  }

  /** Where the cells and the arguments of a call are. */
  ghost predicate FrameIs(fn: B.Fn, references: seq<nat>, args: seq<Value>, w: World) {
    Shaped(fn) && |fn.free| <= |references| && fn.paramCount == |args| &&
    var r := CallFrame(fn, references, args, w);
    && r.Some? && |r.value.locals| == |fn.locals| && |r.value.refs| == |fn.cells| + |fn.free|
    && (forall k :: 0 <= k < |fn.cells| ==> r.value.refs[k] == |w.objs| + k)
    && (forall k :: 0 <= k < |fn.free| ==> r.value.refs[|fn.cells| + k] == references[k])
    && (forall i :: 0 <= i < |args| ==> InPlace(fn, r.value, args, i))
    && |r.value.world.objs| == |w.objs| + |fn.cells| && r.value.world.objs[..|w.objs|] == w.objs
    && r.value.world.globals == w.globals
  }

  lemma CallFrameFacts(fn: B.Fn, references: seq<nat>, args: seq<Value>, w: World)
    requires Shaped(fn) && MappedApart(fn) && |fn.free| <= |references| && |args| == fn.paramCount
    ensures FrameIs(fn, references, args, w)
  {
    hide CallFrame, NewFrame, InPlace, Shaped, MappedApart, StoreArgs, CellsApart;
    CallFramePlaces(fn, references, args, w);
    NewFrameApart(fn, references, w);
    NewFrameIs(fn, references, w);
    StoreArgsRest(fn, NewFrame(fn, references, w), args, |args|);
    CallFrameIs(fn, references, args, w);
  }

  lemma FrameParts(fn: B.Fn, references: seq<nat>, args: seq<Value>, w: World)
    requires FrameIs(fn, references, args, w)
    ensures Shaped(fn) && |fn.free| <= |references| && fn.paramCount == |args| && CallFrame(fn, references, args, w).Some?
    ensures var f := CallFrame(fn, references, args, w).value;
            && |f.locals| == |fn.locals| && |f.refs| == |fn.cells| + |fn.free|
            && (forall k :: 0 <= k < |fn.cells| ==> f.refs[k] == |w.objs| + k)
            && (forall k :: 0 <= k < |fn.free| ==> f.refs[|fn.cells| + k] == references[k])
            && (forall i :: 0 <= i < |args| ==> InPlace(fn, f, args, i))
            && |f.world.objs| == |w.objs| + |fn.cells| && f.world.objs[..|w.objs|] == w.objs
            && f.world.globals == w.globals
  {
    hide CallFrame, InPlace, Shaped;
  }

  lemma NewFrameIs(fn: B.Fn, references: seq<nat>, w: World)
    requires |fn.free| <= |references|
    ensures var f := NewFrame(fn, references, w);
            && |f.locals| == |fn.locals| && |f.refs| == |fn.cells| + |fn.free|
            && (forall k :: 0 <= k < |fn.cells| ==> f.refs[k] == |w.objs| + k && f.world.objs[|w.objs| + k] == CellObj(NoneV))
            && (forall k :: 0 <= k < |fn.locals| ==> f.locals[k] == NoneV)
            && f.world.globals == w.globals && |f.world.objs| == |w.objs| + |fn.cells|
  {
  }

  lemma CallFrameIs(fn: B.Fn, references: seq<nat>, args: seq<Value>, w: World)
    requires Shaped(fn) && |fn.free| <= |references| && |args| == fn.paramCount
    ensures CallFrame(fn, references, args, w) == StoreArgs(fn, NewFrame(fn, references, w), args, |args|)
  {
    hide StoreArgs, NewFrame;
  }

  /** Each own cell holds the argument of its parameter, or None. */
  lemma CellHolds(l: Literal, references: seq<nat>, args: seq<Value>, w: World, k: nat)
    requires Declared(l) && |args| == |l.params| && |Entered(l).fn.free| <= |references| && k < |Entered(l).fn.cells|
    ensures Shaped(Compiled(l)) && |Compiled(l).free| <= |references| && CallFrame(Compiled(l), references, args, w).Some?
    ensures var f := CallFrame(Compiled(l), references, args, w).value;
            |w.objs| + k < |f.world.objs| && f.world.objs[|w.objs| + k] == CellObj(Initial(l.params, args, Entered(l).fn.cells[k]))
  {
    hide *;
    DeclaredParts(l);
    CompiledShaped(l);
    FrameFacts(l, references, args, w);
    FrameParts(Compiled(l), references, args, w);
    ParametersFirst(l.params, l.body, l.scope);
    var fn := Compiled(l);
    CellMapping(fn, l.params, k);
    InitialIs(l.params, args, fn.cells[k]);
    if fn.cells[k] in l.params {
      var i := IndexOf(l.params, fn.cells[k]);
      InPlaceCell(fn, CallFrame(fn, references, args, w).value, args, i);
    } else {
      UnmappedCell(fn, references, args, w, k);
    }
  }

  lemma DeclaredParts(l: Literal)
    requires Declared(l)
    ensures Ok(l.scope) && Distinct(l.params) && Entered(l) == Enter(l.params, l.body, l.scope)
  {
    hide Enter;
  }

  lemma InitialIs(params: seq<string>, args: seq<Value>, x: string)
    requires |args| == |params|
    ensures x in params ==> IndexOf(params, x) < |params| && Initial(params, args, x) == args[IndexOf(params, x)]
    ensures x !in params ==> Initial(params, args, x) == NoneV
  {
    hide IndexOf;
  }

  /** The parameter of a cell is mapped to it, and no other is. */
  lemma CellMapping(fn: B.Fn, params: seq<string>, k: nat)
    requires MapsParameters(fn, params) && Distinct(fn.cells) && k < |fn.cells|
    ensures |fn.argMapping| == |params|
    ensures fn.cells[k] in params ==> IndexOf(params, fn.cells[k]) < |params| && fn.argMapping[IndexOf(params, fn.cells[k])] == k
    ensures fn.cells[k] !in params ==> forall i :: 0 <= i < |params| ==> fn.argMapping[i] != k
  {
    IndexOfDistinct(fn.cells, k);
    hide IndexOf, Distinct;
    assert forall i :: 0 <= i < |params| ==> params[i] in params;
  }

  lemma InPlaceCell(fn: B.Fn, f: CallFrames.Frame, args: seq<Value>, i: nat)
    requires Shaped(fn) && i < |args| == fn.paramCount && |f.locals| == |fn.locals| && |f.refs| >= |fn.cells|
    requires InPlace(fn, f, args, i)
    ensures var m := fn.argMapping[i];
            m == -1 ==> i < |f.locals| && f.locals[i] == args[i]
    ensures var m := fn.argMapping[i];
            m >= 0 ==> m < |f.refs| && f.refs[m] < |f.world.objs| && f.world.objs[f.refs[m]] == CellObj(args[i])
  {
  }

  lemma UnmappedCell(fn: B.Fn, references: seq<nat>, args: seq<Value>, w: World, k: nat)
    requires Shaped(fn) && MappedApart(fn) && |fn.free| <= |references| && |args| == fn.paramCount
    requires k < |fn.cells| && forall i :: 0 <= i < |args| ==> fn.argMapping[i] != k
    ensures CallFrame(fn, references, args, w).Some?
    ensures var f := CallFrame(fn, references, args, w).value;
            |w.objs| + k < |f.world.objs| && f.world.objs[|w.objs| + k] == CellObj(NoneV)
  {
    hide *;
    NewFrameApart(fn, references, w);
    NewFrameIs(fn, references, w);
    StoreArgsRest(fn, NewFrame(fn, references, w), args, |args|);
    CallFrameIs(fn, references, args, w);
    assert NewFrame(fn, references, w).refs[k] == |w.objs| + k;
  }

  lemma UnmappedLocal(fn: B.Fn, references: seq<nat>, args: seq<Value>, w: World, j: nat)
    requires Shaped(fn) && MappedApart(fn) && |fn.free| <= |references| && |args| == fn.paramCount
    requires |args| <= j < |fn.locals|
    ensures CallFrame(fn, references, args, w).Some?
    ensures var f := CallFrame(fn, references, args, w).value; j < |f.locals| && f.locals[j] == NoneV
  {
    hide *;
    NewFrameApart(fn, references, w);
    NewFrameIs(fn, references, w);
    StoreArgsRest(fn, NewFrame(fn, references, w), args, |args|);
    CallFrameIs(fn, references, args, w);
  }

  /** Each plain local holds the argument of its parameter, or None. */
  lemma LocalHolds(l: Literal, references: seq<nat>, args: seq<Value>, w: World, x: string)
    requires Declared(l) && |args| == |l.params| && |Entered(l).fn.free| <= |references|
    requires x in Entered(l).fn.locals && x !in Entered(l).fn.cells
    ensures Shaped(Compiled(l)) && |Compiled(l).free| <= |references| && CallFrame(Compiled(l), references, args, w).Some?
    ensures var f := CallFrame(Compiled(l), references, args, w).value;
            var j := IndexOf(Entered(l).fn.locals, x);
            j < |f.locals| && f.locals[j] == Initial(l.params, args, x)
  {
    hide *;
    DeclaredParts(l);
    CompiledShaped(l);
    FrameFacts(l, references, args, w);
    FrameParts(Compiled(l), references, args, w);
    ParametersFirst(l.params, l.body, l.scope);
    var fn := Compiled(l);
    LocalMapping(fn, l.params, x);
    InitialIs(l.params, args, x);
    if x in l.params {
      InPlaceCell(fn, CallFrame(fn, references, args, w).value, args, IndexOf(l.params, x));
    } else {
      UnmappedLocal(fn, references, args, w, IndexOf(fn.locals, x));
    }
  }

  /** A plain local is its parameter's, or lies behind the parameters. */
  lemma LocalMapping(fn: B.Fn, params: seq<string>, x: string)
    requires MapsParameters(fn, params) && Distinct(fn.locals) && params <= fn.locals && x in fn.locals && x !in fn.cells
    ensures |fn.argMapping| == |params| && IndexOf(fn.locals, x) < |fn.locals|
    ensures x in params ==> IndexOf(params, x) < |params| && IndexOf(fn.locals, x) == IndexOf(params, x) && fn.argMapping[IndexOf(params, x)] == -1
    ensures x !in params ==> IndexOf(fn.locals, x) >= |params|
  {
    if x in params {
      IndexOfDistinct(fn.locals, IndexOf(params, x));
    }
    hide IndexOf, Distinct;
    assert forall i :: 0 <= i < |params| ==> params[i] in params && fn.locals[i] == params[i];
  }

  /** The call's world is the one with the new cells, by name. */
  lemma SameWorld(l: Literal, references: seq<nat>, args: seq<Value>, w: World)
    requires Declared(l) && |args| == |l.params| && |Entered(l).fn.free| <= |references|
    ensures Shaped(Compiled(l)) && |Compiled(l).free| <= |references| && CallFrame(Compiled(l), references, args, w).Some?
    ensures CallFrame(Compiled(l), references, args, w).value.world == OpenWorld(Entered(l).fn.cells, l.params, args, w)
  {
    hide *;
    DeclaredParts(l);
    CompiledShaped(l);
    FrameFacts(l, references, args, w);
    FrameParts(Compiled(l), references, args, w);
    var f, cells := CallFrame(Compiled(l), references, args, w).value, Entered(l).fn.cells;
    OpenWorldIs(cells, l.params, args, w);
    forall k | 0 <= k < |cells| ensures f.world.objs[|w.objs| + k] == CellObj(Initial(l.params, args, cells[k])) {
      CellHolds(l, references, args, w, k);
    }
    WorldByCells(f.world, OpenWorld(cells, l.params, args, w), w, cells, (x: string) => Initial(l.params, args, x));
  }

  lemma OpenWorldIs(cells: seq<string>, params: seq<string>, args: seq<Value>, w: World)
    requires |args| == |params|
    ensures var v := OpenWorld(cells, params, args, w);
            && v.globals == w.globals && |v.objs| == |w.objs| + |cells| && v.objs[..|w.objs|] == w.objs
            && forall k :: 0 <= k < |cells| ==> v.objs[|w.objs| + k] == CellObj(Initial(params, args, cells[k]))
  {
    hide Initial;
  }

  lemma WorldByCells(u: World, v: World, w: World, cells: seq<string>, value: string -> Value)
    requires u.globals == v.globals && |u.objs| == |v.objs| == |w.objs| + |cells|
    requires u.objs[..|w.objs|] == w.objs == v.objs[..|w.objs|]
    requires forall k :: 0 <= k < |cells| ==> u.objs[|w.objs| + k] == CellObj(value(cells[k]))
    requires forall k :: 0 <= k < |cells| ==> v.objs[|w.objs| + k] == CellObj(value(cells[k]))
    ensures u == v
  {
    forall a | 0 <= a < |u.objs| ensures u.objs[a] == v.objs[a] {
      if a < |w.objs| {
        assert u.objs[..|w.objs|][a] == v.objs[..|w.objs|][a];
      } else {
        var k := a - |w.objs|;
        assert u.objs[|w.objs| + k] == CellObj(value(cells[k])) == v.objs[|w.objs| + k];
      }
    }
  }

  // ----- source functions and compiled literals -----

  /** The scope's tables are those of the source function. */
  ghost predicate TablesFor(c: Code, s: Scope) {
    && s.fn.locals == c.locals && s.fn.cells == Own(c) && s.fn.free == c.free && ToSet(s.freeRefs) == Passed(c)
  }

  /** The literal is the source function, with the same variables. */
  ghost predicate Compiles(c: Code, l: Literal) {
    Declared(l) && l.params == c.params && l.body == c.body && TablesFor(c, Entered(l)) && Distinct(c.free)
  }

  /** The frame by names and the frame of the machine match. */
  lemma FramesMatch(c: Code, l: Literal, self: FnPath, references: seq<nat>, args: seq<Value>, w: World)
    requires Compiles(c, l) && |args| == |l.params| && |c.free| <= |references|
    ensures Shaped(Compiled(l)) && |Compiled(l).free| <= |references| && CallFrame(Compiled(l), references, args, w).Some?
    ensures var f := CallFrame(Compiled(l), references, args, w).value;
            Matches(OpenFrame(c, self, references, args, w), TablesOf(Entered(l)), f.refs, f.locals)
  {
    hide *;
    CompilesParts(c, l);
    DeclaredParts(l);
    CompiledShaped(l);
    FrameFacts(l, references, args, w);
    FrameParts(Compiled(l), references, args, w);
    var s := Entered(l);
    var f := CallFrame(Compiled(l), references, args, w).value;
    forall x | x in s.fn.locals && x !in s.fn.free && x !in s.fn.cells
      ensures IndexOf(s.fn.locals, x) < |f.locals| && f.locals[IndexOf(s.fn.locals, x)] == Initial(l.params, args, x)
    {
      LocalHolds(l, references, args, w, x);
    }
    EntersNested(l);
    VariableGlobals(l);
    OpenMatches(c, s, self, references, args, w, f.refs, f.locals);
  }

  lemma CompilesParts(c: Code, l: Literal)
    requires Compiles(c, l)
    ensures Declared(l) && l.params == c.params && l.body == c.body && TablesFor(c, Entered(l)) && Distinct(c.free)
    ensures c.free == Entered(l).fn.free
  {
    hide Declared, Entered, Own, Passed;
  }

  lemma EntersNested(l: Literal)
    requires Ok(l.scope)
    ensures !Entered(l).top
  {
    hide Enter, Ok;
  }

  /** Declared names are global, and of the function's variables only those. */
  ghost predicate GlobalsFor(body: Node, s: Scope) {
    && (forall x :: x in ScanGlobals(body, []) ==> x in s.globals)
    && (forall x :: x in s.globals ==> x in ScanGlobals(body, []) || (x !in s.fn.locals && x !in s.fn.free && x !in s.fn.cells))
  }

  lemma VariableGlobals(l: Literal)
    requires Ok(l.scope)
    ensures GlobalsFor(l.body, Entered(l))
  {
    hide Enter, Ok, ScanGlobals;
    var s := Entered(l);
    forall x ensures x in ScanGlobals(l.body, []) ==> x in s.globals
             ensures x in s.globals ==> x in ScanGlobals(l.body, []) || (x !in s.fn.locals && x !in s.fn.free && x !in s.fn.cells)
    {
      GlobalsEntered(l.params, l.body, l.scope, x);
      if x in s.fn.cells { CellsAreLocal(l, x); }
    }
  }

  lemma CellsAreLocal(l: Literal, x: string)
    requires Ok(l.scope) && x in Entered(l).fn.cells
    ensures x in Entered(l).fn.locals
  {
    hide Enter, Ok, ScanGlobals, ScanLocals, CapturedBelow;
    EnterTables(l.params, l.body, l.scope);
    CapturedInside(Entered(l).fn.locals, l.body, x);
  }

  lemma OpenMatches(c: Code, s: Scope, self: FnPath, references: seq<nat>, args: seq<Value>, w: World, refs: seq<nat>, locals: seq<Value>)
    requires TablesFor(c, s) && !s.top && |args| == |c.params| && |s.fn.free| <= |references| && GlobalsFor(c.body, s)
    requires |refs| == |s.fn.cells| + |s.fn.free|
    requires forall k :: 0 <= k < |s.fn.cells| ==> refs[k] == |w.objs| + k
    requires forall k :: 0 <= k < |s.fn.free| ==> refs[|s.fn.cells| + k] == references[k]
    requires forall x :: x in s.fn.locals && x !in s.fn.free && x !in s.fn.cells ==>
               IndexOf(s.fn.locals, x) < |locals| && locals[IndexOf(s.fn.locals, x)] == Initial(c.params, args, x)
    ensures Matches(OpenFrame(c, self, references, args, w), TablesOf(s), refs, locals)
  {
    hide Own, Passed, Initial, IndexOf, ScanGlobals;
    var g := OpenFrame(c, self, references, args, w);
    OpenCells(c, s, self, references, args, w, refs);
    OpenVariables(c, s, self, references, args, w);
    hide OpenFrame;
  }

  lemma OpenCells(c: Code, s: Scope, self: FnPath, references: seq<nat>, args: seq<Value>, w: World, refs: seq<nat>)
    requires TablesFor(c, s) && |args| == |c.params| && |s.fn.free| <= |references| && |refs| == |s.fn.cells| + |s.fn.free|
    requires forall k :: 0 <= k < |s.fn.cells| ==> refs[k] == |w.objs| + k
    requires forall k :: 0 <= k < |s.fn.free| ==> refs[|s.fn.cells| + k] == references[k]
    ensures var g := OpenFrame(c, self, references, args, w);
            && g.own.Keys == ToSet(s.fn.cells) && g.given.Keys == ToSet(s.fn.free) && g.passed == ToSet(s.freeRefs)
            && (forall x :: x in s.fn.cells ==> x in g.own && refs[IndexOf(s.fn.cells, x)] == g.own[x])
            && (forall x :: x in s.fn.free ==> x in g.given && refs[|s.fn.cells| + IndexOf(s.fn.free, x)] == g.given[x])
  {
    hide Own, Passed, Initial, IndexOf, ScanGlobals;
  }

  lemma OpenVariables(c: Code, s: Scope, self: FnPath, references: seq<nat>, args: seq<Value>, w: World)
    requires TablesFor(c, s) && |args| == |c.params| && |s.fn.free| <= |references| && GlobalsFor(c.body, s)
    ensures var g := OpenFrame(c, self, references, args, w);
            && (forall x :: x in g.vars ==> x in s.fn.locals)
            && (forall x :: x in s.fn.locals && x !in s.fn.free && x !in s.fn.cells ==>
                  x in g.vars && g.vars[x] == Initial(c.params, args, x))
            && (forall x :: x in g.globals ==> x in s.globals)
            && (forall x :: x in s.globals ==> x in g.globals || (x !in s.fn.free && x !in s.fn.cells && x !in s.fn.locals))
  {
    hide Own, Passed, Initial, IndexOf, ScanGlobals;
  }

  // ----- where a function of the program is compiled -----

  lemma CapturedDistinct(vars: seq<string>, body: Node)
    ensures Distinct(CapturedBelow(vars, body)) && InsertAll([], CapturedBelow(vars, body)) == CapturedBelow(vars, body)
  {
    hide ScanRefs, InsertAll;
    ScanRefsGrows(body, false, ToSet(vars), RefScan(ToSet(vars), []));
    InsertAllEmpty(CapturedBelow(vars, body));
  }

  lemma CapturedAreNeeded(body: Node, s: Scope)
    requires Ok(s)
    ensures CellRefs(body, s) == Needed(ToSet(s.fn.cells), body) && FreeRefs(body, s) == Needed(ToSet(s.freeRefs), body)
  {
    hide Ok, ScanRefs, ScanGlobals, ScanLocals;
  }

  /** A literal entered in a scope with the tables of `c` has the tables of the function nested in `c`. */
  lemma NestedTables(c: Code, i: nat, t: Scope)
    requires i < Literals(c.body) && Ok(t) && t.fn.cells == Own(c) && ToSet(t.freeRefs) == Passed(c)
    requires Separate(t) && NewParameters(c)
    ensures var n := NthLiteral(c.body, i);
            var r := Enter(n.params, n.body, t);
            TablesFor(Nested(c, i), r) && Separate(r) && Distinct(r.fn.free) && Distinct(n.params)
  {
    hide Ok, Enter, Own, Passed, Separate, Distinct, Needed, CellRefs, FreeRefs, CapturedBelow, InsertAll, ScanLocals, ScanGlobals;
    var n := NthLiteral(c.body, i);
    var r := Enter(n.params, n.body, t);
    FreeVariables(n.params, n.body, t);
    CapturedAreNeeded(n.body, t);
    EnterTables(n.params, n.body, t);
    EnterPassed(n.params, n.body, t);
    CapturedDistinct(r.fn.locals, n.body);
    assert NewNames(n.params, t) by { NewInScope(c, i, t); }
    EnterSeparate(n.params, n.body, t);
    assert Own(Nested(c, i)) == CapturedBelow(r.fn.locals, n.body) && Passed(Nested(c, i)) == ToSet(CapturedBelow(r.fn.free, n.body)) by {
      NestedCaptures(c, i);
    }
  }

  lemma NestedCaptures(c: Code, i: nat)
    requires i < Literals(c.body)
    ensures var d := Nested(c, i);
            Own(d) == CapturedBelow(d.locals, d.body) && Passed(d) == ToSet(CapturedBelow(d.free, d.body))
  {
    hide CapturedBelow, Nested;
  }

  lemma NewInScope(c: Code, i: nat, t: Scope)
    requires i < Literals(c.body) && t.fn.cells == Own(c) && ToSet(t.freeRefs) == Passed(c) && NewParameters(c)
    ensures NewNames(NthLiteral(c.body, i).params, t)
  {
    hide Own, Passed, Distinct;
    var params := NthLiteral(c.body, i).params;
    forall x | x in params ensures x !in t.fn.cells && x !in t.freeRefs {
      assert x !in Passed(c);
    }
  }

  /** The literals of a function compiled with the tables of `c` are those of `c`. */
  lemma Inside(c: Code, s: Scope, i: nat) returns (l: Literal)
    requires Ok(s) && TablesFor(c, s) && Separate(s) && NewParameters(c) && s.fn.funcs == [] && Is(BlockSort, c.body) && i < Literals(c.body)
    ensures Compiles(Nested(c, i), l) && Ok(l.scope) && Separate(Entered(l))
    ensures var funcs := Transpile(c.body, false, s).fn.funcs; i < |funcs| && funcs[i] == Compiled(l)
  {
    hide Ok, Transpile, CompileFunction, Enter, SameShape, Separate, Nested, NewParameters, Is, Own, Passed, Distinct;
    TranspileNumbers(c.body, false, s);
    var fn, n := Transpile(c.body, false, s).fn.funcs[i], NthLiteral(c.body, i);
    assert CompiledFrom(fn, n, s);
    var t :| Ok(t) && SameShape(s, t) && fn == CompileFunction(n.params, n.body, t);
    l := Literal(n.params, n.body, t);
    ShapeTables(c, s, t);
    NestedTables(c, i, t);
    SortedBodies(BlockSort, c.body, i);
    NestedIs(c, i);
  }

  lemma NestedIs(c: Code, i: nat)
    requires i < Literals(c.body)
    ensures Nested(c, i).params == NthLiteral(c.body, i).params && Nested(c, i).body == NthLiteral(c.body, i).body
  {
    hide ScanLocals, Needed, InsertAll;
  }

  lemma ShapeTables(c: Code, s: Scope, t: Scope)
    requires SameShape(s, t) && TablesFor(c, s) && Separate(s)
    ensures t.fn.cells == Own(c) && ToSet(t.freeRefs) == Passed(c) && Separate(t)
  {
    hide Own, Passed;
  }
}
