/**
  Captured variables: a closure carries, for each of its function's free variables, the cell
  of the enclosing frame, and a frame's parameters are found where the compiled code looks.
 */
module ClosureConversion {
  import opened Runtime
  import opened Ast
  import opened Bytecode
  import opened NameTables
  import opened Scanners
  import opened BytecodeCompiler
  import opened EmittedCode
  import VM = VirtualMachine

  // ----- which names are captured -----

  /** No name is both a cell of the function's own and a cell it was given. */
  ghost predicate Separate(s: Scope) { forall x :: x in s.fn.cells ==> x !in s.fn.free }

  /** No parameter shares its name with a captured variable of the enclosing function. */
  ghost predicate NewNames(params: seq<string>, s: Scope) {
    forall x :: x in params ==> x !in s.fn.cells && x !in s.freeRefs
  }

  lemma {:induction false} InsertAllNew(v: seq<string>, xs: seq<string>)
    requires Distinct(xs) && forall x :: x in xs ==> x !in v
    ensures InsertAll(v, xs) == v + xs
    decreases |xs|
  {
    hide Distinct;
    if xs != [] {
      var w := v + [xs[0]];
      assert xs[0] in xs && Insert(v, xs[0]) == w;
      assert InsertAll(v, xs) == InsertAll(w, xs[1..]);
      TailNew(v, xs);
      hide InsertAll;
      InsertAllNew(w, xs[1..]);
      assert w + xs[1..] == v + xs;
    } else {
      assert v + xs == v;
    }
  }

  lemma TailNew(v: seq<string>, xs: seq<string>)
    requires Distinct(xs) && xs != [] && forall x :: x in xs ==> x !in v
    ensures Distinct(xs[1..]) && forall x :: x in xs[1..] ==> x !in v + [xs[0]]
  {
    forall j | 0 <= j < |xs| - 1 ensures xs[1..][j] != xs[0] && xs[1..][j] in xs {
      assert xs[1..][j] == xs[j + 1];
    }
  }

  /** The free variables of a nested function: captured cells first, then cells passed on. */
  lemma FreeVariables(params: seq<string>, body: Node, s: Scope)
    requires Ok(s) && Separate(s)
    ensures Enter(params, body, s).fn.free == CellRefs(body, s) + FreeRefs(body, s)
    ensures Distinct(Enter(params, body, s).fn.free)
  {
    hide Enter, CellRefs, FreeRefs;
    var c, f := CellRefs(body, s), FreeRefs(body, s);
    InsertAllNew([], c);
    assert [] + c == c;
    forall x | x in f ensures x !in c {
      assert x in s.fn.free;
    }
    InsertAllNew(c, f);
  }

  /** The tables a function starts with. */
  lemma EnterTables(params: seq<string>, body: Node, s: Scope)
    requires Ok(s)
    ensures var r := Enter(params, body, s);
            var globals := ScanGlobals(body, []);
            var locals := InsertAll(InsertAll([], params), ScanLocals(body, globals, []));
            && r.fn.locals == locals && r.fn.cells == InsertAll([], CapturedBelow(locals, body))
            && r.fn.paramCount == |params|
  {
    hide ScanGlobals, ScanLocals, CapturedBelow, CellRefs, FreeRefs, InsertAll, Depend;
    ScanRefsGrows(body, false, ToSet(InsertAll(InsertAll([], CellRefs(body, s)), FreeRefs(body, s))),
                  RefScan(ToSet(InsertAll(InsertAll([], CellRefs(body, s)), FreeRefs(body, s))), []));
  }

  lemma EnterPassed(params: seq<string>, body: Node, s: Scope)
    requires Ok(s)
    ensures var r := Enter(params, body, s); ToSet(r.freeRefs) == ToSet(CapturedBelow(r.fn.free, body))
  {
    hide ScanGlobals, ScanLocals, CapturedBelow, CellRefs, FreeRefs, Depend;
    ScanRefsGrows(body, false, ToSet(InsertAll(InsertAll([], CellRefs(body, s)), FreeRefs(body, s))),
                  RefScan(ToSet(InsertAll(InsertAll([], CellRefs(body, s)), FreeRefs(body, s))), []));
  }

  /** Captured variables are needed names that the function does not assign itself. */
  lemma CapturedOutside(outer: seq<string>, locals: seq<string>, globals: seq<string>, body: Node, x: string)
    requires x in CapturedFrom(outer, locals, globals, body)
    ensures x in outer && x !in locals && x !in globals
  {
    ScanRefsGrows(body, false, ToSet(outer) - ToSet(locals) - ToSet(globals), RefScan({}, []));
    hide ScanRefs;
  }

  lemma CapturedInside(vars: seq<string>, body: Node, x: string)
    requires x in CapturedBelow(vars, body)
    ensures x in vars
  {
    ScanRefsGrows(body, false, ToSet(vars), RefScan(ToSet(vars), []));
    hide ScanRefs;
  }

  lemma FreeNotAssigned(body: Node, s: Scope, x: string)
    requires x in CellRefs(body, s) || x in FreeRefs(body, s)
    ensures x !in ScanLocals(body, ScanGlobals(body, []), [])
    ensures x in s.fn.cells || x in s.freeRefs
  {
    var globals := ScanGlobals(body, []);
    var locals := ScanLocals(body, globals, []);
    hide ScanGlobals, ScanLocals, CapturedFrom;
    if x in CellRefs(body, s) {
      CapturedOutside(s.fn.cells, locals, globals, body, x);
    } else {
      CapturedOutside(s.freeRefs, locals, globals, body, x);
    }
  }

  /** With new parameter names the two kinds of cells stay apart at every nesting depth. */
  lemma EnterSeparate(params: seq<string>, body: Node, s: Scope)
    requires Ok(s) && Separate(s) && NewNames(params, s)
    ensures Separate(Enter(params, body, s))
    ensures forall x :: x in params ==> x !in Enter(params, body, s).fn.free
  {
    FreeVariables(params, body, s);
    EnterTables(params, body, s);
    var r := Enter(params, body, s);
    hide Enter, CellRefs, FreeRefs, ScanGlobals, ScanLocals, CapturedBelow, InsertAll;
    forall x | x in r.fn.free ensures x !in r.fn.locals {
      FreeNotAssigned(body, s, x);
    }
    forall x | x in r.fn.cells ensures x in r.fn.locals {
      CapturedInside(r.fn.locals, body, x);
    }
  }

  // ----- cells at run time -----

  /** The place of a captured name among a frame's cells. */
  function CellIndex(s: Scope, x: string): (k: nat)
    requires x in s.fn.free || x in s.fn.cells
    ensures k < |s.fn.cells| + |s.fn.free|
  {
    if x in s.fn.free then |s.fn.cells| + IndexOf(s.fn.free, x) else IndexOf(s.fn.cells, x)
  }

  ghost predicate FrameCells(s: Scope, refs: seq<nat>, w: World) {
    && |refs| == |s.fn.cells| + |s.fn.free|
    && forall k :: 0 <= k < |refs| ==> refs[k] < |w.objs| && w.objs[refs[k]].CellObj?
  }

  /** The cell of a name of one of the tables. */
  function CellOf(table: seq<string>, base: nat, refs: seq<nat>, x: string): nat {
    if x in table && base + IndexOf(table, x) < |refs| then refs[base + IndexOf(table, x)] else 0
  }

  /** The cells of some names, looked up in one of the tables. */
  function CellList(names: seq<string>, table: seq<string>, base: nat, refs: seq<nat>): (cs: seq<nat>)
    ensures |cs| == |names| && forall j :: 0 <= j < |names| ==> cs[j] == CellOf(table, base, refs, names[j])
  {
    seq(|names|, j requires 0 <= j < |names| => CellOf(table, base, refs, names[j]))
  }

  /** Pointers to cells, the first one on top. */
  function Backwards(cs: seq<nat>): (vs: seq<Value>)
    ensures |vs| == |cs| && forall j :: 0 <= j < |cs| ==> vs[j] == PtrV(cs[|cs| - 1 - j])
  {
    seq(|cs|, j requires 0 <= j < |cs| => PtrV(cs[|cs| - 1 - j]))
  }

  /** The pushes of MakeClosure, run. */
  lemma {:induction false} PushRefsRun(a: VM.Activation, names: seq<string>, table: seq<string>, base: nat, s: Scope, st: VM.State)
    requires Ok(s) && (forall x :: x in names ==> x in table) && base + |table| <= |a.refs|
    requires st.ip == |s.fn.code| && Within(PushRefs(names, table, base, s), a.fn)
    ensures VM.Run(a, st, |names|)
            == VM.Running(After(st, PushRefs(names, table, base, s), Backwards(CellList(names, table, base, a.refs)), st.world))
    decreases |names|
  {
    hide Ok, Grows, Within, VM.Run, Backwards, IndexOf, CellList;
    if names == [] {
      NoRefs(a, table, base, s, st);
    } else {
      var k := |names| - 1;
      assert names[k] in names;
      var c := a.refs[base + IndexOf(table, names[k])];
      var i := PushReference(base + IndexOf(table, names[k]));
      var s1 := Emit(s, i);
      var r := PushRefs(names[..k], table, base, s1);
      WithinGrows(s1, r, a.fn);
      StepEmitted(a, s, i, st);
      var st1 := After(st, s1, [PtrV(c)], st.world);
      assert st.stack[..|st.stack|] == st.stack;
      PushRefsRun(a, names[..k], table, base, s1, st1);
      Join(a, st, 1, st1, k);
      LastRef(names, table, base, a.refs, st.stack);
    }
  }

  lemma NoRefs(a: VM.Activation, table: seq<string>, base: nat, s: Scope, st: VM.State)
    requires base + |table| <= |a.refs| && st.ip == |s.fn.code|
    ensures VM.Run(a, st, 0) == VM.Running(After(st, s, Backwards(CellList([], table, base, a.refs)), st.world))
  {
    assert Backwards(CellList([], table, base, a.refs)) == [];
    assert st.stack + [] == st.stack;
  }

  lemma LastRef(names: seq<string>, table: seq<string>, base: nat, refs: seq<nat>, stack: seq<Value>)
    requires names != []
    ensures var k := |names| - 1;
            (stack + [PtrV(CellOf(table, base, refs, names[k]))]) + Backwards(CellList(names[..k], table, base, refs))
            == stack + Backwards(CellList(names, table, base, refs))
  {
    hide CellOf;
    var k := |names| - 1;
    var c := CellOf(table, base, refs, names[k]);
    var rest, all := CellList(names[..k], table, base, refs), CellList(names, table, base, refs);
    assert all == rest + [c];
    hide CellList;
    LastBackwards(rest, c, stack);
  }

  lemma LastBackwards(rest: seq<nat>, c: nat, stack: seq<Value>)
    ensures (stack + [PtrV(c)]) + Backwards(rest) == stack + Backwards(rest + [c])
  {
    assert Backwards(rest + [c]) == [PtrV(c)] + Backwards(rest);
  }

  lemma {:induction false} PopPushed(w: World, stack: seq<Value>, cs: seq<nat>)
    requires Held(cs, w)
    ensures |stack + Backwards(cs)| >= |cs| && VM.PopCells(w, stack + Backwards(cs), |cs|) == Some(cs)
    decreases |cs|
  {
    var all := stack + Backwards(cs);
    if cs != [] {
      PopPushed(w, stack, cs[1..]);
      assert all[|all| - 1] == PtrV(cs[0]);
      assert all[..|all| - 1] == stack + Backwards(cs[1..]);
      assert cs == [cs[0]] + cs[1..];
    }
  }

  // ----- building a closure -----

  /** The cells a closure of the nested function is to carry. */
  function ClosureCells(body: Node, s: Scope, refs: seq<nat>): seq<nat>
    requires Ok(s) && |refs| == |s.fn.cells| + |s.fn.free|
  {
    CellList(CellRefs(body, s), s.fn.cells, 0, refs) + CellList(FreeRefs(body, s), s.fn.free, |s.fn.cells|, refs)
  }

  /** Names of the two tables and the cells looked up for them go together. */
  lemma CellAt(s: Scope, c: seq<string>, f: seq<string>, refs: seq<nat>, i: nat)
    requires Separate(s) && |refs| == |s.fn.cells| + |s.fn.free| && i < |c + f|
    requires (forall x :: x in c ==> x in s.fn.cells) && (forall x :: x in f ==> x in s.fn.free)
    ensures var x := (c + f)[i];
            && (x in s.fn.cells || x in s.fn.free)
            && (CellList(c, s.fn.cells, 0, refs) + CellList(f, s.fn.free, |s.fn.cells|, refs))[i] == refs[CellIndex(s, x)]
  {
    if i < |c| {
      assert c[i] in c;
    } else {
      assert f[i - |c|] in f;
    }
  }

  /** One cell for each free variable: the enclosing frame's own cell of that name. */
  lemma ClosureCellsAre(params: seq<string>, body: Node, s: Scope, refs: seq<nat>, i: nat)
    requires Ok(s) && Separate(s) && |refs| == |s.fn.cells| + |s.fn.free|
    requires i < |Enter(params, body, s).fn.free|
    ensures |ClosureCells(body, s, refs)| == |Enter(params, body, s).fn.free|
    ensures var x := Enter(params, body, s).fn.free[i];
            (x in s.fn.cells || x in s.fn.free) && ClosureCells(body, s, refs)[i] == refs[CellIndex(s, x)]
  {
    hide *;
    FreeVariables(params, body, s);
    TablesKept(FreeRefs(body, s), s);
    CellAt(s, CellRefs(body, s), FreeRefs(body, s), refs, i);
    CellsSplit(body, s, refs);
  }

  lemma CellsSplit(body: Node, s: Scope, refs: seq<nat>)
    requires Ok(s) && |refs| == |s.fn.cells| + |s.fn.free|
    ensures (forall x :: x in CellRefs(body, s) ==> x in s.fn.cells) && (forall x :: x in FreeRefs(body, s) ==> x in s.fn.free)
    ensures ClosureCells(body, s, refs)
            == CellList(CellRefs(body, s), s.fn.cells, 0, refs) + CellList(FreeRefs(body, s), s.fn.free, |s.fn.cells|, refs)
    ensures |ClosureCells(body, s, refs)| == |CellRefs(body, s)| + |FreeRefs(body, s)|
  {
    hide CellRefs, FreeRefs;
  }

  lemma JoinBackwards(stack: seq<Value>, c: seq<nat>, f: seq<nat>)
    ensures (stack + Backwards(f)) + Backwards(c) == stack + Backwards(c + f)
  {
  }

  /** The scope after the pushes of a closure. */
  function Pushed(body: Node, inner: Scope, s: Scope): (r: Scope)
    requires Ok(s) && s.nextLabel <= inner.nextLabel
    ensures Ok(r) && Grows(s, r)
  {
    var s1 := AddFunction(s, inner);
    var s2 := PushRefs(FreeRefs(body, s), s.fn.free, |s.fn.cells|, s1);
    var s3 := PushRefs(CellRefs(body, s), s.fn.cells, 0, s2);
    GrowsTrans(s, s1, s2);
    GrowsTrans(s, s2, s3);
    s3
  }

  lemma PushedRun(a: VM.Activation, body: Node, inner: Scope, s: Scope, st: VM.State)
    requires Ok(s) && s.nextLabel <= inner.nextLabel && |a.refs| == |s.fn.cells| + |s.fn.free|
    requires st.ip == |s.fn.code| && Within(Pushed(body, inner, s), a.fn)
    ensures VM.Run(a, st, |FreeRefs(body, s)| + |CellRefs(body, s)|)
            == VM.Running(After(st, Pushed(body, inner, s), Backwards(ClosureCells(body, s, a.refs)), st.world))
  {
    hide Ok, Grows, Within, CellRefs, FreeRefs, VM.Run, PushRefs, Backwards, CellList;
    var c, f := CellRefs(body, s), FreeRefs(body, s);
    TablesKept(f, s);
    var s1 := AddFunction(s, inner);
    var s2 := PushRefs(f, s.fn.free, |s.fn.cells|, s1);
    var s3 := PushRefs(c, s.fn.cells, 0, s2);
    WithinGrows(s2, s3, a.fn);
    PushRefsRun(a, f, s.fn.free, |s.fn.cells|, s1, st);
    var cs, fs := CellList(c, s.fn.cells, 0, a.refs), CellList(f, s.fn.free, |s.fn.cells|, a.refs);
    var st1 := After(st, s2, Backwards(fs), st.world);
    PushRefsRun(a, c, s.fn.cells, 0, s2, st1);
    Join(a, st, |f|, st1, |c|);
    JoinBackwards(st.stack, cs, fs);
  }

  lemma TablesKept(names: seq<string>, s: Scope)
    requires Ok(s) && forall x :: x in names ==> x in s.freeRefs
    ensures forall x :: x in names ==> x in s.fn.free
  {
  }

  ghost predicate Held(cs: seq<nat>, w: World) { forall j :: 0 <= j < |cs| ==> cs[j] < |w.objs| && w.objs[cs[j]].CellObj? }

  /** All cells of a closure are cells of the frame. */
  lemma ClosureCellsHeld(body: Node, s: Scope, refs: seq<nat>, w: World)
    requires Ok(s) && FrameCells(s, refs, w) && |refs| == |s.fn.cells| + |s.fn.free|
    ensures Held(ClosureCells(body, s, refs), w)
  {
    hide CellRefs, FreeRefs;
    var c, f := CellRefs(body, s), FreeRefs(body, s);
    assert forall j :: 0 <= j < |c| ==> c[j] in s.fn.cells;
    assert forall j :: 0 <= j < |f| ==> f[j] in s.fn.free;
  }

  /** The last two instructions: the bare function, and the closure with its cells. */
  lemma AllocRun(a: VM.Activation, s: Scope, index: nat, cs: seq<nat>, st: VM.State, base: seq<Value>)
    requires Ok(s) && st.ip == |s.fn.code| && index < |a.fn.funcs| && st.stack == base + Backwards(cs)
    requires Within(Emit2(s, LoadFunc(index), AllocClosure(|cs|)), a.fn)
    requires Held(cs, st.world)
    ensures var w := st.world.(objs := st.world.objs + [BareObj(a.self + [index])] + [ClosureObj(a.self + [index], cs)]);
            VM.Run(a, st, 2) == VM.Running(VM.State(|s.fn.code| + 2, base + [PtrV(|st.world.objs| + 1)], st.locals, w))
  {
    hide Ok, Grows, Within, Backwards, Held, VM.PopCells, VM.Execute, VM.Run, VM.Step;
    var s1 := Emit(s, LoadFunc(index));
    var r := Emit(s1, AllocClosure(|cs|));
    WithinGrows(s1, r, a.fn);
    StepEmitted(a, s, LoadFunc(index), st);
    var fn := PtrV(|st.world.objs|);
    var w1 := st.world.(objs := st.world.objs + [BareObj(a.self + [index])]);
    var st1 := VM.State(|s.fn.code| + 1, st.stack + [fn], st.locals, w1);
    LoadsBare(a, index, st);
    StepEmitted(a, s1, AllocClosure(|cs|), st1);
    HeldMore(cs, st.world, st1.world);
    AllocExecutes(a, a.self + [index], cs, st1, base);
    Join(a, st, 1, st1, 1);
  }

  lemma LoadsBare(a: VM.Activation, index: nat, st: VM.State)
    requires index < |a.fn.funcs|
    ensures VM.Execute(a, LoadFunc(index), st)
            == VM.Running(VM.State(st.ip + 1, st.stack + [PtrV(|st.world.objs|)], st.locals,
                                   st.world.(objs := st.world.objs + [BareObj(a.self + [index])])))
  {
    assert st.stack[..|st.stack|] == st.stack;
  }

  lemma HeldMore(cs: seq<nat>, w: World, w1: World)
    requires Held(cs, w) && w.objs <= w1.objs
    ensures Held(cs, w1)
  {
  }

  /** AllocClosure over the bare function and the pushed cells. */
  lemma AllocExecutes(a: VM.Activation, f: FnPath, cs: seq<nat>, st: VM.State, base: seq<Value>)
    requires Held(cs, st.world) && |st.world.objs| > 0 && st.world.objs[|st.world.objs| - 1] == BareObj(f)
    requires st.stack == (base + Backwards(cs)) + [PtrV(|st.world.objs| - 1)] && 1 + |cs| <= |st.stack|
    ensures VM.Execute(a, AllocClosure(|cs|), st)
            == VM.Running(VM.State(st.ip + 1, base + [PtrV(|st.world.objs|)], st.locals,
                                   st.world.(objs := st.world.objs + [ClosureObj(f, cs)])))
  {
    hide Backwards, VM.PopCells, Held;
    PopPushed(st.world, base, cs);
    assert st.stack[..|st.stack| - 1] == base + Backwards(cs);
    assert st.stack[..|base|] == base;
  }

  /** The machine behind the code that builds a closure. */
  function Built(a: VM.Activation, body: Node, inner: Scope, s: Scope, st: VM.State): VM.State
    requires Ok(s) && s.nextLabel <= inner.nextLabel && |a.refs| == |s.fn.cells| + |s.fn.free|
  {
    var f := a.self + [|s.fn.funcs|];
    VM.State(|MakeClosure(body, inner, s).fn.code|, st.stack + [PtrV(|st.world.objs| + 1)], st.locals,
             st.world.(objs := st.world.objs + [BareObj(f)] + [ClosureObj(f, ClosureCells(body, s, a.refs))]))
  }

  lemma ClosureRun(a: VM.Activation, body: Node, inner: Scope, s: Scope, st: VM.State) returns (k: nat)
    requires Ok(s) && s.nextLabel <= inner.nextLabel && |a.refs| == |s.fn.cells| + |s.fn.free| && Held(ClosureCells(body, s, a.refs), st.world)
    requires st.ip == |s.fn.code| && Within(MakeClosure(body, inner, s), a.fn)
    ensures VM.Run(a, st, k) == VM.Running(Built(a, body, inner, s, st))
  {
    hide *;
    FunctionStays(body, inner, s);
    FunctionWithin(a.fn, body, inner, s);
    CellsSplit(body, s, a.refs);
    ClosureCode(body, inner, s);
    var s3, cs := Pushed(body, inner, s), ClosureCells(body, s, a.refs);
    var r := Emit2(s3, LoadFunc(|s.fn.funcs|), AllocClosure(|cs|));
    WithinGrows(s3, r, a.fn);
    PushedRun(a, body, inner, s, st);
    k := |FreeRefs(body, s)| + |CellRefs(body, s)|;
    var st2 := VM.State(|s3.fn.code|, st.stack + Backwards(cs), st.locals, st.world);
    AfterIs(st, s3, Backwards(cs), st.world);
    AllocRun(a, s3, |s.fn.funcs|, cs, st2, st.stack);
    Join(a, st, k, st2, 2);
    BuiltIs(a, body, inner, s, st);
    k := k + 2;
  }

  lemma AfterIs(st: VM.State, r: Scope, push: seq<Value>, w: World)
    ensures After(st, r, push, w) == VM.State(|r.fn.code|, st.stack + push, st.locals, w)
  {
  }

  lemma BuiltIs(a: VM.Activation, body: Node, inner: Scope, s: Scope, st: VM.State)
    requires Ok(s) && s.nextLabel <= inner.nextLabel && |a.refs| == |s.fn.cells| + |s.fn.free|
    ensures var f := a.self + [|s.fn.funcs|];
            Built(a, body, inner, s, st)
            == VM.State(|Pushed(body, inner, s).fn.code| + 2, st.stack + [PtrV(|st.world.objs| + 1)], st.locals,
                        st.world.(objs := st.world.objs + [BareObj(f)] + [ClosureObj(f, ClosureCells(body, s, a.refs))]))
  {
    hide Ok, Pushed, MakeClosure, ClosureCells;
    FunctionStays(body, inner, s);
  }

  lemma ClosureCode(body: Node, inner: Scope, s: Scope)
    requires Ok(s) && s.nextLabel <= inner.nextLabel
    ensures var s3 := Pushed(body, inner, s);
            MakeClosure(body, inner, s) == Emit2(s3, LoadFunc(|s.fn.funcs|), AllocClosure(|CellRefs(body, s)| + |FreeRefs(body, s)|))
  {
    hide Ok, Grows, CellRefs, FreeRefs, PushRefs, AddFunction, Emit2;
  }

  /**
    Running the code that builds a closure leaves a closure object whose cells are, one for
    each free variable of the nested function, the cells of the enclosing frame.
   */
  lemma ClosureBuilt(a: VM.Activation, params: seq<string>, body: Node, inner: Scope, s: Scope, st: VM.State)
      returns (k: nat, st1: VM.State)
    requires Ok(s) && Separate(s) && s.nextLabel <= inner.nextLabel && FrameCells(s, a.refs, st.world)
    requires st.ip == |s.fn.code| && Within(MakeClosure(body, inner, s), a.fn)
    ensures VM.Run(a, st, k) == VM.Running(st1) && st1.ip == |MakeClosure(body, inner, s).fn.code|
    ensures st1.stack == st.stack + [PtrV(|st.world.objs| + 1)] && |st1.world.objs| == |st.world.objs| + 2
    ensures var o := st1.world.objs[|st.world.objs| + 1];
            o.ClosureObj? && o.fn == a.self + [|s.fn.funcs|] && CarriesCells(params, body, s, a.refs, o.cells)
    ensures |a.fn.funcs| > |s.fn.funcs| && a.fn.funcs[|s.fn.funcs|] == inner.fn
  {
    hide *;
    SameShapes(s, a.refs, st.world);
    FunctionStays(body, inner, s);
    FunctionWithin(a.fn, body, inner, s);
    ClosureCellsHeld(body, s, a.refs, st.world);
    k := ClosureRun(a, body, inner, s, st);
    st1 := Built(a, body, inner, s, st);
    BuiltIs(a, body, inner, s, st);
    AllCarried(params, body, s, a.refs);
  }

  lemma AllCarried(params: seq<string>, body: Node, s: Scope, refs: seq<nat>)
    requires Ok(s) && Separate(s) && |refs| == |s.fn.cells| + |s.fn.free|
    ensures CarriesCells(params, body, s, refs, ClosureCells(body, s, refs))
  {
    hide Ok, Separate, Enter, ClosureCells, CellIndex;
    ClosureLength(params, body, s, refs);
    forall i | 0 <= i < |Enter(params, body, s).fn.free|
      ensures var x := Enter(params, body, s).fn.free[i];
              (x in s.fn.cells || x in s.fn.free) && ClosureCells(body, s, refs)[i] == refs[CellIndex(s, x)]
    {
      ClosureCellsAre(params, body, s, refs, i);
    }
  }

  /** One cell for each free variable of the nested function: the enclosing frame's cell of that name. */
  ghost predicate CarriesCells(params: seq<string>, body: Node, s: Scope, refs: seq<nat>, cells: seq<nat>)
    requires Ok(s)
  {
    var free := Enter(params, body, s).fn.free;
    && |cells| == |free| && |refs| == |s.fn.cells| + |s.fn.free|
    && forall i :: 0 <= i < |free| ==> (free[i] in s.fn.cells || free[i] in s.fn.free) && cells[i] == refs[CellIndex(s, free[i])]
  }

  lemma ClosureLength(params: seq<string>, body: Node, s: Scope, refs: seq<nat>)
    requires Ok(s) && Separate(s) && |refs| == |s.fn.cells| + |s.fn.free|
    ensures |ClosureCells(body, s, refs)| == |Enter(params, body, s).fn.free|
  {
    FreeVariables(params, body, s);
    hide Enter, CellRefs, FreeRefs;
  }

  lemma SameShapes(s: Scope, refs: seq<nat>, w: World)
    requires FrameCells(s, refs, w)
    ensures |refs| == |s.fn.cells| + |s.fn.free|
  {
  }

  lemma FunctionWithin(fn: Fn, body: Node, inner: Scope, s: Scope)
    requires Ok(s) && s.nextLabel <= inner.nextLabel && Within(MakeClosure(body, inner, s), fn)
    ensures |fn.funcs| > |s.fn.funcs| && fn.funcs[|s.fn.funcs|] == inner.fn
  {
    hide Ok, Grows, MakeClosure;
    assert fn.funcs[..|s.fn.funcs| + 1][|s.fn.funcs|] == inner.fn;
  }

  lemma FunctionStays(body: Node, inner: Scope, s: Scope)
    requires Ok(s) && s.nextLabel <= inner.nextLabel
    ensures var r := MakeClosure(body, inner, s); |r.fn.funcs| > |s.fn.funcs| && r.fn.funcs[|s.fn.funcs|] == inner.fn
    ensures |MakeClosure(body, inner, s).fn.code| == |Pushed(body, inner, s).fn.code| + 2
  {
    hide Ok, CellRefs, FreeRefs, PushRefs;
  }
}
