/**
  Whole programs with nested functions: on the source side closures are made where their
  literal is evaluated and a call evaluates the callee's body; on the compiled side the same
  closures are made by the machine, and a call runs the callee's code in a frame of its own.
 */
module ProgramRuns {
  import opened Runtime
  import opened Ast
  import opened NameTables
  import opened Scanners
  import opened BytecodeCompiler
  import opened CompilerCorrectness
  import opened ClosureConversion
  import opened CallFrames
  import opened CalleeFrames
  import opened EmittedCode
  import opened SourcePrograms
  import opened ResolvedPrograms
  import StatementCorrectness
  import B = Bytecode
  import VM = VirtualMachine
  import Walker = TreeWalker

  // ----- more steps and deeper calls change nothing -----

  /** Wherever the one answers a call, the other gives the same answer. */
  ghost predicate Answers(x: Externals, y: Externals) {
    y.text == x.text && forall w, v, args :: x.call(w, v, args).Some? ==> y.call(w, v, args) == x.call(w, v, args)
  }

  lemma StepAnswers(a: VM.Activation, y: Externals, st: VM.State)
    requires Answers(a.x, y) && !VM.Step(a, st).Thrown?
    ensures VM.Step(a.(x := y), st) == VM.Step(a, st)
  {
    hide VM.PopCells, RecordGet, RecordInsert, CellRead, CellWrite;
    if st.ip < |a.fn.code| && VM.Pops(a.fn.code[st.ip]) <= |st.stack| {
      ExecuteAnswers(a, y, a.fn.code[st.ip], st);
      hide VM.Execute;
    }
  }

  lemma TextAnswers(x: Externals, y: Externals, w: World, v: Value)
    requires y.text == x.text
    ensures Text(y, w, v) == Text(x, w, v)
  {
  }

  lemma ExecuteAnswers(a: VM.Activation, y: Externals, i: B.Instr, st: VM.State)
    requires Answers(a.x, y) && VM.Pops(i) <= |st.stack| && !VM.Execute(a, i, st).Thrown?
    ensures VM.Execute(a.(x := y), i, st) == VM.Execute(a, i, st)
  {
    if i.Call? {
      CallAnswers(a, y, i.count, st);
    } else {
      hide VM.Execute;
      ExecuteSame(a, y, i, st);
    }
  }

  lemma CallAnswers(a: VM.Activation, y: Externals, k: nat, st: VM.State)
    requires Answers(a.x, y) && 1 + k <= |st.stack| && !VM.Execute(a, B.Call(k), st).Thrown?
    ensures VM.Execute(a.(x := y), B.Call(k), st) == VM.Execute(a, B.Call(k), st)
  {
  }

  /** Instructions other than calls see only the texts. */
  lemma ExecuteSame(a: VM.Activation, y: Externals, i: B.Instr, st: VM.State)
    requires y.text == a.x.text && VM.Pops(i) <= |st.stack| && !i.Call?
    ensures VM.Execute(a.(x := y), i, st) == VM.Execute(a, i, st)
  {
    if i.Bin? {
      OperateAnswers(a, y, i.bop, st);
    } else if i.IndexLoad? || i.IndexStore? {
      TextAnswers(a.x, y, st.world, st.stack[|st.stack| - (if i.IndexLoad? then 1 else 2)]);
      hide Text, RecordGet, RecordInsert;
    } else if i.LoadFunc? {
      assert VM.FunctionObject(a.(x := y), i.fn) == VM.FunctionObject(a, i.fn);
      hide VM.FunctionObject;
    } else {
      hide VM.PopCells, RecordGet, RecordInsert, CellRead, CellWrite, Text, Unary, VM.BareAt, VM.FunctionObject, VM.Operate;
    }
  }

  lemma OperateAnswers(a: VM.Activation, y: Externals, op: BinOp, st: VM.State)
    requires y.text == a.x.text && |st.stack| >= 2
    ensures VM.Execute(a.(x := y), B.Bin(op), st) == VM.Execute(a, B.Bin(op), st)
  {
    var l, r := st.stack[|st.stack| - 2], st.stack[|st.stack| - 1];
    TextAnswers(a.x, y, st.world, l);
    TextAnswers(a.x, y, st.world, r);
    hide Text;
    assert VM.Operate(a.(x := y), st.world, op, l, r) == VM.Operate(a, st.world, op, l, r);
  }

  /** A run that ends well ends so with better answers, and with more steps. */
  lemma {:induction false} RunAnswers(a: VM.Activation, y: Externals, st: VM.State, n: nat, m: nat)
    requires Answers(a.x, y) && VM.Run(a, st, n).Done? && n <= m
    ensures VM.Run(a.(x := y), st, m) == VM.Run(a, st, n)
    decreases n
  {
    hide VM.Step, Answers;
    StepAnswers(a, y, st);
    if VM.Step(a, st).Running? {
      RunAnswers(a, y, VM.Step(a, st).state, n - 1, m - 1);
    }
  }

  // ----- calls of compiled functions -----

  /** The function record at a path, along the function tables. */
  function FnAt(main: B.Fn, path: FnPath): Option<B.Fn>
    decreases |path|
  {
    if path == [] then Some(main) else
    var outer :- FnAt(main, path[..|path| - 1]);
    var i := path[|path| - 1];
    if 0 <= i < |outer.funcs| then Some(outer.funcs[i]) else None
  }

  /** A resolved program has resolved code at every path. */
  lemma {:induction false} ResolvedAt(main: B.Fn, path: FnPath)
    requires ResolvedAll(main) && FnAt(main, path).Some?
    ensures ResolvedAll(FnAt(main, path).value) && Resolved(FnAt(main, path).value.code)
    decreases |path|
  {
    if path != [] {
      var outer := path[..|path| - 1];
      ResolvedAt(main, outer);
      assert FnAt(main, path).value in FnAt(main, outer).value.funcs;
    }
  }

  /** The callee of a call and the frame that is set up for it; None for an exception. */
  ghost function Callee(main: B.Fn, path: FnPath, cells: seq<nat>, args: seq<Value>, w: World): Option<(B.Fn, CallFrames.Frame)> {
    var fn :- FnAt(main, path);
    if path == [] || !Shaped(fn) || |fn.free| > |cells| then None
    else
      var f :- CallFrame(fn, cells, args, w);
      Some((fn, f))
  }

  /** Answers that calls of compiled functions give. */
  ghost function CompiledExternals(main: B.Fn, o: Outside, k: nat): Externals
    decreases k, 1
  {
    Externals((w, v, args) => CompiledCall(main, o, k, w, v, args), o.text)
  }

  /** A call sets up the callee's frame and runs its code, nested at most `k` calls deep and for `k` steps. */
  ghost function CompiledCall(main: B.Fn, o: Outside, k: nat, w: World, v: Value, args: seq<Value>): Option<(Value, World)>
    decreases k, 0
  {
    if k == 0 then None else
    match ClosureAt(w, v)
    case None => o.native(w, v, args)
    case Some((path, cells)) =>
      var (fn, f) :- Callee(main, path, cells, args, w);
      MachineAnswer(VM.Run(EntryOf(CompiledExternals(main, o, k - 1), fn, path, f), Start(f), k))
  }

  function EntryOf(x: Externals, fn: B.Fn, path: FnPath, f: CallFrames.Frame): VM.Activation {
    VM.Activation(x, fn, path, f.refs, false)
  }

  function Start(f: CallFrames.Frame): VM.State { VM.State(0, [], f.locals, f.world) }

  function MachineAnswer(r: VM.Outcome): Option<(Value, World)> {
    if r.Done? then Some((r.result, r.world)) else None
  }

  /** Deeper calls answer all that shallower ones do. */
  lemma {:induction false} DeeperAnswers(main: B.Fn, o: Outside, j: nat, k: nat)
    requires j <= k
    ensures Answers(CompiledExternals(main, o, j), CompiledExternals(main, o, k))
    decreases j
  {
    hide CompiledCall;
    NoneShallow(main, o);
    if j > 0 { DeeperAnswers(main, o, j - 1, k - 1); }
    forall w, v, args | CompiledCall(main, o, j, w, v, args).Some?
      ensures CompiledCall(main, o, k, w, v, args) == CompiledCall(main, o, j, w, v, args)
    {
      hide Answers, CompiledExternals;
      DeeperCall(main, o, j, k, w, v, args);
    }
  }

  lemma NoneShallow(main: B.Fn, o: Outside)
    ensures forall w, v, args :: CompiledCall(main, o, 0, w, v, args).None?
  {
  }

  lemma DeeperCall(main: B.Fn, o: Outside, j: nat, k: nat, w: World, v: Value, args: seq<Value>)
    requires 0 < j <= k && Answers(CompiledExternals(main, o, j - 1), CompiledExternals(main, o, k - 1))
    requires CompiledCall(main, o, j, w, v, args).Some?
    ensures CompiledCall(main, o, k, w, v, args) == CompiledCall(main, o, j, w, v, args)
  {
    hide Callee, VM.Run, ClosureAt, Answers, CompiledExternals;
    if ClosureAt(w, v).Some? {
      var (path, cells) := ClosureAt(w, v).value;
      var (fn, f) := Callee(main, path, cells, args, w).value;
      RunAnswers(EntryOf(CompiledExternals(main, o, j - 1), fn, path, f), CompiledExternals(main, o, k - 1), Start(f), j, k);
    }
  }

  // ----- source calls are compiled calls -----

  /** The call an instruction makes. */
  function CallAt(a: VM.Activation, st: VM.State): Option<(Value, seq<Value>)> {
    if st.ip < |a.fn.code| && a.fn.code[st.ip].Call? && 1 + a.fn.code[st.ip].count <= |st.stack| then
      var n, k := |st.stack|, a.fn.code[st.ip].count;
      Some((st.stack[n - 1], st.stack[n - 1 - k..n - 1]))
    else None
  }

  /** A step depends on the answers only where it makes a call. */
  lemma StepOne(a: VM.Activation, y: Externals, st: VM.State)
    requires y.text == a.x.text
    requires CallAt(a, st).Some? ==>
               y.call(st.world, CallAt(a, st).value.0, CallAt(a, st).value.1) == a.x.call(st.world, CallAt(a, st).value.0, CallAt(a, st).value.1)
    ensures VM.Step(a.(x := y), st) == VM.Step(a, st)
  {
    if st.ip < |a.fn.code| && VM.Pops(a.fn.code[st.ip]) <= |st.stack| {
      var i := a.fn.code[st.ip];
      if i.Call? {
        SameAnswer(a, y, i.count, st);
      } else {
        hide VM.Execute;
        ExecuteSame(a, y, i, st);
      }
    }
  }

  lemma SameAnswer(a: VM.Activation, y: Externals, k: nat, st: VM.State)
    requires 1 + k <= |st.stack|
    requires var n := |st.stack|;
             y.call(st.world, st.stack[n - 1], st.stack[n - 1 - k..n - 1]) == a.x.call(st.world, st.stack[n - 1], st.stack[n - 1 - k..n - 1])
    ensures VM.Execute(a.(x := y), B.Call(k), st) == VM.Execute(a, B.Call(k), st)
  {
  }

  lemma CallSucceeds(a: VM.Activation, st: VM.State)
    requires CallAt(a, st).Some? && !VM.Step(a, st).Thrown?
    ensures a.x.call(st.world, CallAt(a, st).value.0, CallAt(a, st).value.1).Some?
  {
  }

  /** What the theorems ask of a program: that the grammar made it, new parameter names, and only names that can be used where they stand. */
  ghost predicate Sound(block: Node) {
    Is(BlockSort, block) && NewParametersAll(Main(block)) && AllClear(block)
  }

  /** A run on source calls that ends well is a run on compiled calls, deep enough ones. */
  lemma {:induction false} RunOk(block: Node, o: Outside, k: nat, a: VM.Activation, st: VM.State, n: nat) returns (j: nat)
    requires Sound(block) && a.x == SourceExternals(Main(block), o, k) && VM.Run(a, st, n).Done?
    ensures VM.Run(a.(x := CompiledExternals(CompileProgram(block), o, j)), st, n) == VM.Run(a, st, n)
    decreases k, 1, n
  {
    hide VM.Step, CallAt, SourceCall, CompiledCall, Sound, CompileProgram;
    var main := CompileProgram(block);
    j := 0;
    if CallAt(a, st).Some? && !VM.Step(a, st).Thrown? {
      CallSucceeds(a, st);
      j := CallOk(block, o, k, st.world, CallAt(a, st).value.0, CallAt(a, st).value.1);
    }
    StepOne(a, CompiledExternals(main, o, j), st);
    if VM.Step(a, st).Running? {
      var next := VM.Step(a, st).state;
      var i := RunOk(block, o, k, a, next, n - 1);
      var m := if i < j then j else i;
      DeeperAnswers(main, o, i, m);
      DeeperAnswers(main, o, j, m);
      RunAnswers(a.(x := CompiledExternals(main, o, i)), CompiledExternals(main, o, m), next, n - 1, n - 1);
      StepDeeper(main, o, a, st, j, m);
      j := m;
    }
  }

  lemma StepDeeper(main: B.Fn, o: Outside, a: VM.Activation, st: VM.State, j: nat, m: nat)
    requires Answers(CompiledExternals(main, o, j), CompiledExternals(main, o, m))
    requires VM.Step(a.(x := CompiledExternals(main, o, j)), st).Running?
    ensures VM.Step(a.(x := CompiledExternals(main, o, m)), st) == VM.Step(a.(x := CompiledExternals(main, o, j)), st)
  {
    hide VM.Step, Answers, CompiledExternals;
    StepAnswers(a.(x := CompiledExternals(main, o, j)), CompiledExternals(main, o, m), st);
  }

  /**
    A call whose source evaluation ends without an exception, however functions make closures
    and call each other and themselves in it, ends in compiled code with the same value and
    the same world.
   */
  lemma {:induction false} CallOk(block: Node, o: Outside, k: nat, w: World, v: Value, args: seq<Value>) returns (j: nat)
    requires Sound(block) && SourceCall(Main(block), o, k, w, v, args).Some?
    ensures CompiledCall(CompileProgram(block), o, j, w, v, args) == SourceCall(Main(block), o, k, w, v, args)
    decreases k, 0, 0
  {
    hide Callee, VM.Run, ClosureAt, Answers, CompiledExternals, SourceExternals, Sound, CompileProgram, CodeAt, Fits, SourceBody;
    var main := CompileProgram(block);
    j := 1;
    if ClosureAt(w, v).Some? {
      var (path, cells) := ClosureAt(w, v).value;
      var c := CodeAt(Main(block), path).value;
      var x := SourceExternals(Main(block), o, k - 1);
      var n: nat, fn: B.Fn, f: CallFrames.Frame := CalleeOk(block, path, cells, args, w, x, k);
      var i := RunOk(block, o, k - 1, EntryOf(x, fn, path, f), Start(f), n);
      j := (if i < n then n else i) + 1;
      DeeperAnswers(main, o, i, j - 1);
      RunAnswers(EntryOf(CompiledExternals(main, o, i), fn, path, f), CompiledExternals(main, o, j - 1), Start(f), n, j);
    }
  }

  lemma SoundParts(block: Node)
    requires Sound(block)
    ensures Is(BlockSort, block) && NewParametersAll(Main(block)) && ResolvedAll(CompileProgram(block))
  {
    hide CompileProgram, NewParametersAll, AllClear, Is;
    ProgramResolved(block);
  }

  /** The callee's code does what its body does, on the same calls. */
  lemma CalleeOk(block: Node, path: FnPath, cells: seq<nat>, args: seq<Value>, w: World, x: Externals, fuel: nat)
      returns (n: nat, fn: B.Fn, f: CallFrames.Frame)
    requires Sound(block) && path != [] && CodeAt(Main(block), path).Some? && Fits(CodeAt(Main(block), path).value, cells, args)
    requires SourceBody(CodeAt(Main(block), path).value, path, cells, args, w, x, fuel).Returned?
    ensures Callee(CompileProgram(block), path, cells, args, w) == Some((fn, f))
    ensures var r := SourceBody(CodeAt(Main(block), path).value, path, cells, args, w, x, fuel);
            var e := VM.Run(EntryOf(x, fn, path, f), Start(f), n);
            e.Done? && e.result == r.value && e.world == r.world
  {
    hide VM.Run, SourceBody, CallFrame, Enter, CompileFunction, CompileProgram, Ok, CodeAt, FnAt, NewParametersAll, Resolved, Shaped;
    hide Compiles, EntryOf, Start, Is, Sound, ResolvedAll;
    SoundParts(block);
    var c := CodeAt(Main(block), path).value;
    var l := Located(block, path);
    ResolvedAt(CompileProgram(block), path);
    n, f := BodyOk(c, l, path, cells, args, w, x, fuel);
    fn := Compiled(l);
  }

  lemma BodyOk(c: Code, l: Literal, path: FnPath, cells: seq<nat>, args: seq<Value>, w: World, x: Externals, fuel: nat)
      returns (n: nat, f: CallFrames.Frame)
    requires Compiles(c, l) && Fits(c, cells, args) && Ok(l.scope) && Resolved(Compiled(l).code)
    requires SourceBody(c, path, cells, args, w, x, fuel).Returned?
    ensures Shaped(Compiled(l)) && |Compiled(l).free| <= |cells| && CallFrame(Compiled(l), cells, args, w) == Some(f)
    ensures var r := SourceBody(c, path, cells, args, w, x, fuel);
            var e := VM.Run(EntryOf(x, Compiled(l), path, f), Start(f), n);
            e.Done? && e.result == r.value && e.world == r.world
  {
    CompilesParts(c, l);
    FramesMatch(c, l, path, cells, args, w);
    SameWorld(l, cells, args, w);
    f := CallFrame(Compiled(l), cells, args, w).value;
    hide VM.Run, Walker.RunBody, CallFrame, Enter, CompileFunction, Matches, OpenWorld, Shaped, Ok, Own, Passed, Resolved, Compiles, Initial;
    var locals;
    n, locals := StatementCorrectness.FunctionOk(x, path, l.params, l.body, l.scope, OpenFrame(c, path, cells, args, w), f.refs, f.locals,
                                                 OpenWorld(Own(c), c.params, args, w), fuel, false);
  }

  // ----- whole programs -----

  lemma TopTables(block: Node)
    ensures TablesFor(Main(block), Top()) && Separate(Top()) && Top().fn.funcs == []
  {
    hide AddNatives, Own, Passed, Top, Ok, Grows;
    TopEmpty();
    NothingCaptured(block);
  }

  lemma SomeMember(v: seq<string>)
    ensures v == [] || exists x :: x in v
  {
    if v != [] { assert v[0] in v; }
  }

  lemma NothingCaptured(block: Node)
    ensures Own(Main(block)) == [] && Passed(Main(block)) == ToSet([])
  {
    hide ScanRefs;
    var none: seq<string> := [];
    ScanRefsGrows(block, false, ToSet(none), RefScan(ToSet(none), []));
    var refs := CapturedBelow(none, block);
    SomeMember(refs);
  }

  /** Each function of the program is compiled from its literal, in a scope with its tables. */
  lemma {:induction false} Located(block: Node, path: FnPath) returns (l: Literal)
    requires Is(BlockSort, block) && NewParametersAll(Main(block)) && path != [] && CodeAt(Main(block), path).Some?
    ensures Compiles(CodeAt(Main(block), path).value, l) && Ok(l.scope) && Separate(Entered(l))
    ensures FnAt(CompileProgram(block), path) == Some(Compiled(l))
    decreases |path|
  {
    hide *;
    var k := |path| - 1;
    var outer, i := path[..k], path[k];
    var c := OuterCode(Main(block), path);
    if k == 0 {
      TopTables(block);
      ProgramFunctions(block);
      MainIs(block);
      l := Inside(c, Top(), i);
    } else {
      var m := Located(block, outer);
      CompilesParts(c, m);
      LeaveFunctions(m);
      SortedMain(c, m);
      l := Inside(c, Entered(m), i);
    }
    FnAtUnfold(CompileProgram(block), path);
  }

  lemma OuterCode(main: Code, path: FnPath) returns (c: Code)
    requires path != [] && CodeAt(main, path).Some? && NewParametersAll(main)
    ensures var k := |path| - 1;
            && CodeAt(main, path[..k]) == Some(c) && NewParameters(c) && 0 <= path[k] < Literals(c.body)
            && CodeAt(main, path) == Some(Nested(c, path[k]))
    ensures |path| == 1 ==> c == main
  {
    hide NewParameters, Nested, Literals;
    c := CodeAt(main, path[..|path| - 1]).value;
  }

  lemma FnAtUnfold(main: B.Fn, path: FnPath)
    requires path != []
    ensures FnAt(main, []) == Some(main) && (|path| == 1 ==> path[..0] == [])
    ensures var outer, i := FnAt(main, path[..|path| - 1]), path[|path| - 1];
            FnAt(main, path) == if outer.Some? && 0 <= i < |outer.value.funcs| then Some(outer.value.funcs[i]) else None
  {
  }

  lemma MainIs(block: Node)
    ensures Main(block).body == block
  {
  }

  lemma SortedMain(c: Code, l: Literal)
    requires Compiles(c, l)
    ensures Is(BlockSort, c.body)
  {
    hide Is, TablesFor, Ok;
  }

  lemma LeaveFunctions(l: Literal)
    requires Declared(l)
    ensures Ok(l.scope) && Ok(Entered(l)) && Compiled(l).funcs == Transpile(l.body, false, Entered(l)).fn.funcs && Entered(l).fn.funcs == []
  {
    hide Ok, Transpile, Enter;
  }

  /** The code that enters the natives in the globals. */
  lemma {:induction false} NativesOk(a: VM.Activation, names: seq<string>, s: Scope, st: VM.State)
    requires Ok(s) && s.top && |names| <= 3 && Within(AddNatives(names, s), a.fn) && st.ip == |s.fn.code| && st.stack == []
    ensures VM.Run(a, st, 2 * |names|)
            == VM.Running(VM.State(|AddNatives(names, s).fn.code|, [], st.locals, WithNatives(names, st.world)))
    decreases |names|
  {
    hide Ok, Grows, Within, VM.Run, VM.Step, AddNatives, NativeScope;
    if names == [] {
      NoNatives(a, s, st);
    } else {
      var t := NativeScope(names, s);
      NativeFirst(names, s);
      NativesGrow(names[1..], t);
      WithinGrows(t, AddNatives(names[1..], t), a.fn);
      var st1 := NativeOk(a, names, s, st);
      NativesOk(a, names[1..], t, st1);
      Join(a, st, 2, st1, 2 * (|names| - 1));
    }
  }

  lemma NoNatives(a: VM.Activation, s: Scope, st: VM.State)
    requires Ok(s) && st.ip == |s.fn.code| && st.stack == []
    ensures VM.Run(a, st, 0) == VM.Running(VM.State(|AddNatives([], s).fn.code|, [], st.locals, WithNatives([], st.world)))
  {
    hide Ok;
  }

  lemma NativeOk(a: VM.Activation, names: seq<string>, s: Scope, st: VM.State) returns (st1: VM.State)
    requires Ok(s) && s.top && 0 < |names| <= 3 && Within(NativeScope(names, s), a.fn) && st.ip == |s.fn.code| && st.stack == []
    ensures st1.ip == |NativeScope(names, s).fn.code| && st1.stack == [] && st1.locals == st.locals
    ensures st1.world == World(st.world.objs + [NativeObj(3 - |names|)], st.world.globals[names[0] := PtrV(|st.world.objs|)])
    ensures VM.Run(a, st, 2) == VM.Running(st1)
  {
    hide Ok, Grows, Within, VM.Run, VM.Step, VM.Execute, NativeNamed, WithNatives, AddNatives, IndexOf, Insert;
    var load, s3 := B.LoadFunc(|names| - |BUILTINS| - 1), NativeNamed(names, s);
    var i := B.StoreGlobal(IndexOf(s3.fn.names, names[0]));
    WithinGrows(s3, Emit(s3, i), a.fn);
    WithinGrows(Emit(s, load), s3, a.fn);
    NamesHere(a.fn, s3, Emit(s3, i));
    StepEmitted(a, s, load, st);
    var mid := LoadsNative(a, load.fn, st);
    StepEmitted(a, s3, i, mid);
    st1 := StoresGlobal(a, i.index, mid);
    Join(a, st, 1, mid, 1);
  }

  lemma LoadsNative(a: VM.Activation, k: int, st: VM.State) returns (st1: VM.State)
    requires -3 <= k < 0 && st.stack == []
    ensures st1 == VM.State(st.ip + 1, [PtrV(|st.world.objs|)], st.locals, st.world.(objs := st.world.objs + [NativeObj(-k - 1)]))
    ensures VM.Execute(a, B.LoadFunc(k), st) == VM.Running(st1)
  {
    st1 := VM.State(st.ip + 1, [PtrV(|st.world.objs|)], st.locals, st.world.(objs := st.world.objs + [NativeObj(-k - 1)]));
  }

  lemma StoresGlobal(a: VM.Activation, k: nat, st: VM.State) returns (st1: VM.State)
    requires k < |a.fn.names| && |st.stack| == 1
    ensures st1 == VM.State(st.ip + 1, [], st.locals, st.world.(globals := st.world.globals[a.fn.names[k] := st.stack[0]]))
    ensures VM.Execute(a, B.StoreGlobal(k), st) == VM.Running(st1)
  {
    st1 := VM.State(st.ip + 1, [], st.locals, st.world.(globals := st.world.globals[a.fn.names[k] := st.stack[0]]));
  }

  /** What a program leaves that ran off the end of its statements: zero, or None when there is a return in them. */
  ghost function Fallen(block: Node): Value { if Has(block, Returns) then NoneV else IntV(0) }

  /**
    A program whose evaluation ends without an exception, closures made and functions called
    on the way, ends in compiled code with the same world and, if it returned, the same value.
   */
  lemma ProgramOk(block: Node, o: Outside, k: nat, w: World) returns (j: nat)
    requires Sound(block)
    requires var r := RunProgram(block, o, k, w); r.Normal? || r.Returned?
    ensures var r := RunProgram(block, o, k, w);
            var main := CompileProgram(block);
            var e := VM.Run(VM.Activation(CompiledExternals(main, o, j), main, [], [], false), VM.State(0, [], [], w), j);
            e.Done? && e.world == r.world && e.result == if r.Returned? then r.value else Fallen(block)
  {
    hide *;
    var main := CompileProgram(block);
    var x := SourceExternals(Main(block), o, k);
    var n := MainOk(block, o, k, w);
    var a, st := VM.Activation(x, main, [], [], true), VM.State(0, [], [], w);
    ActivationIs(block, o, k);
    assert a.(strict := true) == a;
    VM.StrictRun(a, st, n);
    var i := RunOk(block, o, k, a.(strict := false), st, n);
    j := if i < n then n else i;
    DeeperAnswers(main, o, i, j);
    RunAnswers(VM.Activation(CompiledExternals(main, o, i), main, [], [], false), CompiledExternals(main, o, j), st, n, j);
  }

  /** The main code on source calls. */
  lemma MainOk(block: Node, o: Outside, k: nat, w: World) returns (n: nat)
    requires Sound(block)
    requires var r := RunProgram(block, o, k, w); r.Normal? || r.Returned?
    ensures var r := RunProgram(block, o, k, w);
            var e := VM.Run(MainActivation(block, o, k), VM.State(0, [], [], w), n);
            e.Done? && e.world == r.world && e.result == if r.Returned? then r.value else Fallen(block)
  {
    hide Sound, Ready, Settled, Ok, Grows, Within, Resolved, CompileProgram, AddNatives, Transpile, Bottom, Is, RunProgram, Fallen;
    hide MainActivation, SourceExternals, Walker.Exec, WithNatives, VM.Run, StatementCorrectness.Ends, TablesOf, LoadConstant, Emit;
    var a, s, st := MainActivation(block, o, k), Top(), VM.State(0, [], [], w);
    ActivationIs(block, o, k);
    MainLayout(block);
    StartOk();
    NativesOk(a, BUILTINS, START, st);
    var st1 := VM.State(|s.fn.code|, [], [], WithNatives(BUILTINS, w));
    TopReady(block, a, st1);
    RunIs(block, o, k, w);
    var m, locals := StatementCorrectness.ExecOk(a, block, s, TOP_FRAME, st1, k);
    n := MainEnds(block, a, RunProgram(block, o, k, w), st1, m, locals);
    Join(a, st, 2 * |BUILTINS|, st1, n);
    n := 2 * |BUILTINS| + n;
  }

  ghost function MainActivation(block: Node, o: Outside, k: nat): VM.Activation {
    VM.Activation(SourceExternals(Main(block), o, k), CompileProgram(block), [], [], true)
  }

  lemma ActivationIs(block: Node, o: Outside, k: nat)
    requires Sound(block)
    ensures var a := MainActivation(block, o, k);
            && a == VM.Activation(SourceExternals(Main(block), o, k), CompileProgram(block), [], [], true)
    ensures Is(BlockSort, block) && Resolved(CompileProgram(block).code)
  {
    hide CompileProgram, Is, Sound, Resolved, SourceExternals;
    SoundParts(block);
  }

  /** Where the natives, the statements and the last return lie in the main code. */
  lemma MainLayout(block: Node)
    ensures var fn, r := CompileProgram(block), Bottom(block);
            && Within(Top(), fn) && Within(r, fn) && r == Transpile(block, false, Top()) && Top().fn.funcs == []
            && if r.returned then fn == r.fn else Within(Emit(LoadConstant(r, ConstInt(0)), B.Return), fn)
  {
    hide AddNatives, Transpile, Ok, Grows, LoadConstant;
    TopTables(block);
    var fn, r := CompileProgram(block), Bottom(block);
    if !r.returned {
      var s1 := LoadConstant(r, ConstInt(0));
      WithinGrows(s1, Emit(s1, B.Return), fn);
      WithinGrows(r, s1, fn);
    }
    WithinGrows(Top(), r, fn);
  }

  lemma TopReady(block: Node, a: VM.Activation, st: VM.State)
    requires a.fn == CompileProgram(block) && a.self == [] && a.refs == [] && a.strict && Resolved(a.fn.code)
    requires Within(Bottom(block), a.fn) && st.ip == |Top().fn.code|
    ensures Ready(a, Top(), Transpile(block, false, Top()), TOP_FRAME, st) && Settled(a, Top())
  {
    hide AddNatives, Transpile, Ok, Grows, Within, Resolved, CompileProgram, Top, IndexOf, Own, Passed;
    TopTables(block);
    TopEmpty();
  }

  lemma RunIs(block: Node, o: Outside, k: nat, w: World)
    ensures |BUILTINS| <= 3
    ensures RunProgram(block, o, k, w)
            == Walker.Exec(SourceExternals(Main(block), o, k), TOP_FRAME, WithNatives(BUILTINS, w), block, 0, k)
  {
    hide SourceExternals, Walker.Exec, WithNatives;
  }

  /** Behind the statements: they returned, or the last return follows, or nothing. */
  lemma MainEnds(block: Node, a: VM.Activation, r: Walker.Result, st: VM.State, m: nat, locals: seq<Value>) returns (n: nat)
    requires StatementCorrectness.Ends(a, st, m, Bottom(block), TablesOf(Top()), r, locals) && st.stack == []
    requires (r.Normal? || r.Returned?) && a.fn == CompileProgram(block) && Settled(a, Top())
    ensures var e := VM.Run(a, st, n);
            e.Done? && e.world == r.world && e.result == if r.Returned? then r.value else Fallen(block)
  {
    hide CompileProgram, AddNatives, Transpile, Ok, Grows, Within, VM.Run, VM.Step, Top, Bottom, Settled, Matches, LoadConstant, Has;
    MainLayout(block);
    n := m;
    var s := Bottom(block);
    ProgramReturned(block);
    if r.Normal? {
      var st1 := StatementCorrectness.Behind(s, [], locals, r.world);
      if s.returned {
        RunsOff(a, st1);
        Join(a, st, m, st1, 1);
        n := m + 1;
      } else {
        StatementCorrectness.ConstReturnOk(a, ConstInt(0), Top(), s, r.frame, st1);
        Join(a, st, m, st1, 2);
        n := m + 2;
      }
    }
  }

  lemma RunsOff(a: VM.Activation, st: VM.State)
    requires st.ip == |a.fn.code|
    ensures VM.Run(a, st, 1) == VM.Done(NoneV, st.locals, st.world)
  {
  }
}
