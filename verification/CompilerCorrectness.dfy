/**
  The bytecode of a function body does what the body means: every evaluation of the source
  that ends without an exception is a run of the strict machine over the compiled code,
  through any nesting of branches and loops.
 */
module CompilerCorrectness {
  import opened Runtime
  import opened Ast
  import opened Bytecode
  import opened NameTables
  import opened BytecodeCompiler
  import opened ClosureConversion
  import opened EmittedCode
  import opened FunctionTables
  import opened Scanners
  import VM = VirtualMachine
  import Walker = TreeWalker

  // ----- frames and compiled variables -----

  /** The tables that decide where a variable lives; fixed while a function is compiled. */
  datatype Tables = Tables(globals: seq<string>, free: seq<string>, cells: seq<string>, locals: seq<string>, passed: seq<string>)

  /** At the top level every name is a global, known to the compiler or not. */
  function TablesOf(s: Scope): Tables {
    Tables(if s.top then [] else s.globals, s.fn.free, s.fn.cells, s.fn.locals, s.freeRefs)
  }

  /** The named frame of the source and the indexed frame of the machine hold the same variables. */
  ghost predicate Matches(f: Walker.Frame, t: Tables, refs: seq<nat>, locals: seq<Value>) {
    && |refs| == |t.cells| + |t.free|
    && f.own.Keys == ToSet(t.cells) && f.given.Keys == ToSet(t.free) && f.passed == ToSet(t.passed)
    && (forall x :: x in t.cells ==> x in f.own && refs[IndexOf(t.cells, x)] == f.own[x])
    && (forall x :: x in t.free ==> x in f.given && refs[|t.cells| + IndexOf(t.free, x)] == f.given[x])
    && (forall x :: x in f.vars ==> x in t.locals)
    && (forall x :: x in t.locals && x !in t.free && x !in t.cells ==>
          x in f.vars && IndexOf(t.locals, x) < |locals| && locals[IndexOf(t.locals, x)] == f.vars[x])
    && (forall x :: x in f.globals ==> x in t.globals)
    && (forall x :: x in t.globals ==> x in f.globals || (x !in t.free && x !in t.cells && x !in t.locals))
  }

  // ----- single steps -----

  /** The top level has no variables but globals. */
  ghost predicate Settled(a: VM.Activation, s: Scope) {
    && a.strict && Resolved(a.fn.code)
    && (s.top ==> s.fn.free == [] && s.fn.cells == [] && s.fn.locals == [])
  }

  /** The machine is about to execute what is compiled at the end of `s`. */
  ghost predicate At(a: VM.Activation, s: Scope, st: VM.State) {
    Ok(s) && Settled(a, s) && st.ip == |s.fn.code|
  }

  // ----- expressions -----

  /** The code between `s` and `r` is in place and the frames agree. */
  ghost predicate Ready(a: VM.Activation, s: Scope, r: Scope, f: Walker.Frame, st: VM.State) {
    At(a, s, st) && Grows(s, r) && Within(r, a.fn) && Matches(f, TablesOf(s), a.refs, st.locals) && f.self == a.self
  }

  /** After `k` steps the machine stands behind `r`, having pushed `push`. */
  ghost predicate Reaches(a: VM.Activation, st: VM.State, k: nat, r: Scope, push: seq<Value>, w: World) {
    VM.Run(a, st, k) == VM.Running(After(st, r, push, w))
  }

  /** A state reached on the way is ready for the rest of the code. */
  lemma StillReady(a: VM.Activation, s: Scope, m: Scope, r: Scope, f: Walker.Frame, st: VM.State, push: seq<Value>, w: World)
    requires Ready(a, s, r, f, st) && Ok(m) && Grows(s, m) && Grows(m, r)
    ensures Ready(a, m, r, f, After(st, m, push, w))
    ensures Ready(a, s, m, f, st)
  {
    hide Matches;
    WithinGrows(m, r, a.fn);
  }

  lemma LoadOk(a: VM.Activation, c: Constant, s: Scope, f: Walker.Frame, st: VM.State)
    requires Ok(s) && Ready(a, s, LoadConstant(s, c), f, st)
    ensures Reaches(a, st, 1, LoadConstant(s, c), [ConstantValue(c)], st.world)
  {
    hide Matches;
    var r := LoadConstant(s, c);
    var i := r.fn.code[|s.fn.code|];
    assert a.fn.code[..|r.fn.code|][|s.fn.code|] == i;
    assert a.fn.consts[..|r.fn.consts|][i.index] == c;
    assert st.stack[..|st.stack|] == st.stack;
    var o := VM.Step(a, st);
    assert o == VM.Running(After(st, r, [ConstantValue(c)], st.world));
    assert VM.Run(a, o.state, 0) == o;
  }

  /** A variable read by name and one read at its compiled place are the same. */
  lemma PlaceOfVariable(f: Walker.Frame, x: string, s: Scope, refs: seq<nat>, locals: seq<Value>)
    requires Ok(s) && Matches(f, TablesOf(s), refs, locals) && (s.top ==> s.fn.free == [] && s.fn.cells == [] && s.fn.locals == [])
    ensures match Resolve(s, x)
            case GlobalPlace(k) => IsGlobal(f, x)
            case CellPlace(k) => x !in f.globals && k < |refs| && CellNamed(f, x) == Some(refs[k])
            case LocalPlace(k) =>
              x !in f.globals && CellNamed(f, x).None? && x in f.vars && k < |locals| && locals[k] == f.vars[x]
            case Unresolved => IsGlobal(f, x)
  {
    hide LabelsOk, IndexOf;
  }

  /** The cell of a captured variable. */
  function CellNamed(f: Walker.Frame, x: string): Option<nat> {
    if x in f.given then Some(f.given[x]) else if x in f.own then Some(f.own[x]) else None
  }

  predicate IsGlobal(f: Walker.Frame, x: string) {
    x in f.globals || (x !in f.given && x !in f.own && x !in f.vars)
  }

  /** Code that looks up a name in vain is not resolved. */
  lemma NothingUnresolved(fn: Fn, x: string, storing: bool, s: Scope)
    requires Ok(s) && Within(ThrowUnresolved(x, storing, s), fn)
    ensures !Resolved(fn.code)
  {
    var r := ThrowUnresolved(x, storing, s);
    assert fn.code[..|r.fn.code|][|s.fn.code| + 1].ThrowUninitialized?;
  }

  /**
    A variable that the source can read is pushed by the compiled code, or the machine throws:
    it throws exactly when the name was not resolved where it was compiled.
   */
  lemma NameExact(a: VM.Activation, x: string, s: Scope, f: Walker.Frame, st: VM.State)
    requires Ok(s) && Within(TranspileName(x, false, s), a.fn) && st.ip == |s.fn.code|
    requires Matches(f, TablesOf(s), a.refs, st.locals) && (s.top ==> s.fn.free == [] && s.fn.cells == [] && s.fn.locals == [])
    requires Walker.ReadVar(f, st.world, x).Some?
    ensures if Resolve(s, x).Unresolved? then VM.Run(a, st, 2).Thrown?
            else Reaches(a, st, 1, TranspileName(x, false, s), [Walker.ReadVar(f, st.world, x).value], st.world)
  {
    hide *;
    NameCode(x, s);
    if Resolve(s, x).Unresolved? {
      ThrowsAt(a, x, s, st);
    } else {
      StepEmitted(a, s, LoadPlace(Resolve(s, x)), st);
      LoadsVariable(a, x, s, f, st);
      ReachesIs(a, st, 1, TranspileName(x, false, s), [Walker.ReadVar(f, st.world, x).value], st.world);
    }
  }

  function LoadPlace(p: Place): Instr
    requires !p.Unresolved?
  {
    if p.GlobalPlace? then LoadGlobal(p.name) else if p.CellPlace? then LoadReference(p.cell) else LoadLocal(p.local)
  }

  lemma NameCode(x: string, s: Scope)
    requires Ok(s)
    ensures var p := Resolve(s, x);
            if p.Unresolved? then TranspileName(x, false, s) == ThrowUnresolved(x, false, s)
            else TranspileName(x, false, s) == Emit(s, LoadPlace(p)) && !LoadPlace(p).Label? && VM.Pops(LoadPlace(p)) == 0
  {
    hide Ok, Grows, Resolve, ThrowUnresolved;
  }

  lemma LoadsVariable(a: VM.Activation, x: string, s: Scope, f: Walker.Frame, st: VM.State)
    requires Ok(s) && !Resolve(s, x).Unresolved?
    requires !LoadPlace(Resolve(s, x)).Label? && VM.Pops(LoadPlace(Resolve(s, x))) == 0
    requires Within(Emit(s, LoadPlace(Resolve(s, x))), a.fn) && st.ip == |s.fn.code|
    requires Matches(f, TablesOf(s), a.refs, st.locals) && (s.top ==> s.fn.free == [] && s.fn.cells == [] && s.fn.locals == [])
    requires Walker.ReadVar(f, st.world, x).Some?
    ensures VM.Execute(a, LoadPlace(Resolve(s, x)), st)
            == VM.Running(After(st, Emit(s, LoadPlace(Resolve(s, x))), [Walker.ReadVar(f, st.world, x).value], st.world))
  {
    hide Matches, Ok, Grows, Within, IndexOf;
    PlaceOfVariable(f, x, s, a.refs, st.locals);
    var i := LoadPlace(Resolve(s, x));
    assert st.stack[..|st.stack|] == st.stack;
    NamesHere(a.fn, s, Emit(s, i));
  }

  lemma NamesHere(fn: Fn, s: Scope, r: Scope)
    requires Grows(s, r) && Within(r, fn)
    ensures forall k :: 0 <= k < |s.fn.names| ==> k < |fn.names| && fn.names[k] == s.fn.names[k]
  {
  }

  lemma ThrowsAt(a: VM.Activation, x: string, s: Scope, st: VM.State)
    requires Ok(s) && Within(ThrowUnresolved(x, false, s), a.fn) && st.ip == |s.fn.code|
    ensures VM.Run(a, st, 2).Thrown?
  {
    hide Ok, Grows, Within, VM.Step, VM.Run;
    var s1 := InsertName(s, x);
    var i := ThrowUninitialized(IndexOf(s1.fn.names, x));
    var s2 := Emit(s1, LoadConst(0));
    var r := Emit(s2, i);
    WithinGrows(s2, r, a.fn);
    StepEmitted(a, s1, LoadConst(0), st);
    RunTwo(a, st);
    if VM.Run(a, st, 1).Running? {
      StepEmitted(a, s2, i, VM.Run(a, st, 1).state);
    }
  }

  lemma RunTwo(a: VM.Activation, st: VM.State)
    ensures var o := VM.Run(a, st, 1);
            VM.Run(a, st, 2) == if o.Running? then VM.Run(a, o.state, 1) else o
  {
    hide VM.Step;
    if VM.Run(a, st, 1).Running? {
      VM.RunCompose(a, st, 1, 1);
    }
  }

  lemma NameOk(a: VM.Activation, x: string, s: Scope, f: Walker.Frame, st: VM.State)
    requires Ok(s) && Ready(a, s, TranspileName(x, false, s), f, st)
    requires Walker.ReadVar(f, st.world, x).Some?
    ensures Reaches(a, st, 1, TranspileName(x, false, s), [Walker.ReadVar(f, st.world, x).value], st.world)
  {
    hide Matches, Ok, Grows, Resolved, Within, VM.Step, VM.Run;
    NameExact(a, x, s, f, st);
    if Resolve(s, x).Unresolved? {
      NothingUnresolved(a.fn, x, false, s);
      assert false;
    }
  }

  lemma StepReady(a: VM.Activation, s: Scope, i: Instr, f: Walker.Frame, st: VM.State)
    requires Ok(s) && !i.Label? && Ready(a, s, Emit(s, i), f, st) && VM.Pops(i) <= |st.stack|
    ensures VM.Run(a, st, 1) == VM.Execute(a, i, st)
  {
    hide Matches;
    StepEmitted(a, s, i, st);
  }

  /** A value below `x` that decides an operator, after the two operands were pushed. */
  lemma StackTop(base: seq<Value>, l: Value, r: Value)
    ensures var q := (base + [l]) + [r];
            |q| == |base| + 2 && q[|q| - 1] == r && q[|q| - 2] == l && q[..|q| - 2] == base && q[..|q| - 1] == base + [l]
  {
    assert ((base + [l]) + [r])[..|base|] == base;
    assert ((base + [l]) + [r])[..|base| + 1] == base + [l];
  }

  lemma StackOne(base: seq<Value>, v: Value)
    ensures var q := base + [v]; q[|q| - 1] == v && q[..|q| - 1] == base
  {
    assert (base + [v])[..|base|] == base;
  }

  /** What the source requires of an operator is what the strict machine requires of its instruction. */
  lemma OperatorOk(a: VM.Activation, w: World, op: BinSym, l: Value, r: Value)
    requires a.strict && Walker.Operator(a.x, w, op, l, r).Some?
    ensures var first, second := if RightFirst(op) then r else l, if RightFirst(op) then l else r;
            VM.Operate(a, w, BinaryInstr(op), first, second) == Walker.Operator(a.x, w, op, l, r)
  {
  }

  lemma {:induction false} EvalOk(a: VM.Activation, n: Node, s: Scope, f: Walker.Frame, st: VM.State) returns (k: nat)
    requires Ok(s) && (Is(ExprSort, n) || Is(LhsSort, n))
    requires Ready(a, s, Transpile(n, false, s), f, st)
    requires Walker.Eval(a.x, f, st.world, n, |s.fn.funcs|).Some?
    ensures var e := Walker.Eval(a.x, f, st.world, n, |s.fn.funcs|).value; Reaches(a, st, k, Transpile(n, false, s), [e.0], e.1)
    decreases n, 1
  {
    hide Ready, Matches, Ok, Grows, Within, VM.Execute, Reaches;
    hide TranspileIndex, TranspileField, TranspileCall, TranspileRecord, TranspileBinary, TranspileUnary;
    hide TranspileSeq, TranspileEntry, TranspileAssign, TranspileCallStmt, TranspileIf, TranspileWhile, TranspileReturn;
    hide MakeClosure, Leave, Enter, TranspileName, LoadConstant, VM.Step, VM.Run, Walker.ReadVar;
    hide Walker.EvalFunction, Walker.EvalIndex, Walker.EvalField, Walker.EvalCall, Walker.EvalRecord, Walker.EvalBinary, Walker.EvalUnary;
    match n
    case Name(x) =>
      NameOk(a, x, s, f, st);
      k := 1;
    case Index(_, _) => k := IndexOk(a, n, s, f, st);
    case Field(_, _) => k := FieldOk(a, n, s, f, st);
    case Call(_, _) => k := CallOk(a, n, s, f, st);
    case Function(_, _) => k := LiteralOk(a, n, s, f, st);
    case Record(_) => k := RecordOk(a, n, s, f, st);
    case IntLit(i) =>
      LoadOk(a, ConstInt(i), s, f, st);
      k := 1;
    case StringLit(t) =>
      LoadOk(a, ConstString(t), s, f, st);
      k := 1;
    case BoolLit(b) =>
      LoadOk(a, ConstBool(b), s, f, st);
      k := 1;
    case NullLit =>
      LoadOk(a, ConstNone, s, f, st);
      k := 1;
    case BinExpr(_, _, _) => k := BinaryOk(a, n, s, f, st);
    case UnExpr(_, _) => k := UnaryOk(a, n, s, f, st);
  }

  /** The compiled code of a literal builds the closure that the source builds. */
  lemma LiteralOk(a: VM.Activation, n: Node, s: Scope, f: Walker.Frame, st: VM.State) returns (k: nat)
    requires n.Function? && Ok(s) && Ready(a, s, Transpile(n, false, s), f, st)
    requires Walker.EvalFunction(f, st.world, n, |s.fn.funcs|).Some?
    ensures var e := Walker.EvalFunction(f, st.world, n, |s.fn.funcs|).value; Reaches(a, st, k, Transpile(n, false, s), [e.0], e.1)
  {
    hide *;
    var inner := Leave(Transpile(n.body, false, Enter(n.params, n.body, s)));
    FunctionUnfold(n, s);
    LabelsAfter(n, s);
    ReadyFrame(a, s, Transpile(n, false, s), f, st);
    var own: seq<nat>, given: seq<nat> := CarriedCells(f, st.world, n, |s.fn.funcs|);
    SameCells(n.body, s, f, a.refs, st.locals, st.world, own, given);
    k := ClosureRun(a, n.body, inner, s, st);
    BuiltIs(a, n.body, inner, s, st);
    FunctionStays(n.body, inner, s);
    AfterIs(st, Transpile(n, false, s), [PtrV(|st.world.objs| + 1)], Walker.EvalFunction(f, st.world, n, |s.fn.funcs|).value.1);
    ReachesIs(a, st, k, Transpile(n, false, s), [PtrV(|st.world.objs| + 1)], Walker.EvalFunction(f, st.world, n, |s.fn.funcs|).value.1);
  }

  lemma ReachesIs(a: VM.Activation, st: VM.State, k: nat, r: Scope, push: seq<Value>, w: World)
    requires VM.Run(a, st, k) == VM.Running(After(st, r, push, w))
    ensures Reaches(a, st, k, r, push, w)
  {
    hide VM.Run, After;
  }

  lemma LabelsAfter(n: Node, s: Scope)
    requires Ok(s) && n.Function?
    ensures s.nextLabel <= Leave(Transpile(n.body, false, Enter(n.params, n.body, s))).nextLabel
  {
    hide Ok, Enter, Transpile, LoadConstant;
  }

  lemma ReadyFrame(a: VM.Activation, s: Scope, r: Scope, f: Walker.Frame, st: VM.State)
    requires Ready(a, s, r, f, st)
    ensures st.ip == |s.fn.code| && Within(r, a.fn) && f.self == a.self && |a.refs| == |s.fn.cells| + |s.fn.free|
    ensures Matches(f, TablesOf(s), a.refs, st.locals)
  {
    hide Ok, Grows, Within;
  }

  /** What a source closure carries. */
  lemma CarriedCells(f: Walker.Frame, w: World, n: Node, i: nat) returns (own: seq<nat>, given: seq<nat>)
    requires n.Function? && Walker.EvalFunction(f, w, n, i).Some?
    ensures Walker.CellsOf(w, f.own, Needed(f.own.Keys, n.body)) == Some(own)
    ensures Walker.CellsOf(w, f.given, Needed(f.passed, n.body)) == Some(given)
    ensures var path := f.self + [i];
            Walker.EvalFunction(f, w, n, i) ==
            Some((PtrV(|w.objs| + 1), w.(objs := w.objs + [BareObj(path)] + [ClosureObj(path, own + given)])))
  {
    hide Walker.CellsOf, Needed;
    own := Walker.CellsOf(w, f.own, Needed(f.own.Keys, n.body)).value;
    given := Walker.CellsOf(w, f.given, Needed(f.passed, n.body)).value;
  }

  /** The cells that the machine pushes are those of the frame by name. */
  lemma SameCells(body: Node, s: Scope, f: Walker.Frame, refs: seq<nat>, locals: seq<Value>, w: World, own: seq<nat>, given: seq<nat>)
    requires Ok(s) && Matches(f, TablesOf(s), refs, locals) && |refs| == |s.fn.cells| + |s.fn.free|
    requires Walker.CellsOf(w, f.own, Needed(f.own.Keys, body)) == Some(own)
    requires Walker.CellsOf(w, f.given, Needed(f.passed, body)) == Some(given)
    ensures ClosureCells(body, s, refs) == own + given && Held(own + given, w)
  {
    hide Ok, Matches, Needed, Walker.CellsOf, CellRefs, FreeRefs, CellList, ClosureCells, Held, TablesOf;
    CapturedNames(body, s, f, refs, locals);
    TablesKept(FreeRefs(body, s), s);
    CellsSplit(body, s, refs);
    OwnCells(CellRefs(body, s), s, f, refs, locals, w, own);
    GivenCells(FreeRefs(body, s), s, f, refs, locals, w, given);
    HeldBoth(own, given, w);
  }

  lemma HeldBoth(a: seq<nat>, b: seq<nat>, w: World)
    requires Held(a, w) && Held(b, w)
    ensures Held(a + b, w)
  {
  }

  lemma CapturedNames(body: Node, s: Scope, f: Walker.Frame, refs: seq<nat>, locals: seq<Value>)
    requires Ok(s) && Matches(f, TablesOf(s), refs, locals)
    ensures Needed(f.own.Keys, body) == CellRefs(body, s) && Needed(f.passed, body) == FreeRefs(body, s)
  {
    hide Ok, ScanRefs, ScanGlobals, ScanLocals, IndexOf;
  }

  lemma OwnCells(names: seq<string>, s: Scope, f: Walker.Frame, refs: seq<nat>, locals: seq<Value>, w: World, own: seq<nat>)
    requires Matches(f, TablesOf(s), refs, locals) && Walker.CellsOf(w, f.own, names) == Some(own)
    ensures CellList(names, s.fn.cells, 0, refs) == own && Held(own, w)
  {
    hide IndexOf;
    forall j | 0 <= j < |names| ensures CellOf(s.fn.cells, 0, refs, names[j]) == own[j] {
      assert names[j] in f.own;
    }
  }

  lemma GivenCells(names: seq<string>, s: Scope, f: Walker.Frame, refs: seq<nat>, locals: seq<Value>, w: World, given: seq<nat>)
    requires Matches(f, TablesOf(s), refs, locals) && Walker.CellsOf(w, f.given, names) == Some(given)
    ensures CellList(names, s.fn.free, |s.fn.cells|, refs) == given && Held(given, w)
  {
    hide IndexOf;
    forall j | 0 <= j < |names| ensures CellOf(s.fn.free, |s.fn.cells|, refs, names[j]) == given[j] {
      assert names[j] in f.given;
    }
  }

  lemma {:induction false} IndexOk(a: VM.Activation, n: Node, s: Scope, f: Walker.Frame, st: VM.State) returns (k: nat)
    requires n.Index? && Ok(s) && (Is(ExprSort, n) || Is(LhsSort, n))
    requires Ready(a, s, TranspileIndex(n, false, s), f, st)
    requires Walker.EvalIndex(a.x, f, st.world, n, |s.fn.funcs|).Some?
    ensures var e := Walker.EvalIndex(a.x, f, st.world, n, |s.fn.funcs|).value; Reaches(a, st, k, TranspileIndex(n, false, s), [e.0], e.1)
    decreases n, 0
  {
    hide Transpile, Walker.Eval, VM.Step, VM.Run, Ready, Matches, Ok, Grows, Within, RecordGet, Text;
    var (v1, w1) := Walker.Eval(a.x, f, st.world, n.base, |s.fn.funcs|).value;
    LiteralCount(n.base, false, s);
    var (v2, w2) := Walker.Eval(a.x, f, w1, n.index, |s.fn.funcs| + Literals(n.base)).value;
    var s1 := Transpile(n.base, false, s);
    var s2 := Transpile(n.index, false, s1);
    var r := Emit(s2, IndexLoad);
    GrowsTrans(s1, s2, r);
    StillReady(a, s, s1, r, f, st, [v1], w1);
    var k1 := EvalOk(a, n.base, s, f, st);
    var st1 := After(st, s1, [v1], w1);
    StillReady(a, s1, s2, r, f, st1, [v2], w2);
    var k2 := EvalOk(a, n.index, s1, f, st1);
    var st2 := After(st1, s2, [v2], w2);
    StepReady(a, s2, IndexLoad, f, st2);
    StackTop(st.stack, v1, v2);
    Join(a, st, k1, st1, k2);
    Join(a, st, k1 + k2, st2, 1);
    k := k1 + k2 + 1;
  }

  lemma {:induction false} FieldOk(a: VM.Activation, n: Node, s: Scope, f: Walker.Frame, st: VM.State) returns (k: nat)
    requires n.Field? && Ok(s) && (Is(ExprSort, n) || Is(LhsSort, n))
    requires Ready(a, s, TranspileField(n, false, s), f, st)
    requires Walker.EvalField(a.x, f, st.world, n, |s.fn.funcs|).Some?
    ensures var e := Walker.EvalField(a.x, f, st.world, n, |s.fn.funcs|).value; Reaches(a, st, k, TranspileField(n, false, s), [e.0], e.1)
    decreases n, 0
  {
    hide Transpile, Walker.Eval, VM.Step, VM.Run, Ready, Matches, Ok, Grows, RecordGet, Text, Within;
    var (v1, w1) := Walker.Eval(a.x, f, st.world, n.base, |s.fn.funcs|).value;
    var s0 := InsertName(s, n.field);
    var name := IndexOf(s0.fn.names, n.field);
    var s1 := Transpile(n.base, false, s0);
    var r := Emit(s1, FieldLoad(name));
    GrowsTrans(s0, s1, r);
    StillReady(a, s, s0, r, f, st, [], st.world);
    assert After(st, s0, [], st.world) == st by { StandStill(a, s, r, f, st, s0); }
    StillReady(a, s0, s1, r, f, st, [v1], w1);
    var k1 := EvalOk(a, n.base, s0, f, st);
    var st1 := After(st, s1, [v1], w1);
    StepReady(a, s1, FieldLoad(name), f, st1);
    NameWithin(a, s0, r, f, st, name);
    StackOne(st.stack, v1);
    Join(a, st, k1, st1, 1);
    k := k1 + 1;
  }

  /** Filling a table moves nothing. */
  lemma StandStill(a: VM.Activation, s: Scope, r: Scope, f: Walker.Frame, st: VM.State, m: Scope)
    requires Ready(a, s, r, f, st) && m.fn.code == s.fn.code
    ensures After(st, m, [], st.world) == st
  {
    hide Matches;
  }

  lemma NameWithin(a: VM.Activation, s: Scope, r: Scope, f: Walker.Frame, st: VM.State, k: nat)
    requires Ready(a, s, r, f, st) && k < |s.fn.names|
    ensures k < |a.fn.names| && a.fn.names[k] == s.fn.names[k]
  {
    hide Matches;
    WithinGrows(s, r, a.fn);
  }

  lemma {:induction false} UnaryOk(a: VM.Activation, n: Node, s: Scope, f: Walker.Frame, st: VM.State) returns (k: nat)
    requires n.UnExpr? && Ok(s) && (Is(ExprSort, n) || Is(LhsSort, n))
    requires Ready(a, s, TranspileUnary(n, s), f, st)
    requires Walker.EvalUnary(a.x, f, st.world, n, |s.fn.funcs|).Some?
    ensures var e := Walker.EvalUnary(a.x, f, st.world, n, |s.fn.funcs|).value; Reaches(a, st, k, TranspileUnary(n, s), [e.0], e.1)
    decreases n, 0
  {
    hide Transpile, Walker.Eval, VM.Step, VM.Run, Ready, Matches, Ok, Grows, Within;
    var (v1, w1) := Walker.Eval(a.x, f, st.world, n.operand, |s.fn.funcs|).value;
    var s1 := Transpile(n.operand, false, s);
    var i := Un(UnaryInstr(n.uop));
    var r := Emit(s1, i);
    StillReady(a, s, s1, r, f, st, [v1], w1);
    var k1 := EvalOk(a, n.operand, s, f, st);
    var st1 := After(st, s1, [v1], w1);
    StepReady(a, s1, i, f, st1);
    StackOne(st.stack, v1);
    Join(a, st, k1, st1, 1);
    k := k1 + 1;
  }

  /** The instruction of an operator takes the operands from the stack, the one evaluated last from the top. */
  lemma OperatorStep(a: VM.Activation, op: BinSym, base: seq<Value>, v1: Value, v2: Value, st: VM.State)
    requires a.strict && st.stack == (base + [v1]) + [v2]
    requires Walker.Operator(a.x, st.world, op, if RightFirst(op) then v2 else v1, if RightFirst(op) then v1 else v2).Some?
    ensures var v := Walker.Operator(a.x, st.world, op, if RightFirst(op) then v2 else v1, if RightFirst(op) then v1 else v2).value;
            VM.Execute(a, Bin(BinaryInstr(op)), st) == VM.Running(VM.State(st.ip + 1, base + [v], st.locals, st.world))
  {
    hide VM.Operate, Walker.Operator, BinaryInstr, RightFirst;
    OperatorOk(a, st.world, op, if RightFirst(op) then v2 else v1, if RightFirst(op) then v1 else v2);
    StackTop(base, v1, v2);
  }

  /** The compiler takes the operands in the order in which they are evaluated. */
  lemma SameOrder(op: BinSym)
    ensures Reversed(op) <==> RightFirst(op)
  {
  }

  lemma {:induction false} BinaryOk(a: VM.Activation, n: Node, s: Scope, f: Walker.Frame, st: VM.State) returns (k: nat)
    requires n.BinExpr? && Ok(s) && (Is(ExprSort, n) || Is(LhsSort, n))
    requires Ready(a, s, TranspileBinary(n, s), f, st)
    requires Walker.EvalBinary(a.x, f, st.world, n, |s.fn.funcs|).Some?
    ensures var e := Walker.EvalBinary(a.x, f, st.world, n, |s.fn.funcs|).value; Reaches(a, st, k, TranspileBinary(n, s), [e.0], e.1)
    decreases n, 0
  {
    hide Transpile, Walker.Eval, VM.Step, VM.Run, VM.Execute, Ready, Matches, Ok, Grows, Within, Walker.Operator, Literals, BinaryInstr, TablesOf;
    SameOrder(n.bop);
    hide Reversed, RightFirst;
    var e1 := if Reversed(n.bop) then n.right else n.left;
    var e2 := if Reversed(n.bop) then n.left else n.right;
    var (v1, w1) := Walker.Eval(a.x, f, st.world, e1, |s.fn.funcs|).value;
    LiteralCount(e1, false, s);
    var (v2, w2) := Walker.Eval(a.x, f, w1, e2, |s.fn.funcs| + Literals(e1)).value;
    var s1 := Transpile(e1, false, s);
    var s2 := Transpile(e2, false, s1);
    var i := Bin(BinaryInstr(n.bop));
    var r := Emit(s2, i);
    GrowsTrans(s1, s2, r);
    StillReady(a, s, s1, r, f, st, [v1], w1);
    var k1 := EvalOk(a, e1, s, f, st);
    var st1 := After(st, s1, [v1], w1);
    StillReady(a, s1, s2, r, f, st1, [v2], w2);
    var k2 := EvalOk(a, e2, s1, f, st1);
    var st2 := After(st1, s2, [v2], w2);
    StepReady(a, s2, i, f, st2);
    StrictHere(a, s, r, f, st);
    OperatorStep(a, n.bop, st.stack, v1, v2, st2);
    Join(a, st, k1, st1, k2);
    Join(a, st, k1 + k2, st2, 1);
    k := k1 + k2 + 1;
  }

  lemma StrictHere(a: VM.Activation, s: Scope, r: Scope, f: Walker.Frame, st: VM.State)
    requires Ready(a, s, r, f, st)
    ensures a.strict
  {
    hide Matches, Ok, Grows, Within;
  }

  lemma {:induction false} CallOk(a: VM.Activation, n: Node, s: Scope, f: Walker.Frame, st: VM.State) returns (k: nat)
    requires n.Call? && Ok(s) && (Is(ExprSort, n) || Is(LhsSort, n))
    requires Ready(a, s, TranspileCall(n, s), f, st)
    requires Walker.EvalCall(a.x, f, st.world, n, |s.fn.funcs|).Some?
    ensures var e := Walker.EvalCall(a.x, f, st.world, n, |s.fn.funcs|).value; Reaches(a, st, k, TranspileCall(n, s), [e.0], e.1)
    decreases n, 0
  {
    hide Transpile, Walker.Eval, VM.Step, VM.Run, Ready, Matches, Ok, Grows, Within;
    var (vs, w1) := Walker.EvalList(a.x, f, st.world, n.args, |s.fn.funcs|).value;
    LiteralCount(n.args, false, s);
    var (callee, w2) := Walker.Eval(a.x, f, w1, n.target, |s.fn.funcs| + Literals(n.args)).value;
    var s1 := Transpile(n.args, false, s);
    var s2 := Transpile(n.target, false, s1);
    var i := Instr.Call(Length(n.args));
    var r := Emit(s2, i);
    GrowsTrans(s1, s2, r);
    StillReady(a, s, s1, r, f, st, vs, w1);
    var k1 := ListOk(a, n.args, s, f, st);
    var st1 := After(st, s1, vs, w1);
    StillReady(a, s1, s2, r, f, st1, [callee], w2);
    var k2 := EvalOk(a, n.target, s1, f, st1);
    var st2 := After(st1, s2, [callee], w2);
    StepReady(a, s2, i, f, st2);
    assert st2.stack[|st.stack|..|st2.stack| - 1] == vs;
    assert st2.stack[..|st.stack|] == st.stack;
    Join(a, st, k1, st1, k2);
    Join(a, st, k1 + k2, st2, 1);
    k := k1 + k2 + 1;
  }

  /** Arguments end up on the stack in order. */
  lemma {:induction false} ListOk(a: VM.Activation, n: Node, s: Scope, f: Walker.Frame, st: VM.State) returns (k: nat)
    requires Ok(s) && Is(ArgsSort, n)
    requires Ready(a, s, Transpile(n, false, s), f, st)
    requires Walker.EvalList(a.x, f, st.world, n, |s.fn.funcs|).Some?
    ensures var e := Walker.EvalList(a.x, f, st.world, n, |s.fn.funcs|).value;
            Reaches(a, st, k, Transpile(n, false, s), e.0, e.1) && |e.0| == Length(n)
    decreases n, 1
  {
    hide Ready, Matches, Ok, Grows, Within, VM.Step, VM.Run, Walker.Eval, Walker.EvalList, Transpile;
    ListUnfold(a, n, s, f, st);
    if n.Empty? {
      k := 0;
      assert st.stack + [] == st.stack;
      StandStill(a, s, s, f, st, s);
      RunZero(a, st);
    } else {
      LiteralCount(n.first, false, s);
      var (v, w1) := Walker.Eval(a.x, f, st.world, n.first, |s.fn.funcs|).value;
      var (vs, w2) := Walker.EvalList(a.x, f, w1, n.rest, |s.fn.funcs| + Literals(n.first)).value;
      var s1 := Transpile(n.first, false, s);
      var r := Transpile(n.rest, false, s1);
      StillReady(a, s, s1, r, f, st, [v], w1);
      var k1 := EvalOk(a, n.first, s, f, st);
      var st1 := After(st, s1, [v], w1);
      var k2 := ListOk(a, n.rest, s1, f, st1);
      assert (st.stack + [v]) + vs == st.stack + ([v] + vs);
      Join(a, st, k1, st1, k2);
      k := k1 + k2;
    }
  }

  lemma ListUnfold(a: VM.Activation, n: Node, s: Scope, f: Walker.Frame, st: VM.State)
    requires Ok(s) && Is(ArgsSort, n) && Walker.EvalList(a.x, f, st.world, n, |s.fn.funcs|).Some?
    ensures n.Empty? || n.Seq?
    ensures n.Empty? ==>
      Transpile(n, false, s) == s && Walker.EvalList(a.x, f, st.world, n, |s.fn.funcs|) == Some(([], st.world))
    ensures n.Seq? ==> Transpile(n, false, s) == Transpile(n.rest, false, Transpile(n.first, false, s))
    ensures n.Seq? ==> Walker.Eval(a.x, f, st.world, n.first, |s.fn.funcs|).Some?
    ensures n.Seq? ==>
      var (v, w1) := Walker.Eval(a.x, f, st.world, n.first, |s.fn.funcs|).value;
      var k := |s.fn.funcs| + Literals(n.first);
      Walker.EvalList(a.x, f, w1, n.rest, k).Some? &&
      var (vs, w2) := Walker.EvalList(a.x, f, w1, n.rest, k).value;
      Walker.EvalList(a.x, f, st.world, n, |s.fn.funcs|) == Some(([v] + vs, w2))
  {
    hide Ok, Grows, Transpile, Walker.Eval, Walker.EvalList, Literals, Is;
    EvalListUnfold(a.x, f, st.world, n, |s.fn.funcs|);
    if n.Seq? {
      SeqUnfold(n, s);
    } else {
      EmptyUnfold(s);
    }
  }

  lemma EvalListUnfold(x: Externals, f: Walker.Frame, w: World, n: Node, i: nat)
    requires Is(ArgsSort, n) && Walker.EvalList(x, f, w, n, i).Some?
    ensures n.Empty? || n.Seq?
    ensures n.Empty? ==> Walker.EvalList(x, f, w, n, i) == Some(([], w))
    ensures n.Seq? ==> Walker.Eval(x, f, w, n.first, i).Some?
    ensures n.Seq? ==>
      var (v, w1) := Walker.Eval(x, f, w, n.first, i).value;
      var k := i + Literals(n.first);
      Walker.EvalList(x, f, w1, n.rest, k).Some? &&
      var (vs, w2) := Walker.EvalList(x, f, w1, n.rest, k).value;
      Walker.EvalList(x, f, w, n, i) == Some(([v] + vs, w2))
  {
    hide Walker.Eval, Literals;
  }

  lemma EmptyUnfold(s: Scope)
    requires Ok(s)
    ensures Transpile(Empty, false, s) == s
  {
    hide Ok, Grows, LabelsOk, Leave, Enter, MakeClosure, LoadConstant, TranspileSeq;
    hide TranspileEntry, TranspileIndex, TranspileField, TranspileAssign, TranspileCallStmt, TranspileName;
    hide TranspileIf, TranspileWhile, TranspileReturn, TranspileCall, TranspileRecord, TranspileBinary, TranspileUnary;
  }

  lemma SeqUnfold(n: Node, s: Scope)
    requires Ok(s) && n.Seq?
    ensures Transpile(n, false, s) == Transpile(n.rest, false, Transpile(n.first, false, s))
  {
    hide Ok, Grows, LabelsOk, Leave, Enter, MakeClosure, LoadConstant;
    hide TranspileEntry, TranspileIndex, TranspileField, TranspileAssign, TranspileCallStmt, TranspileName;
    hide TranspileIf, TranspileWhile, TranspileReturn, TranspileCall, TranspileRecord, TranspileBinary, TranspileUnary;
  }

  lemma {:induction false} RecordOk(a: VM.Activation, n: Node, s: Scope, f: Walker.Frame, st: VM.State) returns (k: nat)
    requires n.Record? && Ok(s) && (Is(ExprSort, n) || Is(LhsSort, n))
    requires Ready(a, s, TranspileRecord(n, s), f, st)
    requires Walker.EvalRecord(a.x, f, st.world, n, |s.fn.funcs|).Some?
    ensures var e := Walker.EvalRecord(a.x, f, st.world, n, |s.fn.funcs|).value; Reaches(a, st, k, TranspileRecord(n, s), [e.0], e.1)
    decreases n, 0
  {
    hide Transpile, Walker.Eval, VM.Step, VM.Run, Ready, Matches, Ok, Grows, Within;
    var (w1, addr) := Alloc(st.world, RecordObj(map[]));
    var s1 := Emit(s, AllocRecord);
    var r := Transpile(n.entries, false, s1);
    StillReady(a, s, s1, r, f, st, [PtrV(addr)], w1);
    StepReady(a, s, AllocRecord, f, st);
    assert st.stack[..|st.stack|] == st.stack;
    IpHere(a, s, s1, f, st);
    var st1 := After(st, s1, [PtrV(addr)], w1);
    assert VM.Run(a, st, 1) == VM.Running(st1);
    var k2 := EntriesOk(a, n.entries, s1, f, st1, PtrV(addr));
    assert (st.stack + [PtrV(addr)]) + [] == st.stack + [PtrV(addr)];
    Join(a, st, 1, st1, k2);
    k := 1 + k2;
  }

  lemma IpHere(a: VM.Activation, s: Scope, r: Scope, f: Walker.Frame, st: VM.State)
    requires Ready(a, s, r, f, st)
    ensures st.ip == |s.fn.code|
  {
    hide Matches, Ok, Grows, Within;
  }

  /** The fields of a record literal, with the record on top of the stack. */
  lemma {:induction false} EntriesOk(a: VM.Activation, n: Node, s: Scope, f: Walker.Frame, st: VM.State, record: Value) returns (k: nat)
    requires Ok(s) && Is(EntriesSort, n)
    requires Ready(a, s, Transpile(n, false, s), f, st)
    requires |st.stack| > 0 && st.stack[|st.stack| - 1] == record
    requires Walker.EvalEntries(a.x, f, st.world, record, n, |s.fn.funcs|).Some?
    ensures var w := Walker.EvalEntries(a.x, f, st.world, record, n, |s.fn.funcs|).value; Reaches(a, st, k, Transpile(n, false, s), [], w)
    decreases n, 1
  {
    hide Transpile, Walker.Eval, Walker.EvalEntries, Ready, Matches, Ok, Grows, Within, VM.Step, VM.Run, VM.Execute;
    hide Literals, EntryScope, EntryWorld, TranspileEntry, TablesOf;
    assert st.stack + [] == st.stack;
    EntriesUnfold(a, n, s, f, st, record);
    if n.Empty? {
      k := 0;
      StandStill(a, s, s, f, st, s);
      assert VM.Run(a, st, 0) == VM.Running(st) by { RunZero(a, st); }
    } else {
      var s1 := EntryScope(n, s);
      EntryCount(n, s);
      var w1 := EntryWorld(a, n, f, st, record, |s.fn.funcs|);
      var k1 := EntryOk(a, n, s, f, st, record);
      var st1 := After(st, s1, [], w1);
      StillReady(a, s, s1, TranspileEntry(n, s), f, st, [], w1);
      var k2 := EntriesOk(a, n.more, s1, f, st1, record);
      Join(a, st, k1, st1, k2);
      k := k1 + k2;
    }
  }

  lemma RunZero(a: VM.Activation, st: VM.State)
    ensures VM.Run(a, st, 0) == VM.Running(st)
  {
    hide VM.Step;
  }

  lemma EntriesUnfold(a: VM.Activation, n: Node, s: Scope, f: Walker.Frame, st: VM.State, record: Value)
    requires Ok(s) && Is(EntriesSort, n) && Walker.EvalEntries(a.x, f, st.world, record, n, |s.fn.funcs|).Some?
    ensures n.Empty? ==>
      Transpile(n, false, s) == s && Walker.EvalEntries(a.x, f, st.world, record, n, |s.fn.funcs|) == Some(st.world)
    ensures n.Entry? ==>
      && Transpile(n, false, s) == TranspileEntry(n, s)
      && Walker.EvalEntries(a.x, f, EntryWorld(a, n, f, st, record, |s.fn.funcs|), record, n.more, |s.fn.funcs| + Literals(n.value))
         == Walker.EvalEntries(a.x, f, st.world, record, n, |s.fn.funcs|)
  {
    hide Walker.Eval, TranspileEntry, Ok, Grows, RecordInsert;
  }

  /** The scope after the first field of a record literal. */
  function EntryScope(n: Node, s: Scope): (r: Scope)
    requires Ok(s) && n.Entry?
    ensures Ok(r) && Grows(s, r) && Grows(r, TranspileEntry(n, s))
    ensures TranspileEntry(n, s) == Transpile(n.more, false, r)
  {
    var s1 := Emit(s, Instr.Dup);
    var s2 := Transpile(n.value, false, s1);
    var s3 := EmitNamed(s2, n.key, (i: nat) => FieldStore(i));
    GrowsTrans(s, s1, s2);
    GrowsTrans(s, s2, s3);
    s3
  }

  lemma EntryCount(n: Node, s: Scope)
    requires Ok(s) && n.Entry?
    ensures |EntryScope(n, s).fn.funcs| == |s.fn.funcs| + Literals(n.value)
  {
    hide Ok, Grows, Transpile;
    LiteralCount(n.value, false, Emit(s, Instr.Dup));
  }

  /** The world after the first field of a record literal. */
  function EntryWorld(a: VM.Activation, n: Node, f: Walker.Frame, st: VM.State, record: Value, i: nat): World
    requires n.Entry? && Walker.EvalEntries(a.x, f, st.world, record, n, i).Some?
  {
    var (v, w1) := Walker.Eval(a.x, f, st.world, n.value, i).value;
    RecordInsert(w1, record, n.key, v).value
  }

  /** The FieldStore of a record literal: its name is entered in the table just before. */
  lemma StoreEntryOk(a: VM.Activation, key: string, s: Scope, f: Walker.Frame, st: VM.State, base: seq<Value>, record: Value, v: Value)
    requires Ok(s) && Ready(a, s, EmitNamed(s, key, (i: nat) => FieldStore(i)), f, st)
    requires st.stack == (base + [record]) + [v] && RecordInsert(st.world, record, key, v).Some?
    ensures VM.Run(a, st, 1) ==
            VM.Running(VM.State(st.ip + 1, base, st.locals, RecordInsert(st.world, record, key, v).value))
  {
    hide Ready, Matches, Ok, Grows, Within, RecordInsert, VM.Step, VM.Run;
    var s1 := InsertName(s, key);
    var i := FieldStore(IndexOf(s1.fn.names, key));
    var r := Emit(s1, i);
    assert r == EmitNamed(s, key, (i: nat) => FieldStore(i));
    StillReady(a, s, s1, r, f, st, [], st.world);
    assert After(st, s1, [], st.world) == st by { StandStill(a, s, r, f, st, s1); }
    StepReady(a, s1, i, f, st);
    NameWithin(a, s1, r, f, st, i.index);
    StackTop(base, record, v);
    assert base + [] == base;
  }

  lemma DupOk(a: VM.Activation, s: Scope, f: Walker.Frame, st: VM.State)
    requires Ok(s) && |st.stack| > 0 && Ready(a, s, Emit(s, Instr.Dup), f, st)
    ensures Reaches(a, st, 1, Emit(s, Instr.Dup), [st.stack[|st.stack| - 1]], st.world)
  {
    hide Ready, Matches, Ok, Grows, Within, VM.Step, VM.Run;
    StepReady(a, s, Instr.Dup, f, st);
    IpHere(a, s, Emit(s, Instr.Dup), f, st);
    assert st.stack[..|st.stack|] == st.stack;
  }

  lemma {:induction false} EntryOk(a: VM.Activation, n: Node, s: Scope, f: Walker.Frame, st: VM.State, record: Value) returns (k: nat)
    requires Ok(s) && n.Entry? && Is(EntriesSort, n)
    requires Ready(a, s, TranspileEntry(n, s), f, st)
    requires |st.stack| > 0 && st.stack[|st.stack| - 1] == record
    requires Walker.EvalEntries(a.x, f, st.world, record, n, |s.fn.funcs|).Some?
    ensures Reaches(a, st, k, EntryScope(n, s), [], EntryWorld(a, n, f, st, record, |s.fn.funcs|))
    decreases n, 0
  {
    hide Transpile, TranspileEntry, Walker.Eval, Walker.EvalEntries, VM.Step, VM.Run;
    hide Ready, Matches, Ok, Grows, Within, RecordInsert, EmitNamed;
    EntryValues(a, n, f, st, record, |s.fn.funcs|);
    var (v, w1) := Walker.Eval(a.x, f, st.world, n.value, |s.fn.funcs|).value;
    var s1 := Emit(s, Instr.Dup);
    var s2 := Transpile(n.value, false, s1);
    var r := EntryScope(n, s);
    GrowsTrans(s1, s2, r);
    StillReady(a, s, r, TranspileEntry(n, s), f, st, [], st.world);
    StillReady(a, s, s1, r, f, st, [record], st.world);
    DupOk(a, s, f, st);
    var st1 := After(st, s1, [record], st.world);
    StillReady(a, s1, s2, r, f, st1, [v], w1);
    var k1 := EvalOk(a, n.value, s1, f, st1);
    var st2 := After(st1, s2, [v], w1);
    StoreEntryOk(a, n.key, s2, f, st2, st.stack, record, v);
    assert st.stack + [] == st.stack;
    Join(a, st, 1, st1, k1);
    Join(a, st, 1 + k1, st2, 1);
    k := 1 + k1 + 1;
  }

  lemma EntryValues(a: VM.Activation, n: Node, f: Walker.Frame, st: VM.State, record: Value, i: nat)
    requires n.Entry? && Walker.EvalEntries(a.x, f, st.world, record, n, i).Some?
    ensures Walker.Eval(a.x, f, st.world, n.value, i).Some?
    ensures var (v, w1) := Walker.Eval(a.x, f, st.world, n.value, i).value;
            RecordInsert(w1, record, n.key, v) == Some(EntryWorld(a, n, f, st, record, i))
  {
    hide Walker.Eval, RecordInsert;
  }
}
