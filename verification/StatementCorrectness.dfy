/** Statements, branches, loops and whole functions: the second half of compiler correctness. */
module StatementCorrectness {
  import opened Runtime
  import opened Ast
  import opened Bytecode
  import opened NameTables
  import opened BytecodeCompiler
  import opened CompilerCorrectness
  import opened EmittedCode
  import opened FunctionTables
  import VM = VirtualMachine
  import Walker = TreeWalker

  /** The machine state behind `r`, with the operand stack of a statement. */
  function Behind(r: Scope, stack: seq<Value>, locals: seq<Value>, w: World): VM.State {
    VM.State(|r.fn.code|, stack, locals, w)
  }

  // ----- assignment -----

  lemma WriteLocal(f: Walker.Frame, s: Scope, refs: seq<nat>, locals: seq<Value>, x: string, v: Value)
    requires Matches(f, TablesOf(s), refs, locals)
    requires x in s.fn.locals && x !in s.fn.free && x !in s.fn.cells && x !in f.globals && x in f.vars
    ensures IndexOf(s.fn.locals, x) < |locals|
    ensures Matches(f.(vars := f.vars[x := v]), TablesOf(s), refs, locals[IndexOf(s.fn.locals, x) := v])
  {
    hide IndexOf;
    var k := IndexOf(s.fn.locals, x);
    forall y | y in s.fn.locals && y != x ensures IndexOf(s.fn.locals, y) != k {
      assert s.fn.locals[IndexOf(s.fn.locals, y)] == y;
    }
  }

  /** Storing the value on top of the stack into a variable. */
  lemma StoreNameOk(a: VM.Activation, x: string, s: Scope, f: Walker.Frame, st: VM.State, base: seq<Value>, v: Value)
      returns (locals: seq<Value>)
    requires Ok(s) && Ready(a, s, TranspileName(x, true, s), f, st) && st.stack == base + [v]
    requires Walker.WriteVar(f, st.world, x, v).Some?
    ensures var (g, w) := Walker.WriteVar(f, st.world, x, v).value;
            VM.Run(a, st, 1) == VM.Running(Behind(TranspileName(x, true, s), base, locals, w)) &&
            Matches(g, TablesOf(s), a.refs, locals) && g.self == a.self
  {
    hide Ok, Grows, Within, VM.Step, VM.Run, CellWrite, Resolved;
    VariableHere(a, x, s, TranspileName(x, true, s), f, st);
    var p := Resolve(s, x);
    if p.Unresolved? {
      if !s.top {
        NothingUnresolved(a.fn, x, true, s);
        assert false;
      } else {
        locals := st.locals;
        NewGlobalOk(a, x, s, f, st, base, v);
      }
    } else {
      locals := StorePlaceOk(a, x, s, f, st, base, v);
    }
  }

  lemma StorePlaceOk(a: VM.Activation, x: string, s: Scope, f: Walker.Frame, st: VM.State, base: seq<Value>, v: Value)
      returns (locals: seq<Value>)
    requires Ok(s) && Ready(a, s, TranspileName(x, true, s), f, st) && st.stack == base + [v]
    requires Walker.WriteVar(f, st.world, x, v).Some? && !Resolve(s, x).Unresolved?
    ensures var (g, w) := Walker.WriteVar(f, st.world, x, v).value;
            VM.Run(a, st, 1) == VM.Running(Behind(TranspileName(x, true, s), base, locals, w)) &&
            Matches(g, TablesOf(s), a.refs, locals) && g.self == a.self
  {
    hide Ready, Matches, Ok, Grows, Within, VM.Step, VM.Run, CellWrite, TablesOf;
    VariableHere(a, x, s, TranspileName(x, true, s), f, st);
    var p := Resolve(s, x);
    var i := if p.GlobalPlace? then StoreGlobal(p.name) else if p.CellPlace? then StoreReference(p.cell) else StoreLocal(p.local);
    var r := TranspileName(x, true, s);
    assert r == Emit(s, i);
    StepReady(a, s, i, f, st);
    IpHere(a, s, r, f, st);
    StackOne(base, v);
    assert base + [] == base;
    locals := if p.LocalPlace? then st.locals[p.local := v] else st.locals;
    if p.GlobalPlace? {
      NameWithin(a, s, r, f, st, p.name);
    }
    if p.LocalPlace? {
      WriteLocal(f, s, a.refs, st.locals, x, v);
    }
  }

  /** The first store to a name at the top level. */
  lemma NewGlobalOk(a: VM.Activation, x: string, s: Scope, f: Walker.Frame, st: VM.State, base: seq<Value>, v: Value)
    requires Ok(s) && s.top && Ready(a, s, StoreNewGlobal(x, s), f, st) && st.stack == base + [v]
    ensures VM.Run(a, st, 1) ==
            VM.Running(Behind(StoreNewGlobal(x, s), base, st.locals, st.world.(globals := st.world.globals[x := v])))
  {
    hide Ready, Matches, Ok, Grows, Within, VM.Step, VM.Run;
    var s1 := InsertName(s, x);
    var s2 := s1.(globals := Insert(s1.globals, x));
    GlobalHere(s, x, s2);
    var i := StoreGlobal(IndexOf(s2.fn.names, x));
    var r := Emit(s2, i);
    assert r == StoreNewGlobal(x, s);
    ReadyAt(a, s, s2, r, f, st, st) by { IpHere(a, s, r, f, st); }
    StepReady(a, s2, i, f, st);
    NameWithin(a, s2, r, f, st, i.index);
    IpHere(a, s, r, f, st);
    StackOne(base, v);
    assert base + [] == base;
  }

  lemma GlobalHere(s: Scope, x: string, r: Scope)
    requires Ok(s) && s.top && r == InsertName(s, x).(globals := Insert(s.globals, x))
    ensures Ok(r) && Grows(s, r) && x in r.fn.names
  {
  }

  lemma VariableHere(a: VM.Activation, x: string, s: Scope, r: Scope, f: Walker.Frame, st: VM.State)
    requires Ok(s) && Ready(a, s, r, f, st)
    ensures Matches(f, TablesOf(s), a.refs, st.locals) && f.self == a.self
    ensures match Resolve(s, x)
            case GlobalPlace(k) => IsGlobal(f, x)
            case CellPlace(k) => x !in f.globals && k < |a.refs| && CellNamed(f, x) == Some(a.refs[k])
            case LocalPlace(k) =>
              && x !in f.globals && CellNamed(f, x).None? && x in f.vars && k < |st.locals|
              && x in s.fn.locals && x !in s.fn.free && x !in s.fn.cells && k == IndexOf(s.fn.locals, x)
            case Unresolved => IsGlobal(f, x)
  {
    hide Ok, Grows, Within, Matches;
    PlaceOfVariable(f, x, s, a.refs, st.locals);
  }

  /** The value to store lies on the stack; the code of the left-hand side consumes it. */
  lemma StoreOk(a: VM.Activation, n: Node, s: Scope, f: Walker.Frame, st: VM.State, base: seq<Value>, v: Value)
      returns (k: nat, locals: seq<Value>)
    requires Ok(s) && Is(LhsSort, n)
    requires Ready(a, s, Transpile(n, true, s), f, st) && st.stack == base + [v]
    requires Walker.Store(a.x, f, st.world, n, v, |s.fn.funcs|).Some?
    ensures var (g, w) := Walker.Store(a.x, f, st.world, n, v, |s.fn.funcs|).value;
            VM.Run(a, st, k) == VM.Running(Behind(Transpile(n, true, s), base, locals, w)) &&
            Matches(g, TablesOf(s), a.refs, locals) && g.self == a.self
  {
    hide Ready, Matches, Ok, Grows, Within, VM.Step, VM.Run, VM.Execute, Walker.Eval;
    hide TranspileIndex, TranspileField, TranspileName;
    match n
    case Name(x) =>
      locals := StoreNameOk(a, x, s, f, st, base, v);
      k := 1;
    case Index(_, _) =>
      k := StoreIndexOk(a, n, s, f, st, base, v);
      locals := st.locals;
      MatchesHere(a, s, Transpile(n, true, s), f, st);
    case Field(_, _) =>
      k := StoreFieldOk(a, n, s, f, st, base, v);
      locals := st.locals;
      MatchesHere(a, s, Transpile(n, true, s), f, st);
  }

  lemma MatchesHere(a: VM.Activation, s: Scope, r: Scope, f: Walker.Frame, st: VM.State)
    requires Ready(a, s, r, f, st)
    ensures Matches(f, TablesOf(s), a.refs, st.locals) && f.self == a.self
  {
    hide Ok, Grows, Within, Matches;
  }

  lemma SwapOk(a: VM.Activation, s: Scope, f: Walker.Frame, st: VM.State, base: seq<Value>, l: Value, r: Value)
    requires Ok(s) && Ready(a, s, Emit(s, Instr.Swap), f, st) && st.stack == (base + [l]) + [r]
    ensures VM.Run(a, st, 1) == VM.Running(Behind(Emit(s, Instr.Swap), (base + [r]) + [l], st.locals, st.world))
  {
    hide Ready, Matches, Ok, Grows, Within, VM.Step, VM.Run;
    StepReady(a, s, Instr.Swap, f, st);
    IpHere(a, s, Emit(s, Instr.Swap), f, st);
    StackTop(base, l, r);
    assert base + [r, l] == (base + [r]) + [l];
  }

  lemma StoreFieldOk(a: VM.Activation, n: Node, s: Scope, f: Walker.Frame, st: VM.State, base: seq<Value>, v: Value)
      returns (k: nat)
    requires n.Field? && Ok(s) && Is(LhsSort, n)
    requires Ready(a, s, TranspileField(n, true, s), f, st) && st.stack == base + [v]
    requires Walker.Store(a.x, f, st.world, n, v, |s.fn.funcs|).Some?
    ensures VM.Run(a, st, k) ==
            VM.Running(Behind(TranspileField(n, true, s), base, st.locals, Walker.Store(a.x, f, st.world, n, v, |s.fn.funcs|).value.1))
  {
    hide Transpile, Walker.Eval, Ready, Matches, Ok, Grows, Within, RecordInsert, VM.Step, VM.Run;
    var (record, w1) := Walker.Eval(a.x, f, st.world, n.base, |s.fn.funcs|).value;
    var s0 := InsertName(s, n.field);
    var i := FieldStore(IndexOf(s0.fn.names, n.field));
    var s1 := Transpile(n.base, false, s0);
    var s2 := Emit(s1, Instr.Swap);
    var r := Emit(s2, i);
    GrowsTrans(s1, s2, r);
    GrowsTrans(s0, s1, r);
    StillReady(a, s, s0, r, f, st, [], st.world);
    assert st.stack + [] == st.stack;
    assert After(st, s0, [], st.world) == st by { StandStill(a, s, r, f, st, s0); }
    StillReady(a, s0, s1, r, f, st, [record], w1);
    var k1 := EvalOk(a, n.base, s0, f, st);
    var st1 := After(st, s1, [record], w1);
    var st2 := Behind(s2, (base + [record]) + [v], st.locals, w1);
    ReadyAt(a, s1, s2, r, f, st1, st2);
    SwapOk(a, s1, f, st1, base, v, record);
    StepReady(a, s2, i, f, st2);
    NameWithin(a, s0, r, f, st, i.index);
    StackTop(base, record, v);
    assert base + [] == base;
    Join(a, st, k1, st1, 1);
    Join(a, st, k1 + 1, st2, 1);
    k := k1 + 2;
  }

  /** Like StillReady, for a state whose stack changed below the top. */
  lemma ReadyAt(a: VM.Activation, s: Scope, m: Scope, r: Scope, f: Walker.Frame, st: VM.State, st1: VM.State)
    requires Ready(a, s, r, f, st) && Ok(m) && Grows(s, m) && Grows(m, r)
    requires st1.ip == |m.fn.code| && st1.locals == st.locals
    ensures Ready(a, m, r, f, st1) && Ready(a, s, m, f, st)
  {
    hide Matches;
    WithinGrows(m, r, a.fn);
  }

  lemma StoreIndexOk(a: VM.Activation, n: Node, s: Scope, f: Walker.Frame, st: VM.State, base: seq<Value>, v: Value)
      returns (k: nat)
    requires n.Index? && Ok(s) && Is(LhsSort, n)
    requires Ready(a, s, TranspileIndex(n, true, s), f, st) && st.stack == base + [v]
    requires Walker.Store(a.x, f, st.world, n, v, |s.fn.funcs|).Some?
    ensures VM.Run(a, st, k) ==
            VM.Running(Behind(TranspileIndex(n, true, s), base, st.locals, Walker.Store(a.x, f, st.world, n, v, |s.fn.funcs|).value.1))
  {
    hide Transpile, Walker.Eval, Ready, Matches, Ok, Grows, Within, RecordInsert, VM.Step, VM.Run, Text;
    var (record, w1) := Walker.Eval(a.x, f, st.world, n.base, |s.fn.funcs|).value;
    LiteralCount(n.base, false, s);
    var (key, w2) := Walker.Eval(a.x, f, w1, n.index, |s.fn.funcs| + Literals(n.base)).value;
    var s1 := Transpile(n.base, false, s);
    var s2 := Emit(s1, Instr.Swap);
    var s3 := Transpile(n.index, false, s2);
    var s4 := Emit(s3, Instr.Swap);
    var r := Emit(s4, IndexStore);
    GrowsTrans(s3, s4, r);
    GrowsTrans(s2, s3, r);
    GrowsTrans(s1, s2, r);
    StillReady(a, s, s1, r, f, st, [record], w1);
    var k1 := EvalOk(a, n.base, s, f, st);
    var st1 := After(st, s1, [record], w1);
    var st2 := Behind(s2, (base + [record]) + [v], st.locals, w1);
    ReadyAt(a, s1, s2, r, f, st1, st2);
    SwapOk(a, s1, f, st1, base, v, record);
    StillReady(a, s2, s3, r, f, st2, [key], w2);
    var k2 := EvalOk(a, n.index, s2, f, st2);
    var st3 := After(st2, s3, [key], w2);
    var st4 := Behind(s4, ((base + [record]) + [key]) + [v], st.locals, w2);
    ReadyAt(a, s3, s4, r, f, st3, st4);
    SwapOk(a, s3, f, st3, base + [record], v, key);
    IndexStoreOk(a, s4, f, st4, base, record, key, v);
    Join(a, st, k1, st1, 1);
    Join(a, st, k1 + 1, st2, k2);
    Join(a, st, k1 + 1 + k2, st3, 1);
    Join(a, st, k1 + 1 + k2 + 1, st4, 1);
    k := k1 + 1 + k2 + 2;
  }

  lemma IndexStoreOk(a: VM.Activation, s: Scope, f: Walker.Frame, st: VM.State, base: seq<Value>, record: Value, key: Value, v: Value)
    requires Ok(s) && Ready(a, s, Emit(s, IndexStore), f, st) && st.stack == ((base + [record]) + [key]) + [v]
    requires RecordInsert(st.world, record, Text(a.x, st.world, key), v).Some?
    ensures VM.Run(a, st, 1) ==
            VM.Running(Behind(Emit(s, IndexStore), base, st.locals,
                              RecordInsert(st.world, record, Text(a.x, st.world, key), v).value))
  {
    hide Ready, Matches, Ok, Grows, Within, VM.Step, VM.Run, RecordInsert, Text;
    StepReady(a, s, IndexStore, f, st);
    IpHere(a, s, Emit(s, IndexStore), f, st);
    assert st.stack[..|st.stack| - 3] == base;
    assert base + [] == base;
  }

  // ----- jumps -----

  /** What a finished statement leaves: behind its code, or out of the function. */
  ghost predicate Ends(a: VM.Activation, st: VM.State, k: nat, r: Scope, t: Tables, result: Walker.Result, locals: seq<Value>) {
    match result
    case Normal(f, w) =>
      VM.Run(a, st, k) == VM.Running(Behind(r, st.stack, locals, w)) && Matches(f, t, a.refs, locals) && f.self == a.self
    case Returned(v, f, w) =>
      VM.Run(a, st, k) == VM.Done(v, locals, w) && Matches(f, t, a.refs, locals)
    case _ => true
  }

  ghost predicate Finished(result: Walker.Result) { result.Normal? || result.Returned? }

  lemma JoinEnds(a: VM.Activation, st: VM.State, n: nat, st1: VM.State, k: nat, r: Scope, t: Tables,
                 result: Walker.Result, locals: seq<Value>)
    requires VM.Run(a, st, n) == VM.Running(st1) && st1.stack == st.stack
    requires Ends(a, st1, k, r, t, result, locals)
    ensures Ends(a, st, n + k, r, t, result, locals)
  {
    hide Matches, VM.Run;
    Join(a, st, n, st1, k);
  }

  /** A placed label: jumping to it leads to the instruction after it. */
  lemma LabelOk(a: VM.Activation, s: Scope, l: nat, st: VM.State)
    requires Ok(s) && l < s.nextLabel && l !in s.fn.labels && Within(PutLabel(s, l), a.fn) && st.ip == |s.fn.code|
    ensures VM.LabelTarget(a.fn, l) == |s.fn.code|
    ensures VM.Run(a, st, 1) == VM.Running(Behind(PutLabel(s, l), st.stack, st.locals, st.world))
    ensures Within(s, a.fn)
  {
    hide Ok;
    var r := PutLabel(s, l);
    assert l in r.fn.labels && r.fn.labels[l] == |s.fn.code|;
    assert a.fn.code[..|r.fn.code|][|s.fn.code|] == Label(l);
    assert st.stack[..|st.stack|] + [] == st.stack;
    var o := VM.Step(a, st);
    assert VM.Run(a, o.state, 0) == o;
  }

  lemma GotoOk(a: VM.Activation, s: Scope, l: nat, st: VM.State)
    requires Ok(s) && st.ip == |s.fn.code| && Within(Emit(s, Goto(l)), a.fn)
    ensures VM.Run(a, st, 1) == VM.Running(st.(ip := VM.LabelTarget(a.fn, l)))
    ensures Within(s, a.fn)
  {
    hide VM.Step, VM.Run, Within, Ok, Grows;
    StepEmitted(a, s, Goto(l), st);
    WithinGrows(s, Emit(s, Goto(l)), a.fn);
  }

  /** `if yes; goto no` with a boolean on the stack. */
  lemma BranchOk(a: VM.Activation, s: Scope, yes: nat, no: nat, st: VM.State, b: bool, base: seq<Value>) returns (k: nat)
    requires Ok(s) && st.ip == |s.fn.code| && st.stack == base + [BoolV(b)]
    requires Within(Emit2(s, Instr.If(yes), Goto(no)), a.fn)
    ensures VM.Run(a, st, k) ==
            VM.Running(VM.State(VM.LabelTarget(a.fn, if b then yes else no), base, st.locals, st.world))
    ensures Within(s, a.fn)
  {
    hide VM.Step, VM.Run, Within, Ok, Grows;
    var s1 := Emit(s, Instr.If(yes));
    WithinGrows(s1, Emit(s1, Goto(no)), a.fn);
    WithinGrows(s, s1, a.fn);
    StepEmitted(a, s, Instr.If(yes), st);
    StackOne(base, BoolV(b));
    k := 1;
    if !b {
      var st1 := VM.State(st.ip + 1, base, st.locals, st.world);
      GotoOk(a, s1, no, st1);
      Join(a, st, 1, st1, 1);
      k := 2;
    }
  }

  // ----- statements -----

  lemma {:induction false} ExecOk(a: VM.Activation, n: Node, s: Scope, f: Walker.Frame, st: VM.State, fuel: nat)
      returns (k: nat, locals: seq<Value>)
    requires Ok(s) && (Is(StmtSort, n) || Is(BlockSort, n))
    requires Ready(a, s, Transpile(n, false, s), f, st)
    requires Finished(Walker.Exec(a.x, f, st.world, n, |s.fn.funcs|, fuel))
    ensures Ends(a, st, k, Transpile(n, false, s), TablesOf(s), Walker.Exec(a.x, f, st.world, n, |s.fn.funcs|, fuel), locals)
    decreases fuel, n, 1
  {
    hide Ready, Matches, Ok, Grows, Within, VM.Step, Walker.Eval, Walker.Store;
    hide TranspileSeq, TranspileAssign, TranspileCallStmt, TranspileIf, TranspileWhile, TranspileReturn, TranspileName;
    match n
    case Empty =>
      k, locals := 0, st.locals;
      IpHere(a, s, s, f, st);
      MatchesHere(a, s, s, f, st);
    case Seq(_, _) => k, locals := SeqOk(a, n, s, f, st, fuel);
    case Assign(_, _) => k, locals := AssignOk(a, n, s, f, st, fuel);
    case CallStmt(_) => k, locals := CallStmtOk(a, n, s, f, st, fuel);
    case Global(_) =>
      k, locals := 0, st.locals;
      IpHere(a, s, s, f, st);
      MatchesHere(a, s, s, f, st);
    case If(_, _, _) => k, locals := IfOk(a, n, s, f, st, fuel);
    case While(_, _) => k, locals := WhileOk(a, n, s, f, st, fuel);
    case Return(_) => k, locals := ReturnOk(a, n, s, f, st, fuel);
  }

  lemma {:induction false} SeqOk(a: VM.Activation, n: Node, s: Scope, f: Walker.Frame, st: VM.State, fuel: nat)
      returns (k: nat, locals: seq<Value>)
    requires Ok(s) && n.Seq? && Is(BlockSort, n)
    requires Ready(a, s, TranspileSeq(n, s), f, st)
    requires Finished(Walker.Exec(a.x, f, st.world, n, |s.fn.funcs|, fuel))
    ensures Ends(a, st, k, TranspileSeq(n, s), TablesOf(s), Walker.Exec(a.x, f, st.world, n, |s.fn.funcs|, fuel), locals)
    decreases fuel, n, 0
  {
    hide Ready, Matches, Ok, Grows, Within, VM.Step, VM.Run, Transpile;
    var s1 := Transpile(n.first, false, s);
    var r := Transpile(n.rest, false, s1);
    LiteralCount(n.first, false, s);
    var first := Walker.Exec(a.x, f, st.world, n.first, |s.fn.funcs|, fuel);
    ReadyAt(a, s, s1, r, f, st, Behind(s1, st.stack, st.locals, st.world));
    k, locals := ExecOk(a, n.first, s, f, st, fuel);
    if first.Normal? {
      var st1 := Behind(s1, st.stack, locals, first.world);
      ReadyNext(a, s, s1, r, f, st, first.frame, st1);
      var k1;
      var k0 := k;
      k1, locals := ExecOk(a, n.rest, s1, first.frame, st1, fuel);
      JoinEnds(a, st, k0, st1, k1, r, TablesOf(s), Walker.Exec(a.x, first.frame, first.world, n.rest, |s.fn.funcs| + Literals(n.first), fuel), locals);
      k := k0 + k1;
    }
  }

  /** Readiness after a statement that changed the frame. */
  lemma ReadyNext(a: VM.Activation, s: Scope, m: Scope, r: Scope, f: Walker.Frame, st: VM.State, g: Walker.Frame, st1: VM.State)
    requires Ready(a, s, r, f, st) && Ok(m) && Grows(s, m) && Grows(m, r)
    requires st1.ip == |m.fn.code| && Matches(g, TablesOf(s), a.refs, st1.locals) && g.self == a.self
    ensures Ready(a, m, r, g, st1) && TablesOf(m) == TablesOf(s)
  {
    hide Matches;
    WithinGrows(m, r, a.fn);
  }

  lemma {:induction false} AssignOk(a: VM.Activation, n: Node, s: Scope, f: Walker.Frame, st: VM.State, fuel: nat)
      returns (k: nat, locals: seq<Value>)
    requires Ok(s) && n.Assign? && Is(StmtSort, n)
    requires Ready(a, s, TranspileAssign(n, s), f, st)
    requires Finished(Walker.Exec(a.x, f, st.world, n, |s.fn.funcs|, fuel))
    ensures Ends(a, st, k, TranspileAssign(n, s), TablesOf(s), Walker.Exec(a.x, f, st.world, n, |s.fn.funcs|, fuel), locals)
    decreases fuel, n, 0
  {
    hide Ready, Matches, Ok, Grows, Within, VM.Step, VM.Run, Transpile, Walker.Eval, Walker.Store;
    var (v, w1) := Walker.Eval(a.x, f, st.world, n.expr, |s.fn.funcs|).value;
    var s0 := Announce(n.lhs, s);
    LiteralCount(n.expr, false, s0);
    var s1 := Transpile(n.expr, false, s0);
    var r := Transpile(n.lhs, true, s1);
    GrowsTrans(s0, s1, r);
    IpHere(a, s, r, f, st);
    MatchesHere(a, s, r, f, st);
    ReadyNext(a, s, s0, r, f, st, f, st);
    StillReady(a, s0, s1, r, f, st, [v], w1);
    var k1 := EvalOk(a, n.expr, s0, f, st);
    var st1 := After(st, s1, [v], w1);
    var k2;
    GrowsTrans(s, s0, s1);
    ReadyNext(a, s, s1, r, f, st, f, st1);
    k2, locals := StoreOk(a, n.lhs, s1, f, st1, st.stack, v);
    Join(a, st, k1, st1, k2);
    k := k1 + k2;
  }

  lemma {:induction false} CallStmtOk(a: VM.Activation, n: Node, s: Scope, f: Walker.Frame, st: VM.State, fuel: nat)
      returns (k: nat, locals: seq<Value>)
    requires Ok(s) && n.CallStmt? && Is(StmtSort, n)
    requires Ready(a, s, TranspileCallStmt(n, s), f, st)
    requires Finished(Walker.Exec(a.x, f, st.world, n, |s.fn.funcs|, fuel))
    ensures Ends(a, st, k, TranspileCallStmt(n, s), TablesOf(s), Walker.Exec(a.x, f, st.world, n, |s.fn.funcs|, fuel), locals)
    decreases fuel, n, 0
  {
    hide Ready, Matches, Ok, Grows, Within, VM.Step, VM.Run, Transpile, Walker.Eval, VM.Execute, Emit2, Literals, TablesOf;
    var (v, w1) := Walker.Eval(a.x, f, st.world, n.call, |s.fn.funcs|).value;
    var s1 := Transpile(n.call, false, s);
    var r := Emit2(s1, Instr.Pop, GarbageCollect);
    MatchesHere(a, s, r, f, st);
    StillReady(a, s, s1, r, f, st, [v], w1);
    var k1 := EvalOk(a, n.call, s, f, st);
    var st1 := After(st, s1, [v], w1);
    DropOk(a, s1, f, st1, st.stack, v);
    Join(a, st, k1, st1, 2);
    k, locals := k1 + 2, st.locals;
  }

  /** The result of a call statement is dropped, and the collector may run. */
  lemma DropOk(a: VM.Activation, s: Scope, f: Walker.Frame, st: VM.State, base: seq<Value>, v: Value)
    requires Ok(s) && Ready(a, s, Emit2(s, Instr.Pop, GarbageCollect), f, st) && st.stack == base + [v]
    ensures VM.Run(a, st, 2) == VM.Running(Behind(Emit2(s, Instr.Pop, GarbageCollect), base, st.locals, st.world))
  {
    hide Ready, Matches, Ok, Grows, Within, VM.Step, VM.Run;
    var s1 := Emit(s, Instr.Pop);
    var r := Emit(s1, GarbageCollect);
    var st1 := Behind(s1, base, st.locals, st.world);
    IpHere(a, s, r, f, st);
    ReadyAt(a, s, s1, r, f, st, st1);
    StepReady(a, s, Instr.Pop, f, st);
    StackOne(base, v);
    assert base + [] == base;
    StepReady(a, s1, GarbageCollect, f, st1);
    assert base[..|base|] == base;
    Join(a, st, 1, st1, 1);
  }

  lemma {:induction false} ReturnOk(a: VM.Activation, n: Node, s: Scope, f: Walker.Frame, st: VM.State, fuel: nat)
      returns (k: nat, locals: seq<Value>)
    requires Ok(s) && n.Return? && Is(StmtSort, n)
    requires Ready(a, s, TranspileReturn(n, s), f, st)
    requires Finished(Walker.Exec(a.x, f, st.world, n, |s.fn.funcs|, fuel))
    ensures Ends(a, st, k, TranspileReturn(n, s), TablesOf(s), Walker.Exec(a.x, f, st.world, n, |s.fn.funcs|, fuel), locals)
    decreases fuel, n, 0
  {
    hide Ready, Matches, Ok, Grows, Within, VM.Step, VM.Run, Transpile, Walker.Eval;
    var (v, w1) := Walker.Eval(a.x, f, st.world, n.expr, |s.fn.funcs|).value;
    var s1 := Transpile(n.expr, false, s);
    var r := EmitReturn(s1);
    MatchesHere(a, s, r, f, st);
    StillReady(a, s, s1, r, f, st, [v], w1);
    var k1 := EvalOk(a, n.expr, s, f, st);
    var st1 := After(st, s1, [v], w1);
    ReadyReturn(a, s1, f, st1);
    StackOne(st.stack, v);
    StepReady(a, s1, Instr.Return, f, st1);
    Join(a, st, k1, st1, 1);
    k, locals := k1 + 1, st.locals;
  }

  lemma ReadyReturn(a: VM.Activation, s: Scope, f: Walker.Frame, st: VM.State)
    requires Ok(s) && Ready(a, s, EmitReturn(s), f, st)
    ensures Ready(a, s, Emit(s, Instr.Return), f, st)
  {
    hide Matches;
  }

  // ----- branches -----

  /** A machine at `ip` moves behind the label that ends `r`. */
  ghost predicate LabelStep(a: VM.Activation, ip: nat, r: Scope) {
    forall st: VM.State :: st.ip == ip ==> VM.Run(a, st, 1) == VM.Running(Behind(r, st.stack, st.locals, st.world))
  }

  lemma TakeLabel(a: VM.Activation, ip: nat, r: Scope, st: VM.State)
    requires LabelStep(a, ip, r) && st.ip == ip
    ensures VM.Run(a, st, 1) == VM.Running(Behind(r, st.stack, st.locals, st.world))
  {
    hide VM.Run;
  }

  lemma AwaitedLabelOk(a: VM.Activation, s: Scope, t: Scope, l: nat)
    requires Ok(s) && Awaits(s, t, l) && l < s.nextLabel + 3 && Within(PutAwaited(s, t, l), a.fn)
    ensures VM.LabelTarget(a.fn, l) == |t.fn.code| && Within(t, a.fn)
    ensures LabelStep(a, |t.fn.code|, PutAwaited(s, t, l))
  {
    hide VM.Run, VM.Step, Within;
    forall st: VM.State | st.ip == |t.fn.code|
      ensures VM.Run(a, st, 1) == VM.Running(Behind(PutAwaited(s, t, l), st.stack, st.locals, st.world))
    {
      LabelOk(a, t, l, st);
    }
    LabelOk(a, t, l, VM.State(|t.fn.code|, [], [], World([], map[])));
  }

  lemma SameTables(s: Scope, t: Scope)
    requires Grows(s, t)
    ensures TablesOf(t) == TablesOf(s) && t.top == s.top
  {
  }

  lemma ReadyHere(a: VM.Activation, s: Scope, m: Scope, r: Scope, f: Walker.Frame, st: VM.State)
    requires Grows(s, m) && Ok(m) && Grows(m, r) && Within(r, a.fn) && Settled(a, s)
    requires st.ip == |m.fn.code| && Matches(f, TablesOf(s), a.refs, st.locals) && f.self == a.self
    ensures Ready(a, m, r, f, st) && TablesOf(m) == TablesOf(s)
  {
    hide Matches, Within;
  }

  lemma ReadyParts(a: VM.Activation, s: Scope, r: Scope, f: Walker.Frame, st: VM.State)
    requires Ready(a, s, r, f, st)
    ensures st.ip == |s.fn.code| && Within(r, a.fn) && Settled(a, s)
    ensures Matches(f, TablesOf(s), a.refs, st.locals) && f.self == a.self
  {
    hide Ok, Grows, Matches, Within;
  }

  lemma {:induction false} IfOk(a: VM.Activation, n: Node, s: Scope, f: Walker.Frame, st: VM.State, fuel: nat)
      returns (k: nat, locals: seq<Value>)
    requires Ok(s) && n.If? && Is(StmtSort, n)
    requires Ready(a, s, TranspileIf(n, s), f, st)
    requires Finished(Walker.Exec(a.x, f, st.world, n, |s.fn.funcs|, fuel))
    ensures Ends(a, st, k, TranspileIf(n, s), TablesOf(s), Walker.Exec(a.x, f, st.world, n, |s.fn.funcs|, fuel), locals)
    decreases fuel, n, 0
  {
    hide Ready, Matches, Ok, Grows, Within, Awaits, LabelStep, VM.Step, VM.Run, VM.LabelTarget, Transpile, Walker.Eval;
    hide Literals, Settled, TablesOf, Is;
    IsIf(n);
    var l := s.nextLabel;
    var (v, w1) := Walker.Eval(a.x, f, st.world, n.cond, |s.fn.funcs|).value;
    var s0 := ReserveThree(s);
    var cond := Transpile(n.cond, false, s0);
    var thn := ThenStart(s, cond);
    var thnEnd := Transpile(n.thn, false, thn);
    AwaitsGrows(s, thn, thnEnd, l + 1);
    var els := ElseStart(s, thnEnd);
    var elsEnd := Transpile(n.els, false, els);
    AwaitsGrows(s, els, elsEnd, l + 2);
    var r := PutAwaited(s, elsEnd, l + 2);
    assert r == TranspileIf(n, s);
    ReadyParts(a, s, r, f, st);
    IfLayout(a, s, cond, thnEnd, elsEnd);
    ReadyHere(a, s, s0, cond, f, st);
    LiteralCount(n.cond, false, s0);
    LiteralCount(n.thn, false, thn);
    var k1 := EvalOk(a, n.cond, s0, f, st);
    var st1 := After(st, cond, [v], w1);
    GrowsTrans(s, s0, cond);
    SameTables(s, cond);
    var k2 := BranchOk(a, cond, l, l + 1, st1, v.b, st.stack);
    var st2 := VM.State(VM.LabelTarget(a.fn, if v.b then l else l + 1), st.stack, st.locals, w1);
    var start := if v.b then thn else els;
    var end := if v.b then thnEnd else elsEnd;
    var st3 := Behind(start, st.stack, st.locals, w1);
    TakeLabel(a, st2.ip, start, st2);
    Join(a, st, k1, st1, k2);
    Join(a, st, k1 + k2, st2, 1);
    ReadyHere(a, s, start, end, f, st3);
    var k4;
    k4, locals := ExecOk(a, if v.b then n.thn else n.els, start, f, st3, fuel);
    var i := |s.fn.funcs| + Literals(n.cond);
    var result := if v.b then Walker.Exec(a.x, f, w1, n.thn, i, fuel) else Walker.Exec(a.x, f, w1, n.els, i + Literals(n.thn), fuel);
    k := k1 + k2 + 1 + k4;
    JoinEnds(a, st, k1 + k2 + 1, st3, k4, end, TablesOf(s), result, locals);
    if result.Normal? {
      var st4 := Behind(end, st.stack, locals, result.world);
      if v.b {
        GrowsTrans(s, thn, thnEnd);
        SameTables(s, thnEnd);
        GotoOk(a, thnEnd, l + 2, st4);
        Join(a, st, k, st4, 1);
        k := k + 1;
      }
      var st5 := Behind(elsEnd, st.stack, locals, result.world);
      TakeLabel(a, st5.ip, r, st5);
      Join(a, st, k, st5, 1);
      k := k + 1;
    }
  }

  lemma IsIf(n: Node)
    requires n.If? && Is(StmtSort, n)
    ensures Is(ExprSort, n.cond) && Is(BlockSort, n.thn) && Is(BlockSort, n.els)
  {
  }

  /** Where the pieces of a compiled branch lie in the final code. */
  lemma IfLayout(a: VM.Activation, s: Scope, cond: Scope, thnEnd: Scope, elsEnd: Scope)
    requires Ok(s) && Ok(cond) && Ok(thnEnd) && Ok(elsEnd) && Grows(ReserveThree(s), cond)
    requires Awaits(s, thnEnd, s.nextLabel + 1) && Grows(ThenStart(s, cond), thnEnd)
    requires Awaits(s, elsEnd, s.nextLabel + 2) && Grows(ElseStart(s, thnEnd), elsEnd)
    requires Within(PutAwaited(s, elsEnd, s.nextLabel + 2), a.fn)
    ensures var l := s.nextLabel;
            && Within(elsEnd, a.fn) && Within(Emit(thnEnd, Goto(l + 2)), a.fn) && Within(thnEnd, a.fn)
            && Within(Emit2(cond, Instr.If(l), Goto(l + 1)), a.fn) && Within(cond, a.fn)
            && VM.LabelTarget(a.fn, l) == |cond.fn.code| + 2
            && VM.LabelTarget(a.fn, l + 1) == |thnEnd.fn.code| + 1
            && VM.LabelTarget(a.fn, l + 2) == |elsEnd.fn.code|
    ensures LabelStep(a, |cond.fn.code| + 2, ThenStart(s, cond))
    ensures LabelStep(a, |thnEnd.fn.code| + 1, ElseStart(s, thnEnd))
    ensures LabelStep(a, |elsEnd.fn.code|, PutAwaited(s, elsEnd, s.nextLabel + 2))
  {
    hide Grows, Within, Ok, Awaits, VM.Step, VM.Run, VM.LabelTarget, LabelStep;
    var l := s.nextLabel;
    var thn := ThenStart(s, cond);
    var els := ElseStart(s, thnEnd);
    AwaitedLabelOk(a, s, elsEnd, l + 2);
    WithinGrows(els, elsEnd, a.fn);
    AwaitedLabelOk(a, s, EmitGoto(s, thnEnd, l + 2, l + 1), l + 1);
    WithinGrows(thnEnd, Emit(thnEnd, Goto(l + 2)), a.fn);
    WithinGrows(thn, thnEnd, a.fn);
    AwaitsGrows(s, ReserveThree(s), cond, l);
    AwaitedLabelOk(a, s, EmitJumps(s, cond, l, l, l + 1), l);
    WithinGrows(cond, Emit2(cond, Instr.If(l), Goto(l + 1)), a.fn);
  }

  // ----- loops -----

  lemma WhileLayout(a: VM.Activation, s: Scope, cond: Scope, bodyEnd: Scope)
    requires Ok(s) && Ok(cond) && Ok(bodyEnd) && Awaits(s, cond, s.nextLabel + 1) && Grows(LoopStart(s), cond)
    requires Awaits(s, bodyEnd, s.nextLabel + 2) && Grows(BodyStart(s, cond), bodyEnd)
    requires Within(LoopEnd(s, bodyEnd), a.fn)
    ensures var l := s.nextLabel;
            && Within(Emit(bodyEnd, Goto(l)), a.fn) && Within(bodyEnd, a.fn)
            && Within(Emit2(cond, Instr.If(l + 1), Goto(l + 2)), a.fn) && Within(cond, a.fn) && Within(LoopStart(s), a.fn)
            && VM.LabelTarget(a.fn, l) == |s.fn.code|
            && VM.LabelTarget(a.fn, l + 1) == |cond.fn.code| + 2
            && VM.LabelTarget(a.fn, l + 2) == |bodyEnd.fn.code| + 1
    ensures LabelStep(a, |s.fn.code|, PutAwaited(s, ReserveThree(s), s.nextLabel))
    ensures LabelStep(a, |cond.fn.code| + 2, BodyStart(s, cond))
    ensures LabelStep(a, |bodyEnd.fn.code| + 1, LoopEnd(s, bodyEnd))
  {
    hide Grows, Within, Ok, Awaits, VM.Step, VM.Run, VM.LabelTarget, LabelStep;
    var l := s.nextLabel;
    var s0 := PutAwaited(s, ReserveThree(s), l);
    var start := LoopStart(s);
    var body := BodyStart(s, cond);
    AwaitedLabelOk(a, s, EmitGoto(s, bodyEnd, l, l + 2), l + 2);
    WithinGrows(bodyEnd, Emit(bodyEnd, Goto(l)), a.fn);
    WithinGrows(body, bodyEnd, a.fn);
    AwaitedLabelOk(a, s, EmitJumps(s, cond, l + 1, l + 1, l + 2), l + 1);
    WithinGrows(cond, Emit2(cond, Instr.If(l + 1), Goto(l + 2)), a.fn);
    WithinGrows(start, cond, a.fn);
    WithinGrows(s0, start, a.fn);
    AwaitedLabelOk(a, s, ReserveThree(s), l);
  }

  /** From the loop's first label to the start of its condition. */
  lemma LoopHeadOk(a: VM.Activation, s: Scope, st: VM.State)
    requires Ok(s) && st.ip == |s.fn.code| && Within(LoopStart(s), a.fn)
    requires LabelStep(a, |s.fn.code|, PutAwaited(s, ReserveThree(s), s.nextLabel))
    ensures VM.Run(a, st, 2) == VM.Running(Behind(LoopStart(s), st.stack, st.locals, st.world))
  {
    hide Grows, Within, Awaits, VM.Step, VM.Run;
    var s0 := PutLabel(ReserveThree(s), s.nextLabel);
    var st1 := st.(ip := st.ip + 1);
    TakeLabel(a, st.ip, s0, st);
    StepEmitted(a, s0, GarbageCollect, st1);
    assert st.stack[..|st.stack|] + [] == st.stack;
    Join(a, st, 1, st1, 1);
  }

  lemma {:induction false} WhileOk(a: VM.Activation, n: Node, s: Scope, f: Walker.Frame, st: VM.State, fuel: nat)
      returns (k: nat, locals: seq<Value>)
    requires Ok(s) && n.While? && Is(StmtSort, n)
    requires Ready(a, s, TranspileWhile(n, s), f, st)
    requires Finished(Walker.Exec(a.x, f, st.world, n, |s.fn.funcs|, fuel))
    ensures Ends(a, st, k, TranspileWhile(n, s), TablesOf(s), Walker.Exec(a.x, f, st.world, n, |s.fn.funcs|, fuel), locals)
    decreases fuel, n, 0
  {
    hide Ready, Matches, Ok, Grows, Within, Awaits, LabelStep, VM.Step, VM.Run, VM.LabelTarget, Transpile, Walker.Eval;
    hide Literals, Settled, TablesOf;
    var l := s.nextLabel;
    var (v, w1) := Walker.Eval(a.x, f, st.world, n.cond, |s.fn.funcs|).value;
    var start := LoopStart(s);
    var cond := Transpile(n.cond, false, start);
    AwaitsGrows(s, start, cond, l + 1);
    var body := BodyStart(s, cond);
    var bodyEnd := Transpile(n.body, false, body);
    AwaitsGrows(s, body, bodyEnd, l + 2);
    var r := LoopEnd(s, bodyEnd);
    assert r == TranspileWhile(n, s);
    ReadyParts(a, s, r, f, st);
    WhileLayout(a, s, cond, bodyEnd);
    LoopHeadOk(a, s, st);
    var st0 := Behind(start, st.stack, st.locals, st.world);
    ReadyHere(a, s, start, cond, f, st0);
    LiteralCount(n.cond, false, start);
    var k1 := EvalOk(a, n.cond, start, f, st0);
    var st1 := After(st0, cond, [v], w1);
    GrowsTrans(s, start, cond);
    SameTables(s, cond);
    var k2 := BranchOk(a, cond, l + 1, l + 2, st1, v.b, st.stack);
    var st2 := VM.State(VM.LabelTarget(a.fn, if v.b then l + 1 else l + 2), st.stack, st.locals, w1);
    Join(a, st, 2, st0, k1);
    Join(a, st, 2 + k1, st1, k2);
    TakeLabel(a, st2.ip, if v.b then body else r, st2);
    Join(a, st, 2 + k1 + k2, st2, 1);
    k := 2 + k1 + k2 + 1;
    if !v.b {
      locals := st.locals;
    } else {
      var st3 := Behind(body, st.stack, st.locals, w1);
      ReadyHere(a, s, body, bodyEnd, f, st3);
      var k3;
      k3, locals := ExecOk(a, n.body, body, f, st3, fuel);
      var once := Walker.Exec(a.x, f, w1, n.body, |s.fn.funcs| + Literals(n.cond), fuel);
      JoinEnds(a, st, k, st3, k3, bodyEnd, TablesOf(s), once, locals);
      k := k + k3;
      if once.Normal? {
        var st4 := Behind(bodyEnd, st.stack, locals, once.world);
        GrowsTrans(s, body, bodyEnd);
        SameTables(s, bodyEnd);
        GotoOk(a, bodyEnd, l, st4);
        Join(a, st, k, st4, 1);
        var st5 := VM.State(|s.fn.code|, st.stack, locals, once.world);
        GrowsRefl(s);
        ReadyHere(a, s, s, r, once.frame, st5);
        var k5;
        k5, locals := WhileOk(a, n, s, once.frame, st5, fuel - 1);
        JoinEnds(a, st, k + 1, st5, k5, r, TablesOf(s), Walker.Exec(a.x, once.frame, once.world, n, |s.fn.funcs|, fuel - 1), locals);
        k := k + 1 + k5;
      }
    }
  }

  // ----- whole functions -----

  /** A constant that is returned behind a body. */
  lemma ConstReturnOk(a: VM.Activation, c: Constant, s0: Scope, s: Scope, f: Walker.Frame, st: VM.State)
    requires Ok(s0) && Ok(s) && Grows(s0, s) && Settled(a, s0) && Within(Emit(LoadConstant(s, c), Instr.Return), a.fn)
    requires st.ip == |s.fn.code| && st.stack == [] && Matches(f, TablesOf(s0), a.refs, st.locals) && f.self == a.self
    ensures VM.Run(a, st, 2) == VM.Done(ConstantValue(c), st.locals, st.world)
  {
    hide Matches, Ok, Grows, Within, VM.Run, VM.Step, LoadConstant, Settled, Ready, TablesOf, ConstantValue;
    var s1 := LoadConstant(s, c);
    var r := Emit(s1, Instr.Return);
    GrowsTrans(s0, s, s1);
    ReadyHere(a, s0, s, s1, f, st) by { WithinGrows(s1, r, a.fn); }
    LoadOk(a, c, s, f, st);
    var st1 := After(st, s1, [ConstantValue(c)], st.world);
    ReadyHere(a, s0, s1, r, f, st1);
    StackOne([], ConstantValue(c));
    StepReady(a, s1, Instr.Return, f, st1);
    Join(a, st, 1, st1, 1);
  }

  /**
    Compiling a function preserves its meaning.  When the body's evaluation ends, by a return
    or by running off its end, the machine ends with the same value and world, and the local
    slots and cells hold the variables of the source frame.  No step of that run sees a
    second operand of And or Or that is no boolean.
   */
  lemma FunctionOk(x: Externals, self: FnPath, params: seq<string>, body: Node, s: Scope,
                   f: Walker.Frame, refs: seq<nat>, locals: seq<Value>, w: World, fuel: nat, strict: bool)
      returns (k: nat, locals': seq<Value>)
    requires Ok(s) && Is(BlockSort, body)
    requires Resolved(CompileFunction(params, body, s).code)
    requires Matches(f, TablesOf(Enter(params, body, s)), refs, locals) && f.self == self
    requires Walker.RunBody(x, f, w, body, fuel).Returned?
    ensures var r := Walker.RunBody(x, f, w, body, fuel);
            var a := VM.Activation(x, CompileFunction(params, body, s), self, refs, strict);
            VM.Run(a, VM.State(0, [], locals, w), k) == VM.Done(r.value, locals', r.world) &&
            Matches(r.frame, TablesOf(Enter(params, body, s)), refs, locals')
  {
    hide Matches, Ok, Grows, Within, VM.Run, Transpile, VM.Step, VM.Execute, Enter, Walker.Exec, LoadConstant, Leave, TablesOf, Resolved;
    var fn := CompileFunction(params, body, s);
    var a := VM.Activation(x, fn, self, refs, true);
    var s0 := Enter(params, body, s);
    var s1 := Transpile(body, false, s0);
    var s2 := LoadConstant(s1, ConstNone);
    var s3 := Emit(s2, Instr.Return);
    GrowsTrans(s1, s2, s3);
    LeaveWithin(s1);
    assert fn == Leave(s1).fn && Within(s3, fn);
    WithinGrows(s1, s3, fn);
    GrowsRefl(s0);
    var st := VM.State(0, [], locals, w);
    ReadyHere(a, s0, s0, s1, f, st);
    k, locals' := ExecOk(a, body, s0, f, st, fuel);
    var result := Walker.Exec(x, f, w, body, 0, fuel);
    if result.Normal? {
      var st1 := Behind(s1, [], locals', result.world);
      ConstReturnOk(a, ConstNone, s0, s1, result.frame, st1);
      Join(a, st, k, st1, 2);
      k := k + 2;
    }
    VM.StrictRun(a, st, k);
    assert a.(strict := true) == a;
  }

  lemma LeaveWithin(s: Scope)
    requires Ok(s)
    ensures Within(Emit(LoadConstant(s, ConstNone), Instr.Return), Leave(s).fn)
  {
  }
}
