/**
  The operand stack of compiled code: every expression leaves one value, every statement
  leaves the stack as it was, jumps and labels sit at an empty stack, and so the machine
  never pops or looks at an empty stack, whatever the program does.
 */
module StackDiscipline {
  import opened Runtime
  import opened Ast
  import opened Bytecode
  import opened NameTables
  import opened BytecodeCompiler
  import VM = VirtualMachine

  function Pushes(i: Instr): nat {
    match i
    case LoadConst(_) => 1
    case LoadFunc(_) => 1
    case LoadLocal(_) => 1
    case LoadGlobal(_) => 1
    case PushReference(_) => 1
    case LoadReference(_) => 1
    case AllocRecord => 1
    case FieldLoad(_) => 1
    case IndexLoad => 1
    case AllocClosure(_) => 1
    case Call(_) => 1
    case Bin(_) => 1
    case Un(_) => 1
    case Dup => 2
    case Swap => 2
    case _ => 0
  }

  /** The depth after an instruction; None where the discipline is broken. */
  function Effect(i: Instr, d: nat): Option<nat> {
    if VM.Pops(i) > d then None
    else if (i.Label? || i.Goto?) && d != 0 then None
    else if (i.If? || i.Return?) && d != 1 then None
    else Some(d - VM.Pops(i) + Pushes(i))
  }

  /** The depth behind straight-line code that starts at an empty stack. */
  function Flow(code: seq<Instr>): Option<nat> {
    if code == [] then Some(0) else
    var d :- Flow(code[..|code| - 1]);
    Effect(code[|code| - 1], d)
  }

  predicate JumpTo(i: Instr, l: nat) { (i.Goto? || i.If?) && i.target == l }

  /** Every jump goes to a placed label, or to one that is still to be placed. */
  ghost predicate Closed(code: seq<Instr>, labels: map<nat, nat>, pending: set<nat>) {
    forall p, l :: 0 <= p < |code| && JumpTo(code[p], l) ==> l in labels || l in pending
  }

  /** A label table entry points at its Label instruction. */
  ghost predicate Placed(code: seq<Instr>, labels: map<nat, nat>) {
    forall l :: l in labels ==> labels[l] < |code| && code[labels[l]] == Label(l)
  }

  ghost predicate Good(fn: Fn) {
    && Flow(fn.code) == Some(0) && Closed(fn.code, fn.labels, {}) && Placed(fn.code, fn.labels)
    && forall g :: g in fn.funcs ==> Good(g)
  }

  ghost predicate Disciplined(s: Scope, d: nat, pending: set<nat>) {
    && Flow(s.fn.code) == Some(d) && Closed(s.fn.code, s.fn.labels, pending)
    && forall g :: g in s.fn.funcs ==> Good(g)
  }

  /** Only code, labels and nested functions matter. */
  lemma SameFlow(s: Scope, t: Scope, d: nat, pending: set<nat>)
    requires Disciplined(s, d, pending)
    requires t.fn.code == s.fn.code && t.fn.labels == s.fn.labels && t.fn.funcs == s.fn.funcs
    ensures Disciplined(t, d, pending)
  {
    hide Good, Flow;
  }

  lemma EmitFlow(s: Scope, i: Instr, d: nat, pending: set<nat>)
    requires Ok(s) && !i.Label? && Disciplined(s, d, pending) && Effect(i, d).Some?
    requires forall l :: JumpTo(i, l) ==> l in pending || l in s.fn.labels
    ensures Disciplined(Emit(s, i), Effect(i, d).value, pending)
  {
    hide Good, Ok, Grows, Placed;
    var code := s.fn.code + [i];
    assert code[..|code| - 1] == s.fn.code;
  }

  lemma Emit2Flow(s: Scope, i: Instr, j: Instr, d: nat, pending: set<nat>)
    requires Ok(s) && !i.Label? && !j.Label? && Disciplined(s, d, pending)
    requires Effect(i, d).Some? && Effect(j, Effect(i, d).value).Some?
    requires forall l :: JumpTo(i, l) || JumpTo(j, l) ==> l in pending || l in s.fn.labels
    ensures Disciplined(Emit2(s, i, j), Effect(j, Effect(i, d).value).value, pending)
  {
    hide Disciplined;
    EmitFlow(s, i, d, pending);
    EmitFlow(Emit(s, i), j, Effect(i, d).value, pending);
  }

  lemma LabelFlow(s: Scope, l: nat, pending: set<nat>)
    requires Ok(s) && l < s.nextLabel && l !in s.fn.labels && Disciplined(s, 0, pending)
    ensures Disciplined(PutLabel(s, l), 0, pending)
  {
    hide Good, Ok, Grows, Placed;
    var code := s.fn.code + [Label(l)];
    assert code[..|code| - 1] == s.fn.code;
  }

  lemma LoadFlow(s: Scope, c: Constant, d: nat, pending: set<nat>)
    requires Ok(s) && Disciplined(s, d, pending)
    ensures Disciplined(LoadConstant(s, c), d + 1, pending)
  {
    hide Good, Ok, Grows, Disciplined, Flow;
    var s1 := InsertConstant(s, c);
    SameFlow(s, s1, d, pending);
    EmitFlow(s1, LoadConst(IndexOf(s1.fn.consts, c)), d, pending);
  }

  lemma NameFlow(x: string, storing: bool, s: Scope, d: nat, pending: set<nat>)
    requires Ok(s) && Disciplined(s, d, pending) && (storing ==> d > 0)
    ensures Disciplined(TranspileName(x, storing, s), if storing then d - 1 else d + 1, pending)
  {
    hide Flow, Ok, Grows, Good, Disciplined, Resolve;
    match Resolve(s, x)
    case GlobalPlace(k) => EmitFlow(s, if storing then StoreGlobal(k) else LoadGlobal(k), d, pending);
    case CellPlace(k) => EmitFlow(s, if storing then StoreReference(k) else LoadReference(k), d, pending);
    case LocalPlace(k) => EmitFlow(s, if storing then StoreLocal(k) else LoadLocal(k), d, pending);
    case Unresolved =>
      if storing && s.top {
        NewGlobalFlow(x, s, d, pending);
      } else {
        ThrowFlow(x, storing, s, d, pending);
      }
  }

  lemma NewGlobalFlow(x: string, s: Scope, d: nat, pending: set<nat>)
    requires Ok(s) && s.top && Disciplined(s, d, pending) && d > 0
    ensures Disciplined(StoreNewGlobal(x, s), d - 1, pending)
  {
    hide Flow, Grows, Good, Disciplined;
    var s1 := InsertName(s, x);
    var s2 := s1.(globals := Insert(s1.globals, x));
    SameFlow(s, s2, d, pending);
    EmitFlow(s2, StoreGlobal(IndexOf(s2.fn.names, x)), d, pending);
  }

  lemma ThrowFlow(x: string, storing: bool, s: Scope, d: nat, pending: set<nat>)
    requires Ok(s) && Disciplined(s, d, pending) && (storing ==> d > 0)
    ensures Disciplined(ThrowUnresolved(x, storing, s), if storing then d - 1 else d + 1, pending)
  {
    hide Flow, Grows, Good, Disciplined, Ok, InsertName;
    var s1 := InsertName(s, x);
    SameFlow(s, s1, d, pending);
    Emit2Flow(s1, if storing then Instr.Pop else LoadConst(0), ThrowUninitialized(IndexOf(s1.fn.names, x)), d, pending);
  }

  lemma {:induction false} PushRefsFlow(refs: seq<string>, table: seq<string>, base: nat, s: Scope, d: nat, pending: set<nat>)
    requires Ok(s) && (forall x :: x in refs ==> x in table) && Disciplined(s, d, pending)
    ensures Disciplined(PushRefs(refs, table, base, s), d + |refs|, pending)
    decreases |refs|
  {
    hide Good, Ok, Grows, Disciplined, Flow;
    if refs != [] {
      var k := |refs| - 1;
      var i := PushReference(base + IndexOf(table, refs[k]));
      EmitFlow(s, i, d, pending);
      PushRefsFlow(refs[..k], table, base, Emit(s, i), d + 1, pending);
    }
  }

  /** The depth behind a node, as a function of the depth before it. */
  function DepthAfter(sort: Sort, storing: bool, n: Node, d: nat): nat
    requires Enters(sort, storing, d)
  {
    match sort
    case ExprSort => d + 1
    case LhsSort => if storing then d - 1 else d + 1
    case StmtSort => 0
    case BlockSort => 0
    case ArgsSort => d + Length(n)
    case EntriesSort => d
  }

  /** Where a node of each sort may start: statements at an empty stack, fields on a record. */
  predicate Enters(sort: Sort, storing: bool, d: nat) {
    match sort
    case ExprSort => !storing
    case LhsSort => storing ==> d > 0
    case StmtSort => d == 0 && !storing
    case BlockSort => d == 0 && !storing
    case ArgsSort => !storing
    case EntriesSort => d > 0 && !storing
  }

  lemma {:induction false} TranspileFlow(sort: Sort, n: Node, storing: bool, s: Scope, d: nat, pending: set<nat>)
    requires Ok(s) && Is(sort, n) && Enters(sort, storing, d) && Disciplined(s, d, pending)
    ensures Disciplined(Transpile(n, storing, s), DepthAfter(sort, storing, n, d), pending)
    decreases n, 1
  {
    hide Ok, Grows, Disciplined, Flow, Good, TranspileName, LoadConstant, Leave, Enter, MakeClosure;
    hide TranspileIndex, TranspileField, TranspileCall, TranspileRecord, TranspileBinary, TranspileUnary;
    hide TranspileSeq, TranspileEntry, TranspileAssign, TranspileCallStmt, TranspileIf, TranspileWhile, TranspileReturn;
    match n
    case Empty =>
    case Seq(_, _) => SeqFlow(sort, n, s, d, pending);
    case Entry(_, _, _) => EntryFlow(n, s, d, pending);
    case Name(x) => NameFlow(x, storing, s, d, pending);
    case Index(_, _) => IndexFlow(n, storing, s, d, pending);
    case Field(_, _) => FieldFlow(n, storing, s, d, pending);
    case Assign(_, _) => AssignFlow(n, s, pending);
    case CallStmt(_) => CallStmtFlow(n, s, pending);
    case Global(_) =>
    case If(_, _, _) => IfFlow(n, s, pending);
    case While(_, _) => WhileFlow(n, s, pending);
    case Return(e) => ReturnFlow(n, s, pending);
    case Call(_, _) => CallFlow(n, s, d, pending);
    case Function(_, _) => FunctionFlow(n, s, d, pending);
    case Record(_) => RecordFlow(n, s, d, pending);
    case IntLit(i) => LoadFlow(s, ConstInt(i), d, pending);
    case StringLit(t) => LoadFlow(s, ConstString(t), d, pending);
    case BoolLit(b) => LoadFlow(s, ConstBool(b), d, pending);
    case NullLit => LoadFlow(s, ConstNone, d, pending);
    case BinExpr(_, _, _) => BinaryFlow(n, s, d, pending);
    case UnExpr(_, _) => UnaryFlow(n, s, d, pending);
  }

  lemma {:induction false} SeqFlow(sort: Sort, n: Node, s: Scope, d: nat, pending: set<nat>)
    requires n.Seq? && Ok(s) && Is(sort, n) && Enters(sort, false, d) && Disciplined(s, d, pending)
    ensures Disciplined(TranspileSeq(n, s), DepthAfter(sort, false, n, d), pending)
    decreases n, 0
  {
    hide Ok, Grows, Disciplined, Flow, Transpile;
    var s1 := Transpile(n.first, false, s);
    if sort == BlockSort {
      TranspileFlow(StmtSort, n.first, false, s, 0, pending);
      TranspileFlow(BlockSort, n.rest, false, s1, 0, pending);
    } else {
      TranspileFlow(ExprSort, n.first, false, s, d, pending);
      TranspileFlow(ArgsSort, n.rest, false, s1, d + 1, pending);
    }
  }

  lemma {:induction false} CallStmtFlow(n: Node, s: Scope, pending: set<nat>)
    requires n.CallStmt? && Ok(s) && Is(StmtSort, n) && Disciplined(s, 0, pending)
    ensures Disciplined(TranspileCallStmt(n, s), 0, pending)
    decreases n, 0
  {
    hide Ok, Grows, Disciplined, Flow, Transpile;
    TranspileFlow(ExprSort, n.call, false, s, 0, pending);
    Emit2Flow(Transpile(n.call, false, s), Instr.Pop, GarbageCollect, 1, pending);
  }

  lemma {:induction false} RecordFlow(n: Node, s: Scope, d: nat, pending: set<nat>)
    requires n.Record? && Ok(s) && Is(ExprSort, n) && Disciplined(s, d, pending)
    ensures Disciplined(TranspileRecord(n, s), d + 1, pending)
    decreases n, 0
  {
    hide Ok, Grows, Disciplined, Flow, Transpile;
    EmitFlow(s, AllocRecord, d, pending);
    TranspileFlow(EntriesSort, n.entries, false, Emit(s, AllocRecord), d + 1, pending);
  }

  lemma {:induction false} BinaryFlow(n: Node, s: Scope, d: nat, pending: set<nat>)
    requires n.BinExpr? && Ok(s) && Is(ExprSort, n) && Disciplined(s, d, pending)
    ensures Disciplined(TranspileBinary(n, s), d + 1, pending)
    decreases n, 0
  {
    hide Ok, Grows, Disciplined, Flow, Transpile;
    var first := if Reversed(n.bop) then n.right else n.left;
    var second := if Reversed(n.bop) then n.left else n.right;
    TranspileFlow(ExprSort, first, false, s, d, pending);
    var s1 := Transpile(first, false, s);
    TranspileFlow(ExprSort, second, false, s1, d + 1, pending);
    EmitFlow(Transpile(second, false, s1), Bin(BinaryInstr(n.bop)), d + 2, pending);
  }

  lemma {:induction false} UnaryFlow(n: Node, s: Scope, d: nat, pending: set<nat>)
    requires n.UnExpr? && Ok(s) && Is(ExprSort, n) && Disciplined(s, d, pending)
    ensures Disciplined(TranspileUnary(n, s), d + 1, pending)
    decreases n, 0
  {
    hide Ok, Grows, Disciplined, Flow, Transpile;
    TranspileFlow(ExprSort, n.operand, false, s, d, pending);
    EmitFlow(Transpile(n.operand, false, s), Un(UnaryInstr(n.uop)), d + 1, pending);
  }

  lemma {:induction false} EntryFlow(n: Node, s: Scope, d: nat, pending: set<nat>)
    requires n.Entry? && Ok(s) && Is(EntriesSort, n) && d > 0 && Disciplined(s, d, pending)
    ensures Disciplined(TranspileEntry(n, s), d, pending)
    decreases n, 0
  {
    hide Ok, Grows, Disciplined, Flow, Transpile;
    var s1 := Emit(s, Instr.Dup);
    EmitFlow(s, Instr.Dup, d, pending);
    var s2 := Transpile(n.value, false, s1);
    TranspileFlow(ExprSort, n.value, false, s1, d + 1, pending);
    var s3 := InsertName(s2, n.key);
    SameFlow(s2, s3, d + 2, pending);
    var i := FieldStore(IndexOf(s3.fn.names, n.key));
    EmitFlow(s3, i, d + 2, pending);
    TranspileFlow(EntriesSort, n.more, false, Emit(s3, i), d, pending);
  }

  lemma {:induction false} IndexFlow(n: Node, storing: bool, s: Scope, d: nat, pending: set<nat>)
    requires n.Index? && Ok(s) && Is(LhsSort, n) && (storing ==> d > 0) && Disciplined(s, d, pending)
    ensures Disciplined(TranspileIndex(n, storing, s), if storing then d - 1 else d + 1, pending)
    decreases n, 0
  {
    hide Ok, Grows, Disciplined, Flow, Transpile;
    TranspileFlow(LhsSort, n.base, false, s, d, pending);
    var s1 := Transpile(n.base, false, s);
    if storing {
      EmitFlow(s1, Instr.Swap, d + 1, pending);
    }
    var s2 := if storing then Emit(s1, Instr.Swap) else s1;
    TranspileFlow(ExprSort, n.index, false, s2, d + 1, pending);
    var s3 := Transpile(n.index, false, s2);
    if storing {
      Emit2Flow(s3, Instr.Swap, IndexStore, d + 2, pending);
    } else {
      EmitFlow(s3, IndexLoad, d + 2, pending);
    }
  }

  lemma {:induction false} FieldFlow(n: Node, storing: bool, s: Scope, d: nat, pending: set<nat>)
    requires n.Field? && Ok(s) && Is(LhsSort, n) && (storing ==> d > 0) && Disciplined(s, d, pending)
    ensures Disciplined(TranspileField(n, storing, s), if storing then d - 1 else d + 1, pending)
    decreases n, 0
  {
    hide Ok, Grows, Disciplined, Flow, Transpile, InsertName, Emit, Emit2;
    var s1 := InsertName(s, n.field);
    SameFlow(s, s1, d, pending);
    var k := IndexOf(s1.fn.names, n.field);
    TranspileFlow(LhsSort, n.base, false, s1, d, pending);
    var s2 := Transpile(n.base, false, s1);
    if storing {
      Emit2Flow(s2, Instr.Swap, FieldStore(k), d + 1, pending);
    } else {
      EmitFlow(s2, FieldLoad(k), d + 1, pending);
    }
  }

  lemma {:induction false} AssignFlow(n: Node, s: Scope, pending: set<nat>)
    requires n.Assign? && Ok(s) && Is(StmtSort, n) && Disciplined(s, 0, pending)
    ensures Disciplined(TranspileAssign(n, s), 0, pending)
    decreases n, 0
  {
    hide Ok, Grows, Flow, Transpile, Disciplined;
    var s1 := Announce(n.lhs, s);
    SameFlow(s, s1, 0, pending);
    TranspileFlow(ExprSort, n.expr, false, s1, 0, pending);
    TranspileFlow(LhsSort, n.lhs, true, Transpile(n.expr, false, s1), 1, pending);
  }

  lemma {:induction false} ReturnFlow(n: Node, s: Scope, pending: set<nat>)
    requires n.Return? && Ok(s) && Is(StmtSort, n) && Disciplined(s, 0, pending)
    ensures Disciplined(TranspileReturn(n, s), 0, pending)
    decreases n, 0
  {
    hide Ok, Grows, Flow, Transpile, Disciplined;
    TranspileFlow(ExprSort, n.expr, false, s, 0, pending);
    EmitFlow(Transpile(n.expr, false, s), Instr.Return, 1, pending);
    SameFlow(Emit(Transpile(n.expr, false, s), Instr.Return), TranspileReturn(n, s), 0, pending);
  }

  lemma {:induction false} CallFlow(n: Node, s: Scope, d: nat, pending: set<nat>)
    requires n.Call? && Ok(s) && Is(ExprSort, n) && Disciplined(s, d, pending)
    ensures Disciplined(TranspileCall(n, s), d + 1, pending)
    decreases n, 0
  {
    hide Ok, Grows, Disciplined, Flow, Transpile;
    TranspileFlow(ArgsSort, n.args, false, s, d, pending);
    var s1 := Transpile(n.args, false, s);
    TranspileFlow(LhsSort, n.target, false, s1, d + Length(n.args), pending);
    EmitFlow(Transpile(n.target, false, s1), Instr.Call(Length(n.args)), d + Length(n.args) + 1, pending);
  }

  lemma {:induction false} FunctionFlow(n: Node, s: Scope, d: nat, pending: set<nat>)
    requires n.Function? && Ok(s) && Is(ExprSort, n) && Disciplined(s, d, pending)
    ensures Disciplined(Transpile(n, false, s), d + 1, pending)
    decreases n, 0
  {
    hide Ok, Flow, Enter, Good, MakeClosure;
    var s0 := Enter(n.params, n.body, s);
    EnterFlow(n.params, n.body, s);
    TranspileFlow(BlockSort, n.body, false, s0, 0, {});
    var s1 := Transpile(n.body, false, s0);
    LeaveFlow(s1);
    ClosureFlow(n.body, Leave(s1), s, d, pending);
  }

  lemma EnterFlow(params: seq<string>, body: Node, s: Scope)
    requires Ok(s)
    ensures Disciplined(Enter(params, body, s), 0, {})
  {
    hide Ok, Grows, Good;
  }

  lemma LeaveFlow(s: Scope)
    requires Ok(s) && Disciplined(s, 0, {})
    ensures Good(Leave(s).fn)
  {
    hide Flow, Grows;
    LoadFlow(s, ConstNone, 0, {});
    EmitFlow(LoadConstant(s, ConstNone), Instr.Return, 1, {});
  }

  lemma ClosureFlow(body: Node, inner: Scope, s: Scope, d: nat, pending: set<nat>)
    requires Ok(s) && s.nextLabel <= inner.nextLabel && Good(inner.fn) && Disciplined(s, d, pending)
    ensures Disciplined(MakeClosure(body, inner, s), d + 1, pending)
  {
    hide Flow, Good, Grows, PushRefs, CellRefs, FreeRefs, AddFunction, Disciplined;
    var cellRefs, freeRefs := CellRefs(body, s), FreeRefs(body, s);
    var s1 := AddFunction(s, inner);
    AddFunctionFlow(s, inner, d, pending);
    PushRefsFlow(freeRefs, s.fn.free, |s.fn.cells|, s1, d, pending);
    var s2 := PushRefs(freeRefs, s.fn.free, |s.fn.cells|, s1);
    PushRefsFlow(cellRefs, s.fn.cells, 0, s2, d + |freeRefs|, pending);
    var s3 := PushRefs(cellRefs, s.fn.cells, 0, s2);
    Emit2Flow(s3, LoadFunc(|s.fn.funcs|), AllocClosure(|cellRefs| + |freeRefs|), d + |freeRefs| + |cellRefs|, pending);
  }

  lemma AddFunctionFlow(s: Scope, inner: Scope, d: nat, pending: set<nat>)
    requires Ok(s) && s.nextLabel <= inner.nextLabel && Good(inner.fn) && Disciplined(s, d, pending)
    ensures Disciplined(AddFunction(s, inner), d, pending)
  {
    hide Flow, Grows, Ok, Good;
  }

  lemma MorePending(s: Scope, d: nat, pending: set<nat>, more: set<nat>)
    requires Disciplined(s, d, pending) && pending <= more
    ensures Disciplined(s, d, more)
  {
  }

  lemma AwaitedFlow(s: Scope, t: Scope, l: nat, pending: set<nat>)
    requires Ok(s) && Awaits(s, t, l) && l < s.nextLabel + 3 && Disciplined(t, 0, pending)
    ensures Disciplined(PutAwaited(s, t, l), 0, pending)
  {
    hide Disciplined;
    LabelFlow(t, l, pending);
  }

  lemma ThenStartFlow(s: Scope, cond: Scope, pending: set<nat>)
    requires Ok(s) && Grows(ReserveThree(s), cond) && Ok(cond) && Disciplined(cond, 1, pending)
    requires s.nextLabel in pending && s.nextLabel + 1 in pending
    ensures Disciplined(ThenStart(s, cond), 0, pending)
  {
    hide Ok, Grows, Awaits, Disciplined, Flow, ReserveThree;
    var l := s.nextLabel;
    AwaitsGrows(s, ReserveThree(s), cond, l);
    Emit2Flow(cond, Instr.If(l), Goto(l + 1), 1, pending);
    AwaitedFlow(s, EmitJumps(s, cond, l, l, l + 1), l, pending);
  }

  lemma ElseStartFlow(s: Scope, thnEnd: Scope, pending: set<nat>)
    requires Ok(s) && Awaits(s, thnEnd, s.nextLabel + 1) && Disciplined(thnEnd, 0, pending)
    requires s.nextLabel + 2 in pending
    ensures Disciplined(ElseStart(s, thnEnd), 0, pending)
  {
    hide Grows, Disciplined, Flow;
    var l := s.nextLabel;
    EmitFlow(thnEnd, Goto(l + 2), 0, pending);
    AwaitedFlow(s, EmitGoto(s, thnEnd, l + 2, l + 1), l + 1, pending);
  }

  lemma {:induction false} IfFlow(n: Node, s: Scope, pending: set<nat>)
    requires n.If? && Ok(s) && Is(StmtSort, n) && Disciplined(s, 0, pending)
    ensures Disciplined(TranspileIf(n, s), 0, pending)
    decreases n, 0
  {
    hide Ok, Grows, Awaits, Disciplined, Flow, Transpile, ThenStart, ElseStart, PutAwaited;
    var l := s.nextLabel;
    var all := pending + {l, l + 1, l + 2};
    var s0 := ReserveThree(s);
    MorePending(s, 0, pending, all);
    SameFlow(s, s0, 0, all);
    TranspileFlow(ExprSort, n.cond, false, s0, 0, all);
    var cond := Transpile(n.cond, false, s0);
    ThenStartFlow(s, cond, all);
    var thn := ThenStart(s, cond);
    TranspileFlow(BlockSort, n.thn, false, thn, 0, all);
    var thnEnd := Transpile(n.thn, false, thn);
    AwaitsGrows(s, thn, thnEnd, l + 1);
    ElseStartFlow(s, thnEnd, all);
    var els := ElseStart(s, thnEnd);
    TranspileFlow(BlockSort, n.els, false, els, 0, all);
    var elsEnd := Transpile(n.els, false, els);
    AwaitsGrows(s, els, elsEnd, l + 2);
    AwaitedFlow(s, elsEnd, l + 2, all);
    IfLabels(s, cond, thnEnd, elsEnd);
    SettleThree(TranspileIf(n, s), pending, l);
  }

  /** All three labels of a branch are placed in the end. */
  lemma IfLabels(s: Scope, cond: Scope, thnEnd: Scope, elsEnd: Scope)
    requires Ok(s) && Ok(cond) && Grows(ReserveThree(s), cond)
    requires Awaits(s, thnEnd, s.nextLabel + 1) && Grows(ThenStart(s, cond), thnEnd)
    requires Awaits(s, elsEnd, s.nextLabel + 2) && Grows(ElseStart(s, thnEnd), elsEnd)
    ensures var r := PutAwaited(s, elsEnd, s.nextLabel + 2);
            s.nextLabel in r.fn.labels && s.nextLabel + 1 in r.fn.labels && s.nextLabel + 2 in r.fn.labels
  {
    hide Ok, Awaits;
    var l := s.nextLabel;
    assert l in ThenStart(s, cond).fn.labels;
    assert l in thnEnd.fn.labels;
    assert l in ElseStart(s, thnEnd).fn.labels && l + 1 in ElseStart(s, thnEnd).fn.labels;
    assert l in elsEnd.fn.labels && l + 1 in elsEnd.fn.labels;
  }

  lemma SettleThree(s: Scope, pending: set<nat>, l: nat)
    requires Disciplined(s, 0, pending + {l, l + 1, l + 2})
    requires l in s.fn.labels && l + 1 in s.fn.labels && l + 2 in s.fn.labels
    ensures Disciplined(s, 0, pending)
  {
    hide Good, Flow;
  }

  lemma LoopStartFlow(s: Scope, pending: set<nat>)
    requires Ok(s) && Disciplined(s, 0, pending)
    ensures Disciplined(LoopStart(s), 0, pending)
  {
    hide Ok, Grows, Awaits, Disciplined, Flow;
    SameFlow(s, ReserveThree(s), 0, pending);
    AwaitedFlow(s, ReserveThree(s), s.nextLabel, pending);
    EmitFlow(PutAwaited(s, ReserveThree(s), s.nextLabel), GarbageCollect, 0, pending);
  }

  lemma BodyStartFlow(s: Scope, cond: Scope, pending: set<nat>)
    requires Ok(s) && Awaits(s, cond, s.nextLabel + 1) && Disciplined(cond, 1, pending)
    requires s.nextLabel + 1 in pending && s.nextLabel + 2 in pending
    ensures Disciplined(BodyStart(s, cond), 0, pending)
  {
    hide *;
    var l := s.nextLabel;
    JumpsFlow(s, cond, l + 1, l + 1, l + 2, pending);
    AwaitedFlow(s, EmitJumps(s, cond, l + 1, l + 1, l + 2), l + 1, pending);
    BodyStartIs(s, cond);
  }

  lemma BodyStartIs(s: Scope, cond: Scope)
    requires Ok(s) && Awaits(s, cond, s.nextLabel + 1)
    ensures var l := s.nextLabel; BodyStart(s, cond) == PutAwaited(s, EmitJumps(s, cond, l + 1, l + 1, l + 2), l + 1)
  {
    hide Ok, Awaits, Grows, PutAwaited, EmitJumps;
  }

  /** The two jumps behind a condition leave an empty stack. */
  lemma JumpsFlow(s: Scope, cond: Scope, l: nat, yes: nat, no: nat, pending: set<nat>)
    requires Awaits(s, cond, l) && Disciplined(cond, 1, pending) && yes in pending && no in pending
    ensures Disciplined(EmitJumps(s, cond, l, yes, no), 0, pending)
  {
    hide Grows, Disciplined, Flow;
    Emit2Flow(cond, Instr.If(yes), Goto(no), 1, pending);
  }

  lemma LoopEndFlow(s: Scope, bodyEnd: Scope, pending: set<nat>)
    requires Ok(s) && Awaits(s, bodyEnd, s.nextLabel + 2) && Disciplined(bodyEnd, 0, pending)
    requires s.nextLabel in pending
    ensures Disciplined(LoopEnd(s, bodyEnd), 0, pending)
  {
    hide Grows, Disciplined, Flow;
    var l := s.nextLabel;
    EmitFlow(bodyEnd, Goto(l), 0, pending);
    AwaitedFlow(s, EmitGoto(s, bodyEnd, l, l + 2), l + 2, pending);
  }

  lemma {:induction false} WhileFlow(n: Node, s: Scope, pending: set<nat>)
    requires n.While? && Ok(s) && Is(StmtSort, n) && Disciplined(s, 0, pending)
    ensures Disciplined(TranspileWhile(n, s), 0, pending)
    decreases n, 0
  {
    hide Ok, Grows, Awaits, Disciplined, Flow, Transpile, LoopStart, BodyStart, LoopEnd;
    var l := s.nextLabel;
    var all := pending + {l, l + 1, l + 2};
    MorePending(s, 0, pending, all);
    LoopStartFlow(s, all);
    var start := LoopStart(s);
    TranspileFlow(ExprSort, n.cond, false, start, 0, all);
    var cond := Transpile(n.cond, false, start);
    AwaitsGrows(s, start, cond, l + 1);
    BodyStartFlow(s, cond, all);
    var body := BodyStart(s, cond);
    TranspileFlow(BlockSort, n.body, false, body, 0, all);
    var bodyEnd := Transpile(n.body, false, body);
    AwaitsGrows(s, body, bodyEnd, l + 2);
    LoopEndFlow(s, bodyEnd, all);
    LoopLabels(s, cond, bodyEnd);
    SettleThree(LoopEnd(s, bodyEnd), pending, l);
  }

  /** All three labels of a loop are placed in the end. */
  lemma LoopLabels(s: Scope, cond: Scope, bodyEnd: Scope)
    requires Ok(s) && Awaits(s, cond, s.nextLabel + 1) && Grows(LoopStart(s), cond)
    requires Awaits(s, bodyEnd, s.nextLabel + 2) && Grows(BodyStart(s, cond), bodyEnd)
    ensures var labels := LoopEnd(s, bodyEnd).fn.labels;
            s.nextLabel in labels && s.nextLabel + 1 in labels && s.nextLabel + 2 in labels
  {
    hide Ok, Awaits;
    var l := s.nextLabel;
    assert l in LoopStart(s).fn.labels;
    assert l in cond.fn.labels;
    assert l in BodyStart(s, cond).fn.labels && l + 1 in BodyStart(s, cond).fn.labels;
    assert l in bodyEnd.fn.labels && l + 1 in bodyEnd.fn.labels;
  }

  // ----- compiled functions and programs -----

  /** Every compiled function, and every function nested in it, keeps the stack discipline. */
  lemma FunctionGood(params: seq<string>, body: Node, s: Scope)
    requires Ok(s) && Is(BlockSort, body)
    ensures Good(CompileFunction(params, body, s))
  {
    hide Ok, Flow, Enter, Good, Transpile, Leave;
    EnterFlow(params, body, s);
    TranspileFlow(BlockSort, body, false, Enter(params, body, s), 0, {});
    LeaveFlow(Transpile(body, false, Enter(params, body, s)));
  }

  lemma {:induction false} NativesFlow(names: seq<string>, s: Scope)
    requires Ok(s) && Disciplined(s, 0, {})
    ensures Disciplined(AddNatives(names, s), 0, {})
    decreases |names|
  {
    hide Flow, Grows, Good, Disciplined;
    if names != [] {
      var i := LoadFunc(|names| - |BUILTINS| - 1);
      var s1 := Emit(s, i);
      EmitFlow(s, i, 0, {});
      var s2 := InsertName(s1, names[0]);
      var s3 := s2.(globals := Insert(s2.globals, names[0]));
      SameFlow(s1, s3, 1, {});
      var j := StoreGlobal(IndexOf(s3.fn.names, names[0]));
      EmitFlow(s3, j, 1, {});
      NativesFlow(names[1..], Emit(s3, j));
    }
  }

  lemma StartFlow()
    ensures Ok(START) && Disciplined(START, 0, {})
  {
  }

  lemma ProgramGood(block: Node)
    requires Is(BlockSort, block)
    ensures Good(CompileProgram(block))
  {
    hide Flow, Grows, Ok, Transpile, AddNatives, LoadConstant;
    StartFlow();
    NativesFlow(BUILTINS, START);
    var s := AddNatives(BUILTINS, START);
    TranspileFlow(BlockSort, block, false, s, 0, {});
    var s1 := Transpile(block, false, s);
    LabelsPlaced(s1);
    if !s1.returned {
      LoadFlow(s1, ConstInt(0), 0, {});
      EmitFlow(LoadConstant(s1, ConstInt(0)), Instr.Return, 1, {});
      LabelsPlaced(Emit(LoadConstant(s1, ConstInt(0)), Instr.Return));
    }
  }

  lemma LabelsPlaced(s: Scope)
    requires Ok(s)
    ensures Placed(s.fn.code, s.fn.labels)
  {
  }

  // ----- the running machine -----

  /** The depth in front of an instruction. */
  lemma {:induction false} FlowPrefix(code: seq<Instr>, k: nat)
    requires k < |code| && Flow(code).Some?
    ensures Flow(code[..k]).Some? && Flow(code[..k + 1]) == Effect(code[k], Flow(code[..k]).value)
    ensures Flow(code[..k + 1]).Some?
    decreases |code|
  {
    var init := code[..|code| - 1];
    if k < |init| {
      FlowPrefix(init, k);
      assert init[..k] == code[..k] && init[..k + 1] == code[..k + 1];
    } else {
      assert code[..k + 1] == code;
    }
  }

  /** The machine's stack is as deep as the straight-line count says, wherever it is. */
  ghost predicate AtDepth(fn: Fn, st: VM.State) {
    st.ip <= |fn.code| && Flow(fn.code[..st.ip]) == Some(|st.stack|)
  }

  lemma ExecuteDepth(a: VM.Activation, i: Instr, st: VM.State)
    requires VM.Pops(i) <= |st.stack| && VM.Execute(a, i, st).Running?
    ensures var t := VM.Execute(a, i, st).state;
            |t.stack| == |st.stack| - VM.Pops(i) + Pushes(i) && (t.ip == st.ip + 1 || (exists l :: JumpTo(i, l) && t.ip == VM.LabelTarget(a.fn, l)))
  {
    hide Binary, Text, RecordGet, RecordInsert, VM.PopCells;
    if i.If? || i.Goto? {
      assert JumpTo(i, i.target);
    }
  }

  lemma StepDepth(a: VM.Activation, st: VM.State)
    requires Good(a.fn) && AtDepth(a.fn, st)
    ensures !VM.Step(a, st).Underflow?
    ensures VM.Step(a, st).Running? ==> AtDepth(a.fn, VM.Step(a, st).state)
  {
    hide VM.Execute, Flow;
    if st.ip < |a.fn.code| {
      var i := a.fn.code[st.ip];
      FlowPrefix(a.fn.code, st.ip);
      ExecuteKeeps(a, i, st);
      var o := VM.Execute(a, i, st);
      if o.Running? {
        ExecuteDepth(a, i, st);
        if o.state.ip != st.ip + 1 {
          var l :| JumpTo(i, l) && o.state.ip == VM.LabelTarget(a.fn, l);
          FlowPrefix(a.fn.code, a.fn.labels[l]);
        }
      }
    }
  }

  lemma ExecuteKeeps(a: VM.Activation, i: Instr, st: VM.State)
    requires VM.Pops(i) <= |st.stack|
    ensures !VM.Execute(a, i, st).Underflow?
  {
    hide Binary, Text, RecordGet, RecordInsert, VM.PopCells;
  }

  /** However long it runs, and whatever it reads, the machine never underflows. */
  lemma {:induction false} NeverUnderflows(a: VM.Activation, st: VM.State, n: nat)
    requires Good(a.fn) && AtDepth(a.fn, st)
    ensures !VM.Run(a, st, n).Underflow?
    ensures VM.Run(a, st, n).Running? ==> AtDepth(a.fn, VM.Run(a, st, n).state)
    decreases n
  {
    hide VM.Step, Good, AtDepth;
    if n > 0 {
      StepDepth(a, st);
      if VM.Step(a, st).Running? {
        NeverUnderflows(a, VM.Step(a, st).state, n - 1);
      }
    }
  }

  /** The statement about the sources: no run of compiled code pops an empty stack. */
  lemma CompiledNeverUnderflows(x: Externals, self: FnPath, refs: seq<nat>, strict: bool, params: seq<string>,
                                body: Node, s: Scope, locals: seq<Value>, w: World, n: nat)
    requires Ok(s) && Is(BlockSort, body)
    ensures var a := VM.Activation(x, CompileFunction(params, body, s), self, refs, strict);
            !VM.Run(a, VM.State(0, [], locals, w), n).Underflow?
  {
    hide Good, Ok, VM.Run, CompileFunction;
    FunctionGood(params, body, s);
    var a := VM.Activation(x, CompileFunction(params, body, s), self, refs, strict);
    assert a.fn.code[..0] == [];
    NeverUnderflows(a, VM.State(0, [], locals, w), n);
  }
}
