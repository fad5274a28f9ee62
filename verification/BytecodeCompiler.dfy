/**
  The compiler from syntax trees to stack bytecode, as a function on the state of the
  function being compiled.  Compiler.dfy has the class that does it in place.
 */
module BytecodeCompiler {
  import opened Runtime
  import opened Ast
  import opened Bytecode
  import opened NameTables
  import opened Scanners

  /** FunctionLinkedList, with the global label counter. */
  datatype Scope = Scope(
    fn: Fn,
    freeRefs: seq<string>,  // free_reference_vars_
    globals: seq<string>,
    storing: string,
    returned: bool,
    top: bool,
    nextLabel: nat,
    last: Option<Scope>)

  /** What every scope satisfies while it is filled. */
  ghost predicate Ok(s: Scope) {
    && (forall x :: x in s.freeRefs ==> x in s.fn.free)
    && (forall x :: x in s.globals ==> x in s.fn.names)
    && LabelsOk(s.fn.code, s.fn.labels, s.nextLabel)
  }

  /** The label table and the Label instructions say the same. */
  ghost predicate LabelsOk(code: seq<Instr>, labels: map<nat, nat>, next: nat) {
    && (forall l :: l in labels ==> l < next && labels[l] < |code| && code[labels[l]] == Label(l))
    && (forall p :: 0 <= p < |code| && code[p].Label? ==>
          code[p].target in labels && labels[code[p].target] == p)
  }

  /** `r` is a later state of `s`: code and tables only grow, new labels are fresh. */
  ghost predicate Grows(s: Scope, r: Scope) {
    && s.fn.code <= r.fn.code && s.fn.consts <= r.fn.consts && s.fn.names <= r.fn.names
    && s.fn.funcs <= r.fn.funcs
    && (forall l :: l in s.fn.labels ==> l in r.fn.labels && r.fn.labels[l] == s.fn.labels[l])
    && (forall l :: l in r.fn.labels ==> l in s.fn.labels || s.nextLabel <= l < r.nextLabel)
    && s.nextLabel <= r.nextLabel
    && s.globals <= r.globals && (!s.top ==> r.globals == s.globals)
    && SameShape(s, r)
  }

  ghost predicate SameShape(s: Scope, r: Scope) {
    && r.fn.locals == s.fn.locals && r.fn.cells == s.fn.cells && r.fn.free == s.fn.free
    && r.fn.paramCount == s.fn.paramCount && r.fn.argMapping == s.fn.argMapping
    && r.freeRefs == s.freeRefs && r.top == s.top && r.last == s.last
  }

  lemma GrowsRefl(s: Scope)
    ensures Grows(s, s)
  {
  }

  lemma GrowsTrans(a: Scope, b: Scope, c: Scope)
    requires Grows(a, b) && Grows(b, c)
    ensures Grows(a, c)
  {
  }

  // ----- emitting -----

  function Emit(s: Scope, i: Instr): (r: Scope)
    requires Ok(s) && !i.Label?
    ensures Ok(r) && Grows(s, r)
    ensures r.fn.code == s.fn.code + [i] && r.fn.consts == s.fn.consts && r.fn.names == s.fn.names
    ensures r.globals == s.globals && r.fn.labels == s.fn.labels && r.fn.funcs == s.fn.funcs
  {
    s.(fn := s.fn.(code := s.fn.code + [i]))
  }

  function Emit2(s: Scope, i: Instr, j: Instr): (r: Scope)
    requires Ok(s) && !i.Label? && !j.Label?
    ensures Ok(r) && Grows(s, r)
    ensures r.fn.code == s.fn.code + [i, j] && r.fn.labels == s.fn.labels && r.fn.funcs == s.fn.funcs
  {
    GrowsTrans(s, Emit(s, i), Emit(Emit(s, i), j));
    Emit(Emit(s, i), j)
  }

  function EmitReturn(s: Scope): (r: Scope)
    requires Ok(s)
    ensures Ok(r) && Grows(s, r) && r.fn == Emit(s, Instr.Return).fn
  {
    Emit(s, Instr.Return).(returned := true)
  }

  /** An assignment tells the scanners which name it stores to. */
  function Announce(lhs: Node, s: Scope): (r: Scope)
    requires Ok(s)
    ensures Ok(r) && Grows(s, r) && r.fn == s.fn && r.globals == s.globals
  {
    if lhs.Name? then s.(storing := lhs.name) else s
  }

  function InsertConstant(s: Scope, c: Constant): (r: Scope)
    requires Ok(s)
    ensures Ok(r) && Grows(s, r) && r.fn == s.fn.(consts := r.fn.consts) && c in r.fn.consts
  {
    s.(fn := s.fn.(consts := Insert(s.fn.consts, c)))
  }

  function LoadConstant(s: Scope, c: Constant): (r: Scope)
    requires Ok(s)
    ensures Ok(r) && Grows(s, r) && r.fn.funcs == s.fn.funcs
    ensures |r.fn.code| == |s.fn.code| + 1
    ensures var i := r.fn.code[|s.fn.code|];
            i.LoadConst? && i.index < |r.fn.consts| && r.fn.consts[i.index] == c
  {
    var s1 := InsertConstant(s, c);
    GrowsTrans(s, s1, Emit(s1, LoadConst(IndexOf(s1.fn.consts, c))));
    Emit(s1, LoadConst(IndexOf(s1.fn.consts, c)))
  }

  function InsertName(s: Scope, x: string): (r: Scope)
    requires Ok(s)
    ensures Ok(r) && Grows(s, r) && x in r.fn.names
    ensures r == s.(fn := s.fn.(names := r.fn.names))
  {
    s.(fn := s.fn.(names := Insert(s.fn.names, x)))
  }

  /** Emission of an instruction whose operand is the index of a name. */
  function EmitNamed(s: Scope, x: string, i: nat -> Instr): (r: Scope)
    requires Ok(s) && forall k :: !i(k).Label?
    ensures Ok(r) && Grows(s, r) && x in r.fn.names
    ensures r.fn.code == s.fn.code + [i(IndexOf(r.fn.names, x))] && r.fn.labels == s.fn.labels && r.fn.funcs == s.fn.funcs
  {
    var s1 := InsertName(s, x);
    GrowsTrans(s, s1, Emit(s1, i(IndexOf(s1.fn.names, x))));
    Emit(s1, i(IndexOf(s1.fn.names, x)))
  }

  function Reserve(s: Scope): (r: Scope)
    requires Ok(s)
    ensures Ok(r) && Grows(s, r) && r.fn == s.fn && r.nextLabel == s.nextLabel + 1
  {
    s.(nextLabel := s.nextLabel + 1)
  }

  function PutLabel(s: Scope, l: nat): (r: Scope)
    requires Ok(s) && l < s.nextLabel && l !in s.fn.labels
    ensures Ok(r)
    ensures r.fn.code == s.fn.code + [Label(l)] && r.fn.labels == s.fn.labels[l := |s.fn.code|]
    ensures r == s.(fn := s.fn.(code := r.fn.code, labels := r.fn.labels))
  {
    hide LabelsOk;
    LabelPut(s.fn.code, s.fn.labels, s.nextLabel, l);
    s.(fn := s.fn.(labels := s.fn.labels[l := |s.fn.code|], code := s.fn.code + [Label(l)]))
  }

  lemma LabelPut(code: seq<Instr>, labels: map<nat, nat>, next: nat, l: nat)
    requires LabelsOk(code, labels, next) && l < next && l !in labels
    ensures LabelsOk(code + [Label(l)], labels[l := |code|], next)
  {
  }

  // ----- names -----

  /** Where the compiled code finds a variable. */
  datatype Place = GlobalPlace(name: nat) | CellPlace(cell: nat) | LocalPlace(local: nat) | Unresolved

  function Resolve(s: Scope, x: string): (p: Place)
    requires Ok(s)
    ensures p.CellPlace? ==> p.cell < |s.fn.cells| + |s.fn.free|
    ensures p.LocalPlace? ==> p.local < |s.fn.locals|
    ensures p.GlobalPlace? <==> x in s.globals
    ensures p.GlobalPlace? ==> p.name < |s.fn.names| && s.fn.names[p.name] == x
  {
    if x in s.globals then GlobalPlace(IndexOf(s.fn.names, x))
    else if x in s.fn.free then CellPlace(|s.fn.cells| + IndexOf(s.fn.free, x))
    else if x in s.fn.cells then CellPlace(IndexOf(s.fn.cells, x))
    else if x in s.fn.locals then LocalPlace(IndexOf(s.fn.locals, x))
    else Unresolved
  }

  function TranspileName(x: string, storing: bool, s: Scope): (r: Scope)
    requires Ok(s)
    ensures Ok(r) && Grows(s, r) && r.fn.funcs == s.fn.funcs
  {
    match Resolve(s, x)
    case GlobalPlace(k) => Emit(s, if storing then StoreGlobal(k) else LoadGlobal(k))
    case CellPlace(k) => Emit(s, if storing then StoreReference(k) else LoadReference(k))
    case LocalPlace(k) => Emit(s, if storing then StoreLocal(k) else LoadLocal(k))
    case Unresolved =>
      if storing && s.top then StoreNewGlobal(x, s) else ThrowUnresolved(x, storing, s)
  }

  /** A name first assigned at the top level becomes a global. */
  function StoreNewGlobal(x: string, s: Scope): (r: Scope)
    requires Ok(s) && s.top
    ensures Ok(r) && Grows(s, r) && r.fn.funcs == s.fn.funcs
  {
    var s1 := InsertName(s, x);
    var s2 := s1.(globals := Insert(s1.globals, x));
    var r := Emit(s2, StoreGlobal(IndexOf(s2.fn.names, x)));
    GrowsTrans(s, s1, s2);
    GrowsTrans(s, s2, r);
    r
  }

  function ThrowUnresolved(x: string, storing: bool, s: Scope): (r: Scope)
    requires Ok(s)
    ensures Ok(r) && Grows(s, r) && r.fn.funcs == s.fn.funcs
  {
    var s1 := InsertName(s, x);
    var r := Emit2(s1, if storing then Instr.Pop else LoadConst(0), ThrowUninitialized(IndexOf(s1.fn.names, x)));
    GrowsTrans(s, s1, r);
    r
  }

  // ----- operators -----

  /** visitBinop: whether the visit method of the operator asks for the reverse order. */
  predicate Reversed(op: BinSym) {
    match op
    case LT => true
    case LTE => true
    case _ => false
  }

  /** `<` and `<=`, whose operands are compiled in the other order, use the opposite comparison. */
  function BinaryInstr(op: BinSym): BinOp {
    match op
    case OR => Or
    case AND => And
    case LT => Gt
    case LTE => Geq
    case GT => Gt
    case GTE => Geq
    case EQ => Eq
    case PLUS => BinOp.Add
    case MINUS => Sub
    case MUL => Mul
    case DIV => Div
  }

  function UnaryInstr(op: UnSym): UnOp {
    match op
    case NOT => UnOp.Not
    case NEG => UnOp.Neg
  }

  // ----- nested functions -----

  /** The nearest enclosing scope that knows a global, or the assignment under way at the top. */
  predicate GlobalAbove(x: string, last: Option<Scope>) {
    last.Some? &&
    (x in last.value.globals || GlobalAbove(x, last.value.last) ||
     (last.value.last.None? && last.value.storing == x))
  }

  /** CompilerDependenciesScanner::visit(Name). */
  function DependOn(x: string, s: Scope): (r: Scope)
    requires Ok(s)
    ensures Ok(r) && SameShape(s, r) && r.fn == s.fn.(names := r.fn.names)
    ensures r.nextLabel == s.nextLabel
  {
    if x in s.fn.free || x in s.fn.locals || x in s.fn.names then s
    else if GlobalAbove(x, s.last) then
      s.(globals := Insert(s.globals, x), fn := s.fn.(names := Insert(s.fn.names, x)))
    else s
  }

  function Depend(n: Node, s: Scope): (r: Scope)
    requires Ok(s)
    ensures Ok(r) && SameShape(s, r) && r.fn == s.fn.(names := r.fn.names)
    ensures r.nextLabel == s.nextLabel
    decreases n
  {
    match n
    case Seq(a, b) => Depend(b, Depend(a, s))
    case Entry(_, v, m) => Depend(m, Depend(v, s))
    case Name(x) => DependOn(x, s)
    case Index(b, i) => Depend(i, Depend(b, s))
    case Field(b, f) => DependOn(f, Depend(b, s))
    case Assign(l, e) => Depend(e, Depend(l, s))
    case CallStmt(c) => Depend(c, s)
    case If(c, t, e) => Depend(e, Depend(t, Depend(c, s)))
    case While(c, b) => Depend(b, Depend(c, s))
    case Return(e) => Depend(e, s)
    case Call(t, args) => Depend(args, Depend(t, s))
    case Record(es) => Depend(es, s)
    case BinExpr(_, l, r) => Depend(r, Depend(l, s))
    case UnExpr(_, e) => Depend(e, s)
    case _ => s
  }

  /** The names captured from the enclosing scope: its own cells, then cells it captured. */
  function CellRefs(body: Node, s: Scope): (refs: seq<string>)
    ensures Distinct(refs) && forall x :: x in refs ==> x in s.fn.cells
  {
    var globals := ScanGlobals(body, []);
    var locals := ScanLocals(body, globals, []);
    ScanRefsGrows(body, false, ToSet(s.fn.cells) - ToSet(locals) - ToSet(globals), RefScan({}, []));
    CapturedFrom(s.fn.cells, locals, globals, body)
  }

  function FreeRefs(body: Node, s: Scope): (refs: seq<string>)
    ensures Distinct(refs) && forall x :: x in refs ==> x in s.freeRefs
  {
    var globals := ScanGlobals(body, []);
    var locals := ScanLocals(body, globals, []);
    ScanRefsGrows(body, false, ToSet(s.freeRefs) - ToSet(locals) - ToSet(globals), RefScan({}, []));
    CapturedFrom(s.freeRefs, locals, globals, body)
  }

  /** The state in which the body of a nested function is compiled. */
  function Enter(params: seq<string>, body: Node, s: Scope): (r: Scope)
    requires Ok(s)
    ensures Ok(r) && r.fn.code == [] && r.fn.labels == map[] && r.fn.funcs == [] && !r.top && r.last == Some(s)
    ensures r.fn.free == InsertAll(InsertAll([], CellRefs(body, s)), FreeRefs(body, s))
    ensures r.nextLabel == s.nextLabel
  {
    var globals := ScanGlobals(body, []);
    var locals := InsertAll(InsertAll([], params), ScanLocals(body, globals, []));
    var cells := InsertAll([], CapturedBelow(locals, body));
    var free := InsertAll(InsertAll([], CellRefs(body, s)), FreeRefs(body, s));
    var freeRefs := InsertAll([], CapturedBelow(free, body));
    ScanRefsGrows(body, false, ToSet(free), RefScan(ToSet(free), []));
    var fn := Fn([], [], InsertAll([], globals), map[], [], locals, cells, free, |params|, []);
    Depend(body, Scope(fn, freeRefs, InsertAll([], globals), "", false, false, s.nextLabel, Some(s)))
  }

  /** For each parameter its cell, or -1 when it stays a plain local. */
  function ArgMapping(locals: seq<string>, cells: seq<string>, params: nat): (m: seq<int>)
    ensures |m| == (if params <= |locals| then params else |locals|)
  {
    seq(if params <= |locals| then params else |locals|,
        i requires 0 <= i < |locals| => if locals[i] in cells then IndexOf(cells, locals[i]) else -1)
  }

  /** References are pushed backwards, so that AllocClosure pops them in order. */
  function PushRefs(refs: seq<string>, table: seq<string>, base: nat, s: Scope): (r: Scope)
    requires Ok(s) && forall x :: x in refs ==> x in table
    ensures Ok(r) && Grows(s, r) && r.fn.funcs == s.fn.funcs
    decreases |refs|
  {
    if refs == [] then s else
    var k := |refs| - 1;
    var s1 := Emit(s, PushReference(base + IndexOf(table, refs[k])));
    var r := PushRefs(refs[..k], table, base, s1);
    GrowsTrans(s, s1, r);
    r
  }

  /** After the body: the default return, and the argument mapping. */
  function Leave(s: Scope): (r: Scope)
    requires Ok(s)
    ensures Ok(r)
  {
    var s1 := Emit(LoadConstant(s, ConstNone), Instr.Return);
    s1.(returned := true,
        fn := s1.fn.(argMapping := ArgMapping(s1.fn.locals, s1.fn.cells, s1.fn.paramCount)))
  }

  function AddFunction(s: Scope, inner: Scope): (r: Scope)
    requires Ok(s) && s.nextLabel <= inner.nextLabel
    ensures Ok(r) && Grows(s, r) && r.fn.code == s.fn.code && r.fn.funcs == s.fn.funcs + [inner.fn]
    ensures r.fn == s.fn.(funcs := r.fn.funcs)
  {
    s.(fn := s.fn.(funcs := s.fn.funcs + [inner.fn]), nextLabel := inner.nextLabel)
  }

  /** The instructions that build the closure in the enclosing function. */
  function MakeClosure(body: Node, inner: Scope, s: Scope): (r: Scope)
    requires Ok(s) && s.nextLabel <= inner.nextLabel
    ensures Ok(r) && Grows(s, r) && r.fn.funcs == s.fn.funcs + [inner.fn]
  {
    var cellRefs, freeRefs := CellRefs(body, s), FreeRefs(body, s);
    var s1 := AddFunction(s, inner);
    var s2 := PushRefs(freeRefs, s.fn.free, |s.fn.cells|, s1);
    var s3 := PushRefs(cellRefs, s.fn.cells, 0, s2);
    var s4 := Emit2(s3, LoadFunc(|s.fn.funcs|), AllocClosure(|cellRefs| + |freeRefs|));
    GrowsTrans(s, s1, s2);
    GrowsTrans(s, s2, s3);
    GrowsTrans(s, s3, s4);
    s4
  }

  // ----- the tree -----

  /** `transpile(node, storing)`, applied to the current scope; one function per visit method. */
  function Transpile(n: Node, storing: bool, s: Scope): (r: Scope)
    requires Ok(s)
    ensures Ok(r) && Grows(s, r)
    decreases n, 1
  {
    match n
    case Empty => s
    case Seq(a, b) => TranspileSeq(n, s)
    case Entry(_, _, _) => TranspileEntry(n, s)
    case Name(x) => TranspileName(x, storing, s)
    case Index(_, _) => TranspileIndex(n, storing, s)
    case Field(_, _) => TranspileField(n, storing, s)
    case Assign(_, _) => TranspileAssign(n, s)
    case CallStmt(c) => TranspileCallStmt(n, s)
    case Global(_) => s
    case If(_, _, _) => TranspileIf(n, s)
    case While(_, _) => TranspileWhile(n, s)
    case Return(_) => TranspileReturn(n, s)
    case Call(_, _) => TranspileCall(n, s)
    case Function(params, body) =>
      MakeClosure(body, Leave(Transpile(body, false, Enter(params, body, s))), s)
    case Record(_) => TranspileRecord(n, s)
    case IntLit(i) => LoadConstant(s, ConstInt(i))
    case StringLit(t) => LoadConstant(s, ConstString(t))
    case BoolLit(b) => LoadConstant(s, ConstBool(b))
    case NullLit => LoadConstant(s, ConstNone)
    case BinExpr(_, _, _) => TranspileBinary(n, s)
    case UnExpr(_, _) => TranspileUnary(n, s)
  }

  function TranspileSeq(n: Node, s: Scope): (r: Scope)
    requires Ok(s) && n.Seq?
    ensures Ok(r) && Grows(s, r)
    decreases n, 0
  {
    var s1 := Transpile(n.first, false, s);
    var s2 := Transpile(n.rest, false, s1);
    GrowsTrans(s, s1, s2);
    s2
  }

  function TranspileEntry(n: Node, s: Scope): (r: Scope)
    requires Ok(s) && n.Entry?
    ensures Ok(r) && Grows(s, r)
    decreases n, 0
  {
    var s1 := Emit(s, Instr.Dup);
    var s2 := Transpile(n.value, false, s1);
    var s3 := EmitNamed(s2, n.key, (i: nat) => FieldStore(i));
    var s4 := Transpile(n.more, false, s3);
    GrowsTrans(s, s1, s2);
    GrowsTrans(s, s2, s3);
    GrowsTrans(s, s3, s4);
    s4
  }

  function TranspileIndex(n: Node, storing: bool, s: Scope): (r: Scope)
    requires Ok(s) && n.Index?
    ensures Ok(r) && Grows(s, r)
    decreases n, 0
  {
    var s1 := Transpile(n.base, false, s);
    var s2 := if storing then Emit(s1, Instr.Swap) else s1;
    var s3 := Transpile(n.index, false, s2);
    var s4 := if storing then Emit2(s3, Instr.Swap, IndexStore) else Emit(s3, IndexLoad);
    GrowsTrans(s, s1, s2);
    GrowsTrans(s, s2, s3);
    GrowsTrans(s, s3, s4);
    s4
  }

  function TranspileField(n: Node, storing: bool, s: Scope): (r: Scope)
    requires Ok(s) && n.Field?
    ensures Ok(r) && Grows(s, r)
    decreases n, 0
  {
    var s1 := InsertName(s, n.field);
    var k := IndexOf(s1.fn.names, n.field);
    var s2 := Transpile(n.base, false, s1);
    var s3 := if storing then Emit2(s2, Instr.Swap, FieldStore(k)) else Emit(s2, FieldLoad(k));
    GrowsTrans(s, s1, s2);
    GrowsTrans(s, s2, s3);
    s3
  }

  function TranspileAssign(n: Node, s: Scope): (r: Scope)
    requires Ok(s) && n.Assign?
    ensures Ok(r) && Grows(s, r)
    decreases n, 0
  {
    var s1 := Announce(n.lhs, s);
    var s2 := Transpile(n.expr, false, s1);
    var s3 := Transpile(n.lhs, true, s2);
    GrowsTrans(s, s1, s2);
    GrowsTrans(s, s2, s3);
    s3
  }

  function TranspileCallStmt(n: Node, s: Scope): (r: Scope)
    requires Ok(s) && n.CallStmt?
    ensures Ok(r) && Grows(s, r)
    decreases n, 0
  {
    var s1 := Transpile(n.call, false, s);
    var s2 := Emit2(s1, Instr.Pop, GarbageCollect);
    GrowsTrans(s, s1, s2);
    s2
  }

  function TranspileReturn(n: Node, s: Scope): (r: Scope)
    requires Ok(s) && n.Return?
    ensures Ok(r) && Grows(s, r)
    decreases n, 0
  {
    var s1 := Transpile(n.expr, false, s);
    var s2 := EmitReturn(s1);
    GrowsTrans(s, s1, s2);
    s2
  }

  function TranspileCall(n: Node, s: Scope): (r: Scope)
    requires Ok(s) && n.Call?
    ensures Ok(r) && Grows(s, r)
    decreases n, 0
  {
    var s1 := Transpile(n.args, false, s);
    var s2 := Transpile(n.target, false, s1);
    var s3 := Emit(s2, Instr.Call(Length(n.args)));
    GrowsTrans(s, s1, s2);
    GrowsTrans(s, s2, s3);
    s3
  }

  function TranspileRecord(n: Node, s: Scope): (r: Scope)
    requires Ok(s) && n.Record?
    ensures Ok(r) && Grows(s, r)
    decreases n, 0
  {
    var s1 := Emit(s, AllocRecord);
    var s2 := Transpile(n.entries, false, s1);
    GrowsTrans(s, s1, s2);
    s2
  }

  function TranspileBinary(n: Node, s: Scope): (r: Scope)
    requires Ok(s) && n.BinExpr?
    ensures Ok(r) && Grows(s, r)
    decreases n, 0
  {
    var s1 := Transpile(if Reversed(n.bop) then n.right else n.left, false, s);
    var s2 := Transpile(if Reversed(n.bop) then n.left else n.right, false, s1);
    var s3 := Emit(s2, Bin(BinaryInstr(n.bop)));
    GrowsTrans(s, s1, s2);
    GrowsTrans(s, s2, s3);
    s3
  }

  function TranspileUnary(n: Node, s: Scope): (r: Scope)
    requires Ok(s) && n.UnExpr?
    ensures Ok(r) && Grows(s, r)
    decreases n, 0
  {
    var s1 := Transpile(n.operand, false, s);
    var s2 := Emit(s1, Un(UnaryInstr(n.uop)));
    GrowsTrans(s, s1, s2);
    s2
  }

  function TranspileIf(n: Node, s: Scope): (r: Scope)
    requires Ok(s) && n.If?
    ensures Ok(r) && Grows(s, r)
    decreases n, 0
  {
    hide Ok, Grows, Awaits;
    var l := s.nextLabel;
    var cond := Transpile(n.cond, false, ReserveThree(s));
    var thn := ThenStart(s, cond);
    var thnEnd := Transpile(n.thn, false, thn);
    AwaitsGrows(s, thn, thnEnd, l + 1);
    var els := ElseStart(s, thnEnd);
    var elsEnd := Transpile(n.els, false, els);
    AwaitsGrows(s, els, elsEnd, l + 2);
    PutAwaited(s, elsEnd, l + 2)
  }

  function TranspileWhile(n: Node, s: Scope): (r: Scope)
    requires Ok(s) && n.While?
    ensures Ok(r) && Grows(s, r)
    decreases n, 0
  {
    hide Ok, Grows, Awaits;
    var l := s.nextLabel;
    var start := LoopStart(s);
    var cond := Transpile(n.cond, false, start);
    AwaitsGrows(s, start, cond, l + 1);
    var body := BodyStart(s, cond);
    var bodyEnd := Transpile(n.body, false, body);
    AwaitsGrows(s, body, bodyEnd, l + 2);
    LoopEnd(s, bodyEnd)
  }

  /** After the condition: jump over the else-goto, then the label of the then-block. */
  function ThenStart(s: Scope, cond: Scope): (r: Scope)
    requires Ok(s) && Grows(ReserveThree(s), cond) && Ok(cond)
    ensures Ok(r) && Grows(s, r) && Awaits(s, r, s.nextLabel + 1)
    ensures r == PutLabel(Emit2(cond, Instr.If(s.nextLabel), Goto(s.nextLabel + 1)), s.nextLabel)
  {
    AwaitsGrows(s, ReserveThree(s), cond, s.nextLabel);
    PutAwaited(s, EmitJumps(s, cond, s.nextLabel, s.nextLabel, s.nextLabel + 1), s.nextLabel)
  }

  function ElseStart(s: Scope, thnEnd: Scope): (r: Scope)
    requires Ok(s) && Awaits(s, thnEnd, s.nextLabel + 1)
    ensures Ok(r) && Grows(s, r) && Awaits(s, r, s.nextLabel + 2)
    ensures r == PutLabel(Emit(thnEnd, Goto(s.nextLabel + 2)), s.nextLabel + 1)
  {
    PutAwaited(s, EmitGoto(s, thnEnd, s.nextLabel + 2, s.nextLabel + 1), s.nextLabel + 1)
  }

  /** The label of the condition and the collection point of every iteration. */
  function LoopStart(s: Scope): (r: Scope)
    requires Ok(s)
    ensures Ok(r) && Grows(s, r) && Awaits(s, r, s.nextLabel + 1)
    ensures r == Emit(PutLabel(ReserveThree(s), s.nextLabel), GarbageCollect)
  {
    var s0 := PutAwaited(s, ReserveThree(s), s.nextLabel);
    AwaitsGrows(s, s0, Emit(s0, GarbageCollect), s.nextLabel + 1);
    Emit(s0, GarbageCollect)
  }

  function BodyStart(s: Scope, cond: Scope): (r: Scope)
    requires Ok(s) && Awaits(s, cond, s.nextLabel + 1)
    ensures Ok(r) && Grows(s, r) && Awaits(s, r, s.nextLabel + 2)
    ensures r == PutLabel(Emit2(cond, Instr.If(s.nextLabel + 1), Goto(s.nextLabel + 2)), s.nextLabel + 1)
  {
    PutAwaited(s, EmitJumps(s, cond, s.nextLabel + 1, s.nextLabel + 1, s.nextLabel + 2), s.nextLabel + 1)
  }

  function LoopEnd(s: Scope, bodyEnd: Scope): (r: Scope)
    requires Ok(s) && Awaits(s, bodyEnd, s.nextLabel + 2)
    ensures Ok(r) && Grows(s, r)
    ensures r == PutLabel(Emit(bodyEnd, Goto(s.nextLabel)), s.nextLabel + 2)
  {
    PutAwaited(s, EmitGoto(s, bodyEnd, s.nextLabel, s.nextLabel + 2), s.nextLabel + 2)
  }

  // ----- where garbage is collected -----

  /** Every turn of a loop passes a collection point: the code ends with a jump back to the label in front of one. */
  lemma LoopCollects(n: Node, s: Scope)
    requires Ok(s) && n.While?
    ensures var l, code := s.nextLabel, TranspileWhile(n, s).fn.code;
            var first, last := |s.fn.code|, |code| - 1;
            && first + 4 <= last && code[first] == Label(l) && code[first + 1] == GarbageCollect
            && code[last - 1] == Goto(l) && code[last] == Label(l + 2)
  {
    hide Ok, Awaits, Grows, Transpile;
    var l := s.nextLabel;
    var start := LoopStart(s);
    var cond := Transpile(n.cond, false, start);
    AwaitsGrows(s, start, cond, l + 1);
    var body := BodyStart(s, cond);
    var bodyEnd := Transpile(n.body, false, body);
    AwaitsGrows(s, body, bodyEnd, l + 2);
    assert TranspileWhile(n, s) == LoopEnd(s, bodyEnd);
    hide TranspileWhile;
    CodeGrows(start, cond);
    CodeGrows(body, bodyEnd);
    StartCode(s);
    PrefixThrough(start.fn.code, cond.fn.code, body.fn.code, bodyEnd.fn.code, LoopEnd(s, bodyEnd).fn.code);
  }

  lemma CodeGrows(s: Scope, r: Scope)
    requires Grows(s, r)
    ensures s.fn.code <= r.fn.code
  {
  }

  lemma StartCode(s: Scope)
    requires Ok(s)
    ensures LoopStart(s).fn.code == s.fn.code + [Label(s.nextLabel), GarbageCollect]
  {
    hide Ok, Awaits, Grows;
  }

  lemma PrefixThrough(a: seq<Instr>, b: seq<Instr>, c: seq<Instr>, d: seq<Instr>, e: seq<Instr>)
    requires a <= b && b <= c && c <= d && d <= e
    ensures a <= e && forall k :: 0 <= k < |a| ==> e[k] == a[k]
  {
  }

  /** And so does every statement that is a call, after it. */
  lemma CallCollects(n: Node, s: Scope)
    requires Ok(s) && n.CallStmt?
    ensures var code := TranspileCallStmt(n, s).fn.code;
            |code| >= |s.fn.code| + 2 && code[|code| - 2] == Instr.Pop && code[|code| - 1] == GarbageCollect
  {
    hide Ok, LabelsOk, SameShape;
  }

  // ----- the three labels of a branch or loop -----

  /** Of the three labels reserved in `s`, those from `l` on are still to be placed in `t`. */
  ghost predicate Awaits(s: Scope, t: Scope, l: nat) {
    && Ok(t) && Grows(s, t) && s.nextLabel <= l && s.nextLabel + 3 <= t.nextLabel
    && forall k :: l <= k < s.nextLabel + 3 ==> k !in t.fn.labels
  }

  function ReserveThree(s: Scope): (r: Scope)
    requires Ok(s)
    ensures Awaits(s, r, s.nextLabel) && Ok(r) && Grows(s, r) && r == s.(nextLabel := s.nextLabel + 3)
  {
    s.(nextLabel := s.nextLabel + 3)
  }

  lemma AwaitsGrows(s: Scope, t: Scope, u: Scope, l: nat)
    requires Awaits(s, t, l) && Grows(t, u) && Ok(u)
    ensures Awaits(s, u, l) && Grows(s, u)
  {
    GrowsTrans(s, t, u);
  }

  function EmitJumps(ghost s: Scope, t: Scope, ghost l: nat, yes: nat, no: nat): (r: Scope)
    requires Awaits(s, t, l)
    ensures Awaits(s, r, l) && r == Emit2(t, Instr.If(yes), Goto(no))
  {
    AwaitsGrows(s, t, Emit2(t, Instr.If(yes), Goto(no)), l);
    Emit2(t, Instr.If(yes), Goto(no))
  }

  function EmitGoto(ghost s: Scope, t: Scope, target: nat, ghost l: nat): (r: Scope)
    requires Awaits(s, t, l)
    ensures Awaits(s, r, l) && r == Emit(t, Goto(target))
  {
    AwaitsGrows(s, t, Emit(t, Goto(target)), l);
    Emit(t, Goto(target))
  }

  function PutAwaited(ghost s: Scope, t: Scope, l: nat): (r: Scope)
    requires Ok(s) && Awaits(s, t, l) && l < s.nextLabel + 3
    ensures Ok(r) && Grows(s, r) && Awaits(s, r, l + 1) && r == PutLabel(t, l)
  {
    PutLabel(t, l)
  }

  // ----- whole functions and programs -----

  /** The function record of `fun(params) { body }` compiled inside `s`. */
  function CompileFunction(params: seq<string>, body: Node, s: Scope): Fn
    requires Ok(s)
  {
    Leave(Transpile(body, false, Enter(params, body, s))).fn
  }

  const BUILTINS := ["print", "input", "intcast"]

  function AddNatives(names: seq<string>, s: Scope): (r: Scope)
    requires Ok(s)
    ensures Ok(r)
    decreases |names|
  {
    if names == [] then s else
    var s1 := Emit(s, LoadFunc(|names| - |BUILTINS| - 1));
    var s2 := InsertName(s1.(globals := s1.globals), names[0]);
    var s3 := s2.(globals := Insert(s2.globals, names[0]));
    AddNatives(names[1..], Emit(s3, StoreGlobal(IndexOf(s3.fn.names, names[0]))))
  }

  const START: Scope := Scope(EMPTY_FN, [], [], "", false, true, 0, None)

  /** `visit(Program&)`: no return is added when the body returned anywhere. */
  function CompileProgram(block: Node): Fn {
    var s := Transpile(block, false, AddNatives(BUILTINS, START));
    if s.returned then s.fn else Emit(LoadConstant(s, ConstInt(0)), Instr.Return).fn
  }
}
