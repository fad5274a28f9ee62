/**
  The meaning of source programs, read off the tree-walking interpreter over frames of
  named variables.  Three points follow the compiler where the walker differs: `<` and `<=`
  evaluate their right operand first, call arguments come before the callee, and a loop
  whose body returned does not evaluate its condition again.

  A closure of the walker keeps the frame it was made in; here it keeps the cells of the
  variables that its body needs.  Closures are objects of the world: they name their literal
  by the numbers of the literals around it, in the order of evaluation.
 */
module TreeWalker {
  import opened Runtime
  import opened Ast
  import opened Scanners

  /** A frame: plain variables, captured variables in cells of its own and in given ones, names declared global. */
  datatype Frame = Frame(
    vars: map<string, Value>,
    own: map<string, nat>,
    given: map<string, nat>,
    globals: set<string>,
    passed: set<string>,  // given variables that nested functions need
    self: FnPath)

  datatype Result =
    | Normal(frame: Frame, world: World)
    | Returned(value: Value, frame: Frame, world: World)
    | Failed
    | OutOfFuel

  function ReadGlobal(w: World, x: string): Option<Value> {
    if x in w.globals then Some(w.globals[x]) else None
  }

  /** A name that is no variable of the frame is a global. */
  function ReadVar(f: Frame, w: World, x: string): Option<Value> {
    if x in f.globals then ReadGlobal(w, x)
    else if x in f.given then CellRead(w, f.given[x])
    else if x in f.own then CellRead(w, f.own[x])
    else if x in f.vars then Some(f.vars[x])
    else ReadGlobal(w, x)
  }

  function WriteCell(f: Frame, w: World, c: nat, v: Value): Option<(Frame, World)> {
    var w1 :- CellWrite(w, c, v);
    Some((f, w1))
  }

  function WriteVar(f: Frame, w: World, x: string, v: Value): Option<(Frame, World)> {
    if x in f.globals then Some((f, w.(globals := w.globals[x := v])))
    else if x in f.given then WriteCell(f, w, f.given[x], v)
    else if x in f.own then WriteCell(f, w, f.own[x], v)
    else if x in f.vars then Some((f.(vars := f.vars[x := v]), w))
    else Some((f, w.(globals := w.globals[x := v])))
  }

  /** Both operands of `&` and `|` must be booleans. */
  function Operator(x: Externals, w: World, op: BinSym, l: Value, r: Value): Option<Value> {
    match op
    case OR => if l.BoolV? && r.BoolV? then Some(BoolV(l.b || r.b)) else None
    case AND => if l.BoolV? && r.BoolV? then Some(BoolV(l.b && r.b)) else None
    case LT => if l.IntV? && r.IntV? then Some(BoolV(l.i < r.i)) else None
    case LTE => if l.IntV? && r.IntV? then Some(BoolV(l.i <= r.i)) else None
    case GT => if l.IntV? && r.IntV? then Some(BoolV(l.i > r.i)) else None
    case GTE => if l.IntV? && r.IntV? then Some(BoolV(l.i >= r.i)) else None
    case EQ => Some(BoolV(l == r))
    case PLUS =>
      if l.StrV? || r.StrV? then Some(StrV(Text(x, w, l) + Text(x, w, r)))
      else if l.IntV? && r.IntV? then Some(IntV(Wrap61(l.i + r.i))) else None
    case MINUS => if l.IntV? && r.IntV? then Some(IntV(Wrap61(l.i - r.i))) else None
    case MUL => if l.IntV? && r.IntV? then Some(IntV(Wrap61(l.i * r.i))) else None
    case DIV => if l.IntV? && r.IntV? && r.i != 0 then Some(IntV(Wrap61(TruncDiv(l.i, r.i)))) else None
  }

  /** The cells of some captured variables. */
  function CellsOf(w: World, cells: map<string, nat>, names: seq<string>): (r: Option<seq<nat>>)
    ensures r.Some? ==> |r.value| == |names|
  {
    if forall k :: 0 <= k < |names| ==> names[k] in cells && CellRead(w, cells[names[k]]).Some?
    then Some(seq(|names|, k requires 0 <= k < |names| && names[k] in cells => cells[names[k]]))
    else None
  }

  /** A closure of literal number `i`, behind its bare function. */
  function EvalFunction(f: Frame, w: World, n: Node, i: nat): Option<(Value, World)>
    requires n.Function?
  {
    var own :- CellsOf(w, f.own, Needed(f.own.Keys, n.body));
    var given :- CellsOf(w, f.given, Needed(f.passed, n.body));
    var path := f.self + [i];
    var (w1, _) := Alloc(w, BareObj(path));
    var (w2, a) := Alloc(w1, ClosureObj(path, own + given));
    Some((PtrV(a), w2))
  }

  /** The value of an expression whose first literal is number `i` of its function; None for an exception. */
  function Eval(x: Externals, f: Frame, w: World, n: Node, i: nat): Option<(Value, World)>
    decreases n, 1
  {
    match n
    case Name(name) =>
      var v :- ReadVar(f, w, name);
      Some((v, w))
    case Index(_, _) => EvalIndex(x, f, w, n, i)
    case Field(_, _) => EvalField(x, f, w, n, i)
    case Call(_, _) => EvalCall(x, f, w, n, i)
    case Function(_, _) => EvalFunction(f, w, n, i)
    case Record(_) => EvalRecord(x, f, w, n, i)
    case IntLit(k) => Some((IntV(k), w))
    case StringLit(s) => Some((StrV(s), w))
    case BoolLit(b) => Some((BoolV(b), w))
    case NullLit => Some((NoneV, w))
    case BinExpr(_, _, _) => EvalBinary(x, f, w, n, i)
    case UnExpr(_, _) => EvalUnary(x, f, w, n, i)
    case _ => None
  }

  function EvalIndex(x: Externals, f: Frame, w: World, n: Node, i: nat): Option<(Value, World)>
    requires n.Index?
    decreases n, 0
  {
    var (record, w1) :- Eval(x, f, w, n.base, i);
    var (key, w2) :- Eval(x, f, w1, n.index, i + Literals(n.base));
    RecordGet(w2, record, Text(x, w2, key))
  }

  function EvalField(x: Externals, f: Frame, w: World, n: Node, i: nat): Option<(Value, World)>
    requires n.Field?
    decreases n, 0
  {
    var (record, w1) :- Eval(x, f, w, n.base, i);
    RecordGet(w1, record, n.field)
  }

  function EvalCall(x: Externals, f: Frame, w: World, n: Node, i: nat): Option<(Value, World)>
    requires n.Call?
    decreases n, 0
  {
    var (values, w1) :- EvalList(x, f, w, n.args, i);
    var (callee, w2) :- Eval(x, f, w1, n.target, i + Literals(n.args));
    x.call(w2, callee, values)
  }

  function EvalRecord(x: Externals, f: Frame, w: World, n: Node, i: nat): Option<(Value, World)>
    requires n.Record?
    decreases n, 0
  {
    var (w1, a) := Alloc(w, RecordObj(map[]));
    var w2 :- EvalEntries(x, f, w1, PtrV(a), n.entries, i);
    Some((PtrV(a), w2))
  }

  function EvalBinary(x: Externals, f: Frame, w: World, n: Node, i: nat): Option<(Value, World)>
    requires n.BinExpr?
    decreases n, 0
  {
    var first, second := if RightFirst(n.bop) then n.right else n.left, if RightFirst(n.bop) then n.left else n.right;
    var (v1, w1) :- Eval(x, f, w, first, i);
    var (v2, w2) :- Eval(x, f, w1, second, i + Literals(first));
    var v :- if RightFirst(n.bop) then Operator(x, w2, n.bop, v2, v1) else Operator(x, w2, n.bop, v1, v2);
    Some((v, w2))
  }

  function EvalUnary(x: Externals, f: Frame, w: World, n: Node, i: nat): Option<(Value, World)>
    requires n.UnExpr?
    decreases n, 0
  {
    var (v, w1) :- Eval(x, f, w, n.operand, i);
    var u :- (match n.uop
              case NOT => if v.BoolV? then Some(BoolV(!v.b)) else None
              case NEG => if v.IntV? then Some(IntV(Wrap61(-v.i))) else None);
    Some((u, w1))
  }

  function EvalList(x: Externals, f: Frame, w: World, list: Node, i: nat): Option<(seq<Value>, World)>
    decreases list, 1
  {
    if list.Seq? then
      var (v, w1) :- Eval(x, f, w, list.first, i);
      var (vs, w2) :- EvalList(x, f, w1, list.rest, i + Literals(list.first));
      Some(([v] + vs, w2))
    else Some(([], w))
  }

  /** The fields of a record literal are evaluated and stored one after the other. */
  function EvalEntries(x: Externals, f: Frame, w: World, record: Value, es: Node, i: nat): Option<World>
    decreases es, 1
  {
    if es.Entry? then
      var (v, w1) :- Eval(x, f, w, es.value, i);
      var w2 :- RecordInsert(w1, record, es.key, v);
      EvalEntries(x, f, w2, record, es.more, i + Literals(es.value))
    else Some(w)
  }

  function Store(x: Externals, f: Frame, w: World, lhs: Node, v: Value, i: nat): Option<(Frame, World)> {
    match lhs
    case Name(name) => WriteVar(f, w, name, v)
    case Index(b, e) =>
      var (record, w1) :- Eval(x, f, w, b, i);
      var (key, w2) :- Eval(x, f, w1, e, i + Literals(b));
      var w3 :- RecordInsert(w2, record, Text(x, w2, key), v);
      Some((f, w3))
    case Field(b, name) =>
      var (record, w1) :- Eval(x, f, w, b, i);
      var w2 :- RecordInsert(w1, record, name, v);
      Some((f, w2))
    case _ => None
  }

  /** A statement whose first literal is number `i`; fuel bounds the number of loop iterations. */
  function Exec(x: Externals, f: Frame, w: World, n: Node, i: nat, fuel: nat): Result
    decreases fuel, n
  {
    match n
    case Empty => Normal(f, w)
    case Seq(a, b) =>
      var r := Exec(x, f, w, a, i, fuel);
      if r.Normal? then Exec(x, r.frame, r.world, b, i + Literals(a), fuel) else r
    case Assign(l, e) =>
      var v := Eval(x, f, w, e, i);
      if v.None? then Failed else
      var r := Store(x, f, v.value.1, l, v.value.0, i + Literals(e));
      if r.None? then Failed else Normal(r.value.0, r.value.1)
    case CallStmt(c) =>
      var v := Eval(x, f, w, c, i);
      if v.None? then Failed else Normal(f, v.value.1)
    case Global(_) => Normal(f, w)
    case If(c, t, e) =>
      var v := Eval(x, f, w, c, i);
      if v.None? || !v.value.0.BoolV? then Failed
      else if v.value.0.b then Exec(x, f, v.value.1, t, i + Literals(c), fuel)
      else Exec(x, f, v.value.1, e, i + Literals(c) + Literals(t), fuel)
    case While(c, b) =>
      if fuel == 0 then OutOfFuel else
      var v := Eval(x, f, w, c, i);
      if v.None? || !v.value.0.BoolV? then Failed
      else if !v.value.0.b then Normal(f, v.value.1)
      else
        var r := Exec(x, f, v.value.1, b, i + Literals(c), fuel);
        if r.Normal? then Exec(x, r.frame, r.world, n, i, fuel - 1) else r
    case Return(e) =>
      var v := Eval(x, f, w, e, i);
      if v.None? then Failed else Returned(v.value.0, f, v.value.1)
    case _ => Failed
  }

  /** The result of a call: a body that does not return gives None. */
  function RunBody(x: Externals, f: Frame, w: World, body: Node, fuel: nat): Result {
    var r := Exec(x, f, w, body, 0, fuel);
    if r.Normal? then Returned(NoneV, r.frame, r.world) else r
  }
}
