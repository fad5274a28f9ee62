/**
  Values, the object store and the operators shared by every execution model of the
  project: the tree walker, the bytecode machine and the IR machines.

  A language value is one machine word in the VM; here it is the value that word denotes
  (TaggedWords.dfy relates the two).  String constants and string objects are one
  constructor because no operator can tell them apart (Ropes.dfy shows why).
 */
module Runtime {

  datatype Option<+T> = None | Some(value: T) {
    predicate IsFailure() { None? }

    function PropagateFailure<U>(): Option<U>
      requires None?
    {
      None
    }

    function Extract(): T
      requires Some?
    {
      value
    }
  }

  // ----- the 61-bit integers of a tagged word -----

  const TWO_60: int := 0x1000_0000_0000_0000
  const TWO_61: int := 0x2000_0000_0000_0000

  /** The integer a word holds after `makeInteger(x)`: the top three bits of x are lost. */
  function Wrap61(x: int): (r: int)
    ensures -TWO_60 <= r < TWO_60
    ensures (r - x) % TWO_61 == 0
    ensures -TWO_60 <= x < TWO_60 ==> r == x
  {
    var r := (x + TWO_60) % TWO_61 - TWO_60;
    assert r - x == -TWO_61 * ((x + TWO_60) / TWO_61);
    r
  }

  /** Division of the host language: the quotient is truncated toward zero. */
  function TruncDiv(a: int, b: int): (q: int)
    requires b != 0
    ensures a >= 0 && b > 0 ==> q * b <= a < (q + 1) * b
    ensures a < 0 ==> q == -TruncDiv(-a, b)
    decreases a < 0
  {
    if a < 0 then -TruncDiv(-a, b) else a / b
  }

  // ----- values and objects -----

  datatype Value =
    | IntV(i: int)
    | BoolV(b: bool)
    | NoneV
    | StrV(text: string)
    | PtrV(addr: nat)

  /** A function is named by the path of `functions_` indices that leads to it. */
  type FnPath = seq<int>

  datatype Object =
    | RecordObj(fields: map<string, Value>)
    | CellObj(content: Value)
    | BareObj(fn: FnPath)
    | ClosureObj(fn: FnPath, cells: seq<nat>)
    | NativeObj(kind: nat)

  /** Objects are addressed by their position; nothing is ever removed (see the Gc modules). */
  datatype World = World(objs: seq<Object>, globals: map<string, Value>)

  /** What the model leaves abstract: calls, and the text of a record or function object. */
  datatype Externals = Externals(
    call: (World, Value, seq<Value>) -> Option<(Value, World)>,
    text: (World, nat) -> string)

  function Alloc(w: World, o: Object): (World, nat) {
    (w.(objs := w.objs + [o]), |w.objs|)
  }

  // ----- text of a value -----

  function Digits(n: nat): string {
    if n < 10 then [('0' as int + n) as char] else Digits(n / 10) + [('0' as int + n % 10) as char]
  }

  function Text(x: Externals, w: World, v: Value): string {
    match v
    case IntV(i) => if i < 0 then "-" + Digits(-i) else Digits(i)
    case BoolV(b) => if b then "True" else "False"
    case NoneV => "None"
    case StrV(s) => s
    case PtrV(a) => x.text(w, a)
  }

  // ----- records and cells -----

  function GetRecord(w: World, v: Value): Option<nat> {
    if v.PtrV? && v.addr < |w.objs| && w.objs[v.addr].RecordObj? then Some(v.addr) else None
  }

  /** Reading an absent key leaves the key behind with the value None. */
  function RecordGet(w: World, record: Value, key: string): Option<(Value, World)> {
    var a :- GetRecord(w, record);
    var fields := w.objs[a].fields;
    if key in fields then Some((fields[key], w))
    else Some((NoneV, w.(objs := w.objs[a := RecordObj(fields[key := NoneV])])))
  }

  function RecordInsert(w: World, record: Value, key: string, v: Value): Option<World> {
    var a :- GetRecord(w, record);
    Some(w.(objs := w.objs[a := RecordObj(w.objs[a].fields[key := v])]))
  }

  function CellRead(w: World, c: nat): Option<Value> {
    if c < |w.objs| && w.objs[c].CellObj? then Some(w.objs[c].content) else None
  }

  function CellWrite(w: World, c: nat, v: Value): Option<World> {
    if c < |w.objs| && w.objs[c].CellObj? then Some(w.(objs := w.objs[c := CellObj(v)])) else None
  }

  // ----- operators -----

  datatype BinOp = Add | Sub | Mul | Div | Gt | Geq | Eq | And | Or
  datatype UnOp = Neg | Not

  /** None stands for a thrown exception. The second type check of And/Or is lazy. */
  function Binary(x: Externals, w: World, op: BinOp, l: Value, r: Value): Option<Value> {
    match op
    case Add =>
      if l.StrV? || r.StrV? then Some(StrV(Text(x, w, l) + Text(x, w, r)))
      else if l.IntV? && r.IntV? then Some(IntV(Wrap61(l.i + r.i))) else None
    case Sub => if l.IntV? && r.IntV? then Some(IntV(Wrap61(l.i - r.i))) else None
    case Mul => if l.IntV? && r.IntV? then Some(IntV(Wrap61(l.i * r.i))) else None
    case Div =>
      if l.IntV? && r.IntV? && r.i != 0 then Some(IntV(Wrap61(TruncDiv(l.i, r.i)))) else None
    case Gt => if l.IntV? && r.IntV? then Some(BoolV(l.i > r.i)) else None
    case Geq => if l.IntV? && r.IntV? then Some(BoolV(l.i >= r.i)) else None
    case Eq => Some(BoolV(l == r))
    case And => if l.BoolV? && (!l.b || r.BoolV?) then Some(BoolV(l.b && r.b)) else None
    case Or => if l.BoolV? && (l.b || r.BoolV?) then Some(BoolV(l.b || r.b)) else None
  }

  function Unary(op: UnOp, v: Value): Option<Value> {
    match op
    case Neg => if v.IntV? then Some(IntV(Wrap61(-v.i))) else None
    case Not => if v.BoolV? then Some(BoolV(!v.b)) else None
  }

  // ----- constants -----

  datatype Constant = ConstNone | ConstInt(i: int) | ConstString(s: string) | ConstBool(b: bool)

  function ConstantValue(c: Constant): Value {
    match c
    case ConstNone => NoneV
    case ConstInt(i) => IntV(i)
    case ConstString(s) => StrV(s)
    case ConstBool(b) => BoolV(b)
  }
}
