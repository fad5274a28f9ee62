/** Folding of operators whose operands are constants. */
module ConstantFolding {
  import opened Runtime
  import opened Ir
  import opened TempUses
  import opened TypeHints
  import opened ConstantTemps

  const TWO_31: int := 0x8000_0000
  const TWO_32: int := 0x1_0000_0000

  predicate In32(x: int) { -TWO_31 <= x < TWO_31 }

  /** The host's conversion to a 32-bit int. */
  function Wrap32(x: int): (r: int)
    ensures In32(r) && (r - x) % TWO_32 == 0
    ensures In32(x) ==> r == x
  {
    var r := (x + TWO_31) % TWO_32 - TWO_31;
    assert r - x == -TWO_32 * ((x + TWO_31) / TWO_32);
    r
  }

  /** The arithmetic of the pass, on 32-bit ints; None where it is not defined. */
  function FoldInts(op: BinaryOp, a: int, b: int): Option<int> {
    match op
    case IrSub => Some(Wrap32(Wrap32(b) - Wrap32(a)))
    case IrMul => Some(Wrap32(Wrap32(a) * Wrap32(b)))
    case IrDiv =>
      if Wrap32(b) == 0 || (Wrap32(a) == -TWO_31 && Wrap32(b) == -1) then None
      else Some(TruncDiv(Wrap32(a), Wrap32(b)))
    case _ => Some(Wrap32(Wrap32(a) + Wrap32(b)))
  }

  function FoldBools(op: BinaryOp, a: bool, b: bool): bool {
    match op
    case IrAnd => a && b
    case IrOr => a || b
    case _ => a == b
  }

  /** Misread: the pass would take the number of a variable for a constant, or its arithmetic is undefined. */
  datatype Folding = Keep | Put(value: Value) | CompileError | Misread

  predicate CanBeInt(h: Hints, t: nat) { IntK in TempHint(h, t).types }

  function FoldIntsOp(errors: bool, h: Hints, op: BinaryOp, s1: nat, s2: nat, check: bool): Folding {
    if IsInt(h, s1) && IsInt(h, s2) then
      match (GetConst(h, s1), GetConst(h, s2))
      case (Some(IntV(a)), Some(IntV(b))) =>
        (match FoldInts(op, a, b)
         case Some(r) => Put(IntV(r))
         case None => Misread)
      case _ => Misread
    else if check && errors && (!CanBeInt(h, s1) || !CanBeInt(h, s2)) then CompileError
    else Keep
  }

  function FoldBoolsOp(h: Hints, op: BinaryOp, s1: nat, s2: nat): Folding {
    if IsBool(h, s1) && IsBool(h, s2) then
      match (GetConst(h, s1), GetConst(h, s2))
      case (Some(BoolV(a)), Some(BoolV(b))) => Put(BoolV(FoldBools(op, a, b)))
      case _ => Misread
    else Keep
  }

  predicate IsString(h: Hints, t: nat) { TempHint(h, t).types == {StringK} }

  function FoldAdd(errors: bool, h: Hints, s1: nat, s2: nat): Folding {
    if IsString(h, s1) && IsString(h, s2) then
      match (GetConst(h, s1), GetConst(h, s2))
      case (Some(StrV(a)), Some(StrV(b))) => Put(StrV(a + b))
      case _ => Misread
    else FoldIntsOp(errors, h, IrAdd, s1, s2, false)
  }

  /** A constant divisor that is no integer stops the compiler, zero only when errors are wanted. */
  function FoldDiv(errors: bool, h: Hints, s1: nat, s2: nat): Folding {
    match GetConst(h, s2)
    case None => Misread
    case Some(IntV(b)) =>
      if b == 0 then (if errors then CompileError else Keep)
      else FoldIntsOp(errors, h, IrDiv, s1, s2, true)
    case Some(_) => CompileError
  }

  function FoldFastEq(h: Hints, s1: nat, s2: nat): Folding {
    var f := FoldBoolsOp(h, FastEq, s1, s2);
    if f.Keep? && IsInt(h, s1) && IsInt(h, s2) then
      match (GetConst(h, s1), GetConst(h, s2))
      case (Some(IntV(a)), Some(IntV(b))) => Put(BoolV(a == b))
      case _ => Misread
    else f
  }

  function FoldUnary(errors: bool, h: Hints, op: UnOp, s: nat): Folding {
    if !(if op == Neg then IsInt(h, s) else IsBool(h, s)) then (if errors then CompileError else Keep) else
    match GetConst(h, s)
    case None => Misread
    case Some(v) =>
      var r := Unary(op, v);
      if r.Some? then Put(r.value) else Misread
  }

  function FoldOne(errors: bool, h: Hints, i: Ins): Folding {
    match i
    case BinIns(op, _, s1, s2) =>
      if !IsConst(h, s1) || !IsConst(h, s2) then Keep else
      (match op
       case IrAdd => FoldAdd(errors, h, s1, s2)
       case IntAdd => FoldIntsOp(errors, h, op, s1, s2, true)
       case IrSub => FoldIntsOp(errors, h, op, s1, s2, true)
       case IrMul => FoldIntsOp(errors, h, op, s1, s2, true)
       case IrDiv => FoldDiv(errors, h, s1, s2)
       case FastEq => FoldFastEq(h, s1, s2)
       case IrAnd => FoldBoolsOp(h, op, s1, s2)
       case IrOr => FoldBoolsOp(h, op, s1, s2)
       case _ => Keep)
    case UnIns(op, _, s) => if !IsConst(h, s) then Keep else FoldUnary(errors, h, op, s)
    case _ => Keep
  }

  /** The state of the pass: hints, code, and the temps that became obsolete. */
  datatype Pass = Pass(h: Hints, code: seq<Ins>, obsolete: set<nat>)

  /** The first `k` positions in order; None when compilation stops with an exception. */
  function FoldTo(errors: bool, h: Hints, code: seq<Ins>, k: nat): (r: Option<Pass>)
    requires k <= |code|
    ensures r.Some? ==> |r.value.code| == |code|
  {
    if k == 0 then Some(Pass(h, code, {})) else
    var s :- FoldTo(errors, h, code, k - 1);
    FoldAt(errors, s, k - 1)
  }

  function FoldAt(errors: bool, s: Pass, k: nat): (r: Option<Pass>)
    requires k < |s.code|
    ensures r.Some? ==> |r.value.code| == |s.code|
  {
    var i := s.code[k];
    match FoldOne(errors, s.h, i)
    case Keep => Some(s)
    case Put(v) =>
      var d := if i.BinIns? || i.UnIns? then i.dest else 0;
      Some(Pass(SetTemp(s.h, d, ConstHint(v)), s.code[k := Assign(d, ConstSrc(v))], s.obsolete + (set t | t in Uses(i))))
    case _ => None
  }

  // ----- when folding is right -----

  /** The values of an operator's operands according to the hints. */
  ghost predicate Operands(h: Hints, code: seq<Ins>, i: Ins, vals: seq<Value>) {
    |vals| == |Uses(i)| && forall j :: 0 <= j < |vals| ==> GetConst(h, Uses(i)[j]) == Some(vals[j]) && HasConst(code, Uses(i)[j], vals[j])
  }

  /** Integer operands and results that fit in 32 bits. */
  predicate Narrow(i: Ins, vals: seq<Value>) {
    i.BinIns? && i.bop != FastEq && |vals| == 2 && vals[0].IntV? && vals[1].IntV? ==>
      && In32(vals[0].i) && In32(vals[1].i)
      && (if i.bop == IrSub then In32(vals[1].i - vals[0].i)
          else if i.bop == IrMul then In32(vals[0].i * vals[1].i)
          else if i.bop == IrDiv then vals[1].i != 0 ==> In32(TruncDiv(vals[0].i, vals[1].i))
          else In32(vals[0].i + vals[1].i))
  }

  /** What an operator computes from constants, whatever the world. */
  ghost predicate Computes(i: Ins, vals: seq<Value>, v: Value) {
    |vals| == |Uses(i)| && forall c: Context, r: Rest :: Perform(c, i, vals, r) == Go([v], r)
  }

  lemma BinaryComputes(i: Ins, v1: Value, v2: Value, v: Value)
    requires i.BinIns? && forall c: Context, w: World :: Arith(c, w, i.bop, v1, v2) == Some(v)
    ensures Computes(i, [v1, v2], v)
  {
    hide Arith;
  }

  lemma FoldIntsRight(errors: bool, h: Hints, code: seq<Ins>, i: Ins, v1: Value, v2: Value, check: bool)
    requires i.BinIns? && (i.bop == IrAdd || i.bop == IntAdd || i.bop == IrSub || i.bop == IrMul || i.bop == IrDiv)
    requires GetConst(h, i.src1) == Some(v1) && GetConst(h, i.src2) == Some(v2) && Narrow(i, [v1, v2])
    requires FoldIntsOp(errors, h, i.bop, i.src1, i.src2, check).Put? && (i.bop == IrDiv ==> v2 != IntV(0))
    ensures Computes(i, [v1, v2], FoldIntsOp(errors, h, i.bop, i.src1, i.src2, check).value)
    ensures v1.IntV? && v2.IntV?
  {
    hide TruncDiv;
    BinaryComputes(i, v1, v2, FoldIntsOp(errors, h, i.bop, i.src1, i.src2, check).value);
  }

  lemma FoldBinaryRight(errors: bool, h: Hints, i: Ins, v1: Value, v2: Value)
    requires i.BinIns? && GetConst(h, i.src1) == Some(v1) && GetConst(h, i.src2) == Some(v2)
    requires FoldOne(errors, h, i).Put? && Narrow(i, [v1, v2])
    ensures Computes(i, [v1, v2], FoldOne(errors, h, i).value)
    ensures v2 == IntV(0) ==> i.bop != IrDiv
  {
    var f := FoldOne(errors, h, i);
    if i.bop == IrAdd && IsString(h, i.src1) && IsString(h, i.src2) {
      BinaryComputes(i, v1, v2, f.value);
    } else if i.bop == IrAdd || i.bop == IntAdd || i.bop == IrSub || i.bop == IrMul || i.bop == IrDiv {
      hide Narrow, FoldInts, Computes;
      FoldIntsRight(errors, h, [], i, v1, v2, i.bop != IrAdd);
    } else {
      hide Narrow, FoldInts;
      BinaryComputes(i, v1, v2, f.value);
    }
  }

  lemma FoldUnaryRight(errors: bool, h: Hints, i: Ins, v: Value)
    requires i.UnIns? && GetConst(h, i.operand) == Some(v) && FoldOne(errors, h, i).Put?
    ensures Computes(i, [v], FoldOne(errors, h, i).value)
  {
  }

  /** A folded operator computes the value put in its place. */
  lemma FoldOneRight(errors: bool, h: Hints, code: seq<Ins>, i: Ins, vals: seq<Value>)
    requires Operands(h, code, i, vals) && FoldOne(errors, h, i).Put? && Narrow(i, vals)
    ensures Computes(i, vals, FoldOne(errors, h, i).value)
  {
    if i.BinIns? {
      assert Uses(i)[0] == i.src1 && Uses(i)[1] == i.src2 && vals == [vals[0], vals[1]];
      hide FoldOne, Computes, Narrow;
      FoldBinaryRight(errors, h, i, vals[0], vals[1]);
    } else {
      assert Uses(i)[0] == i.operand && vals == [vals[0]];
      FoldUnaryRight(errors, h, i, vals[0]);
    }
  }

  /** The asserts in front of a folded operator hold of its constants. */
  lemma FoldOneAsserts(errors: bool, h: Hints, code: seq<Ins>, i: Ins, vals: seq<Value>, kind: AssertKind, t: nat, j: nat)
    requires Operands(h, code, i, vals) && FoldOne(errors, h, i).Put?
    requires j < |vals| && Uses(i)[j] == t && AssertFor(kind, i, t)
    requires i.BinIns? ==> i.src1 != i.src2
    ensures Holds(kind, vals[j])
  {
    hide FoldInts, HasConst;
    if i.BinIns? {
      assert Uses(i)[0] == i.src1 && Uses(i)[1] == i.src2;
    } else {
      assert Uses(i)[0] == i.operand;
    }
  }

  /**
    For addition, subtraction and multiplication the 32-bit arithmetic is right exactly when
    the result of the machine fits in 32 bits.
   */
  lemma FoldIntsIff(c: Context, w: World, op: BinaryOp, a: int, b: int)
    requires op == IrAdd || op == IntAdd || op == IrSub || op == IrMul
    ensures var v := Arith(c, w, op, IntV(a), IntV(b)).value;
            FoldInts(op, a, b) == Some(v.i) <==> In32(v.i)
  {
    var x := if op == IrSub then b - a else if op == IrMul then a * b else a + b;
    var y := if op == IrSub then Wrap32(b) - Wrap32(a) else if op == IrMul then Wrap32(a) * Wrap32(b) else Wrap32(a) + Wrap32(b);
    var j, k := (Wrap32(a) - a) / TWO_32, (Wrap32(b) - b) / TWO_32;
    assert Wrap32(a) == a + j * TWO_32 && Wrap32(b) == b + k * TWO_32;
    var m := if op == IrSub then k - j else if op == IrMul then a * k + b * j + j * k * TWO_32 else j + k;
    assert y == x + m * TWO_32 by { Expand(a, b, j, k); }
    Congruent(x, y, m);
    assert b * a == a * b;
  }

  lemma Expand(a: int, b: int, j: int, k: int)
    ensures (a + j * TWO_32) * (b + k * TWO_32) == a * b + (a * k + b * j + j * k * TWO_32) * TWO_32
  {
    assert (a + j * TWO_32) * (b + k * TWO_32) == a * b + a * (k * TWO_32) + j * TWO_32 * b + j * TWO_32 * (k * TWO_32);
  }

  lemma Congruent(x: int, y: int, m: int)
    requires y == x + m * TWO_32
    ensures Wrap32(y) == Wrap61(x) <==> In32(Wrap61(x))
  {
    var p, q := (Wrap32(y) - y) / TWO_32, (Wrap61(x) - x) / TWO_61;
    assert Wrap32(y) - Wrap61(x) == TWO_32 * (p + m - q * 0x2000_0000);
  }
}
