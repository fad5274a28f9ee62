/**
  Values as tagged 64-bit words, and the machine sequences that compute on the words
  directly: an integer is its value times eight, a boolean is 2 or 10.
 */
module TaggedWords {
  import opened Runtime

  const TWO_64: int := 0x1_0000_0000_0000_0000
  const TWO_63: int := 0x8000_0000_0000_0000
  const TWO_57: int := 0x0200_0000_0000_0000

  type Word = w: int | 0 <= w < TWO_64 witness 0

  const INTEGER_TAG: int := 0
  const NONE_TAG: int := 1
  const BOOLEAN_TAG: int := 2
  const STRING_TAG: int := 3
  const POINTER_TAG: int := 4

  /** The low 64 bits of an integer. */
  function Low(x: int): Word { x % TWO_64 }

  /** The word read as a two's complement number. */
  function Signed(w: Word): (x: int)
    ensures -TWO_63 <= x < TWO_63 && Low(x) == w
  {
    if w >= TWO_63 then w - TWO_64 else w
  }

  // ----- tags -----

  predicate IsInteger(w: Word) { w % 8 == INTEGER_TAG }
  predicate IsNone(w: Word) { w % 8 == NONE_TAG }
  predicate IsBoolean(w: Word) { w % 8 == BOOLEAN_TAG }

  /** Bit 2 marks pointers; bits 0 and 1 together mark strings of both kinds. */
  predicate IsPointer(w: Word) { w % 8 >= POINTER_TAG }
  predicate IsString(w: Word) { w % 4 == STRING_TAG }

  function MakeInteger(x: int): Word { Low(x * 8) }

  /** None is an IllegalCastException. */
  function GetInteger(w: Word): Option<int> {
    if IsInteger(w) then Some(TruncDiv(Signed(w - w % 8), 8)) else None
  }

  function MakeBoolean(b: bool): Word { BOOLEAN_TAG + (if b then 8 else 0) }

  function GetBoolean(w: Word): Option<bool> {
    if IsBoolean(w) then Some(w - w % 8 != 0) else None
  }

  /** `makePointer`: an address is a multiple of eight. */
  function MakePointer(address: nat): Word
    requires address % 8 == 0 && address < TWO_64
  {
    address + POINTER_TAG
  }

  /** Tagging keeps 61 bits, and untagging reads them back. */
  lemma IntegerRoundTrip(x: int)
    ensures GetInteger(MakeInteger(x)) == Some(Wrap61(x))
  {
    var w := MakeInteger(x);
    WrapLow(x);
    SignedLow(8 * Wrap61(x));
    TruncExact(Wrap61(x));
  }

  lemma TruncExact(i: int)
    ensures TruncDiv(i * 8, 8) == i
  {
    if i < 0 {
      assert TruncDiv(-(i * 8), 8) == (-(i * 8)) / 8;
    }
  }

  /** Every word with the integer tag is the word of exactly the integer it yields. */
  lemma WordRoundTrip(w: Word)
    requires IsInteger(w)
    ensures MakeInteger(GetInteger(w).value) == w && -TWO_60 <= GetInteger(w).value < TWO_60
  {
    var x := Signed(w);
    assert x % 8 == 0;
    TruncExact(x / 8);
    assert x == (x / 8) * 8;
  }

  lemma SignedLow(x: int)
    requires -TWO_63 <= x < TWO_63
    ensures Signed(Low(x)) == x
  {
  }

  /** The words of x and of its 61-bit wrap are the same. */
  lemma WrapLow(x: int)
    ensures Low(8 * Wrap61(x)) == Low(8 * x) == MakeInteger(x)
  {
    var k := (Wrap61(x) - x) / TWO_61;
    assert 8 * Wrap61(x) == 8 * x + k * TWO_64;
    LowShift(8 * x, k);
  }

  lemma LowShift(x: int, k: int)
    ensures Low(x + k * TWO_64) == Low(x)
  {
  }

  // ----- values -----

  /** `w` is the word of the value, objects lying at the addresses `at`. */
  predicate Denotes(at: nat -> nat, w: Word, v: Value) {
    match v
    case IntV(i) => -TWO_60 <= i < TWO_60 && w == MakeInteger(i)
    case BoolV(b) => w == MakeBoolean(b)
    case NoneV => w == NONE_TAG
    case StrV(_) => IsString(w)
    case PtrV(a) => at(a) % 8 == 0 && at(a) < TWO_64 && w == MakePointer(at(a))
  }

  /** The tag tests tell the kinds of values apart. */
  lemma TagsTell(at: nat -> nat, w: Word, v: Value)
    requires Denotes(at, w, v)
    ensures IsInteger(w) <==> v.IntV?
    ensures IsBoolean(w) <==> v.BoolV?
    ensures IsNone(w) <==> v.NoneV?
    ensures IsString(w) <==> v.StrV?
    ensures IsPointer(w) && !IsString(w) <==> v.PtrV?
  {
  }

  /** Apart from strings, words are equal exactly when the values are. */
  lemma EqualWords(at: nat -> nat, w1: Word, w2: Word, v1: Value, v2: Value)
    requires Denotes(at, w1, v1) && Denotes(at, w2, v2) && !v1.StrV?
    requires forall a: nat, b: nat :: a != b ==> at(a) != at(b)
    ensures w1 == w2 <==> v1 == v2
  {
    TagsTell(at, w1, v1);
    TagsTell(at, w2, v2);
    if v1.IntV? && v2.IntV? {
      IntegerRoundTrip(v1.i);
      IntegerRoundTrip(v2.i);
    }
  }

  // ----- the machine -----

  datatype Asm =
    | Mov(dst: nat, src: nat)
    | MovImm(dst: nat, imm: Word)
    | AddR(dst: nat, src: nat)
    | SubR(dst: nat, src: nat)
    | ImulR(dst: nat, src: nat)
    | NegR(dst: nat)
    | AndR(dst: nat, src: nat)
    | OrR(dst: nat, src: nat)
    | XorImm(dst: nat, imm: Word)
    | SarImm(dst: nat, count: nat)
    | SalImm(dst: nat, count: nat)
    | Cqo
    | Idiv(src: nat)
    | Cmp(left: nat, right: nat)
    | CmpImm(left: nat, imm: Word)
    | CmovG(dst: nat, src: nat)
    | CmovGe(dst: nat, src: nat)
    | CmovE(dst: nat, src: nat)
    | LowBits(dst: nat, src: nat, count: nat)

  const RAX: nat := 0
  const RDX: nat := 2

  /** Registers, and the two numbers that were last compared. */
  datatype Machine = Machine(regs: nat -> Word, left: int, right: int)

  function SetReg(m: Machine, r: nat, w: Word): Machine {
    m.(regs := (k: nat) => ReadReg(m, r, w, k))
  }

  function ReadReg(m: Machine, r: nat, w: Word, k: nat): Word { if k == r then w else m.regs(k) }

  function Pow2(n: nat): (p: nat)
    ensures p > 0
  {
    if n == 0 then 1 else 2 * Pow2(n - 1)
  }

  function BitAnd(a: nat, b: nat): nat
    decreases a
  {
    if a == 0 then 0 else (a % 2) * (b % 2) + 2 * BitAnd(a / 2, b / 2)
  }

  function BitOr(a: nat, b: nat): nat
    decreases a + b
  {
    if a + b == 0 then 0 else (if a % 2 + b % 2 > 0 then 1 else 0) + 2 * BitOr(a / 2, b / 2)
  }

  function BitXor(a: nat, b: nat): nat
    decreases a + b
  {
    if a + b == 0 then 0 else (a % 2 + b % 2) % 2 + 2 * BitXor(a / 2, b / 2)
  }

  /** One machine instruction; None is a trap of the division. */
  function Execute(m: Machine, i: Asm): Option<Machine> {
    match i
    case Mov(d, s) => Some(SetReg(m, d, m.regs(s)))
    case MovImm(d, w) => Some(SetReg(m, d, w))
    case AddR(d, s) => Some(SetReg(m, d, Low(m.regs(d) + m.regs(s))))
    case SubR(d, s) => Some(SetReg(m, d, Low(m.regs(d) - m.regs(s))))
    case ImulR(d, s) => Some(SetReg(m, d, Low(m.regs(d) * m.regs(s))))
    case NegR(d) => Some(SetReg(m, d, Low(0 - m.regs(d))))
    case AndR(d, s) => Some(SetReg(m, d, Low(BitAnd(m.regs(d), m.regs(s)))))
    case OrR(d, s) => Some(SetReg(m, d, Low(BitOr(m.regs(d), m.regs(s)))))
    case XorImm(d, w) => Some(SetReg(m, d, Low(BitXor(m.regs(d), w))))
    case SarImm(d, n) => Some(SetReg(m, d, Low(Signed(m.regs(d)) / Pow2(n))))
    case SalImm(d, n) => Some(SetReg(m, d, Low(m.regs(d) * Pow2(n))))
    case Cqo => Some(SetReg(m, RDX, if Signed(m.regs(RAX)) < 0 then TWO_64 - 1 else 0))
    case Idiv(s) => Divide(m, Signed(m.regs(RDX)) * TWO_64 + m.regs(RAX), Signed(m.regs(s)))
    case Cmp(l, r) => Some(m.(left := Signed(m.regs(l)), right := Signed(m.regs(r))))
    case CmpImm(l, w) => Some(m.(left := Signed(m.regs(l)), right := Signed(w)))
    case CmovG(d, s) => Some(if m.left > m.right then SetReg(m, d, m.regs(s)) else m)
    case CmovGe(d, s) => Some(if m.left >= m.right then SetReg(m, d, m.regs(s)) else m)
    case CmovE(d, s) => Some(if m.left == m.right then SetReg(m, d, m.regs(s)) else m)
    case LowBits(d, s, n) => Some(SetReg(m, d, m.regs(s) % Pow2(n)))
  }

  /** Signed division of rdx:rax: quotient to rax, remainder to rdx, a trap when it does not fit. */
  function Divide(m: Machine, dividend: int, divisor: int): Option<Machine> {
    if divisor == 0 then None else
    var q := TruncDiv(dividend, divisor);
    if -TWO_63 <= q < TWO_63 then
      Some(SetReg(SetReg(m, RAX, Low(q)), RDX, Low(dividend - q * divisor)))
    else None
  }

  function ExecuteAll(m: Machine, code: seq<Asm>): Option<Machine>
    decreases |code|
  {
    if code == [] then Some(m) else
    var n :- Execute(m, code[0]);
    ExecuteAll(n, code[1..])
  }

  // ----- the sequences, each leaving its result in the second operand's register -----

  function IntAddCode(s1: nat, s2: nat): seq<Asm> { [AddR(s2, s1)] }
  function SubCode(s1: nat, s2: nat): seq<Asm> { [SubR(s2, s1)] }
  function MulCode(s1: nat, s2: nat): seq<Asm> { [ImulR(s2, s1), SarImm(s2, 3)] }
  function DivCode(s1: nat, s2: nat): seq<Asm> { [Mov(RAX, s1), Cqo, Idiv(s2), SalImm(RAX, 3)] }
  function NegCode(s: nat): seq<Asm> { [NegR(s)] }
  function AndCode(s1: nat, s2: nat): seq<Asm> { [AndR(s2, s1)] }
  function OrCode(s1: nat, s2: nat): seq<Asm> { [OrR(s2, s1)] }
  function NotCode(s: nat): seq<Asm> { [XorImm(s, 8)] }

  datatype Condition = Greater | GreaterEqual | Equal

  function Cmov(c: Condition, d: nat, s: nat): Asm {
    match c
    case Greater => CmovG(d, s)
    case GreaterEqual => CmovGe(d, s)
    case Equal => CmovE(d, s)
  }

  function CompareCode(c: Condition, s1: nat, s2: nat): seq<Asm> {
    [Cmp(s2, s1), MovImm(s2, BOOLEAN_TAG), MovImm(s1, 8 + BOOLEAN_TAG), Cmov(c, s2, s1)]
  }

  lemma RunSingle(m: Machine, i: Asm)
    ensures ExecuteAll(m, [i]) == Execute(m, i)
  {
    assert [i][1..] == [];
    hide Execute;
  }

  lemma RunMore(m: Machine, i: Asm, rest: seq<Asm>)
    requires Execute(m, i).Some?
    ensures ExecuteAll(m, [i] + rest) == ExecuteAll(Execute(m, i).value, rest)
  {
    assert ([i] + rest)[1..] == rest;
    hide Execute;
  }

  /** The machine after the code holds the word of `v` in `r`. */
  predicate Leaves(at: nat -> nat, m: Machine, code: seq<Asm>, r: nat, v: Value) {
    var o := ExecuteAll(m, code);
    o.Some? && Denotes(at, o.value.regs(r), v)
  }

  // ----- integers -----

  lemma LowAdd(x: int, y: int)
    ensures Low(Low(x) + Low(y)) == Low(x + y)
    ensures Low(Low(x) - Low(y)) == Low(x - y)
  {
    var p, q := x / TWO_64, y / TWO_64;
    assert Low(x) + Low(y) == x + y + (-p - q) * TWO_64;
    LowShift(x + y, -p - q);
    assert Low(x) - Low(y) == x - y + (q - p) * TWO_64;
    LowShift(x - y, q - p);
  }

  /** IntAdd on words is integer addition of the VM, overflow included. */
  lemma IntAddAgrees(x: Externals, w: World, at: nat -> nat, m: Machine, s1: nat, s2: nat, l: int, r: int)
    requires Denotes(at, m.regs(s1), IntV(l)) && Denotes(at, m.regs(s2), IntV(r))
    ensures Leaves(at, m, IntAddCode(s1, s2), s2, Binary(x, w, Add, IntV(l), IntV(r)).value)
  {
    RunSingle(m, AddR(s2, s1));
    LowAdd(8 * r, 8 * l);
    WrapLow(l + r);
  }

  lemma SubAgrees(x: Externals, w: World, at: nat -> nat, m: Machine, s1: nat, s2: nat, l: int, r: int)
    requires Denotes(at, m.regs(s1), IntV(r)) && Denotes(at, m.regs(s2), IntV(l))
    ensures Leaves(at, m, SubCode(s1, s2), s2, Binary(x, w, Sub, IntV(l), IntV(r)).value)
  {
    RunSingle(m, SubR(s2, s1));
    LowAdd(8 * l, 8 * r);
    WrapLow(l - r);
  }

  lemma NegAgrees(at: nat -> nat, m: Machine, s: nat, i: int)
    requires Denotes(at, m.regs(s), IntV(i))
    ensures Leaves(at, m, NegCode(s), s, Unary(UnOp.Neg, IntV(i)).value)
  {
    RunSingle(m, NegR(s));
    LowAdd(0, 8 * i);
    WrapLow(-i);
  }

  // ----- multiplication -----

  function Wrap58(x: int): (r: int)
    ensures -TWO_57 <= r < TWO_57
    ensures (r - x) % (2 * TWO_57) == 0
    ensures -TWO_57 <= x < TWO_57 ==> r == x
  {
    var r := (x + TWO_57) % (2 * TWO_57) - TWO_57;
    assert r - x == -(2 * TWO_57) * ((x + TWO_57) / (2 * TWO_57));
    r
  }

  lemma LowMul(x: int, y: int)
    ensures Low(Low(x) * Low(y)) == Low(x * y)
  {
    var p, q, a, b := x / TWO_64, y / TWO_64, Low(x), Low(y);
    var k := -(p * q * TWO_64 + a * q + b * p);
    MulSplit(x, y, p, q, a, b);
    LowShift(x * y, k);
  }

  lemma MulSplit(x: int, y: int, p: int, q: int, a: int, b: int)
    requires x == p * TWO_64 + a && y == q * TWO_64 + b
    ensures a * b == x * y - (p * q * TWO_64 + a * q + b * p) * TWO_64
  {
    assert x * y == p * TWO_64 * (q * TWO_64) + p * TWO_64 * b + a * (q * TWO_64) + a * b;
  }

  /** What the sequence computes: the product wrapped to 58 bits. */
  lemma MulComputes(m: Machine, s1: nat, s2: nat, l: int, r: int)
    requires m.regs(s1) == MakeInteger(r) && m.regs(s2) == MakeInteger(l)
    ensures var o := ExecuteAll(m, MulCode(s1, s2)); o.Some? && o.value.regs(s2) == MakeInteger(Wrap58(l * r))
  {
    var n := Execute(m, ImulR(s2, s1)).value;
    RunMore(m, ImulR(s2, s1), [SarImm(s2, 3)]);
    RunSingle(n, SarImm(s2, 3));
    LowMul(8 * l, 8 * r);
    var p := l * r;
    assert 8 * l * (8 * r) == 64 * p;
    assert n.regs(s2) == Low(64 * p);
    ShiftProduct(p);
    assert Pow2(3) == 8 by { assert Pow2(2) == 4; }
  }

  lemma ShiftProduct(p: int)
    ensures Signed(Low(64 * p)) / 8 == 8 * Wrap58(p)
  {
    var k := (Wrap58(p) - p) / (2 * TWO_57);
    assert 64 * Wrap58(p) == 64 * p + k * TWO_64;
    LowShift(64 * p, k);
    SignedLow(64 * Wrap58(p));
  }

  lemma WrapsAgree(x: int)
    ensures Wrap58(x) == Wrap61(x) <==> -TWO_57 <= Wrap61(x) < TWO_57
  {
    if -TWO_57 <= Wrap61(x) < TWO_57 {
      var j, k := (Wrap58(x) - x) / (2 * TWO_57), (Wrap61(x) - x) / TWO_61;
      assert Wrap58(x) - Wrap61(x) == (2 * TWO_57) * (j - 8 * k);
    }
  }

  /** The multiplication sequence gives the VM's product exactly when that lies in [-2^57, 2^57). */
  lemma MulAgreesIff(x: Externals, w: World, at: nat -> nat, m: Machine, s1: nat, s2: nat, l: int, r: int)
    requires Denotes(at, m.regs(s1), IntV(r)) && Denotes(at, m.regs(s2), IntV(l))
    ensures var v := Binary(x, w, Mul, IntV(l), IntV(r)).value;
            Leaves(at, m, MulCode(s1, s2), s2, v) <==> -TWO_57 <= v.i < TWO_57
  {
    MulComputes(m, s1, s2, l, r);
    WrapsAgree(l * r);
    IntegerRoundTrip(Wrap58(l * r));
    IntegerRoundTrip(Wrap61(l * r));
    hide ExecuteAll, MulCode;
  }

  // ----- division -----

  lemma TruncBounds(a: int, b: int)
    requires b != 0 && -TWO_60 <= a < TWO_60
    ensures -TWO_60 <= TruncDiv(a, b) <= TWO_60
  {
    if a >= 0 {
      QuotientBounds(a, b);
    } else {
      QuotientBounds(-a, b);
    }
  }

  lemma QuotientBounds(a: nat, b: int)
    requires b != 0
    ensures 0 - a <= a / b <= a
  {
    if b > 0 {
      PositiveQuotient(a, b);
    } else {
      NegDivisor(a, -b);
      PositiveQuotient(a, -b);
    }
  }

  lemma PositiveQuotient(a: nat, b: int)
    requires b > 0
    ensures 0 <= a / b <= a
  {
    var q := a / b;
    assert a == q * b + a % b;
    assert q >= 0;
    Factor(q, b - 1);
    assert q * b == q * (b - 1) + q;
  }

  lemma Factor(x: nat, y: nat)
    ensures x * y >= 0
  {
  }

  lemma NegDivisor(a: nat, b: int)
    requires b > 0
    ensures a / -b == -(a / b)
  {
    var q := a / b;
    assert a == q * b + a % b;
    assert a == (-q) * -b + a % b;
  }

  /** Both numbers carry the factor eight, and the quotient does not see it. */
  lemma ScaledDiv(a: int, b: int)
    requires b != 0
    ensures TruncDiv(8 * a, 8 * b) == TruncDiv(a, b)
  {
    if a >= 0 {
      ScaledNat(a, b);
    } else {
      ScaledNat(-a, b);
      assert 8 * -a == -(8 * a);
    }
  }

  lemma ScaledNat(a: nat, b: int)
    requires b != 0
    ensures (8 * a) / (8 * b) == a / b
    decreases b < 0
  {
    if b > 0 {
      var q, t := a / b, a % b;
      assert a == q * b + t;
      assert 8 * a == q * (8 * b) + 8 * t;
      QuotientUnique(8 * a, 8 * b, q, 8 * t);
    } else {
      ScaledNat(a, -b);
      NegDivisor(a, -b);
      NegDivisor(8 * a, 8 * -b);
      assert 8 * -b == -(8 * b);
    }
  }

  lemma QuotientUnique(a: int, b: int, q: int, r: int)
    requires b > 0 && a == q * b + r && 0 <= r < b
    ensures a / b == q
  {
    assert a == (a / b) * b + a % b;
    assert (a / b - q) * b == r - a % b;
    SmallMultiple(a / b - q, b);
  }

  lemma SmallMultiple(k: int, b: int)
    requires -b < k * b < b
    ensures k == 0
  {
    Multiples(k, b);
  }

  lemma Multiples(k: int, b: int)
    requires b > 0
    ensures k >= 1 ==> k * b >= b
    ensures k <= -1 ==> k * b <= -b
  {
    if k >= 1 { Factor(k - 1, b); assert k * b == (k - 1) * b + b; }
    if k <= -1 { Factor(-k - 1, b); assert k * b == -((-k - 1) * b) - b; }
  }

  /** What the division instruction leaves in rax, once cqo has extended the dividend. */
  lemma DivQuotient(m: Machine, s2: nat, l: int, r: int)
    requires -TWO_60 <= l < TWO_60 && -TWO_60 <= r < TWO_60 && r != 0
    requires m.regs(RAX) == Low(8 * l) && m.regs(RDX) == (if 8 * l < 0 then TWO_64 - 1 else 0)
    requires m.regs(s2) == Low(8 * r)
    ensures var o := Execute(m, Idiv(s2)); o.Some? && o.value.regs(RAX) == Low(TruncDiv(l, r))
  {
    SignedLow(8 * l);
    SignedLow(8 * r);
    assert Signed(m.regs(RDX)) * TWO_64 + m.regs(RAX) == 8 * l;
    ScaledDiv(l, r);
    TruncBounds(l, r);
  }

  lemma DivSteps(m: Machine, s1: nat, s2: nat, m1: Machine, m2: Machine, m3: Machine)
    requires Execute(m, Mov(RAX, s1)) == Some(m1) && Execute(m1, Cqo) == Some(m2) && Execute(m2, Idiv(s2)) == Some(m3)
    ensures ExecuteAll(m, DivCode(s1, s2)) == Execute(m3, SalImm(RAX, 3))
  {
    hide Execute;
    RunMore(m, Mov(RAX, s1), [Cqo, Idiv(s2), SalImm(RAX, 3)]);
    RunMore(m1, Cqo, [Idiv(s2), SalImm(RAX, 3)]);
    RunMore(m2, Idiv(s2), [SalImm(RAX, 3)]);
    RunSingle(m3, SalImm(RAX, 3));
    hide ExecuteAll;
    assert DivCode(s1, s2) == [Mov(RAX, s1)] + [Cqo, Idiv(s2), SalImm(RAX, 3)];
    assert [Cqo, Idiv(s2), SalImm(RAX, 3)] == [Cqo] + [Idiv(s2), SalImm(RAX, 3)];
    assert [Idiv(s2), SalImm(RAX, 3)] == [Idiv(s2)] + [SalImm(RAX, 3)];
  }

  /** Division never traps behind its asserts, and agrees with the VM for all integers. */
  lemma DivAgrees(x: Externals, w: World, at: nat -> nat, m: Machine, s1: nat, s2: nat, l: int, r: int)
    requires Denotes(at, m.regs(s1), IntV(l)) && Denotes(at, m.regs(s2), IntV(r)) && r != 0
    requires s2 != RAX && s2 != RDX
    ensures Leaves(at, m, DivCode(s1, s2), RAX, Binary(x, w, Div, IntV(l), IntV(r)).value)
  {
    hide ExecuteAll, TruncDiv, DivCode;
    DivComputes(m, s1, s2, l, r);
    WrapLow(TruncDiv(l, r));
  }

  /** The dividend in both halves; the divisor stays where it is. */
  lemma DivDividend(m: Machine, s1: nat, s2: nat, l: int) returns (m1: Machine, m2: Machine)
    requires -TWO_60 <= l < TWO_60 && s2 != RAX && s2 != RDX && m.regs(s1) == MakeInteger(l)
    ensures Execute(m, Mov(RAX, s1)) == Some(m1) && Execute(m1, Cqo) == Some(m2)
    ensures m2.regs(RAX) == Low(8 * l) && m2.regs(RDX) == (if 8 * l < 0 then TWO_64 - 1 else 0) && m2.regs(s2) == m.regs(s2)
  {
    m1 := Execute(m, Mov(RAX, s1)).value;
    m2 := Execute(m1, Cqo).value;
    SignedLow(8 * l);
  }

  lemma DivComputes(m: Machine, s1: nat, s2: nat, l: int, r: int)
    requires -TWO_60 <= l < TWO_60 && -TWO_60 <= r < TWO_60 && r != 0 && s2 != RAX && s2 != RDX
    requires m.regs(s1) == MakeInteger(l) && m.regs(s2) == MakeInteger(r)
    ensures var o := ExecuteAll(m, DivCode(s1, s2)); o.Some? && o.value.regs(RAX) == MakeInteger(TruncDiv(l, r))
  {
    hide ExecuteAll, Execute, TruncDiv, DivCode, Signed;
    var m1: Machine, m2: Machine := DivDividend(m, s1, s2, l);
    DivQuotient(m2, s2, l, r);
    var m3 := Execute(m2, Idiv(s2)).value;
    DivSteps(m, s1, s2, m1, m2, m3);
    EightTimes(m3, RAX);
    ScaleLow(TruncDiv(l, r));
  }

  lemma EightTimes(m: Machine, r: nat)
    ensures var o := Execute(m, SalImm(r, 3)); o.Some? && o.value.regs(r) == Low(m.regs(r) * 8)
  {
    assert Pow2(2) == 4;
  }

  lemma ScaleLow(q: int)
    ensures Low(Low(q) * 8) == Low(8 * q)
  {
    LowShift(8 * q, -8 * (q / TWO_64));
  }

  // ----- comparisons and booleans -----

  /** The value the VM gives for the comparison that the condition stands for. */
  function Compared(c: Condition, l: int, r: int): bool {
    match c
    case Greater => l > r
    case GreaterEqual => l >= r
    case Equal => l == r
  }

  lemma CompareSteps(m: Machine, c: Condition, s1: nat, s2: nat)
    requires s1 != s2
    ensures var o := ExecuteAll(m, CompareCode(c, s1, s2));
            o.Some? && o.value.regs(s2) == MakeBoolean(Compared(c, Signed(m.regs(s2)), Signed(m.regs(s1))))
  {
    var m1 := Execute(m, Cmp(s2, s1)).value;
    var m2 := Execute(m1, MovImm(s2, BOOLEAN_TAG)).value;
    var m3 := Execute(m2, MovImm(s1, 8 + BOOLEAN_TAG)).value;
    var last := Cmov(c, s2, s1);
    RunSingle(m3, last);
    FourSteps(m, m1, m2, m3, Cmp(s2, s1), MovImm(s2, BOOLEAN_TAG), MovImm(s1, 8 + BOOLEAN_TAG), last);
    hide ExecuteAll;
  }

  lemma FourSteps(m: Machine, m1: Machine, m2: Machine, m3: Machine, i: Asm, j: Asm, k: Asm, l: Asm)
    requires Execute(m, i) == Some(m1) && Execute(m1, j) == Some(m2) && Execute(m2, k) == Some(m3)
    ensures ExecuteAll(m, [i, j, k, l]) == ExecuteAll(m3, [l])
  {
    hide Execute;
    RunMore(m, i, [j, k, l]);
    RunMore(m1, j, [k, l]);
    RunMore(m2, k, [l]);
    hide ExecuteAll;
    assert [i, j, k, l] == [i] + [j, k, l] && [j, k, l] == [j] + [k, l] && [k, l] == [k] + [l];
  }

  /** Comparisons of integer words are comparisons of the integers. */
  lemma CompareAgrees(x: Externals, w: World, at: nat -> nat, m: Machine, s1: nat, s2: nat, l: int, r: int)
    requires Denotes(at, m.regs(s1), IntV(r)) && Denotes(at, m.regs(s2), IntV(l)) && s1 != s2
    ensures Leaves(at, m, CompareCode(Greater, s1, s2), s2, Binary(x, w, Gt, IntV(l), IntV(r)).value)
    ensures Leaves(at, m, CompareCode(GreaterEqual, s1, s2), s2, Binary(x, w, Geq, IntV(l), IntV(r)).value)
    ensures Leaves(at, m, CompareCode(Equal, s1, s2), s2, Binary(x, w, Eq, IntV(l), IntV(r)).value)
  {
    SignedLow(8 * l);
    SignedLow(8 * r);
    CompareSteps(m, Greater, s1, s2);
    CompareSteps(m, GreaterEqual, s1, s2);
    CompareSteps(m, Equal, s1, s2);
    hide ExecuteAll;
  }

  /** FastEq on two booleans. */
  lemma FastEqBooleans(x: Externals, w: World, at: nat -> nat, m: Machine, s1: nat, s2: nat, l: bool, r: bool)
    requires Denotes(at, m.regs(s1), BoolV(r)) && Denotes(at, m.regs(s2), BoolV(l)) && s1 != s2
    ensures Leaves(at, m, CompareCode(Equal, s1, s2), s2, Binary(x, w, Eq, BoolV(l), BoolV(r)).value)
  {
    CompareSteps(m, Equal, s1, s2);
    hide ExecuteAll;
  }

  /** On boolean words the bit operations act on bit 3 and keep the tag. */
  lemma BooleanBits(a: bool, b: bool)
    ensures BitAnd(MakeBoolean(a), MakeBoolean(b)) == MakeBoolean(a && b)
    ensures BitOr(MakeBoolean(a), MakeBoolean(b)) == MakeBoolean(a || b)
    ensures BitXor(MakeBoolean(a), 8) == MakeBoolean(!a)
  {
    var x, y := if a then 1 else 0, if b then 1 else 0;
    assert BitAnd(x, y) == x * y;
    assert BitAnd(2 * x, 2 * y) == 2 * (x * y);
    assert BitAnd(1 + 4 * x, 1 + 4 * y) == 1 + 4 * (x * y);
    assert BitOr(x, y) == if a || b then 1 else 0;
    assert BitOr(2 * x, 2 * y) == if a || b then 2 else 0;
    assert BitOr(1 + 4 * x, 1 + 4 * y) == if a || b then 5 else 1;
    assert BitXor(x, 1) == 1 - x;
    assert BitXor(2 * x, 2) == 2 - 2 * x;
    assert BitXor(1 + 4 * x, 4) == 5 - 4 * x;
  }

  lemma AndAgrees(x: Externals, w: World, at: nat -> nat, m: Machine, s1: nat, s2: nat, l: bool, r: bool)
    requires Denotes(at, m.regs(s1), BoolV(r)) && Denotes(at, m.regs(s2), BoolV(l))
    ensures Leaves(at, m, AndCode(s1, s2), s2, Binary(x, w, And, BoolV(l), BoolV(r)).value)
  {
    hide BitAnd, BitOr, BitXor;
    BooleanBits(l, r);
    RunSingle(m, AndR(s2, s1));
    hide ExecuteAll;
  }

  lemma OrAgrees(x: Externals, w: World, at: nat -> nat, m: Machine, s1: nat, s2: nat, l: bool, r: bool)
    requires Denotes(at, m.regs(s1), BoolV(r)) && Denotes(at, m.regs(s2), BoolV(l))
    ensures Leaves(at, m, OrCode(s1, s2), s2, Binary(x, w, Or, BoolV(l), BoolV(r)).value)
  {
    hide BitAnd, BitOr, BitXor;
    BooleanBits(l, r);
    RunSingle(m, OrR(s2, s1));
    hide ExecuteAll;
  }

  lemma NotAgrees(at: nat -> nat, m: Machine, s: nat, b: bool)
    requires Denotes(at, m.regs(s), BoolV(b))
    ensures Leaves(at, m, NotCode(s), s, Unary(UnOp.Not, BoolV(b)).value)
  {
    hide BitAnd, BitOr, BitXor;
    BooleanBits(b, b);
    RunSingle(m, XorImm(s, 8));
    hide ExecuteAll;
  }

  // ----- asserts and the conditional jump -----

  /** Whether the code up to the conditional jump leaves equal numbers behind. */
  predicate Equals(m: Machine, code: seq<Asm>) {
    var o := ExecuteAll(m, code);
    o.Some? && o.value.left == o.value.right
  }

  function TagTest(s: nat, scratch: nat, tag: Word): seq<Asm> { [LowBits(scratch, s, 3), CmpImm(scratch, tag)] }

  /** The tests pass for exactly the values that the asserts of the IR let through. */
  lemma AssertsAgree(at: nat -> nat, m: Machine, s: nat, scratch: nat, v: Value)
    requires Denotes(at, m.regs(s), v)
    ensures Equals(m, TagTest(s, scratch, INTEGER_TAG)) <==> v.IntV?
    ensures Equals(m, TagTest(s, scratch, BOOLEAN_TAG)) <==> v.BoolV?
    ensures !Equals(m, [CmpImm(s, INTEGER_TAG)]) <==> v != IntV(0)
  {
    TagsTell(at, m.regs(s), v);
    RunSingle(m, CmpImm(s, INTEGER_TAG));
    LowTest(m, s, scratch, INTEGER_TAG);
    LowTest(m, s, scratch, BOOLEAN_TAG);
    if v.IntV? { SignedLow(8 * v.i); }
    hide ExecuteAll;
  }

  lemma LowTest(m: Machine, s: nat, scratch: nat, tag: Word)
    requires tag < 8
    ensures Equals(m, TagTest(s, scratch, tag)) <==> m.regs(s) % 8 == tag
  {
    assert Pow2(3) == 8 by { assert Pow2(2) == 4; }
    var n := Execute(m, LowBits(scratch, s, 3)).value;
    RunMore(m, LowBits(scratch, s, 3), [CmpImm(scratch, tag)]);
    RunSingle(n, CmpImm(scratch, tag));
    assert TagTest(s, scratch, tag) == [LowBits(scratch, s, 3)] + [CmpImm(scratch, tag)];
    hide ExecuteAll;
  }

  /** The conditional jump is taken for the value true only, whatever else the word holds. */
  lemma CondJumpAgrees(at: nat -> nat, m: Machine, s: nat, v: Value)
    requires Denotes(at, m.regs(s), v)
    ensures Equals(m, [CmpImm(s, 8 + BOOLEAN_TAG)]) <==> v == BoolV(true)
  {
    TagsTell(at, m.regs(s), v);
    RunSingle(m, CmpImm(s, 8 + BOOLEAN_TAG));
    hide ExecuteAll;
  }

  /** Booleans: tagging and untagging undo each other on the two canonical words. */
  lemma BooleanRoundTrip(b: bool, w: Word)
    ensures GetBoolean(MakeBoolean(b)) == Some(b)
    ensures GetBoolean(w).Some? ==> (MakeBoolean(GetBoolean(w).value) == w <==> w == 2 || w == 10)
  {
  }

  /** A product at the bound: 2^29 times 2^28 is right in the VM, and -2^57 in the sequence. */
  lemma MulOverflows(x: Externals, w: World, at: nat -> nat, m: Machine, s1: nat, s2: nat)
    requires Denotes(at, m.regs(s1), IntV(0x1000_0000)) && Denotes(at, m.regs(s2), IntV(0x2000_0000))
    ensures Binary(x, w, Mul, IntV(0x2000_0000), IntV(0x1000_0000)) == Some(IntV(TWO_57))
    ensures !Leaves(at, m, MulCode(s1, s2), s2, IntV(TWO_57)) && Leaves(at, m, MulCode(s1, s2), s2, IntV(-TWO_57))
  {
    MulAgreesIff(x, w, at, m, s1, s2, 0x2000_0000, 0x1000_0000);
    MulComputes(m, s1, s2, 0x2000_0000, 0x1000_0000);
    assert Wrap58(0x2000_0000 * 0x1000_0000) == -TWO_57;
    hide ExecuteAll, MulCode;
  }
}
