/**
  What the operations that every machine of the project shares must compute: division by its
  remainder, texts by reading them back, records and cells by what is read after a write.
 */
module RuntimeLaws {
  import opened Runtime

  // ----- division -----

  function Abs(x: int): nat { if x < 0 then -x else x }

  /** A quotient truncated toward zero: the remainder is smaller than the divisor and has the dividend's sign. */
  ghost predicate Truncates(a: int, b: int, q: int) {
    var r := a - q * b;
    Abs(r) < Abs(b) && (r != 0 ==> (r > 0 <==> a > 0))
  }

  /** For every sign of the operands, and no other number is such a quotient. */
  lemma DivisionExact(a: int, b: int, q: int)
    requires b != 0
    ensures Truncates(a, b, q) <==> q == TruncDiv(a, b)
  {
    QuotientTruncates(a, b);
    if Truncates(a, b, q) {
      QuotientUnique(a, b, q, TruncDiv(a, b));
    }
  }

  lemma QuotientTruncates(a: int, b: int)
    requires b != 0
    ensures Truncates(a, b, TruncDiv(a, b))
  {
    hide TruncDiv, Truncates;
    SignsApart(a, b);
    if a < 0 {
      HostQuotient(-a, b);
      RemainderNegative(a, b, -a / b);
    } else {
      HostQuotient(a, b);
      RemainderPositive(a, b, a / b);
    }
  }

  lemma RemainderPositive(a: nat, b: int, d: int)
    requires 0 <= a - d * b < Abs(b)
    ensures Truncates(a, b, d)
  {
  }

  lemma RemainderNegative(a: int, b: int, d: int)
    requires a < 0 && 0 <= -a - d * b < Abs(b)
    ensures Truncates(a, b, -d)
  {
    assert (-d) * b == -(d * b);
  }

  lemma SignsApart(a: int, b: int)
    requires b != 0
    ensures TruncDiv(a, b) == if a < 0 then -(-a / b) else a / b
  {
  }

  lemma HostQuotient(m: nat, b: int)
    requires b != 0
    ensures 0 <= m - (m / b) * b < Abs(b)
  {
    assert m == (m / b) * b + m % b;
  }

  lemma QuotientUnique(a: int, b: int, p: int, q: int)
    requires b != 0 && Truncates(a, b, p) && Truncates(a, b, q)
    ensures p == q
  {
    assert Abs((p - q) * b) < Abs(b) by {
      var r, s := a - p * b, a - q * b;
      assert (p - q) * b == p * b - q * b == s - r;
      assert (r >= 0 && s >= 0) || (r <= 0 && s <= 0);
    }
    assert p - q != 0 ==> Abs((p - q) * b) >= Abs(b) by {
      if p - q != 0 { FarApart(p - q, b); }
    }
  }

  lemma FarApart(k: int, b: int)
    requires k != 0
    ensures Abs(k * b) >= Abs(b)
  {
    if k > 0 {
      Grows(k, b);
    } else {
      Grows(-k, b);
      assert (-k) * b == -(k * b);
    }
  }

  lemma Grows(k: nat, b: int)
    requires k > 0
    ensures Abs(k * b) >= Abs(b)
  {
    assert k * b == (k - 1) * b + b;
    if b >= 0 {
      Product(k - 1, b);
    } else {
      Product(k - 1, -b);
      assert (k - 1) * -b == -((k - 1) * b);
    }
  }

  lemma Product(x: nat, y: nat)
    ensures x * y >= 0
  {
  }

  // ----- texts -----

  predicate IsDigit(c: char) { '0' <= c <= '9' }

  function DigitValue(c: char): nat
    requires IsDigit(c)
  {
    c as int - '0' as int
  }

  /** The number a sequence of digits stands for, read from left to right. */
  function NumberRead(s: string): nat
    requires forall k :: 0 <= k < |s| ==> IsDigit(s[k])
  {
    if s == [] then 0 else 10 * NumberRead(s[..|s| - 1]) + DigitValue(s[|s| - 1])
  }

  /** The digits of a number, read back, are the number; only zero starts with a zero. */
  lemma {:induction false} DigitsRead(n: nat)
    ensures Digits(n) != [] && (forall k :: 0 <= k < |Digits(n)| ==> IsDigit(Digits(n)[k]))
    ensures NumberRead(Digits(n)) == n
    ensures Digits(n)[0] == '0' <==> n == 0
  {
    if n < 10 {
      assert Digits(n)[..0] == [];
    } else {
      DigitsRead(n / 10);
      var front := Digits(n / 10);
      assert Digits(n)[..|front|] == front;
    }
  }

  /** The plain value that a text other than a string's own stands for. */
  function ValueRead(s: string): Option<Value> {
    if s == "True" then Some(BoolV(true))
    else if s == "False" then Some(BoolV(false))
    else if s == "None" then Some(NoneV)
    else if s != [] && forall k :: 0 <= k < |s| ==> IsDigit(s[k]) then Some(IntV(NumberRead(s)))
    else if |s| > 1 && s[0] == '-' && forall k :: 1 <= k < |s| ==> IsDigit(s[k]) then
      var m: int := NumberRead(s[1..]);
      Some(IntV(-m))
    else None
  }

  /** A string is its own text; that of an integer, boolean or None tells the value, so different ones have different texts. */
  lemma TextRead(x: Externals, w: World, v: Value)
    ensures v.StrV? ==> Text(x, w, v) == v.text
    ensures !v.StrV? && !v.PtrV? ==> ValueRead(Text(x, w, v)) == Some(v)
  {
    hide NumberRead, Digits;
    if v.IntV? {
      DigitsRead(Abs(v.i));
      var s, d := Text(x, w, v), Digits(Abs(v.i));
      if v.i < 0 {
        assert s == "-" + d && s[1..] == d && s[0] == '-';
        assert forall k :: 1 <= k < |s| ==> s[k] == d[k - 1];
      } else {
        assert s == d && IsDigit(s[0]);
      }
    }
  }

  // ----- objects -----

  /** A new object gets an address of its own, and changes no other. */
  lemma AllocFresh(w: World, o: Object, a: nat)
    ensures var (w1, addr) := Alloc(w, o);
            && addr >= |w.objs| && |w1.objs| == |w.objs| + 1 && addr < |w1.objs| && w1.objs[addr] == o
            && w1.globals == w.globals && (a < |w.objs| ==> w1.objs[a] == w.objs[a])
  {
  }

  /** What is inserted is read back, other keys and other objects are as before, and only records take fields. */
  lemma InsertThenGet(w: World, r: Value, key: string, v: Value, other: string, a: nat)
    ensures RecordInsert(w, r, key, v).Some? <==> GetRecord(w, r).Some?
    ensures GetRecord(w, r).Some? <==> r.PtrV? && r.addr < |w.objs| && w.objs[r.addr].RecordObj?
    ensures var w1 := RecordInsert(w, r, key, v);
            w1.Some? ==>
              && RecordGet(w1.value, r, key) == Some((v, w1.value))
              && (other != key ==> FieldOf(w1.value, r.addr, other) == FieldOf(w, r.addr, other))
              && w1.value.globals == w.globals && |w1.value.objs| == |w.objs|
              && (a < |w.objs| && a != r.addr ==> w1.value.objs[a] == w.objs[a])
  {
  }

  function FieldOf(w: World, a: nat, key: string): Option<Value> {
    if a < |w.objs| && w.objs[a].RecordObj? && key in w.objs[a].fields then Some(w.objs[a].fields[key]) else None
  }

  /** Reading gives the field; a missing one is None, and is a field from then on. */
  lemma GetEnters(w: World, r: Value, key: string, other: string, a: nat)
    requires GetRecord(w, r).Some?
    ensures RecordGet(w, r, key).Some?
    ensures var (v, w1) := RecordGet(w, r, key).value;
            && v == (if FieldOf(w, r.addr, key).Some? then FieldOf(w, r.addr, key).value else NoneV)
            && FieldOf(w1, r.addr, key) == Some(v) && (FieldOf(w, r.addr, key).Some? ==> w1 == w)
            && (other != key ==> FieldOf(w1, r.addr, other) == FieldOf(w, r.addr, other))
            && w1.globals == w.globals && |w1.objs| == |w.objs| && (a < |w.objs| && a != r.addr ==> w1.objs[a] == w.objs[a])
  {
  }

  /** A cell is written exactly where it is read, and then holds what was written. */
  lemma WriteThenRead(w: World, c: nat, v: Value, a: nat)
    ensures CellWrite(w, c, v).Some? <==> CellRead(w, c).Some?
    ensures CellRead(w, c).Some? <==> c < |w.objs| && w.objs[c].CellObj?
    ensures var w1 := CellWrite(w, c, v);
            w1.Some? ==>
              && CellRead(w1.value, c) == Some(v) && w1.value.globals == w.globals && |w1.value.objs| == |w.objs|
              && (a < |w.objs| && a != c ==> w1.value.objs[a] == w.objs[a])
  {
  }
}
