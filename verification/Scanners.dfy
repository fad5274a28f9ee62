/**
  The name scanners that run over a function body before it is compiled.  A std::set of
  names is a sequence in increasing order without repetition.
 */
module NameTables {
  predicate LexLess(a: string, b: string) {
    |b| > 0 && (|a| == 0 || a[0] < b[0] || (a[0] == b[0] && LexLess(a[1..], b[1..])))
  }

  /** Insertion into a std::set of names. */
  function SetInsert(v: seq<string>, x: string): (r: seq<string>)
    ensures forall y :: y in r <==> y == x || y in v
  {
    if x in v then v
    else if v == [] then [x]
    else if LexLess(x, v[0]) then [x] + v
    else [v[0]] + SetInsert(v[1..], x)
  }

  /** `k` is where two strings first differ, or the end of the first, and `a` comes before `b` there. */
  predicate LessFrom(a: string, b: string, k: nat) {
    && k <= |a| && k <= |b| && a[..k] == b[..k]
    && (if k < |a| then k < |b| && a[k] < b[k] else k < |b|)
  }

  /** The order of std::string: the first difference decides, and a prefix comes first. */
  lemma {:induction false} LexLessExact(a: string, b: string)
    ensures LexLess(a, b) <==> exists k: nat :: LessFrom(a, b, k)
  {
    hide LexLess, LessFrom;
    if LexLess(a, b) {
      var k := FirstDifference(a, b);
    } else {
      forall k: nat ensures !LessFrom(a, b, k) {
        if LessFrom(a, b, k) {
          LessAt(a, b, k);
        }
      }
    }
  }

  lemma {:induction false} LessAt(a: string, b: string, k: nat)
    requires LessFrom(a, b, k)
    ensures LexLess(a, b)
    decreases k
  {
    if k > 0 {
      assert a[..k][0] == b[..k][0] && a[1..][..k - 1] == a[..k][1..] && b[1..][..k - 1] == b[..k][1..];
      LessAt(a[1..], b[1..], k - 1);
    }
  }

  /** Where the two first differ, or the end of the first. */
  lemma {:induction false} FirstDifference(a: string, b: string) returns (k: nat)
    requires LexLess(a, b)
    ensures LessFrom(a, b, k)
    decreases |a|
  {
    if |a| == 0 || a[0] < b[0] {
      k := 0;
    } else {
      var j := FirstDifference(a[1..], b[1..]);
      k := j + 1;
      assert a[..k] == [a[0]] + a[1..][..j] && b[..k] == [b[0]] + b[1..][..j];
    }
  }

  lemma {:induction false} LexTotal(a: string, b: string)
    requires a != b
    ensures LexLess(a, b) || LexLess(b, a)
    decreases |a|
  {
    if |a| > 0 && |b| > 0 && a[0] == b[0] {
      assert a == [a[0]] + a[1..] && b == [b[0]] + b[1..];
      LexTotal(a[1..], b[1..]);
    }
  }

  lemma {:induction false} LexTransitive(a: string, b: string, c: string)
    requires LexLess(a, b) && LexLess(b, c)
    ensures LexLess(a, c)
    decreases |a|
  {
    if |a| > 0 && a[0] == b[0] && b[0] == c[0] {
      LexTransitive(a[1..], b[1..], c[1..]);
    }
  }

  predicate InLexOrder(v: seq<string>) { forall i, j :: 0 <= i < j < |v| ==> LexLess(v[i], v[j]) }

  /** A set stays in order. */
  lemma {:induction false} SetInsertSorted(v: seq<string>, x: string)
    requires InLexOrder(v)
    ensures InLexOrder(SetInsert(v, x))
  {
    hide LexLess;
    if x in v || v == [] {
    } else if LexLess(x, v[0]) {
      forall j | 1 <= j < |v| ensures LexLess(x, v[j]) {
        LexTransitive(x, v[0], v[j]);
      }
    } else {
      LexTotal(x, v[0]);
      SetInsertSorted(v[1..], x);
      var r := SetInsert(v[1..], x);
      forall j | 0 <= j < |r| ensures LexLess(v[0], r[j]) {
        assert r[j] in r;
        if r[j] != x {
          var i :| 0 <= i < |v| - 1 && v[1..][i] == r[j];
          assert v[i + 1] == r[j];
        }
      }
    }
  }

  predicate Distinct<T(==)>(v: seq<T>) {
    forall i, j :: 0 <= i < j < |v| ==> v[i] != v[j]
  }

  lemma {:induction false} SetInsertDistinct(v: seq<string>, x: string)
    requires Distinct(v)
    ensures Distinct(SetInsert(v, x))
  {
    hide LexLess;
    if x in v || v == [] {
    } else if LexLess(x, v[0]) {
      assert forall k :: 0 <= k < |v| ==> v[k] in v;
    } else {
      SetInsertDistinct(v[1..], x);
      var r := SetInsert(v[1..], x);
      var q := [v[0]] + r;
      assert SetInsert(v, x) == q;
      forall i, j | 0 <= i < j < |q| ensures q[i] != q[j] {
        assert q[j] == r[j - 1] && r[j - 1] in r;
        if i > 0 {
          assert q[i] == r[i - 1];
        }
      }
    }
  }

  /** The position of the first occurrence. */
  function IndexOf<T(==)>(v: seq<T>, x: T): (i: nat)
    requires x in v
    ensures i < |v| && v[i] == x
    ensures x !in v[..i]
  {
    if v[0] == x then 0 else
    var i := 1 + IndexOf(v[1..], x);
    assert v[..i] == [v[0]] + v[1..][..i - 1];
    i
  }

  lemma IndexOfUnique<T>(v: seq<T>, x: T, i: nat)
    requires i < |v| && v[i] == x && forall k :: 0 <= k < i ==> v[k] != x
    ensures IndexOf(v, x) == i
  {
    var j := IndexOf(v, x);
    forall k | 0 <= k < j ensures v[k] != x {
      assert v[k] == v[..j][k] && v[..j][k] in v[..j];
    }
  }

  lemma IndexOfDistinct<T>(v: seq<T>, i: nat)
    requires Distinct(v) && i < |v|
    ensures IndexOf(v, v[i]) == i
  {
    IndexOfUnique(v, v[i], i);
  }

  /** Find, or append when absent: the tables of constants, names, locals and cells. */
  function Insert<T(==,!new)>(v: seq<T>, x: T): (r: seq<T>)
    ensures v <= r && x in r
    ensures forall y :: y in r <==> y == x || y in v
    ensures Distinct(v) ==> Distinct(r)
  {
    if x in v then v else v + [x]
  }

  function InsertAll(v: seq<string>, xs: seq<string>): (r: seq<string>)
    ensures v <= r
    ensures forall y :: y in r <==> y in xs || y in v
    ensures Distinct(v) ==> Distinct(r)
    decreases |xs|
  {
    if xs == [] then v else
    var w := Insert(v, xs[0]);
    assert xs == [xs[0]] + xs[1..];
    InsertAll(w, xs[1..])
  }
}

module Scanners {
  import opened Ast
  import opened NameTables

  /** `global x` statements of the body itself, not of nested functions. */
  function ScanGlobals(n: Node, acc: seq<string>): seq<string>
    decreases n
  {
    match n
    case Seq(a, b) => ScanGlobals(b, ScanGlobals(a, acc))
    case Entry(_, v, m) => ScanGlobals(m, ScanGlobals(v, acc))
    case Index(b, i) => ScanGlobals(i, ScanGlobals(b, acc))
    case Field(b, _) => ScanGlobals(b, acc)
    case Assign(l, e) => ScanGlobals(e, ScanGlobals(l, acc))
    case CallStmt(c) => ScanGlobals(c, acc)
    case Global(x) => SetInsert(acc, x)
    case If(c, t, e) => ScanGlobals(e, ScanGlobals(t, ScanGlobals(c, acc)))
    case While(c, b) => ScanGlobals(b, ScanGlobals(c, acc))
    case Return(e) => ScanGlobals(e, acc)
    case Call(t, args) => ScanGlobals(args, ScanGlobals(t, acc))
    case Record(es) => ScanGlobals(es, acc)
    case BinExpr(_, l, r) => ScanGlobals(r, ScanGlobals(l, acc))
    case UnExpr(_, e) => ScanGlobals(e, acc)
    case _ => acc
  }

  /**
    Assigned names that are not global.  The right-hand side of an assignment is not
    visited, but a function literal in any other position is: its locals leak out.
   */
  function ScanLocals(n: Node, globals: seq<string>, acc: seq<string>): seq<string>
    decreases n
  {
    match n
    case Seq(a, b) => ScanLocals(b, globals, ScanLocals(a, globals, acc))
    case Entry(_, v, m) => ScanLocals(m, globals, ScanLocals(v, globals, acc))
    case Index(b, i) => ScanLocals(i, globals, ScanLocals(b, globals, acc))
    case Field(b, _) => ScanLocals(b, globals, acc)
    case Assign(l, _) => if l.Name? && l.name !in globals then SetInsert(acc, l.name) else acc
    case CallStmt(c) => ScanLocals(c, globals, acc)
    case If(c, t, e) => ScanLocals(e, globals, ScanLocals(t, globals, ScanLocals(c, globals, acc)))
    case While(c, b) => ScanLocals(b, globals, ScanLocals(c, globals, acc))
    case Return(e) => ScanLocals(e, globals, acc)
    case Call(t, args) => ScanLocals(args, globals, ScanLocals(t, globals, acc))
    case Function(_, b) => ScanLocals(b, globals, acc)
    case Record(es) => ScanLocals(es, globals, acc)
    case BinExpr(_, l, r) => ScanLocals(r, globals, ScanLocals(l, globals, acc))
    case UnExpr(_, e) => ScanLocals(e, globals, acc)
    case _ => acc
  }

  // ----- which names these scanners find -----

  /** The names declared global in a tree, nested functions left out. */
  lemma {:induction false} ScanGlobalsExact(n: Node, acc: seq<string>, x: string)
    ensures x in ScanGlobals(n, acc) <==> x in acc || Has(n, Declares(x))
    decreases n
  {
    var u := Declares(x);
    match n
    case Seq(a, b) =>
      ScanGlobalsExact(a, acc, x);
      ScanGlobalsExact(b, ScanGlobals(a, acc), x);
      HasTwo(n, u, a, b);
    case Entry(_, v, m) =>
      ScanGlobalsExact(v, acc, x);
      ScanGlobalsExact(m, ScanGlobals(v, acc), x);
      HasTwo(n, u, v, m);
    case Index(b, i) =>
      ScanGlobalsExact(b, acc, x);
      ScanGlobalsExact(i, ScanGlobals(b, acc), x);
      HasTwo(n, u, b, i);
    case Field(b, _) =>
      ScanGlobalsExact(b, acc, x);
      HasOne(n, u, b);
    case Assign(l, e) =>
      ScanGlobalsExact(l, acc, x);
      ScanGlobalsExact(e, ScanGlobals(l, acc), x);
      HasTwo(n, u, l, e);
    case CallStmt(c) =>
      ScanGlobalsExact(c, acc, x);
      HasOne(n, u, c);
    case If(c, t, e) =>
      ScanGlobalsExact(c, acc, x);
      ScanGlobalsExact(t, ScanGlobals(c, acc), x);
      ScanGlobalsExact(e, ScanGlobals(t, ScanGlobals(c, acc)), x);
      HasThree(n, u, c, t, e);
    case While(c, b) =>
      ScanGlobalsExact(c, acc, x);
      ScanGlobalsExact(b, ScanGlobals(c, acc), x);
      HasTwo(n, u, c, b);
    case Return(e) =>
      ScanGlobalsExact(e, acc, x);
      HasOne(n, u, e);
    case Call(t, args) =>
      ScanGlobalsExact(t, acc, x);
      ScanGlobalsExact(args, ScanGlobals(t, acc), x);
      HasTwo(n, u, t, args);
    case Record(es) =>
      ScanGlobalsExact(es, acc, x);
      HasOne(n, u, es);
    case BinExpr(_, l, r) =>
      ScanGlobalsExact(l, acc, x);
      ScanGlobalsExact(r, ScanGlobals(l, acc), x);
      HasTwo(n, u, l, r);
    case UnExpr(_, e) =>
      ScanGlobalsExact(e, acc, x);
      HasOne(n, u, e);
    case _ =>
  }

  /** A local is what an assignment assigns that lies in no other assignment, functions being looked into. */
  lemma {:induction false} ScanLocalsExact(n: Node, globals: seq<string>, acc: seq<string>, x: string)
    ensures x in ScanLocals(n, globals, acc) <==> x in acc || (x !in globals && Has(n, Assigns(x)))
    decreases n
  {
    var u := Assigns(x);
    match n
    case Seq(a, b) =>
      ScanLocalsExact(a, globals, acc, x);
      ScanLocalsExact(b, globals, ScanLocals(a, globals, acc), x);
      HasTwo(n, u, a, b);
    case Entry(_, v, m) =>
      ScanLocalsExact(v, globals, acc, x);
      ScanLocalsExact(m, globals, ScanLocals(v, globals, acc), x);
      HasTwo(n, u, v, m);
    case Index(b, i) =>
      ScanLocalsExact(b, globals, acc, x);
      ScanLocalsExact(i, globals, ScanLocals(b, globals, acc), x);
      HasTwo(n, u, b, i);
    case Field(b, _) =>
      ScanLocalsExact(b, globals, acc, x);
      HasOne(n, u, b);
    case Assign(l, e) => HasTwo(n, u, l, e);
    case CallStmt(c) =>
      ScanLocalsExact(c, globals, acc, x);
      HasOne(n, u, c);
    case If(c, t, e) =>
      ScanLocalsExact(c, globals, acc, x);
      ScanLocalsExact(t, globals, ScanLocals(c, globals, acc), x);
      ScanLocalsExact(e, globals, ScanLocals(t, globals, ScanLocals(c, globals, acc)), x);
      HasThree(n, u, c, t, e);
    case While(c, b) =>
      ScanLocalsExact(c, globals, acc, x);
      ScanLocalsExact(b, globals, ScanLocals(c, globals, acc), x);
      HasTwo(n, u, c, b);
    case Return(e) =>
      ScanLocalsExact(e, globals, acc, x);
      HasOne(n, u, e);
    case Call(t, args) =>
      ScanLocalsExact(t, globals, acc, x);
      ScanLocalsExact(args, globals, ScanLocals(t, globals, acc), x);
      HasTwo(n, u, t, args);
    case Function(_, b) =>
      ScanLocalsExact(b, globals, acc, x);
      HasOne(n, u, b);
    case Record(es) =>
      ScanLocalsExact(es, globals, acc, x);
      HasOne(n, u, es);
    case BinExpr(_, l, r) =>
      ScanLocalsExact(l, globals, acc, x);
      ScanLocalsExact(r, globals, ScanLocals(l, globals, acc), x);
      HasTwo(n, u, l, r);
    case UnExpr(_, e) =>
      ScanLocalsExact(e, globals, acc, x);
      HasOne(n, u, e);
    case _ =>
  }

  /** Whatever the statements of a function assign is local or declared global. */
  lemma AssignedAreKnown(body: Node, x: string)
    requires Is(BlockSort, body) && Has(body, AssignsHere(x))
    ensures x in ScanGlobals(body, []) || x in ScanLocals(body, ScanGlobals(body, []), [])
  {
    hide Has, ScanGlobals, ScanLocals, Is;
    StatementsFound(body, x);
    ScanLocalsExact(body, ScanGlobals(body, []), [], x);
  }

  /** But a function literal that is no right-hand side leaks: what it assigns is local outside, too. */
  lemma ArgumentLeaks(x: string, f: string)
    ensures var assign := Assign(Name(x), NullLit);
            var call := Call(Name(f), Seq(Function([], Seq(assign, Empty)), Empty));
            var body := Seq(CallStmt(call), Empty);
            !Has(body, AssignsHere(x)) && x in ScanLocals(body, [], [])
  {
    var assign := Assign(Name(x), NullLit);
    var literal := Function([], Seq(assign, Empty));
    var call := Call(Name(f), Seq(literal, Empty));
    var body := Seq(CallStmt(call), Empty);
    hide Has, ScanLocals;
    forall u | u == Assigns(x) || u == AssignsHere(x) ensures Has(body, u) <==> u.Assigns? {
      HasBelow(Empty, u);
      HasTwo(body, u, body.first, Empty);
      HasOne(body.first, u, call);
      HasTwo(call, u, Name(f), call.args);
      HasBelow(Name(f), u);
      HasTwo(call.args, u, literal, Empty);
      HasOne(literal, u, literal.body);
      HasTwo(literal.body, u, assign, Empty);
      HasBelow(assign, u);
    }
    ScanLocalsExact(body, [], [], x);
  }

  function ToSet(v: seq<string>): set<string> { set x | x in v }

  /** The ignore set on top of the scanner's stack, and the names found so far. */
  datatype RefScan = RefScan(ignores: set<string>, refs: seq<string>)

  function ScanName(x: string, assigning: bool, needles: set<string>, r: RefScan): RefScan {
    if assigning then r.(ignores := r.ignores + {x})
    else if x in needles && x !in r.ignores then r.(refs := SetInsert(r.refs, x))
    else r
  }

  /** Needles that the tree refers to; only the innermost function's ignore set counts. */
  function ScanRefs(n: Node, assigning: bool, needles: set<string>, r: RefScan): RefScan
    decreases n
  {
    match n
    case Empty => r
    case Seq(a, b) => ScanRefs(b, false, needles, ScanRefs(a, false, needles, r))
    case Entry(_, v, m) => ScanRefs(m, false, needles, ScanRefs(v, false, needles, r))
    case Name(x) => ScanName(x, assigning, needles, r)
    case Index(b, i) => ScanRefs(i, false, needles, ScanRefs(b, false, needles, r))
    case Field(b, f) => ScanName(f, false, needles, ScanRefs(b, false, needles, r))
    case Assign(l, e) => ScanRefs(e, false, needles, ScanRefs(l, true, needles, r))
    case CallStmt(c) => ScanRefs(c, false, needles, r)
    case Global(x) => r.(ignores := r.ignores + {x})
    case If(c, t, e) =>
      ScanRefs(e, false, needles, ScanRefs(t, false, needles, ScanRefs(c, false, needles, r)))
    case While(c, b) => ScanRefs(b, false, needles, ScanRefs(c, false, needles, r))
    case Return(e) => ScanRefs(e, false, needles, r)
    case Call(t, args) => ScanRefs(args, false, needles, ScanRefs(t, false, needles, r))
    case Function(params, b) =>
      var inner := ScanRefs(b, false, needles, RefScan(ToSet(params), r.refs));
      r.(refs := inner.refs)
    case Record(es) => ScanRefs(es, false, needles, r)
    case IntLit(_) => r
    case StringLit(_) => r
    case BoolLit(_) => r
    case NullLit => r
    case BinExpr(_, a, b) => ScanRefs(b, false, needles, ScanRefs(a, false, needles, r))
    case UnExpr(_, e) => ScanRefs(e, false, needles, r)
  }

  /** Variables of a function that its nested functions capture. */
  function CapturedBelow(vars: seq<string>, body: Node): seq<string> {
    ScanRefs(body, false, ToSet(vars), RefScan(ToSet(vars), [])).refs
  }

  /** Outer variables that a function or its nested functions need from the enclosing frame. */
  function CapturedFrom(outer: seq<string>, locals: seq<string>, globals: seq<string>, body: Node): seq<string> {
    ScanRefs(body, false, ToSet(outer) - ToSet(locals) - ToSet(globals), RefScan({}, [])).refs
  }

  /** Of some outer variables those that a function literal's closure needs. */
  function Needed(outer: set<string>, body: Node): seq<string> {
    var globals := ScanGlobals(body, []);
    var locals := ScanLocals(body, globals, []);
    ScanRefs(body, false, outer - ToSet(locals) - ToSet(globals), RefScan({}, [])).refs
  }

  ghost predicate FoundIn(needles: set<string>, before: seq<string>, after: seq<string>) {
    && (forall x :: x in before ==> x in after)
    && (forall x :: x in after ==> x in before || x in needles)
  }

  lemma FoundTrans(needles: set<string>)
    ensures forall a :: FoundIn(needles, a, a)
    ensures forall a, b, c :: FoundIn(needles, a, b) && FoundIn(needles, b, c) ==> FoundIn(needles, a, c)
  {
  }

  lemma NameGrows(x: string, assigning: bool, needles: set<string>, r: RefScan)
    requires Distinct(r.refs)
    ensures var q := ScanName(x, assigning, needles, r); Distinct(q.refs) && FoundIn(needles, r.refs, q.refs)
  {
    SetInsertDistinct(r.refs, x);
  }

  lemma {:induction false} ScanRefsGrows(n: Node, assigning: bool, needles: set<string>, r: RefScan)
    requires Distinct(r.refs)
    ensures var q := ScanRefs(n, assigning, needles, r); Distinct(q.refs) && FoundIn(needles, r.refs, q.refs)
    decreases n
  {
    hide FoundIn, Distinct;
    FoundTrans(needles);
    match n
    case Empty =>
    case Seq(a, b) =>
      ScanRefsGrows(a, false, needles, r);
      ScanRefsGrows(b, false, needles, ScanRefs(a, false, needles, r));
    case Entry(_, v, m) =>
      ScanRefsGrows(v, false, needles, r);
      ScanRefsGrows(m, false, needles, ScanRefs(v, false, needles, r));
    case Name(x) => NameGrows(x, assigning, needles, r);
    case Index(b, i) =>
      ScanRefsGrows(b, false, needles, r);
      ScanRefsGrows(i, false, needles, ScanRefs(b, false, needles, r));
    case Field(b, f) =>
      ScanRefsGrows(b, false, needles, r);
      NameGrows(f, false, needles, ScanRefs(b, false, needles, r));
    case Assign(l, e) =>
      ScanRefsGrows(l, true, needles, r);
      ScanRefsGrows(e, false, needles, ScanRefs(l, true, needles, r));
    case CallStmt(c) => ScanRefsGrows(c, false, needles, r);
    case Global(x) =>
    case If(c, t, e) =>
      ScanRefsGrows(c, false, needles, r);
      ScanRefsGrows(t, false, needles, ScanRefs(c, false, needles, r));
      ScanRefsGrows(e, false, needles, ScanRefs(t, false, needles, ScanRefs(c, false, needles, r)));
    case While(c, b) =>
      ScanRefsGrows(c, false, needles, r);
      ScanRefsGrows(b, false, needles, ScanRefs(c, false, needles, r));
    case Return(e) => ScanRefsGrows(e, false, needles, r);
    case Call(t, args) =>
      ScanRefsGrows(t, false, needles, r);
      ScanRefsGrows(args, false, needles, ScanRefs(t, false, needles, r));
    case Function(params, b) =>
      ScanRefsGrows(b, false, needles, RefScan(ToSet(params), r.refs));
    case Record(es) => ScanRefsGrows(es, false, needles, r);
    case IntLit(_) =>
    case StringLit(_) =>
    case BoolLit(_) =>
    case NullLit =>
    case BinExpr(_, a, b) =>
      ScanRefsGrows(a, false, needles, r);
      ScanRefsGrows(b, false, needles, ScanRefs(a, false, needles, r));
    case UnExpr(_, e) => ScanRefsGrows(e, false, needles, r);
  }

  // ----- which names the scanner finds -----

  /** Whether `x` is ignored behind the tree: assigned in it, or declared global, or ignored before. */
  predicate Hidden(n: Node, assigning: bool, x: string, before: bool)
    decreases n
  {
    match n
    case Seq(a, b) => Hidden(b, false, x, Hidden(a, false, x, before))
    case Entry(_, v, m) => Hidden(m, false, x, Hidden(v, false, x, before))
    case Name(y) => before || (assigning && y == x)
    case Index(b, i) => Hidden(i, false, x, Hidden(b, false, x, before))
    case Field(b, _) => Hidden(b, false, x, before)
    case Assign(l, e) => Hidden(e, false, x, Hidden(l, true, x, before))
    case CallStmt(c) => Hidden(c, false, x, before)
    case Global(y) => before || y == x
    case If(c, t, e) => Hidden(e, false, x, Hidden(t, false, x, Hidden(c, false, x, before)))
    case While(c, b) => Hidden(b, false, x, Hidden(c, false, x, before))
    case Return(e) => Hidden(e, false, x, before)
    case Call(t, args) => Hidden(args, false, x, Hidden(t, false, x, before))
    case Record(es) => Hidden(es, false, x, before)
    case BinExpr(_, a, b) => Hidden(b, false, x, Hidden(a, false, x, before))
    case UnExpr(_, e) => Hidden(e, false, x, before)
    case _ => before
  }

  /** Whether the tree reads `x`, or has it as a field name, where it is not ignored; a nested function ignores only its parameters. */
  predicate Reads(n: Node, assigning: bool, x: string, hidden: bool)
    decreases n
  {
    match n
    case Seq(a, b) => Reads(a, false, x, hidden) || Reads(b, false, x, Hidden(a, false, x, hidden))
    case Entry(_, v, m) => Reads(v, false, x, hidden) || Reads(m, false, x, Hidden(v, false, x, hidden))
    case Name(y) => !assigning && y == x && !hidden
    case Index(b, i) => Reads(b, false, x, hidden) || Reads(i, false, x, Hidden(b, false, x, hidden))
    case Field(b, f) => Reads(b, false, x, hidden) || (f == x && !Hidden(b, false, x, hidden))
    case Assign(l, e) => Reads(l, true, x, hidden) || Reads(e, false, x, Hidden(l, true, x, hidden))
    case CallStmt(c) => Reads(c, false, x, hidden)
    case If(c, t, e) =>
      || Reads(c, false, x, hidden) || Reads(t, false, x, Hidden(c, false, x, hidden))
      || Reads(e, false, x, Hidden(t, false, x, Hidden(c, false, x, hidden)))
    case While(c, b) => Reads(c, false, x, hidden) || Reads(b, false, x, Hidden(c, false, x, hidden))
    case Return(e) => Reads(e, false, x, hidden)
    case Call(t, args) => Reads(t, false, x, hidden) || Reads(args, false, x, Hidden(t, false, x, hidden))
    case Function(params, b) => Reads(b, false, x, x in params)
    case Record(es) => Reads(es, false, x, hidden)
    case BinExpr(_, a, b) => Reads(a, false, x, hidden) || Reads(b, false, x, Hidden(a, false, x, hidden))
    case UnExpr(_, e) => Reads(e, false, x, hidden)
    case _ => false
  }

  /** What the scan of a tree does to one name. */
  ghost predicate Exact(n: Node, assigning: bool, needles: set<string>, r: RefScan, x: string) {
    var q := ScanRefs(n, assigning, needles, r);
    && (x in q.ignores <==> Hidden(n, assigning, x, x in r.ignores))
    && (x in q.refs <==> x in r.refs || (x in needles && Reads(n, assigning, x, x in r.ignores)))
  }

  /** One tree after another. */
  lemma ExactThen(a: Node, assigning: bool, b: Node, needles: set<string>, r: RefScan, x: string)
    requires Exact(a, assigning, needles, r, x) && Exact(b, false, needles, ScanRefs(a, assigning, needles, r), x)
    ensures var q := ScanRefs(b, false, needles, ScanRefs(a, assigning, needles, r));
            var found := Reads(a, assigning, x, x in r.ignores) || Reads(b, false, x, Hidden(a, assigning, x, x in r.ignores));
            && (x in q.ignores <==> Hidden(b, false, x, Hidden(a, assigning, x, x in r.ignores)))
            && (x in q.refs <==> x in r.refs || (x in needles && found))
  {
    hide ScanRefs, Hidden, Reads;
  }

  lemma {:induction false} ExactIf(n: Node, assigning: bool, needles: set<string>, r: RefScan, x: string)
    requires n.If?
    ensures Exact(n, assigning, needles, r, x)
    decreases n, 0
  {
    ScanRefsExact(n.cond, false, needles, r, x);
    var r1 := ScanRefs(n.cond, false, needles, r);
    ScanRefsExact(n.thn, false, needles, r1, x);
    ExactThen(n.cond, false, n.thn, needles, r, x);
    ScanRefsExact(n.els, false, needles, ScanRefs(n.thn, false, needles, r1), x);
  }

  lemma {:induction false} ExactPair(n: Node, assigning: bool, needles: set<string>, r: RefScan, x: string)
    requires n.Seq? || n.Entry? || n.Index? || n.Assign? || n.While? || n.Call? || n.BinExpr?
    ensures Exact(n, assigning, needles, r, x)
    decreases n, 0
  {
    var (a, storing, b) :=
      match n
      case Seq(a, b) => (a, false, b)
      case Entry(_, v, m) => (v, false, m)
      case Index(b, i) => (b, false, i)
      case Assign(l, e) => (l, true, e)
      case While(c, b) => (c, false, b)
      case Call(t, args) => (t, false, args)
      case BinExpr(_, l, e) => (l, false, e);
    ScanRefsExact(a, storing, needles, r, x);
    ScanRefsExact(b, false, needles, ScanRefs(a, storing, needles, r), x);
    ExactThen(a, storing, b, needles, r, x);
  }

  lemma {:induction false} ExactOne(n: Node, assigning: bool, needles: set<string>, r: RefScan, x: string)
    requires n.CallStmt? || n.Return? || n.Record? || n.UnExpr?
    ensures Exact(n, assigning, needles, r, x)
    decreases n, 0
  {
    var a :=
      match n
      case CallStmt(c) => c
      case Return(e) => e
      case Record(es) => es
      case UnExpr(_, e) => e;
    ScanRefsExact(a, false, needles, r, x);
  }

  /** The scanner finds a name exactly when it is a needle and read somewhere where it is not ignored. */
  lemma {:induction false} ScanRefsExact(n: Node, assigning: bool, needles: set<string>, r: RefScan, x: string)
    ensures Exact(n, assigning, needles, r, x)
    decreases n, 1
  {
    hide SetInsert;
    if n.If? {
      ExactIf(n, assigning, needles, r, x);
    } else if n.Seq? || n.Entry? || n.Index? || n.Assign? || n.While? || n.Call? || n.BinExpr? {
      ExactPair(n, assigning, needles, r, x);
    } else if n.CallStmt? || n.Return? || n.Record? || n.UnExpr? {
      ExactOne(n, assigning, needles, r, x);
    } else if n.Field? {
      ScanRefsExact(n.base, false, needles, r, x);
    } else if n.Function? {
      ScanRefsExact(n.body, false, needles, RefScan(ToSet(n.params), r.refs), x);
    }
  }

  /** The captured variables of a function: those that a function nested in it reads. */
  lemma CapturedExactly(vars: seq<string>, outer: seq<string>, locals: seq<string>, globals: seq<string>, body: Node, x: string)
    ensures x in CapturedBelow(vars, body) <==> x in vars && Reads(body, false, x, true)
    ensures x in CapturedFrom(outer, locals, globals, body) <==>
              x in outer && x !in locals && x !in globals && Reads(body, false, x, false)
  {
    ScanRefsExact(body, false, ToSet(vars), RefScan(ToSet(vars), []), x);
    ScanRefsExact(body, false, ToSet(outer) - ToSet(locals) - ToSet(globals), RefScan({}, []), x);
    hide ScanRefs, Reads;
  }
}
