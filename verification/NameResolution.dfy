/**
  Which names the compiler resolves.  A name first stored at the top level becomes a global; a
  name in a function is a global there when the function declares it, or when it is none of
  the function's variables and an enclosing scope knows it as a global.
 */
module NameResolution {
  import opened Runtime
  import opened Ast
  import opened Bytecode
  import opened NameTables
  import opened Scanners
  import opened BytecodeCompiler

  // ----- the top level -----

  /** A store at the top level, where there are only globals, throws nothing and makes the name known. */
  lemma TopStoreDeclares(x: string, s: Scope)
    requires Ok(s) && s.top && s.fn.free == [] && s.fn.cells == [] && s.fn.locals == []
    ensures var r := TranspileName(x, true, s);
            && |r.fn.code| == |s.fn.code| + 1 && r.fn.code[..|s.fn.code|] == s.fn.code
            && r.fn.code[|s.fn.code|].StoreGlobal?
            && r.fn.code[|s.fn.code|].index < |r.fn.names| && r.fn.names[r.fn.code[|s.fn.code|].index] == x
            && (forall y :: y in r.globals <==> y in s.globals || y == x)
            && r.storing == s.storing
  {
    hide LabelsOk, Grows;
    assert x !in s.globals ==> Resolve(s, x).Unresolved?;
  }

  // ----- enclosing scopes -----

  /** A scope and those around it, the top level last. */
  function Around(s: Scope): (r: seq<Scope>)
    ensures r != [] && r[0] == s
  {
    [s] + if s.last.Some? then Around(s.last.value) else []
  }

  /** One of the scopes has the name as a global, or the assignment under way at the top level stores to it. */
  ghost predicate KnownIn(x: string, scopes: seq<Scope>)
    requires scopes != []
  {
    (exists k :: 0 <= k < |scopes| && x in scopes[k].globals) || scopes[|scopes| - 1].storing == x
  }

  lemma {:induction false} GlobalAboveExact(x: string, s: Scope)
    ensures GlobalAbove(x, Some(s)) <==> KnownIn(x, Around(s))
    decreases s
  {
    var scopes := Around(s);
    if s.last.Some? {
      var rest := Around(s.last.value);
      assert scopes == [s] + rest;
      GlobalAboveExact(x, s.last.value);
      if k :| 0 <= k < |rest| && x in rest[k].globals {
        assert scopes[k + 1] == rest[k];
      }
    }
  }

  // ----- the scan for globals of enclosing scopes -----

  /** The scanner looks for a name in the enclosing scopes, and finds it. */
  predicate Outer(x: string, s: Scope) { x !in s.fn.free && x !in s.fn.locals && GlobalAbove(x, s.last) }

  /** Until the body is compiled, a function's names are its globals. */
  ghost predicate OnlyGlobals(s: Scope) { forall y :: y in s.fn.names <==> y in s.globals }

  /** What the scan of a tree does to one name. */
  ghost predicate Finds(n: Node, s: Scope, r: Scope, x: string) {
    OnlyGlobals(r) && (x in r.globals <==> x in s.globals || (Has(n, Mentions(x)) && Outer(x, s)))
  }

  lemma FindsName(y: string, n: Node, s: Scope, x: string)
    requires Ok(s) && OnlyGlobals(s) && (Has(n, Mentions(x)) <==> x == y)
    ensures Finds(n, s, DependOn(y, s), x)
  {
    hide GlobalAbove, LabelsOk, Has;
  }

  /** The scan of one tree after another. */
  lemma FindsBoth(n: Node, a: Node, b: Node, s: Scope, t: Scope, r: Scope, x: string)
    requires SameShape(s, t) && Finds(a, s, t, x) && Finds(b, t, r, x)
    requires Has(n, Mentions(x)) <==> Has(a, Mentions(x)) || Has(b, Mentions(x))
    ensures Finds(n, s, r, x)
  {
    hide Outer, Has, OnlyGlobals;
    assert Outer(x, t) <==> Outer(x, s) by { OuterSame(s, t, x); }
    hide SameShape;
  }

  lemma OuterSame(s: Scope, t: Scope, x: string)
    requires SameShape(s, t)
    ensures Outer(x, t) <==> Outer(x, s)
  {
    hide GlobalAbove;
  }

  lemma {:induction false} DependPair(n: Node, s: Scope, x: string)
    requires Ok(s) && OnlyGlobals(s)
    requires n.Seq? || n.Entry? || n.Index? || n.Assign? || n.While? || n.Call? || n.BinExpr?
    ensures Finds(n, s, Depend(n, s), x)
    decreases n, 0
  {
    hide Ok, SameShape, DependOn, Finds, Has;
    var (a, b) :=
      match n
      case Seq(a, b) => (a, b)
      case Entry(_, v, m) => (v, m)
      case Index(b, i) => (b, i)
      case Assign(l, e) => (l, e)
      case While(c, b) => (c, b)
      case Call(t, args) => (t, args)
      case BinExpr(_, l, r) => (l, r);
    assert Depend(n, s) == Depend(b, Depend(a, s));
    HasTwo(n, Mentions(x), a, b);
    hide Depend;
    DependExact(a, s, x);
    FindsParts(a, s, Depend(a, s), x);
    DependExact(b, Depend(a, s), x);
    FindsBoth(n, a, b, s, Depend(a, s), Depend(n, s), x);
  }

  lemma FindsParts(n: Node, s: Scope, r: Scope, x: string)
    requires Finds(n, s, r, x)
    ensures OnlyGlobals(r)
  {
    hide OnlyGlobals;
  }

  lemma {:induction false} DependSingle(n: Node, s: Scope, x: string)
    requires Ok(s) && OnlyGlobals(s) && (n.CallStmt? || n.Return? || n.Record? || n.UnExpr?)
    ensures Finds(n, s, Depend(n, s), x)
    decreases n, 0
  {
    hide Ok, SameShape, DependOn, Has;
    var a :=
      match n
      case CallStmt(c) => c
      case Return(e) => e
      case Record(es) => es
      case UnExpr(_, e) => e;
    assert Depend(n, s) == Depend(a, s);
    HasOne(n, Mentions(x), a);
    hide Depend;
    DependExact(a, s, x);
  }

  lemma {:induction false} DependIf(n: Node, s: Scope, x: string)
    requires Ok(s) && OnlyGlobals(s) && n.If?
    ensures Finds(n, s, Depend(n, s), x)
    decreases n, 0
  {
    hide Ok, SameShape, DependOn, Finds, Has;
    var s1 := Depend(n.cond, s);
    var s2 := Depend(n.thn, s1);
    assert Depend(n, s) == Depend(n.els, s2);
    var two := Seq(n.cond, n.thn);
    HasTwo(two, Mentions(x), n.cond, n.thn);
    HasThree(n, Mentions(x), n.cond, n.thn, n.els);
    assert SameShape(s, s1) && SameShape(s, s2) by { hide Depend; ShapeTwice(s, s1, s2); }
    hide Depend;
    DependExact(n.cond, s, x);
    FindsParts(n.cond, s, s1, x);
    DependExact(n.thn, s1, x);
    FindsBoth(two, n.cond, n.thn, s, s1, s2, x);
    FindsParts(two, s, s2, x);
    DependExact(n.els, s2, x);
    FindsBoth(n, two, n.els, s, s2, Depend(n, s), x);
  }

  lemma ShapeTwice(s: Scope, t: Scope, r: Scope)
    requires SameShape(s, t) && SameShape(t, r)
    ensures SameShape(s, r)
  {
  }

  /** The scan finds exactly the names mentioned outside nested functions that enclosing scopes know. */
  lemma {:induction false} DependExact(n: Node, s: Scope, x: string)
    requires Ok(s) && OnlyGlobals(s)
    ensures Finds(n, s, Depend(n, s), x)
    decreases n, 1
  {
    hide Ok, SameShape, DependOn, Has;
    if n.If? {
      DependIf(n, s, x);
    } else if n.Seq? || n.Entry? || n.Index? || n.Assign? || n.While? || n.Call? || n.BinExpr? {
      DependPair(n, s, x);
    } else if n.CallStmt? || n.Return? || n.Record? || n.UnExpr? {
      DependSingle(n, s, x);
    } else if n.Name? {
      HasBelow(n, Mentions(x));
      FindsName(n.name, n, s, x);
    } else if n.Field? {
      DependField(n, s, x);
    } else {
      HasBelow(n, Mentions(x));
    }
  }

  lemma {:induction false} DependField(n: Node, s: Scope, x: string)
    requires Ok(s) && OnlyGlobals(s) && n.Field?
    ensures Finds(n, s, Depend(n, s), x)
    decreases n, 0
  {
    hide Ok, SameShape, DependOn, Has, Finds;
    var s1, name := Depend(n.base, s), Name(n.field);
    assert Depend(n, s) == DependOn(n.field, s1);
    HasOne(n, Mentions(x), n.base);
    HasBelow(name, Mentions(x));
    hide Depend;
    DependExact(n.base, s, x);
    FindsParts(n.base, s, s1, x);
    FindsName(n.field, name, s1, x);
    FindsBoth(n, n.base, name, s, s1, Depend(n, s), x);
  }

  /** The scope of a nested function before the scan. */
  lemma EnterDepends(params: seq<string>, body: Node, s: Scope) returns (t: Scope)
    requires Ok(s)
    ensures Ok(t) && OnlyGlobals(t) && Enter(params, body, s) == Depend(body, t) && t.last == Some(s)
    ensures forall x :: x in t.globals <==> x in ScanGlobals(body, [])
  {
    var globals := ScanGlobals(body, []);
    var locals := InsertAll(InsertAll([], params), ScanLocals(body, globals, []));
    var cells := InsertAll([], CapturedBelow(locals, body));
    hide ScanGlobals, ScanLocals, ScanRefs, CellRefs, FreeRefs, InsertAll, Depend;
    var free := InsertAll(InsertAll([], CellRefs(body, s)), FreeRefs(body, s));
    ScanRefsGrows(body, false, ToSet(free), RefScan(ToSet(free), []));
    var freeRefs := InsertAll([], CapturedBelow(free, body));
    var fn := Fn([], [], InsertAll([], globals), map[], [], locals, cells, free, |params|, []);
    t := Scope(fn, freeRefs, InsertAll([], globals), "", false, false, s.nextLabel, Some(s));
  }

  /**
    The globals of a nested function: the names that it declares, and those it mentions,
    outside the functions nested in it, that are none of its variables and that an enclosing
    scope knows.
   */
  lemma EnterGlobalsExact(params: seq<string>, body: Node, s: Scope, x: string)
    requires Ok(s)
    ensures var r := Enter(params, body, s);
            x in r.globals <==>
              || Has(body, Declares(x))
              || (Has(body, Mentions(x)) && x !in r.fn.free && x !in r.fn.locals && KnownIn(x, Around(s)))
  {
    hide Enter, Depend, Has, GlobalAbove, KnownIn, ScanGlobals, Ok;
    var t := EnterDepends(params, body, s);
    DependExact(body, t, x);
    ScanGlobalsExact(body, [], x);
    GlobalAboveExact(x, s);
  }
}
