/** The scanner for captured names as it runs: a stack of ignore sets and a growing result. */
module RefsScanner {
  import opened Ast
  import opened NameTables
  import opened Scanners

  class CompilerRefsScanner {
    var needles: set<string>
    var ignores: seq<set<string>>
    var refs: seq<string>

    /** The innermost ignore set and the names found. */
    function State(): RefScan
      requires |ignores| > 0
      reads this
    {
      RefScan(ignores[|ignores| - 1], refs)
    }

    constructor ForLocals(locals: seq<string>)
      ensures needles == ToSet(locals) && ignores == [ToSet(locals)] && refs == []
    {
      needles, ignores, refs := set x | x in locals, [set x | x in locals], [];
    }

    constructor ForOuter(outer: seq<string>, locals: seq<string>, globals: seq<string>)
      ensures needles == ToSet(outer) - ToSet(locals) - ToSet(globals) && ignores == [{}] && refs == []
    {
      needles := (set x | x in outer) - (set x | x in locals) - (set x | x in globals);
      ignores, refs := [{}], [];
    }

    method Ignore(x: string)
      requires |ignores| > 0
      modifies this`ignores
      ensures ignores == old(ignores)[..|old(ignores)| - 1] + [old(ignores)[|old(ignores)| - 1] + {x}]
    {
      ignores := ignores[..|ignores| - 1] + [ignores[|ignores| - 1] + {x}];
    }

    method VisitName(x: string, assigning: bool)
      requires |ignores| > 0
      modifies this
      ensures needles == old(needles) && Below(old(ignores))
      ensures State() == ScanName(x, assigning, needles, old(State()))
    {
      if assigning {
        Ignore(x);
      } else if x in needles && x !in ignores[|ignores| - 1] {
        refs := SetInsert(refs, x);
      }
    }

    /** Only the innermost ignore set has changed. */
    ghost predicate Below(before: seq<set<string>>)
      reads this
    {
      |ignores| == |before| > 0 && ignores[..|ignores| - 1] == before[..|before| - 1]
    }

    method VisitFunction(params: seq<string>, body: Node)
      requires |ignores| > 0
      modifies this
      ensures needles == old(needles) && Below(old(ignores))
      ensures State() == old(State()).(refs := ScanRefs(body, false, needles, RefScan(ToSet(params), old(refs))).refs)
      decreases body, 2
    {
      ignores := ignores + [{}];
      assert ToSet(params[..0]) == {};
      for i := 0 to |params|
        invariant needles == old(needles) && refs == old(refs)
        invariant ignores == old(ignores) + [ToSet(params[..i])]
      {
        assert params[..i + 1] == params[..i] + [params[i]];
        assert ToSet(params[..i + 1]) == ToSet(params[..i]) + {params[i]};
        Ignore(params[i]);
      }
      assert params[..|params|] == params;
      ghost var pushed := ignores;
      Scan(body, false);
      assert ignores[..|ignores| - 1] == pushed[..|pushed| - 1] == old(ignores);
      ignores := ignores[..|ignores| - 1];
    }

    /** Statements and lists. */
    method ScanStatement(n: Node)
      requires |ignores| > 0 && (n.Seq? || n.Entry? || n.Assign? || n.CallStmt? || n.Global? || n.If? || n.While? || n.Return?)
      modifies this
      ensures needles == old(needles) && Below(old(ignores))
      ensures State() == ScanRefs(n, false, needles, old(State()))
      decreases n, 0
    {
      hide SetInsert;
      match n
      case Seq(a, b) => Scan(a, false); Scan(b, false);
      case Entry(_, v, m) => Scan(v, false); Scan(m, false);
      case Assign(l, e) => Scan(l, true); Scan(e, false);
      case CallStmt(c) => Scan(c, false);
      case Global(x) => Ignore(x);
      case If(c, t, e) => Scan(c, false); Scan(t, false); Scan(e, false);
      case While(c, b) => Scan(c, false); Scan(b, false);
      case Return(e) => Scan(e, false);
    }

    method ScanExpression(n: Node)
      requires |ignores| > 0
      requires n.Index? || n.Field? || n.Call? || n.Function? || n.Record? || n.BinExpr? || n.UnExpr?
      modifies this
      ensures needles == old(needles) && Below(old(ignores))
      ensures State() == ScanRefs(n, false, needles, old(State()))
      decreases n, 0
    {
      hide SetInsert;
      match n
      case Index(b, i) => Scan(b, false); Scan(i, false);
      case Field(b, f) => Scan(b, false); VisitName(f, false);
      case Call(t, args) => Scan(t, false); Scan(args, false);
      case Function(params, b) => VisitFunction(params, b);
      case Record(es) => Scan(es, false);
      case BinExpr(_, a, b) => Scan(a, false); Scan(b, false);
      case UnExpr(_, e) => Scan(e, false);
    }

    method Scan(n: Node, assigning: bool)
      requires |ignores| > 0
      modifies this
      ensures needles == old(needles) && Below(old(ignores))
      ensures State() == ScanRefs(n, assigning, needles, old(State()))
      decreases n, 1
    {
      OnlyNamesAssigned(n, assigning, needles, State());
      hide ScanName;
      if n.Name? {
        VisitName(n.name, assigning);
      } else if n.Seq? || n.Entry? || n.Assign? || n.CallStmt? || n.Global? || n.If? || n.While? || n.Return? {
        ScanStatement(n);
      } else if n.Index? || n.Field? || n.Call? || n.Function? || n.Record? || n.BinExpr? || n.UnExpr? {
        ScanExpression(n);
      }
    }
  }

  /** The flag matters for names only. */
  lemma OnlyNamesAssigned(n: Node, assigning: bool, needles: set<string>, r: RefScan)
    ensures !n.Name? ==> ScanRefs(n, assigning, needles, r) == ScanRefs(n, false, needles, r)
  {
  }

  /** What the compiler asks for: the captured variables below a function, and those from around it. */
  method Captured(vars: seq<string>, body: Node) returns (refs: seq<string>)
    ensures refs == CapturedBelow(vars, body)
  {
    var scanner := new CompilerRefsScanner.ForLocals(vars);
    scanner.Scan(body, false);
    refs := scanner.refs;
  }

  method CapturedOuter(outer: seq<string>, locals: seq<string>, globals: seq<string>, body: Node) returns (refs: seq<string>)
    ensures refs == CapturedFrom(outer, locals, globals, body)
  {
    var scanner := new CompilerRefsScanner.ForOuter(outer, locals, globals);
    scanner.Scan(body, false);
    refs := scanner.refs;
  }
}
