/**
  The function table that a compiled function carries: its literals, in the order in which
  they are evaluated, each compiled in a scope like the function's own.
 */
module FunctionTables {
  import opened Ast
  import opened Bytecode
  import opened BytecodeCompiler

  /** The record was compiled from the literal, in a scope that differs from `s` in what was emitted only. */
  ghost predicate CompiledFrom(fn: Fn, literal: Node, s: Scope) {
    literal.Function? && exists t :: Ok(t) && SameShape(s, t) && fn == CompileFunction(literal.params, literal.body, t)
  }

  /** The literals of `n` came to the function table, from `before` to `after`. */
  ghost predicate Numbered(n: Node, s: Scope, before: seq<Fn>, after: seq<Fn>) {
    && before <= after && |after| == |before| + Literals(n)
    && forall i :: 0 <= i < Literals(n) ==> CompiledFrom(after[|before| + i], NthLiteral(n, i), s)
  }

  /** The literals of `n` are first those of `a`, then those of `b`. */
  ghost predicate Split(n: Node, a: Node, b: Node) {
    && Literals(n) == Literals(a) + Literals(b)
    && forall i :: 0 <= i < Literals(n) ==>
         NthLiteral(n, i) == if i < Literals(a) then NthLiteral(a, i) else NthLiteral(b, i - Literals(a))
  }

  lemma OneAfterOther(n: Node, s: Scope, a: Node, t: Scope, b: Node, u: Scope, f0: seq<Fn>, f1: seq<Fn>, f2: seq<Fn>)
    requires Split(n, a, b) && Grows(s, t) && Grows(s, u) && Numbered(a, t, f0, f1) && Numbered(b, u, f1, f2)
    ensures Numbered(n, s, f0, f2)
  {
    hide CompiledFrom, NthLiteral, Literals, Grows;
    forall i | 0 <= i < Literals(n) ensures CompiledFrom(f2[|f0| + i], NthLiteral(n, i), s) {
      if i < Literals(a) {
        assert f2[..|f1|][|f0| + i] == f1[|f0| + i];
        ShapeAgain(f2[|f0| + i], NthLiteral(a, i), s, t);
      } else {
        var k := i - Literals(a);
        assert f2[|f0| + i] == f2[|f1| + k];
        ShapeAgain(f2[|f1| + k], NthLiteral(b, k), s, u);
      }
    }
  }

  lemma ShapeAgain(fn: Fn, literal: Node, s: Scope, t: Scope)
    requires Grows(s, t) && CompiledFrom(fn, literal, t)
    ensures CompiledFrom(fn, literal, s)
  {
    hide Ok, CompileFunction;
    var u :| Ok(u) && SameShape(t, u) && fn == CompileFunction(literal.params, literal.body, u);
    assert SameShape(s, u);
  }

  lemma NoneAfter(n: Node, s: Scope, funcs: seq<Fn>)
    requires Literals(n) == 0
    ensures Numbered(n, s, funcs, funcs)
  {
  }

  // ----- the visit methods -----

  lemma {:induction false} FunctionNumbers(n: Node, s: Scope)
    requires Ok(s) && n.Function?
    ensures Numbered(n, s, s.fn.funcs, Transpile(n, false, s).fn.funcs)
  {
    hide Ok, Leave, Enter, MakeClosure, Transpile;
    var fn := CompileFunction(n.params, n.body, s);
    assert Transpile(n, false, s).fn.funcs == s.fn.funcs + [fn] by { FunctionUnfold(n, s); }
    assert CompiledFrom(fn, NthLiteral(n, 0), s);
  }

  lemma FunctionUnfold(n: Node, s: Scope)
    requires Ok(s) && n.Function?
    ensures Transpile(n, false, s) == MakeClosure(n.body, Leave(Transpile(n.body, false, Enter(n.params, n.body, s))), s)
  {
    hide Ok, Grows, LabelsOk, Leave, Enter, MakeClosure, LoadConstant;
    hide TranspileSeq, TranspileEntry, TranspileIndex, TranspileField, TranspileAssign, TranspileCallStmt, TranspileName;
    hide TranspileIf, TranspileWhile, TranspileReturn, TranspileCall, TranspileRecord, TranspileBinary, TranspileUnary;
  }

  lemma {:induction false} SeqNumbers(n: Node, s: Scope)
    requires Ok(s) && n.Seq?
    ensures Numbered(n, s, s.fn.funcs, TranspileSeq(n, s).fn.funcs)
    decreases n, 0
  {
    hide Ok, Grows, Numbered, Transpile;
    var s1 := Transpile(n.first, false, s);
    var r := Transpile(n.rest, false, s1);
    TranspileNumbers(n.first, false, s);
    TranspileNumbers(n.rest, false, s1);
    GrowsRefl(s);
    OneAfterOther(n, s, n.first, s, n.rest, s1, s.fn.funcs, s1.fn.funcs, r.fn.funcs);
  }

  lemma {:induction false} EntryNumbers(n: Node, s: Scope)
    requires Ok(s) && n.Entry?
    ensures Numbered(n, s, s.fn.funcs, TranspileEntry(n, s).fn.funcs)
    decreases n, 0
  {
    hide Ok, Grows, Numbered, Transpile;
    var s1 := Emit(s, Instr.Dup);
    var s2 := Transpile(n.value, false, s1);
    var s3 := EmitNamed(s2, n.key, (i: nat) => FieldStore(i));
    var r := Transpile(n.more, false, s3);
    GrowsTrans(s, s1, s2);
    GrowsTrans(s, s2, s3);
    TranspileNumbers(n.value, false, s1);
    TranspileNumbers(n.more, false, s3);
    OneAfterOther(n, s, n.value, s1, n.more, s3, s.fn.funcs, s2.fn.funcs, r.fn.funcs);
  }

  lemma {:induction false} IndexNumbers(n: Node, storing: bool, s: Scope)
    requires Ok(s) && n.Index?
    ensures Numbered(n, s, s.fn.funcs, TranspileIndex(n, storing, s).fn.funcs)
    decreases n, 0
  {
    hide Ok, Grows, Numbered, Transpile;
    var s1 := Transpile(n.base, false, s);
    var s2 := if storing then Emit(s1, Instr.Swap) else s1;
    var s3 := Transpile(n.index, false, s2);
    GrowsRefl(s);
    if storing { GrowsTrans(s, s1, s2); }
    TranspileNumbers(n.base, false, s);
    TranspileNumbers(n.index, false, s2);
    OneAfterOther(n, s, n.base, s, n.index, s2, s.fn.funcs, s1.fn.funcs, s3.fn.funcs);
  }

  lemma {:induction false} AssignNumbers(n: Node, s: Scope)
    requires Ok(s) && n.Assign?
    ensures Numbered(n, s, s.fn.funcs, TranspileAssign(n, s).fn.funcs)
    decreases n, 0
  {
    hide Ok, Grows, Numbered, Transpile;
    var s1 := Announce(n.lhs, s);
    var s2 := Transpile(n.expr, false, s1);
    var r := Transpile(n.lhs, true, s2);
    GrowsTrans(s, s1, s2);
    TranspileNumbers(n.expr, false, s1);
    TranspileNumbers(n.lhs, true, s2);
    OneAfterOther(n, s, n.expr, s1, n.lhs, s2, s.fn.funcs, s2.fn.funcs, r.fn.funcs);
  }

  lemma {:induction false} CallNumbers(n: Node, s: Scope)
    requires Ok(s) && n.Call?
    ensures Numbered(n, s, s.fn.funcs, TranspileCall(n, s).fn.funcs)
    decreases n, 0
  {
    hide Ok, Grows, Numbered, Transpile;
    var s1 := Transpile(n.args, false, s);
    var s2 := Transpile(n.target, false, s1);
    GrowsRefl(s);
    TranspileNumbers(n.args, false, s);
    TranspileNumbers(n.target, false, s1);
    OneAfterOther(n, s, n.args, s, n.target, s1, s.fn.funcs, s1.fn.funcs, s2.fn.funcs);
  }

  lemma {:induction false} BinaryNumbers(n: Node, s: Scope)
    requires Ok(s) && n.BinExpr?
    ensures Numbered(n, s, s.fn.funcs, TranspileBinary(n, s).fn.funcs)
    decreases n, 0
  {
    hide Ok, Grows, Numbered, Transpile;
    var first, second := if Reversed(n.bop) then n.right else n.left, if Reversed(n.bop) then n.left else n.right;
    var s1 := Transpile(first, false, s);
    var s2 := Transpile(second, false, s1);
    GrowsRefl(s);
    TranspileNumbers(first, false, s);
    TranspileNumbers(second, false, s1);
    OneAfterOther(n, s, first, s, second, s1, s.fn.funcs, s1.fn.funcs, s2.fn.funcs);
  }

  lemma {:induction false} WhileNumbers(n: Node, s: Scope)
    requires Ok(s) && n.While?
    ensures Numbered(n, s, s.fn.funcs, TranspileWhile(n, s).fn.funcs)
    decreases n, 0
  {
    hide Ok, Grows, Numbered, Transpile, Awaits;
    var start := LoopStart(s);
    var cond := Transpile(n.cond, false, start);
    AwaitsGrows(s, start, cond, s.nextLabel + 1);
    var body := BodyStart(s, cond);
    var bodyEnd := Transpile(n.body, false, body);
    AwaitsGrows(s, body, bodyEnd, s.nextLabel + 2);
    TranspileNumbers(n.cond, false, start);
    TranspileNumbers(n.body, false, body);
    OneAfterOther(n, s, n.cond, start, n.body, body, s.fn.funcs, cond.fn.funcs, bodyEnd.fn.funcs);
  }

  lemma {:induction false} IfNumbers(n: Node, s: Scope)
    requires Ok(s) && n.If?
    ensures Numbered(n, s, s.fn.funcs, TranspileIf(n, s).fn.funcs)
    decreases n, 0
  {
    hide Ok, Grows, Numbered, Transpile, Awaits, Split;
    var l := s.nextLabel;
    var cond := Transpile(n.cond, false, ReserveThree(s));
    var thn := ThenStart(s, cond);
    var thnEnd := Transpile(n.thn, false, thn);
    AwaitsGrows(s, thn, thnEnd, l + 1);
    var els := ElseStart(s, thnEnd);
    var elsEnd := Transpile(n.els, false, els);
    AwaitsGrows(s, els, elsEnd, l + 2);
    TranspileNumbers(n.cond, false, ReserveThree(s));
    TranspileNumbers(n.thn, false, thn);
    TranspileNumbers(n.els, false, els);
    var two := Seq(n.cond, n.thn);
    IfSplits(n);
    GrowsRefl(s);
    OneAfterOther(two, s, n.cond, ReserveThree(s), n.thn, thn, s.fn.funcs, cond.fn.funcs, thnEnd.fn.funcs);
    OneAfterOther(n, s, two, s, n.els, els, s.fn.funcs, thnEnd.fn.funcs, elsEnd.fn.funcs);
  }

  lemma IfSplits(n: Node)
    requires n.If?
    ensures var two := Seq(n.cond, n.thn); Split(two, n.cond, n.thn) && Split(n, two, n.els)
  {
  }

  /** A tree with one subtree, and the scope in which that is compiled. */
  function Only(n: Node, s: Scope): (r: (Node, Scope))
    requires Ok(s) && (n.Field? || n.CallStmt? || n.Return? || n.Record? || n.UnExpr?)
    ensures r.0 < n && Ok(r.1) && Grows(s, r.1) && r.1.fn.funcs == s.fn.funcs
  {
    hide Ok, Grows;
    GrowsRefl(s);
    match n
    case Field(b, name) => (b, InsertName(s, name))
    case CallStmt(c) => (c, s)
    case Return(e) => (e, s)
    case Record(es) => (es, Emit(s, AllocRecord))
    case UnExpr(_, e) => (e, s)
  }

  lemma OnlySplits(n: Node, s: Scope)
    requires Ok(s) && (n.Field? || n.CallStmt? || n.Return? || n.Record? || n.UnExpr?)
    ensures Split(n, Only(n, s).0, Empty)
  {
    hide Ok, Grows, InsertName, Emit;
  }

  lemma OnlyUnfold(n: Node, storing: bool, s: Scope)
    requires Ok(s) && (n.Field? || n.CallStmt? || n.Return? || n.Record? || n.UnExpr?)
    ensures Transpile(n, storing, s).fn.funcs == Transpile(Only(n, s).0, false, Only(n, s).1).fn.funcs
  {
    hide Ok, Grows, LabelsOk, Leave, Enter, MakeClosure, LoadConstant, Split;
    hide TranspileSeq, TranspileEntry, TranspileIndex, TranspileAssign, TranspileName;
    hide TranspileIf, TranspileWhile, TranspileCall, TranspileBinary;
  }

  lemma {:induction false} OnlyNumbers(n: Node, storing: bool, s: Scope)
    requires Ok(s) && (n.Field? || n.CallStmt? || n.Return? || n.Record? || n.UnExpr?)
    ensures Numbered(n, s, s.fn.funcs, Transpile(n, storing, s).fn.funcs)
    decreases n, 0
  {
    hide Ok, Grows, Numbered, Transpile, Only, Split;
    var (a, t) := Only(n, s);
    var u := Transpile(a, false, t);
    OnlyUnfold(n, storing, s);
    OnlySplits(n, s);
    TranspileNumbers(a, false, t);
    NoneAfter(Empty, s, u.fn.funcs);
    GrowsRefl(s);
    OneAfterOther(n, s, a, t, Empty, s, s.fn.funcs, u.fn.funcs, u.fn.funcs);
  }

  /** Compiling a tree adds its literals, in the order of evaluation, to the function table. */
  lemma {:induction false} TranspileNumbers(n: Node, storing: bool, s: Scope)
    requires Ok(s)
    ensures Numbered(n, s, s.fn.funcs, Transpile(n, storing, s).fn.funcs)
    decreases n, 1
  {
    hide Ok, Grows, Numbered, TranspileSeq, TranspileEntry, TranspileIndex, TranspileField, TranspileAssign, TranspileCallStmt;
    hide TranspileIf, TranspileWhile, TranspileReturn, TranspileCall, TranspileRecord, TranspileBinary, TranspileUnary;
    hide TranspileName, MakeClosure, Leave, Enter;
    match n
    case Seq(_, _) => SeqNumbers(n, s);
    case Entry(_, _, _) => EntryNumbers(n, s);
    case Index(_, _) => IndexNumbers(n, storing, s);
    case Assign(_, _) => AssignNumbers(n, s);
    case If(_, _, _) => IfNumbers(n, s);
    case While(_, _) => WhileNumbers(n, s);
    case Call(_, _) => CallNumbers(n, s);
    case Function(_, _) => FunctionNumbers(n, s);
    case BinExpr(_, _, _) => BinaryNumbers(n, s);
    case Field(_, _) => OnlyNumbers(n, storing, s);
    case CallStmt(_) => OnlyNumbers(n, storing, s);
    case Return(_) => OnlyNumbers(n, storing, s);
    case Record(_) => OnlyNumbers(n, storing, s);
    case UnExpr(_, _) => OnlyNumbers(n, storing, s);
    case _ => NoneAfter(n, s, s.fn.funcs);
  }

  lemma LiteralCount(n: Node, storing: bool, s: Scope)
    requires Ok(s)
    ensures |Transpile(n, storing, s).fn.funcs| == |s.fn.funcs| + Literals(n)
  {
    hide Ok, Grows, Transpile;
    TranspileNumbers(n, storing, s);
  }
}
