/**
  The bytecode compiler as it runs: each visit method appends to the current function's
  code and tables, and the chain of enclosing functions is in `parents`.
 */
module Compiler {
  import opened Runtime
  import opened Ast
  import opened Bytecode
  import opened NameTables
  import opened Scanners
  import opened BytecodeCompiler
  import RefsScanner

  lemma ClosureInstructions(body: Node, inner: Scope, s: Scope)
    requires Ok(s) && s.nextLabel <= inner.nextLabel
    ensures var c, f, s1 := CellRefs(body, s), FreeRefs(body, s), AddFunction(s, inner);
            && (forall x :: x in c ==> x in s.fn.cells) && (forall x :: x in f ==> x in s.fn.free)
            && MakeClosure(body, inner, s)
               == Emit(Emit(PushRefs(c, s.fn.cells, 0, PushRefs(f, s.fn.free, |s.fn.cells|, s1)), LoadFunc(|s.fn.funcs|)),
                       AllocClosure(|c| + |f|))
  {
    hide Grows, CellRefs, FreeRefs, PushRefs, LabelsOk;
  }

  class Compiler {
    var parents: Scope
    var storing: bool

    /** The natives become the first globals. */
    constructor ()
      ensures parents == AddNatives(BUILTINS, START) && Ok(parents) && !storing
    {
      StartOk();
      storing := false;
      parents := AddNatives(BUILTINS, START);
    }

    method Output(i: Instr)
      requires Ok(parents) && !i.Label?
      modifies this`parents
      ensures parents == Emit(old(parents), i)
    {
      parents := parents.(fn := parents.fn.(code := parents.fn.code + [i]));
    }

    method LoadConst(c: Constant)
      requires Ok(parents)
      modifies this`parents
      ensures parents == LoadConstant(old(parents), c)
    {
      parents := parents.(fn := parents.fn.(consts := Insert(parents.fn.consts, c)));
      Output(Instr.LoadConst(IndexOf(parents.fn.consts, c)));
    }

    /** The index of a name, which is entered when it is new. */
    method InsertInNames(x: string) returns (k: nat)
      requires Ok(parents)
      modifies this`parents
      ensures parents == InsertName(old(parents), x) && k == IndexOf(parents.fn.names, x)
    {
      parents := parents.(fn := parents.fn.(names := Insert(parents.fn.names, x)));
      k := IndexOf(parents.fn.names, x);
    }

    method ReserveLabel() returns (l: nat)
      requires Ok(parents)
      modifies this`parents
      ensures l == old(parents).nextLabel && parents == Reserve(old(parents))
    {
      l := parents.nextLabel;
      parents := parents.(nextLabel := l + 1);
    }

    method OutputLabel(l: nat)
      requires Ok(parents) && l < parents.nextLabel && l !in parents.fn.labels
      modifies this`parents
      ensures parents == PutLabel(old(parents), l)
    {
      parents := parents.(fn := parents.fn.(labels := parents.fn.labels[l := |parents.fn.code|]));
      parents := parents.(fn := parents.fn.(code := parents.fn.code + [Label(l)]));
    }

    method OutputReturn()
      requires Ok(parents)
      modifies this`parents
      ensures parents == EmitReturn(old(parents))
    {
      Output(Instr.Return);
      parents := parents.(returned := true);
    }

    method VisitName(x: string)
      requires Ok(parents)
      modifies this`parents
      ensures parents == TranspileName(x, storing, old(parents))
    {
      match Resolve(parents, x) {
        case GlobalPlace(k) => Output(if storing then StoreGlobal(k) else LoadGlobal(k));
        case CellPlace(k) => Output(if storing then StoreReference(k) else LoadReference(k));
        case LocalPlace(k) => Output(if storing then StoreLocal(k) else LoadLocal(k));
        case Unresolved =>
          var k := InsertInNames(x);
          if storing && parents.top {
            parents := parents.(globals := Insert(parents.globals, x));
            Output(StoreGlobal(k));
          } else {
            Output(if storing then Instr.Pop else Instr.LoadConst(0));
            Output(ThrowUninitialized(k));
          }
      }
    }

    /** `transpile(node, storing)`: the flag is set for the node and then put back. */
    method TranspileNode(n: Node, asStore: bool)
      requires Ok(parents)
      modifies this
      ensures parents == Transpile(n, asStore, old(parents)) && storing == old(storing)
      decreases n, 2
    {
      var oldStoring := storing;
      storing := asStore;
      Accept(n);
      storing := oldStoring;
    }

    method Accept(n: Node)
      requires Ok(parents)
      modifies this
      ensures parents == Transpile(n, storing, old(parents)) && storing == old(storing)
      decreases n, 1
    {
      hide Ok, Grows, LoadConstant, MakeClosure, Leave, Enter, TranspileName, TranspileIndex, TranspileField, TranspileWhile;
      hide TranspileIf, TranspileBinary, TranspileSeq, TranspileEntry, TranspileAssign, TranspileCallStmt, TranspileReturn;
      hide TranspileCall, TranspileRecord, TranspileUnary;
      match n {
        case Empty =>
        case Seq(_, _) => VisitSeq(n);
        case Entry(_, _, _) => VisitEntry(n);
        case Name(x) => VisitName(x);
        case Index(_, _) => VisitIndex(n);
        case Field(_, _) => VisitField(n);
        case Assign(_, _) => VisitAssign(n);
        case CallStmt(_) => VisitCallStatement(n);
        case Global(_) =>
        case If(_, _, _) => VisitIf(n);
        case While(_, _) => VisitWhile(n);
        case Return(_) => VisitReturn(n);
        case Call(_, _) => VisitCall(n);
        case Function(_, _) => VisitFunction(n);
        case Record(_) => VisitRecord(n);
        case IntLit(i) => LoadConst(ConstInt(i));
        case StringLit(s) => LoadConst(ConstString(s));
        case BoolLit(b) => LoadConst(ConstBool(b));
        case NullLit => LoadConst(ConstNone);
        case BinExpr(_, _, _) => VisitBinop(n);
        case UnExpr(_, _) => VisitUnop(n);
      }
    }

    /** A return is added unless the program returned somewhere. */
    method VisitProgram(block: Node)
      requires parents == AddNatives(BUILTINS, START)
      modifies this
      ensures parents.fn == CompileProgram(block)
    {
      StartOk();
      hide Ok, Grows, Transpile, AddNatives;
      TranspileNode(block, false);
      if !parents.returned {
        LoadConst(ConstInt(0));
        OutputReturn();
      }
    }

    method VisitSeq(n: Node)
      requires Ok(parents) && n.Seq?
      modifies this
      ensures parents == TranspileSeq(n, old(parents)) && storing == old(storing)
      decreases n, 0
    {
      hide Ok, Grows;
      TranspileNode(n.first, false);
      TranspileNode(n.rest, false);
    }

    method VisitCallStatement(n: Node)
      requires Ok(parents) && n.CallStmt?
      modifies this
      ensures parents == TranspileCallStmt(n, old(parents)) && storing == old(storing)
      decreases n, 0
    {
      hide Ok, Grows;
      TranspileNode(n.call, false);
      Output(Instr.Pop);
      Output(GarbageCollect);
    }

    method VisitReturn(n: Node)
      requires Ok(parents) && n.Return?
      modifies this
      ensures parents == TranspileReturn(n, old(parents)) && storing == old(storing)
      decreases n, 0
    {
      hide Ok, Grows;
      TranspileNode(n.expr, false);
      OutputReturn();
    }

    method VisitCall(n: Node)
      requires Ok(parents) && n.Call?
      modifies this
      ensures parents == TranspileCall(n, old(parents)) && storing == old(storing)
      decreases n, 0
    {
      hide Ok, Grows;
      TranspileNode(n.args, false);
      TranspileNode(n.target, false);
      Output(Instr.Call(Length(n.args)));
    }

    method VisitRecord(n: Node)
      requires Ok(parents) && n.Record?
      modifies this
      ensures parents == TranspileRecord(n, old(parents)) && storing == old(storing)
      decreases n, 0
    {
      hide Ok, Grows;
      Output(AllocRecord);
      TranspileNode(n.entries, false);
    }

    method VisitUnop(n: Node)
      requires Ok(parents) && n.UnExpr?
      modifies this
      ensures parents == TranspileUnary(n, old(parents)) && storing == old(storing)
      decreases n, 0
    {
      hide Ok, Grows;
      TranspileNode(n.operand, false);
      Output(Un(UnaryInstr(n.uop)));
    }

    method VisitEntry(n: Node)
      requires Ok(parents) && n.Entry?
      modifies this
      ensures parents == TranspileEntry(n, old(parents)) && storing == old(storing)
      decreases n, 0
    {
      hide Ok, Grows;
      Output(Instr.Dup);
      TranspileNode(n.value, false);
      var k := InsertInNames(n.key);
      Output(FieldStore(k));
      TranspileNode(n.more, false);
    }

    method VisitIndex(n: Node)
      requires Ok(parents) && n.Index?
      modifies this
      ensures parents == TranspileIndex(n, storing, old(parents)) && storing == old(storing)
      decreases n, 0
    {
      hide Ok, Grows;
      TranspileNode(n.base, false);
      if storing { Output(Instr.Swap); }
      TranspileNode(n.index, false);
      if storing {
        Output(Instr.Swap);
        Output(IndexStore);
      } else {
        Output(IndexLoad);
      }
    }

    method VisitField(n: Node)
      requires Ok(parents) && n.Field?
      modifies this
      ensures parents == TranspileField(n, storing, old(parents)) && storing == old(storing)
      decreases n, 0
    {
      hide Ok, Grows;
      var k := InsertInNames(n.field);
      TranspileNode(n.base, false);
      if storing {
        Output(Instr.Swap);
        Output(FieldStore(k));
      } else {
        Output(FieldLoad(k));
      }
    }

    method VisitAssign(n: Node)
      requires Ok(parents) && n.Assign?
      modifies this
      ensures parents == TranspileAssign(n, old(parents)) && storing == old(storing)
      decreases n, 0
    {
      var announced := Announce(n.lhs, parents);
      hide Ok, Grows;
      if n.lhs.Name? { parents := parents.(storing := n.lhs.name); }
      assert parents == announced;
      TranspileNode(n.expr, false);
      TranspileNode(n.lhs, true);
    }

    method VisitBinop(n: Node)
      requires Ok(parents) && n.BinExpr?
      modifies this
      ensures parents == TranspileBinary(n, old(parents)) && storing == old(storing)
      decreases n, 0
    {
      hide Ok, Grows;
      if Reversed(n.bop) {
        TranspileNode(n.right, false);
        TranspileNode(n.left, false);
      } else {
        TranspileNode(n.left, false);
        TranspileNode(n.right, false);
      }
      Output(Bin(BinaryInstr(n.bop)));
    }

    method ReserveLabels() returns (l: nat)
      requires Ok(parents)
      modifies this`parents
      ensures l == old(parents).nextLabel && parents == ReserveThree(old(parents))
    {
      l := ReserveLabel();
      var l1 := ReserveLabel();
      var l2 := ReserveLabel();
    }

    /** Behind a condition: to the label `at`, which follows, or to `other`. */
    method OutputBranch(ghost s: Scope, at: nat, other: nat)
      requires Ok(s) && Awaits(s, parents, at) && Ok(parents) && at < s.nextLabel + 3
      modifies this`parents
      ensures parents == PutAwaited(s, EmitJumps(s, old(parents), at, at, other), at)
    {
      Output(Instr.If(at));
      Output(Goto(other));
      OutputLabel(at);
    }

    /** A jump, and a label behind it. */
    method OutputJump(ghost s: Scope, target: nat, at: nat)
      requires Ok(s) && Awaits(s, parents, at) && Ok(parents) && at < s.nextLabel + 3
      modifies this`parents
      ensures parents == PutAwaited(s, EmitGoto(s, old(parents), target, at), at)
    {
      Output(Goto(target));
      OutputLabel(at);
    }

    method OutputAwaited(ghost s: Scope, at: nat)
      requires Ok(s) && Awaits(s, parents, at) && Ok(parents) && at < s.nextLabel + 3
      modifies this`parents
      ensures parents == PutAwaited(s, old(parents), at)
    {
      OutputLabel(at);
    }

    method VisitIf(n: Node)
      requires Ok(parents) && n.If?
      modifies this
      ensures parents == TranspileIf(n, old(parents)) && storing == old(storing)
      decreases n, 0
    {
      hide Ok, Grows, Awaits, Transpile;
      ghost var s := parents;
      var l := ReserveLabels();
      TranspileNode(n.cond, false);
      ghost var cond := parents;
      AwaitsGrows(s, ReserveThree(s), cond, l);
      OutputBranch(s, l, l + 1);
      assert parents == ThenStart(s, cond);
      TranspileNode(n.thn, false);
      ghost var thnEnd := parents;
      AwaitsGrows(s, ThenStart(s, cond), thnEnd, l + 1);
      OutputJump(s, l + 2, l + 1);
      assert parents == ElseStart(s, thnEnd);
      TranspileNode(n.els, false);
      AwaitsGrows(s, ElseStart(s, thnEnd), parents, l + 2);
      OutputAwaited(s, l + 2);
    }

    method OutputLoopStart() returns (l: nat)
      requires Ok(parents)
      modifies this`parents
      ensures l == old(parents).nextLabel && parents == LoopStart(old(parents))
    {
      hide Ok, Grows, Awaits;
      ghost var s := parents;
      l := ReserveLabels();
      OutputAwaited(s, l);
      Output(GarbageCollect);
    }

    method OutputBodyStart(ghost s: Scope, l: nat)
      requires Ok(s) && l == s.nextLabel && Awaits(s, parents, l + 1) && Ok(parents)
      modifies this`parents
      ensures parents == BodyStart(s, old(parents))
    {
      hide Ok, Grows, Awaits;
      OutputBranch(s, l + 1, l + 2);
    }

    method OutputLoopEnd(ghost s: Scope, l: nat)
      requires Ok(s) && l == s.nextLabel && Awaits(s, parents, l + 2) && Ok(parents)
      modifies this`parents
      ensures parents == LoopEnd(s, old(parents))
    {
      hide Ok, Grows, Awaits;
      OutputJump(s, l, l + 2);
    }

    method VisitWhile(n: Node)
      requires Ok(parents) && n.While?
      modifies this
      ensures parents == TranspileWhile(n, old(parents)) && storing == old(storing)
      decreases n, 0
    {
      hide Ok, Grows, Awaits, Transpile, LoopStart, BodyStart, LoopEnd;
      ghost var s := parents;
      var l := OutputLoopStart();
      TranspileNode(n.cond, false);
      ghost var cond := parents;
      AwaitsGrows(s, LoopStart(s), cond, l + 1);
      OutputBodyStart(s, l);
      TranspileNode(n.body, false);
      AwaitsGrows(s, BodyStart(s, cond), parents, l + 2);
      OutputLoopEnd(s, l);
    }

    /** The new function becomes the current one, its tables filled by the scanners. */
    method EnterFunction(params: seq<string>, body: Node)
      requires Ok(parents)
      modifies this`parents
      ensures parents == Enter(params, body, old(parents))
    {
      var outer := parents;
      var globals := ScanGlobals(body, []);
      var assignedNames := ScanLocals(body, globals, []);
      var locals := InsertAll(InsertAll([], params), assignedNames);
      var below := RefsScanner.Captured(locals, body);
      var cellRefs := RefsScanner.CapturedOuter(outer.fn.cells, assignedNames, globals, body);
      var freeRefs := RefsScanner.CapturedOuter(outer.freeRefs, assignedNames, globals, body);
      var free := InsertAll(InsertAll([], cellRefs), freeRefs);
      var passed := RefsScanner.Captured(free, body);
      ScanRefsGrows(body, false, ToSet(free), RefScan(ToSet(free), []));
      var fn := Fn([], [], InsertAll([], globals), map[], [], locals, InsertAll([], below), free, |params|, []);
      parents := Scope(fn, InsertAll([], passed), InsertAll([], globals), "", false, false, outer.nextLabel, Some(outer));
      parents := Depend(body, parents);
    }

    /** References are pushed from the last to the first. */
    method OutputReferences(refs: seq<string>, table: seq<string>, base: nat)
      requires Ok(parents) && forall x :: x in refs ==> x in table
      modifies this`parents
      ensures parents == PushRefs(refs, table, base, old(parents))
    {
      hide Ok, Grows, IndexOf;
      var j := |refs|;
      assert refs[..j] == refs;
      while j > 0
        invariant 0 <= j <= |refs| && Ok(parents)
        invariant PushRefs(refs, table, base, old(parents)) == PushRefs(refs[..j], table, base, parents)
      {
        assert refs[j - 1] in refs && refs[..j][..j - 1] == refs[..j - 1];
        Output(PushReference(base + IndexOf(table, refs[j - 1])));
        j := j - 1;
      }
    }

    method VisitFunction(n: Node)
      requires Ok(parents) && n.Function?
      modifies this
      ensures parents == Transpile(n, storing, old(parents)) && storing == old(storing)
      decreases n, 0
    {
      var outer := parents;
      hide Ok, Grows, Enter;
      EnterFunction(n.params, n.body);
      TranspileNode(n.body, false);
      LoadConst(ConstNone);
      OutputReturn();
      parents := parents.(fn := parents.fn.(argMapping := ArgMapping(parents.fn.locals, parents.fn.cells, parents.fn.paramCount)));
      var inner := parents;
      assert inner == Leave(Transpile(n.body, false, Enter(n.params, n.body, outer)));
      TranspileFunction(n, storing, outer);
      hide Transpile, Leave;
      MakeClosureOf(n.body, inner, outer);
    }

    /** Back in the enclosing function: its new nested function, and the code for the closure. */
    method MakeClosureOf(body: Node, inner: Scope, outer: Scope)
      requires Ok(outer) && outer.nextLabel <= inner.nextLabel
      modifies this`parents
      ensures parents == MakeClosure(body, inner, outer)
    {
      hide *;
      ClosureInstructions(body, inner, outer);
      parents := AddFunction(outer, inner);
      var cellRefs, freeRefs := CellRefs(body, outer), FreeRefs(body, outer);
      OutputReferences(freeRefs, outer.fn.free, |outer.fn.cells|);
      OutputReferences(cellRefs, outer.fn.cells, 0);
      Output(LoadFunc(|outer.fn.funcs|));
      Output(AllocClosure(|cellRefs| + |freeRefs|));
    }
  }

  lemma TranspileFunction(n: Node, storing: bool, s: Scope)
    requires Ok(s) && n.Function?
    ensures var inner := Leave(Transpile(n.body, false, Enter(n.params, n.body, s)));
            s.nextLabel <= inner.nextLabel && Transpile(n, storing, s) == MakeClosure(n.body, inner, s)
  {
    hide Ok, Enter, MakeClosure, LoadConstant, ArgMapping;
  }

  lemma StartOk()
    ensures Ok(START)
  {
  }
}
