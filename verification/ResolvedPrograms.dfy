/**
  Which programs compile to code without unresolved names: a condition on the syntax tree, by
  what its places declare, assign and mention.
 */
module ResolvedPrograms {
  import opened Runtime
  import opened Ast
  import opened Bytecode
  import opened NameTables
  import opened Scanners
  import opened BytecodeCompiler
  import opened EmittedCode
  import opened NameResolution
  import opened ClosureConversion
  import opened FunctionTables

  // ----- the condition -----

  /**
    The names that can be used at a place: the function's variables, its own and those that
    its closure carries; which of these the closures made in it may carry; the global names; and
    at the top level the name that the last assignment stores, which only functions see.
   */
  datatype View = View(vars: iset<string>, carried: iset<string>, globals: iset<string>, storing: iset<string>)

  /** What a function sees that is written where `v` is seen. */
  ghost function SeenInside(params: seq<string>, body: Node, v: View): View {
    var declared := iset x | Has(body, Declares(x));
    var own := iset x | Has(body, Assigns(x)) && x !in declared;
    var needed := iset x | x in v.carried && x !in own && x !in declared && Reads(body, false, x, false);
    var vars := (iset x | x in params) + own + needed;
    View(vars, (iset x | x in vars && Reads(body, false, x, true)), v.globals + v.storing + declared, iset{})
  }

  /** Every name in the tree can be used where it stands; the order does not matter. */
  ghost predicate Clear(n: Node, v: View)
    decreases n
  {
    if n.Name? then n.name in v.vars || n.name in v.globals
    else if n.Function? then Clear(n.body, SeenInside(n.params, n.body, v))
    else forall c :: c in Subtrees(n) ==> Clear(c, v)
  }

  /** What a statement of the top level leaves: the names that it stores are global from then on. */
  ghost function ViewAfter(n: Node, v: View): View
    decreases n
  {
    match n
    case Seq(a, b) => ViewAfter(b, ViewAfter(a, v))
    case Assign(Name(x), _) => v.(globals := v.globals + iset{x}, storing := iset{x})
    case If(_, t, e) => ViewAfter(e, ViewAfter(t, v))
    case While(_, b) => ViewAfter(b, v)
    case _ => v
  }

  /** At the top level a name is usable after the first store to it in the text. */
  ghost predicate TopClear(n: Node, v: View)
    decreases n
  {
    match n
    case Seq(a, b) => TopClear(a, v) && TopClear(b, ViewAfter(a, v))
    case Assign(Name(x), e) => Clear(e, v.(storing := iset{x}))
    case If(c, t, e) => Clear(c, v) && TopClear(t, v) && TopClear(e, ViewAfter(t, v))
    case While(c, b) => Clear(c, v) && TopClear(b, v)
    case _ => Clear(n, v)
  }

  /** A program starts with the natives. */
  ghost function StartView(): View { View(iset{}, iset{}, iset{"print", "input", "intcast"}, iset{""}) }

  ghost predicate AllClear(block: Node) { TopClear(block, StartView()) }

  // ----- views and scopes -----

  /** The names of the view are those that the scope resolves. */
  ghost predicate Sees(v: View, s: Scope) {
    && (s.top <==> s.last.None?)
    && (forall x :: x in v.vars <==> x in s.fn.locals || x in s.fn.free)
    && (forall x :: x in s.fn.cells ==> x in s.fn.locals)
    && (forall x :: x in v.carried <==> x in s.fn.cells || x in s.freeRefs)
    && (forall x :: x in v.globals <==> x in s.globals || GlobalAbove(x, s.last))
    && (forall x :: x in v.storing <==> s.top && x == s.storing)
  }

  /** What the tree mentions has been looked for in the enclosing scopes. */
  ghost predicate Covers(n: Node, s: Scope) {
    forall x :: Has(n, Mentions(x)) && Outer(x, s) ==> x in s.globals
  }

  /** The names that can be used stay the same. */
  ghost predicate Keeps(s: Scope, t: Scope) {
    Ok(s) && Ok(t) && SameShape(s, t) && t.globals == s.globals && (s.top ==> t.storing == s.storing)
  }

  ghost predicate Settles(s: Scope) {
    Resolved(s.fn.code) && forall g :: g in s.fn.funcs ==> ResolvedAll(g)
  }

  /** Between `s` and `t` there is code that uses no name, and that no return statement made. */
  ghost predicate Glue(s: Scope, t: Scope) { Keeps(s, t) && t.returned == s.returned && (Settles(t) <==> Settles(s)) }

  lemma SeesKept(v: View, s: Scope, t: Scope)
    requires Sees(v, s) && Keeps(s, t)
    ensures Sees(v, t)
  {
    hide GlobalAbove, Ok;
  }

  lemma CoversKept(n: Node, s: Scope, t: Scope)
    requires Covers(n, s) && Keeps(s, t) && (s.top <==> s.last.None?)
    ensures Covers(n, t)
  {
    hide Has, Ok;
  }

  lemma KeepsTrans(s: Scope, t: Scope, u: Scope)
    requires Keeps(s, t) && Keeps(t, u)
    ensures Keeps(s, u)
  {
    hide Ok;
  }

  lemma GlueTrans(s: Scope, t: Scope, u: Scope)
    requires Glue(s, t) && Glue(t, u)
    ensures Glue(s, u)
  {
    KeepsTrans(s, t, u);
    hide Keeps, Settles;
  }

  lemma GlueOk(s: Scope, t: Scope)
    requires Glue(s, t)
    ensures Ok(s) && Ok(t) && Keeps(s, t)
  {
    hide Ok, Grows, Settles;
  }

  lemma GlueNone(s: Scope)
    requires Ok(s)
    ensures Glue(s, s)
  {
    hide Ok, Settles;
  }

  lemma GlueEmit(s: Scope, i: Instr)
    requires Ok(s) && !i.Label? && !i.ThrowUninitialized?
    ensures Glue(s, Emit(s, i))
  {
    hide Grows, Ok, ResolvedAll;
    var r := Emit(s, i);
    assert forall k :: 0 <= k < |s.fn.code| ==> r.fn.code[k] == s.fn.code[k];
  }

  lemma GlueEmit2(s: Scope, i: Instr, j: Instr)
    requires Ok(s) && !i.Label? && !i.ThrowUninitialized? && !j.Label? && !j.ThrowUninitialized?
    ensures Glue(s, Emit2(s, i, j))
  {
    GlueEmit(s, i);
    GlueEmit(Emit(s, i), j);
    GlueTrans(s, Emit(s, i), Emit(Emit(s, i), j));
    hide Glue, Grows, Ok, Emit;
  }

  lemma GlueTables(s: Scope, t: Scope)
    requires Ok(s) && Ok(t) && SameShape(s, t) && t.fn.code == s.fn.code && t.fn.funcs == s.fn.funcs
    requires t.globals == s.globals && t.storing == s.storing && t.returned == s.returned
    ensures Glue(s, t)
  {
    hide Grows, Ok, ResolvedAll;
  }

  lemma GlueLabel(s: Scope, l: nat)
    requires Ok(s) && l < s.nextLabel && l !in s.fn.labels
    ensures Glue(s, PutLabel(s, l))
  {
    hide Grows, Ok, ResolvedAll;
    var r := PutLabel(s, l);
    assert forall k :: 0 <= k < |s.fn.code| ==> r.fn.code[k] == s.fn.code[k];
  }

  lemma GlueConstant(s: Scope, c: Constant)
    requires Ok(s)
    ensures Glue(s, LoadConstant(s, c))
  {
    hide Grows, Ok, Glue;
    var s1 := InsertConstant(s, c);
    GlueTables(s, s1);
    GlueEmit(s1, LoadConst(IndexOf(s1.fn.consts, c)));
    GlueTrans(s, s1, LoadConstant(s, c));
  }

  lemma GlueNamed(s: Scope, x: string, i: nat -> Instr)
    requires Ok(s) && forall k :: !i(k).Label? && !i(k).ThrowUninitialized?
    ensures Glue(s, EmitNamed(s, x, i))
  {
    hide Grows, Ok, Glue;
    var s1 := InsertName(s, x);
    GlueTables(s, s1);
    GlueEmit(s1, i(IndexOf(s1.fn.names, x)));
    GlueTrans(s, s1, EmitNamed(s, x, i));
  }

  // ----- the subtrees in the order in which they are compiled -----

  datatype Stage = Stage(node: Node, storing: bool, scope: Scope)

  /** Compiled one after another, with code that uses no names between them. */
  ghost predicate Chain(stages: seq<Stage>, s: Scope, r: Scope)
    decreases |stages|
  {
    if stages == [] then Glue(s, r) else
    var g := stages[0];
    Glue(s, g.scope) && Chain(stages[1..], Transpile(g.node, g.storing, g.scope), r)
  }

  /** The stages are the subtrees; only an assignment stores to one. */
  ghost predicate StagesOf(stages: seq<Stage>, n: Node) {
    && (forall g :: g in stages ==> g.node in Subtrees(n) && (g.storing ==> n.Assign? && g.node == n.lhs))
    && (forall c :: c in Subtrees(n) ==> exists g :: g in stages && g.node == c)
  }

  ghost predicate InOrder(stages: seq<Stage>, nodes: seq<Node>) {
    |stages| == |nodes| && forall k :: 0 <= k < |stages| ==> stages[k].node == nodes[k] && !stages[k].storing
  }

  lemma ChainNone(s: Scope, r: Scope)
    requires Glue(s, r)
    ensures Chain([], s, r)
  {
    hide Glue;
  }

  lemma ChainOne(g: Stage, s: Scope, r: Scope)
    requires Glue(s, g.scope) && Glue(Transpile(g.node, g.storing, g.scope), r)
    ensures Chain([g], s, r)
  {
    hide Glue, Transpile, Ok;
    GlueOk(s, g.scope);
    ChainNone(Transpile(g.node, g.storing, g.scope), r);
    assert [g][1..] == [];
  }

  lemma ChainTwo(g: Stage, h: Stage, s: Scope, r: Scope)
    requires Glue(s, g.scope) && Glue(Transpile(g.node, g.storing, g.scope), h.scope)
    requires Glue(Transpile(h.node, h.storing, h.scope), r)
    ensures Chain([g, h], s, r)
  {
    hide Glue, Transpile, Ok;
    GlueOk(s, g.scope);
    ChainOne(h, Transpile(g.node, g.storing, g.scope), r);
    assert [g, h][1..] == [h];
  }

  lemma StagesTwo(n: Node, g: Stage, h: Stage)
    requires Subtrees(n) == [g.node, h.node] || Subtrees(n) == [h.node, g.node]
    requires !g.storing && (h.storing ==> n.Assign? && h.node == n.lhs)
    ensures StagesOf([g, h], n)
  {
    var stages := [g, h];
    assert stages[0] == g && stages[1] == h;
    hide Subtrees;
  }

  lemma StagesOne(n: Node, g: Stage)
    requires Subtrees(n) == [g.node] && !g.storing
    ensures StagesOf([g], n)
  {
    var stages := [g];
    assert stages[0] == g;
    hide Subtrees;
  }

  lemma SeqStages(n: Node, s: Scope) returns (stages: seq<Stage>)
    requires Ok(s) && n.Seq?
    ensures Chain(stages, s, TranspileSeq(n, s)) && StagesOf(stages, n)
    ensures InOrder(stages, Subtrees(n))
  {
    hide Ok, Grows, Glue, Transpile;
    var s1 := Transpile(n.first, false, s);
    var g, h := Stage(n.first, false, s), Stage(n.rest, false, s1);
    GlueNone(s);
    GlueNone(s1);
    GlueNone(TranspileSeq(n, s));
    ChainTwo(g, h, s, TranspileSeq(n, s));
    StagesTwo(n, g, h);
    stages := [g, h];
  }

  lemma EntryStages(n: Node, s: Scope) returns (stages: seq<Stage>)
    requires Ok(s) && n.Entry?
    ensures Chain(stages, s, TranspileEntry(n, s)) && StagesOf(stages, n)
  {
    hide Ok, Grows, Glue, Transpile;
    var s1 := Emit(s, Instr.Dup);
    var s2 := Transpile(n.value, false, s1);
    var s3 := EmitNamed(s2, n.key, (i: nat) => FieldStore(i));
    var g, h := Stage(n.value, false, s1), Stage(n.more, false, s3);
    GlueEmit(s, Instr.Dup);
    GlueNamed(s2, n.key, (i: nat) => FieldStore(i));
    GlueNone(TranspileEntry(n, s));
    ChainTwo(g, h, s, TranspileEntry(n, s));
    StagesTwo(n, g, h);
    stages := [g, h];
  }

  lemma IndexStages(n: Node, storing: bool, s: Scope) returns (stages: seq<Stage>)
    requires Ok(s) && n.Index?
    ensures Chain(stages, s, TranspileIndex(n, storing, s)) && StagesOf(stages, n)
  {
    hide Ok, Grows, Glue, Transpile;
    var s1 := Transpile(n.base, false, s);
    var s2 := if storing then Emit(s1, Instr.Swap) else s1;
    var s3 := Transpile(n.index, false, s2);
    var g, h := Stage(n.base, false, s), Stage(n.index, false, s2);
    GlueNone(s);
    if storing {
      GlueEmit(s1, Instr.Swap);
      GlueEmit2(s3, Instr.Swap, IndexStore);
    } else {
      GlueNone(s1);
      GlueEmit(s3, IndexLoad);
    }
    ChainTwo(g, h, s, TranspileIndex(n, storing, s));
    StagesTwo(n, g, h);
    stages := [g, h];
  }

  lemma FieldStages(n: Node, storing: bool, s: Scope) returns (stages: seq<Stage>)
    requires Ok(s) && n.Field?
    ensures Chain(stages, s, TranspileField(n, storing, s)) && StagesOf(stages, n)
  {
    hide Ok, Grows, Glue, Transpile;
    var s1 := InsertName(s, n.field);
    var k := IndexOf(s1.fn.names, n.field);
    var s2 := Transpile(n.base, false, s1);
    var g := Stage(n.base, false, s1);
    GlueTables(s, s1);
    if storing {
      GlueEmit2(s2, Instr.Swap, FieldStore(k));
    } else {
      GlueEmit(s2, FieldLoad(k));
    }
    ChainOne(g, s, TranspileField(n, storing, s));
    StagesOne(n, g);
    stages := [g];
  }

  lemma AssignStages(n: Node, s: Scope) returns (stages: seq<Stage>)
    requires Ok(s) && n.Assign? && !(s.top && n.lhs.Name?)
    ensures Chain(stages, s, TranspileAssign(n, s)) && StagesOf(stages, n)
  {
    hide Ok, Grows, Transpile;
    var s1 := Announce(n.lhs, s);
    var s2 := Transpile(n.expr, false, s1);
    var g, h := Stage(n.expr, false, s1), Stage(n.lhs, true, s2);
    assert Glue(s, s1);
    GlueNone(s2);
    GlueNone(TranspileAssign(n, s));
    hide Glue;
    ChainTwo(g, h, s, TranspileAssign(n, s));
    StagesTwo(n, g, h);
    stages := [g, h];
  }

  lemma CallStages(n: Node, s: Scope) returns (stages: seq<Stage>)
    requires Ok(s) && n.Call?
    ensures Chain(stages, s, TranspileCall(n, s)) && StagesOf(stages, n)
  {
    hide Ok, Grows, Glue, Transpile;
    var s1 := Transpile(n.args, false, s);
    var s2 := Transpile(n.target, false, s1);
    var g, h := Stage(n.args, false, s), Stage(n.target, false, s1);
    GlueNone(s);
    GlueNone(s1);
    GlueEmit(s2, Instr.Call(Length(n.args)));
    ChainTwo(g, h, s, TranspileCall(n, s));
    StagesTwo(n, g, h);
    stages := [g, h];
  }

  lemma BinaryStages(n: Node, s: Scope) returns (stages: seq<Stage>)
    requires Ok(s) && n.BinExpr?
    ensures Chain(stages, s, TranspileBinary(n, s)) && StagesOf(stages, n)
  {
    hide Ok, Grows, Glue, Transpile;
    var a, b := if Reversed(n.bop) then n.right else n.left, if Reversed(n.bop) then n.left else n.right;
    var s1 := Transpile(a, false, s);
    var s2 := Transpile(b, false, s1);
    var g, h := Stage(a, false, s), Stage(b, false, s1);
    GlueNone(s);
    GlueNone(s1);
    GlueEmit(s2, Bin(BinaryInstr(n.bop)));
    ChainTwo(g, h, s, TranspileBinary(n, s));
    StagesTwo(n, g, h);
    stages := [g, h];
  }

  lemma CallStmtStages(n: Node, s: Scope) returns (stages: seq<Stage>)
    requires Ok(s) && n.CallStmt?
    ensures Chain(stages, s, TranspileCallStmt(n, s)) && StagesOf(stages, n)
  {
    hide Ok, Grows, Glue, Transpile;
    var g := Stage(n.call, false, s);
    GlueNone(s);
    GlueEmit2(Transpile(n.call, false, s), Instr.Pop, GarbageCollect);
    ChainOne(g, s, TranspileCallStmt(n, s));
    StagesOne(n, g);
    stages := [g];
  }

  /** The stages of a return statement, up to the mark that it leaves. */
  lemma ReturnStages(n: Node, s: Scope) returns (stages: seq<Stage>)
    requires Ok(s) && n.Return?
    ensures Chain(stages, s, Emit(Transpile(n.expr, false, s), Instr.Return)) && StagesOf(stages, n)
  {
    hide Ok, Grows, Glue, Transpile;
    var s1 := Transpile(n.expr, false, s);
    var g := Stage(n.expr, false, s);
    GlueNone(s);
    GlueEmit(s1, Instr.Return);
    ChainOne(g, s, Emit(s1, Instr.Return));
    StagesOne(n, g);
    stages := [g];
  }

  lemma SettlesCode(s: Scope, t: Scope)
    requires s.fn.code == t.fn.code && s.fn.funcs == t.fn.funcs
    ensures Settles(s) <==> Settles(t)
  {
  }

  lemma RecordStages(n: Node, s: Scope) returns (stages: seq<Stage>)
    requires Ok(s) && n.Record?
    ensures Chain(stages, s, TranspileRecord(n, s)) && StagesOf(stages, n)
  {
    hide Ok, Grows, Glue, Transpile;
    var g := Stage(n.entries, false, Emit(s, AllocRecord));
    GlueEmit(s, AllocRecord);
    GlueNone(TranspileRecord(n, s));
    ChainOne(g, s, TranspileRecord(n, s));
    StagesOne(n, g);
    stages := [g];
  }

  lemma UnaryStages(n: Node, s: Scope) returns (stages: seq<Stage>)
    requires Ok(s) && n.UnExpr?
    ensures Chain(stages, s, TranspileUnary(n, s)) && StagesOf(stages, n)
  {
    hide Ok, Grows, Glue, Transpile;
    var g := Stage(n.operand, false, s);
    GlueNone(s);
    GlueEmit(Transpile(n.operand, false, s), Un(UnaryInstr(n.uop)));
    ChainOne(g, s, TranspileUnary(n, s));
    StagesOne(n, g);
    stages := [g];
  }

  lemma WhileStages(n: Node, s: Scope) returns (stages: seq<Stage>)
    requires Ok(s) && n.While?
    ensures Chain(stages, s, TranspileWhile(n, s)) && StagesOf(stages, n)
    ensures InOrder(stages, Subtrees(n))
  {
    hide Ok, Grows, Glue, Transpile, Awaits;
    var l := s.nextLabel;
    var start := LoopStart(s);
    var cond := Transpile(n.cond, false, start);
    AwaitsGrows(s, start, cond, l + 1);
    var body := BodyStart(s, cond);
    var bodyEnd := Transpile(n.body, false, body);
    AwaitsGrows(s, body, bodyEnd, l + 2);
    var g, h := Stage(n.cond, false, start), Stage(n.body, false, body);
    StartGlue(s);
    JumpsGlue(s, cond, l + 1, l + 1, l + 2);
    GotoGlue(s, bodyEnd, l, l + 2);
    ChainTwo(g, h, s, TranspileWhile(n, s));
    StagesTwo(n, g, h);
    stages := [g, h];
  }

  lemma IfStages(n: Node, s: Scope) returns (stages: seq<Stage>)
    requires Ok(s) && n.If?
    ensures Chain(stages, s, TranspileIf(n, s)) && StagesOf(stages, n)
    ensures InOrder(stages, Subtrees(n))
  {
    hide Ok, Grows, Glue, Transpile, Awaits, Chain, StagesOf, LabelsOk, Emit, Emit2, PutLabel;
    var l := s.nextLabel;
    var start := ReserveThree(s);
    var cond := Transpile(n.cond, false, start);
    AwaitsGrows(s, start, cond, l);
    var thn := ThenStart(s, cond);
    var thnEnd := Transpile(n.thn, false, thn);
    AwaitsGrows(s, thn, thnEnd, l + 1);
    var els := ElseStart(s, thnEnd);
    var elsEnd := Transpile(n.els, false, els);
    AwaitsGrows(s, els, elsEnd, l + 2);
    var g, h, i := Stage(n.cond, false, start), Stage(n.thn, false, thn), Stage(n.els, false, els);
    GlueTables(s, start);
    JumpsGlue(s, cond, l, l, l + 1);
    GotoGlue(s, thnEnd, l + 2, l + 1);
    LabelGlue(s, elsEnd, l + 2);
    ChainTwo(h, i, cond, TranspileIf(n, s));
    stages := [g] + [h, i];
    ChainMore(g, [h, i], s, TranspileIf(n, s));
    StagesThree(n, g, h, i);
    assert stages == [g, h, i];
  }

  lemma ChainMore(g: Stage, stages: seq<Stage>, s: Scope, r: Scope)
    requires Glue(s, g.scope) && Chain(stages, Transpile(g.node, g.storing, g.scope), r)
    ensures Chain([g] + stages, s, r)
  {
    hide Glue, Transpile;
    assert ([g] + stages)[1..] == stages;
  }

  lemma StagesThree(n: Node, g: Stage, h: Stage, i: Stage)
    requires Subtrees(n) == [g.node, h.node, i.node] && !g.storing && !h.storing && !i.storing
    ensures StagesOf([g, h, i], n)
  {
    var stages := [g, h, i];
    assert stages[0] == g && stages[1] == h && stages[2] == i;
    hide Subtrees;
  }

  lemma LabelFree(s: Scope, t: Scope, l: nat)
    requires Awaits(s, t, l) && l < s.nextLabel + 3
    ensures Ok(t) && l < t.nextLabel && l !in t.fn.labels
  {
    hide Ok, Grows;
  }

  lemma LabelGlue(s: Scope, t: Scope, l: nat)
    requires Awaits(s, t, l) && l < s.nextLabel + 3
    ensures l !in t.fn.labels && l < t.nextLabel && Ok(t) && Glue(t, PutLabel(t, l))
  {
    hide Ok, Grows, Glue, Awaits;
    LabelFree(s, t, l);
    GlueLabel(t, l);
  }

  lemma GotoGlue(s: Scope, t: Scope, target: nat, l: nat)
    requires Awaits(s, t, l) && l < s.nextLabel + 3
    ensures l !in t.fn.labels && l < t.nextLabel && Ok(t) && Glue(t, PutLabel(Emit(t, Goto(target)), l))
  {
    hide Ok, Grows, Glue, Awaits;
    LabelFree(s, t, l);
    var u := Emit(t, Goto(target));
    GlueEmit(t, Goto(target));
    GlueLabel(u, l);
    GlueTrans(t, u, PutLabel(u, l));
  }

  lemma JumpsGlue(s: Scope, t: Scope, yes: nat, l: nat, no: nat)
    requires Awaits(s, t, l) && l < s.nextLabel + 3
    ensures l !in t.fn.labels && l < t.nextLabel && Ok(t) && Glue(t, PutLabel(Emit2(t, Instr.If(yes), Goto(no)), l))
  {
    hide Ok, Glue, Awaits, LabelsOk;
    LabelFree(s, t, l);
    var u := Emit2(t, Instr.If(yes), Goto(no));
    GlueEmit2(t, Instr.If(yes), Goto(no));
    GlueLabel(u, l);
    GlueTrans(t, u, PutLabel(u, l));
  }

  lemma StartGlue(s: Scope)
    requires Ok(s)
    ensures Glue(s, LoopStart(s))
  {
    hide Ok, Grows, Glue, Awaits;
    var t := ReserveThree(s);
    GlueTables(s, t);
    LabelGlue(s, t, s.nextLabel);
    var u := PutLabel(t, s.nextLabel);
    GlueEmit(u, GarbageCollect);
    GlueTrans(s, t, u);
    GlueTrans(s, u, LoopStart(s));
  }

  lemma LeafStages(n: Node, storing: bool, s: Scope) returns (stages: seq<Stage>)
    requires Ok(s) && Subtrees(n) == [] && !n.Name?
    ensures Chain(stages, s, Transpile(n, storing, s)) && StagesOf(stages, n)
  {
    hide Ok, Grows, Glue, LoadConstant;
    match n {
      case IntLit(i) => GlueConstant(s, ConstInt(i));
      case StringLit(t) => GlueConstant(s, ConstString(t));
      case BoolLit(b) => GlueConstant(s, ConstBool(b));
      case NullLit => GlueConstant(s, ConstNone);
      case _ => GlueNone(s);
    }
    stages := [];
  }

  /** Every tree other than a name, a function literal or a return statement is compiled by way of its subtrees. */
  lemma Staged(n: Node, storing: bool, s: Scope) returns (stages: seq<Stage>)
    requires Ok(s) && !n.Name? && !n.Function? && !n.Return? && !(s.top && n.Assign? && n.lhs.Name?)
    ensures Chain(stages, s, Transpile(n, storing, s)) && StagesOf(stages, n)
  {
    hide Ok, Grows, Chain, StagesOf, Subtrees, TranspileSeq, TranspileEntry, TranspileIndex, TranspileField, TranspileAssign;
    hide TranspileCallStmt, TranspileIf, TranspileWhile, TranspileReturn, TranspileCall, TranspileRecord, TranspileBinary, TranspileUnary;
    if n.Seq? {
      stages := SeqStages(n, s);
    } else if n.Entry? {
      stages := EntryStages(n, s);
    } else if n.Index? {
      stages := IndexStages(n, storing, s);
    } else if n.Field? {
      stages := FieldStages(n, storing, s);
    } else if n.Assign? {
      stages := AssignStages(n, s);
    } else if n.CallStmt? {
      stages := CallStmtStages(n, s);
    } else if n.If? {
      stages := IfStages(n, s);
    } else if n.While? {
      stages := WhileStages(n, s);
    } else if n.Call? {
      stages := CallStages(n, s);
    } else if n.Record? {
      stages := RecordStages(n, s);
    } else if n.BinExpr? {
      stages := BinaryStages(n, s);
    } else if n.UnExpr? {
      stages := UnaryStages(n, s);
    } else {
      LeafSubtrees(n);
      stages := LeafStages(n, storing, s);
    }
  }

  lemma LeafSubtrees(n: Node)
    requires n.Empty? || n.Global? || n.IntLit? || n.StringLit? || n.BoolLit? || n.NullLit?
    ensures Subtrees(n) == []
  {
  }

  // ----- trees whose order does not matter -----

  ghost predicate Expression(n: Node) { exists sort :: sort != StmtSort && sort != BlockSort && Is(sort, n) }

  /** In a function, and in an expression that is not stored to, no name becomes known. */
  ghost predicate Steady(n: Node, storing: bool, s: Scope) { s.top ==> Expression(n) && !(storing && n.Name?) }

  lemma ExpressionBelow(n: Node)
    requires Expression(n) && !n.Function?
    ensures forall c :: c in Subtrees(n) ==> Expression(c)
  {
    hide Is, Subtrees;
    var sort :| sort != StmtSort && sort != BlockSort && Is(sort, n);
    forall c | c in Subtrees(n) ensures Expression(c) {
      var below := SortBelow(sort, n, c);
    }
  }

  /** The code of the tree is resolved exactly when the tree is clear. */
  ghost predicate Clears(n: Node, s: Scope, r: Scope, v: View) {
    Keeps(s, r) && (Settles(r) <==> Settles(s) && Clear(n, v))
  }

  lemma NameGlue(x: string, storing: bool, s: Scope)
    requires Ok(s) && !Resolve(s, x).Unresolved?
    ensures Glue(s, TranspileName(x, storing, s))
  {
    hide Ok, Grows, Resolve, Glue;
    match Resolve(s, x)
    case GlobalPlace(k) => GlueEmit(s, if storing then StoreGlobal(k) else LoadGlobal(k));
    case CellPlace(k) => GlueEmit(s, if storing then StoreReference(k) else LoadReference(k));
    case LocalPlace(k) => GlueEmit(s, if storing then StoreLocal(k) else LoadLocal(k));
  }

  lemma NameThrows(x: string, storing: bool, s: Scope)
    requires Ok(s) && Resolve(s, x).Unresolved? && !(s.top && storing)
    ensures var r := TranspileName(x, storing, s); Keeps(s, r) && !Settles(r)
  {
    hide Ok, Resolve, LabelsOk;
    var r := ThrowUnresolved(x, storing, s);
    assert r.fn.code[|s.fn.code| + 1].ThrowUninitialized?;
    hide Grows;
  }

  lemma SeenResolves(n: Node, s: Scope, v: View)
    requires Ok(s) && n.Name? && Sees(v, s) && Covers(n, s)
    ensures Resolve(s, n.name).Unresolved? <==> !Clear(n, v)
  {
    hide GlobalAbove, LabelsOk, IndexOf;
    HasBelow(n, Mentions(n.name));
    hide Has;
  }

  lemma NameClears(n: Node, storing: bool, s: Scope, v: View)
    requires Ok(s) && n.Name? && Sees(v, s) && Covers(n, s) && !(s.top && storing)
    ensures Clears(n, s, TranspileName(n.name, storing, s), v)
  {
    hide Ok, Resolve, Sees, Covers, TranspileName, Settles, Keeps, Clear;
    SeenResolves(n, s, v);
    if Resolve(s, n.name).Unresolved? {
      NameThrows(n.name, storing, s);
    } else {
      NameGlue(n.name, storing, s);
    }
  }


  ghost predicate AllClearIn(stages: seq<Stage>, v: View) { forall g :: g in stages ==> Clear(g.node, v) }

  lemma GlueIs(s: Scope, t: Scope)
    requires Glue(s, t)
    ensures Keeps(s, t) && (Settles(t) <==> Settles(s))
  {
    hide Keeps, Settles;
  }

  lemma KeepsOk(s: Scope, t: Scope)
    requires Keeps(s, t)
    ensures Ok(s) && Ok(t) && t.top == s.top
  {
    hide Ok;
  }

  lemma SeesTop(v: View, s: Scope)
    requires Sees(v, s)
    ensures s.top <==> s.last.None?
  {
    hide GlobalAbove;
  }

  lemma CoversBelow(n: Node, c: Node, s: Scope)
    requires Covers(n, s) && c in Subtrees(n) && !n.Function?
    ensures Covers(c, s)
  {
    hide Outer, Subtrees;
    forall x | Has(c, Mentions(x)) ensures Has(n, Mentions(x)) {
      HasBelow(n, Mentions(x));
      hide Has;
    }
    hide Has;
  }

  /** The subtrees one after another. */
  lemma {:induction false} ChainClears(n: Node, stages: seq<Stage>, s: Scope, r: Scope, v: View)
    requires Ok(s) && Chain(stages, s, r) && Sees(v, s) && Covers(n, s) && !n.Function?
    requires forall g :: g in stages ==> g.node in Subtrees(n) && (s.top ==> Expression(g.node) && !(g.storing && g.node.Name?))
    ensures Keeps(s, r) && (Settles(r) <==> Settles(s) && AllClearIn(stages, v))
    decreases n, 0, |stages|
  {
    hide Ok, Grows, Settles, Sees, Covers, Keeps, Clear, Glue, Transpile, Expression, Subtrees;
    if stages == [] {
      GlueIs(s, r);
    } else {
      var g, rest := stages[0], stages[1..];
      GlueIs(s, g.scope);
      KeepsOk(s, g.scope);
      SeesKept(v, s, g.scope);
      CoversBelow(n, g.node, s);
      SeesTop(v, s);
      CoversKept(g.node, s, g.scope);
      var t := Transpile(g.node, g.storing, g.scope);
      ClearExact(g.node, g.storing, g.scope, v);
      ClearsIs(g.node, g.scope, t, v);
      KeepsTrans(s, g.scope, t);
      KeepsOk(s, t);
      SeesKept(v, s, t);
      CoversKept(n, s, t);
      ChainClears(n, rest, t, r, v);
      KeepsTrans(s, t, r);
      assert stages == [g] + rest;
    }
  }

  lemma ClearsIs(n: Node, s: Scope, r: Scope, v: View)
    requires Clears(n, s, r, v)
    ensures Keeps(s, r) && (Settles(r) <==> Settles(s) && Clear(n, v))
  {
    hide Keeps, Settles, Clear;
  }

  lemma ClearBelow(n: Node, v: View)
    requires !n.Name? && !n.Function?
    ensures Clear(n, v) <==> forall c :: c in Subtrees(n) ==> Clear(c, v)
  {
    hide Subtrees, SeenInside;
  }

  lemma StagesClear(n: Node, stages: seq<Stage>, v: View)
    requires StagesOf(stages, n) && !n.Name? && !n.Function?
    ensures AllClearIn(stages, v) <==> Clear(n, v)
  {
    hide Subtrees, Clear;
    ClearBelow(n, v);
  }

  lemma SubtreesClear(n: Node, stages: seq<Stage>, s: Scope, r: Scope, v: View)
    requires Ok(s) && Chain(stages, s, r) && StagesOf(stages, n) && Sees(v, s) && Covers(n, s) && !n.Function? && !n.Name?
    requires s.top ==> !(n.Assign? && n.lhs.Name?) && forall c :: c in Subtrees(n) ==> Expression(c)
    ensures Clears(n, s, r, v)
    decreases n, 1, 0
  {
    hide Ok, Settles, Sees, Covers, Keeps, Clear, Chain, AllClearIn, Expression;
    StagesClear(n, stages, v);
    ChainClears(n, stages, s, r, v);
  }

  /** Compiled where the order does not matter, a tree is resolved exactly when it is clear. */
  lemma {:induction false} ClearExact(n: Node, storing: bool, s: Scope, v: View)
    requires Ok(s) && Sees(v, s) && Covers(n, s) && Steady(n, storing, s)
    ensures Clears(n, s, Transpile(n, storing, s), v)
    decreases n, 2
  {
    if n.Name? {
      hide TranspileName, Clears, Covers, Sees, Ok;
      NameClears(n, storing, s, v);
    } else if n.Function? {
      hide *;
      LiteralClears(n, s, v);
    } else if n.Return? {
      hide *;
      Below(n, storing, s);
      ReturnClears(n, storing, s, v);
    } else {
      hide *;
      var stages := Staged(n, storing, s) by { NotStored(n, storing, s); }
      Below(n, storing, s);
      SubtreesClear(n, stages, s, Transpile(n, storing, s), v);
    }
  }

  lemma ReturnClears(n: Node, storing: bool, s: Scope, v: View)
    requires Ok(s) && n.Return? && Sees(v, s) && Covers(n, s) && (s.top ==> forall c :: c in Subtrees(n) ==> Expression(c))
    ensures Clears(n, s, Transpile(n, storing, s), v)
    decreases n, 1, 1
  {
    hide Ok, Grows, Sees, Covers, Subtrees, Expression, Settles, Keeps, Transpile, Clear, Chain, StagesOf;
    var stages := ReturnStages(n, s);
    var r := Emit(Transpile(n.expr, false, s), Instr.Return);
    SubtreesClear(n, stages, s, r, v);
    ReturnedIs(n, storing, s);
    MarkClears(s, r);
  }

  lemma ReturnedIs(n: Node, storing: bool, s: Scope)
    requires Ok(s) && n.Return?
    ensures Transpile(n, storing, s) == Emit(Transpile(n.expr, false, s), Instr.Return).(returned := true)
  {
    hide Ok, Grows;
  }

  lemma MarkClears(s: Scope, r: Scope)
    requires Keeps(s, r)
    ensures var t := r.(returned := true); Keeps(s, t) && (Settles(t) <==> Settles(r))
  {
    hide LabelsOk;
    SettlesCode(r.(returned := true), r);
    hide Settles;
  }

  lemma NotStored(n: Node, storing: bool, s: Scope)
    requires Steady(n, storing, s)
    ensures !(s.top && n.Assign?)
  {
  }

  lemma Below(n: Node, storing: bool, s: Scope)
    requires Steady(n, storing, s) && !n.Function?
    ensures s.top ==> forall c :: c in Subtrees(n) ==> Expression(c)
  {
    hide Expression, Subtrees;
    if s.top { ExpressionBelow(n); }
  }

  // ----- function literals -----

  /** The variables that a nested function's closure carries. */
  lemma FreeSeen(params: seq<string>, body: Node, s: Scope, v: View, x: string)
    requires Ok(s) && (forall y :: y in v.carried <==> y in s.fn.cells || y in s.freeRefs)
    ensures x in Enter(params, body, s).fn.free <==>
              x in v.carried && !Has(body, Declares(x)) && !Has(body, Assigns(x)) && Reads(body, false, x, false)
  {
    var globals := ScanGlobals(body, []);
    var locals := ScanLocals(body, globals, []);
    ScanGlobalsExact(body, [], x);
    ScanLocalsExact(body, globals, [], x);
    CapturedExactly([], s.fn.cells, locals, globals, body, x);
    CapturedExactly([], s.freeRefs, locals, globals, body, x);
    var cells, free := CellRefs(body, s), FreeRefs(body, s);
    assert cells == CapturedFrom(s.fn.cells, locals, globals, body) && free == CapturedFrom(s.freeRefs, locals, globals, body);
    hide Ok, ScanGlobals, ScanLocals, Has, Reads, CapturedFrom, CellRefs, FreeRefs;
    assert x in Enter(params, body, s).fn.free <==> x in cells || x in free by { hide Enter; }
  }

  lemma LocalsSeen(params: seq<string>, body: Node, s: Scope, x: string)
    requires Ok(s)
    ensures x in Enter(params, body, s).fn.locals <==> x in params || (Has(body, Assigns(x)) && !Has(body, Declares(x)))
  {
    var globals := ScanGlobals(body, []);
    hide Enter, Ok, ScanGlobals, ScanLocals, Has, CapturedBelow;
    EnterTables(params, body, s);
    ScanGlobalsExact(body, [], x);
    ScanLocalsExact(body, globals, [], x);
  }

  /** The variables of a nested function. */
  lemma VarsSeen(params: seq<string>, body: Node, s: Scope, v: View, x: string)
    requires Ok(s) && (forall y :: y in v.carried <==> y in s.fn.cells || y in s.freeRefs)
    ensures var e := Enter(params, body, s); x in SeenInside(params, body, v).vars <==> x in e.fn.locals || x in e.fn.free
  {
    hide Enter, Ok, Has, Reads;
    LocalsSeen(params, body, s, x);
    FreeSeen(params, body, s, v, x);
  }

  lemma CarriedSeen(params: seq<string>, body: Node, s: Scope, v: View, x: string)
    requires Ok(s)
    requires var e := Enter(params, body, s); x in SeenInside(params, body, v).vars <==> x in e.fn.locals || x in e.fn.free
    ensures var e := Enter(params, body, s); x in SeenInside(params, body, v).carried <==> x in e.fn.cells || x in e.freeRefs
    ensures x in Enter(params, body, s).fn.cells ==> x in Enter(params, body, s).fn.locals
  {
    var e := Enter(params, body, s);
    EnterTables(params, body, s);
    EnterPassed(params, body, s);
    CapturedExactly(e.fn.locals, [], [], [], body, x);
    CapturedExactly(e.fn.free, [], [], [], body, x);
    hide Enter, Ok, ScanGlobals, ScanLocals, Has, CapturedBelow, Reads;
    assert x in e.freeRefs <==> x in ToSet(e.freeRefs);
  }

  lemma GlobalsSeen(params: seq<string>, body: Node, s: Scope, v: View, x: string)
    requires Ok(s) && Sees(v, s)
    ensures var e := Enter(params, body, s); x in SeenInside(params, body, v).globals <==> x in e.globals || GlobalAbove(x, e.last)
  {
    EnterGlobalsExact(params, body, s, x);
    GlobalAboveExact(x, s);
    hide Enter, Ok, Has, Reads, KnownIn, Around;
  }

  /** The tables of a nested function as the view has them. */
  lemma EnterSees(params: seq<string>, body: Node, s: Scope, v: View)
    requires Ok(s) && Sees(v, s)
    ensures Sees(SeenInside(params, body, v), Enter(params, body, s))
  {
    var e, u := Enter(params, body, s), SeenInside(params, body, v);
    assert forall x :: x in v.carried <==> x in s.fn.cells || x in s.freeRefs;
    hide Enter, Ok, Sees, GlobalAbove;
    assert u.storing == iset{} by { hide Has, Reads; }
    hide SeenInside;
    hide LabelsOk;
    forall x
      ensures x in u.vars <==> x in e.fn.locals || x in e.fn.free
      ensures x in e.fn.cells ==> x in e.fn.locals
      ensures x in u.carried <==> x in e.fn.cells || x in e.freeRefs
      ensures x in u.globals <==> x in e.globals || GlobalAbove(x, e.last)
    {
      VarsSeen(params, body, s, v, x);
      CarriedSeen(params, body, s, v, x);
      GlobalsSeen(params, body, s, v, x);
    }
    SeesFrom(u, e);
  }

  lemma SeesFrom(v: View, s: Scope)
    requires s.top <==> s.last.None?
    requires forall x :: x in v.vars <==> x in s.fn.locals || x in s.fn.free
    requires forall x :: x in s.fn.cells ==> x in s.fn.locals
    requires forall x :: x in v.carried <==> x in s.fn.cells || x in s.freeRefs
    requires forall x :: x in v.globals <==> x in s.globals || GlobalAbove(x, s.last)
    requires forall x :: x in v.storing <==> s.top && x == s.storing
    ensures Sees(v, s)
  {
    hide GlobalAbove;
  }

  lemma EnterCovers(params: seq<string>, body: Node, s: Scope)
    requires Ok(s)
    ensures Covers(body, Enter(params, body, s))
  {
    hide Enter, Has, GlobalAbove, KnownIn, Around;
    forall x | Has(body, Mentions(x)) && Outer(x, Enter(params, body, s)) ensures x in Enter(params, body, s).globals {
      EnterGlobalsExact(params, body, s, x);
      GlobalAboveExact(x, s);
    }
  }

  lemma LeaveSettles(s: Scope)
    requires Ok(s)
    ensures ResolvedAll(Leave(s).fn) <==> Settles(s)
  {
    hide Ok, Grows, Glue, LoadConstant;
    var t := LoadConstant(s, ConstNone);
    GlueConstant(s, ConstNone);
    GlueEmit(t, Instr.Return);
    GlueTrans(s, t, Emit(t, Instr.Return));
    GlueIs(s, Emit(t, Instr.Return));
    SettlesFn(Emit(t, Instr.Return), Leave(s).fn);
  }

  lemma SettlesFn(s: Scope, fn: Fn)
    requires fn.code == s.fn.code && fn.funcs == s.fn.funcs
    ensures ResolvedAll(fn) <==> Settles(s)
  {
  }

  lemma {:induction false} PushGlue(refs: seq<string>, table: seq<string>, base: nat, s: Scope)
    requires Ok(s) && forall x :: x in refs ==> x in table
    ensures Glue(s, PushRefs(refs, table, base, s))
    decreases |refs|
  {
    hide Ok, Glue, Grows;
    if refs == [] {
      GlueNone(s);
    } else {
      var k := |refs| - 1;
      var s1 := Emit(s, PushReference(base + IndexOf(table, refs[k])));
      GlueEmit(s, PushReference(base + IndexOf(table, refs[k])));
      PushGlue(refs[..k], table, base, s1);
      GlueTrans(s, s1, PushRefs(refs[..k], table, base, s1));
    }
  }

  /** The record of a nested function enters the table. */
  lemma AddSettles(s: Scope, inner: Scope)
    requires Ok(s) && s.nextLabel <= inner.nextLabel
    ensures var r := AddFunction(s, inner); Keeps(s, r) && (Settles(r) <==> Settles(s) && ResolvedAll(inner.fn))
  {
    hide Ok, ResolvedAll, Resolved;
    var r := AddFunction(s, inner);
    assert r.fn.funcs == s.fn.funcs + [inner.fn];
    assert inner.fn in r.fn.funcs;
  }

  lemma FreeRefsFree(body: Node, s: Scope)
    requires Ok(s)
    ensures forall x :: x in FreeRefs(body, s) ==> x in s.fn.free
  {
    hide FreeRefs, LabelsOk;
  }

  lemma ClosureSettles(body: Node, inner: Scope, s: Scope)
    requires Ok(s) && s.nextLabel <= inner.nextLabel
    ensures var r := MakeClosure(body, inner, s); Keeps(s, r) && (Settles(r) <==> Settles(s) && ResolvedAll(inner.fn))
  {
    hide Ok, Grows, Glue, Keeps, Settles, ResolvedAll, AddFunction, PushRefs;
    var cellRefs, freeRefs := CellRefs(body, s), FreeRefs(body, s);
    FreeRefsFree(body, s);
    var s1 := AddFunction(s, inner);
    var s2 := PushRefs(freeRefs, s.fn.free, |s.fn.cells|, s1);
    var s3 := PushRefs(cellRefs, s.fn.cells, 0, s2);
    AddSettles(s, inner);
    PushGlue(freeRefs, s.fn.free, |s.fn.cells|, s1);
    PushGlue(cellRefs, s.fn.cells, 0, s2);
    GlueEmit2(s3, LoadFunc(|s.fn.funcs|), AllocClosure(|cellRefs| + |freeRefs|));
    var r := MakeClosure(body, inner, s);
    GlueTrans(s1, s2, s3);
    GlueTrans(s1, s3, r);
    GlueIs(s1, r);
    KeepsTrans(s, s1, r);
  }

  lemma EnterSettles(params: seq<string>, body: Node, s: Scope)
    requires Ok(s)
    ensures Settles(Enter(params, body, s)) && !Enter(params, body, s).top
  {
    hide Enter, Ok;
  }

  lemma {:induction false} LiteralClears(n: Node, s: Scope, v: View)
    requires Ok(s) && n.Function? && Sees(v, s)
    ensures Clears(n, s, Transpile(n, false, s), v)
    decreases n, 1
  {
    hide *;
    var e, u := Enter(n.params, n.body, s), SeenInside(n.params, n.body, v);
    EnterSees(n.params, n.body, s, v);
    EnterCovers(n.params, n.body, s);
    EnterSettles(n.params, n.body, s);
    assert Steady(n.body, false, e) by { NotTop(n.body, e); }
    ClearExact(n.body, false, e, u);
    var t := Transpile(n.body, false, e);
    ClearsIs(n.body, e, t, u);
    LeaveSettles(t);
    FunctionUnfold(n, s);
    LabelsLater(n, s);
    ClosureSettles(n.body, Leave(t), s);
    ClearInside(n, v);
    ClearsFrom(n, s, Transpile(n, false, s), v);
  }

  /** The code of a function, with those nested in it, is resolved exactly when its literal is clear. */
  lemma FunctionResolved(params: seq<string>, body: Node, s: Scope, v: View)
    requires Ok(s) && Sees(v, s)
    ensures ResolvedAll(CompileFunction(params, body, s)) <==> Clear(Function(params, body), v)
  {
    hide *;
    var e, u := Enter(params, body, s), SeenInside(params, body, v);
    EnterSees(params, body, s, v);
    EnterCovers(params, body, s);
    EnterSettles(params, body, s);
    assert Steady(body, false, e) by { NotTop(body, e); }
    ClearExact(body, false, e, u);
    ClearsIs(body, e, Transpile(body, false, e), u);
    LeaveSettles(Transpile(body, false, e));
    CompiledIs(params, body, s);
    ClearInside(Function(params, body), v);
  }

  lemma CompiledIs(params: seq<string>, body: Node, s: Scope)
    requires Ok(s)
    ensures CompileFunction(params, body, s) == Leave(Transpile(body, false, Enter(params, body, s))).fn
  {
    hide Ok, Enter, Transpile, Leave;
  }

  /** What the statements of a function assign can be used in it. */
  lemma AssignedUsable(params: seq<string>, body: Node, v: View, x: string)
    requires Is(BlockSort, body) && Has(body, AssignsHere(x))
    ensures var u := SeenInside(params, body, v); x in u.vars || x in u.globals
  {
    hide Has, Is, Reads;
    StatementsFound(body, x);
  }

  lemma LabelsLater(n: Node, s: Scope)
    requires Ok(s) && n.Function?
    ensures s.nextLabel <= Leave(Transpile(n.body, false, Enter(n.params, n.body, s))).nextLabel
  {
    hide Ok, Enter, Transpile, LoadConstant;
  }

  lemma NotTop(n: Node, s: Scope)
    requires !s.top
    ensures Steady(n, false, s)
  {
  }

  lemma ClearInside(n: Node, v: View)
    requires n.Function?
    ensures Clear(n, v) <==> Clear(n.body, SeenInside(n.params, n.body, v))
  {
    hide SeenInside;
  }

  lemma ClearsFrom(n: Node, s: Scope, r: Scope, v: View)
    requires Keeps(s, r) && (Settles(r) <==> Settles(s) && Clear(n, v))
    ensures Clears(n, s, r, v)
  {
    hide Keeps, Settles, Clear;
  }

  // ----- return statements -----

  /** The subtrees one after another. */
  lemma {:induction false} ChainReturned(n: Node, stages: seq<Stage>, s: Scope, r: Scope)
    requires Ok(s) && Chain(stages, s, r) && forall g :: g in stages ==> g.node in Subtrees(n)
    ensures r.returned <==> s.returned || exists g :: g in stages && Has(g.node, Returns)
    decreases n, 0, |stages|
  {
    hide Ok, Grows, Keeps, Settles, Transpile, Subtrees, Has;
    if stages != [] {
      var g := stages[0];
      GlueOk(s, g.scope);
      var t := Transpile(g.node, g.storing, g.scope);
      ReturnedExact(g.node, g.storing, g.scope);
      ChainReturned(n, stages[1..], t, r);
      assert stages == [g] + stages[1..];
    }
  }

  /** The compiler notes a return exactly when a return statement is in the tree, nested functions left out. */
  lemma {:induction false} ReturnedExact(n: Node, storing: bool, s: Scope)
    requires Ok(s)
    ensures Transpile(n, storing, s).returned <==> s.returned || Has(n, Returns)
    decreases n, 1
  {
    hide *;
    HasBelow(n, Returns);
    ReturnsHere(n);
    if n.Name? {
      NameReturned(n, storing, s);
    } else if n.Function? {
      FunctionUnfold(n, s);
      LabelsLater(n, s);
      LiteralReturned(n, storing, s);
    } else if n.Return? {
      ReturnedIs(n, storing, s);
    } else if n.Assign? && n.lhs.Name? && s.top {
      NamedReturned(n, storing, s);
    } else {
      var stages := Staged(n, storing, s);
      StagesAre(stages, n);
      ChainReturned(n, stages, s, Transpile(n, storing, s));
    }
  }

  lemma ReturnsHere(n: Node)
    ensures Hits(Returns, n) <==> n.Return?
    ensures Stops(Returns, n) <==> n.Function?
  {
  }

  lemma StagesAre(stages: seq<Stage>, n: Node)
    requires StagesOf(stages, n)
    ensures forall g :: g in stages ==> g.node in Subtrees(n)
    ensures forall c :: c in Subtrees(n) ==> exists g :: g in stages && g.node == c
  {
    hide Subtrees;
  }

  lemma NameReturned(n: Node, storing: bool, s: Scope)
    requires Ok(s) && n.Name?
    ensures Transpile(n, storing, s).returned == s.returned && Subtrees(n) == []
  {
    hide Ok, Grows, Resolve;
  }

  lemma {:induction false} PushReturned(refs: seq<string>, table: seq<string>, base: nat, s: Scope)
    requires Ok(s) && forall x :: x in refs ==> x in table
    ensures PushRefs(refs, table, base, s).returned == s.returned
  {
    PushGlue(refs, table, base, s);
    hide Keeps, Settles;
  }

  lemma LiteralReturned(n: Node, storing: bool, s: Scope)
    requires Ok(s) && n.Function?
    ensures Transpile(n, storing, s).returned == s.returned
  {
    hide Ok, Grows, Leave, Enter, PushRefs;
    var inner := Leave(Transpile(n.body, false, Enter(n.params, n.body, s)));
    LabelsLater(n, s);
    FunctionUnfold(n, s);
    hide Transpile;
    FreeRefsFree(n.body, s);
    var s1 := AddFunction(s, inner);
    var s2 := PushRefs(FreeRefs(n.body, s), s.fn.free, |s.fn.cells|, s1);
    PushReturned(FreeRefs(n.body, s), s.fn.free, |s.fn.cells|, s1);
    PushReturned(CellRefs(n.body, s), s.fn.cells, 0, s2);
  }

  lemma {:induction false} NamedReturned(n: Node, storing: bool, s: Scope)
    requires Ok(s) && n.Assign? && n.lhs.Name?
    ensures Transpile(n, storing, s).returned <==> s.returned || exists c :: c in Subtrees(n) && Has(c, Returns)
    decreases n, 0
  {
    hide Ok, Grows, Has, TranspileName;
    var s1 := Announce(n.lhs, s);
    var s2 := Transpile(n.expr, false, s1);
    ReturnedExact(n.expr, false, s1);
    NameReturned(n.lhs, true, s2);
    HasBelow(n.lhs, Returns);
    assert n.expr in Subtrees(n);
    hide Hits;
  }

  // ----- the top level -----

  /** At the top level there are only globals. */
  ghost predicate TopScope(s: Scope) { Ok(s) && s.top && s.fn.free == [] && s.fn.cells == [] && s.fn.locals == [] }

  /** Code from `s` to `r` that is resolved as far as `clear` says; the names are those of `v` then. */
  ghost predicate Ends(s: Scope, r: Scope, v: View, clear: bool) {
    TopScope(r) && Sees(v, r) && (Settles(r) <==> Settles(s) && clear)
  }

  lemma EndsTrans(s: Scope, t: Scope, r: Scope, u: View, v: View, c: bool, d: bool)
    requires Ends(s, t, u, c) && Ends(t, r, v, d)
    ensures Ends(s, r, v, c && d)
  {
    hide Settles, Sees, TopScope;
  }

  lemma EndsKept(s: Scope, r: Scope, v: View, clear: bool)
    requires TopScope(s) && Sees(v, s) && Keeps(s, r) && (Settles(r) <==> Settles(s) && clear)
    ensures Ends(s, r, v, clear)
  {
    SeesKept(v, s, r);
    hide Settles, Sees, Ok;
  }

  lemma GlueEnds(s: Scope, r: Scope, v: View)
    requires TopScope(s) && Sees(v, s) && Glue(s, r)
    ensures Ends(s, r, v, true)
  {
    hide *;
    GlueIs(s, r);
    EndsKept(s, r, v, true);
  }

  lemma TopCovers(n: Node, s: Scope)
    requires s.last.None?
    ensures Covers(n, s)
  {
    hide Has;
  }

  lemma EndsParts(s: Scope, r: Scope, v: View, clear: bool)
    requires Ends(s, r, v, clear)
    ensures TopScope(r) && Ok(r) && r.top && r.last.None? && Sees(v, r)
  {
    hide GlobalAbove, Settles, Ok;
  }

  lemma SeesTopScope(s: Scope, v: View)
    requires TopScope(s) && Sees(v, s)
    ensures Ok(s) && s.top && s.last.None?
  {
    hide GlobalAbove, Ok;
  }

  lemma ExpressionEnds(n: Node, s: Scope, v: View)
    requires TopScope(s) && Ok(s) && Sees(v, s) && Expression(n)
    ensures Ends(s, Transpile(n, false, s), v, Clear(n, v))
  {
    hide *;
    SeesTopScope(s, v);
    TopCovers(n, s);
    assert Steady(n, false, s) by { SteadyIs(n, s); }
    ClearExact(n, false, s, v);
    ClearsIs(n, s, Transpile(n, false, s), v);
    EndsKept(s, Transpile(n, false, s), v, Clear(n, v));
  }

  lemma SteadyIs(n: Node, s: Scope)
    requires Expression(n)
    ensures Steady(n, false, s)
  {
    hide Expression;
  }

  lemma ExprIs(n: Node)
    requires Is(ExprSort, n) || Is(LhsSort, n)
    ensures Expression(n)
  {
    hide Is;
  }

  ghost function ViewAfterAll(nodes: seq<Node>, v: View): View {
    if nodes == [] then v else ViewAfterAll(nodes[1..], ViewAfter(nodes[0], v))
  }

  ghost predicate TopClearAll(nodes: seq<Node>, v: View) {
    nodes == [] || (TopClear(nodes[0], v) && TopClearAll(nodes[1..], ViewAfter(nodes[0], v)))
  }

  ghost predicate AtTop(n: Node) { Is(BlockSort, n) || Is(StmtSort, n) || Is(ExprSort, n) }

  /** Statements, branches and conditions one after another. */
  lemma {:induction false} TopChain(n: Node, nodes: seq<Node>, stages: seq<Stage>, s: Scope, r: Scope, v: View)
    requires Ok(s) && TopScope(s) && Sees(v, s) && Chain(stages, s, r) && InOrder(stages, nodes)
    requires forall c :: c in nodes ==> c in Subtrees(n) && AtTop(c)
    ensures Ends(s, r, ViewAfterAll(nodes, v), TopClearAll(nodes, v))
    decreases n, 0, |stages|
  {
    hide Ok, Glue, TopScope, Sees, Ends, Transpile, Subtrees, AtTop, ViewAfter, TopClear;
    if nodes == [] {
      GlueEnds(s, r, v);
    } else {
      var g := stages[0];
      assert g.node == nodes[0] && nodes[0] in nodes;
      GlueEnds(s, g.scope, v);
      EndsParts(s, g.scope, v, true);
      var t := Transpile(g.node, false, g.scope);
      TopExact(g.node, g.scope, v);
      EndsTrans(s, g.scope, t, v, ViewAfter(g.node, v), true, TopClear(g.node, v));
      EndsParts(s, t, ViewAfter(g.node, v), TopClear(g.node, v));
      TopChain(n, nodes[1..], stages[1..], t, r, ViewAfter(g.node, v));
      EndsTrans(s, t, r, ViewAfter(g.node, v), ViewAfterAll(nodes, v), TopClear(g.node, v), TopClearAll(nodes[1..], ViewAfter(g.node, v)));
    }
  }

  lemma {:induction false} TopExact(n: Node, s: Scope, v: View)
    requires TopScope(s) && Ok(s) && Sees(v, s) && AtTop(n)
    ensures Ends(s, Transpile(n, false, s), ViewAfter(n, v), TopClear(n, v))
    decreases n, 1
  {
    hide *;
    SeesTopScope(s, v);
    if n.Seq? || n.If? || n.While? {
      var stages := OrderedStages(n, s);
      OrderedParts(n, v);
      TopChain(n, Subtrees(n), stages, s, Transpile(n, false, s), v);
    } else if n.Assign? && n.lhs.Name? {
      TopAssign(n, s, v);
    } else if Is(ExprSort, n) {
      ExpressionParts(n, v);
      ExpressionEnds(n, s, v);
    } else {
      OtherParts(n, v);
      TopCovers(n, s);
      if n.Return? {
        ReturnClears(n, false, s, v);
      } else {
        var stages := Staged(n, false, s);
        SubtreesClear(n, stages, s, Transpile(n, false, s), v);
      }
      ClearsIs(n, s, Transpile(n, false, s), v);
      EndsKept(s, Transpile(n, false, s), v, Clear(n, v));
    }
  }

  lemma OrderedStages(n: Node, s: Scope) returns (stages: seq<Stage>)
    requires Ok(s) && (n.Seq? || n.If? || n.While?)
    ensures Chain(stages, s, Transpile(n, false, s)) && InOrder(stages, Subtrees(n))
  {
    hide Ok, Chain, InOrder, Subtrees, TranspileSeq, TranspileIf, TranspileWhile;
    if n.Seq? {
      stages := SeqStages(n, s);
    } else if n.If? {
      stages := IfStages(n, s);
    } else {
      stages := WhileStages(n, s);
    }
  }

  lemma OrderedParts(n: Node, v: View)
    requires AtTop(n) && (n.Seq? || n.If? || n.While?)
    ensures forall c :: c in Subtrees(n) ==> AtTop(c)
    ensures ViewAfter(n, v) == ViewAfterAll(Subtrees(n), v)
    ensures TopClear(n, v) <==> TopClearAll(Subtrees(n), v)
  {
    hide Clear;
    var nodes := Subtrees(n);
    if n.Seq? {
      AllTwo(n.first, n.rest, v);
    } else if n.If? {
      ExpressionParts(n.cond, v);
      AllThree(n.cond, n.thn, n.els, v);
    } else {
      ExpressionParts(n.cond, v);
      AllTwo(n.cond, n.body, v);
    }
  }

  lemma AllTwo(a: Node, b: Node, v: View)
    ensures ViewAfterAll([a, b], v) == ViewAfter(b, ViewAfter(a, v))
    ensures TopClearAll([a, b], v) <==> TopClear(a, v) && TopClear(b, ViewAfter(a, v))
  {
    hide ViewAfter, TopClear;
    assert [a, b][1..] == [b] && [b][1..] == [];
    assert ViewAfterAll([b], ViewAfter(a, v)) == ViewAfter(b, ViewAfter(a, v));
    assert TopClearAll([b], ViewAfter(a, v)) <==> TopClear(b, ViewAfter(a, v));
  }

  lemma AllThree(a: Node, b: Node, c: Node, v: View)
    ensures ViewAfterAll([a, b, c], v) == ViewAfter(c, ViewAfter(b, ViewAfter(a, v)))
    ensures TopClearAll([a, b, c], v) <==> TopClear(a, v) && TopClear(b, ViewAfter(a, v)) && TopClear(c, ViewAfter(b, ViewAfter(a, v)))
  {
    hide ViewAfter, TopClear;
    assert [a, b, c][1..] == [b, c];
    AllTwo(b, c, ViewAfter(a, v));
  }

  lemma ExpressionParts(n: Node, v: View)
    requires Is(ExprSort, n)
    ensures ViewAfter(n, v) == v && (TopClear(n, v) <==> Clear(n, v)) && Expression(n)
  {
    hide Clear;
  }

  /** Statements that store no name. */
  lemma OtherParts(n: Node, v: View)
    requires AtTop(n) && !Is(ExprSort, n)
    requires !n.Seq? && !n.If? && !n.While? && !(n.Assign? && n.lhs.Name?)
    ensures ViewAfter(n, v) == v && (TopClear(n, v) <==> Clear(n, v)) && !n.Name? && !n.Function?
    ensures forall c :: c in Subtrees(n) ==> Expression(c)
  {
    hide Clear;
    forall c | c in Subtrees(n) ensures Expression(c) {
      assert Is(ExprSort, c) || Is(LhsSort, c);
    }
  }

  /** An assignment to a name tells the functions in its right-hand side first. */
  lemma TopAssign(n: Node, s: Scope, v: View)
    requires TopScope(s) && Ok(s) && Sees(v, s) && AtTop(n) && n.Assign? && n.lhs.Name?
    ensures Ends(s, Transpile(n, false, s), ViewAfter(n, v), TopClear(n, v))
    decreases n, 0
  {
    hide *;
    var x := n.lhs.name;
    var u := v.(storing := iset{x});
    var s1 := Announce(n.lhs, s);
    var s2 := Transpile(n.expr, false, s1);
    AssignParts(n, s, v);
    AnnounceEnds(x, s, v);
    EndsParts(s, s1, u, true);
    ExpressionParts(n.expr, u);
    ExpressionEnds(n.expr, s1, u);
    EndsParts(s1, s2, u, Clear(n.expr, u));
    EndsTrans(s, s1, s2, u, u, true, Clear(n.expr, u));
    var w := u.(globals := u.globals + iset{x});
    StoreEnds(x, s2, u);
    EndsTrans(s, s2, TranspileName(x, true, s2), u, w, Clear(n.expr, u), true);
  }

  lemma AssignParts(n: Node, s: Scope, v: View)
    requires Ok(s) && AtTop(n) && n.Assign? && n.lhs.Name?
    ensures Is(ExprSort, n.expr)
    ensures Transpile(n, false, s) == TranspileName(n.lhs.name, true, Transpile(n.expr, false, Announce(n.lhs, s)))
    ensures ViewAfter(n, v) == v.(globals := v.globals + iset{n.lhs.name}, storing := iset{n.lhs.name})
    ensures TopClear(n, v) <==> Clear(n.expr, v.(storing := iset{n.lhs.name}))
  {
    hide Ok, Grows, Clear, TranspileName;
    var s2 := Transpile(n.expr, false, Announce(n.lhs, s));
    assert Transpile(n.lhs, true, s2) == TranspileName(n.lhs.name, true, s2);
  }

  lemma AnnounceEnds(x: string, s: Scope, v: View)
    requires TopScope(s) && Ok(s) && Sees(v, s)
    ensures Ends(s, Announce(Name(x), s), v.(storing := iset{x}), true)
  {
    hide GlobalAbove, LabelsOk, Settles;
    assert Settles(s) <==> Settles(Announce(Name(x), s)) by { SettlesCode(s, Announce(Name(x), s)); }
  }

  lemma StoreEnds(x: string, s: Scope, v: View)
    requires TopScope(s) && Ok(s) && Sees(v, s)
    ensures Ends(s, TranspileName(x, true, s), v.(globals := v.globals + iset{x}), true)
  {
    hide GlobalAbove, Ok, Settles, Sees, TranspileName, Grows;
    TopStoreDeclares(x, s);
    var r := TranspileName(x, true, s);
    TopStays(s, r);
    SettlesOne(s, r);
    ShapeOf(s, r);
    StoreSees(x, s, r, v);
  }

  lemma ShapeOf(s: Scope, r: Scope)
    requires Grows(s, r)
    ensures SameShape(s, r)
  {
  }

  lemma StoreSees(x: string, s: Scope, r: Scope, v: View)
    requires Sees(v, s) && SameShape(s, r) && r.storing == s.storing
    requires forall y :: y in r.globals <==> y in s.globals || y == x
    ensures Sees(v.(globals := v.globals + iset{x}), r)
  {
    hide GlobalAbove;
  }

  lemma SettlesOne(s: Scope, r: Scope)
    requires |r.fn.code| == |s.fn.code| + 1 && r.fn.code[..|s.fn.code|] == s.fn.code && !r.fn.code[|s.fn.code|].ThrowUninitialized?
    requires r.fn.funcs == s.fn.funcs
    ensures Settles(s) <==> Settles(r)
  {
    hide ResolvedAll;
    assert r.fn.code == s.fn.code + [r.fn.code[|s.fn.code|]];
  }

  // ----- programs -----

  /** The natives are globals of the top level, and only that is entered in its tables. */
  lemma {:induction false} NativesGrow(names: seq<string>, s: Scope)
    requires Ok(s) && s.top
    ensures Grows(s, AddNatives(names, s)) && AddNatives(names, s).fn.funcs == s.fn.funcs
    decreases |names|
  {
    hide Ok;
    if names != [] {
      var t := NativeScope(names, s);
      NativeFirst(names, s);
      NativesGrow(names[1..], t);
      GrowsTrans(s, t, AddNatives(names[1..], t));
    }
  }

  /** The scope with the name of a native, behind the code that makes it. */
  function NativeNamed(names: seq<string>, s: Scope): (t: Scope)
    requires Ok(s) && s.top && names != []
    ensures Ok(t) && t.top && Grows(Emit(s, LoadFunc(|names| - |BUILTINS| - 1)), t) && names[0] in t.fn.names
    ensures t.fn.funcs == s.fn.funcs && |t.fn.code| == |s.fn.code| + 1
  {
    var s1 := Emit(s, LoadFunc(|names| - |BUILTINS| - 1));
    var s2 := InsertName(s1.(globals := s1.globals), names[0]);
    s2.(globals := Insert(s2.globals, names[0]))
  }

  /** The scope after one native. */
  function NativeScope(names: seq<string>, s: Scope): (t: Scope)
    requires Ok(s) && s.top && names != []
    ensures Ok(t) && t.top && Grows(s, t) && t.fn.funcs == s.fn.funcs
  {
    hide Ok, Grows, LabelsOk, NativeNamed;
    var s1 := NativeNamed(names, s);
    var t := Emit(s1, StoreGlobal(IndexOf(s1.fn.names, names[0])));
    TopStays(s1, t);
    GrowsTrans(s, Emit(s, LoadFunc(|names| - |BUILTINS| - 1)), s1);
    GrowsTrans(s, s1, t);
    t
  }

  lemma NativeFirst(names: seq<string>, s: Scope)
    requires Ok(s) && s.top && names != []
    ensures AddNatives(names, s) == AddNatives(names[1..], NativeScope(names, s))
  {
    hide Ok, Grows, LabelsOk;
  }

  /** The scope in which the statements of a program are compiled. */
  function Top(): (s: Scope)
    ensures Ok(s)
  {
    StartOk();
    AddNatives(BUILTINS, START)
  }

  lemma StartOk()
    ensures Ok(START) && START.top
  {
  }

  lemma TopStays(s: Scope, t: Scope)
    requires Grows(s, t)
    ensures t.top == s.top
  {
  }

  lemma TopEmpty()
    ensures var s := Top(); s.top && s.fn.locals == [] && s.fn.cells == [] && s.fn.free == [] && s.freeRefs == [] && s.fn.funcs == []
  {
    hide AddNatives, Ok;
    StartOk();
    NativesGrow(BUILTINS, START);
  }

  lemma ProgramFunctions(block: Node)
    ensures CompileProgram(block).funcs == Transpile(block, false, Top()).fn.funcs
  {
    hide Ok, Transpile, AddNatives;
  }

  /** The scope behind the statements of a program. */
  function Bottom(block: Node): (s: Scope)
    ensures Ok(s) && Grows(Top(), s)
  {
    Transpile(block, false, Top())
  }

  /** What the natives leave: their names are global, and nothing is unresolved. */
  ghost predicate NativesIn(names: seq<string>, s: Scope, r: Scope) {
    && TopScope(r) && r.last == s.last && r.storing == s.storing && r.returned == s.returned && (Settles(r) <==> Settles(s))
    && forall x :: x in r.globals <==> x in s.globals || x in names
  }

  lemma NativeIn(names: seq<string>, s: Scope)
    requires Ok(s) && TopScope(s) && names != []
    ensures NativesIn(names[..1], s, NativeScope(names, s))
  {
    hide LabelsOk, Grows, IndexOf, Settles;
    var s1 := Emit(s, LoadFunc(|names| - |BUILTINS| - 1));
    var s2 := NativeNamed(names, s);
    GlueEmit(s, LoadFunc(|names| - |BUILTINS| - 1));
    SettlesCode(s1, s2);
    GlueEmit(s2, StoreGlobal(IndexOf(s2.fn.names, names[0])));
  }

  lemma {:induction false} NativesEntered(names: seq<string>, s: Scope)
    requires Ok(s) && TopScope(s)
    ensures NativesIn(names, s, AddNatives(names, s))
    decreases |names|
  {
    hide Ok, TopScope, Settles, NativeScope, Grows, SameShape, LabelsOk, Emit, InsertName;
    if names != [] {
      TopIs(s);
      var t := NativeScope(names, s);
      NativeIn(names, s);
      NativeFirst(names, s);
      NativesEntered(names[1..], t);
      assert names == names[..1] + names[1..];
    }
    hide AddNatives;
  }

  lemma TopIs(s: Scope)
    requires TopScope(s)
    ensures Ok(s) && s.top
  {
  }

  lemma TopSees()
    ensures TopScope(Top()) && Sees(StartView(), Top()) && Settles(Top()) && !Top().returned
  {
    hide AddNatives, LabelsOk;
    StartOk();
    NativesEntered(BUILTINS, START);
    hide Ok, Settles;
    assert Settles(START) by { SettlesStartView(); }
  }

  lemma SettlesStartView()
    ensures Settles(START)
  {
  }

  /** The end of a program adds nothing to resolve. */
  lemma ProgramEnd(block: Node)
    ensures ResolvedAll(CompileProgram(block)) <==> Settles(Transpile(block, false, Top()))
  {
    hide Ok, Grows, Transpile, AddNatives, LoadConstant, Glue;
    var s := Transpile(block, false, Top());
    var t := LoadConstant(s, ConstInt(0));
    GlueConstant(s, ConstInt(0));
    GlueEmit(t, Instr.Return);
    GlueTrans(s, t, Emit(t, Instr.Return));
    GlueIs(s, Emit(t, Instr.Return));
    hide Settles, Keeps, ResolvedAll;
    SettlesFn(s, s.fn);
    SettlesFn(Emit(t, Instr.Return), Emit(t, Instr.Return).fn);
  }

  /** A program compiles to code without unresolved names exactly when its names can be used where they stand. */
  lemma ProgramResolved(block: Node)
    requires Is(BlockSort, block)
    ensures ResolvedAll(CompileProgram(block)) <==> AllClear(block)
  {
    hide *;
    TopSees();
    TopIs(Top());
    assert AtTop(block) by { BlockAtTop(block); }
    TopExact(block, Top(), StartView());
    EndsSettles(Top(), Transpile(block, false, Top()), ViewAfter(block, StartView()), TopClear(block, StartView()));
    ProgramEnd(block);
    AllClearIs(block);
  }

  lemma AllClearIs(block: Node)
    ensures AllClear(block) <==> TopClear(block, StartView())
  {
    hide TopClear;
  }

  lemma BlockAtTop(block: Node)
    requires Is(BlockSort, block)
    ensures AtTop(block)
  {
    hide Is;
  }

  lemma EndsSettles(s: Scope, r: Scope, v: View, clear: bool)
    requires Ends(s, r, v, clear) && Settles(s)
    ensures Settles(r) <==> clear
  {
    hide Settles, Sees, TopScope;
  }

  /** The mark that decides whether a program gets a last return: some return statement outside functions. */
  lemma ProgramReturned(block: Node)
    ensures Bottom(block).returned <==> Has(block, Returns)
  {
    hide *;
    TopSees();
    ReturnedExact(block, false, Top());
    BottomIs(block);
  }

  lemma BottomIs(block: Node)
    ensures Bottom(block) == Transpile(block, false, Top())
  {
    hide Transpile, Top;
  }
}
