/**
  The abstract syntax tree.  The compiler and its scanners are visitors over one class of
  nodes, so the tree is one datatype; `Is` says which trees the grammar produces.
  A list of statements or arguments is a chain of `Seq` ended by `Empty`, the fields of a
  record literal are a chain of `Entry`.
 */
module Ast {

  datatype BinSym = OR | AND | LT | LTE | GT | GTE | EQ | PLUS | MINUS | MUL | DIV
  datatype UnSym = NOT | NEG

  datatype Node =
    | Empty
    | Seq(first: Node, rest: Node)
    | Entry(key: string, value: Node, more: Node)
    // left-hand sides
    | Name(name: string)
    | Index(base: Node, index: Node)
    | Field(base: Node, field: string)
    // statements
    | Assign(lhs: Node, expr: Node)
    | CallStmt(call: Node)
    | Global(name: string)
    | If(cond: Node, thn: Node, els: Node)
    | While(cond: Node, body: Node)
    | Return(expr: Node)
    // expressions
    | Call(target: Node, args: Node)
    | Function(params: seq<string>, body: Node)
    | Record(entries: Node)
    | IntLit(i: int)
    | StringLit(s: string)
    | BoolLit(b: bool)
    | NullLit
    | BinExpr(bop: BinSym, left: Node, right: Node)
    | UnExpr(uop: UnSym, operand: Node)

  datatype Sort = LhsSort | ExprSort | StmtSort | BlockSort | ArgsSort | EntriesSort

  /** Integer literals are the 32-bit integers of the parser. */
  predicate IsInt32(i: int) { -0x8000_0000 <= i < 0x8000_0000 }

  predicate Is(sort: Sort, n: Node)
    decreases n
  {
    match sort
    case LhsSort =>
      n.Name? || (n.Index? && Is(LhsSort, n.base) && Is(ExprSort, n.index)) || (n.Field? && Is(LhsSort, n.base))
    case ExprSort =>
      (match n
       case Name(_) => true
       case Index(b, i) => Is(LhsSort, b) && Is(ExprSort, i)
       case Field(b, _) => Is(LhsSort, b)
       case Call(t, args) => Is(LhsSort, t) && Is(ArgsSort, args)
       case Function(_, b) => Is(BlockSort, b)
       case Record(es) => Is(EntriesSort, es)
       case IntLit(i) => IsInt32(i)
       case StringLit(_) => true
       case BoolLit(_) => true
       case NullLit => true
       case BinExpr(_, l, r) => Is(ExprSort, l) && Is(ExprSort, r)
       case UnExpr(_, e) => Is(ExprSort, e)
       case _ => false)
    case StmtSort =>
      (match n
       case Assign(l, e) => Is(LhsSort, l) && Is(ExprSort, e)
       case CallStmt(c) => c.Call? && Is(ExprSort, c)
       case Global(_) => true
       case If(c, t, e) => Is(ExprSort, c) && Is(BlockSort, t) && Is(BlockSort, e)
       case While(c, b) => Is(ExprSort, c) && Is(BlockSort, b)
       case Return(e) => Is(ExprSort, e)
       case _ => false)
    case BlockSort =>
      n.Empty? || (n.Seq? && Is(StmtSort, n.first) && Is(BlockSort, n.rest))
    case ArgsSort =>
      n.Empty? || (n.Seq? && Is(ExprSort, n.first) && Is(ArgsSort, n.rest))
    case EntriesSort =>
      n.Empty? || (n.Entry? && Is(ExprSort, n.value) && Is(EntriesSort, n.more))
  }

  function Length(list: Node): nat {
    if list.Seq? then 1 + Length(list.rest) else 0
  }

  // ----- places in a tree -----

  /** The trees directly below a node. */
  function Subtrees(n: Node): (r: seq<Node>)
    ensures forall c :: c in r ==> c < n
  {
    match n
    case Empty => []
    case Seq(a, b) => [a, b]
    case Entry(_, v, m) => [v, m]
    case Name(_) => []
    case Index(b, i) => [b, i]
    case Field(b, _) => [b]
    case Assign(l, e) => [l, e]
    case CallStmt(c) => [c]
    case Global(_) => []
    case If(c, t, e) => [c, t, e]
    case While(c, b) => [c, b]
    case Return(e) => [e]
    case Call(t, args) => [t, args]
    case Function(_, b) => [b]
    case Record(es) => [es]
    case IntLit(_) => []
    case StringLit(_) => []
    case BoolLit(_) => []
    case NullLit => []
    case BinExpr(_, l, r) => [l, r]
    case UnExpr(_, e) => [e]
  }

  /** What can be looked for in a tree, and how far below itself a node is looked through for it. */
  datatype Use = Declares(name: string) | Assigns(name: string) | Mentions(name: string) | AssignsHere(name: string) | Returns

  predicate Hits(u: Use, n: Node) {
    match u
    case Declares(x) => n == Global(x)
    case Assigns(x) => n.Assign? && n.lhs == Name(x)
    case Mentions(x) => n == Name(x) || (n.Field? && n.field == x)
    case AssignsHere(x) => n.Assign? && n.lhs == Name(x)
    case Returns => n.Return?
  }

  /** Assignments hide what is in them from the search for locals, functions from the other searches. */
  predicate Stops(u: Use, n: Node) { if u.Assigns? then n.Assign? else n.Function? }

  predicate Has(n: Node, u: Use)
    decreases n
  {
    Hits(u, n) || (!Stops(u, n) && exists c :: c in Subtrees(n) && Has(c, u))
  }

  lemma HasOne(n: Node, u: Use, a: Node)
    requires Subtrees(n) == [a]
    ensures Has(n, u) <==> Hits(u, n) || (!Stops(u, n) && Has(a, u))
  {
    hide Hits, Stops, Has, Subtrees;
    HasBelow(n, u);
    assert a in Subtrees(n);
  }

  lemma HasTwo(n: Node, u: Use, a: Node, b: Node)
    requires Subtrees(n) == [a, b]
    ensures Has(n, u) <==> Hits(u, n) || (!Stops(u, n) && (Has(a, u) || Has(b, u)))
  {
    hide Hits, Stops, Has, Subtrees;
    HasBelow(n, u);
    assert a in Subtrees(n) && b in Subtrees(n);
  }

  lemma HasThree(n: Node, u: Use, a: Node, b: Node, c: Node)
    requires Subtrees(n) == [a, b, c]
    ensures Has(n, u) <==> Hits(u, n) || (!Stops(u, n) && (Has(a, u) || Has(b, u) || Has(c, u)))
  {
    hide Hits, Stops, Has, Subtrees;
    HasBelow(n, u);
    assert a in Subtrees(n) && b in Subtrees(n) && c in Subtrees(n);
  }

  /** Without a function around them, assignments are statements: none is below an expression. */
  lemma {:induction false} NoneAssigned(sort: Sort, n: Node, x: string)
    requires Is(sort, n) && sort != StmtSort && sort != BlockSort
    ensures !Has(n, AssignsHere(x))
    decreases n
  {
    hide Has;
    forall c | c in Subtrees(n) && !n.Function? ensures !Has(c, AssignsHere(x)) {
      NoneAssigned(SortBelow(sort, n, c), c, x);
    }
    HasBelow(n, AssignsHere(x));
  }

  lemma HasBelow(n: Node, u: Use)
    ensures Has(n, u) <==> Hits(u, n) || (!Stops(u, n) && exists c :: c in Subtrees(n) && Has(c, u))
  {
    hide Hits, Stops, Subtrees;
  }

  /** The sort of a subtree of an expression. */
  function SortBelow(sort: Sort, n: Node, c: Node): (r: Sort)
    requires Is(sort, n) && sort != StmtSort && sort != BlockSort && c in Subtrees(n) && !n.Function?
    ensures Is(r, c) && r != StmtSort && r != BlockSort
  {
    match n
    case Index(b, _) => if Is(LhsSort, c) then LhsSort else ExprSort
    case Field(_, _) => LhsSort
    case Call(_, _) => if Is(LhsSort, c) then LhsSort else ArgsSort
    case Record(_) => EntriesSort
    case Seq(_, _) => if Is(ExprSort, c) then ExprSort else ArgsSort
    case Entry(_, _, _) => if Is(ExprSort, c) then ExprSort else EntriesSort
    case _ => ExprSort
  }

  /** What the statements of a block assign, in branches and loop bodies too, the search for locals finds. */
  lemma {:induction false} StatementsFound(n: Node, x: string)
    requires Is(BlockSort, n) || Is(StmtSort, n)
    ensures Has(n, AssignsHere(x)) ==> Has(n, Assigns(x))
    decreases n
  {
    hide Has;
    var u, v := AssignsHere(x), Assigns(x);
    match n
    case Empty => HasBelow(n, u);
    case Seq(a, b) =>
      StatementsFound(a, x);
      StatementsFound(b, x);
      HasTwo(n, u, a, b);
      HasTwo(n, v, a, b);
    case Assign(l, e) =>
      NoneAssigned(LhsSort, l, x);
      NoneAssigned(ExprSort, e, x);
      HasTwo(n, u, l, e);
      HasTwo(n, v, l, e);
    case CallStmt(c) =>
      NoneAssigned(ExprSort, c, x);
      HasOne(n, u, c);
    case Global(_) => HasBelow(n, u);
    case If(c, t, e) =>
      NoneAssigned(ExprSort, c, x);
      StatementsFound(t, x);
      StatementsFound(e, x);
      HasThree(n, u, c, t, e);
      HasThree(n, v, c, t, e);
    case While(c, b) =>
      NoneAssigned(ExprSort, c, x);
      StatementsFound(b, x);
      HasTwo(n, u, c, b);
      HasTwo(n, v, c, b);
    case Return(e) =>
      NoneAssigned(ExprSort, e, x);
      HasOne(n, u, e);
  }

  // ----- function literals -----

  /** `<` and `<=` have their right operand evaluated first. */
  predicate RightFirst(op: BinSym) { op == LT || op == LTE }

  /** How many function literals a tree has, those nested in them not counted. */
  function Literals(n: Node): nat {
    match n
    case Seq(a, b) => Literals(a) + Literals(b)
    case Entry(_, v, m) => Literals(v) + Literals(m)
    case Index(b, i) => Literals(b) + Literals(i)
    case Field(b, _) => Literals(b)
    case Assign(l, e) => Literals(e) + Literals(l)
    case CallStmt(c) => Literals(c)
    case If(c, t, e) => Literals(c) + Literals(t) + Literals(e)
    case While(c, b) => Literals(c) + Literals(b)
    case Return(e) => Literals(e)
    case Call(t, args) => Literals(args) + Literals(t)
    case Function(_, _) => 1
    case Record(es) => Literals(es)
    case BinExpr(_, l, r) => Literals(l) + Literals(r)
    case UnExpr(_, e) => Literals(e)
    case _ => 0
  }

  /** Literal number `i` in the order of evaluation. */
  function NthLiteral(n: Node, i: nat): (r: Node)
    requires i < Literals(n)
    ensures r.Function?
    decreases n
  {
    match n
    case Seq(a, b) => if i < Literals(a) then NthLiteral(a, i) else NthLiteral(b, i - Literals(a))
    case Entry(_, v, m) => if i < Literals(v) then NthLiteral(v, i) else NthLiteral(m, i - Literals(v))
    case Index(b, e) => if i < Literals(b) then NthLiteral(b, i) else NthLiteral(e, i - Literals(b))
    case Field(b, _) => NthLiteral(b, i)
    case Assign(l, e) => if i < Literals(e) then NthLiteral(e, i) else NthLiteral(l, i - Literals(e))
    case CallStmt(c) => NthLiteral(c, i)
    case If(c, t, e) =>
      if i < Literals(c) then NthLiteral(c, i)
      else if i < Literals(c) + Literals(t) then NthLiteral(t, i - Literals(c))
      else NthLiteral(e, i - Literals(c) - Literals(t))
    case While(c, b) => if i < Literals(c) then NthLiteral(c, i) else NthLiteral(b, i - Literals(c))
    case Return(e) => NthLiteral(e, i)
    case Call(t, args) => if i < Literals(args) then NthLiteral(args, i) else NthLiteral(t, i - Literals(args))
    case Function(_, _) => n
    case Record(es) => NthLiteral(es, i)
    case BinExpr(op, l, r) =>
      var (a, b) := if RightFirst(op) then (r, l) else (l, r);
      if i < Literals(a) then NthLiteral(a, i) else NthLiteral(b, i - Literals(a))
    case UnExpr(_, e) => NthLiteral(e, i)
  }

  lemma {:induction false} SortedIf(n: Node, i: nat)
    requires Is(StmtSort, n) && n.If? && i < Literals(n)
    ensures Is(BlockSort, NthLiteral(n, i).body)
    decreases n, 0
  {
    var c, t := Literals(n.cond), Literals(n.thn);
    if i < c {
      SortedBodies(ExprSort, n.cond, i);
    } else if i < c + t {
      SortedBodies(BlockSort, n.thn, i - c);
    } else {
      SortedBodies(BlockSort, n.els, i - c - t);
    }
  }

  lemma {:induction false} SortedOperands(n: Node, i: nat)
    requires Is(ExprSort, n) && n.BinExpr? && i < Literals(n)
    ensures Is(BlockSort, NthLiteral(n, i).body)
    decreases n, 0
  {
    var (a, b) := if RightFirst(n.bop) then (n.right, n.left) else (n.left, n.right);
    if i < Literals(a) {
      SortedBodies(ExprSort, a, i);
    } else {
      SortedBodies(ExprSort, b, i - Literals(a));
    }
  }

  /** The body of a literal in a tree that the grammar produces is a block. */
  lemma {:induction false} SortedBodies(sort: Sort, n: Node, i: nat)
    requires Is(sort, n) && i < Literals(n)
    ensures Is(BlockSort, NthLiteral(n, i).body)
    decreases n, 1
  {
    match n
    case Seq(a, b) =>
      if i < Literals(a) { SortedBodies(if sort == ArgsSort then ExprSort else StmtSort, a, i); } else { SortedBodies(sort, b, i - Literals(a)); }
    case Entry(_, v, m) =>
      if i < Literals(v) { SortedBodies(ExprSort, v, i); } else { SortedBodies(sort, m, i - Literals(v)); }
    case Index(b, e) =>
      if i < Literals(b) { SortedBodies(LhsSort, b, i); } else { SortedBodies(ExprSort, e, i - Literals(b)); }
    case Field(b, _) => SortedBodies(LhsSort, b, i);
    case Assign(l, e) =>
      if i < Literals(e) { SortedBodies(ExprSort, e, i); } else { SortedBodies(LhsSort, l, i - Literals(e)); }
    case CallStmt(c) => SortedBodies(ExprSort, c, i);
    case If(_, _, _) => SortedIf(n, i);
    case While(c, b) =>
      if i < Literals(c) { SortedBodies(ExprSort, c, i); } else { SortedBodies(BlockSort, b, i - Literals(c)); }
    case Return(e) => SortedBodies(ExprSort, e, i);
    case Call(t, args) =>
      if i < Literals(args) { SortedBodies(ArgsSort, args, i); } else { SortedBodies(LhsSort, t, i - Literals(args)); }
    case Function(_, _) =>
    case Record(es) => SortedBodies(EntriesSort, es, i);
    case BinExpr(_, _, _) => SortedOperands(n, i);
    case UnExpr(_, e) => SortedBodies(ExprSort, e, i);
  }
}
