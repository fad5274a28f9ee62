/**
  Whole source programs.  A function is found by its path, the numbers of the literals around
  it; closures are made when their literal is evaluated, and a call evaluates the callee's
  body in a frame of its own, over the cells that the closure carries.
 */
module SourcePrograms {
  import opened Runtime
  import opened Ast
  import opened NameTables
  import opened Scanners
  import opened TreeWalker

  /** A function: its own variables, parameters first, and those that its closures carry. */
  datatype Code = Code(params: seq<string>, body: Node, locals: seq<string>, free: seq<string>)

  /** Its variables that functions in it need, and so have cells. */
  function Own(c: Code): seq<string> { CapturedBelow(c.locals, c.body) }

  /** Its closure's variables that functions in it need. */
  function Passed(c: Code): set<string> { ToSet(CapturedBelow(c.free, c.body)) }

  /** At the top level there are only globals. */
  function Main(block: Node): Code { Code([], block, [], []) }

  function Nested(c: Code, i: nat): Code
    requires i < Literals(c.body)
  {
    var n := NthLiteral(c.body, i);
    Code(n.params, n.body, InsertAll(InsertAll([], n.params), ScanLocals(n.body, ScanGlobals(n.body, []), [])),
         Needed(ToSet(Own(c)), n.body) + Needed(Passed(c), n.body))
  }

  function CodeAt(main: Code, path: FnPath): Option<Code>
    decreases |path|
  {
    if path == [] then Some(main) else
    var outer :- CodeAt(main, path[..|path| - 1]);
    var i := path[|path| - 1];
    if 0 <= i < Literals(outer.body) then Some(Nested(outer, i)) else None
  }

  /** The parameters of the functions in `c` are distinct, and new among the variables that closures carry. */
  ghost predicate NewParameters(c: Code) {
    forall i :: 0 <= i < Literals(c.body) ==>
      var params := NthLiteral(c.body, i).params;
      Distinct(params) && forall x :: x in params ==> x !in Own(c) && x !in Passed(c)
  }

  ghost predicate NewParametersAll(main: Code) {
    forall path :: CodeAt(main, path).Some? ==> NewParameters(CodeAt(main, path).value)
  }

  // ----- frames -----

  /** The argument of a parameter; other variables start as None. */
  function Initial(params: seq<string>, args: seq<Value>, x: string): Value
    requires |args| == |params|
  {
    if x in params then args[IndexOf(params, x)] else NoneV
  }

  function OpenFrame(c: Code, self: FnPath, cells: seq<nat>, args: seq<Value>, w: World): Frame
    requires |c.free| <= |cells| && |args| == |c.params|
  {
    Frame(map x | x in c.locals && x !in Own(c) && x !in c.free :: Initial(c.params, args, x),
          map x | x in Own(c) :: |w.objs| + IndexOf(Own(c), x),
          map x | x in c.free :: cells[IndexOf(c.free, x)],
          ToSet(ScanGlobals(c.body, [])), Passed(c), self)
  }

  /** The world with a frame's new cells, which hold the captured parameters' arguments. */
  function OpenWorld(own: seq<string>, params: seq<string>, args: seq<Value>, w: World): World
    requires |args| == |params|
  {
    w.(objs := w.objs + seq(|own|, k requires 0 <= k < |own| => CellObj(Initial(params, args, own[k]))))
  }

  // ----- calls -----

  /** What is outside the language: the natives, and the texts of objects. */
  datatype Outside = Outside(
    native: (World, Value, seq<Value>) -> Option<(Value, World)>,
    text: (World, nat) -> string)

  /** The function and the cells of a closure. */
  function ClosureAt(w: World, v: Value): Option<(FnPath, seq<nat>)> {
    if v.PtrV? && v.addr < |w.objs| && w.objs[v.addr].ClosureObj?
    then Some((w.objs[v.addr].fn, w.objs[v.addr].cells))
    else None
  }

  /** The right number of arguments, and a cell for every free variable. */
  predicate Fits(c: Code, cells: seq<nat>, args: seq<Value>) { |args| == |c.params| && |c.free| <= |cells| }

  function SourceBody(c: Code, self: FnPath, cells: seq<nat>, args: seq<Value>, w: World, x: Externals, fuel: nat): Result
    requires Fits(c, cells, args)
  {
    RunBody(x, OpenFrame(c, self, cells, args, w), OpenWorld(Own(c), c.params, args, w), c.body, fuel)
  }

  function SourceAnswer(r: Result): Option<(Value, World)> {
    if r.Returned? then Some((r.value, r.world)) else None
  }

  /** Answers that calls of source functions give. */
  ghost function SourceExternals(main: Code, o: Outside, k: nat): Externals
    decreases k, 1
  {
    Externals((w, v, args) => SourceCall(main, o, k, w, v, args), o.text)
  }

  /** A call evaluates the callee's body, nested at most `k` calls deep and with `k` as its fuel. */
  ghost function SourceCall(main: Code, o: Outside, k: nat, w: World, v: Value, args: seq<Value>): Option<(Value, World)>
    decreases k, 0
  {
    if k == 0 then None else
    match ClosureAt(w, v)
    case None => o.native(w, v, args)
    case Some((path, cells)) =>
      var c :- CodeAt(main, path);
      if path == [] || !Fits(c, cells, args) then None
      else SourceAnswer(SourceBody(c, path, cells, args, w, SourceExternals(main, o, k - 1), k))
  }

  // ----- programs -----

  const TOP_FRAME: Frame := Frame(map[], map[], map[], {}, {}, [])

  /** A program starts with the natives in its globals. */
  function WithNatives(names: seq<string>, w: World): World
    requires |names| <= 3
    decreases |names|
  {
    if names == [] then w
    else WithNatives(names[1..], World(w.objs + [NativeObj(3 - |names|)], w.globals[names[0] := PtrV(|w.objs|)]))
  }

  const NATIVES := ["print", "input", "intcast"]

  /** The statements of a program, calls at most `k` deep. */
  ghost function RunProgram(block: Node, o: Outside, k: nat, w: World): Result {
    Exec(SourceExternals(Main(block), o, k), TOP_FRAME, WithNatives(NATIVES, w), block, 0, k)
  }
}
