/** The linear stack-size check over a function and the functions nested in it. */
module Checker {
  import opened Runtime
  import opened Ast
  import opened Bytecode
  import opened BytecodeCompiler
  import opened EmittedCode
  import opened ResolvedPrograms
  import opened StackDiscipline
  import VM = VirtualMachine

  /** One instruction of the count; None where the checker exits.  The count may go negative. */
  function Count(i: Instr, size: int): Option<int> {
    match i
    case LoadConst(_) => Some(size + 1)
    case LoadFunc(_) => Some(size + 1)
    case LoadLocal(_) => Some(size + 1)
    case LoadGlobal(_) => Some(size + 1)
    case PushReference(_) => Some(size + 1)
    case LoadReference(_) => Some(size + 1)
    case AllocRecord => Some(size + 1)
    case Dup => Some(size + 1)
    case FieldLoad(_) => Some(size)
    case Un(_) => Some(size)
    case Goto(_) => Some(size)
    case GarbageCollect => Some(size)
    case Label(_) => Some(size)
    case Swap => Some(size)
    case Return => if size == 1 then Some(size - 1) else None
    case If(_) => if size == 1 then Some(size - 1) else None
    case StoreLocal(_) => Some(size - 1)
    case StoreGlobal(_) => Some(size - 1)
    case StoreReference(_) => Some(size - 1)
    case Bin(_) => Some(size - 1)
    case Pop => Some(size - 1)
    case IndexLoad => Some(size - 1)
    case FieldStore(_) => Some(size - 2)
    case IndexStore => Some(size - 3)
    case AllocClosure(n) => Some(size - n)
    case Call(n) => Some(size - n)
    case ThrowUninitialized(_) => None
  }

  function CountAll(code: seq<Instr>): Option<int> {
    if code == [] then Some(0) else
    var size :- CountAll(code[..|code| - 1]);
    Count(code[|code| - 1], size)
  }

  predicate Accepts(fn: Fn) {
    CountAll(fn.code) == Some(0) && forall g :: g in fn.funcs ==> Accepts(g)
  }

  lemma {:induction false} CountFails(code: seq<Instr>, k: nat)
    requires k <= |code| && CountAll(code[..k]).None?
    ensures CountAll(code).None?
    decreases |code|
  {
    if k < |code| {
      assert code[..|code| - 1][..k] == code[..k];
      CountFails(code[..|code| - 1], k);
    } else {
      assert code[..k] == code;
    }
  }

  /** checkFunction: false stands for the exit with an error message. */
  method CheckFunction(fn: Fn) returns (ok: bool)
    ensures ok == Accepts(fn)
    decreases fn
  {
    var size: int := 0;
    var k := 0;
    while k < |fn.code|
      invariant k <= |fn.code| && CountAll(fn.code[..k]) == Some(size)
    {
      assert fn.code[..k + 1][..k] == fn.code[..k];
      var next := Count(fn.code[k], size);
      if next.None? {
        CountFails(fn.code, k + 1);
        return false;
      }
      size := next.value;
      k := k + 1;
    }
    assert fn.code[..k] == fn.code;
    if size != 0 {
      return false;
    }
    var j := 0;
    while j < |fn.funcs|
      invariant j <= |fn.funcs| && forall i :: 0 <= i < j ==> Accepts(fn.funcs[i])
    {
      var inner := CheckFunction(fn.funcs[j]);
      if !inner {
        return false;
      }
      j := j + 1;
    }
    ok := true;
  }

  lemma {:induction false} FlowCounts(code: seq<Instr>)
    requires Flow(code).Some? && Resolved(code)
    ensures CountAll(code) == Some(Flow(code).value as int)
  {
    if code != [] {
      FlowCounts(code[..|code| - 1]);
    }
  }

  /** Of functions that keep the stack discipline the checker accepts exactly the resolved ones. */
  lemma {:induction false} GoodAccepted(fn: Fn)
    requires Good(fn)
    ensures Accepts(fn) <==> ResolvedAll(fn)
  {
    forall g | g in fn.funcs ensures Accepts(g) <==> ResolvedAll(g) {
      GoodAccepted(g);
    }
    CountExact(fn.code);
    if Resolved(fn.code) {
      FlowCounts(fn.code);
    }
    hide CountAll, Resolved, OneAtEnds, Balance;
  }

  /** The checker accepts a compiled program exactly when its names can be used where they stand. */
  lemma CompiledAccepted(block: Node)
    requires Is(BlockSort, block)
    ensures Accepts(CompileProgram(block)) <==> AllClear(block)
  {
    hide Good, ResolvedAll, Accepts, CompileProgram, AllClear;
    ProgramGood(block);
    GoodAccepted(CompileProgram(block));
    ProgramResolved(block);
  }

  /** What straight code pushes more than it pops. */
  function Balance(code: seq<Instr>): int {
    if code == [] then 0
    else Balance(code[..|code| - 1]) + Pushes(code[|code| - 1]) - VM.Pops(code[|code| - 1])
  }

  /** One value is there to be returned or tested wherever that is done. */
  ghost predicate OneAtEnds(code: seq<Instr>) {
    forall k :: 0 <= k < |code| && (code[k].Return? || code[k].If?) ==> Balance(code[..k]) == 1
  }

  /** The count is the balance, and it fails exactly for an unresolved name or a return or test with another balance than one. */
  lemma {:induction false} CountExact(code: seq<Instr>)
    ensures CountAll(code) == if Resolved(code) && OneAtEnds(code) then Some(Balance(code)) else None
    decreases |code|
  {
    if code != [] {
      var init, i := code[..|code| - 1], code[|code| - 1];
      CountExact(init);
      assert forall k :: 0 <= k < |init| ==> init[..k] == code[..k];
      assert Resolved(code) <==> Resolved(init) && !i.ThrowUninitialized?;
      assert OneAtEnds(code) <==> OneAtEnds(init) && (i.Return? || i.If? ==> Balance(init) == 1);
      hide OneAtEnds, Resolved;
      CountOne(i, Balance(init));
    }
  }

  lemma CountOne(i: Instr, size: int)
    ensures Count(i, size) == if i.ThrowUninitialized? || ((i.Return? || i.If?) && size != 1) then None
                              else Some(size + Pushes(i) - VM.Pops(i))
  {
  }

  /** What acceptance means, whatever the code. */
  lemma AcceptsExact(fn: Fn)
    ensures Accepts(fn) <==>
              && Resolved(fn.code) && OneAtEnds(fn.code) && Balance(fn.code) == 0
              && forall g :: g in fn.funcs ==> Accepts(g)
  {
    CountExact(fn.code);
    hide OneAtEnds, Resolved, Balance, CountAll;
  }

  /** Acceptance alone promises less: this code passes, and underflows at its first step. */
  lemma AcceptedUnderflow(x: Externals)
    ensures exists fn: Fn ::
              Accepts(fn) &&
              VM.Run(VM.Activation(x, fn, [], [], false), VM.State(0, [], [], World([], map[])), 1).Underflow?
  {
    var code := [Instr.Pop, LoadConst(0)];
    var fn := EMPTY_FN.(code := code, consts := [ConstNone]);
    assert code[..1] == [Instr.Pop] && [Instr.Pop][..0] == [];
    assert CountAll([Instr.Pop]) == Some(-1);
    assert CountAll(code) == Some(0);
    assert Accepts(fn);
    assert VM.Step(VM.Activation(x, fn, [], [], false), VM.State(0, [], [], World([], map[]))).Underflow?;
  }
}
