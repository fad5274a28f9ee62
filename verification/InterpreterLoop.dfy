/** The bytecode machine's loop: an instruction pointer and a mutable operand stack. */
module InterpreterLoop {
  import opened Runtime
  import opened Bytecode
  import VM = VirtualMachine

  datatype Signal = Continue | Finish(result: Value) | Throw | InsufficientStack

  class FunctionRun {
    const a: VM.Activation
    var ip: nat
    var stack: seq<Value>
    var locals: seq<Value>
    var world: World

    function State(): VM.State
      reads this
    {
      VM.State(ip, stack, locals, world)
    }

    constructor (a: VM.Activation, locals: seq<Value>, world: World)
      ensures this.a == a && State() == VM.State(0, [], locals, world)
    {
      this.a := a;
      ip, stack := 0, [];
      this.locals, this.world := locals, world;
    }

    /** What a signal and the state it leaves say about the machine. */
    predicate Agrees(sig: Signal, o: VM.Outcome)
      reads this
    {
      match o
      case Running(s) => sig.Continue? && State() == s
      case Done(v, l, w) => sig == Finish(v) && locals == l && world == w
      case Thrown => sig.Throw?
      case Underflow => sig.InsufficientStack?
    }

    method SafePop() returns (v: Value)
      requires stack != []
      modifies this`stack
      ensures v == old(stack)[|old(stack)| - 1] && stack == old(stack)[..|old(stack)| - 1]
    {
      v := stack[|stack| - 1];
      stack := stack[..|stack| - 1];
    }

    method Push(v: Value)
      modifies this`stack
      ensures stack == old(stack) + [v]
    {
      stack := stack + [v];
    }

    /** A new object, and a pointer to it on the stack. */
    method Allocate(o: Object)
      modifies this`stack, this`world
      ensures world == old(world).(objs := old(world).objs + [o]) && stack == old(stack) + [PtrV(|old(world).objs|)]
    {
      var (w, addr) := Alloc(world, o);
      world := w;
      Push(PtrV(addr));
    }

    method Load(i: Instr) returns (sig: Signal)
      requires i.LoadConst? || i.LoadLocal? || i.LoadGlobal? || i.PushReference? || i.LoadReference?
      modifies this
      ensures Agrees(sig, VM.Execute(a, i, old(State())))
    {
      var v: Option<Value> := None;
      match i {
        case LoadConst(k) => if k < |a.fn.consts| { v := Some(ConstantValue(a.fn.consts[k])); }
        case LoadLocal(k) => if k < |locals| { v := Some(locals[k]); }
        case LoadGlobal(k) =>
          if k < |a.fn.names| && a.fn.names[k] in world.globals { v := Some(world.globals[a.fn.names[k]]); }
        case PushReference(k) => if k < |a.refs| { v := Some(PtrV(a.refs[k])); }
        case LoadReference(k) => if k < |a.refs| { v := CellRead(world, a.refs[k]); }
      }
      if v.None? {
        return Throw;
      }
      Push(v.value);
      ip := ip + 1;
      return Continue;
    }

    method StoreVariable(i: Instr) returns (sig: Signal)
      requires (i.StoreLocal? || i.StoreGlobal? || i.StoreReference?) && stack != []
      modifies this
      ensures Agrees(sig, VM.Execute(a, i, old(State())))
    {
      var v := SafePop();
      match i {
        case StoreLocal(k) =>
          if k >= |locals| { return Throw; }
          locals := locals[k := v];
        case StoreGlobal(k) =>
          if k >= |a.fn.names| { return Throw; }
          world := world.(globals := world.globals[a.fn.names[k] := v]);
        case StoreReference(k) =>
          if k >= |a.refs| { return Throw; }
          var w := CellWrite(world, a.refs[k], v);
          if w.None? { return Throw; }
          world := w.value;
      }
      ip := ip + 1;
      return Continue;
    }

    method GetField(record: Value, key: string) returns (sig: Signal)
      modifies this
      ensures var r := RecordGet(old(world), record, key);
              if r.None? then sig.Throw? else sig.Continue? && State() == VM.State(old(ip) + 1, old(stack) + [r.value.0], old(locals), r.value.1)
    {
      var r := RecordGet(world, record, key);
      if r.None? {
        return Throw;
      }
      world := r.value.1;
      Push(r.value.0);
      ip := ip + 1;
      return Continue;
    }

    method SetField(record: Value, key: string, v: Value) returns (sig: Signal)
      modifies this
      ensures var w := RecordInsert(old(world), record, key, v);
              if w.None? then sig.Throw? else sig.Continue? && State() == VM.State(old(ip) + 1, old(stack), old(locals), w.value)
    {
      var w := RecordInsert(world, record, key, v);
      if w.None? {
        return Throw;
      }
      world := w.value;
      ip := ip + 1;
      return Continue;
    }

    method Record(i: Instr) returns (sig: Signal)
      requires (i.AllocRecord? || i.FieldLoad? || i.FieldStore? || i.IndexLoad? || i.IndexStore?) && VM.Pops(i) <= |stack|
      modifies this
      ensures Agrees(sig, VM.Execute(a, i, old(State())))
    {
      hide RecordGet, RecordInsert, Text;
      match i {
        case AllocRecord =>
          Allocate(RecordObj(map[]));
          ip := ip + 1;
          return Continue;
        case FieldLoad(k) =>
          var record := SafePop();
          if k >= |a.fn.names| { return Throw; }
          sig := GetField(record, a.fn.names[k]);
        case FieldStore(k) =>
          var v := SafePop();
          var record := SafePop();
          if k >= |a.fn.names| { return Throw; }
          sig := SetField(record, a.fn.names[k], v);
        case IndexLoad =>
          var index := SafePop();
          var record := SafePop();
          sig := GetField(record, Text(a.x, world, index));
        case IndexStore =>
          var v := SafePop();
          var index := SafePop();
          var record := SafePop();
          sig := SetField(record, Text(a.x, world, index), v);
      }
    }

    method Operator(i: Instr) returns (sig: Signal)
      requires (i.Bin? || i.Un?) && VM.Pops(i) <= |stack|
      modifies this
      ensures Agrees(sig, VM.Execute(a, i, old(State())))
    {
      hide VM.Operate, Unary;
      var right := SafePop();
      var v: Option<Value>;
      if i.Bin? {
        var left := SafePop();
        v := VM.Operate(a, world, i.bop, left, right);
      } else {
        v := Unary(i.uop, right);
      }
      if v.None? {
        return Throw;
      }
      Push(v.value);
      ip := ip + 1;
      return Continue;
    }

    method Function(i: Instr) returns (sig: Signal)
      requires (i.LoadFunc? || i.AllocClosure?) && VM.Pops(i) <= |stack|
      modifies this
      ensures Agrees(sig, VM.Execute(a, i, old(State())))
    {
      if i.LoadFunc? {
        var o := VM.FunctionObject(a, i.fn);
        if o.None? { return Throw; }
        Allocate(o.value);
      } else {
        var bare := SafePop();
        var fn := VM.BareAt(world, bare);
        var cells := PopCells(i.count);
        if fn.None? || cells.None? { return Throw; }
        Allocate(ClosureObj(fn.value, cells.value));
      }
      ip := ip + 1;
      return Continue;
    }

    /** The cells of a closure are popped one by one. */
    method PopCells(n: nat) returns (cells: Option<seq<nat>>)
      requires n <= |stack|
      modifies this`stack
      ensures cells == VM.PopCells(world, old(stack), n)
      ensures stack == old(stack)[..|old(stack)| - n]
      decreases n
    {
      if n == 0 {
        return Some([]);
      }
      var top := SafePop();
      var rest := PopCells(n - 1);
      if top.PtrV? && top.addr < |world.objs| && world.objs[top.addr].CellObj? && rest.Some? {
        return Some([top.addr] + rest.value);
      }
      return None;
    }

    method Call(n: nat) returns (sig: Signal)
      requires 1 + n <= |stack|
      modifies this
      ensures Agrees(sig, VM.Execute(a, Instr.Call(n), old(State())))
    {
      var callee := SafePop();
      var args := stack[|stack| - n..];
      stack := stack[..|stack| - n];
      var r := a.x.call(world, callee, args);
      if r.None? {
        return Throw;
      }
      world := r.value.1;
      Push(r.value.0);
      ip := ip + 1;
      return Continue;
    }

    method Control(i: Instr) returns (sig: Signal)
      requires (i.Return? || i.Goto? || i.If? || i.GarbageCollect? || i.Label? || i.ThrowUninitialized?)
      requires VM.Pops(i) <= |stack|
      modifies this
      ensures Agrees(sig, VM.Execute(a, i, old(State())))
    {
      match i {
        case Return => return Finish(stack[|stack| - 1]);
        case Goto(l) =>
          ip := VM.LabelTarget(a.fn, l);
          return Continue;
        case If(l) =>
          var c := SafePop();
          if !c.BoolV? { return Throw; }
          ip := if c.b then VM.LabelTarget(a.fn, l) else ip + 1;
          return Continue;
        case GarbageCollect =>
        case Label(_) =>
        case ThrowUninitialized(_) => return Throw;
      }
      assert stack == stack[..|stack|] + [];
      ip := ip + 1;
      return Continue;
    }

    method Shuffle(i: Instr) returns (sig: Signal)
      requires (i.Dup? || i.Swap? || i.Pop?) && VM.Pops(i) <= |stack|
      modifies this
      ensures Agrees(sig, VM.Execute(a, i, old(State())))
    {
      match i {
        case Dup => Push(stack[|stack| - 1]);
        case Swap =>
          var top := SafePop();
          var below := SafePop();
          Push(top);
          Push(below);
        case Pop => var v := SafePop();
      }
      ip := ip + 1;
      return Continue;
    }

    /** One turn of the loop. */
    method Step() returns (sig: Signal)
      modifies this
      ensures Agrees(sig, VM.Step(a, old(State())))
    {
      if ip >= |a.fn.code| {
        return Finish(NoneV);
      }
      var i := a.fn.code[ip];
      if |stack| < VM.Pops(i) {
        return InsufficientStack;
      }
      hide VM.Execute;
      if i.LoadConst? || i.LoadLocal? || i.LoadGlobal? || i.PushReference? || i.LoadReference? { sig := Load(i); }
      else if i.StoreLocal? || i.StoreGlobal? || i.StoreReference? { sig := StoreVariable(i); }
      else if i.AllocRecord? || i.FieldLoad? || i.FieldStore? || i.IndexLoad? || i.IndexStore? { sig := Record(i); }
      else if i.Bin? || i.Un? { sig := Operator(i); }
      else if i.LoadFunc? || i.AllocClosure? { sig := Function(i); }
      else if i.Call? { sig := Call(i.count); }
      else if i.Dup? || i.Swap? || i.Pop? { sig := Shuffle(i); }
      else { sig := Control(i); }
    }

    /** At most `n` turns of the loop. */
    method Run(n: nat) returns (sig: Signal)
      modifies this
      ensures Agrees(sig, VM.Run(a, old(State()), n))
    {
      hide VM.Step;
      var k := n;
      sig := Continue;
      while k > 0 && sig.Continue?
        invariant 0 <= k <= n
        invariant if sig.Continue? then VM.Run(a, old(State()), n) == VM.Run(a, State(), k)
                  else Agrees(sig, VM.Run(a, old(State()), n))
        decreases k
      {
        sig := Step();
        k := k - 1;
      }
    }
  }
}
