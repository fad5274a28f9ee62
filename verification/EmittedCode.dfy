/** Pieces of compiled code inside a finished function, and the machine's runs over them. */
module EmittedCode {
  import opened Runtime
  import opened Bytecode
  import opened BytecodeCompiler
  import VM = VirtualMachine

  /** No name is left to be looked up in vain. */
  predicate Resolved(code: seq<Instr>) { forall k :: 0 <= k < |code| ==> !code[k].ThrowUninitialized? }

  /** In the function and in those nested in it. */
  predicate ResolvedAll(fn: Fn) { Resolved(fn.code) && forall g :: g in fn.funcs ==> ResolvedAll(g) }

  /** The final function contains everything emitted so far. */
  ghost predicate Within(s: Scope, fn: Fn) {
    && s.fn.code <= fn.code && s.fn.consts <= fn.consts && s.fn.names <= fn.names && s.fn.funcs <= fn.funcs
    && forall l :: l in s.fn.labels ==> l in fn.labels && fn.labels[l] == s.fn.labels[l]
  }

  lemma WithinGrows(s: Scope, r: Scope, fn: Fn)
    requires Grows(s, r) && Within(r, fn)
    ensures Within(s, fn)
  {
  }

  lemma StepEmitted(a: VM.Activation, s: Scope, i: Instr, st: VM.State)
    requires Ok(s) && st.ip == |s.fn.code| && !i.Label? && Within(Emit(s, i), a.fn)
    requires VM.Pops(i) <= |st.stack|
    ensures VM.Run(a, st, 1) == VM.Execute(a, i, st)
  {
    hide VM.Execute;
    assert a.fn.code[..|s.fn.code| + 1][|s.fn.code|] == i;
    var o := VM.Step(a, st);
    if o.Running? {
      assert VM.Run(a, o.state, 0) == o;
    }
  }

  lemma Join(a: VM.Activation, s: VM.State, n: nat, t: VM.State, m: nat)
    requires VM.Run(a, s, n) == VM.Running(t)
    ensures VM.Run(a, s, n + m) == VM.Run(a, t, m)
  {
    VM.RunCompose(a, s, n, m);
  }

  /** The machine behind `r`, having pushed `push`. */
  function After(st: VM.State, r: Scope, push: seq<Value>, w: World): VM.State {
    VM.State(|r.fn.code|, st.stack + push, st.locals, w)
  }
}
