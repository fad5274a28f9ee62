/** Copy forwarding preserves every run: both codes end alike, or neither ends. */
module CopyRuns {
  import opened Runtime
  import opened Ir
  import opened CopyForwarding

  ghost predicate TempsBelow(code: seq<Ins>, base: nat) {
    forall i :: i in code ==> forall t :: t in Uses(i) || t in Defs(i) ==> t < base
  }

  /** The same temps, apart from fresh ones. */
  ghost predicate SameTemps(base: nat, a: map<Place, Value>, b: map<Place, Value>) {
    forall t: nat :: t < base ==> (Slot(t) in a <==> Slot(t) in b) && (Slot(t) in a ==> a[Slot(t)] == b[Slot(t)])
  }

  /** From here on `q` is the rewriting of `p`. */
  ghost predicate Rewrites(code: seq<Ins>, k: nat, new_: seq<Ins>, j: nat, base: nat) {
    k <= |code| && j <= |new_| && exists t: nat :: t >= base && new_[j..] == Forward(code[k..], t)
  }

  /** Corresponding points outside a rewritten pair. */
  ghost predicate Corresponds(p: Program, q: Program, s: State, r: State, base: nat) {
    Rewrites(p.code, s.pc, q.code, r.pc, base) && s.rest == r.rest && SameTemps(base, s.temps, r.temps)
  }

  ghost predicate Setting(p: Program, q: Program, base: nat) {
    OwnSlots(p) && OwnSlots(q) && p.c == q.c && TempsBelow(p.code, base) && q.code == Forward(p.code, base)
  }

  // ----- labels -----

  /** A label is found at corresponding points. */
  lemma {:induction false} LabelCorresponds(code: seq<Ins>, temps: nat, l: nat)
    ensures Rewrites(code, FindLabel(code, l), Forward(code, temps), FindLabel(Forward(code, temps), l), temps)
    decreases |code|
  {
    hide Rewrites, Forward, FindLabel, Forwardable;
    if code == [] || code[0] == OutputLabel(l) {
      LabelHere(code, temps, l);
    } else if StartsPair(code) {
      LabelCorresponds(code[2..], temps + 2, l);
      LabelBehindPair(code, temps, l);
    } else {
      LabelCorresponds(code[1..], temps, l);
      LabelBehind(code, temps, l);
    }
  }

  lemma LabelHere(code: seq<Ins>, temps: nat, l: nat)
    requires code == [] || code[0] == OutputLabel(l)
    ensures Rewrites(code, FindLabel(code, l), Forward(code, temps), FindLabel(Forward(code, temps), l), temps)
  {
    var r := Forward(code, temps);
    assert code[0..] == code && r[0..] == r;
  }

  lemma LabelBehindPair(code: seq<Ins>, temps: nat, l: nat)
    requires StartsPair(code)
    requires var (c, r) := (code[2..], Forward(code[2..], temps + 2)); Rewrites(c, FindLabel(c, l), r, FindLabel(r, l), temps + 2)
    ensures Rewrites(code, FindLabel(code, l), Forward(code, temps), FindLabel(Forward(code, temps), l), temps)
  {
    var r := Forward(code, temps);
    assert r == Forwarded(code[0], code[1], temps) + Forward(code[2..], temps + 2);
    assert r[3..] == Forward(code[2..], temps + 2);
    hide Forward, Rewrites;
    SkipThree(r, l);
    SkipTwo(code, l);
    hide FindLabel;
    MoveOn(code, 2, r, 3, FindLabel(code[2..], l), FindLabel(r[3..], l), temps, temps + 2);
  }

  lemma LabelBehind(code: seq<Ins>, temps: nat, l: nat)
    requires code != [] && code[0] != OutputLabel(l) && !StartsPair(code)
    requires var (c, r) := (code[1..], Forward(code[1..], temps)); Rewrites(c, FindLabel(c, l), r, FindLabel(r, l), temps)
    ensures Rewrites(code, FindLabel(code, l), Forward(code, temps), FindLabel(Forward(code, temps), l), temps)
  {
    var r := Forward(code, temps);
    assert r == [code[0]] + Forward(code[1..], temps);
    assert r[1..] == Forward(code[1..], temps);
    assert FindLabel(code, l) == 1 + FindLabel(code[1..], l) && FindLabel(r, l) == 1 + FindLabel(r[1..], l);
    hide Forward, Rewrites, FindLabel;
    MoveOn(code, 1, r, 1, FindLabel(code[1..], l), FindLabel(r[1..], l), temps, temps);
  }

  lemma SkipTwo(code: seq<Ins>, l: nat)
    requires |code| >= 2 && code[0] != OutputLabel(l) && code[1] != OutputLabel(l)
    ensures FindLabel(code, l) == 2 + FindLabel(code[2..], l)
  {
    assert code[1..][1..] == code[2..];
  }

  lemma SkipThree(code: seq<Ins>, l: nat)
    requires |code| >= 3 && code[0] != OutputLabel(l) && code[1] != OutputLabel(l) && code[2] != OutputLabel(l)
    ensures FindLabel(code, l) == 3 + FindLabel(code[3..], l)
  {
    SkipTwo(code, l);
    assert code[2..][1..] == code[3..];
  }

  lemma MoveOn(code: seq<Ins>, a: nat, new_: seq<Ins>, b: nat, k: nat, j: nat, base: nat, more: nat)
    requires a <= |code| && b <= |new_| && Rewrites(code[a..], k, new_[b..], j, more) && base <= more
    ensures Rewrites(code, a + k, new_, b + j, base)
  {
    assert code[a..][k..] == code[a + k..] && new_[b..][j..] == new_[b + j..];
  }

  // ----- one instruction -----

  lemma SameRead(p: Program, q: Program, s: State, r: State, base: nat, ts: seq<nat>)
    requires OwnSlots(p) && OwnSlots(q) && SameTemps(base, s.temps, r.temps) && forall t :: t in ts ==> t < base
    ensures CanRead(p, s, ts) <==> CanRead(q, r, ts)
    ensures CanRead(p, s, ts) ==> Values(p, s, ts) == Values(q, r, ts)
  {
  }

  lemma SameWrite(p: Program, q: Program, a: map<Place, Value>, b: map<Place, Value>, base: nat, ds: seq<nat>, vs: seq<Value>)
    requires OwnSlots(p) && OwnSlots(q) && SameTemps(base, a, b) && |ds| == |vs| <= 2
    ensures SameTemps(base, WriteTemps(p, a, ds, vs), WriteTemps(q, b, ds, vs))
  {
  }

  /** The first instructions of corresponding code, when no pair starts there. */
  lemma SingleAhead(p: Program, q: Program, s: State, r: State, base: nat)
    requires Corresponds(p, q, s, r, base) && s.pc < |p.code| && !StartsPair(p.code[s.pc..])
    ensures r.pc < |q.code| && q.code[r.pc] == p.code[s.pc]
    ensures Rewrites(p.code, s.pc + 1, q.code, r.pc + 1, base)
  {
    var t: nat :| t >= base && q.code[r.pc..] == Forward(p.code[s.pc..], t);
    var rest := p.code[s.pc..];
    assert Forward(rest, t) == [rest[0]] + Forward(rest[1..], t);
    assert q.code[r.pc] == q.code[r.pc..][0];
    assert q.code[r.pc + 1..] == q.code[r.pc..][1..];
    assert rest[1..] == p.code[s.pc + 1..];
  }

  lemma SingleStep(p: Program, q: Program, s: State, r: State, base: nat)
    requires Setting(p, q, base) && Corresponds(p, q, s, r, base)
    requires s.pc < |p.code| && !StartsPair(p.code[s.pc..])
    ensures var o, l := Step(p, s), Step(q, r);
            if o.Running? then l.Running? && Corresponds(p, q, o.state, l.state, base) else l == o
  {
    hide Perform, Rewrites, SameTemps, Uses, Defs, Step, FindLabel, WriteTemps, CanRead, Values, Forward, StartsPair;
    SingleAhead(p, q, s, r, base);
    var i := p.code[s.pc];
    assert i in p.code;
    SameRead(p, q, s, r, base, Uses(i));
    if CanRead(p, s, Uses(i)) {
      var vals := Values(p, s, Uses(i));
      StepIs(p, s);
      StepIs(q, r);
      match Perform(p.c, i, vals, s.rest)
      case Go(vs, rest) =>
        DefsMatch(p.c, i, vals, s.rest);
        SameWrite(p, q, s.temps, r.temps, base, Defs(i), vs);
      case JumpTo(l) => LabelCorresponds(p.code, base, l);
      case _ =>
    } else {
      CannotRead(p, s);
      CannotRead(q, r);
    }
  }

  lemma CannotRead(p: Program, s: State)
    requires s.pc < |p.code| && !CanRead(p, s, Uses(p.code[s.pc]))
    ensures Step(p, s) == Stuck
  {
  }

  // ----- a pair -----

  lemma PairAhead(p: Program, q: Program, s: State, r: State, base: nat) returns (f: nat)
    requires Corresponds(p, q, s, r, base) && s.pc < |p.code| && StartsPair(p.code[s.pc..])
    ensures s.pc + 1 < |p.code| && Forwardable(p.code[s.pc], p.code[s.pc + 1]) && f >= base
    ensures r.pc + 2 < |q.code| && q.code[r.pc..r.pc + 3] == Forwarded(p.code[s.pc], p.code[s.pc + 1], f)
    ensures Rewrites(p.code, s.pc + 2, q.code, r.pc + 3, base)
  {
    var rest := p.code[s.pc..];
    f :| f >= base && q.code[r.pc..] == Forward(rest, f);
    assert Forward(rest, f) == Forwarded(rest[0], rest[1], f) + Forward(rest[2..], f + 2);
    assert q.code[r.pc..r.pc + 3] == q.code[r.pc..][..3];
    assert q.code[r.pc + 3..] == q.code[r.pc..][3..];
    assert rest[2..] == p.code[s.pc + 2..];
  }

  /** After a store the variable reads as what was stored. */
  lemma StoreThenLoad(c: Context, store: Ins, load: Ins, v: Value, r: Rest)
    requires Forwardable(store, load) && Perform(c, store, [v], r).Go?
    ensures var r1 := Perform(c, store, [v], r).rest;
            Perform(c, store, [v], r) == Go([], r1) && Perform(c, load, [], r1) == Go([v], r1)
  {
  }

  lemma ReadSlot(p: Program, s: State, t: nat)
    requires OwnSlots(p)
    ensures CanRead(p, s, [t]) <==> Slot(t) in s.temps
    ensures Slot(t) in s.temps ==> Values(p, s, [t]) == [s.temps[Slot(t)]]
  {
    assert t in [t];
  }

  /** The old pair: two steps, or the store's failure. */
  lemma OldPair(p: Program, s: State)
    requires OwnSlots(p) && s.pc + 1 < |p.code| && Forwardable(p.code[s.pc], p.code[s.pc + 1])
    ensures var store, load := p.code[s.pc], p.code[s.pc + 1];
            if Slot(store.value) !in s.temps then Step(p, s) == Stuck else
            var v := s.temps[Slot(store.value)];
            var e := Perform(p.c, store, [v], s.rest);
            if e.Fail? then Step(p, s) == Failed else
            && e == Go([], e.rest) && Step(p, s) == Running(State(s.pc + 1, s.temps, e.rest))
            && Step(p, Step(p, s).state) == Running(State(s.pc + 2, s.temps[Slot(load.dest) := v], e.rest))
  {
    var store, load := p.code[s.pc], p.code[s.pc + 1];
    ReadSlot(p, s, store.value);
    if Slot(store.value) in s.temps {
      var v := s.temps[Slot(store.value)];
      StoreEffect(p.c, store, v, s.rest);
      if Perform(p.c, store, [v], s.rest).Go? {
        StoreThenLoad(p.c, store, load, v, s.rest);
        hide Perform;
      }
    }
  }

  lemma StoreEffect(c: Context, store: Ins, v: Value, r: Rest)
    requires store.Store?
    ensures Perform(c, store, [v], r).Go? || Perform(c, store, [v], r).Fail?
  {
  }

  /** The fork puts the stored value into both fresh temps. */
  lemma ForkStep(q: Program, r: State, from: nat, f: nat)
    requires OwnSlots(q) && r.pc < |q.code| && q.code[r.pc] == Fork(from, f, f + 1)
    ensures if Slot(from) !in r.temps then Step(q, r) == Stuck else
            var v := r.temps[Slot(from)];
            Step(q, r) == Running(State(r.pc + 1, r.temps[Slot(f) := v][Slot(f + 1) := v], r.rest))
  {
    ReadSlot(q, r, from);
  }

  lemma NewStore(q: Program, r: State, dst: Dest, f: nat, v: Value)
    requires OwnSlots(q) && r.pc < |q.code| && q.code[r.pc] == Store(dst, f) && Slot(f) in r.temps && r.temps[Slot(f)] == v
    ensures var e := Perform(q.c, Store(dst, f), [v], r.rest);
            && (e.Fail? ==> Step(q, r) == Failed)
            && (e.Go? && e.defs == [] ==> Step(q, r) == Running(State(r.pc + 1, r.temps, e.rest)))
  {
    ReadSlot(q, r, f);
    hide Perform;
  }

  lemma NewLoad(q: Program, r: State, d: nat, f: nat, v: Value)
    requires OwnSlots(q) && r.pc < |q.code| && q.code[r.pc] == Assign(d, TempSrc(f)) && Slot(f) in r.temps && r.temps[Slot(f)] == v
    ensures Step(q, r) == Running(State(r.pc + 1, r.temps[Slot(d) := v], r.rest))
  {
    ReadSlot(q, r, f);
  }

  /** The new triple does what the old pair does. */
  lemma NewTriple(q: Program, r: State, store: Ins, load: Ins, f: nat)
    requires OwnSlots(q) && Forwardable(store, load)
    requires r.pc + 2 < |q.code| && q.code[r.pc..r.pc + 3] == Forwarded(store, load, f)
    ensures if Slot(store.value) !in r.temps then Run(q, r, 2) == Stuck else
            var v := r.temps[Slot(store.value)];
            var e := Perform(q.c, store, [v], r.rest);
            if e.Fail? then Run(q, r, 2) == Failed else
            e.Go? && Run(q, r, 3) == Running(State(r.pc + 3, r.temps[Slot(f) := v][Slot(f + 1) := v][Slot(load.dest) := v], e.rest))
  {
    var code := q.code[r.pc..r.pc + 3];
    assert q.code[r.pc] == code[0] && q.code[r.pc + 1] == code[1] && q.code[r.pc + 2] == code[2];
    ForkStep(q, r, store.value, f);
    if Slot(store.value) in r.temps {
      var v := r.temps[Slot(store.value)];
      var temps := r.temps[Slot(f) := v][Slot(f + 1) := v];
      var r1 := State(r.pc + 1, temps, r.rest);
      StoreEffect(q.c, store, v, r.rest);
      NewStore(q, r1, store.dst, f, v);
      SameEffect(q.c, store, f, v, r.rest);
      var e := Perform(q.c, store, [v], r.rest);
      if e.Go? {
        StoreThenLoad(q.c, store, load, v, r.rest);
        var r2 := State(r.pc + 2, temps, e.rest);
        NewLoad(q, r2, load.dest, f + 1, v);
        hide Perform, Step;
        RunThree(q, r, r1, r2, State(r.pc + 3, temps[Slot(load.dest) := v], e.rest));
      } else {
        hide Perform, Step;
        assert Run(q, r1, 1) == Failed;
      }
    }
  }

  lemma RunThree(q: Program, r: State, r1: State, r2: State, r3: State)
    requires Step(q, r) == Running(r1) && Step(q, r1) == Running(r2) && Step(q, r2) == Running(r3)
    ensures Run(q, r, 3) == Running(r3)
  {
    hide Step;
    assert Run(q, r3, 0) == Running(r3);
    assert Run(q, r2, 1) == Running(r3);
    assert Run(q, r1, 2) == Running(r3);
  }

  /** A store does not depend on which temp holds the value. */
  lemma SameEffect(c: Context, store: Ins, f: nat, v: Value, r: Rest)
    requires store.Store?
    ensures Perform(c, Store(store.dst, f), [v], r) == Perform(c, store, [v], r)
  {
  }

  lemma PairStep(p: Program, q: Program, s: State, r: State, base: nat)
    requires Setting(p, q, base) && Corresponds(p, q, s, r, base)
    requires s.pc < |p.code| && StartsPair(p.code[s.pc..])
    ensures var o := Step(p, s);
            if o.Running? then
              && Step(p, o.state).Running? && Run(q, r, 3).Running?
              && Corresponds(p, q, Step(p, o.state).state, Run(q, r, 3).state, base)
            else Run(q, r, 2) == o
  {
    var f := PairAhead(p, q, s, r, base);
    var store, load := p.code[s.pc], p.code[s.pc + 1];
    assert store in p.code && load in p.code;
    assert store.value in Uses(store) && load.dest in Defs(load);
    OldPair(p, s);
    NewTriple(q, r, store, load, f);
    hide Step, Run, Perform, Forward, StartsPair, Rewrites, Uses, Defs, Forwardable, Forwarded;
    assert store.value < base;
    if Slot(store.value) in s.temps {
      FreshWrites(s.temps, r.temps, base, f, load.dest, s.temps[Slot(store.value)]);
    }
  }

  lemma FreshWrites(a: map<Place, Value>, b: map<Place, Value>, base: nat, f: nat, d: nat, v: Value)
    requires SameTemps(base, a, b) && f >= base
    ensures SameTemps(base, a[Slot(d) := v], b[Slot(f) := v][Slot(f + 1) := v][Slot(d) := v])
  {
  }

  // ----- whole runs -----

  /** However far the one code runs, the other runs at least as far, and they stop alike. */
  lemma {:induction false} CopyRun(p: Program, q: Program, s: State, r: State, base: nat, n: nat) returns (m: nat)
    requires Setting(p, q, base) && Corresponds(p, q, s, r, base)
    ensures m >= n
    ensures if Run(p, s, n).Running? then Run(q, r, m).Running? else Run(q, r, m) == Run(p, s, n)
    decreases n
  {
    hide Step, Corresponds, Setting;
    m := n;
    if n == 0 { return; }
    AtEnd(p, q, s, r, base);
    if s.pc < |p.code| && StartsPair(p.code[s.pc..]) {
      PairStep(p, q, s, r, base);
      var o := Step(p, s);
      if !o.Running? {
        Stays(q, r, 2, n + 2);
        m := n + 2;
      } else if n == 1 {
        m := 3;
        assert Run(p, o.state, 0).Running?;
      } else {
        m := CopyRun(p, q, Step(p, o.state).state, Run(q, r, 3).state, base, n - 2);
        assert Run(p, s, n) == Run(p, o.state, n - 1) == Run(p, Step(p, o.state).state, n - 2);
        RunCompose(q, r, 3, m);
        m := m + 3;
      }
    } else if s.pc < |p.code| {
      SingleStep(p, q, s, r, base);
      if Step(p, s).Running? {
        m := CopyRun(p, q, Step(p, s).state, Step(q, r).state, base, n - 1);
        m := m + 1;
      }
    }
  }

  lemma AtEnd(p: Program, q: Program, s: State, r: State, base: nat)
    requires Corresponds(p, q, s, r, base)
    ensures s.pc >= |p.code| ==> Step(p, s) == Failed == Step(q, r)
  {
    if s.pc == |p.code| {
      var t: nat :| t >= base && q.code[r.pc..] == Forward(p.code[s.pc..], t);
    }
  }

  /** A run that has stopped stays as it is. */
  lemma {:induction false} Stays(p: Program, s: State, n: nat, m: nat)
    requires !Run(p, s, n).Running? && n <= m
    ensures Run(p, s, m) == Run(p, s, n)
    decreases n
  {
    hide Step;
    if Step(p, s).Running? {
      Stays(p, Step(p, s).state, n - 1, m - 1);
    }
  }

  /** Both codes run from their entries: they end alike, in whatever outcome, or neither ends. */
  lemma CopyPreserves(p: Program, q: Program, base: nat, rest: Rest, o: Outcome)
    requires Setting(p, q, base) && !o.Running?
    ensures (exists n :: Run(p, State(0, map[], rest), n) == o) <==> (exists m :: Run(q, State(0, map[], rest), m) == o)
  {
    var s := State(0, map[], rest);
    assert Corresponds(p, q, s, s, base) by {
      assert p.code[0..] == p.code && q.code[0..] == q.code;
    }
    hide Setting, Corresponds, Run;
    if n :| Run(p, s, n) == o {
      var m := CopyRun(p, q, s, s, base, n);
    }
    if m :| Run(q, s, m) == o {
      var k := CopyRun(p, q, s, s, base, m);
      Stays(q, s, m, k);
      assert Run(p, s, m) == o;
    }
  }
}
