/**
  Temps in registers: code whose temps live in segments computes the same whether every
  temp has its own slot or temps share places, as long as no definition overwrites the
  place of a temp that is still to be read.
 */
module LocatedIr {
  import opened Runtime
  import opened Ir
  import opened TempRanges

  /** `t` was defined before `k` and is read at `k` or later. */
  ghost predicate Live(code: seq<Ins>, t: nat, k: nat) {
    exists d: nat, u: nat :: Defines(code, t, d) && UsedAt(code, t, u) && d < k <= u
  }

  /** No definition overwrites the place of another temp that is live behind it. */
  ghost predicate NoClash(code: seq<Ins>, place: nat -> Place) {
    forall t: nat, u: nat, d: nat ::
      Defines(code, u, d) && t != u && Live(code, t, d + 1) ==> place(t) != place(u)
  }

  /** Same point, same frame and world, and the live temps hold the same values. */
  ghost predicate Alike(code: seq<Ins>, place: nat -> Place, s: State, r: State) {
    && r.pc == s.pc && r.rest == s.rest
    && forall t: nat :: Live(code, t, s.pc) ==>
         Slot(t) in s.temps && place(t) in r.temps && r.temps[place(t)] == s.temps[Slot(t)]
  }

  lemma UsedLive(code: seq<Ins>, t: nat, k: nat)
    requires UsesReached(code) && UsedAt(code, t, k)
    ensures Live(code, t, k)
  {
    assert Reaches(code, t, k);
  }

  /** Nothing is live at a label or at the end of the code. */
  lemma NoneLive(code: seq<Ins>, t: nat, k: nat)
    requires Segmented(code) && (k == |code| || (k < |code| && code[k].OutputLabel?))
    ensures !Live(code, t, k)
  {
    hide Segmented;
    forall d: nat, u: nat | Defines(code, t, d) && UsedAt(code, t, u) ensures !(d < k <= u) {
      CalmBetween(code, t, d, u);
      NoLabelWithin(code, t, d, u, k);
    }
  }

  lemma CalmBetween(code: seq<Ins>, t: nat, d: nat, u: nat)
    requires Segmented(code) && Defines(code, t, d) && UsedAt(code, t, u)
    ensures Calm(code, d, u)
  {
    assert Reaches(code, t, u);
    var e: nat :| e < u && Defines(code, t, e) && Calm(code, e, u);
    assert e == d;
    hide SingleDefs, UsesReached, Reaches, Calm;
  }

  lemma NoLabelWithin(code: seq<Ins>, t: nat, d: nat, u: nat, k: nat)
    requires Calm(code, d, u) && UsedAt(code, t, u) && (k == |code| || (k < |code| && code[k].OutputLabel?))
    ensures !(d < k <= u)
  {
  }

  lemma FindLabelLands(code: seq<Ins>, l: nat)
    ensures var k := FindLabel(code, l); k == |code| || code[k] == OutputLabel(l)
  {
  }

  /** What the instruction reads is the same in both programs. */
  lemma SameReads(p: Program, q: Program, s: State, r: State, ts: seq<nat>)
    requires OwnSlots(p) && q.code == p.code && Alike(p.code, q.place, s, r)
    requires forall t :: t in ts ==> Live(p.code, t, s.pc)
    ensures CanRead(p, s, ts) && CanRead(q, r, ts) && Values(p, s, ts) == Values(q, r, ts)
  {
    hide Live;
  }

  lemma SameWrites(p: Program, q: Program, s: State, r: State, vs: seq<Value>, rest: Rest)
    requires OwnSlots(p) && q.code == p.code && SingleDefs(p.code) && NoClash(p.code, q.place)
    requires Alike(p.code, q.place, s, r) && s.pc < |p.code|
    requires |vs| == |Defs(p.code[s.pc])| <= 2
    ensures Alike(p.code, q.place,
                  State(s.pc + 1, WriteTemps(p, s.temps, Defs(p.code[s.pc]), vs), rest),
                  State(s.pc + 1, WriteTemps(q, r.temps, Defs(p.code[s.pc]), vs), rest))
  {
    var ds := Defs(p.code[s.pc]);
    forall t: nat | Live(p.code, t, s.pc + 1)
      ensures var a, b := WriteTemps(p, s.temps, ds, vs), WriteTemps(q, r.temps, ds, vs);
              Slot(t) in a && q.place(t) in b && b[q.place(t)] == a[Slot(t)]
    {
      forall j | 0 <= j < |ds| && ds[j] != t ensures q.place(ds[j]) != q.place(t) {
        assert Defines(p.code, ds[j], s.pc);
      }
      if t !in ds {
        LiveBefore(p.code, t, s.pc);
      }
    }
  }

  lemma LiveBefore(code: seq<Ins>, t: nat, k: nat)
    requires Live(code, t, k + 1) && !Defines(code, t, k)
    ensures Live(code, t, k)
  {
    var d: nat, u: nat :| Defines(code, t, d) && UsedAt(code, t, u) && d < k + 1 <= u;
    assert d != k;
  }

  ghost predicate SameOutcome(code: seq<Ins>, place: nat -> Place, o: Outcome, l: Outcome) {
    if o.Running? then l.Running? && Alike(code, place, o.state, l.state) else l == o && !o.Stuck?
  }

  lemma LocatedStep(p: Program, q: Program, s: State, r: State)
    requires OwnSlots(p) && q.code == p.code && q.c == p.c && Segmented(p.code) && NoClash(p.code, q.place)
    requires Alike(p.code, q.place, s, r)
    ensures SameOutcome(p.code, q.place, Step(p, s), Step(q, r))
  {
    if s.pc < |p.code| {
      var i := p.code[s.pc];
      forall t | t in Uses(i) ensures Live(p.code, t, s.pc) {
        UsedLive(p.code, t, s.pc);
      }
      SameReads(p, q, s, r, Uses(i));
      var vals := Values(p, s, Uses(i));
      hide Perform, Uses, Defs, Live, NoClash, Segmented;
      match Perform(p.c, i, vals, s.rest)
      case Go(vs, rest) =>
        DefsMatch(p.c, i, vals, s.rest);
        SameWrites(p, q, s, r, vs, rest) by { SegmentedHas(p.code); }
      case JumpTo(l) =>
        FindLabelLands(p.code, l);
        forall t: nat ensures !Live(p.code, t, FindLabel(p.code, l)) {
          NoneLive(p.code, t, FindLabel(p.code, l));
        }
      case _ =>
    }
  }

  lemma SegmentedHas(code: seq<Ins>)
    requires Segmented(code)
    ensures SingleDefs(code) && UsesReached(code)
  {
  }

  /** Replacing temps by places preserves every run, and no run reads a place nothing wrote. */
  lemma {:induction false} LocatedRun(p: Program, q: Program, s: State, r: State, n: nat)
    requires OwnSlots(p) && q.code == p.code && q.c == p.c && Segmented(p.code) && NoClash(p.code, q.place)
    requires Alike(p.code, q.place, s, r)
    ensures SameOutcome(p.code, q.place, Run(p, s, n), Run(q, r, n))
    decreases n
  {
    hide Step, Segmented, NoClash, Alike;
    if n > 0 {
      LocatedStep(p, q, s, r);
      if Step(p, s).Running? {
        LocatedRun(p, q, Step(p, s).state, Step(q, r).state, n - 1);
      }
    }
  }

  /** At the entry nothing is live, so any contents of the places will do. */
  lemma EntryAlike(code: seq<Ins>, place: nat -> Place, temps: map<Place, Value>, temps': map<Place, Value>, rest: Rest)
    ensures Alike(code, place, State(0, temps, rest), State(0, temps', rest))
  {
  }
}
