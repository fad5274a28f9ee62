/** When each pass over the IR rewrites an instruction, and when it leaves it as it is. */
module RewritingExact {
  import opened Runtime
  import opened Ir
  import opened TypeHints
  import opened HintSoundness
  import opened TypeSpecialization
  import opened ConstantTemps
  import opened ConstantFolding
  import opened ObsoleteRemoval
  import opened CopyForwarding
  import B = Bytecode

  // ----- propagation -----

  /** Instructions that neither assign a temp nor store it to a variable leave its hint. */
  lemma {:induction false} HintStays(h: Hints, code: seq<Ins>, a: nat, b: nat, t: nat)
    requires a <= b <= |code|
    requires forall q :: a <= q < b ==> !(code[q].Assign? && code[q].dest == t) && !(code[q].Store? && code[q].value == t)
    ensures TempHint(Propagate(h, code[..b]), t) == TempHint(Propagate(h, code[..a]), t)
    decreases b
  {
    if a < b {
      HintStays(h, code, a, b - 1, t);
      PropagateSplit(h, code, b - 1);
    }
  }

  /** After one propagation a temp that is assigned a constant, and stored to no variable, is hinted to hold it. */
  lemma ConstantPropagated(h: Hints, code: seq<Ins>, p: nat, t: nat, v: Value)
    requires p < |code| && code[p] == Assign(t, ConstSrc(v)) && SingleAssigns(code)
    requires forall q :: 0 <= q < |code| ==> !(code[q].Store? && code[q].value == t)
    ensures Holding(Propagate(h, code), t, v)
  {
    PropagateSplit(h, code, p);
    HintStays(h, code, p + 1, |code|, t);
    assert code[..|code|] == code;
    hide Propagate;
  }

  // ----- specialization -----

  /** By its hint the temp holds values of one kind only. */
  ghost predicate Must(h: Hints, t: nat, kind: Kind) {
    forall v :: Fits(TempHint(h, t).types, v) ==> KindOf(v) == kind
  }

  /** A value of every kind. */
  function Example(k: Kind): (v: Value)
    ensures KindOf(v) == k
  {
    match k
    case IntK => IntV(0)
    case BoolK => BoolV(false)
    case StringK => StrV("")
    case NoneK => NoneV
    case PointerK => PtrV(0)
  }

  lemma MustIs(h: Hints, t: nat, kind: Kind)
    ensures Must(h, t, kind) <==> TempHint(h, t).types == {kind}
  {
    var types := TempHint(h, t).types;
    if Must(h, t, kind) {
      var other := if kind == IntK then BoolK else IntK;
      assert types != {} by { assert KindOf(Example(other)) == other; }
      forall k | k in types ensures k == kind {
        assert Fits(types, Example(k));
      }
      var some :| some in types;
    }
  }

  /**
    An addition becomes one of integers exactly when its operands must be integers by the
    hints left by the instructions before it, an equality a fast one exactly when they must
    both be integers or both booleans; all else stays.
   */
  lemma {:induction false} SpecializeExact(h: Hints, code: seq<Ins>, p: nat)
    requires p < |code|
    ensures var g, i, j := Specialize(h, code[..p]).0, code[p], Specialize(h, code).1[p];
            var ints := i.BinIns? && Must(g, i.src1, IntK) && Must(g, i.src2, IntK);
            var bools := i.BinIns? && Must(g, i.src1, BoolK) && Must(g, i.src2, BoolK);
            if i.BinIns? && i.bop == IrAdd && ints then j == i.(bop := IntAdd)
            else if i.BinIns? && i.bop == IrEq && (ints || bools) then j == i.(bop := FastEq)
            else j == i
    decreases |code|
  {
    var init := code[..|code| - 1];
    if p < |init| {
      SpecializeExact(h, init, p);
      hide SpecializeOne, Must;
      assert init[..p] == code[..p] && init[p] == code[p];
    } else {
      assert init == code[..p];
      if code[p].BinIns? {
        MustIs(Specialize(h, init).0, code[p].src1, IntK);
        MustIs(Specialize(h, init).0, code[p].src2, IntK);
        MustIs(Specialize(h, init).0, code[p].src1, BoolK);
        MustIs(Specialize(h, init).0, code[p].src2, BoolK);
      }
      hide Must;
    }
  }

  // ----- folding -----

  /** The hint says that the temp holds this constant. */
  predicate Holding(h: Hints, t: nat, v: Value) { GetConst(h, t) == Some(v) && TempHint(h, t).types == {KindOf(v)} }

  /** Operators that the pass computes, on these constants. */
  predicate Foldable(op: BinaryOp, v1: Value, v2: Value) {
    match op
    case IrAdd => (v1.IntV? && v2.IntV?) || (v1.StrV? && v2.StrV?)
    case IntAdd => v1.IntV? && v2.IntV?
    case IrSub => v1.IntV? && v2.IntV?
    case IrMul => v1.IntV? && v2.IntV?
    case IrDiv => v1.IntV? && v2.IntV? && Wrap32(v2.i) != 0 && !(Wrap32(v1.i) == -TWO_31 && Wrap32(v2.i) == -1)
    case FastEq => (v1.IntV? && v2.IntV?) || (v1.BoolV? && v2.BoolV?)
    case IrAnd => v1.BoolV? && v2.BoolV?
    case IrOr => v1.BoolV? && v2.BoolV?
    case _ => false
  }

  /** An operator is folded exactly when its operands are constants of kinds that the pass computes with. */
  lemma FoldsBinary(errors: bool, h: Hints, i: Ins)
    requires i.BinIns?
    ensures FoldOne(errors, h, i).Put? <==>
              exists v1, v2 :: Holding(h, i.src1, v1) && Holding(h, i.src2, v2) && Foldable(i.bop, v1, v2)
  {
    var c1, c2 := GetConst(h, i.src1), GetConst(h, i.src2);
    assert Wrap32(0) == 0;
    if c1.Some? && c2.Some? {
      FoldsOn(errors, h, i, c1.value, c2.value);
    }
    hide Foldable, FoldInts, FoldBools, Wrap32;
  }

  lemma FoldsOn(errors: bool, h: Hints, i: Ins, v1: Value, v2: Value)
    requires i.BinIns? && GetConst(h, i.src1) == Some(v1) && GetConst(h, i.src2) == Some(v2)
    ensures FoldOne(errors, h, i).Put? <==> Holding(h, i.src1, v1) && Holding(h, i.src2, v2) && Foldable(i.bop, v1, v2)
  {
    assert Wrap32(0) == 0;
    hide Wrap32;
  }

  lemma FoldsUnary(errors: bool, h: Hints, i: Ins)
    requires i.UnIns?
    ensures FoldOne(errors, h, i).Put? <==>
              exists v :: Holding(h, i.operand, v) && (if i.uop == Neg then v.IntV? else v.BoolV?)
  {
    if GetConst(h, i.operand).Some? {
      assert Holding(h, i.operand, GetConst(h, i.operand).value) <==>
             TempHint(h, i.operand).types == {KindOf(GetConst(h, i.operand).value)};
    }
  }

  /** The pass changes the positions of folded operators only, and what these use becomes obsolete. */
  lemma {:induction false} ObsoleteExact(errors: bool, h: Hints, code: seq<Ins>, k: nat)
    requires k <= |code| && FoldTo(errors, h, code, k).Some?
    ensures var r := FoldTo(errors, h, code, k).value;
            && (forall p :: k <= p < |code| ==> r.code[p] == code[p])
            && (forall p :: 0 <= p < k && r.code[p] != code[p] ==> code[p].BinIns? || code[p].UnIns?)
            && (forall t :: t in r.obsolete <==> exists p :: 0 <= p < k && r.code[p] != code[p] && t in Uses(code[p]))
    decreases k
  {
    hide Uses;
    if k > 0 {
      ObsoleteExact(errors, h, code, k - 1);
      var s := FoldTo(errors, h, code, k - 1).value;
      var r := FoldTo(errors, h, code, k).value;
      FoldedIsOperator(errors, s.h, code[k - 1]);
      hide FoldOne;
      assert FoldAt(errors, s, k - 1) == Some(r);
      var uses := Uses(code[k - 1]);
      assert r.obsolete == if r.code[k - 1] != code[k - 1] then s.obsolete + (set t | t in uses) else s.obsolete;
      hide FoldTo, FoldAt;
    }
  }

  lemma FoldedIsOperator(errors: bool, h: Hints, i: Ins)
    ensures FoldOne(errors, h, i).Put? ==> i.BinIns? || i.UnIns?
  {
  }

  // ----- removal -----

  /** A type assert goes exactly when the temp is obsolete or every value that fits its hint meets it. */
  lemma TypeAssertRemoved(h: Hints, obsolete: set<nat>, kind: AssertKind, t: nat)
    requires kind != AssertNotZero
    ensures RemoveOne(h, obsolete, AssertIns(kind, t)) == Noop <==>
              t in obsolete || forall v :: Fits(TempHint(h, t).types, v) ==> Holds(kind, v)
    ensures RemoveOne(h, obsolete, AssertIns(kind, t)) in {Noop, AssertIns(kind, t)}
  {
    var k := if kind == AssertInt then IntK else BoolK;
    MustIs(h, t, k);
    assert forall v :: Holds(kind, v) <==> KindOf(v) == k;
  }

  /** The assert on a divisor goes exactly when the temp is obsolete or holds an integer constant other than zero. */
  lemma ZeroAssertRemoved(h: Hints, obsolete: set<nat>, t: nat)
    requires IsConst(h, t) ==> exists v :: Holding(h, t, v)
    ensures RemoveOne(h, obsolete, AssertIns(AssertNotZero, t)) == Noop <==>
              t in obsolete || exists i: int :: i != 0 && Holding(h, t, IntV(i))
  {
  }

  // ----- copies -----

  /** Whatever the store writes, a load right behind it reads just that. */
  ghost predicate ReadsBack(dst: Dest, src: Source)
    requires !src.TempSrc?
  {
    forall c: Context, r: Rest, v ::
      Write(c, dst, v, r).Go? ==> Read(c, src, [], Write(c, dst, v, r).rest) == Go([v], Write(c, dst, v, r).rest)
  }

  /** A store and a load are forwarded exactly when the load must read what the store wrote. */
  lemma ForwardableExact(store: Ins, load: Ins, x: Externals)
    requires store.Store? && load.Assign? && !load.src.TempSrc?
    ensures Forwardable(store, load) <==> ReadsBack(store.dst, load.src)
  {
    if !Forwardable(store, load) {
      ReadsOther(store.dst, load.src, x);
    }
  }

  function Name(k: nat): (s: string)
    ensures |s| == k
  {
    seq(k, _ => 'a')
  }

  /** Otherwise there is a frame in which the load reads something else. */
  lemma ReadsOther(dst: Dest, src: Source, x: Externals)
    requires !src.TempSrc?
    requires match dst case VarDst(k) => src != VarSrc(k) case DerefDst(k) => src != DerefSrc(k) case GlobDst(k) => src != GlobSrc(k)
    ensures !ReadsBack(dst, src)
  {
    var n := dst.num + 1;
    var names := seq(n, i requires 0 <= i < n => Name(i));
    var c := Context(x, B.EMPTY_FN.(names := names), [], seq(n, i requires 0 <= i < n => i));
    var w := World(seq(n, _ => CellObj(NoneV)), map[]);
    var r := Rest(NoneV, seq(n, _ => NoneV), w);
    var v := if src == ConstSrc(BoolV(true)) then BoolV(false) else BoolV(true);
    var e := Write(c, dst, v, r);
    assert forall i, j :: 0 <= i < j < n ==> names[i] != names[j] by {
      assert forall i :: 0 <= i < n ==> |names[i]| == i;
    }
    assert e.Go?;
    assert Read(c, src, [], e.rest) != Go([v], e.rest);
  }
}
