// The ends of an interval mention no name made up on the way: whatever is made
// up is also defined.

module BoundsFree {
  import opened Options
  import opened IR
  import opened Intervals
  import opened BoundsRules
  import opened Bounds

  /** The names an expression refers to and does not define. */
  function Free(e: Expr): (r: set<Name>)
    ensures r <= Names(e)
    decreases e, 1
  {
    match e
    case Const(_, _) => {}
    case Var(x) => {x}
    case Un(_, a) => Free(a)
    case Bin(_, a, b) => Free(a) + Free(b)
    case Select(c, t, f) => Free(c) + Free(t) + Free(f)
    case Ramp(b, s, _) => Free(b) + Free(s)
    case Let(x, v, b) => Free(v) + (Free(b) - {x})
    case Call(_, _, _, args) => FreeOfAll(args)
  }

  function FreeOfAll(args: seq<Expr>): (r: set<Name>)
    ensures r <= NamesOfAll(args)
    decreases args, 0
  {
    if args == [] then {} else Free(args[0]) + FreeOfAll(args[1..])
  }

  ghost predicate Closed(e: Expr, a: set<Name>) { Free(e) <= a }

  ghost predicate ExtClosed(b: Ext, a: set<Name>) { b.Fin? ==> Closed(b.e, a) }

  /** The ends mention names of `a` only, and the interval is not plainly empty. */
  ghost predicate IvClosed(i: Interval, a: set<Name>) {
    ExtClosed(i.min, a) && ExtClosed(i.max, a) && i.min != PosInf && i.max != NegInf
  }

  ghost predicate ScopeClosed(scope: Scope, a: set<Name>) { forall x :: x in scope ==> IvClosed(scope[x], a) }

  ghost predicate FuncsClosed(fb: FuncBounds, a: set<Name>) {
    forall key :: key in fb ==> ExtClosed(fb[key].min, a) && ExtClosed(fb[key].max, a)
  }

  lemma ClosedRules(a: set<Name>)
    ensures forall op, x, y {:trigger Closed(Bin(op, x, y), a)} ::
        Closed(Bin(op, x, y), a) <==> Closed(x, a) && Closed(y, a)
    ensures forall op, x {:trigger Closed(Un(op, x), a)} :: Closed(Un(op, x), a) <==> Closed(x, a)
    ensures forall n, t {:trigger Closed(Const(n, t), a)} :: Closed(Const(n, t), a)
    ensures forall c, x, y {:trigger Closed(Select(c, x, y), a)} ::
      Closed(Select(c, x, y), a) <==> Closed(c, a) && Closed(x, a) && Closed(y, a)
  {}

  lemma IvLarger(i: Interval, a: set<Name>, a': set<Name>)
    requires IvClosed(i, a) && a <= a'
    ensures IvClosed(i, a')
  {}

  lemma ScopeLarger(scope: Scope, fb: FuncBounds, a: set<Name>, a': set<Name>)
    requires ScopeClosed(scope, a) && FuncsClosed(fb, a) && a <= a'
    ensures ScopeClosed(scope, a') && FuncsClosed(fb, a')
  {}

  // ----- the rules -----

  lemma MakeMaxClosed(x: Ext, y: Ext, a: set<Name>)
    requires ExtClosed(x, a) && ExtClosed(y, a)
    ensures ExtClosed(MakeMax(x, y), a)
  {
    hide Closed;
    ClosedRules(a);
  }

  lemma MakeMinClosed(x: Ext, y: Ext, a: set<Name>)
    requires ExtClosed(x, a) && ExtClosed(y, a)
    ensures ExtClosed(MakeMin(x, y), a)
  {
    hide Closed;
    ClosedRules(a);
  }

  lemma MakeProper(x: Ext, y: Ext)
    ensures x != PosInf && y != PosInf ==> MakeMin(x, y) != PosInf && MakeMax(x, y) != PosInf
    ensures x != NegInf && y != NegInf ==> MakeMin(x, y) != NegInf && MakeMax(x, y) != NegInf
  {}

  lemma Include4Closed(e1: Expr, e2: Expr, e3: Expr, e4: Expr, a: set<Name>)
    requires Closed(e1, a) && Closed(e2, a) && Closed(e3, a) && Closed(e4, a)
    ensures IvClosed(Include4(e1, e2, e3, e4), a)
  {
    hide Closed, MakeMin, MakeMax;
    var i1 := Include(NOTHING, e1);
    IncludeClosed(NOTHING, e1, a);
    IncludeClosed(i1, e2, a);
    IncludeClosed(Include(i1, e2), e3, a);
    IncludeClosed(Include(Include(i1, e2), e3), e4, a);
  }

  lemma IncludeClosed(i: Interval, e: Expr, a: set<Name>)
    requires ExtClosed(i.min, a) && ExtClosed(i.max, a) && Closed(e, a)
    ensures IvClosed(Include(i, e), a)
  {
    hide Closed;
    MakeMinClosed(i.min, Fin(e), a);
    MakeMaxClosed(i.max, Fin(e), a);
  }

  lemma AddClosed(ea: Expr, eb: Expr, i: Interval, j: Interval, a: set<Name>)
    requires IvClosed(i, a) && IvClosed(j, a)
    ensures IvClosed(AddBounds(ea, eb, i, j), a)
  {
    hide Closed;
    ClosedRules(a);
  }

  lemma SubClosed(ea: Expr, eb: Expr, i: Interval, j: Interval, a: set<Name>)
    requires IvClosed(i, a) && IvClosed(j, a)
    ensures IvClosed(SubBounds(ea, eb, i, j), a)
  {
    hide Closed;
    ClosedRules(a);
  }

  lemma EqClosed(ea: Expr, eb: Expr, i: Interval, j: Interval, a: set<Name>)
    requires IvClosed(i, a) && IvClosed(j, a)
    ensures IvClosed(EqBounds(ea, eb, i, j), a)
  {
    hide Closed;
    ClosedRules(a);
  }

  lemma NeClosed(ea: Expr, eb: Expr, i: Interval, j: Interval, a: set<Name>)
    requires IvClosed(i, a) && IvClosed(j, a)
    ensures IvClosed(NeBounds(ea, eb, i, j), a)
  {
    hide Closed;
    ClosedRules(a);
  }

  lemma SumClosed(op: BinOp, ea: Expr, eb: Expr, i: Interval, j: Interval, a: set<Name>)
    requires IvClosed(i, a) && IvClosed(j, a)
    ensures op.Add? ==> IvClosed(AddBounds(ea, eb, i, j), a)
    ensures op.Sub? ==> IvClosed(SubBounds(ea, eb, i, j), a)
    ensures op.EQ? ==> IvClosed(EqBounds(ea, eb, i, j), a)
    ensures op.NE? ==> IvClosed(NeBounds(ea, eb, i, j), a)
  {
    hide IvClosed, AddBounds, SubBounds, EqBounds, NeBounds;
    if op.Add? { AddClosed(ea, eb, i, j, a); }
    if op.Sub? { SubClosed(ea, eb, i, j, a); }
    if op.EQ? { EqClosed(ea, eb, i, j, a); }
    if op.NE? { NeClosed(ea, eb, i, j, a); }
  }

  lemma ExtremeBoundsClosed(ea: Expr, eb: Expr, i: Interval, j: Interval, a: set<Name>)
    requires IvClosed(i, a) && IvClosed(j, a)
    ensures IvClosed(MinBounds(ea, eb, i, j), a) && IvClosed(MaxBounds(ea, eb, i, j), a)
  {
    hide Closed, MakeMin, MakeMax;
    ClosedRules(a);
    MakeMinClosed(i.min, j.min, a);
    MakeMinClosed(i.max, j.max, a);
    MakeMaxClosed(i.min, j.min, a);
    MakeMaxClosed(i.max, j.max, a);
    MakeProper(i.min, j.min);
    MakeProper(i.max, j.max);
  }

  lemma ScaleClosed(i: Interval, b: Expr, a: set<Name>)
    requires IvClosed(i, a) && Closed(b, a)
    ensures IvClosed(ScaleBounds(i, b), a)
  {
    hide Closed;
    ClosedRules(a);
  }

  lemma MulClosed(ea: Expr, eb: Expr, i: Interval, j: Interval, a: set<Name>)
    requires IvClosed(i, a) && IvClosed(j, a)
    ensures IvClosed(MulOrdered(ea, eb, i, j), a)
  {
    hide Closed, Include4, ScaleBounds;
    ClosedRules(a);
    if j.IsPoint() { ScaleClosed(i, j.min.e, a); }
    if i.IsBounded() && j.IsBounded() {
      Include4Closed(Bin(Mul, i.min.e, j.min.e), Bin(Mul, i.min.e, j.max.e),
                     Bin(Mul, i.max.e, j.min.e), Bin(Mul, i.max.e, j.max.e), a);
    }
  }

  lemma MulBoundsClosed(ea: Expr, eb: Expr, i: Interval, j: Interval, a: set<Name>)
    requires IvClosed(i, a) && IvClosed(j, a)
    ensures IvClosed(MulBounds(ea, eb, i, j), a)
  {
    hide MulOrdered, IvClosed;
    MulClosed(ea, eb, i, j, a);
    MulClosed(ea, eb, j, i, a);
  }

  lemma DivPartsClosed(i: Interval, j: Interval, o: Oracle, a: set<Name>)
    requires IvClosed(i, a) && IvClosed(j, a)
    ensures IvClosed(DivUnknown(i, o), a)
    ensures j.IsBounded() ==> IvClosed(DivFixed(i, j, o), a)
  {
    hide Closed;
    ClosedRules(a);
  }

  lemma DivClosed(ea: Expr, eb: Expr, i: Interval, j: Interval, o: Oracle, a: set<Name>)
    requires IvClosed(i, a) && IvClosed(j, a)
    ensures IvClosed(DivBounds(ea, eb, i, j, o), a)
  {
    hide Closed, Include4, DivUnknown, DivFixed, StaticSign;
    DivPartsClosed(i, j, o, a);
    ClosedRules(a);
    if i.IsBounded() && j.IsBounded() {
      Include4Closed(i.min.e, i.max.e, Neg(i.min.e), Neg(i.max.e), a);
      Include4Closed(Bin(Div, i.min.e, j.min.e), Bin(Div, i.max.e, j.min.e),
                     Bin(Div, i.min.e, j.max.e), Bin(Div, i.max.e, j.max.e), a);
    }
  }

  lemma ModClosed(ea: Expr, eb: Expr, i: Interval, j: Interval, o: Oracle, a: set<Name>)
    requires IvClosed(i, a) && IvClosed(j, a)
    ensures IvClosed(ModBounds(ea, eb, i, j, o), a)
  {
    hide Closed;
    ClosedRules(a);
  }

  lemma LogicClosed(ea: Expr, eb: Expr, i: Interval, j: Interval, a: set<Name>)
    requires IvClosed(i, a) && IvClosed(j, a)
    ensures IvClosed(AndBounds(ea, eb, i, j), a) && IvClosed(OrBounds(ea, eb, i, j), a)
    ensures IvClosed(NotBounds(ea, i), a) && IvClosed(AbsBounds(i), a)
  {
    hide Closed;
    ClosedRules(a);
  }

  lemma CompareClosed(op: BinOp, i: Interval, j: Interval, a: set<Name>)
    requires IvClosed(i, a) && IvClosed(j, a)
    ensures IvClosed(CompareBounds(op, i, j), a)
  {
    hide Closed;
    ClosedRules(a);
  }

  lemma BinBoundsClosed(op: BinOp, ea: Expr, eb: Expr, i: Interval, j: Interval, o: Oracle, a: set<Name>)
    requires IvClosed(i, a) && IvClosed(j, a)
    ensures IvClosed(BinBounds(op, ea, eb, i, j, o), a)
  {
    hide IvClosed, AddBounds, SubBounds, MulBounds, DivBounds, ModBounds, MinBounds, MaxBounds, EqBounds,
        NeBounds, AndBounds, OrBounds;
    match op
    case Add | Sub | EQ | NE => SumClosed(op, ea, eb, i, j, a);
    case Mul => MulBoundsClosed(ea, eb, i, j, a);
    case Div => DivClosed(ea, eb, i, j, o, a);
    case Mod => ModClosed(ea, eb, i, j, o, a);
    case Min | Max => ExtremeBoundsClosed(ea, eb, i, j, a);
    case And | Or => LogicClosed(ea, eb, i, j, a);
    case _ => TypeClosed(BoolT, a);
  }

  lemma TypeClosed(ty: Ty, a: set<Name>)
    ensures IvClosed(BoundsOfType(ty), a)
  {}

  lemma ExtremeClosed(isMin: bool, x: Expr, y: Expr, a: set<Name>)
    requires Closed(x, a) && Closed(y, a)
    ensures Closed(Extreme(isMin, x, y), a)
  {
    hide Closed, MakeMin, MakeMax;
    MakeMinClosed(Fin(x), Fin(y), a);
    MakeMaxClosed(Fin(x), Fin(y), a);
    ExtremeFinite(x, y);
  }

  lemma ExtremeFinite(x: Expr, y: Expr)
    ensures MakeMin(Fin(x), Fin(y)).Fin? && MakeMax(Fin(x), Fin(y)).Fin?
  {}

  /** A let closes over its name. */
  lemma LetClosed(x: Name, v: Expr, b: Expr, a: set<Name>)
    requires Closed(v, a) && Closed(b, a + {x})
    ensures Closed(Let(x, v, b), a)
  {}

  lemma Larger(e: Expr, a: set<Name>, a': set<Name>)
    requires Closed(e, a) && a <= a'
    ensures Closed(e, a')
  {}

  lemma SelectEndClosed(isMin: bool, cond: Interval, p: Expr, q: Expr, ty: Ty, k: nat, a: set<Name>)
    requires IvClosed(cond, a) && cond.IsBounded() && Closed(p, a) && Closed(q, a)
    ensures Closed(SelectEnd(isMin, cond, p, q, ty, k).0, a)
  {
    hide Closed, Extreme;
    var x, y := Fresh("t", k, ty), Fresh("t", k + 1, ty);
    var ax, axy := a + {x}, a + {y} + {x};
    var c1, c2 := cond.min.e, cond.max.e;
    ClosedRules(a);
    ExtremeClosed(isMin, p, q, a);
    if c1 != c2 {
      LargerParts(p, q, c1, c2, a, ax);
      LargerParts(p, q, c1, c2, a, a + {y});
      LargerParts(p, q, c1, c2, a, axy);
      OwnVar(x, a);
      OwnVar(x, a + {y});
      OwnVar(y, a);
      Larger(Var(y), a + {y}, axy);
      ClosedRules(ax);
      ClosedRules(axy);
      ExtremeClosed(isMin, Select(c1, Var(x), q), Var(x), ax);
      ExtremeClosed(isMin, Select(c2, p, Var(x)), Var(x), ax);
      ExtremeClosed(isMin, Select(c1, Var(x), Var(y)), Select(c2, Var(x), Var(y)), axy);
      LetClosed(x, p, Extreme(isMin, Select(c1, Var(x), q), Var(x)), a);
      LetClosed(x, q, Extreme(isMin, Select(c2, p, Var(x)), Var(x)), a);
      var both := Extreme(isMin, Select(c1, Var(x), Var(y)), Select(c2, Var(x), Var(y)));
      LetClosed(x, p, both, a + {y});
      LetClosed(y, q, Let(x, p, both), a);
    }
  }

  lemma LargerParts(p: Expr, q: Expr, c1: Expr, c2: Expr, a: set<Name>, a': set<Name>)
    requires Closed(p, a) && Closed(q, a) && Closed(c1, a) && Closed(c2, a) && a <= a'
    ensures Closed(p, a') && Closed(q, a') && Closed(c1, a') && Closed(c2, a')
  {}

  lemma OwnVar(x: Name, a: set<Name>)
    ensures Closed(Var(x), a + {x})
  {}

  lemma SelectBoundsClosed(cond: Interval, i: Interval, j: Interval, ty: Ty, k: nat, a: set<Name>)
    requires IvClosed(cond, a) && IvClosed(i, a) && IvClosed(j, a)
    ensures IvClosed(SelectBounds(cond, i, j, ty, k).0, a)
  {
    hide Closed, SelectEnd;
    if cond.IsBounded() {
      var k1 := k;
      if i.HasLower() && j.HasLower() {
        SelectEndClosed(true, cond, i.min.e, j.min.e, ty, k, a);
        k1 := SelectEnd(true, cond, i.min.e, j.min.e, ty, k).1;
      }
      if i.HasUpper() && j.HasUpper() { SelectEndClosed(false, cond, i.max.e, j.max.e, ty, k1, a); }
    }
  }

  // ----- lets -----

  /** The names by which the ends of a let's value are known inside it. */
  function EndNames(val: Interval, mn: Name, mx: Name): set<Name> {
    (if val.HasLower() && !IsConst(val.min) then {mn} else {})
    + (if val.HasUpper() && !IsConst(val.max) && !val.IsPoint() then {mx} else {})
  }

  lemma LetVarClosed(val: Interval, mn: Name, mx: Name, a: set<Name>)
    requires IvClosed(val, a)
    ensures IvClosed(LetVar(val, mn, mx), a + EndNames(val, mn, mx))
  {}

  lemma WrapEndClosed(e: Expr, val: Interval, mn: Name, mx: Name, a: set<Name>)
    requires IvClosed(val, a) && Closed(e, a + EndNames(val, mn, mx))
    ensures Closed(WrapEnd(e, val, mn, mx), a)
  {}

  lemma WrapLetClosed(i: Interval, val: Interval, mn: Name, mx: Name, a: set<Name>)
    requires IvClosed(val, a) && IvClosed(i, a + EndNames(val, mn, mx))
    ensures IvClosed(WrapLet(i, val, mn, mx), a)
  {
    hide Closed, WrapEnd;
    if i.min.Fin? { WrapEndClosed(i.min.e, val, mn, mx, a); }
    if i.max.Fin? { WrapEndClosed(i.max.e, val, mn, mx, a); }
  }

  // ----- the visitor -----

  /** What is not in scope may appear in an end. */
  ghost predicate FreeOutside(s: set<Name>, scope: Scope, a: set<Name>) { forall x :: x in s && x !in scope ==> x in a }

  lemma VarClosed(x: Name, scope: Scope, constBound: bool, a: set<Name>)
    requires ScopeClosed(scope, a) && FreeOutside({x}, scope, a)
    ensures IvClosed(VarBounds(x, scope, constBound), a)
  {
    TypeClosed(x.ty, a);
    var i := BoundsOfType(x.ty);
    if x in scope {
      MakeMaxClosed(i.min, scope[x].min, a);
      MakeMinClosed(i.max, scope[x].max, a);
      MakeProper(i.min, scope[x].min);
      MakeProper(i.max, scope[x].max);
    } else {
      assert x in {x};
    }
  }

  /** Whatever the visitor returns mentions only what the scope, the Func bounds
      and the variables not in scope bring with them. */
  lemma {:induction false} BoundsClosed(e: Expr, scope: Scope, c: Ctx, k: nat, a: set<Name>)
    requires ScopeClosed(scope, a) && FuncsClosed(c.funcBounds, a) && FreeOutside(Free(e), scope, a)
    ensures IvClosed(BoundsOf(e, scope, c, k).0, a)
    decreases Size(e), 2
  {
    match e
    case Const(_, _) =>
    case Var(x) => VarClosed(x, scope, c.constBound, a);
    case Un(op, x) => UnClosed(op, x, scope, c, k, a);
    case Bin(op, x, y) =>
      if op.GT? || op.GE? {
        CompareOfClosed(if op.GT? then LT else LE, y, x, scope, c, k, a);
      } else if op.LT? || op.LE? {
        CompareOfClosed(op, x, y, scope, c, k, a);
      } else {
        BinOfClosed(op, x, y, scope, c, k, a);
      }
    case Select(x, t, f) => SelectOfClosed(x, t, f, scope, c, k, a);
    case Ramp(b, s, lanes) => RampOfClosed(b, s, lanes, scope, c, k, a);
    case Let(x, v, b) => LetOfClosed(x, v, b, scope, c, k, a);
    case Call(ct, f, n, args) => CallOfClosed(ct, f, n, args, scope, c, k, a);
  }

  lemma UnClosed(op: UnOp, x: Expr, scope: Scope, c: Ctx, k: nat, a: set<Name>)
    requires ScopeClosed(scope, a) && FuncsClosed(c.funcBounds, a) && FreeOutside(Free(x), scope, a)
    ensures IvClosed(UnOf(op, x, scope, c, k).0, a)
    decreases 1 + Size(x), 1
  {
    hide BoundsOf, AbsBounds, NotBounds;
    var i := BoundsOf(x, scope, c, k).0;
    BoundsClosed(x, scope, c, k, a);
    LogicClosed(x, x, i, i, a);
  }

  lemma BinOfClosed(op: BinOp, x: Expr, y: Expr, scope: Scope, c: Ctx, k: nat, a: set<Name>)
    requires ScopeClosed(scope, a) && FuncsClosed(c.funcBounds, a) && FreeOutside(Free(x) + Free(y), scope, a)
    ensures IvClosed(BinOf(op, x, y, scope, c, k).0, a)
    decreases 1 + Size(x) + Size(y), 1
  {
    hide BoundsOf, IvClosed, BinBounds, ScopeClosed, FuncsClosed;
    var (i, k1) := BoundsOf(x, scope, c, k);
    BoundsClosed(x, scope, c, k, a);
    BoundsClosed(y, scope, c, k1, a);
    BinBoundsClosed(op, x, y, i, BoundsOf(y, scope, c, k1).0, c.oracle, a);
  }

  lemma CompareOfClosed(op: BinOp, x: Expr, y: Expr, scope: Scope, c: Ctx, k: nat, a: set<Name>)
    requires ScopeClosed(scope, a) && FuncsClosed(c.funcBounds, a) && FreeOutside(Free(x) + Free(y), scope, a)
    ensures IvClosed(CompareOf(op, x, y, scope, c, k).0, a)
    decreases Size(x) + Size(y) + 1, 0
  {
    hide BoundsOf, IvClosed, CompareBounds, ScopeClosed, FuncsClosed, BoundsOfType;
    TypeClosed(BoolT, a);
    var (i, k1) := BoundsOf(x, scope, c, k);
    BoundsClosed(x, scope, c, k, a);
    BoundsClosed(y, scope, c, k1, a);
    CompareClosed(op, i, BoundsOf(y, scope, c, k1).0, a);
  }

  lemma SelectOfClosed(cond: Expr, t: Expr, f: Expr, scope: Scope, c: Ctx, k: nat, a: set<Name>)
    requires ScopeClosed(scope, a) && FuncsClosed(c.funcBounds, a)
    requires FreeOutside(Free(cond) + Free(t) + Free(f), scope, a)
    ensures IvClosed(SelectOf(cond, t, f, scope, c, k).0, a)
    decreases 1 + Size(cond) + Size(t) + Size(f), 1
  {
    hide BoundsOf, IvClosed, SelectBounds, ScopeClosed, FuncsClosed;
    var (i, k1) := BoundsOf(t, scope, c, k);
    var (j, k2) := BoundsOf(f, scope, c, k1);
    var (ic, k3) := BoundsOf(cond, scope, c, k2);
    BoundsClosed(t, scope, c, k, a);
    BoundsClosed(f, scope, c, k1, a);
    BoundsClosed(cond, scope, c, k2, a);
    SelectBoundsClosed(ic, i, j, TypeOf(t), k3, a);
  }

  lemma BinOfVar(op: BinOp, x: Name, e: Expr)
    ensures Size(Bin(op, Var(x), e)) == 2 + Size(e) && Free(Bin(op, Var(x), e)) == {x} + Free(e)
  {
    assert Size(Var(x)) == 1 && Free(Var(x)) == {x};
  }

  lemma RampOfClosed(base: Expr, stride: Expr, lanes: Pos, scope: Scope, c: Ctx, k: nat, a: set<Name>)
    requires ScopeClosed(scope, a) && FuncsClosed(c.funcBounds, a) && FreeOutside(Free(base) + Free(stride), scope, a)
    ensures IvClosed(RampOf(base, stride, lanes, scope, c, k).0, a)
    decreases 5 + Size(base) + Size(stride), 1
  {
    hide BoundsOf;
    var lane := Fresh("t", k, IntT);
    var m := Bin(Mul, Var(lane), stride);
    BinOfVar(Mul, lane, stride);
    assert Free(Bin(Add, base, m)) == Free(base) + Free(m);
    assert IvClosed(LaneRange(lanes), a);
    BoundsClosed(Bin(Add, base, m), scope[lane := LaneRange(lanes)], c, k + 1, a);
  }

  lemma LetOfClosed(x: Name, v: Expr, body: Expr, scope: Scope, c: Ctx, k: nat, a: set<Name>)
    requires ScopeClosed(scope, a) && FuncsClosed(c.funcBounds, a)
        && FreeOutside(Free(v) + (Free(body) - {x}), scope, a)
    ensures IvClosed(LetOf(x, v, body, scope, c, k).0, a)
    decreases 1 + Size(v) + Size(body), 1
  {
    hide BoundsOf, LetVar, WrapLet, EndNames, IvClosed;
    var (val, k1) := BoundsOf(v, scope, c, k);
    BoundsClosed(v, scope, c, k, a);
    var mn, mx := MinName(x, k1), MaxName(x, k1);
    var a' := a + EndNames(val, mn, mx);
    LetVarClosed(val, mn, mx, a);
    EnteredClosed(scope, c.funcBounds, x, LetVar(val, mn, mx), a, a');
    var scope1 := scope[x := LetVar(val, mn, mx)];
    BoundsClosed(body, scope1, c, k1 + 2, a');
    WrapLetClosed(BoundsOf(body, scope1, c, k1 + 2).0, val, mn, mx, a);
  }

  lemma EnteredClosed(scope: Scope, fb: FuncBounds, x: Name, i: Interval, a: set<Name>, a': set<Name>)
    requires ScopeClosed(scope, a) && FuncsClosed(fb, a) && a <= a' && IvClosed(i, a')
    ensures ScopeClosed(scope[x := i], a') && FuncsClosed(fb, a')
  {
    ScopeLarger(scope, fb, a, a');
  }

  lemma CallOfClosed(ct: CallType, f: string, n: nat, args: seq<Expr>, scope: Scope, c: Ctx, k: nat, a: set<Name>)
    requires ScopeClosed(scope, a) && FuncsClosed(c.funcBounds, a) && FreeOutside(FreeOfAll(args), scope, a)
    ensures IvClosed(CallOf(ct, f, n, args, scope, c, k).0, a)
    decreases 1 + SizeAll(args), 1
  {
    if !ct.FuncCall? && !c.constBound { PointsClosed(args, scope, c, k, a); }
  }

  lemma PointsClosed(args: seq<Expr>, scope: Scope, c: Ctx, k: nat, a: set<Name>)
    requires ScopeClosed(scope, a) && FuncsClosed(c.funcBounds, a) && FreeOutside(FreeOfAll(args), scope, a)
    ensures var r := PointsOf(args, scope, c, k).0; r.Some? ==> FreeOfAll(r.value) <= a
    decreases SizeAll(args), 0
  {
    if args != [] {
      hide BoundsOf;
      BoundsClosed(args[0], scope, c, k, a);
      var (i, k1) := BoundsOf(args[0], scope, c, k);
      if i.IsPoint() { PointsClosed(args[1..], scope, c, k1, a); }
    }
  }
}
