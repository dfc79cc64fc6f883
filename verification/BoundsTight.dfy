// Precision of the bounds visitor. Soundness alone would allow the answer
// "anything". On expressions that read each scoped variable once, the two ends
// are not just bounds: a run inside the scope reaches each of them.

module BoundsPrecision {
  import opened IR
  import opened Intervals
  import opened BoundsRules
  import opened Bounds

  predicate ExactOp(op: BinOp) {
    !op.Div? && !op.Mod? && !op.EQ? && !op.NE?
  }

  function Scoped(e: Expr, scope: Scope): set<Name> { set x | x in Names(e) && x in scope }

  /** Built from operations with exact rules, no scoped variable occurring in two operands. */
  predicate ReadOnce(e: Expr, scope: Scope) {
    match e
    case Const(_, _) => true
    case Var(x) => x in scope || !x.vec
    case Un(op, a) => !op.Abs? && ReadOnce(a, scope)
    case Bin(op, a, b) =>
      ExactOp(op) && ReadOnce(a, scope) && ReadOnce(b, scope) && Scoped(a, scope) !! Scoped(b, scope)
    case Select(c, t, f) =>
      && ReadOnce(c, scope) && ReadOnce(t, scope) && ReadOnce(f, scope)
      && Scoped(c, scope) !! Scoped(t, scope) !! Scoped(f, scope)
    case _ => false
  }

  /** The world in which the variables of `m` have the values given by `m`. */
  function With(w: World, m: map<Name, int>): World {
    w.(vars := (x: Name, l: nat) => if x in m then m[x] else w.vars(x, l))
  }

  /** Values for some scoped variables, each inside its interval. */
  ghost predicate Inside(m: map<Name, int>, scope: Scope, w: World) {
    forall x :: x in m ==> x in scope && In(m[x], scope[x], w) && (x.ty.BoolT? ==> IsTruth(m[x]))
  }

  /** The scoped variables of `e` have finite, non-empty ranges. */
  ghost predicate Ranges(e: Expr, scope: Scope, w: World) {
    forall x :: x in Scoped(e, scope) ==>
      scope[x].IsBounded() && Eval(scope[x].min.e, w, 0) <= Eval(scope[x].max.e, w, 0)
  }

  function End(i: Interval, upper: bool, w: World): int
    requires i.IsBounded()
  {
    Eval(if upper then i.max.e else i.min.e, w, 0)
  }

  /** `r`'s ends are reached by putting each operand at one of its ends. */
  ghost predicate Corner(op: BinOp, a: Interval, b: Interval, r: Ext, p: bool, q: bool, w: World)
    requires a.IsBounded() && b.IsBounded()
  {
    r.Fin? && Eval(r.e, w, 0) == EvalBin(op, End(a, p, w), End(b, q, w))
  }

  /** Both ends are corners. */
  ghost predicate Corners(op: BinOp, a: Interval, b: Interval, r: Interval, c: (bool, bool, bool, bool), w: World)
    requires a.IsBounded() && b.IsBounded()
  {
    Corner(op, a, b, r.min, c.0, c.1, w) && Corner(op, a, b, r.max, c.2, c.3, w)
  }

  lemma MulCornersReached(ea: Expr, eb: Expr, a: Interval, b: Interval, w: World) returns (c: (bool, bool, bool, bool))
    requires a.IsBounded() && b.IsBounded()
    ensures Corners(Mul, a, b, MulOrdered(ea, eb, a, b), c, w)
  {
    if a.IsPoint() && b.IsPoint() {
      EvalBinIs(Mul, a.min.e, b.min.e, w);
      c := (false, false, false, false);
    } else if b.IsPoint() {
      c := ScaleReached(a, b.min.e, w);
    } else {
      c := SpreadReached(a, b, w);
    }
  }

  lemma ScaleReached(a: Interval, b: Expr, w: World) returns (c: (bool, bool, bool, bool))
    requires a.IsBounded()
    ensures Corners(Mul, a, SinglePoint(b), ScaleBounds(a, b), c, w)
  {
    hide Eval;
    if b.Const? { EvalConstExpr(b, w); }
    var e1, e2, cmp := Bin(Mul, a.min.e, b), Bin(Mul, a.max.e, b), Bin(GE, b, I(0));
    EvalConst(0, w);
    EvalBinIs(Mul, a.min.e, b, w);
    EvalBinIs(Mul, a.max.e, b, w);
    EvalBinIs(GE, b, I(0), w);
    EvalSelect(cmp, e1, e2, w);
    EvalSelect(cmp, e2, e1, w);
    c := if Eval(b, w, 0) >= 0 then (false, false, true, false) else (true, false, false, false);
  }

  lemma SpreadReached(a: Interval, b: Interval, w: World) returns (c: (bool, bool, bool, bool))
    requires a.IsBounded() && b.IsBounded()
    ensures Corners(Mul, a, b, Include4(Bin(Mul, a.min.e, b.min.e), Bin(Mul, a.min.e, b.max.e),
                                        Bin(Mul, a.max.e, b.min.e), Bin(Mul, a.max.e, b.max.e)), c, w)
  {
    hide Eval, Include4, MinI, MaxI;
    var e1, e2, e3, e4 := Bin(Mul, a.min.e, b.min.e), Bin(Mul, a.min.e, b.max.e),
        Bin(Mul, a.max.e, b.min.e), Bin(Mul, a.max.e, b.max.e);
    EvalBinIs(Mul, a.min.e, b.min.e, w);
    EvalBinIs(Mul, a.min.e, b.max.e, w);
    EvalBinIs(Mul, a.max.e, b.min.e, w);
    EvalBinIs(Mul, a.max.e, b.max.e, w);
    var m, n := Include4Ends(e1, e2, e3, e4, w);
    c := (m >= 2, m % 2 == 1, n >= 2, n % 2 == 1);
  }

  /** The ends of four included expressions are two of those expressions. */
  lemma Include4Ends(e1: Expr, e2: Expr, e3: Expr, e4: Expr, w: World) returns (m: nat, n: nat)
    ensures m < 4 && n < 4
    ensures var i, es := Include4(e1, e2, e3, e4), [e1, e2, e3, e4];
            i.min.Fin? && i.max.Fin?
            && Eval(i.min.e, w, 0) == Eval(es[m], w, 0) && Eval(i.max.e, w, 0) == Eval(es[n], w, 0)
  {
    hide Eval, Include4;
    var i := Include4(e1, e2, e3, e4);
    FiniteInclude4(e1, e2, e3, e4);
    var v1, v2, v3, v4 := Eval(e1, w, 0), Eval(e2, w, 0), Eval(e3, w, 0), Eval(e4, w, 0);
    m := if v1 <= v2 && v1 <= v3 && v1 <= v4 then 0 else if v2 <= v3 && v2 <= v4 then 1 else if v3 <= v4 then 2 else 3;
    n := if v1 >= v2 && v1 >= v3 && v1 >= v4 then 0 else if v2 >= v3 && v2 >= v4 then 1 else if v3 >= v4 then 2 else 3;
    var lo, hi := [v1, v2, v3, v4][m], [v1, v2, v3, v4][n];
    Include4Meaning(e1, e2, e3, e4, lo, w);
    Include4Meaning(e1, e2, e3, e4, hi, w);
    Include4Meaning(e1, e2, e3, e4, Eval(i.min.e, w, 0), w);
    Include4Meaning(e1, e2, e3, e4, Eval(i.max.e, w, 0), w);
  }

  lemma FiniteInclude4(e1: Expr, e2: Expr, e3: Expr, e4: Expr)
    ensures Include4(e1, e2, e3, e4).min.Fin? && Include4(e1, e2, e3, e4).max.Fin?
  {
    hide Include;
    FiniteInclude(NOTHING, e1);
    FiniteInclude(Include(NOTHING, e1), e2);
    FiniteInclude(Include(Include(NOTHING, e1), e2), e3);
    FiniteInclude(Include(Include(Include(NOTHING, e1), e2), e3), e4);
  }

  lemma FiniteInclude(i: Interval, e: Expr)
    requires i == NOTHING || (i.min.Fin? && i.max.Fin?)
    ensures Include(i, e).min.Fin? && Include(i, e).max.Fin?
  {}

  lemma MinMaxReached(op: BinOp, ea: Expr, eb: Expr, a: Interval, b: Interval, w: World)
    requires a.IsBounded() && b.IsBounded() && IsExtreme(op)
    ensures Corners(op, a, b, if op.Min? then MinBounds(ea, eb, a, b)
        else MaxBounds(ea, eb, a, b), (false, false, true, true), w)
  {
    hide Eval, MakeMin, MakeMax, Extreme;
    FiniteExtremes(a, b);
    EvalBinIs(op, ea, eb, w);
    ExtremeValue(op.Min?, a.min.e, b.min.e, w);
    ExtremeValue(op.Min?, a.max.e, b.max.e, w);
    ExtremeIs(a.min, b.min);
    ExtremeIs(a.max, b.max);
  }

  lemma ExtremeIs(a: Ext, b: Ext)
    requires a.Fin? && b.Fin?
    ensures MakeMin(a, b) == Fin(Extreme(true, a.e, b.e)) && MakeMax(a, b) == Fin(Extreme(false, a.e, b.e))
  {}

  lemma LogicReached(op: BinOp, ea: Expr, eb: Expr, a: Interval, b: Interval, w: World)
    requires (op.And? || op.Or?) && IvTyped(a, BoolT) && IvTyped(b, BoolT)
    ensures Corners(op, a, b, if op.And? then AndBounds(ea, eb, a, b)
        else OrBounds(ea, eb, a, b), (false, false, true, true), w)
  {
    hide Eval, HasTy, MakeAnd, MakeOr;
    BoolEnds(a, w);
    BoolEnds(b, w);
    EvalBinIs(op, ea, eb, w);
    EvalBinIs(op, a.min.e, b.min.e, w);
    MakeAndValue(a.min.e, b.min.e, w);
    MakeAndValue(a.max.e, b.max.e, w);
    MakeOrValue(a.min.e, b.min.e, w);
    MakeOrValue(a.max.e, b.max.e, w);
  }

  lemma AddSubReached(op: BinOp, ea: Expr, eb: Expr, a: Interval, b: Interval, w: World)
    requires a.IsBounded() && b.IsBounded() && (op.Add? || op.Sub?)
    ensures Corners(op, a, b, if op.Add? then AddBounds(ea, eb, a, b) else SubBounds(ea, eb, a, b),
                    if op.Add? then (false, false, true, true) else (false, true, true, false), w)
  {
    hide Eval;
    EvalBinIs(op, ea, eb, w);
    EvalBinIs(op, a.min.e, b.min.e, w);
    EvalBinIs(op, a.max.e, b.max.e, w);
    EvalBinIs(op, a.min.e, b.max.e, w);
    EvalBinIs(op, a.max.e, b.min.e, w);
  }

  /** Every exact rule reaches both ends at corners of the operands' ranges. */
  lemma BinReached(op: BinOp, ea: Expr, eb: Expr, a: Interval, b: Interval, o: Oracle, w: World)
    returns (c: (bool, bool, bool, bool))
    requires a.IsBounded() && b.IsBounded() && ExactOp(op) && !op.LT? && !op.LE? && !op.GT? && !op.GE?
    requires op.And? || op.Or? ==> IvTyped(a, BoolT) && IvTyped(b, BoolT)
    ensures Corners(op, a, b, BinBounds(op, ea, eb, a, b, o), c, w)
  {
    hide AddBounds, SubBounds, MulOrdered, MinBounds, MaxBounds, AndBounds, OrBounds, Eval;
    match op
    case Add => AddSubReached(op, ea, eb, a, b, w); c := (false, false, true, true);
    case Sub => AddSubReached(op, ea, eb, a, b, w); c := (false, true, true, false);
    case Mul =>
      if a.IsPoint() && !b.IsPoint() {
        var d := MulCornersReached(ea, eb, b, a, w);
        c := (d.1, d.0, d.3, d.2);
      } else {
        c := MulCornersReached(ea, eb, a, b, w);
      }
    case Min | Max => MinMaxReached(op, ea, eb, a, b, w); c := (false, false, true, true);
    case And | Or => LogicReached(op, ea, eb, a, b, w); c := (false, false, true, true);
  }

  lemma CompareReached(op: BinOp, a: Interval, b: Interval, w: World)
    requires a.IsBounded() && b.IsBounded() && (op.LT? || op.LE?)
    ensures Corners(op, a, b, CompareBounds(op, a, b), (true, false, false, true), w)
  {
    EvalBinIs(op, a.max.e, b.min.e, w);
    EvalBinIs(op, a.min.e, b.max.e, w);
  }

  // ----- joining the runs that reach the ends of the operands -----

  /** `m` gives values to exactly the scoped variables of `e`, inside the scope, and makes `e` equal `v`. */
  ghost predicate Reaches(m: map<Name, int>, e: Expr, scope: Scope, w: World, v: int) {
    m.Keys == Scoped(e, scope) && Inside(m, scope, w) && Eval(e, With(w, m), 0) == v
  }

  /** Two runs inside the scope, one for each end of the interval. */
  ghost predicate BothReached(lo: map<Name, int>, hi: map<Name, int>, e: Expr, scope: Scope, w: World, i: Interval) {
    i.IsBounded() && Reaches(lo, e, scope, w, End(i, false, w)) && Reaches(hi, e, scope, w, End(i, true, w))
  }

  lemma SameRun(e: Expr, m: map<Name, int>, m': map<Name, int>, w: World)
    requires forall x :: x in Names(e) ==> (x in m <==> x in m') && (x in m ==> m[x] == m'[x])
    ensures Eval(e, With(w, m), 0) == Eval(e, With(w, m'), 0)
  {
    EvalAgree(e, With(w, m), With(w, m'), 0);
  }

  lemma JoinBin(op: BinOp, a: Expr, b: Expr, ma: map<Name, int>, mb: map<Name, int>,
      scope: Scope, w: World, x: int, y: int)
    requires Scoped(a, scope) !! Scoped(b, scope)
    requires Reaches(ma, a, scope, w, x) && Reaches(mb, b, scope, w, y)
    ensures Reaches(ma + mb, Bin(op, a, b), scope, w, EvalBin(op, x, y))
  {
    hide In;
    SameRun(a, ma, ma + mb, w);
    SameRun(b, mb, ma + mb, w);
  }

  lemma SelectNames(c: Expr, t: Expr, f: Expr)
    ensures Names(Select(c, t, f)) == Names(c) + Names(t) + Names(f)
  {}

  lemma JoinSelect(c: Expr, t: Expr, f: Expr, mc: map<Name, int>, mt: map<Name, int>, mf: map<Name, int>,
                   scope: Scope, w: World, v: int, x: int, y: int)
    requires Scoped(c, scope) !! Scoped(t, scope) !! Scoped(f, scope)
    requires Reaches(mc, c, scope, w, v) && Reaches(mt, t, scope, w, x) && Reaches(mf, f, scope, w, y)
    ensures Reaches(mc + mt + mf, Select(c, t, f), scope, w, if v != 0 then x else y)
  {
    hide In, Eval, Names, With;
    var m := mc + mt + mf;
    SameRun(c, mc, m, w);
    SameRun(t, mt, m, w);
    SameRun(f, mf, m, w);
    EvalSelect(c, t, f, With(w, m));
    SelectNames(c, t, f);
    assert m.Keys == Scoped(Select(c, t, f), scope);
  }

  lemma VarReached(x: Name, scope: Scope, k: nat, w: World) returns (lo: map<Name, int>, hi: map<Name, int>)
    requires (x in scope || !x.vec) && ScopeGood(scope, k) && Ranges(Var(x), scope, w)
    ensures var i := VarBounds(x, scope, false);
            BothReached(lo, hi, Var(x), scope, w, i)
  {
    if x in scope {
      var i := scope[x];
      assert x in Scoped(Var(x), scope);
      assert IvGood(i, x.ty, k);
      if x.ty.BoolT? { IvGoodMeaning(i, x.ty, k); BoolEnds(i, w); }
      lo, hi := map[x := Eval(i.min.e, w, 0)], map[x := Eval(i.max.e, w, 0)];
    } else {
      lo, hi := map[], map[];
    }
  }

  /** On a read-once expression whose scoped variables have finite non-empty
      ranges, the interval is finite and a run inside the scope reaches each end. */
  lemma {:induction false} BoundsReached(e: Expr, ty: Ty, scope: Scope, c: Ctx, k: nat, w: World)
    returns (lo: map<Name, int>, hi: map<Name, int>)
    requires HasTy(e, ty) && Below(Names(e), k) && ReadOnce(e, scope) && !c.constBound
    requires ScopeGood(scope, k) && FuncsGood(c.funcBounds, k) && Ranges(e, scope, w)
    ensures BothReached(lo, hi, e, scope, w, BoundsOf(e, scope, c, k).0)
    decreases e, 1
  {
    match e
    case Const(_, _) => lo, hi := map[], map[];
    case Var(x) => lo, hi := VarReached(x, scope, k, w);
    case Un(op, a) => lo, hi := UnReached(op, a, ty, scope, c, k, w);
    case Bin(op, a, b) =>
      OperandTypes(op, a, b, ty);
      RangesParts(a, e, scope, w);
      RangesParts(b, e, scope, w);
      lo, hi := BinOfReached(op, a, b, scope, c, k, w);
    case Select(cond, t, f) =>
      RangesParts(cond, e, scope, w);
      RangesParts(t, e, scope, w);
      RangesParts(f, e, scope, w);
      lo, hi := SelectOfReached(cond, t, f, ty, scope, c, k, w);
  }

  lemma BinOfReached(op: BinOp, a: Expr, b: Expr, scope: Scope, c: Ctx, k: nat, w: World)
    returns (lo: map<Name, int>, hi: map<Name, int>)
    requires HasTy(a, TypeOf(a)) && HasTy(b, TypeOf(b)) && (op.And? || op.Or? ==> TypeOf(a).BoolT? && TypeOf(b).BoolT?)
    requires Below(Names(a), k) && Below(Names(b), k)
    requires ReadOnce(Bin(op, a, b), scope) && !c.constBound && ScopeGood(scope, k) && FuncsGood(c.funcBounds, k)
    requires Ranges(a, scope, w) && Ranges(b, scope, w)
    ensures BothReached(lo, hi, Bin(op, a, b), scope, w, BoundsOf(Bin(op, a, b), scope, c, k).0)
    decreases Bin(op, a, b), 0
  {
    hide BothReached, HasTy, Names, Ranges, IvGood, BoundsOf, ReadOnce;
    if op.GT? || op.GE? {
      lo, hi := MoreReached(op, a, b, scope, c, k, w);
    } else if op.LT? || op.LE? {
      lo, hi := LessReached(op, a, b, scope, c, k, w);
    } else {
      lo, hi := OtherReached(op, a, b, scope, c, k, w);
    }
  }

  lemma MoreReached(op: BinOp, a: Expr, b: Expr, scope: Scope, c: Ctx, k: nat, w: World)
    returns (lo: map<Name, int>, hi: map<Name, int>)
    requires HasTy(a, TypeOf(a)) && HasTy(b, TypeOf(b)) && (op.And? || op.Or? ==> TypeOf(a).BoolT? && TypeOf(b).BoolT?)
    requires Below(Names(a), k) && Below(Names(b), k)
    requires ReadOnce(Bin(op, a, b), scope) && !c.constBound && ScopeGood(scope, k) && FuncsGood(c.funcBounds, k)
    requires Ranges(a, scope, w) && Ranges(b, scope, w)
    requires op.GT? || op.GE?
    ensures BothReached(lo, hi, Bin(op, a, b), scope, w, BoundsOf(Bin(op, a, b), scope, c, k).0)
    decreases Bin(op, a, b), -1
  {
    hide BothReached, HasTy, Names, Ranges, IvGood;
    var lob, hib := BoundsReached(b, TypeOf(b), scope, c, k, w);
    var k1 := BoundsOf(b, scope, c, k).1;
    LaterShape(scope, c.funcBounds, k, k1);
    var loa, hia := BoundsReached(a, TypeOf(a), scope, c, k1, w);
    CompareJoined(op, a, b, loa, hia, lob, hib, scope, c, k, w);
    lo, hi := loa + hib, hia + lob;
  }

  lemma LessReached(op: BinOp, a: Expr, b: Expr, scope: Scope, c: Ctx, k: nat, w: World)
    returns (lo: map<Name, int>, hi: map<Name, int>)
    requires HasTy(a, TypeOf(a)) && HasTy(b, TypeOf(b)) && (op.And? || op.Or? ==> TypeOf(a).BoolT? && TypeOf(b).BoolT?)
    requires Below(Names(a), k) && Below(Names(b), k)
    requires ReadOnce(Bin(op, a, b), scope) && !c.constBound && ScopeGood(scope, k) && FuncsGood(c.funcBounds, k)
    requires Ranges(a, scope, w) && Ranges(b, scope, w)
    requires op.LT? || op.LE?
    ensures BothReached(lo, hi, Bin(op, a, b), scope, w, BoundsOf(Bin(op, a, b), scope, c, k).0)
    decreases Bin(op, a, b), -1
  {
    hide BothReached, HasTy, Names, Ranges, IvGood;
    var loa, hia := BoundsReached(a, TypeOf(a), scope, c, k, w);
    var k1 := BoundsOf(a, scope, c, k).1;
    LaterShape(scope, c.funcBounds, k, k1);
    var lob, hib := BoundsReached(b, TypeOf(b), scope, c, k1, w);
    CompareJoined(op, a, b, loa, hia, lob, hib, scope, c, k, w);
    lo, hi := hia + lob, loa + hib;
  }

  lemma OtherReached(op: BinOp, a: Expr, b: Expr, scope: Scope, c: Ctx, k: nat, w: World)
    returns (lo: map<Name, int>, hi: map<Name, int>)
    requires HasTy(a, TypeOf(a)) && HasTy(b, TypeOf(b)) && (op.And? || op.Or? ==> TypeOf(a).BoolT? && TypeOf(b).BoolT?)
    requires Below(Names(a), k) && Below(Names(b), k)
    requires ReadOnce(Bin(op, a, b), scope) && !c.constBound && ScopeGood(scope, k) && FuncsGood(c.funcBounds, k)
    requires Ranges(a, scope, w) && Ranges(b, scope, w)
    requires !op.LT? && !op.LE? && !op.GT? && !op.GE?
    ensures BothReached(lo, hi, Bin(op, a, b), scope, w, BoundsOf(Bin(op, a, b), scope, c, k).0)
    decreases Bin(op, a, b), -1
  {
    hide BothReached, HasTy, Names, Ranges, IvGood;
    var loa, hia := BoundsReached(a, TypeOf(a), scope, c, k, w);
    var k1 := BoundsOf(a, scope, c, k).1;
    LaterShape(scope, c.funcBounds, k, k1);
    var lob, hib := BoundsReached(b, TypeOf(b), scope, c, k1, w);
    BoundsShape(a, TypeOf(a), scope, c, k);
    BoundsShape(b, TypeOf(b), scope, c, k1);
    lo, hi := BinJoined(op, a, b, loa, hia, lob, hib, scope, c, k, w);
  }

  lemma SelectOfReached(cond: Expr, t: Expr, f: Expr, ty: Ty, scope: Scope, c: Ctx, k: nat, w: World)
    returns (lo: map<Name, int>, hi: map<Name, int>)
    requires HasTy(cond, BoolT) && HasTy(t, ty) && HasTy(f, ty)
    requires Below(Names(cond), k) && Below(Names(t), k) && Below(Names(f), k)
    requires ReadOnce(Select(cond, t, f), scope) && !c.constBound && ScopeGood(scope, k) && FuncsGood(c.funcBounds, k)
    requires Ranges(cond, scope, w) && Ranges(t, scope, w) && Ranges(f, scope, w)
    ensures BothReached(lo, hi, Select(cond, t, f), scope, w, SelectOf(cond, t, f, scope, c, k).0)
    decreases Select(cond, t, f), 0
  {
    hide BoundsOf, BothReached, SelectBounds, HasTy, Names, Ranges;
    TypeOfWellTyped(t, ty);
    SelectPartsShape(cond, t, f, ty, scope, c, k);
    var (it, k1) := BoundsOf(t, scope, c, k);
    var (jf, k2) := BoundsOf(f, scope, c, k1);
    var (ic, k3) := BoundsOf(cond, scope, c, k2);
    var lot, hit := BoundsReached(t, ty, scope, c, k, w);
    LaterShape(scope, c.funcBounds, k, k1);
    var lof, hif := BoundsReached(f, ty, scope, c, k1, w);
    LaterShape(scope, c.funcBounds, k1, k2);
    var loc, hic := BoundsReached(cond, BoolT, scope, c, k2, w);
    lo, hi := SelectJoined(cond, t, f, ty, loc, hic, lot, hit, lof, hif, scope, ic, it, jf, k3, w);
  }

  lemma RangesParts(a: Expr, e: Expr, scope: Scope, w: World)
    requires Names(a) <= Names(e) && Ranges(e, scope, w)
    ensures Ranges(a, scope, w)
  {
    forall x | x in Scoped(a, scope) ensures x in Scoped(e, scope) {}
  }

  lemma UnReached(op: UnOp, a: Expr, ty: Ty, scope: Scope, c: Ctx, k: nat, w: World)
    returns (lo: map<Name, int>, hi: map<Name, int>)
    requires HasTy(Un(op, a), ty) && Below(Names(a), k) && ReadOnce(a, scope) && !c.constBound && !op.Abs?
    requires ScopeGood(scope, k) && FuncsGood(c.funcBounds, k) && Ranges(a, scope, w)
    ensures BothReached(lo, hi, Un(op, a), scope, w, UnOf(op, a, scope, c, k).0)
    decreases a, 2
  {
    var loa, hia := BoundsReached(a, if op.Not? then BoolT else ty, scope, c, k, w);
    assert Scoped(Un(op, a), scope) == Scoped(a, scope);
    if op.Not? {
      var (ia, k1) := BoundsOf(a, scope, c, k);
      BoundsShape(a, BoolT, scope, c, k);
      IvGoodMeaning(ia, BoolT, k1);
      NotReached(a, ia, w);
      lo, hi := hia, loa;
    } else {
      lo, hi := loa, hia;
    }
  }

  lemma NotReached(ea: Expr, a: Interval, w: World)
    requires IvTyped(a, BoolT)
    ensures var i := NotBounds(ea, a);
            i.IsBounded() && End(i, false, w) == B2I(End(a, true, w) == 0)
                && End(i, true, w) == B2I(End(a, false, w) == 0)
  {
    BoolEnds(a, w);
    MakeNotValue(a.min.e, w);
    MakeNotValue(a.max.e, w);
  }

  lemma BoundsOfCompare(op: BinOp, a: Expr, b: Expr, scope: Scope, c: Ctx, k: nat)
    ensures op.GT? || op.GE? ==>
      BoundsOf(Bin(op, a, b), scope, c, k) == CompareOf(if op.GT? then LT else LE, b, a, scope, c, k)
    ensures op.LT? || op.LE? ==> BoundsOf(Bin(op, a, b), scope, c, k) == CompareOf(op, a, b, scope, c, k)
  {}

  lemma CompareJoined(op: BinOp, a: Expr, b: Expr, loa: map<Name, int>, hia: map<Name, int>,
                      lob: map<Name, int>, hib: map<Name, int>, scope: Scope, c: Ctx, k: nat, w: World)
    requires (op.LT? || op.LE? || op.GT? || op.GE?) && Scoped(a, scope) !! Scoped(b, scope)
    requires
      var (p, q) := if op.GT? || op.GE? then (b, a) else (a, b);
      var (lop, hip, loq, hiq) := if op.GT? || op.GE? then (lob, hib, loa, hia) else (loa, hia, lob, hib);
      var (ip, k1) := BoundsOf(p, scope, c, k);
      var iq := BoundsOf(q, scope, c, k1).0;
      BothReached(lop, hip, p, scope, w, ip) && BothReached(loq, hiq, q, scope, w, iq)
    ensures
      var i := BoundsOf(Bin(op, a, b), scope, c, k).0;
      var (lo, hi) := if op.GT? || op.GE? then (loa + hib, hia + lob) else (hia + lob, loa + hib);
      BothReached(lo, hi, Bin(op, a, b), scope, w, i)
  {
    hide BoundsOf, Reaches, Eval;
    var (p, q) := if op.GT? || op.GE? then (b, a) else (a, b);
    var op' := if op.GT? then LT else if op.GE? then LE else op;
    BoundsOfCompare(op, a, b, scope, c, k);
    var (ip, k1) := BoundsOf(p, scope, c, k);
    var iq := BoundsOf(q, scope, c, k1).0;
    CompareReached(op', ip, iq, w);
    if op.GT? || op.GE? {
      JoinBin(op, a, b, loa, hib, scope, w, End(iq, false, w), End(ip, true, w));
      JoinBin(op, a, b, hia, lob, scope, w, End(iq, true, w), End(ip, false, w));
    } else {
      JoinBin(op, a, b, hia, lob, scope, w, End(ip, true, w), End(iq, false, w));
      JoinBin(op, a, b, loa, hib, scope, w, End(ip, false, w), End(iq, true, w));
    }
  }

  lemma BinJoined(op: BinOp, a: Expr, b: Expr, loa: map<Name, int>, hia: map<Name, int>,
                  lob: map<Name, int>, hib: map<Name, int>, scope: Scope, c: Ctx, k: nat, w: World)
    returns (lo: map<Name, int>, hi: map<Name, int>)
    requires ExactOp(op) && !op.LT? && !op.LE? && !op.GT? && !op.GE? && Scoped(a, scope) !! Scoped(b, scope)
    requires
      var (ia, k1) := BoundsOf(a, scope, c, k);
      var (ib, k2) := BoundsOf(b, scope, c, k1);
      (op.And? || op.Or? ==> IvGood(ia, BoolT, k1) && IvGood(ib, BoolT, k2))
      && BothReached(loa, hia, a, scope, w, ia) && BothReached(lob, hib, b, scope, w, ib)
    ensures BothReached(lo, hi, Bin(op, a, b), scope, w, BinOf(op, a, b, scope, c, k).0)
  {
    hide BoundsOf, Reaches, Eval, BinBounds;
    var (ia, k1) := BoundsOf(a, scope, c, k);
    var (ib, k2) := BoundsOf(b, scope, c, k1);
    if op.And? || op.Or? { IvGoodMeaning(ia, BoolT, k1); IvGoodMeaning(ib, BoolT, k2); }
    var d := BinReached(op, a, b, ia, ib, c.oracle, w);
    var ma, mb := if d.0 then hia else loa, if d.1 then hib else lob;
    JoinBin(op, a, b, ma, mb, scope, w, End(ia, d.0, w), End(ib, d.1, w));
    lo := ma + mb;
    ma, mb := if d.2 then hia else loa, if d.3 then hib else lob;
    JoinBin(op, a, b, ma, mb, scope, w, End(ia, d.2, w), End(ib, d.3, w));
    hi := ma + mb;
  }

  lemma SelectJoined(cond: Expr, t: Expr, f: Expr, ty: Ty, loc: map<Name, int>, hic: map<Name, int>,
                     lot: map<Name, int>, hit: map<Name, int>, lof: map<Name, int>, hif: map<Name, int>,
                     scope: Scope, ic: Interval, it: Interval, jf: Interval, k: nat, w: World)
    returns (lo: map<Name, int>, hi: map<Name, int>)
    requires Scoped(cond, scope) !! Scoped(t, scope) !! Scoped(f, scope)
    requires IvTyped(ic, BoolT) && IvTyped(it, ty) && IvTyped(jf, ty)
    requires Below(IvNames(ic), k) && Below(IvNames(it), k) && Below(IvNames(jf), k)
    requires BothReached(loc, hic, cond, scope, w, ic)
    requires BothReached(lot, hit, t, scope, w, it) && BothReached(lof, hif, f, scope, w, jf)
    ensures BothReached(lo, hi, Select(cond, t, f), scope, w, SelectBounds(ic, it, jf, ty, k).0)
  {
    hide Reaches, Eval, SelectBounds, HasTy, Names;
    var p, q := SelectReached(ic, it, jf, ty, k, w);
    var mc := if p then hic else loc;
    JoinSelect(cond, t, f, mc, lot, lof, scope, w, End(ic, p, w), End(it, false, w), End(jf, false, w));
    lo := mc + lot + lof;
    mc := if q then hic else loc;
    JoinSelect(cond, t, f, mc, hit, hif, scope, w, End(ic, q, w), End(it, true, w), End(jf, true, w));
    hi := mc + hit + hif;
  }

  /** The ends of a selection are what some end of the condition selects. */
  lemma SelectReached(cond: Interval, a: Interval, b: Interval, ty: Ty, k: nat, w: World) returns (p: bool, q: bool)
    requires cond.IsBounded() && a.IsBounded() && b.IsBounded()
    requires IvTyped(cond, BoolT) && IvTyped(a, ty) && IvTyped(b, ty)
    requires Below(IvNames(cond), k) && Below(IvNames(a), k) && Below(IvNames(b), k)
    ensures var i := SelectBounds(cond, a, b, ty, k).0;
            i.IsBounded()
            && End(i, false, w) == (if End(cond, p, w) != 0 then End(a, false, w) else End(b, false, w))
            && End(i, true, w) == (if End(cond, q, w) != 0 then End(a, true, w) else End(b, true, w))
  {
    hide Eval, SelectEnd, HasTy, Names;
    if cond.IsPoint() && (IsOne(cond.min) || IsZero(cond.min)) {
      EvalConstExpr(cond.min.e, w);
      p, q := false, false;
    } else {
      var k1 := SelectEnd(true, cond, a.min.e, b.min.e, ty, k).1;
      SelectEndValue(true, cond, a.min.e, b.min.e, ty, k, w);
      SelectEndValue(false, cond, a.max.e, b.max.e, ty, k1, w);
      var i := SelectBounds(cond, a, b, ty, k).0;
      p := End(i, false, w) != Pick(cond.min.e, a.min.e, b.min.e, w);
      q := End(i, true, w) != Pick(cond.min.e, a.max.e, b.max.e, w);
    }
  }
}
