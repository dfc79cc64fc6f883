// Intervals whose ends are expressions or infinities (src/Interval.cpp).

module Intervals {
  import opened IR

  datatype Ext = NegInf | PosInf | Fin(e: Expr)

  datatype Interval = Interval(min: Ext, max: Ext) {
    predicate IsEmpty() { min == PosInf || max == NegInf }
    predicate HasUpper() { max != PosInf && !IsEmpty() }
    predicate HasLower() { min != NegInf && !IsEmpty() }
    predicate IsBounded() { HasUpper() && HasLower() }
    predicate IsPoint() { IsBounded() && min == max }
    predicate IsPointOf(e: Expr) { IsBounded() && min == Fin(e) && max == Fin(e) }
  }

  const EVERYTHING := Interval(NegInf, PosInf)
  const NOTHING := Interval(PosInf, NegInf)

  function SinglePoint(e: Expr): Interval { Interval(Fin(e), Fin(e)) }

  /** `v` is at least the end `b`, and at most it. */
  ghost predicate Above(b: Ext, v: int, w: World) {
    match b
    case NegInf => true
    case PosInf => false
    case Fin(e) => Eval(e, w, 0) <= v
  }

  ghost predicate Under(b: Ext, v: int, w: World) {
    match b
    case NegInf => false
    case PosInf => true
    case Fin(e) => v <= Eval(e, w, 0)
  }

  ghost predicate In(v: int, i: Interval, w: World) {
    Above(i.min, v, w) && Under(i.max, v, w)
  }

  // ----- make_max and make_min: the rewrite rules, in the order they are tried -----

  predicate IsConst(b: Ext) { b.Fin? && b.e.Const? }

  predicate IsBin(b: Ext, op: BinOp) { b.Fin? && b.e.Bin? && b.e.op == op }

  /** `b` is op(x, c) for a constant c. */
  predicate IsBinConst(b: Ext, op: BinOp) { IsBin(b, op) && b.e.b.Const? }

  function MakeMax(a: Ext, b: Ext): Ext {
    if a == b then a
    else if a == PosInf || b == PosInf then PosInf
    else if b == NegInf then a
    else if a == NegInf then b
    else if IsConst(a) && IsConst(b) then Fin(Const(MaxI(a.e.n, b.e.n), a.e.cty))
    else if IsConst(a) then Fin(Bin(Max, b.e, a.e))
    else if IsBinConst(a, Max) && IsConst(b) then Fin(Bin(Max, a.e.a, Const(MaxI(a.e.b.n, b.e.n), b.e.cty)))
    else if IsBinConst(a, Max) then Fin(Bin(Max, Bin(Max, a.e.a, b.e), a.e.b))
    else if IsBinConst(b, Max) then Fin(Bin(Max, Bin(Max, a.e, b.e.a), b.e.b))
    else if IsBin(a, Max) && (a.e.a == b.e || a.e.b == b.e) then a
    else if IsBin(b, Max) && (b.e.a == a.e || b.e.b == a.e) then b
    else Fin(Bin(Max, a.e, b.e))
  }

  function MakeMin(a: Ext, b: Ext): Ext {
    if a == b then a
    else if b == PosInf then a
    else if a == PosInf then b
    else if a == NegInf || b == NegInf then NegInf
    else if IsConst(a) && IsConst(b) then Fin(Const(MinI(a.e.n, b.e.n), a.e.cty))
    else if IsConst(a) then Fin(Bin(Min, b.e, a.e))
    else if IsBinConst(a, Min) && IsConst(b) then Fin(Bin(Min, a.e.a, Const(MinI(a.e.b.n, b.e.n), b.e.cty)))
    else if IsBinConst(a, Min) then Fin(Bin(Min, Bin(Min, a.e.a, b.e), a.e.b))
    else if IsBinConst(b, Min) then Fin(Bin(Min, Bin(Min, a.e, b.e.a), b.e.b))
    else if IsBin(a, Min) && (a.e.a == b.e || a.e.b == b.e) then a
    else if IsBin(b, Min) && (b.e.a == a.e || b.e.b == a.e) then b
    else Fin(Bin(Min, a.e, b.e))
  }

  lemma EvalBinIs(op: BinOp, a: Expr, b: Expr, w: World)
    ensures Eval(Bin(op, a, b), w, 0) == EvalBin(op, Eval(a, w, 0), Eval(b, w, 0))
  {}

  lemma EvalMax(a: Expr, b: Expr, w: World)
    ensures Eval(Bin(Max, a, b), w, 0) == MaxI(Eval(a, w, 0), Eval(b, w, 0))
  {}

  lemma EvalMin(a: Expr, b: Expr, w: World)
    ensures Eval(Bin(Min, a, b), w, 0) == MinI(Eval(a, w, 0), Eval(b, w, 0))
  {}

  /** The values of the nested forms that the rewrite rules build. */
  lemma EvalNestedMax(a: Expr, b: Expr, w: World)
    ensures Eval(Bin(Max, a, b), w, 0) == MaxI(Eval(a, w, 0), Eval(b, w, 0))
    ensures a.Bin? && a.op.Max? ==> Eval(a, w, 0) == MaxI(Eval(a.a, w, 0), Eval(a.b, w, 0))
    ensures a.Bin? && a.op.Max? ==>
      Eval(Bin(Max, Bin(Max, a.a, b), a.b), w, 0) == MaxI(MaxI(Eval(a.a, w, 0), Eval(b, w, 0)), Eval(a.b, w, 0))
    ensures b.Bin? && b.op.Max? ==>
      Eval(Bin(Max, Bin(Max, a, b.a), b.b), w, 0) == MaxI(MaxI(Eval(a, w, 0), Eval(b.a, w, 0)), Eval(b.b, w, 0))
  {
    hide Eval, MaxI;
    EvalMax(a, b, w);
    if a.Bin? && a.op.Max? {
      EvalMax(a.a, a.b, w);
      EvalMax(a.a, b, w);
      EvalMax(Bin(Max, a.a, b), a.b, w);
    }
    if b.Bin? && b.op.Max? {
      EvalMax(a, b.a, w);
      EvalMax(Bin(Max, a, b.a), b.b, w);
    }
  }

  lemma EvalNestedMin(a: Expr, b: Expr, w: World)
    ensures Eval(Bin(Min, a, b), w, 0) == MinI(Eval(a, w, 0), Eval(b, w, 0))
    ensures a.Bin? && a.op.Min? ==> Eval(a, w, 0) == MinI(Eval(a.a, w, 0), Eval(a.b, w, 0))
    ensures a.Bin? && a.op.Min? ==>
      Eval(Bin(Min, Bin(Min, a.a, b), a.b), w, 0) == MinI(MinI(Eval(a.a, w, 0), Eval(b, w, 0)), Eval(a.b, w, 0))
    ensures b.Bin? && b.op.Min? ==>
      Eval(Bin(Min, Bin(Min, a, b.a), b.b), w, 0) == MinI(MinI(Eval(a, w, 0), Eval(b.a, w, 0)), Eval(b.b, w, 0))
  {
    hide Eval, MinI;
    EvalMin(a, b, w);
    if a.Bin? && a.op.Min? {
      EvalMin(a.a, a.b, w);
      EvalMin(a.a, b, w);
      EvalMin(Bin(Min, a.a, b), a.b, w);
    }
    if b.Bin? && b.op.Min? {
      EvalMin(a, b.a, w);
      EvalMin(Bin(Min, a, b.a), b.b, w);
    }
  }

  /** The rewriting keeps the meaning: exactly the values above both ends are
      above the maximum, and exactly the values under one end are under it. */
  lemma MakeMaxMeaning(a: Ext, b: Ext, v: int, w: World)
    ensures Above(MakeMax(a, b), v, w) <==> Above(a, v, w) && Above(b, v, w)
    ensures Under(MakeMax(a, b), v, w) <==> Under(a, v, w) || Under(b, v, w)
  {
    if a.Fin? && b.Fin? {
      EvalNestedMax(a.e, b.e, w);
      EvalNestedMax(b.e, a.e, w);
      if IsBinConst(a, Max) && IsConst(b) {
        EvalBinIs(Max, a.e.a, Const(MaxI(a.e.b.n, b.e.n), b.e.cty), w);
      }
    }
  }

  lemma MakeMinMeaning(a: Ext, b: Ext, v: int, w: World)
    ensures Above(MakeMin(a, b), v, w) <==> Above(a, v, w) || Above(b, v, w)
    ensures Under(MakeMin(a, b), v, w) <==> Under(a, v, w) && Under(b, v, w)
  {
    if a.Fin? && b.Fin? {
      EvalNestedMin(a.e, b.e, w);
      EvalNestedMin(b.e, a.e, w);
      if IsBinConst(a, Min) && IsConst(b) {
        EvalBinIs(Min, a.e.a, Const(MinI(a.e.b.n, b.e.n), b.e.cty), w);
      }
    }
  }

  /** Grow an interval to hold an expression, and to hold another interval. */
  function Include(i: Interval, e: Expr): Interval {
    Interval(MakeMin(i.min, Fin(e)), MakeMax(i.max, Fin(e)))
  }

  function IncludeInterval(i: Interval, j: Interval): Interval {
    Interval(MakeMin(i.min, j.min), MakeMax(i.max, j.max))
  }

  // ----- names and types of the ends -----

  function ExtNames(b: Ext): set<Name> { if b.Fin? then Names(b.e) else {} }

  function IvNames(i: Interval): set<Name> { ExtNames(i.min) + ExtNames(i.max) }

  ghost predicate ExtTyped(b: Ext, ty: Ty) { b.Fin? ==> HasTy(b.e, ty) }

  /** The ends have the type of what they bound; an interval of booleans is finite. */
  ghost predicate IvTyped(i: Interval, ty: Ty) {
    ExtTyped(i.min, ty) && ExtTyped(i.max, ty) && (ty.BoolT? ==> i.min.Fin? && i.max.Fin?)
  }

  /** An expression of type `ty` that calls no Func and mentions no name numbered `k` or later. */
  ghost predicate Good(e: Expr, ty: Ty, k: nat) { HasTy(e, ty) && IsPure(e) && Below(Names(e), k) }

  ghost predicate ExtGood(b: Ext, ty: Ty, k: nat) { b.Fin? ==> Good(b.e, ty, k) }

  ghost predicate IvGood(i: Interval, ty: Ty, k: nat) {
    ExtGood(i.min, ty, k) && ExtGood(i.max, ty, k) && (ty.BoolT? ==> i.min.Fin? && i.max.Fin?)
  }

  lemma IvGoodMeaning(i: Interval, ty: Ty, k: nat)
    ensures IvGood(i, ty, k) ==> IvTyped(i, ty) && Below(IvNames(i), k)
  {}

  lemma GoodLater(e: Expr, ty: Ty, k: nat, k': nat)
    requires Good(e, ty, k) && k <= k'
    ensures Good(e, ty, k')
  {}

  lemma IvGoodLater(i: Interval, ty: Ty, k: nat, k': nat)
    requires IvGood(i, ty, k) && k <= k'
    ensures IvGood(i, ty, k')
  {}

  predicate IsArith(op: BinOp) { op.Add? || op.Sub? || op.Mul? || op.Div? || op.Mod? }
  predicate IsExtreme(op: BinOp) { op.Min? || op.Max? }
  predicate IsCompare(op: BinOp) { op.LT? || op.LE? || op.GT? || op.GE? || op.EQ? || op.NE? }

  lemma GoodBin(op: BinOp, a: Expr, b: Expr, k: nat)
    ensures Below(Names(Bin(op, a, b)), k) <==> Below(Names(a), k) && Below(Names(b), k)
  {
    assert Names(Bin(op, a, b)) == Names(a) + Names(b);
  }

  /** How good expressions are built and taken apart. */
  lemma GoodRules(k: nat)
    ensures forall op: BinOp, a: Expr, b: Expr {:trigger Good(Bin(op, a, b), IntT, k)} ::
      IsArith(op) && Good(a, IntT, k) && Good(b, IntT, k) ==> Good(Bin(op, a, b), IntT, k)
    ensures forall op: BinOp, a: Expr, b: Expr, ty: Ty {:trigger Good(Bin(op, a, b), ty, k)} ::
      IsExtreme(op) ==> (Good(Bin(op, a, b), ty, k) <==> Good(a, ty, k) && Good(b, ty, k))
    ensures forall op: BinOp, a: Expr, b: Expr, ty: Ty
      {:trigger Good(Bin(op, a, b), BoolT, k), Good(a, ty, k)} ::
      IsCompare(op) && Good(a, ty, k) && Good(b, ty, k) ==> Good(Bin(op, a, b), BoolT, k)
    ensures forall op: BinOp, a: Expr, b: Expr {:trigger Good(Bin(op, a, b), BoolT, k)} ::
      (op.And? || op.Or?) && Good(a, BoolT, k) && Good(b, BoolT, k) ==> Good(Bin(op, a, b), BoolT, k)
    ensures forall n: int {:trigger Good(Const(n, IntT), IntT, k)} :: Good(Const(n, IntT), IntT, k)
    ensures Good(Const(0, BoolT), BoolT, k) && Good(Const(1, BoolT), BoolT, k)
    ensures forall a: Expr {:trigger Good(Un(Not, a), BoolT, k)} :: Good(a, BoolT, k) ==> Good(Un(Not, a), BoolT, k)
    ensures forall a: Expr {:trigger Good(Un(Abs, a), IntT, k)} :: Good(a, IntT, k) ==> Good(Un(Abs, a), IntT, k)
    ensures forall c: Expr, a: Expr, b: Expr, ty: Ty {:trigger Good(Select(c, a, b), ty, k)} ::
      Good(c, BoolT, k) && Good(a, ty, k) && Good(b, ty, k) ==> Good(Select(c, a, b), ty, k)
    ensures forall x: Name {:trigger Good(Var(x), x.ty, k)} :: x.serial < k ==> Good(Var(x), x.ty, k)
    ensures forall x: Name, v: Expr, b: Expr, ty: Ty {:trigger Good(Let(x, v, b), ty, k)} ::
      x.serial < k && Good(v, x.ty, k) && Good(b, ty, k) ==> Good(Let(x, v, b), ty, k)
  {
    forall op: BinOp, a: Expr, b: Expr {
      GoodBin(op, a, b, k);
    }
    forall op: BinOp, a: Expr, b: Expr, ty: Ty {:trigger HasTy(Bin(op, a, b), BoolT), HasTy(a, ty)}
      | IsCompare(op) && HasTy(a, ty) && HasTy(b, ty)
      ensures HasTy(Bin(op, a, b), BoolT)
    {
      CompareTyped(op, a, b, ty);
    }
  }

  lemma CompareTyped(op: BinOp, a: Expr, b: Expr, ty: Ty)
    requires IsCompare(op) && HasTy(a, ty) && HasTy(b, ty)
    ensures HasTy(Bin(op, a, b), BoolT)
  {
    match ty
    case IntT =>
    case BoolT =>
  }

  /** The type of a constant may be any type it was given, so folding needs only the parts. */
  lemma MakeMaxGood(a: Ext, b: Ext, ty: Ty, k: nat)
    requires ExtGood(a, ty, k) && ExtGood(b, ty, k)
    ensures ExtGood(MakeMax(a, b), ty, k)
  {
    hide Good;
    GoodRules(k);
    GoodConst(Max, a, b, ty, k);
  }

  lemma MakeMinGood(a: Ext, b: Ext, ty: Ty, k: nat)
    requires ExtGood(a, ty, k) && ExtGood(b, ty, k)
    ensures ExtGood(MakeMin(a, b), ty, k)
  {
    hide Good;
    GoodRules(k);
    GoodConst(Min, a, b, ty, k);
  }

  /** Folding two constants of a type gives a constant of that type. */
  lemma GoodConst(op: BinOp, a: Ext, b: Ext, ty: Ty, k: nat)
    requires IsExtreme(op) && ExtGood(a, ty, k) && ExtGood(b, ty, k)
    ensures IsConst(a) && IsConst(b) ==>
      Good(Const(MaxI(a.e.n, b.e.n), a.e.cty), ty, k) && Good(Const(MinI(a.e.n, b.e.n), a.e.cty), ty, k)
    ensures IsBinConst(a, op) && IsConst(b) ==>
      Good(Const(MaxI(a.e.b.n, b.e.n), b.e.cty), ty, k) && Good(Const(MinI(a.e.b.n, b.e.n), b.e.cty), ty, k)
  {
    if IsBinConst(a, op) {
      MinMaxTyped(op, a.e.a, a.e.b, ty);
    }
  }

  lemma MinMaxTyped(op: BinOp, a: Expr, b: Expr, ty: Ty)
    requires IsExtreme(op)
    ensures HasTy(Bin(op, a, b), ty) <==> HasTy(a, ty) && HasTy(b, ty)
  {}

  /** Worlds that agree on an interval's names agree on what it contains. */
  lemma InAgree(v: int, i: Interval, w: World, w': World)
    requires Agree(IvNames(i), w, w')
    ensures In(v, i, w) <==> In(v, i, w')
  {
    if i.min.Fin? { EvalAgree(i.min.e, w, w', 0); }
    if i.max.Fin? { EvalAgree(i.max.e, w, w', 0); }
  }
}
