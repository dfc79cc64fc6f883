// One rule for each operator: the interval of a result from the intervals of
// the operands (the visit methods of src/Bounds.cpp). Each rule comes with
// what it promises: the interval holds every result (...Sound), and its ends
// have the right type and mention no new name (...Shape).

module BoundsRules {
  import opened IR
  import opened Intervals

  /** The simplifier and the prover are used only through what they promise. */
  datatype Oracle = Oracle(prove: Expr -> bool, simp: Expr -> Expr)

  ghost predicate SoundOracle(o: Oracle) {
    && (forall e: Expr, w: World :: o.prove(e) ==> Eval(e, w, 0) != 0)
    && (forall e: Expr, w: World, l: nat :: Eval(o.simp(e), w, l) == Eval(e, w, l))
    && (forall e: Expr :: Names(o.simp(e)) <= Names(e))
    && (forall e: Expr :: IsPure(e) ==> IsPure(o.simp(e)))
    && (forall e: Expr, ty: Ty :: HasTy(e, ty) ==> HasTy(o.simp(e), ty))
  }

  function BoundsOfType(ty: Ty): Interval {
    if ty.BoolT? then Interval(Fin(Const(0, BoolT)), Fin(Const(1, BoolT))) else EVERYTHING
  }

  predicate IsOne(b: Ext) { b.Fin? && b.e.Const? && b.e.n == 1 }
  predicate IsZero(b: Ext) { b.Fin? && b.e.Const? && b.e.n == 0 }
  predicate IsPositive(b: Ext) { b.Fin? && b.e.Const? && b.e.n > 0 }
  predicate IsNegative(b: Ext) { b.Fin? && b.e.Const? && b.e.n < 0 }

  function Neg(e: Expr): Expr { Bin(Sub, I(0), e) }

  function StaticSign(x: Expr, o: Oracle): int {
    if IsPositive(Fin(x)) then 1
    else if IsNegative(Fin(x)) then -1
    else if IsOne(Fin(o.simp(Bin(GT, x, I(0))))) then 1
    else if IsOne(Fin(o.simp(Bin(LT, x, I(0))))) then -1
    else 0
  }

  // ----- addition, subtraction -----

  function AddBounds(ea: Expr, eb: Expr, a: Interval, b: Interval): Interval {
    if a.IsPointOf(ea) && b.IsPointOf(eb) then SinglePoint(Bin(Add, ea, eb))
    else if a.IsPoint() && b.IsPoint() then SinglePoint(Bin(Add, a.min.e, b.min.e))
    else
      Interval(
        if a.HasLower() && b.HasLower() then Fin(Bin(Add, a.min.e, b.min.e)) else NegInf,
        if a.HasUpper() && b.HasUpper() then Fin(Bin(Add, a.max.e, b.max.e)) else PosInf)
  }

  function SubBounds(ea: Expr, eb: Expr, a: Interval, b: Interval): Interval {
    if a.IsPointOf(ea) && b.IsPointOf(eb) then SinglePoint(Bin(Sub, ea, eb))
    else if a.IsPoint() && b.IsPoint() then SinglePoint(Bin(Sub, a.min.e, b.min.e))
    else
      Interval(
        if a.HasLower() && b.HasUpper() then Fin(Bin(Sub, a.min.e, b.max.e)) else NegInf,
        if a.HasUpper() && b.HasLower() then Fin(Bin(Sub, a.max.e, b.min.e)) else PosInf)
  }

  lemma AddSound(ea: Expr, eb: Expr, a: Interval, b: Interval, x: int, y: int, w: World)
    requires In(x, a, w) && In(y, b, w)
    ensures In(x + y, AddBounds(ea, eb, a, b), w)
  {
    hide Eval;
    EvalBinIs(Add, ea, eb, w);
    if a.min.Fin? && b.min.Fin? { EvalBinIs(Add, a.min.e, b.min.e, w); }
    if a.max.Fin? && b.max.Fin? { EvalBinIs(Add, a.max.e, b.max.e, w); }
  }

  lemma SubSound(ea: Expr, eb: Expr, a: Interval, b: Interval, x: int, y: int, w: World)
    requires In(x, a, w) && In(y, b, w)
    ensures In(x - y, SubBounds(ea, eb, a, b), w)
  {
    hide Eval;
    EvalBinIs(Sub, ea, eb, w);
    if a.min.Fin? && b.min.Fin? { EvalBinIs(Sub, a.min.e, b.min.e, w); }
    if a.min.Fin? && b.max.Fin? { EvalBinIs(Sub, a.min.e, b.max.e, w); }
    if a.max.Fin? && b.min.Fin? { EvalBinIs(Sub, a.max.e, b.min.e, w); }
  }

  // ----- multiplication -----

  function ScaleBounds(a: Interval, b: Expr): Interval {
    var e1 := if a.HasLower() then Fin(Bin(Mul, a.min.e, b)) else a.min;
    var e2 := if a.HasUpper() then Fin(Bin(Mul, a.max.e, b)) else a.max;
    if IsZero(Fin(b)) then SinglePoint(b)
    else if IsPositive(Fin(b)) then Interval(e1, e2)
    else if IsNegative(Fin(b)) then
      Interval(if e2 == PosInf then NegInf else e2, if e1 == NegInf then PosInf else e1)
    else if a.IsBounded() then
      var cmp := Bin(GE, b, I(0));
      Interval(Fin(Select(cmp, e1.e, e2.e)), Fin(Select(cmp, e2.e, e1.e)))
    else EVERYTHING
  }

  function MulBounds(ea: Expr, eb: Expr, a: Interval, b: Interval): Interval {
    // Move constants to the right.
    if a.IsPoint() && !b.IsPoint() then MulOrdered(ea, eb, b, a) else MulOrdered(ea, eb, a, b)
  }

  function MulOrdered(ea: Expr, eb: Expr, a: Interval, b: Interval): Interval {
    if a.IsPointOf(ea) && b.IsPointOf(eb) then SinglePoint(Bin(Mul, ea, eb))
    else if a.IsPoint() && b.IsPoint() then SinglePoint(Bin(Mul, a.min.e, b.min.e))
    else if b.IsPoint() then ScaleBounds(a, b.min.e)
    else if a.IsBounded() && b.IsBounded() then
      Include4(Bin(Mul, a.min.e, b.min.e), Bin(Mul, a.min.e, b.max.e),
               Bin(Mul, a.max.e, b.min.e), Bin(Mul, a.max.e, b.max.e))
    else EVERYTHING
  }

  /** The interval that starts empty and includes four expressions in turn. */
  function Include4(e1: Expr, e2: Expr, e3: Expr, e4: Expr): Interval {
    Include(Include(Include(Include(NOTHING, e1), e2), e3), e4)
  }

  lemma IncludeMeaning(i: Interval, e: Expr, v: int, w: World)
    ensures Above(Include(i, e).min, v, w) <==> Above(i.min, v, w) || Eval(e, w, 0) <= v
    ensures Under(Include(i, e).max, v, w) <==> Under(i.max, v, w) || v <= Eval(e, w, 0)
  {
    hide Eval, MakeMin, MakeMax;
    MakeMinMeaning(i.min, Fin(e), v, w);
    MakeMaxMeaning(i.max, Fin(e), v, w);
  }

  /** Four included expressions: whatever lies between two of them is held. */
  lemma Include4Meaning(e1: Expr, e2: Expr, e3: Expr, e4: Expr, v: int, w: World)
    ensures
      In(v, Include4(e1, e2, e3, e4), w) <==>
        (Eval(e1, w, 0) <= v || Eval(e2, w, 0) <= v || Eval(e3, w, 0) <= v || Eval(e4, w, 0) <= v) &&
        (v <= Eval(e1, w, 0) || v <= Eval(e2, w, 0) || v <= Eval(e3, w, 0) || v <= Eval(e4, w, 0))
  {
    assert !Above(PosInf, v, w) && !Under(NegInf, v, w);
    hide Eval, Include, MakeMin, MakeMax, Above, Under;
    var i1 := Include(NOTHING, e1);
    var i2 := Include(i1, e2);
    var i3 := Include(i2, e3);
    IncludeMeaning(NOTHING, e1, v, w);
    IncludeMeaning(i1, e2, v, w);
    IncludeMeaning(i2, e3, v, w);
    IncludeMeaning(i3, e4, v, w);
  }

  lemma MulMonotone(x: int, y: int, k: int)
    requires x <= y
    ensures k >= 0 ==> x * k <= y * k
    ensures k <= 0 ==> x * k >= y * k
  {}

  lemma MulCorners(x: int, xl: int, xh: int, y: int, yl: int, yh: int)
    requires xl <= x <= xh && yl <= y <= yh
    ensures xl * yl <= x * y || xl * yh <= x * y || xh * yl <= x * y || xh * yh <= x * y
    ensures x * y <= xl * yl || x * y <= xl * yh || x * y <= xh * yl || x * y <= xh * yh
  {
    MulMonotone(xl, x, y);
    MulMonotone(x, xh, y);
    MulMonotone(yl, y, xl);
    MulMonotone(y, yh, xl);
    MulMonotone(yl, y, xh);
    MulMonotone(y, yh, xh);
  }

  lemma ScaleSound(a: Interval, b: Expr, x: int, w: World)
    requires In(x, a, w)
    ensures In(x * Eval(b, w, 0), ScaleBounds(a, b), w)
  {
    hide Eval;
    var y := Eval(b, w, 0);
    if b.Const? { EvalConstExpr(b, w); }
    if a.min.Fin? {
      MulMonotone(Eval(a.min.e, w, 0), x, y);
      EvalBinIs(Mul, a.min.e, b, w);
    }
    if a.max.Fin? {
      MulMonotone(x, Eval(a.max.e, w, 0), y);
      EvalBinIs(Mul, a.max.e, b, w);
    }
    if a.IsBounded() {
      var e1, e2, cmp := Bin(Mul, a.min.e, b), Bin(Mul, a.max.e, b), Bin(GE, b, I(0));
      EvalConst(0, w);
      EvalBinIs(GE, b, I(0), w);
      EvalSelect(cmp, e1, e2, w);
      EvalSelect(cmp, e2, e1, w);
    }
  }

  lemma MulSpreadSound(a: Interval, b: Interval, x: int, y: int, w: World)
    requires a.IsBounded() && b.IsBounded() && In(x, a, w) && In(y, b, w)
    ensures In(x * y, Include4(Bin(Mul, a.min.e, b.min.e), Bin(Mul, a.min.e, b.max.e),
                               Bin(Mul, a.max.e, b.min.e), Bin(Mul, a.max.e, b.max.e)), w)
  {
    hide Eval, Include4;
    MulCorners(x, Eval(a.min.e, w, 0), Eval(a.max.e, w, 0), y, Eval(b.min.e, w, 0), Eval(b.max.e, w, 0));
    EvalBinIs(Mul, a.min.e, b.min.e, w);
    EvalBinIs(Mul, a.min.e, b.max.e, w);
    EvalBinIs(Mul, a.max.e, b.min.e, w);
    EvalBinIs(Mul, a.max.e, b.max.e, w);
    Include4Meaning(Bin(Mul, a.min.e, b.min.e), Bin(Mul, a.min.e, b.max.e),
                    Bin(Mul, a.max.e, b.min.e), Bin(Mul, a.max.e, b.max.e), x * y, w);
  }

  lemma MulOrderedSound(ea: Expr, eb: Expr, a: Interval, b: Interval, x: int, y: int, w: World)
    requires In(x, a, w) && In(y, b, w)
    ensures In(x * y, MulOrdered(ea, eb, a, b), w)
  {
    hide Eval, Include4, ScaleBounds;
    if a.IsPoint() && b.IsPoint() {
      EvalBinIs(Mul, a.min.e, b.min.e, w);
    } else if b.IsPoint() {
      ScaleSound(a, b.min.e, x, w);
    } else if a.IsBounded() && b.IsBounded() {
      MulSpreadSound(a, b, x, y, w);
    }
  }

  lemma MulSound(ea: Expr, eb: Expr, a: Interval, b: Interval, x: int, y: int, w: World)
    requires In(x, a, w) && In(y, b, w)
    ensures In(x * y, MulBounds(ea, eb, a, b), w)
  {
    hide MulOrdered, In;
    MulOrderedSound(ea, eb, a, b, x, y, w);
    MulOrderedSound(ea, eb, b, a, y, x, w);
  }

  // ----- division -----

  /** A divisor about which nothing is known. */
  function DivUnknown(a: Interval, o: Oracle): Interval {
    if !a.IsBounded() then EVERYTHING
    else if o.prove(Bin(GE, a.min.e, I(0))) then Interval(Fin(Neg(a.max.e)), a.max)
    else if o.prove(Bin(LE, a.max.e, I(0))) then Interval(a.min, Fin(Neg(a.min.e)))
    else if a.IsPoint() then Interval(Fin(Neg(Un(Abs, a.min.e))), Fin(Un(Abs, a.max.e)))
    else Interval(Fin(Bin(Min, Neg(a.max.e), a.min.e)), Fin(Bin(Max, Neg(a.min.e), a.max.e)))
  }

  /** A divisor whose two ends are provably equal. */
  function DivFixed(a: Interval, b: Interval, o: Oracle): Interval
    requires b.IsBounded()
  {
    var e1 := if a.HasLower() then Fin(Bin(Div, a.min.e, b.min.e)) else a.min;
    var e2 := if a.HasUpper() then Fin(Bin(Div, a.max.e, b.max.e)) else a.max;
    if IsPositive(b.min) || o.prove(Bin(GE, b.min.e, I(0))) then Interval(e1, e2)
    else if IsNegative(b.min) || o.prove(Bin(LE, b.min.e, I(0))) then
      Interval(if e2 == PosInf then NegInf else e2, if e1 == NegInf then PosInf else e1)
    else if a.IsBounded() then
      var cmp := Bin(GT, b.min.e, I(0));
      Interval(Fin(Select(cmp, e1.e, e2.e)), Fin(Select(cmp, e2.e, e1.e)))
    else EVERYTHING
  }

  function DivBounds(ea: Expr, eb: Expr, a: Interval, b: Interval, o: Oracle): Interval {
    if !b.IsBounded() then DivUnknown(a, o)
    else if a.IsPointOf(ea) && b.IsPointOf(eb) then SinglePoint(Bin(Div, ea, eb))
    else if a.IsPoint() && b.IsPoint() then SinglePoint(Bin(Div, a.min.e, b.min.e))
    else if o.prove(Bin(EQ, b.min.e, b.max.e)) then DivFixed(a, b, o)
    else if a.IsBounded() then
      var minSign, maxSign := StaticSign(b.min.e, o), StaticSign(b.max.e, o);
      if minSign != maxSign || minSign == 0 || maxSign == 0 then
        // Division cannot make signed integers larger.
        Include4(a.min.e, a.max.e, Neg(a.min.e), Neg(a.max.e))
      else
        Include4(Bin(Div, a.min.e, b.min.e), Bin(Div, a.max.e, b.min.e),
                 Bin(Div, a.min.e, b.max.e), Bin(Div, a.max.e, b.max.e))
    else EVERYTHING
  }

  lemma DivShrinks(x: int, y: int)
    ensures -AbsI(x) <= DivImp(x, y) <= AbsI(x)
  {
    if y > 0 { DivByPositive(x, y); } else if y < 0 { DivByPositive(x, -y); DivNegate(x, y); }
  }

  lemma DivByPositive(x: int, y: int)
    requires y > 0
    ensures x >= 0 ==> 0 <= x / y <= x
    ensures x < 0 ==> x <= x / y < 0
  {
    var q := x / y;
    DivBracket(x, y);
    if x >= 0 {
      QuotientBelow(0, q, y);
      MulCommutes(1, y, q);
    } else {
      QuotientBelow(q + 1, 0, y);
      MulCommutes(1, y, q + 1);
    }
  }

  /** Euclidean quotients are determined by their remainder. */
  lemma DivUnique(x: int, y: int, q: int, r: int)
    requires y != 0 && x == q * y + r && 0 <= r < AbsI(y)
    ensures x / y == q
  {
    var q', r' := x / y, x % y;
    assert x == q' * y + r' && 0 <= r' < AbsI(y);
    assert (q - q') * y == r' - r;
    if q != q' {
      if q > q' { MulMonotone(1, q - q', AbsI(y)); } else { MulMonotone(q - q', -1, AbsI(y)); }
    }
  }

  lemma DivNegate(x: int, y: int)
    requires y != 0
    ensures x / y == -(x / -y)
  {
    assert x == (x / -y) * -y + x % -y;
    DivUnique(x, y, -(x / -y), x % -y);
  }

  lemma DivMonotone(x: int, x': int, y: int)
    requires x <= x'
    ensures y >= 0 ==> DivImp(x, y) <= DivImp(x', y)
    ensures y <= 0 ==> DivImp(x, y) >= DivImp(x', y)
  {
    if y > 0 { DivMonotonePositive(x, x', y); }
    if y < 0 {
      DivMonotonePositive(x, x', -y);
      DivNegate(x, y);
      DivNegate(x', y);
    }
  }

  lemma DivMonotonePositive(x: int, x': int, y: int)
    requires x <= x' && y > 0
    ensures x / y <= x' / y
  {
    DivBracket(x, y);
    DivBracket(x', y);
    QuotientBelow(x / y, x' / y, y);
  }

  /** A quotient by a positive divisor, as the pair of inequalities that determines it. */
  lemma DivBracket(x: int, y: int)
    requires y > 0
    ensures (x / y) * y <= x < (x / y + 1) * y
  {
    assert x == (x / y) * y + x % y;
    assert (x / y + 1) * y == (x / y) * y + y;
  }

  lemma QuotientBelow(q: int, q': int, y: int)
    requires y > 0 && q * y < (q' + 1) * y
    ensures q <= q'
  {
    if q > q' { MulMonotone(q' + 1, q, y); }
  }

  /** For a fixed dividend and divisors of one sign, quotients are monotone in the divisor. */
  lemma DivDivisorMonotone(x: int, y: int, y': int)
    requires 0 < y <= y'
    ensures x >= 0 ==> x / y >= x / y'
    ensures x < 0 ==> x / y <= x / y'
  {
    var q, q' := x / y, x / y';
    DivBracket(x, y);
    DivBracket(x, y');
    DivByPositive(x, y);
    DivByPositive(x, y');
    if x >= 0 {
      MulCommutes(y, y', q');
      QuotientBelow(q', q, y);
    } else {
      MulCommutes(y, y', q' + 1);
      QuotientBelow(q, q', y);
    }
  }

  lemma MulCommutes(y: int, y': int, k: int)
    requires y <= y'
    ensures k >= 0 ==> k * y <= k * y'
    ensures k <= 0 ==> k * y >= k * y'
  {
    MulMonotone(y, y', k);
  }

  /** The quotient by y lies between the quotients by the ends of a range of one sign around y. */
  lemma DivBetween(x: int, y: int, yl: int, yh: int)
    requires yl <= y <= yh && (yl > 0 || yh < 0)
    ensures x / yl <= x / y || x / yh <= x / y
    ensures x / y <= x / yl || x / y <= x / yh
  {
    if yl > 0 {
      DivDivisorMonotone(x, yl, y);
      DivDivisorMonotone(x, y, yh);
    } else {
      DivDivisorMonotone(x, -y, -yl);
      DivDivisorMonotone(x, -yh, -y);
      DivNegate(x, yl);
      DivNegate(x, y);
      DivNegate(x, yh);
    }
  }

  lemma DivCorners(x: int, xl: int, xh: int, y: int, yl: int, yh: int)
    requires xl <= x <= xh && yl <= y <= yh && (yl > 0 || yh < 0)
    ensures xl / yl <= x / y || xh / yl <= x / y || xl / yh <= x / y || xh / yh <= x / y
    ensures x / y <= xl / yl || x / y <= xh / yl || x / y <= xl / yh || x / y <= xh / yh
  {
    DivBetween(x, y, yl, yh);
    DivMonotone(xl, x, yl);
    DivMonotone(x, xh, yl);
    DivMonotone(xl, x, yh);
    DivMonotone(x, xh, yh);
  }

  lemma StaticSignSound(x: Expr, o: Oracle, w: World)
    requires SoundOracle(o)
    ensures StaticSign(x, o) == 1 ==> Eval(x, w, 0) > 0
    ensures StaticSign(x, o) == -1 ==> Eval(x, w, 0) < 0
  {
    var gt, lt := Bin(GT, x, I(0)), Bin(LT, x, I(0));
    assert Eval(gt, w, 0) == B2I(Eval(x, w, 0) > 0);
    assert Eval(lt, w, 0) == B2I(Eval(x, w, 0) < 0);
    assert Eval(o.simp(gt), w, 0) == Eval(gt, w, 0);
    assert Eval(o.simp(lt), w, 0) == Eval(lt, w, 0);
  }

  lemma DivUnknownSound(a: Interval, o: Oracle, x: int, y: int, w: World)
    requires SoundOracle(o) && In(x, a, w)
    ensures In(DivImp(x, y), DivUnknown(a, o), w)
  {
    DivShrinks(x, y);
    if a.IsBounded() {
      var lo, hi := a.min.e, a.max.e;
      assert o.prove(Bin(GE, lo, I(0))) ==> Eval(Bin(GE, lo, I(0)), w, 0) != 0;
      assert o.prove(Bin(LE, hi, I(0))) ==> Eval(Bin(LE, hi, I(0)), w, 0) != 0;
      assert Eval(Neg(hi), w, 0) == -Eval(hi, w, 0);
      assert Eval(Neg(lo), w, 0) == -Eval(lo, w, 0);
      assert Eval(Neg(Un(Abs, lo)), w, 0) == -AbsI(Eval(lo, w, 0));
    }
  }

  lemma DivFixedSound(a: Interval, b: Interval, o: Oracle, x: int, y: int, w: World)
    requires SoundOracle(o) && b.IsBounded() && o.prove(Bin(EQ, b.min.e, b.max.e))
    requires In(x, a, w) && In(y, b, w)
    ensures In(DivImp(x, y), DivFixed(a, b, o), w)
  {
    var d := b.min.e;
    assert Eval(Bin(EQ, d, b.max.e), w, 0) != 0;
    assert Eval(d, w, 0) == y && Eval(b.max.e, w, 0) == y;
    assert o.prove(Bin(GE, d, I(0))) ==> Eval(Bin(GE, d, I(0)), w, 0) != 0;
    assert o.prove(Bin(LE, d, I(0))) ==> Eval(Bin(LE, d, I(0)), w, 0) != 0;
    assert Eval(Bin(GT, d, I(0)), w, 0) == B2I(y > 0);
    if a.min.Fin? {
      DivMonotone(Eval(a.min.e, w, 0), x, y);
      assert Eval(Bin(Div, a.min.e, d), w, 0) == DivImp(Eval(a.min.e, w, 0), y);
    }
    if a.max.Fin? {
      DivMonotone(x, Eval(a.max.e, w, 0), y);
      assert Eval(Bin(Div, a.max.e, b.max.e), w, 0) == DivImp(Eval(a.max.e, w, 0), y);
    }
  }

  lemma DivSpreadSound(a: Interval, b: Interval, o: Oracle, x: int, y: int, w: World)
    requires SoundOracle(o) && a.IsBounded() && b.IsBounded()
    requires StaticSign(b.min.e, o) == StaticSign(b.max.e, o) != 0
    requires In(x, a, w) && In(y, b, w)
    ensures In(DivImp(x, y), Include4(Bin(Div, a.min.e, b.min.e), Bin(Div, a.max.e, b.min.e),
                                      Bin(Div, a.min.e, b.max.e), Bin(Div, a.max.e, b.max.e)), w)
  {
    hide Eval, Include4;
    StaticSignSound(b.min.e, o, w);
    StaticSignSound(b.max.e, o, w);
    DivCorners(x, Eval(a.min.e, w, 0), Eval(a.max.e, w, 0), y, Eval(b.min.e, w, 0), Eval(b.max.e, w, 0));
    EvalBinIs(Div, a.min.e, b.min.e, w);
    EvalBinIs(Div, a.max.e, b.min.e, w);
    EvalBinIs(Div, a.min.e, b.max.e, w);
    EvalBinIs(Div, a.max.e, b.max.e, w);
    Include4Meaning(Bin(Div, a.min.e, b.min.e), Bin(Div, a.max.e, b.min.e),
                    Bin(Div, a.min.e, b.max.e), Bin(Div, a.max.e, b.max.e), DivImp(x, y), w);
  }

  lemma EvalNeg(e: Expr, w: World)
    ensures Eval(Neg(e), w, 0) == -Eval(e, w, 0)
  {}

  lemma DivMixedSound(a: Interval, x: int, y: int, w: World)
    requires a.IsBounded() && In(x, a, w)
    ensures In(DivImp(x, y), Include4(a.min.e, a.max.e, Neg(a.min.e), Neg(a.max.e)), w)
  {
    hide Eval, Include4, Neg;
    DivShrinks(x, y);
    EvalNeg(a.min.e, w);
    EvalNeg(a.max.e, w);
    Include4Meaning(a.min.e, a.max.e, Neg(a.min.e), Neg(a.max.e), DivImp(x, y), w);
  }

  lemma DivSound(ea: Expr, eb: Expr, a: Interval, b: Interval, o: Oracle, x: int, y: int, w: World)
    requires SoundOracle(o) && In(x, a, w) && In(y, b, w)
    ensures In(DivImp(x, y), DivBounds(ea, eb, a, b, o), w)
  {
    hide Eval, Include4, DivUnknown, DivFixed, StaticSign, Neg;
    if !b.IsBounded() {
      DivUnknownSound(a, o, x, y, w);
    } else if a.IsPointOf(ea) && b.IsPointOf(eb) {
      EvalBinIs(Div, ea, eb, w);
    } else if a.IsPoint() && b.IsPoint() {
      EvalBinIs(Div, a.min.e, b.min.e, w);
    } else if o.prove(Bin(EQ, b.min.e, b.max.e)) {
      DivFixedSound(a, b, o, x, y, w);
    } else if a.IsBounded() {
      var minSign, maxSign := StaticSign(b.min.e, o), StaticSign(b.max.e, o);
      if minSign != maxSign || minSign == 0 || maxSign == 0 {
        DivMixedSound(a, x, y, w);
      } else {
        DivSpreadSound(a, b, o, x, y, w);
      }
    }
  }

  // ----- remainder -----

  function ModBounds(ea: Expr, eb: Expr, a: Interval, b: Interval, o: Oracle): Interval {
    if a.IsPointOf(ea) && b.IsPointOf(eb) then SinglePoint(Bin(Mod, ea, eb))
    else if !b.IsBounded() then
      // Remainders cannot make positive values larger.
      Interval(Fin(I(0)), if a.HasLower() && o.prove(Bin(GE, a.min.e, I(0))) then a.max else PosInf)
    else if IsPositive(b.min) then Interval(Fin(I(0)), Fin(Bin(Sub, b.max.e, I(1))))
    else
      Interval(Fin(I(0)),
               Fin(Bin(Max, Bin(Max, I(0), Bin(Sub, b.max.e, I(1))), Bin(Sub, I(-1), b.min.e))))
  }

  lemma ModShrinks(x: int, y: int)
    ensures 0 <= ModImp(x, y)
    ensures y > 0 ==> ModImp(x, y) <= y - 1
    ensures y < 0 ==> ModImp(x, y) <= -1 - y
    ensures x >= 0 ==> ModImp(x, y) <= x
  {
    if y != 0 && x >= 0 && x % y > x {
      var q := x / y;
      assert x == q * y + x % y;
      assert q * y < 0 && q * y > -AbsI(y);
      if y > 0 { MulMonotone(q, -1, y); } else { MulMonotone(1, q, y); }
    }
  }

  lemma ModSound(ea: Expr, eb: Expr, a: Interval, b: Interval, o: Oracle, x: int, y: int, w: World)
    requires SoundOracle(o) && In(x, a, w) && In(y, b, w)
    ensures In(ModImp(x, y), ModBounds(ea, eb, a, b, o), w)
  {
    hide Eval;
    ModShrinks(x, y);
    EvalConst(0, w);
    EvalConst(1, w);
    EvalConst(-1, w);
    EvalBinIs(Mod, ea, eb, w);
    if a.HasLower() { EvalBinIs(GE, a.min.e, I(0), w); }
    if b.IsBounded() {
      var m1, m2 := Bin(Sub, b.max.e, I(1)), Bin(Sub, I(-1), b.min.e);
      EvalBinIs(Sub, b.max.e, I(1), w);
      EvalBinIs(Sub, I(-1), b.min.e, w);
      EvalBinIs(Max, I(0), m1, w);
      EvalBinIs(Max, Bin(Max, I(0), m1), m2, w);
      if IsPositive(b.min) { EvalConst(b.min.e.n, w);
      assert Eval(b.min.e, w, 0) == b.min.e.n by { EvalConstExpr(b.min.e, w); } }
    }
  }

  lemma EvalConst(n: int, w: World)
    ensures Eval(I(n), w, 0) == n
  {}

  lemma EvalConstExpr(e: Expr, w: World)
    requires e.Const?
    ensures Eval(e, w, 0) == e.n
  {}

  // ----- minimum, maximum -----

  function MinBounds(ea: Expr, eb: Expr, a: Interval, b: Interval): Interval {
    if a.IsPointOf(ea) && b.IsPointOf(eb) then SinglePoint(Bin(Min, ea, eb))
    else if a.IsPoint() && b.IsPoint() then Interval(MakeMin(a.min, b.min), MakeMin(a.min, b.min))
    else Interval(MakeMin(a.min, b.min), MakeMin(a.max, b.max))
  }

  function MaxBounds(ea: Expr, eb: Expr, a: Interval, b: Interval): Interval {
    if a.IsPointOf(ea) && b.IsPointOf(eb) then SinglePoint(Bin(Max, ea, eb))
    else if a.IsPoint() && b.IsPoint() then Interval(MakeMax(a.min, b.min), MakeMax(a.min, b.min))
    else Interval(MakeMax(a.min, b.min), MakeMax(a.max, b.max))
  }

  lemma MinSound(ea: Expr, eb: Expr, a: Interval, b: Interval, x: int, y: int, w: World)
    requires In(x, a, w) && In(y, b, w)
    ensures In(MinI(x, y), MinBounds(ea, eb, a, b), w)
  {
    hide MakeMin, MakeMax;
    MakeMinMeaning(a.min, b.min, MinI(x, y), w);
    MakeMinMeaning(a.max, b.max, MinI(x, y), w);
  }

  lemma MaxSound(ea: Expr, eb: Expr, a: Interval, b: Interval, x: int, y: int, w: World)
    requires In(x, a, w) && In(y, b, w)
    ensures In(MaxI(x, y), MaxBounds(ea, eb, a, b), w)
  {
    hide MakeMin, MakeMax;
    MakeMaxMeaning(a.min, b.min, MaxI(x, y), w);
    MakeMaxMeaning(a.max, b.max, MaxI(x, y), w);
  }

  // ----- comparisons -----

  /** Less-than (or equal): the least end is a sufficient condition, the greatest a necessary one. */
  function CompareBounds(op: BinOp, a: Interval, b: Interval): Interval {
    Interval(
      if a.HasUpper() && b.HasLower() then Fin(Bin(op, a.max.e, b.min.e)) else Fin(Const(0, BoolT)),
      if a.HasLower() && b.HasUpper() then Fin(Bin(op, a.min.e, b.max.e)) else Fin(Const(1, BoolT)))
  }

  function EqBounds(ea: Expr, eb: Expr, a: Interval, b: Interval): Interval {
    if a.IsPointOf(ea) && b.IsPointOf(eb) then SinglePoint(Bin(EQ, ea, eb))
    else if a.IsPoint() && b.IsPoint() then SinglePoint(Bin(EQ, a.min.e, b.min.e))
    else
      Interval(Fin(Const(0, BoolT)),
        if a.IsBounded() && b.IsBounded() then
          Fin(Bin(And, Bin(LE, a.min.e, b.max.e), Bin(LE, b.min.e, a.max.e)))
        else if a.HasUpper() && b.HasLower() then Fin(Bin(LE, b.min.e, a.max.e))
        else if a.HasLower() && b.HasUpper() then Fin(Bin(LE, a.min.e, b.max.e))
        else Fin(Const(1, BoolT)))
  }

  function NeBounds(ea: Expr, eb: Expr, a: Interval, b: Interval): Interval {
    if a.IsPointOf(ea) && b.IsPointOf(eb) then SinglePoint(Bin(NE, ea, eb))
    else if a.IsPoint() && b.IsPoint() then SinglePoint(Bin(NE, a.min.e, b.min.e))
    else
      Interval(
        if a.IsBounded() && b.IsBounded() then
          Fin(Bin(Or, Bin(GT, a.min.e, b.max.e), Bin(GT, b.min.e, a.max.e)))
        else if a.HasUpper() && b.HasLower() then Fin(Bin(GT, b.min.e, a.max.e))
        else if a.HasLower() && b.HasUpper() then Fin(Bin(GT, a.min.e, b.max.e))
        else Fin(Const(0, BoolT)),
        Fin(Const(1, BoolT)))
  }

  lemma CompareSound(op: BinOp, a: Interval, b: Interval, x: int, y: int, w: World)
    requires op.LT? || op.LE?
    requires In(x, a, w) && In(y, b, w)
    ensures In(EvalBin(op, x, y), CompareBounds(op, a, b), w)
  {}

  lemma EqSound(ea: Expr, eb: Expr, a: Interval, b: Interval, x: int, y: int, w: World)
    requires In(x, a, w) && In(y, b, w)
    ensures In(B2I(x == y), EqBounds(ea, eb, a, b), w)
  {
    hide Eval;
    EvalConstExpr(Const(0, BoolT), w);
    EvalConstExpr(Const(1, BoolT), w);
    EvalBinIs(EQ, ea, eb, w);
    if a.min.Fin? && b.min.Fin? { EvalBinIs(EQ, a.min.e, b.min.e, w); }
    if a.min.Fin? && b.max.Fin? { EvalBinIs(LE, a.min.e, b.max.e, w); }
    if b.min.Fin? && a.max.Fin? { EvalBinIs(LE, b.min.e, a.max.e, w); }
    if a.IsBounded() && b.IsBounded() {
      EvalBinIs(And, Bin(LE, a.min.e, b.max.e), Bin(LE, b.min.e, a.max.e), w);
    }
  }

  lemma NeSound(ea: Expr, eb: Expr, a: Interval, b: Interval, x: int, y: int, w: World)
    requires In(x, a, w) && In(y, b, w)
    ensures In(B2I(x != y), NeBounds(ea, eb, a, b), w)
  {
    hide Eval;
    EvalConstExpr(Const(0, BoolT), w);
    EvalConstExpr(Const(1, BoolT), w);
    EvalBinIs(NE, ea, eb, w);
    if a.min.Fin? && b.min.Fin? { EvalBinIs(NE, a.min.e, b.min.e, w); }
    if a.min.Fin? && b.max.Fin? { EvalBinIs(GT, a.min.e, b.max.e, w); }
    if b.min.Fin? && a.max.Fin? { EvalBinIs(GT, b.min.e, a.max.e, w); }
    if a.IsBounded() && b.IsBounded() {
      EvalBinIs(Or, Bin(GT, a.min.e, b.max.e), Bin(GT, b.min.e, a.max.e), w);
    }
  }

  // ----- boolean connectives -----

  function MakeAnd(a: Expr, b: Expr): Expr {
    if IsOne(Fin(a)) then b
    else if IsOne(Fin(b)) then a
    else if IsZero(Fin(a)) then a
    else if IsZero(Fin(b)) then b
    else Bin(And, a, b)
  }

  function MakeOr(a: Expr, b: Expr): Expr {
    if IsOne(Fin(a)) then a
    else if IsOne(Fin(b)) then b
    else if IsZero(Fin(a)) then b
    else if IsZero(Fin(b)) then a
    else Bin(Or, a, b)
  }

  function MakeNot(e: Expr): Expr {
    if IsOne(Fin(e)) then Const(0, BoolT)
    else if IsZero(Fin(e)) then Const(1, BoolT)
    else Un(Not, e)
  }

  // An interval of booleans is always finite (see IvTyped), so the last branch
  // of these three is never taken; the compiler has no such branch.

  function AndBounds(ea: Expr, eb: Expr, a: Interval, b: Interval): Interval {
    if a.IsPointOf(ea) && b.IsPointOf(eb) then SinglePoint(Bin(And, ea, eb))
    else if a.IsPoint() && b.IsPoint() then SinglePoint(Bin(And, a.min.e, b.min.e))
    else if a.IsBounded() && b.IsBounded() then
      Interval(Fin(MakeAnd(a.min.e, b.min.e)), Fin(MakeAnd(a.max.e, b.max.e)))
    else BoundsOfType(BoolT)
  }

  function OrBounds(ea: Expr, eb: Expr, a: Interval, b: Interval): Interval {
    if a.IsPointOf(ea) && b.IsPointOf(eb) then SinglePoint(Bin(Or, ea, eb))
    else if a.IsPoint() && b.IsPoint() then SinglePoint(Bin(Or, a.min.e, b.min.e))
    else if a.IsBounded() && b.IsBounded() then
      Interval(Fin(MakeOr(a.min.e, b.min.e)), Fin(MakeOr(a.max.e, b.max.e)))
    else BoundsOfType(BoolT)
  }

  function NotBounds(ea: Expr, a: Interval): Interval {
    if a.IsPointOf(ea) then SinglePoint(Un(Not, ea))
    else if a.IsPoint() then SinglePoint(Un(Not, a.min.e))
    else if a.IsBounded() then Interval(Fin(MakeNot(a.max.e)), Fin(MakeNot(a.min.e)))
    else BoundsOfType(BoolT)
  }

  /** Simplifying a connective keeps its value on booleans. */
  lemma MakeAndValue(a: Expr, b: Expr, w: World)
    requires IsTruth(Eval(a, w, 0)) && IsTruth(Eval(b, w, 0))
    ensures Eval(MakeAnd(a, b), w, 0) == EvalBin(And, Eval(a, w, 0), Eval(b, w, 0))
  {
    hide Eval;
    EvalBinIs(And, a, b, w);
    if a.Const? { EvalConstExpr(a, w); }
    if b.Const? { EvalConstExpr(b, w); }
  }

  lemma MakeOrValue(a: Expr, b: Expr, w: World)
    requires IsTruth(Eval(a, w, 0)) && IsTruth(Eval(b, w, 0))
    ensures Eval(MakeOr(a, b), w, 0) == EvalBin(Or, Eval(a, w, 0), Eval(b, w, 0))
  {
    hide Eval;
    EvalBinIs(Or, a, b, w);
    if a.Const? { EvalConstExpr(a, w); }
    if b.Const? { EvalConstExpr(b, w); }
  }

  lemma MakeNotValue(a: Expr, w: World)
    requires IsTruth(Eval(a, w, 0))
    ensures Eval(MakeNot(a), w, 0) == B2I(Eval(a, w, 0) == 0)
  {}

  ghost predicate IsTruth(x: int) { x == 0 || x == 1 }

  lemma AndSound(ea: Expr, eb: Expr, a: Interval, b: Interval, x: int, y: int, w: World)
    requires In(x, a, w) && In(y, b, w) && IvTyped(a, BoolT) && IvTyped(b, BoolT)
    requires IsTruth(x) && IsTruth(y)
    ensures In(EvalBin(And, x, y), AndBounds(ea, eb, a, b), w)
  {
    hide Eval, HasTy, MakeAnd;
    BoolEnds(a, w);
    BoolEnds(b, w);
    MakeAndValue(a.min.e, b.min.e, w);
    MakeAndValue(a.max.e, b.max.e, w);
    EvalBinIs(And, ea, eb, w);
    EvalBinIs(And, a.min.e, b.min.e, w);
  }

  lemma OrSound(ea: Expr, eb: Expr, a: Interval, b: Interval, x: int, y: int, w: World)
    requires In(x, a, w) && In(y, b, w) && IvTyped(a, BoolT) && IvTyped(b, BoolT)
    requires IsTruth(x) && IsTruth(y)
    ensures In(EvalBin(Or, x, y), OrBounds(ea, eb, a, b), w)
  {
    hide Eval, HasTy, MakeOr;
    BoolEnds(a, w);
    BoolEnds(b, w);
    MakeOrValue(a.min.e, b.min.e, w);
    MakeOrValue(a.max.e, b.max.e, w);
    EvalBinIs(Or, ea, eb, w);
    EvalBinIs(Or, a.min.e, b.min.e, w);
  }

  lemma NotSound(ea: Expr, a: Interval, x: int, w: World)
    requires In(x, a, w) && IvTyped(a, BoolT) && IsTruth(x)
    ensures In(B2I(x == 0), NotBounds(ea, a), w)
  {
    BoolEnds(a, w);
    MakeNotValue(a.min.e, w);
    MakeNotValue(a.max.e, w);
  }

  lemma BoolEnds(a: Interval, w: World)
    requires IvTyped(a, BoolT)
    ensures IsTruth(Eval(a.min.e, w, 0)) && IsTruth(Eval(a.max.e, w, 0))
  {
    BoolValue(a.min.e, w, 0);
    BoolValue(a.max.e, w, 0);
  }

  // ----- absolute value -----

  function AbsBounds(a: Interval): Interval {
    if a.IsBounded() then
      if a.min == a.max then SinglePoint(Un(Abs, a.max.e))
      else
        Interval(Fin(Bin(Max, a.min.e, Neg(Bin(Min, I(0), a.max.e)))),
                 Fin(Bin(Max, Neg(a.min.e), a.max.e)))
    else
      Interval(
        if a.HasLower() then Fin(Bin(Max, I(0), a.min.e))
        else if a.HasUpper() then Fin(Neg(Bin(Min, I(0), a.max.e)))
        else Fin(I(0)),
        PosInf)
  }

  lemma AbsSound(a: Interval, x: int, w: World)
    requires In(x, a, w)
    ensures In(AbsI(x), AbsBounds(a), w)
  {
    if a.max.Fin? {
      var m := Bin(Min, I(0), a.max.e);
      assert Eval(m, w, 0) == MinI(0, Eval(a.max.e, w, 0));
      assert Eval(Neg(m), w, 0) == -Eval(m, w, 0);
      if a.min.Fin? {
        assert Eval(Neg(a.min.e), w, 0) == -Eval(a.min.e, w, 0);
        assert Eval(Bin(Max, a.min.e, Neg(m)), w, 0) == MaxI(Eval(a.min.e, w, 0), Eval(Neg(m), w, 0));
        assert Eval(Bin(Max, Neg(a.min.e), a.max.e), w, 0) == MaxI(-Eval(a.min.e, w, 0), Eval(a.max.e, w, 0));
      }
    }
  }

  // ----- selection -----

  function Fresh(base: string, k: nat, ty: Ty): Name { Name(base, k, ty, false) }

  function Extreme(isMin: bool, a: Expr, b: Expr): Expr
  {
    (if isMin then MakeMin(Fin(a), Fin(b)) else MakeMax(Fin(a), Fin(b))).e
  }

  /** One end of a selection whose condition lies in `cond` and is not known:
      the extreme of what the two ends of the condition select. Operands that
      would be repeated are named first. Also returns the next unused serial. */
  function SelectEnd(isMin: bool, cond: Interval, a: Expr, b: Expr, ty: Ty, k: nat): (r: (Expr, nat))
    requires cond.IsBounded()
    ensures r.1 >= k
  {
    var x, y := Fresh("t", k, ty), Fresh("t", k + 1, ty);
    if a == b then (a, k)
    else if cond.IsPoint() then (Select(cond.min.e, a, b), k)
    else if IsZero(cond.min) && IsOne(cond.max) then (Extreme(isMin, a, b), k)
    else if IsOne(cond.max) then
      (Let(x, a, Extreme(isMin, Select(cond.min.e, Var(x), b), Var(x))), k + 1)
    else if IsZero(cond.min) then
      (Let(x, b, Extreme(isMin, Select(cond.max.e, a, Var(x)), Var(x))), k + 1)
    else
      (Let(y, b, Let(x, a, Extreme(isMin, Select(cond.min.e, Var(x), Var(y)),
                                          Select(cond.max.e, Var(x), Var(y))))), k + 2)
  }

  function SelectBounds(cond: Interval, a: Interval, b: Interval, ty: Ty, k: nat): (r: (Interval, nat))
    ensures r.1 >= k
  {
    if cond.IsPoint() && IsOne(cond.min) then (a, k)
    else if cond.IsPoint() && IsZero(cond.min) then (b, k)
    else if !cond.IsBounded() then (EVERYTHING, k)  // never: the condition is a boolean
    else
      var (lo, k1) :=
        if !a.HasLower() || !b.HasLower() then (NegInf, k)
        else var (e, k') := SelectEnd(true, cond, a.min.e, b.min.e, ty, k); (Fin(e), k');
      var (hi, k2) :=
        if !a.HasUpper() || !b.HasUpper() then (PosInf, k1)
        else var (e, k') := SelectEnd(false, cond, a.max.e, b.max.e, ty, k1); (Fin(e), k');
      (Interval(lo, hi), k2)
  }

  lemma ExtremeValue(isMin: bool, a: Expr, b: Expr, w: World)
    ensures Eval(Extreme(isMin, a, b), w, 0) ==
            if isMin then MinI(Eval(a, w, 0), Eval(b, w, 0)) else MaxI(Eval(a, w, 0), Eval(b, w, 0))
  {
    hide MakeMin, MakeMax;
    var r, x, y := Eval(Extreme(isMin, a, b), w, 0), Eval(a, w, 0), Eval(b, w, 0);
    if isMin {
      MakeMinMeaning(Fin(a), Fin(b), r, w);
      MakeMinMeaning(Fin(a), Fin(b), MinI(x, y), w);
    } else {
      MakeMaxMeaning(Fin(a), Fin(b), r, w);
      MakeMaxMeaning(Fin(a), Fin(b), MaxI(x, y), w);
    }
  }

  /** The four forms in which a selection is written, one lemma each. */
  lemma SelectNamedTrue(isMin: bool, c: Expr, a: Expr, b: Expr, x: Name, w: World)
    requires x !in Names(b) && x !in Names(c) && !x.vec && HasTy(a, x.ty)
    ensures Eval(Let(x, a, Extreme(isMin, Select(c, Var(x), b), Var(x))), w, 0) ==
            Best(isMin, Pick(c, a, b, w), Eval(a, w, 0))
  {
    hide Extreme;
    var w1 := LetWorld(w, x, a);
    LetScalar(w, x, a, b);
    LetScalar(w, x, a, c);
    ExtremeValue(isMin, Select(c, Var(x), b), Var(x), w1);
  }

  lemma SelectNamedFalse(isMin: bool, c: Expr, a: Expr, b: Expr, x: Name, w: World)
    requires x !in Names(a) && x !in Names(c) && !x.vec && HasTy(b, x.ty)
    ensures Eval(Let(x, b, Extreme(isMin, Select(c, a, Var(x)), Var(x))), w, 0) ==
            Best(isMin, Pick(c, a, b, w), Eval(b, w, 0))
  {
    hide Extreme;
    var w1 := LetWorld(w, x, b);
    LetScalar(w, x, b, a);
    LetScalar(w, x, b, c);
    ExtremeValue(isMin, Select(c, a, Var(x)), Var(x), w1);
  }

  lemma SelectNamedFirst(isMin: bool, c1: Expr, c2: Expr, a: Expr, b: Expr, x: Name, w: World)
    requires !x.vec && HasTy(a, x.ty)
    requires x !in Names(c1) && x !in Names(c2) && x !in Names(b)
    ensures Eval(Let(x, a, Extreme(isMin, Select(c1, Var(x), b), Select(c2, Var(x), b))), w, 0) ==
            Best(isMin, Pick(c1, a, b, w), Pick(c2, a, b, w))
  {
    hide Extreme, Eval, LetWorld, Names, HasTy;
    var w' := LetWorld(w, x, a);
    LetScalar(w, x, a, c1);
    LetScalar(w, x, a, c2);
    LetScalar(w, x, a, b);
    var e1, e2 := Select(c1, Var(x), b), Select(c2, Var(x), b);
    ExtremeValue(isMin, e1, e2, w');
    EvalSelect(c1, Var(x), b, w');
    EvalSelect(c2, Var(x), b, w');
    EvalLet(x, a, Extreme(isMin, e1, e2), w);
  }

  lemma SelectNamedBoth(isMin: bool, c1: Expr, c2: Expr, a: Expr, b: Expr, x: Name, y: Name, w: World)
    requires x != y && !x.vec && !y.vec && HasTy(a, x.ty) && HasTy(b, y.ty)
    requires x !in Names(c1) && x !in Names(c2)
    requires y !in Names(a) && y !in Names(c1) && y !in Names(c2)
    ensures Eval(Let(y, b, Let(x, a, Extreme(isMin, Select(c1, Var(x), Var(y)), Select(c2, Var(x), Var(y))))), w, 0) ==
            Best(isMin, Pick(c1, a, b, w), Pick(c2, a, b, w))
  {
    assert Names(Var(y)) == {y};
    hide Extreme, Eval, LetWorld, Names, HasTy, MinI, MaxI;
    var w' := LetWorld(w, y, b);
    LetScalar(w, y, b, a);
    LetScalar(w, y, b, c1);
    LetScalar(w, y, b, c2);
    SelectNamedFirst(isMin, c1, c2, a, Var(y), x, w');
    EvalLet(y, b, Let(x, a, Extreme(isMin, Select(c1, Var(x), Var(y)), Select(c2, Var(x), Var(y)))), w);
  }

  function Best(isMin: bool, x: int, y: int): int { if isMin then MinI(x, y) else MaxI(x, y) }

  function Pick(c: Expr, a: Expr, b: Expr, w: World): int {
    if Eval(c, w, 0) != 0 then Eval(a, w, 0) else Eval(b, w, 0)
  }

  /** The end of a selection is the exact extreme over the two ends of the condition. */
  lemma SelectEndValue(isMin: bool, cond: Interval, a: Expr, b: Expr, ty: Ty, k: nat, w: World)
    requires cond.IsBounded()
    requires Below(Names(a), k) && Below(Names(b), k) && Below(IvNames(cond), k)
    requires HasTy(a, ty) && HasTy(b, ty)
    ensures Eval(SelectEnd(isMin, cond, a, b, ty, k).0, w, 0) ==
            Best(isMin, Pick(cond.min.e, a, b, w), Pick(cond.max.e, a, b, w))
  {
    hide Eval, Extreme;
    var x, y := Fresh("t", k, ty), Fresh("t", k + 1, ty);
    var c1, c2 := cond.min.e, cond.max.e;
    if IsOne(cond.max) { EvalConstExpr(c2, w); }
    if IsZero(cond.min) { EvalConstExpr(c1, w); }
    if a == b {
    } else if cond.IsPoint() {
      assert Eval(Select(c1, a, b), w, 0) == Pick(c1, a, b, w) by { EvalSelect(c1, a, b, w); }
    } else if IsZero(cond.min) && IsOne(cond.max) {
      ExtremeValue(isMin, a, b, w);
    } else if IsOne(cond.max) {
      SelectNamedTrue(isMin, c1, a, b, x, w);
    } else if IsZero(cond.min) {
      SelectNamedFalse(isMin, c2, a, b, x, w);
    } else {
      SelectNamedBoth(isMin, c1, c2, a, b, x, y, w);
    }
  }

  lemma EvalSelect(c: Expr, a: Expr, b: Expr, w: World)
    ensures Eval(Select(c, a, b), w, 0) == Pick(c, a, b, w)
  {}

  /** Entering `let x = v`: x has the value of v, and what does not mention x is unchanged. */
  lemma LetScalar(w: World, x: Name, v: Expr, e: Expr)
    requires x !in Names(e) && !x.vec && HasTy(v, x.ty)
    ensures var w' := LetWorld(w, x, v);
            Eval(Var(x), w', 0) == Eval(v, w, 0) && Eval(e, w', 0) == Eval(e, w, 0)
  {
    if x.ty.BoolT? { BoolValue(v, w, 0); }
    BindUnused(e, w, x, (m: nat) => Eval(v, w, m), 0);
  }

  lemma EvalLet(x: Name, v: Expr, b: Expr, w: World)
    ensures Eval(Let(x, v, b), w, 0) == Eval(b, LetWorld(w, x, v), 0)
  {}

  lemma SelectSound(cond: Interval, a: Interval, b: Interval, ty: Ty, k: nat, c: int, x: int, y: int, w: World)
    requires In(c, cond, w) && IvTyped(cond, BoolT) && IsTruth(c)
    requires In(x, a, w) && In(y, b, w) && IvTyped(a, ty) && IvTyped(b, ty)
    requires Below(IvNames(cond), k) && Below(IvNames(a), k) && Below(IvNames(b), k)
    ensures In(if c != 0 then x else y, SelectBounds(cond, a, b, ty, k).0, w)
  {
    hide Eval, SelectEnd;
    BoolEnds(cond, w);
    if cond.IsPoint() && (IsOne(cond.min) || IsZero(cond.min)) {
      EvalConstExpr(cond.min.e, w);
    } else {
      var k1 := if a.HasLower() && b.HasLower() then SelectEnd(true, cond, a.min.e, b.min.e, ty, k).1 else k;
      if a.HasLower() && b.HasLower() {
        SelectEndValue(true, cond, a.min.e, b.min.e, ty, k, w);
      }
      if a.HasUpper() && b.HasUpper() {
        SelectEndValue(false, cond, a.max.e, b.max.e, ty, k1, w);
      }
    }
  }

  // ----- every rule builds ends of the right type out of the names it was given -----

  lemma ArithShape(ea: Expr, eb: Expr, a: Interval, b: Interval, o: Oracle, k: nat)
    requires IvGood(a, IntT, k) && IvGood(b, IntT, k)
    ensures IvGood(AddBounds(ea, eb, a, b), IntT, k)
    ensures IvGood(SubBounds(ea, eb, a, b), IntT, k)
    ensures IvGood(ModBounds(ea, eb, a, b, o), IntT, k)
  {
    hide Good;
    GoodRules(k);
  }

  lemma IncludeShape(i: Interval, e: Expr, ty: Ty, k: nat)
    requires ExtGood(i.min, ty, k) && ExtGood(i.max, ty, k) && Good(e, ty, k)
    ensures ExtGood(Include(i, e).min, ty, k) && ExtGood(Include(i, e).max, ty, k)
  {
    hide Good, MakeMin, MakeMax;
    MakeMinGood(i.min, Fin(e), ty, k);
    MakeMaxGood(i.max, Fin(e), ty, k);
  }

  lemma Include4Shape(e1: Expr, e2: Expr, e3: Expr, e4: Expr, k: nat)
    requires Good(e1, IntT, k) && Good(e2, IntT, k) && Good(e3, IntT, k) && Good(e4, IntT, k)
    ensures IvGood(Include4(e1, e2, e3, e4), IntT, k)
  {
    hide Good, Include;
    var i1 := Include(NOTHING, e1);
    var i2 := Include(i1, e2);
    var i3 := Include(i2, e3);
    IncludeShape(NOTHING, e1, IntT, k);
    IncludeShape(i1, e2, IntT, k);
    IncludeShape(i2, e3, IntT, k);
    IncludeShape(i3, e4, IntT, k);
  }

  lemma ScaleShape(a: Interval, b: Expr, k: nat)
    requires IvGood(a, IntT, k) && Good(b, IntT, k)
    ensures IvGood(ScaleBounds(a, b), IntT, k)
  {
    hide Good;
    GoodRules(k);
  }

  lemma MulShape(ea: Expr, eb: Expr, a: Interval, b: Interval, k: nat)
    requires IvGood(a, IntT, k) && IvGood(b, IntT, k)
    ensures IvGood(MulOrdered(ea, eb, a, b), IntT, k)
  {
    hide Good, Include4, ScaleBounds;
    GoodRules(k);
    if b.IsPoint() { ScaleShape(a, b.min.e, k); }
    if a.IsBounded() && b.IsBounded() {
      Include4Shape(Bin(Mul, a.min.e, b.min.e), Bin(Mul, a.min.e, b.max.e),
                    Bin(Mul, a.max.e, b.min.e), Bin(Mul, a.max.e, b.max.e), k);
    }
  }

  lemma DivPartsShape(a: Interval, b: Interval, o: Oracle, k: nat)
    requires IvGood(a, IntT, k) && IvGood(b, IntT, k)
    ensures IvGood(DivUnknown(a, o), IntT, k)
    ensures b.IsBounded() ==> IvGood(DivFixed(a, b, o), IntT, k)
  {
    hide Good;
    GoodRules(k);
  }

  lemma DivShape(ea: Expr, eb: Expr, a: Interval, b: Interval, o: Oracle, k: nat)
    requires IvGood(a, IntT, k) && IvGood(b, IntT, k)
    ensures IvGood(DivBounds(ea, eb, a, b, o), IntT, k)
  {
    hide Good, Include4, DivUnknown, DivFixed, StaticSign, Neg;
    DivPartsShape(a, b, o, k);
    if a.min == Fin(ea) && b.min == Fin(eb) {
      assert Good(Bin(Div, ea, eb), IntT, k) by { GoodRules(k); }
    }
    if a.IsBounded() && b.IsBounded() { DivEndsShape(a.min.e, a.max.e, b.min.e, b.max.e, k); }
  }

  lemma DivEndsShape(al: Expr, ah: Expr, bl: Expr, bh: Expr, k: nat)
    requires Good(al, IntT, k) && Good(ah, IntT, k) && Good(bl, IntT, k) && Good(bh, IntT, k)
    ensures Good(Bin(Div, al, bl), IntT, k)
    ensures IvGood(Include4(al, ah, Neg(al), Neg(ah)), IntT, k)
    ensures IvGood(Include4(Bin(Div, al, bl), Bin(Div, ah, bl), Bin(Div, al, bh), Bin(Div, ah, bh)), IntT, k)
  {
    hide Good, Include4, IvGood;
    GoodRules(k);
    Include4Shape(al, ah, Neg(al), Neg(ah), k);
    Include4Shape(Bin(Div, al, bl), Bin(Div, ah, bl), Bin(Div, al, bh), Bin(Div, ah, bh), k);
  }

  lemma MinMaxShape(ea: Expr, eb: Expr, a: Interval, b: Interval, ty: Ty, k: nat)
    requires IvGood(a, ty, k) && IvGood(b, ty, k)
    ensures IvGood(MinBounds(ea, eb, a, b), ty, k)
    ensures IvGood(MaxBounds(ea, eb, a, b), ty, k)
  {
    hide Good, MakeMin, MakeMax;
    GoodRules(k);
    FiniteExtremes(a, b);
    MakeMinGood(a.min, b.min, ty, k);
    MakeMinGood(a.max, b.max, ty, k);
    MakeMaxGood(a.min, b.min, ty, k);
    MakeMaxGood(a.max, b.max, ty, k);
  }

  lemma FiniteExtremes(a: Interval, b: Interval)
    ensures a.min.Fin? && b.min.Fin? ==> MakeMin(a.min, b.min).Fin? && MakeMax(a.min, b.min).Fin?
    ensures a.max.Fin? && b.max.Fin? ==> MakeMin(a.max, b.max).Fin? && MakeMax(a.max, b.max).Fin?
  {}

  lemma CompareShape(op: BinOp, a: Interval, b: Interval, ty: Ty, k: nat)
    requires (op.LT? || op.LE?) && IvGood(a, ty, k) && IvGood(b, ty, k)
    ensures IvGood(CompareBounds(op, a, b), BoolT, k)
  {
    hide Good;
    GoodRules(k);
  }

  lemma EqShape(ea: Expr, eb: Expr, a: Interval, b: Interval, ty: Ty, k: nat)
    requires IvGood(a, ty, k) && IvGood(b, ty, k)
    ensures IvGood(EqBounds(ea, eb, a, b), BoolT, k)
  {
    hide Good;
    GoodRules(k);
  }

  lemma NeShape(ea: Expr, eb: Expr, a: Interval, b: Interval, ty: Ty, k: nat)
    requires IvGood(a, ty, k) && IvGood(b, ty, k)
    ensures IvGood(NeBounds(ea, eb, a, b), BoolT, k)
  {
    hide Good;
    GoodRules(k);
  }

  lemma LogicShape(ea: Expr, eb: Expr, a: Interval, b: Interval, k: nat)
    requires IvGood(a, BoolT, k) && IvGood(b, BoolT, k)
    ensures IvGood(AndBounds(ea, eb, a, b), BoolT, k)
    ensures IvGood(OrBounds(ea, eb, a, b), BoolT, k)
  {
    hide Good;
    GoodRules(k);
  }

  lemma NotShape(ea: Expr, a: Interval, k: nat)
    requires IvGood(a, BoolT, k)
    ensures IvGood(NotBounds(ea, a), BoolT, k)
  {
    hide Good;
    GoodRules(k);
  }

  lemma AbsShape(a: Interval, k: nat)
    requires IvGood(a, IntT, k)
    ensures IvGood(AbsBounds(a), IntT, k)
  {
    hide Good;
    GoodRules(k);
  }

  lemma ExtremeShape(isMin: bool, a: Expr, b: Expr, ty: Ty, k: nat)
    requires Good(a, ty, k) && Good(b, ty, k)
    ensures Good(Extreme(isMin, a, b), ty, k)
  {
    hide Good, MakeMin, MakeMax;
    FiniteExtremes(SinglePoint(a), SinglePoint(b));
    MakeMinGood(Fin(a), Fin(b), ty, k);
    MakeMaxGood(Fin(a), Fin(b), ty, k);
  }

  lemma SelectNamedShape(isMin: bool, c1: Expr, c2: Expr, a: Expr, b: Expr, x: Name, y: Name, k: nat)
    requires Good(c1, BoolT, k) && Good(c2, BoolT, k) && Good(a, x.ty, k) && Good(b, x.ty, k)
    requires x.serial < k
    ensures Good(Let(x, a, Extreme(isMin, Select(c1, Var(x), b), Var(x))), x.ty, k)
    ensures Good(Let(x, b, Extreme(isMin, Select(c2, a, Var(x)), Var(x))), x.ty, k)
    ensures y.serial < k && y.ty == x.ty ==>
      Good(Let(y, b, Let(x, a, Extreme(isMin, Select(c1, Var(x), Var(y)), Select(c2, Var(x), Var(y))))), x.ty, k)
  {
    hide Good, Extreme;
    GoodRules(k);
    assert Good(Var(x), x.ty, k);
    ExtremeShape(isMin, Select(c1, Var(x), b), Var(x), x.ty, k);
    ExtremeShape(isMin, Select(c2, a, Var(x)), Var(x), x.ty, k);
    if y.serial < k && y.ty == x.ty {
      assert Good(Var(y), y.ty, k);
      ExtremeShape(isMin, Select(c1, Var(x), Var(y)), Select(c2, Var(x), Var(y)), x.ty, k);
    }
  }

  lemma SelectEndShape(isMin: bool, cond: Interval, a: Expr, b: Expr, ty: Ty, k: nat)
    requires cond.IsBounded() && IvGood(cond, BoolT, k) && Good(a, ty, k) && Good(b, ty, k)
    ensures var (e, k') := SelectEnd(isMin, cond, a, b, ty, k); Good(e, ty, k')
  {
    hide Good, Extreme;
    var k' := SelectEnd(isMin, cond, a, b, ty, k).1;
    GoodLater(a, ty, k, k');
    GoodLater(b, ty, k, k');
    IvGoodLater(cond, BoolT, k, k');
    GoodRules(k');
    ExtremeShape(isMin, a, b, ty, k');
    if k < k' {
      SelectNamedShape(isMin, cond.min.e, cond.max.e, a, b, Fresh("t", k, ty), Fresh("t", k + 1, ty), k');
    }
  }

  lemma SelectShape(cond: Interval, a: Interval, b: Interval, ty: Ty, k: nat)
    requires IvGood(cond, BoolT, k) && IvGood(a, ty, k) && IvGood(b, ty, k)
    ensures var (i, k') := SelectBounds(cond, a, b, ty, k); IvGood(i, ty, k')
  {
    hide Good, SelectEnd;
    var k' := SelectBounds(cond, a, b, ty, k).1;
    IvGoodLater(a, ty, k, k');
    IvGoodLater(b, ty, k, k');
    if cond.IsBounded() {
      var k1 := if a.HasLower() && b.HasLower() then SelectEnd(true, cond, a.min.e, b.min.e, ty, k).1 else k;
      if a.HasLower() && b.HasLower() {
        SelectEndShape(true, cond, a.min.e, b.min.e, ty, k);
        if k1 <= k' { GoodLater(SelectEnd(true, cond, a.min.e, b.min.e, ty, k).0, ty, k1, k'); }
      }
      if a.HasUpper() && b.HasUpper() {
        IvGoodLater(cond, BoolT, k, k1);
        GoodLater(a.max.e, ty, k, k1);
        GoodLater(b.max.e, ty, k, k1);
        SelectEndShape(false, cond, a.max.e, b.max.e, ty, k1);
      }
    }
  }
}
