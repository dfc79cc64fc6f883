// The bounds visitor of src/Bounds.cpp: an interval for every expression,
// given intervals for some of its variables.

module Bounds {
  import opened Options
  import opened IR
  import opened Intervals
  import opened BoundsRules

  type Scope = map<Name, Interval>
  type FuncBounds = map<(string, nat), Interval>

  /** What does not change during a visit. */
  datatype Ctx = Ctx(funcBounds: FuncBounds, constBound: bool, oracle: Oracle)

  // ----- the visitor as a function; `k` is the unique-name counter -----

  ghost function Size(e: Expr): nat
    decreases e, 1
  {
    match e
    case Const(_, _) => 1
    case Var(_) => 1
    case Un(_, a) => 1 + Size(a)
    case Bin(_, a, b) => 1 + Size(a) + Size(b)
    case Select(c, t, f) => 1 + Size(c) + Size(t) + Size(f)
    case Ramp(b, s, _) => 5 + Size(b) + Size(s)
    case Let(_, v, b) => 1 + Size(v) + Size(b)
    case Call(_, _, _, args) => 1 + SizeAll(args)
  }

  ghost function SizeAll(args: seq<Expr>): nat
    decreases args, 0
  {
    if args == [] then 0 else 1 + Size(args[0]) + SizeAll(args[1..])
  }

  function VarBounds(x: Name, scope: Scope, constBound: bool): Interval {
    if constBound then
      var i := BoundsOfType(x.ty);
      if x in scope then
        Interval(
          if scope[x].HasLower() && IsConst(scope[x].min) then MakeMax(i.min, scope[x].min) else i.min,
          if scope[x].HasUpper() && IsConst(scope[x].max) then MakeMin(i.max, scope[x].max) else i.max)
      else i
    else if x in scope then scope[x]
    else if x.vec then BoundsOfType(x.ty)
    else SinglePoint(Var(x))
  }

  function FuncValueBounds(f: string, i: nat, fb: FuncBounds): Interval {
    if (f, i) in fb then
      var b := fb[(f, i)];
      Interval(if b.HasLower() then b.min else NegInf, if b.HasUpper() then b.max else PosInf)
    else EVERYTHING
  }

  /** The names that stand for the ends of a let's value. */
  function MinName(x: Name, k: nat): Name { Fresh(x.base + ".min", k, x.ty) }
  function MaxName(x: Name, k: nat): Name { Fresh(x.base + ".max", k + 1, x.ty) }

  /** What a let variable ranges over inside the let: constants are put in
      directly, anything else is named. */
  function LetVar(val: Interval, mn: Name, mx: Name): Interval {
    var lo :=
      if val.HasLower() then if IsConst(val.min) then val.min else Fin(Var(mn))
      else NegInf;
    var hi :=
      if val.HasUpper() then
        if IsConst(val.max) then val.max
        else if val.IsPoint() then lo
        else Fin(Var(mx))
      else PosInf;
    Interval(lo, hi)
  }

  /** Define the names that an end refers to. */
  function WrapEnd(e: Expr, val: Interval, mn: Name, mx: Name): Expr {
    var e1 := if val.HasLower() && !IsConst(val.min) && mn in Names(e) then Let(mn, val.min.e, e) else e;
    if val.HasUpper() && !IsConst(val.max) && !val.IsPoint() && mx in Names(e1) then Let(mx, val.max.e, e1) else e1
  }

  function WrapLet(i: Interval, val: Interval, mn: Name, mx: Name): Interval {
    var lo := if i.HasLower() then Fin(WrapEnd(i.min.e, val, mn, mx)) else i.min;
    Interval(lo,
             if i.IsPoint() then lo
             else if i.HasUpper() then Fin(WrapEnd(i.max.e, val, mn, mx))
             else i.max)
  }

  function BinBounds(op: BinOp, ea: Expr, eb: Expr, a: Interval, b: Interval, o: Oracle): Interval {
    match op
    case Add => AddBounds(ea, eb, a, b)
    case Sub => SubBounds(ea, eb, a, b)
    case Mul => MulBounds(ea, eb, a, b)
    case Div => DivBounds(ea, eb, a, b, o)
    case Mod => ModBounds(ea, eb, a, b, o)
    case Min => MinBounds(ea, eb, a, b)
    case Max => MaxBounds(ea, eb, a, b)
    case EQ => EqBounds(ea, eb, a, b)
    case NE => NeBounds(ea, eb, a, b)
    case And => AndBounds(ea, eb, a, b)
    case Or => OrBounds(ea, eb, a, b)
    case LT | LE | GT | GE => BoundsOfType(BoolT)  // these go through CompareOf
  }

  /** An interval about which nothing is known. */
  predicate Unknown(i: Interval) { !i.HasUpper() && !i.HasLower() }

  function BoundsOf(e: Expr, scope: Scope, c: Ctx, k: nat): (r: (Interval, nat))
    ensures r.1 >= k
    decreases Size(e), 2
  {
    match e
    case Const(_, _) => (SinglePoint(e), k)
    case Var(x) => (VarBounds(x, scope, c.constBound), k)
    case Un(op, a) => UnOf(op, a, scope, c, k)
    case Bin(op, a, b) =>
      if op.GT? then CompareOf(LT, b, a, scope, c, k)
      else if op.GE? then CompareOf(LE, b, a, scope, c, k)
      else if op.LT? || op.LE? then CompareOf(op, a, b, scope, c, k)
      else BinOf(op, a, b, scope, c, k)
    case Select(cond, t, f) => SelectOf(cond, t, f, scope, c, k)
    case Ramp(base, stride, lanes) => RampOf(base, stride, lanes, scope, c, k)
    case Let(x, v, body) => LetOf(x, v, body, scope, c, k)
    case Call(ct, f, n, args) => CallOf(ct, f, n, args, scope, c, k)
  }

  function UnOf(op: UnOp, a: Expr, scope: Scope, c: Ctx, k: nat): (r: (Interval, nat))
    ensures r.1 >= k
    decreases 1 + Size(a), 1
  {
    var (ia, k1) := BoundsOf(a, scope, c, k);
    match op
    case Likely | Broadcast => (ia, k1)
    case Not => (NotBounds(a, ia), k1)
    case Abs => (if !c.constBound && ia.IsPoint() then SinglePoint(Un(Abs, ia.min.e)) else AbsBounds(ia), k1)
  }

  function BinOf(op: BinOp, a: Expr, b: Expr, scope: Scope, c: Ctx, k: nat): (r: (Interval, nat))
    ensures r.1 >= k
    decreases 1 + Size(a) + Size(b), 1
  {
    var (ia, k1) := BoundsOf(a, scope, c, k);
    var (ib, k2) := BoundsOf(b, scope, c, k1);
    (BinBounds(op, a, b, ia, ib, c.oracle), k2)
  }

  function SelectOf(cond: Expr, t: Expr, f: Expr, scope: Scope, c: Ctx, k: nat): (r: (Interval, nat))
    ensures r.1 >= k
    decreases 1 + Size(cond) + Size(t) + Size(f), 1
  {
    var (it, k1) := BoundsOf(t, scope, c, k);
    var (jf, k2) := BoundsOf(f, scope, c, k1);
    var (ic, k3) := BoundsOf(cond, scope, c, k2);
    SelectBounds(ic, it, jf, TypeOf(t), k3)
  }

  /** The lane number is treated as a free variable. */
  function RampOf(base: Expr, stride: Expr, lanes: Pos, scope: Scope, c: Ctx, k: nat): (r: (Interval, nat))
    ensures r.1 >= k
    decreases 5 + Size(base) + Size(stride), 1
  {
    var lane := Fresh("t", k, IntT);
    assert Size(Bin(Mul, Var(lane), stride)) == 2 + Size(stride);
    BoundsOf(Bin(Add, base, Bin(Mul, Var(lane), stride)), scope[lane := LaneRange(lanes)], c, k + 1)
  }

  function LaneRange(lanes: Pos): Interval { Interval(Fin(I(0)), Fin(I(lanes - 1))) }

  function LetOf(x: Name, v: Expr, body: Expr, scope: Scope, c: Ctx, k: nat): (r: (Interval, nat))
    ensures r.1 >= k
    decreases 1 + Size(v) + Size(body), 1
  {
    var (val, k1) := BoundsOf(v, scope, c, k);
    var mn, mx := MinName(x, k1), MaxName(x, k1);
    var (i, k2) := BoundsOf(body, scope[x := LetVar(val, mn, mx)], c, k1 + 2);
    (WrapLet(i, val, mn, mx), k2)
  }

  function CallOf(ct: CallType, f: string, n: nat, args: seq<Expr>, scope: Scope, c: Ctx, k: nat): (r: (Interval, nat))
    ensures r.1 >= k
    decreases 1 + SizeAll(args), 1
  {
    if ct.FuncCall? then (FuncValueBounds(f, n, c.funcBounds), k)
    else if c.constBound then (EVERYTHING, k)
    else
      var (points, k1) := PointsOf(args, scope, c, k);
      (if points.Some? then SinglePoint(Call(ct, f, n, points.value)) else EVERYTHING, k1)
  }

  /** visit_compare: either operand being unknown settles the matter. */
  function CompareOf(op: BinOp, a: Expr, b: Expr, scope: Scope, c: Ctx, k: nat): (r: (Interval, nat))
    ensures r.1 >= k
    decreases Size(a) + Size(b) + 1, 0
  {
    var (ia, k1) := BoundsOf(a, scope, c, k);
    if Unknown(ia) then (BoundsOfType(BoolT), k1)
    else
      var (ib, k2) := BoundsOf(b, scope, c, k1);
      if Unknown(ib) then (BoundsOfType(BoolT), k2) else (CompareBounds(op, ia, ib), k2)
  }

  /** The arguments' single points, stopping at the first argument that varies. */
  function PointsOf(args: seq<Expr>, scope: Scope, c: Ctx, k: nat): (r: (Option<seq<Expr>>, nat))
    ensures r.1 >= k
    decreases SizeAll(args), 0
  {
    if args == [] then (Some([]), k)
    else
      var (i, k1) := BoundsOf(args[0], scope, c, k);
      if !i.IsPoint() then (None, k1)
      else
        var (rest, k2) := PointsOf(args[1..], scope, c, k1);
        (if rest.Some? then Some([i.min.e] + rest.value) else None, k2)
  }

  // ----- what a scope promises -----

  /** Every variable in scope lies in its interval: the variable is taken from
      the run `w`, the ends are evaluated in the outer world `w'`. */
  ghost predicate Covers(scope: Scope, w: World, w': World) {
    forall x: Name, l: nat :: x in scope ==> In(Lookup(w, x, l), scope[x], w')
  }

  /** The two worlds agree on the names of `s` that are not in scope. */
  ghost predicate AgreeOutside(s: set<Name>, scope: Scope, w: World, w': World) {
    && w.funcs == w'.funcs && w.pures == w'.pures
    && forall x: Name, m: nat :: x in s && x !in scope ==> w.vars(x, m) == w'.vars(x, m)
  }

  ghost predicate FuncsCovered(fb: FuncBounds, w: World, w': World) {
    forall f: string, i: nat, args: seq<int> :: (f, i) in fb ==> In(w.funcs(f, i, args), fb[(f, i)], w')
  }

  ghost predicate ScopeGood(scope: Scope, k: nat) {
    forall x :: x in scope ==> IvGood(scope[x], x.ty, k)
  }

  ghost predicate FuncsGood(fb: FuncBounds, k: nat) {
    forall key :: key in fb ==> IvGood(fb[key], IntT, k)
  }

  // ----- the ends are well formed: right type, no name from the future -----

  lemma VarShape(x: Name, scope: Scope, constBound: bool, k: nat)
    requires ScopeGood(scope, k) && x.serial < k
    ensures IvGood(VarBounds(x, scope, constBound), x.ty, k)
  {
    GoodRules(k);
    var i := BoundsOfType(x.ty);
    assert IvGood(i, x.ty, k);
    if x in scope {
      MakeMaxGood(i.min, scope[x].min, x.ty, k);
      MakeMinGood(i.max, scope[x].max, x.ty, k);
      FiniteExtremes(i, scope[x]);
    }
  }

  lemma LetVarShape(val: Interval, ty: Ty, mn: Name, mx: Name, k: nat)
    requires IvGood(val, ty, k) && mn.ty == mx.ty == ty && mn.serial < k && mx.serial < k
    ensures IvGood(LetVar(val, mn, mx), ty, k)
  {
    hide Good;
    GoodRules(k);
  }

  lemma WrapShape(i: Interval, val: Interval, ty: Ty, vty: Ty, mn: Name, mx: Name, k: nat)
    requires IvGood(i, ty, k) && IvGood(val, vty, k) && mn.ty == mx.ty == vty && mn.serial < k && mx.serial < k
    ensures IvGood(WrapLet(i, val, mn, mx), ty, k)
  {
    hide Good;
    GoodRules(k);
  }

  lemma BinShape(op: BinOp, ea: Expr, eb: Expr, a: Interval, b: Interval, o: Oracle, ty: Ty, k: nat)
    requires !op.LT? && !op.LE? && !op.GT? && !op.GE?
    requires HasTy(Bin(op, ea, eb), ty)
    requires Below(Names(ea), k) && Below(Names(eb), k)
    requires IvGood(a, TypeOf(ea), k) && IvGood(b, TypeOf(eb), k)
    ensures IvGood(BinBounds(op, ea, eb, a, b, o), ty, k)
  {
    hide HasTy, AddBounds, SubBounds, MulBounds, DivBounds, ModBounds, MinBounds, MaxBounds, EqBounds,
        NeBounds, AndBounds, OrBounds;
    OperandTypes(op, ea, eb, ty);
    match op
    case Add | Sub | Mod => ArithShape(ea, eb, a, b, o, k);
    case Mul => MulBothShape(ea, eb, a, b, k);
    case Div => DivShape(ea, eb, a, b, o, k);
    case Min | Max => MinMaxShape(ea, eb, a, b, ty, k);
    case EQ => EqShape(ea, eb, a, b, TypeOf(ea), k);
    case NE => NeShape(ea, eb, a, b, TypeOf(ea), k);
    case And | Or => LogicShape(ea, eb, a, b, k);
  }

  lemma MulBothShape(ea: Expr, eb: Expr, a: Interval, b: Interval, k: nat)
    requires IvGood(a, IntT, k) && IvGood(b, IntT, k)
    ensures IvGood(MulBounds(ea, eb, a, b), IntT, k)
  {
    hide Good, MulOrdered;
    MulShape(ea, eb, a, b, k);
    MulShape(ea, eb, b, a, k);
  }

  /** The types of the two operands of a well-typed operation. */
  lemma OperandTypes(op: BinOp, a: Expr, b: Expr, ty: Ty)
    requires HasTy(Bin(op, a, b), ty)
    ensures HasTy(a, TypeOf(a)) && HasTy(b, TypeOf(b)) && TypeOf(a) == TypeOf(b)
    ensures IsArith(op) ==> TypeOf(a).IntT? && ty.IntT?
    ensures op.And? || op.Or? ==> TypeOf(a).BoolT? && ty.BoolT?
    ensures IsCompare(op) ==> ty.BoolT?
    ensures IsExtreme(op) ==> TypeOf(a) == ty
  {
    var t := OperandType(op, a, b, ty);
    TypeOfWellTyped(a, t);
    TypeOfWellTyped(b, t);
  }

  lemma OperandType(op: BinOp, a: Expr, b: Expr, ty: Ty) returns (t: Ty)
    requires HasTy(Bin(op, a, b), ty)
    ensures HasTy(a, t) && HasTy(b, t)
    ensures IsArith(op) ==> t.IntT? && ty.IntT?
    ensures op.And? || op.Or? ==> t.BoolT? && ty.BoolT?
    ensures IsCompare(op) ==> ty.BoolT?
    ensures IsExtreme(op) ==> t == ty
  {
    t := if IsArith(op) then IntT
         else if op.And? || op.Or? then BoolT
         else if IsExtreme(op) then ty
         else if HasTy(a, IntT) && HasTy(b, IntT) then IntT
         else BoolT;
  }

  /** The returned ends have the type of the expression and mention only names
      handed out so far. */
  lemma {:induction false} BoundsShape(e: Expr, ty: Ty, scope: Scope, c: Ctx, k: nat)
    requires HasTy(e, ty) && Below(Names(e), k) && ScopeGood(scope, k) && FuncsGood(c.funcBounds, k)
    ensures IvGood(BoundsOf(e, scope, c, k).0, ty, BoundsOf(e, scope, c, k).1)
    decreases Size(e), 2
  {
    match e
    case Const(_, _) =>
    case Var(x) => VarShape(x, scope, c.constBound, k);
    case Un(op, a) => UnShape(op, a, ty, scope, c, k);
    case Bin(op, a, b) =>
      OperandTypes(op, a, b, ty);
      if op.GT? || op.GE? {
        CompareOfShape(if op.GT? then LT else LE, b, a, TypeOf(a), scope, c, k);
      } else if op.LT? || op.LE? {
        CompareOfShape(op, a, b, TypeOf(a), scope, c, k);
      } else {
        BinOfShape(op, a, b, ty, scope, c, k);
      }
    case Select(cond, t, f) => SelectOfShape(cond, t, f, ty, scope, c, k);
    case Ramp(base, stride, lanes) => RampOfShape(base, stride, lanes, scope, c, k);
    case Let(x, v, body) => LetOfShape(x, v, body, ty, scope, c, k);
    case Call(ct, f, n, args) => CallOfShape(ct, f, n, args, scope, c, k);
  }

  lemma BinOfShape(op: BinOp, a: Expr, b: Expr, ty: Ty, scope: Scope, c: Ctx, k: nat)
    requires !op.LT? && !op.LE? && !op.GT? && !op.GE? && HasTy(Bin(op, a, b), ty)
    requires Below(Names(a), k) && Below(Names(b), k) && ScopeGood(scope, k) && FuncsGood(c.funcBounds, k)
    ensures var r := BinOf(op, a, b, scope, c, k); IvGood(r.0, ty, r.1)
    decreases 1 + Size(a) + Size(b), 1
  {
    hide HasTy, BoundsOf, IvGood, BinBounds;
    OperandTypes(op, a, b, ty);
    var (ia, k1) := BoundsOf(a, scope, c, k);
    var (ib, k2) := BoundsOf(b, scope, c, k1);
    BoundsShape(a, TypeOf(a), scope, c, k);
    LaterShape(scope, c.funcBounds, k, k1);
    BoundsShape(b, TypeOf(b), scope, c, k1);
    IvGoodLater(ia, TypeOf(a), k1, k2);
    BinShape(op, a, b, ia, ib, c.oracle, ty, k2);
  }

  lemma SelectOfShape(cond: Expr, t: Expr, f: Expr, ty: Ty, scope: Scope, c: Ctx, k: nat)
    requires HasTy(cond, BoolT) && HasTy(t, ty) && HasTy(f, ty)
    requires Below(Names(cond), k) && Below(Names(t), k) && Below(Names(f), k)
    requires ScopeGood(scope, k) && FuncsGood(c.funcBounds, k)
    ensures var r := SelectOf(cond, t, f, scope, c, k); IvGood(r.0, ty, r.1)
    decreases 1 + Size(cond) + Size(t) + Size(f), 1
  {
    hide SelectBounds, BoundsOf, IvGood, HasTy;
    TypeOfWellTyped(t, ty);
    var (it, k1) := BoundsOf(t, scope, c, k);
    var (jf, k2) := BoundsOf(f, scope, c, k1);
    var (ic, k3) := BoundsOf(cond, scope, c, k2);
    BoundsShape(t, ty, scope, c, k);
    LaterShape(scope, c.funcBounds, k, k1);
    BoundsShape(f, ty, scope, c, k1);
    LaterShape(scope, c.funcBounds, k1, k2);
    BoundsShape(cond, BoolT, scope, c, k2);
    IvGoodLater(it, ty, k1, k3);
    IvGoodLater(jf, ty, k2, k3);
    SelectShape(ic, it, jf, ty, k3);
  }

  lemma RampOfShape(base: Expr, stride: Expr, lanes: Pos, scope: Scope, c: Ctx, k: nat)
    requires HasTy(base, IntT) && HasTy(stride, IntT) && Below(Names(base), k) && Below(Names(stride), k)
    requires ScopeGood(scope, k) && FuncsGood(c.funcBounds, k)
    ensures var r := RampOf(base, stride, lanes, scope, c, k); IvGood(r.0, IntT, r.1)
    decreases 5 + Size(base) + Size(stride), 1
  {
    var lane := Fresh("t", k, IntT);
    RampLane(base, stride, lane, k + 1);
    assert IvGood(LaneRange(lanes), IntT, k + 1) by { GoodRules(k + 1); }
    hide BoundsOf, IvGood, LaneRange;
    LaterShape(scope, c.funcBounds, k, k + 1);
    BoundsShape(Bin(Add, base, Bin(Mul, Var(lane), stride)), IntT, scope[lane := LaneRange(lanes)], c, k + 1);
  }

  lemma LetOfShape(x: Name, v: Expr, body: Expr, ty: Ty, scope: Scope, c: Ctx, k: nat)
    requires HasTy(v, x.ty) && HasTy(body, ty) && Below(Names(v), k) && Below(Names(body), k)
    requires ScopeGood(scope, k) && FuncsGood(c.funcBounds, k)
    ensures var r := LetOf(x, v, body, scope, c, k); IvGood(r.0, ty, r.1)
    decreases 1 + Size(v) + Size(body), 1
  {
    hide BoundsOf, LetVar, WrapLet, IvGood;
    var (val, k1) := BoundsOf(v, scope, c, k);
    var mn, mx := MinName(x, k1), MaxName(x, k1);
    BoundsShape(v, x.ty, scope, c, k);
    LaterShape(scope, c.funcBounds, k, k1 + 2);
    IvGoodLater(val, x.ty, k1, k1 + 2);
    LetVarShape(val, x.ty, mn, mx, k1 + 2);
    BoundsShape(body, ty, scope[x := LetVar(val, mn, mx)], c, k1 + 2);
    var (i, k2) := BoundsOf(body, scope[x := LetVar(val, mn, mx)], c, k1 + 2);
    IvGoodLater(val, x.ty, k1 + 2, k2);
    WrapShape(i, val, ty, x.ty, mn, mx, k2);
  }

  lemma CallOfShape(ct: CallType, f: string, n: nat, args: seq<Expr>, scope: Scope, c: Ctx, k: nat)
    requires forall i :: 0 <= i < |args| ==> HasTy(args[i], IntT)
    requires Below(NamesOfAll(args), k) && ScopeGood(scope, k) && FuncsGood(c.funcBounds, k)
    ensures var r := CallOf(ct, f, n, args, scope, c, k); IvGood(r.0, IntT, r.1)
    decreases 1 + SizeAll(args), 1
  {
    if ct.FuncCall? {
      if (f, n) in c.funcBounds { assert IvGood(c.funcBounds[(f, n)], IntT, k); }
    } else if !c.constBound {
      PointsShape(args, scope, c, k);
      CallGood(ct, f, n, PointsOf(args, scope, c, k));
    }
  }

  lemma LaterShape(scope: Scope, fb: FuncBounds, k: nat, k': nat)
    requires ScopeGood(scope, k) && FuncsGood(fb, k) && k <= k'
    ensures ScopeGood(scope, k') && FuncsGood(fb, k')
  {
    hide Good;
    forall x | x in scope ensures IvGood(scope[x], x.ty, k') { IvGoodLater(scope[x], x.ty, k, k'); }
    forall key | key in fb ensures IvGood(fb[key], IntT, k') { IvGoodLater(fb[key], IntT, k, k'); }
  }

  lemma RampLane(base: Expr, stride: Expr, lane: Name, k: nat)
    requires HasTy(base, IntT) && HasTy(stride, IntT) && lane.ty.IntT? && lane.serial < k
    requires Below(Names(base), k) && Below(Names(stride), k)
    ensures var e := Bin(Add, base, Bin(Mul, Var(lane), stride));
            HasTy(e, IntT) && Below(Names(e), k) && Names(e) == Names(base) + {lane} + Names(stride)
            && Size(e) < Size(Ramp(base, stride, 1))
  {
    var m := Bin(Mul, Var(lane), stride);
    assert HasTy(m, IntT);
    assert Names(m) == {lane} + Names(stride);
    assert Size(m) == 2 + Size(stride);
  }

  lemma UnShape(op: UnOp, a: Expr, ty: Ty, scope: Scope, c: Ctx, k: nat)
    requires HasTy(Un(op, a), ty) && Below(Names(a), k) && ScopeGood(scope, k) && FuncsGood(c.funcBounds, k)
    ensures var r := UnOf(op, a, scope, c, k); IvGood(r.0, ty, r.1)
    decreases 1 + Size(a), 1
  {
    var (ia, k1) := BoundsOf(a, scope, c, k);
    match op
    case Likely | Broadcast => BoundsShape(a, ty, scope, c, k);
    case Not => BoundsShape(a, BoolT, scope, c, k); NotShape(a, ia, k1);
    case Abs => BoundsShape(a, IntT, scope, c, k); AbsShape(ia, k1); GoodRules(k1);
  }

  lemma CompareOfShape(op: BinOp, a: Expr, b: Expr, ty: Ty, scope: Scope, c: Ctx, k: nat)
    requires (op.LT? || op.LE?) && HasTy(a, ty) && HasTy(b, ty) && Below(Names(a), k) && Below(Names(b), k)
    requires ScopeGood(scope, k) && FuncsGood(c.funcBounds, k)
    ensures IvGood(CompareOf(op, a, b, scope, c, k).0, BoolT, CompareOf(op, a, b, scope, c, k).1)
    decreases Size(a) + Size(b) + 1, 0
  {
    var (ia, k1) := BoundsOf(a, scope, c, k);
    BoundsShape(a, ty, scope, c, k);
    GoodRules(k1);
    if !Unknown(ia) {
      var (ib, k2) := BoundsOf(b, scope, c, k1);
      LaterShape(scope, c.funcBounds, k, k1);
      BoundsShape(b, ty, scope, c, k1);
      IvGoodLater(ia, ty, k1, k2);
      CompareShape(op, ia, ib, ty, k2);
      GoodRules(k2);
    }
  }

  ghost predicate PointsGood(points: Option<seq<Expr>>, k: nat) {
    points.Some? ==> forall i :: 0 <= i < |points.value| ==> Good(points.value[i], IntT, k)
  }

  lemma PointsShape(args: seq<Expr>, scope: Scope, c: Ctx, k: nat)
    requires forall i :: 0 <= i < |args| ==> HasTy(args[i], IntT)
    requires Below(NamesOfAll(args), k) && ScopeGood(scope, k) && FuncsGood(c.funcBounds, k)
    ensures PointsGood(PointsOf(args, scope, c, k).0, PointsOf(args, scope, c, k).1)
    decreases SizeAll(args), 0
  {
    if args != [] {
      var (i, k1) := BoundsOf(args[0], scope, c, k);
      BoundsShape(args[0], IntT, scope, c, k);
      if i.IsPoint() {
        LaterShape(scope, c.funcBounds, k, k1);
        PointsShape(args[1..], scope, c, k1);
        var k2 := PointsOf(args[1..], scope, c, k1).1;
        GoodLater(i.min.e, IntT, k1, k2);
      }
    }
  }

  lemma CallGood(ct: CallType, f: string, n: nat, r: (Option<seq<Expr>>, nat))
    requires PointsGood(r.0, r.1) && ct.PureCall?
    ensures r.0.Some? ==> Good(Call(ct, f, n, r.0.value), IntT, r.1)
  {
    if r.0.Some? { NamesBelow(r.0.value, r.1); }
  }

  lemma {:induction false} NamesBelow(args: seq<Expr>, k: nat)
    requires forall i :: 0 <= i < |args| ==> IsPure(args[i]) && Below(Names(args[i]), k)
    ensures AllPure(args) && Below(NamesOfAll(args), k)
  {
    if args != [] { NamesBelow(args[1..], k); }
  }

  // ----- soundness -----

  /** The run `w` and the outer world `w'` respect the scope and the Func bounds. */
  ghost predicate Setting(scope: Scope, c: Ctx, k: nat, w: World, w': World) {
    && SoundOracle(c.oracle)
    && ScopeGood(scope, k) && FuncsGood(c.funcBounds, k)
    && Covers(scope, w, w') && FuncsCovered(c.funcBounds, w, w')
  }

  /** Worlds that agree on every name handed out before `k`. */
  ghost predicate SameBelow(k: nat, w: World, w': World) {
    && w.funcs == w'.funcs && w.pures == w'.pures
    && forall x: Name, m: nat :: x.serial < k ==> w.vars(x, m) == w'.vars(x, m)
  }

  lemma SettingMoves(scope: Scope, c: Ctx, k: nat, w: World, w': World, w'': World, k': nat)
    requires Setting(scope, c, k, w, w') && SameBelow(k, w', w'') && k <= k'
    ensures Setting(scope, c, k', w, w'')
  {
    LaterShape(scope, c.funcBounds, k, k');
    forall x: Name, l: nat | x in scope ensures In(Lookup(w, x, l), scope[x], w'') {
      assert IvGood(scope[x], x.ty, k);
      InMoves(Lookup(w, x, l), scope[x], x.ty, k, w', w'');
    }
    forall f: string, i: nat, args: seq<int> | (f, i) in c.funcBounds
      ensures In(w.funcs(f, i, args), c.funcBounds[(f, i)], w'')
    {
      assert IvGood(c.funcBounds[(f, i)], IntT, k);
      InMoves(w.funcs(f, i, args), c.funcBounds[(f, i)], IntT, k, w', w'');
    }
  }

  lemma InMoves(v: int, i: Interval, ty: Ty, k: nat, w': World, w'': World)
    requires IvGood(i, ty, k) && SameBelow(k, w', w'')
    ensures In(v, i, w') <==> In(v, i, w'')
  {
    IvGoodMeaning(i, ty, k);
    InAgree(v, i, w', w'');
  }

  /** Every value an expression can take, in any lane, lies in the interval
      computed for it, whatever the variables outside the scope hold. */
  lemma {:induction false} BoundsSound(e: Expr, ty: Ty, scope: Scope, c: Ctx, k: nat, w: World, w': World, l: nat)
    requires HasTy(e, ty) && Below(Names(e), k)
    requires Setting(scope, c, k, w, w') && AgreeOutside(Names(e), scope, w, w')
    ensures In(Eval(e, w, l), BoundsOf(e, scope, c, k).0, w')
    decreases Size(e), 2
  {
    hide Setting, In, Eval;
    match e
    case Const(_, _) => ConstSound(e, w, w', l);
    case Var(x) => VarSound(x, scope, c, k, w, w', l);
    case Un(op, a) => UnSound(op, a, ty, scope, c, k, w, w', l);
    case Bin(op, a, b) =>
      OperandTypes(op, a, b, ty);
      EvalCompare(op, a, b, w, l);
      if op.GT? || op.GE? {
        CompareOfSound(if op.GT? then LT else LE, b, a, TypeOf(a), scope, c, k, w, w', l);
      } else if op.LT? || op.LE? {
        CompareOfSound(op, a, b, TypeOf(a), scope, c, k, w, w', l);
      } else {
        BinOfSound(op, a, b, ty, scope, c, k, w, w', l);
      }
    case Select(cond, t, f) => SelectOfSound(cond, t, f, ty, scope, c, k, w, w', l);
    case Ramp(base, stride, lanes) => RampOfSound(base, stride, lanes, scope, c, k, w, w', l);
    case Let(x, v, body) => LetOfSound(x, v, body, ty, scope, c, k, w, w', l);
    case Call(ct, f, n, args) => CallOfSound(ct, f, n, args, scope, c, k, w, w', l);
  }

  lemma EvalCompare(op: BinOp, a: Expr, b: Expr, w: World, l: nat)
    ensures Eval(Bin(op, a, b), w, l) == EvalBin(op, Eval(a, w, l), Eval(b, w, l))
    ensures op.GT? ==> Eval(Bin(op, a, b), w, l) == EvalBin(LT, Eval(b, w, l), Eval(a, w, l))
    ensures op.GE? ==> Eval(Bin(op, a, b), w, l) == EvalBin(LE, Eval(b, w, l), Eval(a, w, l))
  {}

  lemma ConstSound(e: Expr, w: World, w': World, l: nat)
    requires e.Const?
    ensures In(Eval(e, w, l), SinglePoint(e), w')
  {}

  lemma VarSound(x: Name, scope: Scope, c: Ctx, k: nat, w: World, w': World, l: nat)
    requires Setting(scope, c, k, w, w') && AgreeOutside({x}, scope, w, w')
    ensures In(Eval(Var(x), w, l), VarBounds(x, scope, c.constBound), w')
  {
    var i := BoundsOfType(x.ty);
    assert In(Lookup(w, x, l), i, w');
    if x in scope {
      hide MakeMin, MakeMax, BoundsOfType;
      MakeMaxMeaning(i.min, scope[x].min, Lookup(w, x, l), w');
      MakeMinMeaning(i.max, scope[x].max, Lookup(w, x, l), w');
    }
  }

  lemma UnSound(op: UnOp, a: Expr, ty: Ty, scope: Scope, c: Ctx, k: nat, w: World, w': World, l: nat)
    requires HasTy(Un(op, a), ty) && Below(Names(a), k)
    requires Setting(scope, c, k, w, w') && AgreeOutside(Names(a), scope, w, w')
    ensures In(Eval(Un(op, a), w, l), UnOf(op, a, scope, c, k).0, w')
    decreases 1 + Size(a), 1
  {
    var (ia, k1) := BoundsOf(a, scope, c, k);
    var x := Eval(a, w, l);
    match op
    case Likely => BoundsSound(a, ty, scope, c, k, w, w', l);
    case Broadcast => BoundsSound(a, ty, scope, c, k, w, w', 0);
    case Not =>
      BoundsSound(a, BoolT, scope, c, k, w, w', l);
      BoundsShape(a, BoolT, scope, c, k);
      IvGoodMeaning(ia, BoolT, k1);
      BoolValue(a, w, l);
      NotSound(a, ia, x, w');
    case Abs =>
      BoundsSound(a, IntT, scope, c, k, w, w', l);
      AbsSound(ia, x, w');
      if ia.IsPoint() { assert Eval(Un(Abs, ia.min.e), w', 0) == AbsI(Eval(ia.min.e, w', 0)); }
  }

  lemma BinSound(op: BinOp, ea: Expr, eb: Expr, a: Interval, b: Interval, o: Oracle, x: int, y: int, w: World)
    requires !op.LT? && !op.LE? && !op.GT? && !op.GE? && SoundOracle(o)
    requires In(x, a, w) && In(y, b, w)
    requires op.And? || op.Or? ==> IvTyped(a, BoolT) && IvTyped(b, BoolT) && IsTruth(x) && IsTruth(y)
    ensures In(EvalBin(op, x, y), BinBounds(op, ea, eb, a, b, o), w)
  {
    hide In, AddBounds, SubBounds, MulBounds, DivBounds, ModBounds, MinBounds, MaxBounds, EqBounds,
        NeBounds, AndBounds, OrBounds;
    match op
    case Add => AddSound(ea, eb, a, b, x, y, w);
    case Sub => SubSound(ea, eb, a, b, x, y, w);
    case Mul => MulSound(ea, eb, a, b, x, y, w);
    case Div => DivSound(ea, eb, a, b, o, x, y, w);
    case Mod => ModSound(ea, eb, a, b, o, x, y, w);
    case Min => MinSound(ea, eb, a, b, x, y, w);
    case Max => MaxSound(ea, eb, a, b, x, y, w);
    case EQ => EqSound(ea, eb, a, b, x, y, w);
    case NE => NeSound(ea, eb, a, b, x, y, w);
    case And => AndSound(ea, eb, a, b, x, y, w);
    case Or => OrSound(ea, eb, a, b, x, y, w);
  }

  lemma BinOfSound(op: BinOp, a: Expr, b: Expr, ty: Ty, scope: Scope, c: Ctx, k: nat, w: World, w': World, l: nat)
    requires !op.LT? && !op.LE? && !op.GT? && !op.GE? && HasTy(Bin(op, a, b), ty)
    requires Below(Names(a), k) && Below(Names(b), k)
    requires Setting(scope, c, k, w, w') && AgreeOutside(Names(a) + Names(b), scope, w, w')
    ensures In(Eval(Bin(op, a, b), w, l), BinOf(op, a, b, scope, c, k).0, w')
    decreases 1 + Size(a) + Size(b), 1
  {
    OperandTypes(op, a, b, ty);
    assert Eval(Bin(op, a, b), w, l) == EvalBin(op, Eval(a, w, l), Eval(b, w, l));
    hide HasTy, BoundsOf, IvGood, In, BinBounds, Names, Eval;
    var (ia, k1) := BoundsOf(a, scope, c, k);
    var (ib, k2) := BoundsOf(b, scope, c, k1);
    BoundsSound(a, TypeOf(a), scope, c, k, w, w', l);
    BoundsShape(a, TypeOf(a), scope, c, k);
    SettingLater(scope, c, k, w, w', k1);
    BoundsSound(b, TypeOf(b), scope, c, k1, w, w', l);
    BoundsShape(b, TypeOf(b), scope, c, k1);
    if op.And? || op.Or? {
      IvGoodMeaning(ia, BoolT, k1);
      IvGoodMeaning(ib, BoolT, k2);
      BoolValue(a, w, l);
      BoolValue(b, w, l);
    }
    BinSound(op, a, b, ia, ib, c.oracle, Eval(a, w, l), Eval(b, w, l), w');
  }

  lemma AgreePart(s: set<Name>, t: set<Name>, scope: Scope, w: World, w': World)
    requires AgreeOutside(s, scope, w, w') && t <= s
    ensures AgreeOutside(t, scope, w, w')
  {}

  lemma BelowLater(s: set<Name>, k: nat, k': nat)
    requires Below(s, k) && k <= k'
    ensures Below(s, k')
  {}

  lemma CompareIsBool(op: BinOp, x: int, y: int, w: World)
    requires op.LT? || op.LE?
    ensures In(EvalBin(op, x, y), BoundsOfType(BoolT), w)
  {}

  lemma SettingLater(scope: Scope, c: Ctx, k: nat, w: World, w': World, k': nat)
    requires Setting(scope, c, k, w, w') && k <= k'
    ensures Setting(scope, c, k', w, w')
  {
    hide SoundOracle;
    SettingMoves(scope, c, k, w, w', w', k');
  }

  lemma CompareOfSound(op: BinOp, a: Expr, b: Expr, ty: Ty, scope: Scope, c: Ctx, k: nat, w: World, w': World, l: nat)
    requires (op.LT? || op.LE?) && HasTy(a, ty) && HasTy(b, ty) && Below(Names(a), k) && Below(Names(b), k)
    requires Setting(scope, c, k, w, w') && AgreeOutside(Names(a) + Names(b), scope, w, w')
    ensures In(EvalBin(op, Eval(a, w, l), Eval(b, w, l)), CompareOf(op, a, b, scope, c, k).0, w')
    decreases Size(a) + Size(b) + 1, 0
  {
    hide HasTy, BoundsOf, In, CompareBounds, BoundsOfType, Names, Eval, EvalBin, Setting, AgreeOutside, Below;
    AgreePart(Names(a) + Names(b), Names(a), scope, w, w');
    AgreePart(Names(a) + Names(b), Names(b), scope, w, w');
    BelowLater(Names(b), k, BoundsOf(a, scope, c, k).1);
    var x, y := Eval(a, w, l), Eval(b, w, l);
    CompareIsBool(op, x, y, w');
    var (ia, k1) := BoundsOf(a, scope, c, k);
    BoundsSound(a, ty, scope, c, k, w, w', l);
    if !Unknown(ia) {
      SettingLater(scope, c, k, w, w', k1);
      BoundsSound(b, ty, scope, c, k1, w, w', l);
      CompareSound(op, ia, BoundsOf(b, scope, c, k1).0, x, y, w');
    }
  }

  lemma EvalChoice(c: Expr, t: Expr, f: Expr, w: World, l: nat)
    ensures Eval(Select(c, t, f), w, l) == if Eval(c, w, l) != 0 then Eval(t, w, l) else Eval(f, w, l)
  {}

  lemma SelectOfSound(cond: Expr, t: Expr, f: Expr, ty: Ty, scope: Scope, c: Ctx, k: nat, w: World, w': World, l: nat)
    requires HasTy(cond, BoolT) && HasTy(t, ty) && HasTy(f, ty)
    requires Below(Names(cond), k) && Below(Names(t), k) && Below(Names(f), k)
    requires Setting(scope, c, k, w, w') && AgreeOutside(Names(cond) + Names(t) + Names(f), scope, w, w')
    ensures In(Eval(Select(cond, t, f), w, l), SelectOf(cond, t, f, scope, c, k).0, w')
    decreases 1 + Size(cond) + Size(t) + Size(f), 1
  {
    hide SelectBounds, BoundsOf, IvGood, HasTy, In, Names, Eval;
    TypeOfWellTyped(t, ty);
    BoolValue(cond, w, l);
    var v, x, y := Eval(cond, w, l), Eval(t, w, l), Eval(f, w, l);
    EvalChoice(cond, t, f, w, l);
    var (it, k1) := BoundsOf(t, scope, c, k);
    var (jf, k2) := BoundsOf(f, scope, c, k1);
    var (ic, k3) := BoundsOf(cond, scope, c, k2);
    SettingLater(scope, c, k, w, w', k1);
    SettingLater(scope, c, k, w, w', k2);
    BoundsSound(t, ty, scope, c, k, w, w', l);
    BoundsSound(f, ty, scope, c, k1, w, w', l);
    BoundsSound(cond, BoolT, scope, c, k2, w, w', l);
    SelectPartsShape(cond, t, f, ty, scope, c, k);
    SelectSound(ic, it, jf, ty, k3, v, x, y, w');
  }

  lemma SelectPartsShape(cond: Expr, t: Expr, f: Expr, ty: Ty, scope: Scope, c: Ctx, k: nat)
    requires HasTy(cond, BoolT) && HasTy(t, ty) && HasTy(f, ty)
    requires Below(Names(cond), k) && Below(Names(t), k) && Below(Names(f), k)
    requires ScopeGood(scope, k) && FuncsGood(c.funcBounds, k)
    ensures
      var (it, k1) := BoundsOf(t, scope, c, k);
      var (jf, k2) := BoundsOf(f, scope, c, k1);
      var (ic, k3) := BoundsOf(cond, scope, c, k2);
      IvTyped(ic, BoolT) && IvTyped(it, ty) && IvTyped(jf, ty)
      && Below(IvNames(ic), k3) && Below(IvNames(it), k3) && Below(IvNames(jf), k3)
  {
    hide BoundsOf, IvGood, HasTy, Names;
    var (it, k1) := BoundsOf(t, scope, c, k);
    var (jf, k2) := BoundsOf(f, scope, c, k1);
    var (ic, k3) := BoundsOf(cond, scope, c, k2);
    BoundsShape(t, ty, scope, c, k);
    LaterShape(scope, c.funcBounds, k, k1);
    BoundsShape(f, ty, scope, c, k1);
    LaterShape(scope, c.funcBounds, k1, k2);
    BoundsShape(cond, BoolT, scope, c, k2);
    IvGoodMeaning(it, ty, k1);
    IvGoodMeaning(jf, ty, k2);
    IvGoodMeaning(ic, BoolT, k3);
  }

  lemma RampOfSound(base: Expr, stride: Expr, lanes: Pos, scope: Scope, c: Ctx, k: nat, w: World, w': World, l: nat)
    requires HasTy(base, IntT) && HasTy(stride, IntT) && Below(Names(base), k) && Below(Names(stride), k)
    requires Setting(scope, c, k, w, w') && AgreeOutside(Names(base) + Names(stride), scope, w, w')
    ensures In(Eval(Ramp(base, stride, lanes), w, l), RampOf(base, stride, lanes, scope, c, k).0, w')
    decreases 5 + Size(base) + Size(stride), 1
  {
    hide BoundsOf, IvGood, In, LaneRange, Eval;
    var lane, i := Fresh("t", k, IntT), if l < lanes then l else 0;
    var e := Bin(Add, base, Bin(Mul, Var(lane), stride));
    var w1 := Bind(w, lane, (m: nat) => i);
    RampLane(base, stride, lane, k + 1);
    LaneRangeHolds(lanes, i, k + 1, w');
    RampValue(base, stride, lanes, lane, w, l);
    SettingMoves(scope, c, k, w, w', w', k + 1);
    forall x: Name, m: nat | x in scope[lane := LaneRange(lanes)]
      ensures In(Lookup(w1, x, m), scope[lane := LaneRange(lanes)][x], w')
    {
      if x != lane { assert Lookup(w1, x, m) == Lookup(w, x, m); }
    }
    BoundsSound(e, IntT, scope[lane := LaneRange(lanes)], c, k + 1, w1, w', 0);
  }

  lemma LaneRangeHolds(lanes: Pos, i: nat, k: nat, w: World)
    requires i < lanes
    ensures IvGood(LaneRange(lanes), IntT, k) && In(i, LaneRange(lanes), w)
  {
    GoodRules(k);
  }

  lemma RampValue(base: Expr, stride: Expr, lanes: Pos, lane: Name, w: World, l: nat)
    requires lane !in Names(base) && lane !in Names(stride) && lane.ty.IntT?
    ensures var i := if l < lanes then l else 0;
            Eval(Bin(Add, base, Bin(Mul, Var(lane), stride)), Bind(w, lane, (m: nat) => i), 0)
            == Eval(Ramp(base, stride, lanes), w, l)
  {
    var i := if l < lanes then l else 0;
    var w1 := Bind(w, lane, (m: nat) => i);
    BindUnused(base, w, lane, (m: nat) => i, 0);
    BindUnused(stride, w, lane, (m: nat) => i, 0);
    assert Eval(Var(lane), w1, 0) == i;
    assert Eval(Bin(Mul, Var(lane), stride), w1, 0) == i * Eval(stride, w1, 0);
  }

  /** The outer world in which the names for the ends of a let's value are defined. */
  function EndsWorld(w: World, val: Interval, mn: Name, mx: Name): World {
    var w1 := if val.HasUpper() && !IsConst(val.max) && !val.IsPoint() then LetWorld(w, mx, val.max.e) else w;
    if val.HasLower() && !IsConst(val.min) then LetWorld(w1, mn, val.min.e) else w1
  }

  /** Wrapping an end in lets moves it from the inner world to the outer one. */
  lemma WrapEndValue(e: Expr, val: Interval, mn: Name, mx: Name, w: World)
    ensures Eval(WrapEnd(e, val, mn, mx), w, 0) == Eval(e, EndsWorld(w, val, mn, mx), 0)
  {
    hide Eval, Names, LetWorld;
    var w1 := if val.HasUpper() && !IsConst(val.max) && !val.IsPoint() then LetWorld(w, mx, val.max.e) else w;
    var e1 := if val.HasLower() && !IsConst(val.min) && mn in Names(e) then Let(mn, val.min.e, e) else e;
    if val.HasLower() { LetIfUsed(mn, val.min.e, e, w1); }
    if val.HasUpper() { LetIfUsed(mx, val.max.e, e1, w); }
  }

  lemma LetIfUsed(x: Name, v: Expr, e: Expr, w: World)
    ensures Eval(Let(x, v, e), w, 0) == Eval(e, LetWorld(w, x, v), 0)
    ensures x !in Names(e) ==> Eval(e, LetWorld(w, x, v), 0) == Eval(e, w, 0)
  {
    if x !in Names(e) { BindUnused(e, w, x, (m: nat) => Eval(v, w, m), 0); }
  }

  lemma WrapLetMeaning(v: int, i: Interval, val: Interval, mn: Name, mx: Name, w: World)
    requires In(v, i, EndsWorld(w, val, mn, mx))
    ensures In(v, WrapLet(i, val, mn, mx), w)
  {
    hide Eval, WrapEnd, EndsWorld;
    if i.HasLower() { WrapEndValue(i.min.e, val, mn, mx, w); }
    if i.HasUpper() { WrapEndValue(i.max.e, val, mn, mx, w); }
  }

  /** The value of a let lies in what its variable is given inside. */
  lemma LetVarMeaning(v: int, val: Interval, ty: Ty, mn: Name, mx: Name, k: nat, w: World)
    requires In(v, val, w) && IvGood(val, ty, k)
    requires mn != mx && mn.serial >= k && mx.serial >= k && !mn.vec && !mx.vec && mn.ty == mx.ty == ty
    ensures In(v, LetVar(val, mn, mx), EndsWorld(w, val, mn, mx))
  {
    var w1 := if val.HasUpper() && !IsConst(val.max) && !val.IsPoint() then LetWorld(w, mx, val.max.e) else w;
    var w2 := EndsWorld(w, val, mn, mx);
    assert Names(Var(mx)) == {mx};
    if val.HasUpper() {
      LetScalar(w, mx, val.max.e, if val.min.Fin? then val.min.e else I(0));
      if IsConst(val.max) { EvalConstExpr(val.max.e, w); EvalConstExpr(val.max.e, w2); }
    }
    if val.HasLower() {
      LetScalar(w1, mn, val.min.e, Var(mx));
      if IsConst(val.min) { EvalConstExpr(val.min.e, w); EvalConstExpr(val.min.e, w2); }
    }
    hide Eval, LetWorld, Names, HasTy;
  }

  lemma EndsWorldSame(w: World, val: Interval, mn: Name, mx: Name, k: nat)
    requires mn.serial >= k && mx.serial >= k
    ensures SameBelow(k, w, EndsWorld(w, val, mn, mx))
  {
    hide Eval;
  }

  lemma LetOfSound(x: Name, v: Expr, body: Expr, ty: Ty, scope: Scope, c: Ctx, k: nat, w: World, w': World, l: nat)
    requires HasTy(v, x.ty) && HasTy(body, ty) && Below(Names(v), k) && Below(Names(body), k)
    requires Setting(scope, c, k, w, w') && AgreeOutside({x} + Names(v) + Names(body), scope, w, w')
    ensures In(Eval(Let(x, v, body), w, l), LetOf(x, v, body, scope, c, k).0, w')
    decreases 1 + Size(v) + Size(body), 1
  {
    hide BoundsOf, In, WrapLet, EndsWorld;
    var (val, k1) := BoundsOf(v, scope, c, k);
    var mn, mx := MinName(x, k1), MaxName(x, k1);
    var w1, w1' := LetWorld(w, x, v), EndsWorld(w', val, mn, mx);
    var scope1 := scope[x := LetVar(val, mn, mx)];
    LetSetting(x, v, body, ty, scope, c, k, w, w');
    BoundsSound(body, ty, scope1, c, k1 + 2, w1, w1', l);
    WrapLetMeaning(Eval(body, w1, l), BoundsOf(body, scope1, c, k1 + 2).0, val, mn, mx, w');
  }

  /** Entering a let keeps the setting. */
  lemma LetSetting(x: Name, v: Expr, body: Expr, ty: Ty, scope: Scope, c: Ctx, k: nat, w: World, w': World)
    requires HasTy(v, x.ty) && Below(Names(v), k) && Below(Names(body), k)
    requires Setting(scope, c, k, w, w') && AgreeOutside({x} + Names(v) + Names(body), scope, w, w')
    ensures
      var (val, k1) := BoundsOf(v, scope, c, k);
      var mn, mx := MinName(x, k1), MaxName(x, k1);
      var scope1 := scope[x := LetVar(val, mn, mx)];
      var w1, w1' := LetWorld(w, x, v), EndsWorld(w', val, mn, mx);
      Setting(scope1, c, k1 + 2, w1, w1') && AgreeOutside(Names(body), scope1, w1, w1')
    decreases 1 + Size(v) + Size(body), 0
  {
    hide BoundsOf, IvGood, In, LetVar, EndsWorld, HasTy, Eval, Setting, AgreeOutside, Below, Names, LetWorld;
    var (val, k1) := BoundsOf(v, scope, c, k);
    AgreePart({x} + Names(v) + Names(body), Names(v), scope, w, w');
    forall m: nat ensures In(Eval(v, w, m), val, w') {
      BoundsSound(v, x.ty, scope, c, k, w, w', m);
    }
    SettingShape(v, x.ty, scope, c, k, w, w');
    EndsWorldSame(w', val, MinName(x, k1), MaxName(x, k1), k1);
    SameBelowEarlier(k, k1, w', EndsWorld(w', val, MinName(x, k1), MaxName(x, k1)));
    SettingMoves(scope, c, k, w, w', EndsWorld(w', val, MinName(x, k1), MaxName(x, k1)), k1 + 2);
    LetCovers(x, v, scope, c, k1, w, w', val);
    LetAgrees(x, v, body, scope, k, k1, w, w', val);
  }

  lemma SettingShape(v: Expr, ty: Ty, scope: Scope, c: Ctx, k: nat, w: World, w': World)
    requires HasTy(v, ty) && Below(Names(v), k) && Setting(scope, c, k, w, w')
    ensures IvGood(BoundsOf(v, scope, c, k).0, ty, BoundsOf(v, scope, c, k).1)
  {
    hide BoundsOf, IvGood, SoundOracle, Covers, FuncsCovered;
    BoundsShape(v, ty, scope, c, k);
  }

  lemma SameBelowEarlier(k: nat, k': nat, w: World, w': World)
    requires SameBelow(k', w, w') && k <= k'
    ensures SameBelow(k, w, w')
  {}

  /** Outside the scope of the let's body nothing has changed. */
  lemma LetAgrees(x: Name, v: Expr, body: Expr, scope: Scope, k: nat, k1: nat, w: World, w': World, val: Interval)
    requires AgreeOutside({x} + Names(v) + Names(body), scope, w, w') && Below(Names(body), k) && k <= k1
    ensures var mn, mx := MinName(x, k1), MaxName(x, k1);
            AgreeOutside(Names(body), scope[x := LetVar(val, mn, mx)], LetWorld(w, x, v), EndsWorld(w', val, mn, mx))
  {
    hide LetVar, EndsWorld, Eval, Names;
    EndsWorldSame(w', val, MinName(x, k1), MaxName(x, k1), k1);
  }

  lemma LetCovers(x: Name, v: Expr, scope: Scope, c: Ctx, k: nat, w: World, w': World, val: Interval)
    requires HasTy(v, x.ty) && IvGood(val, x.ty, k)
    requires forall m: nat :: In(Eval(v, w, m), val, w')
    requires Setting(scope, c, k + 2, w, EndsWorld(w', val, MinName(x, k), MaxName(x, k)))
    ensures var mn, mx := MinName(x, k), MaxName(x, k);
            Setting(scope[x := LetVar(val, mn, mx)], c, k + 2, LetWorld(w, x, v), EndsWorld(w', val, mn, mx))
  {
    hide IvGood, In, LetVar, EndsWorld, HasTy, Eval;
    var mn, mx := MinName(x, k), MaxName(x, k);
    var scope1 := scope[x := LetVar(val, mn, mx)];
    var w1, w1' := LetWorld(w, x, v), EndsWorld(w', val, mn, mx);
    IvGoodLater(val, x.ty, k, k + 2);
    LetVarShape(val, x.ty, mn, mx, k + 2);
    forall y: Name, m: nat | y in scope1 ensures In(Lookup(w1, y, m), scope1[y], w1') {
      if y == x {
        LetVarMeaning(Eval(v, w, if x.vec then m else 0), val, x.ty, mn, mx, k, w');
        LookupLet(w, x, v, m);
      } else {
        assert Lookup(w1, y, m) == Lookup(w, y, m);
      }
    }
  }

  lemma LookupLet(w: World, x: Name, v: Expr, m: nat)
    requires HasTy(v, x.ty)
    ensures Lookup(LetWorld(w, x, v), x, m) == Eval(v, w, if x.vec then m else 0)
  {
    if x.ty.BoolT? { BoolValue(v, w, if x.vec then m else 0); }
  }

  lemma CallOfSound(ct: CallType, f: string, n: nat, args: seq<Expr>, scope: Scope, c: Ctx,
      k: nat, w: World, w': World, l: nat)
    requires forall i :: 0 <= i < |args| ==> HasTy(args[i], IntT)
    requires Below(NamesOfAll(args), k)
    requires Setting(scope, c, k, w, w') && AgreeOutside(NamesOfAll(args), scope, w, w')
    ensures In(Eval(Call(ct, f, n, args), w, l), CallOf(ct, f, n, args, scope, c, k).0, w')
    decreases 1 + SizeAll(args), 1
  {
    if ct.FuncCall? {
      if (f, n) in c.funcBounds {
        assert In(w.funcs(f, n, EvalArgs(args, w, l)), c.funcBounds[(f, n)], w');
      }
    } else if !c.constBound {
      PointsSound(args, scope, c, k, w, w', l);
    }
  }

  lemma PointsSound(args: seq<Expr>, scope: Scope, c: Ctx, k: nat, w: World, w': World, l: nat)
    requires forall i :: 0 <= i < |args| ==> HasTy(args[i], IntT)
    requires Below(NamesOfAll(args), k)
    requires Setting(scope, c, k, w, w') && AgreeOutside(NamesOfAll(args), scope, w, w')
    ensures var points := PointsOf(args, scope, c, k).0;
            points.Some? ==> EvalArgs(points.value, w', 0) == EvalArgs(args, w, l)
    decreases SizeAll(args), 0
  {
    if args != [] {
      hide BoundsOf, In;
      var (i, k1) := BoundsOf(args[0], scope, c, k);
      BoundsSound(args[0], IntT, scope, c, k, w, w', l);
      if i.IsPoint() {
        SettingLater(scope, c, k, w, w', k1);
        PointsSound(args[1..], scope, c, k1, w, w', l);
        PointValue(Eval(args[0], w, l), i, w');
        var rest := PointsOf(args[1..], scope, c, k1).0;
        if rest.Some? { assert ([i.min.e] + rest.value)[1..] == rest.value; }
      }
    }
  }

  lemma PointValue(v: int, i: Interval, w: World)
    requires In(v, i, w) && i.IsPoint()
    ensures v == Eval(i.min.e, w, 0)
  {}
}
