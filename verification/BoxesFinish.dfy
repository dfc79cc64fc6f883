// When the visitor is sure to end well: no infinity has to be formed, and none
// is given to a name. Two programs show the two ways in which it can fail.

module BoxesFinishing {
  import opened Options
  import opened IR
  import opened Intervals
  import opened BoundsRules
  import opened Bounds
  import opened Boxes
  import opened Stmts
  import opened BoxesTouching
  import opened TrimOrders
  import opened BoxesShape
  import opened BoxesKeep
  import opened BoxesSound

  predicate Finite(i: Interval) { i.min.Fin? && i.max.Fin? }

  predicate FiniteScope(scope: Scope) { forall x :: x in scope ==> Finite(scope[x]) }

  /** Expressions whose interval is finite wherever that of each variable is. A
      quotient is no larger than what is divided, a remainder is smaller than
      the divisor, and a comparison is a truth value whatever is compared. */
  predicate Tame(e: Expr, fb: FuncBounds) {
    match e
    case Const(_, _) => true
    case Var(x) => !x.vec || x.ty.BoolT?
    case Un(_, a) => Tame(a, fb)
    case Bin(op, a, b) => IsCompare(op) || ((op.Mod? || Tame(a, fb)) && (op.Div? || Tame(b, fb)))
    case Select(c, a, b) => Tame(c, fb) && Tame(a, fb) && Tame(b, fb)
    case Ramp(b, s, _) => Tame(b, fb) && Tame(s, fb)
    case Let(_, v, b) => Tame(v, fb) && Tame(b, fb)
    case Call(ct, f, i, _) => ct.FuncCall? && (f, i) in fb && Finite(fb[(f, i)])
  }

  // ----- finite operands give finite results -----

  lemma BinFinite(op: BinOp, ea: Expr, eb: Expr, a: Interval, b: Interval, o: Oracle)
    requires IsCompare(op) || ((op.Mod? || Finite(a)) && (op.Div? || Finite(b)))
    ensures op.LT? || op.LE? || op.GT? || op.GE? || Finite(BinBounds(op, ea, eb, a, b, o))
  {
    hide AddBounds, SubBounds, MulBounds, DivBounds, ModBounds, MinBounds, MaxBounds, EqBounds,
        NeBounds, AndBounds, OrBounds, Finite;
    match op
    case Add | Sub | Min | Max | EQ | NE | And | Or => SimpleFinite(op, ea, eb, a, b);
    case Mul => MulFinite(ea, eb, a, b); MulFinite(ea, eb, b, a); MulIs(ea, eb, a, b);
    case Div => DivFinite(ea, eb, a, b, o);
    case Mod => ModFinite(ea, eb, a, b, o);
    case _ =>
  }

  lemma SimpleFinite(op: BinOp, ea: Expr, eb: Expr, a: Interval, b: Interval)
    requires op.EQ? || op.NE? || (Finite(a) && Finite(b))
    ensures op.Add? ==> Finite(AddBounds(ea, eb, a, b))
    ensures op.Sub? ==> Finite(SubBounds(ea, eb, a, b))
    ensures op.Min? ==> Finite(MinBounds(ea, eb, a, b))
    ensures op.Max? ==> Finite(MaxBounds(ea, eb, a, b))
    ensures op.EQ? ==> Finite(EqBounds(ea, eb, a, b))
    ensures op.NE? ==> Finite(NeBounds(ea, eb, a, b))
    ensures op.And? ==> Finite(AndBounds(ea, eb, a, b))
    ensures op.Or? ==> Finite(OrBounds(ea, eb, a, b))
  {
    hide MakeAnd, MakeOr;
  }

  lemma MulIs(ea: Expr, eb: Expr, a: Interval, b: Interval)
    ensures MulBounds(ea, eb, a, b) == MulOrdered(ea, eb, a, b) || MulBounds(ea, eb, a, b) == MulOrdered(ea, eb, b, a)
  {
    hide MulOrdered;
  }

  lemma MulFinite(ea: Expr, eb: Expr, a: Interval, b: Interval)
    requires Finite(a) && Finite(b)
    ensures Finite(MulOrdered(ea, eb, a, b))
  {
    hide Include4;
    Include4Finite();
  }

  lemma DivFinite(ea: Expr, eb: Expr, a: Interval, b: Interval, o: Oracle)
    requires Finite(a)
    ensures Finite(DivBounds(ea, eb, a, b, o))
  {
    hide StaticSign, Include4, DivFixed, DivUnknown;
    if b.IsBounded() { DivFixedFinite(a, b, o); }
    DivUnknownFinite(a, o);
    Include4Finite();
  }

  lemma DivUnknownFinite(a: Interval, o: Oracle)
    requires Finite(a)
    ensures Finite(DivUnknown(a, o))
  {}

  lemma DivFixedFinite(a: Interval, b: Interval, o: Oracle)
    requires Finite(a) && b.IsBounded()
    ensures Finite(DivFixed(a, b, o))
  {}

  lemma ModFinite(ea: Expr, eb: Expr, a: Interval, b: Interval, o: Oracle)
    requires Finite(b)
    ensures Finite(ModBounds(ea, eb, a, b, o))
  {}

  lemma Include4Finite()
    ensures forall e1, e2, e3, e4 :: Finite(Include4(e1, e2, e3, e4))
  {}

  lemma SelectFinite(cond: Interval, a: Interval, b: Interval, ty: Ty, k: nat)
    requires Finite(cond) && Finite(a) && Finite(b)
    ensures Finite(SelectBounds(cond, a, b, ty, k).0)
  {
    hide SelectEnd;
  }

  lemma {:induction false} TameBounds(e: Expr, scope: Scope, c: Ctx, k: nat)
    requires Tame(e, c.funcBounds) && FiniteScope(scope) && !c.constBound
    ensures Finite(BoundsOf(e, scope, c, k).0)
    decreases Size(e)
  {
    match e
    case Const(_, _) =>
    case Var(_) =>
    case Un(_, a) => TameBounds(a, scope, c, k);
    case Bin(op, a, b) => TameBinBounds(op, a, b, scope, c, k);
    case Select(cond, x, y) =>
      hide SelectBounds;
      var (it, k1) := BoundsOf(x, scope, c, k);
      var (jf, k2) := BoundsOf(y, scope, c, k1);
      var (ic, k3) := BoundsOf(cond, scope, c, k2);
      TameBounds(x, scope, c, k);
      TameBounds(y, scope, c, k1);
      TameBounds(cond, scope, c, k2);
      SelectFinite(ic, it, jf, TypeOf(x), k3);
    case Ramp(b, s, n) =>
      var lane := Fresh("t", k, IntT);
      assert Size(Bin(Mul, Var(lane), s)) == 2 + Size(s);
      assert FiniteScope(scope[lane := LaneRange(n)]) && Tame(Bin(Mul, Var(lane), s), c.funcBounds);
      TameBounds(Bin(Add, b, Bin(Mul, Var(lane), s)), scope[lane := LaneRange(n)], c, k + 1);
    case Let(x, v, b) =>
      var (val, k1) := BoundsOf(v, scope, c, k);
      TameBounds(v, scope, c, k);
      var inner := LetVar(val, MinName(x, k1), MaxName(x, k1));
      assert FiniteScope(scope[x := inner]);
      TameBounds(b, scope[x := inner], c, k1 + 2);
    case Call(_, _, _, _) =>
  }

  lemma TameBinBounds(op: BinOp, a: Expr, b: Expr, scope: Scope, c: Ctx, k: nat)
    requires Tame(Bin(op, a, b), c.funcBounds) && FiniteScope(scope) && !c.constBound
    ensures Finite(BoundsOf(Bin(op, a, b), scope, c, k).0)
    decreases Size(Bin(op, a, b)), 0
  {
    hide BinBounds, CompareBounds;
    if op.LT? || op.LE? || op.GT? || op.GE? {
      CompareFinite();
    } else {
      var (ia, k1) := BoundsOf(a, scope, c, k);
      var (ib, k2) := BoundsOf(b, scope, c, k1);
      if Tame(a, c.funcBounds) { TameBounds(a, scope, c, k); }
      if Tame(b, c.funcBounds) { TameBounds(b, scope, c, k1); }
      BinFinite(op, a, b, ia, ib, c.oracle);
    }
  }

  lemma CompareFinite()
    ensures forall op, i, j :: Finite(CompareBounds(op, i, j))
  {}

  // ----- expressions -----

  /** The value of every let inside an expression is tame. */
  predicate LetsTame(e: Expr, fb: FuncBounds)
    decreases e, 1
  {
    match e
    case Const(_, _) => true
    case Var(_) => true
    case Un(_, a) => LetsTame(a, fb)
    case Bin(_, a, b) => LetsTame(a, fb) && LetsTame(b, fb)
    case Select(c, a, b) => LetsTame(c, fb) && LetsTame(a, fb) && LetsTame(b, fb)
    case Ramp(b, s, _) => LetsTame(b, fb) && LetsTame(s, fb)
    case Let(_, v, b) => Tame(v, fb) && LetsTame(v, fb) && LetsTame(b, fb)
    case Call(_, _, _, args) => AllLetsTame(args, fb)
  }

  predicate AllLetsTame(es: seq<Expr>, fb: FuncBounds)
    decreases es, 0
  {
    es != [] ==> LetsTame(es[0], fb) && AllLetsTame(es[1..], fb)
  }

  lemma LetValueFinite(v: Expr, scope: Scope, c: Ctx, k: nat)
    requires Tame(v, c.funcBounds) && FiniteScope(scope) && !c.constBound
    ensures Finite(LetValue(v, scope, c, k).0)
  {
    TameBounds(v, scope, c, k);
  }

  lemma EnterLetFinite(x: Name, val: Interval, scope: Scope, k: nat)
    requires Finite(val) && FiniteScope(scope)
    ensures FiniteScope(EnterLet(x, val, scope, k).0)
  {
    hide IsSmallInterval;
  }

  /** A finite range can be given to any names. */
  lemma FiniteDefines(st: State, n: Ends, val: Interval)
    requires Finite(val)
    ensures AllDefinable(st.boxes, n, val) && DefineAll(st, n, val).status == st.status
  {
    hide Names;
    forall f, d: nat | f in st.boxes && d < |st.boxes[f].bounds|
      ensures DefineInterval(st.boxes[f].bounds[d], n, val).Some?
    {}
  }

  lemma LeaveLetFinishes(x: Name, val: Interval, k: nat, st: State)
    requires Finite(val)
    ensures LeaveLet(x, val, k, st).status == st.status
  {
    FiniteDefines(st, NewEnds(x, k), val);
  }

  lemma {:induction false} TouchExprFinishes(e: Expr, p: Place, t: Tools, st: State)
    requires LetsTame(e, t.c.funcBounds) && FiniteScope(p.scope) && !t.c.constBound && st.Ok()
    ensures TouchExpr(e, p, t, st).Ok()
    decreases e, 1
  {
    match e
    case Const(_, _) =>
    case Var(_) =>
    case Un(_, a) => TouchExprFinishes(a, p, t, st);
    case Bin(_, a, b) => TouchExprFinishes(a, p, t, st); TouchExprFinishes(b, p, t, TouchExpr(a, p, t, st));
    case Select(c, x, y) =>
      TouchExprFinishes(c, p, t, st);
      TouchExprFinishes(x, p, t, TouchExpr(c, p, t, st));
      TouchExprFinishes(y, p, t, TouchExpr(x, p, t, TouchExpr(c, p, t, st)));
    case Ramp(b, s, _) => TouchExprFinishes(b, p, t, st); TouchExprFinishes(s, p, t, TouchExpr(b, p, t, st));
    case Let(x, v, b) =>
      hide LetValue, EnterLet, LeaveLet, Tame;
      var st1 := TouchExpr(v, p, t, st);
      TouchExprFinishes(v, p, t, st);
      var (val, k1) := LetValue(v, p.scope, t.c, st1.k);
      LetValueFinite(v, p.scope, t.c, st1.k);
      var (scope, k2) := EnterLet(x, val, p.scope, k1);
      EnterLetFinite(x, val, p.scope, k1);
      TouchExprFinishes(b, p.(scope := scope), t, st1.(k := k2));
      LeaveLetFinishes(x, val, k1, TouchExpr(b, p.(scope := scope), t, st1.(k := k2)));
    case Call(_, _, _, args) => if t.mode.calls { TouchArgsFinishes(args, p, t, st); }
  }

  lemma {:induction false} TouchArgsFinishes(es: seq<Expr>, p: Place, t: Tools, st: State)
    requires AllLetsTame(es, t.c.funcBounds) && FiniteScope(p.scope) && !t.c.constBound && st.Ok()
    ensures TouchArgs(es, p, t, st).Ok()
    decreases es, 0
  {
    if es != [] {
      TouchExprFinishes(es[0], p, t, st);
      TouchArgsFinishes(es[1..], p, t, TouchExpr(es[0], p, t, st));
    }
  }

  // ----- statements -----

  /** Loop bounds and let values are tame. */
  predicate TameStmt(s: Stmt, fb: FuncBounds) {
    match s
    case Block(first, rest) => TameStmt(first, fb) && TameStmt(rest, fb)
    case For(_, min, extent, body) =>
      Tame(min, fb) && Tame(extent, fb) && LetsTame(min, fb) && LetsTame(extent, fb) && TameStmt(body, fb)
    case LetStmt(_, v, body) => Tame(v, fb) && LetsTame(v, fb) && TameStmt(body, fb)
    case IfThenElse(c, a, b) => LetsTame(c, fb) && TameStmt(a, fb) && (b.Some? ==> TameStmt(b.value, fb))
    case Provide(_, values, args) => AllLetsTame(values, fb) && AllLetsTame(args, fb)
    case Evaluate(e) => LetsTame(e, fb)
  }

  /** The lets that may be recomputed are tame and known. */
  ghost predicate TamePlace(p: Place, fb: FuncBounds) {
    && FiniteScope(p.scope) && AllInsts(p.children) <= p.lets.Keys
    && forall x :: x in p.lets ==> x in p.scope && Tame(p.lets[x], fb)
  }

  lemma RestrictFinite(x: Name, cond: Expr, likely: bool, scope: Scope, t: Tools, k: nat)
    requires x in scope && Finite(scope[x])
    ensures var i := Restrict(x, cond, likely, scope, t, k).0; i.Some? ==> Finite(i.value)
  {
    hide BoundsOf;
  }

  lemma {:induction false} RestrictionsFinite(vs: seq<Name>, cond: Expr, likely: bool, scope: Scope, t: Tools, k: nat)
    requires FiniteScope(scope)
    ensures forall r :: r in Restrictions(vs, cond, likely, scope, t, k).0 ==> r.x in scope && Finite(r.i)
  {
    if vs != [] {
      hide Restrict;
      if vs[0] in scope {
        RestrictFinite(vs[0], cond, likely, scope, t, k);
        RestrictionsFinite(vs[1..], cond, likely, scope, t, Restrict(vs[0], cond, likely, scope, t, k).1);
      } else {
        RestrictionsFinite(vs[1..], cond, likely, scope, t, k);
      }
    }
  }

  lemma {:induction false} PushedFinite(scope: Scope, ns: seq<Ends>)
    requires FiniteScope(scope)
    ensures FiniteScope(Pushed(scope, ns)) && scope.Keys <= Pushed(scope, ns).Keys
  {
    if ns != [] { PushedFinite(scope, ns[1..]); }
  }

  lemma {:induction false} PopLetsFinishes(ns: seq<Ends>, scope: Scope, lets: Lets, t: Tools, st: State)
    requires FiniteScope(scope) && !t.c.constBound && st.Ok()
    requires forall n :: n in ns ==> n.x in lets && n.x in scope && Tame(lets[n.x], t.c.funcBounds)
    ensures PopLets(ns, scope, lets, t, st).Ok()
  {
    if ns != [] {
      hide LetValue, DefineAll, AllDefinable, Tame;
      var n := ns[0];
      assert n in ns;
      PushedFinite(scope, ns[1..]);
      LetValueFinite(lets[n.x], Pushed(scope, ns[1..]), t.c, st.k);
      var (i, k1) := LetValue(lets[n.x], Pushed(scope, ns[1..]), t.c, st.k);
      FiniteDefines(st.(k := k1), n, Intersect(i, scope[n.x], t.c.oracle));
      PopLetsFinishes(ns[1..], scope, lets, t, PopLet(st.(k := k1), n, i, scope[n.x], t.c.oracle));
    }
  }

  lemma InsideLetTame(x: Name, v: Expr, scope: Scope, p: Place, fb: FuncBounds)
    requires TamePlace(p, fb) && Tame(v, fb) && FiniteScope(scope) && p.scope.Keys + {x} <= scope.Keys
    ensures TamePlace(InsideLet(x, v, scope, p), fb)
  {
    hide AllInsts, ChildrenInside, Tame;
    ChildrenInsideMeaning(x, v, p);
  }

  lemma {:induction false} TouchStmtFinishes(s: Stmt, p: Place, t: Tools, st: State)
    requires TameStmt(s, t.c.funcBounds) && TamePlace(p, t.c.funcBounds) && !t.c.constBound && st.Ok()
    ensures TouchStmt(s, p, t, st).Ok()
    decreases s, 0
  {
    match s
    case Block(first, rest) =>
      TouchStmtFinishes(first, p, t, st);
      TouchStmtFinishes(rest, p, t, TouchStmt(first, p, t, st));
    case For(x, min, extent, body) => TouchForFinishes(x, min, extent, body, p, t, st);
    case LetStmt(x, v, body) => TouchLetStmtFinishes(x, v, body, p, t, st);
    case IfThenElse(c, a, b) => TouchIfFinishes(c, a, b, p, t, st);
    case Provide(f, values, args) =>
      var st1 := if t.mode.stores then AddBox(f, args, None, p, t, st) else st;
      if t.mode.calls {
        TouchArgsFinishes(args, p, t, st1);
        TouchArgsFinishes(values, p, t, TouchArgs(args, p, t, st1));
      }
    case Evaluate(e) => TouchExprFinishes(e, p, t, st);
  }

  lemma TouchForFinishes(x: Name, min: Expr, extent: Expr, body: Stmt, p: Place, t: Tools, st: State)
    requires TameStmt(For(x, min, extent, body), t.c.funcBounds) && TamePlace(p, t.c.funcBounds)
        && !t.c.constBound && st.Ok()
    ensures TouchStmt(For(x, min, extent, body), p, t, st).Ok()
    decreases body, 3
  {
    hide Tame, LetsTame, AllInsts;
    if t.mode.calls {
      TouchExprFinishes(min, p, t, st);
      TouchExprFinishes(extent, p, t, TouchExpr(min, p, t, st));
    }
    var st1 := HeadState(min, extent, p, t, st);
    LoopRangeFinite(min, extent, p.scope, t.c, st1.k);
    var (i, k) := LoopRange(min, extent, p.scope, t.c, st1.k);
    TouchStmtFinishes(body, InsideLoop(x, i.value, p), t, st1.(k := k));
  }

  lemma LoopRangeFinite(min: Expr, extent: Expr, scope: Scope, c: Ctx, k: nat)
    requires Tame(min, c.funcBounds) && Tame(extent, c.funcBounds) && FiniteScope(scope) && !c.constBound
    ensures var i := LoopRange(min, extent, scope, c, k).0; i.Some? && Finite(i.value)
  {
    hide BoundsOf;
    var (lo, k1) := BoundsOf(min, scope, c, k);
    var (ext, k2) := BoundsOf(extent, scope, c, k1);
    TameBounds(min, scope, c, k);
    TameBounds(extent, scope, c, k1);
    TameBounds(min, scope, c, k2);
  }

  lemma TouchLetStmtFinishes(x: Name, v: Expr, body: Stmt, p: Place, t: Tools, st: State)
    requires TameStmt(LetStmt(x, v, body), t.c.funcBounds) && TamePlace(p, t.c.funcBounds) && !t.c.constBound && st.Ok()
    ensures TouchStmt(LetStmt(x, v, body), p, t, st).Ok()
    decreases body, 3
  {
    hide LetValue, EnterLet, LeaveLet, Tame, LetsTame, TamePlace;
    assert FiniteScope(p.scope) by { PlaceScope(p, t.c.funcBounds); }
    var st1 := TouchExpr(v, p, t, st);
    TouchExprFinishes(v, p, t, st);
    var (val, k1) := LetValue(v, p.scope, t.c, st1.k);
    LetValueFinite(v, p.scope, t.c, st1.k);
    var (scope, k2) := EnterLet(x, val, p.scope, k1);
    EnterLetFinite(x, val, p.scope, k1);
    EnterLetKeys(x, val, p.scope, k1);
    InsideLetTame(x, v, scope, p, t.c.funcBounds);
    TouchStmtFinishes(body, InsideLet(x, v, scope, p), t, st1.(k := k2));
    LeaveLetFinishes(x, val, k1, TouchStmt(body, InsideLet(x, v, scope, p), t, st1.(k := k2)));
  }

  lemma PlaceScope(p: Place, fb: FuncBounds)
    requires TamePlace(p, fb)
    ensures FiniteScope(p.scope)
  {}

  lemma TouchIfFinishes(c: Expr, a: Stmt, b: Option<Stmt>, p: Place, t: Tools, st: State)
    requires TameStmt(IfThenElse(c, a, b), t.c.funcBounds) && TamePlace(p, t.c.funcBounds) && !t.c.constBound && st.Ok()
    ensures TouchStmt(IfThenElse(c, a, b), p, t, st).Ok()
    decreases IfThenElse(c, a, b), -1
  {
    hide LetsTame, TamePlace, Fork, IsNoOp, UsesScope;
    PlaceScope(p, t.c.funcBounds);
    var st1 := TouchExpr(c, p, t, st);
    TouchExprFinishes(c, p, t, st);
    if UsesScope(c, p.scope) || !IsPure(c) {
      TouchCaseFinishes(t.c.oracle.simp(c), c, a, p, t, st1);
      if b.Some? && !IsNoOp(b.value) {
        TouchCaseFinishes(t.c.oracle.simp(Un(Not, c)), c, b.value, p, t,
            TouchCase(t.c.oracle.simp(c), c, a, p, t, st1));
      }
    } else {
      TouchStmtFinishes(a, p, t, st1.(boxes := map[]));
      if b.Some? { TouchStmtFinishes(b.value, p, t, TouchStmt(a, p, t, st1.(boxes := map[])).(boxes := map[])); }
    }
  }

  lemma TouchCaseFinishes(c: Expr, cond: Expr, body: Stmt, p: Place, t: Tools, st: State)
    requires TameStmt(body, t.c.funcBounds) && TamePlace(p, t.c.funcBounds) && !t.c.constBound && st.Ok()
    ensures TouchCase(c, cond, body, p, t, st).Ok()
    decreases body, 2 + |Occurrences(cond)|
  {
    hide TameStmt, TamePlace, TrimAll, Restrictions;
    PlaceScope(p, t.c.funcBounds);
    var likely := c.Un? && c.uop.Likely?;
    var (rs, k) := Restrictions(Occurrences(cond), if likely then c.arg else c, likely, p.scope, t, st.k);
    RestrictionsFinite(Occurrences(cond), if likely then c.arg else c, likely, p.scope, t, st.k);
    TrimAllFinishes(rs, body, p, t, st.(k := k));
  }

  lemma {:induction false} TrimAllFinishes(rs: seq<Restriction>, body: Stmt, p: Place, t: Tools, st: State)
    requires TameStmt(body, t.c.funcBounds) && TamePlace(p, t.c.funcBounds) && !t.c.constBound && st.Ok()
    requires forall r :: r in rs ==> r.x in p.scope && Finite(r.i)
    ensures TrimAll(rs, body, p, t, st).Ok()
    decreases body, 1 + |rs|
  {
    hide TameStmt, TamePlace, Tame, Finite, PopLets, DependentNames, Pushed, FiniteScope;
    if rs == [] {
      TouchStmtFinishes(body, p, t, st);
    } else {
      var ns, q := DependentNames(p, rs[0].x, st.k), Narrowed(p, rs[0]);
      assert rs[0] in rs;
      DependentsTame(rs[0].x, p, t.c.funcBounds, st.k);
      RenamedTame(rs[0], p, ns, t.c.funcBounds);
      var st1 := st.(k := st.k + 2 * |ns|);
      TrimAllFinishes(rs[1..], body, Renamed(q, ns), t, st1);
      PopLetsFinishes(ns, q.scope, p.lets, t, TrimAll(rs[1..], body, Renamed(q, ns), t, st1));
    }
  }

  lemma RenamedTame(r: Restriction, p: Place, ns: seq<Ends>, fb: FuncBounds)
    requires TamePlace(p, fb) && r.x in p.scope && Finite(r.i)
    ensures FiniteScope(Narrowed(p, r).scope) && Narrowed(p, r).scope.Keys == p.scope.Keys
    ensures TamePlace(Renamed(Narrowed(p, r), ns), fb) && p.scope.Keys <= Renamed(Narrowed(p, r), ns).scope.Keys
  {
    hide Finite, Tame, AllInsts;
    PushedFinite(Narrowed(p, r).scope, ns);
  }

  /** What is renamed is a let that is known. */
  lemma DependentsTame(x: Name, p: Place, fb: FuncBounds, k: nat)
    requires TamePlace(p, fb)
    ensures forall n :: n in DependentNames(p, x, k) ==> n.x in p.lets && n.x in p.scope && Tame(p.lets[n.x], fb)
  {
    hide AllInsts, Tame, Finite, TrimOrder, AllChildren;
    VisibleMeaning(p.children, p.depth);
    TrimOrderMeaning(x, Visible(p.children, p.depth));
    NamedAre(Dependents(p, x), k);
  }

  lemma {:induction false} NamedAre(xs: seq<Name>, k: nat)
    ensures forall n :: n in NameLets(xs, k) ==> n.x in xs
  {
    if xs != [] { NamedAre(xs[1..], k); }
  }

  /** A caller that gives finite ranges, for a program whose loop bounds and let
      values are tame, always gets its boxes. */
  lemma BoxesTouchedFinishes(s: Stmt, scope: Scope, c: Ctx, solve: Solver, fn: string, k: nat)
    requires TameStmt(s, c.funcBounds) && FiniteScope(scope) && !c.constBound
    ensures BoxesTouched(s, scope, c, solve, fn, k).Ok()
  {
    hide TameStmt, TouchStmt;
    var p := Outermost(scope);
    assert AllInsts(p.children) == {};
    var calls, stores := Tools(c, solve, Mode(true, false, fn)), Tools(c, solve, Mode(false, true, fn));
    var a := TouchStmt(s, p, calls, State(map[], k, Fine));
    TouchStmtFinishes(s, p, calls, State(map[], k, Fine));
    TouchStmtFinishes(s, p, stores, State(map[], a.k, Fine));
  }

  /** With finite ranges and a tame program the boxes hold every point touched,
      whatever the compiler's simplifier, prover and solver do. */
  lemma TameBoxesSound(s: Stmt, scope: Scope, c: Ctx, solve: Solver, fn: string, k: nat, g: Program,
                       w: World, w': World, f: string, pt: seq<int>)
    requires Given(s, scope, c, solve, k, g) && TameStmt(s, c.funcBounds) && FiniteScope(scope) && !c.constBound
    requires Covers(scope, w, w') && AgreeOutside(g.names, scope, w, w') && FuncsCovered(c.funcBounds, w, w')
    requires Touches(s, Mode(true, true, fn), w, f, pt) && (f == fn || fn == "") && pt != []
    ensures var r := BoxesTouched(s, scope, c, solve, fn, k);
            r.Ok() && f in r.boxes && InBox(r.boxes[f], pt, w') && BoxesGood(r.boxes, r.k, g)
  {
    hide *;
    BoxesTouchedFinishes(s, scope, c, solve, fn, k);
    BoxesTouchedSound(s, scope, c, solve, fn, k, g, w, w', f, pt);
  }

  // ----- how it fails -----

  /** A simplifier and a prover that do nothing, and a solver that only recognises what is already solved. */
  const IDLE := Oracle((e: Expr) => false, (e: Expr) => e)
  const RECOGNISE: Solver := (e: Expr, x: Name) => (e, e.Bin? && e.a == Var(x))

  lemma IdleIsSound()
    ensures SoundOracle(IDLE) && SoundSolver(RECOGNISE)
  {}

  function Storing(): Tools { Tools(Ctx(map[], false, IDLE), RECOGNISE, Mode(false, true, "f")) }

  const UNKNOWN := Call(FuncCall, "g", 0, [])

  /** A loop over an extent of which nothing is known: the last value cannot be formed. */
  lemma UnknownLoopAborts(x: Name, body: Stmt, k: nat)
    ensures TouchStmt(For(x, I(0), UNKNOWN, body), Outermost(map[]), Storing(), State(map[], k, Fine)).status == Aborted
  {
    var c := Ctx(map[], false, IDLE);
    assert BoundsOf(I(0), map[], c, k) == (SinglePoint(I(0)), k);
    assert BoundsOf(UNKNOWN, map[], c, k) == (EVERYTHING, k);
  }

  function Param(n: nat): Name { Name("p" + seq(n, _ => 'p'), 0, IntT, false) }

  /** A sum of n + 1 parameters. */
  function Sum(n: nat): Expr { if n == 0 then Var(Param(0)) else Bin(Add, Sum(n - 1), Var(Param(n))) }

  lemma {:induction false} SumBounds(n: nat, k: nat)
    ensures BoundsOf(Sum(n), map[], Ctx(map[], false, IDLE), k) == (SinglePoint(Sum(n)), k)
    ensures VarCount(Sum(n)) == n + 1
  {
    var c := Ctx(map[], false, IDLE);
    if n > 0 {
      SumBounds(n - 1, k);
      assert Sum(n) == Bin(Add, Sum(n - 1), Var(Param(n)));
      assert BoundsOf(Var(Param(n)), map[], c, k) == (SinglePoint(Var(Param(n))), k);
      assert BinOf(Add, Sum(n - 1), Var(Param(n)), map[], c, k)
             == (AddBounds(Sum(n - 1), Var(Param(n)), SinglePoint(Sum(n - 1)), SinglePoint(Var(Param(n)))), k);
      assert Occurrences(Sum(n)) == Occurrences(Sum(n - 1)) + [Param(n)];
    }
  }

  const Y := Name("y", 0, IntT, false)

  function AtLeastSum(n: nat): Stmt { LetStmt(Y, Bin(Max, UNKNOWN, Sum(n)), Provide("f", [], [Var(Y)])) }

  lemma AtLeastSumBounds(n: nat, k: nat)
    ensures LetValue(Bin(Max, UNKNOWN, Sum(n)), map[], Ctx(map[], false, IDLE), k) == (Interval(Fin(Sum(n)), PosInf), k)
  {
    var c := Ctx(map[], false, IDLE);
    SumBounds(n, k);
    assert BoundsOf(UNKNOWN, map[], c, k) == (EVERYTHING, k);
    assert BoundsOf(Bin(Max, UNKNOWN, Sum(n)), map[], c, k)
           == (MaxBounds(UNKNOWN, Sum(n), EVERYTHING, SinglePoint(Sum(n))), k);
    assert IDLE.simp(Sum(n)) == Sum(n);
  }

  /** `let y = max(g(), p0 + ... + pn) in f(y) = 0`. The value has no upper end.
      With fewer than ten parameters the range is put in as it is, and the box
      is unbounded. With ten or more the ends get names, and the box that comes
      back defines one of them as an infinity. */
  lemma LargeLetExactly(n: nat, k: nat)
    ensures TouchStmt(AtLeastSum(n), Outermost(map[]), Storing(), State(map[], k, Fine)).status
            == if n + 1 < 10 then Fine else Malformed
  {
    hide BoundsOf, Sum, Names, LetValue, Occurrences, ChildrenInside, DefineAll;
    var p, t, st := Outermost(map[]), Storing(), State(map[], k, Fine);
    var v := Bin(Max, UNKNOWN, Sum(n));
    AtLeastSumTouchesNothing(n, k);
    AtLeastSumBounds(n, k);
    SumBounds(n, k);
    var val := Interval(Fin(Sum(n)), PosInf);
    var (scope, k2) := EnterLet(Y, val, map[], k);
    var q := InsideLet(Y, v, scope, p);
    var inner := TouchStmt(Provide("f", [], [Var(Y)]), q, t, st.(k := k2));
    StoreAtVar(Y, q, st.(k := k2));
    assert TouchStmt(AtLeastSum(n), p, t, st) == LeaveLet(Y, val, k, inner);
    if n + 1 >= 10 { NoUpperEnd(Y, k, val, inner); }
  }

  /** A box between the names of two ends, one of which is infinite. */
  lemma NoUpperEnd(x: Name, k: nat, val: Interval, st: State)
    requires st.boxes == map["f" := Box([EndVars(NewEnds(x, k))], None)] && val.max == PosInf && st.Ok()
    ensures DefineAll(st, NewEnds(x, k), val).status == Malformed
  {
    var e := NewEnds(x, k);
    assert Names(Var(e.mx)) == {e.mx};
    assert DefineEnd(Var(e.mx), e, val).None?;
    assert DefineInterval(st.boxes["f"].bounds[0], e, val).None?;
    assert !Definable(st.boxes["f"], e, val);
  }

  lemma {:induction false} SumTouchesNothing(n: nat, p: Place, st: State)
    ensures TouchExpr(Sum(n), p, Storing(), st) == st
  {
    if n > 0 { SumTouchesNothing(n - 1, p, st); }
  }

  lemma AtLeastSumTouchesNothing(n: nat, k: nat)
    ensures var st := State(map[], k, Fine);
            TouchExpr(Bin(Max, UNKNOWN, Sum(n)), Outermost(map[]), Storing(), st) == st
  {
    SumTouchesNothing(n, Outermost(map[]), State(map[], k, Fine));
  }

  /** A store at a variable whose range is known, when nothing has been found yet. */
  lemma StoreAtVar(x: Name, p: Place, st: State)
    requires x in p.scope && st.boxes == map[]
    ensures TouchStmt(Provide("f", [], [Var(x)]), p, Storing(), st) == st.(boxes := map["f" := Box([p.scope[x]], None)])
  {
    var c := Ctx(map[], false, IDLE);
    assert BoundsOf(Var(x), p.scope, c, st.k) == (p.scope[x], st.k);
    assert [Var(x)][1..] == [];
    assert BoundsOfAll([], p.scope, c, st.k) == ([], st.k) && [p.scope[x]] + [] == [p.scope[x]];
    assert BoundsOfAll([Var(x)], p.scope, c, st.k) == ([p.scope[x]], st.k);
    assert EMPTY_BOX.IsEmpty();
  }
}
