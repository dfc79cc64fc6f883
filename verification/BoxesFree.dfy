// No box left behind mentions a name made up on the way, nor a loop or let
// variable of the statement.

module BoxesFree {
  import opened Options
  import opened IR
  import opened Intervals
  import opened BoundsRules
  import opened Bounds
  import opened BoundsFree
  import opened Boxes
  import opened Stmts
  import opened BoxesTouching
  import opened TrimOrders
  import opened BoxesShape

  /** The variables that a statement takes from around it. */
  function FreeStmt(s: Stmt): set<Name> {
    match s
    case Block(first, rest) => FreeStmt(first) + FreeStmt(rest)
    case For(x, min, extent, body) => Free(min) + Free(extent) + (FreeStmt(body) - {x})
    case LetStmt(x, v, body) => Free(v) + (FreeStmt(body) - {x})
    case IfThenElse(c, t, e) => Free(c) + FreeStmt(t) + (if e.Some? then FreeStmt(e.value) else {})
    case Provide(_, values, args) => FreeOfAll(values) + FreeOfAll(args)
    case Evaluate(e) => Free(e)
  }

  /** The simplifier and the solver make up no variable. */
  ghost predicate KeepsFree(t: Tools) {
    && (forall e: Expr :: Free(t.c.oracle.simp(e)) <= Free(e))
    && (forall e: Expr, x: Name :: Free(t.solve(e, x).0) <= Free(e))
  }

  /** `base` is what conditions may mention, `a` what the ends may mention:
      inside a let the names of the let's ends as well. */
  ghost predicate BoxClosed(b: Box, base: set<Name>, a: set<Name>) {
    && (forall d :: 0 <= d < |b.bounds| ==> IvClosed(b.bounds[d], a))
    && (b.used.Some? ==> Free(b.used.value) <= base)
  }

  ghost predicate BoxesClosed(boxes: BoxMap, base: set<Name>, a: set<Name>) {
    forall f :: f in boxes ==> BoxClosed(boxes[f], base, a)
  }

  ghost predicate LetsClosed(lets: Lets, scope: Scope, base: set<Name>) {
    forall x :: x in lets ==> FreeOutside(Free(lets[x]), scope, base)
  }

  ghost predicate PlaceClosed(p: Place, t: Tools, base: set<Name>, a: set<Name>) {
    && KeepsFree(t) && FuncsClosed(t.c.funcBounds, a) && base <= a
    && ScopeClosed(p.scope, a) && LetsClosed(p.lets, p.scope, base)
  }

  lemma BoxesLarger(boxes: BoxMap, base: set<Name>, a: set<Name>, a': set<Name>)
    requires BoxesClosed(boxes, base, a) && a <= a'
    ensures BoxesClosed(boxes, base, a')
  {
    hide IvClosed;
    forall f, d | f in boxes && 0 <= d < |boxes[f].bounds| ensures IvClosed(boxes[f].bounds[d], a') {
      IvLarger(boxes[f].bounds[d], a, a');
    }
  }

  // ----- merging -----

  lemma SimpClosed(e: Expr, t: Tools, a: set<Name>)
    requires KeepsFree(t) && Closed(e, a)
    ensures Closed(t.c.oracle.simp(e), a)
  {}

  lemma MergeEndClosed(isMin: bool, x: Box, y: Box, e1: Expr, e2: Expr, a: set<Name>)
    requires x.used.Some? ==> Closed(x.used.value, a)
    requires y.used.Some? ==> Closed(y.used.value, a)
    requires Closed(e1, a) && Closed(e2, a)
    ensures Closed(MergeEnd(isMin, x, y, e1, e2), a)
  {
    hide Closed, Extreme;
    ClosedRules(a);
    ExtremeClosed(isMin, e1, e2, a);
  }

  lemma MergeDimClosed(x: Box, y: Box, i: Interval, j: Interval, t: Tools, a: set<Name>)
    requires KeepsFree(t) && IvClosed(i, a) && IvClosed(j, a)
    requires x.used.Some? ==> Closed(x.used.value, a)
    requires y.used.Some? ==> Closed(y.used.value, a)
    ensures IvClosed(MergeDim(x, y, i, j, t.c.oracle), a)
  {
    hide Closed, MergeEnd, KeepsFree;
    if i.HasLower() && j.HasLower() {
      MergeEndClosed(true, x, y, i.min.e, j.min.e, a);
      SimpClosed(MergeEnd(true, x, y, i.min.e, j.min.e), t, a);
    }
    if i.HasUpper() && j.HasUpper() {
      MergeEndClosed(false, x, y, i.max.e, j.max.e, a);
      SimpClosed(MergeEnd(false, x, y, i.max.e, j.max.e), t, a);
    }
  }

  lemma MergeClosed(x: Box, y: Box, t: Tools, base: set<Name>, a: set<Name>)
    requires KeepsFree(t) && base <= a && BoxClosed(x, base, a) && BoxClosed(y, base, a)
    ensures BoxClosed(Merge(x, y, t.c.oracle), base, a)
  {
    if !x.IsEmpty() && !y.IsEmpty() && |x.bounds| == |y.bounds| {
      forall d | 0 <= d < |x.bounds| ensures IvClosed(MergeDim(x, y, x.bounds[d], y.bounds[d], t.c.oracle), a) {
        MergeDimClosed(x, y, x.bounds[d], y.bounds[d], t, a);
      }
      MergeUsedClosed(x, y, t, base);
      hide IvClosed, MergeDim, MergeUsed, KeepsFree;
    }
  }

  lemma MergeUsedClosed(x: Box, y: Box, t: Tools, base: set<Name>)
    requires KeepsFree(t)
    requires x.used.Some? ==> Free(x.used.value) <= base
    requires y.used.Some? ==> Free(y.used.value) <= base
    ensures var u := MergeUsed(x, y, t.c.oracle); u.Some? ==> Free(u.value) <= base
  {
    if x.used.Some? && y.used.Some? {
      var e := Bin(Or, x.used.value, y.used.value);
      assert Free(e) == Free(x.used.value) + Free(y.used.value);
      assert Free(t.c.oracle.simp(e)) <= Free(e);
    }
  }

  lemma EmptyClosed(base: set<Name>, a: set<Name>)
    ensures BoxClosed(EMPTY_BOX, base, a)
  {}

  lemma {:induction false} BoundsOfAllClosed(args: seq<Expr>, scope: Scope, c: Ctx, k: nat, a: set<Name>)
    requires ScopeClosed(scope, a) && FuncsClosed(c.funcBounds, a) && FreeOutside(FreeOfAll(args), scope, a)
    ensures forall i :: i in BoundsOfAll(args, scope, c, k).0 ==> IvClosed(i, a)
  {
    if args != [] {
      hide BoundsOf, IvClosed, ScopeClosed, FuncsClosed;
      BoundsClosed(args[0], scope, c, k, a);
      BoundsOfAllClosed(args[1..], scope, c, BoundsOf(args[0], scope, c, k).1, a);
    }
  }

  lemma AddBoxClosed(f: string, args: seq<Expr>, used: Option<Expr>, p: Place, t: Tools, st: State,
      base: set<Name>, a: set<Name>)
    requires PlaceClosed(p, t, base, a) && BoxesClosed(st.boxes, base, a) && FreeOutside(FreeOfAll(args), p.scope, base)
    requires used == None || used == Some(Const(1, BoolT))
    ensures BoxesClosed(AddBox(f, args, used, p, t, st).boxes, base, a)
  {
    if t.mode.Wants(f) {
      BoundsOfAllClosed(args, p.scope, t.c, st.k, a);
      EmptyClosed(base, a);
      var b := Box(BoundsOfAll(args, p.scope, t.c, st.k).0, used);
      hide BoundsOfAll, IvClosed, Merge, KeepsFree, ScopeClosed, FuncsClosed, LetsClosed;
      assert BoxClosed(b, base, a);
      MergeClosed(if f in st.boxes then st.boxes[f] else EMPTY_BOX, b, t, base, a);
    }
  }

  // ----- lets -----

  function NamesOfEnds(n: Ends): set<Name> { {n.mx, n.mn} }

  lemma DefineEndClosed(e: Expr, n: Ends, val: Interval, a: set<Name>)
    requires IvClosed(val, a) && Closed(e, a + NamesOfEnds(n))
    ensures var r := DefineEnd(e, n, val); r.Some? ==> Closed(r.value, a)
  {}

  lemma DefineIntervalClosed(i: Interval, n: Ends, val: Interval, a: set<Name>)
    requires IvClosed(val, a) && IvClosed(i, a + NamesOfEnds(n))
    ensures var r := DefineInterval(i, n, val); r.Some? ==> IvClosed(r.value, a)
  {
    hide Closed, DefineEnd;
    if i.min.Fin? { DefineEndClosed(i.min.e, n, val, a); }
    if i.max.Fin? { DefineEndClosed(i.max.e, n, val, a); }
  }

  lemma DefineAllClosed(st: State, n: Ends, val: Interval, base: set<Name>, a: set<Name>)
    requires IvClosed(val, a) && BoxesClosed(st.boxes, base, a + NamesOfEnds(n)) && DefineAll(st, n, val).Ok()
    ensures BoxesClosed(DefineAll(st, n, val).boxes, base, a)
  {
    hide IvClosed, DefineInterval;
    forall f, d | f in st.boxes && 0 <= d < |st.boxes[f].bounds|
      ensures IvClosed(DefineInterval(st.boxes[f].bounds[d], n, val).value, a)
    {
      assert Definable(st.boxes[f], n, val);
      DefineIntervalClosed(st.boxes[f].bounds[d], n, val, a);
    }
  }

  lemma SimplifyClosed(i: Interval, t: Tools, a: set<Name>)
    requires KeepsFree(t) && IvClosed(i, a)
    ensures IvClosed(SimplifyInterval(i, t.c.oracle), a)
  {
    hide KeepsFree, Closed;
    if i.min.Fin? { SimpClosed(i.min.e, t, a); }
    if i.max.Fin? { SimpClosed(i.max.e, t, a); }
  }

  lemma LetValueClosed(v: Expr, scope: Scope, t: Tools, k: nat, a: set<Name>)
    requires KeepsFree(t) && ScopeClosed(scope, a) && FuncsClosed(t.c.funcBounds, a) && FreeOutside(Free(v), scope, a)
    ensures IvClosed(LetValue(v, scope, t.c, k).0, a)
  {
    hide BoundsOf, SimplifyInterval;
    BoundsClosed(v, scope, t.c, k, a);
    SimplifyClosed(BoundsOf(v, scope, t.c, k).0, t, a);
  }

  /** What may be mentioned inside a let. */
  function InsideNames(x: Name, val: Interval, k: nat): set<Name> {
    if IsSmallInterval(val) then {} else NamesOfEnds(NewEnds(x, k))
  }

  lemma EndVarsClosed(n: Ends, a: set<Name>)
    ensures IvClosed(EndVars(n), a + NamesOfEnds(n))
  {}

  lemma EnterLetClosed(x: Name, val: Interval, scope: Scope, k: nat, a: set<Name>)
    requires IvClosed(val, a) && ScopeClosed(scope, a)
    ensures ScopeClosed(EnterLet(x, val, scope, k).0, a + InsideNames(x, val, k))
    ensures EnterLet(x, val, scope, k).0.Keys == scope.Keys + {x}
  {
    hide IvClosed, IsSmallInterval, EndVars;
    var a' := a + InsideNames(x, val, k);
    EndVarsClosed(NewEnds(x, k), a);
    forall y | y in scope ensures IvClosed(scope[y], a') { IvLarger(scope[y], a, a'); }
    IvLarger(val, a, a');
  }

  lemma LeaveLetClosed(x: Name, val: Interval, k: nat, st: State, base: set<Name>, a: set<Name>)
    requires IvClosed(val, a) && BoxesClosed(st.boxes, base, a + InsideNames(x, val, k)) && LeaveLet(x, val, k, st).Ok()
    ensures BoxesClosed(LeaveLet(x, val, k, st).boxes, base, a)
  {
    hide IvClosed, IsSmallInterval, DefineAll, BoxesClosed;
    if IsSmallInterval(val) {
      assert a + InsideNames(x, val, k) == a;
    } else {
      DefineAllClosed(st, NewEnds(x, k), val, base, a);
    }
  }

  // ----- expressions -----

  lemma FreeLess(s: set<Name>, s': set<Name>, scope: Scope, base: set<Name>, a: set<Name>)
    requires FreeOutside(s, scope, base) && s' <= s && base <= a
    ensures FreeOutside(s', scope, base) && FreeOutside(s', scope, a)
  {}

  lemma {:induction false} TouchExprClosed(e: Expr, p: Place, t: Tools, st: State, base: set<Name>, a: set<Name>)
    requires PlaceClosed(p, t, base, a) && BoxesClosed(st.boxes, base, a) && FreeOutside(Free(e), p.scope, base)
    requires TouchExpr(e, p, t, st).Ok()
    ensures BoxesClosed(TouchExpr(e, p, t, st).boxes, base, a)
    decreases e, 1
  {
    match e
    case Const(_, _) =>
    case Var(_) =>
    case Un(_, x) => TouchExprClosed(x, p, t, st, base, a);
    case Bin(_, x, y) =>
      hide PlaceClosed, BoxesClosed;
      TouchExprClosed(x, p, t, st, base, a);
      TouchExprClosed(y, p, t, TouchExpr(x, p, t, st), base, a);
    case Select(c, x, y) =>
      hide PlaceClosed, BoxesClosed;
      TouchExprClosed(c, p, t, st, base, a);
      TouchExprClosed(x, p, t, TouchExpr(c, p, t, st), base, a);
      TouchExprClosed(y, p, t, TouchExpr(x, p, t, TouchExpr(c, p, t, st)), base, a);
    case Ramp(x, y, _) =>
      hide PlaceClosed, BoxesClosed;
      TouchExprClosed(x, p, t, st, base, a);
      TouchExprClosed(y, p, t, TouchExpr(x, p, t, st), base, a);
    case Let(x, v, b) => TouchLetClosed(x, v, b, p, t, st, base, a);
    case Call(ct, f, _, args) =>
      if t.mode.calls {
        hide PlaceClosed, BoxesClosed, AddBox;
        TouchArgsClosed(args, p, t, st, base, a);
        if ct.FuncCall? { AddBoxClosed(f, args, Some(Const(1, BoolT)), p, t, TouchArgs(args, p, t, st), base, a); }
      }
  }

  lemma {:induction false} TouchArgsClosed(args: seq<Expr>, p: Place, t: Tools, st: State,
      base: set<Name>, a: set<Name>)
    requires PlaceClosed(p, t, base, a) && BoxesClosed(st.boxes, base, a) && FreeOutside(FreeOfAll(args), p.scope, base)
    requires TouchArgs(args, p, t, st).Ok()
    ensures BoxesClosed(TouchArgs(args, p, t, st).boxes, base, a)
    decreases args, 0
  {
    if args != [] {
      hide PlaceClosed, BoxesClosed;
      TouchExprClosed(args[0], p, t, st, base, a);
      TouchArgsClosed(args[1..], p, t, TouchExpr(args[0], p, t, st), base, a);
    }
  }

  /** Entering a let: what may be mentioned grows by the names of its ends. */
  lemma EnteredPlace(x: Name, v: Expr, p: Place, t: Tools, k: nat, base: set<Name>, a: set<Name>)
    requires PlaceClosed(p, t, base, a) && FreeOutside(Free(v), p.scope, base)
    ensures
      var (val, k1) := LetValue(v, p.scope, t.c, k);
      var (scope, _) := EnterLet(x, val, p.scope, k1);
      var a' := a + InsideNames(x, val, k1);
      && IvClosed(val, a) && PlaceClosed(p.(scope := scope), t, base, a') && scope.Keys == p.scope.Keys + {x}
      && PlaceClosed(InsideLet(x, v, scope, p), t, base, a')
  {
    hide LetValue, EnterLet, IvClosed, KeepsFree, InsideNames;
    var (val, k1) := LetValue(v, p.scope, t.c, k);
    var (scope, _) := EnterLet(x, val, p.scope, k1);
    var a' := a + InsideNames(x, val, k1);
    FreeLess(Free(v), Free(v), p.scope, base, a);
    LetValueClosed(v, p.scope, t, k, a);
    EnterLetClosed(x, val, p.scope, k1, a);
    ScopeLarger(p.scope, t.c.funcBounds, a, a');
  }

  lemma TouchLetClosed(x: Name, v: Expr, body: Expr, p: Place, t: Tools, st: State, base: set<Name>, a: set<Name>)
    requires PlaceClosed(p, t, base, a) && BoxesClosed(st.boxes, base, a)
        && FreeOutside(Free(Let(x, v, body)), p.scope, base)
    requires TouchLet(x, v, body, p, t, st).Ok()
    ensures BoxesClosed(TouchLet(x, v, body, p, t, st).boxes, base, a)
    decreases Let(x, v, body), 0
  {
    hide LetValue, EnterLet, LeaveLet, PlaceClosed, BoxesClosed, IvClosed, InsideNames;
    var st1 := TouchExpr(v, p, t, st);
    EnteredPlace(x, v, p, t, st1.k, base, a);
    var (val, k1) := LetValue(v, p.scope, t.c, st1.k);
    var (scope, k2) := EnterLet(x, val, p.scope, k1);
    var a' := a + InsideNames(x, val, k1);
    var q, st2 := p.(scope := scope), st1.(k := k2);
    LeaveLetOk(x, val, k1, TouchExpr(body, q, t, st2));
    TouchExprClosed(v, p, t, st, base, a);
    BoxesLarger(st1.boxes, base, a, a');
    TouchExprClosed(body, q, t, st2, base, a');
    LeaveLetClosed(x, val, k1, TouchExpr(body, q, t, st2), base, a);
  }

  // ----- conditions -----

  lemma RestrictClosed(x: Name, cond: Expr, likely: bool, p: Place, t: Tools, k: nat, base: set<Name>, a: set<Name>)
    requires PlaceClosed(p, t, base, a) && x in p.scope && FreeOutside(Free(cond), p.scope, base)
    ensures var i := Restrict(x, cond, likely, p.scope, t, k).0; i.Some? ==> IvClosed(i.value, a)
  {
    var s := t.solve(cond, x).0;
    assert Free(s) <= Free(cond);
    if Restrict(x, cond, likely, p.scope, t, k).0.Some? {
      hide BoundsOf, KeepsFree, LetsClosed, Closed;
      BoundsClosed(s.b, p.scope, t.c, k, a);
      ClosedRules(a);
    }
  }

  lemma {:induction false} RestrictionsClosed(vs: seq<Name>, cond: Expr, likely: bool, p: Place, t: Tools, k: nat,
      base: set<Name>, a: set<Name>)
    requires PlaceClosed(p, t, base, a) && FreeOutside(Free(cond), p.scope, base)
    ensures forall r :: r in Restrictions(vs, cond, likely, p.scope, t, k).0 ==> r.x in p.scope && IvClosed(r.i, a)
  {
    if vs != [] {
      hide Restrict, PlaceClosed, IvClosed;
      if vs[0] in p.scope {
        RestrictClosed(vs[0], cond, likely, p, t, k, base, a);
        RestrictionsClosed(vs[1..], cond, likely, p, t, Restrict(vs[0], cond, likely, p.scope, t, k).1, base, a);
      } else {
        RestrictionsClosed(vs[1..], cond, likely, p, t, k, base, a);
      }
    }
  }

  function AllEnds(ns: seq<Ends>): set<Name> {
    if ns == [] then {} else AllEnds(ns[1..]) + NamesOfEnds(ns[0])
  }

  lemma {:induction false} PushedClosed(scope: Scope, ns: seq<Ends>, a: set<Name>)
    requires ScopeClosed(scope, a)
    ensures ScopeClosed(Pushed(scope, ns), a + AllEnds(ns)) && scope.Keys <= Pushed(scope, ns).Keys
  {
    if ns != [] {
      hide IvClosed, EndVars;
      PushedClosed(scope, ns[1..], a);
      var inner, a1 := Pushed(scope, ns[1..]), a + AllEnds(ns[1..]);
      EndVarsClosed(ns[0], a1);
      assert a + AllEnds(ns) == a1 + NamesOfEnds(ns[0]);
      forall y | y in inner ensures IvClosed(inner[y], a + AllEnds(ns)) { IvLarger(inner[y], a1, a + AllEnds(ns)); }
    } else {
      assert a + AllEnds(ns) == a;
    }
  }

  lemma IntersectClosed(i: Interval, outside: Interval, t: Tools, a: set<Name>)
    requires KeepsFree(t) && IvClosed(i, a) && IvClosed(outside, a)
    ensures IvClosed(Intersect(i, outside, t.c.oracle), a)
  {
    hide KeepsFree, Closed;
    ClosedRules(a);
    if i.min.Fin? && outside.min.Fin? { SimpClosed(Bin(Max, i.min.e, outside.min.e), t, a); }
    if i.max.Fin? && outside.max.Fin? { SimpClosed(Bin(Min, i.max.e, outside.max.e), t, a); }
  }

  lemma {:induction false} PopLetsClosed(ns: seq<Ends>, p: Place, t: Tools, st: State, base: set<Name>, a: set<Name>)
    requires PlaceClosed(p, t, base, a) && BoxesClosed(st.boxes, base, a + AllEnds(ns))
    requires PopLets(ns, p.scope, p.lets, t, st).Ok()
    ensures BoxesClosed(PopLets(ns, p.scope, p.lets, t, st).boxes, base, a)
  {
    if ns != [] {
      hide BoxesClosed, IvClosed, PopLets, DefineAll, Recomputed, Popped;
      PopLetsKnown(ns, p.scope, p.lets, t, st);
      var n, a1 := ns[0], a + AllEnds(ns[1..]);
      assert a + AllEnds(ns) == a1 + NamesOfEnds(n);
      PopLetsStep(ns, p.scope, p.lets, t, st);
      var (i, k1) := Recomputed(n, ns[1..], p.scope, p.lets, t, st.k);
      RecomputedClosed(n, ns[1..], p, t, st.k, base, a);
      DefineAllClosed(st.(k := k1), n, i, base, a1);
      PopLetsClosed(ns[1..], p, t, Popped(n, ns[1..], p.scope, p.lets, t, st), base, a);
    } else {
      assert a + AllEnds(ns) == a;
    }
  }

  lemma PopLetsKnown(ns: seq<Ends>, scope: Scope, lets: Lets, t: Tools, st: State)
    requires ns != [] && PopLets(ns, scope, lets, t, st).Ok()
    ensures ns[0].x in lets && ns[0].x in scope
  {
    hide LetValue, PopLet, Pushed;
  }

  lemma RecomputedClosed(n: Ends, rest: seq<Ends>, p: Place, t: Tools, k: nat, base: set<Name>, a: set<Name>)
    requires PlaceClosed(p, t, base, a) && n.x in p.lets && n.x in p.scope
    ensures IvClosed(Recomputed(n, rest, p.scope, p.lets, t, k).0, a + AllEnds(rest))
  {
    hide LetValue, Intersect, KeepsFree, IvClosed;
    var a1, scope := a + AllEnds(rest), Pushed(p.scope, rest);
    PushedClosed(p.scope, rest, a);
    ScopeLarger(p.scope, t.c.funcBounds, a, a1);
    assert FreeOutside(Free(p.lets[n.x]), scope, a1);
    LetValueClosed(p.lets[n.x], scope, t, k, a1);
    IntersectClosed(LetValue(p.lets[n.x], scope, t.c, k).0, p.scope[n.x], t, a1);
  }

  // ----- statements -----

  lemma ForkClosed(c: Expr, x: BoxMap, y: BoxMap, boxes: BoxMap, t: Tools, base: set<Name>, a: set<Name>)
    requires KeepsFree(t) && base <= a && Free(c) <= base
    requires BoxesClosed(x, base, a) && BoxesClosed(y, base, a) && BoxesClosed(boxes, base, a)
    ensures BoxesClosed(Fork(c, x, y, boxes, t.c.oracle), base, a)
  {
    EmptyClosed(base, a);
    var o := t.c.oracle;
    assert Free(Un(Not, c)) == Free(c);
    hide KeepsFree, Merge, OnlyIf, IvClosed, Free, BoxClosed;
    forall f | f in Fork(c, x, y, boxes, o) ensures BoxClosed(Fork(c, x, y, boxes, o)[f], base, a) {
      var b1, b2 := OnlyIf(BoxOf(x, f), c), OnlyIf(BoxOf(y, f), Un(Not, c));
      OnlyIfClosed(BoxOf(x, f), c, base, a);
      OnlyIfClosed(BoxOf(y, f), Un(Not, c), base, a);
      MergeClosed(b1, b2, t, base, a);
      MergeClosed(BoxOf(boxes, f), Merge(b1, b2, o), t, base, a);
    }
  }

  lemma OnlyIfClosed(b: Box, c: Expr, base: set<Name>, a: set<Name>)
    requires BoxClosed(b, base, a) && Free(c) <= base
    ensures BoxClosed(OnlyIf(b, c), base, a)
  {
    hide IvClosed;
    if b.MaybeUnused() { assert Free(Bin(And, b.used.value, c)) == Free(b.used.value) + Free(c); }
  }

  lemma {:induction false} TouchStmtClosed(s: Stmt, p: Place, t: Tools, st: State, base: set<Name>, a: set<Name>)
    requires PlaceClosed(p, t, base, a) && BoxesClosed(st.boxes, base, a) && FreeOutside(FreeStmt(s), p.scope, base)
    requires TouchStmt(s, p, t, st).Ok()
    ensures BoxesClosed(TouchStmt(s, p, t, st).boxes, base, a)
    decreases s, 0
  {
    hide PlaceClosed, BoxesClosed, AddBox, LoopRange, LetValue, EnterLet, LeaveLet, Fork, TouchCase;
    match s
    case Block(first, rest) =>
      TouchStmtClosed(first, p, t, st, base, a);
      TouchStmtClosed(rest, p, t, TouchStmt(first, p, t, st), base, a);
    case For(x, min, extent, body) => TouchForClosed(x, min, extent, body, p, t, st, base, a);
    case LetStmt(x, v, body) => TouchLetStmtClosed(x, v, body, p, t, st, base, a);
    case IfThenElse(c, th, el) => TouchIfClosed(c, th, el, p, t, st, base, a);
    case Provide(f, values, args) =>
      var st1 := if t.mode.stores then AddBox(f, args, None, p, t, st) else st;
      if t.mode.stores { AddBoxClosed(f, args, None, p, t, st, base, a); }
      if t.mode.calls {
        TouchArgsClosed(args, p, t, st1, base, a);
        TouchArgsClosed(values, p, t, TouchArgs(args, p, t, st1), base, a);
      }
    case Evaluate(e) => TouchExprClosed(e, p, t, st, base, a);
  }

  lemma TouchForClosed(x: Name, min: Expr, extent: Expr, body: Stmt, p: Place, t: Tools, st: State,
      base: set<Name>, a: set<Name>)
    requires var s := For(x, min, extent, body); FreeOutside(FreeStmt(s), p.scope, base) && TouchStmt(s, p, t, st).Ok()
    requires PlaceClosed(p, t, base, a) && BoxesClosed(st.boxes, base, a)
    ensures BoxesClosed(TouchStmt(For(x, min, extent, body), p, t, st).boxes, base, a)
    decreases body, 3
  {
    hide PlaceClosed, BoxesClosed, LoopRange;
    var st1 := HeadState(min, extent, p, t, st);
    if t.mode.calls {
      TouchExprClosed(min, p, t, st, base, a);
      TouchExprClosed(extent, p, t, TouchExpr(min, p, t, st), base, a);
    }
    var (i, k) := LoopRange(min, extent, p.scope, t.c, st1.k);
    LoopPlace(x, min, extent, p, t, st1.k, base, a);
    TouchStmtClosed(body, InsideLoop(x, i.value, p), t, st1.(k := k), base, a);
  }

  lemma LoopPlace(x: Name, min: Expr, extent: Expr, p: Place, t: Tools, k: nat, base: set<Name>, a: set<Name>)
    requires PlaceClosed(p, t, base, a) && FreeOutside(Free(min) + Free(extent), p.scope, base)
    ensures var i := LoopRange(min, extent, p.scope, t.c, k).0;
    i.Some? ==> PlaceClosed(InsideLoop(x, i.value, p), t, base, a)
  {
    hide BoundsOf, KeepsFree, Closed;
    var (lo, k1) := BoundsOf(min, p.scope, t.c, k);
    var (ext, k2) := BoundsOf(extent, p.scope, t.c, k1);
    BoundsClosed(min, p.scope, t.c, k, a);
    BoundsClosed(extent, p.scope, t.c, k1, a);
    BoundsClosed(min, p.scope, t.c, k2, a);
    ClosedRules(a);
  }

  lemma TouchLetStmtClosed(x: Name, v: Expr, body: Stmt, p: Place, t: Tools, st: State, base: set<Name>, a: set<Name>)
    requires var s := LetStmt(x, v, body); FreeOutside(FreeStmt(s), p.scope, base) && TouchStmt(s, p, t, st).Ok()
    requires PlaceClosed(p, t, base, a) && BoxesClosed(st.boxes, base, a)
    ensures BoxesClosed(TouchStmt(LetStmt(x, v, body), p, t, st).boxes, base, a)
    decreases body, 3
  {
    hide LetValue, EnterLet, LeaveLet, PlaceClosed, BoxesClosed, IvClosed, InsideNames;
    var st1 := TouchExpr(v, p, t, st);
    EnteredPlace(x, v, p, t, st1.k, base, a);
    var (val, k1) := LetValue(v, p.scope, t.c, st1.k);
    var (scope, k2) := EnterLet(x, val, p.scope, k1);
    var a' := a + InsideNames(x, val, k1);
    var q, st2 := InsideLet(x, v, scope, p), st1.(k := k2);
    LeaveLetOk(x, val, k1, TouchStmt(body, q, t, st2));
    TouchExprClosed(v, p, t, st, base, a);
    BoxesLarger(st1.boxes, base, a, a');
    TouchStmtClosed(body, q, t, st2, base, a');
    LeaveLetClosed(x, val, k1, TouchStmt(body, q, t, st2), base, a);
  }

  lemma TouchIfClosed(c: Expr, th: Stmt, el: Option<Stmt>, p: Place, t: Tools, st: State, base: set<Name>, a: set<Name>)
    requires var s := IfThenElse(c, th, el); FreeOutside(FreeStmt(s), p.scope, base) && TouchStmt(s, p, t, st).Ok()
    requires PlaceClosed(p, t, base, a) && BoxesClosed(st.boxes, base, a)
    ensures BoxesClosed(TouchStmt(IfThenElse(c, th, el), p, t, st).boxes, base, a)
    decreases IfThenElse(c, th, el), -1
  {
    SimplifiedFree(c, p, t, base, a);
    hide PlaceClosed, BoxesClosed, Fork, IsNoOp, TouchCase;
    var st1, o := TouchExpr(c, p, t, st), t.c.oracle;
    TouchExprClosed(c, p, t, st, base, a);
    if UsesScope(c, p.scope) || !IsPure(c) {
      var st2 := TouchCase(o.simp(c), c, th, p, t, st1);
      TouchCaseClosed(o.simp(c), c, th, p, t, st1, base, a);
      if el.Some? && !IsNoOp(el.value) { TouchCaseClosed(o.simp(Un(Not, c)), c, el.value, p, t, st2, base, a); }
    } else {
      NoBoxes(base, a);
      var x := TouchStmt(th, p, t, st1.(boxes := map[]));
      var y := if el.Some? then TouchStmt(el.value, p, t, x.(boxes := map[])) else x.(boxes := map[]);
      TouchStmtClosed(th, p, t, st1.(boxes := map[]), base, a);
      if el.Some? { TouchStmtClosed(el.value, p, t, x.(boxes := map[]), base, a); }
      ParametersOnly(c, p, t, base, a);
      ForkClosed(c, x.boxes, y.boxes, st1.boxes, t, base, a);
    }
  }

  lemma NoBoxes(base: set<Name>, a: set<Name>)
    ensures BoxesClosed(map[], base, a)
  {}

  lemma ParametersOnly(c: Expr, p: Place, t: Tools, base: set<Name>, a: set<Name>)
    requires PlaceClosed(p, t, base, a) && FreeOutside(Free(c), p.scope, base) && !UsesScope(c, p.scope)
    ensures Free(c) <= base && base <= a && KeepsFree(t)
  {
    forall x | x in Free(c) ensures x in base { assert x in Names(c); }
  }

  lemma SimplifiedFree(c: Expr, p: Place, t: Tools, base: set<Name>, a: set<Name>)
    requires PlaceClosed(p, t, base, a) && FreeOutside(Free(c), p.scope, base)
    ensures FreeOutside(Free(t.c.oracle.simp(c)), p.scope, base)
    ensures FreeOutside(Free(t.c.oracle.simp(Un(Not, c))), p.scope, base)
  {
    assert Free(t.c.oracle.simp(c)) <= Free(c);
    assert Free(t.c.oracle.simp(Un(Not, c))) <= Free(Un(Not, c)) == Free(c);
  }

  lemma TouchCaseClosed(c: Expr, cond: Expr, body: Stmt, p: Place, t: Tools, st: State, base: set<Name>, a: set<Name>)
    requires PlaceClosed(p, t, base, a) && BoxesClosed(st.boxes, base, a) && FreeOutside(FreeStmt(body), p.scope, base)
    requires FreeOutside(Free(c), p.scope, base) && TouchCase(c, cond, body, p, t, st).Ok()
    ensures BoxesClosed(TouchCase(c, cond, body, p, t, st).boxes, base, a)
    decreases body, 2 + |Occurrences(cond)|
  {
    hide PlaceClosed, BoxesClosed, TrimAll, Restrictions, IvClosed;
    var likely := c.Un? && c.uop.Likely?;
    var c' := if likely then c.arg else c;
    var (rs, k) := Restrictions(Occurrences(cond), c', likely, p.scope, t, st.k);
    RestrictionsClosed(Occurrences(cond), c', likely, p, t, st.k, base, a);
    TrimAllClosed(rs, body, p, t, st.(k := k), base, a);
  }

  lemma {:induction false} TrimAllClosed(rs: seq<Restriction>, body: Stmt, p: Place, t: Tools, st: State,
      base: set<Name>, a: set<Name>)
    requires PlaceClosed(p, t, base, a) && BoxesClosed(st.boxes, base, a) && FreeOutside(FreeStmt(body), p.scope, base)
    requires forall r :: r in rs ==> r.x in p.scope && IvClosed(r.i, a)
    requires TrimAll(rs, body, p, t, st).Ok()
    ensures BoxesClosed(TrimAll(rs, body, p, t, st).boxes, base, a)
    decreases body, 1 + |rs|
  {
    hide PlaceClosed, BoxesClosed, IvClosed, PopLets, DependentNames, Pushed;
    if rs == [] {
      TouchStmtClosed(body, p, t, st, base, a);
    } else {
      assert rs[0] in rs;
      var ns, q := DependentNames(p, rs[0].x, st.k), Narrowed(p, rs[0]);
      var a1, st1 := a + AllEnds(ns), st.(k := st.k + 2 * |ns|);
      RenamedPlace(rs[0], p, t, ns, base, a);
      BoxesLarger(st.boxes, base, a, a1);
      forall r | r in rs[1..] ensures r.x in p.scope && IvClosed(r.i, a1) { IvLarger(r.i, a, a1); }
      TrimAllClosed(rs[1..], body, Renamed(q, ns), t, st1, base, a1);
      PopLetsClosed(ns, q, t, TrimAll(rs[1..], body, Renamed(q, ns), t, st1), base, a);
    }
  }

  lemma RenamedPlace(r: Restriction, p: Place, t: Tools, ns: seq<Ends>, base: set<Name>, a: set<Name>)
    requires PlaceClosed(p, t, base, a) && r.x in p.scope && IvClosed(r.i, a)
    ensures PlaceClosed(Narrowed(p, r), t, base, a) && p.scope.Keys <= Renamed(Narrowed(p, r), ns).scope.Keys
    ensures PlaceClosed(Renamed(Narrowed(p, r), ns), t, base, a + AllEnds(ns))
  {
    hide IvClosed, KeepsFree;
    var q := Narrowed(p, r);
    PushedClosed(q.scope, ns, a);
    ScopeLarger(p.scope, t.c.funcBounds, a, a + AllEnds(ns));
  }

  // ----- boxes_touched -----

  /** The names that a caller brings in with the ranges it gives. */
  function GivenNames(scope: Scope, fb: FuncBounds): set<Name> {
    (set x, y | x in scope && y in ExtFree(scope[x].min) + ExtFree(scope[x].max) :: y)
    + (set key, y | key in fb && y in ExtFree(fb[key].min) + ExtFree(fb[key].max) :: y)
  }

  function ExtFree(b: Ext): set<Name> { if b.Fin? then Free(b.e) else {} }

  /** What is left in a box when all is done: the variables that the statement
      takes from around it and that have no range, and what the given ranges mention. */
  lemma NothingMadeUpIsLeft(s: Stmt, scope: Scope, c: Ctx, solve: Solver, fn: string, k: nat)
    requires KeepsFree(Tools(c, solve, Mode(true, true, fn)))
    requires forall x :: x in scope ==> scope[x].min != PosInf && scope[x].max != NegInf
    requires BoxesTouched(s, scope, c, solve, fn, k).Ok()
    ensures
      var own := FreeStmt(s) - scope.Keys;
      BoxesClosed(BoxesTouched(s, scope, c, solve, fn, k).boxes, own, own + GivenNames(scope, c.funcBounds))
  {
    hide TouchStmt, Merge, FreeStmt;
    var own, given := FreeStmt(s) - scope.Keys, GivenNames(scope, c.funcBounds);
    var a, p := own + given, Outermost(scope);
    var calls, stores := Tools(c, solve, Mode(true, false, fn)), Tools(c, solve, Mode(false, true, fn));
    GivenClosed(scope, c.funcBounds, a);
    NoBoxes(own, a);
    var x := TouchStmt(s, p, calls, State(map[], k, Fine));
    var y := TouchStmt(s, p, stores, State(map[], x.k, Fine));
    TouchStmtClosed(s, p, calls, State(map[], k, Fine), own, a);
    TouchStmtClosed(s, p, stores, State(map[], x.k, Fine), own, a);
    EmptyClosed(own, a);
    hide BoxClosed, KeepsFree;
    var r := BoxesTouched(s, scope, c, solve, fn, k).boxes;
    forall f | f in r ensures BoxClosed(r[f], own, a) {
      MergeClosed(BoxOf(x.boxes, f), BoxOf(y.boxes, f), calls, own, a);
    }
  }

  lemma GivenClosed(scope: Scope, fb: FuncBounds, a: set<Name>)
    requires GivenNames(scope, fb) <= a
    requires forall x :: x in scope ==> scope[x].min != PosInf && scope[x].max != NegInf
    ensures ScopeClosed(scope, a) && FuncsClosed(fb, a)
  {
    forall x | x in scope ensures IvClosed(scope[x], a) {
      forall y | y in ExtFree(scope[x].min) + ExtFree(scope[x].max) ensures y in a {
        assert y in GivenNames(scope, fb);
      }
    }
    forall key | key in fb ensures ExtClosed(fb[key].min, a) && ExtClosed(fb[key].max, a) {
      forall y | y in ExtFree(fb[key].min) + ExtFree(fb[key].max) ensures y in a { assert y in GivenNames(scope, fb); }
    }
  }
}
