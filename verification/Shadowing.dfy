// Why a name that can still be seen may not be bound again: three families of
// programs for which the boxes are right exactly when the second binding of
// the name makes no difference.

module Shadowing {
  import opened Options
  import opened IR
  import opened Intervals
  import opened BoundsRules
  import opened Bounds
  import opened Boxes
  import opened Stmts
  import opened BoxesTouching
  import opened TrimOrders
  import opened BoxesShape
  import opened BoxesFinishing

  const X := Name("x", 0, IntT, false)
  const A := Name("a", 0, IntT, false)

  function Range(lo: int, hi: int): Interval { Interval(Fin(I(lo)), Fin(I(hi))) }

  /** `if (x < c) f(y) = 0` */
  function StoreBelow(c: int): Stmt { IfThenElse(Bin(LT, Var(X), I(c)), Provide("f", [], [Var(Y)]), None) }

  const STORES := Mode(false, true, "f")
  const CTX := Ctx(map[], false, IDLE)

  function Start(k: nat): State { State(map[], k, Fine) }

  // ----- what the visitor does with the store -----

  /** A variable with one dependent let. */
  lemma OneDependent(x: Name, y: Name, children: map<Name, seq<Name>>)
    requires x != y && ChildrenOf(children, x) == [y] && ChildrenOf(children, y) == []
    ensures TrimOrder(x, children) == [y]
  {
    var p0, p1 := [Task(x, false)], [Task(x, true)] + [Task(y, false)];
    var p2 := [Task(x, true)] + [Task(y, true)];
    assert p0[..0] + [Task(x, true)] == [Task(x, true)];
    assert [y][1..] == [] && {x} + {y} == {x, y};
    assert PushNew([y], [Task(x, true)], {x}) == (p1, {x, y});
    assert Dfs(p0, {x}, children, []) == Dfs(p1, {x, y}, children, []);
    assert p1[..1] + [Task(y, true)] == p2;
    assert Dfs(p1, {x, y}, children, []) == Dfs(p2, {x, y}, children, []);
    assert p2[..1] == [Task(x, true)] && [] + [y] == [y];
    assert Dfs(p2, {x, y}, children, []) == [y];
  }

  /** The range of x below c. */
  function Lower(lo: int, hi: int, c: int): Interval {
    Interval(Fin(I(lo)), Fin(Bin(Min, I(hi), Bin(Sub, I(c), I(1)))))
  }

  /** The box found for the store: the recomputed range of y cut to the range it had. */
  function CutBox(e: Ends, i: Interval, outside: Interval): Box
    requires Finite(i) && Finite(outside)
  {
    Box([Interval(Fin(Let(e.mn, Bin(Max, i.min.e, outside.min.e), Var(e.mn))),
                  Fin(Let(e.mx, Bin(Min, i.max.e, outside.max.e), Var(e.mx))))], None)
  }

  lemma DefineOwnEnds(e: Ends, val: Interval, st: State)
    requires Finite(val) && e.mn != e.mx && e.mn !in Names(val.max.e) && st.boxes == map["f" := Box([EndVars(e)], None)]
    ensures DefineAll(st, e, val)
            == st.(boxes := map["f" := Box([Interval(Fin(Let(e.mn, val.min.e, Var(e.mn))),
                                                     Fin(Let(e.mx, val.max.e, Var(e.mx))))], None)])
  {
    assert Names(Var(e.mx)) == {e.mx} && Names(Var(e.mn)) == {e.mn};
    assert DefineEnd(Var(e.mn), e, val) == Some(Let(e.mn, val.min.e, Var(e.mn)));
    var b, upper := st.boxes["f"], Let(e.mx, val.max.e, Var(e.mx));
    assert Names(upper) == {e.mx} + Names(val.max.e);
    assert DefineEnd(Var(e.mx), e, val) == Some(upper);
    var cut := Interval(Fin(Let(e.mn, val.min.e, Var(e.mn))), Fin(upper));
    assert DefineInterval(b.bounds[0], e, val) == Some(cut);
    assert Definable(b, e, val);
    assert DefineBox(b, e, val).bounds == [cut];
  }

  lemma RestrictBelow(lo: int, hi: int, c: int, scope: Scope, k: nat)
    requires X in scope && scope[X] == Range(lo, hi)
    ensures Restrictions([X], Bin(LT, Var(X), I(c)), false, scope, Storing(), k)
            == ([Restriction(X, Lower(lo, hi, c))], k)
  {
    assert BoundsOf(I(c), scope, CTX, k) == (SinglePoint(I(c)), k);
    assert [X][1..] == [];
    assert Restrictions([], Bin(LT, Var(X), I(c)), false, scope, Storing(), k) == ([], k);
    assert [Restriction(X, Lower(lo, hi, c))] + [] == [Restriction(X, Lower(lo, hi, c))];
  }

  /** The range of y recomputed where x is below c. */
  function Again(p: Place, lo: int, hi: int, c: int, k: nat): Interval
    requires Y in p.lets
  {
    LetValue(p.lets[Y], p.scope[X := Lower(lo, hi, c)], CTX, k + 2).0
  }

  ghost predicate AtStore(p: Place, lo: int, hi: int, c: int, k: nat) {
    && X in p.scope && p.scope[X] == Range(lo, hi) && Y in p.scope && Finite(p.scope[Y])
    && Y in p.lets && Dependents(p, X) == [Y]
    && Finite(Again(p, lo, hi, c, k)) && Below(IvNames(Again(p, lo, hi, c, k)), k) && Below(IvNames(p.scope[Y]), k)
  }

  lemma StoreTrimmed(lo: int, hi: int, c: int, p: Place, k: nat)
    requires AtStore(p, lo, hi, c, k)
    ensures
      var r := TouchStmt(StoreBelow(c), p, Storing(), Start(k));
      r.Ok() && r.boxes == map["f" := CutBox(NewEnds(Y, k), Again(p, lo, hi, c, k), p.scope[Y])]
  {
    hide LetValue, TrimAll, BoundsOf, CutBox, TouchStmt, PopLets, AtStore;
    var body, n := Provide("f", [], [Var(Y)]), NewEnds(Y, k);
    var r := Restriction(X, Lower(lo, hi, c));
    var q := Narrowed(p, r);
    assert X in p.scope && p.scope[X] == Range(lo, hi) && Dependents(p, X) == [Y] && Y in p.scope by {
      AtStoreMeaning(p, lo, hi, c, k);
    }
    NarrowsOnce(lo, hi, c, p, k);
    TrimsOne(r, body, p, k);
    var stored := Start(k + 2).(boxes := map["f" := Box([EndVars(n)], None)]);
    assert TouchStmt(body, Renamed(q, [n]), Storing(), Start(k + 2)) == stored by {
      assert Pushed(q.scope, [n])[Y] == EndVars(n);
      StoreAtVar(Y, Renamed(q, [n]), Start(k + 2));
    }
    AtStoreMeaning(p, lo, hi, c, k);
    PopOne(n, q.scope, p.lets, stored, k);
  }

  lemma AtStoreMeaning(p: Place, lo: int, hi: int, c: int, k: nat)
    requires AtStore(p, lo, hi, c, k)
    ensures X in p.scope && p.scope[X] == Range(lo, hi) && Y in p.scope && Y in p.lets && Dependents(p, X) == [Y]
    ensures Finite(Again(p, lo, hi, c, k)) && Below(IvNames(Again(p, lo, hi, c, k)), k)
    ensures Finite(p.scope[Y]) && Below(IvNames(p.scope[Y]), k)
  {}

  /** The condition narrows x, and nothing else. */
  lemma NarrowsOnce(lo: int, hi: int, c: int, p: Place, k: nat)
    requires X in p.scope && p.scope[X] == Range(lo, hi)
    ensures TouchStmt(StoreBelow(c), p, Storing(), Start(k))
            == TrimAll([Restriction(X, Lower(lo, hi, c))], Provide("f", [], [Var(Y)]), p, Storing(), Start(k))
  {
    hide TrimAll, Restrictions, BoundsOf, LetValue;
    var cond, body := Bin(LT, Var(X), I(c)), Provide("f", [], [Var(Y)]);
    assert X in Names(cond) && Occurrences(cond) == [X];
    RestrictBelow(lo, hi, c, p.scope, k);
    assert TouchExpr(cond, p, Storing(), Start(k)) == Start(k);
    assert UsesScope(cond, p.scope);
    assert TouchCase(cond, cond, body, p, Storing(), Start(k))
           == TrimAll([Restriction(X, Lower(lo, hi, c))], body, p, Storing(), Start(k));
  }

  /** Narrowing x renames y while the body is visited. */
  lemma TrimsOne(r: Restriction, body: Stmt, p: Place, k: nat)
    requires Dependents(p, r.x) == [Y]
    ensures
      var q, n := Narrowed(p, r), NewEnds(Y, k);
      && TrimAll([r], body, p, Storing(), Start(k))
         == PopLets([n], q.scope, p.lets, Storing(), TouchStmt(body, Renamed(q, [n]), Storing(), Start(k + 2)))
  {
    hide TouchStmt, PopLets, Dependents, Pushed;
    var n := NewEnds(Y, k);
    assert NameLets([Y], k) == [n] by { assert [Y][1..] == [] && [n] + NameLets([], k) == [n]; }
    assert [r][1..] == [];
    assert TrimAll([], body, Renamed(Narrowed(p, r), [n]), Storing(), Start(k + 2))
           == TouchStmt(body, Renamed(Narrowed(p, r), [n]), Storing(), Start(k + 2));
  }

  lemma PopOne(n: Ends, scope: Scope, lets: Lets, st: State, k: nat)
    requires n == NewEnds(Y, k) && Y in lets && Y in scope && st.boxes == map["f" := Box([EndVars(n)], None)] && st.Ok()
    requires var i := LetValue(lets[Y], scope, CTX, st.k).0;
             Finite(i) && Finite(scope[Y]) && Below(IvNames(i), k) && Below(IvNames(scope[Y]), k)
    ensures var r := PopLets([n], scope, lets, Storing(), st);
            r.Ok() && r.boxes == map["f" := CutBox(n, LetValue(lets[Y], scope, CTX, st.k).0, scope[Y])]
  {
    hide LetValue;
    var (i, k1) := LetValue(lets[Y], scope, CTX, st.k);
    var val := Intersect(i, scope[Y], IDLE);
    assert [n][1..] == [];
    assert Names(val.max.e) == Names(i.max.e) + Names(scope[Y].max.e);
    DefineOwnEnds(n, val, st.(k := k1));
  }

  lemma CutBoxHolds(i: Interval, outside: Interval, v: int, k: nat, w: World)
    requires Finite(i) && Finite(outside)
    ensures InBox(CutBox(NewEnds(Y, k), i, outside), [v], w) <==>
      && MaxI(Eval(i.min.e, w, 0), Eval(outside.min.e, w, 0)) <= v
      && v <= MinI(Eval(i.max.e, w, 0), Eval(outside.max.e, w, 0))
  {
    hide Eval;
    var lo, hi, e := Bin(Max, i.min.e, outside.min.e), Bin(Min, i.max.e, outside.max.e), NewEnds(Y, k);
    NamedValue(e.mn, lo, w);
    NamedValue(e.mx, hi, w);
    EvalMax(i.min.e, outside.min.e, w);
    EvalMin(i.max.e, outside.max.e, w);
    assert [v][0] == v;
  }

  lemma NamedValue(x: Name, e: Expr, w: World)
    requires !x.vec && x.ty.IntT?
    ensures Eval(Let(x, e, Var(x)), w, 0) == Eval(e, w, 0)
  {}

  // ----- small pieces of the three families -----

  lemma SmallLet(x: Name, v: Expr, body: Stmt, p: Place, k: nat, val: Interval)
    requires LetValue(v, p.scope, CTX, k) == (val, k) && IsSmallInterval(val)
    requires TouchExpr(v, p, Storing(), Start(k)) == Start(k)
    ensures TouchStmt(LetStmt(x, v, body), p, Storing(), Start(k))
            == TouchStmt(body, InsideLet(x, v, p.scope[x := val], p), Storing(), Start(k))
  {
    hide LetValue, IsSmallInterval, InsideLet, DefineAll;
  }

  function Plus(a: Expr, b: Expr): Expr { Bin(Add, a, b) }

  /** The range of a sum of two variables whose ranges are known. */
  lemma SumRange(x: Name, y: Name, scope: Scope, k: nat)
    requires x in scope && y in scope && Finite(scope[x]) && Finite(scope[y])
    requires scope[x].min != Fin(Var(x)) || scope[y].min != Fin(Var(y))
    ensures LetValue(Plus(Var(x), Var(y)), scope, CTX, k)
            == (Interval(Fin(Plus(scope[x].min.e, scope[y].min.e)), Fin(Plus(scope[x].max.e, scope[y].max.e))), k)
  {
    assert BoundsOf(Var(x), scope, CTX, k) == (scope[x], k) && BoundsOf(Var(y), scope, CTX, k) == (scope[y], k);
    assert BinOf(Add, Var(x), Var(y), scope, CTX, k) == (AddBounds(Var(x), Var(y), scope[x], scope[y]), k);
  }

  lemma ConstRange(n: int, scope: Scope, k: nat)
    ensures LetValue(I(n), scope, CTX, k) == (SinglePoint(I(n)), k)
  {}

  lemma VarRange(x: Name, scope: Scope, k: nat)
    requires x in scope && Finite(scope[x])
    ensures LetValue(Var(x), scope, CTX, k) == (scope[x], k)
  {}

  lemma SmallSum(a: Expr, b: Expr)
    requires a.Const? && b.Const?
    ensures IsSmall(Fin(a)) && IsSmall(Fin(Plus(a, b)))
  {
    assert Occurrences(Plus(a, b)) == Occurrences(a) + Occurrences(b);
  }

  lemma ConstSum(a: int, b: int, c: int, w: World)
    ensures Eval(I(a), w, 0) == a
    ensures Eval(Plus(I(a), I(b)), w, 0) == a + b
    ensures Eval(Bin(Min, I(a), Bin(Sub, I(b), I(1))), w, 0) == MinI(a, b - 1)
    ensures Eval(Plus(Bin(Min, I(a), Bin(Sub, I(b), I(1))), I(c)), w, 0) == MinI(a, b - 1) + c
    ensures Eval(Bin(Sub, Plus(I(a), I(b)), I(1)), w, 0) == a + b - 1
  {
    assert Eval(Bin(Sub, I(b), I(1)), w, 0) == b - 1;
    EvalMin(I(a), Bin(Sub, I(b), I(1)), w);
  }

  /** Every point that a run stores at, from any start that the scope allows, is in the box. */
  ghost predicate BoxRight(s: Stmt, scope: Scope, r: State) {
    && r.Ok() && "f" in r.boxes
    && forall w: World, w': World, pt: seq<int> ::
      Covers(scope, w, w') && Touches(s, STORES, w, "f", pt) ==> InBox(r.boxes["f"], pt, w')
  }

  /** The two ranges between which a box lies, as numbers. */
  datatype Cut = Cut(min1: int, min2: int, max1: int, max2: int)

  ghost predicate IsCut(cut: Cut, i: Interval, outside: Interval) {
    && Finite(i) && Finite(outside)
    && forall w: World ::
      && Eval(i.min.e, w, 0) == cut.min1 && Eval(outside.min.e, w, 0) == cut.min2
      && Eval(i.max.e, w, 0) == cut.max1 && Eval(outside.max.e, w, 0) == cut.max2
  }

  /** Runs store exactly at the points from `from` to `to`. */
  ghost predicate StoresExactly(s: Stmt, scope: Scope, from: int, to: int) {
    && (forall w: World, w': World, pt: seq<int> ::
          Covers(scope, w, w') && Touches(s, STORES, w, "f", pt) ==> |pt| == 1 && from <= pt[0] <= to)
    && (forall v: int :: from <= v <= to ==> CanStore(s, scope, v))
  }

  ghost predicate CanStore(s: Stmt, scope: Scope, v: int) {
    exists w: World, w': World :: Covers(scope, w, w') && Touches(s, STORES, w, "f", [v])
  }

  lemma BoxRightWhen(s: Stmt, scope: Scope, r: State, i: Interval, outside: Interval, k: nat,
      cut: Cut, from: int, to: int)
    requires IsCut(cut, i, outside) && StoresExactly(s, scope, from, to) && from <= to
    requires r.Ok() && r.boxes == map["f" := CutBox(NewEnds(Y, k), i, outside)]
    ensures BoxRight(s, scope, r) <==> MaxI(cut.min1, cut.min2) <= from && to <= MinI(cut.max1, cut.max2)
  {
    hide Eval, Touches, Covers, InBox, CutBox;
    var b := CutBox(NewEnds(Y, k), i, outside);
    forall v: int, w: World
      ensures InBox(b, [v], w) <==> MaxI(cut.min1, cut.min2) <= v <= MinI(cut.max1, cut.max2)
    {
      CutBoxHolds(i, outside, v, k, w);
    }
    if BoxRight(s, scope, r) {
      var w1 := BoxHolds(s, scope, r, from);
      var w2 := BoxHolds(s, scope, r, to);
    } else {
      forall w: World, w': World, pt: seq<int> | Covers(scope, w, w') && Touches(s, STORES, w, "f", pt)
        ensures pt == [pt[0]]
      {}
    }
  }

  lemma BoxHolds(s: Stmt, scope: Scope, r: State, v: int) returns (w': World)
    requires BoxRight(s, scope, r) && CanStore(s, scope, v)
    ensures InBox(r.boxes["f"], [v], w')
  {
    hide Touches, Covers, InBox;
    var w: World, w1: World :| Covers(scope, w, w1) && Touches(s, STORES, w, "f", [v]);
    w' := w1;
  }

  /** The store, in a world where the value of y is known. */
  lemma StoreTouches(c: int, w: World, pt: seq<int>)
    ensures Touches(StoreBelow(c), STORES, w, "f", pt) <==> Lookup(w, X, 0) < c && pt == [Lookup(w, Y, 0)]
  {
    forall l: nat ensures EvalArgs([Var(Y)], w, l) == [Lookup(w, Y, 0)] {
      assert [Var(Y)][1..] == [] && Eval(Var(Y), w, l) == Lookup(w, Y, 0);
    }
    assert EvalArgs([Var(Y)], w, 0) == [Lookup(w, Y, 0)];
    assert StoresAt([Var(Y)], w, pt) <==> pt == [Lookup(w, Y, 0)];
    assert Eval(Bin(LT, Var(X), I(c)), w, 0) == B2I(Lookup(w, X, 0) < c);
  }

  /** A world with given values of x and y. */
  function At(x: int, y: int): World {
    World((n: Name, l: nat) => if n == X then x else y,
          (f: string, i: nat, args: seq<int>) => 0, (f: string, i: nat, args: seq<int>) => 0)
  }

  lemma InLet(w: World, x: Name, v: Expr, y: Name)
    requires !x.vec && !y.vec && x.ty.IntT?
    ensures Lookup(LetWorld(w, x, v), y, 0) == if y == x then Eval(v, w, 0) else Lookup(w, y, 0)
  {
    hide Eval;
  }

  lemma SumValue(x: Name, y: Name, w: World)
    ensures Eval(Plus(Var(x), Var(y)), w, 0) == Lookup(w, x, 0) + Lookup(w, y, 0)
  {}

  // ----- a name that the value of a visible let mentions -----

  /** `let a = a1; let y = x + a; let a = a2; if (x < c) f(y) = 0` */
  function Rebound(a1: int, a2: int, c: int): Stmt {
    LetStmt(A, I(a1), LetStmt(Y, Plus(Var(X), Var(A)), LetStmt(A, I(a2), StoreBelow(c))))
  }

  lemma ReboundPlace(lo: int, hi: int, a1: int, a2: int, c: int, k: nat) returns (p: Place)
    ensures TouchStmt(Rebound(a1, a2, c), Outermost(map[X := Range(lo, hi)]), Storing(), Start(k))
            == TouchStmt(StoreBelow(c), p, Storing(), Start(k))
    ensures p.scope == map[X := Range(lo, hi), A := SinglePoint(I(a2)), Y :=
        Interval(Fin(Plus(I(lo), I(a1))), Fin(Plus(I(hi), I(a1))))]
    ensures Y in p.lets && p.lets[Y] == Plus(Var(X), Var(A)) && Dependents(p, X) == [Y]
  {
    hide TouchStmt, BoundsOf, LetValue, TrimOrder, ChildrenInside, Visible, Names, StoreBelow;
    var p0 := Outermost(map[X := Range(lo, hi)]);
    ConstRange(a1, p0.scope, k);
    SmallLet(A, I(a1), LetStmt(Y, Plus(Var(X), Var(A)), LetStmt(A, I(a2), StoreBelow(c))), p0, k, SinglePoint(I(a1)));
    var p1 := InsideLet(A, I(a1), p0.scope[A := SinglePoint(I(a1))], p0);
    SumRange(X, A, p1.scope, k);
    var val := Interval(Fin(Plus(I(lo), I(a1))), Fin(Plus(I(hi), I(a1))));
    SmallSum(I(lo), I(a1));
    SmallSum(I(hi), I(a1));
    SmallLet(Y, Plus(Var(X), Var(A)), LetStmt(A, I(a2), StoreBelow(c)), p1, k, val);
    var p2 := InsideLet(Y, Plus(Var(X), Var(A)), p1.scope[Y := val], p1);
    ConstRange(a2, p2.scope, k);
    SmallLet(A, I(a2), StoreBelow(c), p2, k, SinglePoint(I(a2)));
    p := InsideLet(A, I(a2), p2.scope[A := SinglePoint(I(a2))], p2);
    ReboundChildren(p0, p1, p2, p, a1, a2);
  }

  lemma ReboundChildren(p0: Place, p1: Place, p2: Place, p: Place, a1: int, a2: int)
    requires p0.lets == map[] && p0.children == map[] && p0.depth == map[]
    requires p1 == InsideLet(A, I(a1), p1.scope, p0) && p2 == InsideLet(Y, Plus(Var(X), Var(A)), p2.scope, p1)
    requires p == InsideLet(A, I(a2), p.scope, p2)
    ensures Dependents(p, X) == [Y]
  {
    hide TrimOrder;
    var y := Inst(Y, 1);
    assert p1.children == map[] && p1.depth == map[A := 1];
    assert Occurrences(Plus(Var(X), Var(A))) == [X, A] && [X, A][1..] == [A] && [A][1..] == [];
    var depth := map[A := 1, Y := 1];
    assert [] + [y] == [y] && AddChildren(map[], [X, A], y, depth)
        == AddChildren(map[Inst(X, 0) := [y]], [A], y, depth);
    assert p2.children == map[Inst(X, 0) := [y], Inst(A, 1) := [y]];
    assert p.children == p2.children && p.depth == map[A := 2, Y := 1];
    var c := Visible(p.children, p.depth);
    assert ChildrenOf(c, X) == [Y] && ChildrenOf(c, Y) == [];
    OneDependent(X, Y, c);
  }

  lemma ReboundTouches(a1: int, a2: int, c: int, w: World, pt: seq<int>)
    ensures Touches(Rebound(a1, a2, c), STORES, w, "f", pt)
            <==> Lookup(w, X, 0) < c && pt == [Lookup(w, X, 0) + a1]
  {
    hide Eval, CallsAt, Lookup, LetWorld;
    var sum := Plus(Var(X), Var(A));
    var w1 := LetWorld(w, A, I(a1));
    var w2 := LetWorld(w1, Y, sum);
    var w3 := LetWorld(w2, A, I(a2));
    InLet(w, A, I(a1), X);
    InLet(w, A, I(a1), A);
    InLet(w1, Y, sum, X);
    InLet(w1, Y, sum, Y);
    InLet(w2, A, I(a2), X);
    InLet(w2, A, I(a2), Y);
    SumValue(X, A, w1);
    EvalConst(a1, w);
    StoreTouches(c, w3, pt);
    var inner := LetStmt(A, I(a2), StoreBelow(c));
    assert Touches(inner, STORES, w2, "f", pt) == Touches(StoreBelow(c), STORES, w3, "f", pt);
    assert Touches(LetStmt(Y, sum, inner), STORES, w1, "f", pt) == Touches(inner, STORES, w2, "f", pt);
  }

  lemma ReboundStores(lo: int, hi: int, a1: int, a2: int, c: int)
    ensures StoresExactly(Rebound(a1, a2, c), map[X := Range(lo, hi)], lo + a1, MinI(hi, c - 1) + a1)
  {
    hide Touches, Covers, Lookup;
    var scope, s := map[X := Range(lo, hi)], Rebound(a1, a2, c);
    forall w: World, w': World, pt: seq<int> | Covers(scope, w, w') && Touches(s, STORES, w, "f", pt)
      ensures |pt| == 1 && lo + a1 <= pt[0] <= MinI(hi, c - 1) + a1
    {
      ReboundTouches(a1, a2, c, w, pt);
      CoversRange(scope, X, lo, hi, w, w');
    }
    forall v | lo + a1 <= v <= MinI(hi, c - 1) + a1 ensures CanStore(s, scope, v) {
      ReboundTouches(a1, a2, c, At(v - a1, 0), [v]);
      AtValues(v - a1, 0);
      OnlyX(lo, hi, v - a1, 0);
      assert Covers(scope, At(v - a1, 0), At(0, 0)) && Touches(s, STORES, At(v - a1, 0), "f", [v]);
    }
  }

  lemma CoversRange(scope: Scope, x: Name, lo: int, hi: int, w: World, w': World)
    requires Covers(scope, w, w') && x in scope && scope[x] == Range(lo, hi)
    ensures lo <= Lookup(w, x, 0) <= hi
  {
    assert In(Lookup(w, x, 0), scope[x], w');
    EvalConst(lo, w');
    EvalConst(hi, w');
  }

  lemma AtValues(x: int, y: int)
    ensures Lookup(At(x, y), X, 0) == x && Lookup(At(x, y), Y, 0) == y
  {}

  lemma OnlyX(lo: int, hi: int, x: int, y: int)
    requires lo <= x <= hi
    ensures Covers(map[X := Range(lo, hi)], At(x, y), At(0, 0))
  {}

  /** The visitor recomputes `x + a` where `a` is already a2, so the box is right
      exactly when the second binding gives `a` the value it had. */
  lemma ReboundExactly(lo: int, hi: int, a1: int, a2: int, c: int, k: nat)
    requires lo <= hi && lo < c && k > 0
    ensures
      var scope := map[X := Range(lo, hi)];
      BoxRight(Rebound(a1, a2, c), scope, TouchStmt(Rebound(a1, a2, c), Outermost(scope), Storing(), Start(k)))
      <==> a1 == a2
  {
    hide TouchStmt, Touches, CutBox, Dependents, BoxRight, Covers, Names, AtStore, StoresExactly, IsCut;
    var scope := map[X := Range(lo, hi)];
    var p := ReboundPlace(lo, hi, a1, a2, c, k);
    var q := p.scope[X := Lower(lo, hi, c)];
    SumRange(X, A, q, k + 2);
    var i := Again(p, lo, hi, c, k);
    assert i == Interval(Fin(Plus(I(lo), I(a2))), Fin(Plus(Bin(Min, I(hi), Bin(Sub, I(c), I(1))), I(a2)))) by {
      hide LetValue;
    }
    ReboundAtStore(lo, hi, a1, a2, c, p, k);
    StoreTrimmed(lo, hi, c, p, k);
    var cut := Cut(lo + a2, lo + a1, MinI(hi, c - 1) + a2, hi + a1);
    ReboundCut(lo, hi, a1, a2, c, i, p.scope[Y], cut);
    ReboundStores(lo, hi, a1, a2, c);
    BoxRightWhen(Rebound(a1, a2, c), scope, TouchStmt(StoreBelow(c), p, Storing(), Start(k)), i, p.scope[Y], k, cut,
                 lo + a1, MinI(hi, c - 1) + a1);
  }

  lemma ReboundCut(lo: int, hi: int, a1: int, a2: int, c: int, i: Interval, outside: Interval, cut: Cut)
    requires i == Interval(Fin(Plus(I(lo), I(a2))), Fin(Plus(Bin(Min, I(hi), Bin(Sub, I(c), I(1))), I(a2))))
    requires outside == Interval(Fin(Plus(I(lo), I(a1))), Fin(Plus(I(hi), I(a1))))
    requires cut == Cut(lo + a2, lo + a1, MinI(hi, c - 1) + a2, hi + a1)
    ensures IsCut(cut, i, outside)
  {
    hide Eval;
    forall w: World
      ensures Eval(i.min.e, w, 0) == cut.min1 && Eval(outside.min.e, w, 0) == cut.min2
      ensures Eval(i.max.e, w, 0) == cut.max1 && Eval(outside.max.e, w, 0) == cut.max2
    {
      ConstSum(lo, a2, 0, w);
      ConstSum(lo, a1, 0, w);
      ConstSum(hi, a1, 0, w);
      ConstSum(hi, c, a2, w);
    }
  }

  lemma ReboundAtStore(lo: int, hi: int, a1: int, a2: int, c: int, p: Place, k: nat)
    requires k > 0 && X in p.scope && p.scope[X] == Range(lo, hi) && Y in p.lets && Dependents(p, X) == [Y]
    requires Y in p.scope && p.scope[Y] == Interval(Fin(Plus(I(lo), I(a1))), Fin(Plus(I(hi), I(a1))))
    requires Again(p, lo, hi, c, k)
        == Interval(Fin(Plus(I(lo), I(a2))), Fin(Plus(Bin(Min, I(hi), Bin(Sub, I(c), I(1))), I(a2))))
    ensures AtStore(p, lo, hi, c, k)
  {
    hide LetValue, Dependents, Names, Again;
    NoNames(lo, a1);
    NoNames(hi, a1);
    NoNames(lo, a2);
    LowerNames(hi, c, a2);
  }

  lemma NoNames(a: int, b: int)
    ensures Names(I(a)) == {} && Names(Plus(I(a), I(b))) == {}
  {}

  lemma LowerNames(hi: int, c: int, b: int)
    ensures Names(Bin(Min, I(hi), Bin(Sub, I(c), I(1)))) == {}
        && Names(Plus(Bin(Min, I(hi), Bin(Sub, I(c), I(1))), I(b))) == {}
  {
    assert Names(Bin(Sub, I(c), I(1))) == {};
  }

  // ----- a loop that takes the name of a visible let -----

  /** `let y = x; for (y = m; y < m + n; y++) if (x < c) f(y) = 0` */
  function Looped(m: int, n: int, c: int): Stmt {
    LetStmt(Y, Var(X), For(Y, I(m), I(n), StoreBelow(c)))
  }

  function LoopOf(m: int, n: int): Interval { Interval(Fin(I(m)), Fin(Bin(Sub, Plus(I(n), I(m)), I(1)))) }

  lemma ConstLoop(m: int, n: int, scope: Scope, k: nat)
    ensures LoopRange(I(m), I(n), scope, CTX, k) == (Some(LoopOf(m, n)), k)
  {
    assert BoundsOf(I(m), scope, CTX, k) == (SinglePoint(I(m)), k);
    assert BoundsOf(I(n), scope, CTX, k) == (SinglePoint(I(n)), k);
  }

  lemma LoopedPlace(lo: int, hi: int, m: int, n: int, c: int, k: nat) returns (p: Place)
    ensures TouchStmt(Looped(m, n, c), Outermost(map[X := Range(lo, hi)]), Storing(), Start(k))
            == TouchStmt(StoreBelow(c), p, Storing(), Start(k))
    ensures p.scope == map[X := Range(lo, hi), Y := LoopOf(m, n)]
    ensures Y in p.lets && p.lets[Y] == Var(X) && Dependents(p, X) == [Y]
  {
    hide BoundsOf, LetValue, TrimOrder, LoopRange, StoreBelow;
    var p0, loop := Outermost(map[X := Range(lo, hi)]), For(Y, I(m), I(n), StoreBelow(c));
    VarRange(X, p0.scope, k);
    SmallSum(I(lo), I(0));
    SmallSum(I(hi), I(0));
    SmallLet(Y, Var(X), loop, p0, k, Range(lo, hi));
    var p1 := InsideLet(Y, Var(X), p0.scope[Y := Range(lo, hi)], p0);
    ConstLoop(m, n, p1.scope, k);
    p := InsideLoop(Y, LoopOf(m, n), p1);
    assert TouchStmt(loop, p1, Storing(), Start(k)) == TouchStmt(StoreBelow(c), p, Storing(), Start(k));
    LoopedChildren(p0, p1, p, m, n);
  }

  lemma LoopedChildren(p0: Place, p1: Place, p: Place, m: int, n: int)
    requires p0.lets == map[] && p0.children == map[] && p0.depth == map[]
    requires p1 == InsideLet(Y, Var(X), p1.scope, p0) && p == InsideLoop(Y, LoopOf(m, n), p1)
    ensures Dependents(p, X) == [Y]
  {
    hide TrimOrder;
    var y := Inst(Y, 1);
    assert Occurrences(Var(X)) == [X] && [X][1..] == [] && [] + [y] == [y];
    assert p1.children == map[Inst(X, 0) := [y]] && p.depth == map[Y := 2];
    var c := Visible(p.children, p.depth);
    assert ChildrenOf(c, X) == [Y] && ChildrenOf(c, Y) == [];
    OneDependent(X, Y, c);
  }

  lemma LoopedTouches(m: int, n: int, c: int, w: World, pt: seq<int>)
    ensures Touches(Looped(m, n, c), STORES, w, "f", pt)
            <==> Lookup(w, X, 0) < c && |pt| == 1 && m <= pt[0] < m + n
  {
    hide Eval, CallsAt, Lookup, LetWorld, LoopWorld, StoreBelow;
    var w1, loop := LetWorld(w, Y, Var(X)), For(Y, I(m), I(n), StoreBelow(c));
    InLet(w, Y, Var(X), X);
    EvalConst(m, w1);
    EvalConst(n, w1);
    forall i: int
      ensures Touches(StoreBelow(c), STORES, LoopWorld(w1, Y, i), "f", pt) <==> Lookup(w, X, 0) < c && pt == [i]
    {
      StoreTouches(c, LoopWorld(w1, Y, i), pt);
      InLoop(w1, i);
    }
    assert Touches(loop, STORES, w1, "f", pt)
           <==> exists i :: m <= i < m + n && Touches(StoreBelow(c), STORES, LoopWorld(w1, Y, i), "f", pt);
    if |pt| == 1 { assert pt == [pt[0]]; }
  }

  lemma InLoop(w: World, i: int)
    ensures Lookup(LoopWorld(w, Y, i), X, 0) == Lookup(w, X, 0) && Lookup(LoopWorld(w, Y, i), Y, 0) == i
  {}

  lemma LoopedStores(lo: int, hi: int, m: int, n: int, c: int)
    requires lo <= hi && lo < c
    ensures StoresExactly(Looped(m, n, c), map[X := Range(lo, hi)], m, m + n - 1)
  {
    hide Touches, Covers, Lookup;
    var scope, s := map[X := Range(lo, hi)], Looped(m, n, c);
    forall w: World, w': World, pt: seq<int> | Covers(scope, w, w') && Touches(s, STORES, w, "f", pt)
      ensures |pt| == 1 && m <= pt[0] <= m + n - 1
    {
      LoopedTouches(m, n, c, w, pt);
    }
    forall v | m <= v <= m + n - 1 ensures CanStore(s, scope, v) {
      LoopedTouches(m, n, c, At(lo, 0), [v]);
      AtValues(lo, 0);
      OnlyX(lo, hi, lo, 0);
      assert Covers(scope, At(lo, 0), At(0, 0)) && Touches(s, STORES, At(lo, 0), "f", [v]);
    }
  }

  /** The visitor cuts the loop's range to that of x, so the box is right exactly
      when the loop stays inside the narrowed range of x. */
  lemma LoopedExactly(lo: int, hi: int, m: int, n: int, c: int, k: nat)
    requires lo <= hi && lo < c && n > 0 && k > 0
    ensures
      var scope := map[X := Range(lo, hi)];
      BoxRight(Looped(m, n, c), scope, TouchStmt(Looped(m, n, c), Outermost(scope), Storing(), Start(k)))
      <==> lo <= m && m + n - 1 <= MinI(hi, c - 1)
  {
    hide TouchStmt, Touches, CutBox, Dependents, BoxRight, Covers, Names, AtStore, StoresExactly, IsCut, LetValue;
    var scope := map[X := Range(lo, hi)];
    var p := LoopedPlace(lo, hi, m, n, c, k);
    VarRange(X, p.scope[X := Lower(lo, hi, c)], k + 2);
    var i := Again(p, lo, hi, c, k);
    assert i == Lower(lo, hi, c);
    LoopedAtStore(lo, hi, m, n, c, p, k);
    StoreTrimmed(lo, hi, c, p, k);
    var cut := Cut(lo, m, MinI(hi, c - 1), n + m - 1);
    LoopedCut(lo, hi, m, n, c, cut);
    LoopedStores(lo, hi, m, n, c);
    BoxRightWhen(Looped(m, n, c), scope, TouchStmt(StoreBelow(c), p, Storing(), Start(k)), i,
        p.scope[Y], k, cut, m, m + n - 1);
  }

  lemma LoopedCut(lo: int, hi: int, m: int, n: int, c: int, cut: Cut)
    requires cut == Cut(lo, m, MinI(hi, c - 1), n + m - 1)
    ensures IsCut(cut, Lower(lo, hi, c), LoopOf(m, n))
  {
    hide Eval;
    forall w: World
      ensures Eval(I(lo), w, 0) == cut.min1 && Eval(I(m), w, 0) == cut.min2
      ensures Eval(Lower(lo, hi, c).max.e, w, 0) == cut.max1 && Eval(LoopOf(m, n).max.e, w, 0) == cut.max2
    {
      ConstSum(lo, m, 0, w);
      ConstSum(m, m, 0, w);
      ConstSum(n, m, 0, w);
      ConstSum(hi, c, 0, w);
    }
  }

  lemma LoopedAtStore(lo: int, hi: int, m: int, n: int, c: int, p: Place, k: nat)
    requires k > 0 && X in p.scope && p.scope[X] == Range(lo, hi) && Y in p.lets && Dependents(p, X) == [Y]
    requires Y in p.scope && p.scope[Y] == LoopOf(m, n) && Again(p, lo, hi, c, k) == Lower(lo, hi, c)
    ensures AtStore(p, lo, hi, c, k)
  {
    hide LetValue, Dependents, Names, Again;
    NoNames(lo, m);
    NoNames(m, m);
    LowerNames(hi, c, 0);
    LoopNames(m, n);
  }

  lemma LoopNames(m: int, n: int)
    ensures Names(LoopOf(m, n).max.e) == {}
  {
    NoNames(n, m);
  }

  // ----- a let whose value mentions its own name -----

  /** `let y = y + x; if (x < c) f(y) = 0` */
  function Own(c: int): Stmt { LetStmt(Y, Plus(Var(Y), Var(X)), StoreBelow(c)) }

  lemma OwnPlace(lo: int, hi: int, m: int, n: int, c: int, k: nat) returns (p: Place)
    ensures TouchStmt(Own(c), Outermost(map[X := Range(lo, hi), Y := Range(m, n)]), Storing(), Start(k))
            == TouchStmt(StoreBelow(c), p, Storing(), Start(k))
    ensures p.scope == map[X := Range(lo, hi), Y := Interval(Fin(Plus(I(m), I(lo))), Fin(Plus(I(n), I(hi))))]
    ensures Y in p.lets && p.lets[Y] == Plus(Var(Y), Var(X)) && Dependents(p, X) == [Y]
  {
    hide TouchStmt, BoundsOf, LetValue, TrimOrder;
    var p0, v := Outermost(map[X := Range(lo, hi), Y := Range(m, n)]), Plus(Var(Y), Var(X));
    SumRange(Y, X, p0.scope, k);
    SmallSum(I(m), I(lo));
    SmallSum(I(n), I(hi));
    var val := Interval(Fin(Plus(I(m), I(lo))), Fin(Plus(I(n), I(hi))));
    SumTouches(p0, k);
    SmallLet(Y, v, StoreBelow(c), p0, k, val);
    p := InsideLet(Y, v, p0.scope[Y := val], p0);
    OwnChildren(p0, p);
  }

  lemma SumTouches(p: Place, k: nat)
    ensures TouchExpr(Plus(Var(Y), Var(X)), p, Storing(), Start(k)) == Start(k)
  {}

  lemma OwnChildren(p0: Place, p: Place)
    requires p0.lets == map[] && p0.children == map[] && p0.depth == map[]
    requires p == InsideLet(Y, Plus(Var(Y), Var(X)), p.scope, p0)
    ensures Dependents(p, X) == [Y]
  {
    hide TrimOrder;
    var y := Inst(Y, 1);
    assert Occurrences(Plus(Var(Y), Var(X))) == [Y, X] && [Y, X][1..] == [X] && [X][1..] == [] && [] + [y] == [y];
    var depth := map[Y := 1];
    assert AddChildren(map[], [Y, X], y, depth) == AddChildren(map[], [X], y, depth);
    assert p.children == map[Inst(X, 0) := [y]] && p.depth == depth;
    var c := Visible(p.children, p.depth);
    assert ChildrenOf(c, X) == [Y] && ChildrenOf(c, Y) == [];
    OneDependent(X, Y, c);
  }

  lemma OwnTouches(c: int, w: World, pt: seq<int>)
    ensures Touches(Own(c), STORES, w, "f", pt)
            <==> Lookup(w, X, 0) < c && pt == [Lookup(w, Y, 0) + Lookup(w, X, 0)]
  {
    hide Eval, CallsAt, Lookup, LetWorld, StoreBelow;
    var sum := Plus(Var(Y), Var(X));
    InLet(w, Y, sum, X);
    InLet(w, Y, sum, Y);
    SumValue(Y, X, w);
    StoreTouches(c, LetWorld(w, Y, sum), pt);
  }

  lemma OwnStores(lo: int, hi: int, m: int, n: int, c: int)
    requires lo <= hi && lo < c && m <= n
    ensures StoresExactly(Own(c), map[X := Range(lo, hi), Y := Range(m, n)], m + lo, n + MinI(hi, c - 1))
  {
    hide Touches, Covers, Lookup;
    var scope, s, top := map[X := Range(lo, hi), Y := Range(m, n)], Own(c), MinI(hi, c - 1);
    forall w: World, w': World, pt: seq<int> | Covers(scope, w, w') && Touches(s, STORES, w, "f", pt)
      ensures |pt| == 1 && m + lo <= pt[0] <= n + top
    {
      OwnTouches(c, w, pt);
      CoversRange(scope, X, lo, hi, w, w');
      CoversRange(scope, Y, m, n, w, w');
    }
    forall v | m + lo <= v <= n + top ensures CanStore(s, scope, v) {
      var x := if v - lo <= n then lo else v - n;
      OwnTouches(c, At(x, v - x), [v]);
      AtValues(x, v - x);
      BothCovered(lo, hi, m, n, x, v - x);
      assert Covers(scope, At(x, v - x), At(0, 0)) && Touches(s, STORES, At(x, v - x), "f", [v]);
    }
  }

  lemma BothCovered(lo: int, hi: int, m: int, n: int, x: int, y: int)
    requires lo <= x <= hi && m <= y <= n
    ensures Covers(map[X := Range(lo, hi), Y := Range(m, n)], At(x, y), At(0, 0))
  {}

  /** The visitor adds x to the range of the new y, so the box is right exactly
      when x may be zero. */
  lemma OwnExactly(lo: int, hi: int, m: int, n: int, c: int, k: nat)
    requires lo <= hi && lo < c && m <= n && k > 0
    ensures
      var scope := map[X := Range(lo, hi), Y := Range(m, n)];
      BoxRight(Own(c), scope, TouchStmt(Own(c), Outermost(scope), Storing(), Start(k))) <==> lo <= 0 <= hi
  {
    hide TouchStmt, Touches, CutBox, Dependents, BoxRight, Covers, Names, AtStore, StoresExactly, IsCut, LetValue;
    var scope := map[X := Range(lo, hi), Y := Range(m, n)];
    var p := OwnPlace(lo, hi, m, n, c, k);
    SumRange(Y, X, p.scope[X := Lower(lo, hi, c)], k + 2);
    var i := Again(p, lo, hi, c, k);
    OwnAtStore(lo, hi, m, n, c, p, k);
    StoreTrimmed(lo, hi, c, p, k);
    var top := MinI(hi, c - 1);
    var cut := Cut(m + lo + lo, m + lo, n + hi + top, n + hi);
    OwnCut(lo, hi, m, n, c, i, p.scope[Y], cut);
    OwnStores(lo, hi, m, n, c);
    BoxRightWhen(Own(c), scope, TouchStmt(StoreBelow(c), p, Storing(), Start(k)), i,
        p.scope[Y], k, cut, m + lo, n + top);
  }

  function OwnAgain(lo: int, hi: int, m: int, n: int, c: int): Interval {
    Interval(Fin(Plus(Plus(I(m), I(lo)), I(lo))),
             Fin(Plus(Plus(I(n), I(hi)), Bin(Min, I(hi), Bin(Sub, I(c), I(1))))))
  }

  lemma OwnCut(lo: int, hi: int, m: int, n: int, c: int, i: Interval, outside: Interval, cut: Cut)
    requires i == OwnAgain(lo, hi, m, n, c) && outside == Interval(Fin(Plus(I(m), I(lo))), Fin(Plus(I(n), I(hi))))
    requires cut == Cut(m + lo + lo, m + lo, n + hi + MinI(hi, c - 1), n + hi)
    ensures IsCut(cut, i, outside)
  {
    hide Eval;
    forall w: World
      ensures Eval(i.min.e, w, 0) == cut.min1 && Eval(outside.min.e, w, 0) == cut.min2
      ensures Eval(i.max.e, w, 0) == cut.max1 && Eval(outside.max.e, w, 0) == cut.max2
    {
      ConstSum(m, lo, 0, w);
      ConstSum(n, hi, 0, w);
      ConstSum(lo, lo, 0, w);
      ConstSum(hi, c, 0, w);
      EvalBinIs(Add, Plus(I(m), I(lo)), I(lo), w);
      EvalBinIs(Add, Plus(I(n), I(hi)), Bin(Min, I(hi), Bin(Sub, I(c), I(1))), w);
    }
  }

  lemma OwnAtStore(lo: int, hi: int, m: int, n: int, c: int, p: Place, k: nat)
    requires k > 0 && X in p.scope && p.scope[X] == Range(lo, hi) && Y in p.lets && Dependents(p, X) == [Y]
    requires Y in p.scope && p.scope[Y] == Interval(Fin(Plus(I(m), I(lo))), Fin(Plus(I(n), I(hi))))
    requires Again(p, lo, hi, c, k) == OwnAgain(lo, hi, m, n, c)
    ensures AtStore(p, lo, hi, c, k)
  {
    hide LetValue, Dependents, Names, Again;
    NoNames(m, lo);
    NoNames(n, hi);
    NoNames(lo, lo);
    LowerNames(hi, c, 0);
    SumNames(Plus(I(m), I(lo)), I(lo));
    SumNames(Plus(I(n), I(hi)), Bin(Min, I(hi), Bin(Sub, I(c), I(1))));
  }

  lemma SumNames(a: Expr, b: Expr)
    ensures Names(Plus(a, b)) == Names(a) + Names(b)
  {}

  /** None of the three is a program that the theorem about boxes speaks of. */
  lemma NoneIsOk(a1: int, a2: int, m: int, n: int, c: int, arity: string -> nat)
    ensures !StmtOk(Rebound(a1, a2, c), arity, map[])
    ensures !StmtOk(Looped(m, n, c), arity, map[])
    ensures !StmtOk(Own(c), arity, map[])
  {
    hide HasTy, ExprOk;
    var sum := Plus(Var(X), Var(A));
    assert A in Names(sum) && Y in Names(Plus(Var(Y), Var(X)));
    var seen := map[A := I(a1)][Y := sum];
    assert Y in seen && seen[Y] == sum && Y.base != A.base;
    assert !Rebindable(A, seen);
    assert StmtOk(LetStmt(Y, sum, LetStmt(A, I(a2), StoreBelow(c))), arity, map[A := I(a1)])
           ==> StmtOk(LetStmt(A, I(a2), StoreBelow(c)), arity, seen);
  }
}
