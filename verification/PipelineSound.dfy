// Computing each Func of a pipeline only on the region inferred for it gives
// the values of the unrestricted definitions, whatever memory holds elsewhere.

module PipelineSound {
  import opened IR
  import opened Intervals
  import opened BoundsRules
  import opened Bounds
  import opened Boxes
  import opened Stmts
  import opened BoxesTouching
  import opened BoxesShape
  import opened BoxesKeep
  import opened BoxesSound
  import opened BoundsInference

  // ----- names -----

  predicate DotFree(s: string) { forall i :: 0 <= i < |s| ==> s[i] != '.' }

  /** Func names have no dot, so the name of an end tells the Func and the argument. */
  lemma EndNamesDiffer(f: string, x: Name, e1: string, g: string, y: Name, e2: string)
    requires DotFree(f) && DotFree(g) && (e1 == ".min" || e1 == ".max") && (e2 == ".min" || e2 == ".max")
    requires EndName(f, x, e1) == EndName(g, y, e2)
    ensures f == g && x.base == y.base && e1 == e2
  {
    var s, t := f + ".s0." + x.base + e1, g + ".s0." + y.base + e2;
    assert s[|f|] == '.' && t[|g|] == '.';
    assert s[..|f|] == f && t[..|g|] == g;
    assert s[|s| - 1] == e1[3] && t[|t| - 1] == e2[3];
    var n := |f| + 4;
    assert s[n..|s| - 4] == x.base && t[n..|t| - 4] == y.base;
  }

  function EndsOf(d: FuncDef): set<Name> { set x, e | x in d.args && e in {".min", ".max"} :: EndName(d.name, x, e) }

  /** The ends of the regions of the first `j` Funcs. */
  function EndsBefore(j: nat, defs: seq<FuncDef>): set<Name>
    requires j <= |defs|
  {
    if j == 0 then {} else EndsBefore(j - 1, defs) + EndsOf(defs[j - 1])
  }

  /** Funcs in realization order, well typed, under names that do not clash. */
  ghost predicate Pipeline(defs: seq<FuncDef>, g: Program) {
    && (forall i :: 0 <= i < |defs| ==> DefOk(defs[i], g) && DotFree(defs[i].name))
    && (forall i, j :: 0 <= i < j < |defs| ==> defs[i].name != defs[j].name)
    && (forall i, v :: 0 <= i < |defs| && v in defs[i].values ==> CallsEarlier(v, i, defs))
    && EndsBefore(|defs|, defs) !! g.names
  }

  ghost predicate DefOk(d: FuncDef, g: Program) {
    && |d.args| == g.arity(d.name)
    && (forall x :: x in d.args ==> !x.vec && x.ty.IntT? && x in g.names)
    && (forall i, j :: 0 <= i < j < |d.args| ==> d.args[i].base != d.args[j].base)
    && (forall v :: v in d.values ==> HasTy(v, IntT) && ExprOk(v, g.arity) && Names(v) <= g.names)
  }

  /** The Funcs that an expression calls. */
  function Callees(e: Expr): set<string>
    decreases e, 1
  {
    match e
    case Const(_, _) => {}
    case Var(_) => {}
    case Un(_, a) => Callees(a)
    case Bin(_, a, b) => Callees(a) + Callees(b)
    case Select(c, a, b) => Callees(c) + Callees(a) + Callees(b)
    case Ramp(b, s, _) => Callees(b) + Callees(s)
    case Let(_, v, b) => Callees(v) + Callees(b)
    case Call(ct, f, _, args) => (if ct.FuncCall? then {f} else {}) + CalleesOfAll(args)
  }

  function CalleesOfAll(args: seq<Expr>): set<string>
    decreases args, 0
  {
    if args == [] then {} else Callees(args[0]) + CalleesOfAll(args[1..])
  }

  lemma {:induction false} CallsAreCallees(e: Expr, w: World, l: nat, f: string, pt: seq<int>)
    requires CallsAt(e, w, l, f, pt)
    ensures f in Callees(e)
    decreases Size(e)
  {
    match e
    case Un(op, a) => CallsAreCallees(a, w, if op.Broadcast? then 0 else l, f, pt);
    case Bin(_, a, b) => CallsAreCallees(if CallsAt(a, w, l, f, pt) then a else b, w, l, f, pt);
    case Select(c, x, y) =>
      CallsAreCallees(if CallsAt(c, w, l, f, pt) then c else if CallsAt(x, w, l, f, pt) then x else y, w, l, f, pt);
    case Ramp(b, s, _) => CallsAreCallees(if CallsAt(b, w, 0, f, pt) then b else s, w, 0, f, pt);
    case Let(x, v, b) =>
      if m: nat :| CallsAt(v, w, m, f, pt) {
        CallsAreCallees(v, w, m, f, pt);
      } else {
        CallsAreCallees(b, LetWorld(w, x, v), l, f, pt);
      }
    case Call(_, _, _, args) => if ArgsCallAt(args, w, l, f, pt) { ArgCallsAreCallees(args, w, l, f, pt); }
  }

  lemma {:induction false} ArgCallsAreCallees(args: seq<Expr>, w: World, l: nat, f: string, pt: seq<int>)
    requires ArgsCallAt(args, w, l, f, pt)
    ensures f in CalleesOfAll(args)
    decreases SizeAll(args)
  {
    if CallsAt(args[0], w, l, f, pt) { CallsAreCallees(args[0], w, l, f, pt); } else {
      ArgCallsAreCallees(args[1..], w, l, f, pt);
    }
  }

  /** A value calls no Func of the pipeline but earlier ones. */
  ghost predicate CallsEarlier(v: Expr, i: nat, defs: seq<FuncDef>)
    requires i <= |defs|
  {
    forall j :: i <= j < |defs| ==> defs[j].name !in Callees(v)
  }

  // ----- worlds that differ in a few names -----

  ghost predicate SameBut(s: set<Name>, w: World, w': World) {
    && w.funcs == w'.funcs && w.pures == w'.pures
    && forall x: Name, m: nat :: x !in s ==> w.vars(x, m) == w'.vars(x, m)
  }

  lemma SameButTrans(s: set<Name>, t: set<Name>, w: World, w': World, w'': World)
    requires SameBut(s, w, w') && SameBut(t, w', w'')
    ensures SameBut(s + t, w, w'')
  {}

  function Run(lets: LetList, w: World): World {
    if lets == [] then w else Run(lets[1..], LetWorld(w, lets[0].0, lets[0].1))
  }

  lemma {:induction false} RunAppend(a: LetList, b: LetList, w: World)
    ensures Run(a + b, w) == Run(b, Run(a, w))
  {
    if a == [] { assert a + b == b; } else {
      assert (a + b)[0] == a[0] && (a + b)[1..] == a[1..] + b;
      RunAppend(a[1..], b, LetWorld(w, a[0].0, a[0].1));
    }
  }

  /** The lets run as let statements do. */
  lemma {:induction false} WrapRuns(lets: LetList, s: Stmt, w: World, f: string, pt: seq<int>)
    ensures Touches(Wrap(lets, s), Mode(false, true, ""), w, f, pt)
        <==> Touches(s, Mode(false, true, ""), Run(lets, w), f, pt)
  {
    if lets != [] { WrapRuns(lets[1..], s, LetWorld(w, lets[0].0, lets[0].1), f, pt); }
  }

  // ----- the lets of one region -----

  /** Whatever the region's own ends are, coordinate by coordinate the point lies between the intervals' ends. */
  ghost predicate AlwaysIn(d: FuncDef, b: Box, pt: seq<int>, w: World)
    requires |pt| == |b.bounds|
  {
    forall e: nat, u: World :: e < |pt| && SameBut(EndsOf(d), w, u) ==> In(pt[e], b.bounds[e], u)
  }

  ghost predicate Between(d: FuncDef, e: nat, v: int, w: World)
    requires e < |d.args|
  {
    Lookup(w, MinVar(d.name, d.args[e]), 0) <= v <= Lookup(w, MaxVar(d.name, d.args[e]), 0)
  }

  lemma InEnds(d: FuncDef, x: Name)
    requires x in d.args
    ensures MinVar(d.name, x) in EndsOf(d) && MaxVar(d.name, x) in EndsOf(d)
  {}

  lemma LetOther(w: World, x: Name, e: Expr, y: Name)
    requires !x.vec && !y.vec && x.ty.IntT? && y.ty.IntT?
    ensures Lookup(LetWorld(w, x, e), y, 0) == if y == x then Eval(e, w, 0) else Lookup(w, y, 0)
  {
    hide Eval;
  }

  lemma LetSameBut(w: World, x: Name, e: Expr, s: set<Name>)
    requires x in s
    ensures SameBut(s, w, LetWorld(w, x, e))
  {
    hide Eval;
  }

  lemma AlwaysInMoves(d: FuncDef, b: Box, pt: seq<int>, w: World, w2: World)
    requires |pt| == |b.bounds| && AlwaysIn(d, b, pt, w) && SameBut(EndsOf(d), w, w2)
    ensures AlwaysIn(d, b, pt, w2)
  {
    hide In, EndsOf;
    forall u: World | SameBut(EndsOf(d), w2, u) ensures SameBut(EndsOf(d), w, u) {}
  }

  /** Running the lets puts a point that always lies between the intervals' ends in the region. */
  lemma {:induction false} LetsHoldPoint(d: FuncDef, b: Box, n: nat, pt: seq<int>, w: World, g: Program)
    requires n <= |d.args| == |b.bounds| == |pt| && AllBounded(b) && DefOk(d, g) && DotFree(d.name)
    requires AlwaysIn(d, b, pt, w)
    ensures var w1 := Run(LetsOf(d, b, n), w);
            SameBut(EndsOf(d), w, w1) && (forall e: nat :: e < n ==> Between(d, e, pt[e], w1))
    ensures var w1 := Run(LetsOf(d, b, n), w);
            forall e: nat, end :: n <= e < |d.args| && (end == ".min" || end == ".max") ==>
              Lookup(w1, EndName(d.name, d.args[e], end), 0) == Lookup(w, EndName(d.name, d.args[e], end), 0)
  {
    hide In, Eval, EndsOf, DefOk, LetWorld, Lookup;
    if n > 0 {
      var x, i := d.args[n - 1], b.bounds[n - 1];
      var mx, mn := MaxVar(d.name, x), MinVar(d.name, x);
      var lower := if i.IsPoint() then Var(mx) else i.min.e;
      var w1 := LetWorld(w, mx, i.max.e);
      var w2 := LetWorld(w1, mn, lower);
      assert mx in EndsOf(d) && mn in EndsOf(d) by { InEnds(d, x); }
      LetSameBut(w, mx, i.max.e, EndsOf(d));
      LetSameBut(w1, mn, lower, EndsOf(d));
      TwoLets(d, b, n, pt, w);
      AlwaysInMoves(d, b, pt, w, w2);
      LetsHoldPoint(d, b, n - 1, pt, w2, g);
      assert LetsOf(d, b, n) == [(mx, i.max.e), (mn, lower)] + LetsOf(d, b, n - 1);
      RunTwo((mx, i.max.e), (mn, lower), LetsOf(d, b, n - 1), w);
      var w3 := Run(LetsOf(d, b, n), w);
      assert Between(d, n - 1, pt[n - 1], w3);
      forall e: nat, end | n <= e < |d.args| && (end == ".min" || end == ".max")
        ensures Lookup(w3, EndName(d.name, d.args[e], end), 0) == Lookup(w, EndName(d.name, d.args[e], end), 0)
      {
        OtherDimension(d, n - 1, e, end, g);
        LetOther(w, mx, i.max.e, EndName(d.name, d.args[e], end));
        LetOther(w1, mn, lower, EndName(d.name, d.args[e], end));
      }
    }
  }

  lemma RunTwo(a: (Name, Expr), b: (Name, Expr), rest: LetList, w: World)
    ensures Run([a, b] + rest, w) == Run(rest, LetWorld(LetWorld(w, a.0, a.1), b.0, b.1))
  {
    var all := [a, b] + rest;
    assert all[0] == a && all[1..] == [b] + rest && ([b] + rest)[0] == b && ([b] + rest)[1..] == rest;
  }

  lemma OtherDimension(d: FuncDef, e1: nat, e2: nat, end: string, g: Program)
    requires e1 < e2 < |d.args| && DefOk(d, g) && DotFree(d.name) && (end == ".min" || end == ".max")
    ensures EndName(d.name, d.args[e2], end) != MinVar(d.name, d.args[e1])
    ensures EndName(d.name, d.args[e2], end) != MaxVar(d.name, d.args[e1])
  {
    if EndName(d.name, d.args[e2], end) == MinVar(d.name, d.args[e1]) {
      EndNamesDiffer(d.name, d.args[e2], end, d.name, d.args[e1], ".min");
    }
    if EndName(d.name, d.args[e2], end) == MaxVar(d.name, d.args[e1]) {
      EndNamesDiffer(d.name, d.args[e2], end, d.name, d.args[e1], ".max");
    }
  }

  /** The two lets of one dimension. */
  lemma TwoLets(d: FuncDef, b: Box, n: nat, pt: seq<int>, w: World)
    requires 0 < n <= |d.args| == |b.bounds| == |pt| && AllBounded(b) && AlwaysIn(d, b, pt, w)
    ensures
      var x, i := d.args[n - 1], b.bounds[n - 1];
      var mx, mn := MaxVar(d.name, x), MinVar(d.name, x);
      var w1 := LetWorld(w, mx, i.max.e);
      var w2 := LetWorld(w1, mn, if i.IsPoint() then Var(mx) else i.min.e);
      Between(d, n - 1, pt[n - 1], w2)
  {
    hide Eval, LetWorld;
    var x, i := d.args[n - 1], b.bounds[n - 1];
    var mx, mn := MaxVar(d.name, x), MinVar(d.name, x);
    var lower := if i.IsPoint() then Var(mx) else i.min.e;
    var w1 := LetWorld(w, mx, i.max.e);
    var v := pt[n - 1];
    InEnds(d, x);
    LetSameBut(w, mx, i.max.e, EndsOf(d));
    assert SameBut(EndsOf(d), w, w);
    assert In(v, i, w) && In(v, i, w1);
    MinIsNotMax(d.name, x);
    LetOther(w, mx, i.max.e, mx);
    LetOther(w1, mn, lower, mn);
    LetOther(w1, mn, lower, mx);
    VarValue(mx, w1);
  }

  lemma MinIsNotMax(f: string, x: Name)
    ensures MinVar(f, x) != MaxVar(f, x)
  {
    var s, t := f + ".s0." + x.base + ".min", f + ".s0." + x.base + ".max";
    assert s[|s| - 1] == 'n' && t[|t| - 1] == 'x';
  }

  lemma VarValue(x: Name, w: World)
    ensures Eval(Var(x), w, 0) == Lookup(w, x, 0)
  {}

  // ----- the boxes that a Func requires -----

  ghost predicate SetupGood(u: Setup, k: nat, g: Program) {
    && SoundOracle(u.c.oracle) && SoundSolver(u.solve) && FuncsGood(u.c.funcBounds, k) && Below(g.names, k) && k > 0
    && forall f :: f in u.asked ==>
        BoxGood(u.asked[f], g.arity(f), k, g)
        && |u.asked[f].bounds| == g.arity(f) && AllBounded(u.asked[f])
  }

  lemma SetupLater(u: Setup, k: nat, k': nat, g: Program)
    requires SetupGood(u, k, g) && k <= k'
    ensures SetupGood(u, k', g)
  {
    hide IvGood, SoundOracle, SoundSolver;
    LaterShape(map[], u.c.funcBounds, k, k');
    forall f, e | f in u.asked && 0 <= e < |u.asked[f].bounds| ensures IvGood(u.asked[f].bounds[e], IntT, k') {
      IvGoodLater(u.asked[f].bounds[e], IntT, k, k');
    }
  }

  lemma RangeGood(d: FuncDef, k: nat, g: Program)
    requires DefOk(d, g) && k > 0
    ensures ScopeGood(RangeScope(d), k)
  {
    hide HasTy, ExprOk;
    forall x | x in RangeScope(d) ensures IvGood(RangeScope(d)[x], x.ty, k) { EndGood(d.name, x, k); }
  }

  lemma EndGood(f: string, x: Name, k: nat)
    requires k > 0
    ensures Good(Var(MinVar(f, x)), IntT, k) && Good(Var(MaxVar(f, x)), IntT, k)
  {}

  lemma ValueGiven(v: Expr, d: FuncDef, u: Setup, k: nat, g: Program)
    requires SetupGood(u, k, g) && DefOk(d, g) && v in d.values
    ensures Given(Evaluate(v), RangeScope(d), u.c, u.solve, k, g)
  {
    hide ScopeGood, SoundOracle, SoundSolver, FuncsGood, BoxGood, HasTy, ExprOk, Names;
    RangeGood(d, k, g);
    assert HasTy(v, IntT);
  }

  lemma AlwaysKeeps(boxes: BoxMap, k: nat, g: Program)
    requires BoxesGood(boxes, k, g)
    ensures BoxesGood(Always(boxes), k, g)
    ensures forall f, e: nat, v, w :: Covered(boxes, f, e, v, w) ==> Covered(Always(boxes), f, e, v, w)
  {
    hide IvGood, In;
    assert Names(Const(1, BoolT)) == {};
    forall w ensures Eval(Const(1, BoolT), w, 0) == 1 {}
  }

  lemma MergeAllKeeps(a: BoxMap, b: BoxMap, o: Oracle, k: nat, g: Program)
    requires SoundOracle(o) && Below(g.names, k) && BoxesGood(a, k, g) && BoxesGood(b, k, g)
    ensures BoxesGood(MergeAll(a, b, o), k, g)
    ensures forall f, e: nat, v, w ::
        Covered(a, f, e, v, w) || Covered(b, f, e, v, w)
        ==> Covered(MergeAll(a, b, o), f, e, v, w)
  {
    NoneGood(g);
    hide BoxGood, Merge, SoundOracle, InDim;
    forall f | f in MergeAll(a, b, o) ensures BoxGood(MergeAll(a, b, o)[f], g.arity(f), k, g) {
      EmptyBoxGood(g.arity(f), k, g);
      if f in b { MergeGood(BoxOf(a, f), b[f], o, g.arity(f), k, g); }
    }
    forall f, e: nat, v, w | Covered(a, f, e, v, w) || Covered(b, f, e, v, w)
        ensures Covered(MergeAll(a, b, o), f, e, v, w) {
      if f in b {
        NothingInEmpty(e, v, w);
        EmptyBoxGood(g.arity(f), k, g);
        SameSizes(BoxOf(a, f), b[f], g.arity(f), k, g);
        MergeKeeps(BoxOf(a, f), b[f], o, e, v, w);
      }
    }
  }

  lemma EmptyBoxGood(n: nat, k: nat, g: Program)
    ensures BoxGood(EMPTY_BOX, n, k, g)
  {}

  lemma SameSizes(a: Box, b: Box, n: nat, k: nat, g: Program)
    requires BoxGood(a, n, k, g) && BoxGood(b, n, k, g)
    ensures a.IsEmpty() || b.IsEmpty() || |a.bounds| == |b.bounds|
  {}

  /** One step of collecting boxes. */
  function Collected(v: Expr, d: FuncDef, u: Setup, st: State): State {
    var r := Visited(v, d, u, st.k);
    State(MergeAll(st.boxes, Always(r.boxes), u.c.oracle), r.k, Worse(st.status, r.status))
  }

  lemma CollectedGood(v: Expr, d: FuncDef, u: Setup, st: State, g: Program)
    requires SetupGood(u, st.k, g) && DefOk(d, g) && v in d.values && BoxesGood(st.boxes, st.k, g)
    ensures var r := Collected(v, d, u, st); r.k >= st.k && SetupGood(u, r.k, g) && BoxesGood(r.boxes, r.k, g)
    ensures var r := Collected(v, d, u, st);
            forall f, e: nat, c, w :: Covered(st.boxes, f, e, c, w) || Covered(Visited(v, d, u, st.k).boxes, f, e, c, w)
                                      ==> Covered(r.boxes, f, e, c, w)
  {
    hide TouchStmt, BoxesGood, Covered, MergeAll, Always, DefOk, SoundOracle, SoundSolver, Given;
    var r := Visited(v, d, u, st.k);
    ValueGiven(v, d, u, st.k, g);
    VisitedGood(v, d, u, st.k, g);
    SetupLater(u, st.k, r.k, g);
    BoxesLater(st.boxes, st.k, r.k, g);
    AlwaysKeeps(r.boxes, r.k, g);
    MergeAllKeeps(st.boxes, Always(r.boxes), u.c.oracle, r.k, g);
  }

  lemma VisitedGood(v: Expr, d: FuncDef, u: Setup, k: nat, g: Program)
    requires Given(Evaluate(v), RangeScope(d), u.c, u.solve, k, g)
    ensures var r := Visited(v, d, u, k); r.k >= k && BoxesGood(r.boxes, r.k, g)
  {
    hide Given, TouchStmt, PlaceGood, ToolsGood, BoxesGood, Covered, Covers, AgreeOutside, FuncsCovered, Touches;
    OneVisitSound(Evaluate(v), RangeScope(d), u.c, u.solve, CALLS, k, g);
    assert Visited(v, d, u, k) == OneVisit(Evaluate(v), RangeScope(d), u.c, u.solve, CALLS, k);
  }

  lemma {:induction false} RequiredGood(values: seq<Expr>, d: FuncDef, u: Setup, st: State, g: Program)
    requires SetupGood(u, st.k, g) && DefOk(d, g) && (forall v :: v in values ==> v in d.values)
        && BoxesGood(st.boxes, st.k, g)
    ensures var r := Required(values, d, u, st); SetupGood(u, r.k, g) && BoxesGood(r.boxes, r.k, g)
    ensures forall f, e: nat, c, w ::
        Covered(st.boxes, f, e, c, w)
        ==> Covered(Required(values, d, u, st).boxes, f, e, c, w)
  {
    if values != [] {
      hide Visited, BoxesGood, Covered, SetupGood, DefOk, MergeAll;
      CollectedGood(values[0], d, u, st, g);
      RequiredGood(values[1..], d, u, Collected(values[0], d, u, st), g);
    }
  }

  /** The run of a Func at a point, and the world outside its computation. */
  ghost predicate Computes(d: FuncDef, u: Setup, g: Program, w: World, w': World) {
    Covers(RangeScope(d), w, w') && AgreeOutside(g.names, RangeScope(d), w, w') && FuncsCovered(u.c.funcBounds, w, w')
  }

  /** Every point that computing a value calls is covered by what the Func requires. */
  lemma {:induction false} RequiredCovers(values: seq<Expr>, d: FuncDef, u: Setup, st: State, g: Program, v: Expr,
      w: World, w': World, l: nat, f: string, pt: seq<int>, e: nat)
    requires SetupGood(u, st.k, g) && DefOk(d, g) && (forall x :: x in values ==> x in d.values)
        && BoxesGood(st.boxes, st.k, g)
    requires Required(values, d, u, st).Ok() && v in values && Computes(d, u, g, w, w')
    requires CallsAt(v, w, l, f, pt) && e < |pt|
    ensures Covered(Required(values, d, u, st).boxes, f, e, pt[e], w')
  {
    hide BoxesGood, Covered, SetupGood, DefOk, MergeAll, CallsAt, Computes, Visited;
    CollectedGood(values[0], d, u, st, g);
    var st1 := Collected(values[0], d, u, st);
    if v == values[0] {
      RequiredOk(values, d, u, st);
      VisitCovers(v, d, u, st.k, g, w, w', l, f, pt, e);
      RequiredGood(values[1..], d, u, st1, g);
    } else {
      RequiredCovers(values[1..], d, u, st1, g, v, w, w', l, f, pt, e);
    }
  }

  lemma RequiredOk(values: seq<Expr>, d: FuncDef, u: Setup, st: State)
    requires values != [] && Required(values, d, u, st).Ok()
    ensures Visited(values[0], d, u, st.k).Ok()
  {
    hide Visited, MergeAll;
  }

  lemma VisitCovers(v: Expr, d: FuncDef, u: Setup, k: nat, g: Program, w: World, w': World, l: nat,
      f: string, pt: seq<int>, e: nat)
    requires SetupGood(u, k, g) && DefOk(d, g) && v in d.values && Visited(v, d, u, k).Ok() && Computes(d, u, g, w, w')
    requires CallsAt(v, w, l, f, pt) && e < |pt|
    ensures Covered(Visited(v, d, u, k).boxes, f, e, pt[e], w')
  {
    ValueGiven(v, d, u, k, g);
    hide Given, TouchStmt, PlaceGood, ToolsGood, BoxesGood, Covered, Covers, AgreeOutside,
        FuncsCovered, CallsAt, SetupGood, DefOk;
    OneVisitSound(Evaluate(v), RangeScope(d), u.c, u.solve, CALLS, k, g);
    assert Touches(Evaluate(v), CALLS, w, f, pt);
    assert Visited(v, d, u, k) == OneVisit(Evaluate(v), RangeScope(d), u.c, u.solve, CALLS, k);
  }

  // ----- the boxes asked of a Func -----

  ghost predicate StateGood(st: State, u: Setup, k: nat, g: Program) {
    st.k >= k && SetupGood(u, st.k, g) && BoxesGood(st.boxes, st.k, g)
  }

  lemma {:induction false} AllRequiredGood(defs: seq<FuncDef>, u: Setup, k: nat, g: Program)
    requires SetupGood(u, k, g) && forall i :: 0 <= i < |defs| ==> DefOk(defs[i], g)
    ensures forall i :: 0 <= i < |defs| ==> StateGood(AllRequired(defs, u, k)[i], u, k, g)
    decreases |defs|
  {
    if defs != [] {
      hide SetupGood, BoxGood, Required, DefOk, BoxesGood;
      assert BoxesGood(map[], k, g) by { NoBoxesGood(k, g); }
      var st := Required(defs[0].values, defs[0], u, State(map[], k, Fine));
      RequiredGood(defs[0].values, defs[0], u, State(map[], k, Fine), g);
      AllRequiredGood(defs[1..], u, st.k, g);
      var rest := AllRequired(defs[1..], u, st.k);
      forall i | 0 <= i < |defs| ensures StateGood(AllRequired(defs, u, k)[i], u, k, g) {
        if i > 0 { assert AllRequired(defs, u, k)[i] == rest[i - 1] && StateGood(rest[i - 1], u, st.k, g); }
      }
    }
  }

  lemma NoBoxesGood(k: nat, g: Program)
    ensures BoxesGood(map[], k, g)
  {}

  /** Which calls Func `i` makes is covered by what it requires. */
  lemma {:induction false} AllRequiredCovers(defs: seq<FuncDef>, u: Setup, k: nat, g: Program, i: nat, v: Expr,
      w: World, w': World, l: nat, f: string, pt: seq<int>, e: nat)
    requires SetupGood(u, k, g) && (forall j :: 0 <= j < |defs| ==> DefOk(defs[j], g))
    requires i < |defs| && AllRequired(defs, u, k)[i].Ok() && v in defs[i].values && Computes(defs[i], u, g, w, w')
    requires CallsAt(v, w, l, f, pt) && e < |pt|
    ensures Covered(AllRequired(defs, u, k)[i].boxes, f, e, pt[e], w')
    decreases |defs|
  {
    hide SetupGood, Required, DefOk, Computes, CallsAt, Covered, BoxGood;
    var st := Required(defs[0].values, defs[0], u, State(map[], k, Fine));
    RequiredGood(defs[0].values, defs[0], u, State(map[], k, Fine), g);
    if i == 0 {
      RequiredCovers(defs[0].values, defs[0], u, State(map[], k, Fine), g, v, w, w', l, f, pt, e);
    } else {
      AllRequiredCovers(defs[1..], u, st.k, g, i - 1, v, w, w', l, f, pt, e);
    }
  }

  /** A box that may be merged into a region of `n` dimensions. */
  ghost predicate Mergeable(b: Box, n: nat) { (b.bounds == [] || |b.bounds| == n) && AllBounded(b) }

  lemma MergeBounded(a: Box, b: Box, o: Oracle, n: nat)
    requires Mergeable(a, n) && Mergeable(b, n)
    ensures Mergeable(Merge(a, b, o), n)
  {
    hide MergeEnd, MergeUsed;
  }

  lemma {:induction false} MergeListKeeps(bs: seq<Box>, from: Box, o: Oracle, n: nat, e: nat, v: int, w: World)
    requires SoundOracle(o) && Mergeable(from, n) && (forall b :: b in bs ==> Mergeable(b, n))
    requires InDim(from, e, v, w) || exists b :: b in bs && InDim(b, e, v, w)
    ensures InDim(MergeList(bs, from, o), e, v, w)
  {
    hide SoundOracle, InDim, Merge, AllBounded;
    if bs != [] {
      MergeBounded(from, bs[0], o, n);
      if InDim(from, e, v, w) || InDim(bs[0], e, v, w) { MergeKeeps(from, bs[0], o, e, v, w); }
      MergeListKeeps(bs[1..], Merge(from, bs[0], o), o, n, e, v, w);
    }
  }

  lemma {:induction false} MergeListBounded(bs: seq<Box>, from: Box, o: Oracle, n: nat)
    requires Mergeable(from, n) && forall b :: b in bs ==> Mergeable(b, n)
    ensures Mergeable(MergeList(bs, from, o), n)
  {
    if bs != [] {
      hide Mergeable, Merge;
      MergeBounded(from, bs[0], o, n);
      MergeListBounded(bs[1..], Merge(from, bs[0], o), o, n);
    }
  }

  lemma {:induction false} AskedHas(i: nat, f: string, required: seq<State>, j: nat)
    requires i <= j < |required| && !BoxOf(required[j].boxes, f).IsEmpty()
    ensures BoxOf(required[j].boxes, f) in AskedFrom(i, f, required)
    decreases |required| - i
  {
    if i < j { AskedHas(i + 1, f, required, j); }
  }

  lemma {:induction false} AskedAre(i: nat, f: string, required: seq<State>)
    requires i <= |required|
    ensures forall b :: b in AskedFrom(i, f, required) ==> exists j ::
        i <= j < |required| && b == BoxOf(required[j].boxes, f)
    decreases |required| - i
  {
    if i < |required| {
      AskedAre(i + 1, f, required);
      var rest := AskedFrom(i + 1, f, required);
      forall b | b in AskedFrom(i, f, required) ensures exists j ::
          i <= j < |required| && b == BoxOf(required[j].boxes, f) {
        if b !in rest { assert b == BoxOf(required[i].boxes, f); }
      }
    }
  }

  /** What has been inferred, all well. */
  ghost predicate Inferred(defs: seq<FuncDef>, required: seq<State>, u: Setup, k: nat, g: Program) {
    Pipeline(defs, g) && SetupGood(u, k, g) && required == AllRequired(defs, u, k) && Accepted(defs, required, u)
  }

  lemma AskersMergeable(j: nat, defs: seq<FuncDef>, required: seq<State>, u: Setup, k: nat, g: Program)
    requires Inferred(defs, required, u, k, g) && j < |defs|
    ensures forall b :: b in Askers(j, defs, required, u) ==> Mergeable(b, |defs[j].args|)
    ensures Mergeable(EMPTY_BOX, |defs[j].args|) && Mergeable(RegionBox(j, defs, required, u), |defs[j].args|)
  {
    var f := defs[j].name;
    InferredParts(defs, required, u, k, g, j);
    hide Inferred, AllRequired, BoxesGood, SetupGood, IvGood, UsedGood, AllBounded;
    AskedAre(j + 1, f, required);
    forall b | b in Askers(j, defs, required, u) ensures Mergeable(b, |defs[j].args|) {
      if b in AskedFrom(j + 1, f, required) {
        var i :| j + 1 <= i < |required| && b == BoxOf(required[i].boxes, f);
      }
    }
    assert AllBounded(EMPTY_BOX) by { EmptyBounded(); }
    MergeListBounded(Askers(j, defs, required, u), EMPTY_BOX, u.c.oracle, |defs[j].args|);
  }

  lemma EmptyBounded()
    ensures AllBounded(EMPTY_BOX)
  {}

  lemma InferredParts(defs: seq<FuncDef>, required: seq<State>, u: Setup, k: nat, g: Program, j: nat)
    requires Inferred(defs, required, u, k, g) && j < |defs|
    ensures |required| == |defs| && DefOk(defs[j], g) && DotFree(defs[j].name)
    ensures forall i :: 0 <= i < |required| ==> required[i].Ok()
    ensures var f, n := defs[j].name, |defs[j].args|;
            && (forall i :: j < i < |required| ==>
                  var b := BoxOf(required[i].boxes, f); (b.bounds == [] || |b.bounds| == n) && AllBounded(b))
            && (f in u.asked ==> |u.asked[f].bounds| == n && AllBounded(u.asked[f]))
  {
    hide SoundOracle, SoundSolver, HasTy, ExprOk, Names, IvGood, UsedGood;
    AllRequiredGood(defs, u, k, g);
    var f := defs[j].name;
    forall i | j < i < |required|
      ensures var b := BoxOf(required[i].boxes, f); (b.bounds == [] || |b.bounds| == |defs[j].args|) && AllBounded(b)
    {
      assert StateGood(required[i], u, k, g);
      assert BoxesGood(required[i].boxes, required[i].k, g);
      assert f in required[i].boxes ==> BoxGood(required[i].boxes[f], g.arity(f), required[i].k, g);
    }
  }
}
