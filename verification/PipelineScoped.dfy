// The lets that define a region refer only to parameters and to the regions of
// later Funcs, whose lets are outside.

module PipelineScoped {
  import opened IR
  import opened Intervals
  import opened BoundsRules
  import opened Bounds
  import opened BoundsFree
  import opened Boxes
  import opened Stmts
  import opened BoxesTouching
  import opened BoxesFree
  import opened BoundsInference
  import opened PipelineSound

  /** What the values of a Func take from around them. */
  function OwnParams(d: FuncDef): set<Name> { FreeOfAll(d.values) - RangeScope(d).Keys }

  function AllParams(defs: seq<FuncDef>): set<Name> {
    if defs == [] then {} else OwnParams(defs[0]) + AllParams(defs[1..])
  }

  /** The ends of the regions of Funcs `j` and later. */
  function EndsFrom(j: nat, defs: seq<FuncDef>): set<Name>
    requires j <= |defs|
    decreases |defs| - j
  {
    if j == |defs| then {} else EndsOf(defs[j]) + EndsFrom(j + 1, defs)
  }

  /** Simplifier and solver make up no name; Func bounds and what is asked mention only names of `p`. */
  ghost predicate ClosedSetup(u: Setup, p: set<Name>) {
    && KeepsFree(Tools(u.c, u.solve, CALLS)) && FuncsClosed(u.c.funcBounds, p)
    && forall f :: f in u.asked ==> BoxClosed(u.asked[f], p, p)
  }

  lemma RangeClosed(d: FuncDef)
    ensures ScopeClosed(RangeScope(d), EndsOf(d))
  {
    forall x | x in RangeScope(d) ensures IvClosed(RangeScope(d)[x], EndsOf(d)) { InEnds(d, x); }
  }

  lemma {:induction false} FreeOfValue(v: Expr, vs: seq<Expr>)
    requires v in vs
    ensures Free(v) <= FreeOfAll(vs)
  {
    if v != vs[0] { FreeOfValue(v, vs[1..]); }
  }

  lemma VisitedClosed(v: Expr, d: FuncDef, u: Setup, k: nat, p: set<Name>)
    requires ClosedSetup(u, p) && OwnParams(d) <= p && v in d.values && Visited(v, d, u, k).Ok()
    ensures BoxesClosed(Visited(v, d, u, k).boxes, p, p + EndsOf(d))
  {
    hide TouchStmt, IvClosed, KeepsFree, BoxClosed, EndsOf;
    var a, t := p + EndsOf(d), Tools(u.c, u.solve, CALLS);
    RangeClosed(d);
    ScopeLarger(RangeScope(d), map[], EndsOf(d), a);
    ScopeLarger(map[], u.c.funcBounds, p, a);
    FreeOfValue(v, d.values);
    NoBoxes(p, a);
    TouchStmtClosed(Evaluate(v), Outermost(RangeScope(d)), t, State(map[], k, Fine), p, a);
  }

  lemma AlwaysClosed(boxes: BoxMap, p: set<Name>, a: set<Name>)
    requires BoxesClosed(boxes, p, a)
    ensures BoxesClosed(Always(boxes), p, a)
  {
    hide IvClosed;
  }

  lemma MergeAllClosed(x: BoxMap, y: BoxMap, t: Tools, p: set<Name>, a: set<Name>)
    requires KeepsFree(t) && p <= a && BoxesClosed(x, p, a) && BoxesClosed(y, p, a)
    ensures BoxesClosed(MergeAll(x, y, t.c.oracle), p, a)
  {
    EmptyClosed(p, a);
    hide KeepsFree, BoxClosed, Merge;
    forall f | f in MergeAll(x, y, t.c.oracle) ensures BoxClosed(MergeAll(x, y, t.c.oracle)[f], p, a) {
      if f in y { MergeClosed(BoxOf(x, f), y[f], t, p, a); }
    }
  }

  lemma {:induction false} RequiredClosed(values: seq<Expr>, d: FuncDef, u: Setup, st: State, p: set<Name>)
    requires ClosedSetup(u, p) && OwnParams(d) <= p && (forall v :: v in values ==> v in d.values)
    requires BoxesClosed(st.boxes, p, p + EndsOf(d)) && Required(values, d, u, st).Ok()
    ensures BoxesClosed(Required(values, d, u, st).boxes, p, p + EndsOf(d))
  {
    if values != [] {
      hide Visited, BoxesClosed, ClosedSetup, MergeAll, Always, EndsOf, OwnParams;
      RequiredOk(values, d, u, st);
      var r, a, t := Visited(values[0], d, u, st.k), p + EndsOf(d), Tools(u.c, u.solve, CALLS);
      VisitedClosed(values[0], d, u, st.k, p);
      AlwaysClosed(r.boxes, p, a);
      ClosedTools(u, p);
      MergeAllClosed(st.boxes, Always(r.boxes), t, p, a);
      RequiredClosed(values[1..], d, u,
          State(MergeAll(st.boxes, Always(r.boxes), u.c.oracle), r.k, Worse(st.status, r.status)), p);
    }
  }

  lemma ClosedTools(u: Setup, p: set<Name>)
    requires ClosedSetup(u, p)
    ensures KeepsFree(Tools(u.c, u.solve, CALLS))
  {}

  lemma {:induction false} AllRequiredClosed(defs: seq<FuncDef>, u: Setup, k: nat, p: set<Name>, i: nat)
    requires ClosedSetup(u, p) && AllParams(defs) <= p && i < |defs| && AllRequired(defs, u, k)[i].Ok()
    ensures BoxesClosed(AllRequired(defs, u, k)[i].boxes, p, p + EndsOf(defs[i]))
    decreases |defs|
  {
    hide BoxesClosed, ClosedSetup, Required, EndsOf, OwnParams;
    var start := State(map[], k, Fine);
    var st := Required(defs[0].values, defs[0], u, start);
    if i == 0 {
      NoBoxes(p, p + EndsOf(defs[0]));
      RequiredClosed(defs[0].values, defs[0], u, start, p);
    } else {
      AllRequiredClosed(defs[1..], u, st.k, p, i - 1);
    }
  }

  lemma {:induction false} EndsFromHas(i: nat, j: nat, defs: seq<FuncDef>)
    requires j <= i < |defs|
    ensures EndsOf(defs[i]) <= EndsFrom(j, defs)
    decreases |defs| - j
  {
    hide EndsOf;
    if j < i { EndsFromHas(i, j + 1, defs); }
  }

  lemma {:induction false} MergeListClosed(bs: seq<Box>, from: Box, t: Tools, p: set<Name>, a: set<Name>)
    requires KeepsFree(t) && p <= a && BoxClosed(from, p, a) && forall b :: b in bs ==> BoxClosed(b, p, a)
    ensures BoxClosed(MergeList(bs, from, t.c.oracle), p, a)
  {
    if bs != [] {
      hide KeepsFree, BoxClosed, Merge;
      MergeClosed(from, bs[0], t, p, a);
      MergeListClosed(bs[1..], Merge(from, bs[0], t.c.oracle), t, p, a);
    }
  }

  lemma BoxLarger(b: Box, p: set<Name>, a: set<Name>, a': set<Name>)
    requires BoxClosed(b, p, a) && a <= a'
    ensures BoxClosed(b, p, a')
  {
    hide IvClosed;
    forall d | 0 <= d < |b.bounds| ensures IvClosed(b.bounds[d], a') { IvLarger(b.bounds[d], a, a'); }
  }

  /** The region of a Func mentions parameters and the regions of later Funcs only. */
  lemma RegionClosed(j: nat, defs: seq<FuncDef>, required: seq<State>, u: Setup, k: nat, p: set<Name>)
    requires ClosedSetup(u, p) && AllParams(defs) <= p && j < |defs|
    requires required == AllRequired(defs, u, k) && Accepted(defs, required, u)
    ensures BoxClosed(RegionBox(j, defs, required, u), p, p + EndsFrom(j + 1, defs))
  {
    var f, a, t := defs[j].name, p + EndsFrom(j + 1, defs), Tools(u.c, u.solve, CALLS);
    hide AllRequired, BoxClosed, KeepsFree, EndsOf, EndsFrom, AllParams, FuncsClosed;
    EmptyClosed(p, a);
    AskedAre(j + 1, f, required);
    forall b | b in Askers(j, defs, required, u) ensures BoxClosed(b, p, a) {
      if b in AskedFrom(j + 1, f, required) {
        var i :| j + 1 <= i < |required| && b == BoxOf(required[i].boxes, f);
        AllRequiredClosed(defs, u, k, p, i);
        EndsFromHas(i, j + 1, defs);
        if f in required[i].boxes { BoxLarger(b, p, p + EndsOf(defs[i]), a); }
      } else {
        BoxLarger(b, p, p, a);
      }
    }
    MergeListClosed(Askers(j, defs, required, u), EMPTY_BOX, t, p, a);
  }

  lemma {:induction false} LetsOfClosed(d: FuncDef, b: Box, n: nat, p: set<Name>, a: set<Name>)
    requires n <= |d.args| == |b.bounds| && AllBounded(b) && BoxClosed(b, p, a)
    ensures forall l :: l in LetsOf(d, b, n) ==>
      Free(l.1) <= a || exists x :: x in d.args && l == (MinVar(d.name, x), Var(MaxVar(d.name, x)))
  {
    if n > 0 {
      hide Free;
      var x, i := d.args[n - 1], b.bounds[n - 1];
      assert IvClosed(i, a);
      LetsOfClosed(d, b, n - 1, p, a);
    }
  }

  /** Every let around a Func's computation is defined by parameters, by the
      regions of later Funcs - whose lets are outside - or, for a lower end that
      equals the upper one, by the upper end just outside it. */
  lemma LetsScoped(j: nat, defs: seq<FuncDef>, required: seq<State>, u: Setup, k: nat, p: set<Name>)
    requires ClosedSetup(u, p) && AllParams(defs) <= p && j < |defs|
    requires required == AllRequired(defs, u, k) && Accepted(defs, required, u)
    ensures var d := defs[j];
            forall l :: l in DefineBounds(d, RegionBox(j, defs, required, u)) ==>
              Free(l.1) <= p + EndsFrom(j + 1, defs) || exists x ::
                  x in d.args && l == (MinVar(d.name, x), Var(MaxVar(d.name, x)))
  {
    hide AllRequired, ClosedSetup, AllParams, EndsFrom, Accepted, LetsOf, Free, BoxClosed, RegionBox;
    RegionClosed(j, defs, required, u, k, p);
    var d, b := defs[j], RegionBox(j, defs, required, u);
    if !b.IsEmpty() && |b.bounds| == |d.args| && AllBounded(b) {
      LetsOfClosed(d, b, |d.args|, p, p + EndsFrom(j + 1, defs));
    }
  }
}
