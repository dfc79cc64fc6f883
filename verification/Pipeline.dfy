// A pipeline computed region by region.

module Pipelines {
  import opened Options
  import opened IR
  import opened Intervals
  import opened BoundsRules
  import opened Bounds
  import opened Boxes
  import opened Stmts
  import opened BoxesTouching
  import opened BoxesShape
  import opened BoxesSound
  import opened BoundsInference
  import opened PipelineSound
  import opened PipelineValues
  import opened FuncValues

  /** Points that always lie in the merged box are in the region once the lets have run. */
  lemma RegionHolds(j: nat, defs: seq<FuncDef>, required: seq<State>, u: Setup, k: nat,
      g: Program, pt: seq<int>, w0: World)
    requires Inferred(defs, required, u, k, g) && j < |defs|
    requires var b := RegionBox(j, defs, required, u);
             |pt| == |defs[j].args| == |b.bounds| && AlwaysIn(defs[j], b, pt, After(j + 1, defs, required, u, w0))
    ensures InRegion(defs[j], pt, After(0, defs, required, u, w0))
  {
    hide Inferred, AlwaysIn, RegionBox, After, EndsBefore, EndsOf, Pipeline, LetsOf, Accepted, SetupGood,
        SoundOracle, DefOk, AllBounded;
    InferredParts(defs, required, u, k, g, j);
    InferredOracle(defs, required, u, k, g);
    AskersMergeable(j, defs, required, u, k, g);
    AfterStep(j, defs, required, u, w0);
    AfterSame(j, defs, required, u, w0);
    var d, b, w1 := defs[j], RegionBox(j, defs, required, u), After(0, defs, required, u, w0);
    LetsHoldPoint(d, b, |d.args|, pt, After(j + 1, defs, required, u, w0), g);
    var wj := After(j, defs, required, u, w0);
    forall e: nat | e < |pt| ensures Between(d, e, pt[e], w1) {
      assert Between(d, e, pt[e], wj);
      LaterEnds(j, j, defs, g, d.args[e], ".min");
      LaterEnds(j, j, defs, g, d.args[e], ".max");
      SameLookups(d, e, EndsBefore(j, defs), wj, w1);
    }
  }

  lemma SameLookups(d: FuncDef, e: nat, s: set<Name>, w: World, w': World)
    requires e < |d.args| && SameBut(s, w, w')
    requires MinVar(d.name, d.args[e]) !in s && MaxVar(d.name, d.args[e]) !in s
    ensures Lookup(w, MinVar(d.name, d.args[e]), 0) == Lookup(w', MinVar(d.name, d.args[e]), 0)
    ensures Lookup(w, MaxVar(d.name, d.args[e]), 0) == Lookup(w', MaxVar(d.name, d.args[e]), 0)
  {}

  /** Computing a Func at a point of its region calls the other Funcs of the
      pipeline only at points of their regions. `w0` is the world around the
      lets, `mem` what the calls return. */
  lemma CallsStayInside(i: nat, j: nat, defs: seq<FuncDef>, required: seq<State>, u: Setup, k: nat, g: Program,
                        q: seq<int>, mem: Callee, w0: World, v: Expr, l: nat, pt: seq<int>)
    requires Inferred(defs, required, u, k, g) && i < |defs| && j < |defs| && v in defs[i].values
    requires var w1 := After(0, defs, required, u, w0);
             && InRegion(defs[i], q, w1) && BoundsTrue(u.c.funcBounds, mem, EndsBefore(|defs|, defs), w1)
             && CallsAt(v, PointWorld(defs[i], q, mem, w1), l, defs[j].name, pt)
    ensures j < i && InRegion(defs[j], pt, After(0, defs, required, u, w0))
  {
    InferredOracle(defs, required, u, k, g);
    CallsAreCallees(v, PointWorld(defs[i], q, mem, After(0, defs, required, u, w0)), l, defs[j].name, pt);
    assert CallsEarlier(v, i, defs);
    var w1, wj := After(0, defs, required, u, w0), After(j + 1, defs, required, u, w0);
    var r := PointWorld(defs[i], q, mem, w1);
    assert r.funcs == mem by { PointFuncs(defs[i], q, mem, w1); }
    hide Inferred, Pipeline, Accepted, Computes, CallsAt, PointWorld, After, InRegion, BoundsTrue, EndsOf,
        EndsBefore, AlwaysIn, RegionBox;
    AfterSame(j + 1, defs, required, u, w0);
    forall w: World | SameBut(EndsOf(defs[j]), wj, w) ensures Computes(defs[i], u, g, r, w.(funcs := r.funcs)) {
      AroundSame(i, j, defs, wj, w1, w, mem);
      PointComputes(i, defs, required, u, k, g, q, mem, w1, w.(funcs := mem));
    }
    CalledPointAlwaysIn(i, j, defs, required, u, k, g, v, r, l, pt, wj);
    RegionHolds(j, defs, required, u, k, g, pt, w0);
  }

  lemma {:induction false} BindArgsFuncs(args: seq<Name>, q: seq<int>, w: World)
    requires |args| == |q|
    ensures BindArgs(args, q, w).funcs == w.funcs
    decreases |args|
  {
    if args != [] { BindArgsFuncs(args[1..], q[1..], w); }
  }

  lemma PointFuncs(d: FuncDef, q: seq<int>, mem: Callee, w: World)
    requires |q| == |d.args|
    ensures PointWorld(d, q, mem, w).funcs == mem
  {
    BindArgsFuncs(d.args, q, w.(funcs := mem));
  }

  lemma AroundSame(i: nat, j: nat, defs: seq<FuncDef>, wj: World, w1: World, w: World, mem: Callee)
    requires j < i <= |defs| && SameBut(EndsBefore(j + 1, defs), wj, w1) && SameBut(EndsOf(defs[j]), wj, w)
    ensures SameBut(EndsBefore(i, defs), w1.(funcs := mem), w.(funcs := mem))
  {
    hide EndsOf;
    EndsGrow(j + 1, i, defs);
  }

  /** What is asked of a Func from outside is computed. */
  lemma AskedIsComputed(j: nat, defs: seq<FuncDef>, required: seq<State>, u: Setup, k: nat,
      g: Program, pt: seq<int>, w0: World)
    requires Inferred(defs, required, u, k, g) && j < |defs| && defs[j].name in u.asked
    requires var b := u.asked[defs[j].name];
             b.used.None? && InBox(b, pt, w0)
             && forall e :: 0 <= e < |b.bounds| ==> IvNames(b.bounds[e]) !! EndsBefore(|defs|, defs)
    ensures InRegion(defs[j], pt, After(0, defs, required, u, w0))
  {
    InferredParts(defs, required, u, k, g, j);
    var d, b, wj := defs[j], u.asked[defs[j].name], After(j + 1, defs, required, u, w0);
    AskersMergeable(j, defs, required, u, k, g);
    OutsideSame(j + 1, defs, required, u, w0);
    EndsGrow(j + 1, |defs|, defs);
    hide Inferred, In, RegionBox, EndsOf, After, EndsBefore, AllBounded, IvNames;
    assert EndsOf(d) <= EndsBefore(|defs|, defs) by { OwnEnds(j, defs); }
    forall e: nat, w: World | e < |pt| && SameBut(EndsOf(d), wj, w)
      ensures e < |RegionBox(j, defs, required, u).bounds| && In(pt[e], RegionBox(j, defs, required, u).bounds[e], w)
    {
      NamesSame(b.bounds[e], pt[e], EndsBefore(|defs|, defs), EndsOf(d), w0, wj, w);
      assert InDim(b, e, pt[e], w);
      AskedPointAlwaysIn(j, defs, required, u, k, g, b, e, pt[e], w);
    }
    if |pt| > 0 {
      RegionSize(j, defs, required, u, k, g, b, pt, w0);
    } else {
      NoDimensions(j, defs, required, u, k, g);
    }
    RegionHolds(j, defs, required, u, k, g, pt, w0);
  }

  lemma OwnEnds(j: nat, defs: seq<FuncDef>)
    requires j < |defs|
    ensures EndsOf(defs[j]) <= EndsBefore(|defs|, defs)
  {
    hide EndsOf;
    EndsGrow(j + 1, |defs|, defs);
  }

  lemma NamesSame(i: Interval, v: int, s: set<Name>, t: set<Name>, w0: World, wj: World, w: World)
    requires IvNames(i) !! s && t <= s && SameBut(s, w0, wj) && SameBut(t, wj, w) && In(v, i, w0)
    ensures In(v, i, w)
  {
    InAgree(v, i, w0, w);
  }

  /** The lets change only the ends of regions. */
  lemma {:induction false} OutsideSame(j: nat, defs: seq<FuncDef>, required: seq<State>, u: Setup, w: World)
    requires j <= |defs| == |required|
    ensures SameBut(EndsBefore(|defs|, defs), w, After(j, defs, required, u, w))
    decreases |defs| - j
  {
    hide EndsOf, DefineBounds, RegionBox, EndsBefore;
    if j == |defs| {
      assert LetsFrom(j, defs, required, u) == [];
    } else {
      OutsideSame(j + 1, defs, required, u, w);
      AfterStep(j, defs, required, u, w);
      var w1 := After(j + 1, defs, required, u, w);
      DefineSameBut(defs[j], RegionBox(j, defs, required, u), w1);
      OwnEnds(j, defs);
      var all := EndsBefore(|defs|, defs);
      SameButTrans(all, EndsOf(defs[j]), w, w1, After(j, defs, required, u, w));
      assert all + EndsOf(defs[j]) == all;
    }
  }

  lemma RegionSize(j: nat, defs: seq<FuncDef>, required: seq<State>, u: Setup, k: nat, g: Program,
      b: Box, pt: seq<int>, w: World)
    requires Inferred(defs, required, u, k, g) && j < |defs| && b in Askers(j, defs, required, u) && b.used.None?
    requires InBox(b, pt, w) && |pt| == |defs[j].args| > 0
    ensures |RegionBox(j, defs, required, u).bounds| == |defs[j].args|
  {
    hide Inferred, In, RegionBox, Askers;
    assert InDim(b, 0, pt[0], w);
    AskedPointAlwaysIn(j, defs, required, u, k, g, b, 0, pt[0], w);
  }

  // ----- the values -----

  function ValueOf(d: FuncDef, n: nat): Expr { if n < |d.values| then d.values[n] else I(0) }

  /** What memory holds of the first `i` Funcs when each has been computed
      everywhere, as its definition says; `outer` is everything else. */
  function Defined(i: nat, defs: seq<FuncDef>, outer: Callee, w: World): Callee
    requires i <= |defs|
  {
    if i == 0 then outer
    else
      var d, before := defs[i - 1], Defined(i - 1, defs, outer, w);
      (f: string, n: nat, q: seq<int>) =>
        if f == d.name then Eval(ValueOf(d, n), PointWorld(d, Fit(q, |d.args|), before, w), 0) else before(f, n, q)
  }

  /** What memory holds when each has been computed on its region only, over
      whatever was there before. */
  ghost function Computed(i: nat, defs: seq<FuncDef>, junk: Callee, w: World): Callee
    requires i <= |defs|
  {
    if i == 0 then junk
    else
      var d, before := defs[i - 1], Computed(i - 1, defs, junk, w);
      (f: string, n: nat, q: seq<int>) =>
        if f == d.name && InRegion(d, q, w) then Eval(ValueOf(d, n), PointWorld(d, q, before, w), 0)
        else before(f, n, q)
  }

  ghost predicate AgreeWhereCalled(e: Expr, w: World, w': World, l: nat) {
    forall f, n, pt :: CallsAt(e, w, l, f, pt) ==> w.funcs(f, n, pt) == w'.funcs(f, n, pt)
  }

  ghost predicate ArgsAgreeWhereCalled(args: seq<Expr>, w: World, w': World, l: nat) {
    forall f, n, pt :: ArgsCallAt(args, w, l, f, pt) ==> w.funcs(f, n, pt) == w'.funcs(f, n, pt)
  }

  /** Evaluation depends on what is called only where it is called. */
  lemma {:induction false} EvalCallsAgree(e: Expr, w: World, w': World, l: nat)
    requires SameVars(w, w') && AgreeWhereCalled(e, w, w', l)
    ensures Eval(e, w, l) == Eval(e, w', l)
    decreases e, 1
  {
    match e
    case Const(_, _) =>
    case Var(_) =>
    case Un(op, a) => EvalCallsAgree(a, w, w', if op.Broadcast? then 0 else l);
    case Bin(_, a, b) => EvalCallsAgree(a, w, w', l); EvalCallsAgree(b, w, w', l);
    case Select(c, a, b) => EvalCallsAgree(c, w, w', l); EvalCallsAgree(a, w, w', l); EvalCallsAgree(b, w, w', l);
    case Ramp(a, b, _) => EvalCallsAgree(a, w, w', 0); EvalCallsAgree(b, w, w', 0);
    case Let(x, v, b) =>
      forall y: Name, m: nat ensures LetWorld(w, x, v).vars(y, m) == LetWorld(w', x, v).vars(y, m) {
        EvalCallsAgree(v, w, w', m);
      }
      EvalCallsAgree(b, LetWorld(w, x, v), LetWorld(w', x, v), l);
    case Call(ct, f, n, args) =>
      ArgsCallsAgree(args, w, w', l);
      if ct.FuncCall? { assert CallsAt(e, w, l, f, EvalArgs(args, w, l)); }
  }

  lemma ArgsCallsAgree(args: seq<Expr>, w: World, w': World, l: nat)
    requires SameVars(w, w') && ArgsAgreeWhereCalled(args, w, w', l)
    ensures EvalArgs(args, w, l) == EvalArgs(args, w', l)
    decreases args, 0
  {
    if args != [] {
      EvalCallsAgree(args[0], w, w', l);
      ArgsCallsAgree(args[1..], w, w', l);
    }
  }

  lemma {:induction false} BindArgsVars(args: seq<Name>, q: seq<int>, w: World, w': World)
    requires |args| == |q| && SameVars(w, w')
    ensures SameVars(BindArgs(args, q, w), BindArgs(args, q, w'))
    decreases |args|
  {
    if args != [] { BindArgsVars(args[1..], q[1..], w, w'); }
  }

  /** Two memories that agree wherever a Func's value looks give the same value. */
  lemma SameValue(d: FuncDef, n: nat, q: seq<int>, mem: Callee, mem': Callee, w: World)
    requires |q| == |d.args|
    requires forall v, f, m, pt ::
        v in d.values && CallsAt(v, PointWorld(d, q, mem, w), 0, f, pt)
        ==> mem(f, m, pt) == mem'(f, m, pt)
    ensures Eval(ValueOf(d, n), PointWorld(d, q, mem, w), 0) == Eval(ValueOf(d, n), PointWorld(d, q, mem', w), 0)
  {
    BindArgsVars(d.args, q, w.(funcs := mem), w.(funcs := mem'));
    PointFuncs(d, q, mem, w);
    PointFuncs(d, q, mem', w);
    hide BindArgs, CallsAt, Eval;
    var v, r, r' := ValueOf(d, n), PointWorld(d, q, mem, w), PointWorld(d, q, mem', w);
    if n < |d.values| {
      assert v in d.values;
      EvalCallsAgree(v, r, r', 0);
    } else {
      EvalConst(0, r);
      EvalConst(0, r');
    }
  }

  // ----- the definitions -----

  lemma {:induction false} DefinedElsewhere(i: nat, j: nat, defs: seq<FuncDef>, outer: Callee, w: World, f: string)
    requires i <= j <= |defs| && forall m :: i <= m < j ==> defs[m].name != f
    ensures forall n, q :: Defined(j, defs, outer, w)(f, n, q) == Defined(i, defs, outer, w)(f, n, q)
    decreases j
  {
    hide Eval, PointWorld;
    if i < j { DefinedElsewhere(i, j - 1, defs, outer, w, f); }
  }

  lemma DefinedStep(i: nat, defs: seq<FuncDef>, outer: Callee, w: World, n: nat, q: seq<int>)
    requires i < |defs|
    ensures Defined(i + 1, defs, outer, w)(defs[i].name, n, q)
            == Eval(ValueOf(defs[i], n), PointWorld(defs[i], Fit(q, |defs[i].args|), Defined(i, defs, outer, w), w), 0)
  {
    hide Eval, PointWorld;
  }

  lemma ComputedStep(i: nat, defs: seq<FuncDef>, junk: Callee, w: World, f: string, n: nat, q: seq<int>)
    requires i < |defs|
    ensures var before := Computed(i, defs, junk, w);
            Computed(i + 1, defs, junk, w)(f, n, q)
            == if f == defs[i].name && InRegion(defs[i], q, w)
                then Eval(ValueOf(defs[i], n), PointWorld(defs[i], q, before, w), 0)
               else before(f, n, q)
  {
    hide Eval, PointWorld, InRegion;
  }

  /** The complete memory satisfies every definition. */
  lemma DefinedAsWritten(i: nat, defs: seq<FuncDef>, g: Program, outer: Callee, w: World, n: nat, pt: seq<int>)
    requires Pipeline(defs, g) && i < |defs|
    ensures var all, q := Defined(|defs|, defs, outer, w), Fit(pt, |defs[i].args|);
            all(defs[i].name, n, pt) == Eval(ValueOf(defs[i], n), PointWorld(defs[i], q, all, w), 0)
  {
    hide Callees, DefOk, EndsBefore, Eval, PointWorld, CallsAt, Defined;
    var d, before, all := defs[i], Defined(i, defs, outer, w), Defined(|defs|, defs, outer, w);
    var q := Fit(pt, |d.args|);
    DefinedStep(i, defs, outer, w, n, pt);
    DefinedElsewhere(i + 1, |defs|, defs, outer, w, d.name);
    forall v, f, m, pt | v in d.values && CallsAt(v, PointWorld(d, q, before, w), 0, f, pt)
        ensures before(f, m, pt) == all(f, m, pt) {
      CallsAreCallees(v, PointWorld(d, q, before, w), 0, f, pt);
      DefinedElsewhere(i, |defs|, defs, outer, w, f);
    }
    SameValue(d, n, q, before, all, w);
  }

  // ----- computing on regions only -----

  lemma {:induction false} ComputedElsewhere(i: nat, defs: seq<FuncDef>, junk: Callee, w: World, f: string)
    requires i <= |defs| && forall m :: 0 <= m < i ==> defs[m].name != f
    ensures forall n, q :: Computed(i, defs, junk, w)(f, n, q) == junk(f, n, q)
  {
    hide Eval, PointWorld, InRegion;
    if i > 0 { ComputedElsewhere(i - 1, defs, junk, w, f); }
  }

  /** The memory `all` holds the value of every definition; `junk` agrees with it on what is not of the pipeline. */
  ghost predicate IsMeaning(all: Callee, junk: Callee, defs: seq<FuncDef>, w: World) {
    && (forall i, n: nat, q :: 0 <= i < |defs| && |q| == |defs[i].args| ==>
          all(defs[i].name, n, q) == Eval(ValueOf(defs[i], n), PointWorld(defs[i], q, all, w), 0))
    && (forall f, n, q :: (forall i :: 0 <= i < |defs| ==> defs[i].name != f) ==> junk(f, n, q) == all(f, n, q))
  }

  /** What the definitions determine on the regions is what is computed there. */
  lemma {:induction false} ComputedIsMeaning(i: nat, defs: seq<FuncDef>, required: seq<State>, u: Setup, k: nat,
      g: Program, all: Callee, junk: Callee, w0: World, j: nat, n: nat, q: seq<int>)
    requires Inferred(defs, required, u, k, g) && j < i <= |defs|
    requires var w1 := After(0, defs, required, u, w0);
             && IsMeaning(all, junk, defs, w1) && BoundsTrue(u.c.funcBounds, all, EndsBefore(|defs|, defs), w1)
             && InRegion(defs[j], q, w1)
    ensures Computed(i, defs, junk, After(0, defs, required, u, w0))(defs[j].name, n, q) == all(defs[j].name, n, q)
    decreases i, 0
  {
    hide Inferred, DefOk, CallsEarlier, EndsBefore, Accepted, InRegion, After, Eval, PointWorld,
        BoundsTrue, CallsAt, SoundOracle;
    hide IsMeaning, Computed, SetupGood, ValueOf, AllRequired;
    InferredOracle(defs, required, u, k, g);
    var w1, d := After(0, defs, required, u, w0), defs[i - 1];
    var before := Computed(i - 1, defs, junk, w1);
    ComputedStep(i - 1, defs, junk, w1, defs[j].name, n, q);
    if j < i - 1 {
      assert defs[j].name != d.name;
      ComputedIsMeaning(i - 1, defs, required, u, k, g, all, junk, w0, j, n, q);
    } else {
      RegionSized(d, q, w1);
      PointFuncs(d, q, all, w1);
      PointFuncs(d, q, before, w1);
      forall v | v in d.values ensures AgreeWhereCalled(v, PointWorld(d, q, all, w1), PointWorld(d, q, before, w1), 0) {
        CallsReadMeaning(i - 1, defs, required, u, k, g, all, junk, w0, v, q);
      }
      SameValue(d, n, q, all, before, w1);
      MeaningOf(all, junk, defs, w1, j, n, q);
    }
  }

  /** Memory computed so far agrees with the definitions wherever the next Func looks. */
  lemma {:induction false} CallsReadMeaning(i: nat, defs: seq<FuncDef>, required: seq<State>, u: Setup, k: nat,
      g: Program, all: Callee, junk: Callee, w0: World, v: Expr, q: seq<int>)
    requires Inferred(defs, required, u, k, g) && i < |defs| && v in defs[i].values
    requires var w1 := After(0, defs, required, u, w0);
             && IsMeaning(all, junk, defs, w1) && BoundsTrue(u.c.funcBounds, all, EndsBefore(|defs|, defs), w1)
             && InRegion(defs[i], q, w1)
    ensures var w1 := After(0, defs, required, u, w0);
            AgreeWhereCalled(v, PointWorld(defs[i], q, all, w1),
                PointWorld(defs[i], q, Computed(i, defs, junk, w1), w1), 0)
    decreases i, 1
  {
    hide Inferred, DefOk, CallsEarlier, EndsBefore, Accepted, InRegion, After, Eval, PointWorld,
        BoundsTrue, CallsAt, SoundOracle, IsMeaning, Computed;
    InferredOracle(defs, required, u, k, g);
    var w1, d := After(0, defs, required, u, w0), defs[i];
    var before := Computed(i, defs, junk, w1);
    RegionSized(d, q, w1);
    PointFuncs(d, q, all, w1);
    PointFuncs(d, q, before, w1);
    forall f, m, pt | CallsAt(v, PointWorld(d, q, all, w1), 0, f, pt) ensures all(f, m, pt) == before(f, m, pt) {
      if h: nat :| h < |defs| && defs[h].name == f {
        CallsStayInside(i, h, defs, required, u, k, g, q, all, w0, v, 0, pt);
        ComputedIsMeaning(i, defs, required, u, k, g, all, junk, w0, h, m, pt);
      } else {
        ComputedElsewhere(i, defs, junk, w1, f);
        OutsideMeaning(all, junk, defs, w1, f, m, pt);
      }
    }
  }

  lemma RegionSized(d: FuncDef, q: seq<int>, w: World)
    requires InRegion(d, q, w)
    ensures |q| == |d.args|
  {}

  lemma OutsideMeaning(all: Callee, junk: Callee, defs: seq<FuncDef>, w: World, f: string, n: nat, q: seq<int>)
    requires IsMeaning(all, junk, defs, w) && forall i :: 0 <= i < |defs| ==> defs[i].name != f
    ensures junk(f, n, q) == all(f, n, q)
  {
    hide Eval, PointWorld;
  }

  lemma MeaningOf(all: Callee, junk: Callee, defs: seq<FuncDef>, w: World, i: nat, n: nat, q: seq<int>)
    requires IsMeaning(all, junk, defs, w) && i < |defs| && |q| == |defs[i].args|
    ensures all(defs[i].name, n, q) == Eval(ValueOf(defs[i], n), PointWorld(defs[i], q, all, w), 0)
  {
    hide Eval, PointWorld;
  }

  /** Computing every Func on its inferred region only, over any memory, gives
      on that region the values of the unrestricted definitions - and the region
      of an output holds all that was asked of it. */
  lemma RegionsSuffice(defs: seq<FuncDef>, required: seq<State>, u: Setup, k: nat, g: Program,
      outer: Callee, junk: Callee, w0: World)
    requires Inferred(defs, required, u, k, g)
    requires forall f, n, q :: (forall i :: 0 <= i < |defs| ==> defs[i].name != f) ==> junk(f, n, q) == outer(f, n, q)
    requires var w1 := After(0, defs, required, u, w0);
             BoundsTrue(u.c.funcBounds, Defined(|defs|, defs, outer, w1), EndsBefore(|defs|, defs), w1)
    ensures var w1 := After(0, defs, required, u, w0);
            forall j, n, q :: 0 <= j < |defs| && InRegion(defs[j], q, w1) ==>
              Computed(|defs|, defs, junk, w1)(defs[j].name, n, q)
                  == Defined(|defs|, defs, outer, w1)(defs[j].name, n, q)
  {
    hide Inferred, Pipeline, Defined, Computed, After, BoundsTrue, EndsBefore, InRegion, SoundOracle,
        Accepted, SetupGood, IsMeaning;
    InferredOracle(defs, required, u, k, g);
    var w1 := After(0, defs, required, u, w0);
    var all := Defined(|defs|, defs, outer, w1);
    MeaningIsDefined(defs, g, outer, junk, w1);
    forall j, n, q | 0 <= j < |defs| && InRegion(defs[j], q, w1)
      ensures Computed(|defs|, defs, junk, w1)(defs[j].name, n, q) == all(defs[j].name, n, q)
    {
      ComputedIsMeaning(|defs|, defs, required, u, k, g, all, junk, w0, j, n, q);
    }
  }

  lemma MeaningIsDefined(defs: seq<FuncDef>, g: Program, outer: Callee, junk: Callee, w: World)
    requires Pipeline(defs, g)
    requires forall f, n, q :: (forall i :: 0 <= i < |defs| ==> defs[i].name != f) ==> junk(f, n, q) == outer(f, n, q)
    ensures IsMeaning(Defined(|defs|, defs, outer, w), junk, defs, w)
  {
    hide Eval, PointWorld, Defined, Pipeline;
    var all := Defined(|defs|, defs, outer, w);
    forall i, n: nat, q | 0 <= i < |defs| && |q| == |defs[i].args|
      ensures all(defs[i].name, n, q) == Eval(ValueOf(defs[i], n), PointWorld(defs[i], q, all, w), 0)
    {
      DefinedAsWritten(i, defs, g, outer, w, n, q);
      assert Fit(q, |defs[i].args|) == q;
    }
    forall f, n, q | forall i :: 0 <= i < |defs| ==> defs[i].name != f ensures junk(f, n, q) == all(f, n, q) {
      DefinedElsewhere(0, |defs|, defs, outer, w, f);
      DefinedNone(defs, outer, w);
    }
  }

  lemma DefinedNone(defs: seq<FuncDef>, outer: Callee, w: World)
    ensures Defined(0, defs, outer, w) == outer
  {}

  // ----- with the bounds that are computed for the Funcs -----

  function AsFunc(d: FuncDef): Func { Func(d.name, d.args, |d.values|, true, Definition(d.values, [])) }

  function AsFuncs(defs: seq<FuncDef>): (r: seq<Func>)
    ensures |r| == |defs| && forall i :: 0 <= i < |defs| ==> r[i] == AsFunc(defs[i])
  {
    seq(|defs|, i requires 0 <= i < |defs| => AsFunc(defs[i]))
  }

  /** The Func bounds are those that compute_function_value_bounds finds. */
  ghost predicate OwnBounds(defs: seq<FuncDef>, u: Setup, g: Program, k: nat) {
    && Below(g.names, k)
    && (forall f :: f in AsFuncs(defs) ==> Defines(f.definition, f.outputs))
    && u.c.funcBounds == WithFuncs(AsFuncs(defs), map[], u.c.oracle, k).0
  }

  lemma DefIsFunc(d: FuncDef, g: Program)
    requires DefOk(d, g)
    ensures FuncOk(AsFunc(d), g.names)
  {
    hide HasTy, Names, ExprOk;
    assert forall v :: v in d.values ==> HasTy(v, IntT) && Names(v) <= g.names;
  }

  lemma DefinedRealizes(i: nat, defs: seq<FuncDef>, g: Program, outer: Callee, w: World)
    requires Pipeline(defs, g) && i < |defs|
    ensures Realizes(Defined(|defs|, defs, outer, w), AsFunc(defs[i]), w)
  {
    hide Eval, Defined, Pipeline;
    var d, all := defs[i], Defined(|defs|, defs, outer, w);
    forall n, q | 0 <= n < |d.values|
      ensures all(d.name, n, q)
              == ValueIn(AsFunc(d).definition, n, BindArgs(d.args, Fit(q, |d.args|), w.(funcs := all)))
    {
      DefinedAsWritten(i, defs, g, outer, w, n, q);
    }
  }

  /** The bounds found for the Funcs hold of the unrestricted definitions. */
  lemma OwnBoundsTrue(defs: seq<FuncDef>, u: Setup, k: nat, g: Program, outer: Callee, w: World)
    requires Pipeline(defs, g) && SoundOracle(u.c.oracle) && OwnBounds(defs, u, g, k)
    ensures BoundsTrue(u.c.funcBounds, Defined(|defs|, defs, outer, w), EndsBefore(|defs|, defs), w)
  {
    hide Pipeline, Defined, SoundOracle, EndsBefore, FuncOk, Realizes, WithFuncs;
    var all, s := Defined(|defs|, defs, outer, w), EndsBefore(|defs|, defs);
    assert s !! g.names && (forall i :: 0 <= i < |defs| ==> DefOk(defs[i], g)) by { PipelineParts(defs, g); }
    forall f | f in AsFuncs(defs) ensures FuncOk(f, g.names) && Realizes(all, f, w) {
      var i :| 0 <= i < |defs| && f == AsFunc(defs[i]);
      DefIsFunc(defs[i], g);
      DefinedRealizes(i, defs, g, outer, w);
    }
    FuncBoundsHold(AsFuncs(defs), map[], u.c.oracle, k, g.names, all, s, w);
  }

  lemma PipelineParts(defs: seq<FuncDef>, g: Program)
    requires Pipeline(defs, g)
    ensures EndsBefore(|defs|, defs) !! g.names && forall i :: 0 <= i < |defs| ==> DefOk(defs[i], g)
  {}

  /** The whole of bounds inference: Func bounds are found first, then regions,
      and computing each Func on its region gives the values of the definitions. */
  lemma PipelineComputed(defs: seq<FuncDef>, required: seq<State>, u: Setup, k0: nat, k: nat, g: Program,
      outer: Callee, junk: Callee, w0: World)
    requires Inferred(defs, required, u, k, g) && OwnBounds(defs, u, g, k0)
    requires forall f, n, q :: (forall i :: 0 <= i < |defs| ==> defs[i].name != f) ==> junk(f, n, q) == outer(f, n, q)
    ensures var w1 := After(0, defs, required, u, w0);
            forall j, n, q :: 0 <= j < |defs| && InRegion(defs[j], q, w1) ==>
              Computed(|defs|, defs, junk, w1)(defs[j].name, n, q)
                  == Defined(|defs|, defs, outer, w1)(defs[j].name, n, q)
  {
    hide Pipeline, Defined, Computed, After, BoundsTrue, EndsBefore, InRegion, SoundOracle, Accepted, OwnBounds;
    OwnBoundsTrue(defs, u, k0, g, outer, After(0, defs, required, u, w0)) by {
      InferredOracle(defs, required, u, k, g);
    }
    RegionsSuffice(defs, required, u, k, g, outer, junk, w0);
  }

  // ----- what is read while computing -----

  /** What is called depends on what calls return only where there are calls. */
  lemma {:induction false} CallsAgree(e: Expr, w: World, w': World, l: nat, f: string, pt: seq<int>)
    requires SameVars(w, w') && AgreeWhereCalled(e, w, w', l) && CallsAt(e, w', l, f, pt)
    ensures CallsAt(e, w, l, f, pt)
    decreases e, 1
  {
    match e
    case Un(op, a) => CallsAgree(a, w, w', if op.Broadcast? then 0 else l, f, pt);
    case Bin(_, a, b) => CallsAgree(if CallsAt(a, w', l, f, pt) then a else b, w, w', l, f, pt);
    case Select(c, a, b) =>
      CallsAgree(if CallsAt(c, w', l, f, pt) then c else if CallsAt(a, w', l, f, pt) then a else b, w, w', l, f, pt);
    case Ramp(a, b, _) => CallsAgree(if CallsAt(a, w', 0, f, pt) then a else b, w, w', 0, f, pt);
    case Let(x, v, b) =>
      if m: nat :| CallsAt(v, w', m, f, pt) {
        CallsAgree(v, w, w', m, f, pt);
      } else {
        forall y: Name, m: nat ensures LetWorld(w, x, v).vars(y, m) == LetWorld(w', x, v).vars(y, m) {
          EvalCallsAgree(v, w, w', m);
        }
        CallsAgree(b, LetWorld(w, x, v), LetWorld(w', x, v), l, f, pt);
      }
    case Call(ct, g, n, args) =>
      if ArgsCallAt(args, w', l, f, pt) { ArgCallsAgree(args, w, w', l, f, pt); }
      else { ArgsCallsAgree(args, w, w', l); }
  }

  lemma {:induction false} ArgCallsAgree(args: seq<Expr>, w: World, w': World, l: nat, f: string, pt: seq<int>)
    requires SameVars(w, w') && ArgsAgreeWhereCalled(args, w, w', l) && ArgsCallAt(args, w', l, f, pt)
    ensures ArgsCallAt(args, w, l, f, pt)
    decreases args, 0
  {
    if CallsAt(args[0], w', l, f, pt) {
      CallsAgree(args[0], w, w', l, f, pt);
    } else {
      ArgCallsAgree(args[1..], w, w', l, f, pt);
    }
  }

  /** Computing Func `i` at a point of its region reads, from memory in which
      the regions of the earlier Funcs have been computed, only their points. */
  lemma ReadsOnlyComputed(i: nat, j: nat, defs: seq<FuncDef>, required: seq<State>, u: Setup, k0: nat, k: nat,
      g: Program, outer: Callee, junk: Callee, w0: World, v: Expr, q: seq<int>, pt: seq<int>)
    requires Inferred(defs, required, u, k, g) && OwnBounds(defs, u, g, k0)
    requires forall f, n, q :: (forall m :: 0 <= m < |defs| ==> defs[m].name != f) ==> junk(f, n, q) == outer(f, n, q)
    requires i < |defs| && j < |defs| && v in defs[i].values
    requires var w1 := After(0, defs, required, u, w0);
             && InRegion(defs[i], q, w1)
             && CallsAt(v, PointWorld(defs[i], q, Computed(i, defs, junk, w1), w1), 0, defs[j].name, pt)
    ensures j < i && InRegion(defs[j], pt, After(0, defs, required, u, w0))
  {
    hide Inferred, Pipeline, Defined, Computed, After, BoundsTrue, EndsBefore, InRegion, SoundOracle, Accepted,
        SetupGood, IsMeaning, OwnBounds, PointWorld, CallsAt, AgreeWhereCalled, SameVars;
    InferredOracle(defs, required, u, k, g);
    RegionSized(defs[i], q, After(0, defs, required, u, w0));
    var w1 := After(0, defs, required, u, w0);
    var all, before := Defined(|defs|, defs, outer, w1), Computed(i, defs, junk, w1);
    OwnBoundsTrue(defs, u, k0, g, outer, w1);
    MeaningIsDefined(defs, g, outer, junk, w1);
    var r, r' := PointWorld(defs[i], q, all, w1), PointWorld(defs[i], q, before, w1);
    assert SameVars(r, r') by { PointVars(defs[i], q, all, before, w1); }
    assert AgreeWhereCalled(v, r, r', 0) by {
      CallsReadMeaning(i, defs, required, u, k, g, all, junk, w0, v, q);
    }
    CallsAgree(v, r, r', 0, defs[j].name, pt);
    CallsStayInside(i, j, defs, required, u, k, g, q, all, w0, v, 0, pt);
  }

  lemma PointVars(d: FuncDef, q: seq<int>, mem: Callee, mem': Callee, w: World)
    requires |q| == |d.args|
    ensures SameVars(PointWorld(d, q, mem, w), PointWorld(d, q, mem', w))
  {
    BindArgsVars(d.args, q, w.(funcs := mem), w.(funcs := mem'));
  }
}
