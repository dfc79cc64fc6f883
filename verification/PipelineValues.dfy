// The two theorems about a pipeline: calls stay inside the regions, and the
// values computed there are those of the definitions.

module PipelineValues {
  import opened Options
  import opened IR
  import opened Intervals
  import opened BoundsRules
  import opened Bounds
  import opened Boxes
  import opened Stmts
  import opened BoxesTouching
  import opened BoxesShape
  import opened BoxesKeep
  import opened BoxesSound
  import opened BoundsInference
  import opened PipelineSound

  // ----- regions do not depend on what Funcs have computed -----

  ghost predicate SameVars(w: World, w': World) {
    w.pures == w'.pures && forall x: Name, m: nat :: w.vars(x, m) == w'.vars(x, m)
  }

  lemma {:induction false} PureSame(e: Expr, w: World, w': World, l: nat)
    requires IsPure(e) && SameVars(w, w')
    ensures Eval(e, w, l) == Eval(e, w', l)
    decreases e, 1
  {
    match e
    case Const(_, _) =>
    case Var(_) =>
    case Un(op, a) => PureSame(a, w, w', if op.Broadcast? then 0 else l);
    case Bin(_, a, b) => PureSame(a, w, w', l); PureSame(b, w, w', l);
    case Select(c, t, f) => PureSame(c, w, w', l); PureSame(t, w, w', l); PureSame(f, w, w', l);
    case Ramp(b, s, _) => PureSame(b, w, w', 0); PureSame(s, w, w', 0);
    case Let(x, v, b) =>
      forall y: Name, m: nat ensures LetWorld(w, x, v).vars(y, m) == LetWorld(w', x, v).vars(y, m) {
        PureSame(v, w, w', m);
      }
      PureSame(b, LetWorld(w, x, v), LetWorld(w', x, v), l);
    case Call(_, _, _, args) => PureArgsSame(args, w, w', l);
  }

  lemma {:induction false} PureArgsSame(args: seq<Expr>, w: World, w': World, l: nat)
    requires AllPure(args) && SameVars(w, w')
    ensures EvalArgs(args, w, l) == EvalArgs(args, w', l)
    decreases args, 0
  {
    if args != [] {
      PureSame(args[0], w, w', l);
      PureArgsSame(args[1..], w, w', l);
    }
  }

  ghost predicate PureInterval(i: Interval) { (i.min.Fin? ==> IsPure(i.min.e)) && (i.max.Fin? ==> IsPure(i.max.e)) }

  ghost predicate PureBox(b: Box) {
    (forall d :: 0 <= d < |b.bounds| ==> PureInterval(b.bounds[d])) && (b.used.Some? ==> IsPure(b.used.value))
  }

  lemma InSame(v: int, i: Interval, w: World, w': World)
    requires PureInterval(i) && SameVars(w, w') && In(v, i, w)
    ensures In(v, i, w')
  {
    hide Eval;
    if i.min.Fin? { PureSame(i.min.e, w, w', 0); }
    if i.max.Fin? { PureSame(i.max.e, w, w', 0); }
  }

  lemma PureExtreme(isMin: bool, x: Expr, y: Expr)
    requires IsPure(x) && IsPure(y)
    ensures IsPure(Extreme(isMin, x, y))
  {}

  lemma MergeEndPure(isMin: bool, a: Box, b: Box, x: Expr, y: Expr)
    requires (a.used.Some? ==> IsPure(a.used.value)) && (b.used.Some? ==> IsPure(b.used.value))
        && IsPure(x) && IsPure(y)
    ensures IsPure(MergeEnd(isMin, a, b, x, y))
  {
    hide Extreme;
    PureExtreme(isMin, x, y);
  }

  lemma MergePure(a: Box, b: Box, o: Oracle)
    requires SoundOracle(o) && PureBox(a) && PureBox(b)
    ensures PureBox(Merge(a, b, o))
  {
    if !a.IsEmpty() && !b.IsEmpty() && |a.bounds| == |b.bounds| {
      forall d | 0 <= d < |a.bounds| ensures PureInterval(MergeDim(a, b, a.bounds[d], b.bounds[d], o)) {
        MergeDimPure(a, b, a.bounds[d], b.bounds[d], o);
      }
      MergeUsedPure(a, b, o);
      hide MergeDim, MergeUsed, SoundOracle;
    }
  }

  lemma MergeDimPure(a: Box, b: Box, i: Interval, j: Interval, o: Oracle)
    requires SoundOracle(o) && PureInterval(i) && PureInterval(j)
    requires (a.used.Some? ==> IsPure(a.used.value)) && (b.used.Some? ==> IsPure(b.used.value))
    ensures PureInterval(MergeDim(a, b, i, j, o))
  {
    hide MergeEnd, IsPure;
    if i.HasLower() && j.HasLower() { MergeEndPure(true, a, b, i.min.e, j.min.e); }
    if i.HasUpper() && j.HasUpper() { MergeEndPure(false, a, b, i.max.e, j.max.e); }
  }

  lemma MergeUsedPure(a: Box, b: Box, o: Oracle)
    requires SoundOracle(o)
    requires (a.used.Some? ==> IsPure(a.used.value)) && (b.used.Some? ==> IsPure(b.used.value))
    ensures MergeUsed(a, b, o).Some? ==> IsPure(MergeUsed(a, b, o).value)
  {
    if a.used.Some? && b.used.Some? { assert IsPure(Bin(Or, a.used.value, b.used.value)); }
  }

  lemma {:induction false} MergeListPure(bs: seq<Box>, from: Box, o: Oracle)
    requires SoundOracle(o) && PureBox(from) && forall b :: b in bs ==> PureBox(b)
    ensures PureBox(MergeList(bs, from, o))
  {
    if bs != [] {
      hide PureBox, Merge, SoundOracle;
      MergePure(from, bs[0], o);
      MergeListPure(bs[1..], Merge(from, bs[0], o), o);
    }
  }

  lemma GoodIsPure(b: Box, n: nat, k: nat, g: Program)
    requires BoxGood(b, n, k, g)
    ensures PureBox(b)
  {
    forall d | 0 <= d < |b.bounds| ensures PureInterval(b.bounds[d]) { assert IvGood(b.bounds[d], IntT, k); }
  }

  lemma RegionPure(j: nat, defs: seq<FuncDef>, required: seq<State>, u: Setup, k: nat, g: Program)
    requires Inferred(defs, required, u, k, g) && j < |defs|
    ensures PureBox(RegionBox(j, defs, required, u))
  {
    hide PureBox, BoxGood, AllRequired, Accepted, SoundOracle, SoundSolver, DefOk, FuncsGood, CallsEarlier, EndsBefore;
    var f := defs[j].name;
    AllRequiredGood(defs, u, k, g);
    AskedAre(j + 1, f, required);
    assert PureBox(EMPTY_BOX) by { NonePure(); }
    forall b | b in Askers(j, defs, required, u) ensures PureBox(b) {
      if b in AskedFrom(j + 1, f, required) {
        var i :| j + 1 <= i < |required| && b == BoxOf(required[i].boxes, f);
        assert StateGood(required[i], u, k, g);
        if f in required[i].boxes { GoodIsPure(b, g.arity(f), required[i].k, g); }
      } else {
        GoodIsPure(b, g.arity(f), k, g);
      }
    }
    MergeListPure(Askers(j, defs, required, u), EMPTY_BOX, u.c.oracle);
  }

  lemma NonePure()
    ensures PureBox(EMPTY_BOX)
  {}

  // ----- a called point lies in the region, whatever its ends -----

  lemma AskedPointAlwaysIn(j: nat, defs: seq<FuncDef>, required: seq<State>, u: Setup, k: nat, g: Program,
                           b: Box, e: nat, v: int, w: World)
    requires Inferred(defs, required, u, k, g) && j < |defs| && b in Askers(j, defs, required, u) && InDim(b, e, v, w)
    ensures e < |defs[j].args| == |RegionBox(j, defs, required, u).bounds|
        && In(v, RegionBox(j, defs, required, u).bounds[e], w)
  {
    hide In, Inferred, MergeList, Askers, AllBounded;
    AskersMergeable(j, defs, required, u, k, g);
    InferredOracle(defs, required, u, k, g);
    MergeListKeeps(Askers(j, defs, required, u), EMPTY_BOX, u.c.oracle, |defs[j].args|, e, v, w);
  }

  lemma InferredOracle(defs: seq<FuncDef>, required: seq<State>, u: Setup, k: nat, g: Program)
    requires Inferred(defs, required, u, k, g)
    ensures SoundOracle(u.c.oracle) && SetupGood(u, k, g) && Pipeline(defs, g) && required == AllRequired(defs, u, k)
    ensures Accepted(defs, required, u)
  {}

  /** Func `i`, run in the world `r`, calls Func `j` at `q`. */
  lemma CalledPointAlwaysIn(i: nat, j: nat, defs: seq<FuncDef>, required: seq<State>, u: Setup, k: nat, g: Program,
                            v: Expr, r: World, l: nat, q: seq<int>, wj: World)
    requires Inferred(defs, required, u, k, g) && j < i < |defs| && v in defs[i].values
    requires forall w: World :: SameBut(EndsOf(defs[j]), wj, w) ==> Computes(defs[i], u, g, r, w.(funcs := r.funcs))
    requires CallsAt(v, r, l, defs[j].name, q)
    ensures |q| == |defs[j].args| == |RegionBox(j, defs, required, u).bounds|
    ensures AlwaysIn(defs[j], RegionBox(j, defs, required, u), q, wj)
  {
    InferredParts(defs, required, u, k, g, i);
    InferredParts(defs, required, u, k, g, j);
    CallsArity(v, g.arity, r, l, defs[j].name, q);
    RegionPure(j, defs, required, u, k, g);
    var b, f := RegionBox(j, defs, required, u), defs[j].name;
    hide Inferred, Computes, CallsAt, In, EndsOf, PureInterval, RegionBox, SameBut, Accepted;
    SameAsItself(EndsOf(defs[j]), wj);
    if |q| > 0 {
      CalledIn(i, j, defs, required, u, k, g, v, r, l, q, 0, wj);
    } else {
      NoDimensions(j, defs, required, u, k, g);
    }
    forall e: nat, w: World | e < |q| && SameBut(EndsOf(defs[j]), wj, w) ensures In(q[e], b.bounds[e], w) {
      CalledIn(i, j, defs, required, u, k, g, v, r, l, q, e, w);
      InSame(q[e], b.bounds[e], w.(funcs := r.funcs), w);
    }
  }

  /** The region of a Func of no dimensions is one point. */
  lemma NoDimensions(j: nat, defs: seq<FuncDef>, required: seq<State>, u: Setup, k: nat, g: Program)
    requires Inferred(defs, required, u, k, g) && j < |defs| && |defs[j].args| == 0
    ensures RegionBox(j, defs, required, u).bounds == []
  {
    hide Inferred, RegionBox;
    AskersMergeable(j, defs, required, u, k, g);
  }

  lemma SameAsItself(s: set<Name>, w: World)
    ensures SameBut(s, w, w)
  {}

  lemma CalledIn(i: nat, j: nat, defs: seq<FuncDef>, required: seq<State>, u: Setup, k: nat, g: Program,
                 v: Expr, r: World, l: nat, q: seq<int>, e: nat, w: World)
    requires Inferred(defs, required, u, k, g) && j < i < |defs| && v in defs[i].values
    requires Computes(defs[i], u, g, r, w.(funcs := r.funcs)) && CallsAt(v, r, l, defs[j].name, q) && e < |q|
    ensures var b := RegionBox(j, defs, required, u);
            e < |defs[j].args| == |b.bounds| && In(q[e], b.bounds[e], w.(funcs := r.funcs))
  {
    InferredOracle(defs, required, u, k, g);
    InferredParts(defs, required, u, k, g, i);
    var f, w' := defs[j].name, w.(funcs := r.funcs);
    assert forall x :: 0 <= x < |defs| ==> DefOk(defs[x], g);
    hide Inferred, Computes, CallsAt, In, AllRequired, RegionBox, DefOk, SetupGood, Pipeline, Accepted, AskedFrom;
    AllRequiredCovers(defs, u, k, g, i, v, r, w', l, f, q, e);
    AskedHas(j + 1, f, required, i);
    AskedPointAlwaysIn(j, defs, required, u, k, g, required[i].boxes[f], e, q[e], w');
  }

  // ----- the worlds around the computation -----

  /** The world inside the lets of Funcs j and later. */
  function After(j: nat, defs: seq<FuncDef>, required: seq<State>, u: Setup, w: World): World
    requires j <= |defs| == |required|
  {
    Run(LetsFrom(j, defs, required, u), w)
  }

  lemma AfterStep(j: nat, defs: seq<FuncDef>, required: seq<State>, u: Setup, w: World)
    requires j < |defs| == |required|
    ensures After(j, defs, required, u, w)
            == Run(DefineBounds(defs[j], RegionBox(j, defs, required, u)), After(j + 1, defs, required, u, w))
  {
    hide RegionBox, DefineBounds;
    RunAppend(LetsFrom(j + 1, defs, required, u), DefineBounds(defs[j], RegionBox(j, defs, required, u)), w);
  }

  lemma {:induction false} RunSameBut(lets: LetList, s: set<Name>, w: World)
    requires forall p :: p in lets ==> p.0 in s
    ensures SameBut(s, w, Run(lets, w))
    decreases |lets|
  {
    if lets != [] {
      hide Eval;
      assert lets[0] in lets;
      LetSameBut(w, lets[0].0, lets[0].1, s);
      RunSameBut(lets[1..], s, LetWorld(w, lets[0].0, lets[0].1));
    }
  }

  lemma {:induction false} LetsOfNames(d: FuncDef, b: Box, n: nat)
    requires n <= |d.args| == |b.bounds| && AllBounded(b)
    ensures forall p :: p in LetsOf(d, b, n) ==> p.0 in EndsOf(d)
  {
    if n > 0 {
      InEnds(d, d.args[n - 1]);
      LetsOfNames(d, b, n - 1);
    }
  }

  lemma DefineSameBut(d: FuncDef, b: Box, w: World)
    ensures SameBut(EndsOf(d), w, Run(DefineBounds(d, b), w))
  {
    hide EndsOf, LetsOf;
    if !b.IsEmpty() && |b.bounds| == |d.args| && AllBounded(b) { LetsOfNames(d, b, |d.args|); }
    RunSameBut(DefineBounds(d, b), EndsOf(d), w);
  }

  /** Inner lets change only the ends of earlier Funcs' regions. */
  lemma {:induction false} AfterSame(j: nat, defs: seq<FuncDef>, required: seq<State>, u: Setup, w: World)
    requires j <= |defs| == |required|
    ensures SameBut(EndsBefore(j, defs), After(j, defs, required, u, w), After(0, defs, required, u, w))
  {
    hide After, EndsOf, DefineBounds, RegionBox;
    if j > 0 {
      AfterStep(j - 1, defs, required, u, w);
      var w1 := After(j, defs, required, u, w);
      DefineSameBut(defs[j - 1], RegionBox(j - 1, defs, required, u), w1);
      AfterSame(j - 1, defs, required, u, w);
      SameButTrans(EndsOf(defs[j - 1]), EndsBefore(j - 1, defs), w1, After(j - 1, defs, required, u, w),
          After(0, defs, required, u, w));
      assert EndsOf(defs[j - 1]) + EndsBefore(j - 1, defs) == EndsBefore(j, defs);
    } else {
      SameAsItself({}, After(0, defs, required, u, w));
    }
  }

  lemma {:induction false} InEndsBefore(y: Name, j: nat, defs: seq<FuncDef>)
    requires j <= |defs|
    ensures y in EndsBefore(j, defs) <==> exists i :: 0 <= i < j && y in EndsOf(defs[i])
  {
    hide EndsOf;
    if j > 0 { InEndsBefore(y, j - 1, defs); }
  }

  /** The ends of a later region are none of the earlier ones'. */
  lemma LaterEnds(i: nat, j: nat, defs: seq<FuncDef>, g: Program, x: Name, end: string)
    requires Pipeline(defs, g) && j <= i < |defs| && x in defs[i].args && (end == ".min" || end == ".max")
    ensures EndName(defs[i].name, x, end) !in EndsBefore(j, defs)
  {
    hide DefOk, CallsEarlier;
    var y := EndName(defs[i].name, x, end);
    InEndsBefore(y, j, defs);
    if m :| 0 <= m < j && y in EndsOf(defs[m]) {
      var x', e' :| x' in defs[m].args && e' in {".min", ".max"} && y == EndName(defs[m].name, x', e');
      EndNamesDiffer(defs[i].name, x, end, defs[m].name, x', e');
    }
  }

  // ----- computing a Func -----

  /** The region of a Func: every coordinate is between the ends' values. */
  ghost predicate InRegion(d: FuncDef, q: seq<int>, w: World) {
    |q| == |d.args| && forall e: nat :: e < |q| ==> Between(d, e, q[e], w)
  }

  function BindArgs(args: seq<Name>, q: seq<int>, w: World): World
    requires |args| == |q|
    decreases |args|
  {
    if args == [] then w else Bind(BindArgs(args[1..], q[1..], w), args[0], (m: nat) => q[0])
  }

  /** The world in which a Func is computed at `q` while memory holds `mem`. */
  function PointWorld(d: FuncDef, q: seq<int>, mem: Callee, w: World): World
    requires |q| == |d.args|
  {
    BindArgs(d.args, q, w.(funcs := mem))
  }

  lemma {:induction false} BindArgsMeaning(args: seq<Name>, q: seq<int>, w: World)
    requires |args| == |q| && (forall i, j :: 0 <= i < j < |args| ==> args[i] != args[j])
    ensures forall e: nat, l: nat :: e < |args| ==> BindArgs(args, q, w).vars(args[e], l) == q[e]
    ensures SameBut((set x | x in args), w, BindArgs(args, q, w))
    decreases |args|
  {
    if args != [] { BindArgsMeaning(args[1..], q[1..], w); }
  }

  lemma ArgsDiffer(d: FuncDef, g: Program)
    requires DefOk(d, g)
    ensures forall i, j :: 0 <= i < j < |d.args| ==> d.args[i] != d.args[j]
  {
    hide HasTy, ExprOk, Names;
    forall i, j | 0 <= i < j < |d.args| ensures d.args[i] != d.args[j] { assert d.args[i].base != d.args[j].base; }
  }

  /** The known bounds of Funcs hold of the values `mem`, in every world that
      differs from `w` only in names of `s` and in what Funcs have computed. */
  ghost predicate BoundsTrue(fb: FuncBounds, mem: Callee, s: set<Name>, w: World) {
    forall v: World, key: (string, nat), args: seq<int> ::
      key in fb && v.funcs == mem && SameBut(s, w.(funcs := mem), v) ==>
      In(mem(key.0, key.1, args), fb[key], v)
  }

  /** A Func computed at a point of its region runs as bounds inference assumed,
      whatever the ends of earlier regions are. */
  lemma PointComputes(i: nat, defs: seq<FuncDef>, required: seq<State>, u: Setup, k: nat, g: Program, q: seq<int>,
      mem: Callee, w1: World, v: World)
    requires Inferred(defs, required, u, k, g) && i < |defs| && InRegion(defs[i], q, w1)
    requires BoundsTrue(u.c.funcBounds, mem, EndsBefore(|defs|, defs), w1)
    requires SameBut(EndsBefore(i, defs), w1.(funcs := mem), v)
    ensures Computes(defs[i], u, g, PointWorld(defs[i], q, mem, w1), v)
  {
    var d := defs[i];
    var r := PointWorld(d, q, mem, w1);
    InferredParts(defs, required, u, k, g, i);
    InferredOracle(defs, required, u, k, g);
    ArgsDiffer(d, g);
    BindArgsMeaning(d.args, q, w1.(funcs := mem));
    PointCovers(i, defs, g, q, mem, w1, v);
    PointAgrees(i, defs, g, q, mem, w1, v);
    EndsGrow(i, |defs|, defs);
    hide Inferred, Pipeline, Accepted, DefOk, BindArgs, Covers, AgreeOutside, In, EndsBefore, SetupGood;
    assert SameBut(EndsBefore(|defs|, defs), w1.(funcs := mem), v);
    forall f: string, n: nat, args: seq<int> | (f, n) in u.c.funcBounds
        ensures In(r.funcs(f, n, args), u.c.funcBounds[(f, n)], v) {
      assert In(mem((f, n).0, (f, n).1, args), u.c.funcBounds[(f, n)], v);
    }
  }

  lemma {:induction false} EndsGrow(i: nat, j: nat, defs: seq<FuncDef>)
    requires i <= j <= |defs|
    ensures EndsBefore(i, defs) <= EndsBefore(j, defs)
    decreases j
  {
    if i < j { EndsGrow(i, j - 1, defs); }
  }

  lemma PointCovers(i: nat, defs: seq<FuncDef>, g: Program, q: seq<int>, mem: Callee, w1: World, v: World)
    requires Pipeline(defs, g) && i < |defs| && InRegion(defs[i], q, w1)
    requires SameBut(EndsBefore(i, defs), w1.(funcs := mem), v)
    ensures Covers(RangeScope(defs[i]), PointWorld(defs[i], q, mem, w1), v)
  {
    var d := defs[i];
    var r := PointWorld(d, q, mem, w1);
    ArgsDiffer(d, g);
    BindArgsMeaning(d.args, q, w1.(funcs := mem));
    forall x: Name, l: nat | x in RangeScope(d) ensures In(Lookup(r, x, l), RangeScope(d)[x], v) {
      var e :| 0 <= e < |d.args| && d.args[e] == x;
      assert Between(d, e, q[e], w1);
      LaterEnds(i, i, defs, g, x, ".min");
      LaterEnds(i, i, defs, g, x, ".max");
      ArgIsScalar(d, e, g);
      EndLookup(d.name, x, w1, v);
    }
  }

  lemma ArgIsScalar(d: FuncDef, e: nat, g: Program)
    requires DefOk(d, g) && e < |d.args|
    ensures !d.args[e].vec && d.args[e].ty.IntT? && d.args[e] in g.names
  {
    hide HasTy, ExprOk, Names;
    assert d.args[e] in d.args;
  }

  lemma EndLookup(f: string, x: Name, w: World, v: World)
    requires forall m: nat ::
        w.vars(MinVar(f, x), m) == v.vars(MinVar(f, x), m)
        && w.vars(MaxVar(f, x), m) == v.vars(MaxVar(f, x), m)
    ensures Eval(Var(MinVar(f, x)), v, 0) == Lookup(w, MinVar(f, x), 0)
        && Eval(Var(MaxVar(f, x)), v, 0) == Lookup(w, MaxVar(f, x), 0)
  {
    assert w.vars(MinVar(f, x), 0) == v.vars(MinVar(f, x), 0);
    assert w.vars(MaxVar(f, x), 0) == v.vars(MaxVar(f, x), 0);
  }

  lemma PointAgrees(i: nat, defs: seq<FuncDef>, g: Program, q: seq<int>, mem: Callee, w1: World, v: World)
    requires Pipeline(defs, g) && i < |defs| && |q| == |defs[i].args|
    requires SameBut(EndsBefore(i, defs), w1.(funcs := mem), v)
    ensures AgreeOutside(g.names, RangeScope(defs[i]), PointWorld(defs[i], q, mem, w1), v)
  {
    hide EndsBefore, CallsEarlier;
    var d := defs[i];
    ArgsDiffer(d, g);
    BindArgsMeaning(d.args, q, w1.(funcs := mem));
    EndsGrow(i, |defs|, defs);
  }
}
