// A whole list of split, fuse and rename directives: the resulting loops
// store each original point exactly once.

module SplitNests {
  import opened Arith
  import opened IR
  import opened Intervals
  import opened BoundsRules
  import opened Splits
  import opened SplitPoints
  import opened SplitRuns

  // ----- what the directives must respect -----

  /** The names a directive introduces. */
  function NewNames(s: Split): set<string> {
    match s
    case SplitVar(_, outer, inner, _, _) => {outer, inner}
    case FuseVars(x, _, _) => {x}
    case RenameVar(_, outer) => {outer}
  }

  /** Each directive is about existing loops and introduces names never used
      before; factors are positive parameters. `all` holds every loop so far. */
  ghost predicate Valid(ss: seq<Split>, align: Alignment, o: Oracle, w0: World, dims: Dims, all: Dims) {
    ss != [] ==>
      var s, how := ss[0], HowOf(ss[0], align, o);
      && Introduces(s, how, w0, dims, all)
      && (var step := StepOf(s, how, w0);
          Valid(ss[1..], AlignAfter(s, align, o), o, w0, DimsAfter(step, dims), AllAfter(step, dims, all)))
  }

  ghost predicate Introduces(s: Split, how: How, w0: World, dims: Dims, all: Dims) {
    && (s.SplitVar? ==> IsParam(s.factor) && Eval(s.factor, w0, 0) > 0)
    && Fits(StepOf(s, how, w0), dims)
    && (forall d :: d in NewNames(s) ==> d !in all && Plain(d))
  }

  /** Every loop so far, with the new ones. */
  function AllAfter(step: Step, dims: Dims, all: Dims): Dims
    requires Fits(step, dims)
  {
    all + DimsAfter(step, dims)
  }

  /** The kind of each split, in order. */
  function Hows(ss: seq<Split>, align: Alignment, o: Oracle): (r: seq<How>)
    ensures |r| == |ss|
  {
    if ss == [] then [] else [HowOf(ss[0], align, o)] + Hows(ss[1..], AlignAfter(ss[0], align, o), o)
  }

  function Steps(ss: seq<Split>, align: Alignment, o: Oracle, w0: World): (r: seq<Step>)
    ensures |r| == |ss|
  {
    if ss == [] then []
    else [StepOf(ss[0], HowOf(ss[0], align, o), w0)]
         + Steps(ss[1..], AlignAfter(ss[0], align, o), o, w0)
  }

  /** Every loop there is in the end or on the way. */
  function AllLoops(steps: seq<Step>, dims: Dims, all: Dims): Dims
    requires AllFit(steps, dims)
  {
    if steps == [] then all else AllLoops(steps[1..], DimsAfter(steps[0], dims), AllAfter(steps[0], dims, all))
  }

  lemma {:induction false} ValidFits(ss: seq<Split>, align: Alignment, o: Oracle, w0: World, dims: Dims, all: Dims)
    requires Valid(ss, align, o, w0, dims, all)
    ensures AllFit(Steps(ss, align, o, w0), dims)
  {
    if ss != [] {
      var step := StepOf(ss[0], HowOf(ss[0], align, o), w0);
      ValidFits(ss[1..], AlignAfter(ss[0], align, o), o, w0, DimsAfter(step, dims), AllAfter(step, dims, all));
    }
  }

  /** The loops so far stay known, with their ranges. */
  lemma StepWithin(s: Split, how: How, w0: World, dims: Dims, all: Dims)
    requires Introduces(s, how, w0, dims, all) && Within(dims, all) && AllPlain(all)
    ensures var step := StepOf(s, how, w0);
            var dims1, all1 := DimsAfter(step, dims), AllAfter(step, dims, all);
            Within(dims1, all1) && Within(all, all1) && Within(dims, all1) && AllPlain(all1)
  {
    hide Plain, Eval;
    var step := StepOf(s, how, w0);
    forall d | d in DimsAfter(step, dims) ensures (d in dims && DimsAfter(step, dims)[d] == dims[d])
        || d in NewNames(s) {}
  }

  lemma {:induction false} AllLoopsWithin(ss: seq<Split>, align: Alignment, o: Oracle, w0: World, dims: Dims, all: Dims)
    requires Valid(ss, align, o, w0, dims, all) && Within(dims, all) && AllPlain(all)
    ensures var steps := Steps(ss, align, o, w0);
            AllFit(steps, dims) && Within(all, AllLoops(steps, dims, all)) && AllPlain(AllLoops(steps, dims, all))
            && Within(DimsAfterAll(steps, dims), AllLoops(steps, dims, all))
  {
    hide Plain, Introduces;
    ValidFits(ss, align, o, w0, dims, all);
    if ss != [] {
      var how := HowOf(ss[0], align, o);
      var step := StepOf(ss[0], how, w0);
      StepWithin(ss[0], how, w0, dims, all);
      AllLoopsWithin(ss[1..], AlignAfter(ss[0], align, o), o, w0, DimsAfter(step, dims), AllAfter(step, dims, all));
    }
  }

  // ----- known alignments divide the extents -----

  ghost predicate AlignHolds(align: Alignment, w0: World, all: Dims) {
    && align.Keys <= all.Keys
    && forall d :: d in align ==>
         IsParam(align[d]) && Eval(align[d], w0, 0) > 0 && all[d].extent % Eval(align[d], w0, 0) == 0
  }

  lemma FactorDivides(s: Split, align: Alignment, o: Oracle, w0: World, all: Dims)
    requires s.SplitVar? && SoundOracle(o) && AlignHolds(align, w0, all) && Eval(s.factor, w0, 0) > 0
        && s.oldVar in all && s.oldVar != s.inner
    ensures Divides(s.factor, align[s.inner := s.factor], s.oldVar, o) ==>
      Eval(align[s.oldVar], w0, 0) % Eval(s.factor, w0, 0) == 0 && all[s.oldVar].extent % Eval(s.factor, w0, 0) == 0
    ensures HowOf(s, align, o).Exactly? ==> all[s.oldVar].extent % Eval(s.factor, w0, 0) == 0
  {
    var f := Eval(s.factor, w0, 0);
    if Divides(s.factor, align[s.inner := s.factor], s.oldVar, o) {
      var e := Bin(Mod, align[s.oldVar], s.factor);
      assert Eval(o.simp(e), w0, 0) == Eval(e, w0, 0);
      EvalBinIs(Mod, align[s.oldVar], s.factor, w0);
      EvalConstExpr(o.simp(e), w0);
      hide Eval, SoundOracle;
      DividesThrough(all[s.oldVar].extent, Eval(align[s.oldVar], w0, 0), f);
    } else if s.factor.Const? {
      EvalConstExpr(s.factor, w0);
      hide Eval, SoundOracle;
      if f == 1 { DivMod(all[s.oldVar].extent, 1, all[s.oldVar].extent, 0); }
    }
  }

  lemma DividesThrough(n: int, a: int, f: int)
    requires f > 0 && a > 0 && a % f == 0 && n % a == 0
    ensures n % f == 0 && a / f > 0 && n / f == (n / a) * (a / f)
  {
    Euclid(a, f);
    Euclid(n, a);
    var k, m := n / a, a / f;
    assert n == (k * m) * f by { assert k * (m * f) == (k * m) * f; }
    DivMod(n, f, k * m, 0);
    if m <= 0 { MulLe(m, 0, f); }
  }

  lemma MultipleMod(k: int, m: int)
    requires m > 0
    ensures (k * m) % m == 0
  {
    DivMod(k * m, m, k, 0);
  }

  /** The outer loop of a dividing split is aligned to what is left of the alignment. */
  lemma OuterAligned(r: Range, a: int, f: int)
    requires f > 0 && a > 0 && a % f == 0 && r.extent % a == 0
    ensures Trips(r, f) % (a / f) == 0 && a / f > 0
  {
    DividesThrough(r.extent, a, f);
    WholeTrips(r, f);
    Euclid(r.extent, f);
    SameQuotient(f, Trips(r, f), 0, r.extent / f, 0);
    MultipleMod(r.extent / a, a / f);
  }

  lemma AlignmentKept(s: Split, align: Alignment, o: Oracle, w0: World, dims: Dims, all: Dims)
    requires SoundOracle(o) && AlignHolds(align, w0, all) && Within(dims, all)
        && Introduces(s, HowOf(s, align, o), w0, dims, all)
    ensures var step := StepOf(s, HowOf(s, align, o), w0);
            AlignHolds(AlignAfter(s, align, o), w0, AllAfter(step, dims, all))
  {
    hide Plain, Eval, SoundOracle, IsParam;
    var step := StepOf(s, HowOf(s, align, o), w0);
    forall d | d in align ensures d in AllAfter(step, dims, all) && AllAfter(step, dims, all)[d] == all[d] {
      KeptRange(s, HowOf(s, align, o), w0, dims, all, d);
    }
    if s.SplitVar? { SplitAligned(s, align, o, w0, dims, all); }
    if s.FuseVars? && s.inner in align && s.outer in align { FuseAligned(s, align, o, w0, dims, all); }
  }

  lemma SplitAligned(s: Split, align: Alignment, o: Oracle, w0: World, dims: Dims, all: Dims)
    requires s.SplitVar? && SoundOracle(o) && AlignHolds(align, w0, all) && Within(dims, all)
        && Introduces(s, HowOf(s, align, o), w0, dims, all)
    ensures
      var all1 := AllAfter(StepOf(s, HowOf(s, align, o), w0), dims, all);
      var f := Eval(s.factor, w0, 0);
      && s.inner in all1 && s.outer in all1 && all1[s.inner].extent % f == 0
      && (Divides(s.factor, align[s.inner := s.factor], s.oldVar, o) ==>
            var e := Bin(Div, align[s.oldVar], s.factor);
            IsParam(e) && Eval(e, w0, 0) > 0 && all1[s.outer].extent % Eval(e, w0, 0) == 0)
  {
    var f := Eval(s.factor, w0, 0);
    FactorDivides(s, align, o, w0, all);
    MultipleMod(1, f);
    if Divides(s.factor, align[s.inner := s.factor], s.oldVar, o) {
      var a := align[s.oldVar];
      EvalBinIs(Div, a, s.factor, w0);
      ParamBin(Div, a, s.factor);
      hide Eval, SoundOracle, Divides, IsParam, Plain;
      OuterAligned(all[s.oldVar], Eval(a, w0, 0), f);
    }
  }

  lemma ParamBin(op: BinOp, a: Expr, b: Expr)
    requires IsParam(a) && IsParam(b) && IsArith(op)
    ensures IsParam(Bin(op, a, b))
  {}

  lemma FuseAligned(s: Split, align: Alignment, o: Oracle, w0: World, dims: Dims, all: Dims)
    requires s.FuseVars? && AlignHolds(align, w0, all) && Within(dims, all)
        && Introduces(s, HowOf(s, align, o), w0, dims, all)
    requires s.inner in align && s.outer in align
    ensures
      var all1 := AllAfter(StepOf(s, HowOf(s, align, o), w0), dims, all);
      var e := Bin(Mul, align[s.inner], align[s.outer]);
      s.oldVar in all1 && IsParam(e) && Eval(e, w0, 0) > 0 && all1[s.oldVar].extent % Eval(e, w0, 0) == 0
  {
    hide Eval, IsParam, Plain;
    var a, b := align[s.inner], align[s.outer];
    EvalBinIs(Mul, a, b, w0);
    ParamBin(Mul, a, b);
    ProductAligned(all[s.inner].extent, all[s.outer].extent, Eval(a, w0, 0), Eval(b, w0, 0));
  }

  lemma KeptRange(s: Split, how: How, w0: World, dims: Dims, all: Dims, d: string)
    requires Introduces(s, how, w0, dims, all) && Within(dims, all) && d in all
    ensures var all1 := AllAfter(StepOf(s, how, w0), dims, all); d in all1 && all1[d] == all[d]
  {
    hide Plain, Eval;
  }

  lemma ProductAligned(m: nat, n: nat, a: int, b: int)
    requires a > 0 && b > 0 && m % a == 0 && n % b == 0
    ensures a * b > 0 && (m * n) % (a * b) == 0
  {
    Euclid(m, a);
    Euclid(n, b);
    var k, l := m / a, n / b;
    assert m * n == (k * l) * (a * b) by { Rearrange(k, a, l, b); }
    MulLe(1, a, b);
    MultipleMod(k * l, a * b);
  }

  lemma Rearrange(k: int, a: int, l: int, b: int)
    ensures (k * a) * (l * b) == (k * l) * (a * b)
  {
    assert (k * a) * (l * b) == k * (a * l) * b;
    assert k * (l * a) * b == (k * l) * (a * b);
  }

  /** No tail that may store a point twice or beyond the range. */
  predicate ExactTails(hows: seq<How>) { forall k :: 0 <= k < |hows| ==> StoresOnce(hows[k]) }

  lemma ExactTail(ss: seq<Split>, align: Alignment, o: Oracle)
    requires ss != [] && ExactTails(Hows(ss, align, o))
    ensures StoresOnce(HowOf(ss[0], align, o)) && ExactTails(Hows(ss[1..], AlignAfter(ss[0], align, o), o))
  {
    hide HowOf, StoresOnce, AlignAfter;
    var hows, rest := Hows(ss, align, o), Hows(ss[1..], AlignAfter(ss[0], align, o), o);
    assert StoresOnce(hows[0]);
    forall k | 0 <= k < |rest| ensures StoresOnce(rest[k]) { assert StoresOnce(hows[k + 1]); }
  }

  lemma {:induction false} AllStepsExact(ss: seq<Split>, align: Alignment, o: Oracle, w0: World, dims: Dims, all: Dims)
    requires SoundOracle(o) && AlignHolds(align, w0, all) && Within(dims, all) && AllPlain(all)
    requires Valid(ss, align, o, w0, dims, all) && ExactTails(Hows(ss, align, o))
    ensures AllFit(Steps(ss, align, o, w0), dims) && AllExact(Steps(ss, align, o, w0), dims)
  {
    hide Plain, SoundOracle, AlignHolds, AlignAfter, AllAfter, ExactTails, HowOf, IsParam, Eval, DimsAfter;
    ValidFits(ss, align, o, w0, dims, all);
    if ss != [] {
      var s, how := ss[0], HowOf(ss[0], align, o);
      var step := StepOf(s, how, w0);
      ExactTail(ss, align, o);
      if s.SplitVar? { FactorDividesDims(s, align, o, w0, dims, all); }
      AlignmentKept(s, align, o, w0, dims, all);
      StepWithin(s, how, w0, dims, all);
      AllStepsExact(ss[1..], AlignAfter(s, align, o), o, w0, DimsAfter(step, dims), AllAfter(step, dims, all));
    }
  }

  lemma FactorDividesDims(s: Split, align: Alignment, o: Oracle, w0: World, dims: Dims, all: Dims)
    requires s.SplitVar? && SoundOracle(o) && AlignHolds(align, w0, all) && Within(dims, all)
    requires Introduces(s, HowOf(s, align, o), w0, dims, all)
    ensures HowOf(s, align, o).Exactly? ==> dims[s.oldVar].extent % Eval(s.factor, w0, 0) == 0
  {
    FactorDivides(s, align, o, w0, all);
  }

  // ----- the bounds of the new loops -----

  /** The lets for the bounds of all new loops, the first directive's outermost. */
  function RunBounds(ss: seq<Split>, p: string, w: World): World {
    if ss == [] then w else RunBounds(ss[1..], p, RunLets(LoopBounds(ss[0], p), w))
  }

  lemma RunLastLet(lets: seq<(string, Expr)>, x: string, e: Expr, w: World)
    ensures RunLets(lets + [(x, e)], w) == RunLets(lets, Set(w, x, Eval(e, w, 0)))
  {
    var r := lets + [(x, e)];
    assert r[..|r| - 1] == lets && r[|r| - 1] == (x, e);
  }

  /** Three lets that define the bounds of one loop, from expressions that they do not change. */
  lemma DefineBounds(lets: seq<(string, Expr)>, p: string, x: string, lo: Expr, hi: Expr, n: Expr, w: World,
      w0: World, r: Range, all: Dims)
    requires Sane(w, w0) && BoundsAt(w, p, all) && AllPlain(all) && x !in all && Plain(x)
    requires Steady(lo, r.min, p, x, w) && Steady(hi, r.Max(), p, x, w) && Steady(n, r.extent, p, x, w)
    ensures
      var w1 := Set(Set(Set(w, p + x + ".loop_extent", r.extent), p + x + ".loop_max", r.Max()),
          p + x + ".loop_min", r.min);
      && RunLets(lets + [(p + x + ".loop_min", lo), (p + x + ".loop_max", hi), (p + x + ".loop_extent", n)], w)
          == RunLets(lets, w1)
      && Sane(w1, w0) && BoundsAt(w1, p, all[x := r])
  {
    hide Eval, Get, Set, Plain, BoundsAt, Sane, LoopsAt;
    var a, b, c := (p + x + ".loop_min", lo), (p + x + ".loop_max", hi), (p + x + ".loop_extent", n);
    assert lets + [a, b, c] == lets + [a, b] + [c] && lets + [a, b] == lets + [a] + [b];
    var w1 := Set(w, p + x + ".loop_extent", r.extent);
    var w2 := Set(w1, p + x + ".loop_max", r.Max());
    RunLastLet(lets + [a, b], c.0, n, w);
    RunLastLet(lets + [a], b.0, hi, w1);
    RunLastLet(lets, a.0, lo, w2);
    SetSane(w, w0, p + x + ".loop_extent", r.extent);
    SetSane(w1, w0, p + x + ".loop_max", r.Max());
    SetSane(w2, w0, p + x + ".loop_min", r.min);
    NewBounds(p, x, w, r, all);
  }

  /** The expression has this value, whatever the bounds of `x` are. */
  ghost predicate Steady(e: Expr, v: int, p: string, x: string, w: World) {
    && Eval(e, w, 0) == v
    && (forall a: int :: Eval(e, Set(w, p + x + ".loop_extent", a), 0) == v)
    && (forall a: int, b: int :: Eval(e, Set(Set(w, p + x + ".loop_extent", a), p + x + ".loop_max", b), 0) == v)
  }

  lemma NewBounds(p: string, x: string, w: World, r: Range, all: Dims)
    requires BoundsAt(w, p, all) && AllPlain(all) && x !in all && Plain(x)
    ensures BoundsAt(Set(Set(Set(w, p + x + ".loop_extent", r.extent), p + x + ".loop_max", r.Max()),
        p + x + ".loop_min", r.min), p, all[x := r])
  {
    hide Get, Set, Plain;
    var w1 := Set(w, p + x + ".loop_extent", r.extent);
    var w2 := Set(w1, p + x + ".loop_max", r.Max());
    var w3 := Set(w2, p + x + ".loop_min", r.min);
    forall d | d in all[x := r]
      ensures Get(w3, p + d + ".loop_min") == all[x := r][d].min
      ensures Get(w3, p + d + ".loop_max") == all[x := r][d].Max()
      ensures Get(w3, p + d + ".loop_extent") == all[x := r][d].extent
    {
      BoundAfter(w, p, x, ".loop_extent", r.extent, d, ".loop_min");
      BoundAfter(w, p, x, ".loop_extent", r.extent, d, ".loop_max");
      BoundAfter(w, p, x, ".loop_extent", r.extent, d, ".loop_extent");
      BoundAfter(w1, p, x, ".loop_max", r.Max(), d, ".loop_min");
      BoundAfter(w1, p, x, ".loop_max", r.Max(), d, ".loop_max");
      BoundAfter(w1, p, x, ".loop_max", r.Max(), d, ".loop_extent");
      BoundAfter(w2, p, x, ".loop_min", r.min, d, ".loop_min");
      BoundAfter(w2, p, x, ".loop_min", r.min, d, ".loop_max");
      BoundAfter(w2, p, x, ".loop_min", r.min, d, ".loop_extent");
    }
  }

  lemma BoundAfter(w: World, p: string, x: string, s: string, v: int, d: string, t: string)
    requires Plain(x) && Plain(d) && IsSuffix(s) && IsSuffix(t)
    ensures Get(Set(w, p + x + s, v), p + d + t) == if x == d && s == t then v else Get(w, p + d + t)
  {
    if x == d && s == t { GetSet(w, p + x + s, v, p + x + s); } else { SetOtherName(w, p, x, s, v, d, t); }
  }

  /** Constants and parameters are steady, and so is what is built of bounds of other loops. */
  lemma SteadyParam(e: Expr, p: string, x: string, w: World, w0: World)
    requires IsParam(e) && Sane(w, w0)
    ensures Steady(e, Eval(e, w0, 0), p, x, w)
  {
    hide Eval, IsParam, Sane;
    ParamValue(e, w, w0);
    forall a: int ensures Eval(e, Set(w, p + x + ".loop_extent", a), 0) == Eval(e, w0, 0) {
      SetSane(w, w0, p + x + ".loop_extent", a);
      ParamValue(e, Set(w, p + x + ".loop_extent", a), w0);
    }
    forall a: int, b: int ensures Eval(e, Set(Set(w, p + x + ".loop_extent", a), p + x + ".loop_max", b), 0)
        == Eval(e, w0, 0) {
      SetSane(w, w0, p + x + ".loop_extent", a);
      SetSane(Set(w, p + x + ".loop_extent", a), w0, p + x + ".loop_max", b);
      ParamValue(e, Set(Set(w, p + x + ".loop_extent", a), p + x + ".loop_max", b), w0);
    }
  }

  lemma SteadyConst(n: int, p: string, x: string, w: World)
    ensures Steady(I(n), n, p, x, w)
  {}

  lemma SteadyBound(y: string, t: string, p: string, x: string, w: World)
    requires Plain(x) && Plain(y) && x != y && IsSuffix(t)
    ensures Steady(V(p + y + t), Get(w, p + y + t), p, x, w)
  {
    hide Eval, Get, Set, Plain;
    EvalV(w, p + y + t);
    forall a: int ensures Eval(V(p + y + t), Set(w, p + x + ".loop_extent", a), 0) == Get(w, p + y + t) {
      EvalV(Set(w, p + x + ".loop_extent", a), p + y + t);
      SetOtherName(w, p, x, ".loop_extent", a, y, t);
    }
    forall a: int, b: int
      ensures Eval(V(p + y + t), Set(Set(w, p + x + ".loop_extent", a), p + x + ".loop_max", b), 0) == Get(w, p + y + t)
    {
      var w1 := Set(w, p + x + ".loop_extent", a);
      EvalV(Set(w1, p + x + ".loop_max", b), p + y + t);
      SetOtherName(w, p, x, ".loop_extent", a, y, t);
      SetOtherName(w1, p, x, ".loop_max", b, y, t);
    }
  }

  lemma SteadyBin(op: BinOp, e: Expr, f: Expr, u: int, v: int, p: string, x: string, w: World)
    requires Steady(e, u, p, x, w) && Steady(f, v, p, x, w)
    ensures Steady(Bin(op, e, f), EvalBin(op, u, v), p, x, w)
  {
    hide Set, EvalBin;
  }

  /** The bounds of the loops a directive makes. */
  lemma DirectiveBounds(s: Split, how: How, p: string, w: World, w0: World, dims: Dims, all: Dims)
    requires Introduces(s, how, w0, dims, all) && Within(dims, all) && AllPlain(all)
        && Sane(w, w0) && BoundsAt(w, p, all)
    ensures var w1 := RunLets(LoopBounds(s, p), w);
    Sane(w1, w0) && BoundsAt(w1, p, AllAfter(StepOf(s, how, w0), dims, all))
  {
    match s
    case SplitVar(_, _, _, _, _) => SplitBounds(s, how, p, w, w0, dims, all);
    case FuseVars(_, _, _) => FuseBounds(s, how, p, w, w0, dims, all);
    case RenameVar(_, _) => RenameBounds(s, how, p, w, w0, dims, all);
  }

  lemma SplitBounds(s: Split, how: How, p: string, w: World, w0: World, dims: Dims, all: Dims)
    requires s.SplitVar? && Introduces(s, how, w0, dims, all) && Within(dims, all) && AllPlain(all)
        && Sane(w, w0) && BoundsAt(w, p, all)
    ensures var w1 := RunLets(LoopBounds(s, p), w);
    Sane(w1, w0) && BoundsAt(w1, p, AllAfter(StepOf(s, how, w0), dims, all))
  {
    hide Eval, Get, Set, Plain, BoundsAt, Sane, Trips, IsParam, RunLets, Steady;
    var f, r, outer, inner := Eval(s.factor, w0, 0), dims[s.oldVar], s.outer, s.inner;
    var lets, ro, ri := LoopBounds(s, p), Range(0, Trips(dims[s.oldVar], f)), Range(0, f);
    TripBounds(s, how, p, w, w0, dims, all);
    assert lets == lets[..3] + [lets[3], lets[4], lets[5]] && lets[..3] == [] + [lets[0], lets[1], lets[2]];
    DefineBounds(lets[..3], p, outer, lets[3].1, lets[4].1, lets[5].1, w, w0, ro, all);
    var w1 := Set(Set(Set(w, p + outer + ".loop_extent", ro.extent), p + outer + ".loop_max", ro.Max()),
        p + outer + ".loop_min", ro.min);
    FactorBounds(s, p, w1, w0);
    DefineBounds([], p, inner, lets[0].1, lets[1].1, lets[2].1, w1, w0, ri, all[outer := ro]);
    var w2 := Set(Set(Set(w1, p + inner + ".loop_extent", ri.extent), p + inner + ".loop_max", ri.Max()),
        p + inner + ".loop_min", ri.min);
    NoLets(w2);
    assert all[outer := ro][inner := ri] == AllAfter(StepOf(s, how, w0), dims, all);
  }

  lemma NoLets(w: World)
    ensures RunLets([], w) == w
  {}

  lemma FactorBounds(s: Split, p: string, w: World, w0: World)
    requires s.SplitVar? && IsParam(s.factor) && Sane(w, w0)
    ensures var f := Eval(s.factor, w0, 0);
            Steady(I(0), 0, p, s.inner, w) && Steady(Bin(Sub, s.factor, I(1)), f - 1, p, s.inner, w)
                && Steady(s.factor, f, p, s.inner, w)
  {
    hide Eval, Steady, IsParam, Sane;
    SteadyParam(s.factor, p, s.inner, w, w0);
    SteadyConst(0, p, s.inner, w);
    SteadyConst(1, p, s.inner, w);
    SteadyBin(Sub, s.factor, I(1), Eval(s.factor, w0, 0), 1, p, s.inner, w);
  }

  lemma TripBounds(s: Split, how: How, p: string, w: World, w0: World, dims: Dims, all: Dims)
    requires s.SplitVar? && Introduces(s, how, w0, dims, all) && Within(dims, all) && AllPlain(all)
        && Sane(w, w0) && BoundsAt(w, p, all)
    ensures
      var n, t := LoopBounds(s, p)[5].1, Trips(dims[s.oldVar], Eval(s.factor, w0, 0));
      Steady(I(0), 0, p, s.outer, w) && Steady(Bin(Sub, n, I(1)), t - 1, p, s.outer, w) && Steady(n, t, p, s.outer, w)
  {
    hide Eval, Get, Steady, IsParam, Sane, Plain;
    var f, r, x, y := Eval(s.factor, w0, 0), dims[s.oldVar], s.oldVar, s.outer;
    assert all[x] == r;
    var hi, lo := V(p + x + ".loop_max"), V(p + x + ".loop_min");
    SteadyBound(x, ".loop_max", p, y, w);
    SteadyBound(x, ".loop_min", p, y, w);
    SteadyParam(s.factor, p, y, w, w0);
    SteadyConst(0, p, y, w);
    SteadyConst(1, p, y, w);
    SteadyBin(Sub, hi, lo, r.Max(), r.min, p, y, w);
    SteadyBin(Add, Bin(Sub, hi, lo), s.factor, r.Max() - r.min, f, p, y, w);
    SteadyBin(Div, Bin(Add, Bin(Sub, hi, lo), s.factor), s.factor, r.Max() - r.min + f, f, p, y, w);
    SteadyBin(Sub, LoopBounds(s, p)[5].1, I(1), Trips(r, f), 1, p, y, w);
  }

  lemma FuseBounds(s: Split, how: How, p: string, w: World, w0: World, dims: Dims, all: Dims)
    requires s.FuseVars? && Introduces(s, how, w0, dims, all) && Within(dims, all) && AllPlain(all)
        && Sane(w, w0) && BoundsAt(w, p, all)
    ensures var w1 := RunLets(LoopBounds(s, p), w);
    Sane(w1, w0) && BoundsAt(w1, p, AllAfter(StepOf(s, how, w0), dims, all))
  {
    hide Eval, Get, Set, Plain, Sane, RunLets, Steady;
    var x, lets := s.oldVar, LoopBounds(s, p);
    var m, n := dims[s.inner].extent, dims[s.outer].extent;
    assert all[s.inner] == dims[s.inner] && all[s.outer] == dims[s.outer];
    MulLe(0, m, n);
    SteadyBound(s.inner, ".loop_extent", p, x, w);
    SteadyBound(s.outer, ".loop_extent", p, x, w);
    SteadyConst(0, p, x, w);
    SteadyConst(1, p, x, w);
    SteadyBin(Mul, V(p + s.inner + ".loop_extent"), V(p + s.outer + ".loop_extent"), m, n, p, x, w);
    SteadyBin(Sub, lets[2].1, I(1), m * n, 1, p, x, w);
    assert lets == [] + [lets[0], lets[1], lets[2]];
    var r := Range(0, m * n);
    DefineBounds([], p, x, lets[0].1, lets[1].1, lets[2].1, w, w0, r, all);
    NoLets(Set(Set(Set(w, p + x + ".loop_extent", r.extent), p + x + ".loop_max", r.Max()),
        p + x + ".loop_min", r.min));
    assert all[x := r] == AllAfter(StepOf(s, how, w0), dims, all);
  }

  lemma RenameBounds(s: Split, how: How, p: string, w: World, w0: World, dims: Dims, all: Dims)
    requires s.RenameVar? && Introduces(s, how, w0, dims, all) && Within(dims, all) && AllPlain(all)
        && Sane(w, w0) && BoundsAt(w, p, all)
    ensures var w1 := RunLets(LoopBounds(s, p), w);
    Sane(w1, w0) && BoundsAt(w1, p, AllAfter(StepOf(s, how, w0), dims, all))
  {
    hide Eval, Get, Set, Plain, Sane, RunLets, Steady;
    var x, y, r, lets := s.oldVar, s.outer, dims[s.oldVar], LoopBounds(s, p);
    assert all[x] == r;
    SteadyBound(x, ".loop_min", p, y, w);
    SteadyBound(x, ".loop_max", p, y, w);
    SteadyBound(x, ".loop_extent", p, y, w);
    assert lets == [] + [lets[0], lets[1], lets[2]];
    DefineBounds([], p, y, lets[0].1, lets[1].1, lets[2].1, w, w0, r, all);
    NoLets(Set(Set(Set(w, p + y + ".loop_extent", r.extent), p + y + ".loop_max", r.Max()),
        p + y + ".loop_min", r.min));
    assert all[y := r] == AllAfter(StepOf(s, how, w0), dims, all);
  }

  /** The bounds of every loop are defined. */
  lemma {:induction false} AllBounds(ss: seq<Split>, p: string, align: Alignment, o: Oracle, w: World,
      w0: World, dims: Dims, all: Dims)
    requires Valid(ss, align, o, w0, dims, all) && Within(dims, all) && AllPlain(all)
        && Sane(w, w0) && BoundsAt(w, p, all)
    ensures AllFit(Steps(ss, align, o, w0), dims)
    ensures var w1 := RunBounds(ss, p, w); Sane(w1, w0) && BoundsAt(w1, p, AllLoops(Steps(ss, align, o, w0), dims, all))
  {
    hide Plain, BoundsAt, Sane, Introduces, RunLets;
    ValidFits(ss, align, o, w0, dims, all);
    if ss != [] {
      var how := HowOf(ss[0], align, o);
      var step := StepOf(ss[0], how, w0);
      StepWithin(ss[0], how, w0, dims, all);
      DirectiveBounds(ss[0], how, p, w, w0, dims, all);
      AllBounds(ss[1..], p, AlignAfter(ss[0], align, o), o, RunLets(LoopBounds(ss[0], p), w), w0,
          DimsAfter(step, dims), AllAfter(step, dims, all));
    }
  }

  // ----- running the whole nest at one point of the final loops -----

  /** What all directives produced, the last directive's outermost. */
  function RunAll(ss: seq<Split>, hows: seq<How>, p: string, w: World): Outcome
    requires |hows| == |ss|
  {
    if ss == [] then Going(w, true)
    else
      match RunAll(ss[1..], hows[1..], p, w)
      case Stopped => Stopped
      case Going(w1, on) => Run(Results(ss[0], hows[0], p), w1, on)
  }

  /** The nest stores just where the directives say. */
  lemma {:induction false} RunsAsDirected(ss: seq<Split>, p: string, align: Alignment, o: Oracle, w: World,
      w0: World, q: Point, dims: Dims, known: Dims, all: Dims)
    requires Valid(ss, align, o, w0, dims, known) && Within(dims, known) && AllPlain(known) && Sane(w, w0)
    requires AllFit(Steps(ss, align, o, w0), dims) && q.Keys == DimsAfterAll(Steps(ss, align, o, w0), dims).Keys
    requires Within(AllLoops(Steps(ss, align, o, w0), dims, known), all) && AllPlain(all)
        && BoundsAt(w, p, all) && LoopsAt(w, p, q)
    ensures var r := RunAll(ss, Hows(ss, align, o), p, w);
            var d := StoredBy(Steps(ss, align, o, w0), dims, q);
            && (r.Going? ==> Sane(r.w, w0) && BoundsAt(r.w, p, all))
            && (d.At? <==> r.Going? && r.stores) && (d.At? ==> LoopsAt(r.w, p, d.p))
  {
    hide Plain, BoundsAt, LoopsAt, Sane, Introduces, Eval, Run, Results, Stores, Back;
    var steps := Steps(ss, align, o, w0);
    if ss != [] {
      var s, how, align1 := ss[0], HowOf(ss[0], align, o), AlignAfter(ss[0], align, o);
      var step := StepOf(s, how, w0);
      var dims1, known1 := DimsAfter(step, dims), AllAfter(step, dims, known);
      assert steps[1..] == Steps(ss[1..], align1, o, w0) && Hows(ss, align, o)[1..] == Hows(ss[1..], align1, o);
      StepWithin(s, how, w0, dims, known);
      AllLoopsWithin(ss[1..], align1, o, w0, dims1, known1);
      RunsAsDirected(ss[1..], p, align1, o, w, w0, q, dims1, known1, all);
      var r1, d1 := RunAll(ss[1..], Hows(ss[1..], align1, o), p, w), StoredBy(steps[1..], dims1, q);
      WithinTrans(dims, known1, AllLoops(steps, dims, known), all);
      WithinTrans(dims1, known1, AllLoops(steps, dims, known), all);
      if r1.Going? && r1.stores {
        OneDirective(s, how, p, r1.w, w0, d1.p, true, dims, all, known);
      } else if r1.Going? {
        OffStaysOff(s, how, p, r1.w, w0, dims, all, known);
      }
    }
  }

  lemma WithinTrans(a: Dims, b: Dims, c: Dims, d: Dims)
    requires Within(a, b) && Within(b, c) && Within(c, d)
    ensures Within(a, d)
  {}

  lemma OneDirective(s: Split, how: How, p: string, w: World, w0: World, q: Point, on: bool,
      dims: Dims, all: Dims, known: Dims)
    requires Introduces(s, how, w0, dims, known) && q.Keys == DimsAfter(StepOf(s, how, w0), dims).Keys
    requires Within(dims, all) && Within(DimsAfter(StepOf(s, how, w0), dims), all) && AllPlain(all)
    requires Sane(w, w0) && LoopsAt(w, p, q) && BoundsAt(w, p, all)
    ensures RunsAs(s, how, p, Run(Results(s, how, p), w, on), w0, q, on, dims, all)
  {
    hide Plain, Eval, Sane, LoopsAt, BoundsAt, IsParam;
    DirectiveRunsAs(s, how, p, w, w0, q, on, dims, all);
  }

  /** Once a mask has turned storing off, it stays off; the loops may then have any values. */
  lemma OffStaysOff(s: Split, how: How, p: string, w: World, w0: World, dims: Dims, all: Dims, known: Dims)
    requires Introduces(s, how, w0, dims, known)
    requires Within(dims, all) && Within(DimsAfter(StepOf(s, how, w0), dims), all) && AllPlain(all)
        && Sane(w, w0) && BoundsAt(w, p, all)
    ensures var r := Run(Results(s, how, p), w, false); r.Going? ==> !r.stores && Sane(r.w, w0) && BoundsAt(r.w, p, all)
  {
    hide Plain, Eval, Sane, BoundsAt, IsParam, Run, Results, Stores;
    var q := map d | d in DimsAfter(StepOf(s, how, w0), dims) :: Get(w, p + d);
    OneDirective(s, how, p, w, w0, q, false, dims, all, known);
  }

  // ----- the theorem -----

  /** The final loops stand at `q`. */
  function LoopsWorld(w: World, p: string, q: Point): World {
    w.(vars := (x: Name, m: nat) =>
         if x == N(x.base) && |p| <= |x.base| && x.base[..|p|] == p && x.base[|p|..] in q
         then q[x.base[|p|..]] else w.vars(x, m))
  }

  lemma SuffixNotPlain(d: string, t: string)
    requires IsSuffix(t) && t != ""
    ensures !Plain(d + t)
  {
    SuffixEnds(d, t);
  }

  lemma LoopsWorldAt(w: World, w0: World, p: string, q: Point, all: Dims)
    requires Sane(w, w0) && BoundsAt(w, p, all) && AllPlain(all) && forall d :: d in q ==> Plain(d)
    ensures var w1 := LoopsWorld(w, p, q); Sane(w1, w0) && BoundsAt(w1, p, all) && LoopsAt(w1, p, q)
  {
    var w1 := LoopsWorld(w, p, q);
    forall d | d in q ensures Get(w1, p + d) == q[d] { assert (p + d)[|p|..] == d && (p + d)[..|p|] == p; }
    forall d, t | d in all && IsSuffix(t) && t != "" ensures Get(w1, p + d + t) == Get(w, p + d + t) {
      var x := p + d + t;
      assert x == p + (d + t) && x[|p|..] == d + t;
      SuffixNotPlain(d, t);
    }
    hide Get;
    assert IsSuffix(".loop_min") && IsSuffix(".loop_max") && IsSuffix(".loop_extent");
  }

  /** The loop nest that the directives make, run at point `q` of the final
      loops, stores at point `p0` of the original ones. */
  ghost predicate NestStores(ss: seq<Split>, p: string, align: Alignment, o: Oracle, w: World, q: Point, p0: Point) {
    var r := RunAll(ss, Hows(ss, align, o), p, LoopsWorld(RunBounds(ss, p, w), p, q));
    r.Going? && r.stores && LoopsAt(r.w, p, p0)
  }

  /** What is given: original loops with their bounds, alignments that hold, and valid directives. */
  ghost predicate Given(ss: seq<Split>, p: string, align: Alignment, o: Oracle, w: World, dims: Dims) {
    && SoundOracle(o) && AllPlain(dims) && Sane(w, w) && BoundsAt(w, p, dims)
    && AlignHolds(align, w, dims) && Valid(ss, align, o, w, dims, dims)
  }

  lemma NestStoresAsDirected(ss: seq<Split>, p: string, align: Alignment, o: Oracle, w: World,
      dims: Dims, q: Point, p0: Point)
    requires Given(ss, p, align, o, w, dims) && AllFit(Steps(ss, align, o, w), dims)
    requires q.Keys == DimsAfterAll(Steps(ss, align, o, w), dims).Keys && p0.Keys == dims.Keys
    ensures NestStores(ss, p, align, o, w, q, p0) <==> StoredBy(Steps(ss, align, o, w), dims, q) == At(p0)
  {
    hide Plain, BoundsAt, LoopsAt, Sane, SoundOracle, AlignHolds, Valid, RunAll, RunBounds, LoopsWorld, StoredBy;
    var steps := Steps(ss, align, o, w);
    var all, w1 := AllLoops(steps, dims, dims), RunBounds(ss, p, w);
    SelfWithin(dims);
    AllLoopsWithin(ss, align, o, w, dims, dims);
    AllBounds(ss, p, align, o, w, w, dims, dims);
    PointPlain(q, DimsAfterAll(steps, dims), all);
    LoopsWorldAt(w1, w, p, q, all);
    SelfWithin(all);
    RunsAsDirected(ss, p, align, o, LoopsWorld(w1, p, q), w, q, dims, dims, all);
    var d, r := StoredBy(steps, dims, q), RunAll(ss, Hows(ss, align, o), p, LoopsWorld(w1, p, q));
    if d.At? && LoopsAt(r.w, p, p0) { SameLoops(r.w, p, d.p, p0); }
  }

  lemma SelfWithin(all: Dims)
    ensures Within(all, all)
  {}

  lemma PointPlain(q: Point, dims: Dims, all: Dims)
    requires q.Keys == dims.Keys && Within(dims, all) && AllPlain(all)
    ensures forall d :: d in q ==> Plain(d)
  {}

  lemma SameLoops(w: World, p: string, a: Point, b: Point)
    requires a.Keys == b.Keys && LoopsAt(w, p, a) && LoopsAt(w, p, b)
    ensures a == b
  {
    forall d | d in a ensures a[d] == b[d] { assert Get(w, p + d) == a[d]; }
  }

  /** For every valid list of directives, whatever the tail strategies: each
      point of the original loops is stored by the nest. */
  lemma EachPointIsStored(ss: seq<Split>, p: string, align: Alignment, o: Oracle, w: World, dims: Dims, p0: Point)
    requires Given(ss, p, align, o, w, dims) && InDims(p0, dims)
    ensures AllFit(Steps(ss, align, o, w), dims)
    ensures exists q :: InDims(q, DimsAfterAll(Steps(ss, align, o, w), dims)) && NestStores(ss, p, align, o, w, q, p0)
  {
    hide Valid, NestStores, Steps;
    ValidFits(ss, align, o, w, dims, dims);
    EveryPointStored(Steps(ss, align, o, w), dims, p0);
    NestStoresAsDirected(ss, p, align, o, w, dims, FinalPoint(Steps(ss, align, o, w), dims, p0), p0);
  }

  /** With tails that guard, blend or divide: each original point is stored at
      exactly one point of the final loops, and nothing else is stored. */
  lemma EachPointIsStoredOnce(ss: seq<Split>, p: string, align: Alignment, o: Oracle, w: World, dims: Dims,
      q: Point, q': Point, p0: Point)
    requires Given(ss, p, align, o, w, dims) && ExactTails(Hows(ss, align, o)) && p0.Keys == dims.Keys
    ensures AllFit(Steps(ss, align, o, w), dims)
    ensures
      var final := DimsAfterAll(Steps(ss, align, o, w), dims);
      && (InDims(q, final) && NestStores(ss, p, align, o, w, q, p0) ==> InDims(p0, dims))
      && (InDims(q, final) && InDims(q', final)
          && NestStores(ss, p, align, o, w, q, p0) && NestStores(ss, p, align, o, w, q', p0)
          ==> q == q')
  {
    hide Valid, NestStores, Steps, ExactTails, Hows, AlignHolds, SoundOracle, Sane;
    SelfWithin(dims);
    AllStepsExact(ss, align, o, w, dims, dims);
    var steps := Steps(ss, align, o, w);
    var final := DimsAfterAll(steps, dims);
    if InDims(q, final) && NestStores(ss, p, align, o, w, q, p0) {
      NestStoresAsDirected(ss, p, align, o, w, dims, q, p0);
      StoredOnce(steps, dims, q);
    }
    if InDims(q', final) && NestStores(ss, p, align, o, w, q', p0) {
      NestStoresAsDirected(ss, p, align, o, w, dims, q', p0);
      StoredOnce(steps, dims, q');
    }
  }
}
