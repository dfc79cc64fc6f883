// The lets, guards and masks that splits produce, run around a body, store
// each original point exactly once.

module SplitRuns {
  import opened Arith
  import opened IR
  import opened Intervals
  import opened BoundsRules
  import opened Splits
  import opened SplitPoints

  // ----- names -----

  predicate EndsWith(x: string, s: string) { |s| <= |x| && x[|x| - |s|..] == s }

  /** A loop's name, not that of a bound or of a base. */
  predicate Plain(x: string) {
    !EndsWith(x, ".loop_min") && !EndsWith(x, ".loop_max") && !EndsWith(x, ".loop_extent")
    && !EndsWith(x, ".base") && !EndsWith(x, ".guarded")
  }

  /** What may follow a loop's name. */
  predicate IsSuffix(s: string) {
    s == "" || s == ".loop_min" || s == ".loop_max" || s == ".loop_extent" || s == ".base" || s == ".guarded"
  }

  lemma SuffixEnds(x: string, s: string)
    ensures EndsWith(x + s, s) && (x + s)[..|x + s| - |s|] == x
  {}

  /** The suffixes differ in their last letters. */
  lemma SameSuffix(a: string, s: string, t: string)
    requires IsSuffix(s) && IsSuffix(t) && s != "" && t != "" && EndsWith(a, s) && EndsWith(a, t)
    ensures s == t
  {
    assert a[|a| - 1] == a[|a| - |s|..][|s| - 1] == a[|a| - |t|..][|t| - 1];
  }

  /** The name of a loop with what follows it tells both. */
  lemma NamesDiffer(p: string, x: string, s: string, y: string, t: string)
    requires Plain(x) && Plain(y) && IsSuffix(s) && IsSuffix(t) && p + x + s == p + y + t
    ensures x == y && s == t
  {
    hide Plain, EndsWith;
    assert p + x + s == p + (x + s) && p + y + t == p + (y + t);
    SamePrefix(p, x + s, y + t);
    SuffixTells(x, s, y, t);
  }

  lemma SamePrefix(p: string, a: string, b: string)
    requires p + a == p + b
    ensures a == b
  {
    assert (p + a)[|p|..] == a && (p + b)[|p|..] == b;
  }

  lemma SuffixTells(x: string, s: string, y: string, t: string)
    requires Plain(x) && Plain(y) && IsSuffix(s) && IsSuffix(t) && x + s == y + t
    ensures x == y && s == t
  {
    hide EndsWith;
    SuffixEnds(x, s);
    SuffixEnds(y, t);
    if s != "" && t != "" { SameSuffix(x + s, s, t); }
    if s == "" { assert x + s == x; }
    if t == "" { assert y + t == y; }
  }

  // ----- worlds -----

  /** The loop variables have the values of a point. */
  ghost predicate LoopsAt(w: World, p: string, q: Point) { forall d :: d in q ==> Get(w, p + d) == q[d] }

  /** The bounds of the loops have their values. */
  ghost predicate BoundsAt(w: World, p: string, all: Dims) {
    forall d :: d in all ==>
      && Get(w, p + d + ".loop_min") == all[d].min
      && Get(w, p + d + ".loop_max") == all[d].Max()
      && Get(w, p + d + ".loop_extent") == all[d].extent
  }

  /** A parameter: an integer expression over names that no loop defines. */
  ghost predicate IsParam(e: Expr) { HasTy(e, IntT) && forall x :: x in Names(e) ==> x.serial > 0 }

  /** Promises are kept, and the parameters are those of `w0`. */
  ghost predicate Sane(w: World, w0: World) {
    && w.funcs == w0.funcs && w.pures == w0.pures
    && (forall v: int, lo: int, hi: int :: lo <= v <= hi ==> w.pures("promise_clamped", 0, [v, lo, hi]) == v)
    && (forall x: Name, m: nat :: x.serial > 0 ==> w.vars(x, m) == w0.vars(x, m))
  }

  lemma ParamValue(e: Expr, w: World, w0: World)
    requires IsParam(e) && Sane(w, w0)
    ensures Eval(e, w, 0) == Eval(e, w0, 0)
  {
    EvalAgree(e, w, w0, 0);
  }

  lemma GetSet(w: World, x: string, v: int, y: string)
    ensures Get(Set(w, x, v), y) == if y == x then v else Get(w, y)
  {}

  lemma SetSane(w: World, w0: World, x: string, v: int)
    requires Sane(w, w0)
    ensures Sane(Set(w, x, v), w0)
  {}

  lemma EvalV(w: World, x: string)
    ensures Eval(V(x), w, 0) == Get(w, x)
  {}

  lemma EvalLikely(e: Expr, w: World)
    ensures Eval(Likely1(e), w, 0) == Eval(e, w, 0)
  {}

  ghost predicate AllPlain(all: Dims) { forall d :: d in all ==> Plain(d) }

  /** Defining a loop variable, a base or a guarded variable leaves the bounds as they are. */
  lemma SetKeepsBounds(w: World, p: string, x: string, s: string, v: int, all: Dims)
    requires BoundsAt(w, p, all) && AllPlain(all) && Plain(x) && (s == "" || s == ".base" || s == ".guarded")
    ensures BoundsAt(Set(w, p + x + s, v), p, all)
  {
    hide Get, Set, Plain;
    forall d | d in all
      ensures Get(Set(w, p + x + s, v), p + d + ".loop_min") == all[d].min
      ensures Get(Set(w, p + x + s, v), p + d + ".loop_max") == all[d].Max()
      ensures Get(Set(w, p + x + s, v), p + d + ".loop_extent") == all[d].extent
    {
      SetOtherName(w, p, x, s, v, d, ".loop_min");
      SetOtherName(w, p, x, s, v, d, ".loop_max");
      SetOtherName(w, p, x, s, v, d, ".loop_extent");
    }
  }

  lemma SetOtherName(w: World, p: string, x: string, s: string, v: int, y: string, t: string)
    requires Plain(x) && Plain(y) && IsSuffix(s) && IsSuffix(t) && (x != y || s != t)
    ensures Get(Set(w, p + x + s, v), p + y + t) == Get(w, p + y + t)
  {
    GetSet(w, p + x + s, v, p + y + t);
    if p + x + s == p + y + t { NamesDiffer(p, x, s, y, t); }
  }

  /** Defining a base or a guarded variable leaves the loop variables as they are. */
  lemma SetKeepsLoops(w: World, p: string, x: string, s: string, v: int, q: Point)
    requires LoopsAt(w, p, q) && Plain(x) && (s == ".base" || s == ".guarded") && forall d :: d in q ==> Plain(d)
    ensures LoopsAt(Set(w, p + x + s, v), p, q)
  {
    hide Get, Set, Plain;
    forall d | d in q ensures Get(Set(w, p + x + s, v), p + d) == q[d] {
      SetOtherName(w, p, x, s, v, d, "");
      assert p + d + "" == p + d;
    }
  }

  /** Defining a loop variable. */
  lemma SetLoop(w: World, p: string, x: string, v: int, q: Point)
    requires LoopsAt(w, p, q)
    ensures LoopsAt(Set(w, p + x, v), p, q[x := v])
  {
    hide Get, Set;
    forall d | d in q[x := v] ensures Get(Set(w, p + x, v), p + d) == q[x := v][d] {
      GetSet(w, p + x, v, p + d);
      if p + d == p + x { assert (p + d)[|p|..] == d && (p + x)[|p|..] == x; }
    }
  }

  lemma FewerLoops(w: World, p: string, q: Point, q': Point)
    requires LoopsAt(w, p, q) && forall d :: d in q' ==> d in q && q'[d] == q[d]
    ensures LoopsAt(w, p, q')
  {}

  // ----- running the results of one directive -----

  function StepOf(s: Split, how: How, w0: World): Step {
    match s
    case SplitVar(x, outer, inner, f, _) => SplitStep(x, outer, inner, Eval(f, w0, 0), how)
    case FuseVars(x, outer, inner) => FuseStep(x, outer, inner)
    case RenameVar(x, outer) => RenameStep(x, outer)
  }

  ghost predicate Within(dims: Dims, all: Dims) { forall d :: d in dims ==> d in all && all[d] == dims[d] }

  /** A directive about to be run at point `q` of the new loops. */
  ghost predicate AtStep(s: Split, how: How, p: string, w: World, w0: World, q: Point, dims: Dims, all: Dims) {
    var step := StepOf(s, how, w0);
    && Fits(step, dims) && q.Keys == DimsAfter(step, dims).Keys
    && Within(dims, all) && Within(DimsAfter(step, dims), all) && AllPlain(all)
    && Sane(w, w0) && LoopsAt(w, p, q) && BoundsAt(w, p, all)
    && (s.SplitVar? ==> IsParam(s.factor))
  }

  /** What running it gives: it stores just when the step says so, and then
      the old loop variables have their values. */
  ghost predicate RunsAs(s: Split, how: How, p: string, r: Outcome, w0: World, q: Point,
      on: bool, dims: Dims, all: Dims)
    requires Fits(StepOf(s, how, w0), dims) && q.Keys == DimsAfter(StepOf(s, how, w0), dims).Keys
  {
    var step := StepOf(s, how, w0);
    && (r.Stopped? ==> !Stores(step, dims, q))
    && (r.Going? ==>
          && (r.stores <==> on && Stores(step, dims, q))
          && Sane(r.w, w0) && BoundsAt(r.w, p, all)
          && (r.stores ==> LoopsAt(r.w, p, Back(step, dims, q))))
  }

  lemma RunLast(rs: seq<Result>, r: Result, w: World, on: bool)
    ensures Run(rs + [r], w, on)
            == match r.kind
               case LetResult | Substitution | SubstitutionInProvides =>
                   Run(rs, Set(w, r.name, Eval(r.value, w, 0)), on)
               case PredicateAll => if Eval(r.value, w, 0) != 0 then Run(rs, w, on) else Stopped
               case PredicateProvides | BlendProvides => Run(rs, w, on && Eval(r.value, w, 0) != 0)
               case SubstitutionInCalls | PredicateCalls => Run(rs, w, on)
  {
    var all := rs + [r];
    assert all[..|all| - 1] == rs && all[|all| - 1] == r;
  }

  // ----- values of what a split produces -----

  /** The values a split's expressions are made of. */
  ghost predicate Values(s: Split, p: string, w: World, r: Range, f: int, o: int, i: int, n: nat)
    requires s.SplitVar?
  {
    && Get(w, p + s.outer) == o && Get(w, p + s.inner) == i && Eval(s.factor, w, 0) == f
    && Get(w, p + s.oldVar + ".loop_min") == r.min && Get(w, p + s.oldVar + ".loop_max") == r.Max()
    && Get(w, p + s.oldVar + ".loop_extent") == r.extent && Get(w, p + s.outer + ".loop_max") == n - 1
  }

  lemma BaseValues(s: Split, how: How, p: string, w: World, r: Range, f: int, o: int, i: int, n: nat)
    requires s.SplitVar? && f > 0 && Values(s, p, w, r, f, o, i, n)
    ensures Eval(Base(s, p), w, 0) == o * f + r.min
    ensures Eval(BaseBy(s, how, p), w, 0) == BaseAt(how, r, f, o)
    ensures Eval(Unwanted(s, p), w, 0) == (0 - r.extent) % f
  {
    hide Eval, Get;
    var x := p + s.oldVar;
    EvalV(w, p + s.outer);
    EvalV(w, x + ".loop_min");
    EvalV(w, x + ".loop_max");
    EvalV(w, x + ".loop_extent");
    EvalConst(0, w);
    EvalConst(1, w);
    EvalBinIs(Mul, V(p + s.outer), s.factor, w);
    EvalBinIs(Add, Bin(Mul, V(p + s.outer), s.factor), V(x + ".loop_min"), w);
    EvalBinIs(Sub, I(1), s.factor, w);
    EvalBinIs(Add, V(x + ".loop_max"), Bin(Sub, I(1), s.factor), w);
    EvalLikely(Base(s, p), w);
    EvalBinIs(Min, Likely1(Base(s, p)), LastBase(s, p), w);
    EvalBinIs(Sub, I(0), V(x + ".loop_extent"), w);
    EvalBinIs(Mod, Bin(Sub, I(0), V(x + ".loop_extent")), s.factor, w);
  }

  /** The masks are true just where the split stores. */
  lemma MaskValues(s: Split, how: How, p: string, w: World, r: Range, f: int, o: int, i: int)
    requires s.SplitVar? && f > 0 && Values(s, p, w, r, f, o, i, Trips(r, f))
    requires how == By(ShiftInwardsAndBlend) || how == By(RoundUpAndBlend)
    ensures |Guards(s, how, p)| == 1 && Guards(s, how, p)[0].kind.BlendProvides?
    ensures Eval(Guards(s, how, p)[0].value, w, 0) != 0 <==> StoresAt(how, r, f, o, i)
  {
    hide Eval, Get, Trips;
    BaseValues(s, how, p, w, r, f, o, i, Trips(r, f));
    EvalV(w, p + s.inner);
    EvalV(w, p + s.outer);
    EvalV(w, p + s.outer + ".loop_max");
    var yes := Likely1(True());
    EvalLikely(True(), w);
    EvalTrue(w);
    if how == By(ShiftInwardsAndBlend) {
      var c, d := Bin(EQ, BaseBy(s, how, p), Base(s, p)), Bin(GE, V(p + s.inner), Unwanted(s, p));
      EvalBinIs(EQ, BaseBy(s, how, p), Base(s, p), w);
      EvalBinIs(GE, V(p + s.inner), Unwanted(s, p), w);
      EvalSelect(c, yes, d, w);
    } else {
      var c := Bin(LT, V(p + s.outer), V(p + s.outer + ".loop_max"));
      var d := Bin(LT, V(p + s.inner), Bin(Sub, s.factor, Unwanted(s, p)));
      EvalBinIs(LT, V(p + s.outer), V(p + s.outer + ".loop_max"), w);
      EvalBinIs(Sub, s.factor, Unwanted(s, p), w);
      EvalBinIs(LT, V(p + s.inner), Bin(Sub, s.factor, Unwanted(s, p)), w);
      EvalSelect(c, yes, d, w);
    }
  }

  lemma EvalTrue(w: World)
    ensures Eval(True(), w, 0) == 1
  {}

  lemma GuardValue(x: string, w: World)
    ensures Eval(Likely1(Bin(LE, V(x), V(x + ".loop_max"))), w, 0) != 0 <==> Get(w, x) <= Get(w, x + ".loop_max")
  {
    hide Eval, Get;
    EvalV(w, x);
    EvalV(w, x + ".loop_max");
    EvalBinIs(LE, V(x), V(x + ".loop_max"), w);
    EvalLikely(Bin(LE, V(x), V(x + ".loop_max")), w);
  }

  lemma PromiseValue(x: string, w: World, w0: World)
    requires Sane(w, w0) && Get(w, x) <= Get(w, x + ".loop_max")
    ensures Eval(PromiseClamped(V(x), V(x), V(x + ".loop_max")), w, 0) == Get(w, x)
  {
    var e := PromiseClamped(V(x), V(x), V(x + ".loop_max"));
    var v, hi := Get(w, x), Get(w, x + ".loop_max");
    EvalV(w, x);
    EvalV(w, x + ".loop_max");
    assert EvalArgs(e.args, w, 0) == [v, v, hi];
  }

  // ----- one directive -----

  /** The two lets of a split: its base, then the old variable. */
  lemma SplitLets(s: Split, how: How, p: string, w: World, w0: World, q: Point, dims: Dims, all: Dims)
    requires s.SplitVar? && AtStep(s, how, p, w, w0, q, dims, all)
    ensures
      var f := Eval(s.factor, w0, 0);
      var v := BaseAt(how, dims[s.oldVar], f, q[s.outer]);
      var w1 := Set(w, p + s.inner + ".base", v);
      var w2 := Set(w1, p + s.oldVar, v + q[s.inner]);
      && Eval(BaseBy(s, how, p), w, 0) == v
      && Eval(Bin(Add, V(p + s.inner + ".base"), V(p + s.inner)), w1, 0) == v + q[s.inner]
      && Sane(w2, w0) && BoundsAt(w2, p, all) && LoopsAt(w2, p, q[s.oldVar := v + q[s.inner]])
      && Values(s, p, w2, dims[s.oldVar], f, q[s.outer], q[s.inner], Trips(dims[s.oldVar], f))
  {
    hide Eval, Get, Set, Plain, BoundsAt, LoopsAt, Sane, BaseAt, Trips, IsParam;
    var f, x, r := Eval(s.factor, w0, 0), s.oldVar, dims[s.oldVar];
    var v := BaseAt(how, r, f, q[s.outer]);
    var w1 := Set(w, p + s.inner + ".base", v);
    StepValues(s, how, p, w, w0, q, dims, all);
    BaseValues(s, how, p, w, r, f, q[s.outer], q[s.inner], Trips(r, f));
    KnownNames(s, how, w0, q, dims, all);
    SetKeepsLoops(w, p, s.inner, ".base", v, q);
    SetKeepsBounds(w, p, s.inner, ".base", v, all);
    SetSane(w, w0, p + s.inner + ".base", v);
    BaseAndInner(s.inner, p, w, v, q) by { assert s.inner in q; }
    SetLoop(w1, p, x, v + q[s.inner], q);
    assert p + x + "" == p + x;
    SetKeepsBounds(w1, p, x, "", v + q[s.inner], all);
    SetSane(w1, w0, p + x, v + q[s.inner]);
    var q2 := q[x := v + q[s.inner]];
    assert q2[s.outer] == q[s.outer] && q2[s.inner] == q[s.inner];
    ValuesAt(s, how, p, Set(w1, p + x, v + q[s.inner]), w0, q2, dims, all);
  }

  lemma BaseAndInner(inner: string, p: string, w: World, v: int, q: Point)
    requires inner in q && LoopsAt(Set(w, p + inner + ".base", v), p, q)
    ensures Eval(Bin(Add, V(p + inner + ".base"), V(p + inner)), Set(w, p + inner + ".base", v), 0) == v + q[inner]
  {
    hide Eval, Get, Set;
    var w1 := Set(w, p + inner + ".base", v);
    EvalBinIs(Add, V(p + inner + ".base"), V(p + inner), w1);
    EvalV(w1, p + inner + ".base");
    EvalV(w1, p + inner);
    GetSet(w, p + inner + ".base", v, p + inner + ".base");
  }

  lemma KnownNames(s: Split, how: How, w0: World, q: Point, dims: Dims, all: Dims)
    requires s.SplitVar? && Fits(StepOf(s, how, w0), dims) && q.Keys == DimsAfter(StepOf(s, how, w0), dims).Keys
    requires Within(dims, all) && Within(DimsAfter(StepOf(s, how, w0), dims), all) && AllPlain(all)
    ensures Plain(s.oldVar) && Plain(s.outer) && Plain(s.inner) && s.outer in q && s.inner in q
        && s.outer != s.oldVar && s.inner != s.oldVar
    ensures forall d :: d in q ==> Plain(d)
  {}

  /** The values of a split's expressions where the loops and bounds are known. */
  lemma ValuesAt(s: Split, how: How, p: string, w: World, w0: World, q: Point, dims: Dims, all: Dims)
    requires s.SplitVar? && Fits(StepOf(s, how, w0), dims) && s.outer in q && s.inner in q
    requires Within(dims, all) && Within(DimsAfter(StepOf(s, how, w0), dims), all)
    requires Sane(w, w0) && LoopsAt(w, p, q) && BoundsAt(w, p, all) && IsParam(s.factor)
    ensures var f := Eval(s.factor, w0, 0);
            Values(s, p, w, dims[s.oldVar], f, q[s.outer], q[s.inner], Trips(dims[s.oldVar], f))
  {
    hide Eval, Get, IsParam, Sane, Trips;
    ParamValue(s.factor, w, w0);
    var f := Eval(s.factor, w0, 0);
    assert all[s.oldVar] == dims[s.oldVar];
    assert all[s.outer] == Range(0, Trips(dims[s.oldVar], f));
  }

  lemma StepValues(s: Split, how: How, p: string, w: World, w0: World, q: Point, dims: Dims, all: Dims)
    requires s.SplitVar? && AtStep(s, how, p, w, w0, q, dims, all)
    ensures var f := Eval(s.factor, w0, 0);
            f > 0 && Values(s, p, w, dims[s.oldVar], f, q[s.outer], q[s.inner], Trips(dims[s.oldVar], f))
  {
    hide Eval, Get, IsParam, Sane, Trips, BoundsAt, LoopsAt, Plain;
    KnownNames(s, how, w0, q, dims, all);
    ValuesAt(s, how, p, w, w0, q, dims, all);
  }

  /** Running the guards in the world where the old variable is defined. */
  ghost predicate GuardsRunAs(s: Split, how: How, p: string, r: Outcome, w0: World, q: Point,
      on: bool, dims: Dims, all: Dims)
    requires s.SplitVar? && s.oldVar in dims && s.outer in q && s.inner in q
        && s.oldVar in q && Eval(s.factor, w0, 0) > 0
  {
    var stores := StoresAt(how, dims[s.oldVar], Eval(s.factor, w0, 0), q[s.outer], q[s.inner]);
    && (r.Stopped? ==> !stores)
    && (r.Going? ==>
        (r.stores <==> on && stores) && Sane(r.w, w0) && BoundsAt(r.w, p, all)
        && (r.stores ==> LoopsAt(r.w, p, q)))
  }

  /** What the guards start from. */
  ghost predicate GuardReady(s: Split, how: How, p: string, w: World, w0: World, q: Point, dims: Dims, all: Dims) {
    && s.SplitVar? && s.oldVar in dims && s.outer in q && s.inner in q && s.oldVar in q && s.oldVar in all
        && all[s.oldVar] == dims[s.oldVar]
    && Sane(w, w0) && BoundsAt(w, p, all) && LoopsAt(w, p, q) && AllPlain(all) && (forall d :: d in q ==> Plain(d))
    && Eval(s.factor, w0, 0) > 0
    && q[s.oldVar] == BaseAt(how, dims[s.oldVar], Eval(s.factor, w0, 0), q[s.outer]) + q[s.inner]
    && Values(s, p, w, dims[s.oldVar], Eval(s.factor, w0, 0), q[s.outer], q[s.inner],
        Trips(dims[s.oldVar], Eval(s.factor, w0, 0)))
  }

  /** A condition on the old variable, then the variable that is promised to
      be within the loop's bounds. */
  lemma ConditionRuns(s: Split, how: How, p: string, w: World, w0: World, q: Point, on: bool, dims: Dims, all: Dims)
    requires GuardReady(s, how, p, w, w0, q, dims, all)
    requires how == By(GuardWithIf) || how == By(Predicate) || how == By(PredicateStores)
    ensures GuardsRunAs(s, how, p, Run(Guards(s, how, p), w, on), w0, q, on, dims, all)
  {
    hide Eval, Get, Set, Plain, Trips, StoresAt, BoundsAt, LoopsAt, Sane, BaseAt, AllPlain, Values;
    var x, f, r := p + s.oldVar, Eval(s.factor, w0, 0), dims[s.oldVar];
    var g := Guards(s, how, p);
    var stores := StoresAt(how, r, f, q[s.outer], q[s.inner]);
    OldValue(s, p, w, q, dims, all);
    GuardedStores(how, r, f, q[s.outer], q[s.inner]);
    GuardValue(x, w);
    var v := Eval(g[1].value, w, 0);
    if stores { PromiseValue(x, w, w0); }
    var w1 := Set(w, x + ".guarded", v);
    GuardedWorld(s, p, w, w0, q, v, all);
    EvalV(w1, x + ".guarded");
    GetSet(w, x + ".guarded", v, x + ".guarded");
    RunThree(g[0], g[1], g[2], w, on);
  }

  lemma OldValue(s: Split, p: string, w: World, q: Point, dims: Dims, all: Dims)
    requires s.SplitVar? && s.oldVar in q && s.oldVar in dims && s.oldVar in all && all[s.oldVar] == dims[s.oldVar]
    requires LoopsAt(w, p, q) && BoundsAt(w, p, all)
    ensures Get(w, p + s.oldVar) == q[s.oldVar] && Get(w, p + s.oldVar + ".loop_max") == dims[s.oldVar].Max()
  {
    hide Get;
  }

  lemma GuardedStores(how: How, r: Range, f: int, o: int, i: int)
    requires f > 0 && (how == By(GuardWithIf) || how == By(Predicate) || how == By(PredicateStores))
    ensures StoresAt(how, r, f, o, i) <==> BaseAt(how, r, f, o) + i <= r.Max()
  {}

  /** Defining the guarded variable, and then the old variable as it, changes
      nothing when the guarded variable has the old value. */
  lemma GuardedWorld(s: Split, p: string, w: World, w0: World, q: Point, v: int, all: Dims)
    requires s.SplitVar? && s.oldVar in q && s.oldVar in all && AllPlain(all) && (forall d :: d in q ==> Plain(d))
    requires Sane(w, w0) && BoundsAt(w, p, all) && LoopsAt(w, p, q)
    ensures var w1 := Set(w, p + s.oldVar + ".guarded", v);
            var w2 := Set(w1, p + s.oldVar, v);
            && Sane(w1, w0) && BoundsAt(w1, p, all) && LoopsAt(w1, p, q)
            && Sane(w2, w0) && BoundsAt(w2, p, all) && (v == q[s.oldVar] ==> LoopsAt(w2, p, q))
  {
    hide Get, Set, Plain, BoundsAt, LoopsAt, Sane;
    var x, w1 := s.oldVar, Set(w, p + s.oldVar + ".guarded", v);
    SetKeepsLoops(w, p, x, ".guarded", v, q);
    SetKeepsBounds(w, p, x, ".guarded", v, all);
    SetSane(w, w0, p + x + ".guarded", v);
    assert p + x + "" == p + x;
    SetKeepsBounds(w1, p, x, "", v, all);
    SetSane(w1, w0, p + x, v);
    SetLoop(w1, p, x, v, q);
    if v == q[x] { assert q[x := v] == q; }
  }

  /** Running a substitution, a let and a guard, the guard first. */
  lemma RunThree(a: Result, b: Result, c: Result, w: World, on: bool)
    requires a.kind.Substitution? || a.kind.SubstitutionInProvides?
    requires b.kind.LetResult? && (c.kind.PredicateAll? || c.kind.PredicateProvides?)
    ensures
      var v := Eval(c.value, w, 0) != 0;
      var w1 := Set(w, b.name, Eval(b.value, w, 0));
      var w2 := Set(w1, a.name, Eval(a.value, w1, 0));
      Run([a, b, c], w, on) == if c.kind.PredicateAll? && !v then Stopped
          else Going(w2, if c.kind.PredicateAll? then on else on && v)
  {
    hide Eval, Set;
    var w1 := Set(w, b.name, Eval(b.value, w, 0));
    assert [a, b, c] == [a, b] + [c] && [a, b] == [a] + [b] && [a] == [] + [a];
    RunLast([a, b], c, w, on);
    forall on1: bool ensures Run([a, b], w, on1) == Going(Set(w1, a.name, Eval(a.value, w1, 0)), on1) {
      RunLast([a], b, w, on1);
      RunLast([], a, w1, on1);
    }
  }

  lemma GuardsRun(s: Split, how: How, p: string, w: World, w0: World, q: Point, on: bool, dims: Dims, all: Dims)
    requires GuardReady(s, how, p, w, w0, q, dims, all) && !how.Refused?
    ensures GuardsRunAs(s, how, p, Run(Guards(s, how, p), w, on), w0, q, on, dims, all)
  {
    hide Eval, Get, Set, Plain, Trips, BoundsAt, LoopsAt, Sane, BaseAt, AllPlain, Values;
    var f, r := Eval(s.factor, w0, 0), dims[s.oldVar];
    if how == By(GuardWithIf) || how == By(Predicate) || how == By(PredicateStores) {
      ConditionRuns(s, how, p, w, w0, q, on, dims, all);
    } else if how == By(ShiftInwardsAndBlend) || how == By(RoundUpAndBlend) {
      MaskValues(s, how, p, w, r, f, q[s.outer], q[s.inner]);
      var g := Guards(s, how, p);
      assert g == [] + [g[0]];
      RunLast([], g[0], w, on);
    } else if how == By(PredicateLoads) {
      LoadsRun(s, how, p, w, w0, q, on, dims, all);
    }
  }

  lemma LoadsRun(s: Split, how: How, p: string, w: World, w0: World, q: Point, on: bool, dims: Dims, all: Dims)
    requires GuardReady(s, how, p, w, w0, q, dims, all) && how == By(PredicateLoads)
    ensures GuardsRunAs(s, how, p, Run(Guards(s, how, p), w, on), w0, q, on, dims, all)
  {
    hide Eval, Get, Set, Plain, Trips, BoundsAt, LoopsAt, Sane, BaseAt, AllPlain, Values;
    var g := Guards(s, how, p);
    var v := Eval(g[1].value, w, 0);
    GuardedWorld(s, p, w, w0, q, v, all);
    assert g == [g[0], g[1]] + [g[2]] && [g[0], g[1]] == [g[0]] + [g[1]] && [g[0]] == [] + [g[0]];
    RunLast([g[0], g[1]], g[2], w, on);
    RunLast([g[0]], g[1], w, on);
    RunLast([], g[0], Set(w, g[1].name, v), on);
  }

  /** Running what a split produces stores just when the split does. */
  lemma SplitRunsAs(s: Split, how: How, p: string, w: World, w0: World, q: Point, on: bool, dims: Dims, all: Dims)
    requires s.SplitVar? && AtStep(s, how, p, w, w0, q, dims, all)
    ensures RunsAs(s, how, p, Run(Results(s, how, p), w, on), w0, q, on, dims, all)
  {
    hide Eval, Get, Set, Plain, Trips, BoundsAt, LoopsAt, Sane, BaseAt, AllPlain, Values, Guards, StoresAt, IsParam;
    var f, x := Eval(s.factor, w0, 0), s.oldVar;
    var v := BaseAt(how, dims[x], f, q[s.outer]);
    var w1 := Set(w, p + s.inner + ".base", v);
    var w2, q2 := Set(w1, p + x, v + q[s.inner]), q[x := v + q[s.inner]];
    SplitLets(s, how, p, w, w0, q, dims, all);
    KnownNames(s, how, w0, q, dims, all);
    var g := Guards(s, how, p);
    var a := Result(p + x, Bin(Add, V(p + s.inner + ".base"), V(p + s.inner)), LetResult);
    var b := Result(p + s.inner + ".base", BaseBy(s, how, p), LetResult);
    assert Results(s, how, p) == (g + [a]) + [b];
    RunLast(g + [a], b, w, on);
    RunLast(g, a, w1, on);
    GuardsRun(s, how, p, w2, w0, q2, on, dims, all);
    var r := Run(g, w2, on);
    if r.Going? && r.stores { FewerLoops(r.w, p, q2, Back(StepOf(s, how, w0), dims, q)); }
  }

  lemma FuseRunsAs(s: Split, how: How, p: string, w: World, w0: World, q: Point, on: bool, dims: Dims, all: Dims)
    requires s.FuseVars? && AtStep(s, how, p, w, w0, q, dims, all)
    ensures RunsAs(s, how, p, Run(Results(s, how, p), w, on), w0, q, on, dims, all)
  {
    hide Eval, Get, Set, Plain, BoundsAt, LoopsAt, Sane;
    var x, outer, inner, rs := s.oldVar, s.outer, s.inner, Results(s, how, p);
    var u := DivImp(q[x], dims[inner].extent) + dims[outer].min;
    var i := ModImp(q[x], dims[inner].extent) + dims[inner].min;
    assert all[inner] == dims[inner] && all[outer] == dims[outer];
    assert rs == [rs[0], rs[1], rs[2]] + [rs[3]] && [rs[0], rs[1], rs[2]] == [rs[0], rs[1]] + [rs[2]];
    assert [rs[0], rs[1]] == [rs[0]] + [rs[1]] && [rs[0]] == [] + [rs[0]];
    // each of the four defines one of the two variables, from the fused one and the bounds
    FusedValues(s, p, w, q, dims, all);
    RunLast([rs[0], rs[1], rs[2]], rs[3], w, on);
    DefineLoop(w, w0, p, outer, u, q, all);
    var w1, q1 := Set(w, p + outer, u), q[outer := u];
    FusedValues(s, p, w1, q1, dims, all);
    RunLast([rs[0], rs[1]], rs[2], w1, on);
    DefineLoop(w1, w0, p, inner, i, q1, all);
    var w2, q2 := Set(w1, p + inner, i), q1[inner := i];
    FusedValues(s, p, w2, q2, dims, all);
    RunLast([rs[0]], rs[1], w2, on);
    DefineLoop(w2, w0, p, outer, u, q2, all);
    var w3, q3 := Set(w2, p + outer, u), q2[outer := u];
    FusedValues(s, p, w3, q3, dims, all);
    RunLast([], rs[0], w3, on);
    DefineLoop(w3, w0, p, inner, i, q3, all);
    FewerLoops(Set(w3, p + inner, i), p, q3[inner := i], Back(StepOf(s, how, w0), dims, q));
  }

  lemma FusedValues(s: Split, p: string, w: World, q: Point, dims: Dims, all: Dims)
    requires s.FuseVars? && s.oldVar in q && s.inner in dims && s.outer in dims
        && s.oldVar !in dims && Within(dims, all)
    requires LoopsAt(w, p, q) && BoundsAt(w, p, all)
    ensures var rs := Results(s, Exactly, p);
            && Eval(rs[0].value, w, 0) == ModImp(q[s.oldVar], dims[s.inner].extent) + dims[s.inner].min
                == Eval(rs[2].value, w, 0)
            && Eval(rs[1].value, w, 0) == DivImp(q[s.oldVar], dims[s.inner].extent) + dims[s.outer].min
                == Eval(rs[3].value, w, 0)
  {
    hide Eval, Get;
    var x, n := V(p + s.oldVar), V(p + s.inner + ".loop_extent");
    assert all[s.inner] == dims[s.inner] && all[s.outer] == dims[s.outer];
    EvalV(w, p + s.oldVar);
    EvalV(w, p + s.inner + ".loop_extent");
    EvalV(w, p + s.inner + ".loop_min");
    EvalV(w, p + s.outer + ".loop_min");
    EvalBinIs(Mod, x, n, w);
    EvalBinIs(Div, x, n, w);
    EvalBinIs(Add, Bin(Mod, x, n), V(p + s.inner + ".loop_min"), w);
    EvalBinIs(Add, Bin(Div, x, n), V(p + s.outer + ".loop_min"), w);
  }

  lemma DefineLoop(w: World, w0: World, p: string, x: string, v: int, q: Point, all: Dims)
    requires Sane(w, w0) && BoundsAt(w, p, all) && LoopsAt(w, p, q) && AllPlain(all) && x in all
    ensures var w1 := Set(w, p + x, v); Sane(w1, w0) && BoundsAt(w1, p, all) && LoopsAt(w1, p, q[x := v])
  {
    hide Get, Set, Plain, BoundsAt, LoopsAt, Sane;
    assert p + x + "" == p + x;
    SetKeepsBounds(w, p, x, "", v, all);
    SetSane(w, w0, p + x, v);
    SetLoop(w, p, x, v, q);
  }

  lemma RenameRunsAs(s: Split, how: How, p: string, w: World, w0: World, q: Point, on: bool, dims: Dims, all: Dims)
    requires s.RenameVar? && AtStep(s, how, p, w, w0, q, dims, all)
    ensures RunsAs(s, how, p, Run(Results(s, how, p), w, on), w0, q, on, dims, all)
  {
    hide Eval, Get, Set, Plain, BoundsAt, LoopsAt, Sane;
    var x, outer, rs := s.oldVar, s.outer, Results(s, how, p);
    assert rs == [rs[0]] + [rs[1]] && [rs[0]] == [] + [rs[0]];
    OuterValue(p, outer, w, q);
    RunLast([rs[0]], rs[1], w, on);
    DefineLoop(w, w0, p, x, q[outer], q, all);
    var w1, q1 := Set(w, p + x, q[outer]), q[x := q[outer]];
    OuterValue(p, outer, w1, q1);
    RunLast([], rs[0], w1, on);
    DefineLoop(w1, w0, p, x, q[outer], q1, all);
    FewerLoops(Set(w1, p + x, q[outer]), p, q1[x := q[outer]], Back(StepOf(s, how, w0), dims, q));
  }

  lemma OuterValue(p: string, outer: string, w: World, q: Point)
    requires outer in q && LoopsAt(w, p, q)
    ensures Eval(V(p + outer), w, 0) == q[outer]
  {
    EvalV(w, p + outer);
  }

  lemma DirectiveRunsAs(s: Split, how: How, p: string, w: World, w0: World, q: Point, on: bool, dims: Dims, all: Dims)
    requires AtStep(s, how, p, w, w0, q, dims, all)
    ensures RunsAs(s, how, p, Run(Results(s, how, p), w, on), w0, q, on, dims, all)
  {
    hide AtStep, RunsAs, Run, Results;
    match s
    case SplitVar(_, _, _, _, _) => SplitRunsAs(s, how, p, w, w0, q, on, dims, all);
    case FuseVars(_, _, _) => FuseRunsAs(s, how, p, w, w0, q, on, dims, all);
    case RenameVar(_, _) => RenameRunsAs(s, how, p, w, w0, q, on, dims, all);
  }
}
