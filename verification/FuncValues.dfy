// The values a Func can take, whatever its arguments
// (compute_function_value_bounds in src/Bounds.cpp).

module FuncValues {
  import opened IR
  import opened Intervals
  import opened BoundsRules
  import opened Bounds
  import opened BoundsInference
  import opened PipelineSound
  import opened PipelineValues

  /** What a Func's outputs are, unless a specialization's condition holds. */
  datatype Definition = Definition(values: seq<Expr>, specializations: seq<Specialization>)

  datatype Specialization = Specialization(condition: Expr, definition: Definition)

  /** `pure` says that the Func has no update. */
  datatype Func = Func(name: string, args: seq<Name>, outputs: nat, pure: bool, definition: Definition)

  /** A definition and all its specializations define `n` outputs. */
  predicate Defines(d: Definition, n: nat) {
    |d.values| == n && forall s :: s in d.specializations ==> Defines(s.definition, n)
  }

  // ----- the bounds -----

  /** compute_pure_function_definition_value_bounds. */
  function DefinitionBounds(d: Definition, n: nat, scope: Scope, c: Ctx, k: nat): (r: (Interval, nat))
    requires n < |d.values| && Defines(d, |d.values|)
    ensures r.1 >= k
    decreases d, 1
  {
    var (i, k1) := BoundsOf(d.values[n], scope, c, k);
    IncludeAll(d, d.specializations, n, i, scope, c, k1)
  }

  function IncludeAll(d: Definition, ss: seq<Specialization>, n: nat, i: Interval, scope: Scope, c: Ctx, k: nat)
    : (r: (Interval, nat))
    requires n < |d.values| && Defines(d, |d.values|) && forall s :: s in ss ==> s in d.specializations
    ensures r.1 >= k
    decreases d, 0, |ss|
  {
    if ss == [] then (i, k)
    else
      assert ss[0] in d.specializations && Defines(ss[0].definition, |d.values|);
      var (j, k1) := DefinitionBounds(ss[0].definition, n, scope, c, k);
      IncludeAll(d, ss[1..], n, IncludeInterval(i, j), scope, c, k1)
  }

  /** The ends that there are, simplified; a single point stays one. */
  function Simplified(i: Interval, o: Oracle): Interval {
    var lo := if i.HasLower() then Fin(o.simp(i.min.e)) else i.min;
    Interval(lo, if !i.HasUpper() then i.max else if i.IsPoint() then lo else Fin(o.simp(i.max.e)))
  }

  /** The arguments could be anything. */
  function AnyArgs(f: Func): Scope { map x | x in f.args :: EVERYTHING }

  function OutputBounds(f: Func, n: nat, fb: FuncBounds, o: Oracle, k: nat): (r: (Interval, nat))
    requires n < f.outputs && Defines(f.definition, f.outputs)
    ensures r.1 >= k
  {
    if !f.pure then (EVERYTHING, k)
    else
      var (i, k1) := DefinitionBounds(f.definition, n, AnyArgs(f), Ctx(fb, false, o), k);
      (Simplified(i, o), k1)
  }

  /** Outputs `n` and later, one after the other. */
  function WithOutputs(f: Func, n: nat, fb: FuncBounds, o: Oracle, k: nat): (r: (FuncBounds, nat))
    requires n <= f.outputs && Defines(f.definition, f.outputs)
    ensures r.1 >= k
    decreases f.outputs - n
  {
    if n == f.outputs then (fb, k)
    else
      var (i, k1) := OutputBounds(f, n, fb, o, k);
      WithOutputs(f, n + 1, fb[(f.name, n) := i], o, k1)
  }

  function WithFuncs(fs: seq<Func>, fb: FuncBounds, o: Oracle, k: nat): (r: (FuncBounds, nat))
    requires forall f :: f in fs ==> Defines(f.definition, f.outputs)
    ensures r.1 >= k
  {
    if fs == [] then (fb, k)
    else
      var (fb1, k1) := WithOutputs(fs[0], 0, fb, o, k);
      WithFuncs(fs[1..], fb1, o, k1)
  }

  method DefinitionValueBounds(d: Definition, n: nat, scope: Scope, c: Ctx, next: nat)
      returns (result: Interval, k: nat)
    requires n < |d.values| && Defines(d, |d.values|)
    ensures (result, k) == DefinitionBounds(d, n, scope, c, next)
    decreases d
  {
    hide BoundsOf;
    var (own, k1) := BoundsOf(d.values[n], scope, c, next);
    result, k := own, k1;
    ghost var all := d.specializations;
    assert all[0..] == all;
    for i := 0 to |d.specializations|
      invariant IncludeAll(d, all, n, own, scope, c, k1) == IncludeAll(d, all[i..], n, result, scope, c, k)
    {
      assert all[i..][0] == all[i] && all[i..][1..] == all[i + 1..];
      var s;
      s, k := DefinitionValueBounds(d.specializations[i].definition, n, scope, c, k);
      result := IncludeInterval(result, s);
    }
  }

  method ComputeFunctionValueBounds(order: seq<Func>, o: Oracle, next: nat) returns (fb: FuncBounds, k: nat)
    requires forall f :: f in order ==> Defines(f.definition, f.outputs)
    ensures (fb, k) == WithFuncs(order, map[], o, next)
  {
    hide DefinitionBounds;
    fb, k := map[], next;
    assert order[0..] == order;
    for i := 0 to |order|
      invariant WithFuncs(order, map[], o, next) == WithFuncs(order[i..], fb, o, k)
    {
      assert order[i..][0] == order[i] && order[i..][1..] == order[i + 1..];
      var f, before, k0 := order[i], fb, k;
      for j := 0 to f.outputs
        invariant WithOutputs(f, 0, before, o, k0) == WithOutputs(f, j, fb, o, k)
      {
        var result := EVERYTHING;
        if f.pure {
          result, k := DefinitionValueBounds(f.definition, j, AnyArgs(f), Ctx(fb, false, o), k);
          var fixed := result.IsPoint();
          if result.HasLower() { result := result.(min := Fin(o.simp(result.min.e))); }
          if result.HasUpper() { result := result.(max := if fixed then result.min else Fin(o.simp(result.max.e))); }
        }
        fb := fb[(f.name, j) := result];
      }
    }
  }

  // ----- the values -----

  /** The value of an output: that of the first specialization whose condition holds. */
  function ValueIn(d: Definition, n: nat, w: World): int
    requires n < |d.values| && Defines(d, |d.values|)
    decreases d, 1
  {
    FirstThatHolds(d, d.specializations, n, w)
  }

  function FirstThatHolds(d: Definition, ss: seq<Specialization>, n: nat, w: World): int
    requires n < |d.values| && Defines(d, |d.values|) && forall s :: s in ss ==> s in d.specializations
    decreases d, 0, |ss|
  {
    if ss == [] then Eval(d.values[n], w, 0)
    else
      assert ss[0] in d.specializations && Defines(ss[0].definition, |d.values|);
      if Eval(ss[0].condition, w, 0) != 0 then ValueIn(ss[0].definition, n, w) else FirstThatHolds(d, ss[1..], n, w)
  }

  /** A point with as many coordinates as there are arguments. No call has
      another number; one that had would be cut, or filled with zeros. */
  function Fit(q: seq<int>, n: nat): (r: seq<int>)
    ensures |r| == n
  {
    if |q| >= n then q[..n] else q + seq(n - |q|, _ => 0)
  }

  /** Calling a pure Func gives the value of its definition, all other values being `all` too. */
  ghost predicate Realizes(all: Callee, f: Func, w: World) {
    f.pure && Defines(f.definition, f.outputs) ==>
      forall n, q :: 0 <= n < f.outputs ==>
        all(f.name, n, q) == ValueIn(f.definition, n, BindArgs(f.args, Fit(q, |f.args|), w.(funcs := all)))
  }

  ghost predicate DefinitionOk(d: Definition, names: set<Name>) {
    && (forall v :: v in d.values ==> HasTy(v, IntT) && Names(v) <= names)
    && (forall s :: s in d.specializations ==> DefinitionOk(s.definition, names))
  }

  ghost predicate FuncOk(f: Func, names: set<Name>) {
    && Defines(f.definition, f.outputs) && DefinitionOk(f.definition, names)
    && (forall x :: x in f.args ==> x.ty.IntT?)
    && (forall i, j :: 0 <= i < j < |f.args| ==> f.args[i] != f.args[j])
  }

  // ----- the ends are well formed -----

  lemma IncludeShape(i: Interval, j: Interval, k: nat, k': nat)
    requires IvGood(i, IntT, k) && IvGood(j, IntT, k') && k <= k'
    ensures IvGood(IncludeInterval(i, j), IntT, k')
  {
    hide Good;
    IvGoodLater(i, IntT, k, k');
    MakeMinGood(i.min, j.min, IntT, k');
    MakeMaxGood(i.max, j.max, IntT, k');
  }

  lemma IncludeHolds(i: Interval, j: Interval, v: int, w: World)
    requires In(v, i, w) || In(v, j, w)
    ensures In(v, IncludeInterval(i, j), w)
  {
    hide Eval, MakeMin, MakeMax;
    MakeMinMeaning(i.min, j.min, v, w);
    MakeMaxMeaning(i.max, j.max, v, w);
  }

  lemma SimplifiedShape(i: Interval, o: Oracle, k: nat)
    requires IvGood(i, IntT, k) && SoundOracle(o)
    ensures IvGood(Simplified(i, o), IntT, k)
  {
    hide HasTy, Names, IsPure;
  }

  lemma SimplifiedHolds(i: Interval, o: Oracle, v: int, w: World)
    requires SoundOracle(o) && In(v, i, w)
    ensures In(v, Simplified(i, o), w)
  {
    hide Eval;
  }

  /** The Func bounds `c.funcBounds` hold in the run `r` of a Func's value, and
      in every world in which they are used. */
  ghost predicate Used(c: Ctx, k: nat, args: Scope, names: set<Name>, r: World, v: World) {
    && SoundOracle(c.oracle) && FuncsGood(c.funcBounds, k) && Below(names, k)
    && FuncsCovered(c.funcBounds, r, v) && AgreeOutside(names, args, r, v)
  }

  ghost predicate Unlimited(scope: Scope) { forall x :: x in scope ==> scope[x] == EVERYTHING && x.ty.IntT? }

  lemma UnlimitedScope(scope: Scope, r: World, v: World)
    requires Unlimited(scope)
    ensures Covers(scope, r, v)
  {}

  lemma UnlimitedShape(scope: Scope, k: nat)
    requires Unlimited(scope)
    ensures ScopeGood(scope, k)
  {}

  lemma {:induction false} DefinitionShape(d: Definition, n: nat, scope: Scope, c: Ctx, k: nat, names: set<Name>)
    requires n < |d.values| && Defines(d, |d.values|) && DefinitionOk(d, names)
    requires Unlimited(scope) && FuncsGood(c.funcBounds, k) && Below(names, k)
    ensures IvGood(DefinitionBounds(d, n, scope, c, k).0, IntT, DefinitionBounds(d, n, scope, c, k).1)
    decreases d, 1
  {
    hide BoundsOf, HasTy, Names, IvGood;
    var e := d.values[n];
    assert e in d.values;
    UnlimitedShape(scope, k);
    BoundsShape(e, IntT, scope, c, k);
    var (i, k1) := BoundsOf(e, scope, c, k);
    LaterShape(scope, c.funcBounds, k, k1);
    IncludeAllShape(d, d.specializations, n, i, scope, c, k1, names);
  }

  lemma {:induction false} IncludeAllShape(d: Definition, ss: seq<Specialization>, n: nat, i: Interval, scope: Scope,
      c: Ctx, k: nat, names: set<Name>)
    requires n < |d.values| && Defines(d, |d.values|) && DefinitionOk(d, names)
    requires forall s :: s in ss ==> s in d.specializations
    requires Unlimited(scope) && FuncsGood(c.funcBounds, k) && Below(names, k) && IvGood(i, IntT, k)
    ensures IvGood(IncludeAll(d, ss, n, i, scope, c, k).0, IntT, IncludeAll(d, ss, n, i, scope, c, k).1)
    decreases d, 0, |ss|
  {
    hide BoundsOf, HasTy, Names, IvGood, DefinitionBounds;
    if ss != [] {
      assert ss[0] in d.specializations && Defines(ss[0].definition, |d.values|);
      var s := ss[0].definition;
      var (j, k1) := DefinitionBounds(s, n, scope, c, k);
      DefinitionShape(s, n, scope, c, k, names);
      LaterShape(scope, c.funcBounds, k, k1) by { UnlimitedShape(scope, k); }
      IncludeShape(i, j, k, k1);
      IncludeAllShape(d, ss[1..], n, IncludeInterval(i, j), scope, c, k1, names);
    }
  }

  /** Whichever specialization is taken, its value lies in the interval. */
  lemma {:induction false} DefinitionHolds(d: Definition, n: nat, scope: Scope, c: Ctx, k: nat, names: set<Name>,
      r: World, v: World)
    requires n < |d.values| && Defines(d, |d.values|) && DefinitionOk(d, names)
    requires Unlimited(scope) && Used(c, k, scope, names, r, v)
    ensures In(ValueIn(d, n, r), DefinitionBounds(d, n, scope, c, k).0, v)
    decreases d, 1
  {
    hide BoundsOf, Eval, HasTy, Names, SoundOracle, In;
    var e := d.values[n];
    assert e in d.values;
    UnlimitedScope(scope, r, v);
    UnlimitedShape(scope, k);
    assert AgreeOutside(Names(e), scope, r, v);
    BoundsSound(e, IntT, scope, c, k, r, v, 0);
    var (i, k1) := BoundsOf(e, scope, c, k);
    LaterShape(scope, c.funcBounds, k, k1);
    IncludeAllHolds(d, d.specializations, n, i, scope, c, k1, names, r, v);
  }

  lemma {:induction false} IncludeAllHolds(d: Definition, ss: seq<Specialization>, n: nat, i: Interval, scope: Scope,
      c: Ctx, k: nat, names: set<Name>, r: World, v: World)
    requires n < |d.values| && Defines(d, |d.values|) && DefinitionOk(d, names)
    requires forall s :: s in ss ==> s in d.specializations
    requires Unlimited(scope) && Used(c, k, scope, names, r, v) && In(Eval(d.values[n], r, 0), i, v)
    ensures var i' := IncludeAll(d, ss, n, i, scope, c, k).0;
            In(FirstThatHolds(d, ss, n, r), i', v) && forall x :: In(x, i, v) ==> In(x, i', v)
    decreases d, 0, |ss|
  {
    hide BoundsOf, Eval, HasTy, Names, SoundOracle, In, DefinitionBounds;
    if ss != [] {
      assert ss[0] in d.specializations && Defines(ss[0].definition, |d.values|);
      var s := ss[0].definition;
      var (j, k1) := DefinitionBounds(s, n, scope, c, k);
      DefinitionHolds(s, n, scope, c, k, names, r, v);
      LaterShape(scope, c.funcBounds, k, k1) by { UnlimitedShape(scope, k); }
      forall x | In(x, i, v) || In(x, j, v) ensures In(x, IncludeInterval(i, j), v) { IncludeHolds(i, j, x, v); }
      IncludeAllHolds(d, ss[1..], n, IncludeInterval(i, j), scope, c, k1, names, r, v);
    }
  }

  /** What holds while bounds are collected. No end's name is in `s`. */
  ghost predicate Collected(fb: FuncBounds, k: nat, o: Oracle, names: set<Name>, all: Callee, s: set<Name>, w: World) {
    && SoundOracle(o) && FuncsGood(fb, k) && Below(names, k) && names !! s && BoundsTrue(fb, all, s, w)
  }

  lemma OutputHolds(f: Func, n: nat, fb: FuncBounds, o: Oracle, k: nat, names: set<Name>, all: Callee, s: set<Name>,
      w: World, q: seq<int>, v: World)
    requires Collected(fb, k, o, names, all, s, w) && FuncOk(f, names) && n < f.outputs && Realizes(all, f, w)
    requires v.funcs == all && SameBut(s, w.(funcs := all), v)
    ensures In(all(f.name, n, q), OutputBounds(f, n, fb, o, k).0, v)
  {
    hide DefinitionBounds, ValueIn, In, BindArgs, DefinitionOk, SoundOracle, Simplified, FuncsGood;
    if f.pure {
      var r, c := BindArgs(f.args, Fit(q, |f.args|), w.(funcs := all)), Ctx(fb, false, o);
      BindArgsMeaning(f.args, Fit(q, |f.args|), w.(funcs := all));
      assert Used(c, k, AnyArgs(f), names, r, v) by { RunUses(f, fb, o, k, names, all, s, w, r, v); }
      DefinitionHolds(f.definition, n, AnyArgs(f), c, k, names, r, v);
      SimplifiedHolds(DefinitionBounds(f.definition, n, AnyArgs(f), c, k).0, o, all(f.name, n, q), v);
    } else {
      EverythingHolds(all(f.name, n, q), v);
    }
  }

  lemma EverythingHolds(x: int, v: World)
    ensures In(x, EVERYTHING, v)
  {}

  lemma RunUses(f: Func, fb: FuncBounds, o: Oracle, k: nat, names: set<Name>, all: Callee, s: set<Name>, w: World,
      r: World, v: World)
    requires Collected(fb, k, o, names, all, s, w) && v.funcs == all && SameBut(s, w.(funcs := all), v)
    requires SameBut((set x | x in f.args), w.(funcs := all), r)
    ensures Used(Ctx(fb, false, o), k, AnyArgs(f), names, r, v)
  {
    hide In, SoundOracle, FuncsGood;
    forall g: string, i: nat, args: seq<int> | (g, i) in fb ensures In(r.funcs(g, i, args), fb[(g, i)], v) {
      assert In(all((g, i).0, (g, i).1, args), fb[(g, i)], v);
    }
  }

  lemma OutputShape(f: Func, n: nat, fb: FuncBounds, o: Oracle, k: nat, names: set<Name>)
    requires SoundOracle(o) && FuncsGood(fb, k) && Below(names, k) && FuncOk(f, names) && n < f.outputs
    ensures IvGood(OutputBounds(f, n, fb, o, k).0, IntT, OutputBounds(f, n, fb, o, k).1)
  {
    hide DefinitionBounds, SoundOracle, Simplified, DefinitionOk, FuncsGood;
    if f.pure {
      DefinitionShape(f.definition, n, AnyArgs(f), Ctx(fb, false, o), k, names);
      var (i, k1) := DefinitionBounds(f.definition, n, AnyArgs(f), Ctx(fb, false, o), k);
      SimplifiedShape(i, o, k1);
    }
  }

  lemma {:induction false} WithOutputsHold(f: Func, n: nat, fb: FuncBounds, o: Oracle, k: nat, names: set<Name>,
      all: Callee, s: set<Name>, w: World)
    requires Collected(fb, k, o, names, all, s, w) && FuncOk(f, names) && n <= f.outputs && Realizes(all, f, w)
    ensures var (fb', k') := WithOutputs(f, n, fb, o, k); Collected(fb', k', o, names, all, s, w)
    decreases f.outputs - n
  {
    hide OutputBounds, In, SoundOracle, DefinitionOk, Realizes, IvGood;
    if n < f.outputs {
      var (i, k1) := OutputBounds(f, n, fb, o, k);
      OutputShape(f, n, fb, o, k, names);
      var fb1 := fb[(f.name, n) := i];
      forall key | key in fb1 ensures IvGood(fb1[key], IntT, k1) {
        if key in fb { IvGoodLater(fb[key], IntT, k, k1); }
      }
      forall v: World, key: (string, nat), q: seq<int> |
        key in fb1 && v.funcs == all && SameBut(s, w.(funcs := all), v)
        ensures In(all(key.0, key.1, q), fb1[key], v)
      {
        if key == (f.name, n) { OutputHolds(f, n, fb, o, k, names, all, s, w, q, v); }
      }
      WithOutputsHold(f, n + 1, fb1, o, k1, names, all, s, w);
    }
  }

  /** The bounds collected of Funcs, in any order, hold of every value these
      Funcs take, at all arguments and whichever specialization is used, in
      every world around that leaves the names used by the definitions alone. */
  lemma {:induction false} FuncBoundsHold(fs: seq<Func>, fb: FuncBounds, o: Oracle, k: nat, names: set<Name>,
      all: Callee, s: set<Name>, w: World)
    requires Collected(fb, k, o, names, all, s, w)
    requires forall f :: f in fs ==> Defines(f.definition, f.outputs)
    requires forall f :: f in fs ==> FuncOk(f, names) && Realizes(all, f, w)
    ensures var (fb', k') := WithFuncs(fs, fb, o, k); Collected(fb', k', o, names, all, s, w)
  {
    hide WithOutputs, Collected, DefinitionOk, Realizes;
    if fs != [] {
      assert fs[0] in fs;
      WithOutputsHold(fs[0], 0, fb, o, k, names, all, s, w);
      var (fb1, k1) := WithOutputs(fs[0], 0, fb, o, k);
      FuncBoundsHold(fs[1..], fb1, o, k1, names, all, s, w);
    }
  }
}
