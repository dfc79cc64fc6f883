// Computing a Func whose indexing is clamped: whatever memory holds, only
// points of the regions are read.

module PipelineClamped {
  import opened IR
  import opened Intervals
  import opened BoundsRules
  import opened Bounds
  import opened Boxes
  import opened Stmts
  import opened BoxesTouching
  import opened BoxesShape
  import opened BoxesSound
  import opened BoundsInference
  import opened PipelineSound
  import opened PipelineValues
  import opened FuncValues
  import opened Pipelines
  import opened ClampAccesses

  /** The names that Func bounds mention are neither those of arguments nor those of regions' ends. */
  ghost predicate Apart(c: Clamps, defs: seq<FuncDef>) {
    && EndNames(c) !! EndsBefore(|defs|, defs)
    && (forall i, x :: 0 <= i < |defs| && x in defs[i].args ==> x !in EndNames(c))
  }

  ghost predicate Is32Bit(mem: Callee) { forall f, n, q :: INT_MIN <= mem(f, n, q) <= INT_MAX }

  /** No Func has bounds with one end only. */
  predicate BothEndsOrNone(c: Clamps) {
    forall key :: key in c.funcBounds ==> c.funcBounds[key].IsBounded() || c.funcBounds[key] == EVERYTHING
  }

  ghost predicate Clampable(defs: seq<FuncDef>, c: Clamps) {
    c.inner == {} && Apart(c, defs) && PlainEnds(c) && BothEndsOrNone(c)
  }

  lemma BothEnds(i: Interval, x: int, w: World, w': World)
    requires PlainEnd(i.min) && PlainEnd(i.max) && SameOn(IvNames(i), w, w') && In(x, i, w)
    ensures In(x, i, w')
  {
    hide Eval, IsPure, Scalar, Names;
    if i.min.Fin? { EndValue(i.min.e, w, w', 0); }
    if i.max.Fin? { EndValue(i.max.e, w, w', 0); }
  }

  /** Bounded memory is in bounds. */
  lemma ClampedMemoryTrue(defs: seq<FuncDef>, u: Setup, k0: nat, g: Program, mem: Callee, w: World)
    requires Pipeline(defs, g) && SoundOracle(u.c.oracle) && OwnBounds(defs, u, g, k0) && Is32Bit(mem)
    requires Clampable(defs, Clamps(u.c.funcBounds, {}))
    ensures var c := Clamps(u.c.funcBounds, {});
            BoundsTrue(u.c.funcBounds, ClampedMemory(mem, c, w), EndsBefore(|defs|, defs), w)
  {
    hide Pipeline, SoundOracle, OwnBounds, EndsBefore, In, PlainEnd, IvNames, Defined;
    var fb, c := u.c.funcBounds, Clamps(u.c.funcBounds, {});
    var all, cm := Defined(|defs|, defs, mem, w), ClampedMemory(mem, c, w);
    OwnBoundsTrue(defs, u, k0, g, mem, w);
    forall v: World, key: (string, nat), q: seq<int> |
      key in fb && v.funcs == cm && SameBut(EndsBefore(|defs|, defs), w.(funcs := cm), v)
      ensures In(cm(key.0, key.1, q), fb[key], v)
    {
      var i, x, va := fb[key], all(key.0, key.1, q), w.(funcs := all);
      assert In(x, i, va);
      assert IvNames(i) <= EndNames(c);
      BothEnds(i, x, va, w);
      assert (key.0, key.1) == key;
      InClamped(i, x, mem(key.0, key.1, q), w);
      BothEnds(i, cm(key.0, key.1, q), w, v);
    }
  }

  lemma InClamped(i: Interval, x: int, v: int, w: World)
    requires In(x, i, w) && (i.IsBounded() || i == EVERYTHING) && INT_MIN <= v <= INT_MAX
    ensures In(if SmallerThanType(i) then ClampedValue(v, i, w) else v, i, w)
  {
    hide Eval;
    if i == Interval(Fin(I(INT_MIN)), Fin(I(INT_MAX))) {
      EvalConst(INT_MIN, w);
      EvalConst(INT_MAX, w);
    }
  }

  /** Computing a value with its indexing clamped, at a point of the Func's
      region and with anything in memory, calls only Funcs that come earlier,
      and only at points of their regions. */
  lemma ClampedReadsStayInside(i: nat, j: nat, defs: seq<FuncDef>, required: seq<State>, u: Setup, k0: nat, k: nat,
      g: Program, mem: Callee, w0: World, v: Expr, q: seq<int>, pt: seq<int>)
    requires Inferred(defs, required, u, k, g) && OwnBounds(defs, u, g, k0) && Is32Bit(mem)
    requires var c := Clamps(u.c.funcBounds, {});
             Clampable(defs, c) && OwnNameFree(v) && EndNames(c) !! Binders(v)
    requires i < |defs| && j < |defs| && v in defs[i].values
    requires var w1, c := After(0, defs, required, u, w0), Clamps(u.c.funcBounds, {});
             && InRegion(defs[i], q, w1)
             && CallsAt(ClampExpr(v, false, map[], c).0, PointWorld(defs[i], q, mem, w1), 0, defs[j].name, pt)
    ensures j < i && InRegion(defs[j], pt, After(0, defs, required, u, w0))
  {
    InferredOracle(defs, required, u, k, g);
    InferredParts(defs, required, u, k, g, i);
    hide Inferred, Pipeline, After, BoundsTrue, EndsBefore, InRegion, SoundOracle, Accepted, SetupGood, OwnBounds,
        PointWorld, CallsAt, ClampExpr, ClampedMemory, OwnNameFree, Binders, EndNames, Clampable, DefOk;
    var w1, c := After(0, defs, required, u, w0), Clamps(u.c.funcBounds, {});
    RegionSized(defs[i], q, w1);
    var cm := ClampedMemory(mem, c, w1);
    ClampedMemoryTrue(defs, u, k0, g, mem, w1);
    RunClamps(i, defs, g, c, v, q, mem, w1);
    ClampedMeaning(v, false, map[], map[], c, PointWorld(defs[i], q, mem, w1), PointWorld(defs[i], q, cm, w1), w1, 0,
                   defs[j].name, pt);
    CallsStayInside(i, j, defs, required, u, k, g, q, cm, w0, v, 0, pt);
  }

  lemma RunClamps(i: nat, defs: seq<FuncDef>, g: Program, c: Clamps, v: Expr, q: seq<int>, mem: Callee, w: World)
    requires i < |defs| && DefOk(defs[i], g) && |q| == |defs[i].args|
    requires Clampable(defs, c) && EndNames(c) !! Binders(v)
    ensures
      var r, r' := PointWorld(defs[i], q, mem, w), PointWorld(defs[i], q, ClampedMemory(mem, c, w), w);
      Clamping(c, Binders(v), map[], r, r', w) && Alike(Names(v), map[], r, r')
      && Later(ClampExpr(v, false, map[], c).1, map[])
  {
    hide ClampedMemory, EndsBefore, EndNames, PlainEnds, Binders, Names, ClampExpr;
    var d, cm := defs[i], ClampedMemory(mem, c, w);
    ArgsDiffer(d, g);
    BindArgsMeaning(d.args, q, w.(funcs := mem));
    PointFuncs(d, q, mem, w);
    PointFuncs(d, q, cm, w);
    PointVars(d, q, mem, cm, w);
  }
}
