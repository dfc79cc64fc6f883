// Boxes: one interval per dimension, and perhaps a condition under which the
// box is used at all (merge_boxes and box_contains of src/Bounds.cpp).

module Boxes {
  import opened Options
  import opened IR
  import opened Intervals
  import opened BoundsRules
  import opened Bounds

  datatype Box = Box(bounds: seq<Interval>, used: Option<Expr>) {
    predicate IsEmpty() { bounds == [] }
    predicate MaybeUnused() { used.Some? && !IsOne(Fin(used.value)) }
  }

  const EMPTY_BOX := Box([], None)

  /** The condition under which a box that may be unused is used. */
  ghost predicate Used(b: Box, w: World) {
    b.used.Some? ==> Eval(b.used.value, w, 0) != 0
  }

  /** Coordinate `d` of a point of a used box. */
  ghost predicate InDim(b: Box, d: nat, v: int, w: World) {
    d < |b.bounds| && In(v, b.bounds[d], w) && Used(b, w)
  }

  ghost predicate InBox(b: Box, pt: seq<int>, w: World) {
    |pt| == |b.bounds| && Used(b, w) && forall d :: 0 <= d < |pt| ==> In(pt[d], b.bounds[d], w)
  }

  function Complementary(a: Box, b: Box): bool
    requires a.used.Some? && b.used.Some?
  {
    a.used.value == Un(Not, b.used.value) || Un(Not, a.used.value) == b.used.value
  }

  /** One end of a merged dimension. Both ends are finite and differ. */
  function MergeEnd(isMin: bool, a: Box, b: Box, x: Expr, y: Expr): Expr {
    if a.MaybeUnused() && b.MaybeUnused() then
      if Complementary(a, b) then Select(a.used.value, x, y)
      else
        Select(Bin(And, a.used.value, b.used.value), Extreme(isMin, x, y), Select(a.used.value, x, y))
    else if a.MaybeUnused() then Select(a.used.value, Extreme(isMin, x, y), y)
    else if b.MaybeUnused() then Select(b.used.value, Extreme(isMin, x, y), x)
    else Extreme(isMin, x, y)
  }

  function MergeDim(a: Box, b: Box, i: Interval, j: Interval, o: Oracle): Interval {
    Interval(
      if i.min == j.min then i.min
      else if i.HasLower() && j.HasLower() then Fin(o.simp(MergeEnd(true, a, b, i.min.e, j.min.e)))
      else NegInf,
      if i.max == j.max then i.max
      else if i.HasUpper() && j.HasUpper() then Fin(o.simp(MergeEnd(false, a, b, i.max.e, j.max.e)))
      else PosInf)
  }

  function MergeUsed(a: Box, b: Box, o: Oracle): Option<Expr> {
    if a.MaybeUnused() && b.MaybeUnused() then
      if a.used == b.used then a.used
      else
        var u := o.simp(Bin(Or, a.used.value, b.used.value));
        if IsOne(Fin(u)) then None else Some(u)
    else None
  }

  function Merge(a: Box, b: Box, o: Oracle): Box {
    if b.IsEmpty() then a
    else if a.IsEmpty() then b
    else if |a.bounds| != |b.bounds| then a  // an internal error in the compiler
    else
      Box(seq(|a.bounds|, i requires 0 <= i < |a.bounds| => MergeDim(a, b, a.bounds[i], b.bounds[i], o)),
          MergeUsed(a, b, o))
  }

  /** The box as the compiler keeps it, merged into in place. */
  class BoxCell {
    var bounds: seq<Interval>
    var used: Option<Expr>

    function Value(): Box reads this { Box(bounds, used) }

    constructor (b: Box)
      ensures Value() == b
    {
      bounds, used := b.bounds, b.used;
    }

    method MergeFrom(b: Box, o: Oracle)
      requires bounds == [] || b.bounds == [] || |bounds| == |b.bounds|
      modifies this
      ensures Value() == Merge(old(Value()), b, o)
    {
      if b.IsEmpty() { return; }
      if bounds == [] {
        bounds, used := b.bounds, b.used;
        return;
      }
      ghost var a := Value();
      for i := 0 to |bounds|
        invariant |bounds| == |a.bounds| && used == a.used
        invariant forall j :: 0 <= j < i ==> bounds[j] == MergeDim(a, b, a.bounds[j], b.bounds[j], o)
        invariant forall j :: i <= j < |bounds| ==> bounds[j] == a.bounds[j]
      {
        bounds := bounds[i := MergeDim(Value().(bounds := []), b, bounds[i], b.bounds[i], o)];
        MergeDimUsed(a, Value(), b, a.bounds[i], b.bounds[i], o);
      }
      used := MergeUsed(Value(), b, o);
    }
  }

  /** How a dimension is merged depends only on the boxes' conditions. */
  lemma MergeDimUsed(a: Box, a': Box, b: Box, i: Interval, j: Interval, o: Oracle)
    requires a.used == a'.used
    ensures MergeDim(a, b, i, j, o) == MergeDim(a'.(bounds := []), b, i, j, o)
  {}

  // ----- merging keeps every point of both boxes -----

  lemma MergeEndMeaning(isMin: bool, a: Box, b: Box, x: Expr, y: Expr, w: World)
    ensures Used(a, w) ==> Best(isMin, Eval(MergeEnd(isMin, a, b, x, y), w, 0), Eval(x, w, 0))
                           == Eval(MergeEnd(isMin, a, b, x, y), w, 0)
    ensures Used(b, w) ==> Best(isMin, Eval(MergeEnd(isMin, a, b, x, y), w, 0), Eval(y, w, 0))
                           == Eval(MergeEnd(isMin, a, b, x, y), w, 0)
  {
    hide Eval, Extreme;
    ExtremeValue(isMin, x, y, w);
    var m := Extreme(isMin, x, y);
    if a.MaybeUnused() {
      EvalSelect(a.used.value, x, y, w);
      EvalSelect(a.used.value, m, y, w);
    }
    if b.MaybeUnused() { EvalSelect(b.used.value, m, x, w); }
    if a.MaybeUnused() && b.MaybeUnused() {
      EvalBinIs(And, a.used.value, b.used.value, w);
      EvalSelect(Bin(And, a.used.value, b.used.value), m, Select(a.used.value, x, y), w);
      EvalNot(a.used.value, w);
      EvalNot(b.used.value, w);
    }
  }

  lemma EvalNot(a: Expr, w: World)
    ensures Eval(Un(Not, a), w, 0) == B2I(Eval(a, w, 0) == 0)
  {}

  lemma MergeDimMeaning(a: Box, b: Box, i: Interval, j: Interval, o: Oracle, v: int, w: World)
    requires SoundOracle(o)
    requires (Used(a, w) && In(v, i, w)) || (Used(b, w) && In(v, j, w))
    ensures In(v, MergeDim(a, b, i, j, o), w)
  {
    hide Eval, MergeEnd;
    if i.HasLower() && j.HasLower() {
      var e := MergeEnd(true, a, b, i.min.e, j.min.e);
      MergeEndMeaning(true, a, b, i.min.e, j.min.e, w);
      assert Eval(o.simp(e), w, 0) == Eval(e, w, 0);
    }
    if i.HasUpper() && j.HasUpper() {
      var e := MergeEnd(false, a, b, i.max.e, j.max.e);
      MergeEndMeaning(false, a, b, i.max.e, j.max.e, w);
      assert Eval(o.simp(e), w, 0) == Eval(e, w, 0);
    }
  }

  lemma MergeUsedMeaning(a: Box, b: Box, o: Oracle, w: World)
    requires SoundOracle(o) && (Used(a, w) || Used(b, w))
    ensures MergeUsed(a, b, o).Some? ==> Eval(MergeUsed(a, b, o).value, w, 0) != 0
  {
    if a.MaybeUnused() && b.MaybeUnused() {
      var e := Bin(Or, a.used.value, b.used.value);
      EvalBinIs(Or, a.used.value, b.used.value, w);
      assert Eval(o.simp(e), w, 0) == Eval(e, w, 0);
    }
  }

  /** Every point of either box is a point of the merged box, coordinate by coordinate. */
  lemma MergeKeeps(a: Box, b: Box, o: Oracle, d: nat, v: int, w: World)
    requires SoundOracle(o)
    requires a.IsEmpty() || b.IsEmpty() || |a.bounds| == |b.bounds|
    requires InDim(a, d, v, w) || InDim(b, d, v, w)
    ensures InDim(Merge(a, b, o), d, v, w)
  {
    hide MergeDim, MergeUsed, In;
    if !a.IsEmpty() && !b.IsEmpty() {
      MergeDimMeaning(a, b, a.bounds[d], b.bounds[d], o, v, w);
      MergeUsedMeaning(a, b, o, w);
    }
  }

  // ----- box_contains -----

  function ContainsCondition(outer: Box, inner: Box, i: nat): Option<Expr>
    requires i <= |inner.bounds| <= |outer.bounds|
  {
    if i == 0 then Some(Const(1, BoolT))
    else
      var c := ContainsCondition(outer, inner, i - 1);
      var p, q := outer.bounds[i - 1], inner.bounds[i - 1];
      if c.None? || (p.HasLower() && !q.HasLower()) || (p.HasUpper() && !q.HasUpper()) then None
      else
        var c1 := if p.HasLower() then Bin(And, c.value, Bin(LE, p.min.e, q.min.e)) else c.value;
        Some(if p.HasUpper() then Bin(And, c1, Bin(GE, p.max.e, q.max.e)) else c1)
  }

  function BoxContains(outer: Box, inner: Box, o: Oracle): bool {
    if |inner.bounds| > |outer.bounds| then false
    else
      var c := ContainsCondition(outer, inner, |inner.bounds|);
      if c.None? then false
      else if outer.MaybeUnused() then
        inner.MaybeUnused() &&
        o.prove(Bin(And, c.value, Bin(EQ, Bin(And, outer.used.value, inner.used.value), inner.used.value)))
      else o.prove(c.value)
  }

  /** Dimensions that a true condition speaks about are contained. */
  lemma {:induction false} ContainsConditionMeaning(outer: Box, inner: Box, i: nat, d: nat, v: int, w: World)
    requires d < i <= |inner.bounds| <= |outer.bounds|
    requires ContainsCondition(outer, inner, i).Some? && Eval(ContainsCondition(outer, inner, i).value, w, 0) != 0
    requires In(v, inner.bounds[d], w)
    requires !outer.bounds[d].IsEmpty()
    ensures In(v, outer.bounds[d], w)
  {
    hide Eval;
    var c := ContainsCondition(outer, inner, i - 1).value;
    var p, q := outer.bounds[i - 1], inner.bounds[i - 1];
    var c1 := if p.HasLower() then Bin(And, c, Bin(LE, p.min.e, q.min.e)) else c;
    if p.HasUpper() {
      EvalBinIs(And, c1, Bin(GE, p.max.e, q.max.e), w);
      EvalBinIs(GE, p.max.e, q.max.e, w);
    }
    if p.HasLower() {
      EvalBinIs(And, c, Bin(LE, p.min.e, q.min.e), w);
      EvalBinIs(LE, p.min.e, q.min.e, w);
    }
    if d < i - 1 { ContainsConditionMeaning(outer, inner, i - 1, d, v, w); }
  }

  /** A box that is found to contain another holds each of its points, as far as
      the inner box goes, whenever the inner box is used - in exactly the
      dimensions in which the outer box is not plainly empty. A plainly empty
      dimension has neither bound, so it is never compared. */
  lemma BoxContainsSound(outer: Box, inner: Box, o: Oracle, pt: seq<int>, w: World)
    requires SoundOracle(o) && BoxContains(outer, inner, o)
    requires inner.used.Some? ==> HasTy(inner.used.value, BoolT)
    requires outer.used.Some? ==> HasTy(outer.used.value, BoolT)
    requires InBox(inner, pt, w)
    ensures |pt| <= |outer.bounds| && Used(outer, w)
    ensures forall d :: 0 <= d < |pt| ==> (In(pt[d], outer.bounds[d], w) <==> !outer.bounds[d].IsEmpty())
  {
    hide Eval, In, ContainsCondition;
    var c := ContainsCondition(outer, inner, |inner.bounds|).value;
    if outer.MaybeUnused() {
      var u, v := outer.used.value, inner.used.value;
      var e := Bin(EQ, Bin(And, u, v), v);
      assert Eval(Bin(And, c, e), w, 0) != 0;
      EvalBinIs(And, c, e, w);
      EvalBinIs(EQ, Bin(And, u, v), v, w);
      EvalBinIs(And, u, v, w);
      BoolValue(v, w, 0);
    } else {
      assert Eval(c, w, 0) != 0;
      if outer.used.Some? { EvalConstExpr(outer.used.value, w); }
    }
    forall d | 0 <= d < |pt| ensures In(pt[d], outer.bounds[d], w) <==> !outer.bounds[d].IsEmpty() {
      if outer.bounds[d].IsEmpty() {
        EmptyHoldsNothing(outer.bounds[d], pt[d], w);
      } else {
        ContainsConditionMeaning(outer, inner, |inner.bounds|, d, pt[d], w);
      }
    }
  }

  lemma EmptyHoldsNothing(i: Interval, v: int, w: World)
    requires i.IsEmpty()
    ensures !In(v, i, w)
  {}

  /** So a box that holds nothing is said to contain every box of one dimension. */
  lemma EmptyContainsAll(i: Interval, o: Oracle)
    requires o.prove(Const(1, BoolT))
    ensures BoxContains(Box([NOTHING], None), Box([i], None), o)
  {
    var outer, inner := Box([NOTHING], None), Box([i], None);
    assert ContainsCondition(outer, inner, 0) == Some(Const(1, BoolT));
    assert ContainsCondition(outer, inner, 1) == Some(Const(1, BoolT));
  }
}
