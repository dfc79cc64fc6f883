// One directive, on the values of the loop variables: which points of the old
// loops a point of the new loops stores to.

module SplitPoints {
  import opened Arith
  import opened IR
  import opened Splits

  /** The values of a loop. */
  datatype Range = Range(min: int, extent: nat) {
    function Max(): int { min + extent - 1 }
    predicate Has(v: int) { min <= v <= Max() }
  }

  type Dims = map<string, Range>
  type Point = map<string, int>

  predicate InDims(q: Point, dims: Dims) {
    q.Keys == dims.Keys && forall d :: d in dims ==> dims[d].Has(q[d])
  }

  // ----- one split -----

  function Trips(r: Range, f: int): nat
    requires f > 0
  {
    Euclid(r.Max() - r.min + f, f);
    TripsNonNegative(r, f);
    (r.Max() - r.min + f) / f
  }

  lemma TripsNonNegative(r: Range, f: int)
    requires f > 0
    ensures (r.Max() - r.min + f) / f >= 0
  {
    Euclid(r.Max() - r.min + f, f);
    if (r.Max() - r.min + f) / f < 0 { MulLe((r.Max() - r.min + f) / f, -1, f); }
  }

  function BaseAt(how: How, r: Range, f: int, o: int): int {
    match how
    case By(ShiftInwards) | By(ShiftInwardsAndBlend) => MinI(o * f + r.min, r.Max() + (1 - f))
    case _ => o * f + r.min
  }

  /** Whether iteration (o, i) stores anything. */
  predicate StoresAt(how: How, r: Range, f: int, o: int, i: int)
    requires f > 0
  {
    match how
    case By(GuardWithIf) | By(Predicate) | By(PredicateStores) => BaseAt(how, r, f, o) + i <= r.Max()
    case By(ShiftInwardsAndBlend) => BaseAt(how, r, f, o) == o * f + r.min || i >= (0 - r.extent) % f
    case By(RoundUpAndBlend) => o < Trips(r, f) - 1 || i < f - (0 - r.extent) % f
    case _ => true
  }

  /** Splits that store each point once. The others may store a point several
      times or go beyond the range. */
  predicate StoresOnce(how: How) {
    how.Exactly? || (how.By? && !how.tail.RoundUp? && !how.tail.ShiftInwards? && !how.tail.PredicateLoads?)
  }

  /** Where a split stores a given value: its trip, and its place in the trip. */
  function TripOf(r: Range, f: int, v: int): int
    requires f > 0
  {
    (v - r.min) / f
  }

  function PlaceOf(how: How, r: Range, f: int, v: int): int
    requires f > 0
  {
    v - BaseAt(how, r, f, TripOf(r, f, v))
  }

  /** The last trip is the one that may be cut short, by the number of unwanted elements. */
  lemma LastTrip(r: Range, f: int)
    requires f > 0 && r.extent > 0
    ensures var n := Trips(r, f); var u := (0 - r.extent) % f;
            n >= 1 && n * f == r.extent + u && 0 <= u < f && (n - 1) * f < r.extent
  {
    var e := r.extent;
    Euclid(e - 1 + f, f);
    Euclid(0 - e, f);
    Euclid(e - 1, f);
    AddMultiple(e - 1, f, 1);
    var q, m := (e - 1) / f, (e - 1) % f;
    AddMul(q, 1, f);
    assert e - 1 + f == e - 1 + 1 * f;
    AddMul(-q, -1, f);
    DivMod(0 - e, f, -q - 1, f - 1 - m) by { assert (-q - 1) * f == -(q * f) - f; }
    if q < 0 { MulLe(q, -1, f); }
  }

  /** Every value of the range is stored by its own trip and place, whatever the tail. */
  lemma SplitCovers(how: How, r: Range, f: int, v: int)
    requires f > 0 && r.Has(v) && !how.Refused?
    ensures var o, i := TripOf(r, f, v), PlaceOf(how, r, f, v);
            0 <= o < Trips(r, f) && 0 <= i < f && StoresAt(how, r, f, o, i) && BaseAt(how, r, f, o) + i == v
  {
    var o, i, n, u := TripOf(r, f, v), PlaceOf(how, r, f, v), Trips(r, f), (0 - r.extent) % f;
    LastTrip(r, f);
    Euclid(v - r.min, f);
    AddMul(o, 1, f);
    AddMul(n, -1, f);
    if o < 0 { MulLe(o, -1, f); }
    if o >= n { MulLe(n, o, f); }
    if o < n - 1 { MulLe(o + 1, n - 1, f); }
  }

  /** With an exact split nothing else stores that value, and nothing outside the range is stored. */
  lemma SplitOnce(how: How, r: Range, f: int, o: int, i: int)
    requires f > 0 && StoresOnce(how) && (how.Exactly? ==> r.extent % f == 0)
    requires 0 <= o < Trips(r, f) && 0 <= i < f && StoresAt(how, r, f, o, i)
    ensures var v := BaseAt(how, r, f, o) + i; r.Has(v) && o == TripOf(r, f, v) && i == PlaceOf(how, r, f, v)
  {
    var n, u, v := Trips(r, f), (0 - r.extent) % f, BaseAt(how, r, f, o) + i;
    NoTripsWhenEmpty(r, f);
    LastTrip(r, f);
    AddMul(o, 1, f);
    AddMul(n, -1, f);
    MulLe(0, o, f);
    if o < n - 1 { MulLe(o + 1, n - 1, f); } else { assert o == n - 1; }
    if how.Exactly? { WholeTrips(r, f); }
    DivMod(v - r.min, f, o, v - r.min - o * f);
  }

  lemma NoTripsWhenEmpty(r: Range, f: int)
    requires f > 0 && Trips(r, f) > 0
    ensures r.extent > 0
  {
    if r.extent == 0 { DivMod(f - 1, f, 0, f - 1); }
  }

  lemma WholeTrips(r: Range, f: int)
    requires f > 0 && r.extent % f == 0
    ensures Trips(r, f) * f == r.extent && (0 - r.extent) % f == 0
  {
    Euclid(r.extent, f);
    var q := r.extent / f;
    AddMul(q, 1, f);
    DivMod(r.extent - 1 + f, f, q, f - 1);
    DivMod(0 - r.extent, f, -q, 0);
  }

  // ----- one directive -----

  /** What a directive amounts to once its factor has a value. */
  datatype Step =
    | SplitStep(old1: string, outer: string, inner: string, f: int, how: How)
    | FuseStep(fused: string, outer: string, inner: string)
    | RenameStep(old1: string, outer: string)

  /** The directive is about existing loops and makes new ones. */
  predicate Fits(s: Step, dims: Dims) {
    match s
    case SplitStep(x, outer, inner, f, how) =>
      x in dims && outer !in dims && inner !in dims && outer != inner && f > 0 && !how.Refused?
    case FuseStep(x, outer, inner) => outer in dims && inner in dims && outer != inner && x !in dims
    case RenameStep(x, outer) => x in dims && outer !in dims
  }

  function DimsAfter(s: Step, dims: Dims): Dims
    requires Fits(s, dims)
  {
    match s
    case SplitStep(x, outer, inner, f, _) => (dims - {x})[outer := Range(0, Trips(dims[x], f))][inner := Range(0, f)]
    case FuseStep(x, outer, inner) => (dims - {outer, inner})[x := Range(0, dims[inner].extent * dims[outer].extent)]
    case RenameStep(x, outer) => (dims - {x})[outer := dims[x]]
  }

  /** The point of the old loops that a point of the new loops stands for. */
  function Back(s: Step, dims: Dims, q: Point): (p: Point)
    requires Fits(s, dims) && q.Keys == DimsAfter(s, dims).Keys
    ensures p.Keys == dims.Keys
  {
    match s
    case SplitStep(x, outer, inner, f, how) => (q - {outer, inner})[x := BaseAt(how, dims[x], f, q[outer]) + q[inner]]
    case FuseStep(x, outer, inner) =>
      (q - {x})[inner := ModImp(q[x], dims[inner].extent) + dims[inner].min][outer :=
          DivImp(q[x], dims[inner].extent) + dims[outer].min]
    case RenameStep(x, outer) => (q - {outer})[x := q[outer]]
  }

  lemma FusedExtent(dims: Dims, x: string, outer: string, inner: string, q: Point)
    requires Fits(FuseStep(x, outer, inner), dims) && InDims(q, DimsAfter(FuseStep(x, outer, inner), dims))
    ensures dims[inner].extent > 0 && 0 <= q[x] < dims[inner].extent * dims[outer].extent
  {
    assert DimsAfter(FuseStep(x, outer, inner), dims)[x].Has(q[x]);
  }

  predicate Stores(s: Step, dims: Dims, q: Point)
    requires Fits(s, dims) && q.Keys == DimsAfter(s, dims).Keys
  {
    s.SplitStep? ==> StoresAt(s.how, dims[s.old1], s.f, q[s.outer], q[s.inner])
  }

  /** The point of the new loops that stores a point of the old ones. */
  function Forth(s: Step, dims: Dims, p: Point): Point
    requires Fits(s, dims) && InDims(p, dims)
  {
    match s
    case SplitStep(x, outer, inner, f, how) =>
      (p - {x})[outer := TripOf(dims[x], f, p[x])][inner := PlaceOf(how, dims[x], f, p[x])]
    case FuseStep(x, outer, inner) =>
      (p - {outer, inner})[x := (p[outer] - dims[outer].min) * dims[inner].extent + (p[inner] - dims[inner].min)]
    case RenameStep(x, outer) => (p - {x})[outer := p[x]]
  }

  predicate Exact(s: Step, dims: Dims)
    requires Fits(s, dims)
  {
    s.SplitStep? ==> StoresOnce(s.how) && (s.how.Exactly? ==> dims[s.old1].extent % s.f == 0)
  }

  /** Every old point is stored by its own new point. */
  lemma StepCovers(s: Step, dims: Dims, p: Point)
    requires Fits(s, dims) && InDims(p, dims)
    ensures var q := Forth(s, dims, p); InDims(q, DimsAfter(s, dims)) && Stores(s, dims, q) && Back(s, dims, q) == p
  {
    match s
    case SplitStep(x, outer, inner, f, how) => SplitCovers(how, dims[x], f, p[x]);
    case FuseStep(x, outer, inner) =>
      FuseValue(dims[outer].extent, dims[inner].extent, p[outer] - dims[outer].min, p[inner] - dims[inner].min);
    case RenameStep(x, outer) =>
  }

  lemma FuseValue(n: nat, m: nat, o: int, i: int)
    requires 0 <= o < n && 0 <= i < m
    ensures 0 <= o * m + i < m * n && (o * m + i) % m == i && (o * m + i) / m == o
  {
    DivMod(o * m + i, m, o, i);
    MulLe(0, o, m);
    MulLe(o + 1, n, m);
    AddMul(o, 1, m);
  }

  /** With an exact directive a new point that stores does so within the old
      loops, and is the one that stores that point. */
  lemma StepOnce(s: Step, dims: Dims, q: Point)
    requires Fits(s, dims) && Exact(s, dims) && InDims(q, DimsAfter(s, dims)) && Stores(s, dims, q)
    ensures InDims(Back(s, dims, q), dims) && Forth(s, dims, Back(s, dims, q)) == q
  {
    match s
    case SplitStep(x, outer, inner, f, how) =>
      var d := DimsAfter(s, dims);
      assert d[outer].Has(q[outer]) && d[inner].Has(q[inner]);
      SplitOnce(how, dims[x], f, q[outer], q[inner]);
    case FuseStep(x, outer, inner) =>
      FusedExtent(dims, x, outer, inner, q);
      UnfuseValue(dims[outer].extent, dims[inner].extent, q[x]);
    case RenameStep(x, outer) =>
  }

  lemma UnfuseValue(n: nat, m: nat, v: int)
    requires 0 <= v < m * n && m > 0
    ensures 0 <= v / m < n && 0 <= v % m < m && (v / m) * m + v % m == v
  {
    Euclid(v, m);
    if v / m < 0 { MulLe(v / m, -1, m); }
    if v / m >= n { MulLe(n, v / m, m); }
  }

  // ----- a list of directives -----

  /** Each directive fits the loops left by those before it. */
  predicate AllFit(ss: seq<Step>, dims: Dims) {
    ss != [] ==> Fits(ss[0], dims) && AllFit(ss[1..], DimsAfter(ss[0], dims))
  }

  function DimsAfterAll(ss: seq<Step>, dims: Dims): Dims
    requires AllFit(ss, dims)
  {
    if ss == [] then dims else DimsAfterAll(ss[1..], DimsAfter(ss[0], dims))
  }

  predicate AllExact(ss: seq<Step>, dims: Dims)
    requires AllFit(ss, dims)
  {
    ss != [] ==> Exact(ss[0], dims) && AllExact(ss[1..], DimsAfter(ss[0], dims))
  }

  /** The original point that a point of the final loops stores, if it stores any. */
  datatype Stored = NOTHING | At(p: Point)

  function StoredBy(ss: seq<Step>, dims: Dims, q: Point): (r: Stored)
    requires AllFit(ss, dims) && q.Keys == DimsAfterAll(ss, dims).Keys
    ensures r.At? ==> r.p.Keys == dims.Keys
  {
    if ss == [] then At(q)
    else
      var later := StoredBy(ss[1..], DimsAfter(ss[0], dims), q);
      if later.At? && Stores(ss[0], dims, later.p) then At(Back(ss[0], dims, later.p)) else NOTHING
  }

  function FinalPoint(ss: seq<Step>, dims: Dims, p: Point): Point
    requires AllFit(ss, dims) && InDims(p, dims)
  {
    if ss == [] then p
    else
      StepCovers(ss[0], dims, p);
      FinalPoint(ss[1..], DimsAfter(ss[0], dims), Forth(ss[0], dims, p))
  }

  /** For every list of directives, each original point is stored. */
  lemma {:induction false} EveryPointStored(ss: seq<Step>, dims: Dims, p: Point)
    requires AllFit(ss, dims) && InDims(p, dims)
    ensures var q := FinalPoint(ss, dims, p); InDims(q, DimsAfterAll(ss, dims)) && StoredBy(ss, dims, q) == At(p)
  {
    if ss != [] {
      StepCovers(ss[0], dims, p);
      EveryPointStored(ss[1..], DimsAfter(ss[0], dims), Forth(ss[0], dims, p));
    }
  }

  /** For every list of exact directives, a final point that stores anything
      stores an original point, and is the only one that does. */
  lemma {:induction false} StoredOnce(ss: seq<Step>, dims: Dims, q: Point)
    requires AllFit(ss, dims) && AllExact(ss, dims) && InDims(q, DimsAfterAll(ss, dims)) && StoredBy(ss, dims, q).At?
    ensures var p := StoredBy(ss, dims, q).p; InDims(p, dims) && FinalPoint(ss, dims, p) == q
  {
    if ss != [] {
      StoredOnce(ss[1..], DimsAfter(ss[0], dims), q);
      StepOnce(ss[0], dims, StoredBy(ss[1..], DimsAfter(ss[0], dims), q).p);
    }
  }
}
