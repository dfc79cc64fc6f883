// How often each expression is referred to (ComputeUseCounts of src/CSE.cpp).

module CseCounts {
  import opened CseTerms
  import opened CseNumbering

  // ----- sums over a list of expressions -----

  function Sum(ts: seq<Term>, f: Term -> int): int {
    if ts == [] then 0 else f(ts[0]) + Sum(ts[1..], f)
  }

  lemma {:induction false} SumSame(ts: seq<Term>, f: Term -> int, g: Term -> int)
    requires forall t :: t in ts ==> f(t) == g(t)
    ensures Sum(ts, f) == Sum(ts, g)
  {
    if ts != [] { SumSame(ts[1..], f, g); }
  }

  lemma {:induction false} SumAdds(ts: seq<Term>, f: Term -> int, g: Term -> int, h: Term -> int)
    requires forall t :: t in ts ==> h(t) == f(t) + g(t)
    ensures Sum(ts, h) == Sum(ts, f) + Sum(ts, g)
  {
    if ts != [] { SumAdds(ts[1..], f, g, h); }
  }

  /** Two functions that differ at one place of a list without repetition. */
  lemma {:induction false} SumDiffers(ts: seq<Term>, f: Term -> int, g: Term -> int, z: Term)
    requires Distinct(ts) && z in ts
    requires forall t :: t in ts && t != z ==> f(t) == g(t)
    ensures Sum(ts, g) == Sum(ts, f) + g(z) - f(z)
  {
    if ts[0] == z { SumSame(ts[1..], f, g); } else { SumDiffers(ts[1..], f, g, z); }
  }

  lemma {:induction false} SumPositive(ts: seq<Term>, f: Term -> int, z: Term)
    requires z in ts && f(z) > 0 && forall t :: t in ts ==> f(t) >= 0
    ensures Sum(ts, f) > 0
  {
    SumNonNegative(ts[1..], f);
    if ts[0] != z { SumPositive(ts[1..], f, z); }
  }

  lemma {:induction false} SumNonNegative(ts: seq<Term>, f: Term -> int)
    requires forall t :: t in ts ==> f(t) >= 0
    ensures Sum(ts, f) >= 0
  {
    if ts != [] { SumNonNegative(ts[1..], f); }
  }

  function Occurs(ts: seq<Term>, x: Term): nat {
    if ts == [] then 0 else (if ts[0] == x then 1 else 0) + Occurs(ts[1..], x)
  }

  lemma {:induction false} OccursAppend(a: seq<Term>, b: seq<Term>, x: Term)
    ensures Occurs(a + b, x) == Occurs(a, x) + Occurs(b, x)
  {
    if a == [] { assert a + b == b; } else {
      assert (a + b)[1..] == a[1..] + b;
      OccursAppend(a[1..], b, x);
    }
  }

  lemma {:induction false} OccursIn(ts: seq<Term>, x: Term)
    ensures x in ts <==> Occurs(ts, x) > 0
  {
    if ts != [] { OccursIn(ts[1..], x); }
  }

  // ----- references -----

  /** The extractable expressions that a reference to `t` refers to: `t` itself,
      or those of its children when it is not worth a let. */
  function RefsOf(t: Term, all: bool): seq<Term>
    decreases t, 2
  {
    if ShouldExtract(t, all) then [t] else Direct(t, all)
  }

  /** Those that the children of `t` refer to. */
  function Direct(t: Term, all: bool): seq<Term>
    decreases t, 1
  {
    if t.Node? then DirectAll(t.kids, all) else []
  }

  function DirectAll(ts: seq<Term>, all: bool): seq<Term>
    decreases ts, 0
  {
    if ts == [] then [] else RefsOf(ts[0], all) + DirectAll(ts[1..], all)
  }

  /** References to `x` by the children of the expressions of `v`. */
  ghost function RefsFrom(ts: seq<Term>, v: set<Term>, all: bool, x: Term): int {
    Sum(ts, RefsIfIn(v, all, x))
  }

  function RefsIfIn(v: set<Term>, all: bool, x: Term): Term -> int {
    (y: Term) => if y in v then Occurs(Direct(y, all), x) else 0
  }

  function RefsIfExtracted(all: bool, x: Term): Term -> int {
    (y: Term) => if ShouldExtract(y, all) then Occurs(Direct(y, all), x) else 0
  }

  /** The number of references to `x`: by the root, and by every extractable
      expression, each counted once however often it occurs. */
  ghost function UseCount(ts: seq<Term>, root: Term, all: bool, x: Term): int {
    Occurs(RefsOf(root, all), x) + Sum(ts, RefsIfExtracted(all, x))
  }

  ghost predicate ClosedRefs(v: set<Term>, all: bool) {
    forall y, k :: y in v && k in Direct(y, all) ==> k in v
  }

  lemma {:induction false} RefsExtract(t: Term, all: bool)
    ensures forall k :: k in RefsOf(t, all) ==> ShouldExtract(k, all) && Below(k, t)
    decreases t, 1
  {
    if !ShouldExtract(t, all) && t.Node? { RefsAllExtract(t.kids, all); }
  }

  lemma {:induction false} RefsAllExtract(ts: seq<Term>, all: bool)
    ensures forall k :: k in DirectAll(ts, all) ==> ShouldExtract(k, all) && BelowAny(k, ts)
    decreases ts, 0
  {
    if ts != [] {
      RefsExtract(ts[0], all);
      RefsAllExtract(ts[1..], all);
    }
  }

  lemma {:induction false} SumIsZero(ts: seq<Term>, f: Term -> int)
    requires forall t :: t in ts ==> f(t) == 0
    ensures Sum(ts, f) == 0
  {
    if ts != [] { SumIsZero(ts[1..], f); }
  }

  /** Only what can be extracted is counted. */
  lemma UsedIsExtracted(ts: seq<Term>, root: Term, all: bool, x: Term)
    ensures UseCount(ts, root, all, x) > 0 ==> ShouldExtract(x, all)
  {
    if !ShouldExtract(x, all) {
      RefsExtract(root, all);
      OccursIn(RefsOf(root, all), x);
      forall y | y in ts ensures RefsIfExtracted(all, x)(y) == 0 {
        if y.Node? { RefsAllExtract(y.kids, all); }
        OccursIn(Direct(y, all), x);
      }
      SumIsZero(ts, RefsIfExtracted(all, x));
    }
  }

  /** Following references reaches every extractable expression. */
  lemma {:induction false} AllReached(s: Term, t: Term, all: bool, v: set<Term>)
    requires Below(s, t) && ShouldExtract(s, all) && ClosedRefs(v, all)
    requires forall k :: k in RefsOf(t, all) ==> k in v
    ensures s in v
    decreases t, 1
  {
    if s != t {
      assert Direct(t, all) == DirectAll(t.kids, all);
      if ShouldExtract(t, all) { assert RefsOf(t, all) == [t] && [t][0] in v; }
      AllReachedAny(s, t.kids, all, v);
    }
  }

  lemma {:induction false} AllReachedAny(s: Term, ts: seq<Term>, all: bool, v: set<Term>)
    requires BelowAny(s, ts) && ShouldExtract(s, all) && ClosedRefs(v, all)
    requires forall k :: k in DirectAll(ts, all) ==> k in v
    ensures s in v
    decreases ts, 0
  {
    if Below(s, ts[0]) { AllReached(s, ts[0], all, v); } else { AllReachedAny(s, ts[1..], all, v); }
  }

  /** Every extractable expression below the root is referred to. */
  lemma UsedAtLeastOnce(ts: seq<Term>, root: Term, all: bool, x: Term)
    requires Below(x, root) && ShouldExtract(x, all) && ts == Visit(root, [])
    ensures UseCount(ts, root, all, x) >= 1
  {
    var f := RefsIfExtracted(all, x);
    NumberedExactly(root, x);
    SumNonNegative(ts, f);
    if UseCount(ts, root, all, x) < 1 {
      OccursIn(RefsOf(root, all), x);
      var v := set y | y in ts && ShouldExtract(y, all) && y != x;
      forall y, k | y in v && k in Direct(y, all) ensures k in v {
        OccursIn(Direct(y, all), x);
        if k == x { SumPositive(ts, f, y); }
        RefsSeen(ts, y, all);
      }
      forall k | k in RefsOf(root, all) ensures k in v {
        RefsExtract(root, all);
        NumberedExactly(root, k);
      }
      AllReached(x, root, all, v);
    }
  }

  lemma RefsSeen(ts: seq<Term>, y: Term, all: bool)
    requires Ordered(ts) && y in ts
    ensures forall k :: k in Direct(y, all) ==> k in ts && ShouldExtract(k, all)
  {
    if y.Node? {
      RefsAllExtract(y.kids, all);
      OrderedClosed(ts, y);
      forall k | k in Direct(y, all) ensures k in ts { BelowAnySeen(k, y.kids, ts); }
    }
  }

  // ----- counting as the compiler does it -----

  class ComputeUseCounts {
    const exprs: seq<Term>
    const output: map<Term, nat>
    const liftAll: bool
    /** Use counts by number. */
    var counts: seq<nat>
    var visited: set<Term>

    ghost predicate Valid()
      reads this
    {
      && Distinct(exprs) && Ordered(exprs) && Lists(output, exprs, (t: Term) => true)
      && |counts| == |exprs|
      && forall y :: y in visited ==> y in exprs && ShouldExtract(y, liftAll)
    }

    constructor (ts: seq<Term>, numbers: map<Term, nat>, all: bool)
      requires Distinct(ts) && Ordered(ts) && Lists(numbers, ts, (t: Term) => true)
      ensures Valid() && exprs == ts && liftAll == all && visited == {} && counts == seq(|ts|, i => 0)
    {
      exprs, output, liftAll := ts, numbers, all;
      counts, visited := seq(|ts|, i => 0), {};
    }

    /** How much more each expression has been counted, and what was visited. */
    twostate predicate Counted(refs: seq<Term>)
      reads this
    {
      && old(visited) <= visited && |counts| == old(|counts|) == |exprs|
      && (forall i :: 0 <= i < |exprs| ==>
            counts[i] as int - old(counts[i]) as int
            == Occurs(refs, exprs[i]) + RefsFrom(exprs, visited, liftAll, exprs[i])
                - RefsFrom(exprs, old(visited), liftAll, exprs[i]))
      && (forall k :: k in refs ==> k in visited)
      && (forall y, k :: y in visited && y !in old(visited) && k in Direct(y, liftAll) ==> k in visited)
    }

    method Include(t: Term)
      requires Valid() && t in exprs
      modifies this
      ensures Valid() && Counted(RefsOf(t, liftAll))
      decreases t, 1
    {
      hide Distinct, Ordered, Lists, RefsFrom, ShouldExtract;
      OrderedClosed(exprs, t);
      if !ShouldExtract(t, liftAll) {
        if t.Node? { IncludeAll(t.kids); }
        return;
      }
      NumberOf(t);
      counts := counts[output[t] := counts[output[t]] + 1];
      if t !in visited {
        ghost var v := visited;
        visited := visited + {t};
        forall i | 0 <= i < |exprs| { VisitOne(exprs, v, liftAll, exprs[i], t); }
        if t.Node? { IncludeAll(t.kids); }
      }
    }

    lemma NumberOf(t: Term)
      requires Valid() && t in exprs
      ensures t in output && output[t] < |exprs|
      ensures forall i :: 0 <= i < |exprs| ==> Occurs([t], exprs[i]) == if i == output[t] then 1 else 0
    {
      hide RefsFrom, ShouldExtract;
      assert forall x :: Occurs([t], x) == if t == x then 1 else 0;
    }

    method IncludeAll(ts: seq<Term>)
      requires Valid() && forall t :: t in ts ==> t in exprs
      modifies this
      ensures Valid() && Counted(DirectAll(ts, liftAll))
      decreases ts, 0
    {
      if ts != [] {
        Include(ts[0]);
        IncludeAll(ts[1..]);
        forall i | 0 <= i < |exprs| {
          OccursAppend(RefsOf(ts[0], liftAll), DirectAll(ts[1..], liftAll), exprs[i]);
        }
      }
    }
  }

  lemma VisitOne(ts: seq<Term>, v: set<Term>, all: bool, x: Term, t: Term)
    requires Distinct(ts) && t in ts && t !in v
    ensures RefsFrom(ts, v + {t}, all, x) == RefsFrom(ts, v, all, x) + Occurs(Direct(t, all), x)
  {
    SumDiffers(ts, RefsIfIn(v, all, x), RefsIfIn(v + {t}, all, x), t);
  }

  /** Once everything referred to has been visited, all references are counted. */
  lemma AllCounted(ts: seq<Term>, root: Term, all: bool, v: set<Term>, x: Term)
    requires ts == Visit(root, []) && ClosedRefs(v, all)
    requires forall y :: y in v ==> y in ts && ShouldExtract(y, all)
    requires forall k :: k in RefsOf(root, all) ==> k in v
    ensures Occurs(RefsOf(root, all), x) + RefsFrom(ts, v, all, x) - RefsFrom(ts, {}, all, x)
        == UseCount(ts, root, all, x)
  {
    forall y | y in ts && ShouldExtract(y, all) ensures y in v {
      NumberedExactly(root, y);
      AllReached(y, root, all, v);
    }
    SumSame(ts, RefsIfIn(v, all, x), RefsIfExtracted(all, x));
    NothingYet(ts, all, x);
  }

  /** Visiting the root counts every reference exactly. */
  method CountUses(root: Term, ts: seq<Term>, output: map<Term, nat>, all: bool) returns (counts: seq<nat>)
    requires ts == Visit(root, []) && Lists(output, ts, (t: Term) => true)
    ensures |counts| == |ts|
    ensures forall i :: 0 <= i < |ts| ==> counts[i] == UseCount(ts, root, all, ts[i])
  {
    hide Distinct, Ordered, Lists, UseCount, RefsFrom, Visit, RefsOf, ShouldExtract, Direct;
    NumberedExactly(root, root);
    RootBelow(root);
    var c := new ComputeUseCounts(ts, output, all);
    c.Include(root);
    counts := c.counts;
    forall i | 0 <= i < |ts| { AllCounted(ts, root, all, c.visited, ts[i]); }
  }

  lemma RootBelow(root: Term)
    ensures Below(root, root)
  {}

  lemma {:induction false} NothingYet(ts: seq<Term>, all: bool, x: Term)
    ensures RefsFrom(ts, {}, all, x) == 0
  {
    if ts != [] { NothingYet(ts[1..], all, x); }
  }
}
