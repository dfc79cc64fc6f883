// Sharing is exact: in the result every expression worth a let is computed
// once, and every let is used at least twice.

module CseSharing {
  import opened CseTerms
  import opened CseNumbering
  import opened CseCounts
  import opened Cse
  import opened CseRoundTrip

  // ----- counting in the result -----

  /** The operations in `t` that compute the expression `x`, lets seen through. */
  function Computed(t: Term, scope: Scope, x: Term): nat
    decreases t, 1
  {
    match t
    case Node(_, kids) => (if Strip(t, scope) == x then 1 else 0) + ComputedAll(kids, scope, x)
    case Let(y, v, b) => Computed(v, scope, x) + Computed(b, scope[y := Strip(v, scope)], x)
    case _ => 0
  }

  function ComputedAll(ts: seq<Term>, scope: Scope, x: Term): nat
    decreases ts, 0
  {
    if ts == [] then 0 else Computed(ts[0], scope, x) + ComputedAll(ts[1..], scope, x)
  }

  /** Occurrences of a variable. */
  function Uses(t: Term, y: string): nat
    decreases t, 1
  {
    match t
    case Var(z) => if z == y then 1 else 0
    case Node(_, kids) => UsesAll(kids, y)
    case Let(_, v, b) => Uses(v, y) + Uses(b, y)
    case _ => 0
  }

  function UsesAll(ts: seq<Term>, y: string): nat
    decreases ts, 0
  {
    if ts == [] then 0 else Uses(ts[0], y) + UsesAll(ts[1..], y)
  }

  // ----- the same counts on the expression before replacing -----

  /** How often replacing leaves `x` as an operation in `t`. */
  function Left(t: Term, m: Naming, x: Term): nat
    decreases t, 1
  {
    if t in m then 0 else (if t == x then 1 else 0) + (if t.Node? then LeftAll(t.kids, m, x) else 0)
  }

  function LeftAll(ts: seq<Term>, m: Naming, x: Term): nat
    decreases ts, 0
  {
    if ts == [] then 0 else Left(ts[0], m, x) + LeftAll(ts[1..], m, x)
  }

  /** How often replacing meets `x` in `t`. */
  function Met(t: Term, m: Naming, x: Term): nat
    decreases t, 1
  {
    if t == x then 1 else if t in m || !t.Node? then 0 else MetAll(t.kids, m, x)
  }

  function MetAll(ts: seq<Term>, m: Naming, x: Term): nat
    decreases ts, 0
  {
    if ts == [] then 0 else Met(ts[0], m, x) + MetAll(ts[1..], m, x)
  }

  /** An operation worth a let. */
  ghost predicate Worth(x: Term, all: bool) { x.Node? && ShouldExtract(x, all) }

  lemma {:induction false} ComputedIsLeft(t: Term, m: Naming, scope: Scope, x: Term)
    requires LetFree(t) && Undoes(scope, t, m) && x.Node?
    ensures Computed(Replace(t, m), scope, x) == Left(t, m, x)
    decreases t, 1
  {
    if t !in m && t.Node? {
      ReplaceUndone(t, m, scope);
      ComputedAllIsLeft(t.kids, m, scope, x);
      assert Replace(t, m) == Node(t.op, ReplaceAll(t.kids, m));
    }
  }

  lemma {:induction false} ComputedAllIsLeft(ts: seq<Term>, m: Naming, scope: Scope, x: Term)
    requires AllLetFree(ts) && UndoesAll(scope, ts, m) && x.Node?
    ensures ComputedAll(ReplaceAll(ts, m), scope, x) == LeftAll(ts, m, x)
    decreases ts, 0
  {
    if ts != [] {
      ComputedIsLeft(ts[0], m, scope, x);
      ComputedAllIsLeft(ts[1..], m, scope, x);
    }
  }

  /** The names are different from each other. */
  ghost predicate Injective(m: Naming) { forall s, t :: s in m && t in m && m[s] == m[t] ==> s == t }

  lemma {:induction false} UsesIsMet(t: Term, m: Naming, x: Term)
    requires LetFree(t) && x in m && Injective(m) && m[x] !in Free(t)
    ensures Uses(Replace(t, m), m[x]) == Met(t, m, x)
    decreases t, 1
  {
    if t !in m && t.Node? {
      UsesAllIsMet(t.kids, m, x);
      assert Replace(t, m) == Node(t.op, ReplaceAll(t.kids, m));
    }
  }

  lemma {:induction false} UsesAllIsMet(ts: seq<Term>, m: Naming, x: Term)
    requires AllLetFree(ts) && x in m && Injective(m) && m[x] !in FreeAll(ts)
    ensures UsesAll(ReplaceAll(ts, m), m[x]) == MetAll(ts, m, x)
    decreases ts, 0
  {
    if ts != [] {
      UsesIsMet(ts[0], m, x);
      UsesAllIsMet(ts[1..], m, x);
    }
  }

  lemma {:induction false} LeftIsBelow(t: Term, m: Naming, x: Term)
    ensures Left(t, m, x) > 0 ==> Below(x, t) && x !in m
    decreases t, 1
  {
    if t !in m && t.Node? { LeftAllIsBelow(t.kids, m, x); }
  }

  lemma {:induction false} LeftAllIsBelow(ts: seq<Term>, m: Naming, x: Term)
    ensures LeftAll(ts, m, x) > 0 ==> BelowAny(x, ts) && x !in m
    decreases ts, 0
  {
    if ts != [] { LeftIsBelow(ts[0], m, x); LeftAllIsBelow(ts[1..], m, x); }
  }

  /** An expression that has no let is left wherever it is met. */
  lemma {:induction false} MetIsLeft(t: Term, m: Naming, x: Term)
    requires x !in m
    ensures Left(t, m, x) == Met(t, m, x)
    decreases t, 1
  {
    if t == x {
      if t.Node? {
        LeftAllIsBelow(t.kids, m, x);
        if BelowAny(x, t.kids) { SizeBelowAny(x, t.kids); }
      }
    } else if t.Node? {
      MetAllIsLeft(t.kids, m, x);
    }
  }

  lemma {:induction false} MetAllIsLeft(ts: seq<Term>, m: Naming, x: Term)
    requires x !in m
    ensures LeftAll(ts, m, x) == MetAll(ts, m, x)
    decreases ts, 0
  {
    if ts != [] { MetIsLeft(ts[0], m, x); MetAllIsLeft(ts[1..], m, x); }
  }

  // ----- meeting an expression: directly, or through one that is left -----

  /** References to `x` by `n` copies of `y`. */
  ghost function Weigh(n: nat, y: Term, all: bool, x: Term): int {
    if ShouldExtract(y, all) then n * Occurs(Direct(y, all), x) else 0
  }

  lemma WeighAdds(a: nat, b: nat, y: Term, all: bool, x: Term)
    ensures Weigh(a + b, y, all, x) == Weigh(a, y, all, x) + Weigh(b, y, all, x)
    ensures Weigh(0, y, all, x) == 0
    ensures Weigh(1, y, all, x) == if ShouldExtract(y, all) then Occurs(Direct(y, all), x) else 0
  {
    if ShouldExtract(y, all) { Distribute(a, b, Occurs(Direct(y, all), x)); }
  }

  lemma Distribute(a: int, b: int, c: int)
    ensures (a + b) * c == a * c + b * c
  {}

  /** References to `x` by what is left of `t`. */
  ghost function ThroughLeft(t: Term, m: Naming, all: bool, x: Term): Term -> int {
    (y: Term) => Weigh(Left(t, m, y), y, all, x)
  }

  ghost function ThroughLeftAll(ts: seq<Term>, m: Naming, all: bool, x: Term): Term -> int {
    (y: Term) => Weigh(LeftAll(ts, m, y), y, all, x)
  }

  lemma DirectBelow(y: Term, all: bool, x: Term)
    requires Occurs(Direct(y, all), x) > 0
    ensures y.Node? && BelowAny(x, y.kids) && Size(x) < Size(y)
  {
    OccursIn(Direct(y, all), x);
    RefsAllExtract(y.kids, all);
    SizeBelowAny(x, y.kids);
  }

  lemma {:induction false} MetThrough(ts: seq<Term>, t: Term, m: Naming, all: bool, x: Term)
    requires Distinct(ts) && Ordered(ts) && t in ts && LetFree(t) && Worth(x, all)
    requires forall s :: s in m ==> ShouldExtract(s, all)
    ensures Met(t, m, x) == Occurs(RefsOf(t, all), x) + Sum(ts, ThroughLeft(t, m, all, x))
    decreases t, 1
  {
    if t in m || !t.Node? {
      SumIsZero(ts, ThroughLeft(t, m, all, x)) by {
        forall y | y in ts ensures ThroughLeft(t, m, all, x)(y) == 0 { LeafLeft(t, m, all, y); }
      }
      assert !t.Node? ==> !ShouldExtract(t, all);
    } else {
      OrderedClosed(ts, t);
      if t == x {
        OnlyItself(ts, m, all, x);
      } else {
        MetAllThrough(ts, t.kids, m, all, x);
        OneLevel(ts, t, m, all, x);
      }
    }
  }

  lemma LeafLeft(t: Term, m: Naming, all: bool, y: Term)
    requires t in m || (!t.Node? && LetFree(t))
    ensures ShouldExtract(y, all) ==> Left(t, m, y) == 0
  {}

  lemma OnlyItself(ts: seq<Term>, m: Naming, all: bool, x: Term)
    ensures Sum(ts, ThroughLeft(x, m, all, x)) == 0
  {
    forall y | y in ts ensures ThroughLeft(x, m, all, x)(y) == 0 {
      LeftIsBelow(x, m, y);
      if Left(x, m, y) > 0 { SizeBelow(y, x); }
      if Occurs(Direct(y, all), x) > 0 { DirectBelow(y, all, x); }
    }
    SumIsZero(ts, ThroughLeft(x, m, all, x));
  }

  lemma OneLevelAt(t: Term, m: Naming, all: bool, x: Term, y: Term)
    requires t !in m && t.Node?
    ensures ThroughLeft(t, m, all, x)(y)
            == ThroughLeftAll(t.kids, m, all, x)(y)
                + (if t == y && ShouldExtract(t, all) then Occurs(Direct(t, all), x) else 0)
  {
    hide Weigh, ShouldExtract, Left, LeftAll, Occurs, Direct;
    LeftStep(t, m, y);
    WeighAdds(1, LeftAll(t.kids, m, y), y, all, x);
  }

  /** What is left of an operation: itself, and what is left of its children. */
  lemma OneLevel(ts: seq<Term>, t: Term, m: Naming, all: bool, x: Term)
    requires Distinct(ts) && t in ts && t !in m && t.Node?
    ensures Sum(ts, ThroughLeft(t, m, all, x))
            == Sum(ts, ThroughLeftAll(t.kids, m, all, x))
                + (if ShouldExtract(t, all) then Occurs(Direct(t, all), x) else 0)
  {
    hide Weigh, Sum, ShouldExtract, Left, LeftAll, Occurs, Distinct, Direct, ThroughLeft, ThroughLeftAll;
    var f, g := ThroughLeftAll(t.kids, m, all, x), ThroughLeft(t, m, all, x);
    forall y | y in ts && y != t ensures f(y) == g(y) { OneLevelAt(t, m, all, x, y); }
    OneLevelAt(t, m, all, x, t);
    SumDiffers(ts, f, g, t);
  }

  lemma LeftStep(t: Term, m: Naming, y: Term)
    requires t !in m && t.Node?
    ensures Left(t, m, y) == (if t == y then 1 else 0) + LeftAll(t.kids, m, y)
  {}

  lemma ThroughFirst(us: seq<Term>, m: Naming, all: bool, x: Term, y: Term)
    requires us != []
    ensures ThroughLeftAll(us, m, all, x)(y) == ThroughLeft(us[0], m, all, x)(y) + ThroughLeftAll(us[1..], m, all, x)(y)
  {
    hide Weigh, Left;
    WeighAdds(Left(us[0], m, y), LeftAll(us[1..], m, y), y, all, x);
  }

  lemma {:induction false} MetAllThrough(ts: seq<Term>, us: seq<Term>, m: Naming, all: bool, x: Term)
    requires Distinct(ts) && Ordered(ts) && AllLetFree(us) && Worth(x, all) && forall u :: u in us ==> u in ts
    requires forall s :: s in m ==> ShouldExtract(s, all)
    ensures MetAll(us, m, x) == Occurs(DirectAll(us, all), x) + Sum(ts, ThroughLeftAll(us, m, all, x))
    decreases us, 0
  {
    hide Sum, Distinct, Ordered;
    if us == [] {
      SumIsZero(ts, ThroughLeftAll(us, m, all, x));
    } else {
      MetThrough(ts, us[0], m, all, x);
      MetAllThrough(ts, us[1..], m, all, x);
      OccursAppend(RefsOf(us[0], all), DirectAll(us[1..], all), x);
      forall y { ThroughFirst(us, m, all, x, y); }
      SumAdds(ts, ThroughLeft(us[0], m, all, x), ThroughLeftAll(us[1..], m, all, x), ThroughLeftAll(us, m, all, x));
    }
  }

  // ----- totals over the body and the values of the lets -----

  /** Operations for `x` in the body and in the values of the first lets. */
  function TotalLeft(root: Term, values: seq<Term>, m: Naming, x: Term): nat {
    if values == [] then Left(root, m, x)
    else
      TotalLeft(root, values[1..], m, x)
      + (if values[0] == x then 1 else 0) + LeftAll(Kids(values[0]), m, x)
  }

  function TotalMet(root: Term, values: seq<Term>, m: Naming, x: Term): nat {
    if values == [] then Met(root, m, x)
    else TotalMet(root, values[1..], m, x) + MetAll(Kids(values[0]), m, x)
  }

  ghost function ThroughTotal(root: Term, values: seq<Term>, m: Naming, all: bool, x: Term): Term -> int {
    (y: Term) => Weigh(TotalLeft(root, values, m, y), y, all, x)
  }

  lemma {:induction false} TotalMetThrough(ts: seq<Term>, root: Term, values: seq<Term>, m: Naming, all: bool, x: Term)
    requires Distinct(ts) && Ordered(ts) && root in ts && LetFree(root) && Worth(x, all)
    requires forall v :: v in values ==> v in ts && LetFree(v) && ShouldExtract(v, all)
    requires forall s :: s in m ==> ShouldExtract(s, all)
    ensures TotalMet(root, values, m, x)
            == Occurs(RefsOf(root, all), x) + Sum(ts, ThroughTotal(root, values, m, all, x))
    decreases values
  {
    if values == [] {
      MetThrough(ts, root, m, all, x);
      SumSame(ts, ThroughLeft(root, m, all, x), ThroughTotal(root, values, m, all, x));
    } else {
      TotalMetThrough(ts, root, values[1..], m, all, x);
      LetThrough(ts, root, values, m, all, x);
    }
  }

  lemma LetThrough(ts: seq<Term>, root: Term, values: seq<Term>, m: Naming, all: bool, x: Term)
    requires Distinct(ts) && Ordered(ts) && Worth(x, all) && values != []
    requires var v := values[0]; v in ts && LetFree(v) && ShouldExtract(v, all)
    requires forall s :: s in m ==> ShouldExtract(s, all)
    ensures Sum(ts, ThroughTotal(root, values, m, all, x))
            == Sum(ts, ThroughTotal(root, values[1..], m, all, x)) + MetAll(Kids(values[0]), m, x)
  {
    hide Weigh, Sum, ShouldExtract, Distinct, Ordered, TotalLeft, LeftAll, MetAll, Occurs;
    var v := values[0];
    OrderedClosed(ts, v);
    MetAllThrough(ts, Kids(v), m, all, x);
    var rest, kids := ThroughTotal(root, values[1..], m, all, x), ThroughLeftAll(Kids(v), m, all, x);
    var both := (y: Term) => rest(y) + kids(y);
    SumAdds(ts, rest, kids, both);
    forall y { TotalStep(root, values, m, all, x, y); }
    SumDiffers(ts, both, ThroughTotal(root, values, m, all, x), v);
  }

  lemma TotalStep(root: Term, values: seq<Term>, m: Naming, all: bool, x: Term, y: Term)
    requires values != []
    ensures Weigh(TotalLeft(root, values, m, y), y, all, x)
            == Weigh(TotalLeft(root, values[1..], m, y), y, all, x) + Weigh(LeftAll(Kids(values[0]), m, y), y, all, x)
               + (if y == values[0] && ShouldExtract(y, all) then Occurs(DirectAll(Kids(y), all), x) else 0)
  {
    hide Weigh, ShouldExtract, LeftAll, Occurs;
    var v, n := values[0], TotalLeft(root, values[1..], m, y);
    WeighAdds(n, 1, y, all, x);
    WeighAdds(n, LeftAll(Kids(v), m, y), y, all, x);
    WeighAdds(n + 1, LeftAll(Kids(v), m, y), y, all, x);
  }

  // ----- every expression worth a let is left once -----

  /** Only expressions worth a let are referred to. */

  /** The shared expressions of a root, and their names by key. */
  ghost predicate Sharing(root: Term, all: bool, values: seq<Term>, m: Naming) {
    && LetFree(root) && values == Shared(root, all)
    && (forall v :: v in values <==> v in m)
    && Distinct(values) && Outward(values)
    && forall v :: v in values ==>
        v in Visit(root, []) && LetFree(v) && Worth(v, all)
        && UseCount(Visit(root, []), root, all, v) > 1
  }

  lemma TheSharing(root: Term, all: bool, k: nat)
    requires LetFree(root)
    ensures Sharing(root, all, Shared(root, all), SharedNaming(root, all, k))
  {
    TheChoice(root, all, k);
    SharedMeaning(root, all);
    NamingKeys(Shared(root, all), Names(root, all, k));
    forall v | v in Shared(root, all) ensures Worth(v, all) {
      UsedIsExtracted(Visit(root, []), root, all, v);
    }
  }

  lemma {:induction false} SharedLeftOnce(root: Term, values: seq<Term>, m: Naming, x: Term)
    requires Distinct(values) && x in m
    ensures TotalLeft(root, values, m, x) == if x in values then 1 else 0
  {
    if values == [] {
      LeftIsBelow(root, m, x);
    } else {
      SharedLeftOnce(root, values[1..], m, x);
      LeftAllIsBelow(Kids(values[0]), m, x);
    }
  }

  lemma {:induction false} UnsharedLeftAsMet(root: Term, values: seq<Term>, m: Naming, x: Term)
    requires x !in m && x !in values
    ensures TotalLeft(root, values, m, x) == TotalMet(root, values, m, x)
  {
    if values == [] {
      MetIsLeft(root, m, x);
    } else {
      UnsharedLeftAsMet(root, values[1..], m, x);
      MetAllIsLeft(Kids(values[0]), m, x);
    }
  }

  /** By number, from the root down: each is left once and met as often as it
      is referred to. */
  lemma {:induction false} LeftOnce(root: Term, all: bool, values: seq<Term>, m: Naming, i: nat)
    requires Sharing(root, all, values, m) && i < |Visit(root, [])| && Worth(Visit(root, [])[i], all)
    ensures var ts := Visit(root, []);
            TotalLeft(root, values, m, ts[i]) == 1 && TotalMet(root, values, m, ts[i]) == UseCount(ts, root, all, ts[i])
    decreases |Visit(root, [])| - i
  {
    var ts := Visit(root, []);
    var x := ts[i];
    NumberedExactly(root, root);
    NumberedExactly(root, x);
    hide Visit, ShouldExtract, Below, Weigh, Sum, TotalLeft, TotalMet, RefsOf, Direct;
    TotalMetThrough(ts, root, values, m, all, x);
    forall y | y in ts ensures ThroughTotal(root, values, m, all, x)(y) == RefsIfExtracted(all, x)(y) {
      if ShouldExtract(y, all) && Occurs(Direct(y, all), x) > 0 {
        var j := ReferrerIsLater(ts, all, i, y);
        LeftOnce(root, all, values, m, j);
      }
      WeighOnce(TotalLeft(root, values, m, y), y, all, x);
    }
    SumSame(ts, ThroughTotal(root, values, m, all, x), RefsIfExtracted(all, x));
    if x in m {
      SharedLeftOnce(root, values, m, x);
    } else {
      UnsharedLeftAsMet(root, values, m, x);
      UsedAtLeastOnce(ts, root, all, x);
      SharedMeaning(root, all);
    }
  }

  lemma ReferrerIsLater(ts: seq<Term>, all: bool, i: nat, y: Term) returns (j: nat)
    requires Distinct(ts) && Ordered(ts) && i < |ts| && y in ts && Occurs(Direct(y, all), ts[i]) > 0
    ensures i < j < |ts| && ts[j] == y && y.Node?
  {
    NumbersGoOutward(ts);
    DirectBelow(y, all, ts[i]);
    j :| 0 <= j < |ts| && ts[j] == y;
    assert Below(ts[i], ts[j]);
  }

  lemma WeighOnce(n: nat, y: Term, all: bool, x: Term)
    requires ShouldExtract(y, all) && Occurs(Direct(y, all), x) > 0 ==> n == 1
    ensures Weigh(n, y, all, x) == RefsIfExtracted(all, x)(y)
  {}

  // ----- the counts in the result -----

  lemma {:induction false} ComputedInWrap(root: Term, values: seq<Term>, names: seq<string>, m: Naming, i: nat, x: Term)
    requires Chosen(root, values, names, m) && i <= |values| && x.Node? && forall v :: v in values ==> v in m
    ensures Computed(Wrap(values[i..], m, Replace(root, m)), ScopeAt(values, names, i), x)
        == TotalLeft(root, values[i..], m, x)
    decreases |values| - i
  {
    hide Strip, Distinct, Outward, AllDifferent, Below, Free, Replace, Inside, LetFree, NamingOf, Computed, Left;
    if i == |values| {
      NothingWrapped(values, m, Replace(root, m));
      BodyScope(root, values, names, m);
      ComputedIsLeft(root, m, ScopeAt(values, names, i), x);
    } else {
      var v, scope := values[i], ScopeAt(values, names, i);
      WrapStep(values, i, m, Replace(root, m));
      ValueUndone(root, values, names, m, i);
      NamingAt(values, names, i);
      ComputedInWrap(root, values, names, m, i + 1, x);
      ComputedInLet(m[v], Inside(v, m), Wrap(values[i + 1..], m, Replace(root, m)), scope, x);
      ComputedInValue(root, values, names, m, i, x);
      assert values[i..][0] == v && values[i..][1..] == values[i + 1..];
    }
  }

  lemma ComputedInLet(y: string, v: Term, b: Term, scope: Scope, x: Term)
    ensures Computed(Let(y, v, b), scope, x) == Computed(v, scope, x) + Computed(b, scope[y := Strip(v, scope)], x)
  {}

  lemma ComputedInValue(root: Term, values: seq<Term>, names: seq<string>, m: Naming, i: nat, x: Term)
    requires Chosen(root, values, names, m) && i < |values| && x.Node?
    ensures Computed(Inside(values[i], m), ScopeAt(values, names, i), x)
            == (if values[i] == x then 1 else 0) + LeftAll(Kids(values[i]), m, x)
  {
    var v, scope := values[i], ScopeAt(values, names, i);
    assert v in values && LetFree(v);
    if v.Node? {
      ValueUndone(root, values, names, m, i);
      ValueScope(root, values, names, m, i);
      ComputedAllIsLeft(v.kids, m, scope, x);
    }
  }

  lemma {:induction false} UsesInWrap(root: Term, values: seq<Term>, names: seq<string>, m: Naming, i: nat, x: Term)
    requires Chosen(root, values, names, m) && i <= |values| && (forall v :: v in values ==> v in m) && x in m
    ensures Uses(Wrap(values[i..], m, Replace(root, m)), m[x]) == TotalMet(root, values[i..], m, x)
    decreases |values| - i
  {
    hide Distinct, Outward, AllDifferent, Below, Free, Replace, LetFree, NamingOf, Met;
    NamesInjective(root, values, names, m, x);
    if i == |values| {
      NothingWrapped(values, m, Replace(root, m));
      UsesIsMet(root, m, x);
    } else {
      var v := values[i];
      WrapStep(values, i, m, Replace(root, m));
      UsesInWrap(root, values, names, m, i + 1, x);
      UsesInValue(v, m, x) by { assert v in values; }
      assert values[i..][0] == v && values[i..][1..] == values[i + 1..];
    }
  }

  lemma UsesInValue(v: Term, m: Naming, x: Term)
    requires LetFree(v) && x in m && Injective(m) && m[x] !in Free(v)
    ensures Uses(Inside(v, m), m[x]) == MetAll(Kids(v), m, x)
  {
    if v.Node? { UsesAllIsMet(v.kids, m, x); }
  }

  lemma NamesInjective(root: Term, values: seq<Term>, names: seq<string>, m: Naming, x: Term)
    requires Chosen(root, values, names, m) && x in m
    ensures Injective(m) && m[x] !in Free(root)
  {
    hide NamingOf, Outward, Distinct, Below, LetFree, Free;
    forall s, t | s in m && t in m && m[s] == m[t] ensures s == t {
      var i := NumberOfName(root, values, names, m, s);
      var j := NumberOfName(root, values, names, m, t);
    }
    var i := NumberOfName(root, values, names, m, x);
  }

  lemma NumberOfName(root: Term, values: seq<Term>, names: seq<string>, m: Naming, x: Term) returns (i: nat)
    requires Chosen(root, values, names, m) && x in m
    ensures i < |values| == |names| && values[i] == x && m[x] == names[i]
  {
    hide Outward, Below, LetFree, Free;
    NamingKeys(values, names);
    i :| 0 <= i < |values| && values[i] == x;
    NamingAt(values, names, i);
  }

  /** In the result every expression worth a let is computed exactly once. */
  lemma ComputedOnce(t: Term, all: bool, k: nat, x: Term)
    requires !IsConst(t) && !t.Var? && x.Node?
    requires Below(x, Strip(t, map[])) && ShouldExtract(x, all)
    ensures Computed(Eliminate(t, all, k), map[], x) == 1
  {
    var root := Strip(t, map[]);
    StripLetFree(t, map[]);
    TheChoice(root, all, k);
    TheSharing(root, all, k);
    var values, names, m := Shared(root, all), Names(root, all, k), SharedNaming(root, all, k);
    NumberedExactly(root, x);
    var i :| 0 <= i < |Visit(root, [])| && Visit(root, [])[i] == x;
    LeftOnce(root, all, values, m, i);
    ComputedInWrap(root, values, names, m, 0, x);
    assert values[0..] == values;
  }

  /** Exactly the expressions referred to more than once get a let, and each let
      is used as often as its expression is referred to, so at least twice. */
  lemma LetsUsedTwice(t: Term, all: bool, k: nat, x: Term)
    requires !IsConst(t) && !t.Var?
    ensures var root := Strip(t, map[]);
            var m := SharedNaming(root, all, k);
            && (x in m <==> Below(x, root) && UseCount(Visit(root, []), root, all, x) >= 2)
            && (x in m ==> Uses(Eliminate(t, all, k), m[x]) == UseCount(Visit(root, []), root, all, x))
  {
    var root := Strip(t, map[]);
    StripLetFree(t, map[]);
    TheChoice(root, all, k);
    TheSharing(root, all, k);
    var values, names, m := Shared(root, all), Names(root, all, k), SharedNaming(root, all, k);
    NumberedExactly(root, x);
    SharedMeaning(root, all);
    if x in m {
      var i :| 0 <= i < |Visit(root, [])| && Visit(root, [])[i] == x;
      LeftOnce(root, all, values, m, i);
      UsesInWrap(root, values, names, m, 0, x);
      assert values[0..] == values;
    }
  }
}
