// Common subexpression elimination (src/CSE.cpp): what is shared is bound by
// lets with new names, and removing the lets gives the expression back.

module Cse {
  import opened CseTerms
  import opened CseGraph
  import opened CseNumbering
  import opened CseCounts
  import opened Decimal

  // ----- names of temporaries -----

  /** The name made from the counter of the prefix 't'. */
  function TempName(n: nat): string { "t" + Digits(n) }

  /** Names that could be mistaken for a temporary. */
  predicate Plausible(x: string) { |x| > 1 && x[0] == 't' && IsDigit(x[1]) }

  lemma TempNameMeaning(m: nat, n: nat)
    ensures Plausible(TempName(m))
    ensures TempName(m) == TempName(n) ==> m == n
  {
    DigitsStart(m);
    if TempName(m) == TempName(n) {
      assert TempName(m)[1..] == Digits(m) && TempName(n)[1..] == Digits(n);
      DigitsDiffer(m, n);
    }
  }

  /** Names in the way from number `k` on. */
  ghost function Ahead(taken: set<string>, k: nat): set<string> {
    set x | x in taken && exists n :: n >= k && x == TempName(n)
  }

  lemma AheadShrinks(taken: set<string>, k: nat)
    requires TempName(k) in taken
    ensures |Ahead(taken, k + 1)| < |Ahead(taken, k)|
  {
    forall n: nat { TempNameMeaning(k, n); }
    assert TempName(k) in Ahead(taken, k);
    assert Ahead(taken, k + 1) <= Ahead(taken, k) - {TempName(k)};
    SubsetSmaller(Ahead(taken, k + 1), Ahead(taken, k) - {TempName(k)});
  }

  lemma SubsetSmaller<T>(a: set<T>, b: set<T>)
    requires a <= b
    ensures |a| <= |b|
  {
    assert b == a + (b - a);
  }

  /** The first number from `k` on whose name is not taken. */
  function NextNumber(taken: set<string>, k: nat): (n: nat)
    ensures n >= k && TempName(n) !in taken
    decreases |Ahead(taken, k)|
  {
    if TempName(k) in taken then
      AheadShrinks(taken, k);
      NextNumber(taken, k + 1)
    else k
  }

  method MakeUniqueName(taken: set<string>, k: nat) returns (name: string, next: nat)
    ensures name == TempName(NextNumber(taken, k)) && next == NextNumber(taken, k) + 1
  {
    name, next := TempName(k), k + 1;
    while name in taken
      invariant next > k && name == TempName(next - 1)
      invariant NextNumber(taken, next - 1) == NextNumber(taken, k)
      decreases |Ahead(taken, next - 1)|
    {
      AheadShrinks(taken, next - 1);
      name, next := TempName(next), next + 1;
    }
  }

  function TakeNames(n: nat, taken: set<string>, k: nat): (r: (seq<string>, nat))
    ensures |r.0| == n
  {
    if n == 0 then ([], k)
    else
      var i := NextNumber(taken, k);
      var (rest, k') := TakeNames(n - 1, taken, i + 1);
      ([TempName(i)] + rest, k')
  }

  ghost predicate AllDifferent(names: seq<string>) {
    forall i, j :: 0 <= i < j < |names| ==> names[i] != names[j]
  }

  /** All names are different, not taken, and made by the counter from `k` on. */
  lemma {:induction false} TakeNamesMeaning(n: nat, taken: set<string>, k: nat)
    ensures AllDifferent(TakeNames(n, taken, k).0)
    ensures forall x :: x in TakeNames(n, taken, k).0 ==> x !in taken && exists i :: i >= k && x == TempName(i)
  {
    if n > 0 {
      var i := NextNumber(taken, k);
      TakeNamesMeaning(n - 1, taken, i + 1);
      forall j: nat { TempNameMeaning(i, j); }
    }
  }

  // ----- replacing and wrapping -----

  /** Names of the shared expressions. */
  type Naming = map<Term, string>

  function Replace(t: Term, m: Naming): Term
    decreases t, 2
  {
    if t in m then Var(m[t]) else Inside(t, m)
  }

  /** The expression itself kept, those below it replaced. */
  function Inside(t: Term, m: Naming): Term
    decreases t, 1
  {
    if t.Node? then Node(t.op, ReplaceAll(t.kids, m)) else t
  }

  function ReplaceAll(ts: seq<Term>, m: Naming): seq<Term>
    decreases ts, 0
  {
    if ts == [] then [] else [Replace(ts[0], m)] + ReplaceAll(ts[1..], m)
  }

  function NamingOf(values: seq<Term>, names: seq<string>): Naming
    requires |values| == |names|
  {
    if values == [] then map[] else NamingOf(values[1..], names[1..])[values[0] := names[0]]
  }

  function Wrap(values: seq<Term>, m: Naming, body: Term): Term
    requires forall v :: v in values ==> v in m
  {
    if values == [] then body else Let(m[values[0]], Inside(values[0], m), Wrap(values[1..], m, body))
  }

  function Filter(ts: seq<Term>, p: Term -> bool): seq<Term> {
    if ts == [] then [] else (if p(ts[0]) then [ts[0]] else []) + Filter(ts[1..], p)
  }

  ghost function IsShared(ts: seq<Term>, root: Term, all: bool): Term -> bool {
    (x: Term) => UseCount(ts, root, all, x) > 1
  }

  /** The shared expressions, in the order of their numbers. */
  ghost function Shared(root: Term, all: bool): seq<Term> {
    Filter(Visit(root, []), IsShared(Visit(root, []), root, all))
  }

  /** Variables that could be mistaken for temporaries. */
  function Taken(t: Term): set<string> { set x | x in Free(t) && Plausible(x) }

  ghost function Names(root: Term, all: bool, k: nat): seq<string> {
    TakeNames(|Shared(root, all)|, Taken(root), k).0
  }

  ghost function SharedNaming(root: Term, all: bool, k: nat): Naming {
    NamingOf(Shared(root, all), Names(root, all, k))
  }

  lemma {:induction false} NamingKeys(values: seq<Term>, names: seq<string>)
    requires |values| == |names|
    ensures forall v :: v in NamingOf(values, names) <==> v in values
  {
    if values != [] { NamingKeys(values[1..], names[1..]); }
  }

  lemma {:induction false} NamingAt(values: seq<Term>, names: seq<string>, i: nat)
    requires |values| == |names| && Distinct(values) && i < |values|
    ensures values[i] in NamingOf(values, names) && NamingOf(values, names)[values[i]] == names[i]
  {
    if i > 0 { NamingAt(values[1..], names[1..], i - 1); }
  }

  /** The expression with everything shared bound by lets, the first one outermost. */
  ghost function Build(root: Term, all: bool, k: nat): Term {
    var m := SharedNaming(root, all, k);
    NamingKeys(Shared(root, all), Names(root, all, k));
    Wrap(Shared(root, all), m, Replace(root, m))
  }

  /** Common subexpression elimination as a function; `k` is the name counter. */
  ghost function Eliminate(t: Term, all: bool, k: nat): Term {
    if IsConst(t) || t.Var? then t else Build(Strip(t, map[]), all, k)
  }

  /** The name counter afterwards. */
  ghost function CounterAfter(t: Term, all: bool, k: nat): nat {
    if IsConst(t) || t.Var? then k
    else TakeNames(|Shared(Strip(t, map[]), all)|, Taken(Strip(t, map[])), k).1
  }

  // ----- replacing as the compiler does it -----

  /** Rebuilds expressions, remembering results; a replacement can be dropped. */
  class Replacer {
    var done: map<Term, Term>
    ghost const naming: Naming
    /** The expressions whose replacement has been dropped. */
    ghost var dropped: set<Term>

    ghost predicate Valid()
      reads this
    {
      && (forall t :: t in naming && t !in dropped ==> t in done)
      && forall t :: t in done ==> done[t] == Result(t)
    }

    ghost function Result(t: Term): Term
      reads this
    {
      if t in dropped then Inside(t, naming) else Replace(t, naming)
    }

    constructor (m: Naming)
      ensures Valid() && naming == m && dropped == {}
    {
      done := map t | t in m :: Var(m[t]);
      naming, dropped := m, {};
    }

    method Mutate(t: Term) returns (r: Term)
      requires Valid() && !BelowDropped(t)
      modifies this
      ensures Valid() && dropped == old(dropped) && r == Result(t)
      decreases t, 1
    {
      if t in done { return done[t]; }
      if t.Node? {
        var kids := MutateAll(t.kids);
        r := Node(t.op, kids);
      } else {
        r := t;
      }
      assert r == Inside(t, naming) == Result(t);
      done := done[t := r];
    }

    /** Something properly below `t` has been dropped. */
    ghost predicate BelowDropped(t: Term)
      reads this
    {
      t.Node? && exists s :: s in dropped && BelowAny(s, t.kids)
    }

    method MutateAll(ts: seq<Term>) returns (rs: seq<Term>)
      requires Valid() && forall s :: s in dropped ==> !BelowAny(s, ts)
      modifies this
      ensures Valid() && dropped == old(dropped) && rs == ReplaceAll(ts, naming)
      decreases ts, 0
    {
      if ts == [] { return []; }
      assert ts[0] !in dropped by { assert ts[0] in dropped ==> !Below(ts[0], ts[0]); }
      assert forall s :: s in dropped ==> !Below(s, ts[0]) && !BelowAny(s, ts[1..]);
      var r := Mutate(ts[0]);
      var rest := MutateAll(ts[1..]);
      rs := [r] + rest;
    }

    method Erase(t: Term)
      requires Valid() && t !in dropped
      modifies this
      ensures Valid() && dropped == old(dropped) + {t}
    {
      done := done - {t};
      dropped := dropped + {t};
    }
  }

  /** No expression is below an earlier one. */
  ghost predicate Outward(ts: seq<Term>) {
    forall i, j :: 0 <= i < j < |ts| ==> !Below(ts[j], ts[i])
  }

  lemma NumbersGoOutward(ts: seq<Term>)
    requires Distinct(ts) && Ordered(ts)
    ensures Outward(ts)
  {
    forall i, j | 0 <= i < j < |ts| ensures !Below(ts[j], ts[i]) {
      var prefix := ts[..i + 1];
      forall a, k | 0 <= a < |prefix| && k in Kids(prefix[a]) ensures k in prefix[..a] {
        assert prefix[..a] == ts[..a];
        assert k in Kids(ts[a]);
      }
      if Below(ts[j], ts[i]) { BelowSeen(ts[j], ts[i], prefix); }
    }
  }

  lemma {:induction false} FilterMeaning(ts: seq<Term>, p: Term -> bool)
    requires Distinct(ts) && Outward(ts)
    ensures var r := Filter(ts, p);
            Distinct(r) && Outward(r) && forall t :: t in r <==> t in ts && p(t)
  {
    if ts != [] {
      var rest := Filter(ts[1..], p);
      FilterMeaning(ts[1..], p);
      forall j | 0 <= j < |rest| ensures rest[j] != ts[0] && !Below(rest[j], ts[0]) {
        assert rest[j] in ts[1..];
      }
      hide Below;
    }
  }

  /** The shared expressions: numbered ones used more than once, inner ones first. */
  lemma SharedMeaning(root: Term, all: bool)
    ensures var vs := Shared(root, all);
            Distinct(vs) && Outward(vs)
            && forall t :: t in vs <==> t in Visit(root, []) && UseCount(Visit(root, []), root, all, t) > 1
  {
    NumberedExactly(root, root);
    NumbersGoOutward(Visit(root, []));
    FilterMeaning(Visit(root, []), IsShared(Visit(root, []), root, all));
  }

  // ----- the whole pass -----

  /** `names` are the first of the `n + |names|` names, and `next` is where the rest start. */
  ghost predicate NamesSoFar(names: seq<string>, next: nat, n: nat, taken: set<string>, k: nat) {
    var whole, rest := TakeNames(|names| + n, taken, k), TakeNames(n, taken, next);
    whole.0 == names + rest.0 && whole.1 == rest.1
  }

  lemma TakeNamesStep(n: nat, taken: set<string>, k: nat)
    requires n > 0
    ensures var i := NextNumber(taken, k);
            var r, rest := TakeNames(n, taken, k), TakeNames(n - 1, taken, i + 1);
            r.0 == [TempName(i)] + rest.0 && r.1 == rest.1
  {}

  lemma OneMoreName(names: seq<string>, next: nat, n: nat, taken: set<string>, k: nat)
    requires n > 0 && NamesSoFar(names, next, n, taken, k)
    ensures var i := NextNumber(taken, next); NamesSoFar(names + [TempName(i)], i + 1, n - 1, taken, k)
  {
    hide TakeNames, NextNumber, TempName;
    var i := NextNumber(taken, next);
    TakeNamesStep(n, taken, next);
    var rest := TakeNames(n - 1, taken, i + 1).0;
    assert names + ([TempName(i)] + rest) == (names + [TempName(i)]) + rest;
    assert |names + [TempName(i)]| + (n - 1) == |names| + n;
  }

  /** The numbered expressions used more than once, and names for them. */
  method ChooseLets(ts: seq<Term>, counts: seq<nat>, taken: set<string>, k: nat, ghost p: Term -> bool)
    returns (values: seq<Term>, names: seq<string>, next: nat)
    requires |counts| == |ts| && forall i :: 0 <= i < |ts| ==> (counts[i] > 1 <==> p(ts[i]))
    ensures values == Filter(ts, p)
    ensures names == TakeNames(|values|, taken, k).0 && next == TakeNames(|values|, taken, k).1
  {
    hide NamesSoFar, TakeNames;
    values, names, next := [], [], k;
    assert ts[0..] == ts;
    NoNamesYet(|Filter(ts, p)|, taken, k);
    for i := 0 to |ts|
      invariant |names| == |values| && values + Filter(ts[i..], p) == Filter(ts, p)
      invariant NamesSoFar(names, next, |Filter(ts[i..], p)|, taken, k)
    {
      assert ts[i..][0] == ts[i] && ts[i..][1..] == ts[i + 1..];
      if counts[i] > 1 {
        OneMoreName(names, next, |Filter(ts[i..], p)|, taken, k);
        var name, k1 := MakeUniqueName(taken, next);
        values, names, next := values + [ts[i]], names + [name], k1;
      }
    }
    AllNamed(names, next, taken, k);
  }

  lemma NoNamesYet(n: nat, taken: set<string>, k: nat)
    ensures NamesSoFar([], k, n, taken, k)
  {}

  lemma AllNamed(names: seq<string>, next: nat, taken: set<string>, k: nat)
    requires NamesSoFar(names, next, 0, taken, k)
    ensures names == TakeNames(|names|, taken, k).0 && next == TakeNames(|names|, taken, k).1
  {}

  /** The lets around a body, made from the innermost outwards. */
  method WrapLets(values: seq<Term>, m: Naming, root: Term) returns (r: Term)
    requires Distinct(values) && Outward(values) && forall v :: v in values <==> v in m
    ensures r == Wrap(values, m, Replace(root, m))
  {
    hide Distinct, Outward, BelowAny, Wrap, Replace, Inside;
    var replacer := new Replacer(m);
    r := replacer.Mutate(root);
    NothingWrapped(values, m, r);
    for i := |values| downto 0
      invariant replacer.Valid() && replacer.naming == m && fresh(replacer)
      invariant replacer.dropped == set v | v in values[i..]
      invariant r == Wrap(values[i..], m, Replace(root, m))
    {
      NothingBelowLater(values, i);
      replacer.Erase(values[i]);
      assert values[i..] == [values[i]] + values[i + 1..];
      var value := replacer.Mutate(values[i]);
      WrapStep(values, i, m, Replace(root, m));
      r := Let(m[values[i]], value, r);
    }
    assert values[0..] == values;
  }

  lemma NothingWrapped(values: seq<Term>, m: Naming, body: Term)
    ensures Wrap(values[|values|..], m, body) == body
  {}

  lemma WrapStep(values: seq<Term>, i: nat, m: Naming, body: Term)
    requires i < |values| && forall v :: v in values ==> v in m
    ensures Wrap(values[i..], m, body) == Let(m[values[i]], Inside(values[i], m), Wrap(values[i + 1..], m, body))
  {
    assert values[i..][0] == values[i] && values[i..][1..] == values[i + 1..];
  }

  /** When a let is wrapped, nothing dropped so far is inside its value. */
  lemma NothingBelowLater(values: seq<Term>, i: nat)
    requires Distinct(values) && Outward(values) && i < |values|
    ensures values[i] !in values[i + 1..]
    ensures values[i].Node? ==> forall s :: s in values[i..] ==> !BelowAny(s, values[i].kids)
  {
    if values[i].Node? {
      forall s | s in values[i..] ensures !BelowAny(s, values[i].kids) {
        if BelowAny(s, values[i].kids) {
          assert Below(s, values[i]);
          SizeBelowAny(s, values[i].kids);
        }
      }
    }
  }

  function Size(t: Term): nat
    decreases t, 1
  {
    if t.Node? then 1 + SizeAll(t.kids) else 0
  }

  function SizeAll(ts: seq<Term>): nat
    decreases ts, 0
  {
    if ts == [] then 0 else Size(ts[0]) + SizeAll(ts[1..])
  }

  lemma {:induction false} SizeBelow(s: Term, t: Term)
    requires Below(s, t)
    ensures Size(s) <= Size(t)
    decreases t, 1
  {
    if s != t { SizeBelowAny(s, t.kids); }
  }

  lemma {:induction false} SizeBelowAny(s: Term, ts: seq<Term>)
    requires BelowAny(s, ts)
    ensures Size(s) <= SizeAll(ts)
    decreases ts, 0
  {
    if Below(s, ts[0]) { SizeBelow(s, ts[0]); } else { SizeBelowAny(s, ts[1..]); }
  }

  method CommonSubexpressionElimination(e: Ref, liftAll: bool, k: nat, addr: nat, ghost heap: Heap)
      returns (r: Term, next: nat)
    requires Lives(e, heap) && forall a :: a in heap ==> a < addr
    ensures r == Eliminate(Tree(e), liftAll, k) && next == CounterAfter(Tree(e), liftAll, k)
  {
    var t := Tree(e);
    if IsConst(t) || t.Var? { return t, k; }
    var remover := new RemoveLets(heap, addr);
    var plain := remover.Mutate(e);
    var root := Tree(plain);
    StripLetFree(t, map[]);
    var gvn := new GVN(remover.heap);
    var canonical := gvn.Mutate(plain);
    var ts := ExprsOf(gvn.entries);
    var counts := CountUses(canonical, ts, gvn.output, liftAll);
    var values, names, k1 := ChooseLets(ts, counts, Taken(root), k, IsShared(ts, root, liftAll));
    SharedMeaning(root, liftAll);
    NamingKeys(values, names);
    r := WrapLets(values, NamingOf(values, names), canonical);
    next := k1;
  }
}
