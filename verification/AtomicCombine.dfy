// Tuple updates that combine given values with what is in the buffers, by a
// pattern of expressions in x0, x1, .. (what is there) and y0, y1, .. (what is
// given), as in src/AssociativeOpsTable.cpp.

module AtomicCombining {
  import opened AtomicRuns
  import opened AtomicSerial
  import opened AtomicOrders
  import opened AtomicStmts
  import opened AtomicResults
  import opened AtomicUpdates
  import opened AtomicTuples

  /** One expression for each element, over the variables `xs` and `ys`. */
  datatype Pattern = Pattern(exprs: seq<Expr>, xs: seq<string>, ys: seq<string>)

  /** No lets and no loads. */
  predicate IsPattern(e: Expr) {
    match e
    case Lit(_) => true
    case Var(_) => true
    case Op(_, a, b) => IsPattern(a) && IsPattern(b)
    case Select(c, a, b) => IsPattern(c) && IsPattern(a) && IsPattern(b)
    case _ => false
  }

  predicate PatternOk(p: Pattern) {
    && |p.exprs| == |p.xs| == |p.ys| && Different(p.xs + p.ys)
    && forall e :: e in p.exprs ==> IsPattern(e) && forall x :: x in Mentions(e) ==> x in p.xs + p.ys
  }

  type Substitution = map<string, Expr>

  function Instantiate(e: Expr, sub: Substitution): Expr {
    match e
    case Var(x) => if x in sub then sub[x] else e
    case Op(id, a, b) => Op(id, Instantiate(a, sub), Instantiate(b, sub))
    case Select(c, a, b) => Select(Instantiate(c, sub), Instantiate(a, sub), Instantiate(b, sub))
    case _ => e
  }

  lemma {:induction false} InstantiatedValue(e: Expr, sub: Substitution, values: Env, env: Env, m: Memory, f: Meaning)
    requires IsPattern(e) && forall x :: x in Mentions(e) ==> x in sub && Lookup(values, x) == Eval(sub[x], env, m, f)
    ensures Eval(Instantiate(e, sub), env, m, f) == Eval(e, values, map[], f)
  {
    match e
    case Lit(_) =>
    case Var(_) =>
    case Op(_, a, b) =>
      InstantiatedValue(a, sub, values, env, m, f);
      InstantiatedValue(b, sub, values, env, m, f);
    case Select(c, a, b) =>
      InstantiatedValue(c, sub, values, env, m, f);
      InstantiatedValue(a, sub, values, env, m, f);
      InstantiatedValue(b, sub, values, env, m, f);
  }

  /** The operator that a pattern describes. */
  function OperatorOf(p: Pattern, f: Meaning): AtomicOrders.Op {
    (a: seq<int>, b: seq<int>) =>
      if |a| != |p.xs| || |b| != |p.ys| then a
      else
        var values := Extended(map[], p.xs + p.ys, a + b);
        seq(|p.exprs|, k requires 0 <= k < |p.exprs| => Eval(p.exprs[k], values, map[], f))
  }

  function LoadOf(e: Element): Expr { LoadFrom(e.buf, e.index) }

  /** x0, x1, .. stand for the elements and y0, y1, .. for what is given. */
  function SubstitutionOf(p: Pattern, es: seq<Element>, given: seq<Expr>): Substitution
    requires |p.xs| == |es| && |p.ys| == |given|
  {
    var names := p.xs + p.ys;
    map x | x in names ::
      var n := Position(names, x);
      if n < |es| then LoadOf(es[n]) else given[n - |es|]
  }

  lemma PositionIs(names: seq<string>, k: nat)
    requires Different(names) && k < |names|
    ensures names[k] in names && Position(names, names[k]) == k
  {}

  /** Each new value is the pattern's, of the elements and of given values that read nothing shared. */
  predicate IsCombination(es: seq<Element>, p: Pattern, given: seq<Expr>, own: set<string>) {
    && PatternOk(p) && |p.xs| == |es| == |given|
    && (forall g :: g in given ==> Foreign(g, own))
    && forall k :: 0 <= k < |es| ==> es[k].value == Instantiate(p.exprs[k], SubstitutionOf(p, es, given))
  }

  function GivenValues(given: seq<Expr>, env: Env, m: Memory, f: Meaning): (r: seq<int>)
    ensures |r| == |given| && forall k :: 0 <= k < |given| ==> r[k] == Eval(given[k], env, m, f)
  {
    seq(|given|, k requires 0 <= k < |given| => Eval(given[k], env, m, f))
  }

  lemma LoadedValue(e: Element, env: Env, m: Memory, f: Meaning)
    ensures Eval(LoadOf(e), env, m, f) == Get(m, Cell(e.buf, Eval(e.index, env, m, f)))
  {}

  lemma SubstitutedValues(es: seq<Element>, p: Pattern, given: seq<Expr>, own: set<string>, env: Env, m: Memory,
      f: Meaning, i: int)
    requires IsCombination(es, p, given, own) && forall e :: e in es ==> Eval(e.index, env, m, f) == i
    ensures
      var names, sub := p.xs + p.ys, SubstitutionOf(p, es, given);
      var values := Extended(map[], names, Row(m, BufsOf(es), i) + GivenValues(given, env, m, f));
      forall x :: x in names ==> x in sub && Lookup(values, x) == Eval(sub[x], env, m, f)
  {
    hide IsPattern, Mentions, Eval, Instantiate, LoadOf, Extended;
    var names, a, b := p.xs + p.ys, Row(m, BufsOf(es), i), GivenValues(given, env, m, f);
    var values, sub := Extended(map[], names, a + b), SubstitutionOf(p, es, given);
    forall x | x in names ensures x in sub && Lookup(values, x) == Eval(sub[x], env, m, f) {
      var k := Position(names, x);
      PositionIs(names, k);
      ExtendedHas(map[], names, a + b, k);
      if k < |es| {
        LoadedValue(es[k], env, m, f);
        assert es[k] in es && (a + b)[k] == a[k];
      } else {
        assert (a + b)[k] == b[k - |es|];
      }
    }
  }

  lemma CombinationValues(es: seq<Element>, p: Pattern, given: seq<Expr>, own: set<string>, env: Env, m: Memory,
      f: Meaning, i: int)
    requires IsCombination(es, p, given, own) && forall e :: e in es ==> Eval(e.index, env, m, f) == i
    ensures ValuesOf(es, env, m, f) == OperatorOf(p, f)(Row(m, BufsOf(es), i), GivenValues(given, env, m, f))
  {
    hide IsPattern, Mentions, Eval;
    var names, a, b := p.xs + p.ys, Row(m, BufsOf(es), i), GivenValues(given, env, m, f);
    var values, sub := Extended(map[], names, a + b), SubstitutionOf(p, es, given);
    SubstitutedValues(es, p, given, own, env, m, f, i);
    forall k | 0 <= k < |es| ensures Eval(es[k].value, env, m, f) == Eval(p.exprs[k], values, map[], f) {
      assert p.exprs[k] in p.exprs;
      InstantiatedValue(p.exprs[k], sub, values, env, m, f);
    }
  }

  // ----- tasks that combine -----

  /** A tuple update at a place, and what it is made from. */
  datatype Combination = Combination(producer: string, es: seq<Element>, given: seq<Expr>, env: Env, t: string)

  function SiteOf(c: Combination): Site { Site(c.producer, TupleUpdate(c.es), IndicesOfAll(c.es), c.env, c.t) }

  ghost predicate CombinationOk(c: Combination, p: Pattern, bufs: seq<string>, own: set<string>, m0: Memory, f: Meaning)
  {
    && TupleOk(c.es, own) && IsCombination(c.es, p, c.given, own) && BufsOf(c.es) == bufs
    && SiteOk(SiteOf(c), own, m0, f)
  }

  function IndexAt(c: Combination, m0: Memory, f: Meaning): int
    requires c.es != []
  {
    Eval(c.es[0].index, c.env, m0, f)
  }

  function Contributed(c: Combination, m0: Memory, f: Meaning): (int, seq<int>)
    requires c.es != []
  {
    (IndexAt(c, m0, f), GivenValues(c.given, c.env, m0, f))
  }

  /** The update as written combines what it is given into the elements at its index. */
  lemma CombinationExec(c: Combination, p: Pattern, bufs: seq<string>, own: set<string>, m0: Memory, m: Memory,
      f: Meaning)
    requires CombinationOk(c, p, bufs, own, m0, f) && SameOutside(own, m0, m)
    ensures Exec(TupleUpdate(c.es), c.env, m, f) == Combine(m, bufs, Contributed(c, m0, f), OperatorOf(p, f))
  {
    hide LoadsAt, Mentions, NoLets, Exec, Eval, Shaped, StoreNames, NamesIn, PutEach, TupleUpdate;
    OkIsPlain(c.es, own);
    IndicesSame(c, own, m0, m, f) by { TupleInner(c, own, m0, f); }
    var i := IndexAt(c, m0, f);
    forall k | 0 <= k < |c.given| ensures Eval(c.given[k], c.env, m, f) == Eval(c.given[k], c.env, m0, f) {
      assert c.given[k] in c.given;
      ForeignValue(c.given[k], c.env, m0, m, own, f);
    }
    assert GivenValues(c.given, c.env, m, f) == GivenValues(c.given, c.env, m0, f);
    CombinationValues(c.es, p, c.given, own, c.env, m, f, i);
    TupleExec(c.es, own, c.env, m, f);
    var ns, vs := IndexValues(c.es, c.env, m, f), ValuesOf(c.es, c.env, m, f);
    forall n | n in ns ensures n == i {
      var k :| 0 <= k < |ns| && ns[k] == n;
      assert c.es[k] in c.es;
    }
    PutEachIsRow(m, bufs, ns, vs, i);
  }

  lemma TupleInner(c: Combination, own: set<string>, m0: Memory, f: Meaning)
    requires TupleOk(c.es, own)
    ensures InnerEnv(TupleUpdate(c.es), IndicesOfAll(c.es), own, c.env, m0, f) == c.env
  {
    hide StoresTo;
    TupleShaped(c.es, own);
  }

  lemma IndicesSame(c: Combination, own: set<string>, m0: Memory, m: Memory, f: Meaning)
    requires TupleOk(c.es, own) && IndicesAgree(SiteOf(c), own, m0, f) && SameOutside(own, m0, m)
    requires InnerEnv(TupleUpdate(c.es), IndicesOfAll(c.es), own, c.env, m0, f) == c.env
    ensures forall e :: e in c.es ==> Eval(e.index, c.env, m, f) == IndexAt(c, m0, f)
  {
    hide Eval, InnerEnv, LoadsAt, Mentions, NoLets;
    forall e | e in c.es ensures Eval(e.index, c.env, m, f) == IndexAt(c, m0, f) {
      assert e.index in IndicesOfAll(c.es) && c.es[0] in c.es && c.es[0].index in IndicesOfAll(c.es);
      ForeignValue(e.index, c.env, m0, m, own, f);
    }
  }

  ghost predicate AllCombinations(cs: seq<seq<Combination>>, p: Pattern, bufs: seq<string>, own: set<string>,
      m0: Memory, f: Meaning)
  {
    forall t, k :: 0 <= t < |cs| && 0 <= k < |cs[t]| ==> CombinationOk(cs[t][k], p, bufs, own, m0, f)
  }

  function SitesOf(cs: seq<seq<Combination>>): (us: seq<seq<Site>>)
    ensures |us| == |cs|
    ensures forall t :: 0 <= t < |cs| ==> |us[t]| == |cs[t]|
    ensures forall t, k :: 0 <= t < |cs| && 0 <= k < |cs[t]| ==> us[t][k] == SiteOf(cs[t][k])
  {
    seq(|cs|, t requires 0 <= t < |cs| => seq(|cs[t]|, k requires 0 <= k < |cs[t]| => SiteOf(cs[t][k])))
  }

  ghost function Contributions(cs: seq<seq<Combination>>, m0: Memory, f: Meaning): Contribution {
    (t: nat, k: nat) =>
      if t < |cs| && k < |cs[t]| && cs[t][k].es != [] then Contributed(cs[t][k], m0, f) else (0, [])
  }

  lemma CombinationCombines(c: Combination, mutex: string, p: Pattern, bufs: seq<string>, own: set<string>, m0: Memory,
      f: Meaning)
    requires CombinationOk(c, p, bufs, own, m0, f)
    ensures Combines(UpdateFor(Lowered(SiteOf(c), mutex), c.env, f), bufs, Contributed(c, m0, f), OperatorOf(p, f), own,
                     m0)
  {
    hide Lowered, UpdateFor, SiteOk, TupleOk, Combine;
    CombinationParts(c, p, bufs, own, m0, f);
    var u := UpdateFor(Lowered(SiteOf(c), mutex), c.env, f);
    forall m: Memory, h: seq<int> | SameOutside(own, m0, m) && Follows(u, h, m) && u(h).Done?
      ensures MemAfter(u, h, m) == Combine(m, bufs, Contributed(c, m0, f), OperatorOf(p, f))
    {
      LoweredNext(SiteOf(c), mutex, own, m0, m, f, h);
      CombinationExec(c, p, bufs, own, m0, m, f);
    }
  }

  /** Any number of tasks that combine tuples by a pattern in which the order of
      operands does not matter: whatever the interleaving of their accesses,
      memory is the same in the end. */
  lemma CombinationsAgree(cs: seq<seq<Combination>>, mutex: string, p: Pattern, bufs: seq<string>, own: set<string>,
      m0: Memory, f: Meaning, run: seq<State>, run': seq<State>)
    requires AllCombinations(cs, p, bufs, own, m0, f) && |p.xs| == |bufs| && Different(bufs) && PatternOk(p)
    requires OrderFree(OperatorOf(p, f), |bufs|)
    requires var ts := TasksOf(SitesOf(cs), mutex, f);
             && IsRun(ts, Initial(ts, m0), run) && Finished(ts, run[|run| - 1])
             && IsRun(ts, Initial(ts, m0), run') && Finished(ts, run'[|run'| - 1])
    ensures run[|run| - 1].mem == run'[|run'| - 1].mem
  {
    hide SiteOk, Lowered, UpdateFor, Step, Finished, Combines, Eval, CombinationOk, OrderFree;
    var us, what := SitesOf(cs), Contributions(cs, m0, f);
    var ts, op := TasksOf(us, mutex, f), OperatorOf(p, f);
    forall t, k | 0 <= t < |us| && 0 <= k < |us[t]| ensures SiteOk(us[t][k], own, m0, f) {
      CombinationParts(cs[t][k], p, bufs, own, m0, f);
    }
    TasksDisciplined(us, mutex, own, m0, f);
    forall t, k | 0 <= t < |ts| && 0 <= k < |ts[t]|
      ensures |what(t, k).1| == |bufs| && Combines(ts[t][k], bufs, what(t, k), op, own, m0)
    {
      CombinationParts(cs[t][k], p, bufs, own, m0, f);
      CombinationCombines(cs[t][k], mutex, p, bufs, own, m0, f);
    }
    SameInEveryOrder(ts, IndicesOf(us, m0, f), bufs, what, op, own, m0, run, run');
  }

  lemma CombinationParts(c: Combination, p: Pattern, bufs: seq<string>, own: set<string>, m0: Memory, f: Meaning)
    requires CombinationOk(c, p, bufs, own, m0, f)
    ensures SiteOk(SiteOf(c), own, m0, f) && c.es != [] && |c.given| == |bufs|
  {
    hide SiteOk;
  }
}
