// Which atomic updates keep their mutex (FindAtomicLetBindings and
// RemoveUnnecessaryMutexUse of src/AddAtomicMutex.cpp).

module AtomicMutexUse {
  import opened AtomicRuns
  import opened AtomicOrders
  import opened AtomicStmts
  import opened AtomicResults
  import opened AtomicUpdates
  import opened AtomicTuples

  type Bindings = map<string, Expr>

  /** expr_uses_vars, looking through the lets around. */
  predicate UsesAny(e: Expr, names: set<string>, binds: Bindings)
    decreases |binds|
  {
    !(Mentions(e) !! names)
    || exists x :: x in Mentions(e) && x in binds && UsesAny(binds[x], names, Without(binds, x))
  }

  function Without(binds: Bindings, x: string): (r: Bindings)
    ensures x in binds ==> |r| < |binds|
  {
    if x in binds then
      assert (binds - {x}).Keys == binds.Keys - {x};
      SmallerMap(binds, x);
      binds - {x}
    else binds
  }

  lemma SmallerMap(binds: Bindings, x: string)
    requires x in binds
    ensures |binds - {x}| < |binds|
  {
    assert binds == (binds - {x})[x := binds[x]];
    assert (binds - {x}).Keys == binds.Keys - {x};
  }

  /** A variable of a stored value that stands for something read from the stored buffers. */
  predicate FindsInExpr(e: Expr, names: set<string>, binds: Bindings) {
    match e
    case Lit(_) => false
    case Var(_) => UsesAny(e, names, binds)
    case LoadFrom(_, i) => FindsInExpr(i, names, binds)
    case Op(_, a, b) => FindsInExpr(a, names, binds) || FindsInExpr(b, names, binds)
    case Select(c, a, b) =>
      FindsInExpr(c, names, binds) || FindsInExpr(a, names, binds) || FindsInExpr(b, names, binds)
    case Let(x, v, b) => FindsInExpr(v, names, binds) || FindsInExpr(b, names, binds[x := v])
  }

  predicate FindsInStmt(s: Stmt, names: set<string>, binds: Bindings) {
    match s
    case StoreTo(b, v, _, _) => b in names && FindsInExpr(v, names, binds)
    case Block(a, b) => FindsInStmt(a, names, binds) || FindsInStmt(b, names, binds)
    case LetStmt(x, v, b) => FindsInStmt(b, names, binds[x := v])
    case IfThenElse(_, b) => FindsInStmt(b, names, binds)
    case Atomic(_, _, b) => FindsInStmt(b, names, binds)
    case _ => false
  }

  predicate KeepsMutex(body: Stmt, producer: string) { FindsInStmt(body, StoreNames(body, producer), map[]) }

  class FindAtomicLetBindings {
    const storeNames: set<string>
    var found: bool
    var insideStore: bool
    var letBindings: Bindings

    constructor (names: set<string>)
      ensures storeNames == names && !found && !insideStore && letBindings == map[]
    {
      storeNames, found, insideStore, letBindings := names, false, false, map[];
    }

    method VisitExpr(e: Expr)
      modifies this
      ensures found == (old(found) || (insideStore && FindsInExpr(e, storeNames, letBindings)))
      ensures letBindings == old(letBindings) && insideStore == old(insideStore)
      decreases e
    {
      match e
      case Lit(_) =>
      case Var(_) => if insideStore && UsesAny(e, storeNames, letBindings) { found := true; }
      case LoadFrom(_, i) => VisitExpr(i);
      case Op(_, a, b) => VisitExpr(a); VisitExpr(b);
      case Select(c, a, b) => VisitExpr(c); VisitExpr(a); VisitExpr(b);
      case Let(x, v, b) =>
        VisitExpr(v);
        var around := letBindings;
        letBindings := letBindings[x := v];
        VisitExpr(b);
        letBindings := around;
    }

    method Visit(s: Stmt)
      requires !insideStore
      modifies this
      ensures found == (old(found) || FindsInStmt(s, storeNames, letBindings))
      ensures letBindings == old(letBindings) && !insideStore
      decreases s
    {
      match s
      case Skip =>
      case StoreTo(b, v, i, p) =>
        VisitExpr(p);
        VisitExpr(i);
        insideStore := b in storeNames;
        VisitExpr(v);
        insideStore := false;
      case Block(a, b) => Visit(a); Visit(b);
      case LetStmt(x, v, b) =>
        VisitExpr(v);
        var around := letBindings;
        letBindings := letBindings[x := v];
        Visit(b);
        letBindings := around;
      case IfThenElse(c, b) => VisitExpr(c); Visit(b);
      case Atomic(_, _, b) => Visit(b);
      case LockAt(_, i) => VisitExpr(i);
      case UnlockAt(_, i) => VisitExpr(i);
    }
  }

  // ----- tuples keep it, single stores do not -----

  lemma {:induction false} NoLetsFindsNothing(e: Expr, names: set<string>)
    requires NoLets(e) && VarsOf(e) !! names
    ensures !FindsInExpr(e, names, map[])
  {
    match e
    case Lit(_) =>
    case Var(_) =>
    case LoadFrom(_, i) => NoLetsFindsNothing(i, names);
    case Op(_, a, b) => NoLetsFindsNothing(a, names); NoLetsFindsNothing(b, names);
    case Select(c, a, b) =>
      NoLetsFindsNothing(c, names);
      NoLetsFindsNothing(a, names);
      NoLetsFindsNothing(b, names);
  }

  /** The variables, without the buffers. */
  function VarsOf(e: Expr): set<string> {
    match e
    case Lit(_) => {}
    case Var(x) => {x}
    case LoadFrom(_, i) => VarsOf(i)
    case Op(_, a, b) => VarsOf(a) + VarsOf(b)
    case Select(c, a, b) => VarsOf(c) + VarsOf(a) + VarsOf(b)
    case Let(x, v, b) => {x} + VarsOf(v) + VarsOf(b)
  }

  /** A single store needs no mutex, whatever it reads. */
  lemma SingleLosesMutex(b: string, v: Expr, i: Expr, p: Expr, producer: string)
    requires NoLets(v) && b !in VarsOf(v)
    ensures !KeepsMutex(StoreTo(b, v, i, p), producer)
  {
    var names := StoreNames(StoreTo(b, v, i, p), producer);
    if b in names { NoLetsFindsNothing(v, names); }
  }

  function Bound(es: seq<Element>, binds: Bindings): Bindings
    decreases |es|
  {
    if es == [] then binds else Bound(es[1..], binds[es[0].x := es[0].value])
  }

  lemma {:induction false} LetsFind(es: seq<Element>, body: Stmt, names: set<string>, binds: Bindings)
    ensures FindsInStmt(LetAll(es, body), names, binds) <==> FindsInStmt(body, names, Bound(es, binds))
    decreases |es|
  {
    if es != [] { LetsFind(es[1..], body, names, binds[es[0].x := es[0].value]); }
  }

  lemma {:induction false} StoresFind(es: seq<Element>, names: set<string>, binds: Bindings)
    ensures FindsInStmt(StoreAll(es), names, binds)
            <==> exists e :: e in es && e.buf in names && UsesAny(Var(e.x), names, binds)
    decreases |es|
  {
    if es != [] {
      var store := StoreTo(es[0].buf, Var(es[0].x), es[0].index, ON);
      assert FindsInStmt(store, names, binds) <==> es[0].buf in names && UsesAny(Var(es[0].x), names, binds);
      assert es[0] in es && forall e :: e in es ==> e == es[0] || e in es[1..];
      if |es| > 1 { StoresFind(es[1..], names, binds); }
    }
  }

  lemma {:induction false} BoundHas(es: seq<Element>, binds: Bindings, x: string)
    requires Different(XsOf(es))
    ensures forall k :: 0 <= k < |es| && es[k].x == x ==> x in Bound(es, binds) && Bound(es, binds)[x] == es[k].value
    ensures x !in XsOf(es) ==>
        (x in Bound(es, binds) <==> x in binds) && (x in binds ==> Bound(es, binds)[x] == binds[x])
    decreases |es|
  {
    if es != [] {
      assert XsOf(es[1..]) == XsOf(es)[1..];
      BoundHas(es[1..], binds[es[0].x := es[0].value], x);
    }
  }

  lemma {:induction false} TupleStores(es: seq<Element>, producer: string)
    requires forall e :: e in es ==> IsOf(e.buf, producer)
    ensures StoreNames(StoreAll(es), producer) == set e | e in es :: e.buf
    decreases |es|
  {
    if es != [] {
      var store := StoreTo(es[0].buf, Var(es[0].x), es[0].index, ON);
      assert es[0] in es && StoreNames(store, producer) == {es[0].buf};
      assert forall e :: e in es ==> e == es[0] || e in es[1..];
      if |es| > 1 { TupleStores(es[1..], producer); }
    }
  }

  lemma {:induction false} LetsStores(es: seq<Element>, body: Stmt, producer: string)
    ensures StoreNames(LetAll(es, body), producer) == StoreNames(body, producer)
    decreases |es|
  {
    if es != [] { LetsStores(es[1..], body, producer); }
  }

  /** A tuple update keeps its mutex exactly if a new value reads one of the buffers. */
  lemma TupleKeepsMutex(es: seq<Element>, own: set<string>, producer: string)
    requires TupleOk(es, own) && forall e :: e in es ==> IsOf(e.buf, producer) && e.x !in own
    ensures var names := set e | e in es :: e.buf;
            KeepsMutex(TupleUpdate(es), producer) <==> exists e :: e in es && !(Mentions(e.value) !! names)
  {
    hide Mentions, LoadsAt, PlainIndices, UsesAny;
    var names, binds := set e | e in es :: e.buf, Bound(es, map[]);
    LetsStores(es, StoreAll(es), producer);
    TupleStores(es, producer);
    LetsFind(es, StoreAll(es), names, map[]);
    StoresFind(es, names, binds);
    forall e | e in es ensures UsesAny(Var(e.x), names, binds) <==> !(Mentions(e.value) !! names) {
      ValueUses(es, own, e, names);
    }
  }

  lemma ValueUses(es: seq<Element>, own: set<string>, e: Element, names: set<string>)
    requires TupleOk(es, own) && e in es && names <= own && e.x !in own
    ensures UsesAny(Var(e.x), names, Bound(es, map[])) <==> !(Mentions(e.value) !! names)
  {
    hide LoadsAt, PlainIndices;
    var binds := Bound(es, map[]);
    BoundHas(es, map[], e.x);
    var k :| 0 <= k < |es| && es[k] == e;
    assert e.x in binds && binds[e.x] == e.value;
    assert Mentions(Var(e.x)) == {e.x};
    var rest := Without(binds, e.x);
    forall x | x in XsOf(es) ensures x !in Mentions(e.value) {
      var j :| 0 <= j < |es| && es[j].x == x;
      assert es[j] in es;
    }
    forall x | x in Mentions(e.value) ensures x !in rest { BoundHas(es, map[], x); }
    assert UsesAny(e.value, names, rest) <==> !(Mentions(e.value) !! names);
  }
}
