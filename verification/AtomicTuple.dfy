// Updates of tuples, which are what mutexes are for: lets that compute the new
// values of all elements, and then one store for each (src/SplitTuples.cpp).

module AtomicTuples {
  import opened Options
  import opened AtomicRuns
  import opened AtomicOrders
  import opened AtomicStmts
  import opened AtomicResults
  import opened AtomicUpdates

  /** An element of a tuple: its buffer, the index computed with that buffer's
      own minima and strides, the new value, and the variable that holds it. */
  datatype Element = Element(buf: string, index: Expr, value: Expr, x: string)

  function StoreAll(es: seq<Element>): Stmt {
    if es == [] then Skip
    else
      var store := StoreTo(es[0].buf, Var(es[0].x), es[0].index, ON);
      if |es| == 1 then store else Block(store, StoreAll(es[1..]))
  }

  function LetAll(es: seq<Element>, body: Stmt): Stmt {
    if es == [] then body else LetStmt(es[0].x, es[0].value, LetAll(es[1..], body))
  }

  function TupleUpdate(es: seq<Element>): Stmt { LetAll(es, StoreAll(es)) }

  function IndicesOfAll(es: seq<Element>): set<Expr> { set e | e in es :: e.index }

  function BufsOf(es: seq<Element>): (r: seq<string>)
    ensures |r| == |es| && forall k :: 0 <= k < |es| ==> r[k] == es[k].buf
  {
    seq(|es|, k requires 0 <= k < |es| => es[k].buf)
  }

  function XsOf(es: seq<Element>): (r: seq<string>)
    ensures |r| == |es| && forall k :: 0 <= k < |es| ==> r[k] == es[k].x
  {
    seq(|es|, k requires 0 <= k < |es| => es[k].x)
  }

  /** Different buffers; new variables that nothing mentions; values that read
      the shared buffers at the elements' indices only. */
  predicate TupleOk(es: seq<Element>, own: set<string>) {
    && es != [] && Different(BufsOf(es)) && Different(XsOf(es)) && PlainIndices(IndicesOfAll(es), own)
    && (forall e :: e in es ==> e.buf in own && LoadsAt(e.value, IndicesOfAll(es), own) && Fresh(e.x, IndicesOfAll(es)))
    && (forall e, e' :: e in es && e' in es ==> e.x !in Mentions(e'.value))
  }

  /** What is needed of them to be computed first and stored then. */
  predicate TuplePlain(es: seq<Element>, own: set<string>) {
    && Different(BufsOf(es)) && Different(XsOf(es)) && (forall e :: e in es ==> e.buf in own && Foreign(e.index, own))
    && (forall e, e' :: e in es && e' in es ==> e.x !in Mentions(e'.value) && e.x !in Mentions(e'.index))
  }

  lemma OkIsPlain(es: seq<Element>, own: set<string>)
    requires TupleOk(es, own)
    ensures TuplePlain(es, own)
  {
    hide Mentions, LoadsAt, NoLets;
    forall e, e' | e in es && e' in es
      ensures e.x !in Mentions(e'.value) && e.x !in Mentions(e'.index) && e.buf in own && Foreign(e.index, own)
    {
      assert e'.index in IndicesOfAll(es) && e.index in IndicesOfAll(es);
    }
  }

  lemma {:induction false} StoresShaped(es: seq<Element>, ixs: set<Expr>, own: set<string>)
    requires forall e :: e in es ==> e.buf in own && e.index in ixs
    ensures StoresTo(StoreAll(es), ixs, own)
    decreases |es|
  {
    if es != [] {
      var store := StoreTo(es[0].buf, Var(es[0].x), es[0].index, ON);
      assert LoadsAt(ON, ixs, own) && LoadsAt(Var(es[0].x), ixs, own) && es[0] in es;
      assert StoresTo(store, ixs, own);
      if |es| > 1 { StoresShaped(es[1..], ixs, own); }
    }
  }

  lemma {:induction false} LetsShaped(es: seq<Element>, body: Stmt, ixs: set<Expr>, own: set<string>)
    requires StoresTo(body, ixs, own) && forall e :: e in es ==> Fresh(e.x, ixs) && LoadsAt(e.value, ixs, own)
    ensures StoresTo(LetAll(es, body), ixs, own)
    decreases |es|
  {
    if es != [] {
      assert es[0] in es;
      LetsShaped(es[1..], body, ixs, own);
    }
  }

  lemma TupleShaped(es: seq<Element>, own: set<string>)
    requires TupleOk(es, own)
    ensures StoresTo(TupleUpdate(es), IndicesOfAll(es), own)
  {
    hide LoadsAt, PlainIndices, Fresh, StoresTo;
    StoresShaped(es, IndicesOfAll(es), own);
    LetsShaped(es, StoreAll(es), IndicesOfAll(es), own);
  }

  // ----- what a tuple update does -----

  function ValuesOf(es: seq<Element>, env: Env, m: Memory, f: Meaning): (r: seq<int>)
    ensures |r| == |es| && forall k :: 0 <= k < |es| ==> r[k] == Eval(es[k].value, env, m, f)
  {
    seq(|es|, k requires 0 <= k < |es| => Eval(es[k].value, env, m, f))
  }

  function IndexValues(es: seq<Element>, env: Env, m: Memory, f: Meaning): (r: seq<int>)
    ensures |r| == |es| && forall k :: 0 <= k < |es| ==> r[k] == Eval(es[k].index, env, m, f)
  {
    seq(|es|, k requires 0 <= k < |es| => Eval(es[k].index, env, m, f))
  }

  /** The variables hold the values. */
  function Extended(env: Env, xs: seq<string>, vs: seq<int>): Env
    requires |xs| == |vs|
    decreases |xs|
  {
    if xs == [] then env else Extended(env[xs[0] := vs[0]], xs[1..], vs[1..])
  }

  /** Element `k` of each buffer at its own index. */
  function PutEach(m: Memory, bufs: seq<string>, ns: seq<int>, vs: seq<int>): Memory
    requires |bufs| == |ns| == |vs|
    decreases |bufs|
  {
    if bufs == [] then m else PutEach(m[Cell(bufs[0], ns[0]) := vs[0]], bufs[1..], ns[1..], vs[1..])
  }

  lemma {:induction false} ExtendedKeeps(env: Env, xs: seq<string>, vs: seq<int>, e: Expr, m: Memory, f: Meaning)
    requires |xs| == |vs| && forall x :: x in xs ==> x !in Mentions(e)
    ensures Eval(e, Extended(env, xs, vs), m, f) == Eval(e, env, m, f)
    decreases |xs|
  {
    if xs != [] {
      UnusedValue(e, env, xs[0], vs[0], m, f);
      ExtendedKeeps(env[xs[0] := vs[0]], xs[1..], vs[1..], e, m, f);
    }
  }

  lemma {:induction false} ExtendedHas(env: Env, xs: seq<string>, vs: seq<int>, k: nat)
    requires |xs| == |vs| && k < |xs| && Different(xs)
    ensures Lookup(Extended(env, xs, vs), xs[k]) == vs[k]
    decreases |xs|
  {
    if k == 0 {
      assert Lookup(env[xs[0] := vs[0]], xs[0]) == vs[0];
      ExtendedOthers(env[xs[0] := vs[0]], xs[1..], vs[1..], xs[0]);
    } else {
      ExtendedHas(env[xs[0] := vs[0]], xs[1..], vs[1..], k - 1);
    }
  }

  lemma {:induction false} ExtendedOthers(env: Env, xs: seq<string>, vs: seq<int>, x: string)
    requires |xs| == |vs| && x !in xs
    ensures Lookup(Extended(env, xs, vs), x) == Lookup(env, x)
    decreases |xs|
  {
    if xs != [] { ExtendedOthers(env[xs[0] := vs[0]], xs[1..], vs[1..], x); }
  }

  lemma {:induction false} LetsExec(es: seq<Element>, body: Stmt, env: Env, m: Memory, f: Meaning)
    requires forall e, e' :: e in es && e' in es ==> e.x !in Mentions(e'.value)
    ensures Exec(LetAll(es, body), env, m, f) == Exec(body, Extended(env, XsOf(es), ValuesOf(es, env, m, f)), m, f)
    decreases |es|
  {
    hide Mentions;
    if es != [] {
      var v := Eval(es[0].value, env, m, f);
      var env1 := env[es[0].x := v];
      LetsExec(es[1..], body, env1, m, f);
      forall k | 1 <= k < |es| ensures Eval(es[k].value, env1, m, f) == Eval(es[k].value, env, m, f) {
        assert es[0] in es && es[k] in es;
        UnusedValue(es[k].value, env, es[0].x, v, m, f);
      }
      assert ValuesOf(es[1..], env1, m, f) == ValuesOf(es, env, m, f)[1..];
      assert XsOf(es[1..]) == XsOf(es)[1..];
    }
  }

  /** Stores of variables at indices that read nothing shared. */
  lemma {:induction false} StoresExec(es: seq<Element>, own: set<string>, env: Env, m: Memory, f: Meaning)
    requires forall e :: e in es ==> e.buf in own && Foreign(e.index, own)
    ensures Exec(StoreAll(es), env, m, f)
            == PutEach(m, BufsOf(es), IndexValues(es, env, m, f),
                       seq(|es|, k requires 0 <= k < |es| => Lookup(env, es[k].x)))
    decreases |es|
  {
    if es != [] {
      var store := StoreTo(es[0].buf, Var(es[0].x), es[0].index, ON);
      var c, v := Cell(es[0].buf, Eval(es[0].index, env, m, f)), Lookup(env, es[0].x);
      var m1 := m[c := v];
      assert es[0] in es;
      assert Eval(ON, env, m, f) == 1 && Exec(store, env, m, f) == m1;
      if |es| == 1 {
        assert BufsOf(es)[1..] == [];
      } else {
        StoresExec(es[1..], own, env, m1, f);
        forall k | 0 <= k < |es| ensures Eval(es[k].index, env, m1, f) == Eval(es[k].index, env, m, f) {
          assert es[k] in es;
          ForeignValue(es[k].index, env, m, m1, own, f);
        }
        assert IndexValues(es[1..], env, m1, f) == IndexValues(es, env, m, f)[1..];
        assert BufsOf(es[1..]) == BufsOf(es)[1..];
        var vs := seq(|es|, k requires 0 <= k < |es| => Lookup(env, es[k].x));
        assert seq(|es| - 1, k requires 0 <= k < |es| - 1 => Lookup(env, es[1..][k].x)) == vs[1..];
      }
    }
  }

  /** Every element gets its new value, computed before any is stored, at its own index. */
  lemma TupleExec(es: seq<Element>, own: set<string>, env: Env, m: Memory, f: Meaning)
    requires TuplePlain(es, own)
    ensures Exec(TupleUpdate(es), env, m, f)
            == PutEach(m, BufsOf(es), IndexValues(es, env, m, f), ValuesOf(es, env, m, f))
  {
    hide Mentions, Exec;
    var xs, vs := XsOf(es), ValuesOf(es, env, m, f);
    var env1 := Extended(env, xs, vs);
    LetsExec(es, StoreAll(es), env, m, f);
    StoresExec(es, own, env1, m, f);
    forall k | 0 <= k < |es| ensures Lookup(env1, es[k].x) == vs[k] { ExtendedHas(env, xs, vs, k); }
    assert seq(|es|, k requires 0 <= k < |es| => Lookup(env1, es[k].x)) == vs;
    forall k | 0 <= k < |es| ensures Eval(es[k].index, env1, m, f) == Eval(es[k].index, env, m, f) {
      forall x | x in xs ensures x !in Mentions(es[k].index) {
        var j :| 0 <= j < |es| && es[j].x == x;
        assert es[j] in es && es[k] in es;
      }
      ExtendedKeeps(env, xs, vs, es[k].index, m, f);
    }
    assert IndexValues(es, env1, m, f) == IndexValues(es, env, m, f);
  }

  lemma {:induction false} PutEachAt(m: Memory, bufs: seq<string>, ns: seq<int>, vs: seq<int>, c: Cell)
    requires |bufs| == |ns| == |vs| && Different(bufs)
    ensures forall k :: 0 <= k < |bufs| && bufs[k] == c.buf ==>
              Get(PutEach(m, bufs, ns, vs), c) == if ns[k] == c.i then vs[k] else Get(m, c)
    ensures c.buf !in bufs ==> Get(PutEach(m, bufs, ns, vs), c) == Get(m, c)
    decreases |bufs|
  {
    if bufs != [] {
      PutEachAt(m[Cell(bufs[0], ns[0]) := vs[0]], bufs[1..], ns[1..], vs[1..], c);
    }
  }

  lemma {:induction false} PutEachKeys(m: Memory, bufs: seq<string>, ns: seq<int>, vs: seq<int>, i: int)
    requires |bufs| == |ns| == |vs| && forall n :: n in ns ==> n == i
    ensures PutEach(m, bufs, ns, vs).Keys == m.Keys + RowCells(bufs, i)
    decreases |bufs|
  {
    if bufs != [] {
      assert ns[0] in ns;
      forall n | n in ns[1..] ensures n == i { assert n in ns; }
      PutEachKeys(m[Cell(bufs[0], ns[0]) := vs[0]], bufs[1..], ns[1..], vs[1..], i);
      assert RowCells(bufs, i) == {Cell(bufs[0], i)} + RowCells(bufs[1..], i);
    }
  }

  /** At one index a tuple is stored as a row. */
  lemma PutEachIsRow(m: Memory, bufs: seq<string>, ns: seq<int>, vs: seq<int>, i: int)
    requires |bufs| == |ns| == |vs| && Different(bufs) && forall n :: n in ns ==> n == i
    ensures PutEach(m, bufs, ns, vs) == PutRow(m, bufs, i, vs)
  {
    var a, b := PutEach(m, bufs, ns, vs), PutRow(m, bufs, i, vs);
    PutEachKeys(m, bufs, ns, vs, i);
    forall c | c in a ensures a[c] == b[c] {
      PutEachAt(m, bufs, ns, vs, c);
      if c in RowCells(bufs, i) { assert ns[Position(bufs, c.buf)] in ns; }
      else if c.buf in bufs { assert ns[Position(bufs, c.buf)] in ns; }
    }
  }

  // ----- the lowered tuple -----

  lemma {:induction false} StoresIndex(es: seq<Element>, producer: string)
    requires es != [] && IsOf(es[0].buf, producer) && forall e :: e in es ==> NoLets(e.index)
    ensures FindIndex(StoreAll(es), producer, None) == Some(es[0].index)
  {
    var index := es[0].index;
    var store := StoreTo(es[0].buf, Var(es[0].x), index, ON);
    assert es[0] in es;
    NothingInExpr(index);
    assert FindIndex(store, producer, None) == Some(index);
    if |es| > 1 { LaterStores(es[1..], producer, index); }
  }

  lemma {:induction false} LaterStores(es: seq<Element>, producer: string, index: Expr)
    requires forall e :: e in es ==> NoLets(e.index)
    ensures FindIndex(StoreAll(es), producer, Some(index)) == Some(index)
    decreases |es|
  {
    if es != [] {
      var store := StoreTo(es[0].buf, Var(es[0].x), es[0].index, ON);
      assert es[0] in es;
      NoLetsKept(es[0].index, index);
      assert FindIndex(store, producer, Some(index)) == Some(index);
      if |es| > 1 { LaterStores(es[1..], producer, index); }
    }
  }

  /** The index found is that of the first element. */
  lemma {:induction false} TupleIndex(es: seq<Element>, body: Stmt, producer: string, index: Expr)
    requires FindIndex(body, producer, None) == Some(index) && forall e :: e in es ==> e.x !in Mentions(index)
    ensures FindIndex(LetAll(es, body), producer, None) == Some(index)
    decreases |es|
  {
    if es != [] {
      assert es[0] in es;
      NothingInExpr(es[0].value);
      TupleIndex(es[1..], body, producer, index);
    }
  }

  /** The same stores, all at the variable `t`. */
  function Redirected(es: seq<Element>, t: string): (r: seq<Element>)
    ensures |r| == |es| && forall k :: 0 <= k < |es| ==> r[k] == es[k].(index := Var(t))
  {
    seq(|es|, k requires 0 <= k < |es| => es[k].(index := Var(t)))
  }

  lemma {:induction false} ReplacedStores(es: seq<Element>, t: string)
    ensures ReplaceIndex(StoreAll(es), t) == StoreAll(Redirected(es, t))
    decreases |es|
  {
    if es != [] {
      var store := StoreTo(es[0].buf, Var(es[0].x), es[0].index, ON);
      assert ReplaceIndex(store, t) == StoreTo(es[0].buf, Var(es[0].x), Var(t), ON);
      assert Redirected(es, t)[1..] == Redirected(es[1..], t);
      if |es| > 1 { ReplacedStores(es[1..], t); }
    }
  }

  lemma {:induction false} ReplacedLets(es: seq<Element>, body: Stmt, t: string)
    ensures ReplaceIndex(LetAll(es, body), t) == LetAll(Redirected(es, t), ReplaceIndex(body, t))
    decreases |es|
  {
    if es != [] {
      assert Redirected(es, t)[1..] == Redirected(es[1..], t);
      ReplacedLets(es[1..], body, t);
    }
  }

  /** `t` is a new name. */
  predicate IsNew(t: string, es: seq<Element>, own: set<string>) {
    t !in own && forall e :: e in es ==> t != e.x && t !in Mentions(e.value) && t !in Mentions(e.index)
  }

  /** The lowered update computes the same values and stores them all at the first element's index. */
  lemma LoweredTupleExec(es: seq<Element>, own: set<string>, producer: string, mutex: string, t: string, env: Env,
      m: Memory, f: Meaning)
    requires TupleOk(es, own) && IsOf(es[0].buf, producer) && IsNew(t, es, own)
    ensures var i := Eval(es[0].index, env, m, f);
            Exec(AddMutex(producer, mutex, TupleUpdate(es), t), env, m, f)
            == PutEach(m, BufsOf(es), seq(|es|, _ => i), ValuesOf(es, env, m, f))
  {
    hide Mentions, LoadsAt, NoLets, Exec, Eval;
    OkIsPlain(es, own);
    var index, i := es[0].index, Eval(es[0].index, env, m, f);
    TupleFound(es, own, producer);
    ReplacedLets(es, StoreAll(es), t);
    ReplacedStores(es, t);
    var es', env' := Redirected(es, t), env[t := i];
    RedirectedPlain(es, own, t);
    TupleExec(es', own, env', m, f);
    assert BufsOf(es') == BufsOf(es);
    forall k | 0 <= k < |es|
      ensures Eval(es'[k].value, env', m, f) == Eval(es[k].value, env, m, f) && Eval(es'[k].index, env', m, f) == i
    {
      assert es[k] in es;
      UnusedValue(es[k].value, env, t, i, m, f);
      VarValue(env, t, i, m, f);
    }
    assert ValuesOf(es', env', m, f) == ValuesOf(es, env, m, f);
    assert IndexValues(es', env', m, f) == seq(|es|, _ => i);
    LockedSteps(mutex, t, TupleUpdate(es'), env', m, f);
    ExecLet(t, index, Atomic(producer, mutex, Locked(mutex, Var(t), TupleUpdate(es'))), env, m, f);
    ExecAtomic(producer, mutex, Locked(mutex, Var(t), TupleUpdate(es')), env', m, f);
  }

  lemma VarValue(env: Env, t: string, i: int, m: Memory, f: Meaning)
    ensures Eval(Var(t), env[t := i], m, f) == i
  {}

  lemma TupleFound(es: seq<Element>, own: set<string>, producer: string)
    requires TupleOk(es, own) && IsOf(es[0].buf, producer)
    ensures FindIndex(TupleUpdate(es), producer, None) == Some(es[0].index)
  {
    hide Mentions, LoadsAt, NoLets, FindIndex;
    forall e | e in es ensures NoLets(e.index) && e.x !in Mentions(es[0].index) {
      assert e.index in IndicesOfAll(es) && es[0] in es && es[0].index in IndicesOfAll(es);
    }
    StoresIndex(es, producer);
    TupleIndex(es, StoreAll(es), producer, es[0].index);
  }

  lemma RedirectedPlain(es: seq<Element>, own: set<string>, t: string)
    requires TuplePlain(es, own) && IsNew(t, es, own)
    ensures TuplePlain(Redirected(es, t), own)
  {
    var es' := Redirected(es, t);
    assert BufsOf(es') == BufsOf(es) && XsOf(es') == XsOf(es);
    forall e | e in es' ensures e.index == Var(t) && exists d :: d in es && e == d.(index := Var(t)) {
      var k :| 0 <= k < |es'| && e == es'[k];
      assert es[k] in es && e == es[k].(index := Var(t));
    }
  }

  ghost predicate SameContents(m: Memory, m': Memory) { forall c: Cell :: Get(m, c) == Get(m', c) }

  /** Lowering keeps the meaning of a tuple update, over all contents of the
      shared buffers, exactly if the indices of its elements agree. */
  lemma TupleLoweredExactly(es: seq<Element>, own: set<string>, producer: string, mutex: string, t: string, env: Env,
      m0: Memory, f: Meaning)
    requires TupleOk(es, own) && IsOf(es[0].buf, producer) && IsNew(t, es, own)
    ensures
      (forall m: Memory :: SameOutside(own, m0, m) ==>
        SameContents(Exec(AddMutex(producer, mutex, TupleUpdate(es), t), env, m, f), Exec(TupleUpdate(es), env, m, f)))
      <==> forall k :: 0 <= k < |es| ==> Eval(es[k].index, env, m0, f) == Eval(es[0].index, env, m0, f)
  {
    hide Mentions, LoadsAt, NoLets, Exec, Eval, PutEach;
    OkIsPlain(es, own);
    var i := Eval(es[0].index, env, m0, f);
    if k :| 0 <= k < |es| && Eval(es[k].index, env, m0, f) != i {
      var j := Eval(es[k].index, env, m0, f);
      var c, d := Cell(es[k].buf, i), Cell(es[k].buf, j);
      var m := m0[c := Get(m0, d) + 1];
      assert es[k] in es && SameOutside(own, m0, m);
      BothAt(es, own, producer, mutex, t, env, m0, m, f, k, c);
      BothAt(es, own, producer, mutex, t, env, m0, m, f, k, d);
      assert Get(m, c) != Get(m, d);
    } else {
      forall m: Memory, c: Cell | SameOutside(own, m0, m)
        ensures Get(Exec(AddMutex(producer, mutex, TupleUpdate(es), t), env, m, f), c)
                == Get(Exec(TupleUpdate(es), env, m, f), c)
      {
        if k :| 0 <= k < |es| && es[k].buf == c.buf {
          BothAt(es, own, producer, mutex, t, env, m0, m, f, k, c);
        } else {
          NeitherAt(es, own, producer, mutex, t, env, m, f, c);
        }
      }
    }
  }

  /** A cell of an element's buffer, after the update as written and as lowered. */
  lemma BothAt(es: seq<Element>, own: set<string>, producer: string, mutex: string, t: string, env: Env, m0: Memory,
      m: Memory, f: Meaning, k: nat, c: Cell)
    requires TupleOk(es, own) && IsOf(es[0].buf, producer) && IsNew(t, es, own)
    requires SameOutside(own, m0, m) && k < |es| && c.buf == es[k].buf
    ensures
      var v := Eval(es[k].value, env, m, f);
      && Get(Exec(TupleUpdate(es), env, m, f), c)
         == (if c.i == Eval(es[k].index, env, m0, f) then v else Get(m, c))
      && Get(Exec(AddMutex(producer, mutex, TupleUpdate(es), t), env, m, f), c)
         == (if c.i == Eval(es[0].index, env, m0, f) then v else Get(m, c))
  {
    hide Mentions, LoadsAt, NoLets, Exec, Eval, PutEach;
    OkIsPlain(es, own);
    TupleExec(es, own, env, m, f);
    LoweredTupleExec(es, own, producer, mutex, t, env, m, f);
    var vs, i := ValuesOf(es, env, m, f), Eval(es[0].index, env, m, f);
    assert es[0] in es && es[k] in es;
    ForeignValue(es[0].index, env, m0, m, own, f);
    ForeignValue(es[k].index, env, m0, m, own, f);
    assert BufsOf(es)[k] == c.buf;
    PutEachAt(m, BufsOf(es), IndexValues(es, env, m, f), vs, c);
    PutEachAt(m, BufsOf(es), seq(|es|, _ => i), vs, c);
  }

  lemma NeitherAt(es: seq<Element>, own: set<string>, producer: string, mutex: string, t: string, env: Env, m: Memory,
      f: Meaning, c: Cell)
    requires TupleOk(es, own) && IsOf(es[0].buf, producer) && IsNew(t, es, own)
    requires forall k :: 0 <= k < |es| ==> es[k].buf != c.buf
    ensures Get(Exec(TupleUpdate(es), env, m, f), c)
            == Get(Exec(AddMutex(producer, mutex, TupleUpdate(es), t), env, m, f), c)
  {
    hide Mentions, LoadsAt, NoLets, Exec, Eval, PutEach;
    OkIsPlain(es, own);
    TupleExec(es, own, env, m, f);
    LoweredTupleExec(es, own, producer, mutex, t, env, m, f);
    var vs, i := ValuesOf(es, env, m, f), Eval(es[0].index, env, m, f);
    PutEachAt(m, BufsOf(es), IndexValues(es, env, m, f), vs, c);
    PutEachAt(m, BufsOf(es), seq(|es|, _ => i), vs, c);
  }
}
