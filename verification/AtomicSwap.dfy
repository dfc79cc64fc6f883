// The update f(x) = {f(x)[1], f(x)[0]}, after its tuple was split and its
// storage flattened: each element is indexed with its own buffer's shape.

module AtomicSwaps {
  import opened AtomicRuns
  import opened AtomicOrders
  import opened AtomicStmts
  import opened AtomicResults
  import opened AtomicUpdates
  import opened AtomicTuples
  import opened AtomicMutexUse
  import opened AtomicOps

  const FIRST := "f.0"
  const SECOND := "f.1"

  /** (x - min) * stride, with the buffer's own minimum and stride. */
  function FlatIndex(buf: string): Expr {
    AtomicStmts.Op(MUL, AtomicStmts.Op(SUB, Var("x"), Var(buf + ".min.0")), Var(buf + ".stride.0"))
  }

  function SwapElements(): seq<Element> {
    [Element(FIRST, FlatIndex(FIRST), LoadFrom(SECOND, FlatIndex(SECOND)), FIRST + ".value"),
     Element(SECOND, FlatIndex(SECOND), LoadFrom(FIRST, FlatIndex(FIRST)), SECOND + ".value")]
  }

  const OWN := {FIRST, SECOND}

  lemma FlatNames(buf: string)
    ensures Mentions(FlatIndex(buf)) == {"x", buf + ".min.0", buf + ".stride.0"}
    ensures NoLets(FlatIndex(buf))
  {
    assert Mentions(AtomicStmts.Op(SUB, Var("x"), Var(buf + ".min.0"))) == {"x", buf + ".min.0"};
  }

  lemma NamesDiffer()
    ensures OWN !! {"x", FIRST + ".min.0", FIRST + ".stride.0", SECOND + ".min.0", SECOND + ".stride.0"}
    ensures {FIRST + ".value", SECOND + ".value"}
            !! OWN + {"x", FIRST + ".min.0", FIRST + ".stride.0", SECOND + ".min.0", SECOND + ".stride.0"}
    ensures FIRST + ".value" != SECOND + ".value" && FIRST != SECOND
    ensures IsOf(FIRST, "f") && IsOf(SECOND, "f")
  {
    assert FIRST[2] == '0' && SECOND[2] == '1';
    assert (FIRST + ".value")[4] == 'v' && (SECOND + ".value")[4] == 'v';
    assert (FIRST + ".value")[2] == '0' && (SECOND + ".value")[2] == '1';
    assert (FIRST + ".min.0")[4] == 'm' && (SECOND + ".min.0")[4] == 'm';
    assert (FIRST + ".stride.0")[4] == 's' && (SECOND + ".stride.0")[4] == 's';
  }

  lemma SwapOk()
    ensures TupleOk(SwapElements(), OWN)
  {
    hide Mentions, NoLets;
    NamesDiffer();
    FlatNames(FIRST);
    FlatNames(SECOND);
    LoadNames(FIRST);
    LoadNames(SECOND);
    var es := SwapElements();
    var ixs := IndicesOfAll(es);
    assert ixs == {FlatIndex(FIRST), FlatIndex(SECOND)} by {
      assert es[0] in es && es[1] in es;
    }
    assert BufsOf(es) == [FIRST, SECOND] && XsOf(es) == [FIRST + ".value", SECOND + ".value"];
    FlatLoads(FIRST, ixs, OWN);
    FlatLoads(SECOND, ixs, OWN);
  }

  lemma LoadNames(buf: string)
    ensures Mentions(LoadFrom(buf, FlatIndex(buf))) == {buf} + Mentions(FlatIndex(buf))
  {}

  lemma FlatLoads(buf: string, ixs: set<Expr>, own: set<string>)
    requires FlatIndex(buf) in ixs
    ensures LoadsAt(LoadFrom(buf, FlatIndex(buf)), ixs, own)
  {
    var d := AtomicStmts.Op(SUB, Var("x"), Var(buf + ".min.0"));
    assert LoadsAt(Var("x"), ixs, own) && LoadsAt(Var(buf + ".min.0"), ixs, own);
    assert LoadsAt(Var(buf + ".stride.0"), ixs, own) && LoadsAt(d, ixs, own);
    assert LoadsAt(FlatIndex(buf), ixs, own);
  }

  /** It keeps its mutex. */
  lemma SwapKeepsMutex()
    ensures KeepsMutex(TupleUpdate(SwapElements()), "f")
  {
    hide Mentions, NoLets;
    var es := SwapElements();
    NamesDiffer();
    SwapOk();
    LoadNames(SECOND);
    TupleKeepsMutex(es, OWN, "f");
    assert es[0] in es && es[1] in es;
    assert SECOND in Mentions(es[0].value);
  }

  /** Lowering keeps its meaning exactly if both buffers put x at the same index. */
  lemma SwapLoweredExactly(env: Env, m0: Memory, f: Meaning, mutex: string, t: string)
    requires IsNew(t, SwapElements(), OWN)
    ensures
      var swap := TupleUpdate(SwapElements());
      (forall m: Memory :: SameOutside(OWN, m0, m) ==>
        SameContents(Exec(AddMutex("f", mutex, swap, t), env, m, f), Exec(swap, env, m, f)))
      <==> Eval(FlatIndex(SECOND), env, m0, f) == Eval(FlatIndex(FIRST), env, m0, f)
  {
    hide Eval, Exec, Mentions, NoLets;
    NamesDiffer();
    SwapOk();
    TupleLoweredExactly(SwapElements(), OWN, "f", mutex, t, env, m0, f);
    assert SwapElements()[1].index == FlatIndex(SECOND);
  }

  /** An example: both start at 0, and the second has twice the stride. */
  lemma StridesDiffer(m0: Memory, mutex: string, t: string, n: int, half: int)
    requires IsNew(t, SwapElements(), OWN) && n > 2 + half && half >= 0
    ensures
      var swap := TupleUpdate(SwapElements());
      var env := map["x" := 1, FIRST + ".min.0" := 0, FIRST + ".stride.0" := 1,
                     SECOND + ".min.0" := 0, SECOND + ".stride.0" := 2];
      exists m: Memory :: SameOutside(OWN, m0, m)
        && !SameContents(Exec(AddMutex("f", mutex, swap, t), env, m, Wrapping(n, half)),
                         Exec(swap, env, m, Wrapping(n, half)))
  {
    hide Exec, Mentions, NoLets;
    var f := Wrapping(n, half);
    var env := map["x" := 1, FIRST + ".min.0" := 0, FIRST + ".stride.0" := 1,
                   SECOND + ".min.0" := 0, SECOND + ".stride.0" := 2];
    EnvValues(env);
    FlatValue(FIRST, env, m0, n, half, 1);
    FlatValue(SECOND, env, m0, n, half, 2);
    SwapLoweredExactly(env, m0, f, mutex, t);
  }

  lemma EnvValues(env: Env)
    requires env == map["x" := 1, FIRST + ".min.0" := 0, FIRST + ".stride.0" := 1,
                        SECOND + ".min.0" := 0, SECOND + ".stride.0" := 2]
    ensures Lookup(env, "x") == 1
    ensures Lookup(env, FIRST + ".min.0") == 0 && Lookup(env, FIRST + ".stride.0") == 1
    ensures Lookup(env, SECOND + ".min.0") == 0 && Lookup(env, SECOND + ".stride.0") == 2
  {
    assert (FIRST + ".min.0")[2] == '0' && (SECOND + ".min.0")[2] == '1';
    assert (FIRST + ".stride.0")[2] == '0' && (SECOND + ".stride.0")[2] == '1';
    assert (FIRST + ".min.0")[4] == 'm' && (SECOND + ".min.0")[4] == 'm';
    assert (FIRST + ".stride.0")[4] == 's' && (SECOND + ".stride.0")[4] == 's';
  }

  lemma FlatValue(buf: string, env: Env, m: Memory, n: int, half: int, s: int)
    requires n > 2 + half && half >= 0 && 1 <= s <= 2
    requires Lookup(env, "x") == 1 && Lookup(env, buf + ".min.0") == 0 && Lookup(env, buf + ".stride.0") == s
    ensures Eval(FlatIndex(buf), env, m, Wrapping(n, half)) == s
  {
    var f := Wrapping(n, half);
    var d := AtomicStmts.Op(SUB, Var("x"), Var(buf + ".min.0"));
    SmallWrap(1, n, half);
    SmallWrap(s, n, half);
    assert Eval(d, env, m, f) == Wrap(1 - 0, n, half);
    assert Eval(FlatIndex(buf), env, m, f) == Wrap(1 * s, n, half);
  }

  lemma SmallWrap(x: int, n: int, half: int)
    requires n > 2 + half && half >= 0 && 0 <= x <= 2
    ensures Wrap(x, n, half) == x
  {}
}
