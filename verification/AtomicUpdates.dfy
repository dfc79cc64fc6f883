// Atomic updates of a Func: with the mutexes added, every interleaving of any
// number of tasks does what the updates as written do one at a time.

module AtomicUpdates {
  import opened Options
  import opened AtomicRuns
  import opened AtomicSerial
  import opened AtomicOrders
  import opened AtomicStmts
  import opened AtomicResults

  // ----- the update under the lock -----

  ghost predicate AllHarmless(t: seq<Action>, i: int, own: set<string>) { forall a :: a in t ==> Harmless(a, i, own) }

  lemma {:induction false} LoadsHarmless(e: Expr, ixs: set<Expr>, own: set<string>, i: int, env: Env, m: Memory,
      f: Meaning)
    requires LoadsAt(e, ixs, own) && AllAt(ixs, env, m, f, i)
    ensures AllHarmless(ExprSteps(e, env, m, f), i, own)
  {
    match e
    case Lit(_) =>
    case Var(_) =>
    case LoadFrom(b, j) => LoadsHarmless(j, ixs, own, i, env, m, f);
    case Op(_, a, b) => LoadsHarmless(a, ixs, own, i, env, m, f); LoadsHarmless(b, ixs, own, i, env, m, f);
    case Select(c, a, b) =>
      LoadsHarmless(c, ixs, own, i, env, m, f);
      LoadsHarmless(a, ixs, own, i, env, m, f);
      LoadsHarmless(b, ixs, own, i, env, m, f);
    case Let(x, v, b) =>
      LoadsHarmless(v, ixs, own, i, env, m, f);
      FreshKeeps(x, Eval(v, env, m, f), ixs, i, env, m, f);
      LoadsHarmless(b, ixs, own, i, env[x := Eval(v, env, m, f)], m, f);
  }

  lemma FreshKeeps(x: string, u: int, ixs: set<Expr>, i: int, env: Env, m: Memory, f: Meaning)
    requires Fresh(x, ixs) && AllAt(ixs, env, m, f, i)
    ensures AllAt(ixs, env[x := u], m, f, i)
  {
    forall e | e in ixs ensures Eval(e, env[x := u], m, f) == i { UnusedValue(e, env, x, u, m, f); }
  }

  lemma ForeignKeeps(ixs: set<Expr>, own: set<string>, i: int, env: Env, m: Memory, m': Memory, f: Meaning)
    requires PlainIndices(ixs, own) && AllAt(ixs, env, m, f, i) && SameOutside(own, m, m')
    ensures AllAt(ixs, env, m', f, i)
  {
    forall e | e in ixs ensures Eval(e, env, m', f) == i { ForeignValue(e, env, m, m', own, f); }
  }

  /** Nothing outside the shared buffers is written. */
  lemma {:induction false} StoresKeep(s: Stmt, ixs: set<Expr>, own: set<string>, env: Env, m: Memory, f: Meaning)
    requires StoresTo(s, ixs, own)
    ensures SameOutside(own, m, Exec(s, env, m, f))
  {
    match s
    case Skip =>
    case StoreTo(_, _, _, _) =>
    case Block(a, b) =>
      StoresKeep(a, ixs, own, env, m, f);
      StoresKeep(b, ixs, own, env, Exec(a, env, m, f), f);
    case LetStmt(x, v, b) => StoresKeep(b, ixs, own, env[x := Eval(v, env, m, f)], m, f);
    case IfThenElse(c, b) => StoresKeep(b, ixs, own, env, m, f);
  }

  /** With the index in the variable `t` the stores do what they did, and only
      at that index, if all their indices have its value. */
  lemma {:induction false} StoresReplaced(s: Stmt, ixs: set<Expr>, own: set<string>, i: int, t: string, env: Env,
      m: Memory, f: Meaning)
    requires StoresTo(s, ixs, own) && PlainIndices(ixs, own) && t !in NamesIn(s) && Fresh(t, ixs)
    requires AllAt(ixs, env, m, f, i)
    ensures var s', env' := ReplaceIndex(s, t), env[t := i];
            Exec(s', env', m, f) == Exec(s, env, m, f) && AllHarmless(Steps(s', env', m, f), i, own)
  {
    hide Mentions, LoadsAt, AllAt, PlainIndices, Fresh;
    var env' := env[t := i];
    FreshKeeps(t, i, ixs, i, env, m, f);
    match s
    case Skip =>
    case StoreTo(b, v, j, p) => StoreReplaced(b, v, j, p, ixs, own, i, t, env, m, f);
    case Block(a, b) =>
      StoresReplaced(a, ixs, own, i, t, env, m, f);
      var m1 := Exec(a, env, m, f);
      StoresKeep(a, ixs, own, env, m, f);
      ForeignKeeps(ixs, own, i, env, m, m1, f);
      StoresReplaced(b, ixs, own, i, t, env, m1, f);
    case LetStmt(x, v, b) =>
      var u := Eval(v, env, m, f);
      UnusedValue(v, env, t, i, m, f);
      LoadsHarmless(v, ixs, own, i, env', m, f);
      FreshKeeps(x, u, ixs, i, env, m, f);
      StoresReplaced(b, ixs, own, i, t, env[x := u], m, f);
      assert env'[x := u] == env[x := u][t := i];
    case IfThenElse(c, b) =>
      UnusedValue(c, env, t, i, m, f);
      LoadsHarmless(c, ixs, own, i, env', m, f);
      StoresReplaced(b, ixs, own, i, t, env, m, f);
  }

  lemma StoreReplaced(b: string, v: Expr, j: Expr, p: Expr, ixs: set<Expr>, own: set<string>, i: int, t: string,
      env: Env, m: Memory, f: Meaning)
    requires StoresTo(StoreTo(b, v, j, p), ixs, own)
    requires t !in NamesIn(StoreTo(b, v, j, p)) && Fresh(t, ixs) && AllAt(ixs, env, m, f, i)
    ensures var s, s', env' := StoreTo(b, v, j, p), StoreTo(b, v, Var(t), p), env[t := i];
            Exec(s', env', m, f) == Exec(s, env, m, f) && AllHarmless(Steps(s', env', m, f), i, own)
  {
    var env' := env[t := i];
    FreshKeeps(t, i, ixs, i, env, m, f);
    UnusedValue(v, env, t, i, m, f);
    UnusedValue(p, env, t, i, m, f);
    LoadsHarmless(v, ixs, own, i, env', m, f);
    LoadsHarmless(p, ixs, own, i, env', m, f);
  }

  /** The same with the lets that the indices need around. */
  lemma {:induction false} UpdateReplaced(s: Stmt, ixs: set<Expr>, own: set<string>, i: int, t: string, env: Env,
      m: Memory, f: Meaning)
    requires Shaped(s, ixs, own) && PlainIndices(ixs, own) && t !in NamesIn(s) && Fresh(t, ixs)
    requires AllAt(ixs, InnerEnv(s, ixs, own, env, m, f), m, f, i)
    ensures var s', env' := ReplaceIndex(s, t), env[t := i];
            Exec(s', env', m, f) == Exec(s, env, m, f) && AllHarmless(Steps(s', env', m, f), i, own)
  {
    hide AllAt, PlainIndices, Fresh;
    if StoresTo(s, ixs, own) {
      StoresReplaced(s, ixs, own, i, t, env, m, f);
    } else {
      var u, env' := Eval(s.value, env, m, f), env[t := i];
      UnusedValue(s.value, env, t, i, m, f);
      ForeignSteps(s.value, env', m, own, f);
      UpdateReplaced(s.body, ixs, own, i, t, env[s.x := u], m, f);
      assert env'[s.x := u] == env[s.x := u][t := i];
    }
  }

  // ----- the whole: index, lock, update, unlock -----

  /** An update as written: the index expressions of its accesses, where it is
      run, and the new variable for the index. */
  datatype Site = Site(producer: string, body: Stmt, ixs: set<Expr>, env: Env, t: string)

  predicate SiteShaped(s: Site, own: set<string>) {
    && Shaped(s.body, s.ixs, own) && PlainIndices(s.ixs, own) && StoreNames(s.body, s.producer) != {}
    && (forall b :: b in own ==> IsOf(b, s.producer))
    && s.t !in NamesIn(s.body) && Fresh(s.t, s.ixs)
  }

  /** All index expressions of the update agree where it is run; they depend only
      on variables and on memory that nobody writes. */
  predicate IndicesAgree(s: Site, own: set<string>, m0: Memory, f: Meaning) {
    var env := InnerEnv(s.body, s.ixs, own, s.env, m0, f);
    forall e, e' :: e in s.ixs && e' in s.ixs ==> Eval(e, env, m0, f) == Eval(e', env, m0, f)
  }

  predicate SiteOk(s: Site, own: set<string>, m0: Memory, f: Meaning) {
    SiteShaped(s, own) && IndicesAgree(s, own, m0, f)
  }

  function Lowered(s: Site, mutex: string): Stmt { AddMutex(s.producer, mutex, s.body, s.t) }

  /** The index that is locked. */
  function IndexOf(s: Site, m: Memory, f: Meaning): int {
    var index := FindIndex(s.body, s.producer, None);
    if index.Some? then Eval(index.value, s.env, m, f) else 0
  }

  lemma {:induction false} InnerSteady(s: Stmt, ixs: set<Expr>, own: set<string>, env: Env, m: Memory, m': Memory,
      f: Meaning)
    requires Shaped(s, ixs, own) && SameOutside(own, m, m')
    ensures InnerEnv(s, ixs, own, env, m, f) == InnerEnv(s, ixs, own, env, m', f)
  {
    if !StoresTo(s, ixs, own) {
      ForeignValue(s.value, env, m, m', own, f);
      InnerSteady(s.body, ixs, own, env[s.x := Eval(s.value, env, m, f)], m, m', f);
    }
  }

  /** The locked index is the same whatever the shared buffers hold, and it is that of all accesses. */
  lemma IndexSteady(s: Site, own: set<string>, m0: Memory, m: Memory, f: Meaning)
    requires SiteOk(s, own, m0, f) && SameOutside(own, m0, m)
    ensures IndexOf(s, m, f) == IndexOf(s, m0, f)
    ensures AllAt(s.ixs, InnerEnv(s.body, s.ixs, own, s.env, m, f), m, f, IndexOf(s, m, f))
  {
    hide FindIndex, Shaped, StoresTo, InnerEnv, StoreNames, NamesIn;
    var e := IndexFound(s.body, s.ixs, own, s.producer, s.env, m0, f);
    var index, env := FindIndex(s.body, s.producer, None).value, InnerEnv(s.body, s.ixs, own, s.env, m0, f);
    ForeignValue(index, s.env, m0, m, own, f);
    InnerSteady(s.body, s.ixs, own, s.env, m0, m, f);
    ForeignKeeps(s.ixs, own, IndexOf(s, m0, f), env, m0, m, f);
  }

  /** The accesses of the lowered update: loads of what nobody writes, the lock,
      accesses at the index, the unlock. */
  lemma LoweredSteps(s: Site, mutex: string, own: set<string>, m0: Memory, m: Memory, f: Meaning)
      returns (before: seq<Action>, under: seq<Action>)
    requires SiteOk(s, own, m0, f) && SameOutside(own, m0, m)
    ensures var i := IndexOf(s, m0, f);
            && Steps(Lowered(s, mutex), s.env, m, f) == before + [Lock(i)] + under + [Unlock(i)]
            && (forall a :: a in before ==> a.Load? && a.c.buf !in own) && AllHarmless(under, i, own)
            && Exec(Lowered(s, mutex), s.env, m, f) == Exec(s.body, s.env, m, f)
  {
    hide Exec, StoreNames, FindIndex, Shaped, NamesIn, Mentions, IndicesAgree, PlainIndices;
    var e := IndexFound(s.body, s.ixs, own, s.producer, s.env, m, f);
    var index, i := FindIndex(s.body, s.producer, None).value, IndexOf(s, m0, f);
    var body', env' := ReplaceIndex(s.body, s.t), s.env[s.t := i];
    before, under := ExprSteps(index, s.env, m, f), Steps(body', env', m, f);
    ForeignSteps(index, s.env, m, own, f);
    IndexSteady(s, own, m0, m, f);
    UpdateReplaced(s.body, s.ixs, own, i, s.t, s.env, m, f);
    LockedSteps(mutex, s.t, body', env', m, f);
    assert before + ([Lock(i)] + (under + [Unlock(i)])) == before + [Lock(i)] + under + [Unlock(i)];
    ExecLet(s.t, index, Atomic(s.producer, mutex, Locked(mutex, Var(s.t), body')), s.env, m, f);
    ExecAtomic(s.producer, mutex, Locked(mutex, Var(s.t), body'), env', m, f);
  }

  lemma ExecLet(x: string, v: Expr, b: Stmt, env: Env, m: Memory, f: Meaning)
    ensures Exec(LetStmt(x, v, b), env, m, f) == Exec(b, env[x := Eval(v, env, m, f)], m, f)
  {}

  lemma ExecAtomic(p: string, mutex: string, b: Stmt, env: Env, m: Memory, f: Meaning)
    ensures Exec(Atomic(p, mutex, b), env, m, f) == Exec(b, env, m, f)
  {}

  lemma LockedSteps(mutex: string, t: string, b: Stmt, env: Env, m: Memory, f: Meaning)
    requires t in env
    ensures Steps(Locked(mutex, Var(t), b), env, m, f) == [Lock(env[t])] + (Steps(b, env, m, f) + [Unlock(env[t])])
    ensures Exec(Locked(mutex, Var(t), b), env, m, f) == Exec(b, env, m, f)
  {
    var lock, unlock := LockAt(mutex, Var(t)), UnlockAt(mutex, Var(t));
    assert Steps(lock, env, m, f) == [Lock(env[t])] && Exec(lock, env, m, f) == m;
    var m1 := Exec(b, env, m, f);
    assert Steps(unlock, env, m1, f) == [Unlock(env[t])] && Exec(unlock, env, m1, f) == m1;
    assert Steps(Block(b, unlock), env, m, f) == Steps(b, env, m, f) + [Unlock(env[t])];
  }

  lemma {:induction false} PhaseShape(before: seq<Action>, under: seq<Action>, i: int, own: set<string>, j: nat)
    requires forall a :: a in before ==> a.Load?
    requires AllHarmless(under, i, own) && j <= |before| + |under| + 2
    ensures var t := before + [Lock(i)] + under + [Unlock(i)];
            PhaseIn(t[..j]) == if j <= |before| then Before else if j <= |before| + 1 + |under| then Inside else After
  {
    var t := before + [Lock(i)] + under + [Unlock(i)];
    if j > 0 {
      PhaseShape(before, under, i, own, j - 1);
      assert t[..j][..j - 1] == t[..j - 1] && t[..j][j - 1] == t[j - 1];
      if j <= |before| { assert t[j - 1] == before[j - 1] && before[j - 1] in before; }
      else if |before| + 1 < j <= |before| + 1 + |under| {
        var n := j - 2 - |before|;
        assert t[j - 1] == under[n] && under[n] in under;
      }
    }
  }

  /** The lowered update, interrupted anywhere and given any answers it can get, keeps to the discipline. */
  lemma LoweredNext(s: Site, mutex: string, own: set<string>, m0: Memory, m: Memory, f: Meaning, h: seq<int>)
    requires SiteOk(s, own, m0, f) && SameOutside(own, m0, m)
    requires Follows(UpdateFor(Lowered(s, mutex), s.env, f), h, m)
    ensures var u := UpdateFor(Lowered(s, mutex), s.env, f);
            Right(u(h), PhaseOf(u, h), IndexOf(s, m0, f), own)
            && (u(h).Done? ==> MemAfter(u, h, m) == Exec(s.body, s.env, m, f))
  {
    hide Exec, SiteOk, Lowered, IndexOf, Steps, Follows, MemAfter, PhaseOf, Applied, Answers;
    FollowsSteps(Lowered(s, mutex), s.env, f, m, h);
    var before, under := LoweredSteps(s, mutex, own, m0, m, f);
    var i, t := IndexOf(s, m0, f), Steps(Lowered(s, mutex), s.env, m, f);
    PhaseShape(before, under, i, own, if |h| < |t| then |h| else |t|);
    if |h| < |t| {
      if |h| < |before| { assert t[|h|] == before[|h|] && before[|h|] in before; }
      else if |before| < |h| <= |before| + |under| {
        var n := |h| - 1 - |before|;
        assert t[|h|] == under[n] && under[n] in under;
      }
    } else {
      assert t[..|t|] == t;
      StmtResumed(Lowered(s, mutex), s.env, m, f, |t|, []);
    }
  }

  lemma LoweredDisciplined(s: Site, mutex: string, own: set<string>, m0: Memory, f: Meaning)
    requires SiteOk(s, own, m0, f)
    ensures Disciplined(UpdateFor(Lowered(s, mutex), s.env, f), IndexOf(s, m0, f), own, m0)
  {
    hide Lowered, SiteOk, IndexOf;
    var u := UpdateFor(Lowered(s, mutex), s.env, f);
    forall m: Memory, h: seq<int> | SameOutside(own, m0, m) && Follows(u, h, m)
      ensures Right(u(h), PhaseOf(u, h), IndexOf(s, m0, f), own)
    {
      LoweredNext(s, mutex, own, m0, m, f, h);
    }
  }

  // ----- all tasks -----

  ghost predicate AllOk(us: seq<seq<Site>>, own: set<string>, m0: Memory, f: Meaning) {
    forall t, k :: 0 <= t < |us| && 0 <= k < |us[t]| ==> SiteOk(us[t][k], own, m0, f)
  }

  function TaskOf(us: seq<Site>, mutex: string, f: Meaning): (r: seq<Update>)
    ensures |r| == |us| && forall k :: 0 <= k < |us| ==> r[k] == UpdateFor(Lowered(us[k], mutex), us[k].env, f)
  {
    seq(|us|, k requires 0 <= k < |us| => UpdateFor(Lowered(us[k], mutex), us[k].env, f))
  }

  function TasksOf(us: seq<seq<Site>>, mutex: string, f: Meaning): (r: Tasks)
    ensures |r| == |us| && forall t :: 0 <= t < |us| ==> r[t] == TaskOf(us[t], mutex, f)
  {
    seq(|us|, t requires 0 <= t < |us| => TaskOf(us[t], mutex, f))
  }

  ghost function IndicesOf(us: seq<seq<Site>>, m0: Memory, f: Meaning): Indices {
    (t: nat, k: nat) => if t < |us| && k < |us[t]| then IndexOf(us[t][k], m0, f) else 0
  }

  predicate InRange(us: seq<seq<Site>>, e: Entry) { e.t < |us| && e.k < |us[e.t]| }

  /** The updates as written, one after the other. */
  function InOrder(us: seq<seq<Site>>, log: seq<Entry>, m: Memory, f: Meaning): Memory
    requires forall e :: e in log ==> InRange(us, e)
  {
    if log == [] then m
    else
      assert log[0] in log && InRange(us, log[0]);
      var s := us[log[0].t][log[0].k];
      InOrder(us, log[1..], Exec(s.body, s.env, m, f), f)
  }

  lemma TasksDisciplined(us: seq<seq<Site>>, mutex: string, own: set<string>, m0: Memory, f: Meaning)
    requires AllOk(us, own, m0, f)
    ensures AllDisciplined(TasksOf(us, mutex, f), IndicesOf(us, m0, f), own, m0)
  {
    hide SiteOk, Lowered, Disciplined, IndexOf;
    var ts, ix := TasksOf(us, mutex, f), IndicesOf(us, m0, f);
    forall t, k | 0 <= t < |ts| && 0 <= k < |ts[t]| ensures Disciplined(ts[t][k], ix(t, k), own, m0) {
      LoweredDisciplined(us[t][k], mutex, own, m0, f);
    }
  }

  lemma {:induction false} SerialIsInOrder(us: seq<seq<Site>>, mutex: string, own: set<string>, m0: Memory, f: Meaning,
      log: seq<Entry>, m: Memory)
    requires AllOk(us, own, m0, f) && SameOutside(own, m0, m) && AllKnown(TasksOf(us, mutex, f), log)
    requires AllFollow(TasksOf(us, mutex, f), log, m)
    requires forall a :: 0 <= a < |log| ==> UpdateOf(TasksOf(us, mutex, f), log[a])(log[a].h).Done?
    ensures forall e :: e in log ==> InRange(us, e)
    ensures Serial(TasksOf(us, mutex, f), log, m) == InOrder(us, log, m, f)
  {
    hide SiteOk, Lowered, Disciplined, IndexOf, Exec, UpdateFor;
    var ts := TasksOf(us, mutex, f);
    forall e | e in log ensures InRange(us, e) { assert Known(ts, e); }
    if log != [] {
      var e := log[0];
      assert e in log && InRange(us, e);
      var s := us[e.t][e.k];
      LoweredNext(s, mutex, own, m0, m, f, e.h);
      LoweredDisciplined(s, mutex, own, m0, f);
      OutsideKept(UpdateOf(ts, e), e.h, m, IndexOf(s, m0, f), own, m0);
      SerialIsInOrder(us, mutex, own, m0, f, log[1..], MemAfter(UpdateOf(ts, e), e.h, m));
    }
  }

  /** Any number of tasks, each with any number of updates: every complete
      interleaving of their single accesses leaves in memory what the updates
      as written leave one at a time, in the order of locking, each once. */
  lemma UpdatesAreSerialisable(us: seq<seq<Site>>, mutex: string, own: set<string>, m0: Memory, f: Meaning,
      run: seq<State>)
    requires AllOk(us, own, m0, f)
    requires IsRun(TasksOf(us, mutex, f), Initial(TasksOf(us, mutex, f), m0), run)
    requires Finished(TasksOf(us, mutex, f), run[|run| - 1])
    ensures var st := run[|run| - 1];
            && OneAtATime(TasksOf(us, mutex, f), st.log, m0, st.mem)
            && (forall e :: e in st.log ==> InRange(us, e)) && st.mem == InOrder(us, st.log, m0, f)
  {
    hide SiteOk, Lowered, Disciplined, IndexOf, Exec, UpdateFor, Step, Serial, AllFollow, Finished, InOrder;
    TasksDisciplined(us, mutex, own, m0, f);
    Serialisable(TasksOf(us, mutex, f), IndicesOf(us, m0, f), own, m0, run);
    SerialIsInOrder(us, mutex, own, m0, f, run[|run| - 1].log, m0);
  }

  /** And no interleaving gets stuck. */
  lemma UpdatesProgress(us: seq<seq<Site>>, mutex: string, own: set<string>, m0: Memory, f: Meaning, run: seq<State>)
    requires AllOk(us, own, m0, f)
    requires IsRun(TasksOf(us, mutex, f), Initial(TasksOf(us, mutex, f), m0), run)
    requires !Finished(TasksOf(us, mutex, f), run[|run| - 1])
    ensures var st := run[|run| - 1]; exists t: nat :: Enabled(TasksOf(us, mutex, f), st, t)
  {
    hide SiteOk, Lowered, Disciplined, IndexOf, Exec, UpdateFor, Step;
    TasksDisciplined(us, mutex, own, m0, f);
    Progress(TasksOf(us, mutex, f), IndicesOf(us, m0, f), own, m0, run);
  }

  // ----- updates that the pass changes -----

  const ON := Lit(1)

  /** f[x] = v, and then a let that takes the index variable's name. */
  function LaterLet(x: string, v: int, n: Expr): Stmt {
    Block(StoreTo("f", Lit(v), Var(x), ON), LetStmt(x, n, Skip))
  }

  /** The let is put around the index though the store is not inside it: the
      lowered update stores where the original does exactly if the names agree. */
  lemma LaterLetExactly(x: string, v: int, n: int, t: string, mutex: string, env: Env, f: Meaning)
    requires t != x
    ensures FindIndex(LaterLet(x, v, Lit(n)), "f", None) == Some(Let(x, Lit(n), Var(x)))
    ensures var s := LaterLet(x, v, Lit(n));
            Exec(AddMutex("f", mutex, s, t), env, map[], f) == Exec(s, env, map[], f) <==> n == Lookup(env, x)
  {
    var s := LaterLet(x, v, Lit(n));
    var store, store' := StoreTo("f", Lit(v), Var(x), ON), StoreTo("f", Lit(v), Var(t), ON);
    assert FindIndex(store, "f", None) == Some(Var(x));
    assert FindIndex(Skip, "f", Some(Var(x))) == Some(Var(x));
    assert FindIndex(LetStmt(x, Lit(n), Skip), "f", Some(Var(x))) == Some(Let(x, Lit(n), Var(x)));
    var env', body' := env[t := n], ReplaceIndex(s, t);
    assert Eval(Let(x, Lit(n), Var(x)), env, map[], f) == n;
    assert Eval(ON, env, map[], f) == 1 && Eval(ON, env', map[], f) == 1;
    assert Exec(s, env, map[], f) == map[Cell("f", Lookup(env, x)) := v] by {
      BlockWithLet(store, x, Lit(n), env, f);
    }
    assert Exec(body', env', map[], f) == map[Cell("f", n) := v] by {
      assert ReplaceIndex(store, t) == store' && ReplaceIndex(Skip, t) == Skip;
      assert ReplaceIndex(LetStmt(x, Lit(n), Skip), t) == LetStmt(x, Lit(n), Skip);
      assert body' == Block(store', LetStmt(x, Lit(n), Skip));
      BlockWithLet(store', x, Lit(n), env', f);
    }
    LockedSteps(mutex, t, body', env', map[], f);
    ExecLet(t, Let(x, Lit(n), Var(x)), Atomic("f", mutex, Locked(mutex, Var(t), body')), env, map[], f);
    ExecAtomic("f", mutex, Locked(mutex, Var(t), body'), env', map[], f);
    OneCell(Cell("f", n), Cell("f", Lookup(env, x)), v);
  }

  lemma BlockWithLet(a: Stmt, x: string, n: Expr, env: Env, f: Meaning)
    ensures Exec(Block(a, LetStmt(x, n, Skip)), env, map[], f) == Exec(a, env, map[], f)
  {
    var m := Exec(a, env, map[], f);
    assert Exec(Skip, env[x := Eval(n, env, m, f)], m, f) == m;
    assert Exec(LetStmt(x, n, Skip), env, m, f) == m;
  }

  lemma OneCell(c: Cell, d: Cell, v: int)
    ensures map[c := v] == map[d := v] <==> c == d
  {
    assert c in map[c := v] && (c in map[d := v] <==> c == d);
  }

  /** f[i] = v; g[j] = u. */
  function TwoStores(i: int, v: int, j: int, u: int): Stmt {
    Block(StoreTo("f", Lit(v), Lit(i), ON), StoreTo("g", Lit(u), Lit(j), ON))
  }

  /** Every store is given the producer's index, also one to another buffer: what
      is left is the same exactly if both have the same index. */
  lemma OtherStoreExactly(i: int, v: int, j: int, u: int, t: string, mutex: string, env: Env, f: Meaning)
    ensures var s := TwoStores(i, v, j, u);
            Exec(AddMutex("f", mutex, s, t), env, map[], f) == Exec(s, env, map[], f) <==> i == j
  {
    var s, env' := TwoStores(i, v, j, u), env[t := i];
    var body' := ReplaceIndex(s, t);
    assert !IsOf("g", "f");
    assert FindIndex(StoreTo("f", Lit(v), Lit(i), ON), "f", None) == Some(Lit(i));
    assert FindIndex(s, "f", None) == Some(Lit(i));
    var store, other := StoreTo("f", Lit(v), Lit(i), ON), StoreTo("g", Lit(u), Lit(j), ON);
    var store', other' := StoreTo("f", Lit(v), Var(t), ON), StoreTo("g", Lit(u), Var(t), ON);
    assert ReplaceIndex(store, t) == store' && ReplaceIndex(other, t) == other' && body' == Block(store', other');
    StoreAt("f", v, Lit(i), env, map[], f);
    StoreAt("g", u, Lit(j), env, map[Cell("f", i) := v], f);
    StoreAt("f", v, Var(t), env', map[], f);
    StoreAt("g", u, Var(t), env', map[Cell("f", i) := v], f);
    assert Exec(s, env, map[], f) == map[Cell("f", i) := v][Cell("g", j) := u];
    assert Exec(body', env', map[], f) == map[Cell("f", i) := v][Cell("g", i) := u];
    LockedSteps(mutex, t, body', env', map[], f);
    ExecLet(t, Lit(i), Atomic("f", mutex, Locked(mutex, Var(t), body')), env, map[], f);
    ExecAtomic("f", mutex, Locked(mutex, Var(t), body'), env', map[], f);
    var m := map[Cell("f", i) := v];
    assert Cell("g", j) in m[Cell("g", j) := u] && (Cell("g", j) in m[Cell("g", i) := u] <==> i == j);
  }

  lemma StoreAt(b: string, v: int, i: Expr, env: Env, m: Memory, f: Meaning)
    ensures Exec(StoreTo(b, Lit(v), i, ON), env, m, f) == m[Cell(b, Eval(i, env, m, f)) := v]
  {
    assert Eval(ON, env, m, f) == 1;
  }
}
