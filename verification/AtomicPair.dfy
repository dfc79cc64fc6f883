// Two tasks that each combine once: all interleavings agree exactly if the
// operator says so for the values that are combined.

module AtomicPairs {
  import opened AtomicRuns
  import opened AtomicSerial
  import opened AtomicOrders
  import opened AtomicStmts
  import opened AtomicResults
  import opened AtomicUpdates
  import opened AtomicTuples
  import opened AtomicCombining

  // ----- a task that runs while the others wait -----

  /** It is at its update `s`, over memory that was `m` when it began, and
      it holds the only lock, if any. */
  ghost predicate Alone(us: seq<seq<Site>>, mutex: string, m0: Memory, f: Meaning, st: State, t: nat, m: Memory) {
    && t < |us| && Running(TasksOf(us, mutex, f), st, t)
    && var s, h := us[t][st.at[t].k], st.at[t].h;
       var u := UpdateFor(Lowered(s, mutex), s.env, f);
       && Follows(u, h, m) && st.mem == MemAfter(u, h, m)
       && st.locks == (if PhaseOf(u, h).Inside? then map[IndexOf(s, m0, f) := t] else map[])
  }

  /** What it has still to do. */
  ghost function Left(us: seq<seq<Site>>, mutex: string, f: Meaning, st: State, t: nat, m: Memory): nat
    requires t < |us| && Running(TasksOf(us, mutex, f), st, t)
  {
    var s := us[t][st.at[t].k];
    var n := |Steps(Lowered(s, mutex), s.env, m, f)|;
    if |st.at[t].h| < n then n - |st.at[t].h| else 0
  }

  lemma AloneStep(us: seq<seq<Site>>, mutex: string, own: set<string>, m0: Memory, f: Meaning, st: State, t: nat,
      m: Memory)
    requires AllOk(us, own, m0, f) && Alone(us, mutex, m0, f, st, t, m) && SameOutside(own, m0, m)
    ensures
      var ts, s := TasksOf(us, mutex, f), us[t][st.at[t].k];
      Enabled(ts, st, t)
      && var st' := Step(ts, st, t);
         if Next(ts, st, t).Done? then
           st'.mem == Exec(s.body, s.env, m, f) && st'.locks == map[]
           && st'.at == st.at[t := TaskState(st.at[t].k + 1, [], -1)]
         else
           Alone(us, mutex, m0, f, st', t, m) && st'.at[t].k == st.at[t].k && st'.at == st.at[t := st'.at[t]]
           && Left(us, mutex, f, st', t, m) < Left(us, mutex, f, st, t, m)
  {
    hide SiteOk, Lowered, UpdateFor, Exec, Steps, Follows, MemAfter, PhaseOf, IndexOf;
    var ts := TasksOf(us, mutex, f);
    var s, h := us[t][st.at[t].k], st.at[t].h;
    var u := UpdateFor(Lowered(s, mutex), s.env, f);
    LoweredNext(s, mutex, own, m0, m, f, h);
    FollowsSteps(Lowered(s, mutex), s.env, f, m, h);
    OneMore(u, h, Answer(u(h), st.mem), m);
    StepTask(ts, st, t);
  }

  lemma RunAlone(us: seq<seq<Site>>, mutex: string, own: set<string>, m0: Memory, f: Meaning, st: State, t: nat,
      m: Memory) returns (run: seq<State>)
    requires AllOk(us, own, m0, f) && Alone(us, mutex, m0, f, st, t, m) && SameOutside(own, m0, m)
    ensures IsRun(TasksOf(us, mutex, f), st, run)
    ensures var last, s := run[|run| - 1], us[t][st.at[t].k];
            last.mem == Exec(s.body, s.env, m, f) && last.locks == map[]
            && last.at == st.at[t := TaskState(st.at[t].k + 1, [], -1)]
    decreases Left(us, mutex, f, st, t, m)
  {
    hide Alone, SiteOk, Lowered, UpdateFor, Exec, Steps, Step, AllOk, Left, Enabled, TasksOf;
    hide Moves;
    var ts := TasksOf(us, mutex, f);
    assert t < |us| && Running(ts, st, t) by { AloneRuns(us, mutex, m0, f, st, t, m); }
    AloneStep(us, mutex, own, m0, f, st, t, m);
    var st' := Step(ts, st, t);
    assert Moves(ts, st, st') by { ItMoves(ts, st, t); }
    if Next(ts, st, t).Done? {
      run := [st, st'];
    } else {
      var rest := RunAlone(us, mutex, own, m0, f, st', t, m);
      run := [st] + rest;
      MoveFirst(ts, st, rest);
    }
  }

  lemma AloneRuns(us: seq<seq<Site>>, mutex: string, m0: Memory, f: Meaning, st: State, t: nat, m: Memory)
    requires Alone(us, mutex, m0, f, st, t, m)
    ensures t < |us| && Running(TasksOf(us, mutex, f), st, t)
  {}

  lemma ItMoves(ts: Tasks, st: State, t: nat)
    requires Enabled(ts, st, t)
    ensures Moves(ts, st, Step(ts, st, t))
  {}

  lemma MoveFirst(ts: Tasks, st: State, rest: seq<State>)
    requires rest != [] && Moves(ts, st, rest[0]) && IsRun(ts, rest[0], rest)
    ensures IsRun(ts, st, [st] + rest)
  {
    hide Moves;
    var run := [st] + rest;
    forall n | 0 <= n < |run| - 1 ensures Moves(ts, run[n], run[n + 1]) {
      if n > 0 { assert run[n] == rest[n - 1] && run[n + 1] == rest[n]; }
    }
  }

  lemma RunsJoin(ts: Tasks, start: State, a: seq<State>, b: seq<State>)
    requires IsRun(ts, start, a) && IsRun(ts, a[|a| - 1], b)
    ensures IsRun(ts, start, a + b[1..]) && (a + b[1..])[|a + b[1..]| - 1] == b[|b| - 1]
  {
    hide Moves;
    var run := a + b[1..];
    forall n | 0 <= n < |run| - 1 ensures Moves(ts, run[n], run[n + 1]) {
      if n < |a| - 1 {
        assert run[n] == a[n] && run[n + 1] == a[n + 1];
      } else {
        var i := n - |a| + 1;
        assert run[n] == b[i] && run[n + 1] == b[i + 1];
      }
    }
  }

  // ----- two tasks -----

  function Two(c: Combination, d: Combination): seq<seq<Combination>> { [[c], [d]] }

  /** One of the two tasks first, and then the other. */
  lemma OneThenOther(us: seq<seq<Site>>, mutex: string, own: set<string>, m0: Memory, f: Meaning, t: nat)
      returns (run: seq<State>)
    requires |us| == 2 && |us[0]| == 1 && |us[1]| == 1 && AllOk(us, own, m0, f) && t < 2
    ensures var ts := TasksOf(us, mutex, f);
            IsRun(ts, Initial(ts, m0), run) && Finished(ts, run[|run| - 1])
    ensures var a, b := us[t][0], us[1 - t][0];
            run[|run| - 1].mem == Exec(b.body, b.env, Exec(a.body, a.env, m0, f), f)
  {
    hide SiteOk, Lowered, UpdateFor, Exec, Steps, Step, IndexOf;
    var ts := TasksOf(us, mutex, f);
    var a, b, start := us[t][0], us[1 - t][0], Initial(ts, m0);
    JustStarted(UpdateFor(Lowered(a, mutex), a.env, f), m0);
    Untouched(UpdateFor(Lowered(a, mutex), a.env, f), m0);
    var first := RunAlone(us, mutex, own, m0, f, start, t, m0);
    var st := first[|first| - 1];
    var m1 := Exec(a.body, a.env, m0, f);
    BodyKeeps(a, own, m0, f);
    JustStarted(UpdateFor(Lowered(b, mutex), b.env, f), m1);
    Untouched(UpdateFor(Lowered(b, mutex), b.env, f), m1);
    var second := RunAlone(us, mutex, own, m0, f, st, 1 - t, m1);
    RunsJoin(ts, start, first, second);
    run := first + second[1..];
  }

  lemma Untouched(u: Update, m: Memory)
    ensures MemAfter(u, [], m) == m
  {}

  lemma {:induction false} ShapedKeeps(s: Stmt, ixs: set<Expr>, own: set<string>, env: Env, m: Memory, f: Meaning)
    requires Shaped(s, ixs, own)
    ensures SameOutside(own, m, Exec(s, env, m, f))
  {
    if StoresTo(s, ixs, own) {
      StoresKeep(s, ixs, own, env, m, f);
    } else {
      ShapedKeeps(s.body, ixs, own, env[s.x := Eval(s.value, env, m, f)], m, f);
    }
  }

  lemma BodyKeeps(s: Site, own: set<string>, m: Memory, f: Meaning)
    requires SiteOk(s, own, m, f)
    ensures SameOutside(own, m, Exec(s.body, s.env, m, f))
  {
    ShapedKeeps(s.body, s.ixs, own, s.env, m, f);
  }

  lemma TwoNumbers(log: seq<Entry>)
    requires forall n :: 0 <= n < |log| ==> log[n].t < 2
    ensures |log| > 2 ==> log[0].t == log[1].t || log[1].t == log[2].t || log[0].t == log[2].t
  {}

  /** With two tasks of one update there are two orders. */
  lemma TwoOrders(us: seq<seq<Site>>, mutex: string, m0: Memory, f: Meaning, log: seq<Entry>, mem: Memory)
    requires |us| == 2 && |us[0]| == 1 && |us[1]| == 1
    requires OneAtATime(TasksOf(us, mutex, f), log, m0, mem) && forall e :: e in log ==> InRange(us, e)
    ensures exists t: nat :: t < 2 && var a, b := us[t][0], us[1 - t][0];
              InOrder(us, log, m0, f) == Exec(b.body, b.env, Exec(a.body, a.env, m0, f), f)
  {
    hide AllFollow, Serial, Exec;
    assert Logged(log, 0, 0) && Logged(log, 1, 0);
    forall n | 0 <= n < |log| ensures log[n].t < 2 && log[n].k == 0 { assert log[n] in log; }
    TwoNumbers(log);
    assert |log| == 2 && log[0].t != log[1].t;
    var t := log[0].t;
    var a, b := us[t][0], us[1 - t][0];
    var m1 := Exec(a.body, a.env, m0, f);
    assert log[1..] == [log[1]] && log[1..][1..] == [];
    assert InOrder(us, log[1..], m1, f) == Exec(b.body, b.env, m1, f);
    assert InOrder(us, log, m0, f) == InOrder(us, log[1..], m1, f);
  }

  /** Two tasks that combine into the same buffers: whether all interleavings leave the same memory. */
  ghost predicate AllSame(us: seq<seq<Site>>, mutex: string, m0: Memory, f: Meaning) {
    forall run: seq<State>, run': seq<State> ::
      IsComplete(us, mutex, m0, f, run) && IsComplete(us, mutex, m0, f, run') ==>
      run[|run| - 1].mem == run'[|run'| - 1].mem
  }

  ghost predicate IsComplete(us: seq<seq<Site>>, mutex: string, m0: Memory, f: Meaning, run: seq<State>) {
    var ts := TasksOf(us, mutex, f); IsRun(ts, Initial(ts, m0), run) && Finished(ts, run[|run| - 1])
  }

  lemma TwoAgreeExactly(c: Combination, d: Combination, mutex: string, p: Pattern, bufs: seq<string>, own: set<string>,
      m0: Memory, f: Meaning)
    requires CombinationOk(c, p, bufs, own, m0, f) && CombinationOk(d, p, bufs, own, m0, f)
    ensures c.es != [] && d.es != []
    ensures
      var (i, v), (j, w), op := Contributed(c, m0, f), Contributed(d, m0, f), OperatorOf(p, f);
      AllSame(SitesOf(Two(c, d)), mutex, m0, f) <==> i != j || AtomicOrders.Agree(op, Row(m0, bufs, i), v, w)
  {
    hide CombinationOk, SiteOk, Exec, Contributed, OperatorOf, Row, Combine, AllSame, Keeps, Different;
    hide AtomicOrders.Agree;
    CombinationParts(c, p, bufs, own, m0, f);
    CombinationParts(d, p, bufs, own, m0, f);
    var us, op := SitesOf(Two(c, d)), OperatorOf(p, f);
    assert us[0] == [SiteOf(c)] && us[1] == [SiteOf(d)];
    BothOrders(c, d, p, bufs, own, m0, f);
    PatternKeeps(c, p, bufs, own, m0, f);
    PatternKeeps(d, p, bufs, own, m0, f);
    Swap(m0, bufs, Contributed(c, m0, f), Contributed(d, m0, f), op);
    AllSameExactly(us, mutex, own, m0, f);
  }

  /** What is left if task `t` goes first. */
  function FirstIs(us: seq<seq<Site>>, t: nat, m0: Memory, f: Meaning): Memory
    requires |us| == 2 && |us[0]| == 1 && |us[1]| == 1 && t < 2
  {
    var a, b := us[t][0], us[1 - t][0];
    Exec(b.body, b.env, Exec(a.body, a.env, m0, f), f)
  }

  /** All interleavings agree exactly if both orders do. */
  lemma AllSameExactly(us: seq<seq<Site>>, mutex: string, own: set<string>, m0: Memory, f: Meaning)
    requires |us| == 2 && |us[0]| == 1 && |us[1]| == 1 && AllOk(us, own, m0, f)
    ensures AllSame(us, mutex, m0, f) <==> FirstIs(us, 0, m0, f) == FirstIs(us, 1, m0, f)
  {
    hide AllOk, IsComplete, FirstIs;
    var run := OrderRuns(us, mutex, own, m0, f, 0);
    var run' := OrderRuns(us, mutex, own, m0, f, 1);
    forall r: seq<State> | IsComplete(us, mutex, m0, f, r)
      ensures r != [] && OneOf(us, m0, f, r)
    {
      CompleteIs(us, mutex, own, m0, f, r);
    }
  }

  lemma OrderRuns(us: seq<seq<Site>>, mutex: string, own: set<string>, m0: Memory, f: Meaning, t: nat)
      returns (run: seq<State>)
    requires |us| == 2 && |us[0]| == 1 && |us[1]| == 1 && AllOk(us, own, m0, f) && t < 2
    ensures IsComplete(us, mutex, m0, f, run) && run != [] && run[|run| - 1].mem == FirstIs(us, t, m0, f)
  {
    hide AllOk, TasksOf, Exec, Moves, Finished, Initial;
    run := OneThenOther(us, mutex, own, m0, f, t);
  }

  predicate OneOf(us: seq<seq<Site>>, m0: Memory, f: Meaning, run: seq<State>)
    requires |us| == 2 && |us[0]| == 1 && |us[1]| == 1 && run != []
  {
    run[|run| - 1].mem == FirstIs(us, 0, m0, f) || run[|run| - 1].mem == FirstIs(us, 1, m0, f)
  }

  lemma CompleteIs(us: seq<seq<Site>>, mutex: string, own: set<string>, m0: Memory, f: Meaning, run: seq<State>)
    requires |us| == 2 && |us[0]| == 1 && |us[1]| == 1 && AllOk(us, own, m0, f) && IsComplete(us, mutex, m0, f, run)
    ensures run != [] && OneOf(us, m0, f, run)
  {
    hide SiteOk, Lowered, UpdateFor, Exec, Step, Finished, OneAtATime, InOrder;
    UpdatesAreSerialisable(us, mutex, own, m0, f, run);
    TwoOrders(us, mutex, m0, f, run[|run| - 1].log, run[|run| - 1].mem);
  }

  lemma PatternKeeps(c: Combination, p: Pattern, bufs: seq<string>, own: set<string>, m0: Memory, f: Meaning)
    requires CombinationOk(c, p, bufs, own, m0, f)
    ensures Keeps(OperatorOf(p, f), |bufs|) && Different(bufs) && c.es != []
    ensures |Contributed(c, m0, f).1| == |bufs|
  {
    hide SiteOk, Eval;
  }

  lemma BothOrders(c: Combination, d: Combination, p: Pattern, bufs: seq<string>, own: set<string>, m0: Memory,
      f: Meaning)
    requires CombinationOk(c, p, bufs, own, m0, f) && CombinationOk(d, p, bufs, own, m0, f) && c.es != [] && d.es != []
    ensures
      var a, b, op := SiteOf(c), SiteOf(d), OperatorOf(p, f);
      var x, y := Contributed(c, m0, f), Contributed(d, m0, f);
      && Exec(b.body, b.env, Exec(a.body, a.env, m0, f), f) == Combine(Combine(m0, bufs, x, op), bufs, y, op)
      && Exec(a.body, a.env, Exec(b.body, b.env, m0, f), f) == Combine(Combine(m0, bufs, y, op), bufs, x, op)
  {
    hide CombinationOk, Exec, Combine, Contributed, OperatorOf, SiteOk;
    CombinationParts(c, p, bufs, own, m0, f);
    CombinationParts(d, p, bufs, own, m0, f);
    CombinationExec(c, p, bufs, own, m0, m0, f);
    CombinationExec(d, p, bufs, own, m0, m0, f);
    BodyKeeps(SiteOf(c), own, m0, f);
    BodyKeeps(SiteOf(d), own, m0, f);
    CombinationExec(d, p, bufs, own, m0, Exec(TupleUpdate(c.es), c.env, m0, f), f);
    CombinationExec(c, p, bufs, own, m0, Exec(TupleUpdate(d.es), d.env, m0, f), f);
  }
}
