// Forked loops read what the loops read before forking, in every interleaving.

module AsyncResults {
  import opened AsyncStmts
  import opened AsyncForking
  import opened AsyncSplitting
  import opened Runs = AsyncRuns

  // ----- the halves have the form of the two tasks -----

  /** In one round the produce node only writes the slot, and the consume nodes only read it. */
  ghost predicate UsesSlot(h: Stmt, f: string, silent: set<nat>, env: Env, i: Interp, slot: int) {
    && (forall j :: 0 <= j < |Production(h, f, silent, env, i)| ==>
          Production(h, f, silent, env, i)[j].Write? && Production(h, f, silent, env, i)[j].slot == slot)
    && (forall c, j ::
          0 <= c < |Consumption(h, f, silent, env, i)| && 0 <= j < |Consumption(h, f, silent, env, i)[c]| ==>
          Consumption(h, f, silent, env, i)[c][j].Read? && Consumption(h, f, silent, env, i)[c][j].slot == slot)
  }

  ghost predicate Different(semas: seq<string>) { forall i, j :: 0 <= i < j < |semas| ==> semas[i] != semas[j] }

  lemma {:induction false} ReleasesOnce(semas: seq<string>, t: string)
    requires Different(semas)
    ensures Rels(ReleaseEvents(semas), t) == if t in semas then 1 else 0
    ensures forall i :: 0 <= i < |ReleaseEvents(semas)| ==> ReleaseEvents(semas)[i].Rel?
    decreases |semas|
  {
    if semas != [] {
      var rest, last := semas[..|semas| - 1], semas[|semas| - 1];
      ReleasesOnce(rest, t);
      assert semas == rest + [last];
      assert ([Rel(last)] + ReleaseEvents(rest))[1..] == ReleaseEvents(rest);
    }
  }

  lemma ProducerRoundIsBlock(h: Stmt, f: string, silent: set<nat>, semas: seq<string>, env: Env, i: Interp, slot: int)
    requires UsesSlot(h, f, silent, env, i, slot) && Different(semas) && RingSema(f) !in semas
    ensures ProducerBlock(ProducerRound(h, f, silent, semas, env, i), slot, Semas(RingSema(f), semas))
  {
    hide Production, Consumption, RingSema;
    var ws, rs, ring := Production(h, f, silent, env, i), ReleaseEvents(semas), RingSema(f);
    var b := ProducerRound(h, f, silent, semas, env, i);
    ReleasesOnce(semas, ring);
    forall t { NoneCounted(ws, t); }
    assert b == [Acq(ring, 1)] + (ws + rs);
    forall t ensures Rels(b, t) == Rels(rs, t) {
      CountsAppend([Acq(ring, 1)], ws + rs, t);
      CountsAppend(ws, rs, t);
      NoneCounted(ws, t);
      assert [Acq(ring, 1)][1..] == [];
    }
    forall t | t in semas ensures Rels(b, t) == 1 { ReleasesOnce(semas, t); }
  }

  /** The acquires of a consumer's round are of the last semaphores, each once,
      and every read comes after one of them. */
  lemma {:induction false} AcquiresOnce(cs: seq<Events>, semas: seq<string>, slot: int)
    requires |cs| == |semas| && Different(semas)
    requires forall c, j :: 0 <= c < |cs| && 0 <= j < |cs[c]| ==> cs[c][j].Read? && cs[c][j].slot == slot
    ensures var b := WithAcquires(cs, semas);
            && (forall t :: Acqs(b, t) == if t in semas then 1 else 0)
            && (forall i :: 0 <= i < |b| ==> b[i].Read? || b[i].Acq?)
            && (forall i :: 0 <= i < |b| && b[i].Acq? ==> b[i].sema in semas && b[i].n == 1)
            && (forall i :: 0 <= i < |b| && b[i].Read? ==> b[i].slot == slot && b[0].Acq? && i > 0)
    decreases |cs|
  {
    if cs != [] {
      var rest, last := semas[..|semas| - 1], semas[|semas| - 1];
      var head, tail := [Acq(last, 1)] + cs[0], WithAcquires(cs[1..], rest);
      AcquiresOnce(cs[1..], rest, slot);
      assert semas == rest + [last];
      assert last !in rest;
      forall t ensures Acqs(head + tail, t) == if t in semas then 1 else 0 {
        CountsAppend(head, tail, t);
        CountsAppend([Acq(last, 1)], cs[0], t);
        NoneCounted(cs[0], t);
        assert [Acq(last, 1)][1..] == [];
        assert t in semas <==> t == last || t in rest;
      }
    }
  }

  lemma ConsumerRoundIsBlock(h: Stmt, f: string, silent: set<nat>, semas: seq<string>, env: Env, i: Interp, slot: int)
    requires UsesSlot(h, f, silent, env, i, slot) && Different(semas) && RingSema(f) !in semas
    requires |Consumption(h, f, silent, env, i)| == |semas|
    ensures ConsumerBlock(ConsumerRound(h, f, silent, semas, env, i), slot, Semas(RingSema(f), semas))
  {
    hide Production, Consumption, RingSema;
    var cs, ring := Consumption(h, f, silent, env, i), RingSema(f);
    AcquiresOnce(cs, semas, slot);
    var w := WithAcquires(cs, semas);
    var b := w + [Rel(ring)];
    forall t | t in semas ensures Acqs(b, t) == 1 {
      CountsAppend(w, [Rel(ring)], t);
      assert [Rel(ring)][1..] == [];
    }
    forall j | 0 <= j < |b| && b[j].Read? ensures b[j].slot == slot && exists k :: 0 <= k < j && b[k].Acq? {
      assert b[j] == w[j] && b[0] == w[0];
    }
  }

  // ----- reading in the sequential order -----

  /** What a single task reads as it goes. */
  function ReadAlone(t: Events, m: Memory): seq<int> {
    if t == [] then []
    else if t[0].Read? then [t[0].g(m(t[0].slot))] + ReadAlone(t[1..], m)
    else ReadAlone(t[1..], if t[0].Write? then Put(m, t[0].slot, t[0].f) else m)
  }

  lemma {:induction false} ReadAloneAppend(a: Events, b: Events, m: Memory)
    ensures ReadAlone(a + b, m) == ReadAlone(a, m) + ReadAlone(b, Applied(a, m))
  {
    if a == [] { assert a + b == b; } else {
      assert (a + b)[0] == a[0] && (a + b)[1..] == a[1..] + b;
      ReadAloneAppend(a[1..], b, if a[0].Write? then Put(m, a[0].slot, a[0].f) else m);
      if a[0].Read? {
        var head := [a[0].g(m(a[0].slot))];
        assert head + (ReadAlone(a[1..], m) + ReadAlone(b, Applied(a[1..], m)))
            == (head + ReadAlone(a[1..], m)) + ReadAlone(b, Applied(a[1..], m));
      }
    }
  }

  lemma {:induction false} NothingRead(t: Events, m: Memory)
    requires forall i :: 0 <= i < |t| ==> !t[i].Read?
    ensures ReadAlone(t, m) == []
  {
    if t != [] { NothingRead(t[1..], if t[0].Write? then Put(m, t[0].slot, t[0].f) else m); }
  }

  lemma {:induction false} NothingWritten(t: Events, m: Memory)
    requires forall i :: 0 <= i < |t| ==> !t[i].Write?
    ensures Applied(t, m) == m && ReadAlone(t, m) == Reads(t, m)
  {
    if t != [] { NothingWritten(t[1..], m); }
  }

  /** Acquires do not read. */
  lemma {:induction false} AcquiresReadNothing(cs: seq<Events>, semas: seq<string>, m: Memory)
    requires |cs| <= |semas|
    ensures Reads(WithAcquires(cs, semas), m) == Reads(Flat(cs), m)
    decreases |cs|
  {
    if cs != [] {
      var rest, last := semas[..|semas| - 1], semas[|semas| - 1];
      AcquiresReadNothing(cs[1..], rest, m);
      ReadsAppend([Acq(last, 1)] + cs[0], WithAcquires(cs[1..], rest), m);
      ReadsAppend([Acq(last, 1)], cs[0], m);
      ReadsAppend(cs[0], Flat(cs[1..]), m);
      assert [Acq(last, 1)][1..] == [];
    }
  }

  lemma {:induction false} FlatReads(cs: seq<Events>)
    requires forall c, j :: 0 <= c < |cs| && 0 <= j < |cs[c]| ==> cs[c][j].Read?
    ensures forall j :: 0 <= j < |Flat(cs)| ==> Flat(cs)[j].Read?
  {
    if cs != [] { FlatReads(cs[1..]); }
  }

  /** A whole round reads what its consumer half reads after its producer half, and leaves the same memory. */
  lemma RoundReads(h: Stmt, f: string, silent: set<nat>, semas: seq<string>, env: Env, i: Interp, slot: int, m: Memory)
    requires UsesSlot(h, f, silent, env, i, slot) && |Consumption(h, f, silent, env, i)| == |semas| && Different(semas)
    ensures var m1 := Applied(ProducerRound(h, f, silent, semas, env, i), m);
            && ReadAlone(WholeRound(h, f, silent, env, i), m) == Reads(ConsumerRound(h, f, silent, semas, env, i), m1)
            && Applied(WholeRound(h, f, silent, env, i), m) == m1
  {
    hide Production, Consumption, RingSema;
    var ws, cs, ring := Production(h, f, silent, env, i), Consumption(h, f, silent, env, i), RingSema(f);
    var acq, rel, rs, uses := [Acq(ring, 1)], [Rel(ring)], ReleaseEvents(semas), Flat(cs);
    ReleasesOnce(semas, ring);
    FlatReads(cs);
    var m1 := Applied(acq + ws, m);
    NothingWritten(rs, m1);
    AppliedAppend(acq + ws, rs, m);
    NothingWritten(uses, m1);
    NothingWritten(rel, m1);
    ReadAloneAppend(acq + ws + uses, rel, m);
    ReadAloneAppend(acq + ws, uses, m);
    NothingRead(acq + ws, m);
    AppliedAppend(acq + ws + uses, rel, m);
    AppliedAppend(acq + ws, uses, m);
    AcquiresReadNothing(cs, semas, m1);
    ReadsAppend(WithAcquires(cs, semas), rel, m1);
    NothingRead(rel, m1);
  }

  /** Round by round, the loops before forking read what the two tasks read sequentially. */
  lemma {:induction false} AllRoundsRead(h: Stmt, f: string, silent: set<nat>, semas: seq<string>, envs: seq<Env>,
      i: Interp, slots: seq<int>, m: Memory)
    requires |slots| == |envs| && Different(semas)
    requires forall k :: 0 <= k < |envs| ==>
      UsesSlot(h, f, silent, envs[k], i, slots[k]) && |Consumption(h, f, silent, envs[k], i)| == |semas|
    ensures ReadAlone(Flat(Each(envs, WholeRounds(h, f, silent, i))), m)
            == SequentialReads(Each(envs, ProducerRounds(h, f, silent, semas, i)),
                Each(envs, ConsumerRounds(h, f, silent, semas, i)), m)
    decreases |envs|
  {
    hide WholeRound, ProducerRound, ConsumerRound, UsesSlot, Consumption, Different;
    var w, p, c := Each(envs, WholeRounds(h, f, silent, i)), Each(envs, ProducerRounds(h, f, silent, semas, i)),
                   Each(envs, ConsumerRounds(h, f, silent, semas, i));
    if envs == [] {
      assert w == [] && p == [] && c == [];
    } else {
      RoundReads(h, f, silent, semas, envs[0], i, slots[0], m);
      AllRoundsRead(h, f, silent, semas, envs[1..], i, slots[1..], Applied(p[0], m));
      assert w[1..] == Each(envs[1..], WholeRounds(h, f, silent, i));
      assert p[1..] == Each(envs[1..], ProducerRounds(h, f, silent, semas, i));
      assert c[1..] == Each(envs[1..], ConsumerRounds(h, f, silent, semas, i));
      ReadAloneAppend(w[0], Flat(w[1..]), m);
    }
  }

  // ----- the theorems about statements -----

  /** A ring-buffered Func in its loops, and the slot that each round uses. */
  ghost predicate Forkable(s: Stmt, f: string, silent: set<nat>, env: Env, i: Interp, slots: seq<int>) {
    && IsNest(s, f, silent) && Silent(i, silent)
    && |slots| == |Rounds(s, f, silent, env, i)|
    && forall k :: 0 <= k < |slots|
        ==> UsesSlot(Heart(s, f, silent), f, silent, Rounds(s, f, silent, env, i)[k], i, slots[k])
  }

  lemma TaskSemasDifferent(f: string, n: nat)
    ensures Different(TaskSemas(f, n)) && RingSema(f) !in TaskSemas(f, n)
  {
    forall j, k | 0 <= j < k < n ensures TaskSemas(f, n)[j] != TaskSemas(f, n)[k] { SemaNames(f, j, k); }
    forall j | 0 <= j < n ensures TaskSemas(f, n)[j] != RingSema(f) { SemaNames(f, j, j); }
  }

  lemma {:induction false} HeartIterates(s: Stmt, f: string, silent: set<nat>)
    requires IsNest(s, f, silent)
    ensures Iterating(Heart(s, f, silent), f, silent) && CountConsumes(Heart(s, f, silent), f) > 0
  {
    if !IsRound(s, f, silent) {
      match s
      case Block(a, b) => HeartIterates(if IsNest(a, f, silent) && Quiet(b, f, silent) then a else b, f, silent);
      case IfThenElse(_, a, b) =>
          HeartIterates(if IsNest(a, f, silent) && Quiet(b, f, silent) then a else b, f, silent);
      case For(_, _, _, b) => HeartIterates(b, f, silent);
      case LetStmt(_, _, b) => HeartIterates(b, f, silent);
      case Realize(_, b) => HeartIterates(b, f, silent);
      case HoistedStorage(_, b) => HeartIterates(b, f, silent);
      case Produce(_, b) => HeartIterates(b, f, silent);
      case Consume(_, b) => HeartIterates(b, f, silent);
    }
  }

  lemma {:induction false} NestCounts(s: Stmt, f: string, silent: set<nat>)
    requires IsNest(s, f, silent)
    ensures CountConsumes(s, f) == CountConsumes(Heart(s, f, silent), f)
  {
    if IsRound(s, f, silent) {
      var b := RoundBody(s);
      assert CountConsumes(Block(b, Release(RingSema(f))), f) == CountConsumes(b, f);
      assert CountConsumes(s.body, f) == CountConsumes(s.body.body, f);
    } else {
      match s
      case Block(a, b) =>
        if IsNest(a, f, silent) && Quiet(b, f, silent) {
          NestCounts(a, f, silent);
          QuietProducesNothing(b, f, silent);
        } else {
          NestCounts(b, f, silent);
          QuietProducesNothing(a, f, silent);
        }
      case IfThenElse(_, a, b) =>
        if IsNest(a, f, silent) && Quiet(b, f, silent) {
          NestCounts(a, f, silent);
          QuietProducesNothing(b, f, silent);
        } else {
          NestCounts(b, f, silent);
          QuietProducesNothing(a, f, silent);
        }
      case For(_, _, _, b) => NestCounts(b, f, silent);
      case LetStmt(_, _, b) => NestCounts(b, f, silent);
      case Realize(_, b) => NestCounts(b, f, silent);
      case HoistedStorage(_, b) => NestCounts(b, f, silent);
      case Produce(_, b) => NestCounts(b, f, silent);
      case Consume(_, b) => NestCounts(b, f, silent);
    }
  }

  /** The rounds of the two halves. */
  function ProducerBlocks(s: Stmt, f: string, silent: set<nat>, env: Env, i: Interp): seq<Events> {
    Each(Rounds(s, f, silent, env, i),
        ProducerRounds(Heart(s, f, silent), f, silent, TaskSemas(f, CountConsumes(s, f)), i))
  }

  function ConsumerBlocks(s: Stmt, f: string, silent: set<nat>, env: Env, i: Interp): seq<Events> {
    Each(Rounds(s, f, silent, env, i),
        ConsumerRounds(Heart(s, f, silent), f, silent, TaskSemas(f, CountConsumes(s, f)), i))
  }

  function SemasOf(s: Stmt, f: string): Semas { Semas(RingSema(f), TaskSemas(f, CountConsumes(s, f))) }

  /** The halves are the two tasks, round by round. */
  lemma HalvesAreTasks(s: Stmt, f: string, silent: set<nat>, env: Env, i: Interp, slots: seq<int>)
    requires Forkable(s, f, silent, env, i, slots)
    ensures AsyncStmts.Trace(ProducerHalf(s, f), env, i) == Flat(ProducerBlocks(s, f, silent, env, i))
    ensures AsyncStmts.Trace(ConsumerHalf(s, f), env, i) == Flat(ConsumerBlocks(s, f, silent, env, i))
    ensures Tasks(ProducerBlocks(s, f, silent, env, i), ConsumerBlocks(s, f, silent, env, i), slots, SemasOf(s, f))
  {
    hide IsNest, UsesSlot, Rounds, Heart, ProducerBlock, ConsumerBlock, ProducerRound, ConsumerRound,
        CountConsumes, Consumption, Iterating;
    var n := CountConsumes(s, f);
    var semas, h, envs := TaskSemas(f, n), Heart(s, f, silent), Rounds(s, f, silent, env, i);
    TaskSemasDifferent(f, n);
    HeartIterates(s, f, silent);
    NestCounts(s, f, silent);
    NestProducer(s, f, silent, PState(semas, {}, false, {}, [], true), env, i);
    NestConsumer(s, f, silent, semas, env, i);
    forall k | 0 <= k < |slots|
      ensures ProducerBlock(ProducerRound(h, f, silent, semas, envs[k], i), slots[k], SemasOf(s, f))
      ensures ConsumerBlock(ConsumerRound(h, f, silent, semas, envs[k], i), slots[k], SemasOf(s, f))
    {
      IterationTrace(h, f, silent, envs[k], i);
      ProducerRoundIsBlock(h, f, silent, semas, envs[k], i, slots[k]);
      ConsumerRoundIsBlock(h, f, silent, semas, envs[k], i, slots[k]);
    }
  }

  /** Where every round reads and the next writes, their slots differ. */
  ghost predicate SlotsAlternate(s: Stmt, f: string, silent: set<nat>, env: Env, i: Interp, slots: seq<int>)
    requires |slots| == |Rounds(s, f, silent, env, i)|
  {
    Alternates(ProducerBlocks(s, f, silent, env, i), ConsumerBlocks(s, f, silent, env, i), slots)
  }

  /** The forked loops, in any interleaving: when the consumer half has finished
      it has read exactly what the loops read before forking; from the first
      acquire of a round that reads to its end no slot of that round is written;
      and until both halves have finished one of
      them can go on. */
  lemma ForkedRunIsSequential(s: Stmt, f: string, silent: set<nat>, env: Env, i: Interp, slots: seq<int>,
      start: State, run: seq<State>)
    requires Forkable(s, f, silent, env, i, slots) && SlotsAlternate(s, f, silent, env, i, slots)
    requires Initial(start, SemasOf(s, f))
    requires IsRun(AsyncStmts.Trace(ProducerHalf(s, f), env, i),
        AsyncStmts.Trace(ConsumerHalf(s, f), env, i), start, run)
    ensures
      var ps, cs, last := AsyncStmts.Trace(ProducerHalf(s, f), env, i),
          AsyncStmts.Trace(ConsumerHalf(s, f), env, i), run[|run| - 1];
      && (last.c == |cs| ==> last.log == ReadAlone(AsyncStmts.Trace(s, env, i), start.mem))
      && !Race(ps, cs, last)
      && (var cb := ConsumerBlocks(s, f, silent, env, i);
          Reading(cb, last.c) && last.p < |ps| && ps[last.p].Write? ==> ps[last.p].slot != slots[Where(cb, last.c).0])
      && ((last.p == |ps| && last.c == |cs|)
          || (last.p < |ps| && Enabled(ps[last.p], last)) || (last.c < |cs| && Enabled(cs[last.c], last)))
  {
    hide IsNest, UsesSlot, Heart, Tasks, Alternates, IsRun, Race, CountConsumes, Initial, Iterating, Consumption;
    HalvesAreTasks(s, f, silent, env, i, slots);
    var pb, cb, q := ProducerBlocks(s, f, silent, env, i), ConsumerBlocks(s, f, silent, env, i), SemasOf(s, f);
    ConsumerReadsSequentially(pb, cb, slots, q, start, run);
    NoOverwrite(pb, cb, slots, q, start, run);
    NoWriteWhileReading(pb, cb, slots, q, start, run);
    Progress(pb, cb, slots, q, start, run);
    NestTrace(s, f, silent, env, i);
    SequentialIsAlone(s, f, silent, env, i, slots, start.mem);
  }

  lemma SequentialIsAlone(s: Stmt, f: string, silent: set<nat>, env: Env, i: Interp, slots: seq<int>, m: Memory)
    requires Forkable(s, f, silent, env, i, slots)
    ensures ReadAlone(Flat(Each(Rounds(s, f, silent, env, i), WholeRounds(Heart(s, f, silent), f, silent, i))), m)
            == SequentialReads(ProducerBlocks(s, f, silent, env, i), ConsumerBlocks(s, f, silent, env, i), m)
  {
    hide IsNest, UsesSlot, Heart, Rounds, CountConsumes, Iterating, Consumption;
    var n, h, envs := CountConsumes(s, f), Heart(s, f, silent), Rounds(s, f, silent, env, i);
    TaskSemasDifferent(f, n);
    HeartIterates(s, f, silent);
    NestCounts(s, f, silent);
    forall k | 0 <= k < |envs| ensures |Consumption(h, f, silent, envs[k], i)| == n {
      IterationTrace(h, f, silent, envs[k], i);
    }
    AllRoundsRead(h, f, silent, TaskSemas(f, n), envs, i, slots, m);
  }

  /** The condition on slots is exact: without it some interleaving of the
      forked loops writes a slot while it is being read. */
  lemma ForkedRaceExactly(s: Stmt, f: string, silent: set<nat>, env: Env, i: Interp, slots: seq<int>, start: State)
    requires Forkable(s, f, silent, env, i, slots) && Initial(start, SemasOf(s, f))
    ensures
      var ps, cs := AsyncStmts.Trace(ProducerHalf(s, f), env, i), AsyncStmts.Trace(ConsumerHalf(s, f), env, i);
      (exists run :: IsRun(ps, cs, start, run) && Race(ps, cs, run[|run| - 1]))
          <==> !SlotsAlternate(s, f, silent, env, i, slots)
  {
    hide IsNest, UsesSlot, Heart, Tasks, Alternates, Race, CountConsumes, Initial, Iterating, Consumption;
    HalvesAreTasks(s, f, silent, env, i, slots);
    RaceExactly(ProducerBlocks(s, f, silent, env, i), ConsumerBlocks(s, f, silent, env, i),
        slots, SemasOf(s, f), start);
  }
}
