// Giving every round a copy of its own changes nothing that is read, if no
// round reads what another has left (InjectRingBuffering of src/AsyncProducers.cpp).

module RingReads {
  import opened AsyncStmts
  import opened AsyncForking
  import opened AsyncSplitting
  import opened AsyncResults
  import opened RingIndexes
  import opened RingForks
  import opened Runs = AsyncRuns

  // ----- acquires and releases do not read -----

  /** The accesses. */
  function Kept(es: Events): Events {
    if es == [] then [] else (if es[0].Write? || es[0].Read? then [es[0]] else []) + Kept(es[1..])
  }

  lemma {:induction false} KeptAppend(a: Events, b: Events)
    ensures Kept(a + b) == Kept(a) + Kept(b)
  {
    if a == [] {
      assert a + b == b;
    } else {
      assert (a + b)[0] == a[0] && (a + b)[1..] == a[1..] + b;
      KeptAppend(a[1..], b);
      var head := if a[0].Write? || a[0].Read? then [a[0]] else [];
      assert Kept(a) == head + Kept(a[1..]) && Kept(a + b) == head + Kept(a[1..] + b);
      assert head + (Kept(a[1..]) + Kept(b)) == (head + Kept(a[1..])) + Kept(b);
    }
  }

  lemma {:induction false} KeptReads(es: Events, m: Memory)
    ensures ReadAlone(Kept(es), m) == ReadAlone(es, m)
  {
    if es != [] {
      var m1 := if es[0].Write? then Put(m, es[0].slot, es[0].f) else m;
      KeptReads(es[1..], m1);
      var head := if es[0].Write? || es[0].Read? then [es[0]] else [];
      if head != [] { assert (head + Kept(es[1..]))[1..] == Kept(es[1..]); }
      else { assert head + Kept(es[1..]) == Kept(es[1..]); }
    }
  }

  /** Injecting the ring adds acquires and releases only. */
  lemma {:induction false} InjectKeeps(s: Stmt, f: string, env: Env, i: Interp)
    ensures Kept(AsyncStmts.Trace(Inject(s, f), env, i)) == Kept(AsyncStmts.Trace(s, env, i))
    decreases s, 0
  {
    match s
    case Block(a, b) =>
      InjectKeeps(a, f, env, i);
      InjectKeeps(b, f, env, i);
      KeptAppend(AsyncStmts.Trace(Inject(a, f), env, i), AsyncStmts.Trace(Inject(b, f), env, i));
      KeptAppend(AsyncStmts.Trace(a, env, i), AsyncStmts.Trace(b, env, i));
    case IfThenElse(_, a, b) => InjectKeeps(a, f, env, i); InjectKeeps(b, f, env, i);
    case For(x, min, extent, b) => LoopKeeps(x, ValueOf(min, env, i), ValueOf(extent, env, i), b, f, env, i);
    case LetStmt(x, v, b) => InjectKeeps(b, f, Extend(env, x, ValueOf(v, env, i)), i);
    case Realize(g, b) =>
      InjectKeeps(b, f, env, i);
      if g == f { RoundKeeps(Inject(b, f), f, env, i); }
    case HoistedStorage(_, b) => InjectKeeps(b, f, env, i);
    case Produce(_, b) => InjectKeeps(b, f, env, i);
    case Consume(_, b) => InjectKeeps(b, f, env, i);
    case Acquire(sema, n, b) =>
      InjectKeeps(b, f, env, i);
      OneAcquire(sema, ValueOf(n, env, i), AsyncStmts.Trace(Inject(b, f), env, i));
      OneAcquire(sema, ValueOf(n, env, i), AsyncStmts.Trace(b, env, i));
    case _ =>
  }

  lemma LoopKeeps(x: string, from: int, n: int, b: Stmt, f: string, env: Env, i: Interp)
    ensures Kept(LoopTrace(x, from, n, Inject(b, f), env, i)) == Kept(LoopTrace(x, from, n, b, env, i))
    decreases b, 1, n
  {
    if n > 0 {
      InjectKeeps(b, f, Extend(env, x, from), i);
      LoopKeeps(x, from + 1, n - 1, b, f, env, i);
      KeptAppend(AsyncStmts.Trace(Inject(b, f), Extend(env, x, from), i),
                 LoopTrace(x, from + 1, n - 1, Inject(b, f), env, i));
      KeptAppend(AsyncStmts.Trace(b, Extend(env, x, from), i), LoopTrace(x, from + 1, n - 1, b, env, i));
    }
  }

  lemma OneAcquire(sema: string, n: int, es: Events)
    ensures Kept([Acq(sema, n)] + es) == Kept(es)
  {
    KeptAppend([Acq(sema, n)], es);
    assert Kept([Acq(sema, n)]) == [] by { assert [Acq(sema, n)][1..] == []; }
  }

  lemma RoundKeeps(b: Stmt, f: string, env: Env, i: Interp)
    ensures Kept(AsyncStmts.Trace(AddRound(f, b), env, i)) == Kept(AsyncStmts.Trace(b, env, i))
  {
    var ring, es := RingSema(f), AsyncStmts.Trace(b, env, i);
    var inner := Block(b, Release(ring));
    assert AsyncStmts.Trace(inner, env, i) == es + [Rel(ring)];
    assert AsyncStmts.Trace(Acquire(ring, Lit(1), inner), env, i) == [Acq(ring, 1)] + (es + [Rel(ring)]);
    OneAcquire(ring, 1, es + [Rel(ring)]);
    KeptAppend(es, [Rel(ring)]);
    assert Kept([Rel(ring)]) == [] by { assert [Rel(ring)][1..] == []; }
  }

  // ----- rounds that stand alone -----

  ghost predicate AllAt(es: Events, slot: int) {
    forall j :: 0 <= j < |es| && (es[j].Write? || es[j].Read?) ==> es[j].slot == slot
  }

  lemma {:induction false} MovedReads(es: Events, slot: int, slot': int, m: Memory, m': Memory)
    requires AllAt(es, slot) && m(slot) == m'(slot')
    ensures ReadAlone(MoveAll(es, slot'), m') == ReadAlone(es, m)
    decreases |es|
  {
    if es != [] {
      assert MoveAll(es, slot')[1..] == MoveAll(es[1..], slot');
      var e := es[0];
      if e.Write? {
        MovedReads(es[1..], slot, slot', Put(m, e.slot, e.f), Put(m', slot', e.f));
      } else {
        MovedReads(es[1..], slot, slot', m, m');
      }
    }
  }

  /** The accesses of a round are to one storage, and whatever that holds before
      the round, the round reads the same: it reads what it has written. */
  ghost predicate StandsAlone(h: Stmt, f: string, silent: set<nat>, env: Env, i: Interp) {
    var es := WholeRound(h, f, silent, env, i);
    && (exists slot :: AllAt(es, slot))
    && forall m: Memory, m': Memory :: ReadAlone(es, m) == ReadAlone(es, m')
  }

  ghost predicate RoundsStandAlone(s: Stmt, f: string, silent: set<nat>, env: Env, i: Interp) {
    var r := Inject(s, f);
    forall k :: 0 <= k < |Rounds(r, f, silent, env, i)| ==>
      StandsAlone(Heart(r, f, silent), f, silent, Rounds(r, f, silent, env, i)[k], i)
  }

  lemma {:induction false} FlatMoves(cs: seq<Events>, slot: int)
    ensures Flat(MoveEach(cs, slot)) == MoveAll(Flat(cs), slot)
  {
    if cs != [] {
      assert MoveEach(cs, slot)[1..] == MoveEach(cs[1..], slot);
      FlatMoves(cs[1..], slot);
    }
  }

  lemma WholeRoundMoves(h: Stmt, f: string, silent: set<nat>, env: Env, i: Interp, nodes: seq<LoopNode>, ring: nat)
    requires nodes != [] && ring > 0 && Binders(h) !! IndexNames(nodes)
    ensures WholeRound(h, f, silent, env, Slotted(i, nodes, ring))
            == MoveAll(WholeRound(h, f, silent, env, i), IndexAt(nodes, ring, env, i))
  {
    hide Production, Consumption, IndexAt;
    var slot := IndexAt(nodes, ring, env, i);
    ProductionMoves(h, f, silent, env, env, i, nodes, ring);
    ConsumptionMoves(h, f, silent, env, env, i, nodes, ring);
    FlatMoves(Consumption(h, f, silent, env, i), slot);
  }

  lemma RoundReadsSame(h: Stmt, f: string, silent: set<nat>, env: Env, i: Interp, nodes: seq<LoopNode>, ring: nat,
      m: Memory, m': Memory)
    requires nodes != [] && ring > 0 && Binders(h) !! IndexNames(nodes) && StandsAlone(h, f, silent, env, i)
    ensures ReadAlone(WholeRound(h, f, silent, env, Slotted(i, nodes, ring)), m')
            == ReadAlone(WholeRound(h, f, silent, env, i), m)
  {
    hide WholeRound, IndexAt;
    var es, slot' := WholeRound(h, f, silent, env, i), IndexAt(nodes, ring, env, i);
    var slot :| AllAt(es, slot);
    WholeRoundMoves(h, f, silent, env, i, nodes, ring);
    var m1: Memory := (n: int) => m'(slot');
    MovedReads(es, slot, slot', m1, m');
  }

  lemma {:induction false} AllRoundsSame(h: Stmt, f: string, silent: set<nat>, envs: seq<Env>, i: Interp,
      nodes: seq<LoopNode>, ring: nat, m: Memory, m': Memory)
    requires nodes != [] && ring > 0 && Binders(h) !! IndexNames(nodes)
    requires forall k :: 0 <= k < |envs| ==> StandsAlone(h, f, silent, envs[k], i)
    ensures var j := Slotted(i, nodes, ring);
            ReadAlone(Flat(Each(envs, WholeRounds(h, f, silent, j))), m')
            == ReadAlone(Flat(Each(envs, WholeRounds(h, f, silent, i))), m)
    decreases |envs|
  {
    hide WholeRound, StandsAlone, IndexAt;
    var j := Slotted(i, nodes, ring);
    var a, b := Each(envs, WholeRounds(h, f, silent, i)), Each(envs, WholeRounds(h, f, silent, j));
    if envs == [] {
      assert a == [] && b == [];
    } else {
      assert a[1..] == Each(envs[1..], WholeRounds(h, f, silent, i));
      assert b[1..] == Each(envs[1..], WholeRounds(h, f, silent, j));
      RoundReadsSame(h, f, silent, envs[0], i, nodes, ring, m, m');
      AllRoundsSame(h, f, silent, envs[1..], i, nodes, ring, Applied(a[0], m), Applied(b[0], m'));
      ReadAloneAppend(a[0], Flat(a[1..]), m);
      ReadAloneAppend(b[0], Flat(b[1..]), m');
    }
  }

  /** Ring buffering changes nothing that is read. */
  lemma RingKeepsReads(s: Stmt, ring: nat, f: string, silent: set<nat>, env: Env, i: Interp, m: Memory)
    requires RingBuffered(s, ring, f, silent, env, i) && RoundsStandAlone(s, f, silent, env, i)
    ensures var j := Slotted(i, RingNodes(s, f, silent), ring);
            ReadAlone(AsyncStmts.Trace(Inject(s, f), env, j), m) == ReadAlone(AsyncStmts.Trace(s, env, i), m)
  {
    hide Rounds, IsNest, Heart, LoopsTo, Inject, IndexAt, StandsAlone, AsyncStmts.Trace, ProducesThenConsumes;
    var r, nodes := Inject(s, f), RingNodes(s, f, silent);
    var j, h := Slotted(i, nodes, ring), Heart(r, f, silent);
    RoundsSame(r, f, silent, env, i, j);
    SilentSlotted(i, nodes, ring, silent);
    NestTrace(r, f, silent, env, i);
    NestTrace(r, f, silent, env, j);
    AllRoundsSame(h, f, silent, Rounds(r, f, silent, env, i), i, nodes, ring, m, m);
    InjectKeeps(s, f, env, i);
    KeptReads(AsyncStmts.Trace(r, env, i), m);
    KeptReads(AsyncStmts.Trace(s, env, i), m);
  }

  /** Ring buffering and then forking: every interleaving reads what the nest
      reads as it was before either. */
  lemma ForkReadsAsBefore(s: Stmt, ring: nat, f: string, silent: set<nat>, env: Env, i: Interp, start: State,
      run: seq<State>)
    requires RingBuffered(s, ring, f, silent, env, i) && RoundsDiffer(SlotsOf(s, ring, f, silent, env, i))
    requires RoundsStandAlone(s, f, silent, env, i) && Initial(start, SemasOf(Inject(s, f), f))
    requires var j := Slotted(i, RingNodes(s, f, silent), ring);
             IsRun(AsyncStmts.Trace(ProducerHalf(Inject(s, f), f), env, j),
                 AsyncStmts.Trace(ConsumerHalf(Inject(s, f), f), env, j), start, run)
    ensures
      var j := Slotted(i, RingNodes(s, f, silent), ring);
      var cs, last := AsyncStmts.Trace(ConsumerHalf(Inject(s, f), f), env, j), run[|run| - 1];
      last.c == |cs| ==> last.log == ReadAlone(AsyncStmts.Trace(s, env, i), start.mem)
  {
    hide RingBuffered, RoundsStandAlone, RoundsDiffer, Initial, IsRun, Inject, LoopsTo, Race, Enabled;
    RingBufferedParts(s, ring, f, silent, env, i);
    RingBufferedForkIsSequential(s, ring, f, silent, env, i, start, run);
    RingKeepsReads(s, ring, f, silent, env, i, start.mem);
  }
}
