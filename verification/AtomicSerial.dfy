// The updates of every complete interleaving, put one after the other in the
// order of locking, do what the interleaving did; and some task can always move.

module AtomicSerial {
  import opened AtomicRuns

  function CurrentPhase(ts: Tasks, st: State, t: nat): Phase
    requires Running(ts, st, t)
  {
    PhaseOf(ts[t][st.at[t].k], st.at[t].h)
  }

  predicate Holds(ts: Tasks, st: State, t: nat) { Running(ts, st, t) && CurrentPhase(ts, st, t).Inside? }

  /** Before its lock an update has only read what nobody writes; after that the log has its answers. */
  ghost predicate TaskOk(ts: Tasks, st: State, m0: Memory, t: nat)
    requires t < |st.at| == |ts|
  {
    var s := st.at[t];
    && s.k <= |ts[t]|
    && (s.k == |ts[t]| ==> s.pos == -1)
    && (Running(ts, st, t) ==>
          if CurrentPhase(ts, st, t).Before? then s.pos == -1 && Follows(ts[t][s.k], s.h, m0)
          else 0 <= s.pos < |st.log| && st.log[s.pos] == Entry(t, s.k, s.h))
  }

  ghost predicate TasksOk(ts: Tasks, st: State, m0: Memory) {
    |st.at| == |ts| && forall t: nat :: t < |ts| ==> TaskOk(ts, st, m0, t)
  }

  ghost predicate LocksOk(ts: Tasks, ix: Indices, st: State) {
    && (forall i :: i in st.locks ==> Holds(ts, st, st.locks[i]) && ix(st.locks[i], st.at[st.locks[i]].k) == i)
    && (forall t: nat :: Holds(ts, st, t) ==> ix(t, st.at[t].k) in st.locks && st.locks[ix(t, st.at[t].k)] == t)
  }

  /** Nobody has locked an index since the one that holds it. */
  ghost predicate LatestOk(ts: Tasks, ix: Indices, st: State) {
    forall t: nat :: Holds(ts, st, t) && 0 <= st.at[t].pos < |st.log| ==>
      NoneAt(st.log[st.at[t].pos + 1..], ix, ix(t, st.at[t].k))
  }

  predicate HasLocked(st: State, t: nat, k: nat) {
    t < |st.at| && (k < st.at[t].k || (k == st.at[t].k && st.at[t].pos >= 0))
  }

  predicate Over(ts: Tasks, st: State, e: Entry) {
    Known(ts, e) && e.t < |st.at| && (e.k < st.at[e.t].k ==> UpdateOf(ts, e)(e.h).Done?)
  }

  predicate Logged(log: seq<Entry>, t: nat, k: nat) { exists a :: 0 <= a < |log| && log[a].t == t && log[a].k == k }

  /** The log has each update that has locked, once; those that are over have come to their end. */
  ghost predicate LogOk(ts: Tasks, st: State) {
    && AllKnown(ts, st.log) && |st.at| == |ts|
    && (forall a, b :: 0 <= a < b < |st.log| && st.log[a].t == st.log[b].t ==>
          st.log[a].k < st.log[b].k)
    && (forall a :: 0 <= a < |st.log| ==> HasLocked(st, st.log[a].t, st.log[a].k))
    && (forall a :: 0 <= a < |st.log| ==> Over(ts, st, st.log[a]))
    && (forall t: nat, k: nat :: HasLocked(st, t, k) ==> Logged(st.log, t, k))
  }

  ghost predicate MemoryOk(ts: Tasks, st: State, m0: Memory) {
    AllKnown(ts, st.log) && AllFollow(ts, st.log, m0) && st.mem == Serial(ts, st.log, m0)
  }

  ghost predicate Inv(ts: Tasks, ix: Indices, m0: Memory, st: State) {
    TasksOk(ts, st, m0) && LocksOk(ts, ix, st) && LatestOk(ts, ix, st) && LogOk(ts, st) && MemoryOk(ts, st, m0)
  }

  lemma InitialInv(ts: Tasks, ix: Indices, m0: Memory)
    ensures Inv(ts, ix, m0, Initial(ts, m0))
  {}

  /** What is next is right, in any state reached. */
  lemma NextIsRight(ts: Tasks, ix: Indices, own: set<string>, m0: Memory, st: State, t: nat)
    requires AllDisciplined(ts, ix, own, m0) && Inv(ts, ix, m0, st) && Running(ts, st, t)
    ensures Right(Next(ts, st, t), CurrentPhase(ts, st, t), ix(t, st.at[t].k), own)
  {
    var s := st.at[t];
    var u, i := ts[t][s.k], ix(t, s.k);
    assert TaskOk(ts, st, m0, t) && Disciplined(u, i, own, m0);
    if CurrentPhase(ts, st, t).Before? {
      assert SameOutside(own, m0, m0);
    } else {
      var pre := st.log[..s.pos];
      assert st.log == pre + ([st.log[s.pos]] + st.log[s.pos + 1..]);
      SerialAppend(ts, pre, [st.log[s.pos]] + st.log[s.pos + 1..], m0);
      LogSplit(ts, st.log[s.pos], st.log[s.pos + 1..], Serial(ts, pre, m0));
      SerialOutside(ts, ix, own, m0, pre, m0);
    }
  }

  // ----- one step -----

  /** What a step is taken from. */
  ghost predicate Ready(ts: Tasks, ix: Indices, own: set<string>, m0: Memory, st: State, t: nat) {
    && AllDisciplined(ts, ix, own, m0) && Inv(ts, ix, m0, st) && Enabled(ts, st, t)
    && Right(Next(ts, st, t), CurrentPhase(ts, st, t), ix(t, st.at[t].k), own)
  }

  lemma PhaseStep(ts: Tasks, st: State, t: nat)
    requires Enabled(ts, st, t) && !Next(ts, st, t).Done?
    ensures var st' := Step(ts, st, t);
            Running(ts, st', t) && st'.at[t].k == st.at[t].k
            && st'.at[t].h == st.at[t].h + [Answer(Next(ts, st, t), st.mem)]
            && CurrentPhase(ts, st', t) == match Next(ts, st, t)
                                           case Lock(_) => Inside
                                           case Unlock(_) => After
                                           case _ => CurrentPhase(ts, st, t)
  {
    hide MemAfter;
    OneMore(ts[t][st.at[t].k], st.at[t].h, Answer(Next(ts, st, t), st.mem), st.mem);
  }

  lemma JustStarted(u: Update, m: Memory)
    ensures PhaseOf(u, []).Before? && Follows(u, [], m)
  {}

  /** How a step changes the log and memory. */
  lemma StepParts(ts: Tasks, st: State, t: nat)
    requires Enabled(ts, st, t)
    ensures
      var st', s, a := Step(ts, st, t), st.at[t], Next(ts, st, t);
      var e := Entry(t, s.k, s.h + [Answer(a, st.mem)]);
      && st'.mem == Effect(a, st.mem)
      && st'.log == (if a.Done? then st.log else if a.Lock? then st.log + [e]
                     else if 0 <= s.pos < |st.log| then st.log[s.pos := e] else st.log)
  {}

  lemma OthersSame(ts: Tasks, st: State, t: nat, r: nat)
    requires Enabled(ts, st, t) && r != t
    ensures var st' := Step(ts, st, t);
            |st'.at| == |st.at| && (r < |st.at| ==> st'.at[r] == st.at[r])
            && (Running(ts, st', r) <==> Running(ts, st, r)) && (Holds(ts, st', r) <==> Holds(ts, st, r))
  {}

  lemma OwnTask(ts: Tasks, ix: Indices, own: set<string>, m0: Memory, st: State, t: nat)
    requires Ready(ts, ix, own, m0, st, t)
    ensures TaskOk(ts, Step(ts, st, t), m0, t)
  {
    hide Disciplined, AllFollow, Serial, Follows, MemAfter, PhaseOf, LogOk, LocksOk, LatestOk;
    var s, a := st.at[t], Next(ts, st, t);
    var u := ts[t][s.k];
    assert TaskOk(ts, st, m0, t);
    if !a.Done? {
      PhaseStep(ts, st, t);
      if a.Load? && CurrentPhase(ts, st, t).Before? {
        SerialOutside(ts, ix, own, m0, st.log, m0);
        BeforeTheLock(u, s.h, ix(t, s.k), own, m0, m0);
        OneMore(u, s.h, Answer(a, st.mem), m0);
      }
    } else if s.k + 1 < |ts[t]| {
      JustStarted(ts[t][s.k + 1], m0);
    }
  }

  lemma TasksStep(ts: Tasks, ix: Indices, own: set<string>, m0: Memory, st: State, t: nat)
    requires Ready(ts, ix, own, m0, st, t)
    ensures TasksOk(ts, Step(ts, st, t), m0)
  {
    OwnTask(ts, ix, own, m0, st, t);
    hide Disciplined, AllFollow, Serial, Follows, MemAfter, PhaseOf, Step, TaskOk;
    StepTask(ts, st, t);
    forall r: nat | r < |ts| ensures TaskOk(ts, Step(ts, st, t), m0, r) {
      if r != t { OtherTask(ts, ix, m0, st, t, r); }
    }
  }

  lemma OtherTask(ts: Tasks, ix: Indices, m0: Memory, st: State, t: nat, r: nat)
    requires Inv(ts, ix, m0, st) && Enabled(ts, st, t) && r < |ts| && r != t
    ensures TaskOk(ts, Step(ts, st, t), m0, r)
  {
    hide Follows, MemAfter, PhaseOf, Step, LogOk, LocksOk, LatestOk, MemoryOk;
    assert TaskOk(ts, st, m0, t) && TaskOk(ts, st, m0, r);
    StepParts(ts, st, t);
    StepTask(ts, st, t);
  }

  lemma LocksStep(ts: Tasks, ix: Indices, own: set<string>, m0: Memory, st: State, t: nat)
    requires Ready(ts, ix, own, m0, st, t)
    ensures LocksOk(ts, ix, Step(ts, st, t))
  {
    hide Disciplined, AllFollow, Serial, Follows, MemAfter, PhaseOf, LogOk, LatestOk, MemoryOk, TasksOk;
    var st', a := Step(ts, st, t), Next(ts, st, t);
    if !a.Done? { PhaseStep(ts, st, t); }
    else if st.at[t].k + 1 < |ts[t]| { JustStarted(ts[t][st.at[t].k + 1], m0); }
    forall r: nat | r != t ensures Holds(ts, st', r) <==> Holds(ts, st, r) { OthersSame(ts, st, t, r); }
  }

  lemma LatestStep(ts: Tasks, ix: Indices, own: set<string>, m0: Memory, st: State, t: nat)
    requires Ready(ts, ix, own, m0, st, t)
    ensures LatestOk(ts, ix, Step(ts, st, t))
  {
    hide Disciplined, AllFollow, Serial, Follows, MemAfter, PhaseOf, LogOk, MemoryOk;
    var st', a := Step(ts, st, t), Next(ts, st, t);
    assert TaskOk(ts, st, m0, t);
    if !a.Done? { PhaseStep(ts, st, t); }
    forall r: nat | Holds(ts, st', r) && 0 <= st'.at[r].pos < |st'.log|
      ensures NoneAt(st'.log[st'.at[r].pos + 1..], ix, ix(r, st'.at[r].k))
    {
      if r != t { OthersSame(ts, st, t, r); assert TaskOk(ts, st, m0, r); }
      if r != t || !a.Lock? {
        var n := st.at[r].pos;
        forall e | e in st'.log[n + 1..] ensures ix(e.t, e.k) != ix(r, st.at[r].k) {
          var b :| n + 1 <= b < |st'.log| && e == st'.log[b];
          if b < |st.log| { assert st.log[b] in st.log[n + 1..]; }
        }
      }
    }
  }

  lemma LogOkStep(ts: Tasks, ix: Indices, own: set<string>, m0: Memory, st: State, t: nat)
    requires Ready(ts, ix, own, m0, st, t)
    ensures LogOk(ts, Step(ts, st, t))
  {
    hide Disciplined, AllFollow, Serial, Follows, MemAfter, PhaseOf, MemoryOk, LatestOk, LocksOk, Step, Logged;
    var st', s, a := Step(ts, st, t), st.at[t], Next(ts, st, t);
    StepParts(ts, st, t);
    StepTask(ts, st, t);
    assert TaskOk(ts, st, m0, t);
    assert Known(ts, Entry(t, s.k, s.h));
    forall b, c | 0 <= b < c < |st'.log| && st'.log[b].t == st'.log[c].t ensures st'.log[b].k < st'.log[c].k {
      if c == |st.log| { assert HasLocked(st, st.log[b].t, st.log[b].k); }
    }
    forall b | 0 <= b < |st'.log|
      ensures Known(ts, st'.log[b]) && HasLocked(st', st'.log[b].t, st'.log[b].k) && Over(ts, st', st'.log[b])
    {
      if b < |st.log| {
        assert st.log[b] in st.log && Over(ts, st, st.log[b]) && HasLocked(st, st.log[b].t, st.log[b].k);
        if st.log[b].t == t && st.log[b].k == s.k && b != s.pos { assert false; }
      }
    }
    forall r: nat, k: nat | HasLocked(st', r, k) ensures Logged(st'.log, r, k) { LoggedStep(ts, st, t, r, k); }
  }

  lemma StepTask(ts: Tasks, st: State, t: nat)
    requires Enabled(ts, st, t)
    ensures
      var st', s, a := Step(ts, st, t), st.at[t], Next(ts, st, t);
      st'.at == st.at[t := if a.Done? then TaskState(s.k + 1, [], -1)
                           else TaskState(s.k, s.h + [Answer(a, st.mem)], if a.Lock? then |st.log| else s.pos)]
  {}

  lemma LoggedStep(ts: Tasks, st: State, t: nat, r: nat, k: nat)
    requires LogOk(ts, st) && Enabled(ts, st, t) && HasLocked(Step(ts, st, t), r, k)
    requires Next(ts, st, t).Done? ==> st.at[t].pos >= 0
    requires 0 <= st.at[t].pos < |st.log| ==>
        st.log[st.at[t].pos].t == t && st.log[st.at[t].pos].k == st.at[t].k
    ensures Logged(Step(ts, st, t).log, r, k)
  {
    var st', a := Step(ts, st, t), Next(ts, st, t);
    StepParts(ts, st, t);
    StepTask(ts, st, t);
    hide LogOk, Step;
    if HasLocked(st, r, k) {
      assert Logged(st.log, r, k) by { LoggedBefore(ts, st, r, k); }
      var b :| 0 <= b < |st.log| && st.log[b].t == r && st.log[b].k == k;
      assert st'.log[b].t == r && st'.log[b].k == k;
    } else {
      assert a.Lock? && st'.log[|st.log|].t == r && st'.log[|st.log|].k == k;
    }
  }

  lemma LoggedBefore(ts: Tasks, st: State, r: nat, k: nat)
    requires LogOk(ts, st) && HasLocked(st, r, k)
    ensures Logged(st.log, r, k)
  {}

  lemma MemoryStep(ts: Tasks, ix: Indices, own: set<string>, m0: Memory, st: State, t: nat)
    requires Ready(ts, ix, own, m0, st, t)
    ensures MemoryOk(ts, Step(ts, st, t), m0)
  {
    hide Disciplined, AllFollow, Serial, Follows, MemAfter, PhaseOf, LogOk, LocksOk, LatestOk, Step, AllDisciplined;
    StepParts(ts, st, t);
    assert TaskOk(ts, st, m0, t);
    match CurrentPhase(ts, st, t)
    case Before => if Next(ts, st, t).Lock? { MemoryLock(ts, ix, own, m0, st, t); }
    case Inside => MemoryInside(ts, ix, own, m0, st, t);
    case After =>
  }

  lemma MemoryInside(ts: Tasks, ix: Indices, own: set<string>, m0: Memory, st: State, t: nat)
    requires Ready(ts, ix, own, m0, st, t) && CurrentPhase(ts, st, t).Inside?
    ensures var s := st.at[t];
            var h := s.h + [Answer(Next(ts, st, t), st.mem)];
            && 0 <= s.pos < |st.log|
            && (var log := st.log[s.pos := Entry(t, s.k, h)];
                AllKnown(ts, log) && AllFollow(ts, log, m0) && Serial(ts, log, m0) == Effect(Next(ts, st, t), st.mem))
  {
    hide Disciplined, AllFollow, Serial, Follows, MemAfter, PhaseOf, LogOk, LocksOk, Step;
    assert TaskOk(ts, st, m0, t);
    assert Holds(ts, st, t);
    LogStep(ts, ix, own, m0, st.log, st.at[t].pos);
  }

  lemma MemoryLock(ts: Tasks, ix: Indices, own: set<string>, m0: Memory, st: State, t: nat)
    requires Ready(ts, ix, own, m0, st, t) && CurrentPhase(ts, st, t).Before? && Next(ts, st, t).Lock?
    ensures var log := st.log + [Entry(t, st.at[t].k, st.at[t].h + [0])];
            AllKnown(ts, log) && AllFollow(ts, log, m0) && Serial(ts, log, m0) == st.mem
  {
    hide Disciplined, AllFollow, Serial, Follows, MemAfter, PhaseOf, LogOk, LocksOk, Step;
    var s := st.at[t];
    var u, e := ts[t][s.k], Entry(t, s.k, s.h + [0]);
    assert TaskOk(ts, st, m0, t);
    SerialOutside(ts, ix, own, m0, st.log, m0);
    BeforeTheLock(u, s.h, ix(t, s.k), own, m0, st.mem);
    OneMore(u, s.h, 0, st.mem);
    LogSplit(ts, e, [], st.mem);
    assert [e] + [] == [e];
    LogEnd(ts, MemAfter(u, e.h, st.mem));
    assert Known(ts, e);
    SerialAppend(ts, st.log, [e], m0);
  }

  lemma LogEnd(ts: Tasks, m: Memory)
    ensures Serial(ts, [], m) == m && AllFollow(ts, [], m)
  {}

  lemma StepInv(ts: Tasks, ix: Indices, own: set<string>, m0: Memory, st: State, t: nat)
    requires AllDisciplined(ts, ix, own, m0) && Inv(ts, ix, m0, st) && Enabled(ts, st, t)
    ensures Inv(ts, ix, m0, Step(ts, st, t))
  {
    hide TasksOk, LocksOk, LatestOk, LogOk, MemoryOk, AllDisciplined;
    NextIsRight(ts, ix, own, m0, st, t);
    TasksStep(ts, ix, own, m0, st, t);
    LocksStep(ts, ix, own, m0, st, t);
    LatestStep(ts, ix, own, m0, st, t);
    LogOkStep(ts, ix, own, m0, st, t);
    MemoryStep(ts, ix, own, m0, st, t);
  }

  // ----- whole runs -----

  lemma MoveInv(ts: Tasks, ix: Indices, own: set<string>, m0: Memory, st: State, st': State)
    requires AllDisciplined(ts, ix, own, m0) && Inv(ts, ix, m0, st) && Moves(ts, st, st')
    ensures Inv(ts, ix, m0, st')
  {
    hide Inv, AllDisciplined, Step, Enabled;
    var t: nat :| Enabled(ts, st, t) && st' == Step(ts, st, t);
    StepInv(ts, ix, own, m0, st, t);
  }

  lemma {:induction false} RunInv(ts: Tasks, ix: Indices, own: set<string>, m0: Memory, run: seq<State>, n: nat)
    requires AllDisciplined(ts, ix, own, m0) && IsRun(ts, Initial(ts, m0), run) && n < |run|
    ensures Inv(ts, ix, m0, run[n])
  {
    hide Inv, AllDisciplined, Moves;
    if n == 0 {
      InitialInv(ts, ix, m0);
    } else {
      RunInv(ts, ix, own, m0, run, n - 1);
      MoveInv(ts, ix, own, m0, run[n - 1], run[n]);
    }
  }

  /** Every update once, those of a task in their order, each with the answers
      it gets when they run one after the other, and to its end: `mem` is what
      that leaves of `m0`. */
  ghost predicate OneAtATime(ts: Tasks, log: seq<Entry>, m0: Memory, mem: Memory) {
    && AllKnown(ts, log) && AllFollow(ts, log, m0) && Serial(ts, log, m0) == mem
    && (forall t: nat, k: nat :: t < |ts| && k < |ts[t]| ==> Logged(log, t, k))
    && (forall a, b :: 0 <= a < b < |log| && log[a].t == log[b].t ==> log[a].k < log[b].k)
    && (forall a :: 0 <= a < |log| ==> UpdateOf(ts, log[a])(log[a].h).Done?)
  }

  /** Every interleaving that comes to its end does what the updates do one at
      a time, in the order in which they locked. */
  lemma Serialisable(ts: Tasks, ix: Indices, own: set<string>, m0: Memory, run: seq<State>)
    requires AllDisciplined(ts, ix, own, m0) && IsRun(ts, Initial(ts, m0), run)
    requires Finished(ts, run[|run| - 1])
    ensures OneAtATime(ts, run[|run| - 1].log, m0, run[|run| - 1].mem)
  {
    hide AllDisciplined, Step, Enabled, AllFollow, Serial, LocksOk, LatestOk, TasksOk;
    RunInv(ts, ix, own, m0, run, |run| - 1);
    var st := run[|run| - 1];
    forall t: nat, k: nat | t < |ts| && k < |ts[t]| ensures Logged(st.log, t, k) { assert HasLocked(st, t, k); }
    forall a | 0 <= a < |st.log| ensures UpdateOf(ts, st.log[a])(st.log[a].h).Done? {
      assert st.log[a] in st.log && Over(ts, st, st.log[a]);
    }
  }

  /** There is no deadlock: until all tasks are done, one of them can move. */
  lemma Progress(ts: Tasks, ix: Indices, own: set<string>, m0: Memory, run: seq<State>)
    requires AllDisciplined(ts, ix, own, m0) && IsRun(ts, Initial(ts, m0), run)
    requires !Finished(ts, run[|run| - 1])
    ensures var st := run[|run| - 1]; exists t: nat :: Enabled(ts, st, t)
  {
    hide AllDisciplined, Step, AllFollow, Serial, LatestOk, LogOk, MemoryOk, PhaseOf;
    RunInv(ts, ix, own, m0, run, |run| - 1);
    var st := run[|run| - 1];
    if i :| i in st.locks {
      var t := st.locks[i];
      assert Holds(ts, st, t);
      NextIsRight(ts, ix, own, m0, st, t);
      assert Enabled(ts, st, t);
    } else {
      var t: nat :| t < |ts| && st.at[t].k != |ts[t]|;
      assert TaskOk(ts, st, m0, t);
      assert Enabled(ts, st, t);
    }
  }
}
