// Tasks that update shared memory under locks, one lock for each index: every
// interleaving does what the updates do one at a time, in the order of locking.

module AtomicRuns {
  /** An element of a buffer. */
  datatype Cell = Cell(buf: string, i: int)

  /** What has been written; elsewhere it is zero. */
  type Memory = map<Cell, int>

  datatype Action = Load(c: Cell) | Store(c: Cell, v: int) | Lock(i: int) | Unlock(i: int) | Done

  /** An update: what it does next, given the answers it has had so far. Only
      loads have an answer of interest. */
  type Update = seq<int> -> Action

  function Get(m: Memory, c: Cell): int { if c in m then m[c] else 0 }

  function Answer(a: Action, m: Memory): int { if a.Load? then Get(m, a.c) else 0 }

  function Effect(a: Action, m: Memory): Memory { if a.Store? then m[a.c := a.v] else m }

  // ----- an update alone -----

  function MemAfter(u: Update, h: seq<int>, m: Memory): Memory {
    if h == [] then m else Effect(u(Front(h)), MemAfter(u, Front(h), m))
  }

  function Front(h: seq<int>): seq<int>
    requires h != []
  {
    h[..|h| - 1]
  }

  /** `h` are the answers that the update gets when it runs alone from `m`. */
  ghost predicate Follows(u: Update, h: seq<int>, m: Memory) {
    h == [] || (Follows(u, Front(h), m) && h[|h| - 1] == Answer(u(Front(h)), MemAfter(u, Front(h), m)))
  }

  datatype Phase = Before | Inside | After

  function PhaseOf(u: Update, h: seq<int>): Phase {
    if h == [] then Before
    else
      match u(Front(h))
      case Lock(_) => Inside
      case Unlock(_) => After
      case _ => PhaseOf(u, Front(h))
  }

  // ----- what is asked of updates -----

  ghost predicate SameOutside(own: set<string>, m: Memory, m': Memory) {
    forall c: Cell :: c.buf !in own ==> Get(m, c) == Get(m', c)
  }

  predicate Harmless(a: Action, i: int, own: set<string>) {
    match a
    case Load(c) => c.buf in own ==> c.i == i
    case Store(c, _) => c.buf in own && c.i == i
    case _ => false
  }

  /** Before the lock nothing of the shared buffers is read, under it only one index is accessed, and then it ends. */
  predicate Right(a: Action, p: Phase, i: int, own: set<string>) {
    match p
    case Before => a == Lock(i) || (a.Load? && a.c.buf !in own)
    case Inside => a == Unlock(i) || Harmless(a, i, own)
    case After => a.Done?
  }

  /** The update keeps to this over every memory that is `m0` outside the shared buffers. */
  ghost predicate Disciplined(u: Update, i: int, own: set<string>, m0: Memory) {
    forall m: Memory, h: seq<int> :: SameOutside(own, m0, m) && Follows(u, h, m) ==> Right(u(h), PhaseOf(u, h), i, own)
  }

  // ----- several tasks -----

  /** What a task has done: update `k` is under way, with the answers `h`; once
      it has locked, it is entry `pos` of the log. */
  datatype TaskState = TaskState(k: nat, h: seq<int>, pos: int)

  datatype Entry = Entry(t: nat, k: nat, h: seq<int>)

  /** `log` holds the updates in the order of locking, with their answers so far. */
  datatype State = State(mem: Memory, locks: map<int, nat>, at: seq<TaskState>, log: seq<Entry>)

  type Tasks = seq<seq<Update>>

  predicate Running(ts: Tasks, st: State, t: nat) { t < |st.at| == |ts| && st.at[t].k < |ts[t]| }

  function Next(ts: Tasks, st: State, t: nat): Action
    requires Running(ts, st, t)
  {
    ts[t][st.at[t].k](st.at[t].h)
  }

  predicate Enabled(ts: Tasks, st: State, t: nat) {
    Running(ts, st, t) && (Next(ts, st, t).Lock? ==> Next(ts, st, t).i !in st.locks)
  }

  function Step(ts: Tasks, st: State, t: nat): State
    requires Enabled(ts, st, t)
  {
    var a, s := Next(ts, st, t), st.at[t];
    if a.Done? then st.(at := st.at[t := TaskState(s.k + 1, [], -1)])
    else
      var h := s.h + [Answer(a, st.mem)];
      var pos := if a.Lock? then |st.log| else s.pos;
      var log := if a.Lock? then st.log + [Entry(t, s.k, h)]
                 else if 0 <= s.pos < |st.log| then st.log[s.pos := Entry(t, s.k, h)] else st.log;
      var locks := if a.Lock? then st.locks[a.i := t] else if a.Unlock? then st.locks - {a.i} else st.locks;
      State(Effect(a, st.mem), locks, st.at[t := TaskState(s.k, h, pos)], log)
  }

  /** Some task moves. */
  ghost predicate Moves(ts: Tasks, st: State, st': State) {
    exists t: nat :: Enabled(ts, st, t) && st' == Step(ts, st, t)
  }

  ghost predicate IsRun(ts: Tasks, start: State, run: seq<State>) {
    && run != [] && run[0] == start
    && forall n :: 0 <= n < |run| - 1 ==> Moves(ts, run[n], run[n + 1])
  }

  function Initial(ts: Tasks, m: Memory): State {
    State(m, map[], seq(|ts|, _ => TaskState(0, [], -1)), [])
  }

  predicate Finished(ts: Tasks, st: State) {
    |st.at| == |ts| && forall t :: 0 <= t < |ts| ==> st.at[t].k == |ts[t]|
  }

  // ----- one at a time -----

  predicate Known(ts: Tasks, e: Entry) { e.t < |ts| && e.k < |ts[e.t]| }

  function UpdateOf(ts: Tasks, e: Entry): Update
    requires Known(ts, e)
  {
    ts[e.t][e.k]
  }

  /** The memory after the updates of the log, one after the other. */
  function Serial(ts: Tasks, log: seq<Entry>, m: Memory): Memory
    requires forall e :: e in log ==> Known(ts, e)
  {
    if log == [] then m else Serial(ts, log[1..], MemAfter(UpdateOf(ts, log[0]), log[0].h, m))
  }

  /** Each update has had the answers that it gets one after the other. */
  ghost predicate AllFollow(ts: Tasks, log: seq<Entry>, m: Memory)
    requires forall e :: e in log ==> Known(ts, e)
  {
    log == []
    || (Follows(UpdateOf(ts, log[0]), log[0].h, m)
        && AllFollow(ts, log[1..], MemAfter(UpdateOf(ts, log[0]), log[0].h, m)))
  }

  /** The index that an update locks. */
  type Indices = (nat, nat) -> int

  ghost predicate AllDisciplined(ts: Tasks, ix: Indices, own: set<string>, m0: Memory) {
    forall t, k :: 0 <= t < |ts| && 0 <= k < |ts[t]| ==> Disciplined(ts[t][k], ix(t, k), own, m0)
  }

  // ----- an update touches one index -----

  lemma {:induction false} TouchesOwn(u: Update, h: seq<int>, m: Memory, i: int, own: set<string>, m0: Memory, c: Cell)
    requires Disciplined(u, i, own, m0) && SameOutside(own, m0, m) && Follows(u, h, m)
    requires c.buf !in own || c.i != i
    ensures Get(MemAfter(u, h, m), c) == Get(m, c)
  {
    if h != [] {
      TouchesOwn(u, Front(h), m, i, own, m0, c);
      assert Right(u(Front(h)), PhaseOf(u, Front(h)), i, own);
    }
  }

  lemma OutsideKept(u: Update, h: seq<int>, m: Memory, i: int, own: set<string>, m0: Memory)
    requires Disciplined(u, i, own, m0) && SameOutside(own, m0, m) && Follows(u, h, m)
    ensures SameOutside(own, m0, MemAfter(u, h, m))
  {
    forall c: Cell | c.buf !in own ensures Get(m0, c) == Get(MemAfter(u, h, m), c) {
      TouchesOwn(u, h, m, i, own, m0, c);
    }
  }

  /** Changing a cell of another index changes nothing for the update. */
  lemma {:induction false} OtherCell(u: Update, h: seq<int>, m: Memory, i: int, own: set<string>, m0: Memory, c: Cell,
      v: int)
    requires Disciplined(u, i, own, m0) && SameOutside(own, m0, m) && Follows(u, h, m)
    requires c.buf in own && c.i != i
    ensures Follows(u, h, m[c := v]) && MemAfter(u, h, m[c := v]) == MemAfter(u, h, m)[c := v]
  {
    if h != [] {
      var g := Front(h);
      OtherCell(u, g, m, i, own, m0, c, v);
      assert Right(u(g), PhaseOf(u, g), i, own);
    }
  }

  lemma OneMore(u: Update, h: seq<int>, x: int, m: Memory)
    ensures Front(h + [x]) == h
    ensures MemAfter(u, h + [x], m) == Effect(u(h), MemAfter(u, h, m))
    ensures Follows(u, h + [x], m) <==> Follows(u, h, m) && x == Answer(u(h), MemAfter(u, h, m))
    ensures PhaseOf(u, h + [x])
            == if u(h).Lock? then Inside else if u(h).Unlock? then After else PhaseOf(u, h)
  {
    assert Front(h + [x]) == h;
  }

  /** Before the lock only the rest of memory matters, and nothing is written. */
  lemma {:induction false} BeforeTheLock(u: Update, h: seq<int>, i: int, own: set<string>, m0: Memory, m: Memory)
    requires Disciplined(u, i, own, m0) && Follows(u, h, m0) && PhaseOf(u, h).Before? && SameOutside(own, m0, m)
    ensures Follows(u, h, m) && MemAfter(u, h, m) == m
  {
    if h != [] {
      var g := Front(h);
      BeforeTheLock(u, g, i, own, m0, m0);
      BeforeTheLock(u, g, i, own, m0, m);
      assert Right(u(g), PhaseOf(u, g), i, own);
    }
  }

  // ----- the log -----

  ghost predicate AllKnown(ts: Tasks, log: seq<Entry>) { forall e :: e in log ==> Known(ts, e) }

  lemma {:induction false} SerialAppend(ts: Tasks, a: seq<Entry>, b: seq<Entry>, m: Memory)
    requires AllKnown(ts, a + b) && AllKnown(ts, a) && AllKnown(ts, b)
    ensures Serial(ts, a + b, m) == Serial(ts, b, Serial(ts, a, m))
    ensures AllFollow(ts, a + b, m) <==> AllFollow(ts, a, m) && AllFollow(ts, b, Serial(ts, a, m))
  {
    if a == [] {
      assert a + b == b;
    } else {
      assert (a + b)[0] == a[0] && (a + b)[1..] == a[1..] + b;
      SerialAppend(ts, a[1..], b, MemAfter(UpdateOf(ts, a[0]), a[0].h, m));
    }
  }

  lemma {:induction false} SerialOutside(ts: Tasks, ix: Indices, own: set<string>, m0: Memory, log: seq<Entry>,
      m: Memory)
    requires AllKnown(ts, log) && AllDisciplined(ts, ix, own, m0) && SameOutside(own, m0, m) && AllFollow(ts, log, m)
    ensures SameOutside(own, m0, Serial(ts, log, m))
  {
    if log != [] {
      var e := log[0];
      assert Known(ts, e);
      OutsideKept(UpdateOf(ts, e), e.h, m, ix(e.t, e.k), own, m0);
      SerialOutside(ts, ix, own, m0, log[1..], MemAfter(UpdateOf(ts, e), e.h, m));
    }
  }

  ghost predicate NoneAt(log: seq<Entry>, ix: Indices, i: int) { forall e :: e in log ==> ix(e.t, e.k) != i }

  /** Updates of other indices leave a cell alone and do not look at it. */
  lemma {:induction false} OtherUpdates(ts: Tasks, ix: Indices, own: set<string>, m0: Memory, log: seq<Entry>,
      m: Memory, c: Cell, v: int)
    requires AllKnown(ts, log) && AllDisciplined(ts, ix, own, m0) && SameOutside(own, m0, m) && AllFollow(ts, log, m)
    requires c.buf in own && NoneAt(log, ix, c.i)
    ensures Get(Serial(ts, log, m), c) == Get(m, c)
    ensures AllFollow(ts, log, m[c := v]) && Serial(ts, log, m[c := v]) == Serial(ts, log, m)[c := v]
  {
    if log != [] {
      var e := log[0];
      assert Known(ts, e) && e in log;
      var u, i := UpdateOf(ts, e), ix(e.t, e.k);
      TouchesOwn(u, e.h, m, i, own, m0, c);
      OutsideKept(u, e.h, m, i, own, m0);
      OtherCell(u, e.h, m, i, own, m0, c, v);
      OtherUpdates(ts, ix, own, m0, log[1..], MemAfter(u, e.h, m), c, v);
    }
  }

  /** One step of the update that holds the lock of its index: the log still tells what is in memory. */
  lemma LogStep(ts: Tasks, ix: Indices, own: set<string>, m0: Memory, log: seq<Entry>, n: nat)
    requires AllKnown(ts, log) && AllDisciplined(ts, ix, own, m0) && AllFollow(ts, log, m0) && n < |log|
    requires var u, i := UpdateOf(ts, log[n]), ix(log[n].t, log[n].k);
             (u(log[n].h) == Unlock(i) || Harmless(u(log[n].h), i, own)) && NoneAt(log[n + 1..], ix, i)
    ensures
      var a, mem := UpdateOf(ts, log[n])(log[n].h), Serial(ts, log, m0);
      var log' := log[n := log[n].(h := log[n].h + [Answer(a, mem)])];
      AllKnown(ts, log') && AllFollow(ts, log', m0) && Serial(ts, log', m0) == Effect(a, mem)
  {
    hide Serial, AllFollow, Disciplined, Follows, MemAfter;
    var e, pre, post := log[n], log[..n], log[n + 1..];
    assert Known(ts, e);
    var u, i, m := UpdateOf(ts, e), ix(e.t, e.k), Serial(ts, pre, m0);
    var a, mem := u(e.h), Serial(ts, log, m0);
    var e' := e.(h := e.h + [Answer(a, mem)]);
    assert log == pre + ([e] + post) && log[n := e'] == pre + ([e'] + post);
    SerialAppend(ts, pre, [e] + post, m0);
    SerialAppend(ts, pre, [e'] + post, m0);
    SerialOutside(ts, ix, own, m0, pre, m0);
    LogSplit(ts, e, post, m);
    LogSplit(ts, e', post, m);
    var mid := MemAfter(u, e.h, m);
    OutsideKept(u, e.h, m, i, own, m0);
    OneMore(u, e.h, Answer(a, mem), m);
    if a.Load? || a.Store? {
      if a.c.buf in own {
        OtherUpdates(ts, ix, own, m0, post, mid, a.c, if a.Store? then a.v else 0);
      } else {
        SerialOutside(ts, ix, own, m0, post, mid);
      }
    }
  }

  lemma LogSplit(ts: Tasks, e: Entry, post: seq<Entry>, m: Memory)
    requires Known(ts, e) && AllKnown(ts, post)
    ensures AllKnown(ts, [e] + post)
    ensures Serial(ts, [e] + post, m) == Serial(ts, post, MemAfter(UpdateOf(ts, e), e.h, m))
    ensures AllFollow(ts, [e] + post, m)
            <==> Follows(UpdateOf(ts, e), e.h, m) && AllFollow(ts, post, MemAfter(UpdateOf(ts, e), e.h, m))
  {
    var log := [e] + post;
    assert log[0] == e && log[1..] == post;
  }
}
