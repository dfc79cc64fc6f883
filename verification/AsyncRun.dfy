// A producer task and a consumer task that share a ring of storage and two
// kinds of semaphores, run in any interleaving (src/AsyncProducers.cpp).

module AsyncRuns {
  import opened Arith
  import opened AsyncStmts

  type Trace = seq<Event>
  type Memory = int -> Cells

  /** How far each task has come, the semaphores, the ring, and what the
      consumer has read. */
  datatype State = State(p: nat, c: nat, sema: string -> int, mem: Memory, log: seq<int>)

  predicate Enabled(e: Event, st: State) { e.Acq? ==> st.sema(e.sema) >= e.n }

  function Put(m: Memory, slot: int, f: Cells -> Cells): Memory {
    (s: int) => if s == slot then f(m(slot)) else m(s)
  }

  function AddTo(sema: string -> int, s: string, n: int): string -> int {
    (t: string) => if t == s then sema(t) + n else sema(t)
  }

  function Effect(e: Event, st: State): State {
    match e
    case Acq(s, n) => st.(sema := AddTo(st.sema, s, -n))
    case Rel(s) => st.(sema := AddTo(st.sema, s, 1))
    case Write(slot, f) => st.(mem := Put(st.mem, slot, f))
    case Read(slot, g) => st.(log := st.log + [g(st.mem(slot))])
  }

  /** One of the tasks does its next event. */
  ghost predicate Step(ps: Trace, cs: Trace, st: State, st': State) {
    || (st.p < |ps| && Enabled(ps[st.p], st) && st' == Effect(ps[st.p], st).(p := st.p + 1))
    || (st.c < |cs| && Enabled(cs[st.c], st) && st' == Effect(cs[st.c], st).(c := st.c + 1))
  }

  ghost predicate IsRun(ps: Trace, cs: Trace, start: State, run: seq<State>) {
    && run != [] && run[0] == start
    && forall i :: 0 <= i < |run| - 1 ==> Step(ps, cs, run[i], run[i + 1])
  }

  // ----- tasks made of one block of events for each iteration -----

  function Flat(bs: seq<Trace>): Trace { if bs == [] then [] else bs[0] + Flat(bs[1..]) }

  /** Acquired and released units of a semaphore. */
  function Acqs(t: Trace, s: string): int {
    if t == [] then 0 else (if t[0].Acq? && t[0].sema == s then t[0].n else 0) + Acqs(t[1..], s)
  }

  function Rels(t: Trace, s: string): nat {
    if t == [] then 0 else (if t[0] == Rel(s) then 1 else 0) + Rels(t[1..], s)
  }

  /** The ring, and the semaphores released once for each consume node. */
  datatype Semas = Semas(ring: string, tasks: seq<string>)

  ghost predicate SemasOk(q: Semas) { q.tasks != [] && q.ring !in q.tasks }

  /** Acquire the ring, write one slot, then release every task semaphore once. */
  ghost predicate ProducerBlock(b: Trace, slot: int, q: Semas) {
    && b != [] && b[0] == Acq(q.ring, 1)
    && (forall i :: 1 <= i < |b| ==> b[i].Write? || b[i].Rel?)
    && (forall i :: 0 <= i < |b| && b[i].Write? ==> b[i].slot == slot)
    && (forall i, j :: 0 <= i < j < |b| && b[i].Rel? ==> !b[j].Write?)
    && Rels(b, q.ring) == 0
    && (forall t :: t in q.tasks ==> Rels(b, t) == 1)
  }

  /** Acquire every task semaphore once, read the slot only after the first
      of them, and release the ring last. */
  ghost predicate ConsumerBlock(b: Trace, slot: int, q: Semas) {
    && b != [] && b[|b| - 1] == Rel(q.ring)
    && (forall i :: 0 <= i < |b| - 1 ==> b[i].Read? || b[i].Acq?)
    && (forall i :: 0 <= i < |b| && b[i].Acq? ==> b[i].sema in q.tasks && b[i].n == 1)
    && (forall i :: 0 <= i < |b| && b[i].Read? ==> b[i].slot == slot && exists j :: 0 <= j < i && b[j].Acq?)
    && (forall t :: t in q.tasks ==> Acqs(b, t) == 1)
  }

  /** The two tasks, iteration by iteration, with the slot each iteration uses. */
  ghost predicate Tasks(pb: seq<Trace>, cb: seq<Trace>, slots: seq<int>, q: Semas) {
    && SemasOk(q) && |pb| == |cb| == |slots|
    && (forall k :: 0 <= k < |slots| ==> ProducerBlock(pb[k], slots[k], q) && ConsumerBlock(cb[k], slots[k], q))
  }

  /** The ring may run two iterations ahead. */
  ghost predicate Initial(st: State, q: Semas) {
    st.p == st.c == 0 && st.log == [] && st.sema(q.ring) == 2 && forall t :: t in q.tasks ==> st.sema(t) == 0
  }

  // ----- where a task stands -----

  /** The iteration of position `p` and the place in it. */
  function Where(bs: seq<Trace>, p: nat): (nat, nat) {
    if bs == [] then (0, 0)
    else if p < |bs[0]| then (0, p)
    else
      var (k, o) := Where(bs[1..], p - |bs[0]|);
      (k + 1, o)
  }

  /** The part of its iteration that is done at position `p`. */
  function Part(bs: seq<Trace>, p: nat): Trace {
    var (k, o) := Where(bs, p);
    if k < |bs| && o <= |bs[k]| then bs[k][..o] else []
  }

  ghost predicate NonEmpty(bs: seq<Trace>) { forall k :: 0 <= k < |bs| ==> bs[k] != [] }

  lemma {:induction false} WhereMeaning(bs: seq<Trace>, p: nat)
    requires NonEmpty(bs) && p <= |Flat(bs)|
    ensures var (k, o) := Where(bs, p);
            && k <= |bs| && (k < |bs| ==> o < |bs[k]|) && (k == |bs| <==> p == |Flat(bs)|) && (k == |bs| ==> o == 0)
            && Flat(bs)[..p] == Flat(bs[..k]) + (if k < |bs| then bs[k][..o] else [])
            && (p < |Flat(bs)| ==> Flat(bs)[p] == bs[k][o])
  {
    if bs != [] {
      if p < |bs[0]| {
        assert bs[..0] == [];
        assert Flat(bs)[..p] == bs[0][..p];
      } else {
        WhereMeaning(bs[1..], p - |bs[0]|);
        var (k, o) := Where(bs[1..], p - |bs[0]|);
        assert bs[..k + 1] == [bs[0]] + bs[1..][..k];
        assert Flat(bs)[..p] == bs[0] + Flat(bs[1..])[..p - |bs[0]|];
      }
    }
  }

  lemma {:induction false} WhereNext(bs: seq<Trace>, p: nat)
    requires NonEmpty(bs) && p < |Flat(bs)|
    ensures var (k, o) := Where(bs, p);
            k < |bs| && Where(bs, p + 1) == if o + 1 < |bs[k]| then (k, o + 1) else (k + 1, 0)
  {
    if p < |bs[0]| {
      if p + 1 == |bs[0]| && bs[1..] != [] { assert bs[1..][0] != []; }
    } else {
      WhereNext(bs[1..], p - |bs[0]|);
    }
  }

  lemma {:induction false} CountsAppend(a: Trace, b: Trace, s: string)
    ensures Acqs(a + b, s) == Acqs(a, s) + Acqs(b, s) && Rels(a + b, s) == Rels(a, s) + Rels(b, s)
  {
    if a == [] { assert a + b == b; } else {
      assert (a + b)[1..] == a[1..] + b;
      CountsAppend(a[1..], b, s);
    }
  }

  lemma {:induction false} BlockCounts(bs: seq<Trace>, k: nat, s: string, acqs: int, rels: nat)
    requires k <= |bs| && forall j :: 0 <= j < |bs| ==> Acqs(bs[j], s) == acqs && Rels(bs[j], s) == rels
    ensures Acqs(Flat(bs[..k]), s) == k * acqs && Rels(Flat(bs[..k]), s) == k * rels
    decreases k
  {
    hide Acqs, Rels;
    if k == 0 {
      assert Flat(bs[..0]) == [];
      NoneCounted([], s);
    } else {
      AddMul(k - 1, 1, acqs);
      AddMul(k - 1, 1, rels);
      assert bs[..k] == [bs[0]] + bs[1..][..k - 1];
      BlockCounts(bs[1..], k - 1, s, acqs, rels);
      CountsAppend(bs[0], Flat(bs[1..][..k - 1]), s);
    }
  }

  // ----- counts in a block and in its parts -----

  lemma {:induction false} NoneCounted(t: Trace, s: string)
    ensures (forall i :: 0 <= i < |t| ==> !(t[i].Acq? && t[i].sema == s)) ==> Acqs(t, s) == 0
    ensures (forall i :: 0 <= i < |t| ==> t[i] != Rel(s)) ==> Rels(t, s) == 0
  {
    if t != [] { NoneCounted(t[1..], s); }
  }

  lemma PrefixCounts(b: Trace, o: nat, s: string)
    requires o <= |b|
    ensures Acqs(b, s) == Acqs(b[..o], s) + Acqs(b[o..], s) && Rels(b, s) == Rels(b[..o], s) + Rels(b[o..], s)
  {
    assert b == b[..o] + b[o..];
    CountsAppend(b[..o], b[o..], s);
  }

  /** What a producer has acquired and released part of the way through a block. */
  lemma ProducerCounts(b: Trace, slot: int, q: Semas, o: nat)
    requires SemasOk(q) && ProducerBlock(b, slot, q) && o <= |b|
    ensures Acqs(b[..o], q.ring) == (if o == 0 then 0 else 1) && Rels(b[..o], q.ring) == 0
    ensures forall t :: t in q.tasks ==> Acqs(b[..o], t) == 0 && 0 <= Rels(b[..o], t) <= 1
    ensures forall t :: t in q.tasks && Rels(b[..o], t) > 0 ==> forall i :: o <= i < |b| ==> !b[i].Write?
  {
    if o > 0 {
      assert b[..o][0] == b[0] && b[..o][1..] == b[1..o];
      NoneCounted(b[1..o], q.ring);
    }
    PrefixCounts(b, o, q.ring);
    forall t | t in q.tasks
      ensures Acqs(b[..o], t) == 0 && 0 <= Rels(b[..o], t) <= 1
      ensures Rels(b[..o], t) > 0 ==> forall i :: o <= i < |b| ==> !b[i].Write?
    {
      NoneCounted(b[..o], t);
      PrefixCounts(b, o, t);
    }
  }

  /** What a consumer has acquired and released part of the way through a block. */
  lemma ConsumerCounts(b: Trace, slot: int, q: Semas, o: nat)
    requires SemasOk(q) && ConsumerBlock(b, slot, q) && o <= |b|
    ensures Acqs(b[..o], q.ring) == 0 && Rels(b[..o], q.ring) == (if o == |b| then 1 else 0)
    ensures forall t :: t in q.tasks ==> 0 <= Acqs(b[..o], t) <= 1 && Rels(b[..o], t) == 0
    ensures forall i :: 0 <= i < o && b[i].Acq? ==> Acqs(b[..o], b[i].sema) == 1
    ensures forall i :: o <= i < |b| && b[i].Acq? ==> Acqs(b[..o], b[i].sema) == 0
  {
    NoneCounted(b[..o], q.ring);
    if o == |b| {
      var r := b[..|b| - 1];
      assert b[..o] == r + [Rel(q.ring)];
      NoneCounted(r, q.ring);
      CountsAppend(r, [Rel(q.ring)], q.ring);
    }
    forall t | t in q.tasks
      ensures 0 <= Acqs(b[..o], t) <= 1 && Rels(b[..o], t) == 0
      ensures forall i :: 0 <= i < o && b[i] == Acq(t, 1) ==> Acqs(b[..o], t) == 1
      ensures forall i :: o <= i < |b| && b[i] == Acq(t, 1) ==> Acqs(b[..o], t) == 0
    {
      NoneCounted(b[..o], t);
      PrefixCounts(b, o, t);
      UnitAcqs(b[..o], t);
      UnitAcqs(b[o..], t);
      forall i | 0 <= i < o && b[i] == Acq(t, 1) ensures Acqs(b[..o], t) == 1 { assert b[..o][i] == Acq(t, 1); }
      forall i | o <= i < |b| && b[i] == Acq(t, 1) ensures Acqs(b[..o], t) == 0 { assert b[o..][i - o] == Acq(t, 1); }
    }
  }

  lemma {:induction false} UnitAcqs(t: Trace, s: string)
    requires forall i :: 0 <= i < |t| && t[i].Acq? ==> t[i].n == 1
    ensures Acqs(t, s) >= 0 && ((exists i :: 0 <= i < |t| && t[i] == Acq(s, 1)) ==> Acqs(t, s) >= 1)
  {
    if t != [] { UnitAcqs(t[1..], s); }
  }

  // ----- the invariant -----

  ghost function Applied(t: Trace, m: Memory): Memory {
    if t == [] then m
    else Applied(t[1..], if t[0].Write? then Put(m, t[0].slot, t[0].f) else m)
  }

  function Reads(t: Trace, m: Memory): seq<int> {
    if t == [] then [] else (if t[0].Read? then [t[0].g(m(t[0].slot))] else []) + Reads(t[1..], m)
  }

  /** What the consumer reads when each iteration is produced and then consumed
      before the next one starts. */
  ghost function SequentialReads(pb: seq<Trace>, cb: seq<Trace>, m: Memory): seq<int>
    requires |pb| == |cb|
  {
    if pb == [] then []
    else
      var m1 := Applied(pb[0], m);
      Reads(cb[0], m1) + SequentialReads(pb[1..], cb[1..], m1)
  }

  /** What it has read sequentially when it stands at place `o` of iteration `k`. */
  ghost function ReadsAt(pb: seq<Trace>, cb: seq<Trace>, m: Memory, k: nat, o: nat): seq<int>
    requires k <= |cb| == |pb| && (k < |cb| ==> o <= |cb[k]|)
  {
    SequentialReads(pb[..k], cb[..k], m)
    + (if k < |cb| then Reads(cb[k][..o], Applied(Flat(pb[..k + 1]), m)) else [])
  }

  /** The semaphores by what was acquired and released so far. */
  ghost predicate SemasInv(ps: Trace, cs: Trace, q: Semas, start: State, st: State)
    requires st.p <= |ps| && st.c <= |cs|
  {
    forall s :: s == q.ring || s in q.tasks ==> SemaInv(ps, cs, start, st, s)
  }

  ghost predicate SemaInv(ps: Trace, cs: Trace, start: State, st: State, s: string)
    requires st.p <= |ps| && st.c <= |cs|
  {
    && st.sema(s) >= 0
    && st.sema(s) == start.sema(s) + Rels(ps[..st.p], s)
        + Rels(cs[..st.c], s) - Acqs(ps[..st.p], s) - Acqs(cs[..st.c], s)
  }

  /** The memory by what was written so far. */
  ghost predicate MemInv(ps: Trace, start: State, st: State)
    requires st.p <= |ps|
  {
    forall slot :: st.mem(slot) == Applied(ps[..st.p], start.mem)(slot)
  }

  /** The values read, as in the sequential order. */
  ghost predicate LogInv(pb: seq<Trace>, cb: seq<Trace>, start: State, st: State)
    requires |pb| == |cb|
  {
    var (k, o) := Where(cb, st.c);
    k <= |cb| && (k < |cb| ==> o < |cb[k]|) && st.log == ReadsAt(pb, cb, start.mem, k, o)
  }

  /** What needs nothing about the slots. */
  ghost predicate Counted(pb: seq<Trace>, cb: seq<Trace>, q: Semas, start: State, st: State) {
    st.p <= |Flat(pb)| && st.c <= |Flat(cb)| && SemasInv(Flat(pb), Flat(cb), q, start, st)
  }

  ghost predicate Inv(pb: seq<Trace>, cb: seq<Trace>, q: Semas, start: State, st: State) {
    |pb| == |cb| && Counted(pb, cb, q, start, st) && MemInv(Flat(pb), start, st) && LogInv(pb, cb, start, st)
  }

  lemma TasksNonEmpty(pb: seq<Trace>, cb: seq<Trace>, slots: seq<int>, q: Semas)
    requires Tasks(pb, cb, slots, q)
    ensures NonEmpty(pb) && NonEmpty(cb)
  {
    forall k | 0 <= k < |slots| ensures pb[k] != [] && cb[k] != [] {
      assert ProducerBlock(pb[k], slots[k], q) && ConsumerBlock(cb[k], slots[k], q);
    }
  }

  /** Counts at a position of a task. */
  lemma CountsAt(bs: seq<Trace>, p: nat, s: string, acqs: int, rels: nat)
    requires NonEmpty(bs) && p <= |Flat(bs)|
    requires forall j :: 0 <= j < |bs| ==> Acqs(bs[j], s) == acqs && Rels(bs[j], s) == rels
    ensures var (k, o) := Where(bs, p);
            && Acqs(Flat(bs)[..p], s) == k * acqs + Acqs(Part(bs, p), s)
            && Rels(Flat(bs)[..p], s) == k * rels + Rels(Part(bs, p), s)
  {
    WhereMeaning(bs, p);
    var (k, o) := Where(bs, p);
    BlockCounts(bs, k, s, acqs, rels);
    CountsAppend(Flat(bs[..k]), Part(bs, p), s);
  }

  /** Every producer block acquires the ring once and releases each task once;
      every consumer block the other way round. */
  lemma WholeBlocks(pb: seq<Trace>, cb: seq<Trace>, slots: seq<int>, q: Semas, t: string)
    requires Tasks(pb, cb, slots, q) && t in q.tasks
    ensures forall j :: 0 <= j < |pb| ==>
      Acqs(pb[j], q.ring) == 1 && Rels(pb[j], q.ring) == 0 && Acqs(pb[j], t) == 0 && Rels(pb[j], t) == 1
    ensures forall j :: 0 <= j < |cb| ==>
      Acqs(cb[j], q.ring) == 0 && Rels(cb[j], q.ring) == 1 && Acqs(cb[j], t) == 1 && Rels(cb[j], t) == 0
  {
    forall j | 0 <= j < |slots|
      ensures Acqs(pb[j], q.ring) == 1 && Rels(pb[j], q.ring) == 0 && Acqs(pb[j], t) == 0 && Rels(pb[j], t) == 1
      ensures Acqs(cb[j], q.ring) == 0 && Rels(cb[j], q.ring) == 1 && Acqs(cb[j], t) == 1 && Rels(cb[j], t) == 0
    {
      assert ProducerBlock(pb[j], slots[j], q) && ConsumerBlock(cb[j], slots[j], q);
      ProducerCounts(pb[j], slots[j], q, |pb[j]|);
      ConsumerCounts(cb[j], slots[j], q, |cb[j]|);
      assert pb[j][..|pb[j]|] == pb[j] && cb[j][..|cb[j]|] == cb[j];
    }
  }

  /** The semaphores in terms of where the two tasks stand: producer at place
      `o` of iteration `k`, consumer at place `o'` of iteration `k'`. */
  lemma SemasAt(pb: seq<Trace>, cb: seq<Trace>, slots: seq<int>, q: Semas, start: State, st: State, t: string)
    requires Tasks(pb, cb, slots, q) && Initial(start, q) && Counted(pb, cb, q, start, st) && t in q.tasks
    ensures var (k, o) := Where(pb, st.p);
            var (k', o') := Where(cb, st.c);
            && st.sema(q.ring) == 2 - k - (if k < |pb| && o > 0 then 1 else 0) + k' >= 0
            && st.sema(t) == k + Rels(Part(pb, st.p), t) - k' - Acqs(Part(cb, st.c), t) >= 0
  {
    TasksNonEmpty(pb, cb, slots, q);
    WholeBlocks(pb, cb, slots, q, t);
    assert SemaInv(Flat(pb), Flat(cb), start, st, q.ring) && SemaInv(Flat(pb), Flat(cb), start, st, t);
    WhereMeaning(pb, st.p);
    WhereMeaning(cb, st.c);
    CountsAt(pb, st.p, q.ring, 1, 0);
    CountsAt(pb, st.p, t, 0, 1);
    CountsAt(cb, st.c, q.ring, 0, 1);
    CountsAt(cb, st.c, t, 1, 0);
    var (k, o) := Where(pb, st.p);
    var (k', o') := Where(cb, st.c);
    if k < |pb| { assert ProducerBlock(pb[k], slots[k], q); ProducerCounts(pb[k], slots[k], q, o); }
    if k' < |cb| { assert ConsumerBlock(cb[k'], slots[k'], q); ConsumerCounts(cb[k'], slots[k'], q, o'); }
  }

  /** Once the consumer has passed an acquire of iteration `k'`, that iteration
      has been written; and the producer is at most beginning iteration `k' + 2`. */
  lemma ReaderIsSafe(pb: seq<Trace>, cb: seq<Trace>, slots: seq<int>, q: Semas, start: State, st: State, j: nat)
    requires Tasks(pb, cb, slots, q) && Initial(start, q) && Counted(pb, cb, q, start, st)
    requires var (k', o') := Where(cb, st.c); k' < |cb| && j < o' <= |cb[k']| && cb[k'][j].Acq?
    ensures ReaderMayRun(pb, st.p, Where(cb, st.c).0)
  {
    var (k, o) := Where(pb, st.p);
    var (k', o') := Where(cb, st.c);
    TasksNonEmpty(pb, cb, slots, q);
    WhereMeaning(pb, st.p);
    assert ConsumerBlock(cb[k'], slots[k'], q);
    var t := cb[k'][j].sema;
    SemasAt(pb, cb, slots, q, start, st, t);
    ConsumerCounts(cb[k'], slots[k'], q, o');
    if k < |pb| {
      assert ProducerBlock(pb[k], slots[k], q);
      ProducerCounts(pb[k], slots[k], q, o);
    }
  }

  // ----- memory -----

  lemma {:induction false} AppliedAppend(a: Trace, b: Trace, m: Memory)
    ensures Applied(a + b, m) == Applied(b, Applied(a, m))
  {
    if a == [] { assert a + b == b; } else {
      assert (a + b)[1..] == a[1..] + b;
      AppliedAppend(a[1..], b, if a[0].Write? then Put(m, a[0].slot, a[0].f) else m);
    }
  }

  /** Writes elsewhere do not touch a slot. */
  lemma {:induction false} AppliedElsewhere(t: Trace, m: Memory, slot: int)
    requires forall i :: 0 <= i < |t| && t[i].Write? ==> t[i].slot != slot
    ensures Applied(t, m)(slot) == m(slot)
  {
    if t != [] { AppliedElsewhere(t[1..], if t[0].Write? then Put(m, t[0].slot, t[0].f) else m, slot); }
  }

  lemma {:induction false} FlatSnoc(bs: seq<Trace>, k: nat)
    requires k < |bs|
    ensures Flat(bs[..k + 1]) == Flat(bs[..k]) + bs[k]
    decreases k
  {
    if k == 0 {
      assert bs[..1] == [bs[0]] && bs[..0] == [];
    } else {
      FlatSnoc(bs[1..], k - 1);
      assert bs[..k + 1] == [bs[0]] + bs[1..][..k] && bs[..k] == [bs[0]] + bs[1..][..k - 1];
    }
  }

  ghost predicate HasWrite(t: Trace) { exists i :: 0 <= i < |t| && t[i].Write? }
  ghost predicate HasRead(t: Trace) { exists i :: 0 <= i < |t| && t[i].Read? }

  /** Where an iteration reads and the next one writes, they use different slots. */
  ghost predicate Alternates(pb: seq<Trace>, cb: seq<Trace>, slots: seq<int>)
    requires |pb| == |cb| == |slots|
  {
    forall k :: 0 <= k < |slots| - 1 && HasRead(cb[k]) && HasWrite(pb[k + 1]) ==> slots[k] != slots[k + 1]
  }

  /** Where a reader of iteration `k'` may run, its slot holds what iteration `k'` left in it. */
  lemma SlotIsComplete(pb: seq<Trace>, cb: seq<Trace>, slots: seq<int>, q: Semas, m: Memory, p: nat, k': nat)
    requires Tasks(pb, cb, slots, q) && Alternates(pb, cb, slots) && p <= |Flat(pb)| && k' < |pb| && HasRead(cb[k'])
    requires ReaderMayRun(pb, p, k')
    ensures Applied(Flat(pb)[..p], m)(slots[k']) == Applied(Flat(pb[..k' + 1]), m)(slots[k'])
  {
    var (k, o) := Where(pb, p);
    TasksNonEmpty(pb, cb, slots, q);
    WhereMeaning(pb, p);
    FlatSnoc(pb, k');
    if k == k' {
      SplitBlock(Flat(pb[..k]), pb[k], o);
      Untouched(Flat(pb)[..p], pb[k][o..], m, slots[k']);
    } else if k' + 1 < |pb| {
      FlatSnoc(pb, k' + 1);
      assert ProducerBlock(pb[k' + 1], slots[k' + 1], q);
      assert HasWrite(pb[k' + 1]) ==> slots[k'] != slots[k' + 1];
      Untouched(Flat(pb[..k' + 1]), if k == k' + 1 then pb[k][..o] else pb[k' + 1], m, slots[k']);
      WholeOrPart(pb, p, k');
    } else {
      assert Flat(pb)[..p] == Flat(pb[..k' + 1]);
    }
  }

  /** Either the iteration has been written, and the next one may have been. */
  ghost predicate ReaderMayRun(pb: seq<Trace>, p: nat, k': nat) {
    var (k, o) := Where(pb, p);
    || (k == k' && k < |pb| && forall i :: o <= i < |pb[k]| ==> !pb[k][i].Write?)
    || k == k' + 1
    || (k == k' + 2 && o == 0)
  }

  lemma SplitBlock(a: Trace, b: Trace, o: nat)
    requires o <= |b|
    ensures a + b == (a + b[..o]) + b[o..]
  {}

  lemma Untouched(a: Trace, b: Trace, m: Memory, slot: int)
    requires forall i :: 0 <= i < |b| && b[i].Write? ==> b[i].slot != slot
    ensures Applied(a + b, m)(slot) == Applied(a, m)(slot)
  {
    AppliedAppend(a, b, m);
    AppliedElsewhere(b, Applied(a, m), slot);
  }

  lemma WholeOrPart(pb: seq<Trace>, p: nat, k': nat)
    requires NonEmpty(pb) && p <= |Flat(pb)| && k' + 1 < |pb|
    ensures var (k, o) := Where(pb, p);
            && (k == k' + 1 ==> o <= |pb[k]| && Flat(pb)[..p] == Flat(pb[..k' + 1]) + pb[k][..o])
            && (k == k' + 2 && o == 0 ==> Flat(pb)[..p] == Flat(pb[..k' + 1]) + pb[k' + 1])
  {
    WhereMeaning(pb, p);
    var (k, o) := Where(pb, p);
    if k == k' + 2 && o == 0 {
      FlatSnoc(pb, k' + 1);
      assert Flat(pb)[..p] == Flat(pb[..k]) + [];
    }
  }

  // ----- steps keep the invariant -----

  lemma {:induction false} ReadsAppend(a: Trace, b: Trace, m: Memory)
    ensures Reads(a + b, m) == Reads(a, m) + Reads(b, m)
  {
    if a == [] { assert a + b == b; } else {
      assert (a + b)[0] == a[0] && (a + b)[1..] == a[1..] + b;
      ReadsAppend(a[1..], b, m);
      var head := if a[0].Read? then [a[0].g(m(a[0].slot))] else [];
      assert head + (Reads(a[1..], m) + Reads(b, m)) == (head + Reads(a[1..], m)) + Reads(b, m);
    }
  }

  lemma {:induction false} SequentialSnoc(pb: seq<Trace>, cb: seq<Trace>, m: Memory, k: nat)
    requires k < |pb| == |cb|
    ensures SequentialReads(pb[..k + 1], cb[..k + 1], m)
            == SequentialReads(pb[..k], cb[..k], m) + Reads(cb[k], Applied(Flat(pb[..k + 1]), m))
    decreases k
  {
    hide Applied, Reads;
    if k == 0 {
      assert pb[..1] == [pb[0]] && cb[..1] == [cb[0]] && pb[..0] == [] && cb[..0] == [];
      assert Flat([pb[0]]) == pb[0];
    } else {
      var m1 := Applied(pb[0], m);
      var p, c := pb[1..], cb[1..];
      SequentialSnoc(p, c, m1, k - 1);
      SequentialFirst(pb, cb, m, k);
      SequentialFirst(pb, cb, m, k + 1);
      assert pb[..k + 1] == [pb[0]] + p[..k];
      AppliedAppend(pb[0], Flat(p[..k]), m);
      var a, b, d := Reads(cb[0], m1), SequentialReads(p[..k - 1], c[..k - 1], m1),
          Reads(cb[k], Applied(Flat(p[..k]), m1));
      assert a + (b + d) == (a + b) + d;
    }
  }

  lemma SequentialFirst(pb: seq<Trace>, cb: seq<Trace>, m: Memory, k: nat)
    requires 0 < k <= |pb| == |cb|
    ensures SequentialReads(pb[..k], cb[..k], m)
            == Reads(cb[0], Applied(pb[0], m)) + SequentialReads(pb[1..][..k - 1], cb[1..][..k - 1], Applied(pb[0], m))
  {
    hide Applied, Reads;
    assert pb[..k][1..] == pb[1..][..k - 1] && cb[..k][1..] == cb[1..][..k - 1];
  }

  /** The sequential values read grow by the next event's. */
  lemma ReadsNext(pb: seq<Trace>, cb: seq<Trace>, m: Memory, c: nat)
    requires |pb| == |cb| && NonEmpty(cb) && c < |Flat(cb)|
    ensures var (k, o) := Where(cb, c);
            var (k1, o1) := Where(cb, c + 1);
            && k < |cb| && o < |cb[k]| && k1 <= |cb| && (k1 < |cb| ==> o1 < |cb[k1]|)
            && ReadsAt(pb, cb, m, k1, o1) == ReadsAt(pb, cb, m, k, o) + Reads([cb[k][o]], Applied(Flat(pb[..k + 1]), m))
  {
    hide Where, Applied, Reads, SequentialReads;
    var (k, o) := Where(cb, c);
    WhereMeaning(cb, c);
    WhereMeaning(cb, c + 1);
    WhereNext(cb, c);
    ReadsInBlock(pb, cb, m, k, o);
    if o + 1 == |cb[k]| { ReadsBlockDone(pb, cb, m, k); }
  }

  lemma ReadsInBlock(pb: seq<Trace>, cb: seq<Trace>, m: Memory, k: nat, o: nat)
    requires |pb| == |cb| && k < |cb| && o < |cb[k]|
    ensures ReadsAt(pb, cb, m, k, o + 1) == ReadsAt(pb, cb, m, k, o) + Reads([cb[k][o]], Applied(Flat(pb[..k + 1]), m))
  {
    hide Applied, Reads, SequentialReads;
    var m1 := Applied(Flat(pb[..k + 1]), m);
    assert cb[k][..o + 1] == cb[k][..o] + [cb[k][o]];
    ReadsAppend(cb[k][..o], [cb[k][o]], m1);
  }

  /** The end of a block is the beginning of the next one. */
  lemma ReadsBlockDone(pb: seq<Trace>, cb: seq<Trace>, m: Memory, k: nat)
    requires |pb| == |cb| && k < |cb|
    ensures ReadsAt(pb, cb, m, k + 1, 0) == ReadsAt(pb, cb, m, k, |cb[k]|)
  {
    hide Applied, SequentialReads;
    assert cb[k][..|cb[k]|] == cb[k];
    SequentialSnoc(pb, cb, m, k);
    if k + 1 < |cb| { assert cb[k + 1][..0] == []; }
  }

  lemma CountsNext(t: Trace, p: nat, s: string)
    requires p < |t|
    ensures Acqs(t[..p + 1], s) == Acqs(t[..p], s) + (if t[p].Acq? && t[p].sema == s then t[p].n else 0)
    ensures Rels(t[..p + 1], s) == Rels(t[..p], s) + (if t[p] == Rel(s) then 1 else 0)
  {
    assert t[..p + 1] == t[..p] + [t[p]];
    CountsAppend(t[..p], [t[p]], s);
    assert [t[p]][1..] == [];
  }

  lemma SemasStep(ps: Trace, cs: Trace, q: Semas, start: State, st: State, st': State)
    requires st.p <= |ps| && st.c <= |cs| && SemasInv(ps, cs, q, start, st)
    requires
      || (st.p < |ps| && Enabled(ps[st.p], st) && st'.sema == Effect(ps[st.p], st).sema
          && st'.p == st.p + 1 && st'.c == st.c)
      || (st.c < |cs| && Enabled(cs[st.c], st) && st'.sema == Effect(cs[st.c], st).sema
          && st'.c == st.c + 1 && st'.p == st.p)
    ensures SemasInv(ps, cs, q, start, st')
  {
    forall s | s == q.ring || s in q.tasks ensures SemaInv(ps, cs, start, st', s) {
      assert SemaInv(ps, cs, start, st, s);
      if st'.p > st.p { CountsNext(ps, st.p, s); } else { CountsNext(cs, st.c, s); }
    }
  }

  lemma MemStep(ps: Trace, start: State, st: State)
    requires st.p < |ps| && MemInv(ps, start, st)
    ensures MemInv(ps, start, Effect(ps[st.p], st).(p := st.p + 1))
  {
    hide Applied;
    assert ps[..st.p + 1] == ps[..st.p] + [ps[st.p]];
    AppliedAppend(ps[..st.p], [ps[st.p]], start.mem);
    OneApplied(ps[st.p], Applied(ps[..st.p], start.mem));
  }

  lemma OneApplied(e: Event, m: Memory)
    ensures Applied([e], m) == if e.Write? then Put(m, e.slot, e.f) else m
  {
    assert [e][1..] == [];
  }

  lemma ProducerStep(pb: seq<Trace>, cb: seq<Trace>, slots: seq<int>, q: Semas, start: State, st: State)
    requires Tasks(pb, cb, slots, q) && Inv(pb, cb, q, start, st)
    requires st.p < |Flat(pb)| && Enabled(Flat(pb)[st.p], st)
    ensures Inv(pb, cb, q, start, Effect(Flat(pb)[st.p], st).(p := st.p + 1))
  {
    hide SemasInv, MemInv, ReadsAt, Enabled;
    TasksNonEmpty(pb, cb, slots, q);
    WhereMeaning(pb, st.p);
    assert ProducerBlock(pb[Where(pb, st.p).0], slots[Where(pb, st.p).0], q);
    assert !Flat(pb)[st.p].Read?;
    SemasStep(Flat(pb), Flat(cb), q, start, st, Effect(Flat(pb)[st.p], st).(p := st.p + 1));
    MemStep(Flat(pb), start, st);
  }

  lemma ConsumerStep(pb: seq<Trace>, cb: seq<Trace>, slots: seq<int>, q: Semas, start: State, st: State)
    requires Tasks(pb, cb, slots, q) && Alternates(pb, cb, slots) && Initial(start, q) && Inv(pb, cb, q, start, st)
    requires st.c < |Flat(cb)| && Enabled(Flat(cb)[st.c], st)
    ensures Inv(pb, cb, q, start, Effect(Flat(cb)[st.c], st).(c := st.c + 1))
  {
    hide SemasInv, Enabled, Tasks, Alternates, Initial, Applied, Where, ReadsAt, Flat;
    var st' := Effect(Flat(cb)[st.c], st).(c := st.c + 1);
    SemasStep(Flat(pb), Flat(cb), q, start, st, st');
    NotAWrite(pb, cb, slots, q, st.c);
    LogStep(pb, cb, slots, q, start, st);
  }

  lemma NotAWrite(pb: seq<Trace>, cb: seq<Trace>, slots: seq<int>, q: Semas, c: nat)
    requires Tasks(pb, cb, slots, q) && c < |Flat(cb)|
    ensures !Flat(cb)[c].Write?
  {
    TasksNonEmpty(pb, cb, slots, q);
    WhereMeaning(cb, c);
    assert ConsumerBlock(cb[Where(cb, c).0], slots[Where(cb, c).0], q);
  }

  lemma LogStep(pb: seq<Trace>, cb: seq<Trace>, slots: seq<int>, q: Semas, start: State, st: State)
    requires Tasks(pb, cb, slots, q) && Alternates(pb, cb, slots) && Initial(start, q) && Inv(pb, cb, q, start, st)
    requires st.c < |Flat(cb)|
    ensures LogInv(pb, cb, start, Effect(Flat(cb)[st.c], st).(c := st.c + 1))
  {
    hide SemasInv, Enabled, Tasks, Alternates, Initial, Applied, ReadsAt, MemInv, Where, Flat, Reads, NonEmpty;
    TasksNonEmpty(pb, cb, slots, q);
    WhereMeaning(cb, st.c);
    ReadsNext(pb, cb, start.mem, st.c);
    var (k, o) := Where(cb, st.c);
    OneRead(cb[k][o], Applied(Flat(pb[..k + 1]), start.mem));
    if cb[k][o].Read? { ReadIsSequential(pb, cb, slots, q, start, st); }
  }

  lemma OneRead(e: Event, m: Memory)
    ensures Reads([e], m) == if e.Read? then [e.g(m(e.slot))] else []
  {
    assert [e][1..] == [];
  }

  /** The next value the consumer reads is the one it would read sequentially. */
  lemma ReadIsSequential(pb: seq<Trace>, cb: seq<Trace>, slots: seq<int>, q: Semas, start: State, st: State)
    requires Tasks(pb, cb, slots, q) && Alternates(pb, cb, slots) && Initial(start, q) && Inv(pb, cb, q, start, st)
    requires st.c < |Flat(cb)| && Flat(cb)[st.c].Read?
    ensures var (k, o) := Where(cb, st.c);
            k < |cb| && o < |cb[k]| && cb[k][o] == Flat(cb)[st.c] && cb[k][o].slot == slots[k]
            && st.mem(slots[k]) == Applied(Flat(pb[..k + 1]), start.mem)(slots[k])
  {
    TasksNonEmpty(pb, cb, slots, q);
    WhereMeaning(cb, st.c);
    var (k, o) := Where(cb, st.c);
    assert ConsumerBlock(cb[k], slots[k], q);
    var j :| 0 <= j < o && cb[k][j].Acq?;
    ReaderIsSafe(pb, cb, slots, q, start, st, j);
    SlotIsComplete(pb, cb, slots, q, start.mem, st.p, k);
  }

  lemma StartInv(pb: seq<Trace>, cb: seq<Trace>, slots: seq<int>, q: Semas, start: State)
    requires Tasks(pb, cb, slots, q) && Initial(start, q)
    ensures Inv(pb, cb, q, start, start)
  {
    TasksNonEmpty(pb, cb, slots, q);
    WhereMeaning(cb, 0);
    var (k, o) := Where(cb, 0);
    assert k == 0 && o == 0 by { if cb != [] { assert cb[0] != []; } }
    assert Flat(pb)[..0] == [] && Flat(cb)[..0] == [] && pb[..0] == [] && cb[..0] == [];
    if cb != [] { assert cb[0][..0] == []; }
  }

  // ----- every run -----

  lemma StartCounted(pb: seq<Trace>, cb: seq<Trace>, q: Semas, start: State)
    requires Initial(start, q)
    ensures Counted(pb, cb, q, start, start)
  {
    assert Flat(pb)[..0] == [] && Flat(cb)[..0] == [];
  }

  lemma {:induction false} RunCounted(pb: seq<Trace>, cb: seq<Trace>, q: Semas, start: State, run: seq<State>, i: nat)
    requires Initial(start, q) && IsRun(Flat(pb), Flat(cb), start, run) && i < |run|
    ensures Counted(pb, cb, q, start, run[i])
  {
    if i == 0 {
      StartCounted(pb, cb, q, start);
    } else {
      RunCounted(pb, cb, q, start, run, i - 1);
      assert Step(Flat(pb), Flat(cb), run[i - 1], run[i - 1 + 1]);
      SemasStep(Flat(pb), Flat(cb), q, start, run[i - 1], run[i]);
    }
  }

  lemma {:induction false} RunInv(pb: seq<Trace>, cb: seq<Trace>, slots: seq<int>, q: Semas,
      start: State, run: seq<State>, i: nat)
    requires Tasks(pb, cb, slots, q) && Alternates(pb, cb, slots) && Initial(start, q)
    requires IsRun(Flat(pb), Flat(cb), start, run) && i < |run|
    ensures Inv(pb, cb, q, start, run[i])
  {
    hide Inv, Tasks, Alternates, Initial, Effect, Enabled;
    if i == 0 {
      StartInv(pb, cb, slots, q, start);
    } else {
      RunInv(pb, cb, slots, q, start, run, i - 1);
      var st, st' := run[i - 1], run[i];
      assert Step(Flat(pb), Flat(cb), run[i - 1], run[i - 1 + 1]);
      if st.p < |Flat(pb)| && Enabled(Flat(pb)[st.p], st) { ProducerStep(pb, cb, slots, q, start, st); }
      if st.c < |Flat(cb)| && Enabled(Flat(cb)[st.c], st) { ConsumerStep(pb, cb, slots, q, start, st); }
    }
  }

  /** Whenever the consumer has finished, in any interleaving, it has read
      exactly the values of the sequential run. */
  lemma ConsumerReadsSequentially(pb: seq<Trace>, cb: seq<Trace>, slots: seq<int>, q: Semas,
      start: State, run: seq<State>)
    requires Tasks(pb, cb, slots, q) && Alternates(pb, cb, slots) && Initial(start, q)
    requires IsRun(Flat(pb), Flat(cb), start, run)
    ensures var last := run[|run| - 1];
            last.c == |Flat(cb)| ==> last.log == SequentialReads(pb, cb, start.mem)
  {
    var last := run[|run| - 1];
    RunInv(pb, cb, slots, q, start, run, |run| - 1);
    TasksNonEmpty(pb, cb, slots, q);
    WhereMeaning(cb, last.c);
    assert pb[..|pb|] == pb && cb[..|cb|] == cb;
  }

  /** A read and a write of the same slot are both next. */
  ghost predicate Race(ps: Trace, cs: Trace, st: State) {
    st.p < |ps| && st.c < |cs| && ps[st.p].Write? && cs[st.c].Read? && ps[st.p].slot == cs[st.c].slot
  }

  /** The consumer is in a round that reads, past one of its acquires. */
  ghost predicate Reading(cb: seq<Trace>, c: nat) {
    var (k, o) := Where(cb, c);
    k < |cb| && HasRead(cb[k]) && exists j :: 0 <= j < o <= |cb[k]| && cb[k][j].Acq?
  }

  /** From its first acquire until the end of its round the consumer has the
      slot to itself: the producer's next event is no write to it. */
  lemma NoWriteWhileReading(pb: seq<Trace>, cb: seq<Trace>, slots: seq<int>, q: Semas, start: State, run: seq<State>)
    requires Tasks(pb, cb, slots, q) && Alternates(pb, cb, slots) && Initial(start, q)
    requires IsRun(Flat(pb), Flat(cb), start, run)
    ensures
      var ps, st := Flat(pb), run[|run| - 1];
      Reading(cb, st.c) && st.p < |ps| && ps[st.p].Write? ==> ps[st.p].slot != slots[Where(cb, st.c).0]
  {
    var ps, st := Flat(pb), run[|run| - 1];
    if Reading(cb, st.c) && st.p < |ps| && ps[st.p].Write? {
      RunCounted(pb, cb, q, start, run, |run| - 1);
      TasksNonEmpty(pb, cb, slots, q);
      WhereMeaning(pb, st.p);
      var (k, o) := Where(pb, st.p);
      var (k', o') := Where(cb, st.c);
      assert ProducerBlock(pb[k], slots[k], q);
      var j :| 0 <= j < o' <= |cb[k']| && cb[k'][j].Acq?;
      ReaderIsSafe(pb, cb, slots, q, start, st, j);
    }
  }

  /** No slot is written at the moment it is read, and reading starts only
      after the writing has ended. */
  lemma NoOverwrite(pb: seq<Trace>, cb: seq<Trace>, slots: seq<int>, q: Semas, start: State, run: seq<State>)
    requires Tasks(pb, cb, slots, q) && Alternates(pb, cb, slots) && Initial(start, q)
    requires IsRun(Flat(pb), Flat(cb), start, run)
    ensures !Race(Flat(pb), Flat(cb), run[|run| - 1])
  {
    var ps, cs, st := Flat(pb), Flat(cb), run[|run| - 1];
    if Race(ps, cs, st) {
      TasksNonEmpty(pb, cb, slots, q);
      WhereMeaning(cb, st.c);
      var (k', o') := Where(cb, st.c);
      assert ConsumerBlock(cb[k'], slots[k'], q);
      NoWriteWhileReading(pb, cb, slots, q, start, run);
    }
  }

  lemma StepProgress(pb: seq<Trace>, cb: seq<Trace>, slots: seq<int>, q: Semas, start: State, st: State)
    requires Tasks(pb, cb, slots, q) && Initial(start, q) && Counted(pb, cb, q, start, st)
    ensures var (k, o) := Where(pb, st.p);
            var (k', o') := Where(cb, st.c);
            && (st.p < |Flat(pb)| && (o > 0 || k < k' + 2) ==> Enabled(Flat(pb)[st.p], st))
            && (st.c < |Flat(cb)| && k' < k ==> Enabled(Flat(cb)[st.c], st))
  {
    TasksNonEmpty(pb, cb, slots, q);
    WhereMeaning(pb, st.p);
    WhereMeaning(cb, st.c);
    var (k, o) := Where(pb, st.p);
    var (k', o') := Where(cb, st.c);
    if k < |pb| {
      assert ProducerBlock(pb[k], slots[k], q);
      SemasAt(pb, cb, slots, q, start, st, q.tasks[0]);
    }
    if k' < |cb| && k' < k {
      assert ConsumerBlock(cb[k'], slots[k'], q);
      var t := if cb[k'][o'].Acq? then cb[k'][o'].sema else q.tasks[0];
      SemasAt(pb, cb, slots, q, start, st, t);
      ConsumerCounts(cb[k'], slots[k'], q, o');
    }
  }

  /** Until both tasks have finished, one of them can go on. */
  lemma Progress(pb: seq<Trace>, cb: seq<Trace>, slots: seq<int>, q: Semas, start: State, run: seq<State>)
    requires Tasks(pb, cb, slots, q) && Initial(start, q) && IsRun(Flat(pb), Flat(cb), start, run)
    ensures var ps, cs, st := Flat(pb), Flat(cb), run[|run| - 1];
            (st.p == |ps| && st.c == |cs|)
            || (st.p < |ps| && Enabled(ps[st.p], st)) || (st.c < |cs| && Enabled(cs[st.c], st))
  {
    var st := run[|run| - 1];
    RunCounted(pb, cb, q, start, run, |run| - 1);
    TasksNonEmpty(pb, cb, slots, q);
    WhereMeaning(pb, st.p);
    WhereMeaning(cb, st.c);
    StepProgress(pb, cb, slots, q, start, st);
  }

  // ----- the condition on slots is exact -----

  lemma {:induction false} WhereMonotone(bs: seq<Trace>, p: nat, p': nat)
    requires p <= p' <= |Flat(bs)|
    ensures Where(bs, p).0 <= Where(bs, p').0
  {
    if bs != [] && p >= |bs[0]| { WhereMonotone(bs[1..], p - |bs[0]|, p' - |bs[0]|); }
  }

  lemma ExtendRun(ps: Trace, cs: Trace, start: State, run: seq<State>, st': State)
    requires IsRun(ps, cs, start, run) && Step(ps, cs, run[|run| - 1], st')
    ensures IsRun(ps, cs, start, run + [st'])
  {
    hide Step;
    var r := run + [st'];
    forall i | 0 <= i < |r| - 1 ensures Step(ps, cs, r[i], r[i + 1]) {
      assert r[i] == run[i];
      if i + 1 < |run| { assert r[i + 1] == run[i + 1]; }
    }
  }

  /** A place is reached where the producer stands in the iteration after the consumer's. */
  lemma {:induction false} Reachable(pb: seq<Trace>, cb: seq<Trace>, slots: seq<int>, q: Semas, start: State,
                                     run: seq<State>, p: nat, c: nat) returns (r: seq<State>)
    requires run != [] && Tasks(pb, cb, slots, q) && Initial(start, q) && IsRun(Flat(pb), Flat(cb), start, run)
    requires run[|run| - 1].p <= p < |Flat(pb)| && run[|run| - 1].c <= c < |Flat(cb)|
    requires Where(pb, p).0 == Where(cb, c).0 + 1
    ensures r != [] && IsRun(Flat(pb), Flat(cb), start, r) && r[|r| - 1].p == p && r[|r| - 1].c == c
    decreases p - run[|run| - 1].p + c - run[|run| - 1].c
  {
    hide Tasks, Initial, IsRun, Where, Flat, Counted;
    var st := run[|run| - 1];
    if st.p == p && st.c == c { return run; }
    RunCounted(pb, cb, q, start, run, |run| - 1);
    StepProgress(pb, cb, slots, q, start, st);
    WhereMonotone(pb, st.p, p);
    WhereMonotone(cb, st.c, c);
    var producer := st.p < p && (Where(pb, st.p).1 > 0 || Where(pb, st.p).0 < Where(cb, st.c).0 + 2);
    if !producer { ConsumerIsBehind(pb, cb, st.p, st.c, p, c); }
    var e := if producer then Flat(pb)[st.p] else Flat(cb)[st.c];
    var st' := if producer then Effect(e, st).(p := st.p + 1) else Effect(e, st).(c := st.c + 1);
    assert st'.p <= p && st'.c <= c;
    assert Step(Flat(pb), Flat(cb), st, st');
    ExtendRun(Flat(pb), Flat(cb), start, run, st');
    r := Reachable(pb, cb, slots, q, start, run + [st'], p, c);
  }

  lemma ConsumerIsBehind(pb: seq<Trace>, cb: seq<Trace>, p0: nat, c0: nat, p: nat, c: nat)
    requires p0 <= p && c0 <= c && !(p0 == p && c0 == c)
    requires Where(pb, p0).0 <= Where(pb, p).0 == Where(cb, c).0 + 1 && Where(cb, c0).0 <= Where(cb, c).0
    requires !(p0 < p && (Where(pb, p0).1 > 0 || Where(pb, p0).0 < Where(cb, c0).0 + 2))
    ensures c0 < c && Where(cb, c0).0 < Where(pb, p0).0
  {}

  /** The position of a place of an iteration. */
  lemma {:induction false} PlaceOf(bs: seq<Trace>, k: nat, o: nat) returns (p: nat)
    requires NonEmpty(bs) && k < |bs| && o < |bs[k]|
    ensures p < |Flat(bs)| && Where(bs, p) == (k, o) && Flat(bs)[p] == bs[k][o]
  {
    if k == 0 { p := o; } else {
      var p1 := PlaceOf(bs[1..], k - 1, o);
      p := |bs[0]| + p1;
    }
  }

  /** A race, where an iteration reads the slot that the next one writes. */
  lemma FindRace(pb: seq<Trace>, cb: seq<Trace>, slots: seq<int>, q: Semas, start: State) returns (run: seq<State>)
    requires Tasks(pb, cb, slots, q) && Initial(start, q) && !Alternates(pb, cb, slots)
    ensures IsRun(Flat(pb), Flat(cb), start, run) && Race(Flat(pb), Flat(cb), run[|run| - 1])
  {
    hide Where, Flat, SemasOk;
    var k :| 0 <= k < |slots| - 1 && HasRead(cb[k]) && HasWrite(pb[k + 1]) && slots[k] == slots[k + 1];
    var o :| 0 <= o < |pb[k + 1]| && pb[k + 1][o].Write?;
    var o' :| 0 <= o' < |cb[k]| && cb[k][o'].Read?;
    TasksNonEmpty(pb, cb, slots, q);
    assert ProducerBlock(pb[k + 1], slots[k + 1], q) && ConsumerBlock(cb[k], slots[k], q);
    var p := PlaceOf(pb, k + 1, o);
    var c := PlaceOf(cb, k, o');
    assert IsRun(Flat(pb), Flat(cb), start, [start]);
    run := Reachable(pb, cb, slots, q, start, [start], p, c);
  }

  /** Some interleaving has a race just when some iteration reads the slot that
      the next one writes. */
  lemma RaceExactly(pb: seq<Trace>, cb: seq<Trace>, slots: seq<int>, q: Semas, start: State)
    requires Tasks(pb, cb, slots, q) && Initial(start, q)
    ensures (exists run :: IsRun(Flat(pb), Flat(cb), start, run) && Race(Flat(pb), Flat(cb), run[|run| - 1]))
            <==> !Alternates(pb, cb, slots)
  {
    hide Alternates, Race, ProducerBlock, ConsumerBlock;
    if Alternates(pb, cb, slots) {
      forall run | IsRun(Flat(pb), Flat(cb), start, run) ensures !Race(Flat(pb), Flat(cb), run[|run| - 1]) {
        NoOverwrite(pb, cb, slots, q, start, run);
      }
    } else {
      var run := FindRace(pb, cb, slots, q, start);
    }
  }
}
