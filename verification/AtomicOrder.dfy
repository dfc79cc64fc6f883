// Updates that combine values into the elements at an index leave the same memory in whatever
// order they lock, if the order in which values are combined does not matter.

module AtomicOrders {
  import opened AtomicRuns
  import opened AtomicSerial

  /** An operator on tuples of values. */
  type Op = (seq<int>, seq<int>) -> seq<int>

  /** What an update combines into the elements at which index. */
  type Contribution = (nat, nat) -> (int, seq<int>)

  ghost predicate Keeps(op: Op, n: nat) { forall a, b :: |a| == n && |b| == n ==> |op(a, b)| == n }

  ghost predicate Agree(op: Op, a: seq<int>, b: seq<int>, c: seq<int>) { op(op(a, b), c) == op(op(a, c), b) }

  /** Holds of every operator on `n` values that is associative and commutative. */
  ghost predicate OrderFree(op: Op, n: nat) {
    forall a, b, c :: |a| == n && |b| == n && |c| == n ==> Agree(op, a, b, c)
  }

  lemma CommutativeIsOrderFree(op: Op, n: nat)
    requires forall a, b, c :: |a| == n && |b| == n && |c| == n ==> op(op(a, b), c) == op(a, op(b, c))
    requires forall a, b :: |a| == n && |b| == n ==> op(a, b) == op(b, a)
    ensures OrderFree(op, n)
  {
    forall a, b, c | |a| == n && |b| == n && |c| == n ensures Agree(op, a, b, c) {
      assert op(op(a, b), c) == op(a, op(b, c)) && op(op(a, c), b) == op(a, op(c, b));
    }
  }

  // ----- the elements at one index -----

  predicate Different(bufs: seq<string>) { forall i, j :: 0 <= i < j < |bufs| ==> bufs[i] != bufs[j] }

  function Position(bufs: seq<string>, b: string): (n: nat)
    requires b in bufs
    ensures n < |bufs| && bufs[n] == b
  {
    if bufs[0] == b then 0 else 1 + Position(bufs[1..], b)
  }

  function Row(m: Memory, bufs: seq<string>, i: int): (r: seq<int>)
    ensures |r| == |bufs| && forall k :: 0 <= k < |bufs| ==> r[k] == Get(m, Cell(bufs[k], i))
  {
    seq(|bufs|, k requires 0 <= k < |bufs| => Get(m, Cell(bufs[k], i)))
  }

  function RowCells(bufs: seq<string>, i: int): set<Cell> { set b | b in bufs :: Cell(b, i) }

  function PutRow(m: Memory, bufs: seq<string>, i: int, vs: seq<int>): Memory
    requires |vs| == |bufs|
  {
    map c | c in m.Keys + RowCells(bufs, i) ::
      if c in RowCells(bufs, i) then vs[Position(bufs, c.buf)] else m[c]
  }

  function Combine(m: Memory, bufs: seq<string>, x: (int, seq<int>), op: Op): Memory {
    var vs := op(Row(m, bufs, x.0), x.1);
    if |vs| == |bufs| then PutRow(m, bufs, x.0, vs) else m
  }

  ghost predicate Combines(u: Update, bufs: seq<string>, x: (int, seq<int>), op: Op, own: set<string>, m0: Memory) {
    forall m: Memory, h: seq<int> :: SameOutside(own, m0, m) && Follows(u, h, m) && u(h).Done? ==>
      MemAfter(u, h, m) == Combine(m, bufs, x, op)
  }

  ghost predicate AllCombine(ts: Tasks, bufs: seq<string>, what: Contribution, op: Op, own: set<string>, m0: Memory) {
    forall t, k :: 0 <= t < |ts| && 0 <= k < |ts[t]| ==>
      |what(t, k).1| == |bufs| && Combines(ts[t][k], bufs, what(t, k), op, own, m0)
  }

  function CombineAll(keys: seq<(nat, nat)>, bufs: seq<string>, what: Contribution, op: Op, m: Memory): Memory {
    if keys == [] then m
    else CombineAll(keys[1..], bufs, what, op, Combine(m, bufs, what(keys[0].0, keys[0].1), op))
  }

  ghost predicate AllSized(bufs: seq<string>, what: Contribution, keys: seq<(nat, nat)>) {
    forall x :: x in keys ==> |what(x.0, x.1).1| == |bufs|
  }

  lemma RowOfPut(m: Memory, bufs: seq<string>, i: int, vs: seq<int>, j: int)
    requires |vs| == |bufs| && Different(bufs)
    ensures Row(PutRow(m, bufs, i, vs), bufs, j) == if i == j then vs else Row(m, bufs, j)
  {
    var m1 := PutRow(m, bufs, i, vs);
    forall k | 0 <= k < |bufs|
      ensures Get(m1, Cell(bufs[k], j)) == if i == j then vs[k] else Get(m, Cell(bufs[k], j))
    {
      assert bufs[k] in bufs;
      if i == j { assert Cell(bufs[k], j) in RowCells(bufs, i); }
    }
  }

  lemma PutTwice(m: Memory, bufs: seq<string>, i: int, vs: seq<int>, us: seq<int>)
    requires |vs| == |bufs| == |us|
    ensures PutRow(PutRow(m, bufs, i, vs), bufs, i, us) == PutRow(m, bufs, i, us)
  {}

  lemma PutElsewhere(m: Memory, bufs: seq<string>, i: int, vs: seq<int>, j: int, us: seq<int>)
    requires |vs| == |bufs| == |us| && i != j
    ensures PutRow(PutRow(m, bufs, i, vs), bufs, j, us) == PutRow(PutRow(m, bufs, j, us), bufs, i, vs)
  {}

  /** Two updates of different indices can be swapped, and two of the same exactly if the operator says so there. */
  lemma Swap(m: Memory, bufs: seq<string>, x: (int, seq<int>), y: (int, seq<int>), op: Op)
    requires Keeps(op, |bufs|) && Different(bufs) && |x.1| == |bufs| == |y.1|
    ensures Combine(Combine(m, bufs, x, op), bufs, y, op) == Combine(Combine(m, bufs, y, op), bufs, x, op)
            <==> x.0 != y.0 || Agree(op, Row(m, bufs, x.0), x.1, y.1)
  {
    var n, i, j := |bufs|, x.0, y.0;
    var a, b := op(Row(m, bufs, i), x.1), op(Row(m, bufs, j), y.1);
    RowOfPut(m, bufs, i, a, j);
    RowOfPut(m, bufs, j, b, i);
    if i == j {
      var c, d := op(a, y.1), op(b, x.1);
      PutTwice(m, bufs, i, a, c);
      PutTwice(m, bufs, i, b, d);
      RowOfPut(m, bufs, i, c, i);
      RowOfPut(m, bufs, i, d, i);
    } else {
      PutElsewhere(m, bufs, i, a, j, b);
    }
  }

  lemma SwapAny(m: Memory, bufs: seq<string>, x: (int, seq<int>), y: (int, seq<int>), op: Op)
    requires OrderFree(op, |bufs|) && Keeps(op, |bufs|) && Different(bufs) && |x.1| == |bufs| == |y.1|
    ensures Combine(Combine(m, bufs, x, op), bufs, y, op) == Combine(Combine(m, bufs, y, op), bufs, x, op)
  {
    hide Combine;
    Swap(m, bufs, x, y, op);
  }

  lemma {:induction false} MoveToFront(a: seq<(nat, nat)>, x: (nat, nat), b: seq<(nat, nat)>, bufs: seq<string>,
      what: Contribution, op: Op, m: Memory)
    requires OrderFree(op, |bufs|) && Keeps(op, |bufs|) && Different(bufs) && AllSized(bufs, what, a + [x] + b)
    ensures CombineAll(a + [x] + b, bufs, what, op, m) == CombineAll([x] + (a + b), bufs, what, op, m)
  {
    hide Combine, OrderFree, Keeps, Different;
    var first, last := a + [x] + b, [x] + (a + b);
    assert last[0] == x && last[1..] == a + b;
    if a == [] {
      assert first == last;
    } else {
      var m1 := Combine(m, bufs, what(a[0].0, a[0].1), op);
      assert first[0] == a[0] && first[1..] == a[1..] + [x] + b;
      assert x in first && a[0] in first;
      MoveToFront(a[1..], x, b, bufs, what, op, m1);
      var rest := [x] + (a[1..] + b);
      assert rest[0] == x && rest[1..] == a[1..] + b;
      assert (a + b)[0] == a[0] && (a + b)[1..] == a[1..] + b;
      SwapAny(m, bufs, what(a[0].0, a[0].1), what(x.0, x.1), op);
    }
  }

  ghost predicate NoneTwice(keys: seq<(nat, nat)>) { forall i, j :: 0 <= i < j < |keys| ==> keys[i] != keys[j] }

  lemma {:induction false} AnyOrder(a: seq<(nat, nat)>, b: seq<(nat, nat)>, bufs: seq<string>, what: Contribution,
      op: Op, m: Memory)
    requires OrderFree(op, |bufs|) && Keeps(op, |bufs|) && Different(bufs) && AllSized(bufs, what, b)
    requires NoneTwice(a) && NoneTwice(b) && forall x :: x in a <==> x in b
    ensures CombineAll(a, bufs, what, op, m) == CombineAll(b, bufs, what, op, m)
  {
    hide Combine, OrderFree, Keeps, Different, NoneTwice;
    assert b != [] ==> b[0] in b;
    if a != [] {
      assert a[0] in b;
      var j :| 0 <= j < |b| && b[j] == a[0];
      var rest := b[..j] + b[j + 1..];
      assert b == b[..j] + [b[j]] + b[j + 1..];
      MoveToFront(b[..j], b[j], b[j + 1..], bufs, what, op, m);
      assert ([b[j]] + rest)[0] == a[0] && ([b[j]] + rest)[1..] == rest;
      RestSame(a, b, j);
      AnyOrder(a[1..], rest, bufs, what, op, Combine(m, bufs, what(a[0].0, a[0].1), op));
    }
  }

  lemma RestSame(a: seq<(nat, nat)>, b: seq<(nat, nat)>, j: nat)
    requires NoneTwice(a) && NoneTwice(b) && (forall x :: x in a <==> x in b) && a != [] && j < |b| && b[j] == a[0]
    ensures var rest := b[..j] + b[j + 1..];
            NoneTwice(a[1..]) && NoneTwice(rest) && forall x :: x in a[1..] <==> x in rest
  {
    var rest := b[..j] + b[j + 1..];
    assert a[..0] + a[1..] == a[1..];
    forall x ensures x in a[1..] <==> x in a && x != a[0] { InRest(a, 0, x); }
    forall x ensures x in rest <==> x in b && x != b[j] { InRest(b, j, x); }
    assert forall i :: 0 <= i < |rest| ==> rest[i] == b[if i < j then i else i + 1];
  }

  lemma InRest(b: seq<(nat, nat)>, j: nat, x: (nat, nat))
    requires NoneTwice(b) && j < |b|
    ensures x in b[..j] + b[j + 1..] <==> x in b && x != b[j]
  {
    var rest := b[..j] + b[j + 1..];
    if x in b && x != b[j] {
      var i :| 0 <= i < |b| && b[i] == x;
      assert rest[if i < j then i else i - 1] == x;
    }
    if x in rest {
      var i :| 0 <= i < |rest| && rest[i] == x;
      assert b[if i < j then i else i + 1] == x;
    }
  }

  function KeysOf(log: seq<Entry>): (r: seq<(nat, nat)>)
    ensures |r| == |log| && forall i :: 0 <= i < |log| ==> r[i] == (log[i].t, log[i].k)
  {
    seq(|log|, i requires 0 <= i < |log| => (log[i].t, log[i].k))
  }

  lemma {:induction false} SerialCombines(ts: Tasks, ix: Indices, bufs: seq<string>, what: Contribution, op: Op,
      own: set<string>, m0: Memory, log: seq<Entry>, m: Memory)
    requires AllDisciplined(ts, ix, own, m0) && AllCombine(ts, bufs, what, op, own, m0) && SameOutside(own, m0, m)
    requires AllKnown(ts, log) && AllFollow(ts, log, m)
    requires forall a :: 0 <= a < |log| ==> UpdateOf(ts, log[a])(log[a].h).Done?
    ensures Serial(ts, log, m) == CombineAll(KeysOf(log), bufs, what, op, m)
  {
    if log != [] {
      var e := log[0];
      assert e in log && Known(ts, e);
      OutsideKept(UpdateOf(ts, e), e.h, m, ix(e.t, e.k), own, m0);
      assert KeysOf(log)[1..] == KeysOf(log[1..]);
      SerialCombines(ts, ix, bufs, what, op, own, m0, log[1..], MemAfter(UpdateOf(ts, e), e.h, m));
    }
  }

  /** All interleavings of the same tasks leave the same memory. */
  lemma SameInEveryOrder(ts: Tasks, ix: Indices, bufs: seq<string>, what: Contribution, op: Op, own: set<string>,
      m0: Memory, run: seq<State>, run': seq<State>)
    requires AllDisciplined(ts, ix, own, m0) && AllCombine(ts, bufs, what, op, own, m0)
    requires OrderFree(op, |bufs|) && Keeps(op, |bufs|) && Different(bufs)
    requires IsRun(ts, Initial(ts, m0), run) && Finished(ts, run[|run| - 1])
    requires IsRun(ts, Initial(ts, m0), run') && Finished(ts, run'[|run'| - 1])
    ensures run[|run| - 1].mem == run'[|run'| - 1].mem
  {
    hide AllDisciplined, AllCombine, Step, Enabled, AllFollow, Serial, Finished;
    var log, log' := run[|run| - 1].log, run'[|run'| - 1].log;
    Serialisable(ts, ix, own, m0, run);
    Serialisable(ts, ix, own, m0, run');
    SerialCombines(ts, ix, bufs, what, op, own, m0, log, m0);
    SerialCombines(ts, ix, bufs, what, op, own, m0, log', m0);
    SameKeys(ts, log, log', m0, run[|run| - 1].mem, run'[|run'| - 1].mem);
    SizedKeys(ts, bufs, what, op, own, m0, log');
    AnyOrder(KeysOf(log), KeysOf(log'), bufs, what, op, m0);
  }

  lemma SameKeys(ts: Tasks, log: seq<Entry>, log': seq<Entry>, m0: Memory, mem: Memory, mem': Memory)
    requires OneAtATime(ts, log, m0, mem) && OneAtATime(ts, log', m0, mem')
    ensures NoneTwice(KeysOf(log)) && NoneTwice(KeysOf(log'))
    ensures forall x :: x in KeysOf(log) <==> x in KeysOf(log')
  {
    hide AllFollow, Serial;
    forall x ensures x in KeysOf(log) ==> x in KeysOf(log') { if x in KeysOf(log) { KeyIsLogged(ts, log, log', x); } }
    forall x ensures x in KeysOf(log') ==> x in KeysOf(log) { if x in KeysOf(log') { KeyIsLogged(ts, log', log, x); } }
  }

  lemma KeyIsLogged(ts: Tasks, log: seq<Entry>, log': seq<Entry>, x: (nat, nat))
    requires AllKnown(ts, log) && x in KeysOf(log)
    requires forall t: nat, k: nat :: t < |ts| && k < |ts[t]| ==> Logged(log', t, k)
    ensures x in KeysOf(log')
  {
    var a :| 0 <= a < |log| && KeysOf(log)[a] == x;
    assert log[a] in log && Known(ts, log[a]);
    assert Logged(log', log[a].t, log[a].k);
    var b :| 0 <= b < |log'| && log'[b].t == log[a].t && log'[b].k == log[a].k;
    assert KeysOf(log')[b] == x;
  }

  lemma SizedKeys(ts: Tasks, bufs: seq<string>, what: Contribution, op: Op, own: set<string>, m0: Memory,
      log: seq<Entry>)
    requires AllCombine(ts, bufs, what, op, own, m0) && AllKnown(ts, log)
    ensures AllSized(bufs, what, KeysOf(log))
  {
    forall x | x in KeysOf(log) ensures |what(x.0, x.1).1| == |bufs| {
      var a :| 0 <= a < |log| && KeysOf(log)[a] == x;
      assert log[a] in log && Known(ts, log[a]);
    }
  }
}
