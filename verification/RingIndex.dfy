// Which copy of a ring-buffered Func each iteration uses (InjectRingBuffering
// of src/AsyncProducers.cpp).

module RingIndexes {
  import opened Arith
  /** A loop between the storage and the computation of the Func; an extent
      that is not positive counts as zero. */
  datatype Loop = Loop(x: string, min: int, extent: nat)

  /** The index the compiler builds, loop by loop from the outermost. */
  method RingIndex(loops: seq<Loop>, values: seq<int>, ring: nat) returns (slot: int)
    requires loops != [] && |values| == |loops| && ring > 0
    ensures slot == SlotOf(loops, values, ring)
  {
    var index, k := values[0], 1;
    while k < |loops|
      invariant 1 <= k <= |loops|
      invariant Position(loops, values) == index * Spans(loops[k..]) + Position0(loops[k..], values[k..])
      decreases |loops| - k
    {
      var rest, vs := loops[k..], values[k..];
      assert rest[1..] == loops[k + 1..] && vs[1..] == values[k + 1..];
      Regroup(index, Span(rest[0]), values[k], Spans(rest[1..]));
      index := index * (loops[k].extent - loops[k].min) + values[k];
      k := k + 1;
    }
    assert loops[|loops|..] == [] && values[|loops|..] == [];
    slot := index % ring;
  }

  lemma Regroup(a: int, b: int, c: int, d: int)
    ensures a * (b * d) + c * d == (a * b + c) * d
  {}

  /** The compiler takes the extent less the minimum as the number of values of a loop. */
  function Span(l: Loop): int { l.extent - l.min }

  function Spans(loops: seq<Loop>): int { if loops == [] then 1 else Span(loops[0]) * Spans(loops[1..]) }

  /** A value of every loop read as one number, the outermost loop counting most. */
  function Position0(loops: seq<Loop>, values: seq<int>): int
    requires |values| == |loops|
  {
    if loops == [] then 0 else values[0] * Spans(loops[1..]) + Position0(loops[1..], values[1..])
  }

  function Position(loops: seq<Loop>, values: seq<int>): int
    requires |values| == |loops|
  {
    Position0(loops, values)
  }

  function SlotOf(loops: seq<Loop>, values: seq<int>, ring: nat): int
    requires |values| == |loops| && ring > 0
  {
    Position(loops, values) % ring
  }

  // ----- the iterations in order -----

  /** The values of the loop variables, iteration by iteration. */
  function Tuples(loops: seq<Loop>): (r: seq<seq<int>>)
    ensures forall t :: t in r ==> |t| == |loops|
    decreases |loops|, 1
  {
    if loops == [] then [[]] else Rows(loops, loops[0].min, loops[0].extent)
  }

  function Rows(loops: seq<Loop>, from: int, n: nat): (r: seq<seq<int>>)
    requires loops != []
    ensures forall t :: t in r ==> |t| == |loops|
    decreases |loops|, 0, n
  {
    if n == 0 then [] else Row(from, Tuples(loops[1..])) + Rows(loops, from + 1, n - 1)
  }

  function Row(v: int, ts: seq<seq<int>>): (r: seq<seq<int>>)
    ensures |r| == |ts| && forall k :: 0 <= k < |ts| ==> r[k] == [v] + ts[k]
  {
    seq(|ts|, k requires 0 <= k < |ts| => [v] + ts[k])
  }

  // ----- when neighbouring iterations use different copies -----

  predicate AllRun(loops: seq<Loop>) { forall k :: 0 <= k < |loops| ==> loops[k].extent >= 1 }

  /** The position of the first iteration. */
  function Skew(loops: seq<Loop>): int {
    if loops == [] then 0 else loops[0].min * Spans(loops[1..]) + Skew(loops[1..])
  }

  /** Passing to the next value of a loop sets the loops inside it back to their
      first values, which moves the index by one less the position of those. A
      ring that divides this repeats a copy. */
  ghost predicate NeverRepeats(loops: seq<Loop>, ring: nat)
    requires ring > 0
  {
    AllRun(loops) ==>
      forall j :: 0 <= j < |loops| && loops[j].extent >= 2 ==> (1 - Skew(loops[j + 1..])) % ring != 0
  }

  ghost predicate Differ(loops: seq<Loop>, ts: seq<seq<int>>, ring: nat)
    requires ring > 0 && forall t :: t in ts ==> |t| == |loops|
  {
    forall k: nat :: k + 1 < |ts| ==> SlotOf(loops, ts[k], ring) != SlotOf(loops, ts[k + 1], ring)
  }

  lemma RowStep(loops: seq<Loop>, from: int, n: nat)
    requires loops != []
    ensures n == 0 ==> Rows(loops, from, n) == []
    ensures n > 0 ==> Rows(loops, from, n) == Row(from, Tuples(loops[1..])) + Rows(loops, from + 1, n - 1)
  {
    hide Tuples;
  }

  lemma RowPosition(loops: seq<Loop>, v: int, t: seq<int>)
    requires loops != [] && |t| == |loops| - 1
    ensures Position(loops, [v] + t) == v * Spans(loops[1..]) + Position(loops[1..], t)
  {
    assert ([v] + t)[1..] == t;
  }

  function FirstPosition(m: int, p: int, z: int): int { m * p + z }

  function LastPosition(m: int, n: int, p: int, z: int): int { (m + n) * p - 1 + 2 * z }

  lemma {:induction false} RowsEnds(loops: seq<Loop>, from: int, n: nat)
    requires loops != [] && n >= 1 && Tuples(loops[1..]) != []
    requires var inner := Tuples(loops[1..]);
             && Position(loops[1..], inner[0]) == Skew(loops[1..])
             && Position(loops[1..], inner[|inner| - 1]) == Spans(loops[1..]) - 1 + 2 * Skew(loops[1..])
    ensures var r, p, z := Rows(loops, from, n), Spans(loops[1..]), Skew(loops[1..]);
            r != [] && Position(loops, r[0]) == FirstPosition(from, p, z)
                && Position(loops, r[|r| - 1]) == LastPosition(from, n, p, z)
    decreases n
  {
    hide Tuples, Rows, Position, Spans, Skew;
    RowStep(loops, from, n);
    var inner, p := Tuples(loops[1..]), Spans(loops[1..]);
    RowPosition(loops, from, inner[0]);
    if n == 1 {
      RowStep(loops, from + 1, 0);
      RowPosition(loops, from, inner[|inner| - 1]);
      AddMul(from, 1, p);
    } else {
      RowsEnds(loops, from + 1, n - 1);
    }
  }

  lemma EndsStep(loops: seq<Loop>)
    requires loops != []
    ensures var l, p, z := loops[0], Spans(loops[1..]), Skew(loops[1..]);
            && FirstPosition(l.min, p, z) == Skew(loops)
            && LastPosition(l.min, l.extent, p, z) == Spans(loops) - 1 + 2 * Skew(loops)
  {
    var l, p, z := loops[0], Spans(loops[1..]), Skew(loops[1..]);
    EndsAgree(l.min, l.extent, p, z);
  }

  lemma EndsAgree(m: int, n: int, p: int, z: int)
    ensures (m + n) * p - 1 + 2 * z == (n - m) * p - 1 + 2 * (m * p + z)
  {
    AddMul(m, n, p);
    AddMul(n, -m, p);
  }

  lemma NoLoops(loops: seq<Loop>)
    requires loops == []
    ensures Tuples(loops) == [[]] && Position(loops, []) == Skew(loops) == 0 && Spans(loops) == 1
  {}

  /** Where the first and the last iteration stand. */
  lemma {:induction false} TuplesEnds(loops: seq<Loop>)
    requires AllRun(loops)
    ensures var ts := Tuples(loops);
            && ts != [] && Position(loops, ts[0]) == Skew(loops)
            && Position(loops, ts[|ts| - 1]) == Spans(loops) - 1 + 2 * Skew(loops)
    decreases |loops|
  {
    hide Tuples, Rows, Position, Spans, Skew, FirstPosition, LastPosition;
    if loops == [] {
      NoLoops(loops);
    } else {
      TuplesEnds(loops[1..]);
      var l := loops[0];
      OuterRows(loops);
      RowsEnds(loops, l.min, l.extent);
      EndsStep(loops);
    }
  }

  lemma OuterRows(loops: seq<Loop>)
    requires loops != []
    ensures Tuples(loops) == Rows(loops, loops[0].min, loops[0].extent)
  {}

  lemma ShiftedDiffer(a: int, p: int, q: int, ring: nat)
    requires ring > 0
    ensures (a + p) % ring == (a + q) % ring <==> p % ring == q % ring
  {
    SameMod(p, q - p, ring);
    SameMod(a + p, q - p, ring);
  }

  /** One value of the outer loop: the copies differ as they do inside. */
  lemma RowDiffers(loops: seq<Loop>, v: int, ts: seq<seq<int>>, ring: nat)
    requires loops != [] && ring > 0 && forall t :: t in ts ==> |t| == |loops| - 1
    ensures Differ(loops, Row(v, ts), ring) <==> Differ(loops[1..], ts, ring)
  {
    hide Position, Spans;
    var inner := loops[1..];
    forall k: nat | k + 1 < |ts|
      ensures SlotOf(loops, Row(v, ts)[k], ring) != SlotOf(loops, Row(v, ts)[k + 1], ring)
              <==> SlotOf(inner, ts[k], ring) != SlotOf(inner, ts[k + 1], ring)
    {
      RowPosition(loops, v, ts[k]);
      RowPosition(loops, v, ts[k + 1]);
      ShiftedDiffer(v * Spans(inner), Position(inner, ts[k]), Position(inner, ts[k + 1]), ring);
    }
  }

  lemma DifferAppend(loops: seq<Loop>, a: seq<seq<int>>, b: seq<seq<int>>, ring: nat)
    requires ring > 0 && (forall t :: t in a ==> |t| == |loops|) && (forall t :: t in b ==> |t| == |loops|)
    requires a != [] && b != []
    ensures Differ(loops, a + b, ring) <==>
      Differ(loops, a, ring) && Differ(loops, b, ring) && SlotOf(loops, a[|a| - 1], ring) != SlotOf(loops, b[0], ring)
  {
    hide SlotOf;
    var ab := a + b;
    if Differ(loops, ab, ring) {
      assert ab[|a| - 1] == a[|a| - 1] && ab[|a|] == b[0];
      forall k: nat | k + 1 < |a| ensures SlotOf(loops, a[k], ring) != SlotOf(loops, a[k + 1], ring) {
        assert ab[k] == a[k] && ab[k + 1] == a[k + 1];
      }
      forall k: nat | k + 1 < |b| ensures SlotOf(loops, b[k], ring) != SlotOf(loops, b[k + 1], ring) {
        assert ab[|a| + k] == b[k] && ab[|a| + k + 1] == b[k + 1];
      }
    }
    if Differ(loops, a, ring) && Differ(loops, b, ring)
        && SlotOf(loops, a[|a| - 1], ring) != SlotOf(loops, b[0], ring) {
      forall k: nat | k + 1 < |ab| ensures SlotOf(loops, ab[k], ring) != SlotOf(loops, ab[k + 1], ring) {
        if k + 1 > |a| { assert ab[k] == b[k - |a|] && ab[k + 1] == b[k - |a| + 1]; }
      }
    }
  }

  /** From the last iteration of one row to the first of the next. */
  lemma AcrossRows(loops: seq<Loop>, from: int, n: nat, ring: nat)
    requires loops != [] && AllRun(loops[1..]) && n >= 1 && ring > 0
    ensures var inner, rest := Tuples(loops[1..]), Rows(loops, from + 1, n);
            && inner != [] && rest != []
            && (SlotOf(loops, [from] + inner[|inner| - 1], ring) != SlotOf(loops, rest[0], ring)
                <==> (1 - Skew(loops[1..])) % ring != 0)
  {
    hide Tuples, Rows, Position, Spans, Skew;
    TuplesEnds(loops[1..]);
    RowsEnds(loops, from + 1, n);
    var inner, p := Tuples(loops[1..]), Spans(loops[1..]);
    RowPosition(loops, from, inner[|inner| - 1]);
    AddMul(from, 1, p);
    SameMod(Position(loops, [from] + inner[|inner| - 1]), 1 - Skew(loops[1..]), ring);
  }

  lemma {:induction false} RowsDiffer(loops: seq<Loop>, from: int, n: nat, ring: nat)
    requires loops != [] && AllRun(loops[1..]) && n >= 1 && ring > 0
    ensures Differ(loops, Rows(loops, from, n), ring) <==>
      Differ(loops[1..], Tuples(loops[1..]), ring) && (n >= 2 ==> (1 - Skew(loops[1..])) % ring != 0)
    decreases n
  {
    hide Tuples, Rows, SlotOf, Differ, Skew;
    var inner := Tuples(loops[1..]);
    RowStep(loops, from, n);
    RowDiffers(loops, from, inner, ring);
    if n == 1 {
      RowStep(loops, from + 1, 0);
      assert Row(from, inner) + [] == Row(from, inner);
    } else {
      AcrossRows(loops, from, n - 1, ring);
      RowsDiffer(loops, from + 1, n - 1, ring);
      DifferAppend(loops, Row(from, inner), Rows(loops, from + 1, n - 1), ring);
    }
  }

  lemma {:induction false} RunningDiffer(loops: seq<Loop>, ring: nat)
    requires AllRun(loops) && ring > 0
    ensures Differ(loops, Tuples(loops), ring) <==> NeverRepeats(loops, ring)
    decreases |loops|
  {
    hide Rows, SlotOf, Skew;
    if loops != [] {
      var rest := loops[1..];
      RunningDiffer(rest, ring);
      RowsDiffer(loops, loops[0].min, loops[0].extent, ring);
      NeverRepeatsStep(loops, ring);
    } else {
      assert Tuples(loops) == [[]];
    }
  }

  lemma NeverRepeatsStep(loops: seq<Loop>, ring: nat)
    requires loops != [] && AllRun(loops) && ring > 0
    ensures NeverRepeats(loops, ring) <==>
      NeverRepeats(loops[1..], ring) && (loops[0].extent >= 2 ==> (1 - Skew(loops[1..])) % ring != 0)
  {
    hide Skew;
    var rest := loops[1..];
    forall j | 0 <= j < |rest| ensures rest[j + 1..] == loops[j + 2..] && rest[j] == loops[j + 1] {}
    if NeverRepeats(loops, ring) {
      forall j | 0 <= j < |rest| && rest[j].extent >= 2 ensures (1 - Skew(rest[j + 1..])) % ring != 0 {
        assert loops[j + 1].extent >= 2;
      }
    }
    if NeverRepeats(rest, ring) && (loops[0].extent >= 2 ==> (1 - Skew(rest)) % ring != 0) {
      forall j | 0 <= j < |loops| && loops[j].extent >= 2 ensures (1 - Skew(loops[j + 1..])) % ring != 0 {
        if j > 0 { assert rest[j - 1].extent >= 2; }
      }
    }
  }

  lemma {:induction false} NothingRuns(loops: seq<Loop>)
    requires !AllRun(loops)
    ensures Tuples(loops) == []
    decreases |loops|
  {
    var k :| 0 <= k < |loops| && loops[k].extent < 1;
    if k > 0 {
      assert loops[1..][k - 1] == loops[k];
      NothingRuns(loops[1..]);
      NoRows(loops, loops[0].min, loops[0].extent);
    }
  }

  lemma {:induction false} NoRows(loops: seq<Loop>, from: int, n: nat)
    requires loops != [] && Tuples(loops[1..]) == []
    ensures Rows(loops, from, n) == []
    decreases n
  {
    hide Tuples;
    if n > 0 { NoRows(loops, from + 1, n - 1); }
  }

  /** For any number of loops, with any first values: iterations that follow each
      other use different copies exactly when the ring divides none of the moves. */
  lemma NeighboursDifferExactly(loops: seq<Loop>, ring: nat)
    requires ring > 0
    ensures Differ(loops, Tuples(loops), ring) <==> NeverRepeats(loops, ring)
  {
    if AllRun(loops) { RunningDiffer(loops, ring); } else { NothingRuns(loops); }
  }

  ghost predicate InnerMinsZero(loops: seq<Loop>) { forall k :: 1 <= k < |loops| ==> loops[k].min == 0 }

  lemma {:induction false} NoSkew(loops: seq<Loop>)
    requires forall k :: 0 <= k < |loops| ==> loops[k].min == 0
    ensures Skew(loops) == 0
    decreases |loops|
  {
    if loops != [] { NoSkew(loops[1..]); }
  }

  /** Inner loops from zero, and at least two copies: no copy is ever repeated. */
  lemma FromZeroNeverRepeats(loops: seq<Loop>, ring: nat)
    requires InnerMinsZero(loops) && ring >= 2
    ensures NeverRepeats(loops, ring)
  {
    forall j | 0 <= j < |loops| && loops[j].extent >= 2 ensures (1 - Skew(loops[j + 1..])) % ring != 0 {
      NoSkew(loops[j + 1..]);
      DivMod(1, ring, 0, 1);
    }
  }

  /** Two loops of which the inner one starts at `m`. */
  lemma TwoLoopsExactly(x: string, y: string, from: int, rows: nat, m: int, n: nat, ring: nat)
    requires rows >= 2 && n >= 1 && ring >= 2
    ensures var loops := [Loop(x, from, rows), Loop(y, m, n)];
            Differ(loops, Tuples(loops), ring) <==> (1 - m) % ring != 0
  {
    hide Tuples, Differ;
    var loops := [Loop(x, from, rows), Loop(y, m, n)];
    NeighboursDifferExactly(loops, ring);
    assert loops[0 + 1..] == [Loop(y, m, n)] && loops[1 + 1..] == [];
    assert [Loop(y, m, n)][1..] == [];
    assert Skew([]) == 0 && Skew([Loop(y, m, n)]) == m;
    DivMod(1, ring, 0, 1);
    if NeverRepeats(loops, ring) { assert loops[0].extent >= 2; }
    if (1 - m) % ring != 0 {
      forall j | 0 <= j < |loops| && loops[j].extent >= 2 ensures (1 - Skew(loops[j + 1..])) % ring != 0 {
        if j == 0 { assert loops[j + 1..] == [Loop(y, m, n)]; } else { assert loops[j + 1..] == []; }
      }
    }
  }
}
