// Operators of src/AssociativeOpsTable.cpp as patterns, over integers that wrap
// around: with which of them the order of atomic updates does not matter.

module AtomicOps {
  import opened Arith
  import opened AtomicRuns
  import opened AtomicOrders
  import opened AtomicStmts
  import opened AtomicTuples
  import opened AtomicCombining
  import opened AtomicUpdates
  import opened AtomicPairs

  /** An integer of `n` values, of which `half` are negative. */
  function Wrap(x: int, n: int, half: int): int
    requires n > 0
  {
    (x + half) % n - half
  }

  const ADD: nat := 0
  const SUB: nat := 1
  const MUL: nat := 2
  const MIN: nat := 3
  const MAX: nat := 4
  const LESS: nat := 5

  /** Arithmetic on such integers. */
  function Wrapping(n: int, half: int): Meaning
    requires n > 0
  {
    (id: nat, a: int, b: int) =>
      if id == ADD then Wrap(a + b, n, half)
      else if id == SUB then Wrap(a - b, n, half)
      else if id == MUL then Wrap(a * b, n, half)
      else if id == MIN then (if a <= b then a else b)
      else if id == MAX then (if a >= b then a else b)
      else if a < b then 1 else 0
  }

  const X0 := Var("x0")
  const X1 := Var("x1")
  const Y0 := Var("y0")
  const Y1 := Var("y1")

  function Single(id: nat): Pattern { Pattern([AtomicStmts.Op(id, X0, Y0)], ["x0"], ["y0"]) }

  function Pair(e: Expr, e': Expr): Pattern { Pattern([e, e'], ["x0", "x1"], ["y0", "y1"]) }

  /** (x0 + i x1) (y0 + i y1). */
  function ComplexMul(): Pattern {
    Pair(AtomicStmts.Op(SUB, AtomicStmts.Op(MUL, X0, Y0), AtomicStmts.Op(MUL, X1, Y1)),
         AtomicStmts.Op(ADD, AtomicStmts.Op(MUL, X1, Y0), AtomicStmts.Op(MUL, X0, Y1)))
  }

  function PairAdd(): Pattern { Pair(AtomicStmts.Op(ADD, X0, Y0), AtomicStmts.Op(ADD, X0, Y1)) }

  function ArgMax(): Pattern { Pair(AtomicStmts.Op(MAX, X0, Y0), Select(AtomicStmts.Op(LESS, Y0, X0), X1, Y1)) }

  function ArgMin(): Pattern { Pair(AtomicStmts.Op(MIN, X0, Y0), Select(AtomicStmts.Op(LESS, X0, Y0), X1, Y1)) }

  lemma SingleOk(id: nat)
    ensures PatternOk(Single(id))
  {
    assert Mentions(Single(id).exprs[0]) == {"x0", "y0"};
  }

  lemma PairOk(e: Expr, e': Expr)
    requires IsPattern(e) && IsPattern(e') && Mentions(e) + Mentions(e') <= {"x0", "x1", "y0", "y1"}
    ensures PatternOk(Pair(e, e'))
  {
    hide IsPattern, Mentions;
    var names := ["x0", "x1"] + ["y0", "y1"];
    assert names == ["x0", "x1", "y0", "y1"];
  }

  lemma PairsOk()
    ensures PatternOk(ComplexMul()) && PatternOk(PairAdd()) && PatternOk(ArgMax()) && PatternOk(ArgMin())
  {
    hide PatternOk;
    PairOk(ComplexMul().exprs[0], ComplexMul().exprs[1]);
    PairOk(PairAdd().exprs[0], PairAdd().exprs[1]);
    PairOk(ArgMax().exprs[0], ArgMax().exprs[1]);
    PairOk(ArgMin().exprs[0], ArgMin().exprs[1]);
  }

  lemma SingleValue(id: nat, a: int, b: int, f: Meaning)
    ensures OperatorOf(Single(id), f)([a], [b]) == [f(id, a, b)]
  {
    var p := Single(id);
    var values := Extended(map[], p.xs + p.ys, [a] + [b]);
    ExtendedHas(map[], p.xs + p.ys, [a] + [b], 0);
    ExtendedHas(map[], p.xs + p.ys, [a] + [b], 1);
    assert Eval(p.exprs[0], values, map[], f) == f(id, a, b);
  }

  /** The variables of a pair's pattern have the values given. */
  lemma PairVars(a: seq<int>, b: seq<int>, f: Meaning) returns (values: Env)
    requires |a| == 2 && |b| == 2
    ensures values == Extended(map[], ["x0", "x1"] + ["y0", "y1"], a + b)
    ensures Eval(X0, values, map[], f) == a[0] && Eval(X1, values, map[], f) == a[1]
    ensures Eval(Y0, values, map[], f) == b[0] && Eval(Y1, values, map[], f) == b[1]
  {
    var names := ["x0", "x1"] + ["y0", "y1"];
    values := Extended(map[], names, a + b);
    ExtendedHas(map[], names, a + b, 0);
    ExtendedHas(map[], names, a + b, 1);
    ExtendedHas(map[], names, a + b, 2);
    ExtendedHas(map[], names, a + b, 3);
  }

  lemma OpValue(id: nat, e: Expr, e': Expr, env: Env, f: Meaning)
    ensures Eval(AtomicStmts.Op(id, e, e'), env, map[], f) == f(id, Eval(e, env, map[], f), Eval(e', env, map[], f))
  {}

  lemma SelectValue(c: Expr, e: Expr, e': Expr, env: Env, f: Meaning)
    ensures Eval(Select(c, e, e'), env, map[], f)
            == if Eval(c, env, map[], f) != 0 then Eval(e, env, map[], f) else Eval(e', env, map[], f)
  {}

  lemma PairValue(e: Expr, e': Expr, a: seq<int>, b: seq<int>, f: Meaning)
    requires |a| == 2 && |b| == 2
    ensures var values := Extended(map[], ["x0", "x1"] + ["y0", "y1"], a + b);
            OperatorOf(Pair(e, e'), f)(a, b) == [Eval(e, values, map[], f), Eval(e', values, map[], f)]
  {
    hide Eval, Extended;
  }

  // ----- wrapping -----

  lemma WrapMultiple(x: int, k: int, n: int, half: int)
    requires n > 0
    ensures Wrap(x + k * n, n, half) == Wrap(x, n, half)
  {
    AddMultiple(x + half, n, k);
    assert x + k * n + half == x + half + k * n;
  }

  /** What wrapping takes off is a multiple of the number of values. */
  lemma WrapTakes(x: int, n: int, half: int) returns (k: int)
    requires n > 0
    ensures Wrap(x, n, half) == x + k * n
  {
    k := -((x + half) / n);
  }

  lemma WrapSum(x: int, y: int, n: int, half: int)
    requires n > 0
    ensures Wrap(Wrap(x, n, half) + y, n, half) == Wrap(x + y, n, half)
  {
    hide Wrap;
    var k := WrapTakes(x, n, half);
    assert x + k * n + y == x + y + k * n;
    WrapMultiple(x + y, k, n, half);
  }

  lemma WrapDifference(x: int, y: int, n: int, half: int)
    requires n > 0
    ensures Wrap(Wrap(x, n, half) - Wrap(y, n, half), n, half) == Wrap(x - y, n, half)
  {
    hide Wrap;
    var k := WrapTakes(x, n, half);
    var l := WrapTakes(y, n, half);
    AddMul(k - l, l, n);
    assert x + k * n - (y + l * n) == x - y + (k - l) * n;
    WrapMultiple(x - y, k - l, n, half);
  }

  lemma WrapBoth(x: int, y: int, n: int, half: int)
    requires n > 0
    ensures Wrap(Wrap(x, n, half) + Wrap(y, n, half), n, half) == Wrap(x + y, n, half)
  {
    hide Wrap;
    WrapSum(x, Wrap(y, n, half), n, half);
    WrapSum(y, x, n, half);
    assert x + Wrap(y, n, half) == Wrap(y, n, half) + x && y + x == x + y;
  }

  lemma WrapProduct(x: int, y: int, n: int, half: int)
    requires n > 0
    ensures Wrap(Wrap(x, n, half) * y, n, half) == Wrap(x * y, n, half)
  {
    hide Wrap;
    var k := WrapTakes(x, n, half);
    Distribute(x, k, n, y);
    WrapMultiple(x * y, k * y, n, half);
  }

  lemma Distribute(x: int, k: int, n: int, y: int)
    ensures (x + k * n) * y == x * y + (k * y) * n
  {
    assert (x + k * n) * y == x * y + k * n * y;
    assert k * n * y == (k * y) * n;
  }

  lemma WrapSame(x: int, y: int, n: int, half: int)
    requires n > 0
    ensures Wrap(x, n, half) == Wrap(y, n, half) <==> (y - x) % n == 0
  {
    SameMod(x + half, y - x, n);
    assert x + half + (y - x) == y + half;
  }

  // ----- which are free of order -----

  lemma WrappingSum(n: int, half: int)
    requires n > 0
    ensures OrderFree(OperatorOf(Single(ADD), Wrapping(n, half)), 1)
  {
    hide Wrap, OperatorOf;
    var op, f := OperatorOf(Single(ADD), Wrapping(n, half)), Wrapping(n, half);
    forall a: seq<int>, b: seq<int>, c: seq<int> | |a| == 1 && |b| == 1 && |c| == 1 ensures Agree(op, a, b, c) {
      SingleTwice(ADD, a, b, c, f);
      SingleTwice(ADD, a, c, b, f);
      WrapSum(a[0] + b[0], c[0], n, half);
      WrapSum(a[0] + c[0], b[0], n, half);
    }
  }

  lemma SingleTwice(id: nat, a: seq<int>, b: seq<int>, c: seq<int>, f: Meaning)
    requires |a| == 1 && |b| == 1 && |c| == 1
    ensures var op := OperatorOf(Single(id), f); op(op(a, b), c) == [f(id, f(id, a[0], b[0]), c[0])]
  {
    hide OperatorOf;
    assert a == [a[0]] && b == [b[0]] && c == [c[0]];
    SingleValue(id, a[0], b[0], f);
    SingleValue(id, f(id, a[0], b[0]), c[0], f);
  }

  lemma WrappingProduct(n: int, half: int)
    requires n > 0
    ensures OrderFree(OperatorOf(Single(MUL), Wrapping(n, half)), 1)
  {
    hide Wrap, OperatorOf;
    var op, f := OperatorOf(Single(MUL), Wrapping(n, half)), Wrapping(n, half);
    forall a: seq<int>, b: seq<int>, c: seq<int> | |a| == 1 && |b| == 1 && |c| == 1 ensures Agree(op, a, b, c) {
      SingleTwice(MUL, a, b, c, f);
      SingleTwice(MUL, a, c, b, f);
      WrapProduct(a[0] * b[0], c[0], n, half);
      WrapProduct(a[0] * c[0], b[0], n, half);
      Rearrange(a[0], b[0], c[0]);
    }
  }

  lemma Rearrange(a: int, b: int, c: int)
    ensures a * b * c == a * c * b
  {}

  lemma Extremes(n: int, half: int)
    requires n > 0
    ensures OrderFree(OperatorOf(Single(MIN), Wrapping(n, half)), 1)
    ensures OrderFree(OperatorOf(Single(MAX), Wrapping(n, half)), 1)
  {
    hide Wrap, OperatorOf;
    var least, most, f := OperatorOf(Single(MIN), Wrapping(n, half)), OperatorOf(Single(MAX), Wrapping(n, half)),
        Wrapping(n, half);
    forall a: seq<int>, b: seq<int>, c: seq<int> | |a| == 1 && |b| == 1 && |c| == 1
      ensures Agree(least, a, b, c) && Agree(most, a, b, c)
    {
      SingleTwice(MIN, a, b, c, f);
      SingleTwice(MIN, a, c, b, f);
      SingleTwice(MAX, a, b, c, f);
      SingleTwice(MAX, a, c, b, f);
    }
  }

  // ----- pairs -----

  lemma ComplexValue(a: seq<int>, b: seq<int>, n: int, half: int)
    requires |a| == 2 && |b| == 2 && n > 0
    ensures OperatorOf(ComplexMul(), Wrapping(n, half))(a, b)
            == [Wrap(a[0] * b[0] - a[1] * b[1], n, half), Wrap(a[1] * b[0] + a[0] * b[1], n, half)]
  {
    hide Wrap, Eval, OperatorOf;
    var f := Wrapping(n, half);
    var values := PairVars(a, b, f);
    PairValue(ComplexMul().exprs[0], ComplexMul().exprs[1], a, b, f);
    OpValue(MUL, X0, Y0, values, f);
    OpValue(MUL, X1, Y1, values, f);
    OpValue(MUL, X1, Y0, values, f);
    OpValue(MUL, X0, Y1, values, f);
    OpValue(SUB, AtomicStmts.Op(MUL, X0, Y0), AtomicStmts.Op(MUL, X1, Y1), values, f);
    OpValue(ADD, AtomicStmts.Op(MUL, X1, Y0), AtomicStmts.Op(MUL, X0, Y1), values, f);
    WrapDifference(a[0] * b[0], a[1] * b[1], n, half);
    WrapBoth(a[1] * b[0], a[0] * b[1], n, half);
  }

  /** Wrapped factors in a sum and in a difference of products. */
  lemma WrapProducts(x: int, c: int, y: int, d: int, n: int, half: int)
    requires n > 0
    ensures var u, v := Wrap(x, n, half), Wrap(y, n, half);
            Wrap(u * c - v * d, n, half) == Wrap(x * c - y * d, n, half)
            && Wrap(v * c + u * d, n, half) == Wrap(y * c + x * d, n, half)
  {
    hide Wrap;
    var u, v := Wrap(x, n, half), Wrap(y, n, half);
    WrapDifference(u * c, v * d, n, half);
    WrapDifference(x * c, y * d, n, half);
    WrapBoth(v * c, u * d, n, half);
    WrapBoth(y * c, x * d, n, half);
    WrapProduct(x, c, n, half);
    WrapProduct(y, d, n, half);
    WrapProduct(y, c, n, half);
    WrapProduct(x, d, n, half);
  }

  lemma ComplexTwice(a: seq<int>, b: seq<int>, c: seq<int>, n: int, half: int)
    requires |a| == 2 && |b| == 2 && |c| == 2 && n > 0
    ensures
      var op := OperatorOf(ComplexMul(), Wrapping(n, half));
      var x, y := a[0] * b[0] - a[1] * b[1], a[1] * b[0] + a[0] * b[1];
      op(op(a, b), c) == [Wrap(x * c[0] - y * c[1], n, half), Wrap(y * c[0] + x * c[1], n, half)]
  {
    hide Wrap, OperatorOf;
    var x, y := a[0] * b[0] - a[1] * b[1], a[1] * b[0] + a[0] * b[1];
    ComplexValue(a, b, n, half);
    ComplexValue([Wrap(x, n, half), Wrap(y, n, half)], c, n, half);
    WrapProducts(x, c[0], y, c[1], n, half);
  }

  lemma ThreeComplex(a: int, a': int, b: int, b': int, c: int, c': int)
    ensures (a * b - a' * b') * c - (a' * b + a * b') * c' == (a * c - a' * c') * b - (a' * c + a * c') * b'
    ensures (a' * b + a * b') * c + (a * b - a' * b') * c' == (a' * c + a * c') * b + (a * c - a' * c') * b'
  {}

  /** Complex products, with the lets and stores of two elements. */
  lemma WrappingComplexProduct(n: int, half: int)
    requires n > 0
    ensures OrderFree(OperatorOf(ComplexMul(), Wrapping(n, half)), 2)
  {
    hide Wrap, OperatorOf;
    var op := OperatorOf(ComplexMul(), Wrapping(n, half));
    forall a: seq<int>, b: seq<int>, c: seq<int> | |a| == 2 && |b| == 2 && |c| == 2 ensures Agree(op, a, b, c) {
      ComplexTwice(a, b, c, n, half);
      ComplexTwice(a, c, b, n, half);
      ThreeComplex(a[0], a[1], b[0], b[1], c[0], c[1]);
    }
  }

  lemma PairAddValue(a: seq<int>, b: seq<int>, n: int, half: int)
    requires |a| == 2 && |b| == 2 && n > 0
    ensures OperatorOf(PairAdd(), Wrapping(n, half))(a, b)
            == [Wrap(a[0] + b[0], n, half), Wrap(a[0] + b[1], n, half)]
  {
    hide Wrap, Eval, OperatorOf;
    var f := Wrapping(n, half);
    var values := PairVars(a, b, f);
    PairValue(PairAdd().exprs[0], PairAdd().exprs[1], a, b, f);
    OpValue(ADD, X0, Y0, values, f);
    OpValue(ADD, X0, Y1, values, f);
  }

  /** The sum of pairs, which the table calls commutative, keeps the second of the last pair. */
  lemma PairAddExactly(a: seq<int>, b: seq<int>, c: seq<int>, n: int, half: int)
    requires |a| == 2 && |b| == 2 && |c| == 2 && n > 0
    ensures Agree(OperatorOf(PairAdd(), Wrapping(n, half)), a, b, c) <==> (b[1] - b[0] - (c[1] - c[0])) % n == 0
  {
    hide Wrap, OperatorOf;
    PairAddValue(a, b, n, half);
    PairAddValue(a, c, n, half);
    PairAddValue([Wrap(a[0] + b[0], n, half), Wrap(a[0] + b[1], n, half)], c, n, half);
    PairAddValue([Wrap(a[0] + c[0], n, half), Wrap(a[0] + c[1], n, half)], b, n, half);
    WrapSum(a[0] + b[0], c[0], n, half);
    WrapSum(a[0] + b[0], c[1], n, half);
    WrapSum(a[0] + c[0], b[0], n, half);
    WrapSum(a[0] + c[0], b[1], n, half);
    WrapSame(a[0] + b[0] + c[1], a[0] + c[0] + b[1], n, half);
  }

  lemma ArgValue(a: seq<int>, b: seq<int>, n: int, half: int)
    requires |a| == 2 && |b| == 2 && n > 0
    ensures OperatorOf(ArgMax(), Wrapping(n, half))(a, b) == (if b[0] < a[0] then a else b)
    ensures OperatorOf(ArgMin(), Wrapping(n, half))(a, b) == (if a[0] < b[0] then a else b)
  {
    hide Wrap, Eval, OperatorOf;
    var f := Wrapping(n, half);
    var values := PairVars(a, b, f);
    PairValue(ArgMax().exprs[0], ArgMax().exprs[1], a, b, f);
    PairValue(ArgMin().exprs[0], ArgMin().exprs[1], a, b, f);
    OpValue(MAX, X0, Y0, values, f);
    OpValue(LESS, Y0, X0, values, f);
    OpValue(MIN, X0, Y0, values, f);
    OpValue(LESS, X0, Y0, values, f);
    SelectValue(AtomicStmts.Op(LESS, Y0, X0), X1, Y1, values, f);
    SelectValue(AtomicStmts.Op(LESS, X0, Y0), X1, Y1, values, f);
  }

  /** Maxima and minima with their places, which the table calls commutative,
      keep the place of the last of equal values. */
  lemma ArgExactly(a: seq<int>, b: seq<int>, c: seq<int>, n: int, half: int)
    requires |a| == 2 && |b| == 2 && |c| == 2 && n > 0
    ensures Agree(OperatorOf(ArgMax(), Wrapping(n, half)), a, b, c) <==> !(b[0] == c[0] >= a[0] && b[1] != c[1])
    ensures Agree(OperatorOf(ArgMin(), Wrapping(n, half)), a, b, c) <==> !(b[0] == c[0] <= a[0] && b[1] != c[1])
  {
    hide Wrap, OperatorOf;
    ArgValue(a, b, n, half);
    ArgValue(a, c, n, half);
    ArgValue(if b[0] < a[0] then a else b, c, n, half);
    ArgValue(if c[0] < a[0] then a else c, b, n, half);
    ArgValue(if a[0] < b[0] then a else b, c, n, half);
    ArgValue(if a[0] < c[0] then a else c, b, n, half);
  }

  /** Two tasks that look for a maximum and its place in the same element: all
      interleavings leave the same exactly if no tie decides the place. */
  lemma ArgMaxInterleavings(c: Combination, d: Combination, mutex: string, bufs: seq<string>, own: set<string>,
      m0: Memory, n: int, half: int)
    requires n > 0 && |bufs| == 2
    requires CombinationOk(c, ArgMax(), bufs, own, m0, Wrapping(n, half))
    requires CombinationOk(d, ArgMax(), bufs, own, m0, Wrapping(n, half))
    ensures c.es != [] && d.es != []
    ensures
      var f := Wrapping(n, half);
      var (i, v), (j, w) := Contributed(c, m0, f), Contributed(d, m0, f);
      |v| == 2 && |w| == 2
      && (AllSame(SitesOf(Two(c, d)), mutex, m0, f)
          <==> i != j || !(v[0] == w[0] >= Row(m0, bufs, i)[0] && v[1] != w[1]))
  {
    hide CombinationOk, AllSame, Contributed, OperatorOf;
    var f := Wrapping(n, half);
    PatternKeeps(c, ArgMax(), bufs, own, m0, f);
    PatternKeeps(d, ArgMax(), bufs, own, m0, f);
    TwoAgreeExactly(c, d, mutex, ArgMax(), bufs, own, m0, f);
    ArgExactly(Row(m0, bufs, Contributed(c, m0, f).0), Contributed(c, m0, f).1, Contributed(d, m0, f).1, n, half);
  }
}
