// Clamping what is called inside indexing (src/ClampUnsafeAccesses.cpp): a Func
// may be called where it has not been computed, and memory holds anything there.

module ClampAccesses {
  import opened IR
  import opened Intervals
  import opened BoundsRules
  import opened Bounds
  import opened Stmts
  import opened PipelineValues

  const INT_MIN := -0x8000_0000
  const INT_MAX := 0x7FFF_FFFF

  /** The known bounds of Funcs, and the Funcs realized inside the current producer. */
  datatype Clamps = Clamps(funcBounds: FuncBounds, inner: set<string>)

  /** For the let variables around, innermost binding: used inside indexing? */
  type Marks = map<Name, bool>

  /** bounds_smaller_than_type. */
  predicate SmallerThanType(i: Interval) {
    i.IsBounded() && i != Interval(Fin(I(INT_MIN)), Fin(I(INT_MAX)))
  }

  /** Is the result of calling this output clamped, inside indexing? */
  predicate IsClamped(f: string, n: nat, c: Clamps) {
    f !in c.inner && (f, n) in c.funcBounds && SmallerThanType(c.funcBounds[(f, n)])
  }

  function ClampCall(call: Expr, i: Interval): Expr
    requires i.IsBounded()
  {
    Bin(Max, Bin(Min, call, i.max.e), i.min.e)
  }

  /** Undo a binding, keeping what has been found out about other variables. */
  function Unbind(marks: Marks, x: Name, outer: Marks): Marks {
    if x in outer then marks[x := outer[x]] else marks - {x}
  }

  function ClampExpr(e: Expr, inside: bool, marks: Marks, c: Clamps): (r: (Expr, Marks))
    ensures r.1.Keys == marks.Keys && forall x :: x in marks && marks[x] ==> r.1[x]
    decreases e, 1
  {
    match e
    case Const(_, _) => (e, marks)
    case Var(x) => (e, if inside && x in marks then marks[x := true] else marks)
    case Un(op, a) =>
      var (a', m) := ClampExpr(a, inside, marks, c);
      (Un(op, a'), m)
    case Bin(op, a, b) =>
      var (a', m) := ClampExpr(a, inside, marks, c);
      var (b', m') := ClampExpr(b, inside, m, c);
      (Bin(op, a', b'), m')
    case Select(k, a, b) =>
      var (k', m) := ClampExpr(k, inside, marks, c);
      var (a', m') := ClampExpr(a, inside, m, c);
      var (b', m'') := ClampExpr(b, inside, m', c);
      (Select(k', a', b'), m'')
    case Ramp(a, b, n) =>
      var (a', m) := ClampExpr(a, inside, marks, c);
      var (b', m') := ClampExpr(b, inside, m, c);
      (Ramp(a', b', n), m')
    case Let(x, v, b) =>
      var (b', m) := ClampExpr(b, inside, marks[x := false], c);
      var (v', m') := ClampExpr(v, inside || m[x], m, c);
      (Let(x, v', b'), Unbind(m', x, marks))
    case Call(ct, f, n, args) =>
      var (args', m) := ClampArgs(args, inside || ct.FuncCall?, marks, c);
      var call := Call(ct, f, n, args');
      (if ct.FuncCall? && inside && IsClamped(f, n, c) then ClampCall(call, c.funcBounds[(f, n)]) else call, m)
  }

  function ClampArgs(args: seq<Expr>, inside: bool, marks: Marks, c: Clamps): (r: (seq<Expr>, Marks))
    ensures r.1.Keys == marks.Keys && forall x :: x in marks && marks[x] ==> r.1[x]
    ensures |r.0| == |args|
    decreases args, 0
  {
    if args == [] then ([], marks)
    else
      var (a, m) := ClampExpr(args[0], inside, marks, c);
      var (rest, m') := ClampArgs(args[1..], inside, m, c);
      ([a] + rest, m')
  }

  class ClampUnsafeAccesses {
    const c: Clamps
    var isInsideIndexing: bool
    var letVarInsideIndexing: Marks

    constructor (funcBounds: FuncBounds, inner: set<string>)
      ensures c == Clamps(funcBounds, inner) && !isInsideIndexing && letVarInsideIndexing == map[]
    {
      c := Clamps(funcBounds, inner);
      isInsideIndexing, letVarInsideIndexing := false, map[];
    }

    method Mutate(e: Expr) returns (r: Expr)
      modifies this
      ensures (r, letVarInsideIndexing) == ClampExpr(e, old(isInsideIndexing), old(letVarInsideIndexing), c)
      ensures isInsideIndexing == old(isInsideIndexing)
      decreases e, 1
    {
      match e
      case Const(_, _) => r := e;
      case Var(x) =>
        r := e;
        if isInsideIndexing && x in letVarInsideIndexing { letVarInsideIndexing := letVarInsideIndexing[x := true]; }
      case Un(op, a) =>
        var a' := Mutate(a);
        r := Un(op, a');
      case Bin(op, a, b) =>
        var a' := Mutate(a);
        var b' := Mutate(b);
        r := Bin(op, a', b');
      case Select(k, a, b) =>
        var k' := Mutate(k);
        var a' := Mutate(a);
        var b' := Mutate(b);
        r := Select(k', a', b');
      case Ramp(a, b, n) =>
        var a' := Mutate(a);
        var b' := Mutate(b);
        r := Ramp(a', b', n);
      case Let(x, v, b) =>
        var outer, around := letVarInsideIndexing, isInsideIndexing;
        letVarInsideIndexing := letVarInsideIndexing[x := false];
        var b' := Mutate(b);
        isInsideIndexing := isInsideIndexing || letVarInsideIndexing[x];
        var v' := Mutate(v);
        isInsideIndexing := around;
        letVarInsideIndexing := Unbind(letVarInsideIndexing, x, outer);
        r := Let(x, v', b');
      case Call(ct, f, n, args) =>
        var around := isInsideIndexing;
        isInsideIndexing := isInsideIndexing || ct.FuncCall?;
        var args' := MutateAll(args);
        isInsideIndexing := around;
        r := Call(ct, f, n, args');
        if ct.FuncCall? && isInsideIndexing && IsClamped(f, n, c) { r := ClampCall(r, c.funcBounds[(f, n)]); }
    }

    method MutateAll(args: seq<Expr>) returns (r: seq<Expr>)
      modifies this
      ensures (r, letVarInsideIndexing) == ClampArgs(args, old(isInsideIndexing), old(letVarInsideIndexing), c)
      ensures isInsideIndexing == old(isInsideIndexing)
      decreases args, 0
    {
      hide ClampExpr, ClampArgs;
      r := [];
      ghost var all := ClampArgs(args, isInsideIndexing, letVarInsideIndexing, c);
      assert args[0..] == args && [] + all.0 == all.0;
      for i := 0 to |args|
        invariant isInsideIndexing == old(isInsideIndexing)
        invariant var rest := ClampArgs(args[i..], isInsideIndexing, letVarInsideIndexing, c);
                  all == (r + rest.0, rest.1)
      {
        ClampNext(args, i, isInsideIndexing, letVarInsideIndexing, c);
        var a := Mutate(args[i]);
        ghost var rest := ClampArgs(args[i + 1..], isInsideIndexing, letVarInsideIndexing, c);
        assert (r + [a]) + rest.0 == r + ([a] + rest.0);
        r := r + [a];
      }
      assert args[|args|..] == [] && r + [] == r;
      ClampNone(isInsideIndexing, letVarInsideIndexing, c);
    }
  }

  lemma ClampNone(inside: bool, m: Marks, c: Clamps)
    ensures ClampArgs([], inside, m, c) == ([], m)
  {}

  lemma ClampNext(args: seq<Expr>, i: nat, inside: bool, m: Marks, c: Clamps)
    requires i < |args|
    ensures var (a, m1) := ClampExpr(args[i], inside, m, c);
            var rest := ClampArgs(args[i + 1..], inside, m1, c);
            ClampArgs(args[i..], inside, m, c) == ([a] + rest.0, rest.1)
  {
    hide ClampExpr;
    assert args[i..][0] == args[i] && args[i..][1..] == args[i + 1..];
  }

  // ----- what is asked of an expression -----

  /** The names bound by lets. */
  function Binders(e: Expr): set<Name>
    decreases e, 1
  {
    match e
    case Const(_, _) => {}
    case Var(_) => {}
    case Un(_, a) => Binders(a)
    case Bin(_, a, b) => Binders(a) + Binders(b)
    case Select(c, a, b) => Binders(c) + Binders(a) + Binders(b)
    case Ramp(a, b, _) => Binders(a) + Binders(b)
    case Let(x, v, b) => {x} + Binders(v) + Binders(b)
    case Call(_, _, _, args) => BindersOfAll(args)
  }

  function BindersOfAll(args: seq<Expr>): set<Name>
    decreases args, 0
  {
    if args == [] then {} else Binders(args[0]) + BindersOfAll(args[1..])
  }

  /** No let's value mentions the let's own name. */
  predicate OwnNameFree(e: Expr)
    decreases e, 1
  {
    match e
    case Const(_, _) => true
    case Var(_) => true
    case Un(_, a) => OwnNameFree(a)
    case Bin(_, a, b) => OwnNameFree(a) && OwnNameFree(b)
    case Select(c, a, b) => OwnNameFree(c) && OwnNameFree(a) && OwnNameFree(b)
    case Ramp(a, b, _) => OwnNameFree(a) && OwnNameFree(b)
    case Let(x, v, b) => x !in Names(v) && OwnNameFree(v) && OwnNameFree(b)
    case Call(_, _, _, args) => AllOwnNameFree(args)
  }

  predicate AllOwnNameFree(args: seq<Expr>)
    decreases args, 0
  {
    args != [] ==> OwnNameFree(args[0]) && AllOwnNameFree(args[1..])
  }

  /** An expression without vectors. */
  predicate Scalar(e: Expr)
    decreases e, 1
  {
    match e
    case Const(_, _) => true
    case Var(x) => !x.vec
    case Un(_, a) => Scalar(a)
    case Bin(_, a, b) => Scalar(a) && Scalar(b)
    case Select(c, a, b) => Scalar(c) && Scalar(a) && Scalar(b)
    case Ramp(_, _, _) => false
    case Let(x, v, b) => !x.vec && Scalar(v) && Scalar(b)
    case Call(_, _, _, args) => AllScalar(args)
  }

  predicate AllScalar(args: seq<Expr>)
    decreases args, 0
  {
    args != [] ==> Scalar(args[0]) && AllScalar(args[1..])
  }

  lemma {:induction false} ScalarValue(e: Expr, w: World, l: nat)
    requires Scalar(e)
    ensures Eval(e, w, l) == Eval(e, w, 0)
    decreases e, 1
  {
    match e
    case Const(_, _) =>
    case Var(_) =>
    case Un(op, a) => ScalarValue(a, w, l);
    case Bin(_, a, b) => ScalarValue(a, w, l); ScalarValue(b, w, l);
    case Select(c, a, b) => ScalarValue(c, w, l); ScalarValue(a, w, l); ScalarValue(b, w, l);
    case Let(x, v, b) => ScalarValue(b, LetWorld(w, x, v), l);
    case Call(_, _, _, args) => ScalarValues(args, w, l);
  }

  lemma {:induction false} ScalarValues(args: seq<Expr>, w: World, l: nat)
    requires AllScalar(args)
    ensures EvalArgs(args, w, l) == EvalArgs(args, w, 0)
    decreases args, 0
  {
    if args != [] {
      ScalarValue(args[0], w, l);
      ScalarValues(args[1..], w, l);
    }
  }

  // ----- memory that is in bounds -----

  /** What calls are clamped to: the ends are evaluated in `w0`. */
  function ClampedMemory(mem: Callee, c: Clamps, w0: World): Callee {
    (f: string, n: nat, q: seq<int>) =>
      if IsClamped(f, n, c) then ClampedValue(mem(f, n, q), c.funcBounds[(f, n)], w0) else mem(f, n, q)
  }

  function ClampedValue(v: int, i: Interval, w: World): int
    requires i.IsBounded()
  {
    MaxI(MinI(v, Eval(i.max.e, w, 0)), Eval(i.min.e, w, 0))
  }

  function EndNames(c: Clamps): set<Name> {
    set key, x | key in c.funcBounds && x in IvNames(c.funcBounds[key]) :: x
  }

  /** The ends are scalar and call no Func. */
  ghost predicate PlainEnds(c: Clamps) {
    forall key :: key in c.funcBounds ==> PlainEnd(c.funcBounds[key].min) && PlainEnd(c.funcBounds[key].max)
  }

  predicate PlainEnd(b: Ext) { b.Fin? ==> IsPure(b.e) && Scalar(b.e) }

  ghost predicate SameOn(s: set<Name>, w: World, w': World) {
    w.pures == w'.pures && forall x: Name, m: nat :: x in s ==> w.vars(x, m) == w'.vars(x, m)
  }

  lemma EndValue(e: Expr, w: World, w0: World, l: nat)
    requires IsPure(e) && Scalar(e) && SameOn(Names(e), w, w0)
    ensures Eval(e, w, l) == Eval(e, w0, 0)
  {
    hide Eval, IsPure, Scalar;
    ScalarValue(e, w, l);
    PureSame(e, w, w.(funcs := w0.funcs), 0);
    EvalAgree(e, w.(funcs := w0.funcs), w0, 0);
  }

  lemma EndsOfCall(f: string, n: nat, c: Clamps, w: World, w0: World, l: nat)
    requires IsClamped(f, n, c) && PlainEnds(c) && SameOn(EndNames(c), w, w0)
    ensures var i := c.funcBounds[(f, n)];
            Eval(i.max.e, w, l) == Eval(i.max.e, w0, 0) && Eval(i.min.e, w, l) == Eval(i.min.e, w0, 0)
            && IsPure(i.min.e) && IsPure(i.max.e)
  {
    hide Eval, IsPure, Scalar, Names;
    var i := c.funcBounds[(f, n)];
    assert (f, n) in c.funcBounds && IvNames(i) <= EndNames(c);
    EndValue(i.max.e, w, w0, l);
    EndValue(i.min.e, w, w0, l);
  }

  // ----- garbage in memory does not reach an index -----

  /** The let variables around that have not been clamped. */
  predicate Loose(x: Name, marks: Marks) { x in marks && !marks[x] }

  /** The run `w`, with anything in memory, and the run `v` in bounded memory
      give the same values to the names of `s`, but for those of loose lets. */
  ghost predicate Alike(s: set<Name>, marks: Marks, w: World, v: World) {
    w.pures == v.pures && forall x: Name, m: nat :: x in s && !Loose(x, marks) ==> w.vars(x, m) == v.vars(x, m)
  }

  /** `marks` is what is known in the end; an expression's own marks are part of it. */
  ghost predicate Later(m: Marks, marks: Marks) { m.Keys == marks.Keys && forall x :: x in m && m[x] ==> marks[x] }

  ghost predicate Clamping(c: Clamps, binders: set<Name>, marks: Marks, w: World, v: World, w0: World) {
    && PlainEnds(c) && SameOn(EndNames(c), w, w0) && EndNames(c) !! binders && EndNames(c) !! marks.Keys
    && v.funcs == ClampedMemory(w.funcs, c, w0)
  }

  /** Clamping gives, over any memory, the indices - and inside indexing the
      values - that the expression has over memory that is in bounds. */
  lemma {:induction false} ClampedMeaning(e: Expr, inside: bool, m: Marks, marks: Marks, c: Clamps, w: World,
      v: World, w0: World, l: nat, f: string, pt: seq<int>)
    requires OwnNameFree(e) && Clamping(c, Binders(e), m, w, v, w0)
    requires Later(ClampExpr(e, inside, m, c).1, marks) && Alike(Names(e), marks, w, v)
    ensures var e' := ClampExpr(e, inside, m, c).0;
            (inside ==> Eval(e', w, l) == Eval(e, v, l)) && (CallsAt(e', w, l, f, pt) <==> CallsAt(e, v, l, f, pt))
    decreases Size(e), 1
  {
    hide PlainEnds, EndNames, LetWorld, ClampedMemory, SameOn;
    match e
    case Const(_, _) =>
    case Var(x) =>
    case Un(op, a) =>
      ClampedMeaning(a, inside, m, marks, c, w, v, w0, if op.Broadcast? then 0 else l, f, pt);
    case Bin(op, a, b) => ClampedTwo(a, b, inside, m, marks, c, w, v, w0, l, f, pt);
    case Select(k, a, b) =>
      var m1 := ClampExpr(k, inside, m, c).1;
      ClampedMeaning(k, inside, m, marks, c, w, v, w0, l, f, pt);
      ClampedTwo(a, b, inside, m1, marks, c, w, v, w0, l, f, pt);
    case Ramp(a, b, _) => ClampedTwo(a, b, inside, m, marks, c, w, v, w0, 0, f, pt);
    case Let(x, val, b) => ClampedLet(x, val, b, inside, m, marks, c, w, v, w0, l, f, pt);
    case Call(ct, g, n, args) => ClampedCall(ct, g, n, args, inside, m, marks, c, w, v, w0, l, f, pt);
  }

  lemma ClampedTwo(a: Expr, b: Expr, inside: bool, m: Marks, marks: Marks, c: Clamps, w: World, v: World, w0: World,
      l: nat, f: string, pt: seq<int>)
    requires OwnNameFree(a) && OwnNameFree(b) && Clamping(c, Binders(a) + Binders(b), m, w, v, w0)
    requires var m1 := ClampExpr(a, inside, m, c).1; Later(ClampExpr(b, inside, m1, c).1, marks)
    requires Alike(Names(a) + Names(b), marks, w, v)
    ensures var (a', m1) := ClampExpr(a, inside, m, c);
            (inside ==> Eval(a', w, l) == Eval(a, v, l)) && (CallsAt(a', w, l, f, pt) <==> CallsAt(a, v, l, f, pt))
    ensures var b' := ClampExpr(b, inside, ClampExpr(a, inside, m, c).1, c).0;
            (inside ==> Eval(b', w, l) == Eval(b, v, l)) && (CallsAt(b', w, l, f, pt) <==> CallsAt(b, v, l, f, pt))
    decreases Size(a) + Size(b), 2
  {
    hide PlainEnds, EndNames, ClampedMemory, Eval, CallsAt, ClampExpr, SameOn, Binders, Names, OwnNameFree;
    ClampedMeaning(a, inside, m, marks, c, w, v, w0, l, f, pt);
    ClampedMeaning(b, inside, ClampExpr(a, inside, m, c).1, marks, c, w, v, w0, l, f, pt);
  }

  lemma ClampedLet(x: Name, val: Expr, b: Expr, inside: bool, m: Marks, marks: Marks, c: Clamps, w: World, v: World,
      w0: World, l: nat, f: string, pt: seq<int>)
    requires OwnNameFree(Let(x, val, b)) && Clamping(c, Binders(Let(x, val, b)), m, w, v, w0)
    requires Later(ClampExpr(Let(x, val, b), inside, m, c).1, marks) && Alike(Names(Let(x, val, b)), marks, w, v)
    ensures var e, e' := Let(x, val, b), ClampExpr(Let(x, val, b), inside, m, c).0;
            (inside ==> Eval(e', w, l) == Eval(e, v, l)) && (CallsAt(e', w, l, f, pt) <==> CallsAt(e, v, l, f, pt))
    decreases 1 + Size(val) + Size(b), 0
  {
    hide Eval, CallsAt, PlainEnds, EndNames, LetWorld, ClampExpr, OwnNameFree, Names, Binders;
    OpenLet(x, val, b, inside, m, c);
    var (b', m1) := ClampExpr(b, inside, m[x := false], c);
    var (val', m2) := ClampExpr(val, inside || m1[x], m1, c);
    var marksV, marksB := marks[x := m2[x]], marks[x := m1[x]];
    var w1, v1 := LetWorld(w, x, val'), LetWorld(v, x, val);
    forall n: nat
      ensures inside || m1[x] ==> Eval(val', w, n) == Eval(val, v, n)
      ensures CallsAt(val', w, n, f, pt) <==> CallsAt(val, v, n, f, pt)
    {
      ClampedMeaning(val, inside || m1[x], m1, marksV, c, w, v, w0, n, f, pt);
    }
    LetAlike(x, val, val', Names(b), marks, marksB, w, v);
    LetClamping(x, val, val', b, m, c, w, v, w0);
    ClampedMeaning(b, inside, m[x := false], marksB, c, w1, v1, w0, l, f, pt);
    LetResult(x, val', b', w, l, f, pt);
    LetResult(x, val, b, v, l, f, pt);
    if CallsAt(Let(x, val', b'), w, l, f, pt) { LetCalls(x, val', b', w, val, b, v, l, f, pt); }
    if CallsAt(Let(x, val, b), v, l, f, pt) { LetCalls(x, val, b, v, val', b', w, l, f, pt); }
  }

  lemma OpenLet(x: Name, val: Expr, b: Expr, inside: bool, m: Marks, c: Clamps)
    requires OwnNameFree(Let(x, val, b))
    ensures var (b', m1) := ClampExpr(b, inside, m[x := false], c);
            var (val', m2) := ClampExpr(val, inside || m1[x], m1, c);
            ClampExpr(Let(x, val, b), inside, m, c) == (Let(x, val', b'), Unbind(m2, x, m))
    ensures x !in Names(val) && OwnNameFree(val) && OwnNameFree(b)
    ensures Names(Let(x, val, b)) == {x} + Names(val) + Names(b)
    ensures Binders(Let(x, val, b)) == {x} + Binders(val) + Binders(b)
  {}

  lemma LetResult(x: Name, val: Expr, b: Expr, w: World, l: nat, f: string, pt: seq<int>)
    ensures Eval(Let(x, val, b), w, l) == Eval(b, LetWorld(w, x, val), l)
    ensures forall n: nat :: CallsAt(val, w, n, f, pt) ==> CallsAt(Let(x, val, b), w, l, f, pt)
    ensures CallsAt(b, LetWorld(w, x, val), l, f, pt) ==> CallsAt(Let(x, val, b), w, l, f, pt)
  {}

  lemma LetCalls(x: Name, val: Expr, b: Expr, w: World, val': Expr, b': Expr, v: World, l: nat, f: string, pt: seq<int>)
    requires CallsAt(Let(x, val, b), w, l, f, pt)
    requires forall n: nat :: CallsAt(val, w, n, f, pt) ==> CallsAt(val', v, n, f, pt)
    requires CallsAt(b, LetWorld(w, x, val), l, f, pt) ==> CallsAt(b', LetWorld(v, x, val'), l, f, pt)
    ensures CallsAt(Let(x, val', b'), v, l, f, pt)
  {
    LetResult(x, val', b', v, l, f, pt);
    if n: nat :| CallsAt(val, w, n, f, pt) { assert CallsAt(val', v, n, f, pt); }
  }

  lemma LetAlike(x: Name, val: Expr, val': Expr, s: set<Name>, marks: Marks, marks': Marks, w: World, v: World)
    requires Alike(s - {x}, marks, w, v) && x in marks' && marks' == marks[x := marks'[x]]
    requires marks'[x] ==> forall n: nat :: Eval(val', w, n) == Eval(val, v, n)
    ensures Alike(s, marks', LetWorld(w, x, val'), LetWorld(v, x, val))
  {
    hide Eval, LetWorld;
    var w1, v1 := LetWorld(w, x, val'), LetWorld(v, x, val);
    LetLookup(w, x, val', x, 0);
    LetLookup(v, x, val, x, 0);
    forall y: Name, n: nat | y in s && !Loose(y, marks') ensures w1.vars(y, n) == v1.vars(y, n) {
      LetLookup(w, x, val', y, n);
      LetLookup(v, x, val, y, n);
    }
  }

  lemma LetClamping(x: Name, val: Expr, val': Expr, b: Expr, m: Marks, c: Clamps, w: World, v: World, w0: World)
    requires Clamping(c, {x} + Binders(val) + Binders(b), m, w, v, w0)
    ensures Clamping(c, Binders(b), m[x := false], LetWorld(w, x, val'), LetWorld(v, x, val), w0)
  {
    hide Eval, LetWorld, EndNames, PlainEnds;
    LetLookup(w, x, val', x, 0);
    LetLookup(v, x, val, x, 0);
    forall y: Name, n: nat | y in EndNames(c) ensures LetWorld(w, x, val').vars(y, n) == w0.vars(y, n) {
      LetLookup(w, x, val', y, n);
    }
  }

  lemma ClampedCall(ct: CallType, g: string, n: nat, args: seq<Expr>, inside: bool, m: Marks, marks: Marks, c: Clamps,
      w: World, v: World, w0: World, l: nat, f: string, pt: seq<int>)
    requires AllOwnNameFree(args) && Clamping(c, BindersOfAll(args), m, w, v, w0)
    requires Later(ClampArgs(args, inside || ct.FuncCall?, m, c).1, marks) && Alike(NamesOfAll(args), marks, w, v)
    ensures var e, e' := Call(ct, g, n, args), ClampExpr(Call(ct, g, n, args), inside, m, c).0;
            (inside ==> Eval(e', w, l) == Eval(e, v, l)) && (CallsAt(e', w, l, f, pt) <==> CallsAt(e, v, l, f, pt))
    decreases 1 + SizeAll(args), 0
  {
    ClampedArgs(args, inside || ct.FuncCall?, m, marks, c, w, v, w0, l, f, pt);
    var call := Call(ct, g, n, ClampArgs(args, inside || ct.FuncCall?, m, c).0);
    if ct.FuncCall? && inside && IsClamped(g, n, c) {
      EndsOfCall(g, n, c, w, w0, l);
      ClampCallMeaning(call, c.funcBounds[(g, n)], w, l, f, pt);
    }
  }

  lemma ClampCallMeaning(call: Expr, i: Interval, w: World, l: nat, f: string, pt: seq<int>)
    requires i.IsBounded() && IsPure(i.min.e) && IsPure(i.max.e)
    ensures Eval(ClampCall(call, i), w, l) == MaxI(MinI(Eval(call, w, l), Eval(i.max.e, w, l)), Eval(i.min.e, w, l))
    ensures CallsAt(ClampCall(call, i), w, l, f, pt) <==> CallsAt(call, w, l, f, pt)
  {
    PureCallsNothing(i.min.e, w, l, f, pt);
    PureCallsNothing(i.max.e, w, l, f, pt);
  }

  lemma {:induction false} ClampedArgs(args: seq<Expr>, inside: bool, m: Marks, marks: Marks, c: Clamps, w: World,
      v: World, w0: World, l: nat, f: string, pt: seq<int>)
    requires AllOwnNameFree(args) && Clamping(c, BindersOfAll(args), m, w, v, w0)
    requires Later(ClampArgs(args, inside, m, c).1, marks) && Alike(NamesOfAll(args), marks, w, v)
    ensures var args' := ClampArgs(args, inside, m, c).0;
            (inside ==> EvalArgs(args', w, l) == EvalArgs(args, v, l))
            && (ArgsCallAt(args', w, l, f, pt) <==> ArgsCallAt(args, v, l, f, pt))
    decreases SizeAll(args), 0
  {
    if args != [] {
      var (a, m1) := ClampExpr(args[0], inside, m, c);
      ClampedMeaning(args[0], inside, m, marks, c, w, v, w0, l, f, pt);
      ClampedArgs(args[1..], inside, m1, marks, c, w, v, w0, l, f, pt);
      var rest := ClampArgs(args[1..], inside, m1, c).0;
      assert ([a] + rest)[0] == a && ([a] + rest)[1..] == rest;
    }
  }

  // ----- a correct value is not changed -----

  /** Where the bounds hold, clamping changes nothing. */
  lemma {:induction false} ClampHarmless(e: Expr, inside: bool, m: Marks, c: Clamps, w: World, w0: World, l: nat)
    requires PlainEnds(c) && SameOn(EndNames(c), w, w0) && EndNames(c) !! Binders(e)
    requires FuncsCovered(c.funcBounds, w, w0)
    ensures Eval(ClampExpr(e, inside, m, c).0, w, l) == Eval(e, w, l)
    decreases e, 1
  {
    hide PlainEnds, EndNames, LetWorld;
    match e
    case Const(_, _) =>
    case Var(x) =>
    case Un(op, a) => ClampHarmless(a, inside, m, c, w, w0, if op.Broadcast? then 0 else l);
    case Bin(op, a, b) =>
      ClampHarmless(a, inside, m, c, w, w0, l);
      ClampHarmless(b, inside, ClampExpr(a, inside, m, c).1, c, w, w0, l);
    case Select(k, a, b) =>
      var m1 := ClampExpr(k, inside, m, c).1;
      ClampHarmless(k, inside, m, c, w, w0, l);
      ClampHarmless(a, inside, m1, c, w, w0, l);
      ClampHarmless(b, inside, ClampExpr(a, inside, m1, c).1, c, w, w0, l);
    case Ramp(a, b, _) =>
      ClampHarmless(a, inside, m, c, w, w0, 0);
      ClampHarmless(b, inside, ClampExpr(a, inside, m, c).1, c, w, w0, 0);
    case Let(x, v, b) =>
      var (b', m1) := ClampExpr(b, inside, m[x := false], c);
      var v' := ClampExpr(v, inside || m1[x], m1, c).0;
      forall n: nat ensures Eval(v', w, n) == Eval(v, w, n) {
        ClampHarmless(v, inside || m1[x], m1, c, w, w0, n);
      }
      LetSetting(x, v, c, w, w0);
      ClampHarmless(b, inside, m[x := false], c, LetWorld(w, x, v), w0, l);
      SameLet(b', x, v', v, w, l);
    case Call(ct, g, n, args) =>
      ClampHarmlessArgs(args, inside || ct.FuncCall?, m, c, w, w0, l);
      if ct.FuncCall? && inside && IsClamped(g, n, c) {
        EndsOfCall(g, n, c, w, w0, l);
        var i, call := c.funcBounds[(g, n)], Call(ct, g, n, ClampArgs(args, true, m, c).0);
        ClampCallMeaning(call, i, w, l, "", []);
        assert In(w.funcs(g, n, EvalArgs(args, w, l)), i, w0);
      }
  }

  lemma LetSetting(x: Name, v: Expr, c: Clamps, w: World, w0: World)
    requires SameOn(EndNames(c), w, w0) && x !in EndNames(c) && FuncsCovered(c.funcBounds, w, w0)
    ensures SameOn(EndNames(c), LetWorld(w, x, v), w0) && FuncsCovered(c.funcBounds, LetWorld(w, x, v), w0)
  {
    hide Eval, EndNames, LetWorld;
    LetLookup(w, x, v, x, 0);
    forall y: Name, n: nat | y in EndNames(c) ensures LetWorld(w, x, v).vars(y, n) == w0.vars(y, n) {
      LetLookup(w, x, v, y, n);
    }
  }

  lemma LetLookup(w: World, x: Name, v: Expr, y: Name, n: nat)
    ensures LetWorld(w, x, v).vars(y, n) == if y == x then Eval(v, w, n) else w.vars(y, n)
    ensures LetWorld(w, x, v).funcs == w.funcs && LetWorld(w, x, v).pures == w.pures
  {
    hide Eval;
  }

  lemma SameLet(b: Expr, x: Name, v: Expr, v': Expr, w: World, l: nat)
    requires forall n: nat :: Eval(v, w, n) == Eval(v', w, n)
    ensures Eval(b, LetWorld(w, x, v), l) == Eval(b, LetWorld(w, x, v'), l)
  {
    hide Eval;
    var w1, w2 := LetWorld(w, x, v), LetWorld(w, x, v');
    forall y: Name, n: nat ensures w1.vars(y, n) == w2.vars(y, n) {
      LetLookup(w, x, v, y, n);
      LetLookup(w, x, v', y, n);
    }
    EvalAgree(b, w1, w2, l);
  }

  lemma {:induction false} ClampHarmlessArgs(args: seq<Expr>, inside: bool, m: Marks, c: Clamps, w: World, w0: World,
      l: nat)
    requires PlainEnds(c) && SameOn(EndNames(c), w, w0) && EndNames(c) !! BindersOfAll(args)
    requires FuncsCovered(c.funcBounds, w, w0)
    ensures EvalArgs(ClampArgs(args, inside, m, c).0, w, l) == EvalArgs(args, w, l)
    decreases args, 0
  {
    if args != [] {
      var (a, m1) := ClampExpr(args[0], inside, m, c);
      ClampHarmless(args[0], inside, m, c, w, w0, l);
      ClampHarmlessArgs(args[1..], inside, m1, c, w, w0, l);
      var rest := ClampArgs(args[1..], inside, m1, c).0;
      assert ([a] + rest)[0] == a && ([a] + rest)[1..] == rest;
    }
  }

  // ----- when clamping is enough -----

  /** What a call inside indexing gives, memory holding `v`. */
  function AfterClamp(v: int, i: Interval, w: World): int {
    if SmallerThanType(i) then ClampedValue(v, i, w) else v
  }

  /** Both ends are there, or one that is there is no limit for 32 bits. */
  predicate Enough(i: Interval, w: World) {
    i.IsBounded()
    || ((i.min.Fin? ==> Eval(i.min.e, w, 0) <= INT_MIN) && (i.max.Fin? ==> INT_MAX <= Eval(i.max.e, w, 0)))
  }

  /** Of the bounds of a Func that has a value at all: whatever 32 bits memory
      holds, what reaches an index lies in the bounds, exactly if both ends are
      known. An interval with one end is left alone, though indices were
      bounded with that end. */
  lemma ClampExactly(i: Interval, x: int, w: World)
    requires INT_MIN <= x <= INT_MAX && In(x, i, w)
    ensures (forall v :: INT_MIN <= v <= INT_MAX ==> In(AfterClamp(v, i, w), i, w)) <==> Enough(i, w)
  {
    hide Eval;
    if !Enough(i, w) {
      var v := if i.min.Fin? && Eval(i.min.e, w, 0) > INT_MIN then INT_MIN else INT_MAX;
      assert AfterClamp(v, i, w) == v && !In(v, i, w);
    } else if i == Interval(Fin(I(INT_MIN)), Fin(I(INT_MAX))) {
      EvalConst(INT_MIN, w);
      EvalConst(INT_MAX, w);
    }
  }

  // ----- two programs that tell when clamping fails -----

  const CALL_G := Call(FuncCall, "g", 0, [I(0)])

  function OfG(i: Interval): Clamps { Clamps(map[("g", 0) := i], {}) }

  function CallF(arg: Expr): Expr { Call(FuncCall, "f", 0, [arg]) }

  /** f(g(0)). */
  lemma CallsOfF(e: Expr, w: World, pt: seq<int>)
    ensures CallsAt(CallF(e), w, 0, "f", pt) <==> CallsAt(e, w, 0, "f", pt) || pt == [Eval(e, w, 0)]
  {
    assert [e][0] == e && [e][1..] == [];
    assert EvalArgs([e], w, 0) == [Eval(e, w, 0)];
    assert ArgsCallAt([e], w, 0, "f", pt) <==> CallsAt(e, w, 0, "f", pt) || ArgsCallAt([e][1..], w, 0, "f", pt);
  }

  lemma ValueOfG(w: World, pt: seq<int>)
    ensures Eval(CALL_G, w, 0) == w.funcs("g", 0, [0]) && !CallsAt(CALL_G, w, 0, "f", pt)
  {
    var zero := [I(0)];
    assert zero[0] == I(0) && zero[1..] == [];
    assert EvalArgs(zero, w, 0) == [0];
    assert ArgsCallAt(zero, w, 0, "f", pt) <==> CallsAt(zero[0], w, 0, "f", pt) || ArgsCallAt(zero[1..], w, 0, "f", pt);
  }

  lemma ClampOfG(inside: bool, m: Marks, i: Interval)
    ensures ClampExpr(CALL_G, inside, m, OfG(i))
            == (if inside && SmallerThanType(i) then ClampCall(CALL_G, i) else CALL_G, m)
  {
    ClampOneArg(I(0), m, OfG(i));
  }

  lemma ClampOfF(arg: Expr, m: Marks, c: Clamps)
    ensures var (arg', m') := ClampExpr(arg, true, m, c);
            ClampExpr(CallF(arg), false, m, c) == (CallF(arg'), m')
  {
    ClampOneArg(arg, m, c);
  }

  lemma ClampOneArg(arg: Expr, m: Marks, c: Clamps)
    ensures var (arg', m') := ClampExpr(arg, true, m, c);
            ClampArgs([arg], true, m, c) == ([arg'], m')
  {
    var args := [arg];
    var (arg', m') := ClampExpr(args[0], true, m, c);
    assert args[1..] == [] && ClampArgs(args[1..], true, m', c) == ([], m');
    assert [arg'] + [] == [arg'];
  }

  /** f(g(0)): the point at which f is called lies in the bounds of g whatever
      memory holds, exactly if both ends are known or the known one is no limit. */
  lemma IndexExactly(i: Interval, x: int, w: World)
    requires INT_MIN <= x <= INT_MAX && In(x, i, w) && PlainEnd(i.min) && PlainEnd(i.max)
    ensures
      var e := ClampExpr(CallF(CALL_G), false, map[], OfG(i)).0;
      (forall v, y :: INT_MIN <= v <= INT_MAX && CallsAt(e, Holding(v, w), 0, "f", [y]) ==> In(y, i, w))
      <==> Enough(i, w)
  {
    hide ClampExpr, Eval, CallsAt, Scalar, IsPure;
    var e := ClampExpr(CallF(CALL_G), false, map[], OfG(i)).0;
    ClampExactly(i, x, w);
    forall v: int, y: int ensures CallsAt(e, Holding(v, w), 0, "f", [y]) <==> y == AfterClamp(v, i, w) {
      IndexIs(i, v, y, w);
    }
    if forall v, y :: INT_MIN <= v <= INT_MAX && CallsAt(e, Holding(v, w), 0, "f", [y]) ==> In(y, i, w) {
      forall v | INT_MIN <= v <= INT_MAX ensures In(AfterClamp(v, i, w), i, w) {
        assert CallsAt(e, Holding(v, w), 0, "f", [AfterClamp(v, i, w)]);
      }
    }
  }

  /** Memory holds `v` everywhere. */
  function Holding(v: int, w: World): World { w.(funcs := (f: string, n: nat, q: seq<int>) => v) }

  lemma IndexIs(i: Interval, v: int, y: int, w: World)
    requires PlainEnd(i.min) && PlainEnd(i.max)
    ensures CallsAt(ClampExpr(CallF(CALL_G), false, map[], OfG(i)).0, Holding(v, w), 0, "f", [y])
            <==> y == AfterClamp(v, i, w)
  {
    hide ClampExpr, Eval, CallsAt, Scalar, IsPure;
    var wv := Holding(v, w);
    ClampOfF(CALL_G, map[], OfG(i));
    ClampOfG(true, map[], i);
    ValueOfG(wv, [y]);
    if SmallerThanType(i) {
      ClampCallMeaning(CALL_G, i, wv, 0, "f", [y]);
      EndValue(i.min.e, wv, w, 0);
      EndValue(i.max.e, wv, w, 0);
      CallsOfF(ClampCall(CALL_G, i), wv, [y]);
    } else {
      CallsOfF(CALL_G, wv, [y]);
    }
  }

  // ----- f(min(g(0), limit)): its index is bounded though g is not -----

  function AtMost(limit: int): Expr { Bin(Min, CALL_G, I(limit)) }

  lemma ValueAtMost(e: Expr, limit: int, w: World, pt: seq<int>)
    ensures Eval(Bin(Min, e, I(limit)), w, 0) == MinI(Eval(e, w, 0), limit)
    ensures CallsAt(Bin(Min, e, I(limit)), w, 0, "f", pt) <==> CallsAt(e, w, 0, "f", pt)
  {}

  lemma ClampAtMost(limit: int, m: Marks, c: Clamps)
    ensures var (g, m') := ClampExpr(CALL_G, true, m, c);
            ClampExpr(AtMost(limit), true, m, c) == (Bin(Min, g, I(limit)), m')
  {}

  lemma MinIndexIs(i: Interval, limit: int, v: int, y: int, w: World)
    requires PlainEnd(i.min) && PlainEnd(i.max)
    ensures CallsAt(ClampExpr(CallF(AtMost(limit)), false, map[], OfG(i)).0, Holding(v, w), 0, "f", [y])
            <==> y == MinI(AfterClamp(v, i, w), limit)
  {
    hide ClampExpr, Eval, CallsAt, Scalar, IsPure, AtMost;
    var wv := Holding(v, w);
    ClampOfF(AtMost(limit), map[], OfG(i));
    ClampAtMost(limit, map[], OfG(i));
    ClampOfG(true, map[], i);
    ValueOfG(wv, [y]);
    if SmallerThanType(i) {
      ClampCallMeaning(CALL_G, i, wv, 0, "f", [y]);
      EndValue(i.min.e, wv, w, 0);
      EndValue(i.max.e, wv, w, 0);
      ValueAtMost(ClampCall(CALL_G, i), limit, wv, [y]);
      CallsOfF(Bin(Min, ClampCall(CALL_G, i), I(limit)), wv, [y]);
    } else {
      ValueAtMost(CALL_G, limit, wv, [y]);
      CallsOfF(Bin(Min, CALL_G, I(limit)), wv, [y]);
    }
  }

  lemma AtMostOf(i: Interval, limit: int, c: Ctx, k: nat)
    requires c.funcBounds == map[("g", 0) := i] && i.HasLower()
    ensures BoundsOf(AtMost(limit), map[], c, k).0 == MinBounds(CALL_G, I(limit), i, SinglePoint(I(limit)))
  {
    hide MakeMin;
    var g := BoundsOf(CALL_G, map[], c, k);
    assert g == CallOf(FuncCall, "g", 0, [I(0)], map[], c, k);
    assert BoundsOf(I(limit), map[], c, k) == (SinglePoint(I(limit)), k);
    assert BoundsOf(AtMost(limit), map[], c, k) == BinOf(Min, CALL_G, I(limit), map[], c, k);
  }

  /** The interval found for the index: the smaller of each end of g and the limit. */
  lemma BoundsAtMost(i: Interval, limit: int, c: Ctx, k: nat, w: World, y: int)
    requires c.funcBounds == map[("g", 0) := i] && PlainEnd(i.min) && i.min.Fin? && !i.IsEmpty()
    ensures var r := BoundsOf(AtMost(limit), map[], c, k).0;
            (In(y, r, w) <==> MinI(Eval(i.min.e, w, 0), limit) <= y && Under(i.max, y, w) && y <= limit)
    ensures var r := BoundsOf(AtMost(limit), map[], c, k).0;
            r.IsBounded()
  {
    hide MakeMin, Eval;
    var p := SinglePoint(I(limit));
    AtMostOf(i, limit, c, k);
    EvalConst(limit, w);
    MakeMinMeaning(i.min, p.min, y, w);
    MakeMinMeaning(i.max, p.max, y, w);
    MinHasEnds(i.min, I(limit));
    MinHasEnds(i.max, I(limit));
  }

  lemma MinHasEnds(a: Ext, e: Expr)
    requires a != NegInf
    ensures MakeMin(a, Fin(e)).Fin?
  {}

  /** f(min(g(0), limit)) for a g with a lower end: bounds inference finds a
      bounded index, and the point at which f is called lies in it whatever
      memory holds, exactly if g has both ends or its lower end or the limit is
      no limit for 32 bits. */
  lemma MinIndexExactly(i: Interval, limit: int, c: Ctx, k: nat, x: int, w: World)
    requires INT_MIN <= x <= INT_MAX && In(x, i, w) && PlainEnd(i.min) && PlainEnd(i.max)
    requires c.funcBounds == map[("g", 0) := i] && i.min.Fin?
    ensures
      var e := ClampExpr(CallF(AtMost(limit)), false, map[], OfG(i)).0;
      var r := BoundsOf(AtMost(limit), map[], c, k).0;
      r.IsBounded()
      && ((forall v, y :: INT_MIN <= v <= INT_MAX && CallsAt(e, Holding(v, w), 0, "f", [y]) ==> In(y, r, w))
          <==> i.IsBounded() || Eval(i.min.e, w, 0) <= INT_MIN || limit <= INT_MIN)
  {
    hide ClampExpr, Eval, CallsAt, Scalar, IsPure, BoundsOf, AtMost;
    var e := ClampExpr(CallF(AtMost(limit)), false, map[], OfG(i)).0;
    var r := BoundsOf(AtMost(limit), map[], c, k).0;
    BoundsAtMost(i, limit, c, k, w, x);
    forall v: int, y: int ensures CallsAt(e, Holding(v, w), 0, "f", [y]) <==> y == MinI(AfterClamp(v, i, w), limit) {
      MinIndexIs(i, limit, v, y, w);
    }
    forall y: int ensures In(y, r, w) <==> MinI(Eval(i.min.e, w, 0), limit) <= y && Under(i.max, y, w) && y <= limit {
      BoundsAtMost(i, limit, c, k, w, y);
    }
    ClampExactly(i, x, w);
    if Enough(i, w) || limit <= INT_MIN {
      forall v | INT_MIN <= v <= INT_MAX ensures In(MinI(AfterClamp(v, i, w), limit), r, w) {
        assert Enough(i, w) ==> In(AfterClamp(v, i, w), i, w);
      }
    } else {
      var y := MinI(AfterClamp(INT_MIN, i, w), limit);
      assert CallsAt(e, Holding(INT_MIN, w), 0, "f", [y]) && !In(y, r, w);
    }
  }

  /** let x = g(0) in let y = x + 1 in f(y). */
  function Shifted(x: Name, y: Name): Expr { Let(x, CALL_G, Let(y, Bin(Add, Var(x), I(1)), CallF(Var(y)))) }

  /** The value of g is clamped on its way through the lets, exactly if the
      inner let does not take the outer one's name: while the inner value is
      looked at, its own name hides the other. */
  lemma ShiftedExactly(x: Name, y: Name, i: Interval)
    requires SmallerThanType(i)
    ensures ClampExpr(Shifted(x, y), false, map[], OfG(i)).0
            == if x == y then Shifted(x, y)
               else Let(x, ClampCall(CALL_G, i), Let(y, Bin(Add, Var(x), I(1)), CallF(Var(y))))
  {
    var c := OfG(i);
    var m1: Marks := map[x := false];
    var m2 := m1[y := false];
    ClampOfF(Var(y), m2, c);
    assert ClampExpr(CallF(Var(y)), false, m2, c) == (CallF(Var(y)), m2[y := true]);
    var m3 := m2[y := true];
    var sum := Bin(Add, Var(x), I(1));
    assert ClampExpr(sum, true, m3, c) == (sum, m3[x := true]);
    var m4 := Unbind(m3[x := true], y, m1);
    assert ClampExpr(Let(y, sum, CallF(Var(y))), false, m1, c) == (Let(y, sum, CallF(Var(y))), m4);
    assert m4[x] == (x != y);
    ClampOfG(m4[x], m4, i);
  }
}
