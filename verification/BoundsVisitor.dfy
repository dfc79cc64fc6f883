// The same visitor as the compiler writes it: an object whose `interval`
// field is overwritten by each visit and whose `scope` is pushed and popped.

module BoundsVisiting {
  import opened Options
  import opened IR
  import opened Intervals
  import opened BoundsRules
  import opened Bounds

  class BoundsVisitor {
    var interval: Interval
    var scope: Scope
    var next: nat  // the unique-name counter
    const c: Ctx

    constructor (scope: Scope, c: Ctx, next: nat)
      ensures this.scope == scope && this.c == c && this.next == next
    {
      this.scope, this.c, this.next := scope, c, next;
      interval := EVERYTHING;
    }

    /** Leaves the expression's interval in `interval` and the scope as it was. */
    method Visit(e: Expr)
      modifies this
      ensures var r := BoundsOf(e, old(scope), c, old(next)); interval == r.0 && next == r.1
      ensures scope == old(scope)
      decreases Size(e), 2
    {
      match e
      case Const(_, _) => interval := SinglePoint(e);
      case Var(x) => interval := VarBounds(x, scope, c.constBound);
      case Un(op, a) =>
        Visit(a);
        match op {
          case Likely | Broadcast =>
          case Not => interval := NotBounds(a, interval);
          case Abs =>
            if !c.constBound && interval.IsPoint() {
              interval := SinglePoint(Un(Abs, interval.min.e));
            } else {
              interval := AbsBounds(interval);
            }
        }
      case Bin(op, a, b) =>
        if op.GT? {
          VisitCompare(LT, b, a);
        } else if op.GE? {
          VisitCompare(LE, b, a);
        } else if op.LT? || op.LE? {
          VisitCompare(op, a, b);
        } else {
          Visit(a);
          var ia := interval;
          Visit(b);
          interval := BinBounds(op, a, b, ia, interval, c.oracle);
        }
      case Select(cond, t, f) =>
        Visit(t);
        var it := interval;
        Visit(f);
        var jf := interval;
        Visit(cond);
        var (i, k) := SelectBounds(interval, it, jf, TypeOf(t), next);
        interval, next := i, k;
      case Ramp(base, stride, lanes) =>
        var lane := Fresh("t", next, IntT);
        var saved := scope;
        next := next + 1;
        scope := scope[lane := LaneRange(lanes)];
        assert Size(Bin(Mul, Var(lane), stride)) == 2 + Size(stride);
        Visit(Bin(Add, base, Bin(Mul, Var(lane), stride)));
        scope := saved;
      case Let(x, v, body) =>
        Visit(v);
        var val := interval;
        var mn, mx := MinName(x, next), MaxName(x, next);
        var saved := scope;
        next := next + 2;
        scope := scope[x := LetVar(val, mn, mx)];
        Visit(body);
        scope := saved;
        interval := WrapLet(interval, val, mn, mx);
      case Call(ct, f, n, args) =>
        if ct.FuncCall? {
          interval := FuncValueBounds(f, n, c.funcBounds);
        } else if c.constBound {
          interval := EVERYTHING;
        } else {
          VisitArgs(ct, f, n, args);
        }
    }

    method VisitCompare(op: BinOp, a: Expr, b: Expr)
      modifies this
      ensures var r := CompareOf(op, a, b, old(scope), c, old(next)); interval == r.0 && next == r.1
      ensures scope == old(scope)
      decreases Size(a) + Size(b) + 1, 0
    {
      hide BoundsOf, BoundsOfType, CompareBounds, Unknown;
      Visit(a);
      var ia := interval;
      if !Unknown(ia) {
        Visit(b);
      }
      if Unknown(ia) || Unknown(interval) {
        interval := BoundsOfType(BoolT);
      } else {
        interval := CompareBounds(op, ia, interval);
      }
    }

    /** A pure call whose arguments are all single points can be moved out. */
    method VisitArgs(ct: CallType, f: string, n: nat, args: seq<Expr>)
      requires ct.PureCall? && !c.constBound
      modifies this
      ensures var r := CallOf(ct, f, n, args, old(scope), c, old(next)); interval == r.0 && next == r.1
      ensures scope == old(scope)
      decreases 1 + SizeAll(args), 1
    {
      hide BoundsOf;
      var newArgs: seq<Expr>, constArgs, i := [], true, 0;
      ghost var start := next;
      assert args[0..] == args;
      PrependNothing(PointsOf(args, scope, c, next));
      while i < |args| && constArgs
        invariant 0 <= i <= |args| && scope == old(scope)
        invariant constArgs ==> PointsOf(args, scope, c, start) == Prepend(newArgs, PointsOf(args[i..], scope, c, next))
        invariant !constArgs ==> PointsOf(args, scope, c, start) == (None, next)
      {
        SizeOfArg(args, i);
        PointsStep(newArgs, args, i, scope, c, next);
        Visit(args[i]);
        if interval.IsPoint() {
          newArgs := newArgs + [interval.min.e];
        } else {
          constArgs := false;
        }
        i := i + 1;
      }
      assert constArgs ==> args[i..] == [];
      assert newArgs + [] == newArgs;
      interval := if constArgs then SinglePoint(Call(ct, f, n, newArgs)) else EVERYTHING;
    }
  }

  ghost function Prepend(done: seq<Expr>, rest: (Option<seq<Expr>>, nat)): (Option<seq<Expr>>, nat) {
    (if rest.0.Some? then Some(done + rest.0.value) else None, rest.1)
  }

  lemma PrependNothing(r: (Option<seq<Expr>>, nat))
    ensures Prepend([], r) == r
  {
    if r.0.Some? { assert [] + r.0.value == r.0.value; }
  }

  /** Bounding one more argument moves it from the rest to the part done. */
  lemma PointsStep(done: seq<Expr>, args: seq<Expr>, i: nat, scope: Scope, c: Ctx, k: nat)
    requires i < |args|
    ensures
      var (iv, k1) := BoundsOf(args[i], scope, c, k);
      Prepend(done, PointsOf(args[i..], scope, c, k)) ==
        if iv.IsPoint() then Prepend(done + [iv.min.e], PointsOf(args[i + 1..], scope, c, k1)) else (None, k1)
  {
    hide BoundsOf;
    assert args[i..][0] == args[i] && args[i..][1..] == args[i + 1..];
    var (iv, k1) := BoundsOf(args[i], scope, c, k);
    if iv.IsPoint() {
      var rest := PointsOf(args[i + 1..], scope, c, k1).0;
      if rest.Some? { assert done + ([iv.min.e] + rest.value) == done + [iv.min.e] + rest.value; }
    }
  }

  lemma {:induction false} SizeOfArg(args: seq<Expr>, i: nat)
    requires i < |args|
    ensures Size(args[i]) < SizeAll(args)
  {
    if i > 0 { SizeOfArg(args[1..], i - 1); }
  }
}
