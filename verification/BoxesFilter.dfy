// What happens to a statement before its boxes are looked for: what does not
// concern the Func asked for is left out, and each condition is solved for its
// innermost variable (Filter and SolveIfThenElse of src/Bounds.cpp).

module BoxesFiltering {
  import opened Options
  import opened IR
  import opened Intervals
  import opened BoundsRules
  import opened Bounds
  import opened Boxes
  import opened Stmts
  import opened BoxesTouching
  import opened BoxesShape
  import opened BoxesKeep
  import opened BoxesSound
  import opened BoxesVisiting

  // ----- what concerns a Func -----

  predicate Concerns(e: Expr, fn: string)
    decreases e, 1
  {
    match e
    case Const(_, _) => false
    case Var(x) => x.base == fn || x.base == fn + ".buffer"
    case Un(_, a) => Concerns(a, fn)
    case Bin(_, a, b) => Concerns(a, fn) || Concerns(b, fn)
    case Select(c, t, f) => Concerns(c, fn) || Concerns(t, fn) || Concerns(f, fn)
    case Ramp(b, s, _) => Concerns(b, fn) || Concerns(s, fn)
    case Let(_, v, b) => Concerns(v, fn) || Concerns(b, fn)
    case Call(_, f, _, args) => f == fn || ArgsConcern(args, fn)
  }

  predicate ArgsConcern(args: seq<Expr>, fn: string)
    decreases args, 0
  {
    args != [] && (Concerns(args[0], fn) || ArgsConcern(args[1..], fn))
  }

  predicate Relevant(s: Stmt, fn: string) {
    match s
    case Block(first, rest) => Relevant(first, fn) || Relevant(rest, fn)
    case For(_, min, extent, body) => Concerns(min, fn) || Concerns(extent, fn) || Relevant(body, fn)
    case LetStmt(_, v, body) => Concerns(v, fn) || Relevant(body, fn)
    case IfThenElse(c, t, e) => Concerns(c, fn) || Relevant(t, fn) || (e.Some? && Relevant(e.value, fn))
    case Provide(f, values, args) => f == fn || ArgsConcern(values, fn) || ArgsConcern(args, fn)
    case Evaluate(e) => Concerns(e, fn)
  }

  const NO_OP := Evaluate(I(0))

  /** The statement with what does not concern `fn` left out. */
  function Filtered(s: Stmt, fn: string): Stmt
    decreases s, 1
  {
    if Relevant(s, fn) then Inside(s, fn) else NO_OP
  }

  /** The lets of a chain are kept or dropped together. */
  function Inside(s: Stmt, fn: string): Stmt
    decreases s, 0
  {
    match s
    case Block(first, rest) => Block(Filtered(first, fn), Filtered(rest, fn))
    case For(x, min, extent, body) => For(x, min, extent, Filtered(body, fn))
    case LetStmt(x, v, body) => LetStmt(x, v, if body.LetStmt? then Inside(body, fn) else Filtered(body, fn))
    case IfThenElse(c, t, e) =>
      IfThenElse(c, Filtered(t, fn), if e.Some? then Some(Filtered(e.value, fn)) else None)
    case _ => s
  }

  /** The lets `frames`, outermost first, around `s`. */
  function Rewrap(frames: seq<(Name, Expr)>, s: Stmt): Stmt {
    if frames == [] then s
    else
      var n := |frames| - 1;
      Rewrap(frames[..n], LetStmt(frames[n].0, frames[n].1, s))
  }

  class Filter {
    const fn: string
    var relevant: bool

    constructor (fn: string)
      ensures this.fn == fn && !relevant
    {
      this.fn, relevant := fn, false;
    }

    method VisitExpr(e: Expr)
      modifies this
      ensures relevant == (old(relevant) || Concerns(e, fn))
      decreases e, 1
    {
      match e
      case Const(_, _) =>
      case Var(x) => if x.base == fn + ".buffer" || x.base == fn { relevant := true; }
      case Un(_, a) => VisitExpr(a);
      case Bin(_, a, b) => VisitExpr(a); VisitExpr(b);
      case Select(c, t, f) => VisitExpr(c); VisitExpr(t); VisitExpr(f);
      case Ramp(b, s, _) => VisitExpr(b); VisitExpr(s);
      case Let(_, v, b) => VisitExpr(v); VisitExpr(b);
      case Call(_, f, _, args) => if f == fn { relevant := true; } else { VisitArgs(args); }
    }

    method VisitArgs(args: seq<Expr>)
      modifies this
      ensures relevant == (old(relevant) || ArgsConcern(args, fn))
      decreases args, 0
    {
      if args != [] {
        VisitExpr(args[0]);
        VisitArgs(args[1..]);
      }
    }

    /** Looks at one statement afresh; what was relevant before stays so. */
    method Mutate(s: Stmt) returns (r: Stmt)
      modifies this
      ensures r == Filtered(s, fn) && relevant == (old(relevant) || Relevant(s, fn))
      decreases s, 2
    {
      var before := relevant;
      relevant := false;
      r := Visit(s);
      if !relevant {
        relevant := before;
        r := NO_OP;
      }
    }

    method Visit(s: Stmt) returns (r: Stmt)
      requires !relevant
      modifies this
      ensures r == Inside(s, fn) && relevant == Relevant(s, fn)
      decreases s, 1
    {
      match s
      case Block(first, rest) =>
        var first1 := Mutate(first);
        var rest1 := Mutate(rest);
        r := Block(first1, rest1);
      case For(x, min, extent, body) =>
        VisitExpr(min);
        VisitExpr(extent);
        var body1 := Mutate(body);
        r := For(x, min, extent, body1);
      case LetStmt(_, _, _) => r := VisitLets(s);
      case IfThenElse(c, t, e) =>
        VisitExpr(c);
        var t1 := Mutate(t);
        if e.Some? {
          var e1 := Mutate(e.value);
          r := IfThenElse(c, t1, Some(e1));
        } else {
          r := IfThenElse(c, t1, None);
        }
      case Provide(f, values, args) =>
        if f == fn { relevant := true; } else { VisitArgs(values); VisitArgs(args); }
        r := s;
      case Evaluate(e) =>
        VisitExpr(e);
        r := s;
    }

    /** Walks through a whole chain of lets and puts them back around the body. */
    method VisitLets(s: Stmt) returns (r: Stmt)
      requires s.LetStmt? && !relevant
      modifies this
      ensures r == Inside(s, fn) && relevant == Relevant(s, fn)
      decreases s, 0
    {
      var frames: seq<(Name, Expr)>, body := [], s;
      while body.LetStmt?
        invariant body == s || body < s
        invariant body == s ==> body.LetStmt?
        invariant Relevant(s, fn) == (relevant || Relevant(body, fn))
        invariant Inside(s, fn)
               == Rewrap(frames, if body.LetStmt? then Inside(body, fn) else Filtered(body, fn))
        decreases body
      {
        VisitExpr(body.value);
        var frame := (body.x, body.value);
        assert (frames + [frame])[..|frames|] == frames;
        frames, body := frames + [frame], body.body;
      }
      r := Mutate(body);
      while frames != []
        invariant Inside(s, fn) == Rewrap(frames, r)
        decreases |frames|
      {
        var n := |frames| - 1;
        frames, r := frames[..n], LetStmt(frames[n].0, frames[n].1, r);
      }
    }
  }

  // ----- conditions solved for their innermost variable -----

  /** The depths at which the variables around are bound; of one bound several times, all. */
  type Depths = map<Name, seq<nat>>

  function Push(d: Depths, x: Name, n: nat): Depths { d[x := (if x in d then d[x] else []) + [n]] }

  function Pop(d: Depths, x: Name): Depths {
    if x !in d || |d[x]| <= 1 then d - {x} else d[x := d[x][..|d[x]| - 1]]
  }

  ghost predicate Stacks(d: Depths) { forall x :: x in d ==> d[x] != [] }

  lemma PopPush(d: Depths, x: Name, n: nat)
    requires Stacks(d)
    ensures Stacks(Push(d, x, n)) && Pop(Push(d, x, n), x) == d
  {
    if x in d {
      assert (d[x] + [n])[..|d[x]|] == d[x];
    }
  }

  /** The variable bound innermost among those that occur. */
  function Innermost(occ: seq<Name>, d: Depths): (r: Option<Name>)
    requires Stacks(d)
    ensures r.Some? ==> r.value in occ && r.value in d
    ensures forall x :: x in occ && x in d ==> r.Some? && d[x][|d[x]| - 1] <= d[r.value][|d[r.value]| - 1]
  {
    if occ == [] then None
    else
      var n := |occ| - 1;
      var r, x := Innermost(occ[..n], d), occ[n];
      assert occ == occ[..n] + [x];
      if x in d && (r.None? || d[x][|d[x]| - 1] > d[r.value][|d[r.value]| - 1]) then Some(x) else r
  }

  function SolvedCond(c: Expr, d: Depths, solve: Solver): Expr
    requires Stacks(d)
  {
    var x := Innermost(Occurrences(c), d);
    if x.Some? then solve(c, x.value).0 else c
  }

  function Solved(s: Stmt, d: Depths, n: nat, solve: Solver): Stmt
    requires Stacks(d)
  {
    match s
    case Block(first, rest) => Block(Solved(first, d, n, solve), Solved(rest, d, n, solve))
    case For(x, min, extent, body) => For(x, min, extent, Solved(body, Push(d, x, n), n + 1, solve))
    case LetStmt(x, v, body) => LetStmt(x, v, Solved(body, Push(d, x, n), n + 1, solve))
    case IfThenElse(c, t, e) =>
      IfThenElse(SolvedCond(c, d, solve), Solved(t, d, n, solve),
                 if e.Some? then Some(Solved(e.value, d, n, solve)) else None)
    case _ => s
  }

  method FindInnermostVar(c: Expr, d: Depths) returns (innermost: Option<Name>)
    requires Stacks(d)
    ensures innermost == Innermost(Occurrences(c), d)
  {
    var occ := Occurrences(c);
    var depth: int := -1;
    innermost := None;
    for i := 0 to |occ|
      invariant innermost == Innermost(occ[..i], d)
      invariant depth == if innermost.Some? then d[innermost.value][|d[innermost.value]| - 1] else -1
    {
      var x := occ[i];
      assert occ[..i + 1][..i] == occ[..i];
      if x in d && d[x][|d[x]| - 1] > depth {
        innermost, depth := Some(x), d[x][|d[x]| - 1];
      }
    }
    assert occ[..|occ|] == occ;
  }

  class SolveIfThenElse {
    const solve: Solver
    var depths: Depths
    var depth: nat

    constructor (solve: Solver)
      ensures this.solve == solve && depths == map[] && depth == 0
    {
      this.solve, depths, depth := solve, map[], 0;
    }

    method PushVar(x: Name)
      requires Stacks(depths)
      modifies this
      ensures depths == Push(old(depths), x, old(depth)) && depth == old(depth) + 1 && Stacks(depths)
      ensures Pop(depths, x) == old(depths)
    {
      PopPush(depths, x, depth);
      depths, depth := Push(depths, x, depth), depth + 1;
    }

    method PopVar(x: Name)
      requires depth > 0
      modifies this
      ensures depths == Pop(old(depths), x) && depth == old(depth) - 1
    {
      depths, depth := Pop(depths, x), depth - 1;
    }

    method Mutate(s: Stmt) returns (r: Stmt)
      requires Stacks(depths)
      modifies this
      ensures r == Solved(s, old(depths), old(depth), solve)
      ensures depths == old(depths) && depth == old(depth)
    {
      match s
      case Block(first, rest) =>
        var first1 := Mutate(first);
        var rest1 := Mutate(rest);
        r := Block(first1, rest1);
      case For(x, min, extent, body) =>
        PushVar(x);
        var body1 := Mutate(body);
        PopVar(x);
        r := For(x, min, extent, body1);
      case LetStmt(x, v, body) =>
        PushVar(x);
        var body1 := Mutate(body);
        PopVar(x);
        r := LetStmt(x, v, body1);
      case IfThenElse(c, t, e) =>
        var t1 := Mutate(t);
        var e1: Option<Stmt> := None;
        if e.Some? {
          var else1 := Mutate(e.value);
          e1 := Some(else1);
        }
        var x := FindInnermostVar(c, depths);
        r := IfThenElse(if x.Some? then solve(c, x.value).0 else c, t1, e1);
      case _ => r := s;
    }
  }

  // ----- filtering changes nothing for the Func asked for -----

  lemma {:induction false} UnconcernedCallsNothing(e: Expr, w: World, l: nat, fn: string, pt: seq<int>)
    requires !Concerns(e, fn)
    ensures !CallsAt(e, w, l, fn, pt)
    decreases e, 1
  {
    match e
    case Const(_, _) =>
    case Var(_) =>
    case Un(op, a) => UnconcernedCallsNothing(a, w, if op.Broadcast? then 0 else l, fn, pt);
    case Bin(_, a, b) => UnconcernedCallsNothing(a, w, l, fn, pt); UnconcernedCallsNothing(b, w, l, fn, pt);
    case Select(c, t, g) =>
      UnconcernedCallsNothing(c, w, l, fn, pt);
      UnconcernedCallsNothing(t, w, l, fn, pt);
      UnconcernedCallsNothing(g, w, l, fn, pt);
    case Ramp(b, s, _) => UnconcernedCallsNothing(b, w, 0, fn, pt); UnconcernedCallsNothing(s, w, 0, fn, pt);
    case Let(x, v, b) =>
      forall m: nat ensures !CallsAt(v, w, m, fn, pt) { UnconcernedCallsNothing(v, w, m, fn, pt); }
      UnconcernedCallsNothing(b, LetWorld(w, x, v), l, fn, pt);
    case Call(_, _, _, args) => UnconcernedArgsCallNothing(args, w, l, fn, pt);
  }

  lemma {:induction false} UnconcernedArgsCallNothing(args: seq<Expr>, w: World, l: nat, fn: string, pt: seq<int>)
    requires !ArgsConcern(args, fn)
    ensures !ArgsCallAt(args, w, l, fn, pt)
    decreases args, 0
  {
    if args != [] {
      UnconcernedCallsNothing(args[0], w, l, fn, pt);
      UnconcernedArgsCallNothing(args[1..], w, l, fn, pt);
    }
  }

  lemma NoLaneCalls(e: Expr, w: World, fn: string, pt: seq<int>)
    requires !Concerns(e, fn)
    ensures !AnyLaneCalls(e, w, fn, pt)
  {
    forall l: nat ensures !CallsAt(e, w, l, fn, pt) { UnconcernedCallsNothing(e, w, l, fn, pt); }
  }

  lemma NoLaneArgsCall(args: seq<Expr>, w: World, fn: string, pt: seq<int>)
    requires !ArgsConcern(args, fn)
    ensures !AnyLaneArgsCall(args, w, fn, pt)
  {
    forall l: nat ensures !ArgsCallAt(args, w, l, fn, pt) { UnconcernedArgsCallNothing(args, w, l, fn, pt); }
  }

  lemma {:induction false} IrrelevantTouchesNothing(s: Stmt, m: Mode, w: World, fn: string, pt: seq<int>)
    requires !Relevant(s, fn)
    ensures !Touches(s, m, w, fn, pt)
    decreases s
  {
    hide AnyLaneCalls, AnyLaneArgsCall, Concerns, ArgsConcern;
    match s
    case Block(first, rest) =>
      IrrelevantTouchesNothing(first, m, w, fn, pt);
      IrrelevantTouchesNothing(rest, m, w, fn, pt);
    case For(x, min, extent, body) =>
      NoLaneCalls(min, w, fn, pt);
      NoLaneCalls(extent, w, fn, pt);
      forall i: int ensures !Touches(body, m, LoopWorld(w, x, i), fn, pt) {
        IrrelevantTouchesNothing(body, m, LoopWorld(w, x, i), fn, pt);
      }
    case LetStmt(x, v, body) =>
      NoLaneCalls(v, w, fn, pt);
      IrrelevantTouchesNothing(body, m, LetWorld(w, x, v), fn, pt);
    case IfThenElse(c, t, e) =>
      NoLaneCalls(c, w, fn, pt);
      IrrelevantTouchesNothing(t, m, w, fn, pt);
      if e.Some? { IrrelevantTouchesNothing(e.value, m, w, fn, pt); }
    case Provide(_, values, args) =>
      NoLaneArgsCall(values, w, fn, pt);
      NoLaneArgsCall(args, w, fn, pt);
    case Evaluate(e) => NoLaneCalls(e, w, fn, pt);
  }

  /** In every run the filtered statement touches the same points of the Func asked for. */
  lemma {:induction false} FilterKeepsTouches(s: Stmt, m: Mode, w: World, fn: string, pt: seq<int>)
    ensures Touches(Filtered(s, fn), m, w, fn, pt) <==> Touches(s, m, w, fn, pt)
    decreases s, 1
  {
    if Relevant(s, fn) {
      InsideKeepsTouches(s, m, w, fn, pt);
    } else {
      IrrelevantTouchesNothing(s, m, w, fn, pt);
      NoOpTouchesNothing(NO_OP, m, w, fn, pt);
    }
  }

  lemma {:induction false} InsideKeepsTouches(s: Stmt, m: Mode, w: World, fn: string, pt: seq<int>)
    ensures Touches(Inside(s, fn), m, w, fn, pt) <==> Touches(s, m, w, fn, pt)
    decreases s, 0
  {
    hide AnyLaneCalls, AnyLaneArgsCall, Relevant;
    match s
    case Block(first, rest) =>
      FilterKeepsTouches(first, m, w, fn, pt);
      FilterKeepsTouches(rest, m, w, fn, pt);
    case For(x, min, extent, body) =>
      forall i: int
        ensures Touches(Filtered(body, fn), m, LoopWorld(w, x, i), fn, pt)
                <==> Touches(body, m, LoopWorld(w, x, i), fn, pt)
      {
        FilterKeepsTouches(body, m, LoopWorld(w, x, i), fn, pt);
      }
    case LetStmt(x, v, body) =>
      var v1 := LetWorld(w, x, v);
      if body.LetStmt? { InsideKeepsTouches(body, m, v1, fn, pt); } else { FilterKeepsTouches(body, m, v1, fn, pt); }
    case IfThenElse(c, t, e) =>
      FilterKeepsTouches(t, m, w, fn, pt);
      if e.Some? { FilterKeepsTouches(e.value, m, w, fn, pt); }
    case _ =>
  }

  lemma {:induction false} FilterKeepsOk(s: Stmt, fn: string, g: Program, seen: Lets)
    requires StmtOk(s, g.arity, seen) && StmtIn(s, g)
    ensures StmtOk(Filtered(s, fn), g.arity, seen) && StmtIn(Filtered(s, fn), g)
    decreases s, 1
  {
    if Relevant(s, fn) { InsideKeepsOk(s, fn, g, seen); } else { assert HasTy(I(0), IntT); }
  }

  lemma {:induction false} InsideKeepsOk(s: Stmt, fn: string, g: Program, seen: Lets)
    requires StmtOk(s, g.arity, seen) && StmtIn(s, g)
    ensures StmtOk(Inside(s, fn), g.arity, seen) && StmtIn(Inside(s, fn), g)
    decreases s, 0
  {
    hide Relevant, HasTy, ExprOk, Rebindable, Names;
    match s
    case Block(first, rest) =>
      FilterKeepsOk(first, fn, g, seen);
      FilterKeepsOk(rest, fn, g, seen);
    case For(_, _, _, body) => FilterKeepsOk(body, fn, g, seen);
    case LetStmt(x, v, body) =>
      if body.LetStmt? { InsideKeepsOk(body, fn, g, seen[x := v]); } else { FilterKeepsOk(body, fn, g, seen[x := v]); }
    case IfThenElse(_, t, e) =>
      FilterKeepsOk(t, fn, g, seen);
      if e.Some? { FilterKeepsOk(e.value, fn, g, seen); }
    case _ =>
  }

  // ----- solving conditions -----

  /** A solved condition makes the calls that the condition makes. */
  ghost predicate KeepsCalls(solve: Solver, arity: string -> nat) {
    && (forall e: Expr, x: Name, w: World, f: string, pt: seq<int> ::
          AnyLaneCalls(solve(e, x).0, w, f, pt) <==> AnyLaneCalls(e, w, f, pt))
    && (forall e: Expr, x: Name :: ExprOk(e, arity) ==> ExprOk(solve(e, x).0, arity))
  }

  lemma {:induction false} SolvedKeepsTouches(s: Stmt, d: Depths, n: nat, solve: Solver, arity: string -> nat, m: Mode,
      w: World, f: string, pt: seq<int>)
    requires Stacks(d) && SoundSolver(solve) && KeepsCalls(solve, arity)
    ensures Touches(Solved(s, d, n, solve), m, w, f, pt) <==> Touches(s, m, w, f, pt)
    decreases s
  {
    hide AnyLaneCalls, AnyLaneArgsCall, Eval, Push;
    match s
    case Block(first, rest) =>
      SolvedKeepsTouches(first, d, n, solve, arity, m, w, f, pt);
      SolvedKeepsTouches(rest, d, n, solve, arity, m, w, f, pt);
    case For(x, min, extent, body) =>
      PopPush(d, x, n);
      forall i: int
        ensures Touches(Solved(body, Push(d, x, n), n + 1, solve), m, LoopWorld(w, x, i), f, pt)
                <==> Touches(body, m, LoopWorld(w, x, i), f, pt)
      {
        SolvedKeepsTouches(body, Push(d, x, n), n + 1, solve, arity, m, LoopWorld(w, x, i), f, pt);
      }
    case LetStmt(x, v, body) =>
      PopPush(d, x, n);
      SolvedKeepsTouches(body, Push(d, x, n), n + 1, solve, arity, m, LetWorld(w, x, v), f, pt);
    case IfThenElse(c, t, e) =>
      SolvedKeepsTouches(t, d, n, solve, arity, m, w, f, pt);
      if e.Some? { SolvedKeepsTouches(e.value, d, n, solve, arity, m, w, f, pt); }
      assert Eval(SolvedCond(c, d, solve), w, 0) == Eval(c, w, 0);
      assert AnyLaneCalls(SolvedCond(c, d, solve), w, f, pt) <==> AnyLaneCalls(c, w, f, pt);
    case _ =>
  }

  lemma {:induction false} SolvedKeepsOk(s: Stmt, d: Depths, n: nat, solve: Solver, g: Program, seen: Lets)
    requires Stacks(d) && SoundSolver(solve) && KeepsCalls(solve, g.arity) && StmtOk(s, g.arity, seen) && StmtIn(s, g)
    ensures var r := Solved(s, d, n, solve); StmtOk(r, g.arity, seen) && StmtIn(r, g)
    decreases s
  {
    hide HasTy, ExprOk, Rebindable, Names, Push;
    match s
    case Block(first, rest) =>
      SolvedKeepsOk(first, d, n, solve, g, seen);
      SolvedKeepsOk(rest, d, n, solve, g, seen);
    case For(x, _, _, body) =>
      PopPush(d, x, n);
      SolvedKeepsOk(body, Push(d, x, n), n + 1, solve, g, seen);
    case LetStmt(x, v, body) =>
      PopPush(d, x, n);
      SolvedKeepsOk(body, Push(d, x, n), n + 1, solve, g, seen[x := v]);
    case IfThenElse(c, t, e) =>
      SolvedKeepsOk(t, d, n, solve, g, seen);
      if e.Some? { SolvedKeepsOk(e.value, d, n, solve, g, seen); }
      assert Names(SolvedCond(c, d, solve)) <= Names(c);
    case _ =>
  }

  // ----- the whole of boxes_touched -----

  function Prepared(s: Stmt, fn: string, solve: Solver): Stmt {
    Solved(if fn == "" then s else Filtered(s, fn), map[], 0, solve)
  }

  /** Filter, solve, find the boxes of calls and then those of stores, and join them. */
  method FindBoxes(s: Stmt, scope: Scope, c: Ctx, solve: Solver, fn: string, k: nat) returns (found: State)
    ensures found == BoxesTouched(Prepared(s, fn, solve), scope, c, solve, fn, k)
  {
    hide TouchStmt, Merge, Names, Size;
    var s1 := s;
    if fn != "" {
      var filter := new Filter(fn);
      s1 := filter.Mutate(s);
    }
    var solver := new SolveIfThenElse(solve);
    var s2 := solver.Mutate(s1);
    var calls := new BoxesVisitor(Tools(c, solve, Mode(true, false, fn)), scope, k);
    calls.Visit(s2);
    var stores := new BoxesVisitor(Tools(c, solve, Mode(false, true, fn)), scope, calls.k);
    stores.Visit(s2);
    var a, b := calls.boxes, stores.boxes;
    found := State(map f | f in a.Keys + b.Keys :: Merge(BoxOf(a, f), BoxOf(b, f), c.oracle), stores.k,
        Worse(calls.status, stores.status));
  }

  /** The boxes found for the filtered and solved statement hold every point that a
      run of the statement as it was touches. */
  lemma PreparedBoxesSound(s: Stmt, scope: Scope, c: Ctx, solve: Solver, fn: string, k: nat, g: Program,
      w: World, w': World, f: string, pt: seq<int>)
    requires Given(s, scope, c, solve, k, g) && KeepsCalls(solve, g.arity)
    requires BoxesTouched(Prepared(s, fn, solve), scope, c, solve, fn, k).Ok()
    requires Covers(scope, w, w') && AgreeOutside(g.names, scope, w, w') && FuncsCovered(c.funcBounds, w, w')
    requires Touches(s, Mode(true, true, fn), w, f, pt) && (f == fn || fn == "") && pt != []
    ensures var r := BoxesTouched(Prepared(s, fn, solve), scope, c, solve, fn, k);
            f in r.boxes && InBox(r.boxes[f], pt, w') && BoxesGood(r.boxes, r.k, g)
  {
    hide BoxesTouched, Touches, StmtOk, StmtIn, SoundOracle, Covers, AgreeOutside, InBox, BoxesGood, Filtered, Solved;
    hide SoundSolver, KeepsCalls, ScopeGood, FuncsGood, FuncsCovered;
    var s1, m := if fn == "" then s else Filtered(s, fn), Mode(true, true, fn);
    if fn != "" {
      FilterKeepsOk(s, fn, g, map[]);
      FilterKeepsTouches(s, m, w, fn, pt);
    }
    SolvedKeepsOk(s1, map[], 0, solve, g, map[]);
    SolvedKeepsTouches(s1, map[], 0, solve, g.arity, m, w, f, pt);
    BoxesTouchedSound(Prepared(s, fn, solve), scope, c, solve, fn, k, g, w, w', f, pt);
  }
}
