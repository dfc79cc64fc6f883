// Statements, and which points of which Funcs a run of a statement touches.

module Stmts {
  import opened Options
  import opened IR
  import opened Bounds

  datatype Stmt =
    | Block(first: Stmt, rest: Stmt)
    | For(x: Name, min: Expr, extent: Expr, body: Stmt)
    | LetStmt(x: Name, value: Expr, body: Stmt)
    | IfThenElse(cond: Expr, thenCase: Stmt, elseCase: Option<Stmt>)
    | Provide(func: string, values: seq<Expr>, args: seq<Expr>)
    | Evaluate(e: Expr)

  /** Whether calls, stores, or both are of interest, and of which Func ("" for all). */
  datatype Mode = Mode(calls: bool, stores: bool, fn: string) {
    predicate Wants(f: string) { f == fn || fn == "" }
  }

  // ----- what a run touches -----

  /** Evaluating lane `l` of `e` calls `f` at `pt`. */
  ghost predicate CallsAt(e: Expr, w: World, l: nat, f: string, pt: seq<int>)
    decreases e, 1
  {
    match e
    case Const(_, _) => false
    case Var(_) => false
    case Un(op, a) => CallsAt(a, w, if op.Broadcast? then 0 else l, f, pt)
    case Bin(_, a, b) => CallsAt(a, w, l, f, pt) || CallsAt(b, w, l, f, pt)
    case Select(c, t, g) => CallsAt(c, w, l, f, pt) || CallsAt(t, w, l, f, pt) || CallsAt(g, w, l, f, pt)
    case Ramp(b, s, _) => CallsAt(b, w, 0, f, pt) || CallsAt(s, w, 0, f, pt)
    case Let(x, v, b) => (exists m: nat :: CallsAt(v, w, m, f, pt)) || CallsAt(b, LetWorld(w, x, v), l, f, pt)
    case Call(ct, g, _, args) => ArgsCallAt(args, w, l, f, pt) || (ct.FuncCall? && g == f && pt == EvalArgs(args, w, l))
  }

  ghost predicate ArgsCallAt(args: seq<Expr>, w: World, l: nat, f: string, pt: seq<int>)
    decreases args, 0
  {
    args != [] && (CallsAt(args[0], w, l, f, pt) || ArgsCallAt(args[1..], w, l, f, pt))
  }

  ghost predicate AnyLaneCalls(e: Expr, w: World, f: string, pt: seq<int>) {
    exists l: nat :: CallsAt(e, w, l, f, pt)
  }

  ghost predicate AnyLaneArgsCall(args: seq<Expr>, w: World, f: string, pt: seq<int>) {
    exists l: nat :: ArgsCallAt(args, w, l, f, pt)
  }

  ghost predicate StoresAt(args: seq<Expr>, w: World, pt: seq<int>) {
    exists l: nat :: pt == EvalArgs(args, w, l)
  }

  function LoopWorld(w: World, x: Name, i: int): World { Bind(w, x, (m: nat) => i) }

  /** A run of `s` from `w` touches `f` at `pt`, by a call or a store as the mode says. */
  ghost predicate Touches(s: Stmt, m: Mode, w: World, f: string, pt: seq<int>) {
    match s
    case Block(first, rest) => Touches(first, m, w, f, pt) || Touches(rest, m, w, f, pt)
    case For(x, min, extent, body) =>
      || (m.calls && (AnyLaneCalls(min, w, f, pt) || AnyLaneCalls(extent, w, f, pt)))
      || exists i :: Eval(min, w, 0) <= i < Eval(min, w, 0) + Eval(extent, w, 0)
          && Touches(body, m, LoopWorld(w, x, i), f, pt)
    case LetStmt(x, v, body) =>
      (m.calls && AnyLaneCalls(v, w, f, pt)) || Touches(body, m, LetWorld(w, x, v), f, pt)
    case IfThenElse(c, t, e) =>
      || (m.calls && AnyLaneCalls(c, w, f, pt))
      || (if Eval(c, w, 0) != 0 then Touches(t, m, w, f, pt) else e.Some? && Touches(e.value, m, w, f, pt))
    case Provide(g, values, args) =>
      || (m.stores && g == f && StoresAt(args, w, pt))
      || (m.calls && (AnyLaneArgsCall(args, w, f, pt) || AnyLaneArgsCall(values, w, f, pt)))
    case Evaluate(e) => m.calls && AnyLaneCalls(e, w, f, pt)
  }

  // ----- variables of expressions and statements -----

  /** The occurrences of variables, in the order a visitor meets them. */
  function Occurrences(e: Expr): (r: seq<Name>)
    decreases e, 1
  {
    match e
    case Const(_, _) => []
    case Var(x) => [x]
    case Un(_, a) => Occurrences(a)
    case Bin(_, a, b) => Occurrences(a) + Occurrences(b)
    case Select(c, t, f) => Occurrences(c) + Occurrences(t) + Occurrences(f)
    case Ramp(b, s, _) => Occurrences(b) + Occurrences(s)
    case Let(_, v, b) => Occurrences(v) + Occurrences(b)
    case Call(_, _, _, args) => OccurrencesIn(args)
  }

  function OccurrencesIn(args: seq<Expr>): seq<Name>
    decreases args, 0
  {
    if args == [] then [] else Occurrences(args[0]) + OccurrencesIn(args[1..])
  }

  lemma {:induction false} OccurrencesAreNames(e: Expr)
    ensures forall x :: x in Occurrences(e) ==> x in Names(e)
    decreases e, 1
  {
    match e
    case Const(_, _) =>
    case Var(_) =>
    case Un(_, a) => OccurrencesAreNames(a);
    case Bin(_, a, b) => OccurrencesAreNames(a); OccurrencesAreNames(b);
    case Select(c, t, f) => OccurrencesAreNames(c); OccurrencesAreNames(t); OccurrencesAreNames(f);
    case Ramp(b, s, _) => OccurrencesAreNames(b); OccurrencesAreNames(s);
    case Let(_, v, b) => OccurrencesAreNames(v); OccurrencesAreNames(b);
    case Call(_, _, _, args) => OccurrencesInAreNames(args);
  }

  lemma {:induction false} OccurrencesInAreNames(args: seq<Expr>)
    ensures forall x :: x in OccurrencesIn(args) ==> x in NamesOfAll(args)
    decreases args, 0
  {
    if args != [] { OccurrencesAreNames(args[0]); OccurrencesInAreNames(args[1..]); }
  }

  /** Number of variable occurrences (CountVars). */
  function VarCount(e: Expr): nat { |Occurrences(e)| }

  predicate IsNoOp(s: Stmt) { s.Evaluate? && IsPure(s.e) }

  lemma {:induction false} PureCallsNothing(e: Expr, w: World, l: nat, f: string, pt: seq<int>)
    requires IsPure(e)
    ensures !CallsAt(e, w, l, f, pt)
    decreases e, 1
  {
    match e
    case Const(_, _) =>
    case Var(_) =>
    case Un(op, a) => PureCallsNothing(a, w, if op.Broadcast? then 0 else l, f, pt);
    case Bin(_, a, b) => PureCallsNothing(a, w, l, f, pt); PureCallsNothing(b, w, l, f, pt);
    case Select(c, t, g) =>
      PureCallsNothing(c, w, l, f, pt); PureCallsNothing(t, w, l, f, pt); PureCallsNothing(g, w, l, f, pt);
    case Ramp(b, s, _) => PureCallsNothing(b, w, 0, f, pt); PureCallsNothing(s, w, 0, f, pt);
    case Let(x, v, b) =>
      forall m: nat ensures !CallsAt(v, w, m, f, pt) { PureCallsNothing(v, w, m, f, pt); }
      PureCallsNothing(b, LetWorld(w, x, v), l, f, pt);
    case Call(_, _, _, args) => PureArgsCallNothing(args, w, l, f, pt);
  }

  lemma {:induction false} PureArgsCallNothing(args: seq<Expr>, w: World, l: nat, f: string, pt: seq<int>)
    requires AllPure(args)
    ensures !ArgsCallAt(args, w, l, f, pt)
    decreases args, 0
  {
    if args != [] {
      PureCallsNothing(args[0], w, l, f, pt);
      PureArgsCallNothing(args[1..], w, l, f, pt);
    }
  }

  lemma NoOpTouchesNothing(s: Stmt, m: Mode, w: World, f: string, pt: seq<int>)
    requires IsNoOp(s)
    ensures !Touches(s, m, w, f, pt)
  {
    forall l: nat ensures !CallsAt(s.e, w, l, f, pt) { PureCallsNothing(s.e, w, l, f, pt); }
  }

  // ----- well-formed programs -----

  function StmtNames(s: Stmt): set<Name> {
    match s
    case Block(first, rest) => StmtNames(first) + StmtNames(rest)
    case For(x, min, extent, body) => {x} + Names(min) + Names(extent) + StmtNames(body)
    case LetStmt(x, v, body) => {x} + Names(v) + StmtNames(body)
    case IfThenElse(c, t, e) => Names(c) + StmtNames(t) + (if e.Some? then StmtNames(e.value) else {})
    case Provide(_, values, args) => NamesOfAll(values) + NamesOfAll(args)
    case Evaluate(e) => Names(e)
  }

  /** Calls take as many arguments as the Func has dimensions; lets bind scalars. */
  ghost predicate ExprOk(e: Expr, arity: string -> nat)
    decreases e, 1
  {
    match e
    case Const(_, _) => true
    case Var(_) => true
    case Un(_, a) => ExprOk(a, arity)
    case Bin(_, a, b) => ExprOk(a, arity) && ExprOk(b, arity)
    case Select(c, t, f) => ExprOk(c, arity) && ExprOk(t, arity) && ExprOk(f, arity)
    case Ramp(b, s, _) => ExprOk(b, arity) && ExprOk(s, arity)
    case Let(x, v, b) => !x.vec && ExprOk(v, arity) && ExprOk(b, arity)
    case Call(ct, f, _, args) => (ct.FuncCall? ==> |args| == arity(f)) && ArgsOk(args, arity)
  }

  ghost predicate ArgsOk(args: seq<Expr>, arity: string -> nat)
    decreases args, 0
  {
    args != [] ==> ExprOk(args[0], arity) && ArgsOk(args[1..], arity)
  }

  ghost predicate TypedArgs(args: seq<Expr>) { forall i :: 0 <= i < |args| ==> HasTy(args[i], IntT) }

  type Lets = map<Name, Expr>

  /** Binding `x` again leaves every let of `lets` but its own as it was. */
  predicate Rebindable(x: Name, lets: Lets) { forall y :: y in lets && y != x ==> x !in Names(lets[y]) }

  /** Well typed, with scalar loop and let variables. A variable may be bound
      again, but not while the value of a let that can still be seen mentions
      it; a loop does not take the name of such a let; and a let's value does
      not mention the let's own name. `seen` holds the lets that can be seen. */
  ghost predicate StmtOk(s: Stmt, arity: string -> nat, seen: Lets) {
    match s
    case Block(first, rest) => StmtOk(first, arity, seen) && StmtOk(rest, arity, seen)
    case For(x, min, extent, body) =>
      && !x.vec && x.ty.IntT? && HasTy(min, IntT) && HasTy(extent, IntT) && ExprOk(min, arity) && ExprOk(extent, arity)
      && x !in seen && Rebindable(x, seen) && StmtOk(body, arity, seen)
    case LetStmt(x, v, body) =>
      && !x.vec && HasTy(v, x.ty) && ExprOk(v, arity)
      && x !in Names(v) && Rebindable(x, seen) && StmtOk(body, arity, seen[x := v])
    case IfThenElse(c, t, e) =>
      && HasTy(c, BoolT) && ExprOk(c, arity)
      && StmtOk(t, arity, seen) && (e.Some? ==> StmtOk(e.value, arity, seen))
    case Provide(f, values, args) =>
      && TypedArgs(values) && TypedArgs(args) && ArgsOk(values, arity) && ArgsOk(args, arity) && |args| == arity(f)
    case Evaluate(e) => (exists ty :: HasTy(e, ty)) && ExprOk(e, arity)
  }
}
