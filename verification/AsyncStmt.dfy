// Statements with produce and consume nodes and semaphores, and the events of
// running them (the input of src/AsyncProducers.cpp).

module AsyncStmts {
  import opened Decimal

  type Env = string -> int

  /** The storage of one copy of a Func. */
  type Cells = seq<int> -> int

  /** A constant, or an expression known by what it computes and the variables it mentions. */
  datatype Expr = Lit(n: int) | Expr(id: nat, vars: set<string>) {
    function Uses(): set<string> { if Expr? then vars else {} }
  }

  datatype Stmt =
    | Skip
    | Leaf(id: nat)
    | Release(sema: string)
    | Block(first: Stmt, rest: Stmt)
    | For(x: string, min: Expr, extent: Expr, body: Stmt)
    | LetStmt(x: string, value: Expr, body: Stmt)
    | IfThenElse(cond: Expr, thenCase: Stmt, elseCase: Stmt)
    | Realize(name: string, body: Stmt)
    | HoistedStorage(name: string, body: Stmt)
    | Produce(name: string, body: Stmt)
    | Consume(name: string, body: Stmt)
    | Acquire(sema: string, count: Expr, body: Stmt)

  /** What a task does that another task can notice. */
  datatype Event =
    | Acq(sema: string, n: int)
    | Rel(sema: string)
    | Write(slot: int, f: Cells -> Cells)
    | Read(slot: int, g: Cells -> int)

  /** The meaning of expressions and of leaf statements. */
  datatype Interp = Interp(value: (nat, map<string, int>) -> int, acts: (nat, Env) -> seq<Event>)

  function ValueOf(e: Expr, env: Env, i: Interp): int {
    if e.Lit? then e.n else i.value(e.id, map x | x in e.vars :: env(x))
  }

  function Extend(env: Env, x: string, v: int): Env { (y: string) => if y == x then v else env(y) }

  lemma ValueUnused(e: Expr, env: Env, x: string, v: int, i: Interp)
    requires x !in e.Uses()
    ensures ValueOf(e, Extend(env, x, v), i) == ValueOf(e, env, i)
  {
    if e.Expr? {
      assert (map y | y in e.vars :: Extend(env, x, v)(y)) == (map y | y in e.vars :: env(y));
    }
  }

  /** The events of running a statement on its own. */
  function Trace(s: Stmt, env: Env, i: Interp): seq<Event>
    decreases s, 0
  {
    match s
    case Skip => []
    case Leaf(id) => i.acts(id, env)
    case Release(sema) => [Rel(sema)]
    case Block(first, rest) => Trace(first, env, i) + Trace(rest, env, i)
    case For(x, min, extent, body) => LoopTrace(x, ValueOf(min, env, i), ValueOf(extent, env, i), body, env, i)
    case LetStmt(x, v, body) => Trace(body, Extend(env, x, ValueOf(v, env, i)), i)
    case IfThenElse(c, a, b) => if ValueOf(c, env, i) != 0 then Trace(a, env, i) else Trace(b, env, i)
    case Realize(_, body) => Trace(body, env, i)
    case HoistedStorage(_, body) => Trace(body, env, i)
    case Produce(_, body) => Trace(body, env, i)
    case Consume(_, body) => Trace(body, env, i)
    case Acquire(sema, n, body) => [Acq(sema, ValueOf(n, env, i))] + Trace(body, env, i)
  }

  function LoopTrace(x: string, from: int, n: int, body: Stmt, env: Env, i: Interp): seq<Event>
    decreases body, 1, n
  {
    if n <= 0 then [] else Trace(body, Extend(env, x, from), i) + LoopTrace(x, from + 1, n - 1, body, env, i)
  }

  function Size(s: Stmt): nat {
    match s
    case Skip | Leaf(_) | Release(_) => 1
    case Block(first, rest) => 1 + Size(first) + Size(rest)
    case IfThenElse(_, a, b) => 1 + Size(a) + Size(b)
    case For(_, _, _, body) => 1 + Size(body)
    case LetStmt(_, _, body) => 1 + Size(body)
    case Realize(_, body) => 1 + Size(body)
    case HoistedStorage(_, body) => 1 + Size(body)
    case Produce(_, body) => 1 + Size(body)
    case Consume(_, body) => 1 + Size(body)
    case Acquire(_, _, body) => 1 + Size(body)
  }

  // ----- statements built with no-ops folded away -----

  predicate IsNoOp(s: Stmt) { s.Skip? }

  function FoldBlock(first: Stmt, rest: Stmt): Stmt {
    if IsNoOp(first) then rest else if IsNoOp(rest) then first else Block(first, rest)
  }

  function FoldIf(c: Expr, a: Stmt, b: Stmt): Stmt {
    if IsNoOp(a) && IsNoOp(b) then a else IfThenElse(c, a, b)
  }

  /** A loop, a let, or a storage scope around nothing is nothing. */
  function FoldAround(outer: Stmt, body: Stmt): Stmt { if IsNoOp(body) then body else outer }

  lemma {:induction false} EmptyLoop(x: string, from: int, n: int, env: Env, i: Interp)
    ensures LoopTrace(x, from, n, Skip, env, i) == []
    decreases n
  {
    if n > 0 { EmptyLoop(x, from + 1, n - 1, env, i); }
  }

  // ----- names of semaphores -----

  predicate StartsWith(s: string, p: string) { |p| <= |s| && s[..|p|] == p }

  predicate IsFolding(sema: string, func: string) { StartsWith(sema, func + ".folding_semaphore.") }

  function RingSema(func: string): string { func + ".folding_semaphore.ring_buffer" }

  function TaskSema(func: string, j: nat): string { func + ".semaphore_" + Digits(j) }

  lemma SemaNames(func: string, j: nat, k: nat)
    ensures IsFolding(RingSema(func), func) && !IsFolding(TaskSema(func, j), func)
    ensures TaskSema(func, j) == TaskSema(func, k) ==> j == k
    ensures TaskSema(func, j) != RingSema(func)
  {
    var n := |func|;
    var p, q := func + ".folding_semaphore.", func + ".semaphore_";
    assert RingSema(func) == p + "ring_buffer";
    assert TaskSema(func, j)[n + 1] == 's' && p[n + 1] == 'f';
    if TaskSema(func, j) == TaskSema(func, k) {
      assert TaskSema(func, j)[|q|..] == Digits(j) && TaskSema(func, k)[|q|..] == Digits(k);
      DigitsDiffer(j, k);
    }
  }
}
