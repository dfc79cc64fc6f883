// Broadening acquires (ExpandAcquireNodes of src/AsyncProducers.cpp): an
// acquire is moved out over lets, storage and the rest of a block, and every
// task still does the same things in the same order.

module AsyncExpanding {
  import opened AsyncStmts

  /** A statement and the acquires around it, outermost first. */
  function Peel(s: Stmt): (r: (seq<(string, Expr)>, Stmt))
    ensures !r.1.Acquire?
    ensures Size(r.1) + |r.0| == Size(s)
  {
    if s.Acquire? then
      var (outer, body) := Peel(s.body);
      ([(s.sema, s.count)] + outer, body)
    else ([], s)
  }

  function Around(outer: seq<(string, Expr)>, s: Stmt): (r: Stmt)
    ensures Size(r) == |outer| + Size(s)
  {
    if outer == [] then s else Acquire(outer[0].0, outer[0].1, Around(outer[1..], s))
  }

  function Expand(s: Stmt): (r: Stmt)
    ensures Size(r) == Size(s)
    decreases Size(s), 1
  {
    match s
    case Block(first, rest) =>
      var (outer, body) := Peel(Expand(first));
      Around(outer, Block(body, Expand(rest)))
    case LetStmt(x, v, body) => PullLet(x, v, Expand(body))
    case Realize(_, _) | HoistedStorage(_, _) | Produce(_, _) | Consume(_, _) => PullScope(s, Expand(s.body))
    case For(x, min, extent, body) => For(x, min, extent, Expand(body))
    case IfThenElse(c, a, b) => IfThenElse(c, Expand(a), Expand(b))
    case Acquire(sema, n, body) => Acquire(sema, n, Expand(body))
    case Skip | Leaf(_) | Release(_) => s
  }

  /** An acquire directly inside a let moves out when it does not mention the variable. */
  function PullLet(x: string, v: Expr, body: Stmt): (r: Stmt)
    ensures Size(r) == 1 + Size(body)
  {
    if body.Acquire? && x != body.sema && x !in body.count.Uses() then
      Acquire(body.sema, body.count, LetStmt(x, v, body.body))
    else LetStmt(x, v, body)
  }

  predicate IsScope(s: Stmt) { s.Realize? || s.HoistedStorage? || s.Produce? || s.Consume? }

  /** Storage and produce or consume nodes around another body. */
  function WithBody(s: Stmt, body: Stmt): (r: Stmt)
    requires IsScope(s)
    ensures Size(r) == 1 + Size(body)
  {
    match s
    case Realize(f, _) => Realize(f, body)
    case HoistedStorage(f, _) => HoistedStorage(f, body)
    case Produce(f, _) => Produce(f, body)
    case Consume(f, _) => Consume(f, body)
  }

  function PullScope(s: Stmt, body: Stmt): (r: Stmt)
    requires IsScope(s) && Size(body) == Size(s) - 1
    ensures Size(r) == Size(s)
    decreases Size(s), 0
  {
    if body.Acquire? then Acquire(body.sema, body.count, Expand(WithBody(s, body.body)))
    else WithBody(s, body)
  }

  // ----- the events are the same -----

  lemma {:induction false} AroundTrace(outer: seq<(string, Expr)>, a: Stmt, b: Stmt, env: Env, i: Interp)
    ensures Trace(Around(outer, Block(a, b)), env, i) == Trace(Around(outer, a), env, i) + Trace(b, env, i)
  {
    if outer != [] {
      AroundTrace(outer[1..], a, b, env, i);
      var head := [Acq(outer[0].0, ValueOf(outer[0].1, env, i))];
      assert head + (Trace(Around(outer[1..], a), env, i) + Trace(b, env, i))
          == (head + Trace(Around(outer[1..], a), env, i)) + Trace(b, env, i);
    }
  }

  lemma {:induction false} PeelAround(s: Stmt)
    ensures Around(Peel(s).0, Peel(s).1) == s
  {
    if s.Acquire? {
      PeelAround(s.body);
      var (outer, body) := Peel(s.body);
      assert ([(s.sema, s.count)] + outer)[1..] == outer;
    }
  }

  /** A task whose acquires have been broadened does the same acquires, body
      events and releases in the same order. */
  lemma {:induction false} ExpandKeepsTrace(s: Stmt, env: Env, i: Interp)
    ensures Trace(Expand(s), env, i) == Trace(s, env, i)
    decreases Size(s), 1
  {
    match s
    case Block(first, rest) =>
      var (outer, body) := Peel(Expand(first));
      ExpandKeepsTrace(first, env, i);
      ExpandKeepsTrace(rest, env, i);
      PeelAround(Expand(first));
      AroundTrace(outer, body, Expand(rest), env, i);
    case LetStmt(x, v, body) =>
      ExpandKeepsTrace(body, Extend(env, x, ValueOf(v, env, i)), i);
      PullLetTrace(x, v, Expand(body), env, i);
    case Realize(_, body) => PullScopeTrace(s, env, i);
    case HoistedStorage(_, body) => PullScopeTrace(s, env, i);
    case Produce(_, body) => PullScopeTrace(s, env, i);
    case Consume(_, body) => PullScopeTrace(s, env, i);
    case For(x, min, extent, body) =>
      ExpandLoopTrace(x, ValueOf(min, env, i), ValueOf(extent, env, i), body, env, i);
    case IfThenElse(c, a, b) => ExpandKeepsTrace(a, env, i); ExpandKeepsTrace(b, env, i);
    case Acquire(sema, n, body) => ExpandKeepsTrace(body, env, i);
    case _ =>
  }

  lemma PullLetTrace(x: string, v: Expr, body: Stmt, env: Env, i: Interp)
    ensures Trace(PullLet(x, v, body), env, i) == Trace(LetStmt(x, v, body), env, i)
  {
    if body.Acquire? && x !in body.count.Uses() { ValueUnused(body.count, env, x, ValueOf(v, env, i), i); }
  }

  lemma PullScopeTrace(s: Stmt, env: Env, i: Interp)
    requires IsScope(s)
    ensures Trace(Expand(s), env, i) == Trace(s, env, i)
    decreases Size(s), 0
  {
    var body := Expand(s.body);
    ExpandKeepsTrace(s.body, env, i);
    if body.Acquire? { ExpandKeepsTrace(WithBody(s, body.body), env, i); }
  }

  lemma ExpandLoopTrace(x: string, from: int, n: int, body: Stmt, env: Env, i: Interp)
    ensures LoopTrace(x, from, n, Expand(body), env, i) == LoopTrace(x, from, n, body, env, i)
    decreases Size(body), 2, n
  {
    if n > 0 {
      ExpandKeepsTrace(body, Extend(env, x, from), i);
      ExpandLoopTrace(x, from + 1, n - 1, body, env, i);
    }
  }
}
