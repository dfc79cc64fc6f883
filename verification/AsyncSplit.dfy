// The two halves of a forked ring-buffered producer, run in any interleaving,
// do what the loops did before forking.

module AsyncSplitting {
  import opened AsyncStmts
  import opened AsyncForking
  import opened Runs = AsyncRuns

  type Events = seq<Event>

  // ----- statements that have nothing to do with the Func -----

  /** No node of `f`, no semaphore, and only leaves that do nothing another task can notice. */
  predicate Quiet(s: Stmt, f: string, silent: set<nat>) {
    match s
    case Skip => true
    case Leaf(id) => id in silent
    case Release(_) | Acquire(_, _, _) => false
    case Block(a, b) => Quiet(a, f, silent) && Quiet(b, f, silent)
    case IfThenElse(_, a, b) => Quiet(a, f, silent) && Quiet(b, f, silent)
    case For(_, _, _, b) => Quiet(b, f, silent)
    case LetStmt(_, _, b) => Quiet(b, f, silent)
    case Realize(_, b) => Quiet(b, f, silent)
    case HoistedStorage(_, b) => Quiet(b, f, silent)
    case Produce(g, b) => g != f && Quiet(b, f, silent)
    case Consume(g, b) => g != f && Quiet(b, f, silent)
  }

  ghost predicate Silent(i: Interp, silent: set<nat>) {
    forall id: nat, env: Env :: id in silent ==> i.acts(id, env) == []
  }

  lemma {:induction false} QuietTrace(s: Stmt, f: string, silent: set<nat>, env: Env, i: Interp)
    requires Quiet(s, f, silent) && Silent(i, silent)
    ensures AsyncStmts.Trace(s, env, i) == []
    decreases s, 0
  {
    match s
    case Block(a, b) => QuietTrace(a, f, silent, env, i); QuietTrace(b, f, silent, env, i);
    case IfThenElse(_, a, b) => QuietTrace(a, f, silent, env, i); QuietTrace(b, f, silent, env, i);
    case For(x, min, extent, b) => QuietLoop(x, ValueOf(min, env, i), ValueOf(extent, env, i), b, f, silent, env, i);
    case LetStmt(x, v, b) => QuietTrace(b, f, silent, Extend(env, x, ValueOf(v, env, i)), i);
    case Realize(_, b) => QuietTrace(b, f, silent, env, i);
    case HoistedStorage(_, b) => QuietTrace(b, f, silent, env, i);
    case Produce(_, b) => QuietTrace(b, f, silent, env, i);
    case Consume(_, b) => QuietTrace(b, f, silent, env, i);
    case _ =>
  }

  lemma QuietLoop(x: string, from: int, n: int, body: Stmt, f: string, silent: set<nat>, env: Env, i: Interp)
    requires Quiet(body, f, silent) && Silent(i, silent)
    ensures LoopTrace(x, from, n, body, env, i) == []
    decreases body, 1, n
  {
    if n > 0 {
      QuietTrace(body, f, silent, Extend(env, x, from), i);
      QuietLoop(x, from + 1, n - 1, body, f, silent, env, i);
    }
  }

  predicate NoProduce(s: Stmt, f: string) {
    match s
    case Skip | Leaf(_) | Release(_) => true
    case Block(a, b) => NoProduce(a, f) && NoProduce(b, f)
    case IfThenElse(_, a, b) => NoProduce(a, f) && NoProduce(b, f)
    case For(_, _, _, b) => NoProduce(b, f)
    case LetStmt(_, _, b) => NoProduce(b, f)
    case Realize(_, b) => NoProduce(b, f)
    case HoistedStorage(_, b) => NoProduce(b, f)
    case Produce(g, b) => g != f && NoProduce(b, f)
    case Consume(_, b) => NoProduce(b, f)
    case Acquire(_, _, b) => NoProduce(b, f)
  }

  lemma {:induction false} QuietProducesNothing(s: Stmt, f: string, silent: set<nat>)
    requires Quiet(s, f, silent)
    ensures NoProduce(s, f) && CountConsumes(s, f) == 0
  {
    match s
    case Block(a, b) => QuietProducesNothing(a, f, silent); QuietProducesNothing(b, f, silent);
    case IfThenElse(_, a, b) => QuietProducesNothing(a, f, silent); QuietProducesNothing(b, f, silent);
    case For(_, _, _, b) => QuietProducesNothing(b, f, silent);
    case LetStmt(_, _, b) => QuietProducesNothing(b, f, silent);
    case Realize(_, b) => QuietProducesNothing(b, f, silent);
    case HoistedStorage(_, b) => QuietProducesNothing(b, f, silent);
    case Produce(_, b) => QuietProducesNothing(b, f, silent);
    case Consume(_, b) => QuietProducesNothing(b, f, silent);
    case _ =>
  }

  /** The producer's half of a statement that produces nothing is nothing. */
  lemma {:induction false} ProducesNothing(s: Stmt, f: string, st: PState)
    requires NoProduce(s, f)
    ensures ProducerBody(s, f, st).0 == Skip && ProducerBody(s, f, st).1.semas == st.semas
    decreases s
  {
    match s
    case Block(a, b) => ProducesNothing(a, f, st); ProducesNothing(b, f, ProducerBody(a, f, st).1);
    case IfThenElse(_, a, b) => ProducesNothing(a, f, st); ProducesNothing(b, f, ProducerBody(a, f, st).1);
    case For(_, _, _, b) => ProducesNothing(b, f, st);
    case LetStmt(_, _, b) => ProducesNothing(b, f, st);
    case Realize(_, b) => ProducesNothing(b, f, st);
    case HoistedStorage(_, b) => ProducesNothing(b, f, st);
    case Produce(g, b) => ProducesNothing(b, f, st.(dropped := st.dropped + {g}));
    case Consume(_, b) => ProducesNothing(b, f, st);
    case Acquire(_, _, b) => ProducesNothing(b, f, st);
    case _ =>
  }

  lemma {:induction false} QuietConsumer(s: Stmt, f: string, silent: set<nat>, semas: seq<string>)
    requires Quiet(s, f, silent)
    ensures Quiet(ConsumerBody(s, f, semas).0, f, silent) && ConsumerBody(s, f, semas).1 == semas
  {
    match s
    case Block(a, b) => QuietConsumer(a, f, silent, semas); QuietConsumer(b, f, silent, semas);
    case IfThenElse(_, a, b) => QuietConsumer(a, f, silent, semas); QuietConsumer(b, f, silent, semas);
    case For(_, _, _, b) => QuietConsumer(b, f, silent, semas);
    case LetStmt(_, _, b) => QuietConsumer(b, f, silent, semas);
    case Realize(_, b) => QuietConsumer(b, f, silent, semas);
    case HoistedStorage(_, b) => QuietConsumer(b, f, silent, semas);
    case Produce(_, b) => QuietConsumer(b, f, silent, semas);
    case Consume(_, b) => QuietConsumer(b, f, silent, semas);
    case _ =>
  }

  // ----- folding away no-ops keeps the events -----

  lemma FoldTrace(a: Stmt, b: Stmt, c: Expr, env: Env, i: Interp)
    ensures AsyncStmts.Trace(FoldBlock(a, b), env, i) == AsyncStmts.Trace(a, env, i) + AsyncStmts.Trace(b, env, i)
    ensures AsyncStmts.Trace(FoldIf(c, a, b), env, i) == AsyncStmts.Trace(IfThenElse(c, a, b), env, i)
  {}

  lemma FoldAroundTrace(x: string, min: Expr, extent: Expr, b: Stmt, env: Env, i: Interp)
    ensures AsyncStmts.Trace(FoldAround(For(x, min, extent, b), b), env, i)
            == LoopTrace(x, ValueOf(min, env, i), ValueOf(extent, env, i), b, env, i)
    ensures AsyncStmts.Trace(FoldAround(LetStmt(x, min, b), b), env, i)
            == AsyncStmts.Trace(b, Extend(env, x, ValueOf(min, env, i)), i)
  {
    if IsNoOp(b) { EmptyLoop(x, ValueOf(min, env, i), ValueOf(extent, env, i), env, i); }
  }

  // ----- one iteration -----

  /** Consume nodes only. */
  predicate Consuming(s: Stmt, f: string, silent: set<nat>) {
    || Quiet(s, f, silent)
    || (match s
        case Block(a, b) => Consuming(a, f, silent) && Consuming(b, f, silent)
        case LetStmt(_, _, b) => Consuming(b, f, silent)
        case Realize(_, b) => Consuming(b, f, silent)
        case HoistedStorage(_, b) => Consuming(b, f, silent)
        case Produce(g, b) => g != f && Consuming(b, f, silent)
        case Consume(g, b) => if g == f then NoProduce(b, f) && CountConsumes(b, f) == 0 else Consuming(b, f, silent)
        case _ => false)
  }

  /** One produce node, and consume nodes only after it. */
  predicate Iterating(s: Stmt, f: string, silent: set<nat>) {
    match s
    case Block(a, b) =>
      (Iterating(a, f, silent) && Consuming(b, f, silent)) || (Quiet(a, f, silent) && Iterating(b, f, silent))
    case LetStmt(_, _, b) => Iterating(b, f, silent)
    case Realize(_, b) => Iterating(b, f, silent)
    case HoistedStorage(_, b) => Iterating(b, f, silent)
    case Produce(g, b) => if g == f then CountConsumes(b, f) == 0 else Iterating(b, f, silent)
    case Consume(g, b) => g != f && Iterating(b, f, silent)
    case _ => false
  }

  /** What the produce node does in one iteration. */
  function Production(s: Stmt, f: string, silent: set<nat>, env: Env, i: Interp): Events {
    match s
    case Block(a, b) =>
      if Iterating(a, f, silent) && Consuming(b, f, silent) then Production(a, f, silent, env, i)
      else Production(b, f, silent, env, i)
    case LetStmt(x, v, b) => Production(b, f, silent, Extend(env, x, ValueOf(v, env, i)), i)
    case Realize(_, b) => Production(b, f, silent, env, i)
    case HoistedStorage(_, b) => Production(b, f, silent, env, i)
    case Produce(g, b) => if g == f then AsyncStmts.Trace(b, env, i) else Production(b, f, silent, env, i)
    case Consume(g, b) => Production(b, f, silent, env, i)
    case _ => []
  }

  /** What each consume node does in one iteration, in order. */
  function Consumption(s: Stmt, f: string, silent: set<nat>, env: Env, i: Interp): seq<Events> {
    if Quiet(s, f, silent) then []
    else
      match s
      case Block(a, b) => Consumption(a, f, silent, env, i) + Consumption(b, f, silent, env, i)
      case LetStmt(x, v, b) => Consumption(b, f, silent, Extend(env, x, ValueOf(v, env, i)), i)
      case Realize(_, b) => Consumption(b, f, silent, env, i)
      case HoistedStorage(_, b) => Consumption(b, f, silent, env, i)
      case Produce(g, b) => if g == f then [] else Consumption(b, f, silent, env, i)
      case Consume(g, b) => if g == f then [AsyncStmts.Trace(b, env, i)] else Consumption(b, f, silent, env, i)
      case _ => []
  }

  lemma {:induction false} FlatAppend(a: seq<Events>, b: seq<Events>)
    ensures Flat(a + b) == Flat(a) + Flat(b)
  {
    if a == [] { assert a + b == b; } else {
      assert (a + b)[1..] == a[1..] + b;
      FlatAppend(a[1..], b);
    }
  }

  lemma {:induction false} ConsumingTrace(s: Stmt, f: string, silent: set<nat>, env: Env, i: Interp)
    requires Consuming(s, f, silent) && Silent(i, silent)
    ensures AsyncStmts.Trace(s, env, i) == Flat(Consumption(s, f, silent, env, i))
    ensures |Consumption(s, f, silent, env, i)| == CountConsumes(s, f) && NoProduce(s, f)
  {
    if Quiet(s, f, silent) {
      QuietTrace(s, f, silent, env, i);
      QuietProducesNothing(s, f, silent);
    } else {
      match s
      case Block(a, b) =>
        ConsumingTrace(a, f, silent, env, i);
        ConsumingTrace(b, f, silent, env, i);
        FlatAppend(Consumption(a, f, silent, env, i), Consumption(b, f, silent, env, i));
      case LetStmt(x, v, b) => ConsumingTrace(b, f, silent, Extend(env, x, ValueOf(v, env, i)), i);
      case Realize(_, b) => ConsumingTrace(b, f, silent, env, i);
      case HoistedStorage(_, b) => ConsumingTrace(b, f, silent, env, i);
      case Produce(_, b) => ConsumingTrace(b, f, silent, env, i);
      case Consume(g, b) => if g != f { ConsumingTrace(b, f, silent, env, i); }
      case _ =>
    }
  }

  /** An iteration on its own: what is produced, then what is consumed. */
  lemma {:induction false} IterationTrace(s: Stmt, f: string, silent: set<nat>, env: Env, i: Interp)
    requires Iterating(s, f, silent) && Silent(i, silent)
    ensures AsyncStmts.Trace(s, env, i) == Production(s, f, silent, env, i) + Flat(Consumption(s, f, silent, env, i))
    ensures |Consumption(s, f, silent, env, i)| == CountConsumes(s, f) && !Quiet(s, f, silent)
  {
    match s
    case Block(a, b) =>
      if Iterating(a, f, silent) && Consuming(b, f, silent) {
        IterationTrace(a, f, silent, env, i);
        ConsumingTrace(b, f, silent, env, i);
      } else {
        QuietTrace(a, f, silent, env, i);
        QuietProducesNothing(a, f, silent);
        IterationTrace(b, f, silent, env, i);
      }
      FlatAppend(Consumption(a, f, silent, env, i), Consumption(b, f, silent, env, i));
    case LetStmt(x, v, b) => IterationTrace(b, f, silent, Extend(env, x, ValueOf(v, env, i)), i);
    case Realize(_, b) => IterationTrace(b, f, silent, env, i);
    case HoistedStorage(_, b) => IterationTrace(b, f, silent, env, i);
    case Produce(g, b) => if g != f { IterationTrace(b, f, silent, env, i); }
    case Consume(g, b) => IterationTrace(b, f, silent, env, i);
  }

  // ----- the producer's half of an iteration -----

  function ReleaseEvents(semas: seq<string>): Events {
    if semas == [] then [] else [Rel(semas[|semas| - 1])] + ReleaseEvents(semas[..|semas| - 1])
  }

  lemma {:induction false} AddReleasesTrace(body: Stmt, semas: seq<string>, env: Env, i: Interp)
    ensures AsyncStmts.Trace(AddReleases(body, semas), env, i) == AsyncStmts.Trace(body, env, i) + ReleaseEvents(semas)
    decreases |semas|
  {
    if semas != [] {
      var last := Release(semas[|semas| - 1]);
      AddReleasesTrace(Block(body, last), semas[..|semas| - 1], env, i);
      assert AsyncStmts.Trace(Block(body, last), env, i) == AsyncStmts.Trace(body, env, i) + [Rel(last.sema)];
    }
  }

  lemma {:induction false} IterationProducer(s: Stmt, f: string, silent: set<nat>, st: PState, env: Env, i: Interp)
    requires Iterating(s, f, silent) && Silent(i, silent)
    ensures var r := ProducerBody(s, f, st).0;
            r != Skip && AsyncStmts.Trace(r, env, i) == Production(s, f, silent, env, i) + ReleaseEvents(st.semas)
    decreases s
  {
    match s
    case Block(a, b) =>
      if Iterating(a, f, silent) && Consuming(b, f, silent) {
        IterationProducer(a, f, silent, st, env, i);
        ConsumingTrace(b, f, silent, env, i);
        ProducesNothing(b, f, ProducerBody(a, f, st).1);
      } else {
        QuietProducesNothing(a, f, silent);
        ProducesNothing(a, f, st);
        IterationProducer(b, f, silent, ProducerBody(a, f, st).1, env, i);
      }
    case LetStmt(x, v, b) => IterationProducer(b, f, silent, st, Extend(env, x, ValueOf(v, env, i)), i);
    case Realize(_, b) => IterationProducer(b, f, silent, st, env, i);
    case HoistedStorage(_, b) => IterationProducer(b, f, silent, st, env, i);
    case Produce(g, b) =>
      if g == f { AddReleasesTrace(b, st.semas, env, i); }
      else { IterationProducer(b, f, silent, st.(dropped := st.dropped + {g}), env, i); }
    case Consume(g, b) => IterationProducer(b, f, silent, st, env, i);
  }

  // ----- the consumer's half of an iteration -----

  /** Each consumption after an acquire of its own semaphore, the last one first. */
  function WithAcquires(cs: seq<Events>, semas: seq<string>): Events
    requires |cs| <= |semas|
  {
    if cs == [] then []
    else [Acq(semas[|semas| - 1], 1)] + cs[0] + WithAcquires(cs[1..], semas[..|semas| - 1])
  }

  lemma {:induction false} WithAcquiresAppend(a: seq<Events>, b: seq<Events>, semas: seq<string>)
    requires |a| + |b| <= |semas|
    ensures WithAcquires(a + b, semas) == WithAcquires(a, semas) + WithAcquires(b, semas[..|semas| - |a|])
  {
    if a == [] { assert a + b == b && semas[..|semas|] == semas; } else {
      assert (a + b)[1..] == a[1..] + b;
      var rest, head := semas[..|semas| - 1], [Acq(semas[|semas| - 1], 1)] + a[0];
      WithAcquiresAppend(a[1..], b, rest);
      var end := semas[..|semas| - |a|];
      assert rest[..|rest| - |a[1..]|] == end;
      assert (a + b)[0] == a[0];
      assert head + (WithAcquires(a[1..], rest) + WithAcquires(b, end))
          == (head + WithAcquires(a[1..], rest)) + WithAcquires(b, end);
    }
  }

  /** The consumer's half of what is left to consume, for any statement that is
      `Consuming` or `Iterating`. */
  lemma {:induction false} ConsumingConsumer(s: Stmt, f: string, silent: set<nat>,
      semas: seq<string>, env: Env, i: Interp)
    requires (Consuming(s, f, silent) || Iterating(s, f, silent)) && Silent(i, silent) && CountConsumes(s, f) <= |semas|
    ensures |Consumption(s, f, silent, env, i)| == CountConsumes(s, f)
    ensures AsyncStmts.Trace(ConsumerBody(s, f, semas).0, env, i)
        == WithAcquires(Consumption(s, f, silent, env, i), semas)
    ensures ConsumerBody(s, f, semas).1 == semas[..|semas| - CountConsumes(s, f)]
    decreases s, 1
  {
    CountedConsumption(s, f, silent, env, i);
    if Quiet(s, f, silent) {
      QuietConsumer(s, f, silent, semas);
      QuietTrace(ConsumerBody(s, f, semas).0, f, silent, env, i);
      QuietProducesNothing(s, f, silent);
    } else {
      match s
      case Block(a, b) => BlockConsumer(a, b, f, silent, semas, env, i);
      case LetStmt(x, v, b) => ConsumingConsumer(b, f, silent, semas, Extend(env, x, ValueOf(v, env, i)), i);
        FoldAroundTrace(x, v, v, ConsumerBody(b, f, semas).0, env, i);
      case Realize(_, b) => ConsumingConsumer(b, f, silent, semas, env, i);
      case HoistedStorage(_, b) => ConsumingConsumer(b, f, silent, semas, env, i);
      case Produce(g, b) => if g != f { ConsumingConsumer(b, f, silent, semas, env, i); }
      case Consume(g, b) => if g != f { ConsumingConsumer(b, f, silent, semas, env, i); }
      case _ =>
    }
  }

  lemma CountedConsumption(s: Stmt, f: string, silent: set<nat>, env: Env, i: Interp)
    requires (Consuming(s, f, silent) || Iterating(s, f, silent)) && Silent(i, silent)
    ensures |Consumption(s, f, silent, env, i)| == CountConsumes(s, f)
  {
    if Consuming(s, f, silent) { ConsumingTrace(s, f, silent, env, i); } else { IterationTrace(s, f, silent, env, i); }
  }

  lemma BlockConsumer(a: Stmt, b: Stmt, f: string, silent: set<nat>, semas: seq<string>, env: Env, i: Interp)
    requires (Consuming(a, f, silent) || Iterating(a, f, silent))
        && (Consuming(b, f, silent) || Iterating(b, f, silent))
    requires Silent(i, silent) && CountConsumes(a, f) + CountConsumes(b, f) <= |semas| && !Quiet(Block(a, b), f, silent)
    ensures |Consumption(Block(a, b), f, silent, env, i)| <= |semas|
    ensures AsyncStmts.Trace(ConsumerBody(Block(a, b), f, semas).0, env, i)
            == WithAcquires(Consumption(Block(a, b), f, silent, env, i), semas)
    ensures ConsumerBody(Block(a, b), f, semas).1 == semas[..|semas| - CountConsumes(a, f) - CountConsumes(b, f)]
    decreases Block(a, b), 0
  {
    hide Iterating, Consuming, Quiet, WithAcquires, Production;
    ConsumingConsumer(a, f, silent, semas, env, i);
    var rest := semas[..|semas| - CountConsumes(a, f)];
    ConsumingConsumer(b, f, silent, rest, env, i);
    WithAcquiresAppend(Consumption(a, f, silent, env, i), Consumption(b, f, silent, env, i), semas);
    assert rest[..|rest| - CountConsumes(b, f)] == semas[..|semas| - CountConsumes(a, f) - CountConsumes(b, f)];
    FoldTrace(ConsumerBody(a, f, semas).0, ConsumerBody(b, f, rest).0, Lit(0), env, i);
  }

  // ----- the loops around -----

  /** The storage of the Func with the ring's semaphore around an iteration. */
  predicate IsRound(s: Stmt, f: string, silent: set<nat>) {
    && s == Realize(f, Acquire(RingSema(f), Lit(1), Block(RoundBody(s), Release(RingSema(f)))))
    && Iterating(RoundBody(s), f, silent) && CountConsumes(RoundBody(s), f) > 0
  }

  function RoundBody(s: Stmt): Stmt {
    if s.Realize? && s.body.Acquire? && s.body.body.Block? then s.body.body.first else Skip
  }

  /** Loops, lets and other statements around one such round. */
  predicate IsNest(s: Stmt, f: string, silent: set<nat>) {
    || IsRound(s, f, silent)
    || (match s
        case Block(a, b) => (IsNest(a, f, silent) && Quiet(b, f, silent))
            || (Quiet(a, f, silent) && IsNest(b, f, silent))
        case IfThenElse(_, a, b) => (IsNest(a, f, silent) && Quiet(b, f, silent))
            || (Quiet(a, f, silent) && IsNest(b, f, silent))
        case For(_, _, _, b) => IsNest(b, f, silent)
        case LetStmt(_, _, b) => IsNest(b, f, silent)
        case Realize(g, b) => IsNest(b, f, silent)
        case HoistedStorage(_, b) => IsNest(b, f, silent)
        case Produce(g, b) => g != f && IsNest(b, f, silent)
        case Consume(g, b) => g != f && IsNest(b, f, silent)
        case _ => false)
  }

  /** The iteration at the heart of a nest. */
  function Heart(s: Stmt, f: string, silent: set<nat>): Stmt {
    if IsRound(s, f, silent) then RoundBody(s)
    else
      match s
      case Block(a, b) => if IsNest(a, f, silent) && Quiet(b, f, silent)
          then Heart(a, f, silent) else Heart(b, f, silent)
      case IfThenElse(_, a, b) => if IsNest(a, f, silent) && Quiet(b, f, silent)
          then Heart(a, f, silent) else Heart(b, f, silent)
      case For(_, _, _, b) => Heart(b, f, silent)
      case LetStmt(_, _, b) => Heart(b, f, silent)
      case Realize(_, b) => Heart(b, f, silent)
      case HoistedStorage(_, b) => Heart(b, f, silent)
      case Produce(_, b) => Heart(b, f, silent)
      case Consume(_, b) => Heart(b, f, silent)
      case _ => Skip
  }

  /** The variables' values in each iteration, in the order of the loops. */
  function Rounds(s: Stmt, f: string, silent: set<nat>, env: Env, i: Interp): seq<Env>
    decreases s, 0
  {
    if IsRound(s, f, silent) then [env]
    else
      match s
      case Block(a, b) => if IsNest(a, f, silent) && Quiet(b, f, silent) then Rounds(a, f, silent, env, i)
          else Rounds(b, f, silent, env, i)
      case IfThenElse(c, a, b) =>
        if IsNest(a, f, silent) && Quiet(b, f, silent)
        then (if ValueOf(c, env, i) != 0 then Rounds(a, f, silent, env, i) else [])
        else (if ValueOf(c, env, i) != 0 then [] else Rounds(b, f, silent, env, i))
      case For(x, min, extent, b) => LoopRounds(x, ValueOf(min, env, i), ValueOf(extent, env, i), b, f, silent, env, i)
      case LetStmt(x, v, b) => Rounds(b, f, silent, Extend(env, x, ValueOf(v, env, i)), i)
      case Realize(_, b) => Rounds(b, f, silent, env, i)
      case HoistedStorage(_, b) => Rounds(b, f, silent, env, i)
      case Produce(_, b) => Rounds(b, f, silent, env, i)
      case Consume(_, b) => Rounds(b, f, silent, env, i)
      case _ => []
  }

  function LoopRounds(x: string, from: int, n: int, b: Stmt, f: string, silent: set<nat>, env: Env, i: Interp): seq<Env>
    decreases b, 1, n
  {
    if n <= 0 then []
    else Rounds(b, f, silent, Extend(env, x, from), i) + LoopRounds(x, from + 1, n - 1, b, f, silent, env, i)
  }

  /** The events of one round before forking, and of its two halves. */
  function WholeRound(h: Stmt, f: string, silent: set<nat>, env: Env, i: Interp): Events {
    [Acq(RingSema(f), 1)] + Production(h, f, silent, env, i) + Flat(Consumption(h, f, silent, env, i))
        + [Rel(RingSema(f))]
  }

  function ProducerRound(h: Stmt, f: string, silent: set<nat>, semas: seq<string>, env: Env, i: Interp): Events {
    [Acq(RingSema(f), 1)] + Production(h, f, silent, env, i) + ReleaseEvents(semas)
  }

  function ConsumerRound(h: Stmt, f: string, silent: set<nat>, semas: seq<string>, env: Env, i: Interp): Events {
    var cs := Consumption(h, f, silent, env, i);
    (if |cs| <= |semas| then WithAcquires(cs, semas) else []) + [Rel(RingSema(f))]
  }

  /** All rounds, by the function that gives one round. */
  function Each(envs: seq<Env>, round: Env -> Events): (r: seq<Events>)
    ensures |r| == |envs| && forall k :: 0 <= k < |envs| ==> r[k] == round(envs[k])
  {
    seq(|envs|, k requires 0 <= k < |envs| => round(envs[k]))
  }

  lemma EachAppend(a: seq<Env>, b: seq<Env>, round: Env -> Events)
    ensures Flat(Each(a + b, round)) == Flat(Each(a, round)) + Flat(Each(b, round))
  {
    assert Each(a + b, round) == Each(a, round) + Each(b, round);
    FlatAppend(Each(a, round), Each(b, round));
  }

  lemma EachOne(env: Env, round: Env -> Events)
    ensures Flat(Each([env], round)) == round(env)
  {
    assert Each([env], round) == [round(env)];
    assert Flat([round(env)]) == round(env);
  }

  function WholeRounds(h: Stmt, f: string, silent: set<nat>, i: Interp): Env -> Events {
    (env: Env) => WholeRound(h, f, silent, env, i)
  }

  function ProducerRounds(h: Stmt, f: string, silent: set<nat>, semas: seq<string>, i: Interp): Env -> Events {
    (env: Env) => ProducerRound(h, f, silent, semas, env, i)
  }

  function ConsumerRounds(h: Stmt, f: string, silent: set<nat>, semas: seq<string>, i: Interp): Env -> Events {
    (env: Env) => ConsumerRound(h, f, silent, semas, env, i)
  }

  lemma RoundTrace(s: Stmt, f: string, silent: set<nat>, env: Env, i: Interp)
    requires IsRound(s, f, silent) && Silent(i, silent)
    ensures AsyncStmts.Trace(s, env, i) == WholeRound(RoundBody(s), f, silent, env, i)
  {
    hide Iterating, Production, Consumption, Quiet, CountConsumes;
    var h, ring := RoundBody(s), RingSema(f);
    IterationTrace(h, f, silent, env, i);
    var inner := Block(h, Release(ring));
    assert AsyncStmts.Trace(inner, env, i) == AsyncStmts.Trace(h, env, i) + [Rel(ring)];
    assert AsyncStmts.Trace(Acquire(ring, Lit(1), inner), env, i) == [Acq(ring, 1)] + AsyncStmts.Trace(inner, env, i);
  }

  lemma {:induction false} NestTrace(s: Stmt, f: string, silent: set<nat>, env: Env, i: Interp)
    requires IsNest(s, f, silent) && Silent(i, silent)
    ensures AsyncStmts.Trace(s, env, i)
        == Flat(Each(Rounds(s, f, silent, env, i), WholeRounds(Heart(s, f, silent), f, silent, i)))
    decreases s, 0
  {
    if IsRound(s, f, silent) {
      RoundTrace(s, f, silent, env, i);
      EachOne(env, WholeRounds(RoundBody(s), f, silent, i));
    } else {
      match s
      case Block(a, b) =>
        if IsNest(a, f, silent) && Quiet(b, f, silent) {
          NestTrace(a, f, silent, env, i);
          QuietTrace(b, f, silent, env, i);
        } else {
          QuietTrace(a, f, silent, env, i);
          NestTrace(b, f, silent, env, i);
        }
      case IfThenElse(_, a, b) =>
        if IsNest(a, f, silent) && Quiet(b, f, silent) {
          NestTrace(a, f, silent, env, i);
          QuietTrace(b, f, silent, env, i);
        } else {
          QuietTrace(a, f, silent, env, i);
          NestTrace(b, f, silent, env, i);
        }
      case For(x, min, extent, b) => NestLoop(x, ValueOf(min, env, i), ValueOf(extent, env, i), b, f, silent, env, i);
      case LetStmt(x, v, b) => NestTrace(b, f, silent, Extend(env, x, ValueOf(v, env, i)), i);
      case Realize(_, b) => NestTrace(b, f, silent, env, i);
      case HoistedStorage(_, b) => NestTrace(b, f, silent, env, i);
      case Produce(_, b) => NestTrace(b, f, silent, env, i);
      case Consume(_, b) => NestTrace(b, f, silent, env, i);
    }
  }

  lemma NestLoop(x: string, from: int, n: int, b: Stmt, f: string, silent: set<nat>, env: Env, i: Interp)
    requires IsNest(b, f, silent) && Silent(i, silent)
    ensures LoopTrace(x, from, n, b, env, i)
            == Flat(Each(LoopRounds(x, from, n, b, f, silent, env, i), WholeRounds(Heart(b, f, silent), f, silent, i)))
    decreases b, 1, n
  {
    if n > 0 {
      NestTrace(b, f, silent, Extend(env, x, from), i);
      NestLoop(x, from + 1, n - 1, b, f, silent, env, i);
      EachAppend(Rounds(b, f, silent, Extend(env, x, from), i), LoopRounds(x, from + 1, n - 1, b, f, silent, env, i),
                 WholeRounds(Heart(b, f, silent), f, silent, i));
    }
  }

  // ----- the halves of the loops -----

  lemma {:induction false} NestProducer(s: Stmt, f: string, silent: set<nat>, st: PState, env: Env, i: Interp)
    requires IsNest(s, f, silent) && Silent(i, silent)
    ensures ProducerBody(s, f, st).0 != Skip
    ensures AsyncStmts.Trace(ProducerBody(s, f, st).0, env, i)
            == Flat(Each(Rounds(s, f, silent, env, i), ProducerRounds(Heart(s, f, silent), f, silent, st.semas, i)))
    decreases s, 0
  {
    if IsRound(s, f, silent) {
      RoundProducer(s, f, silent, st, env, i);
      EachOne(env, ProducerRounds(RoundBody(s), f, silent, st.semas, i));
    } else {
      match s
      case Block(a, b) =>
        if IsNest(a, f, silent) && Quiet(b, f, silent) {
          NestProducer(a, f, silent, st, env, i);
          QuietProducer(b, f, silent, ProducerBody(a, f, st).1);
        } else {
          QuietProducer(a, f, silent, st);
          NestProducer(b, f, silent, ProducerBody(a, f, st).1, env, i);
        }
      case IfThenElse(_, a, b) =>
        if IsNest(a, f, silent) && Quiet(b, f, silent) {
          NestProducer(a, f, silent, st, env, i);
          QuietProducer(b, f, silent, ProducerBody(a, f, st).1);
        } else {
          QuietProducer(a, f, silent, st);
          NestProducer(b, f, silent, ProducerBody(a, f, st).1, env, i);
        }
      case For(x, min, extent, b) =>
        NestProducer(b, f, silent, st, env, i);
        NestProducerLoop(x, ValueOf(min, env, i), ValueOf(extent, env, i), b, f, silent, st, env, i);
      case LetStmt(x, v, b) => NestProducer(b, f, silent, st, Extend(env, x, ValueOf(v, env, i)), i);
      case Realize(_, b) => NestProducer(b, f, silent, st, env, i);
      case HoistedStorage(_, b) => NestProducer(b, f, silent, st, env, i);
      case Produce(g, b) => NestProducer(b, f, silent, st.(dropped := st.dropped + {g}), env, i);
      case Consume(_, b) => NestProducer(b, f, silent, st, env, i);
    }
  }

  lemma QuietProducer(s: Stmt, f: string, silent: set<nat>, st: PState)
    requires Quiet(s, f, silent)
    ensures ProducerBody(s, f, st).0 == Skip && ProducerBody(s, f, st).1.semas == st.semas
  {
    QuietProducesNothing(s, f, silent);
    ProducesNothing(s, f, st);
  }

  lemma RoundProducer(s: Stmt, f: string, silent: set<nat>, st: PState, env: Env, i: Interp)
    requires IsRound(s, f, silent) && Silent(i, silent)
    ensures var r := ProducerBody(s, f, st).0;
            r != Skip && AsyncStmts.Trace(r, env, i) == ProducerRound(RoundBody(s), f, silent, st.semas, env, i)
  {
    hide Iterating, Production, Consumption, CountConsumes, ReleaseEvents, IsFolding, RingSema, ProducerBody, Quiet;
    var h, ring := RoundBody(s), RingSema(f);
    IterationProducer(h, f, silent, st, env, i);
    SemaNames(f, 0, 0);
    var b := ProducerBody(h, f, st).0;
    RoundProducerBody(h, f, ring, st);
    assert AsyncStmts.Trace(Acquire(ring, Lit(1), b), env, i) == [Acq(ring, 1)] + AsyncStmts.Trace(b, env, i);
  }

  lemma RoundProducerBody(h: Stmt, f: string, ring: string, st: PState)
    requires IsFolding(ring, f) && ProducerBody(h, f, st).0 != Skip
    ensures ProducerBody(Realize(f, Acquire(ring, Lit(1), Block(h, Release(ring)))), f, st).0
            == Realize(f, Acquire(ring, Lit(1), ProducerBody(h, f, st).0))
  {
    hide IsFolding;
    var (b, st1) := ProducerBody(h, f, st);
    assert ProducerBody(Block(h, Release(ring)), f, st) == (b, st1);
    assert ProducerBody(Acquire(ring, Lit(1), Block(h, Release(ring))), f, st) == (Acquire(ring, Lit(1), b), st1);
  }

  lemma NestProducerLoop(x: string, from: int, n: int, b: Stmt, f: string, silent: set<nat>,
      st: PState, env: Env, i: Interp)
    requires IsNest(b, f, silent) && Silent(i, silent)
    ensures LoopTrace(x, from, n, ProducerBody(b, f, st).0, env, i)
            == Flat(Each(LoopRounds(x, from, n, b, f, silent, env, i),
                ProducerRounds(Heart(b, f, silent), f, silent, st.semas, i)))
    decreases b, 1, n
  {
    if n > 0 {
      NestProducer(b, f, silent, st, Extend(env, x, from), i);
      NestProducerLoop(x, from + 1, n - 1, b, f, silent, st, env, i);
      EachAppend(Rounds(b, f, silent, Extend(env, x, from), i), LoopRounds(x, from + 1, n - 1, b, f, silent, env, i),
                 ProducerRounds(Heart(b, f, silent), f, silent, st.semas, i));
    }
  }

  lemma {:induction false} NestConsumer(s: Stmt, f: string, silent: set<nat>, semas: seq<string>, env: Env, i: Interp)
    requires IsNest(s, f, silent) && Silent(i, silent) && CountConsumes(Heart(s, f, silent), f) <= |semas|
    ensures AsyncStmts.Trace(ConsumerBody(s, f, semas).0, env, i)
            == Flat(Each(Rounds(s, f, silent, env, i), ConsumerRounds(Heart(s, f, silent), f, silent, semas, i)))
    decreases s, 0
  {
    hide ConsumerRounds, CountConsumes, RoundBody;
    if IsRound(s, f, silent) {
      OneRoundConsumer(s, f, silent, semas, env, i);
    } else {
      match s
      case Block(a, b) =>
        if IsNest(a, f, silent) && Quiet(b, f, silent) {
          NestConsumer(a, f, silent, semas, env, i);
          QuietConsumerTrace(b, f, silent, ConsumerBody(a, f, semas).1, env, i);
        } else {
          QuietConsumerTrace(a, f, silent, semas, env, i);
          NestConsumer(b, f, silent, semas, env, i);
        }
        FoldTrace(ConsumerBody(a, f, semas).0, ConsumerBody(b, f, ConsumerBody(a, f, semas).1).0, Lit(0), env, i);
      case IfThenElse(c, a, b) =>
        if IsNest(a, f, silent) && Quiet(b, f, silent) {
          NestConsumer(a, f, silent, semas, env, i);
          QuietConsumerTrace(b, f, silent, ConsumerBody(a, f, semas).1, env, i);
        } else {
          QuietConsumerTrace(a, f, silent, semas, env, i);
          NestConsumer(b, f, silent, semas, env, i);
        }
        FoldTrace(ConsumerBody(a, f, semas).0, ConsumerBody(b, f, ConsumerBody(a, f, semas).1).0, c, env, i);
      case For(x, min, extent, b) =>
        NestConsumerLoop(x, ValueOf(min, env, i), ValueOf(extent, env, i), b, f, silent, semas, env, i);
        FoldAroundTrace(x, min, extent, ConsumerBody(b, f, semas).0, env, i);
      case LetStmt(x, v, b) =>
        NestConsumer(b, f, silent, semas, Extend(env, x, ValueOf(v, env, i)), i);
        FoldAroundTrace(x, v, v, ConsumerBody(b, f, semas).0, env, i);
      case Realize(_, b) => NestConsumer(b, f, silent, semas, env, i);
      case HoistedStorage(_, b) => NestConsumer(b, f, silent, semas, env, i);
      case Produce(_, b) => NestConsumer(b, f, silent, semas, env, i);
      case Consume(_, b) => NestConsumer(b, f, silent, semas, env, i);
    }
  }

  lemma OneRoundConsumer(s: Stmt, f: string, silent: set<nat>, semas: seq<string>, env: Env, i: Interp)
    requires IsRound(s, f, silent) && Silent(i, silent) && CountConsumes(Heart(s, f, silent), f) <= |semas|
    ensures AsyncStmts.Trace(ConsumerBody(s, f, semas).0, env, i)
            == Flat(Each(Rounds(s, f, silent, env, i), ConsumerRounds(Heart(s, f, silent), f, silent, semas, i)))
  {
    RoundConsumer(s, f, silent, semas, env, i);
    EachOne(env, ConsumerRounds(RoundBody(s), f, silent, semas, i));
  }

  lemma QuietConsumerTrace(s: Stmt, f: string, silent: set<nat>, semas: seq<string>, env: Env, i: Interp)
    requires Quiet(s, f, silent) && Silent(i, silent)
    ensures ConsumerBody(s, f, semas).1 == semas && AsyncStmts.Trace(ConsumerBody(s, f, semas).0, env, i) == []
  {
    QuietConsumer(s, f, silent, semas);
    QuietTrace(ConsumerBody(s, f, semas).0, f, silent, env, i);
  }

  lemma RoundConsumer(s: Stmt, f: string, silent: set<nat>, semas: seq<string>, env: Env, i: Interp)
    requires IsRound(s, f, silent) && Silent(i, silent) && CountConsumes(RoundBody(s), f) <= |semas|
    ensures AsyncStmts.Trace(ConsumerBody(s, f, semas).0, env, i)
        == ConsumerRound(RoundBody(s), f, silent, semas, env, i)
  {
    hide Iterating, Production, Consumption, WithAcquires, IsFolding, RingSema;
    var h, ring := RoundBody(s), RingSema(f);
    ConsumingConsumer(h, f, silent, semas, env, i);
    SemaNames(f, 0, 0);
    RoundConsumerBody(h, f, ring, semas);
    FoldTrace(ConsumerBody(h, f, semas).0, Release(ring), Lit(0), env, i);
  }

  lemma RoundConsumerBody(h: Stmt, f: string, ring: string, semas: seq<string>)
    requires IsFolding(ring, f)
    ensures ConsumerBody(Realize(f, Acquire(ring, Lit(1), Block(h, Release(ring)))), f, semas).0
            == Realize(f, FoldBlock(ConsumerBody(h, f, semas).0, Release(ring)))
  {
    hide IsFolding;
    var (b, semas1) := ConsumerBody(h, f, semas);
    assert ConsumerBody(Block(h, Release(ring)), f, semas) == (FoldBlock(b, Release(ring)), semas1);
    assert ConsumerBody(Acquire(ring, Lit(1), Block(h, Release(ring))), f, semas)
        == (FoldBlock(b, Release(ring)), semas1);
  }

  lemma NestConsumerLoop(x: string, from: int, n: int, b: Stmt, f: string, silent: set<nat>,
      semas: seq<string>, env: Env, i: Interp)
    requires IsNest(b, f, silent) && Silent(i, silent) && CountConsumes(Heart(b, f, silent), f) <= |semas|
    ensures LoopTrace(x, from, n, ConsumerBody(b, f, semas).0, env, i)
            == Flat(Each(LoopRounds(x, from, n, b, f, silent, env, i),
                ConsumerRounds(Heart(b, f, silent), f, silent, semas, i)))
    decreases b, 1, n
  {
    if n > 0 {
      NestConsumer(b, f, silent, semas, Extend(env, x, from), i);
      NestConsumerLoop(x, from + 1, n - 1, b, f, silent, semas, env, i);
      EachAppend(Rounds(b, f, silent, Extend(env, x, from), i), LoopRounds(x, from + 1, n - 1, b, f, silent, env, i),
                 ConsumerRounds(Heart(b, f, silent), f, silent, semas, i));
    }
  }
}
