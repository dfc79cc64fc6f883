// Ring buffering an async Func and forking its loops (InjectRingBuffering of
// src/AsyncProducers.cpp): when the two tasks do what the loops did.

module RingForks {
  import opened Arith
  import opened AsyncStmts
  import opened AsyncForking
  import opened AsyncSplitting
  import opened AsyncResults
  import opened RingIndexes
  import opened Runs = AsyncRuns

  /** A loop between the storage and the computation of the Func, as it is written. */
  datatype LoopNode = LoopNode(x: string, min: Expr, extent: Expr) {
    function Uses(): set<string> { min.Uses() + extent.Uses() }
  }

  function NamesOf(nodes: seq<LoopNode>): set<string> { set n | n in nodes :: n.x }

  /** What the loops run through, and how often. */
  function LoopsOf(nodes: seq<LoopNode>, env: Env, i: Interp): (r: seq<Loop>)
    ensures |r| == |nodes|
  {
    if nodes == [] then []
    else
      var n := ValueOf(nodes[0].extent, env, i);
      [Loop(nodes[0].x, ValueOf(nodes[0].min, env, i), if n > 0 then n else 0)] + LoopsOf(nodes[1..], env, i)
  }

  // ----- the transformation -----

  /** The body of the Func's storage becomes a round that takes a copy and gives it back. */
  function AddRound(f: string, body: Stmt): Stmt {
    Realize(f, Acquire(RingSema(f), Lit(1), Block(body, Release(RingSema(f)))))
  }

  function Inject(s: Stmt, f: string): Stmt {
    match s
    case Block(a, b) => Block(Inject(a, f), Inject(b, f))
    case IfThenElse(c, a, b) => IfThenElse(c, Inject(a, f), Inject(b, f))
    case For(x, min, extent, b) => For(x, min, extent, Inject(b, f))
    case LetStmt(x, v, b) => LetStmt(x, v, Inject(b, f))
    case Realize(g, b) => if g == f then AddRound(f, Inject(b, f)) else Realize(g, Inject(b, f))
    case HoistedStorage(g, b) => HoistedStorage(g, Inject(b, f))
    case Produce(g, b) => Produce(g, Inject(b, f))
    case Consume(g, b) => Consume(g, Inject(b, f))
    case Acquire(sema, n, b) => Acquire(sema, n, Inject(b, f))
    case _ => s
  }

  function AddLoop(index: int, n: LoopNode, env: Env, i: Interp): int {
    index * (ValueOf(n.extent, env, i) - ValueOf(n.min, env, i)) + env(n.x)
  }

  /** The index expression, evaluated where the Func is accessed. */
  function IndexFrom(index: int, nodes: seq<LoopNode>, env: Env, i: Interp): int
    decreases |nodes|
  {
    if nodes == [] then index else IndexFrom(AddLoop(index, nodes[0], env, i), nodes[1..], env, i)
  }

  function IndexAt(nodes: seq<LoopNode>, ring: nat, env: Env, i: Interp): int
    requires nodes != [] && ring > 0
  {
    IndexFrom(env(nodes[0].x), nodes[1..], env, i) % ring
  }

  function MoveTo(e: Event, slot: int): Event {
    match e
    case Write(_, g) => Write(slot, g)
    case Read(_, g) => Read(slot, g)
    case _ => e
  }

  /** Every access of the Func goes to the copy that the index names. */
  function Slotted(i: Interp, nodes: seq<LoopNode>, ring: nat): Interp
    requires nodes != [] && ring > 0
  {
    Interp(i.value, (id: nat, env: Env) =>
      var es := i.acts(id, env);
      seq(|es|, j requires 0 <= j < |es| => MoveTo(es[j], IndexAt(nodes, ring, env, i))))
  }

  // ----- the loops around the Func -----

  /** The loops on the way to the round, from the outermost. */
  function LoopsTo(r: Stmt, f: string, silent: set<nat>): seq<LoopNode> {
    if IsRound(r, f, silent) then []
    else
      match r
      case Block(a, b) => LoopsTo(if IsNest(a, f, silent) && Quiet(b, f, silent) then a else b, f, silent)
      case IfThenElse(_, a, b) => LoopsTo(if IsNest(a, f, silent) && Quiet(b, f, silent) then a else b, f, silent)
      case For(x, min, extent, b) => [LoopNode(x, min, extent)] + LoopsTo(b, f, silent)
      case LetStmt(_, _, b) => LoopsTo(b, f, silent)
      case Realize(_, b) => LoopsTo(b, f, silent)
      case HoistedStorage(_, b) => LoopsTo(b, f, silent)
      case Produce(_, b) => LoopsTo(b, f, silent)
      case Consume(_, b) => LoopsTo(b, f, silent)
      case _ => []
  }

  /** The loops that the ring's index is made of. */
  function RingNodes(s: Stmt, f: string, silent: set<nat>): seq<LoopNode> { LoopsTo(Inject(s, f), f, silent) }

  /** The names bound on the way to the round. */
  function PathBinders(r: Stmt, f: string, silent: set<nat>): set<string> {
    if IsRound(r, f, silent) then {}
    else
      match r
      case Block(a, b) => PathBinders(if IsNest(a, f, silent) && Quiet(b, f, silent) then a else b, f, silent)
      case IfThenElse(_, a, b) => PathBinders(if IsNest(a, f, silent) && Quiet(b, f, silent) then a else b, f, silent)
      case For(x, _, _, b) => {x} + PathBinders(b, f, silent)
      case LetStmt(x, _, b) => {x} + PathBinders(b, f, silent)
      case Realize(_, b) => PathBinders(b, f, silent)
      case HoistedStorage(_, b) => PathBinders(b, f, silent)
      case Produce(_, b) => PathBinders(b, f, silent)
      case Consume(_, b) => PathBinders(b, f, silent)
      case _ => {}
  }

  /** A loop's variable and the names its ends mention are not bound again on the
      way to the round, where they are used for the index. */
  predicate Visible(r: Stmt, f: string, silent: set<nat>) {
    if IsRound(r, f, silent) then true
    else
      match r
      case Block(a, b) => Visible(if IsNest(a, f, silent) && Quiet(b, f, silent) then a else b, f, silent)
      case IfThenElse(_, a, b) => Visible(if IsNest(a, f, silent) && Quiet(b, f, silent) then a else b, f, silent)
      case For(x, min, extent, b) =>
        && x !in min.Uses() + extent.Uses()
        && {x} + min.Uses() + extent.Uses() !! PathBinders(b, f, silent) && Visible(b, f, silent)
      case LetStmt(_, _, b) => Visible(b, f, silent)
      case Realize(_, b) => Visible(b, f, silent)
      case HoistedStorage(_, b) => Visible(b, f, silent)
      case Produce(_, b) => Visible(b, f, silent)
      case Consume(_, b) => Visible(b, f, silent)
      case _ => true
  }

  /** Whenever it is reached a loop runs through the same values, and no
      condition on the way skips a round. */
  ghost predicate RunsThrough(r: Stmt, f: string, silent: set<nat>, env: Env, i: Interp, loops: seq<Loop>) {
    if IsRound(r, f, silent) then loops == []
    else
      match r
      case Block(a, b) =>
        RunsThrough(if IsNest(a, f, silent) && Quiet(b, f, silent) then a else b, f, silent, env, i, loops)
      case IfThenElse(c, a, b) =>
        if IsNest(a, f, silent) && Quiet(b, f, silent)
        then ValueOf(c, env, i) != 0 && RunsThrough(a, f, silent, env, i, loops)
        else ValueOf(c, env, i) == 0 && RunsThrough(b, f, silent, env, i, loops)
      case For(x, min, extent, b) =>
        var from, n := ValueOf(min, env, i), ValueOf(extent, env, i);
        && loops != [] && loops[0] == Loop(x, from, if n > 0 then n else 0)
        && forall v :: from <= v < from + n ==> RunsThrough(b, f, silent, Extend(env, x, v), i, loops[1..])
      case LetStmt(x, v, b) => RunsThrough(b, f, silent, Extend(env, x, ValueOf(v, env, i)), i, loops)
      case Realize(_, b) => RunsThrough(b, f, silent, env, i, loops)
      case HoistedStorage(_, b) => RunsThrough(b, f, silent, env, i, loops)
      case Produce(_, b) => RunsThrough(b, f, silent, env, i, loops)
      case Consume(_, b) => RunsThrough(b, f, silent, env, i, loops)
      case _ => loops == []
  }

  /** Two environments that agree but for some names. */
  ghost predicate AgreeBut(names: set<string>, env: Env, env': Env) { forall x :: x !in names ==> env(x) == env'(x) }

  lemma ValueSame(e: Expr, env: Env, env': Env, i: Interp)
    requires forall x :: x in e.Uses() ==> env(x) == env'(x)
    ensures ValueOf(e, env, i) == ValueOf(e, env', i)
  {
    if e.Expr? { assert (map x | x in e.vars :: env(x)) == (map x | x in e.vars :: env'(x)); }
  }

  // ----- the rounds go through the tuples of the loops' values -----

  /** In a round the loop variables have the values of a tuple, and the loops' ends are those given. */
  ghost predicate Fits(round: Env, nodes: seq<LoopNode>, loops: seq<Loop>, t: seq<int>, i: Interp) {
    && |nodes| == |loops| == |t|
    && forall j :: 0 <= j < |nodes| ==>
         round(nodes[j].x) == t[j] && ValueOf(nodes[j].min, round, i) == loops[j].min
         && ValueOf(nodes[j].extent, round, i) == loops[j].extent
  }

  ghost predicate AllFit(rounds: seq<Env>, env: Env, bound: set<string>, nodes: seq<LoopNode>, loops: seq<Loop>,
      ts: seq<seq<int>>, i: Interp)
  {
    |rounds| == |ts|
    && forall k :: 0 <= k < |ts| ==> AgreeBut(bound, rounds[k], env) && Fits(rounds[k], nodes, loops, ts[k], i)
  }

  lemma {:induction false} RoundsAreTuples(r: Stmt, f: string, silent: set<nat>, env: Env, i: Interp, loops: seq<Loop>)
    requires IsNest(r, f, silent) && Visible(r, f, silent) && RunsThrough(r, f, silent, env, i, loops)
    ensures AllFit(Rounds(r, f, silent, env, i), env, PathBinders(r, f, silent), LoopsTo(r, f, silent), loops,
                   Tuples(loops), i)
    decreases r, 1
  {
    hide AllFit, Tuples;
    if IsRound(r, f, silent) {
      OneFits(env, i);
    } else {
      match r
      case Block(a, b) =>
        RoundsAreTuples(if IsNest(a, f, silent) && Quiet(b, f, silent) then a else b, f, silent, env, i, loops);
      case IfThenElse(_, a, b) =>
        RoundsAreTuples(if IsNest(a, f, silent) && Quiet(b, f, silent) then a else b, f, silent, env, i, loops);
      case For(x, min, extent, b) =>
        var from, n := ValueOf(min, env, i), ValueOf(extent, env, i);
        RowsAreRounds(x, min, extent, b, from, if n > 0 then n else 0, f, silent, env, i, loops);
        LoopCount(x, from, n, b, f, silent, env, i);
        AllRows(loops);
      case LetStmt(x, v, b) =>
        var env1 := Extend(env, x, ValueOf(v, env, i));
        RoundsAreTuples(b, f, silent, env1, i, loops);
        FitsAround(Rounds(b, f, silent, env1, i), env1, env, PathBinders(b, f, silent), x, LoopsTo(b, f, silent), loops,
                   Tuples(loops), i);
      case Realize(_, b) => RoundsAreTuples(b, f, silent, env, i, loops);
      case HoistedStorage(_, b) => RoundsAreTuples(b, f, silent, env, i, loops);
      case Produce(_, b) => RoundsAreTuples(b, f, silent, env, i, loops);
      case Consume(_, b) => RoundsAreTuples(b, f, silent, env, i, loops);
    }
  }

  lemma OneFits(env: Env, i: Interp)
    ensures AllFit([env], env, {}, [], [], Tuples([]), i)
  {
    assert Tuples([]) == [[]];
  }

  lemma AllRows(loops: seq<Loop>)
    requires loops != []
    ensures Tuples(loops) == Rows(loops, loops[0].min, loops[0].extent)
  {}

  lemma FitsAround(rounds: seq<Env>, inner: Env, env: Env, bound: set<string>, x: string, nodes: seq<LoopNode>,
      loops: seq<Loop>, ts: seq<seq<int>>, i: Interp)
    requires AllFit(rounds, inner, bound, nodes, loops, ts, i) && AgreeBut({x}, inner, env)
    ensures AllFit(rounds, env, {x} + bound, nodes, loops, ts, i)
  {
    hide Fits;
  }

  /** An extent that is not positive runs nothing. */
  lemma LoopCount(x: string, from: int, n: int, b: Stmt, f: string, silent: set<nat>, env: Env, i: Interp)
    ensures LoopRounds(x, from, n, b, f, silent, env, i)
        == LoopRounds(x, from, if n > 0 then n else 0, b, f, silent, env, i)
  {}

  lemma RowsAreRounds(x: string, min: Expr, extent: Expr, b: Stmt, from: int, n: nat, f: string, silent: set<nat>,
      env: Env, i: Interp, loops: seq<Loop>)
    requires IsNest(b, f, silent) && Visible(b, f, silent) && loops != []
    requires x !in min.Uses() + extent.Uses()
    requires {x} + min.Uses() + extent.Uses() !! PathBinders(b, f, silent)
    requires ValueOf(min, env, i) == loops[0].min && (n > 0 ==> ValueOf(extent, env, i) == loops[0].extent)
    requires forall v :: from <= v < from + n ==> RunsThrough(b, f, silent, Extend(env, x, v), i, loops[1..])
    ensures AllFit(LoopRounds(x, from, n, b, f, silent, env, i), env, {x} + PathBinders(b, f, silent),
                   [LoopNode(x, min, extent)] + LoopsTo(b, f, silent), loops, Rows(loops, from, n), i)
    decreases b, 2, n
  {
    hide Tuples, Rows, Rounds, LoopRounds, AllFit, RunsThrough, PathBinders, LoopsTo, IsNest, Visible;
    RowStep(loops, from, n);
    LoopRoundsStep(x, from, n, b, f, silent, env, i);
    var nodes, bound := [LoopNode(x, min, extent)] + LoopsTo(b, f, silent), {x} + PathBinders(b, f, silent);
    if n == 0 {
      NoneFit(env, bound, nodes, loops, i);
    } else {
      var inner, env1 := Tuples(loops[1..]), Extend(env, x, from);
      RoundsAreTuples(b, f, silent, env1, i, loops[1..]);
      RowsAreRounds(x, min, extent, b, from + 1, n - 1, f, silent, env, i, loops);
      var rounds := Rounds(b, f, silent, env1, i);
      FitsRow(rounds, x, min, extent, from, env, PathBinders(b, f, silent), LoopsTo(b, f, silent), loops, inner, i);
      FitsAppend(rounds, LoopRounds(x, from + 1, n - 1, b, f, silent, env, i), env, bound, nodes, loops,
                 Row(from, inner), Rows(loops, from + 1, n - 1), i);
    }
  }

  lemma LoopRoundsStep(x: string, from: int, n: nat, b: Stmt, f: string, silent: set<nat>, env: Env, i: Interp)
    ensures LoopRounds(x, from, n, b, f, silent, env, i)
            == if n == 0 then []
               else Rounds(b, f, silent, Extend(env, x, from), i)
                    + LoopRounds(x, from + 1, n - 1, b, f, silent, env, i)
  {
    hide Rounds;
  }

  lemma NoneFit(env: Env, bound: set<string>, nodes: seq<LoopNode>, loops: seq<Loop>, i: Interp)
    ensures AllFit([], env, bound, nodes, loops, [], i)
  {}

  lemma FitsAppend(r1: seq<Env>, r2: seq<Env>, env: Env, bound: set<string>, nodes: seq<LoopNode>, loops: seq<Loop>,
      t1: seq<seq<int>>, t2: seq<seq<int>>, i: Interp)
    requires AllFit(r1, env, bound, nodes, loops, t1, i) && AllFit(r2, env, bound, nodes, loops, t2, i)
    ensures AllFit(r1 + r2, env, bound, nodes, loops, t1 + t2, i)
  {
    hide Fits;
  }

  /** The rounds of one value of a loop. */
  lemma FitsRow(rounds: seq<Env>, x: string, min: Expr, extent: Expr, v: int, env: Env, bound: set<string>,
      nodes: seq<LoopNode>, loops: seq<Loop>, ts: seq<seq<int>>, i: Interp)
    requires loops != [] && AllFit(rounds, Extend(env, x, v), bound, nodes, loops[1..], ts, i)
    requires x !in min.Uses() + extent.Uses() && {x} + min.Uses() + extent.Uses() !! bound
    requires ValueOf(min, env, i) == loops[0].min && ValueOf(extent, env, i) == loops[0].extent
    ensures AllFit(rounds, env, {x} + bound, [LoopNode(x, min, extent)] + nodes, loops, Row(v, ts), i)
  {
    hide ValueOf;
    var all := [LoopNode(x, min, extent)] + nodes;
    forall k | 0 <= k < |ts|
      ensures AgreeBut({x} + bound, rounds[k], env) && Fits(rounds[k], all, loops, [v] + ts[k], i)
    {
      var round := rounds[k];
      assert AgreeBut(bound, round, Extend(env, x, v)) && Fits(round, nodes, loops[1..], ts[k], i);
      ValueSame(min, round, env, i);
      ValueSame(extent, round, env, i);
      forall j | 0 <= j < |all|
        ensures round(all[j].x) == ([v] + ts[k])[j] && ValueOf(all[j].min, round, i) == loops[j].min
        ensures ValueOf(all[j].extent, round, i) == loops[j].extent
      {
        if j > 0 { assert all[j] == nodes[j - 1] && loops[j] == loops[1..][j - 1]; }
      }
    }
  }

  // ----- loops that do not depend on what is bound on the way -----

  /** No conditional on the way to the round. */
  predicate NoChoice(r: Stmt, f: string, silent: set<nat>) {
    if IsRound(r, f, silent) then true
    else
      match r
      case Block(a, b) => NoChoice(if IsNest(a, f, silent) && Quiet(b, f, silent) then a else b, f, silent)
      case IfThenElse(_, _, _) => false
      case For(_, _, _, b) => NoChoice(b, f, silent)
      case LetStmt(_, _, b) => NoChoice(b, f, silent)
      case Realize(_, b) => NoChoice(b, f, silent)
      case HoistedStorage(_, b) => NoChoice(b, f, silent)
      case Produce(_, b) => NoChoice(b, f, silent)
      case Consume(_, b) => NoChoice(b, f, silent)
      case _ => true
  }

  /** A condition that can be read off the statement: the loops' ends mention
      nothing that is bound on the way, and nothing is conditional. */
  lemma {:induction false} SteadyRunsThrough(r: Stmt, f: string, silent: set<nat>, env: Env, outer: Env,
      names: set<string>, i: Interp)
    requires IsNest(r, f, silent) && NoChoice(r, f, silent) && PathBinders(r, f, silent) <= names
    requires AgreeBut(names, env, outer) && forall n :: n in LoopsTo(r, f, silent) ==> n.Uses() !! names
    ensures RunsThrough(r, f, silent, env, i, LoopsOf(LoopsTo(r, f, silent), outer, i))
  {
    if !IsRound(r, f, silent) {
      match r
      case Block(a, b) =>
        var way := if IsNest(a, f, silent) && Quiet(b, f, silent) then a else b;
        SteadyRunsThrough(way, f, silent, env, outer, names, i);
      case For(x, min, extent, b) =>
        var nodes := LoopsTo(r, f, silent);
        assert nodes[0] in nodes && nodes[1..] == LoopsTo(b, f, silent);
        ValueSame(min, env, outer, i);
        ValueSame(extent, env, outer, i);
        forall v ensures RunsThrough(b, f, silent, Extend(env, x, v), i, LoopsOf(nodes[1..], outer, i)) {
          SteadyRunsThrough(b, f, silent, Extend(env, x, v), outer, names, i);
        }
      case LetStmt(x, v, b) => SteadyRunsThrough(b, f, silent, Extend(env, x, ValueOf(v, env, i)), outer, names, i);
      case Realize(_, b) => SteadyRunsThrough(b, f, silent, env, outer, names, i);
      case HoistedStorage(_, b) => SteadyRunsThrough(b, f, silent, env, outer, names, i);
      case Produce(_, b) => SteadyRunsThrough(b, f, silent, env, outer, names, i);
      case Consume(_, b) => SteadyRunsThrough(b, f, silent, env, outer, names, i);
    }
  }

  // ----- which copy a round accesses -----

  /** The names that the index depends on. */
  function IndexNames(nodes: seq<LoopNode>): set<string> { NamesOf(nodes)
      + (set n, x | n in nodes && x in n.Uses() :: x) }

  function Binders(s: Stmt): set<string> {
    match s
    case Block(a, b) => Binders(a) + Binders(b)
    case IfThenElse(_, a, b) => Binders(a) + Binders(b)
    case For(x, _, _, b) => {x} + Binders(b)
    case LetStmt(x, _, b) => {x} + Binders(b)
    case Realize(_, b) => Binders(b)
    case HoistedStorage(_, b) => Binders(b)
    case Produce(_, b) => Binders(b)
    case Consume(_, b) => Binders(b)
    case Acquire(_, _, b) => Binders(b)
    case _ => {}
  }

  ghost predicate AgreeOn(names: set<string>, env: Env, env': Env) { forall x :: x in names ==> env(x) == env'(x) }

  lemma AddLoopSame(index: int, n: LoopNode, env: Env, env': Env, i: Interp)
    requires env(n.x) == env'(n.x) && forall x :: x in n.Uses() ==> env(x) == env'(x)
    ensures AddLoop(index, n, env, i) == AddLoop(index, n, env', i)
  {
    hide ValueOf;
    ValueSame(n.min, env, env', i);
    ValueSame(n.extent, env, env', i);
  }

  lemma {:induction false} IndexFromSame(index: int, nodes: seq<LoopNode>, env: Env, env': Env, i: Interp)
    requires AgreeOn(IndexNames(nodes), env, env')
    ensures IndexFrom(index, nodes, env, i) == IndexFrom(index, nodes, env', i)
    decreases |nodes|
  {
    if nodes != [] {
      hide AddLoop;
      var n := nodes[0];
      assert n in nodes && n.x in IndexNames(nodes);
      forall x | x in n.Uses() ensures x in IndexNames(nodes) {}
      AddLoopSame(index, n, env, env', i);
      assert IndexNames(nodes[1..]) <= IndexNames(nodes);
      IndexFromSame(AddLoop(index, n, env, i), nodes[1..], env, env', i);
    }
  }

  lemma IndexSame(nodes: seq<LoopNode>, ring: nat, env: Env, env': Env, i: Interp)
    requires nodes != [] && ring > 0 && AgreeOn(IndexNames(nodes), env, env')
    ensures IndexAt(nodes, ring, env, i) == IndexAt(nodes, ring, env', i)
  {
    assert nodes[0] in nodes && nodes[0].x in IndexNames(nodes);
    assert IndexNames(nodes[1..]) <= IndexNames(nodes);
    IndexFromSame(env(nodes[0].x), nodes[1..], env, env', i);
  }

  /** The same events with every access at one copy. */
  function MoveAll(es: Events, slot: int): (r: Events)
    ensures |r| == |es| && forall j :: 0 <= j < |es| ==> r[j] == MoveTo(es[j], slot)
  {
    seq(|es|, j requires 0 <= j < |es| => MoveTo(es[j], slot))
  }

  function MoveEach(cs: seq<Events>, slot: int): (r: seq<Events>)
    ensures |r| == |cs| && forall c :: 0 <= c < |cs| ==> r[c] == MoveAll(cs[c], slot)
  {
    seq(|cs|, c requires 0 <= c < |cs| => MoveAll(cs[c], slot))
  }

  lemma LeafMoves(id: nat, env: Env, env0: Env, i: Interp, nodes: seq<LoopNode>, ring: nat)
    requires nodes != [] && ring > 0 && AgreeOn(IndexNames(nodes), env, env0)
    ensures Slotted(i, nodes, ring).acts(id, env) == MoveAll(i.acts(id, env), IndexAt(nodes, ring, env0, i))
  {
    hide IndexAt;
    IndexSame(nodes, ring, env, env0, i);
    var es, r := i.acts(id, env), Slotted(i, nodes, ring).acts(id, env);
    forall j | 0 <= j < |r| ensures r[j] == MoveTo(es[j], IndexAt(nodes, ring, env0, i)) {}
  }

  /** While none of the index's names is bound again, every access goes to one copy. */
  lemma {:induction false} TraceMoves(s: Stmt, env: Env, env0: Env, i: Interp, nodes: seq<LoopNode>, ring: nat)
    requires nodes != [] && ring > 0 && AgreeOn(IndexNames(nodes), env, env0) && Binders(s) !! IndexNames(nodes)
    ensures AsyncStmts.Trace(s, env, Slotted(i, nodes, ring))
            == MoveAll(AsyncStmts.Trace(s, env, i), IndexAt(nodes, ring, env0, i))
    decreases s, 0
  {
    hide IndexAt, AgreeOn;
    var r, slot := Slotted(i, nodes, ring), IndexAt(nodes, ring, env0, i);
    match s
    case Leaf(id) => LeafMoves(id, env, env0, i, nodes, ring);
    case Block(a, b) => TraceMoves(a, env, env0, i, nodes, ring); TraceMoves(b, env, env0, i, nodes, ring);
    case IfThenElse(_, a, b) => TraceMoves(a, env, env0, i, nodes, ring); TraceMoves(b, env, env0, i, nodes, ring);
    case For(x, min, extent, b) =>
      LoopMoves(x, ValueOf(min, env, r), ValueOf(extent, env, r), b, env, env0, i, nodes, ring);
    case LetStmt(x, v, b) =>
      StillAgree(env, x, ValueOf(v, env, r), env0, IndexNames(nodes));
      TraceMoves(b, Extend(env, x, ValueOf(v, env, r)), env0, i, nodes, ring);
    case Realize(_, b) => TraceMoves(b, env, env0, i, nodes, ring);
    case HoistedStorage(_, b) => TraceMoves(b, env, env0, i, nodes, ring);
    case Produce(_, b) => TraceMoves(b, env, env0, i, nodes, ring);
    case Consume(_, b) => TraceMoves(b, env, env0, i, nodes, ring);
    case Acquire(_, _, b) => TraceMoves(b, env, env0, i, nodes, ring);
    case _ =>
  }

  lemma StillAgree(env: Env, x: string, v: int, env0: Env, names: set<string>)
    requires AgreeOn(names, env, env0) && x !in names
    ensures AgreeOn(names, Extend(env, x, v), env0)
  {}

  lemma LoopMoves(x: string, from: int, n: int, b: Stmt, env: Env, env0: Env, i: Interp, nodes: seq<LoopNode>,
      ring: nat)
    requires nodes != [] && ring > 0 && AgreeOn(IndexNames(nodes), env, env0) && {x} + Binders(b) !! IndexNames(nodes)
    ensures LoopTrace(x, from, n, b, env, Slotted(i, nodes, ring))
            == MoveAll(LoopTrace(x, from, n, b, env, i), IndexAt(nodes, ring, env0, i))
    decreases b, 1, n
  {
    hide IndexAt, AgreeOn, AsyncStmts.Trace;
    if n > 0 {
      StillAgree(env, x, from, env0, IndexNames(nodes));
      TraceMoves(b, Extend(env, x, from), env0, i, nodes, ring);
      LoopMoves(x, from + 1, n - 1, b, env, env0, i, nodes, ring);
    }
  }

  lemma {:induction false} ProductionMoves(s: Stmt, f: string, silent: set<nat>, env: Env, env0: Env, i: Interp,
      nodes: seq<LoopNode>, ring: nat)
    requires nodes != [] && ring > 0 && AgreeOn(IndexNames(nodes), env, env0) && Binders(s) !! IndexNames(nodes)
    ensures Production(s, f, silent, env, Slotted(i, nodes, ring))
            == MoveAll(Production(s, f, silent, env, i), IndexAt(nodes, ring, env0, i))
  {
    hide IndexAt, AgreeOn;
    match s
    case Block(a, b) =>
      ProductionMoves(a, f, silent, env, env0, i, nodes, ring);
      ProductionMoves(b, f, silent, env, env0, i, nodes, ring);
    case LetStmt(x, v, b) =>
      StillAgree(env, x, ValueOf(v, env, i), env0, IndexNames(nodes));
      ProductionMoves(b, f, silent, Extend(env, x, ValueOf(v, env, i)), env0, i, nodes, ring);
    case Realize(_, b) => ProductionMoves(b, f, silent, env, env0, i, nodes, ring);
    case HoistedStorage(_, b) => ProductionMoves(b, f, silent, env, env0, i, nodes, ring);
    case Produce(g, b) =>
      if g == f { TraceMoves(b, env, env0, i, nodes, ring); }
      else { ProductionMoves(b, f, silent, env, env0, i, nodes, ring); }
    case Consume(_, b) => ProductionMoves(b, f, silent, env, env0, i, nodes, ring);
    case _ =>
  }

  lemma {:induction false} ConsumptionMoves(s: Stmt, f: string, silent: set<nat>, env: Env, env0: Env, i: Interp,
      nodes: seq<LoopNode>, ring: nat)
    requires nodes != [] && ring > 0 && AgreeOn(IndexNames(nodes), env, env0) && Binders(s) !! IndexNames(nodes)
    ensures Consumption(s, f, silent, env, Slotted(i, nodes, ring))
            == MoveEach(Consumption(s, f, silent, env, i), IndexAt(nodes, ring, env0, i))
  {
    hide IndexAt, AgreeOn;
    if !Quiet(s, f, silent) {
      match s
      case Block(a, b) =>
        ConsumptionMoves(a, f, silent, env, env0, i, nodes, ring);
        ConsumptionMoves(b, f, silent, env, env0, i, nodes, ring);
      case LetStmt(x, v, b) =>
        StillAgree(env, x, ValueOf(v, env, i), env0, IndexNames(nodes));
        ConsumptionMoves(b, f, silent, Extend(env, x, ValueOf(v, env, i)), env0, i, nodes, ring);
      case Realize(_, b) => ConsumptionMoves(b, f, silent, env, env0, i, nodes, ring);
      case HoistedStorage(_, b) => ConsumptionMoves(b, f, silent, env, env0, i, nodes, ring);
      case Produce(g, b) => if g != f { ConsumptionMoves(b, f, silent, env, env0, i, nodes, ring); }
      case Consume(g, b) =>
        if g == f { TraceMoves(b, env, env0, i, nodes, ring); }
        else { ConsumptionMoves(b, f, silent, env, env0, i, nodes, ring); }
      case _ =>
    }
  }

  /** The index is the slot computed from the values of the loops. */
  lemma {:induction false} IndexFromIs(index: int, nodes: seq<LoopNode>, round: Env, i: Interp, loops: seq<Loop>,
      t: seq<int>)
    requires Fits(round, nodes, loops, t, i)
    ensures IndexFrom(index, nodes, round, i) == Shifted(index, loops, t)
    decreases |nodes|
  {
    if nodes != [] {
      var n := nodes[0];
      forall j | 0 <= j < |nodes| - 1
        ensures round(nodes[1..][j].x) == t[1..][j] && ValueOf(nodes[1..][j].min, round, i) == loops[1..][j].min
        ensures ValueOf(nodes[1..][j].extent, round, i) == loops[1..][j].extent
      {
        assert nodes[1..][j] == nodes[j + 1];
      }
      assert AddLoop(index, n, round, i) == index * Span(loops[0]) + t[0];
      IndexFromIs(AddLoop(index, n, round, i), nodes[1..], round, i, loops[1..], t[1..]);
      ShiftedStep(index, loops, t);
    }
  }

  function Shifted(index: int, loops: seq<Loop>, t: seq<int>): int
    requires |t| == |loops|
  {
    index * Spans(loops) + Position(loops, t)
  }

  lemma ShiftedStep(index: int, loops: seq<Loop>, t: seq<int>)
    requires loops != [] && |t| == |loops|
    ensures Shifted(index, loops, t) == Shifted(index * Span(loops[0]) + t[0], loops[1..], t[1..])
  {
    hide Span;
    Regroup(index, Span(loops[0]), t[0], Spans(loops[1..]));
  }

  lemma RoundSlot(nodes: seq<LoopNode>, ring: nat, round: Env, i: Interp, loops: seq<Loop>, t: seq<int>)
    requires nodes != [] && ring > 0 && Fits(round, nodes, loops, t, i)
    ensures |t| == |loops| && IndexAt(nodes, ring, round, i) == SlotOf(loops, t, ring)
  {
    hide Spans, IndexFrom;
    forall j | 0 <= j < |nodes| - 1
      ensures round(nodes[1..][j].x) == t[1..][j] && ValueOf(nodes[1..][j].min, round, i) == loops[1..][j].min
      ensures ValueOf(nodes[1..][j].extent, round, i) == loops[1..][j].extent
    {
      assert nodes[1..][j] == nodes[j + 1];
    }
    IndexFromIs(t[0], nodes[1..], round, i, loops[1..], t[1..]);
  }

  // ----- the theorems -----

  /** A ring-buffered async Func anywhere inside loops, lets, conditionals,
      storage and other Funcs' nodes: the produce node of a round only writes,
      the consume nodes only read, and nothing in the round binds a name that the
      index depends on. */
  ghost predicate RingBuffered(s: Stmt, ring: nat, f: string, silent: set<nat>, env: Env, i: Interp) {
    var r, nodes := Inject(s, f), RingNodes(s, f, silent);
    && nodes != [] && ring > 0 && IsNest(r, f, silent) && Silent(i, silent)
    && Binders(Heart(r, f, silent)) !! IndexNames(nodes)
    && var j := Slotted(i, nodes, ring);
       forall k :: 0 <= k < |Rounds(r, f, silent, env, j)| ==>
         ProducesThenConsumes(Heart(r, f, silent), f, silent, Rounds(r, f, silent, env, j)[k], j)
  }

  ghost predicate ProducesThenConsumes(h: Stmt, f: string, silent: set<nat>, env: Env, i: Interp) {
    && (forall j :: 0 <= j < |Production(h, f, silent, env, i)| ==> Production(h, f, silent, env, i)[j].Write?)
    && (forall c, j ::
          0 <= c < |Consumption(h, f, silent, env, i)| && 0 <= j < |Consumption(h, f, silent, env, i)[c]| ==>
          Consumption(h, f, silent, env, i)[c][j].Read?)
  }

  /** The copy that each round uses. */
  function RingSlots(nodes: seq<LoopNode>, ring: nat, rounds: seq<Env>, i: Interp): (slots: seq<int>)
    requires nodes != [] && ring > 0
    ensures |slots| == |rounds| && forall k :: 0 <= k < |rounds| ==> slots[k] == IndexAt(nodes, ring, rounds[k], i)
  {
    seq(|rounds|, k requires 0 <= k < |rounds| => IndexAt(nodes, ring, rounds[k], i))
  }

  /** Rounds that follow each other use different copies. */
  ghost predicate RoundsDiffer(slots: seq<int>) { forall k :: 0 <= k < |slots| - 1 ==> slots[k] != slots[k + 1] }

  ghost function SlotsOf(s: Stmt, ring: nat, f: string, silent: set<nat>, env: Env, i: Interp): seq<int>
    requires RingNodes(s, f, silent) != [] && ring > 0
  {
    RingSlots(RingNodes(s, f, silent), ring, Rounds(Inject(s, f), f, silent, env, i), i)
  }

  lemma UsesIndex(h: Stmt, f: string, silent: set<nat>, env: Env, i: Interp, nodes: seq<LoopNode>, ring: nat)
    requires nodes != [] && ring > 0 && Binders(h) !! IndexNames(nodes)
    requires ProducesThenConsumes(h, f, silent, env, Slotted(i, nodes, ring))
    ensures UsesSlot(h, f, silent, env, Slotted(i, nodes, ring), IndexAt(nodes, ring, env, i))
  {
    hide Production, Consumption, IndexAt;
    ProductionMoves(h, f, silent, env, env, i, nodes, ring);
    ConsumptionMoves(h, f, silent, env, env, i, nodes, ring);
    var j, slot := Slotted(i, nodes, ring), IndexAt(nodes, ring, env, i);
    var ws: Events, cs: seq<Events> := Production(h, f, silent, env, j), Consumption(h, f, silent, env, j);
    forall x | 0 <= x < |ws| ensures ws[x].Write? && ws[x].slot == slot {}
    forall c, x | 0 <= c < |cs| && 0 <= x < |cs[c]| ensures cs[c][x].Read? && cs[c][x].slot == slot {
      assert cs[c] == MoveAll(Consumption(h, f, silent, env, i)[c], slot);
    }
  }

  /** Moving accesses to copies does not change which rounds there are. */
  lemma {:induction false} RoundsSame(r: Stmt, f: string, silent: set<nat>, env: Env, i: Interp, j: Interp)
    requires i.value == j.value
    ensures Rounds(r, f, silent, env, i) == Rounds(r, f, silent, env, j)
    decreases r, 0
  {
    if !IsRound(r, f, silent) {
      match r
      case Block(a, b) =>
        RoundsSame(a, f, silent, env, i, j);
        RoundsSame(b, f, silent, env, i, j);
      case IfThenElse(_, a, b) =>
        RoundsSame(a, f, silent, env, i, j);
        RoundsSame(b, f, silent, env, i, j);
      case For(x, min, extent, b) =>
        LoopRoundsSame(x, ValueOf(min, env, i), ValueOf(extent, env, i), b, f, silent, env, i, j);
      case LetStmt(x, v, b) => RoundsSame(b, f, silent, Extend(env, x, ValueOf(v, env, i)), i, j);
      case Realize(_, b) => RoundsSame(b, f, silent, env, i, j);
      case HoistedStorage(_, b) => RoundsSame(b, f, silent, env, i, j);
      case Produce(_, b) => RoundsSame(b, f, silent, env, i, j);
      case Consume(_, b) => RoundsSame(b, f, silent, env, i, j);
      case _ =>
    }
  }

  lemma LoopRoundsSame(x: string, from: int, n: int, b: Stmt, f: string, silent: set<nat>, env: Env, i: Interp,
      j: Interp)
    requires i.value == j.value
    ensures LoopRounds(x, from, n, b, f, silent, env, i) == LoopRounds(x, from, n, b, f, silent, env, j)
    decreases b, 1, n
  {
    if n > 0 {
      RoundsSame(b, f, silent, Extend(env, x, from), i, j);
      LoopRoundsSame(x, from + 1, n - 1, b, f, silent, env, i, j);
    }
  }

  /** Injecting the ring makes the nest a Func that can be forked, whose rounds
      use the copies that the index names. */
  lemma InjectedIsForkable(s: Stmt, ring: nat, f: string, silent: set<nat>, env: Env, i: Interp)
    requires RingBuffered(s, ring, f, silent, env, i)
    ensures var nodes := RingNodes(s, f, silent);
            Forkable(Inject(s, f), f, silent, env, Slotted(i, nodes, ring), SlotsOf(s, ring, f, silent, env, i))
  {
    hide Rounds, UsesSlot, IndexAt, ProducesThenConsumes, IsNest, LoopsTo, Inject;
    var r, nodes := Inject(s, f), RingNodes(s, f, silent);
    var h, j, slots := Heart(r, f, silent), Slotted(i, nodes, ring), SlotsOf(s, ring, f, silent, env, i);
    RoundsSame(r, f, silent, env, i, j);
    SilentSlotted(i, nodes, ring, silent);
    var rounds := Rounds(r, f, silent, env, j);
    forall k | 0 <= k < |slots| ensures UsesSlot(h, f, silent, rounds[k], j, slots[k]) {
      UsesIndex(h, f, silent, rounds[k], i, nodes, ring);
    }
  }

  /** If the loops run through the same values whenever they are reached, and
      no condition skips a round, whether neighbouring rounds use different copies
      is decided by the loops' ends and the number of copies. */
  lemma RoundsDifferExactly(s: Stmt, ring: nat, f: string, silent: set<nat>, env: Env, i: Interp, loops: seq<Loop>)
    requires var r := Inject(s, f);
             && RingNodes(s, f, silent) != [] && ring > 0 && IsNest(r, f, silent) && Visible(r, f, silent)
             && RunsThrough(r, f, silent, env, i, loops)
    ensures RoundsDiffer(SlotsOf(s, ring, f, silent, env, i)) <==> NeverRepeats(loops, ring)
  {
    hide Rounds, IndexAt, IsNest, LoopsTo, Inject, RunsThrough, Visible, Tuples, NeverRepeats, SlotOf, Fits;
    var r, nodes := Inject(s, f), RingNodes(s, f, silent);
    var rounds, ts, slots := Rounds(r, f, silent, env, i), Tuples(loops), SlotsOf(s, ring, f, silent, env, i);
    RoundsAreTuples(r, f, silent, env, i, loops);
    forall k | 0 <= k < |ts| ensures slots[k] == SlotOf(loops, ts[k], ring) {
      RoundSlot(nodes, ring, rounds[k], i, loops, ts[k]);
    }
    NeighboursDifferExactly(loops, ring);
    if Differ(loops, ts, ring) {
      forall k | 0 <= k < |slots| - 1 ensures slots[k] != slots[k + 1] {
        assert SlotOf(loops, ts[k], ring) != SlotOf(loops, ts[k + 1], ring);
      }
    }
    if RoundsDiffer(slots) {
      forall k: nat | k + 1 < |ts| ensures SlotOf(loops, ts[k], ring) != SlotOf(loops, ts[k + 1], ring) {
        assert slots[k] != slots[k + 1];
      }
    }
  }

  /** A ring-buffered async Func in any nest of loops, lets, conditionals and
      other nodes, whose neighbouring rounds use different copies: in every
      interleaving of the forked nest the consumer reads what the nest reads
      before forking, no copy is written while it is read, and the tasks do not
      block each other. */
  lemma RingBufferedForkIsSequential(s: Stmt, ring: nat, f: string, silent: set<nat>, env: Env, i: Interp,
      start: State, run: seq<State>)
    requires RingBuffered(s, ring, f, silent, env, i) && RoundsDiffer(SlotsOf(s, ring, f, silent, env, i))
    requires Initial(start, SemasOf(Inject(s, f), f))
    requires var j := Slotted(i, RingNodes(s, f, silent), ring);
             IsRun(AsyncStmts.Trace(ProducerHalf(Inject(s, f), f), env, j),
                 AsyncStmts.Trace(ConsumerHalf(Inject(s, f), f), env, j), start, run)
    ensures
      var r, j := Inject(s, f), Slotted(i, RingNodes(s, f, silent), ring);
      var ps, cs, last := AsyncStmts.Trace(ProducerHalf(r, f), env, j),
          AsyncStmts.Trace(ConsumerHalf(r, f), env, j), run[|run| - 1];
      && (last.c == |cs| ==> last.log == ReadAlone(AsyncStmts.Trace(r, env, j), start.mem))
      && !Race(ps, cs, last)
      && ((last.p == |ps| && last.c == |cs|)
          || (last.p < |ps| && Enabled(ps[last.p], last)) || (last.c < |cs| && Enabled(cs[last.c], last)))
  {
    hide Forkable, Initial, IsRun, Rounds, LoopsTo, Inject, IndexAt;
    var r, nodes := Inject(s, f), RingNodes(s, f, silent);
    var j, slots := Slotted(i, nodes, ring), SlotsOf(s, ring, f, silent, env, i);
    InjectedIsForkable(s, ring, f, silent, env, i);
    RoundCount(r, f, silent, env, j, slots);
    ForkedRunIsSequential(r, f, silent, env, j, slots, start, run);
  }

  lemma RoundCount(s: Stmt, f: string, silent: set<nat>, env: Env, i: Interp, slots: seq<int>)
    requires Forkable(s, f, silent, env, i, slots)
    ensures |slots| == |Rounds(s, f, silent, env, i)|
  {}

  // ----- the condition is exact -----

  /** Every round writes something and reads something. */
  ghost predicate AllUse(s: Stmt, ring: nat, f: string, silent: set<nat>, env: Env, i: Interp)
    requires RingNodes(s, f, silent) != [] && ring > 0
  {
    var r, j := Inject(s, f), Slotted(i, RingNodes(s, f, silent), ring);
    forall k :: 0 <= k < |Rounds(r, f, silent, env, j)| ==>
      UsedBoth(Heart(r, f, silent), f, silent, Rounds(r, f, silent, env, j)[k], j)
  }

  ghost predicate UsedBoth(h: Stmt, f: string, silent: set<nat>, env: Env, i: Interp) {
    && Production(h, f, silent, env, i) != []
    && exists c :: 0 <= c < |Consumption(h, f, silent, env, i)| && Consumption(h, f, silent, env, i)[c] != []
  }

  lemma {:induction false} ReadsKept(cs: seq<Events>, semas: seq<string>, c: nat)
    requires |cs| <= |semas| && c < |cs| && HasRead(cs[c])
    ensures HasRead(WithAcquires(cs, semas))
    decreases |cs|
  {
    var rest := semas[..|semas| - 1];
    var head, tail := [Acq(semas[|semas| - 1], 1)] + cs[0], WithAcquires(cs[1..], rest);
    if c == 0 {
      var x :| 0 <= x < |cs[0]| && cs[0][x].Read?;
      assert (head + tail)[x + 1] == cs[0][x];
    } else {
      ReadsKept(cs[1..], rest, c - 1);
      var x :| 0 <= x < |tail| && tail[x].Read?;
      assert (head + tail)[|head| + x] == tail[x];
    }
  }

  lemma BothBlocks(h: Stmt, f: string, silent: set<nat>, semas: seq<string>, env: Env, i: Interp)
    requires ProducesThenConsumes(h, f, silent, env, i) && UsedBoth(h, f, silent, env, i)
    requires |Consumption(h, f, silent, env, i)| <= |semas|
    ensures HasWrite(ProducerRound(h, f, silent, semas, env, i)) && HasRead(ConsumerRound(h, f, silent, semas, env, i))
  {
    hide Production, Consumption;
    var ws: Events, cs: seq<Events> := Production(h, f, silent, env, i), Consumption(h, f, silent, env, i);
    assert ProducerRound(h, f, silent, semas, env, i)[1] == ws[0];
    var c :| 0 <= c < |cs| && cs[c] != [];
    assert cs[c][0].Read?;
    ReadsKept(cs, semas, c);
    var w := WithAcquires(cs, semas);
    var x :| 0 <= x < |w| && w[x].Read?;
    assert ConsumerRound(h, f, silent, semas, env, i)[x] == w[x];
  }

  /** When every round writes and reads, the slots alternate only if they all differ. */
  lemma AlternateIsDiffer(s: Stmt, ring: nat, f: string, silent: set<nat>, env: Env, i: Interp)
    requires RingBuffered(s, ring, f, silent, env, i) && AllUse(s, ring, f, silent, env, i)
    requires var j, slots := Slotted(i, RingNodes(s, f, silent), ring), SlotsOf(s, ring, f, silent, env, i);
             |Rounds(Inject(s, f), f, silent, env, j)| == |slots|
    ensures var j, slots := Slotted(i, RingNodes(s, f, silent), ring), SlotsOf(s, ring, f, silent, env, i);
            SlotsAlternate(Inject(s, f), f, silent, env, j, slots) <==> RoundsDiffer(slots)
  {
    hide IndexAt, Rounds, Inject, LoopsTo, UsedBoth, ProducesThenConsumes, CountConsumes, IsNest, Heart;
    var r, nodes := Inject(s, f), RingNodes(s, f, silent);
    var j, slots := Slotted(i, nodes, ring), SlotsOf(s, ring, f, silent, env, i);
    var envs, h := Rounds(r, f, silent, env, j), Heart(r, f, silent);
    var semas := TaskSemas(f, CountConsumes(r, f));
    var pb, cb := ProducerBlocks(r, f, silent, env, j), ConsumerBlocks(r, f, silent, env, j);
    NestCounts(r, f, silent);
    HeartIterates(r, f, silent);
    SilentSlotted(i, nodes, ring, silent);
    forall k | 0 <= k < |slots| ensures HasWrite(pb[k]) && HasRead(cb[k]) {
      IterationTrace(h, f, silent, envs[k], j);
      BothBlocks(h, f, silent, semas, envs[k], j);
      assert pb[k] == ProducerRound(h, f, silent, semas, envs[k], j)
          && cb[k] == ConsumerRound(h, f, silent, semas, envs[k], j);
    }
    if SlotsAlternate(r, f, silent, env, j, slots) {
      forall k | 0 <= k < |slots| - 1 ensures slots[k] != slots[k + 1] {}
    }
  }

  lemma SilentSlotted(i: Interp, nodes: seq<LoopNode>, ring: nat, silent: set<nat>)
    requires nodes != [] && ring > 0 && Silent(i, silent)
    ensures Silent(Slotted(i, nodes, ring), silent)
  {}

  /** The forked nest can write a copy that is being read exactly if two rounds
      that follow each other use one copy. */
  lemma RingBufferedRaceExactly(s: Stmt, ring: nat, f: string, silent: set<nat>, env: Env, i: Interp, start: State)
    requires RingBuffered(s, ring, f, silent, env, i) && AllUse(s, ring, f, silent, env, i)
    requires Initial(start, SemasOf(Inject(s, f), f))
    ensures
      var r, j := Inject(s, f), Slotted(i, RingNodes(s, f, silent), ring);
      var ps, cs := AsyncStmts.Trace(ProducerHalf(r, f), env, j), AsyncStmts.Trace(ConsumerHalf(r, f), env, j);
      (exists run :: IsRun(ps, cs, start, run) && Race(ps, cs, run[|run| - 1]))
          <==> !RoundsDiffer(SlotsOf(s, ring, f, silent, env, i))
  {
    hide Forkable, Initial, IsRun, Rounds, LoopsTo, AllUse, Inject, IndexAt;
    RingBufferedParts(s, ring, f, silent, env, i);
    var r, nodes := Inject(s, f), RingNodes(s, f, silent);
    var j, slots := Slotted(i, nodes, ring), SlotsOf(s, ring, f, silent, env, i);
    InjectedIsForkable(s, ring, f, silent, env, i);
    RoundCount(r, f, silent, env, j, slots);
    AlternateIsDiffer(s, ring, f, silent, env, i);
    ForkedRaceExactly(r, f, silent, env, j, slots, start);
  }

  lemma RingBufferedParts(s: Stmt, ring: nat, f: string, silent: set<nat>, env: Env, i: Interp)
    requires RingBuffered(s, ring, f, silent, env, i)
    ensures RingNodes(s, f, silent) != [] && ring > 0
  {}

  /** With loops that run through the same values whenever they are reached:
      the race is decided by the loops' ends and the number of copies alone. */
  lemma LoopsRaceExactly(s: Stmt, ring: nat, f: string, silent: set<nat>, env: Env, i: Interp, loops: seq<Loop>,
      start: State)
    requires RingBuffered(s, ring, f, silent, env, i) && AllUse(s, ring, f, silent, env, i)
    requires Visible(Inject(s, f), f, silent) && RunsThrough(Inject(s, f), f, silent, env, i, loops)
    requires Initial(start, SemasOf(Inject(s, f), f))
    ensures
      var r, j := Inject(s, f), Slotted(i, RingNodes(s, f, silent), ring);
      var ps, cs := AsyncStmts.Trace(ProducerHalf(r, f), env, j), AsyncStmts.Trace(ConsumerHalf(r, f), env, j);
      (exists run :: IsRun(ps, cs, start, run) && Race(ps, cs, run[|run| - 1])) <==> !NeverRepeats(loops, ring)
  {
    hide Initial, IsRun, Rounds, LoopsTo, AllUse, Inject, IndexAt, RunsThrough, Visible, NeverRepeats, Race;
    RingBufferedRaceExactly(s, ring, f, silent, env, i, start);
    RoundsDifferExactly(s, ring, f, silent, env, i, loops);
  }

  // ----- inner loops that do not start at zero -----

  const PLAIN_ROUND := Realize("f", Block(Produce("f", Leaf(0)), Consume("f", Leaf(1))))

  /** `produce g: for x in 0 .. rows: let b = 0: for y in m .. m + n: produce f; consume f` */
  function TwoLoops(rows: nat, m: int, n: nat): Stmt {
    Produce("g", For("x", Lit(0), Lit(rows), LetStmt("b", Lit(0), For("y", Lit(m), Lit(n), PLAIN_ROUND))))
  }

  function TwoNodes(rows: nat, m: int, n: nat): seq<LoopNode> {
    [LoopNode("x", Lit(0), Lit(rows)), LoopNode("y", Lit(m), Lit(n))]
  }

  /** Leaf 0 writes the Func's storage, leaf 1 reads it. */
  const WRITE_THEN_READ := Interp((id: nat, vars: map<string, int>) => 0,
    (id: nat, env: Env) =>
      if id == 0 then [Write(0, (c: Cells) => ((at: seq<int>) => 1))] else [Read(0, (c: Cells) => c([]))])

  /** What is known of a nest around the plain round. */
  predicate Around(r: Stmt, nodes: seq<LoopNode>, bound: set<string>) {
    && IsNest(r, "f", {}) && LoopsTo(r, "f", {}) == nodes && Heart(r, "f", {}) == PLAIN_ROUND.body
    && Visible(r, "f", {}) && NoChoice(r, "f", {}) && PathBinders(r, "f", {}) == bound
  }

  lemma AroundFor(x: string, from: int, n: int, b: Stmt, nodes: seq<LoopNode>, bound: set<string>)
    requires Around(b, nodes, bound) && x !in bound
    ensures Around(For(x, Lit(from), Lit(n), b), [LoopNode(x, Lit(from), Lit(n))] + nodes, {x} + bound)
  {
    assert !IsRound(For(x, Lit(from), Lit(n), b), "f", {});
  }

  lemma AroundLet(x: string, v: Expr, b: Stmt, nodes: seq<LoopNode>, bound: set<string>)
    requires Around(b, nodes, bound)
    ensures Around(LetStmt(x, v, b), nodes, {x} + bound)
  {
    assert !IsRound(LetStmt(x, v, b), "f", {});
  }

  lemma AroundProduce(g: string, b: Stmt, nodes: seq<LoopNode>, bound: set<string>)
    requires Around(b, nodes, bound) && g != "f"
    ensures Around(Produce(g, b), nodes, bound)
  {
    assert !IsRound(Produce(g, b), "f", {});
  }

  /** The nest with the ring injected. */
  lemma TwoLoopsInjected(rows: nat, m: int, n: nat)
    ensures Around(Inject(TwoLoops(rows, m, n), "f"), TwoNodes(rows, m, n), {"x", "b", "y"})
  {
    hide IsNest, LoopsTo, Heart, Visible, NoChoice, PathBinders, IsRound, Around, Inject;
    var round := AddRound("f", PLAIN_ROUND.body);
    var inner := For("y", Lit(m), Lit(n), round);
    var lets := LetStmt("b", Lit(0), inner);
    var outer := For("x", Lit(0), Lit(rows), lets);
    RoundInjected();
    assert Around(round, [], {}) by { RoundAround(); }
    AroundFor("y", m, n, round, [], {});
    AroundLet("b", Lit(0), inner, [LoopNode("y", Lit(m), Lit(n))] + [], {"y"} + {});
    AroundFor("x", 0, rows, lets, [LoopNode("y", Lit(m), Lit(n))] + [], {"b"} + ({"y"} + {}));
    AroundProduce("g", outer, [LoopNode("x", Lit(0), Lit(rows))] + ([LoopNode("y", Lit(m), Lit(n))] + []),
                  {"x"} + ({"b"} + ({"y"} + {})));
    assert [LoopNode("x", Lit(0), Lit(rows))] + ([LoopNode("y", Lit(m), Lit(n))] + []) == TwoNodes(rows, m, n);
    assert {"x"} + ({"b"} + ({"y"} + {})) == {"x", "b", "y"};
    TwoLoopsInject(rows, m, n);
  }

  lemma RoundAround()
    ensures Around(AddRound("f", PLAIN_ROUND.body), [], {})
  {
    RoundInjected();
  }

  lemma InjectedAround(x: string, v: AsyncStmts.Expr, e: AsyncStmts.Expr, b: Stmt, f: string)
    ensures Inject(For(x, v, e, b), f) == For(x, v, e, Inject(b, f))
    ensures Inject(LetStmt(x, v, b), f) == LetStmt(x, v, Inject(b, f))
    ensures Inject(Produce(x, b), f) == Produce(x, Inject(b, f))
  {}

  lemma TwoLoopsInject(rows: nat, m: int, n: nat)
    ensures Inject(TwoLoops(rows, m, n), "f")
            == Produce("g", For("x", Lit(0), Lit(rows), LetStmt("b", Lit(0),
                 For("y", Lit(m), Lit(n), AddRound("f", PLAIN_ROUND.body)))))
  {
    hide Inject;
    RoundInjected();
    var inner := For("y", Lit(m), Lit(n), PLAIN_ROUND);
    var lets := LetStmt("b", Lit(0), inner);
    InjectedAround("y", Lit(m), Lit(n), PLAIN_ROUND, "f");
    InjectedAround("b", Lit(0), Lit(0), inner, "f");
    InjectedAround("x", Lit(0), Lit(rows), lets, "f");
    InjectedAround("g", Lit(0), Lit(0), For("x", Lit(0), Lit(rows), lets), "f");
  }

  lemma RoundInjected()
    ensures var round := AddRound("f", PLAIN_ROUND.body);
            Inject(PLAIN_ROUND, "f") == round && IsRound(round, "f", {}) && RoundBody(round) == PLAIN_ROUND.body
    ensures Binders(PLAIN_ROUND.body) == {}
  {
    var h := PLAIN_ROUND.body;
    assert Inject(h, "f") == h;
    assert Iterating(h, "f", {}) && CountConsumes(h, "f") == 1;
  }

  lemma TwoLoopsAreRingBuffered(rows: nat, m: int, n: nat, ring: nat, env: Env)
    requires ring > 0
    ensures RingBuffered(TwoLoops(rows, m, n), ring, "f", {}, env, WRITE_THEN_READ)
    ensures AllUse(TwoLoops(rows, m, n), ring, "f", {}, env, WRITE_THEN_READ)
  {
    hide Rounds, IndexAt, Inject, LoopsTo, IsNest, Heart, ProducesThenConsumes, UsedBoth;
    var s, nodes, i := TwoLoops(rows, m, n), TwoNodes(rows, m, n), WRITE_THEN_READ;
    var j := Slotted(i, nodes, ring);
    TwoLoopsInjected(rows, m, n);
    RoundInjected();
    forall env1: Env
      ensures ProducesThenConsumes(PLAIN_ROUND.body, "f", {}, env1, j) && UsedBoth(PLAIN_ROUND.body, "f", {}, env1, j)
    {
      assert |i.acts(0, env1)| == 1 && i.acts(0, env1)[0].Write?;
      assert |i.acts(1, env1)| == 1 && i.acts(1, env1)[0].Read?;
      assert j.acts(0, env1)[0] == MoveTo(i.acts(0, env1)[0], IndexAt(nodes, ring, env1, i));
      assert j.acts(1, env1)[0] == MoveTo(i.acts(1, env1)[0], IndexAt(nodes, ring, env1, i));
      PlainRound(env1, j);
    }
  }

  lemma TwoLoopsRun(rows: nat, m: int, n: nat, env: Env, i: Interp)
    ensures RunsThrough(Inject(TwoLoops(rows, m, n), "f"), "f", {}, env, i, [Loop("x", 0, rows), Loop("y", m, n)])
  {
    var r, nodes := Inject(TwoLoops(rows, m, n), "f"), TwoNodes(rows, m, n);
    assert LoopsOf(nodes, env, i) == [Loop("x", 0, rows), Loop("y", m, n)] by {
      assert nodes[1..] == [nodes[1]] && nodes[1..][1..] == [];
    }
    hide RunsThrough, LoopsTo, Inject, IsNest, LoopsOf;
    TwoLoopsInjected(rows, m, n);
    SteadyRunsThrough(r, "f", {}, env, env, {"x", "b", "y"}, i);
  }

  lemma PlainRound(env: Env, i: Interp)
    requires |i.acts(0, env)| == 1 && i.acts(0, env)[0].Write? && |i.acts(1, env)| == 1 && i.acts(1, env)[0].Read?
    ensures ProducesThenConsumes(PLAIN_ROUND.body, "f", {}, env, i) && UsedBoth(PLAIN_ROUND.body, "f", {}, env, i)
  {
    var h := PLAIN_ROUND.body;
    assert Iterating(h.first, "f", {}) && Consuming(h.rest, "f", {});
    assert Production(h, "f", {}, env, i) == i.acts(0, env);
    assert !Quiet(h, "f", {}) && !Quiet(h.first, "f", {}) && !Quiet(h.rest, "f", {});
    assert Consumption(h, "f", {}, env, i) == [] + [i.acts(1, env)];
    assert ([] + [i.acts(1, env)])[0] == i.acts(1, env);
  }

  /** Two loops with an inner one from `m`: some interleaving of the tasks writes
      a copy that is being read exactly when the ring divides `1 - m`. */
  lemma TwoLoopsRaceExactly(rows: nat, m: int, n: nat, ring: nat, env: Env, start: State)
    requires rows >= 2 && n >= 1 && ring >= 2 && Initial(start, SemasOf(Inject(TwoLoops(rows, m, n), "f"), "f"))
    ensures
      var r, j := Inject(TwoLoops(rows, m, n), "f"), Slotted(WRITE_THEN_READ, TwoNodes(rows, m, n), ring);
      var ps, cs := AsyncStmts.Trace(ProducerHalf(r, "f"), env, j), AsyncStmts.Trace(ConsumerHalf(r, "f"), env, j);
      (exists run :: IsRun(ps, cs, start, run) && Race(ps, cs, run[|run| - 1])) <==> (1 - m) % ring == 0
  {
    hide RunsThrough, LoopsTo, Inject, IsNest, Visible, TwoLoops, Race, Initial, Heart, NeverRepeats, Differ, AllUse;
    hide PathBinders, NoChoice, RingBuffered;
    var s, i := TwoLoops(rows, m, n), WRITE_THEN_READ;
    var loops := [Loop("x", 0, rows), Loop("y", m, n)];
    TwoLoopsInjected(rows, m, n);
    TwoLoopsAreRingBuffered(rows, m, n, ring, env);
    TwoLoopsRun(rows, m, n, env, i);
    LoopsRaceExactly(s, ring, "f", {}, env, i, loops, start);
    NeighboursDifferExactly(loops, ring);
    TwoLoopsExactly("x", "y", 0, rows, m, n, ring);
  }

  /** Two rows, an inner loop from one, and two copies: a run that ends in a race. */
  lemma InnerFromOneRaces(n: nat, env: Env, start: State) returns (run: seq<State>)
    requires n >= 1 && Initial(start, SemasOf(Inject(TwoLoops(2, 1, n), "f"), "f"))
    ensures
      var r, j := Inject(TwoLoops(2, 1, n), "f"), Slotted(WRITE_THEN_READ, TwoNodes(2, 1, n), 2);
      var ps, cs := AsyncStmts.Trace(ProducerHalf(r, "f"), env, j), AsyncStmts.Trace(ConsumerHalf(r, "f"), env, j);
      IsRun(ps, cs, start, run) && Race(ps, cs, run[|run| - 1])
  {
    hide Race, Initial, ProducerHalf, ConsumerHalf, Inject, TwoLoops;
    TwoLoopsRaceExactly(2, 1, n, 2, env, start);
    var r, j := Inject(TwoLoops(2, 1, n), "f"), Slotted(WRITE_THEN_READ, TwoNodes(2, 1, n), 2);
    var ps, cs := AsyncStmts.Trace(ProducerHalf(r, "f"), env, j), AsyncStmts.Trace(ConsumerHalf(r, "f"), env, j);
    var found :| IsRun(ps, cs, start, found) && Race(ps, cs, found[|found| - 1]);
    run := found;
  }
}
