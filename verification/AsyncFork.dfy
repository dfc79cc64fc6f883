// Forking an async producer (GenerateProducerBody, GenerateConsumerBody and
// process_body of src/AsyncProducers.cpp): one copy of the loops keeps only
// the production, the other only the consumption.

module AsyncForking {
  import opened AsyncStmts
  import Runs = AsyncRuns

  // ----- the producer's half -----

  /** What the visitor carries: semaphores left to release, producers dropped,
      whether the production has been met, storage kept, new names of acquires,
      and whether the schedule has been accepted so far. */
  datatype PState = PState(semas: seq<string>, dropped: set<string>, found: bool, realizes: set<string>,
                           clones: seq<(string, string)>, ok: bool)

  /** The releases after the body, the last semaphore first. */
  function AddReleases(body: Stmt, semas: seq<string>): Stmt
    decreases |semas|
  {
    if semas == [] then body
    else AddReleases(Block(body, Release(semas[|semas| - 1])), semas[..|semas| - 1])
  }

  /** A consume node of a dropped producer that is not inside another node. */
  predicate HasBadConsume(s: Stmt, dropped: set<string>) {
    match s
    case Consume(g, _) => g in dropped
    case Block(a, b) => HasBadConsume(a, dropped) || HasBadConsume(b, dropped)
    case IfThenElse(_, a, b) => HasBadConsume(a, dropped) || HasBadConsume(b, dropped)
    case For(_, _, _, b) => HasBadConsume(b, dropped)
    case LetStmt(_, _, b) => HasBadConsume(b, dropped)
    case Realize(_, b) => HasBadConsume(b, dropped)
    case HoistedStorage(_, b) => HasBadConsume(b, dropped)
    case Acquire(_, _, b) => HasBadConsume(b, dropped)
    case _ => false
  }

  function CloneName(sema: string, st: PState): string { sema + "_" + Decimal.Digits(|st.clones|) }

  function ProducerBody(s: Stmt, f: string, st: PState): (Stmt, PState) {
    match s
    case Skip | Leaf(_) | Release(_) => (Skip, st)
    case Block(first, rest) =>
      var (a, st1) := ProducerBody(first, f, st);
      var (b, st2) := ProducerBody(rest, f, st1);
      (FoldBlock(a, b), st2)
    case For(x, min, extent, body) =>
      var (b, st1) := ProducerBody(body, f, st);
      (FoldAround(For(x, min, extent, b), b), st1)
    case LetStmt(x, v, body) =>
      var (b, st1) := ProducerBody(body, f, st);
      (FoldAround(LetStmt(x, v, b), b), st1)
    case IfThenElse(c, t, e) =>
      var (a, st1) := ProducerBody(t, f, st);
      var (b, st2) := ProducerBody(e, f, st1);
      (FoldIf(c, a, b), st2)
    case Realize(g, body) =>
      var (b, st1) := ProducerBody(body, f, st);
      if IsNoOp(b) then (b, st1) else (Realize(g, b), st1.(realizes := st1.realizes + {g}))
    case HoistedStorage(g, body) =>
      var (b, st1) := ProducerBody(body, f, st);
      (if IsNoOp(b) || g !in st1.realizes then b else HoistedStorage(g, b), st1)
    case Produce(g, body) =>
      if g == f then
        (Produce(f, AddReleases(body, st.semas)),
         st.(found := true, semas := [], ok := st.ok && st.semas != [] && !HasBadConsume(body, st.dropped)))
      else ProducerBody(body, f, st.(dropped := st.dropped + {g}))
    case Consume(g, body) =>
      var (b, st1) := ProducerBody(body, f, st);
      var st2 := st1.(ok := st1.ok && !(g in st1.dropped && st1.found && !st.found));
      (if IsNoOp(b) then b else Consume(g, b), st2)
    case Acquire(sema, n, body) =>
      var (b, st1) := ProducerBody(body, f, st);
      if IsNoOp(b) then (b, st1)
      else if IsFolding(sema, f) then (Acquire(sema, n, b), st1)
      else (Acquire(CloneName(sema, st1), n, b), st1.(clones := st1.clones + [(sema, CloneName(sema, st1))]))
  }

  class GenerateProducerBody {
    const func: string
    var semas: seq<string>
    var dropped: set<string>
    var found: bool
    var realizes: set<string>
    var clones: seq<(string, string)>
    var ok: bool

    function Value(): PState
      reads this
    {
      PState(semas, dropped, found, realizes, clones, ok)
    }

    constructor (f: string, names: seq<string>)
      ensures func == f && Value() == PState(names, {}, false, {}, [], true)
    {
      func, semas, dropped, found, realizes, clones, ok := f, names, {}, false, {}, [], true;
    }

    method Mutate(s: Stmt) returns (r: Stmt)
      modifies this
      ensures (r, Value()) == ProducerBody(s, func, old(Value()))
      decreases s
    {
      match s {
        case Skip | Leaf(_) | Release(_) => r := Skip;
        case Block(first, rest) =>
          var a := Mutate(first);
          var b := Mutate(rest);
          r := FoldBlock(a, b);
        case For(x, min, extent, body) =>
          var b := Mutate(body);
          r := FoldAround(For(x, min, extent, b), b);
        case LetStmt(x, v, body) =>
          var b := Mutate(body);
          r := FoldAround(LetStmt(x, v, b), b);
        case IfThenElse(c, t, e) =>
          var a := Mutate(t);
          var b := Mutate(e);
          r := FoldIf(c, a, b);
        case Realize(g, body) =>
          r := Mutate(body);
          if !IsNoOp(r) {
            realizes := realizes + {g};
            r := Realize(g, r);
          }
        case HoistedStorage(g, body) =>
          r := Mutate(body);
          if !IsNoOp(r) && g in realizes { r := HoistedStorage(g, r); }
        case Produce(g, body) =>
          if g == func {
            found := true;
            ok := ok && semas != [] && !HasBadConsume(body, dropped);
            r := body;
            ghost var all := AddReleases(body, semas);
            while semas != []
              invariant AddReleases(r, semas) == all
              invariant Value() == old(Value()).(found := true, semas := semas, ok := ok)
              invariant ok == (old(ok) && old(semas) != [] && !HasBadConsume(body, old(dropped)))
              decreases |semas|
            {
              r := Block(r, Release(semas[|semas| - 1]));
              semas := semas[..|semas| - 1];
            }
            r := Produce(func, r);
          } else {
            dropped := dropped + {g};
            r := Mutate(body);
          }
        case Consume(g, body) =>
          var before := found;
          r := Mutate(body);
          ok := ok && !(g in dropped && found && !before);
          if !IsNoOp(r) { r := Consume(g, r); }
        case Acquire(sema, n, body) =>
          r := Mutate(body);
          if !IsNoOp(r) {
            if IsFolding(sema, func) {
              r := Acquire(sema, n, r);
            } else {
              var clone := CloneName(sema, Value());
              clones := clones + [(sema, clone)];
              r := Acquire(clone, n, r);
            }
          }
      }
    }
  }

  // ----- the consumer's half -----

  function ConsumerBody(s: Stmt, f: string, semas: seq<string>): (Stmt, seq<string>) {
    match s
    case Skip | Leaf(_) | Release(_) => (s, semas)
    case Block(first, rest) =>
      var (a, s1) := ConsumerBody(first, f, semas);
      var (b, s2) := ConsumerBody(rest, f, s1);
      (FoldBlock(a, b), s2)
    case For(x, min, extent, body) =>
      var (b, s1) := ConsumerBody(body, f, semas);
      (FoldAround(For(x, min, extent, b), b), s1)
    case LetStmt(x, v, body) =>
      var (b, s1) := ConsumerBody(body, f, semas);
      (FoldAround(LetStmt(x, v, b), b), s1)
    case IfThenElse(c, t, e) =>
      var (a, s1) := ConsumerBody(t, f, semas);
      var (b, s2) := ConsumerBody(e, f, s1);
      (FoldIf(c, a, b), s2)
    case Realize(g, body) =>
      var (b, s1) := ConsumerBody(body, f, semas);
      (FoldAround(Realize(g, b), b), s1)
    case HoistedStorage(g, body) =>
      var (b, s1) := ConsumerBody(body, f, semas);
      (FoldAround(HoistedStorage(g, b), b), s1)
    case Produce(g, body) =>
      if g == f then (Skip, semas)
      else
        var (b, s1) := ConsumerBody(body, f, semas);
        (Produce(g, b), s1)
    case Consume(g, body) =>
      if g == f then
        if semas == [] then (s, semas)  // one semaphore is made for each consume node
        else (Acquire(semas[|semas| - 1], Lit(1), s), semas[..|semas| - 1])
      else
        var (b, s1) := ConsumerBody(body, f, semas);
        (Consume(g, b), s1)
    case Acquire(sema, n, body) =>
      var (b, s1) := ConsumerBody(body, f, semas);
      (if IsFolding(sema, f) then b else Acquire(sema, n, b), s1)
  }

  class GenerateConsumerBody {
    const func: string
    var semas: seq<string>

    constructor (f: string, names: seq<string>)
      ensures func == f && semas == names
    {
      func, semas := f, names;
    }

    method Mutate(s: Stmt) returns (r: Stmt)
      modifies this
      ensures (r, semas) == ConsumerBody(s, func, old(semas))
      decreases s
    {
      match s {
        case Skip | Leaf(_) | Release(_) => r := s;
        case Block(first, rest) =>
          var a := Mutate(first);
          var b := Mutate(rest);
          r := FoldBlock(a, b);
        case For(x, min, extent, body) =>
          var b := Mutate(body);
          r := FoldAround(For(x, min, extent, b), b);
        case LetStmt(x, v, body) =>
          var b := Mutate(body);
          r := FoldAround(LetStmt(x, v, b), b);
        case IfThenElse(c, t, e) =>
          var a := Mutate(t);
          var b := Mutate(e);
          r := FoldIf(c, a, b);
        case Realize(g, body) =>
          var b := Mutate(body);
          r := FoldAround(Realize(g, b), b);
        case HoistedStorage(g, body) =>
          var b := Mutate(body);
          r := FoldAround(HoistedStorage(g, b), b);
        case Produce(g, body) =>
          if g == func { r := Skip; } else {
            var b := Mutate(body);
            r := Produce(g, b);
          }
        case Consume(g, body) =>
          if g != func {
            var b := Mutate(body);
            r := Consume(g, b);
          } else if semas == [] {
            r := s;
          } else {
            r := Acquire(semas[|semas| - 1], Lit(1), s);
            semas := semas[..|semas| - 1];
          }
        case Acquire(sema, n, body) =>
          var b := Mutate(body);
          r := if IsFolding(sema, func) then b else Acquire(sema, n, b);
      }
    }
  }

  // ----- process_body -----

  function CountConsumes(s: Stmt, f: string): nat {
    match s
    case Skip | Leaf(_) | Release(_) => 0
    case Block(a, b) => CountConsumes(a, f) + CountConsumes(b, f)
    case IfThenElse(_, a, b) => CountConsumes(a, f) + CountConsumes(b, f)
    case For(_, _, _, b) => CountConsumes(b, f)
    case LetStmt(_, _, b) => CountConsumes(b, f)
    case Realize(_, b) => CountConsumes(b, f)
    case HoistedStorage(_, b) => CountConsumes(b, f)
    case Produce(_, b) => CountConsumes(b, f)
    case Consume(g, b) => (if g == f then 1 else 0) + CountConsumes(b, f)
    case Acquire(_, _, b) => CountConsumes(b, f)
  }

  /** A semaphore for each consume node. */
  function TaskSemas(f: string, n: nat): seq<string> { seq(n, j requires 0 <= j < n => TaskSema(f, j)) }

  function ProducerHalf(s: Stmt, f: string): Stmt {
    ProducerBody(s, f, PState(TaskSemas(f, CountConsumes(s, f)), {}, false, {}, [], true)).0
  }

  function ConsumerHalf(s: Stmt, f: string): Stmt { ConsumerBody(s, f, TaskSemas(f, CountConsumes(s, f))).0 }
}
