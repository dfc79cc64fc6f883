// Atomic updates with a mutex around them (src/AddAtomicMutex.cpp).

module AtomicStmts {
  import opened Options
  import opened AtomicRuns

  datatype Expr =
    | Lit(n: int)
    | Var(x: string)
    | LoadFrom(buf: string, index: Expr)
    | Op(id: nat, a: Expr, b: Expr)
    | Select(c: Expr, a: Expr, b: Expr)
    | Let(x: string, value: Expr, body: Expr)

  datatype Stmt =
    | Skip
    | StoreTo(buf: string, value: Expr, index: Expr, pred: Expr)
    | Block(first: Stmt, rest: Stmt)
    | LetStmt(x: string, value: Expr, body: Stmt)
    | IfThenElse(cond: Expr, thenCase: Stmt)
    | Atomic(producer: string, mutex: string, body: Stmt)
    | LockAt(mutex: string, index: Expr)
    | UnlockAt(mutex: string, index: Expr)

  type Env = map<string, int>

  /** What operators compute. */
  type Meaning = (nat, int, int) -> int

  // ----- the pass -----

  /** Every name an expression refers to or defines. */
  function Mentions(e: Expr): set<string> {
    match e
    case Lit(_) => {}
    case Var(x) => {x}
    case LoadFrom(f, i) => {f} + Mentions(i)
    case Op(_, a, b) => Mentions(a) + Mentions(b)
    case Select(c, a, b) => Mentions(c) + Mentions(a) + Mentions(b)
    case Let(x, v, b) => {x} + Mentions(v) + Mentions(b)
  }

  function NamesIn(s: Stmt): set<string> {
    match s
    case Skip => {}
    case StoreTo(f, v, i, p) => {f} + Mentions(v) + Mentions(i) + Mentions(p)
    case Block(a, b) => NamesIn(a) + NamesIn(b)
    case LetStmt(x, v, b) => {x} + Mentions(v) + NamesIn(b)
    case IfThenElse(c, b) => Mentions(c) + NamesIn(b)
    case Atomic(_, _, b) => NamesIn(b)
    case LockAt(_, i) => Mentions(i)
    case UnlockAt(_, i) => Mentions(i)
  }

  /** A buffer of the producer, which has several if its values are tuples. */
  predicate IsOf(buf: string, producer: string) { buf == producer || producer + "." <= buf }

  /** CollectProducerStoreNames. */
  function StoreNames(s: Stmt, producer: string): set<string> {
    match s
    case StoreTo(f, _, _, _) => if IsOf(f, producer) then {f} else {}
    case Block(a, b) => StoreNames(a, producer) + StoreNames(b, producer)
    case LetStmt(_, _, b) => StoreNames(b, producer)
    case IfThenElse(_, b) => StoreNames(b, producer)
    case Atomic(_, _, b) => StoreNames(b, producer)
    case _ => {}
  }

  /** FindProducerStoreIndex on an expression: a let whose name the index found so far mentions is put around it. */
  function FindInExpr(e: Expr, found: Option<Expr>): Option<Expr> {
    match e
    case Lit(_) => found
    case Var(_) => found
    case LoadFrom(_, i) => FindInExpr(i, found)
    case Op(_, a, b) => FindInExpr(b, FindInExpr(a, found))
    case Select(c, a, b) => FindInExpr(b, FindInExpr(a, FindInExpr(c, found)))
    case Let(x, v, b) => WrapIndex(x, v, FindInExpr(b, FindInExpr(v, found)))
  }

  function WrapIndex(x: string, v: Expr, found: Option<Expr>): Option<Expr> {
    if found.Some? && x in Mentions(found.value) then Some(Let(x, v, found.value)) else found
  }

  /** The index of the first store to the producer. */
  function FindIndex(s: Stmt, producer: string, found: Option<Expr>): Option<Expr> {
    match s
    case Skip => found
    case StoreTo(f, v, i, p) =>
      var r := FindInExpr(i, FindInExpr(v, FindInExpr(p, found)));
      if IsOf(f, producer) && r.None? then Some(i) else r
    case Block(a, b) => FindIndex(b, producer, FindIndex(a, producer, found))
    case LetStmt(x, v, b) => WrapIndex(x, v, FindIndex(b, producer, FindInExpr(v, found)))
    case IfThenElse(c, b) => FindIndex(b, producer, FindInExpr(c, found))
    case Atomic(_, _, b) => FindIndex(b, producer, found)
    case LockAt(_, i) => FindInExpr(i, found)
    case UnlockAt(_, i) => FindInExpr(i, found)
  }

  /** CheckAtomicValidity: the index written to does not depend on what is written. */
  predicate IsValid(body: Stmt, producer: string) {
    var index := FindIndex(body, producer, None);
    index.Some? ==> Mentions(index.value) !! StoreNames(body, producer)
  }

  /** ReplaceStoreIndexWithVar: every store goes to the variable. */
  function ReplaceIndex(s: Stmt, x: string): Stmt {
    match s
    case StoreTo(f, v, _, p) => StoreTo(f, v, Var(x), p)
    case Block(a, b) => Block(ReplaceIndex(a, x), ReplaceIndex(b, x))
    case LetStmt(y, v, b) => LetStmt(y, v, ReplaceIndex(b, x))
    case IfThenElse(c, b) => IfThenElse(c, ReplaceIndex(b, x))
    case Atomic(f, m, b) => Atomic(f, m, ReplaceIndex(b, x))
    case _ => s
  }

  /** AddAtomicMutex: lock, update, unlock; the index is computed once, outside. */
  function AddMutex(producer: string, mutex: string, body: Stmt, t: string): Stmt {
    var index := FindIndex(body, producer, None);
    if index.None? then Atomic(producer, mutex, Locked(mutex, Lit(0), body))
    else LetStmt(t, index.value, Atomic(producer, mutex, Locked(mutex, Var(t), ReplaceIndex(body, t))))
  }

  function Locked(mutex: string, index: Expr, body: Stmt): Stmt {
    Block(LockAt(mutex, index), Block(body, UnlockAt(mutex, index)))
  }

  // ----- what a statement does -----

  function Lookup(env: Env, x: string): int { if x in env then env[x] else 0 }

  function Eval(e: Expr, env: Env, m: Memory, f: Meaning): int {
    match e
    case Lit(n) => n
    case Var(x) => Lookup(env, x)
    case LoadFrom(b, i) => Get(m, Cell(b, Eval(i, env, m, f)))
    case Op(id, a, b) => f(id, Eval(a, env, m, f), Eval(b, env, m, f))
    case Select(c, a, b) => if Eval(c, env, m, f) != 0 then Eval(a, env, m, f) else Eval(b, env, m, f)
    case Let(x, v, b) => Eval(b, env[x := Eval(v, env, m, f)], m, f)
  }

  function Exec(s: Stmt, env: Env, m: Memory, f: Meaning): Memory {
    match s
    case StoreTo(b, v, i, p) =>
      if Eval(p, env, m, f) == 0 then m else m[Cell(b, Eval(i, env, m, f)) := Eval(v, env, m, f)]
    case Block(a, b) => Exec(b, env, Exec(a, env, m, f), f)
    case LetStmt(x, v, b) => Exec(b, env[x := Eval(v, env, m, f)], m, f)
    case IfThenElse(c, b) => if Eval(c, env, m, f) == 0 then m else Exec(b, env, m, f)
    case Atomic(_, _, b) => Exec(b, env, m, f)
    case _ => m
  }

  // ----- one action after the other -----

  /** A value, and the answers not needed for it, or the load that lacks its answer. */
  datatype Outcome = Value(v: int, rest: seq<int>) | Asks(c: Cell)

  function ResumeExpr(e: Expr, env: Env, ans: seq<int>, f: Meaning): Outcome {
    match e
    case Lit(n) => Value(n, ans)
    case Var(x) => Value(Lookup(env, x), ans)
    case LoadFrom(b, i) =>
      (match ResumeExpr(i, env, ans, f)
       case Asks(c) => Asks(c)
       case Value(v, rest) => if rest == [] then Asks(Cell(b, v)) else Value(rest[0], rest[1..]))
    case Op(id, a, b) =>
      (match ResumeExpr(a, env, ans, f)
       case Asks(c) => Asks(c)
       case Value(v, rest) =>
         match ResumeExpr(b, env, rest, f)
         case Asks(c) => Asks(c)
         case Value(u, rest') => Value(f(id, v, u), rest'))
    case Select(c, a, b) =>
      (match ResumeExpr(c, env, ans, f)
       case Asks(l) => Asks(l)
       case Value(on, rest) =>
         match ResumeExpr(a, env, rest, f)
         case Asks(l) => Asks(l)
         case Value(u, rest') =>
           match ResumeExpr(b, env, rest', f)
           case Asks(l) => Asks(l)
           case Value(v, last) => Value(if on != 0 then u else v, last))
    case Let(x, v, b) =>
      match ResumeExpr(v, env, ans, f)
      case Asks(c) => Asks(c)
      case Value(u, rest) => ResumeExpr(b, env[x := u], rest, f)
  }

  datatype Going = Acts(a: Action) | Ends(rest: seq<int>)

  /** One action, or its answer if there is one. */
  function Act(a: Action, ans: seq<int>): Going { if ans == [] then Acts(a) else Ends(ans[1..]) }

  function ResumeStmt(s: Stmt, env: Env, ans: seq<int>, f: Meaning): Going {
    match s
    case Skip => Ends(ans)
    case StoreTo(b, v, i, p) =>
      (match ResumeExpr(p, env, ans, f)
       case Asks(c) => Acts(Load(c))
       case Value(on, rest) =>
         if on == 0 then Ends(rest)
         else
           match ResumeExpr(v, env, rest, f)
           case Asks(c) => Acts(Load(c))
           case Value(x, rest') =>
             match ResumeExpr(i, env, rest', f)
             case Asks(c) => Acts(Load(c))
             case Value(n, last) => Act(Store(Cell(b, n), x), last))
    case Block(a, b) =>
      (match ResumeStmt(a, env, ans, f)
       case Acts(c) => Acts(c)
       case Ends(rest) => ResumeStmt(b, env, rest, f))
    case LetStmt(x, v, b) =>
      (match ResumeExpr(v, env, ans, f)
       case Asks(c) => Acts(Load(c))
       case Value(u, rest) => ResumeStmt(b, env[x := u], rest, f))
    case IfThenElse(c, b) =>
      (match ResumeExpr(c, env, ans, f)
       case Asks(l) => Acts(Load(l))
       case Value(u, rest) => if u == 0 then Ends(rest) else ResumeStmt(b, env, rest, f))
    case Atomic(_, _, b) => ResumeStmt(b, env, ans, f)
    case LockAt(_, i) =>
      (match ResumeExpr(i, env, ans, f)
       case Asks(c) => Acts(Load(c))
       case Value(n, rest) => Act(Lock(n), rest))
    case UnlockAt(_, i) =>
      match ResumeExpr(i, env, ans, f)
      case Asks(c) => Acts(Load(c))
      case Value(n, rest) => Act(Unlock(n), rest)
  }

  /** The statement as an update that can be interrupted after every access. */
  function UpdateFor(s: Stmt, env: Env, f: Meaning): Update {
    (ans: seq<int>) =>
      match ResumeStmt(s, env, ans, f)
      case Acts(a) => a
      case Ends(_) => Done
  }

  // ----- the accesses of a run alone -----

  function ExprSteps(e: Expr, env: Env, m: Memory, f: Meaning): seq<Action> {
    match e
    case Lit(_) => []
    case Var(_) => []
    case LoadFrom(b, i) => ExprSteps(i, env, m, f) + [Load(Cell(b, Eval(i, env, m, f)))]
    case Op(_, a, b) => ExprSteps(a, env, m, f) + ExprSteps(b, env, m, f)
    case Select(c, a, b) => ExprSteps(c, env, m, f) + (ExprSteps(a, env, m, f) + ExprSteps(b, env, m, f))
    case Let(x, v, b) => ExprSteps(v, env, m, f) + ExprSteps(b, env[x := Eval(v, env, m, f)], m, f)
  }

  function Steps(s: Stmt, env: Env, m: Memory, f: Meaning): seq<Action> {
    match s
    case Skip => []
    case StoreTo(b, v, i, p) =>
      ExprSteps(p, env, m, f)
      + if Eval(p, env, m, f) == 0 then []
        else ExprSteps(v, env, m, f) + ExprSteps(i, env, m, f)
             + [Store(Cell(b, Eval(i, env, m, f)), Eval(v, env, m, f))]
    case Block(a, b) => Steps(a, env, m, f) + Steps(b, env, Exec(a, env, m, f), f)
    case LetStmt(x, v, b) => ExprSteps(v, env, m, f) + Steps(b, env[x := Eval(v, env, m, f)], m, f)
    case IfThenElse(c, b) =>
      ExprSteps(c, env, m, f) + if Eval(c, env, m, f) == 0 then [] else Steps(b, env, m, f)
    case Atomic(_, _, b) => Steps(b, env, m, f)
    case LockAt(_, i) => ExprSteps(i, env, m, f) + [Lock(Eval(i, env, m, f))]
    case UnlockAt(_, i) => ExprSteps(i, env, m, f) + [Unlock(Eval(i, env, m, f))]
  }

  /** The memory after some actions, and the answers they get. */
  function Applied(t: seq<Action>, m: Memory): Memory { if t == [] then m else Applied(t[1..], Effect(t[0], m)) }

  function Answers(t: seq<Action>, m: Memory): (r: seq<int>)
    ensures |r| == |t|
  {
    if t == [] then [] else [Answer(t[0], m)] + Answers(t[1..], Effect(t[0], m))
  }

  lemma {:induction false} AppliedAppend(a: seq<Action>, b: seq<Action>, m: Memory)
    ensures Applied(a + b, m) == Applied(b, Applied(a, m))
    ensures Answers(a + b, m) == Answers(a, m) + Answers(b, Applied(a, m))
  {
    if a == [] {
      assert a + b == b;
    } else {
      assert (a + b)[0] == a[0] && (a + b)[1..] == a[1..] + b;
      AppliedAppend(a[1..], b, Effect(a[0], m));
    }
  }

  predicate OnlyLoads(t: seq<Action>) { forall a :: a in t ==> a.Load? }

  lemma {:induction false} LoadsKeep(t: seq<Action>, m: Memory)
    requires OnlyLoads(t)
    ensures Applied(t, m) == m
  {
    if t != [] {
      assert t[0] in t;
      LoadsKeep(t[1..], m);
    }
  }

  lemma {:induction false} ExprOnlyLoads(e: Expr, env: Env, m: Memory, f: Meaning)
    ensures OnlyLoads(ExprSteps(e, env, m, f))
  {
    match e
    case Lit(_) =>
    case Var(_) =>
    case LoadFrom(_, i) => ExprOnlyLoads(i, env, m, f);
    case Op(_, a, b) => ExprOnlyLoads(a, env, m, f); ExprOnlyLoads(b, env, m, f);
    case Select(c, a, b) =>
      ExprOnlyLoads(c, env, m, f);
      ExprOnlyLoads(a, env, m, f);
      ExprOnlyLoads(b, env, m, f);
    case Let(x, v, b) => ExprOnlyLoads(v, env, m, f); ExprOnlyLoads(b, env[x := Eval(v, env, m, f)], m, f);
  }

  lemma OneAction(a: Action, m: Memory)
    ensures Applied([a], m) == Effect(a, m) && Answers([a], m) == [Answer(a, m)]
  {
    assert [a][1..] == [] && Applied([], Effect(a, m)) == Effect(a, m);
  }

  // ----- resuming runs through the accesses -----

  ghost function Size(e: Expr): (n: nat)
    ensures n > 0
  {
    match e
    case Lit(_) => 1
    case Var(_) => 1
    case LoadFrom(_, i) => 1 + Size(i)
    case Op(_, a, b) => 1 + Size(a) + Size(b)
    case Select(c, a, b) => 1 + Size(c) + Size(a) + Size(b)
    case Let(_, v, b) => 1 + Size(v) + Size(b)
  }

  lemma LoadsFirst(a: seq<Action>, b: seq<Action>, m: Memory)
    requires OnlyLoads(a)
    ensures Answers(a + b, m) == Answers(a, m) + Answers(b, m) && Applied(a + b, m) == Applied(b, m)
  {
    AppliedAppend(a, b, m);
    LoadsKeep(a, m);
  }

  lemma {:induction false} ExprResumed(e: Expr, env: Env, m: Memory, f: Meaning, more: seq<int>)
    ensures ResumeExpr(e, env, Answers(ExprSteps(e, env, m, f), m) + more, f) == Value(Eval(e, env, m, f), more)
    decreases Size(e)
  {
    match e
    case Lit(_) => assert Answers([], m) + more == more;
    case Var(_) => assert Answers([], m) + more == more;
    case LoadFrom(b, i) =>
      var s, a := ExprSteps(i, env, m, f), Load(Cell(b, Eval(i, env, m, f)));
      ExprOnlyLoads(i, env, m, f);
      LoadsFirst(s, [a], m);
      OneAction(a, m);
      ExprResumed(i, env, m, f, [Answer(a, m)] + more);
      assert Answers(s + [a], m) + more == Answers(s, m) + ([Answer(a, m)] + more);
    case Op(_, a, b) => TwoResumed(a, b, env, env, m, f, more);
    case Select(c, a, b) => SelectResumed(c, a, b, env, m, f, more);
    case Let(x, v, b) => TwoResumed(v, b, env, env[x := Eval(v, env, m, f)], m, f, more);
  }

  lemma {:induction false} TwoResumed(a: Expr, b: Expr, env: Env, env': Env, m: Memory, f: Meaning, more: seq<int>)
    ensures var ta, tb := ExprSteps(a, env, m, f), ExprSteps(b, env', m, f);
            var rest := Answers(tb, m) + more;
            ResumeExpr(a, env, Answers(ta + tb, m) + more, f) == Value(Eval(a, env, m, f), rest)
            && ResumeExpr(b, env', rest, f) == Value(Eval(b, env', m, f), more)
    decreases Size(a) + Size(b)
  {
    var ta, tb := ExprSteps(a, env, m, f), ExprSteps(b, env', m, f);
    ExprOnlyLoads(a, env, m, f);
    LoadsFirst(ta, tb, m);
    assert Answers(ta + tb, m) + more == Answers(ta, m) + (Answers(tb, m) + more);
    ExprResumed(a, env, m, f, Answers(tb, m) + more);
    ExprResumed(b, env', m, f, more);
  }

  lemma {:induction false} SelectResumed(c: Expr, a: Expr, b: Expr, env: Env, m: Memory, f: Meaning, more: seq<int>)
    ensures var e := Select(c, a, b);
            ResumeExpr(e, env, Answers(ExprSteps(e, env, m, f), m) + more, f) == Value(Eval(e, env, m, f), more)
    decreases Size(c) + Size(a) + Size(b)
  {
    hide Answers, ExprSteps, Eval;
    OpenSelect(c, a, b, env, m, f);
    var tc, rest := ExprSteps(c, env, m, f), ExprSteps(a, env, m, f) + ExprSteps(b, env, m, f);
    ExprOnlyLoads(c, env, m, f);
    LoadsFirst(tc, rest, m);
    assert Answers(tc + rest, m) + more == Answers(tc, m) + (Answers(rest, m) + more);
    ExprResumed(c, env, m, f, Answers(rest, m) + more);
    TwoResumed(a, b, env, env, m, f, more);
  }

  lemma OpenSelect(c: Expr, a: Expr, b: Expr, env: Env, m: Memory, f: Meaning)
    ensures ExprSteps(Select(c, a, b), env, m, f)
            == ExprSteps(c, env, m, f) + (ExprSteps(a, env, m, f) + ExprSteps(b, env, m, f))
    ensures Eval(Select(c, a, b), env, m, f)
            == if Eval(c, env, m, f) != 0 then Eval(a, env, m, f) else Eval(b, env, m, f)
  {}

  /** With the answers to its first accesses an expression asks for the next. */
  lemma {:induction false} ExprPartly(e: Expr, env: Env, m: Memory, f: Meaning, j: nat)
    requires j < |ExprSteps(e, env, m, f)|
    ensures var t := ExprSteps(e, env, m, f);
            t[j].Load? && ResumeExpr(e, env, Answers(t, m)[..j], f) == Asks(t[j].c)
    decreases Size(e)
  {
    match e
    case LoadFrom(b, i) =>
      var s, a := ExprSteps(i, env, m, f), Load(Cell(b, Eval(i, env, m, f)));
      ExprOnlyLoads(i, env, m, f);
      LoadsFirst(s, [a], m);
      if j < |s| {
        assert Answers(s + [a], m)[..j] == Answers(s, m)[..j];
        ExprPartly(i, env, m, f, j);
      } else {
        assert Answers(s + [a], m)[..j] == Answers(s, m) + [];
        ExprResumed(i, env, m, f, []);
      }
    case Op(_, a, b) => TwoPartly(a, b, env, env, m, f, j);
    case Select(c, a, b) => SelectPartly(c, a, b, env, m, f, j);
    case Let(x, v, b) => TwoPartly(v, b, env, env[x := Eval(v, env, m, f)], m, f, j);
  }

  lemma {:induction false} TwoPartly(a: Expr, b: Expr, env: Env, env': Env, m: Memory, f: Meaning, j: nat)
    requires j < |ExprSteps(a, env, m, f) + ExprSteps(b, env', m, f)|
    ensures var ta, tb := ExprSteps(a, env, m, f), ExprSteps(b, env', m, f);
            var ans := Answers(ta + tb, m)[..j];
            if j < |ta| then ta[j].Load? && ResumeExpr(a, env, ans, f) == Asks(ta[j].c)
            else var rest := Answers(tb, m)[..j - |ta|];
                 ResumeExpr(a, env, ans, f) == Value(Eval(a, env, m, f), rest)
                 && tb[j - |ta|].Load? && ResumeExpr(b, env', rest, f) == Asks(tb[j - |ta|].c)
    decreases Size(a) + Size(b)
  {
    var ta, tb := ExprSteps(a, env, m, f), ExprSteps(b, env', m, f);
    ExprOnlyLoads(a, env, m, f);
    LoadsFirst(ta, tb, m);
    if j < |ta| {
      assert Answers(ta + tb, m)[..j] == Answers(ta, m)[..j];
      ExprPartly(a, env, m, f, j);
    } else {
      assert Answers(ta + tb, m)[..j] == Answers(ta, m) + Answers(tb, m)[..j - |ta|];
      ExprResumed(a, env, m, f, Answers(tb, m)[..j - |ta|]);
      ExprPartly(b, env', m, f, j - |ta|);
    }
  }

  lemma {:induction false} SelectPartly(c: Expr, a: Expr, b: Expr, env: Env, m: Memory, f: Meaning, j: nat)
    requires j < |ExprSteps(Select(c, a, b), env, m, f)|
    ensures var t := ExprSteps(Select(c, a, b), env, m, f);
            t[j].Load? && ResumeExpr(Select(c, a, b), env, Answers(t, m)[..j], f) == Asks(t[j].c)
    decreases Size(c) + Size(a) + Size(b)
  {
    hide Answers, ExprSteps, Eval;
    OpenSelect(c, a, b, env, m, f);
    var tc, rest := ExprSteps(c, env, m, f), ExprSteps(a, env, m, f) + ExprSteps(b, env, m, f);
    ExprOnlyLoads(c, env, m, f);
    LoadsFirst(tc, rest, m);
    if j < |tc| {
      assert Answers(tc + rest, m)[..j] == Answers(tc, m)[..j];
      ExprPartly(c, env, m, f, j);
    } else {
      var n := j - |tc|;
      assert Answers(tc + rest, m)[..j] == Answers(tc, m) + Answers(rest, m)[..n];
      ExprResumed(c, env, m, f, Answers(rest, m)[..n]);
      TwoPartly(a, b, env, env, m, f, n);
    }
  }

  /** The answers to the first `j` accesses; after the last one come others. */
  function AnswersTo(t: seq<Action>, m: Memory, j: nat, more: seq<int>): seq<int>
    requires j <= |t|
  {
    if j < |t| then Answers(t, m)[..j] else Answers(t, m) + more
  }

  lemma InTwoParts(ta: seq<Action>, tb: seq<Action>, m: Memory, j: nat, more: seq<int>)
    requires j <= |ta + tb|
    ensures
      var m1 := Applied(ta, m);
      AnswersTo(ta + tb, m, j, more)
      == if j < |ta| then AnswersTo(ta, m, j, more)
         else AnswersTo(ta, m, |ta|, AnswersTo(tb, m1, j - |ta|, more))
  {
    hide Answers;
    var m1 := Applied(ta, m);
    AppliedAppend(ta, tb, m);
    if j < |ta| {
      assert Answers(ta + tb, m)[..j] == Answers(ta, m)[..j];
    } else if j < |ta + tb| {
      assert Answers(ta + tb, m)[..j] == Answers(ta, m) + Answers(tb, m1)[..j - |ta|];
    } else {
      assert Answers(ta + tb, m) + more == Answers(ta, m) + (Answers(tb, m1) + more);
    }
  }

  /** A statement that begins with the value of an expression and goes on from there. */
  lemma ExprThen(e: Expr, env: Env, m: Memory, f: Meaning, rest: seq<Action>, j: nat, more: seq<int>)
    requires j <= |ExprSteps(e, env, m, f) + rest|
    ensures var t := ExprSteps(e, env, m, f);
            var ans := AnswersTo(t + rest, m, j, more);
            if j < |t| then t[j].Load? && ResumeExpr(e, env, ans, f) == Asks(t[j].c)
            else ResumeExpr(e, env, ans, f) == Value(Eval(e, env, m, f), AnswersTo(rest, m, j - |t|, more))
    ensures Applied(ExprSteps(e, env, m, f) + rest, m) == Applied(rest, m)
  {
    hide ExprSteps, Answers, Applied, ResumeExpr, Eval;
    var t := ExprSteps(e, env, m, f);
    ExprOnlyLoads(e, env, m, f);
    LoadsKeep(t, m);
    LoadsFirst(t, rest, m);
    InTwoParts(t, rest, m, j, more);
    if j < |t| { ExprPartly(e, env, m, f, j); } else { ExprResumed(e, env, m, f, AnswersTo(rest, m, j - |t|, more)); }
  }

  lemma ActAlone(a: Action, m: Memory, j: nat, more: seq<int>)
    requires j <= 1
    ensures Act(a, AnswersTo([a], m, j, more)) == (if j == 0 then Acts(a) else Ends(more))
  {
    OneAction(a, m);
    if j == 1 { assert ([Answer(a, m)] + more)[1..] == more; }
  }

  /** With the answers to its first accesses a statement does the next one, and
      with all of them it is at its end, having done what it does. */
  ghost predicate Resumes(s: Stmt, env: Env, m: Memory, f: Meaning, j: nat, more: seq<int>)
    requires j <= |Steps(s, env, m, f)|
  {
    var t := Steps(s, env, m, f);
    && Applied(t, m) == Exec(s, env, m, f)
    && ResumeStmt(s, env, AnswersTo(t, m, j, more), f) == if j < |t| then Acts(t[j]) else Ends(more)
  }

  lemma {:induction false} StmtResumed(s: Stmt, env: Env, m: Memory, f: Meaning, j: nat, more: seq<int>)
    requires j <= |Steps(s, env, m, f)|
    ensures Resumes(s, env, m, f, j, more)
  {
    hide Answers, Applied, ResumeExpr, Eval, ExprSteps, AnswersTo;
    match s
    case Skip => NoActions(m, more);
    case StoreTo(b, v, i, p) => StoreResumed(b, v, i, p, env, m, f, j, more);
    case Block(a, b) =>
      var ta, m1 := Steps(a, env, m, f), Exec(a, env, m, f);
      var k := if j < |ta| then 0 else j - |ta|;
      StmtResumed(a, env, m, f, |ta|, AnswersTo(Steps(b, env, m1, f), m1, k, more));
      if j < |ta| { StmtResumed(a, env, m, f, j, more); }
      StmtResumed(b, env, m1, f, k, more);
      BlockResumed(a, b, env, m, f, j, more);
    case LetStmt(x, v, b) =>
      var n := |ExprSteps(v, env, m, f)|;
      StmtResumed(b, env[x := Eval(v, env, m, f)], m, f, if j < n then 0 else j - n, more);
      LetResumed(x, v, b, env, m, f, j, more);
    case IfThenElse(c, b) =>
      var n := |ExprSteps(c, env, m, f)|;
      if Eval(c, env, m, f) != 0 { StmtResumed(b, env, m, f, if j < n then 0 else j - n, more); }
      IfResumed(c, b, env, m, f, j, more);
    case Atomic(_, _, b) => StmtResumed(b, env, m, f, j, more);
    case LockAt(_, i) => ActResumed(i, Lock(Eval(i, env, m, f)), env, m, f, j, more);
    case UnlockAt(_, i) => ActResumed(i, Unlock(Eval(i, env, m, f)), env, m, f, j, more);
  }

  lemma BlockResumed(a: Stmt, b: Stmt, env: Env, m: Memory, f: Meaning, j: nat, more: seq<int>)
    requires j <= |Steps(Block(a, b), env, m, f)|
    requires
      var ta, m1 := Steps(a, env, m, f), Exec(a, env, m, f);
      var k := if j < |ta| then 0 else j - |ta|;
      && Resumes(a, env, m, f, |ta|, AnswersTo(Steps(b, env, m1, f), m1, k, more))
      && (j < |ta| ==> Resumes(a, env, m, f, j, more)) && Resumes(b, env, m1, f, k, more)
    ensures Resumes(Block(a, b), env, m, f, j, more)
  {
    hide Answers, Applied, AnswersTo, Steps, Exec, ResumeStmt;
    var ta, m1 := Steps(a, env, m, f), Exec(a, env, m, f);
    var tb := Steps(b, env, m1, f);
    BlockParts(a, b, env, m, f);
    AppliedAppend(ta, tb, m);
    InTwoParts(ta, tb, m, j, more);
    var ans := AnswersTo(ta + tb, m, j, more);
    BlockNext(a, b, env, ans, f);
    if j < |ta| {
      assert ResumeStmt(a, env, ans, f) == Acts(ta[j]);
    } else {
      var rest := AnswersTo(tb, m1, j - |ta|, more);
      assert ResumeStmt(a, env, ans, f) == Ends(rest);
      assert ResumeStmt(b, env, rest, f) == if j - |ta| < |tb| then Acts(tb[j - |ta|]) else Ends(more);
    }
  }

  lemma BlockParts(a: Stmt, b: Stmt, env: Env, m: Memory, f: Meaning)
    ensures Steps(Block(a, b), env, m, f) == Steps(a, env, m, f) + Steps(b, env, Exec(a, env, m, f), f)
    ensures Exec(Block(a, b), env, m, f) == Exec(b, env, Exec(a, env, m, f), f)
  {}

  lemma BlockNext(a: Stmt, b: Stmt, env: Env, ans: seq<int>, f: Meaning)
    ensures var r := ResumeStmt(a, env, ans, f);
            ResumeStmt(Block(a, b), env, ans, f) == if r.Acts? then r else ResumeStmt(b, env, r.rest, f)
  {}

  lemma LetResumed(x: string, v: Expr, b: Stmt, env: Env, m: Memory, f: Meaning, j: nat, more: seq<int>)
    requires j <= |Steps(LetStmt(x, v, b), env, m, f)|
    requires var n := |ExprSteps(v, env, m, f)|;
             Resumes(b, env[x := Eval(v, env, m, f)], m, f, if j < n then 0 else j - n, more)
    ensures Resumes(LetStmt(x, v, b), env, m, f, j, more)
  {
    hide Answers, Applied, ResumeExpr, Eval, ExprSteps, AnswersTo;
    ExprThen(v, env, m, f, Steps(b, env[x := Eval(v, env, m, f)], m, f), j, more);
  }

  lemma IfResumed(c: Expr, b: Stmt, env: Env, m: Memory, f: Meaning, j: nat, more: seq<int>)
    requires j <= |Steps(IfThenElse(c, b), env, m, f)|
    requires var n := |ExprSteps(c, env, m, f)|;
             Eval(c, env, m, f) != 0 ==> Resumes(b, env, m, f, if j < n then 0 else j - n, more)
    ensures Resumes(IfThenElse(c, b), env, m, f, j, more)
  {
    hide Answers, Applied, ResumeExpr, Eval, ExprSteps, AnswersTo;
    ExprThen(c, env, m, f, if Eval(c, env, m, f) == 0 then [] else Steps(b, env, m, f), j, more);
    NoActions(m, more);
  }

  lemma NoActions(m: Memory, more: seq<int>)
    ensures AnswersTo([], m, 0, more) == more && Applied([], m) == m
  {
    assert [] + more == more;
  }

  lemma ActResumed(i: Expr, a: Action, env: Env, m: Memory, f: Meaning, j: nat, more: seq<int>)
    requires j <= |ExprSteps(i, env, m, f)| + 1
    ensures
      var t := ExprSteps(i, env, m, f);
      var r := ResumeExpr(i, env, AnswersTo(t + [a], m, j, more), f);
      && Applied(t + [a], m) == Effect(a, m)
      && (j < |t| ==> t[j].Load? && r == Asks(t[j].c))
      && (j >= |t| ==>
          r.Value? && r.v == Eval(i, env, m, f) && Act(a, r.rest) == if j == |t| then Acts(a) else Ends(more))
  {
    var t := ExprSteps(i, env, m, f);
    ExprThen(i, env, m, f, [a], j, more);
    OneAction(a, m);
    if j >= |t| { ActAlone(a, m, j - |t|, more); }
  }

  lemma StoreResumed(b: string, v: Expr, i: Expr, p: Expr, env: Env, m: Memory, f: Meaning, j: nat, more: seq<int>)
    requires j <= |Steps(StoreTo(b, v, i, p), env, m, f)|
    ensures Resumes(StoreTo(b, v, i, p), env, m, f, j, more)
  {
    hide Answers, Applied, ResumeExpr, Eval, ExprSteps, AnswersTo;
    var a := Store(Cell(b, Eval(i, env, m, f)), Eval(v, env, m, f));
    var tp, tv, ti := ExprSteps(p, env, m, f), ExprSteps(v, env, m, f), ExprSteps(i, env, m, f);
    if Eval(p, env, m, f) == 0 {
      assert tp + [] == tp;
      ExprThen(p, env, m, f, [], j, more);
      NoActions(m, more);
    } else {
      var rest := tv + (ti + [a]);
      assert Steps(StoreTo(b, v, i, p), env, m, f) == tp + rest by { assert tv + ti + [a] == rest; }
      ExprThen(p, env, m, f, rest, j, more);
      var j1 := if j < |tp| then 0 else j - |tp|;
      ExprThen(v, env, m, f, ti + [a], j1, more);
      ActResumed(i, a, env, m, f, if j1 < |tv| then 0 else j1 - |tv|, more);
    }
  }
}
