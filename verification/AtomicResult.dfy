// Atomic updates of a Func, with the mutexes that were added, by any number of
// tasks: what every interleaving leaves in memory.

module AtomicResults {
  import opened Options
  import opened AtomicRuns
  import opened AtomicSerial
  import opened AtomicStmts

  // ----- a statement as an update -----

  function PhaseIn(t: seq<Action>): Phase {
    if t == [] then Before
    else
      match t[|t| - 1]
      case Lock(_) => Inside
      case Unlock(_) => After
      case _ => PhaseIn(t[..|t| - 1])
  }

  lemma StepAnswer(t: seq<Action>, m: Memory, g: nat)
    requires g < |t|
    ensures Answers(t, m)[g] == Answer(t[g], Applied(t[..g], m))
    ensures Applied(t[..g + 1], m) == Effect(t[g], Applied(t[..g], m))
  {
    assert t == t[..g] + ([t[g]] + t[g + 1..]) && t[..g + 1] == t[..g] + [t[g]];
    AppliedAppend(t[..g], [t[g]] + t[g + 1..], m);
    AppliedAppend(t[..g], [t[g]], m);
    OneAction(t[g], Applied(t[..g], m));
    assert ([t[g]] + t[g + 1..])[0] == t[g];
  }

  /** After `h`, the update has gone through the first accesses `t` of a run alone. */
  ghost predicate HasFollowed(u: Update, h: seq<int>, t: seq<Action>, m: Memory) {
    var j := if |h| < |t| then |h| else |t|;
    h[..j] == Answers(t, m)[..j] && MemAfter(u, h, m) == Applied(t[..j], m) && PhaseOf(u, h) == PhaseIn(t[..j])
  }

  function NextPhase(a: Action, p: Phase): Phase {
    match a
    case Lock(_) => Inside
    case Unlock(_) => After
    case _ => p
  }

  lemma PhaseStep(u: Update, h: seq<int>, m: Memory)
    requires h != []
    ensures PhaseOf(u, h) == NextPhase(u(Front(h)), PhaseOf(u, Front(h)))
    ensures MemAfter(u, h, m) == Effect(u(Front(h)), MemAfter(u, Front(h), m))
    ensures Follows(u, h, m) ==> h[|h| - 1] == Answer(u(Front(h)), MemAfter(u, Front(h), m))
  {}

  lemma PhaseInStep(t: seq<Action>, g: nat)
    requires g < |t|
    ensures PhaseIn(t[..g + 1]) == NextPhase(t[g], PhaseIn(t[..g]))
  {
    var next := t[..g + 1];
    assert next[..|next| - 1] == t[..g] && next[|next| - 1] == t[g];
  }

  lemma FollowedStep(u: Update, h: seq<int>, t: seq<Action>, m: Memory)
    requires h != [] && Follows(u, h, m) && HasFollowed(u, Front(h), t, m)
    requires u(Front(h)) == if |h| <= |t| then t[|h| - 1] else Done
    ensures HasFollowed(u, h, t, m)
  {
    hide Answers, Applied, Follows, MemAfter, PhaseOf, PhaseIn, Effect;
    var g := Front(h);
    PhaseStep(u, h, m);
    if |g| < |t| {
      StepAnswer(t, m, |g|);
      PhaseInStep(t, |g|);
      assert g[..|g|] == g;
      assert h == g + [h[|g|]] && Answers(t, m)[..|h|] == Answers(t, m)[..|g|] + [Answers(t, m)[|g|]];
    } else {
      assert t[..|t|] == t && h[..|t|] == g[..|t|];
      DoneChangesNothing(MemAfter(u, g, m));
    }
  }

  lemma DoneChangesNothing(m: Memory)
    ensures Effect(Done, m) == m
  {}

  /** An update that gets the answers of a run alone goes through the accesses of the statement, and then stops. */
  lemma {:induction false} FollowsSteps(s: Stmt, env: Env, f: Meaning, m: Memory, h: seq<int>)
    requires Follows(UpdateFor(s, env, f), h, m)
    ensures
      var u, t := UpdateFor(s, env, f), Steps(s, env, m, f);
      u(h) == (if |h| < |t| then t[|h|] else Done) && HasFollowed(u, h, t, m)
  {
    hide Steps, Answers, Applied, ResumeStmt;
    var u, t := UpdateFor(s, env, f), Steps(s, env, m, f);
    if h == [] {
      NoActions(m, []);
    } else {
      FollowsSteps(s, env, f, m, Front(h));
      FollowedStep(u, h, t, m);
    }
    NextOf(s, env, f, m, h);
  }

  lemma NextOf(s: Stmt, env: Env, f: Meaning, m: Memory, h: seq<int>)
    requires var t := Steps(s, env, m, f);
             var j := if |h| < |t| then |h| else |t|;
             h[..j] == Answers(t, m)[..j]
    ensures var t := Steps(s, env, m, f); UpdateFor(s, env, f)(h) == if |h| < |t| then t[|h|] else Done
  {
    hide Steps, Answers, ResumeStmt;
    var t := Steps(s, env, m, f);
    if |h| < |t| {
      StmtResumed(s, env, m, f, |h|, []);
      assert AnswersTo(t, m, |h|, []) == h;
    } else {
      StmtResumed(s, env, m, f, |t|, h[|t|..]);
      assert Answers(t, m)[..|t|] == Answers(t, m) && AnswersTo(t, m, |t|, h[|t|..]) == h;
    }
  }

  // ----- updates that keep to one index -----

  predicate Foreign(e: Expr, own: set<string>) { Mentions(e) !! own }

  predicate NoLets(e: Expr) {
    match e
    case Lit(_) => true
    case Var(_) => true
    case LoadFrom(_, i) => NoLets(i)
    case Op(_, a, b) => NoLets(a) && NoLets(b)
    case Select(c, a, b) => NoLets(c) && NoLets(a) && NoLets(b)
    case Let(_, _, _) => false
  }

  predicate Fresh(x: string, ixs: set<Expr>) { forall e :: e in ixs ==> x !in Mentions(e) }

  /** The shared buffers are read at some of the indices `ixs`, which no let inside changes. */
  predicate LoadsAt(e: Expr, ixs: set<Expr>, own: set<string>) {
    match e
    case Lit(_) => true
    case Var(_) => true
    case LoadFrom(b, i) => (b in own ==> i in ixs) && LoadsAt(i, ixs, own)
    case Op(_, a, b) => LoadsAt(a, ixs, own) && LoadsAt(b, ixs, own)
    case Select(c, a, b) => LoadsAt(c, ixs, own) && LoadsAt(a, ixs, own) && LoadsAt(b, ixs, own)
    case Let(x, v, b) => Fresh(x, ixs) && LoadsAt(v, ixs, own) && LoadsAt(b, ixs, own)
  }

  /** All stores go to shared buffers, at some of the indices. */
  predicate StoresTo(s: Stmt, ixs: set<Expr>, own: set<string>) {
    match s
    case Skip => true
    case StoreTo(b, v, i, p) => b in own && i in ixs && LoadsAt(v, ixs, own) && LoadsAt(p, ixs, own)
    case Block(a, b) => StoresTo(a, ixs, own) && StoresTo(b, ixs, own)
    case LetStmt(x, v, b) => Fresh(x, ixs) && LoadsAt(v, ixs, own) && StoresTo(b, ixs, own)
    case IfThenElse(c, b) => LoadsAt(c, ixs, own) && StoresTo(b, ixs, own)
    case _ => false
  }

  /** Indices read nothing shared and have no lets. */
  predicate PlainIndices(ixs: set<Expr>, own: set<string>) { forall e :: e in ixs ==> Foreign(e, own) && NoLets(e) }

  /** Lets that the indices need, which read nothing shared, and then the stores. */
  predicate Shaped(s: Stmt, ixs: set<Expr>, own: set<string>) {
    StoresTo(s, ixs, own)
    || (s.LetStmt? && s.x !in own && Foreign(s.value, own) && Shaped(s.body, ixs, own))
  }

  /** The environment inside all those lets. */
  function InnerEnv(s: Stmt, ixs: set<Expr>, own: set<string>, env: Env, m: Memory, f: Meaning): Env {
    if s.LetStmt? && !StoresTo(s, ixs, own)
    then InnerEnv(s.body, ixs, own, env[s.x := Eval(s.value, env, m, f)], m, f)
    else env
  }

  /** All indices have the value `i`. */
  ghost predicate AllAt(ixs: set<Expr>, env: Env, m: Memory, f: Meaning, i: int) {
    forall e :: e in ixs ==> Eval(e, env, m, f) == i
  }

  // ----- values that do not change -----

  lemma {:induction false} ForeignValue(e: Expr, env: Env, m: Memory, m': Memory, own: set<string>, f: Meaning)
    requires Foreign(e, own) && SameOutside(own, m, m')
    ensures Eval(e, env, m, f) == Eval(e, env, m', f)
  {
    match e
    case Lit(_) =>
    case Var(_) =>
    case LoadFrom(b, i) => ForeignValue(i, env, m, m', own, f);
    case Op(_, a, b) => ForeignValue(a, env, m, m', own, f); ForeignValue(b, env, m, m', own, f);
    case Select(c, a, b) =>
      ForeignValue(c, env, m, m', own, f);
      ForeignValue(a, env, m, m', own, f);
      ForeignValue(b, env, m, m', own, f);
    case Let(x, v, b) =>
      ForeignValue(v, env, m, m', own, f);
      ForeignValue(b, env[x := Eval(v, env, m, f)], m, m', own, f);
  }

  lemma {:induction false} ForeignSteps(e: Expr, env: Env, m: Memory, own: set<string>, f: Meaning)
    requires Foreign(e, own)
    ensures forall a :: a in ExprSteps(e, env, m, f) ==> a.Load? && a.c.buf !in own
  {
    match e
    case Lit(_) =>
    case Var(_) =>
    case LoadFrom(b, i) => ForeignSteps(i, env, m, own, f);
    case Op(_, a, b) => ForeignSteps(a, env, m, own, f); ForeignSteps(b, env, m, own, f);
    case Select(c, a, b) =>
      ForeignSteps(c, env, m, own, f);
      ForeignSteps(a, env, m, own, f);
      ForeignSteps(b, env, m, own, f);
    case Let(x, v, b) =>
      ForeignSteps(v, env, m, own, f);
      ForeignSteps(b, env[x := Eval(v, env, m, f)], m, own, f);
  }

  lemma {:induction false} UnusedValue(e: Expr, env: Env, x: string, u: int, m: Memory, f: Meaning)
    requires x !in Mentions(e)
    ensures Eval(e, env[x := u], m, f) == Eval(e, env, m, f)
  {
    match e
    case Lit(_) =>
    case Var(_) =>
    case LoadFrom(b, i) => UnusedValue(i, env, x, u, m, f);
    case Op(_, a, b) => UnusedValue(a, env, x, u, m, f); UnusedValue(b, env, x, u, m, f);
    case Select(c, a, b) =>
      UnusedValue(c, env, x, u, m, f);
      UnusedValue(a, env, x, u, m, f);
      UnusedValue(b, env, x, u, m, f);
    case Let(y, v, b) =>
      UnusedValue(v, env, x, u, m, f);
      var w := Eval(v, env, m, f);
      assert env[x := u][y := w] == env[y := w][x := u];
      UnusedValue(b, env[y := w], x, u, m, f);
  }

  // ----- the index that is found -----

  lemma {:induction false} NothingInExpr(e: Expr)
    ensures FindInExpr(e, None) == None
  {
    match e
    case Lit(_) =>
    case Var(_) =>
    case LoadFrom(_, i) => NothingInExpr(i);
    case Op(_, a, b) => NothingInExpr(a); NothingInExpr(b);
    case Select(c, a, b) => NothingInExpr(c); NothingInExpr(a); NothingInExpr(b);
    case Let(_, v, b) => NothingInExpr(v); NothingInExpr(b);
  }

  lemma {:induction false} FoundKept(e: Expr, ixs: set<Expr>, index: Expr, own: set<string>)
    requires LoadsAt(e, ixs, own) && index in ixs
    ensures FindInExpr(e, Some(index)) == Some(index)
  {
    match e
    case Lit(_) =>
    case Var(_) =>
    case LoadFrom(_, i) => FoundKept(i, ixs, index, own);
    case Op(_, a, b) => FoundKept(a, ixs, index, own); FoundKept(b, ixs, index, own);
    case Select(c, a, b) =>
      FoundKept(c, ixs, index, own);
      FoundKept(a, ixs, index, own);
      FoundKept(b, ixs, index, own);
    case Let(_, v, b) => FoundKept(v, ixs, index, own); FoundKept(b, ixs, index, own);
  }

  lemma {:induction false} NoLetsKept(e: Expr, index: Expr)
    requires NoLets(e)
    ensures FindInExpr(e, Some(index)) == Some(index)
  {
    match e
    case Lit(_) =>
    case Var(_) =>
    case LoadFrom(_, i) => NoLetsKept(i, index);
    case Op(_, a, b) => NoLetsKept(a, index); NoLetsKept(b, index);
    case Select(c, a, b) => NoLetsKept(c, index); NoLetsKept(a, index); NoLetsKept(b, index);
  }

  ghost predicate AllOf(own: set<string>, producer: string) { forall b :: b in own ==> IsOf(b, producer) }

  lemma {:induction false} FoundInStores(s: Stmt, ixs: set<Expr>, own: set<string>, producer: string,
      found: Option<Expr>)
    requires StoresTo(s, ixs, own) && PlainIndices(ixs, own) && AllOf(own, producer)
    requires found.Some? ==> found.value in ixs
    ensures var r := FindIndex(s, producer, found);
            if found.Some? then r == found
            else if StoreNames(s, producer) == {} then r == None else r.Some? && r.value in ixs
  {
    match s
    case Skip =>
    case StoreTo(b, v, i, p) =>
      NothingInExpr(v);
      NothingInExpr(i);
      NothingInExpr(p);
      if found.Some? {
        FoundKept(v, ixs, found.value, own);
        FoundKept(p, ixs, found.value, own);
        NoLetsKept(i, found.value);
      }
    case Block(a, b) =>
      FoundInStores(a, ixs, own, producer, found);
      FoundInStores(b, ixs, own, producer, FindIndex(a, producer, found));
    case LetStmt(x, v, b) =>
      NothingInExpr(v);
      if found.Some? { FoundKept(v, ixs, found.value, own); }
      FoundInStores(b, ixs, own, producer, found);
    case IfThenElse(c, b) =>
      NothingInExpr(c);
      if found.Some? { FoundKept(c, ixs, found.value, own); }
      FoundInStores(b, ixs, own, producer, found);
  }

  /** The index found, with the lets put around it, has outside the value that
      the index `e` of some store has inside, and reads nothing shared. */
  lemma {:induction false} IndexFound(s: Stmt, ixs: set<Expr>, own: set<string>, producer: string, env: Env, m: Memory,
      f: Meaning) returns (e: Expr)
    requires Shaped(s, ixs, own) && PlainIndices(ixs, own) && AllOf(own, producer) && StoreNames(s, producer) != {}
    ensures var r := FindIndex(s, producer, None);
            e in ixs && r.Some? && Foreign(r.value, own)
            && Eval(r.value, env, m, f) == Eval(e, InnerEnv(s, ixs, own, env, m, f), m, f)
  {
    if StoresTo(s, ixs, own) {
      FoundInStores(s, ixs, own, producer, None);
      e := FindIndex(s, producer, None).value;
    } else {
      var env1 := env[s.x := Eval(s.value, env, m, f)];
      NothingInExpr(s.value);
      e := IndexFound(s.body, ixs, own, producer, env1, m, f);
      var inner := FindIndex(s.body, producer, None).value;
      if s.x !in Mentions(inner) { UnusedValue(inner, env, s.x, Eval(s.value, env, m, f), m, f); }
    }
  }

  lemma {:induction false} StoresAreOwn(s: Stmt, ixs: set<Expr>, own: set<string>, producer: string)
    requires StoresTo(s, ixs, own)
    ensures StoreNames(s, producer) <= own
  {
    match s
    case Skip =>
    case StoreTo(_, _, _, _) =>
    case Block(a, b) => StoresAreOwn(a, ixs, own, producer); StoresAreOwn(b, ixs, own, producer);
    case LetStmt(_, _, b) => StoresAreOwn(b, ixs, own, producer);
    case IfThenElse(_, b) => StoresAreOwn(b, ixs, own, producer);
  }

  lemma {:induction false} AllStoresOwn(s: Stmt, ixs: set<Expr>, own: set<string>, producer: string)
    requires Shaped(s, ixs, own)
    ensures StoreNames(s, producer) <= own
  {
    if StoresTo(s, ixs, own) { StoresAreOwn(s, ixs, own, producer); }
    else { AllStoresOwn(s.body, ixs, own, producer); }
  }

  /** Updates of this shape pass the check. */
  lemma UpdateIsValid(s: Stmt, ixs: set<Expr>, own: set<string>, producer: string)
    requires Shaped(s, ixs, own) && PlainIndices(ixs, own) && AllOf(own, producer)
    ensures StoreNames(s, producer) <= own && IsValid(s, producer)
  {
    AllStoresOwn(s, ixs, own, producer);
    if StoreNames(s, producer) != {} {
      var e := IndexFound(s, ixs, own, producer, map[], map[], (id: nat, a: int, b: int) => 0);
    }
  }
}
