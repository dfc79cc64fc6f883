// Expressions as common subexpression elimination sees them: trees with
// lets, whose operations it does not look into (src/CSE.cpp).

module CseTerms {
  /** Operations. `Other` is any operation the pass has no special rule for. */
  datatype Op =
    | Cast(ty: string) | Broadcast(width: nat) | Add | Sub | Mul | Div | Ramp(lanes: nat) | Other(name: string)

  datatype Term =
    | Const(c: int)
    | Var(x: string)
    | Node(op: Op, kids: seq<Term>)
    | Let(x: string, value: Term, body: Term)

  /** What the operations mean. The results hold for every meaning. */
  type Meaning = (Op, seq<int>) -> int
  type Env = string -> int

  function Eval(t: Term, env: Env, f: Meaning): int
    decreases t, 1
  {
    match t
    case Const(c) => c
    case Var(x) => env(x)
    case Node(op, kids) => f(op, EvalAll(kids, env, f))
    case Let(x, v, b) => Eval(b, Extend(env, x, Eval(v, env, f)), f)
  }

  function EvalAll(ts: seq<Term>, env: Env, f: Meaning): seq<int>
    decreases ts, 0
  {
    if ts == [] then [] else [Eval(ts[0], env, f)] + EvalAll(ts[1..], env, f)
  }

  function Extend(env: Env, x: string, v: int): Env { (y: string) => if y == x then v else env(y) }

  predicate LetFree(t: Term)
    decreases t, 1
  {
    match t
    case Node(_, kids) => AllLetFree(kids)
    case Let(_, _, _) => false
    case _ => true
  }

  predicate AllLetFree(ts: seq<Term>)
    decreases ts, 0
  {
    ts != [] ==> LetFree(ts[0]) && AllLetFree(ts[1..])
  }

  /** The children of a term without lets. */
  function Kids(t: Term): seq<Term> { if t.Node? then t.kids else [] }

  /** Free variables of a term; for a term without lets, all its variables. */
  function Free(t: Term): set<string>
    decreases t, 1
  {
    match t
    case Const(_) => {}
    case Var(x) => {x}
    case Node(_, kids) => FreeAll(kids)
    case Let(x, v, b) => Free(v) + (Free(b) - {x})
  }

  function FreeAll(ts: seq<Term>): set<string>
    decreases ts, 0
  {
    if ts == [] then {} else Free(ts[0]) + FreeAll(ts[1..])
  }

  // ----- what removing all lets gives -----

  type Scope = map<string, Term>

  function Strip(t: Term, scope: Scope): (r: Term)
    decreases t, 1
  {
    match t
    case Const(_) => t
    case Var(x) => if x in scope then scope[x] else t
    case Node(op, kids) => Node(op, StripAll(kids, scope))
    case Let(x, v, b) => Strip(b, scope[x := Strip(v, scope)])
  }

  function StripAll(ts: seq<Term>, scope: Scope): seq<Term>
    decreases ts, 0
  {
    if ts == [] then [] else [Strip(ts[0], scope)] + StripAll(ts[1..], scope)
  }

  lemma {:induction false} StripLetFree(t: Term, scope: Scope)
    requires forall x :: x in scope ==> LetFree(scope[x])
    ensures LetFree(Strip(t, scope))
    decreases t, 1
  {
    match t
    case Node(_, kids) => StripAllLetFree(kids, scope);
    case Let(x, v, b) =>
      StripLetFree(v, scope);
      StripLetFree(b, scope[x := Strip(v, scope)]);
    case _ =>
  }

  lemma {:induction false} StripAllLetFree(ts: seq<Term>, scope: Scope)
    requires forall x :: x in scope ==> LetFree(scope[x])
    ensures AllLetFree(StripAll(ts, scope))
    decreases ts, 0
  {
    if ts != [] { StripLetFree(ts[0], scope); StripAllLetFree(ts[1..], scope); }
  }

  /** The environment that gives every let variable of the scope its value. */
  ghost predicate Fits(scope: Scope, env: Env, inner: Env, f: Meaning) {
    forall x :: inner(x) == if x in scope then Eval(scope[x], env, f) else env(x)
  }

  /** Removing the lets keeps the value, for any meaning of the operations. */
  lemma {:induction false} StripMeaning(t: Term, scope: Scope, env: Env, inner: Env, f: Meaning)
    requires Fits(scope, env, inner, f)
    ensures Eval(Strip(t, scope), env, f) == Eval(t, inner, f)
    decreases t, 1
  {
    match t
    case Node(_, kids) => StripAllMeaning(kids, scope, env, inner, f);
    case Let(x, v, b) =>
      StripMeaning(v, scope, env, inner, f);
      StripMeaning(b, scope[x := Strip(v, scope)], env, Extend(inner, x, Eval(v, inner, f)), f);
    case _ =>
  }

  lemma {:induction false} StripAllMeaning(ts: seq<Term>, scope: Scope, env: Env, inner: Env, f: Meaning)
    requires Fits(scope, env, inner, f)
    ensures EvalAll(StripAll(ts, scope), env, f) == EvalAll(ts, inner, f)
    decreases ts, 0
  {
    if ts != [] {
      StripMeaning(ts[0], scope, env, inner, f);
      StripAllMeaning(ts[1..], scope, env, inner, f);
    }
  }

  // ----- what is worth a let -----

  predicate IsConst(t: Term)
    decreases t, 1
  {
    match t
    case Const(_) => true
    case Node(op, kids) => (op.Cast? || op.Broadcast? || op.Ramp?) && AllConst(kids)
    case _ => false
  }

  predicate AllConst(ts: seq<Term>)
    decreases ts, 0
  {
    ts != [] ==> IsConst(ts[0]) && AllConst(ts[1..])
  }

  predicate ShouldExtract(t: Term, liftAll: bool) {
    if IsConst(t) || t.Var? then false
    else if liftAll then true
    else if t.Node? && (t.op.Broadcast? || t.op.Cast?) && |t.kids| == 1 then ShouldExtract(t.kids[0], false)
    else if t.Node? && (t.op.Add? || t.op.Sub? || t.op.Mul? || t.op.Div?) && |t.kids| == 2 then
      !(IsConst(t.kids[0]) || IsConst(t.kids[1]))
    else if t.Node? && t.op.Ramp? && |t.kids| == 2 then !IsConst(t.kids[1])
    else true
  }
}
