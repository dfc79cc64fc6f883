// Removing the lets undoes common subexpression elimination.

module CseRoundTrip {
  import opened CseTerms
  import opened CseNumbering
  import opened CseCounts
  import opened Cse

  /** Every name used below `t` stands for its expression in the scope, and no
      variable of `t` is one of the names. */
  ghost predicate Undoes(scope: Scope, t: Term, m: Naming) {
    && (forall s :: s in m && Below(s, t) ==> m[s] in scope && scope[m[s]] == s)
    && Free(t) !! scope.Keys
  }

  ghost predicate UndoesAll(scope: Scope, ts: seq<Term>, m: Naming) {
    && (forall s :: s in m && BelowAny(s, ts) ==> m[s] in scope && scope[m[s]] == s)
    && FreeAll(ts) !! scope.Keys
  }

  lemma {:induction false} ReplaceUndone(t: Term, m: Naming, scope: Scope)
    requires LetFree(t) && Undoes(scope, t, m)
    ensures Strip(Replace(t, m), scope) == t
    decreases t, 1
  {
    if t in m { assert Below(t, t); } else if t.Node? { ReplaceAllUndone(t.kids, m, scope); }
  }

  lemma {:induction false} ReplaceAllUndone(ts: seq<Term>, m: Naming, scope: Scope)
    requires AllLetFree(ts) && UndoesAll(scope, ts, m)
    ensures StripAll(ReplaceAll(ts, m), scope) == ts
    decreases ts, 0
  {
    if ts != [] {
      ReplaceUndone(ts[0], m, scope);
      ReplaceAllUndone(ts[1..], m, scope);
    }
  }

  /** What the pass chooses for a term. */
  ghost predicate Chosen(root: Term, values: seq<Term>, names: seq<string>, m: Naming) {
    && LetFree(root) && |values| == |names| && m == NamingOf(values, names)
    && Distinct(values) && Outward(values) && AllDifferent(names)
    && (forall v :: v in values ==> Below(v, root) && LetFree(v) && Free(v) <= Free(root))
    && (forall x :: x in names ==> x !in Free(root))
  }

  lemma {:induction false} BelowParts(s: Term, t: Term)
    requires LetFree(t) && Below(s, t)
    ensures LetFree(s) && Free(s) <= Free(t)
    decreases t, 1
  {
    if s != t { BelowAnyParts(s, t.kids); }
  }

  lemma {:induction false} BelowAnyParts(s: Term, ts: seq<Term>)
    requires AllLetFree(ts) && BelowAny(s, ts)
    ensures LetFree(s) && Free(s) <= FreeAll(ts)
    decreases ts, 0
  {
    if Below(s, ts[0]) { BelowParts(s, ts[0]); } else { BelowAnyParts(s, ts[1..]); }
  }

  lemma TheChoice(root: Term, all: bool, k: nat)
    requires LetFree(root)
    ensures Chosen(root, Shared(root, all), Names(root, all, k), SharedNaming(root, all, k))
  {
    var values, names := Shared(root, all), Names(root, all, k);
    SharedMeaning(root, all);
    TakeNamesMeaning(|values|, Taken(root), k);
    forall v | v in values ensures Below(v, root) && LetFree(v) && Free(v) <= Free(root) {
      NumberedExactly(root, v);
      BelowParts(v, root);
    }
    forall x | x in names ensures x !in Free(root) {
      var i: nat :| i >= k && x == TempName(i);
      TempNameMeaning(i, i);
    }
  }

  /** The scope inside the first `i` lets. */
  ghost function ScopeAt(values: seq<Term>, names: seq<string>, i: nat): Scope
    requires i <= |values| == |names|
  {
    if i == 0 then map[] else ScopeAt(values, names, i - 1)[names[i - 1] := values[i - 1]]
  }

  lemma {:induction false} ScopeAtMeaning(values: seq<Term>, names: seq<string>, i: nat)
    requires i <= |values| == |names| && AllDifferent(names)
    ensures forall x :: x in ScopeAt(values, names, i) <==> x in names[..i]
    ensures forall j :: 0 <= j < i ==>
        names[j] in ScopeAt(values, names, i)
        && ScopeAt(values, names, i)[names[j]] == values[j]
  {
    if i > 0 {
      ScopeAtMeaning(values, names, i - 1);
      assert names[..i] == names[..i - 1] + [names[i - 1]];
    }
  }

  /** What is properly below a shared expression and shared comes before it. */
  lemma EarlierLets(root: Term, values: seq<Term>, names: seq<string>, m: Naming, i: nat, s: Term)
    requires Chosen(root, values, names, m) && i < |values| && s in m
    requires values[i].Node? && BelowAny(s, values[i].kids)
    ensures exists j :: 0 <= j < i && values[j] == s && m[s] == names[j]
  {
    NamingKeys(values, names);
    var j :| 0 <= j < |values| && values[j] == s;
    NamingAt(values, names, j);
    assert Below(s, values[i]);
    SizeBelowAny(s, values[i].kids);
    assert j < i;
  }

  /** Below the value of a let, the outer lets are undone by the scope. */
  lemma ValueScope(root: Term, values: seq<Term>, names: seq<string>, m: Naming, i: nat)
    requires Chosen(root, values, names, m) && i < |values| && values[i].Node?
    ensures AllLetFree(values[i].kids) && UndoesAll(ScopeAt(values, names, i), values[i].kids, m)
  {
    var v, scope := values[i], ScopeAt(values, names, i);
    ScopeAtMeaning(values, names, i);
    assert v in values && forall x :: x in scope ==> x in names;
    forall s | s in m && BelowAny(s, v.kids) ensures m[s] in scope && scope[m[s]] == s {
      EarlierLets(root, values, names, m, i, s);
    }
  }

  /** The value of each let, with the outer lets removed, is the shared expression. */
  lemma ValueUndone(root: Term, values: seq<Term>, names: seq<string>, m: Naming, i: nat)
    requires Chosen(root, values, names, m) && i < |values|
    ensures Strip(Inside(values[i], m), ScopeAt(values, names, i)) == values[i]
  {
    var v, scope := values[i], ScopeAt(values, names, i);
    assert v in values;
    if v.Node? {
      ValueScope(root, values, names, m, i);
      ReplaceAllUndone(v.kids, m, scope);
    } else if v.Var? {
      ScopeAtMeaning(values, names, i);
      assert v.x in Free(v) && forall x :: x in scope ==> x in names;
    }
  }

  /** Where the body stands, all lets are undone by the scope. */
  lemma BodyScope(root: Term, values: seq<Term>, names: seq<string>, m: Naming)
    requires Chosen(root, values, names, m)
    ensures Undoes(ScopeAt(values, names, |values|), root, m)
  {
    ScopeAtMeaning(values, names, |values|);
    NamingKeys(values, names);
    var scope := ScopeAt(values, names, |values|);
    assert forall x :: x in scope ==> x in names;
    forall s | s in m && Below(s, root) ensures m[s] in scope && scope[m[s]] == s {
      var j :| 0 <= j < |values| && values[j] == s;
      NamingAt(values, names, j);
    }
  }

  lemma {:induction false} WrapUndone(root: Term, values: seq<Term>, names: seq<string>, m: Naming, i: nat)
    requires Chosen(root, values, names, m) && i <= |values|
    requires forall v :: v in values ==> v in m
    ensures Strip(Wrap(values[i..], m, Replace(root, m)), ScopeAt(values, names, i)) == root
    decreases |values| - i
  {
    hide Strip, Distinct, Outward, AllDifferent, Below, Free, Inside, Replace, LetFree, NamingOf;
    if i == |values| {
      BodyUndone(root, values, names, m);
      NothingWrapped(values, m, Replace(root, m));
    } else {
      WrapStep(values, i, m, Replace(root, m));
      ValueUndone(root, values, names, m, i);
      NamingAt(values, names, i);
      WrapUndone(root, values, names, m, i + 1);
      StripLet(m[values[i]], Inside(values[i], m), Wrap(values[i + 1..], m, Replace(root, m)),
          ScopeAt(values, names, i));
    }
  }

  lemma StripLet(x: string, v: Term, b: Term, scope: Scope)
    ensures Strip(Let(x, v, b), scope) == Strip(b, scope[x := Strip(v, scope)])
  {}

  lemma BodyUndone(root: Term, values: seq<Term>, names: seq<string>, m: Naming)
    requires Chosen(root, values, names, m)
    ensures Strip(Replace(root, m), ScopeAt(values, names, |values|)) == root
  {
    BodyScope(root, values, names, m);
    ReplaceUndone(root, m, ScopeAt(values, names, |values|));
  }

  lemma BuildUndone(root: Term, all: bool, k: nat)
    requires LetFree(root)
    ensures Strip(Build(root, all, k), map[]) == root
  {
    TheChoice(root, all, k);
    var values, names, m := Shared(root, all), Names(root, all, k), SharedNaming(root, all, k);
    NamingKeys(values, names);
    WrapUndone(root, values, names, m, 0);
    assert values[0..] == values;
  }

  /** Removing all lets from the result gives the very term that removing all
      lets from the input gives. */
  lemma EliminateUndone(t: Term, all: bool, k: nat)
    ensures Strip(Eliminate(t, all, k), map[]) == Strip(t, map[])
  {
    if !(IsConst(t) || t.Var?) {
      StripLetFree(t, map[]);
      BuildUndone(Strip(t, map[]), all, k);
    }
  }

  /** The value is kept, in every environment and for every meaning of the operations. */
  lemma EliminateKeepsValue(t: Term, all: bool, k: nat, env: Env, f: Meaning)
    ensures Eval(Eliminate(t, all, k), env, f) == Eval(t, env, f)
  {
    EliminateUndone(t, all, k);
    StripMeaning(t, map[], env, env, f);
    StripMeaning(Eliminate(t, all, k), map[], env, env, f);
  }

  /** Running the pass on its own result, from any counter, gives what running
      it on the original from that counter gives: it is idempotent up to the
      names of temporaries. */
  lemma EliminateTwice(t: Term, all: bool, k: nat, k': nat)
    ensures Eliminate(Eliminate(t, all, k), all, k') == Eliminate(t, all, k')
  {
    EliminateUndone(t, all, k);
    var root, r := Strip(t, map[]), Eliminate(t, all, k);
    if (IsConst(r) || r.Var?) && !(IsConst(t) || t.Var?) {
      if IsConst(r) { StripConst(r, map[]); }
      BuildLeaf(r, all, k');
    }
  }

  lemma {:induction false} StripConst(t: Term, scope: Scope)
    requires IsConst(t)
    ensures Strip(t, scope) == t
    decreases t, 1
  {
    if t.Node? { StripConsts(t.kids, scope); }
  }

  lemma {:induction false} StripConsts(ts: seq<Term>, scope: Scope)
    requires AllConst(ts)
    ensures StripAll(ts, scope) == ts
    decreases ts, 0
  {
    if ts != [] { StripConst(ts[0], scope); StripConsts(ts[1..], scope); }
  }

  lemma {:induction false} ConstBelow(s: Term, t: Term)
    requires IsConst(t) && Below(s, t)
    ensures IsConst(s)
    decreases t, 1
  {
    if s != t { ConstBelowAny(s, t.kids); }
  }

  lemma {:induction false} ConstBelowAny(s: Term, ts: seq<Term>)
    requires AllConst(ts) && BelowAny(s, ts)
    ensures IsConst(s)
    decreases ts, 0
  {
    if Below(s, ts[0]) { ConstBelow(s, ts[0]); } else { ConstBelowAny(s, ts[1..]); }
  }

  lemma {:induction false} ReplaceNothing(t: Term)
    ensures Replace(t, map[]) == t
    decreases t, 1
  {
    if t.Node? { ReplaceNothingIn(t.kids); }
  }

  lemma {:induction false} ReplaceNothingIn(ts: seq<Term>)
    ensures ReplaceAll(ts, map[]) == ts
    decreases ts, 0
  {
    if ts != [] { ReplaceNothing(ts[0]); ReplaceNothingIn(ts[1..]); }
  }

  /** A constant or a variable has nothing to share. */
  lemma BuildLeaf(root: Term, all: bool, k: nat)
    requires IsConst(root) || root.Var?
    ensures Build(root, all, k) == root
  {
    var ts, vs := Visit(root, []), Shared(root, all);
    SharedMeaning(root, all);
    assert vs != [] ==> vs[0] in vs;
    forall v ensures v !in vs {
      NumberedExactly(root, v);
      UsedIsExtracted(ts, root, all, v);
      if Below(v, root) && IsConst(root) { ConstBelow(v, root); }
    }
    ReplaceNothing(root);
  }

  // ----- scoping -----

  /** A chain of lets each of which mentions only what is known outside it and
      defines a name that is not known yet. */
  ghost predicate WellScoped(t: Term, known: set<string>)
    decreases t
  {
    if t.Let? then
      LetFree(t.value) && Free(t.value) <= known && t.x !in known && WellScoped(t.body, known + {t.x})
    else LetFree(t) && Free(t) <= known
  }

  lemma {:induction false} ReplaceFree(t: Term, m: Naming, known: set<string>)
    requires LetFree(t) && Free(t) <= known && forall s :: s in m && Below(s, t) ==> m[s] in known
    ensures LetFree(Replace(t, m)) && Free(Replace(t, m)) <= known
    decreases t, 1
  {
    if t in m { assert Below(t, t); }
    else if t.Node? {
      ReplaceAllFree(t.kids, m, known);
      assert Replace(t, m) == Node(t.op, ReplaceAll(t.kids, m));
    } else {
      assert Replace(t, m) == t;
    }
  }

  lemma {:induction false} ReplaceAllFree(ts: seq<Term>, m: Naming, known: set<string>)
    requires AllLetFree(ts) && FreeAll(ts) <= known && forall s :: s in m && BelowAny(s, ts) ==> m[s] in known
    ensures AllLetFree(ReplaceAll(ts, m)) && FreeAll(ReplaceAll(ts, m)) <= known
    decreases ts, 0
  {
    if ts != [] {
      ReplaceFree(ts[0], m, known);
      ReplaceAllFree(ts[1..], m, known);
    }
  }

  ghost function Prefix(names: seq<string>, i: nat): set<string>
    requires i <= |names|
  {
    set x | x in names[..i]
  }

  lemma ValueFree(root: Term, values: seq<Term>, names: seq<string>, m: Naming, i: nat)
    requires Chosen(root, values, names, m) && i < |values|
    ensures LetFree(Inside(values[i], m)) && Free(Inside(values[i], m)) <= Free(root) + Prefix(names, i)
  {
    var v, known := values[i], Free(root) + Prefix(names, i);
    assert v in values;
    if v.Node? {
      forall s | s in m && BelowAny(s, v.kids) ensures m[s] in known {
        EarlierLets(root, values, names, m, i, s);
        var j :| 0 <= j < i && values[j] == s && m[s] == names[j];
        assert names[..i][j] == names[j];
      }
      ReplaceAllFree(v.kids, m, known);
    }
  }

  lemma {:induction false} WrapScoped(root: Term, values: seq<Term>, names: seq<string>, m: Naming, i: nat)
    requires Chosen(root, values, names, m) && i <= |values| && forall v :: v in values ==> v in m
    ensures WellScoped(Wrap(values[i..], m, Replace(root, m)), Free(root) + Prefix(names, i))
    decreases |values| - i
  {
    hide Distinct, Outward, Below, Free, Inside, Replace, LetFree, NamingOf;
    if i == |values| {
      NothingWrapped(values, m, Replace(root, m));
      BodyFree(root, values, names, m);
      NotALet(root, m);
    } else {
      WrapStep(values, i, m, Replace(root, m));
      ValueFree(root, values, names, m, i);
      NamingAt(values, names, i);
      WrapScoped(root, values, names, m, i + 1);
      assert names[..i + 1] == names[..i] + [names[i]];
      assert Free(root) + Prefix(names, i + 1) == Free(root) + Prefix(names, i) + {names[i]};
    }
  }

  lemma NotALet(t: Term, m: Naming)
    requires LetFree(t)
    ensures !Replace(t, m).Let?
  {}

  lemma BodyFree(root: Term, values: seq<Term>, names: seq<string>, m: Naming)
    requires Chosen(root, values, names, m)
    ensures LetFree(Replace(root, m)) && Free(Replace(root, m)) <= Free(root) + Prefix(names, |values|)
  {
    var known := Free(root) + Prefix(names, |values|);
    NamingKeys(values, names);
    forall s | s in m && Below(s, root) ensures m[s] in known {
      var j :| 0 <= j < |values| && values[j] == s;
      NamingAt(values, names, j);
      assert names[..|values|][j] == names[j];
    }
    ReplaceFree(root, m, known);
  }

  /** Each let the pass introduces mentions only variables of the expression and
      earlier lets, and its name is none of these. */
  lemma EliminateScoped(t: Term, all: bool, k: nat)
    requires !IsConst(t) && !t.Var?
    ensures WellScoped(Eliminate(t, all, k), Free(Strip(t, map[])))
  {
    var root := Strip(t, map[]);
    StripLetFree(t, map[]);
    TheChoice(root, all, k);
    var values, names, m := Shared(root, all), Names(root, all, k), SharedNaming(root, all, k);
    NamingKeys(values, names);
    WrapScoped(root, values, names, m, 0);
    assert values[0..] == values;
    assert Free(root) + Prefix(names, 0) == Free(root);
  }
}
