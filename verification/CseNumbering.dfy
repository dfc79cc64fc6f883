// Global value numbering (GVN of src/CSE.cpp): structurally equal
// expressions get the same number, each one after all its children.

module CseNumbering {
  import opened CseTerms
  import opened CseGraph

  // ----- the numbering as a function -----

  /** The expressions seen, in the order of their numbers. */
  function Visit(t: Term, seen: seq<Term>): (r: seq<Term>)
    decreases t, 1
  {
    if t in seen then seen
    else
      var r := if t.Node? then VisitAll(t.kids, seen) else seen;
      if t in r then r else r + [t]
  }

  function VisitAll(ts: seq<Term>, seen: seq<Term>): seq<Term>
    decreases ts, 0
  {
    if ts == [] then seen else VisitAll(ts[1..], Visit(ts[0], seen))
  }

  ghost predicate Distinct(ts: seq<Term>) {
    forall i, j :: 0 <= i < j < |ts| ==> ts[i] != ts[j]
  }

  /** Each expression comes after its children. */
  ghost predicate Ordered(ts: seq<Term>) {
    forall i, k :: 0 <= i < |ts| && k in Kids(ts[i]) ==> k in ts[..i]
  }

  lemma OrderedClosed(ts: seq<Term>, t: Term)
    requires Ordered(ts) && t in ts
    ensures forall k :: k in Kids(t) ==> k in ts
  {
    var i :| 0 <= i < |ts| && ts[i] == t;
    assert forall k :: k in Kids(ts[i]) ==> k in ts[..i];
  }

  lemma {:induction false} VisitAllKnown(ts: seq<Term>, seen: seq<Term>)
    requires forall t :: t in ts ==> t in seen
    ensures VisitAll(ts, seen) == seen
  {
    if ts != [] { VisitAllKnown(ts[1..], seen); }
  }

  ghost predicate Extends(seen: seq<Term>, r: seq<Term>) { seen <= r }

  /** Adding an expression whose children are there keeps the order. */
  lemma AppendOrdered(ts: seq<Term>, t: Term)
    requires Distinct(ts) && Ordered(ts) && t !in ts && forall k :: k in Kids(t) ==> k in ts
    ensures Distinct(ts + [t]) && Ordered(ts + [t])
  {
    var r := ts + [t];
    forall i, k | 0 <= i < |r| && k in Kids(r[i]) ensures k in r[..i] {
      if i < |ts| { assert r[..i] == ts[..i]; assert k in Kids(ts[i]); } else { assert r[..i] == ts; }
    }
  }

  /** A visit puts the expression and everything below it in the list, nothing
      else, each once and after its children. */
  lemma {:induction false} VisitMeaning(t: Term, seen: seq<Term>)
    requires Distinct(seen) && Ordered(seen)
    ensures var r := Visit(t, seen); seen <= r && Distinct(r) && Ordered(r) && t in r
    ensures forall s :: s in Visit(t, seen) ==> s in seen || Below(s, t)
    decreases t, 1
  {
    if t !in seen {
      var r := if t.Node? then VisitAll(t.kids, seen) else seen;
      if t.Node? { VisitAllMeaning(t.kids, seen); }
      if t !in r { AppendOrdered(r, t); }
      forall s | s in Visit(t, seen) && s !in seen ensures Below(s, t) {
        if s != t && t.Node? { assert BelowAny(s, t.kids); }
      }
    }
  }

  lemma {:induction false} VisitAllMeaning(ts: seq<Term>, seen: seq<Term>)
    requires Distinct(seen) && Ordered(seen)
    ensures var r := VisitAll(ts, seen); seen <= r && Distinct(r) && Ordered(r) && forall t :: t in ts ==> t in r
    ensures forall s :: s in VisitAll(ts, seen) ==> s in seen || BelowAny(s, ts)
    decreases ts, 0
  {
    if ts != [] {
      var r := Visit(ts[0], seen);
      VisitMeaning(ts[0], seen);
      VisitAllMeaning(ts[1..], r);
      forall t | t in ts ensures t in VisitAll(ts, seen) {
        if t != ts[0] { assert t in ts[1..]; }
      }
    }
  }

  /** `s` is `t` or stands below it. */
  predicate Below(s: Term, t: Term)
    decreases t, 1
  {
    s == t || (t.Node? && BelowAny(s, t.kids))
  }

  predicate BelowAny(s: Term, ts: seq<Term>)
    decreases ts, 0
  {
    ts != [] && (Below(s, ts[0]) || BelowAny(s, ts[1..]))
  }

  /** An ordered list with `t` in it has everything below `t` in it. */
  lemma {:induction false} BelowSeen(s: Term, t: Term, seen: seq<Term>)
    requires Ordered(seen) && t in seen && Below(s, t)
    ensures s in seen
    decreases t, 1
  {
    if s != t {
      OrderedClosed(seen, t);
      BelowAnySeen(s, t.kids, seen);
    }
  }

  lemma {:induction false} BelowAnySeen(s: Term, ts: seq<Term>, seen: seq<Term>)
    requires Ordered(seen) && (forall t :: t in ts ==> t in seen) && BelowAny(s, ts)
    ensures s in seen
    decreases ts, 0
  {
    if Below(s, ts[0]) { BelowSeen(s, ts[0], seen); } else { BelowAnySeen(s, ts[1..], seen); }
  }

  /** The numbered expressions of a term are exactly the term and what is below it. */
  lemma NumberedExactly(t: Term, s: Term)
    ensures Distinct(Visit(t, [])) && Ordered(Visit(t, []))
    ensures s in Visit(t, []) <==> Below(s, t)
  {
    VisitMeaning(t, []);
    if Below(s, t) { BelowSeen(s, t, Visit(t, [])); }
  }

  // ----- the numbering as the compiler does it -----

  /** An expression in its only form, and the numbers of the expressions whose
      last child it is. */
  datatype Entry = Entry(expr: Term, uses: map<Term, nat>)

  function ExprsOf(entries: seq<Entry>): (ts: seq<Term>)
    ensures |ts| == |entries|
    ensures forall i :: 0 <= i < |entries| ==> ts[i] == entries[i].expr
  {
    seq(|entries|, i requires 0 <= i < |entries| => entries[i].expr)
  }

  /** The table names exactly the known expressions that satisfy `p`, by number. */
  ghost predicate Lists(table: map<Term, nat>, ts: seq<Term>, p: Term -> bool) {
    && (forall t :: t in table <==> t in ts && p(t))
    && (forall t :: t in table ==> table[t] < |ts| && ts[table[t]] == t)
  }

  function IsLeaf(): Term -> bool { (t: Term) => Kids(t) == [] }

  function HasLast(k: Term): Term -> bool { (t: Term) => Kids(t) != [] && Kids(t)[|Kids(t)| - 1] == k }

  /** Every entry lists its parents. */
  ghost predicate UsesListed(entries: seq<Entry>, ts: seq<Term>) {
    forall j :: 0 <= j < |entries| ==> Lists(entries[j].uses, ts, HasLast(entries[j].expr))
  }

  lemma ListsAppend(table: map<Term, nat>, ts: seq<Term>, t: Term, p: Term -> bool)
    requires Lists(table, ts, p) && t !in ts
    ensures Lists(if p(t) then table[t := |ts|] else table, ts + [t], p)
  {}

  /** The entries with a new one, listed with its last child `number` (-1 for none). */
  function WithEntry(entries: seq<Entry>, number: int, t: Term): seq<Entry> {
    (if 0 <= number < |entries| then entries[number := entries[number].(uses := entries[number].uses[t := |entries|])]
     else entries) + [Entry(t, map[])]
  }

  ghost predicate IsLastChild(number: int, t: Term, ts: seq<Term>) {
    if Kids(t) == [] then number == -1 else 0 <= number < |ts| && ts[number] == Kids(t)[|Kids(t)| - 1]
  }

  lemma WithEntryListed(entries: seq<Entry>, number: int, t: Term)
    requires var ts := ExprsOf(entries);
             Distinct(ts) && Ordered(ts) && t !in ts && UsesListed(entries, ts) && IsLastChild(number, t, ts)
    ensures ExprsOf(WithEntry(entries, number, t)) == ExprsOf(entries) + [t]
    ensures UsesListed(WithEntry(entries, number, t), ExprsOf(entries) + [t])
  {
    var ts, r := ExprsOf(entries), WithEntry(entries, number, t);
    assert ExprsOf(r) == ts + [t];
    forall j | 0 <= j < |r| ensures Lists(r[j].uses, ts + [t], HasLast(r[j].expr)) {
      if j < |entries| {
        assert HasLast(ts[j])(t) <==> j == number;
        hide Lists;
        ListsAppend(entries[j].uses, ts, t, HasLast(ts[j]));
      } else {
        NoParentYet(ts, t);
      }
    }
  }

  class GVN {
    var entries: seq<Entry>
    var leaves: map<Term, nat>
    /** Numbers by address of the expressions met. */
    var shallow: map<nat, nat>
    /** Numbers of the expressions in their only form. */
    var output: map<Term, nat>
    var number: int
    ghost const heap: Heap

    ghost function Exprs(): seq<Term>
      reads this
    {
      ExprsOf(entries)
    }

    ghost predicate Valid()
      reads this
    {
      && Distinct(Exprs()) && Ordered(Exprs())
      && Lists(leaves, Exprs(), IsLeaf())
      && UsesListed(entries, Exprs())
      && (forall a :: a in shallow ==> a in heap && shallow[a] < |entries| && entries[shallow[a]].expr == Tree(heap[a]))
      && Lists(output, Exprs(), (t: Term) => true)
    }

    constructor (ghost h: Heap)
      ensures Valid() && Exprs() == [] && heap == h
    {
      entries, leaves, shallow, output, number := [], map[], map[], map[], -1;
      heap := h;
    }

    /** The expression in its only form; its number tells it from every other expression. */
    method Mutate(e: Ref) returns (r: Term)
      requires Valid() && Lives(e, heap) && LetFree(Tree(e))
      modifies this
      ensures Valid() && r == Tree(e)
      ensures Exprs() == Visit(Tree(e), old(Exprs()))
      ensures 0 <= number < |entries| && Exprs()[number] == Tree(e)
      decreases e, 1
    {
      if e.addr in shallow {
        number := shallow[e.addr];
        return entries[number].expr;
      }
      number := -1;
      match e {
        case ConstRef(_, c) => r := Const(c);
        case VarRef(_, x) => r := Var(x);
        case NodeRef(_, op, kids) =>
          var ts := MutateAll(kids);
          r := Node(op, ts);
          if Tree(e) in old(Exprs()) {
            OrderedClosed(old(Exprs()), Tree(e));
            VisitAllKnown(Trees(kids), old(Exprs()));
          }
      }
      r := Enter(e, r);
    }

    method MutateAll(es: seq<Ref>) returns (ts: seq<Term>)
      requires Valid() && AllLive(es, heap) && AllLetFree(Trees(es))
      modifies this
      ensures Valid() && ts == Trees(es)
      ensures Exprs() == VisitAll(Trees(es), old(Exprs()))
      ensures es == [] ==> number == old(number)
      ensures es != [] ==> 0 <= number < |entries| && Exprs()[number] == Trees(es)[|es| - 1]
      ensures forall t :: t in Trees(es) ==> t in Exprs()
      decreases es, 0
    {
      if es == [] { return []; }
      assert Trees(es)[1..] == Trees(es[1..]);
      VisitMeaning(Tree(es[0]), Exprs());
      var t := Mutate(es[0]);
      VisitAllMeaning(Trees(es[1..]), Exprs());
      var rest := MutateAll(es[1..]);
      ts := [t] + rest;
    }

    /** Look among the parents of the last child, the only place where an equal
        expression can be, and add the expression if it is not there. */
    method Enter(e: Ref, t: Term) returns (r: Term)
      requires Valid() && Lives(e, heap) && t == Tree(e)
      requires IsLastChild(number, t, Exprs()) && forall k :: k in Kids(t) ==> k in Exprs()
      modifies this
      ensures Valid() && r == t
      ensures Exprs() == if t in old(Exprs()) then old(Exprs()) else old(Exprs()) + [t]
      ensures 0 <= number < |entries| && Exprs()[number] == t
    {
      hide Distinct, Ordered, Lists, WithEntry;
      Tables(t);
      var table := if number == -1 then leaves else entries[number].uses;
      if t in table {
        number := table[t];
        r := entries[number].expr;
        OutputKnown(output, Exprs(), t, number);
      } else {
        ghost var ts := Exprs();
        AppendOrdered(ts, t);
        WithEntryListed(entries, number, t);
        ListsAppend(leaves, ts, t, IsLeaf());
        ListsAppend(output, ts, t, (s: Term) => true);
        var n := |entries|;
        if number == -1 { leaves := leaves[t := n]; }
        entries := WithEntry(entries, number, t);
        number := n;
        r := t;
      }
      shallow := shallow[e.addr := number];
      output := output[r := number];
    }

    /** The table of the last child holds the expression just when it is known. */
    lemma Tables(t: Term)
      requires Valid() && IsLastChild(number, t, Exprs())
      ensures var table := if number == -1 then leaves else entries[number].uses;
              && (t in table <==> t in Exprs())
              && (t in table ==> table[t] < |entries| && Exprs()[table[t]] == t)
    {
      hide Distinct, Ordered, Lists;
      if number == -1 { ListsTell(leaves, Exprs(), IsLeaf(), t); }
      else { ListsTell(entries[number].uses, Exprs(), HasLast(entries[number].expr), t); }
    }
  }

  lemma ListsTell(table: map<Term, nat>, ts: seq<Term>, p: Term -> bool, t: Term)
    requires Lists(table, ts, p) && p(t)
    ensures (t in table <==> t in ts) && (t in table ==> table[t] < |ts| && ts[table[t]] == t)
  {}

  lemma OutputKnown(output: map<Term, nat>, ts: seq<Term>, t: Term, n: nat)
    requires Lists(output, ts, (s: Term) => true) && Distinct(ts) && n < |ts| && ts[n] == t
    ensures output[t := n] == output
  {
    assert t in ts;
  }

  /** A new expression is not yet the last child of any known one. */
  lemma NoParentYet(ts: seq<Term>, t: Term)
    requires Ordered(ts) && t !in ts
    ensures forall s :: s in ts + [t] ==> !HasLast(t)(s)
  {
    forall s | s in ts + [t] && HasLast(t)(s) ensures false {
      if s in ts { OrderedClosed(ts, s); } else { SmallerKid(t); }
    }
  }

  lemma SmallerKid(t: Term)
    ensures t !in Kids(t)
  {
    if t.Node? { assert forall k :: k in t.kids ==> k < t; }
  }
}
