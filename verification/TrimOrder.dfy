// The traversal that finds the lets depending on a variable
// (trim_scope_push of src/Bounds.cpp).

module TrimOrders {
  import opened IR
  import opened BoxesTouching

  ghost predicate Distinct(xs: seq<Name>) {
    forall i, j :: 0 <= i < j < |xs| ==> xs[i] != xs[j]
  }

  /** Every variable that depends on a member is a member. */
  ghost predicate ClosedUnder(s: set<Name>, children: map<Name, seq<Name>>) {
    forall x, y :: x in s && y in ChildrenOf(children, x) ==> y in s
  }

  function Vars(pending: seq<Task>): (r: seq<Name>)
    ensures |r| == |pending|
    ensures forall i :: 0 <= i < |r| ==> r[i] == pending[i].x
  {
    seq(|pending|, i requires 0 <= i < |pending| => pending[i].x)
  }

  function Elems(xs: seq<Name>): set<Name> { set x | x in xs }

  /** What the stack, the visited set and the output keep to. */
  ghost predicate NearlyInv(pending: seq<Task>, visited: set<Name>, children: map<Name, seq<Name>>,
      out: seq<Name>, root: Name) {
    && pending != [] && pending[0].x == root
    && Distinct(Vars(pending) + out)
    && visited == Elems(Vars(pending) + out)
    && (forall x :: x in out ==> Elems(ChildrenOf(children, x)) <= visited)
    && (forall i :: 0 <= i < |pending| && pending[i].done ==> Elems(ChildrenOf(children, pending[i].x)) <= visited)
    && visited <= AllChildren(children) + {root}
    && Minimal(visited, children, root)
  }

  ghost predicate Minimal(visited: set<Name>, children: map<Name, seq<Name>>, root: Name) {
    forall s: set<Name> :: root in s && ClosedUnder(s, children) ==> visited <= s
  }

  /** The root's children are pushed first, and the root is never put out. */
  ghost predicate DfsInv(pending: seq<Task>, visited: set<Name>, children: map<Name, seq<Name>>,
      out: seq<Name>, root: Name) {
    NearlyInv(pending, visited, children, out, root) && (pending[0].done <==> |pending| > 1)
  }

  /** Pushing one more new variable. */
  lemma PushOne(v: Name, pending: seq<Task>, visited: set<Name>, out: seq<Name>)
    requires Distinct(Vars(pending) + out) && visited == Elems(Vars(pending) + out) && v !in visited
    ensures var p := pending + [Task(v, false)];
            Distinct(Vars(p) + out) && visited + {v} == Elems(Vars(p) + out)
  {
    var n, p := |pending|, pending + [Task(v, false)];
    var all, all1 := Vars(pending) + out, Vars(p) + out;
    assert Vars(p) == Vars(pending) + [v];
    assert all1 == Vars(pending) + [v] + out;
    assert forall i :: 0 <= i < n ==> all1[i] == all[i];
    assert forall i :: n < i < |all1| ==> all1[i] == all[i - 1];
    assert forall x :: x in all ==> x in visited;
    forall i, j | 0 <= i < j < |all1| ensures all1[i] != all1[j] {
      if i == n { assert all1[j] == all[j - 1]; } else if j == n { assert all1[i] == all[i]; }
    }
    assert Elems(all1) == visited + {v};
  }

  lemma {:induction false} PushNewMeaning(vs: seq<Name>, pending: seq<Task>, visited: set<Name>, out: seq<Name>)
    requires Distinct(Vars(pending) + out) && visited == Elems(Vars(pending) + out)
    ensures var (p, v) := PushNew(vs, pending, visited);
            && pending <= p && (forall i :: |pending| <= i < |p| ==> !p[i].done)
            && Distinct(Vars(p) + out) && v == Elems(Vars(p) + out) && v == visited + Elems(vs)
  {
    if vs != [] {
      assert Elems(vs) == {vs[0]} + Elems(vs[1..]);
      if vs[0] in visited {
        PushNewMeaning(vs[1..], pending, visited, out);
      } else {
        PushOne(vs[0], pending, visited, out);
        hide Distinct, Elems;
        PushNewMeaning(vs[1..], pending + [Task(vs[0], false)], visited + {vs[0]}, out);
      }
    }
  }

  /** What the traversal puts out: the other members of the least closed set around the root. */
  ghost predicate IsTrimOrder(xs: seq<Name>, root: Name, children: map<Name, seq<Name>>) {
    && Distinct(xs) && root !in xs
    && (forall x :: x in xs ==> x in AllChildren(children))
    && ClosedUnder(Elems(xs) + {root}, children)
    && Minimal(Elems(xs), children, root)
  }

  lemma {:induction false} DfsMeaning(pending: seq<Task>, visited: set<Name>, children: map<Name,
      seq<Name>>, out: seq<Name>, root: Name)
    requires DfsInv(pending, visited, children, out, root)
    ensures IsTrimOrder(Dfs(pending, visited, children, out), root, children)
    decreases 3 * |AllChildren(children) - visited| + Weight(pending)
  {
    assert pending != [];
    hide NearlyInv, IsTrimOrder, Distinct;
    var rest, next := pending[..|pending| - 1], pending[|pending| - 1];
    DfsShrinks(pending, visited, children);
    if !next.done {
      var (p1, v1) := PushNew(ChildrenOf(children, next.x), rest + [Task(next.x, true)], visited);
      PushedInv(pending, visited, children, out, root);
      if |p1| > 1 { DfsMeaning(p1, v1, children, out, root); } else { OrderAtEnd(p1, v1, children, out, root); }
    } else {
      PoppedInv(pending, visited, children, out, root);
      if |rest| > 1 { DfsMeaning(rest, visited, children, out + [next.x], root); }
      else { OrderAtEnd(rest, visited, children, out + [next.x], root); }
    }
  }

  /** Each step of the traversal makes its measure smaller. */
  lemma DfsShrinks(pending: seq<Task>, visited: set<Name>, children: map<Name, seq<Name>>)
    requires pending != []
    ensures
      var rest, next := pending[..|pending| - 1], pending[|pending| - 1];
      var (p1, v1) := PushNew(ChildrenOf(children, next.x), rest + [Task(next.x, true)], visited);
      var all := AllChildren(children);
      && |p1| >= |pending|
      && (next.done ==> Weight(rest) < Weight(pending))
      && (!next.done ==> 3 * |all - v1| + Weight(p1) < 3 * |all - visited| + Weight(pending))
  {
    var rest, next := pending[..|pending| - 1], pending[|pending| - 1];
    assert pending == rest + [next];
    WeightAppend(rest, [next]);
    WeightAppend(rest, [Task(next.x, true)]);
    PushNewShrinks(ChildrenOf(children, next.x), rest + [Task(next.x, true)], visited, AllChildren(children));
  }

  lemma PushedInv(pending: seq<Task>, visited: set<Name>, children: map<Name, seq<Name>>, out: seq<Name>, root: Name)
    requires DfsInv(pending, visited, children, out, root) && !pending[|pending| - 1].done
    ensures
      var next := pending[|pending| - 1].x;
      var (p1, v1) := PushNew(ChildrenOf(children, next), pending[..|pending| - 1] + [Task(next, true)], visited);
      NearlyInv(p1, v1, children, out, root) && p1[0].done
  {
    var next := pending[|pending| - 1].x;
    var kids, flagged := ChildrenOf(children, next), pending[..|pending| - 1] + [Task(next, true)];
    assert Vars(flagged) == Vars(pending);
    PushNewMeaning(kids, flagged, visited, out);
    var (p1, v1) := PushNew(kids, flagged, visited);
    assert next in visited by { assert (Vars(pending) + out)[|pending| - 1] == next; }
    forall i | 0 <= i < |p1| && p1[i].done ensures Elems(ChildrenOf(children, p1[i].x)) <= v1 {
      assert p1[i] == flagged[i];
      if i < |flagged| - 1 { assert flagged[i] == pending[i]; }
    }
    forall s: set<Name> | root in s && ClosedUnder(s, children) ensures v1 <= s {
      assert visited <= s;
      forall y | y in kids ensures y in s {}
    }
  }

  lemma PoppedInv(pending: seq<Task>, visited: set<Name>, children: map<Name, seq<Name>>, out: seq<Name>, root: Name)
    requires DfsInv(pending, visited, children, out, root) && pending[|pending| - 1].done
    ensures |pending| > 1
    ensures NearlyInv(pending[..|pending| - 1], visited, children, out + [pending[|pending| - 1].x], root)
    ensures pending[..|pending| - 1][0].done
  {
    var n := |pending| - 1;
    var rest, next := pending[..n], pending[n].x;
    var all, all1 := Vars(pending) + out, Vars(rest) + (out + [next]);
    assert forall i :: 0 <= i < n ==> all1[i] == all[i];
    assert forall i :: n <= i < |all1| - 1 ==> all1[i] == all[i + 1];
    assert all1[|all1| - 1] == next == all[n];
    forall x | x in Elems(all) ensures x in Elems(all1) {
      var i :| 0 <= i < |all| && all[i] == x;
      assert all1[if i < n then i else if i == n then |all1| - 1 else i - 1] == x;
    }
    forall x | x in Elems(all1) ensures x in Elems(all) {
      var i :| 0 <= i < |all1| && all1[i] == x;
      assert all[if i < n then i else if i == |all1| - 1 then n else i + 1] == x;
    }
  }

  /** A root that is all that is left, and done, closes the set. */
  lemma OrderAtEnd(pending: seq<Task>, visited: set<Name>, children: map<Name, seq<Name>>, out: seq<Name>, root: Name)
    requires NearlyInv(pending, visited, children, out, root) && |pending| == 1 && pending[0].done
    ensures IsTrimOrder(out, root, children)
  {
    assert Vars(pending) + out == [root] + out;
    ConsElems(root, out);
    forall x, y | x in Elems(out) + {root} && y in ChildrenOf(children, x) ensures y in Elems(out) + {root} {
      assert y in Elems(ChildrenOf(children, x));
    }
  }

  lemma ConsElems(x: Name, xs: seq<Name>)
    requires Distinct([x] + xs)
    ensures Distinct(xs) && x !in xs && Elems([x] + xs) == Elems(xs) + {x}
  {
    var all := [x] + xs;
    assert forall i :: 0 <= i < |xs| ==> all[i + 1] == xs[i];
    assert all[0] == x;
  }

  /** The order holds exactly the variables that depend on `x`, each once. */
  lemma TrimOrderMeaning(x: Name, children: map<Name, seq<Name>>)
    ensures IsTrimOrder(TrimOrder(x, children), x, children)
  {
    var p := [Task(x, false)];
    assert Vars(p) + [] == [x];
    DfsMeaning(p, {x}, children, [], x);
  }
}
