// The boxes visitor as the compiler runs it: one object whose boxes, scope,
// lets and dependencies are updated in place (BoxesTouched of src/Bounds.cpp).

module BoxesVisiting {
  import opened Options
  import opened IR
  import opened Intervals
  import opened BoundsRules
  import opened Bounds
  import opened Boxes
  import opened Stmts
  import opened BoxesTouching
  import opened TrimOrders

  class BoxesVisitor {
    const t: Tools
    var boxes: BoxMap
    var k: nat
    var status: Status
    var scope: Scope
    var lets: Lets
    var children: Children
    var depth: map<Name, nat>

    /** What has been found, and where the visitor stands. */
    function Now(): State
      reads this
    {
      State(boxes, k, status)
    }

    function Here(): Place
      reads this
    {
      Place(scope, lets, children, depth)
    }

    constructor (tools: Tools, around: Scope, next: nat)
      ensures t == tools && Now() == State(map[], next, Fine) && Here() == Outermost(around)
    {
      t, boxes, k, status := tools, map[], next, Fine;
      scope, lets, children, depth := around, map[], map[], map[];
    }

    method AddTouched(f: string, args: seq<Expr>, used: Option<Expr>)
      modifies this`boxes, this`k
      ensures Now() == AddBox(f, args, used, Here(), t, old(Now()))
    {
      if t.mode.Wants(f) {
        var bounds: seq<Interval> := [];
        ghost var all := BoundsOfAll(args, scope, t.c, k);
        assert args[0..] == args && [] + all.0 == all.0;
        for i := 0 to |args|
          invariant |bounds| == i && boxes == old(boxes)
          invariant all.0 == bounds + BoundsOfAll(args[i..], scope, t.c, k).0
          invariant all.1 == BoundsOfAll(args[i..], scope, t.c, k).1
        {
          var (b, next) := BoundsOf(args[i], scope, t.c, k);
          BoundsStep(args, i, bounds, scope, t.c, k);
          bounds, k := bounds + [b], next;
        }
        assert args[|args|..] == [] && bounds + [] == bounds;
        assert all == (bounds, k);
        boxes := MergeInto(boxes, f, Box(bounds, used), t.c.oracle);
      }
    }

    method VisitExpr(e: Expr)
      modifies this
      ensures Now() == TouchExpr(e, old(Here()), t, old(Now())) && Here() == old(Here())
      decreases e, 1
    {
      hide AddBox, DefineAll, LetValue, Names, Occurrences, TouchStmt;
      match e {
        case Const(_, _) | Var(_) =>
        case Un(_, a) => VisitExpr(a);
        case Bin(_, a, b) => VisitExpr(a); VisitExpr(b);
        case Select(c, x, y) => VisitExpr(c); VisitExpr(x); VisitExpr(y);
        case Ramp(b, s, _) => VisitExpr(b); VisitExpr(s);
        case Let(x, v, b) =>
          VisitExpr(v);
          var (val, next) := LetValue(v, scope, t.c, k);
          var around := scope;
          k := next;
          PushLet(x, val);
          VisitExpr(b);
          scope := around;
          PopLet(x, val, next);
        case Call(ct, f, _, args) =>
          if t.mode.calls {
            VisitAll(args);
            if ct.FuncCall? { AddTouched(f, args, Some(Const(1, BoolT))); }
          }
      }
    }

    method VisitAll(es: seq<Expr>)
      modifies this
      ensures Now() == TouchArgs(es, old(Here()), t, old(Now())) && Here() == old(Here())
      decreases es, 0
    {
      for i := 0 to |es|
        invariant Here() == old(Here())
        invariant TouchArgs(es, Here(), t, old(Now())) == TouchArgs(es[i..], Here(), t, Now())
      {
        assert es[i..][0] == es[i] && es[i..][1..] == es[i + 1..];
        VisitExpr(es[i]);
      }
    }

    /** A small value goes into the scope, the ends of a large one get names. */
    method PushLet(x: Name, val: Interval)
      modifies this`scope, this`k
      ensures (scope, k) == EnterLet(x, val, old(scope), old(k))
    {
      if IsSmallInterval(val) {
        scope := scope[x := val];
      } else {
        scope := scope[x := EndVars(NewEnds(x, k))];
        k := k + 2;
      }
    }

    method PopLet(x: Name, val: Interval, from: nat)
      modifies this`boxes, this`status
      ensures Now() == LeaveLet(x, val, from, old(Now()))
    {
      if !IsSmallInterval(val) { Rewrap(NewEnds(x, from), val); }
    }

    /** Wrap every box's ends in the lets that define the two names. */
    method Rewrap(n: Ends, val: Interval)
      modifies this`boxes, this`status
      ensures Now() == DefineAll(old(Now()), n, val)
    {
      if AllDefinable(boxes, n, val) {
        boxes := map f | f in boxes :: DefineBox(boxes[f], n, val);
      } else {
        status := Worse(status, Malformed);
      }
    }

    method Visit(s: Stmt)
      modifies this
      ensures Now() == TouchStmt(s, old(Here()), t, old(Now())) && Here() == old(Here())
      decreases s, 1
    {
      hide TouchExpr, TouchArgs, AddBox, LoopRange, Size, Names;
      match s {
        case Block(first, rest) => Visit(first); Visit(rest);
        case For(x, min, extent, body) =>
          if t.mode.calls { VisitExpr(min); VisitExpr(extent); }
          var (i, next) := LoopRange(min, extent, scope, t.c, k);
          if i.None? {
            status := Worse(status, Aborted);
          } else {
            var around, outside := scope, depth;
            k := next;
            depth := Deeper(depth, x);
            scope := scope[x := i.value];
            Visit(body);
            scope, depth := around, outside;
          }
        case LetStmt(x, v, body) => VisitLet(x, v, body);
        case IfThenElse(c, thenCase, elseCase) => VisitIf(c, thenCase, elseCase);
        case Provide(f, values, args) =>
          if t.mode.stores { AddTouched(f, args, None); }
          if t.mode.calls { VisitAll(args); VisitAll(values); }
        case Evaluate(e) => VisitExpr(e);
      }
    }

    method VisitLet(x: Name, v: Expr, body: Stmt)
      modifies this
      ensures Now() == TouchStmt(LetStmt(x, v, body), old(Here()), t, old(Now())) && Here() == old(Here())
      decreases LetStmt(x, v, body), 0
    {
      hide TouchExpr, DefineAll, LetValue, Occurrences, Size, Names, AddChildren, RemoveChildren, LeaveLet, EnterLet;
      var p := Here();
      VisitExpr(v);
      var (val, next) := LetValue(v, scope, t.c, k);
      k := next;
      EnterBody(x, v, val);
      assert Here() == InsideLet(x, v, EnterLet(x, val, p.scope, next).0, p);
      Visit(body);
      GoBack(p);
      PopLet(x, val, next);
    }

    method GoBack(p: Place)
      modifies this`scope, this`lets, this`children, this`depth
      ensures Here() == p
    {
      scope, lets, children, depth := p.scope, p.lets, p.children, p.depth;
    }

    /** Inside the let its name, its value and its uses are known. */
    method EnterBody(x: Name, v: Expr, val: Interval)
      modifies this`scope, this`lets, this`children, this`depth, this`k
      ensures (scope, k) == EnterLet(x, val, old(scope), old(k))
      ensures Here() == InsideLet(x, v, scope, old(Here()))
    {
      hide Occurrences, AddChildren, RemoveChildren, EnterLet;
      PushLet(x, val);
      depth := Deeper(depth, x);
      var i := InstOf(x, depth);
      RecordUses(Occurrences(v), i);
      if x in lets { ForgetUses(Occurrences(lets[x]), Inst(x, i.n - 1)); }
      lets := lets[x := v];
    }

    method VisitIf(c: Expr, thenCase: Stmt, elseCase: Option<Stmt>)
      modifies this
      ensures Now() == TouchStmt(IfThenElse(c, thenCase, elseCase), old(Here()), t, old(Now())) && Here() == old(Here())
      decreases IfThenElse(c, thenCase, elseCase), 0
    {
      hide TouchExpr, TouchCase, Fork, Occurrences, Size, Names;
      VisitExpr(c);
      if UsesScope(c, scope) || !IsPure(c) {
        VisitCase(t.c.oracle.simp(c), c, thenCase);
        if elseCase.Some? && !IsNoOp(elseCase.value) {
          VisitCase(t.c.oracle.simp(Un(Not, c)), c, elseCase.value);
        }
      } else {
        var around := boxes;
        boxes := map[];
        Visit(thenCase);
        var thenBoxes := boxes;
        boxes := map[];
        if elseCase.Some? { Visit(elseCase.value); }
        boxes := Fork(c, thenBoxes, boxes, around, t.c.oracle);
      }
    }

    /** Each variable of a let's value gets the let as a dependent, once. */
    method RecordUses(vs: seq<Name>, i: Inst)
      modifies this`children
      ensures children == AddChildren(old(children), vs, i, depth)
    {
      for j := 0 to |vs|
        invariant AddChildren(old(children), vs, i, depth) == AddChildren(children, vs[j..], i, depth)
      {
        assert vs[j..][0] == vs[j] && vs[j..][1..] == vs[j + 1..];
        var v := InstOf(vs[j], depth);
        var known := ChildrenOf(children, v);
        if vs[j] != i.x && i !in known { children := children[v := known + [i]]; }
      }
    }

    /** The variables of a hidden let's value no longer have it as a dependent. */
    method ForgetUses(vs: seq<Name>, i: Inst)
      modifies this`children
      ensures children == RemoveChildren(old(children), vs, i, depth)
    {
      for j := 0 to |vs|
        invariant RemoveChildren(old(children), vs, i, depth) == RemoveChildren(children, vs[j..], i, depth)
      {
        assert vs[j..][0] == vs[j] && vs[j..][1..] == vs[j + 1..];
        var v := InstOf(vs[j], depth);
        if vs[j] != i.x && v in children { children := children[v := Without(children[v], i)]; }
      }
    }

    method VisitCase(c: Expr, cond: Expr, body: Stmt)
      modifies this
      ensures Now() == TouchCase(c, cond, body, old(Here()), t, old(Now())) && Here() == old(Here())
      decreases body, 3 + |Occurrences(cond)|
    {
      hide TrimAll, Restrictions, Occurrences, Size, Names, TouchStmt;
      var likely := c.Un? && c.uop.Likely?;
      var (rs, next) := Restrictions(Occurrences(cond), if likely then c.arg else c, likely, scope, t, k);
      k := next;
      VisitTrimmed(rs, body);
    }

    /** Narrow one variable, visit with the others narrowed too, and undo. */
    method VisitTrimmed(rs: seq<Restriction>, body: Stmt)
      modifies this
      ensures Now() == TrimAll(rs, body, old(Here()), t, old(Now())) && Here() == old(Here())
      decreases body, 2 + |rs|
    {
      hide TouchStmt, PopLets, NameLets, TrimOrder, Pushed, Size, Names, Visible;
      ghost var p, st := Here(), Now();
      if rs == [] {
        Visit(body);
      } else {
        var around := scope;
        scope := scope[rs[0].x := rs[0].i];
        var narrowed := scope;
        ghost var q := Narrowed(p, rs[0]);
        assert Here() == q;
        var ns := TrimScopePush(rs[0].x);
        assert Here() == Renamed(q, ns) && ns == DependentNames(p, rs[0].x, st.k);
        VisitTrimmed(rs[1..], body);
        assert Now() == TrimAll(rs[1..], body, Renamed(q, ns), t, st.(k := st.k + 2 * |ns|));
        TrimScopePop(ns, narrowed);
        scope := around;
      }
    }

    /** Find the lets that depend on `x` and know them by new names. */
    method TrimScopePush(x: Name) returns (ns: seq<Ends>)
      modifies this`scope, this`k
      ensures ns == DependentNames(Here(), x, old(k))
      ensures scope == Pushed(old(scope), ns) && k == old(k) + 2 * |ns|
    {
      hide TrimOrder, Names, Visible;
      var out := FindDependents(x);
      ns := NameLets(out, k);
      k := k + 2 * |ns|;
      assert ns[|ns|..] == [];
      for i := |ns| downto 0
        invariant scope == Pushed(old(scope), ns[i..]) && k == old(k) + 2 * |ns|
      {
        assert ns[i..][0] == ns[i] && ns[i..][1..] == ns[i + 1..];
        scope := scope[ns[i].x := EndVars(ns[i])];
      }
      assert ns[0..] == ns;
    }

    /** The search, with an explicit stack. */
    method FindDependents(x: Name) returns (out: seq<Name>)
      ensures out == TrimOrder(x, Visible(children, depth))
    {
      hide AllChildren, Weight, Size, Names, Visible;
      ghost var seen := Visible(children, depth);
      var pending, visited, going := [Task(x, false)], {x}, true;
      out := [];
      while going
        invariant going ==> pending != [] && Dfs(pending, visited, seen, out) == TrimOrder(x, seen)
        invariant !going ==> out == TrimOrder(x, seen)
        decreases if going then 1 + 3 * |AllChildren(seen) - visited| + Weight(pending) else 0
      {
        DfsShrinks(pending, visited, seen);
        var rest, next := pending[..|pending| - 1], pending[|pending| - 1];
        if !next.done {
          pending, visited := PushChildren(next.x, rest + [Task(next.x, true)], visited);
        } else {
          out, pending := out + [next.x], rest;
        }
        going := |pending| > 1;
      }
    }

    method PushChildren(x: Name, from: seq<Task>, seen: set<Name>) returns (pending: seq<Task>, visited: set<Name>)
      ensures (pending, visited) == PushNew(ChildrenOf(Visible(children, depth), x), from, seen)
    {
      var kids := ChildrenOf(children, InstOf(x, depth));
      ghost var vs := NamesOfInsts(kids);
      assert vs == ChildrenOf(Visible(children, depth), x);
      pending, visited := from, seen;
      for i := 0 to |kids|
        invariant PushNew(vs, from, seen) == PushNew(vs[i..], pending, visited)
      {
        assert vs[i..][0] == kids[i].x && vs[i..][1..] == vs[i + 1..];
        if kids[i].x !in visited {
          pending, visited := pending + [Task(kids[i].x, false)], visited + {kids[i].x};
        }
      }
    }

    /** Leave the renamed lets one by one; `narrowed` is the scope they were pushed on. */
    method TrimScopePop(ns: seq<Ends>, narrowed: Scope)
      requires scope == Pushed(narrowed, ns)
      modifies this`scope, this`boxes, this`k, this`status
      ensures Now() == PopLets(ns, narrowed, lets, t, old(Now()))
    {
      for i := 0 to |ns|
        invariant PopLets(ns, narrowed, lets, t, old(Now())) == PopLets(ns[i..], narrowed, lets, t, Now())
      {
        var n := ns[i];
        assert ns[i..][0] == n && ns[i..][1..] == ns[i + 1..];
        if n.x !in lets || n.x !in narrowed {
          status := Worse(status, Aborted);
          return;
        }
        scope := Pushed(narrowed, ns[i + 1..]);
        var (v, next) := LetValue(lets[n.x], scope, t.c, k);
        k := next;
        if Mismatched(v, narrowed[n.x]) && !AllDefinable(boxes, n, EVERYTHING) {
          Rewrap(n, EVERYTHING);
          status := Aborted;
        } else {
          Rewrap(n, Intersect(v, narrowed[n.x], t.c.oracle));
        }
      }
    }
  }

  lemma BoundsStep(args: seq<Expr>, i: nat, done: seq<Interval>, scope: Scope, c: Ctx, k: nat)
    requires i < |args|
    ensures
      var (b, k1) := BoundsOf(args[i], scope, c, k);
      var (all, k2) := BoundsOfAll(args[i..], scope, c, k);
      var (rest, k3) := BoundsOfAll(args[i + 1..], scope, c, k1);
      done + all == (done + [b]) + rest && k2 == k3
  {
    hide BoundsOf;
    assert args[i..][0] == args[i] && args[i..][1..] == args[i + 1..];
  }
}
