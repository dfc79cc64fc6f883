// The boxes a statement touches (the BoxesTouched visitor of src/Bounds.cpp).

module BoxesTouching {
  import opened Options
  import opened IR
  import opened Intervals
  import opened BoundsRules
  import opened Bounds
  import opened Boxes
  import opened Stmts

  /** The solver rearranges a condition so that a given variable stands on the
      left; the flag says whether it succeeded. It is used through its promise only. */
  type Solver = (Expr, Name) -> (Expr, bool)

  ghost predicate SoundSolver(solve: Solver) {
    && (forall e: Expr, x: Name, w: World :: Eval(solve(e, x).0, w, 0) == Eval(e, w, 0))
    && (forall e: Expr, x: Name :: Names(solve(e, x).0) <= Names(e))
    && (forall e: Expr, x: Name :: HasTy(e, BoolT) ==> HasTy(solve(e, x).0, BoolT))
  }

  /** What does not change during a visit. */
  datatype Tools = Tools(c: Ctx, solve: Solver, mode: Mode)

  type BoxMap = map<string, Box>

  /** How a visit ended. `Malformed`: a box was returned in which a name is
      defined as an infinity. `Aborted`: the compiler stopped with an error. */
  datatype Status = Fine | Malformed | Aborted

  function Worse(a: Status, b: Status): Status {
    if a.Aborted? || b.Aborted? then Aborted else if a.Malformed? then a else b
  }

  /** What the visitor has found: the boxes, the unique-name counter, and
      whether all went well. */
  datatype State = State(boxes: BoxMap, k: nat, status: Status) {
    predicate Ok() { status.Fine? }

    function With(s: Status): State { this.(status := Worse(status, s)) }
  }

  /** One of the definitions of a variable: how many definitions of the name enclose it, itself included. */
  datatype Inst = Inst(x: Name, n: nat)

  type Children = map<Inst, seq<Inst>>

  /** Where the visitor stands: intervals of variables, values of enclosing
      lets, for each definition of a variable the lets whose value depends on
      it, and how many definitions of each name enclose the place. */
  datatype Place = Place(scope: Scope, lets: Lets, children: Children, depth: map<Name, nat>)

  // ----- adding a box -----

  function BoundsOfAll(args: seq<Expr>, scope: Scope, c: Ctx, k: nat): (r: (seq<Interval>, nat))
    ensures |r.0| == |args| && r.1 >= k
  {
    if args == [] then ([], k)
    else
      var (i, k1) := BoundsOf(args[0], scope, c, k);
      var (rest, k2) := BoundsOfAll(args[1..], scope, c, k1);
      ([i] + rest, k2)
  }

  function MergeInto(boxes: BoxMap, f: string, b: Box, o: Oracle): BoxMap {
    boxes[f := Merge(if f in boxes then boxes[f] else EMPTY_BOX, b, o)]
  }

  function AddBox(f: string, args: seq<Expr>, used: Option<Expr>, p: Place, t: Tools, st: State): (r: State)
    ensures r.k >= st.k && (r.Ok() ==> st.Ok())
  {
    if t.mode.Wants(f) then
      var (bounds, k) := BoundsOfAll(args, p.scope, t.c, st.k);
      st.(boxes := MergeInto(st.boxes, f, Box(bounds, used), t.c.oracle), k := k)
    else st
  }

  // ----- lets -----

  function SimplifyExt(b: Ext, o: Oracle): Ext { if b.Fin? then Fin(o.simp(b.e)) else b }

  function SimplifyInterval(i: Interval, o: Oracle): Interval {
    var lo := SimplifyExt(i.min, o);
    Interval(lo, if i.IsPoint() then lo else SimplifyExt(i.max, o))
  }

  /** Few enough variables to put the expression in directly. An infinity counts as one. */
  predicate IsSmall(b: Ext) { (if b.Fin? then VarCount(b.e) else 1) < 10 }

  predicate IsSmallInterval(i: Interval) { IsSmall(i.min) && (i.IsPoint() || IsSmall(i.max)) }

  /** Two new names, for the upper and the lower end. */
  datatype Ends = Ends(x: Name, mx: Name, mn: Name)

  function NewEnds(x: Name, k: nat): Ends { Ends(x, Fresh("t", k, x.ty), Fresh("t", k + 1, x.ty)) }

  function EndVars(n: Ends): Interval { Interval(Fin(Var(n.mn)), Fin(Var(n.mx))) }

  /** Define the names an end refers to. An infinite value cannot be given to a
      name, so an end that needs one has no definition. */
  function DefineEnd(e: Expr, n: Ends, val: Interval): Option<Expr> {
    if n.mx in Names(e) && !val.max.Fin? then None
    else
      var e1 := if n.mx in Names(e) then Let(n.mx, val.max.e, e) else e;
      if n.mn in Names(e1) && !val.min.Fin? then None
      else Some(if n.mn in Names(e1) then Let(n.mn, val.min.e, e1) else e1)
  }

  function DefineExt(b: Ext, has: bool, n: Ends, val: Interval): Option<Ext> {
    if !has || !b.Fin? then Some(b)
    else match DefineEnd(b.e, n, val) case None => None case Some(e) => Some(Fin(e))
  }

  function DefineInterval(i: Interval, n: Ends, val: Interval): Option<Interval> {
    match (DefineExt(i.min, i.HasLower(), n, val), DefineExt(i.max, i.HasUpper(), n, val))
    case (Some(lo), Some(hi)) => Some(Interval(lo, hi))
    case _ => None
  }

  predicate Definable(b: Box, n: Ends, val: Interval) {
    forall d :: 0 <= d < |b.bounds| ==> DefineInterval(b.bounds[d], n, val).Some?
  }

  function DefineBox(b: Box, n: Ends, val: Interval): Box
    requires Definable(b, n, val)
  {
    b.(bounds := seq(|b.bounds|, d requires 0 <= d < |b.bounds| => DefineInterval(b.bounds[d], n, val).value))
  }

  predicate AllDefinable(boxes: BoxMap, n: Ends, val: Interval) {
    forall f :: f in boxes ==> Definable(boxes[f], n, val)
  }

  /** Define the two names in every box. */
  function DefineAll(st: State, n: Ends, val: Interval): State {
    if AllDefinable(st.boxes, n, val) then
      st.(boxes := map f | f in st.boxes :: DefineBox(st.boxes[f], n, val))
    else st.With(Malformed)
  }

  // ----- expressions -----

  function TouchExpr(e: Expr, p: Place, t: Tools, st: State): (r: State)
    ensures r.k >= st.k && (r.Ok() ==> st.Ok())
    decreases e, 1
  {
    match e
    case Const(_, _) => st
    case Var(_) => st
    case Un(_, a) => TouchExpr(a, p, t, st)
    case Bin(_, a, b) => TouchExpr(b, p, t, TouchExpr(a, p, t, st))
    case Select(c, x, y) => TouchExpr(y, p, t, TouchExpr(x, p, t, TouchExpr(c, p, t, st)))
    case Ramp(b, s, _) => TouchExpr(s, p, t, TouchExpr(b, p, t, st))
    case Let(x, v, b) => TouchLet(x, v, b, p, t, st)
    case Call(ct, f, _, args) =>
      if !t.mode.calls then st
      else
        var st1 := TouchArgs(args, p, t, st);
        if ct.FuncCall? then AddBox(f, args, Some(Const(1, BoolT)), p, t, st1) else st1
  }

  function TouchArgs(args: seq<Expr>, p: Place, t: Tools, st: State): (r: State)
    ensures r.k >= st.k && (r.Ok() ==> st.Ok())
    decreases args, 0
  {
    if args == [] then st else TouchArgs(args[1..], p, t, TouchExpr(args[0], p, t, st))
  }

  /** The scope inside a let: a small interval directly, a large one by name. */
  function EnterLet(x: Name, val: Interval, scope: Scope, k: nat): (r: (Scope, nat))
    ensures r.1 >= k
  {
    if IsSmallInterval(val) then (scope[x := val], k) else (scope[x := EndVars(NewEnds(x, k))], k + 2)
  }

  function LeaveLet(x: Name, val: Interval, k: nat, st: State): State {
    if IsSmallInterval(val) then st else DefineAll(st, NewEnds(x, k), val)
  }

  lemma LeaveLetOk(x: Name, val: Interval, k: nat, st: State)
    ensures LeaveLet(x, val, k, st).Ok() ==> st.Ok()
  {}

  function LetValue(v: Expr, scope: Scope, c: Ctx, k: nat): (r: (Interval, nat))
    ensures r.1 >= k
  {
    var (i, k1) := BoundsOf(v, scope, c, k);
    (SimplifyInterval(i, c.oracle), k1)
  }

  function TouchLet(x: Name, v: Expr, body: Expr, p: Place, t: Tools, st: State): (r: State)
    ensures r.k >= st.k && (r.Ok() ==> st.Ok())
    decreases Let(x, v, body), 0
  {
    var st1 := TouchExpr(v, p, t, st);
    var (val, k1) := LetValue(v, p.scope, t.c, st1.k);
    var (scope, k2) := EnterLet(x, val, p.scope, k1);
    LeaveLet(x, val, k1, TouchExpr(body, p.(scope := scope), t, st1.(k := k2)))
  }

  // ----- which lets depend on a variable -----

  /** The definition that a name refers to. */
  function InstOf(x: Name, depth: map<Name, nat>): Inst { Inst(x, if x in depth then depth[x] else 0) }

  /** One more definition of `x`. */
  function Deeper(depth: map<Name, nat>, x: Name): map<Name, nat> { depth[x := InstOf(x, depth).n + 1] }

  function ChildrenOf<K(==)>(children: map<K, seq<K>>, x: K): seq<K> {
    if x in children then children[x] else []
  }

  function Without<K(==)>(xs: seq<K>, x: K): seq<K> {
    if xs == [] then [] else (if xs[0] == x then [] else [xs[0]]) + Without(xs[1..], x)
  }

  /** Record, or forget, that the value of the let `i` mentions the variables `vs`. */
  function AddChildren(children: Children, vs: seq<Name>, i: Inst, depth: map<Name, nat>): Children
    decreases |vs|
  {
    if vs == [] then children
    else
      var v := InstOf(vs[0], depth);
      var known := ChildrenOf(children, v);
      AddChildren(if vs[0] == i.x || i in known then children else children[v := known + [i]], vs[1..], i, depth)
  }

  function RemoveChildren(children: Children, vs: seq<Name>, i: Inst, depth: map<Name, nat>): Children
    decreases |vs|
  {
    if vs == [] then children
    else
      var v := InstOf(vs[0], depth);
      RemoveChildren(if vs[0] == i.x || v !in children then children else children[v := Without(children[v], i)],
                     vs[1..], i, depth)
  }

  /** The dependencies inside `let x = v`: this let depends on what `v` mentions,
      and a let of the same name that it hides no longer counts. */
  function ChildrenInside(x: Name, v: Expr, p: Place): Children {
    var depth := Deeper(p.depth, x);
    var i := InstOf(x, depth);
    var added := AddChildren(p.children, Occurrences(v), i, depth);
    if x in p.lets then RemoveChildren(added, Occurrences(p.lets[x]), Inst(x, i.n - 1), depth) else added
  }

  function NamesOfInsts(insts: seq<Inst>): (r: seq<Name>)
    ensures |r| == |insts| && forall j :: 0 <= j < |r| ==> r[j] == insts[j].x
  {
    seq(|insts|, j requires 0 <= j < |insts| => insts[j].x)
  }

  /** The dependencies between the names that can be seen. */
  function Visible(children: Children, depth: map<Name, nat>): map<Name, seq<Name>> {
    map i | i in children && i == InstOf(i.x, depth) :: i.x := NamesOfInsts(children[i])
  }

  /** The place inside a let statement, and inside a loop. */
  function InsideLet(x: Name, v: Expr, scope: Scope, p: Place): Place {
    Place(scope, p.lets[x := v], ChildrenInside(x, v, p), Deeper(p.depth, x))
  }

  function InsideLoop(x: Name, i: Interval, p: Place): Place {
    p.(scope := p.scope[x := i], depth := Deeper(p.depth, x))
  }

  datatype Task = Task(x: Name, done: bool)

  ghost function AllChildren(children: map<Name, seq<Name>>): set<Name> {
    set x, y | x in children && y in children[x] :: y
  }

  ghost function Weight(pending: seq<Task>): nat {
    if pending == [] then 0 else (if pending[0].done then 1 else 2) + Weight(pending[1..])
  }

  /** Push the variables not yet visited. */
  function PushNew(vs: seq<Name>, pending: seq<Task>, visited: set<Name>): (seq<Task>, set<Name>) {
    if vs == [] then (pending, visited)
    else if vs[0] in visited then PushNew(vs[1..], pending, visited)
    else PushNew(vs[1..], pending + [Task(vs[0], false)], visited + {vs[0]})
  }

  lemma WeightAppend(a: seq<Task>, b: seq<Task>)
    ensures Weight(a + b) == Weight(a) + Weight(b)
  {
    if a == [] { assert a + b == b; } else {
      assert (a + b)[1..] == a[1..] + b;
      WeightAppend(a[1..], b);
    }
  }

  lemma PushNewShrinks(vs: seq<Name>, pending: seq<Task>, visited: set<Name>, all: set<Name>)
    requires forall v :: v in vs ==> v in all
    ensures var (p, s) := PushNew(vs, pending, visited);
            |p| >= |pending| && 3 * |all - s| + Weight(p) <= 3 * |all - visited| + Weight(pending)
  {
    if vs != [] {
      if vs[0] in visited {
        PushNewShrinks(vs[1..], pending, visited, all);
      } else {
        var v := vs[0];
        assert all - visited == (all - (visited + {v})) + {v};
        WeightAppend(pending, [Task(v, false)]);
        PushNewShrinks(vs[1..], pending + [Task(v, false)], visited + {v}, all);
      }
    }
  }

  /** The traversal with an explicit stack: a task is met once to push its
      children and once more to be put out. It stops when only the root is left. */
  function Dfs(pending: seq<Task>, visited: set<Name>, children: map<Name, seq<Name>>, out: seq<Name>): seq<Name>
    requires pending != []
    decreases 3 * |AllChildren(children) - visited| + Weight(pending)
  {
    var rest, next := pending[..|pending| - 1], pending[|pending| - 1];
    assert pending == rest + [next];
    WeightAppend(rest, [next]);
    if !next.done then
      var kids := ChildrenOf(children, next.x);
      var (pending1, visited1) := PushNew(kids, rest + [Task(next.x, true)], visited);
      WeightAppend(rest, [Task(next.x, true)]);
      PushNewShrinks(kids, rest + [Task(next.x, true)], visited, AllChildren(children));
      if |pending1| > 1 then Dfs(pending1, visited1, children, out) else out
    else if |rest| > 1 then Dfs(rest, visited, children, out + [next.x])
    else out + [next.x]
  }

  /** The lets that depend, directly or not, on `x`. */
  function TrimOrder(x: Name, children: map<Name, seq<Name>>): seq<Name> {
    Dfs([Task(x, false)], {x}, children, [])
  }

  // ----- trimming the scope by a condition -----

  /** The range of `x`, narrowed by a condition that has been solved for it. */
  function Restrict(x: Name, cond: Expr, likely: bool, scope: Scope, t: Tools, k: nat): (r: (Option<Interval>, nat))
    requires x in scope
    ensures r.1 >= k
  {
    var (s, solved) := t.solve(cond, x);
    if !solved || !s.Bin? || !(s.op.LT? || s.op.LE? || s.op.GT? || s.op.GE? || s.op.EQ?)
       || TypeOf(s.b).BoolT? || s.a != Var(x)
    then (None, k)
    else
      var i := scope[x];
      var (b, k1) := BoundsOf(s.b, scope, t.c, k);
      var hi :=
        if !b.HasUpper() || !i.HasUpper() || s.op.GT? || s.op.GE? then i.max
        else Fin(Bin(Min, Tag(likely, i.max.e), if s.op.LT? then Bin(Sub, b.max.e, I(1)) else b.max.e));
      var lo :=
        if !b.HasLower() || !i.HasLower() || s.op.LT? || s.op.LE? then i.min
        else Fin(Bin(Max, Tag(likely, i.min.e), if s.op.GT? then Bin(Add, b.min.e, I(1)) else b.min.e));
      (Some(Interval(lo, hi)), k1)
  }

  function Tag(likely: bool, e: Expr): Expr { if likely then Un(Likely, e) else e }

  /** A variable and the range it is narrowed to. */
  datatype Restriction = Restriction(x: Name, i: Interval)

  function Restrictions(vs: seq<Name>, cond: Expr, likely: bool, scope: Scope, t: Tools,
      k: nat): (r: (seq<Restriction>, nat))
    ensures r.1 >= k && |r.0| <= |vs|
  {
    if vs == [] then ([], k)
    else if vs[0] !in scope then Restrictions(vs[1..], cond, likely, scope, t, k)
    else
      var (i, k1) := Restrict(vs[0], cond, likely, scope, t, k);
      var (rest, k2) := Restrictions(vs[1..], cond, likely, scope, t, k1);
      (if i.Some? then [Restriction(vs[0], i.value)] + rest else rest, k2)
  }

  /** New names for the ends of each dependent let, all different. */
  function NameLets(xs: seq<Name>, k: nat): (r: seq<Ends>)
    ensures |r| == |xs|
  {
    if xs == [] then [] else [NewEnds(xs[0], k + 2 * |xs[1..]|)] + NameLets(xs[1..], k)
  }

  function Pushed(scope: Scope, ns: seq<Ends>): Scope {
    if ns == [] then scope else Pushed(scope, ns[1..])[ns[0].x := EndVars(ns[0])]
  }

  /** An end that is finite in one interval only: the two cannot be combined. */
  predicate Mismatched(i: Interval, j: Interval) { i.max.Fin? != j.max.Fin? || i.min.Fin? != j.min.Fin? }

  /** The intersection of a let's range recomputed in the narrowed scope and its
      range outside. One that cannot be formed defines nothing. */
  function Intersect(i: Interval, outside: Interval, o: Oracle): Interval {
    if Mismatched(i, outside) then EVERYTHING
    else
      Interval(
        if i.min.Fin? then Fin(o.simp(Bin(Max, i.min.e, outside.min.e))) else i.min,
        if i.max.Fin? then Fin(o.simp(Bin(Min, i.max.e, outside.max.e))) else i.max)
  }

  /** Define the ends of a narrowed let. Forming an intersection that cannot be
      formed is an error, made only if some box needs it. */
  function PopLet(st: State, n: Ends, i: Interval, outside: Interval, o: Oracle): State {
    var r := DefineAll(st, n, Intersect(i, outside, o));
    if Mismatched(i, outside) && !AllDefinable(st.boxes, n, EVERYTHING) then r.With(Aborted) else r
  }

  /** Leave the narrowed lets one by one, defining their ends in every box. */
  function PopLets(ns: seq<Ends>, scope: Scope, lets: Lets, t: Tools, st: State): (r: State)
    ensures r.k >= st.k && (r.Ok() ==> st.Ok())
  {
    if ns == [] then st
    else if ns[0].x !in lets || ns[0].x !in scope then st.With(Aborted)  // an internal error in the compiler
    else
      var n := ns[0];
      var (i, k1) := LetValue(lets[n.x], Pushed(scope, ns[1..]), t.c, st.k);
      PopLets(ns[1..], scope, lets, t, PopLet(st.(k := k1), n, i, scope[n.x], t.c.oracle))
  }

  /** The place where a variable has been narrowed. */
  function Narrowed(p: Place, r: Restriction): Place { p.(scope := p.scope[r.x := r.i]) }

  /** The place where the lets of `ns` are known by the names of their ends. */
  function Renamed(p: Place, ns: seq<Ends>): Place { p.(scope := Pushed(p.scope, ns)) }

  /** The lets that depend on a variable, and names for their ends. */
  function Dependents(p: Place, x: Name): seq<Name> { TrimOrder(x, Visible(p.children, p.depth)) }

  function DependentNames(p: Place, x: Name, k: nat): seq<Ends> {
    NameLets(Dependents(p, x), k)
  }

  /** Narrow the variables one after the other, visit, and undo in reverse. */
  function TrimAll(rs: seq<Restriction>, body: Stmt, p: Place, t: Tools, st: State): (r: State)
    ensures r.k >= st.k && (r.Ok() ==> st.Ok())
    decreases body, 1 + |rs|
  {
    if rs == [] then TouchStmt(body, p, t, st)
    else
      var ns := DependentNames(p, rs[0].x, st.k);
      var q := Narrowed(p, rs[0]);
      PopLets(ns, q.scope, p.lets, t,
              TrimAll(rs[1..], body, Renamed(q, ns), t, st.(k := st.k + 2 * |ns|)))
  }

  function TouchCase(c: Expr, cond: Expr, body: Stmt, p: Place, t: Tools, st: State): (r: State)
    ensures r.k >= st.k && (r.Ok() ==> st.Ok())
    decreases body, 2 + |Occurrences(cond)|
  {
    var likely := c.Un? && c.uop.Likely?;
    var (rs, k) := Restrictions(Occurrences(cond), if likely then c.arg else c, likely, p.scope, t, st.k);
    TrimAll(rs, body, p, t, st.(k := k))
  }

  // ----- statements -----

  predicate UsesScope(e: Expr, scope: Scope) { exists x :: x in Names(e) && x in scope }

  /** Boxes that are used only when `c` holds. */
  function OnlyIf(b: Box, c: Expr): Box {
    b.(used := Some(if b.MaybeUnused() then Bin(And, b.used.value, c) else c))
  }

  function BoxOf(boxes: BoxMap, f: string): Box { if f in boxes then boxes[f] else EMPTY_BOX }

  function Fork(c: Expr, thenBoxes: BoxMap, elseBoxes: BoxMap, boxes: BoxMap, o: Oracle): BoxMap {
    map f | f in thenBoxes.Keys + elseBoxes.Keys + boxes.Keys ::
      if f in thenBoxes || f in elseBoxes then
        Merge(BoxOf(boxes, f),
              Merge(OnlyIf(BoxOf(thenBoxes, f), c), OnlyIf(BoxOf(elseBoxes, f), Un(Not, c)), o), o)
      else boxes[f]
  }

  /** The range of a loop variable. An infinite last value cannot be formed. */
  function LoopRange(min: Expr, extent: Expr, scope: Scope, c: Ctx, k: nat): (r: (Option<Interval>, nat))
    ensures r.1 >= k
  {
    var (lo, k1) := BoundsOf(min, scope, c, k);
    var (ext, k2) := BoundsOf(extent, scope, c, k1);
    var (top, k3) := BoundsOf(min, scope, c, k2);
    if ext.max.Fin? && top.max.Fin? then
      (Some(Interval(lo.min, Fin(Bin(Sub, Bin(Add, ext.max.e, top.max.e), I(1))))), k3)
    else (None, k3)
  }

  function TouchStmt(s: Stmt, p: Place, t: Tools, st: State): (r: State)
    ensures r.k >= st.k && (r.Ok() ==> st.Ok())
    decreases s, 0
  {
    match s
    case Block(first, rest) => TouchStmt(rest, p, t, TouchStmt(first, p, t, st))
    case For(x, min, extent, body) =>
      var st1 := if t.mode.calls then TouchExpr(extent, p, t, TouchExpr(min, p, t, st)) else st;
      var (i, k) := LoopRange(min, extent, p.scope, t.c, st1.k);
      if i.None? then st1.With(Aborted)
      else TouchStmt(body, InsideLoop(x, i.value, p), t, st1.(k := k))
    case LetStmt(x, v, body) =>
      var st1 := TouchExpr(v, p, t, st);
      var (val, k1) := LetValue(v, p.scope, t.c, st1.k);
      var (scope, k2) := EnterLet(x, val, p.scope, k1);
      LeaveLet(x, val, k1, TouchStmt(body, InsideLet(x, v, scope, p), t, st1.(k := k2)))
    case IfThenElse(c, then1, else1) =>
      var st1 := TouchExpr(c, p, t, st);
      if UsesScope(c, p.scope) || !IsPure(c) then
        var st2 := TouchCase(t.c.oracle.simp(c), c, then1, p, t, st1);
        if else1.Some? && !IsNoOp(else1.value)
        then TouchCase(t.c.oracle.simp(Un(Not, c)), c, else1.value, p, t, st2)
        else st2
      else
        var a := TouchStmt(then1, p, t, st1.(boxes := map[]));
        var b := if else1.Some? then TouchStmt(else1.value, p, t, a.(boxes := map[])) else a.(boxes := map[]);
        State(Fork(c, a.boxes, b.boxes, st1.boxes, t.c.oracle), b.k, b.status)
    case Provide(f, values, args) =>
      var st1 := if t.mode.stores then AddBox(f, args, None, p, t, st) else st;
      if t.mode.calls then TouchArgs(values, p, t, TouchArgs(args, p, t, st1)) else st1
    case Evaluate(e) => TouchExpr(e, p, t, st)
  }

  function Outermost(scope: Scope): Place { Place(scope, map[], map[], map[]) }

  /** boxes_touched: calls and stores are visited separately and then joined. */
  function BoxesTouched(s: Stmt, scope: Scope, c: Ctx, solve: Solver, fn: string, k: nat): State {
    var p := Outermost(scope);
    var a := TouchStmt(s, p, Tools(c, solve, Mode(true, false, fn)), State(map[], k, Fine));
    var b := TouchStmt(s, p, Tools(c, solve, Mode(false, true, fn)), State(map[], a.k, Fine));
    State(map f | f in a.boxes.Keys + b.boxes.Keys :: Merge(BoxOf(a.boxes, f), BoxOf(b.boxes, f), c.oracle),
          b.k, Worse(a.status, b.status))
  }
}
