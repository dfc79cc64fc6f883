// The boxes found by the visitor are well formed: as many intervals as the
// Func has dimensions, integer ends that mention only names handed out so
// far, and conditions over the program's own names.

module BoxesShape {
  import opened Options
  import opened IR
  import opened Intervals
  import opened BoundsRules
  import opened Bounds
  import opened Boxes
  import opened Stmts
  import opened BoxesTouching
  import opened TrimOrders

  /** The number of dimensions of each Func, and every name the program mentions. */
  datatype Program = Program(arity: string -> nat, names: set<Name>)

  ghost predicate UsedGood(used: Option<Expr>, g: Program) {
    used.Some? ==> HasTy(used.value, BoolT) && IsPure(used.value) && Names(used.value) <= g.names
  }

  ghost predicate BoxGood(b: Box, n: nat, k: nat, g: Program) {
    && (b.bounds == [] || |b.bounds| == n)
    && (forall d :: 0 <= d < |b.bounds| ==> IvGood(b.bounds[d], IntT, k))
    && UsedGood(b.used, g)
  }

  ghost predicate BoxesGood(boxes: BoxMap, k: nat, g: Program) {
    forall f :: f in boxes ==> BoxGood(boxes[f], g.arity(f), k, g)
  }

  ghost predicate LetsGood(lets: map<Name, Expr>, scope: Scope, k: nat, g: Program) {
    forall x :: x in lets ==>
      x in scope && !x.vec && x in g.names && HasTy(lets[x], x.ty) && Below(Names(lets[x]), k)
          && Names(lets[x]) <= g.names
  }

  ghost function AllInsts(children: Children): set<Name> {
    set i, j | i in children && j in children[i] :: j.x
  }

  ghost predicate PlaceGood(p: Place, k: nat, g: Program) {
    ScopeGood(p.scope, k) && LetsGood(p.lets, p.scope, k, g) && AllInsts(p.children) <= p.lets.Keys
  }

  ghost predicate ToolsGood(t: Tools, k: nat, g: Program) {
    SoundOracle(t.c.oracle) && SoundSolver(t.solve) && FuncsGood(t.c.funcBounds, k) && Below(g.names, k)
  }

  /** Everything a visit relies on. */
  ghost predicate Ready(p: Place, t: Tools, st: State, g: Program) {
    ToolsGood(t, st.k, g) && PlaceGood(p, st.k, g) && BoxesGood(st.boxes, st.k, g)
  }

  lemma BoxesLater(boxes: BoxMap, k: nat, k': nat, g: Program)
    requires BoxesGood(boxes, k, g) && k <= k'
    ensures BoxesGood(boxes, k', g)
  {
    hide IvGood;
    forall f, d: nat | f in boxes && d < |boxes[f].bounds| ensures IvGood(boxes[f].bounds[d], IntT, k') {
      IvGoodLater(boxes[f].bounds[d], IntT, k, k');
    }
  }

  lemma PlaceLater(p: Place, k: nat, k': nat, t: Tools, g: Program)
    requires PlaceGood(p, k, g) && ToolsGood(t, k, g) && k <= k'
    ensures PlaceGood(p, k', g) && ToolsGood(t, k', g)
  {
    hide IvGood;
    LaterShape(p.scope, t.c.funcBounds, k, k');
  }

  lemma ReadyLater(p: Place, t: Tools, st: State, st': State, g: Program)
    requires Ready(p, t, st, g) && st.k <= st'.k && BoxesGood(st'.boxes, st'.k, g)
    ensures Ready(p, t, st', g)
  {
    PlaceLater(p, st.k, st'.k, t, g);
  }

  // ----- single steps -----

  lemma MergeEndGood(isMin: bool, a: Box, b: Box, x: Expr, y: Expr, k: nat, g: Program)
    requires UsedGood(a.used, g) && UsedGood(b.used, g) && Below(g.names, k) && Good(x, IntT, k) && Good(y, IntT, k)
    ensures Good(MergeEnd(isMin, a, b, x, y), IntT, k)
  {
    ExtremeShape(isMin, x, y, IntT, k);
    var m := Extreme(isMin, x, y);
    if a.used.Some? {
      var u := a.used.value;
      assert Good(u, BoolT, k);
      assert Good(Select(u, x, y), IntT, k) && Good(Select(u, m, y), IntT, k) by { GoodRules(k); }
      if b.used.Some? {
        var v := b.used.value;
        assert Good(v, BoolT, k);
        assert Good(Select(Bin(And, u, v), m, Select(u, x, y)), IntT, k) by { GoodRules(k); }
      }
    }
    if b.used.Some? {
      assert Good(b.used.value, BoolT, k);
      assert Good(Select(b.used.value, m, x), IntT, k) by { GoodRules(k); }
    }
    hide Good, Extreme;
  }

  lemma SimpGood(e: Expr, ty: Ty, o: Oracle, k: nat)
    requires SoundOracle(o) && Good(e, ty, k)
    ensures Good(o.simp(e), ty, k)
  {
    assert Names(o.simp(e)) <= Names(e);
  }

  lemma MergeDimGood(a: Box, b: Box, i: Interval, j: Interval, o: Oracle, k: nat, g: Program)
    requires SoundOracle(o) && UsedGood(a.used, g) && UsedGood(b.used, g) && Below(g.names, k)
    requires IvGood(i, IntT, k) && IvGood(j, IntT, k)
    ensures IvGood(MergeDim(a, b, i, j, o), IntT, k)
  {
    hide Good, MergeEnd, SoundOracle;
    if i.HasLower() && j.HasLower() {
      MergeEndGood(true, a, b, i.min.e, j.min.e, k, g);
      SimpGood(MergeEnd(true, a, b, i.min.e, j.min.e), IntT, o, k);
    }
    if i.HasUpper() && j.HasUpper() {
      MergeEndGood(false, a, b, i.max.e, j.max.e, k, g);
      SimpGood(MergeEnd(false, a, b, i.max.e, j.max.e), IntT, o, k);
    }
  }

  lemma MergeUsedGood(a: Box, b: Box, o: Oracle, g: Program)
    requires SoundOracle(o) && UsedGood(a.used, g) && UsedGood(b.used, g)
    ensures UsedGood(MergeUsed(a, b, o), g)
  {
    if a.used.Some? && b.used.Some? {
      var e := Bin(Or, a.used.value, b.used.value);
      assert HasTy(e, BoolT) && Names(e) == Names(a.used.value) + Names(b.used.value);
      assert HasTy(o.simp(e), BoolT) && Names(o.simp(e)) <= Names(e);
    }
  }

  lemma MergeGood(a: Box, b: Box, o: Oracle, n: nat, k: nat, g: Program)
    requires SoundOracle(o) && Below(g.names, k) && BoxGood(a, n, k, g) && BoxGood(b, n, k, g)
    ensures BoxGood(Merge(a, b, o), n, k, g)
  {
    hide IvGood, MergeDim, MergeUsed, UsedGood, SoundOracle;
    if !a.IsEmpty() && !b.IsEmpty() {
      forall d | 0 <= d < |a.bounds| ensures IvGood(MergeDim(a, b, a.bounds[d], b.bounds[d], o), IntT, k) {
        MergeDimGood(a, b, a.bounds[d], b.bounds[d], o, k, g);
      }
      MergeUsedGood(a, b, o, g);
    }
  }

  ghost predicate AllGood(ivs: seq<Interval>, k: nat) {
    forall d :: 0 <= d < |ivs| ==> IvGood(ivs[d], IntT, k)
  }

  lemma AllGoodCons(i: Interval, ivs: seq<Interval>, k1: nat, k: nat)
    requires IvGood(i, IntT, k1) && k1 <= k && AllGood(ivs, k)
    ensures AllGood([i] + ivs, k)
  {
    hide IvGood;
    IvGoodLater(i, IntT, k1, k);
  }

  lemma {:induction false} BoundsOfAllShape(args: seq<Expr>, scope: Scope, c: Ctx, k: nat)
    requires TypedArgs(args) && Below(NamesOfAll(args), k) && ScopeGood(scope, k) && FuncsGood(c.funcBounds, k)
    ensures AllGood(BoundsOfAll(args, scope, c, k).0, BoundsOfAll(args, scope, c, k).1)
  {
    if args != [] {
      hide BoundsOf, IvGood, AllGood;
      var (i, k1) := BoundsOf(args[0], scope, c, k);
      BoundsShape(args[0], IntT, scope, c, k);
      LaterShape(scope, c.funcBounds, k, k1);
      BoundsOfAllShape(args[1..], scope, c, k1);
      var (rest, k2) := BoundsOfAll(args[1..], scope, c, k1);
      AllGoodCons(i, rest, k1, k2);
    } else {
      assert BoundsOfAll(args, scope, c, k).0 == [];
    }
  }

  lemma AddBoxShape(f: string, args: seq<Expr>, used: Option<Expr>, p: Place, t: Tools, st: State, g: Program)
    requires Ready(p, t, st, g) && TypedArgs(args) && Below(NamesOfAll(args), st.k) && |args| == g.arity(f)
    requires UsedGood(used, g)
    ensures var r := AddBox(f, args, used, p, t, st); Ready(p, t, r, g)
  {
    if t.mode.Wants(f) {
      hide IvGood, PlaceGood, ToolsGood, BoxesGood, MergeInto, UsedGood, BoundsOfAll;
      var (bounds, k) := BoundsOfAll(args, p.scope, t.c, st.k);
      AddedBoxGood(f, args, used, p, t, st, g);
      BoxesLater(st.boxes, st.k, k, g);
      PlaceLater(p, st.k, k, t, g);
      MergeIntoGood(st.boxes, f, Box(bounds, used), t.c.oracle, k, t, g);
    }
  }

  lemma AddedBoxGood(f: string, args: seq<Expr>, used: Option<Expr>, p: Place, t: Tools, st: State, g: Program)
    requires Ready(p, t, st, g) && TypedArgs(args) && Below(NamesOfAll(args), st.k) && |args| == g.arity(f)
    requires UsedGood(used, g)
    ensures var (bounds, k) := BoundsOfAll(args, p.scope, t.c, st.k); BoxGood(Box(bounds, used), g.arity(f), k, g)
  {
    hide IvGood, UsedGood, BoundsOfAll;
    BoundsOfAllShape(args, p.scope, t.c, st.k);
  }

  lemma MergeIntoGood(boxes: BoxMap, f: string, b: Box, o: Oracle, k: nat, t: Tools, g: Program)
    requires ToolsGood(t, k, g) && o == t.c.oracle && BoxesGood(boxes, k, g) && BoxGood(b, g.arity(f), k, g)
    ensures BoxesGood(MergeInto(boxes, f, b, o), k, g)
  {
    hide Merge, UsedGood, IvGood, SoundOracle;
    NoneGood(g);
    MergeGood(BoxOf(boxes, f), b, o, g.arity(f), k, g);
  }

  lemma NoneGood(g: Program)
    ensures UsedGood(None, g)
  {}

  lemma DefineEndGood(e: Expr, n: Ends, val: Interval, k: nat)
    requires Good(e, IntT, k) && IvGood(val, n.x.ty, k) && EndsGood(n, k)
    ensures DefineEnd(e, n, val).Some? ==> Good(DefineEnd(e, n, val).value, IntT, k)
  {
    hide Good;
    GoodRules(k);
  }

  /** New names of the right type, numbered before `k`. */
  ghost predicate EndsGood(n: Ends, k: nat) {
    && n.mx.ty == n.x.ty && n.mn.ty == n.x.ty && n.mx.serial < k && n.mn.serial < k
    && n.mx != n.mn && !n.mx.vec && !n.mn.vec
  }

  lemma DefineIntervalGood(i: Interval, n: Ends, val: Interval, k: nat)
    requires IvGood(i, IntT, k) && IvGood(val, n.x.ty, k) && EndsGood(n, k)
    ensures DefineInterval(i, n, val).Some? ==> IvGood(DefineInterval(i, n, val).value, IntT, k)
  {
    hide Good, DefineEnd;
    if i.min.Fin? { DefineEndGood(i.min.e, n, val, k); }
    if i.max.Fin? { DefineEndGood(i.max.e, n, val, k); }
  }

  lemma DefineAllShape(st: State, n: Ends, val: Interval, g: Program)
    requires BoxesGood(st.boxes, st.k, g) && IvGood(val, n.x.ty, st.k) && EndsGood(n, st.k)
    ensures BoxesGood(DefineAll(st, n, val).boxes, st.k, g)
  {
    hide IvGood, DefineInterval, UsedGood;
    if DefineAll(st, n, val).Ok() || (forall f :: f in st.boxes ==> Definable(st.boxes[f], n, val)) {
      forall f, d: nat | f in st.boxes && d < |st.boxes[f].bounds|
          && DefineInterval(st.boxes[f].bounds[d], n, val).Some?
        ensures IvGood(DefineInterval(st.boxes[f].bounds[d], n, val).value, IntT, st.k)
      {
        DefineIntervalGood(st.boxes[f].bounds[d], n, val, st.k);
      }
    }
  }

  lemma SimplifyGood(i: Interval, ty: Ty, o: Oracle, k: nat)
    requires SoundOracle(o) && IvGood(i, ty, k)
    ensures IvGood(SimplifyInterval(i, o), ty, k)
  {
    hide Good, SoundOracle;
    if i.min.Fin? { SimpGood(i.min.e, ty, o, k); }
    if i.max.Fin? { SimpGood(i.max.e, ty, o, k); }
  }

  lemma LetValueShape(v: Expr, ty: Ty, scope: Scope, c: Ctx, k: nat)
    requires SoundOracle(c.oracle) && HasTy(v, ty) && Below(Names(v), k) && ScopeGood(scope, k)
        && FuncsGood(c.funcBounds, k)
    ensures var (i, k') := LetValue(v, scope, c, k); IvGood(i, ty, k')
  {
    hide IvGood, BoundsOf, SimplifyInterval;
    var (i, k') := BoundsOf(v, scope, c, k);
    BoundsShape(v, ty, scope, c, k);
    SimplifyGood(i, ty, c.oracle, k');
  }

  lemma EnterLetShape(x: Name, val: Interval, scope: Scope, k: nat)
    requires IvGood(val, x.ty, k) && ScopeGood(scope, k)
    ensures var (s, k') := EnterLet(x, val, scope, k);
            ScopeGood(s, k') && IvGood(val, x.ty, k') && s.Keys == scope.Keys + {x} && EndsGood(NewEnds(x, k), k + 2)
  {
    hide Good;
    var k' := EnterLet(x, val, scope, k).1;
    GoodRules(k');
    LaterShape(scope, map[], k, k');
    IvGoodLater(val, x.ty, k, k');
  }

  // ----- expressions -----

  lemma {:induction false} TouchExprShape(e: Expr, ty: Ty, p: Place, t: Tools, st: State, g: Program)
    requires HasTy(e, ty) && ExprOk(e, g.arity) && Below(Names(e), st.k) && Ready(p, t, st, g)
    ensures Ready(p, t, TouchExpr(e, p, t, st), g)
    decreases e, 1
  {
    match e
    case Const(_, _) =>
    case Var(_) =>
    case Un(op, a) =>
      TouchExprShape(a, if op.Not? then BoolT else ty, p, t, st, g);
    case Bin(op, a, b) =>
      OperandTypes(op, a, b, ty);
      hide Ready, HasTy;
      TouchExprShape(a, TypeOf(a), p, t, st, g);
      TouchExprShape(b, TypeOf(b), p, t, TouchExpr(a, p, t, st), g);
    case Select(c, x, y) =>
      hide Ready;
      var st1 := TouchExpr(c, p, t, st);
      TouchExprShape(c, BoolT, p, t, st, g);
      TouchExprShape(x, ty, p, t, st1, g);
      TouchExprShape(y, ty, p, t, TouchExpr(x, p, t, st1), g);
    case Ramp(b, s, _) =>
      hide Ready;
      TouchExprShape(b, IntT, p, t, st, g);
      TouchExprShape(s, IntT, p, t, TouchExpr(b, p, t, st), g);
    case Let(x, v, b) =>
      hide Ready;
      TouchLetShape(x, v, b, ty, p, t, st, g);
    case Call(ct, f, _, args) =>
      if t.mode.calls {
        hide Ready, AddBox;
        TouchArgsShape(args, p, t, st, g);
        if ct.FuncCall? {
          TrueGood(g);
          AddBoxShape(f, args, Some(Const(1, BoolT)), p, t, TouchArgs(args, p, t, st), g);
        }
      }
  }

  lemma TrueGood(g: Program)
    ensures UsedGood(Some(Const(1, BoolT)), g)
  {}

  lemma TouchArgsShape(args: seq<Expr>, p: Place, t: Tools, st: State, g: Program)
    requires TypedArgs(args) && ArgsOk(args, g.arity) && Below(NamesOfAll(args), st.k) && Ready(p, t, st, g)
    ensures Ready(p, t, TouchArgs(args, p, t, st), g)
    decreases args, 0
  {
    if args != [] {
      hide Ready;
      TouchExprShape(args[0], IntT, p, t, st, g);
      TouchArgsShape(args[1..], p, t, TouchExpr(args[0], p, t, st), g);
    }
  }

  /** Entering a let: the place inside is good. */
  lemma InsideLetShape(x: Name, v: Expr, p: Place, t: Tools, st: State, g: Program)
    requires HasTy(v, x.ty) && Below(Names(v), st.k) && Ready(p, t, st, g)
    ensures
      var (val, k1) := LetValue(v, p.scope, t.c, st.k);
      var (scope, k2) := EnterLet(x, val, p.scope, k1);
      Ready(p.(scope := scope), t, st.(k := k2), g) && IvGood(val, x.ty, k2) && EndsGood(NewEnds(x, k1), k1 + 2)
  {
    hide LetValue, IvGood, EnterLet;
    var (val, k1) := LetValue(v, p.scope, t.c, st.k);
    LetValueShape(v, x.ty, p.scope, t.c, st.k);
    PlaceLater(p, st.k, k1, t, g);
    EnterLetShape(x, val, p.scope, k1);
    var (scope, k2) := EnterLet(x, val, p.scope, k1);
    PlaceLater(p, st.k, k2, t, g);
    BoxesLater(st.boxes, st.k, k2, g);
  }

  lemma LeaveLetShape(x: Name, val: Interval, k: nat, st: State, g: Program)
    requires BoxesGood(st.boxes, st.k, g) && IvGood(val, x.ty, st.k) && EndsGood(NewEnds(x, k), k + 2)
    requires !IsSmallInterval(val) ==> k + 2 <= st.k
    ensures BoxesGood(LeaveLet(x, val, k, st).boxes, st.k, g) && LeaveLet(x, val, k, st).k == st.k
  {
    hide IvGood, BoxesGood, DefineAll, IsSmallInterval;
    if !IsSmallInterval(val) {
      DefineAllShape(st, NewEnds(x, k), val, g);
      DefineAllK(st, NewEnds(x, k), val);
    }
  }

  lemma DefineAllK(st: State, n: Ends, val: Interval)
    ensures DefineAll(st, n, val).k == st.k
  {}

  lemma TouchLetShape(x: Name, v: Expr, body: Expr, ty: Ty, p: Place, t: Tools, st: State, g: Program)
    requires HasTy(v, x.ty) && HasTy(body, ty) && ExprOk(v, g.arity) && ExprOk(body, g.arity)
    requires Below(Names(v), st.k) && Below(Names(body), st.k) && Ready(p, t, st, g)
    ensures Ready(p, t, TouchLet(x, v, body, p, t, st), g)
    decreases Let(x, v, body), 0
  {
    hide LetValue, EnterLet, LeaveLet, IvGood, HasTy, Names, TouchExpr, PlaceGood, ToolsGood;
    var st1 := TouchExpr(v, p, t, st);
    TouchExprShape(v, x.ty, p, t, st, g);
    InsideLetShape(x, v, p, t, st1, g);
    var (val, k1) := LetValue(v, p.scope, t.c, st1.k);
    var (scope, k2) := EnterLet(x, val, p.scope, k1);
    var st2 := st1.(k := k2);
    TouchExprShape(body, ty, p.(scope := scope), t, st2, g);
    var st3 := TouchExpr(body, p.(scope := scope), t, st2);
    IvGoodLater(val, x.ty, k2, st3.k);
    EnterLetNext(x, val, p.scope, k1);
    LeaveLetShape(x, val, k1, st3, g);
    ReadyLater(p, t, st, LeaveLet(x, val, k1, st3), g);
  }

  lemma EnterLetNext(x: Name, val: Interval, scope: Scope, k: nat)
    ensures !IsSmallInterval(val) ==> EnterLet(x, val, scope, k).1 == k + 2
  {}

  // ----- the lets recorded for each variable -----

  lemma {:induction false} AddChildrenMeaning(children: Children, vs: seq<Name>, i: Inst, depth: map<Name, nat>)
    ensures AllInsts(AddChildren(children, vs, i, depth)) <= AllInsts(children) + {i.x}
    decreases |vs|
  {
    if vs != [] {
      var v := InstOf(vs[0], depth);
      var known := ChildrenOf(children, v);
      var children1 := if vs[0] == i.x || i in known then children else children[v := known + [i]];
      AddChildrenMeaning(children1, vs[1..], i, depth);
      assert AllInsts(children1) <= AllInsts(children) + {i.x};
    }
  }

  lemma {:induction false} WithoutElems(xs: seq<Inst>, x: Inst)
    ensures forall y :: y in Without(xs, x) ==> y in xs
  {
    if xs != [] { WithoutElems(xs[1..], x); }
  }

  lemma {:induction false} RemoveChildrenMeaning(children: Children, vs: seq<Name>, i: Inst, depth: map<Name, nat>)
    ensures AllInsts(RemoveChildren(children, vs, i, depth)) <= AllInsts(children)
    decreases |vs|
  {
    if vs != [] {
      var v := InstOf(vs[0], depth);
      if vs[0] != i.x && v in children {
        WithoutElems(children[v], i);
        var children1 := children[v := Without(children[v], i)];
        assert AllInsts(children1) <= AllInsts(children);
        RemoveChildrenMeaning(children1, vs[1..], i, depth);
      } else {
        RemoveChildrenMeaning(children, vs[1..], i, depth);
      }
    }
  }

  lemma ChildrenInsideMeaning(x: Name, v: Expr, p: Place)
    ensures AllInsts(ChildrenInside(x, v, p)) <= AllInsts(p.children) + {x}
  {
    hide AllInsts;
    var depth := Deeper(p.depth, x);
    var i := InstOf(x, depth);
    AddChildrenMeaning(p.children, Occurrences(v), i, depth);
    if x in p.lets {
      RemoveChildrenMeaning(AddChildren(p.children, Occurrences(v), i, depth),
          Occurrences(p.lets[x]), Inst(x, i.n - 1), depth);
    }
  }

  lemma VisibleMeaning(children: Children, depth: map<Name, nat>)
    ensures AllChildren(Visible(children, depth)) <= AllInsts(children)
  {
    var c := Visible(children, depth);
    forall x, y | x in c && y in c[x] ensures y in AllInsts(children) {
      var i := InstOf(x, depth);
      var j :| 0 <= j < |c[x]| && c[x][j] == y;
      assert children[i][j] in children[i];
    }
  }

  // ----- trimming -----

  /** A narrowed range that is well formed, of a scalar in scope. */
  ghost predicate RestrictionGood(r: Restriction, scope: Scope, k: nat) {
    r.x in scope && IvGood(r.i, r.x.ty, k) && !r.x.vec
  }

  ghost predicate RestrictionsGood(rs: seq<Restriction>, scope: Scope, k: nat) {
    forall i :: 0 <= i < |rs| ==> RestrictionGood(rs[i], scope, k)
  }

  lemma SolvedTypes(x: Name, cond: Expr, t: Tools, g: Program)
    requires SoundSolver(t.solve) && HasTy(cond, BoolT) && Names(cond) <= g.names
    ensures var s := t.solve(cond, x).0;
            s.Bin? && !TypeOf(s.b).BoolT? && IsCompare(s.op) ==>
              HasTy(s.a, IntT) && HasTy(s.b, IntT) && Names(s.b) <= g.names
  {
    var s := t.solve(cond, x).0;
    assert HasTy(s, BoolT) && Names(s) <= Names(cond);
    if s.Bin? { OperandTypes(s.op, s.a, s.b, BoolT); }
  }

  lemma RestrictShape(x: Name, cond: Expr, likely: bool, p: Place, t: Tools, k: nat, g: Program)
    requires x in p.scope && HasTy(cond, BoolT) && Names(cond) <= g.names
    requires ToolsGood(t, k, g) && PlaceGood(p, k, g)
    ensures var (i, k') := Restrict(x, cond, likely, p.scope, t, k); i.Some? ==> IvGood(i.value, x.ty, k')
  {
    SolvedTypes(x, cond, t, g);
    var s := t.solve(cond, x).0;
    if Restrict(x, cond, likely, p.scope, t, k).0.Some? {
      hide BoundsOf;
      var (b, k1) := BoundsOf(s.b, p.scope, t.c, k);
      BoundsShape(s.b, IntT, p.scope, t.c, k);
      assert IvGood(p.scope[x], x.ty, k);
      IvGoodLater(p.scope[x], x.ty, k, k1);
      RestrictedGood(p.scope[x], b, s.op, likely, x.ty, k1);
      assert x.ty == IntT by { VarTyped(x, s.a); }
    }
  }

  lemma VarTyped(x: Name, e: Expr)
    requires e == Var(x) && HasTy(e, IntT)
    ensures x.ty == IntT
  {}

  /** The two ends of a narrowed range are built from good ends. */
  lemma RestrictedGood(i: Interval, b: Interval, op: BinOp, likely: bool, ty: Ty, k: nat)
    requires IvGood(i, ty, k) && IvGood(b, IntT, k) && ty.IntT?
    ensures i.HasUpper() && b.HasUpper() ==>
      Good(Bin(Min, Tag(likely, i.max.e), Bin(Sub, b.max.e, I(1))), ty, k)
          && Good(Bin(Min, Tag(likely, i.max.e), b.max.e), ty, k)
    ensures i.HasLower() && b.HasLower() ==>
      Good(Bin(Max, Tag(likely, i.min.e), Bin(Add, b.min.e, I(1))), ty, k)
          && Good(Bin(Max, Tag(likely, i.min.e), b.min.e), ty, k)
  {
    hide Good, Tag;
    if i.max.Fin? { TagGood(likely, i.max.e, ty, k); }
    if i.min.Fin? { TagGood(likely, i.min.e, ty, k); }
    GoodRules(k);
  }

  lemma TagGood(likely: bool, e: Expr, ty: Ty, k: nat)
    requires Good(e, ty, k)
    ensures Good(Tag(likely, e), ty, k)
  {}

  lemma {:induction false} RestrictionsShape(vs: seq<Name>, cond: Expr, likely: bool, p: Place,
      t: Tools, k: nat, g: Program)
    requires HasTy(cond, BoolT) && Names(cond) <= g.names
    requires forall v :: v in vs ==> !v.vec
    requires ToolsGood(t, k, g) && PlaceGood(p, k, g)
    ensures var (rs, k') := Restrictions(vs, cond, likely, p.scope, t, k); RestrictionsGood(rs, p.scope, k')
    decreases vs
  {
    if vs != [] {
      hide Restrict, IvGood, PlaceGood, ToolsGood;
      if vs[0] !in p.scope {
        RestrictionsShape(vs[1..], cond, likely, p, t, k, g);
      } else {
        var (i, k1) := Restrict(vs[0], cond, likely, p.scope, t, k);
        RestrictShape(vs[0], cond, likely, p, t, k, g);
        PlaceLater(p, k, k1, t, g);
        RestrictionsShape(vs[1..], cond, likely, p, t, k1, g);
        var k2 := Restrictions(vs[1..], cond, likely, p.scope, t, k1).1;
        if i.Some? { IvGoodLater(i.value, vs[0].ty, k1, k2); }
      }
    }
  }

  /** New names for lets: one for each, good, numbered from `k`, all different. */
  ghost predicate NamesGood(ns: seq<Ends>, xs: seq<Name>, k: nat) {
    && |ns| == |xs|
    && forall i :: 0 <= i < |ns| ==> ns[i].x == xs[i] && ns[i] == NewEnds(xs[i], k + 2 * (|xs| - 1 - i))
  }

  lemma {:induction false} NameLetsMeaning(xs: seq<Name>, k: nat)
    ensures NamesGood(NameLets(xs, k), xs, k)
  {
    if xs != [] { NameLetsMeaning(xs[1..], k); }
  }

  lemma NamesGoodTail(ns: seq<Ends>, xs: seq<Name>, k: nat)
    requires ns != [] && NamesGood(ns, xs, k)
    ensures |xs| == |ns| && ns[0].x == xs[0] && NamesGood(ns[1..], xs[1..], k)
    ensures Elems(xs) == {xs[0]} + Elems(xs[1..])
  {}

  lemma NamesGoodSerial(ns: seq<Ends>, xs: seq<Name>, k: nat)
    requires ns != [] && NamesGood(ns, xs, k)
    ensures k <= ns[0].mn.serial && k <= ns[0].mx.serial
  {}

  lemma {:induction false} PushedKeys(scope: Scope, ns: seq<Ends>, xs: seq<Name>, k: nat)
    requires NamesGood(ns, xs, k)
    ensures Pushed(scope, ns).Keys == scope.Keys + Elems(xs)
  {
    if ns != [] {
      assert NamesGood(ns[1..], xs[1..], k);
      PushedKeys(scope, ns[1..], xs[1..], k);
      assert Elems(xs) == {xs[0]} + Elems(xs[1..]);
    } else {
      assert Elems(xs) == {};
    }
  }

  lemma {:induction false} PushedShape(scope: Scope, ns: seq<Ends>, xs: seq<Name>, k: nat)
    requires NamesGood(ns, xs, k) && ScopeGood(scope, k)
    ensures ScopeGood(Pushed(scope, ns), k + 2 * |xs|)
  {
    hide IvGood, EndVars;
    if ns != [] {
      assert NamesGood(ns[1..], xs[1..], k);
      PushedShape(scope, ns[1..], xs[1..], k);
      var k' := k + 2 * |xs|;
      ScopeLater(Pushed(scope, ns[1..]), k' - 2, k');
      EndVarsGood(ns[0], k');
    }
  }

  lemma ScopeLater(scope: Scope, k: nat, k': nat)
    requires ScopeGood(scope, k) && k <= k'
    ensures ScopeGood(scope, k')
  {
    LaterShape(scope, map[], k, k');
  }

  lemma EndVarsGood(n: Ends, k: nat)
    requires EndsGood(n, k)
    ensures IvGood(EndVars(n), n.x.ty, k)
  {
    hide Good;
    GoodRules(k);
  }

  lemma IntersectGood(i: Interval, j: Interval, ty: Ty, o: Oracle, k: nat)
    requires SoundOracle(o) && IvGood(i, ty, k) && IvGood(j, ty, k)
    ensures IvGood(Intersect(i, j, o), ty, k)
  {
    hide Good, SoundOracle;
    GoodRules(k);
    if i.min.Fin? && j.min.Fin? { SimpGood(Bin(Max, i.min.e, j.min.e), ty, o, k); }
    if i.max.Fin? && j.max.Fin? { SimpGood(Bin(Min, i.max.e, j.max.e), ty, o, k); }
  }

  /** The range recomputed for a let that is being left, and its counter. */
  function Recomputed(n: Ends, rest: seq<Ends>, scope: Scope, lets: map<Name, Expr>, t: Tools, k: nat): (Interval, nat)
    requires n.x in lets && n.x in scope
  {
    var (i, k1) := LetValue(lets[n.x], Pushed(scope, rest), t.c, k);
    (Intersect(i, scope[n.x], t.c.oracle), k1)
  }

  lemma RecomputedShape(n: Ends, rest: seq<Ends>, xs: seq<Name>, p: Place, t: Tools, k0: nat, k: nat, g: Program)
    requires NamesGood(rest, xs, k0) && PlaceGood(p, k0, g) && ToolsGood(t, k0, g) && k0 + 2 * |xs| <= k
    requires n.x in p.lets
    ensures var (i, k1) := Recomputed(n, rest, p.scope, p.lets, t, k); IvGood(i, n.x.ty, k1) && k1 >= k
  {
    hide IvGood, LetValue, Intersect;
    PushedShape(p.scope, rest, xs, k0);
    ScopeLater(Pushed(p.scope, rest), k0 + 2 * |xs|, k);
    PlaceLater(p, k0, k, t, g);
    LetValueShape(p.lets[n.x], n.x.ty, Pushed(p.scope, rest), t.c, k);
    var (i, k1) := LetValue(p.lets[n.x], Pushed(p.scope, rest), t.c, k);
    IvGoodLater(p.scope[n.x], n.x.ty, k, k1);
    IntersectGood(i, p.scope[n.x], n.x.ty, t.c.oracle, k1);
  }

  /** The state once one narrowed let has been left. */
  function Popped(n: Ends, rest: seq<Ends>, scope: Scope, lets: Lets, t: Tools, st: State): State
    requires n.x in lets && n.x in scope
  {
    var (i, k1) := LetValue(lets[n.x], Pushed(scope, rest), t.c, st.k);
    PopLet(st.(k := k1), n, i, scope[n.x], t.c.oracle)
  }

  lemma PopLetsStep(ns: seq<Ends>, scope: Scope, lets: Lets, t: Tools, st: State)
    requires ns != [] && ns[0].x in lets && ns[0].x in scope
    ensures
      var (i, k1) := Recomputed(ns[0], ns[1..], scope, lets, t, st.k);
      var r, d := Popped(ns[0], ns[1..], scope, lets, t, st), DefineAll(st.(k := k1), ns[0], i);
      && PopLets(ns, scope, lets, t, st) == PopLets(ns[1..], scope, lets, t, r)
      && r.boxes == d.boxes && r.k == d.k && (r.Ok() ==> r == d)
      && (PopLets(ns, scope, lets, t, st).Ok() ==> r == d && r.Ok())
  {
    hide DefineAll, LetValue, Intersect, AllDefinable;
  }

  /** Leaving narrowed lets keeps the boxes good. `p` is the place with the
      narrowed variable but before its dependent lets were renamed. */
  lemma {:induction false} PopLetsShape(ns: seq<Ends>, xs: seq<Name>, p: Place, t: Tools,
      st: State, k0: nat, g: Program)
    requires NamesGood(ns, xs, k0) && PlaceGood(p, k0, g) && ToolsGood(t, k0, g) && k0 + 2 * |xs| <= st.k
    requires BoxesGood(st.boxes, st.k, g)
    ensures var r := PopLets(ns, p.scope, p.lets, t, st); BoxesGood(r.boxes, r.k, g)
  {
    if ns != [] && ns[0].x in p.lets && ns[0].x in p.scope {
      hide IvGood, BoxesGood, DefineAll, PlaceGood, ToolsGood, Recomputed, PopLets, Popped;
      PopLetsStep(ns, p.scope, p.lets, t, st);
      var n := ns[0];
      assert NamesGood(ns[1..], xs[1..], k0);
      RecomputedShape(n, ns[1..], xs[1..], p, t, k0, st.k, g);
      var (i, k1) := Recomputed(n, ns[1..], p.scope, p.lets, t, st.k);
      BoxesLater(st.boxes, st.k, k1, g);
      DefineAllShape(st.(k := k1), n, i, g);
      DefineAllK(st.(k := k1), n, i);
      PopLetsShape(ns[1..], xs[1..], p, t, Popped(n, ns[1..], p.scope, p.lets, t, st), k0, g);
    } else if ns == [] {
      assert PopLets(ns, p.scope, p.lets, t, st) == st;
    }
  }

  // ----- statements -----

  ghost predicate ScalarNames(e: Expr) { forall x :: x in Names(e) ==> !x.vec }

  lemma OnlyIfGood(b: Box, c: Expr, n: nat, k: nat, g: Program)
    requires BoxGood(b, n, k, g) && HasTy(c, BoolT) && IsPure(c) && Names(c) <= g.names
    ensures BoxGood(OnlyIf(b, c), n, k, g)
  {
    hide IvGood;
    if b.MaybeUnused() {
      var e := Bin(And, b.used.value, c);
      assert HasTy(e, BoolT) && IsPure(e) && Names(e) == Names(b.used.value) + Names(c);
    }
  }

  lemma ForkGood(c: Expr, a: BoxMap, b: BoxMap, boxes: BoxMap, o: Oracle, k: nat, g: Program)
    requires SoundOracle(o) && Below(g.names, k) && HasTy(c, BoolT) && IsPure(c) && Names(c) <= g.names
    requires BoxesGood(a, k, g) && BoxesGood(b, k, g) && BoxesGood(boxes, k, g)
    ensures BoxesGood(Fork(c, a, b, boxes, o), k, g)
  {
    NoneGood(g);
    assert HasTy(Un(Not, c), BoolT) && IsPure(Un(Not, c)) && Names(Un(Not, c)) == Names(c);
    hide IvGood, Merge, OnlyIf, UsedGood, SoundOracle, HasTy, Names;
    forall f | f in Fork(c, a, b, boxes, o) ensures BoxGood(Fork(c, a, b, boxes, o)[f], g.arity(f), k, g) {
      OnlyIfGood(BoxOf(a, f), c, g.arity(f), k, g);
      OnlyIfGood(BoxOf(b, f), Un(Not, c), g.arity(f), k, g);
      MergeGood(OnlyIf(BoxOf(a, f), c), OnlyIf(BoxOf(b, f), Un(Not, c)), o, g.arity(f), k, g);
      MergeGood(BoxOf(boxes, f), Merge(OnlyIf(BoxOf(a, f), c), OnlyIf(BoxOf(b, f), Un(Not, c)), o),
          o, g.arity(f), k, g);
    }
  }

  lemma LoopRangeShape(min: Expr, extent: Expr, scope: Scope, c: Ctx, k: nat)
    requires HasTy(min, IntT) && HasTy(extent, IntT) && Below(Names(min), k) && Below(Names(extent), k)
    requires ScopeGood(scope, k) && FuncsGood(c.funcBounds, k)
    ensures var (i, k') := LoopRange(min, extent, scope, c, k); i.Some? ==> IvGood(i.value, IntT, k')
  {
    hide BoundsOf, Good, HasTy, Names;
    var (lo, k1) := BoundsOf(min, scope, c, k);
    var (ext, k2) := BoundsOf(extent, scope, c, k1);
    var (top, k3) := BoundsOf(min, scope, c, k2);
    BoundsShape(min, IntT, scope, c, k);
    LaterShape(scope, c.funcBounds, k, k1);
    BoundsShape(extent, IntT, scope, c, k1);
    LaterShape(scope, c.funcBounds, k1, k2);
    BoundsShape(min, IntT, scope, c, k2);
    IvGoodLater(lo, IntT, k1, k3);
    IvGoodLater(ext, IntT, k2, k3);
    GoodRules(k3);
  }

  /** Statements over the program's names, with scalar conditions. */
  ghost predicate StmtIn(s: Stmt, g: Program) {
    match s
    case Block(first, rest) => StmtIn(first, g) && StmtIn(rest, g)
    case For(x, min, extent, body) => x in g.names && Names(min) <= g.names
        && Names(extent) <= g.names && StmtIn(body, g)
    case LetStmt(x, v, body) => x in g.names && Names(v) <= g.names && StmtIn(body, g)
    case IfThenElse(c, a, b) =>
      Names(c) <= g.names && ScalarNames(c) && StmtIn(a, g) && (b.Some? ==> StmtIn(b.value, g))
    case Provide(_, values, args) => NamesOfAll(values) <= g.names && NamesOfAll(args) <= g.names
    case Evaluate(e) => Names(e) <= g.names
  }

  lemma {:induction false} TouchStmtShape(s: Stmt, p: Place, t: Tools, st: State, g: Program, seen: Lets)
    requires StmtOk(s, g.arity, seen) && StmtIn(s, g) && Ready(p, t, st, g)
    ensures Ready(p, t, TouchStmt(s, p, t, st), g)
    decreases s, 1
  {
    match s
    case Block(first, rest) =>
      hide Ready;
      TouchStmtShape(first, p, t, st, g, seen);
      TouchStmtShape(rest, p, t, TouchStmt(first, p, t, st), g, seen);
    case For(x, min, extent, body) => TouchForShape(x, min, extent, body, p, t, st, g, seen);
    case LetStmt(x, v, body) => TouchLetStmtShape(x, v, body, p, t, st, g, seen);
    case IfThenElse(c, a, b) => TouchIfShape(c, a, b, p, t, st, g, seen);
    case Provide(f, values, args) =>
      NoneGood(g);
      var st1 := if t.mode.stores then AddBox(f, args, None, p, t, st) else st;
      AddBoxShape(f, args, None, p, t, st, g);
      hide AddBox;
      if t.mode.calls {
        TouchArgsShape(args, p, t, st1, g);
        TouchArgsShape(values, p, t, TouchArgs(args, p, t, st1), g);
      }
    case Evaluate(e) =>
      var ty :| HasTy(e, ty);
      TouchExprShape(e, ty, p, t, st, g);
  }

  /** Names of the program are numbered before everything handed out. */
  lemma ProgramNames(s: set<Name>, p: Place, t: Tools, st: State, g: Program)
    requires Ready(p, t, st, g) && s <= g.names
    ensures forall k :: k >= st.k ==> Below(s, k)
  {
    hide PlaceGood, BoxesGood, SoundOracle, SoundSolver, FuncsGood;
  }

  /** After the calls in a loop's range. */
  function HeadState(min: Expr, extent: Expr, p: Place, t: Tools, st: State): (r: State)
    ensures r.k >= st.k && (r.Ok() ==> st.Ok())
  {
    if t.mode.calls then TouchExpr(extent, p, t, TouchExpr(min, p, t, st)) else st
  }

  ghost predicate HeadOk(min: Expr, extent: Expr, g: Program) {
    HasTy(min, IntT) && HasTy(extent, IntT) && ExprOk(min, g.arity) && ExprOk(extent, g.arity)
    && Names(min) <= g.names && Names(extent) <= g.names
  }

  lemma HeadShape(min: Expr, extent: Expr, p: Place, t: Tools, st: State, g: Program)
    requires HeadOk(min, extent, g) && Ready(p, t, st, g)
    ensures Ready(p, t, HeadState(min, extent, p, t, st), g)
  {
    hide Ready, TouchExpr, ExprOk, HasTy;
    if t.mode.calls {
      ProgramNames(Names(min), p, t, st, g);
      ProgramNames(Names(extent), p, t, st, g);
      TouchExprShape(min, IntT, p, t, st, g);
      TouchExprShape(extent, IntT, p, t, TouchExpr(min, p, t, st), g);
    }
  }

  /** Entering a loop keeps everything ready. */
  lemma LoopShape(x: Name, min: Expr, extent: Expr, p: Place, t: Tools, st: State, g: Program)
    requires HeadOk(min, extent, g) && x.ty.IntT? && Ready(p, t, st, g)
    ensures var (i, k) := LoopRange(min, extent, p.scope, t.c, st.k);
            i.Some? ==> Ready(InsideLoop(x, i.value, p), t, st.(k := k), g)
  {
    hide LoopRange, IvGood, Names, HasTy, SoundOracle, SoundSolver, BoxesGood, ExprOk;
    ProgramNames(Names(min), p, t, st, g);
    ProgramNames(Names(extent), p, t, st, g);
    LoopRangeShape(min, extent, p.scope, t.c, st.k);
    var (i, k) := LoopRange(min, extent, p.scope, t.c, st.k);
    PlaceLater(p, st.k, k, t, g);
    BoxesLater(st.boxes, st.k, k, g);
  }

  lemma TouchForIs(x: Name, min: Expr, extent: Expr, body: Stmt, p: Place, t: Tools, st: State)
    ensures
      var st1 := HeadState(min, extent, p, t, st);
      var (i, k) := LoopRange(min, extent, p.scope, t.c, st1.k);
      TouchStmt(For(x, min, extent, body), p, t, st)
      == if i.None? then st1.With(Aborted) else TouchStmt(body, InsideLoop(x, i.value, p), t, st1.(k := k))
  {
    hide LoopRange, TouchExpr;
  }

  lemma ForParts(x: Name, min: Expr, extent: Expr, body: Stmt, g: Program, seen: Lets)
    requires var s := For(x, min, extent, body); StmtOk(s, g.arity, seen) && StmtIn(s, g)
    ensures HeadOk(min, extent, g) && x.ty.IntT? && StmtOk(body, g.arity, seen) && StmtIn(body, g)
  {
    hide HasTy, Names, ExprOk;
  }

  lemma ReadyBoxes(p: Place, t: Tools, st: State, g: Program)
    requires Ready(p, t, st, g)
    ensures BoxesGood(st.boxes, st.k, g)
  {
    hide PlaceGood, BoxesGood, ToolsGood;
  }

  lemma AbortedReady(p: Place, t: Tools, st: State, g: Program)
    requires Ready(p, t, st, g)
    ensures Ready(p, t, st.With(Aborted), g)
  {
    hide PlaceGood, BoxesGood, ToolsGood;
  }

  lemma TouchForShape(x: Name, min: Expr, extent: Expr, body: Stmt, p: Place, t: Tools,
      st: State, g: Program, seen: Lets)
    requires var s := For(x, min, extent, body); StmtOk(s, g.arity, seen) && StmtIn(s, g) && Ready(p, t, st, g)
    ensures Ready(p, t, TouchStmt(For(x, min, extent, body), p, t, st), g)
    decreases body, 2
  {
    hide LoopRange, Ready, HeadState, HeadOk, TouchStmt, StmtOk, StmtIn;
    ForParts(x, min, extent, body, g, seen);
    TouchForIs(x, min, extent, body, p, t, st);
    var st1 := HeadState(min, extent, p, t, st);
    HeadShape(min, extent, p, t, st, g);
    LoopShape(x, min, extent, p, t, st1, g);
    var (i, k) := LoopRange(min, extent, p.scope, t.c, st1.k);
    if i.Some? {
      var q := InsideLoop(x, i.value, p);
      TouchStmtShape(body, q, t, st1.(k := k), g, seen);
      ReadyBoxes(q, t, TouchStmt(body, q, t, st1.(k := k)), g);
      ReadyLater(p, t, st, TouchStmt(body, q, t, st1.(k := k)), g);
    } else {
      AbortedReady(p, t, st1, g);
    }
  }

  lemma InsideLetStmtShape(x: Name, v: Expr, p: Place, t: Tools, st: State, g: Program)
    requires HasTy(v, x.ty) && !x.vec && x in g.names && Names(v) <= g.names && Ready(p, t, st, g)
    ensures
      var (val, k1) := LetValue(v, p.scope, t.c, st.k);
      var (scope, k2) := EnterLet(x, val, p.scope, k1);
      Ready(InsideLet(x, v, scope, p), t, st.(k := k2), g) && IvGood(val, x.ty, k2) && EndsGood(NewEnds(x, k1), k1 + 2)
  {
    InsideLetShape(x, v, p, t, st, g);
    ChildrenInsideMeaning(x, v, p);
    var (val, k1) := LetValue(v, p.scope, t.c, st.k);
    EnterLetKeys(x, val, p.scope, k1);
    var (scope, k2) := EnterLet(x, val, p.scope, k1);
    hide LetValue, IvGood, EnterLet, ToolsGood, LetsGood, BoxesGood, AllInsts, ChildrenInside, ScopeGood;
    LetsGrow(p.lets, p.scope, scope, x, v, st.k, k2, g);
  }

  lemma LetsGrow(lets: map<Name, Expr>, scope: Scope, scope': Scope, x: Name, v: Expr, k: nat, k': nat, g: Program)
    requires LetsGood(lets, scope, k, g) && k <= k' && scope.Keys + {x} <= scope'.Keys
    requires HasTy(v, x.ty) && !x.vec && x in g.names && Names(v) <= g.names && Below(g.names, k)
    ensures LetsGood(lets[x := v], scope', k', g)
  {
    hide HasTy, Names;
  }

  lemma EnterLetKeys(x: Name, val: Interval, scope: Scope, k: nat)
    ensures EnterLet(x, val, scope, k).0.Keys == scope.Keys + {x}
  {}

  lemma TouchLetStmtShape(x: Name, v: Expr, body: Stmt, p: Place, t: Tools, st: State, g: Program, seen: Lets)
    requires var s := LetStmt(x, v, body); StmtOk(s, g.arity, seen) && StmtIn(s, g) && Ready(p, t, st, g)
    ensures Ready(p, t, TouchStmt(LetStmt(x, v, body), p, t, st), g)
    decreases body, 2
  {
    var st1 := TouchExpr(v, p, t, st);
    TouchExprShape(v, x.ty, p, t, st, g);
    InsideLetStmtShape(x, v, p, t, st1, g);
    var (val, k1) := LetValue(v, p.scope, t.c, st1.k);
    var (scope, k2) := EnterLet(x, val, p.scope, k1);
    EnterLetNext(x, val, p.scope, k1);
    hide LetValue, EnterLet, LeaveLet, IvGood, HasTy, Names, TouchExpr, PlaceGood, ToolsGood, BoxGood, IsSmallInterval;
    var q := InsideLet(x, v, scope, p);
    TouchStmtShape(body, q, t, st1.(k := k2), g, seen[x := v]);
    var st3 := TouchStmt(body, q, t, st1.(k := k2));
    IvGoodLater(val, x.ty, k2, st3.k);
    LeaveLetShape(x, val, k1, st3, g);
    ReadyLater(p, t, st, LeaveLet(x, val, k1, st3), g);
  }

  lemma TouchIfShape(c: Expr, a: Stmt, b: Option<Stmt>, p: Place, t: Tools, st: State, g: Program, seen: Lets)
    requires var s := IfThenElse(c, a, b); StmtOk(s, g.arity, seen) && StmtIn(s, g) && Ready(p, t, st, g)
    ensures Ready(p, t, TouchStmt(IfThenElse(c, a, b), p, t, st), g)
    decreases IfThenElse(c, a, b), 0
  {
    hide HasTy, Names, ExprOk, TouchExpr, TouchCase, Fork, PlaceGood, BoxesGood, UsesScope, IsPure;
    TouchExprShape(c, BoolT, p, t, st, g);
    if UsesScope(c, p.scope) || !IsPure(c) {
      TouchScopedIfShape(c, a, b, p, t, TouchExpr(c, p, t, st), g, seen);
    } else {
      TouchPlainIfShape(c, a, b, p, t, TouchExpr(c, p, t, st), g, seen);
    }
  }

  lemma TouchScopedIfShape(c: Expr, a: Stmt, b: Option<Stmt>, p: Place, t: Tools, st: State, g: Program, seen: Lets)
    requires HasTy(c, BoolT) && Names(c) <= g.names && ScalarNames(c) && Ready(p, t, st, g)
    requires StmtOk(a, g.arity, seen) && StmtIn(a, g)
    requires b.Some? ==> StmtOk(b.value, g.arity, seen) && StmtIn(b.value, g)
    ensures
      var st1 := TouchCase(t.c.oracle.simp(c), c, a, p, t, st);
      Ready(p, t, if b.Some? && !IsNoOp(b.value)
                  then TouchCase(t.c.oracle.simp(Un(Not, c)), c, b.value, p, t, st1) else st1, g)
    decreases IfThenElse(c, a, b), -1
  {
    hide HasTy, Names, TouchCase, StmtOk, StmtIn, PlaceGood, BoxesGood, ScalarNames, SoundOracle, SoundSolver;
    SimplifiedCondition(c, t, g);
    TouchCaseShape(t.c.oracle.simp(c), c, a, p, t, st, g, seen);
    hide Ready;
    if b.Some? && !IsNoOp(b.value) {
      TouchCaseShape(t.c.oracle.simp(Un(Not, c)), c, b.value, p, t,
          TouchCase(t.c.oracle.simp(c), c, a, p, t, st), g, seen);
    }
  }

  lemma TouchPlainIfShape(c: Expr, a: Stmt, b: Option<Stmt>, p: Place, t: Tools, st: State, g: Program, seen: Lets)
    requires HasTy(c, BoolT) && Names(c) <= g.names && IsPure(c) && Ready(p, t, st, g)
    requires StmtOk(a, g.arity, seen) && StmtIn(a, g)
    requires b.Some? ==> StmtOk(b.value, g.arity, seen) && StmtIn(b.value, g)
    ensures
      var sa := TouchStmt(a, p, t, st.(boxes := map[]));
      var sb := if b.Some? then TouchStmt(b.value, p, t, sa.(boxes := map[])) else sa.(boxes := map[]);
      Ready(p, t, State(Fork(c, sa.boxes, sb.boxes, st.boxes, t.c.oracle), sb.k, sb.status), g)
    decreases IfThenElse(c, a, b), -1
  {
    hide HasTy, Names, TouchStmt, StmtOk, StmtIn, PlaceGood, BoxGood, Fork, SoundOracle, SoundSolver;
    var sa := TouchStmt(a, p, t, st.(boxes := map[]));
    TouchStmtShape(a, p, t, st.(boxes := map[]), g, seen);
    var sb := if b.Some? then TouchStmt(b.value, p, t, sa.(boxes := map[])) else sa.(boxes := map[]);
    if b.Some? { TouchStmtShape(b.value, p, t, sa.(boxes := map[]), g, seen); }
    BoxesLater(st.boxes, st.k, sb.k, g);
    BoxesLater(sa.boxes, sa.k, sb.k, g);
    ForkGood(c, sa.boxes, sb.boxes, st.boxes, t.c.oracle, sb.k, g);
  }

  /** The condition, or its negation, once simplified. */
  lemma SimplifiedCondition(c: Expr, t: Tools, g: Program)
    requires SoundOracle(t.c.oracle) && HasTy(c, BoolT) && Names(c) <= g.names
    ensures HasTy(t.c.oracle.simp(c), BoolT) && Names(t.c.oracle.simp(c)) <= g.names
    ensures HasTy(t.c.oracle.simp(Un(Not, c)), BoolT) && Names(t.c.oracle.simp(Un(Not, c))) <= g.names
  {
    assert HasTy(Un(Not, c), BoolT) && Names(Un(Not, c)) == Names(c);
    assert Names(t.c.oracle.simp(c)) <= Names(c);
    assert Names(t.c.oracle.simp(Un(Not, c))) <= Names(Un(Not, c));
  }

  lemma CaseRestrictions(c: Expr, cond: Expr, p: Place, t: Tools, st: State, g: Program)
    requires HasTy(c, BoolT) && Names(c) <= g.names && ScalarNames(cond) && Ready(p, t, st, g)
    ensures
      var likely := c.Un? && c.uop.Likely?;
      var (rs, k) := Restrictions(Occurrences(cond), if likely then c.arg else c, likely, p.scope, t, st.k);
      RestrictionsGood(rs, p.scope, k) && Ready(p, t, st.(k := k), g)
  {
    var likely := c.Un? && c.uop.Likely?;
    var c' := if likely then c.arg else c;
    var (rs, k) := Restrictions(Occurrences(cond), c', likely, p.scope, t, st.k);
    OccurrencesAreNames(cond);
    RestrictionsShape(Occurrences(cond), c', likely, p, t, st.k, g);
    PlaceLater(p, st.k, k, t, g);
    BoxesLater(st.boxes, st.k, k, g);
  }

  lemma TouchCaseShape(c: Expr, cond: Expr, body: Stmt, p: Place, t: Tools, st: State, g: Program, seen: Lets)
    requires HasTy(c, BoolT) && Names(c) <= g.names && ScalarNames(cond)
    requires StmtOk(body, g.arity, seen) && StmtIn(body, g) && Ready(p, t, st, g)
    ensures Ready(p, t, TouchCase(c, cond, body, p, t, st), g)
    decreases body, 3 + |Occurrences(cond)|
  {
    hide Restrictions, Ready, HasTy, Names, StmtOk, StmtIn, RestrictionsGood;
    CaseRestrictions(c, cond, p, t, st, g);
    var likely := c.Un? && c.uop.Likely?;
    var (rs, k) := Restrictions(Occurrences(cond), if likely then c.arg else c, likely, p.scope, t, st.k);
    TrimAllShape(rs, body, p, t, st.(k := k), g, seen);
  }

  lemma TrimAllShape(rs: seq<Restriction>, body: Stmt, p: Place, t: Tools, st: State, g: Program, seen: Lets)
    requires RestrictionsGood(rs, p.scope, st.k)
    requires StmtOk(body, g.arity, seen) && StmtIn(body, g) && Ready(p, t, st, g)
    ensures Ready(p, t, TrimAll(rs, body, p, t, st), g)
    decreases body, 2 + |rs|
  {
    hide Ready, StmtOk, StmtIn, PopLets, DependentNames, Narrowed, Renamed, RestrictionsGood, RestrictionGood,
        PlaceGood, TrimAll, TouchStmt;
    TrimAllStep(rs, body, p, t, st);
    if rs == [] {
      TouchStmtShape(body, p, t, st, g, seen);
    } else {
      var ns := DependentNames(p, rs[0].x, st.k);
      var q := Narrowed(p, rs[0]);
      var st1 := st.(k := st.k + 2 * |ns|);
      RestrictionsSplit(rs, p.scope, st.k);
      NarrowedShape(rs[0], p, t, st, g);
      NarrowedRest(rs[1..], rs[0], p, st.k);
      TrimAllShape(rs[1..], body, Renamed(q, ns), t, st1, g, seen);
      PoppedShape(rs[0], p, t, st, TrimAll(rs[1..], body, Renamed(q, ns), t, st1), g);
    }
  }

  lemma RestrictionsSplit(rs: seq<Restriction>, scope: Scope, k: nat)
    requires rs != [] && RestrictionsGood(rs, scope, k)
    ensures RestrictionGood(rs[0], scope, k) && RestrictionsGood(rs[1..], scope, k)
  {}

  /** The first narrowing around the others. */
  lemma TrimAllStep(rs: seq<Restriction>, body: Stmt, p: Place, t: Tools, st: State)
    ensures rs == [] ==> TrimAll(rs, body, p, t, st) == TouchStmt(body, p, t, st)
    ensures rs != [] ==>
      var ns := DependentNames(p, rs[0].x, st.k);
      var q := Narrowed(p, rs[0]);
      var st2 := TrimAll(rs[1..], body, Renamed(q, ns), t, st.(k := st.k + 2 * |ns|));
      && TrimAll(rs, body, p, t, st) == PopLets(ns, q.scope, p.lets, t, st2)
      && (TrimAll(rs, body, p, t, st).Ok() ==> st2.Ok())
  {
    hide TouchStmt, PopLets, DependentNames, Narrowed, Renamed;
  }

  /** Leaving the lets renamed for one narrowed variable. */
  lemma PoppedShape(r: Restriction, p: Place, t: Tools, st: State, st': State, g: Program)
    requires Ready(p, t, st, g) && PlaceGood(Narrowed(p, r), st.k, g)
    requires var ns := DependentNames(p, r.x, st.k);
             Ready(Renamed(Narrowed(p, r), ns), t, st', g) && st.k + 2 * |ns| <= st'.k
    ensures Ready(p, t, PopLets(DependentNames(p, r.x, st.k), Narrowed(p, r).scope, p.lets, t, st'), g)
  {
    hide PopLets, PlaceGood, BoxesGood, ToolsGood, TrimOrder, NameLets, Pushed;
    var ns := DependentNames(p, r.x, st.k);
    NameLetsMeaning(Dependents(p, r.x), st.k);
    PopLetsShape(ns, Dependents(p, r.x), Narrowed(p, r), t, st', st.k, g);
    ReadyLater(p, t, st, PopLets(ns, Narrowed(p, r).scope, p.lets, t, st'), g);
  }

  /** Narrowing a variable and renaming the lets that depend on it keeps the place good. */
  lemma NarrowedShape(r: Restriction, p: Place, t: Tools, st: State, g: Program)
    requires RestrictionGood(r, p.scope, st.k) && Ready(p, t, st, g)
    ensures PlaceGood(Narrowed(p, r), st.k, g)
    ensures var ns := DependentNames(p, r.x, st.k);
            Ready(Renamed(Narrowed(p, r), ns), t, st.(k := st.k + 2 * |ns|), g)
  {
    hide RestrictionGood, TrimOrder, NameLets, BoxesGood, PlaceGood, ToolsGood, Renamed, Narrowed;
    var xs := Dependents(p, r.x);
    NarrowedGood(r, p, t, st.k, g);
    PushedPlaceGood(Narrowed(p, r), NameLets(xs, st.k), xs, t, st.k, g);
    BoxesLater(st.boxes, st.k, st.k + 2 * |xs|, g);
  }

  /** The other narrowed variables are still in scope. */
  lemma NarrowedRest(rs: seq<Restriction>, r: Restriction, p: Place, k: nat)
    requires RestrictionsGood(rs, p.scope, k)
    ensures var ns := DependentNames(p, r.x, k);
            RestrictionsGood(rs, Renamed(Narrowed(p, r), ns).scope, k + 2 * |ns|)
  {
    hide RestrictionsGood, TrimOrder, NameLets, Renamed;
    var xs := Dependents(p, r.x);
    RenamedKeys(Narrowed(p, r), NameLets(xs, k), xs, k);
    RestrictionsLater(rs, p.scope, Renamed(Narrowed(p, r), NameLets(xs, k)).scope, k, k + 2 * |xs|);
  }

  lemma RenamedKeys(p: Place, ns: seq<Ends>, xs: seq<Name>, k: nat)
    requires ns == NameLets(xs, k)
    ensures p.scope.Keys <= Renamed(p, ns).scope.Keys
  {
    NameLetsMeaning(xs, k);
    PushedKeys(p.scope, ns, xs, k);
  }

  lemma NarrowedGood(r: Restriction, p: Place, t: Tools, k: nat, g: Program)
    requires RestrictionGood(r, p.scope, k) && PlaceGood(p, k, g)
    ensures PlaceGood(Narrowed(p, r), k, g)
  {
    hide IvGood, AllInsts, HasTy, Names;
  }

  lemma PushedPlaceGood(p: Place, ns: seq<Ends>, xs: seq<Name>, t: Tools, k: nat, g: Program)
    requires ns == NameLets(xs, k) && PlaceGood(p, k, g) && ToolsGood(t, k, g)
    ensures PlaceGood(Renamed(p, ns), k + 2 * |xs|, g) && ToolsGood(t, k + 2 * |xs|, g)
  {
    hide IvGood, AllInsts, HasTy, Names, Pushed, SoundOracle, SoundSolver;
    NameLetsMeaning(xs, k);
    PushedShape(p.scope, ns, xs, k);
    PushedKeys(p.scope, ns, xs, k);
    PlaceLater(p, k, k + 2 * |xs|, t, g);
  }

  lemma RestrictionsLater(rs: seq<Restriction>, scope: Scope, scope': Scope, k: nat, k': nat)
    requires RestrictionsGood(rs, scope, k) && k <= k' && scope.Keys <= scope'.Keys
    ensures RestrictionsGood(rs, scope', k')
  {
    hide IvGood;
    forall i | 0 <= i < |rs| ensures IvGood(rs[i].i, rs[i].x.ty, k') {
      IvGoodLater(rs[i].i, rs[i].x.ty, k, k');
    }
  }
}
