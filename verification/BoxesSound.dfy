// Every point that a run of a statement touches lies in the box found for it.

module BoxesSound {
  import opened Options
  import opened IR
  import opened Intervals
  import opened BoundsRules
  import opened Bounds
  import opened Boxes
  import opened Stmts
  import opened BoxesTouching
  import opened TrimOrders
  import opened BoxesShape
  import opened BoxesKeep

  // ----- single steps -----

  lemma {:induction false} BoundsOfAllSound(args: seq<Expr>, scope: Scope, c: Ctx, k: nat, w: World, w': World, l: nat)
    requires TypedArgs(args) && Below(NamesOfAll(args), k)
    requires Setting(scope, c, k, w, w') && AgreeOutside(NamesOfAll(args), scope, w, w')
    ensures forall d :: 0 <= d < |args| ==> In(EvalArgs(args, w, l)[d], BoundsOfAll(args, scope, c, k).0[d], w')
  {
    if args != [] {
      hide BoundsOf, In, Eval, Setting;
      var (i, k1) := BoundsOf(args[0], scope, c, k);
      BoundsSound(args[0], IntT, scope, c, k, w, w', l);
      SettingMoves(scope, c, k, w, w', w', k1);
      BoundsOfAllSound(args[1..], scope, c, k1, w, w', l);
    }
  }

  lemma AddBoxCovers(f: string, args: seq<Expr>, used: Option<Expr>, p: Place, t: Tools, st: State, g: Program,
                     w: World, w': World, l: nat, d: nat)
    requires Ready(p, t, st, g) && TypedArgs(args) && Below(NamesOfAll(args), st.k) && |args| == g.arity(f)
    requires used == None || used == Some(Const(1, BoolT))
    requires Setting(p.scope, t.c, st.k, w, w') && AgreeOutside(NamesOfAll(args), p.scope, w, w')
    requires t.mode.Wants(f) && d < |args|
    ensures Covered(AddBox(f, args, used, p, t, st).boxes, f, d, EvalArgs(args, w, l)[d], w')
  {
    NoneGood(g);
    TrueGood(g);
    var (bounds, k) := BoundsOfAll(args, p.scope, t.c, st.k);
    AddedBoxGood(f, args, used, p, t, st, g);
    BoundsOfAllSound(args, p.scope, t.c, st.k, w, w', l);
    assert used.Some? ==> Eval(used.value, w', 0) == 1;
    hide IvGood, PlaceGood, BoundsOfAll, MergeInto, UsedGood, BoxesGood, SoundOracle, In, Eval, Setting;
    BoxesLater(st.boxes, st.k, k, g);
    MergeIntoKeeps(st.boxes, f, Box(bounds, used), t.c.oracle, k, g, f, d, EvalArgs(args, w, l)[d], w');
  }

  lemma SimplifyMeaning(v: int, i: Interval, o: Oracle, w: World)
    requires SoundOracle(o) && In(v, i, w)
    ensures In(v, SimplifyInterval(i, o), w)
  {
    hide Eval;
    if i.min.Fin? { assert Eval(o.simp(i.min.e), w, 0) == Eval(i.min.e, w, 0); }
    if i.max.Fin? { assert Eval(o.simp(i.max.e), w, 0) == Eval(i.max.e, w, 0); }
  }

  lemma LetValueSound(v: Expr, ty: Ty, scope: Scope, c: Ctx, k: nat, w: World, w': World, l: nat)
    requires HasTy(v, ty) && Below(Names(v), k)
    requires Setting(scope, c, k, w, w') && AgreeOutside(Names(v), scope, w, w')
    ensures In(Eval(v, w, l), LetValue(v, scope, c, k).0, w')
  {
    hide BoundsOf, In, Eval, SimplifyInterval;
    BoundsSound(v, ty, scope, c, k, w, w', l);
    SimplifyMeaning(Eval(v, w, l), BoundsOf(v, scope, c, k).0, c.oracle, w');
  }

  /** A value in both interpretations of an interval is between its named ends. */
  lemma EndVarsMeaning(v: int, val: Interval, n: Ends, k: nat, w: World)
    requires IvGood(val, n.x.ty, k) && EndsGood(n, k)
    requires n.x.ty.BoolT? ==> IsTruth(v)
    requires In(v, val, w) && In(v, val, EndWorld(w, n.mn, val.min, v))
    ensures In(v, EndVars(n), DefineWorld(w, n, val, v))
  {
    var w1 := EndWorld(w, n.mn, val.min, v);
    EndWorldLookup(w, n.mn, val.min, v, k);
    EndWorldLookup(w1, n.mx, val.max, v, k);
    assert Lookup(EndWorld(w1, n.mx, val.max, v), n.mn, 0) == Lookup(w1, n.mn, 0);
  }

  lemma EndWorldLookup(w: World, x: Name, b: Ext, v: int, k: nat)
    requires ExtGood(b, x.ty, k) && !x.vec && (x.ty.BoolT? ==> IsTruth(v))
    ensures Lookup(EndWorld(w, x, b, v), x, 0) == if b.Fin? then Eval(b.e, w, 0) else v
  {
    hide Eval;
    if b.Fin? { LookupLet(w, x, b.e, 0); }
  }

  /** Binding a variable in the run and giving it an interval that holds its value. */
  lemma BindCovers(scope: Scope, c: Ctx, k: nat, w: World, w1: World, w': World, x: Name, i: Interval)
    requires Setting(scope, c, k, w, w') && IvGood(i, x.ty, k)
    requires w1.funcs == w.funcs && w1.pures == w.pures
    requires forall y: Name, m: nat :: y != x ==> w1.vars(y, m) == w.vars(y, m)
    requires forall m: nat :: In(Lookup(w1, x, m), i, w')
    ensures Setting(scope[x := i], c, k, w1, w')
  {
    hide IvGood, In;
    forall y: Name, m: nat | y in scope[x := i] ensures In(Lookup(w1, y, m), scope[x := i][y], w') {
      if y != x { assert Lookup(w1, y, m) == Lookup(w, y, m); }
    }
  }

  /** Entering a let keeps the setting. */
  lemma LetSettingHolds(x: Name, v: Expr, p: Place, t: Tools, st: State, g: Program, w: World, w': World)
    requires HasTy(v, x.ty) && !x.vec && Below(Names(v), st.k) && Ready(p, t, st, g)
    requires Setting(p.scope, t.c, st.k, w, w') && AgreeOutside(Names(v), p.scope, w, w')
    ensures
      var (val, k1) := LetValue(v, p.scope, t.c, st.k);
      var (scope, k2) := EnterLet(x, val, p.scope, k1);
      Setting(scope, t.c, k2, LetWorld(w, x, v), LetEndsWorld(x, val, k1, w', Eval(v, w, 0)))
  {
    hide BoundsOf, IvGood, In, Eval, IsSmallInterval, HasTy, Names, DefineWorld, LetValue, Setting, EndVars, EndWorld;
    var (val, k1) := LetValue(v, p.scope, t.c, st.k);
    LetValueShape(v, x.ty, p.scope, t.c, st.k);
    LetValueSound(v, x.ty, p.scope, t.c, st.k, w, w', 0);
    forall m: nat ensures Lookup(LetWorld(w, x, v), x, m) == Eval(v, w, 0) { LookupLet(w, x, v, m); }
    SettingMoves(p.scope, t.c, st.k, w, w', w', k1);
    if IsSmallInterval(val) {
      BindCovers(p.scope, t.c, k1, w, LetWorld(w, x, v), w', x, val);
    } else {
      LargeLet(x, v, val, p.scope, t.c, st.k, k1, w, w');
    }
  }

  lemma LargeLet(x: Name, v: Expr, val: Interval, scope: Scope, c: Ctx, k: nat, k1: nat, w: World, w': World)
    requires HasTy(v, x.ty) && !x.vec && k <= k1 && IvGood(val, x.ty, k1) && In(Eval(v, w, 0), val, w')
    requires Setting(scope, c, k1, w, w')
    requires forall m: nat :: Lookup(LetWorld(w, x, v), x, m) == Eval(v, w, 0)
    ensures var n := NewEnds(x, k1);
            Setting(scope[x := EndVars(n)], c, k1 + 2, LetWorld(w, x, v), DefineWorld(w', n, val, Eval(v, w, 0)))
  {
    var n, y := NewEnds(x, k1), Eval(v, w, 0);
    var w1' := EndWorld(w', n.mn, val.min, y);
    if x.ty.BoolT? { BoolValue(v, w, 0); }
    assert SameBelow(k1, w', w1');
    InMoves(y, val, x.ty, k1, w', w1');
    IvGoodLater(val, x.ty, k1, k1 + 2);
    EndVarsMeaning(y, val, n, k1 + 2, w');
    DefineWorldSame(w', n, val, y, k1);
    SettingMoves(scope, c, k1, w, w', DefineWorld(w', n, val, y), k1 + 2);
    EndVarsGood(n, k1 + 2);
    hide IvGood, In, Eval, DefineWorld, Setting, EndVars, EndWorld;
    BindCovers(scope, c, k1 + 2, w, LetWorld(w, x, v), DefineWorld(w', n, val, y), x, EndVars(n));
  }

  // ----- expressions -----

  /** The two worlds of a visit of an expression. */
  ghost predicate Worlds(s: set<Name>, p: Place, t: Tools, st: State, w: World, w': World) {
    Setting(p.scope, t.c, st.k, w, w') && AgreeOutside(s, p.scope, w, w')
  }

  lemma WorldsLater(s: set<Name>, s': set<Name>, p: Place, t: Tools, st: State, st': State, w: World, w': World)
    requires Worlds(s, p, t, st, w, w') && st.k <= st'.k && s' <= s
    ensures Worlds(s', p, t, st', w, w')
  {
    hide Setting;
    SettingMoves(p.scope, t.c, st.k, w, w', w', st'.k);
  }

  lemma {:induction false} TouchExprSound(e: Expr, ty: Ty, p: Place, t: Tools, st: State, g: Program, w: World,
      w': World, l: nat, f: string, pt: seq<int>, d: nat)
    requires HasTy(e, ty) && ExprOk(e, g.arity) && Below(Names(e), st.k) && Ready(p, t, st, g)
    requires Worlds(Names(e), p, t, st, w, w') && TouchExpr(e, p, t, st).Ok()
    requires t.mode.calls && t.mode.Wants(f) && CallsAt(e, w, l, f, pt) && d < |pt|
    ensures Covered(TouchExpr(e, p, t, st).boxes, f, d, pt[d], w')
    decreases Size(e), 1
  {
    match e
    case Un(op, a) =>
      hide Ready, Covered, Worlds;
      TouchExprSound(a, if op.Not? then BoolT else if op.Abs? then IntT
          else ty, p, t, st, g, w, w', if op.Broadcast? then 0 else l, f, pt, d);
    case Bin(op, a, b) =>
      OperandTypes(op, a, b, ty);
      hide Ready, HasTy, Covered, Worlds;
      TouchTwoSound(a, b, TypeOf(a), TypeOf(b), p, t, st, g, w, w', l, f, pt, d);
    case Select(c, x, y) =>
      hide Ready, Covered, Worlds;
      var st1 := TouchExpr(c, p, t, st);
      TouchExprShape(c, BoolT, p, t, st, g);
      WorldsLater(Names(e), Names(x) + Names(y), p, t, st, st1, w, w');
      if CallsAt(c, w, l, f, pt) {
        WorldsLater(Names(e), Names(c), p, t, st, st, w, w');
        TouchExprSound(c, BoolT, p, t, st, g, w, w', l, f, pt, d);
        TouchExprShape(x, ty, p, t, st1, g);
        TouchExprKeeps(x, ty, p, t, st1, g, f, d, pt[d], w');
        TouchExprKeeps(y, ty, p, t, TouchExpr(x, p, t, st1), g, f, d, pt[d], w');
      } else {
        TouchTwoSound(x, y, ty, ty, p, t, st1, g, w, w', l, f, pt, d);
      }
    case Ramp(b, s, _) =>
      hide Ready, Covered, Worlds;
      TouchTwoSound(b, s, IntT, IntT, p, t, st, g, w, w', 0, f, pt, d);
    case Let(x, v, b) =>
      hide Ready, Covered, Worlds;
      var m := CallsInLet(x, v, b, w, l, f, pt);
      TouchLetSound(x, v, b, ty, p, t, st, g, w, w', l, m, f, pt, d);
    case Call(ct, h, _, args) =>
      hide Ready, AddBox, Covered, Worlds;
      TouchArgsShape(args, p, t, st, g);
      var st1 := TouchArgs(args, p, t, st);
      if ArgsCallAt(args, w, l, f, pt) {
        TouchArgsSound(args, p, t, st, g, w, w', l, f, pt, d);
        if ct.FuncCall? {
          TrueGood(g);
          AddBoxKeeps(h, args, Some(Const(1, BoolT)), p, t, st1, g, f, d, pt[d], w');
        }
      } else {
        WorldsLater(Names(e), NamesOfAll(args), p, t, st, st1, w, w');
        CallCovers(f, args, p, t, st1, g, w, w', l, d);
      }
  }

  lemma CallCovers(f: string, args: seq<Expr>, p: Place, t: Tools, st: State, g: Program,
      w: World, w': World, l: nat, d: nat)
    requires Ready(p, t, st, g) && TypedArgs(args) && Below(NamesOfAll(args), st.k) && |args| == g.arity(f)
    requires Worlds(NamesOfAll(args), p, t, st, w, w') && t.mode.Wants(f) && d < |args|
    ensures Covered(AddBox(f, args, Some(Const(1, BoolT)), p, t, st).boxes, f, d, EvalArgs(args, w, l)[d], w')
  {
    hide Ready, Setting, AddBox, Covered;
    AddBoxCovers(f, args, Some(Const(1, BoolT)), p, t, st, g, w, w', l, d);
  }

  /** Two expressions visited one after the other. */
  lemma TouchTwoSound(a: Expr, b: Expr, ta: Ty, tb: Ty, p: Place, t: Tools, st: State, g: Program, w: World,
      w': World, l: nat, f: string, pt: seq<int>, d: nat)
    requires HasTy(a, ta) && ExprOk(a, g.arity) && Below(Names(a), st.k)
    requires HasTy(b, tb) && ExprOk(b, g.arity) && Below(Names(b), st.k)
    requires Ready(p, t, st, g) && Worlds(Names(a) + Names(b), p, t, st, w, w')
    requires TouchExpr(b, p, t, TouchExpr(a, p, t, st)).Ok()
    requires t.mode.calls && t.mode.Wants(f) && (CallsAt(a, w, l, f, pt) || CallsAt(b, w, l, f, pt)) && d < |pt|
    ensures Covered(TouchExpr(b, p, t, TouchExpr(a, p, t, st)).boxes, f, d, pt[d], w')
    decreases Size(a) + Size(b), 2
  {
    hide Ready, HasTy, ExprOk, CallsAt, Covered, Worlds;
    var st1 := TouchExpr(a, p, t, st);
    TouchExprShape(a, ta, p, t, st, g);
    if CallsAt(a, w, l, f, pt) {
      WorldsLater(Names(a) + Names(b), Names(a), p, t, st, st, w, w');
      TouchExprSound(a, ta, p, t, st, g, w, w', l, f, pt, d);
      TouchExprKeeps(b, tb, p, t, st1, g, f, d, pt[d], w');
    } else {
      WorldsLater(Names(a) + Names(b), Names(b), p, t, st, st1, w, w');
      TouchExprSound(b, tb, p, t, st1, g, w, w', l, f, pt, d);
    }
  }

  lemma TouchArgsSound(args: seq<Expr>, p: Place, t: Tools, st: State, g: Program, w: World, w': World, l: nat,
                       f: string, pt: seq<int>, d: nat)
    requires TypedArgs(args) && ArgsOk(args, g.arity) && Below(NamesOfAll(args), st.k) && Ready(p, t, st, g)
    requires Worlds(NamesOfAll(args), p, t, st, w, w') && TouchArgs(args, p, t, st).Ok()
    requires t.mode.calls && t.mode.Wants(f) && ArgsCallAt(args, w, l, f, pt) && d < |pt|
    ensures Covered(TouchArgs(args, p, t, st).boxes, f, d, pt[d], w')
    decreases SizeAll(args), 0
  {
    hide Ready, Covered, Worlds;
    var st1 := TouchExpr(args[0], p, t, st);
    TouchExprShape(args[0], IntT, p, t, st, g);
    if CallsAt(args[0], w, l, f, pt) {
      WorldsLater(NamesOfAll(args), Names(args[0]), p, t, st, st, w, w');
      TouchExprSound(args[0], IntT, p, t, st, g, w, w', l, f, pt, d);
      TouchArgsKeeps(args[1..], p, t, st1, g, f, d, pt[d], w');
    } else {
      WorldsLater(NamesOfAll(args), NamesOfAll(args[1..]), p, t, st, st1, w, w');
      TouchArgsSound(args[1..], p, t, st1, g, w, w', l, f, pt, d);
    }
  }

  lemma CallsInLet(x: Name, v: Expr, b: Expr, w: World, l: nat, f: string, pt: seq<int>) returns (m: nat)
    requires CallsAt(Let(x, v, b), w, l, f, pt)
    ensures CallsAt(v, w, m, f, pt) || CallsAt(b, LetWorld(w, x, v), l, f, pt)
  {
    m := 0;
    if m0: nat :| CallsAt(v, w, m0, f, pt) { m := m0; }
  }

  /** The worlds inside a let. */
  lemma LetWorlds(x: Name, v: Expr, s: set<Name>, p: Place, t: Tools, st: State, g: Program, w: World, w': World)
    requires HasTy(v, x.ty) && !x.vec && Below(Names(v), st.k) && Ready(p, t, st, g)
    requires Worlds(s, p, t, st, w, w') && Names(v) <= s && Below(s, st.k)
    ensures
      var (val, k1) := LetValue(v, p.scope, t.c, st.k);
      var (scope, k2) := EnterLet(x, val, p.scope, k1);
      Worlds(s, p.(scope := scope), t, st.(k := k2), LetWorld(w, x, v), LetEndsWorld(x, val, k1, w', Eval(v, w, 0)))
  {
    hide Ready, LetValue, EnterLet, LetEndsWorld, HasTy, Names, Eval, Setting;
    var (val, k1) := LetValue(v, p.scope, t.c, st.k);
    LetSettingHolds(x, v, p, t, st, g, w, w');
    EnterLetKeys(x, val, p.scope, k1);
    LetEndsWorldSame(x, val, k1, w', Eval(v, w, 0));
  }

  lemma TouchLetSound(x: Name, v: Expr, body: Expr, ty: Ty, p: Place, t: Tools, st: State, g: Program, w: World,
      w': World, l: nat, m: nat, f: string, pt: seq<int>, d: nat)
    requires HasTy(v, x.ty) && !x.vec && HasTy(body, ty) && ExprOk(v, g.arity) && ExprOk(body, g.arity)
    requires Below(Names(v), st.k) && Below(Names(body), st.k) && Ready(p, t, st, g)
    requires Worlds({x} + Names(v) + Names(body), p, t, st, w, w') && TouchLet(x, v, body, p, t, st).Ok()
    requires t.mode.calls && t.mode.Wants(f) && d < |pt|
    requires CallsAt(v, w, m, f, pt) || CallsAt(body, LetWorld(w, x, v), l, f, pt)
    ensures Covered(TouchLet(x, v, body, p, t, st).boxes, f, d, pt[d], w')
    decreases 1 + Size(v) + Size(body), 0
  {
    hide LetValue, EnterLet, LeaveLet, IvGood, HasTy, TouchExpr, PlaceGood, BoxesGood, Covered, LetEndsWorld,
        LetWorld, Worlds, CallsAt, Eval, ExprOk;
    if CallsAt(v, w, m, f, pt) {
      TouchLetValueSound(x, v, body, ty, p, t, st, g, w, w', m, f, pt, d);
    } else {
      var st1 := TouchExpr(v, p, t, st);
      TouchExprShape(v, x.ty, p, t, st, g);
      var (val, k1) := LetValue(v, p.scope, t.c, st1.k);
      var (scope, k2) := EnterLet(x, val, p.scope, k1);
      var q, st2 := p.(scope := scope), st1.(k := k2);
      InsideLetShape(x, v, p, t, st1, g);
      TouchExprShape(body, ty, q, t, st2, g);
      LeaveLetOk(x, val, k1, TouchExpr(body, q, t, st2));
      WorldsLater({x} + Names(v) + Names(body), Names(v) + Names(body), p, t, st, st1, w, w');
      LetWorlds(x, v, Names(v) + Names(body), p, t, st1, g, w, w');
      var w1, w1' := LetWorld(w, x, v), LetEndsWorld(x, val, k1, w', Eval(v, w, 0));
      WorldsLater(Names(v) + Names(body), Names(body), q, t, st2, st2, w1, w1');
      TouchExprSound(body, ty, q, t, st2, g, w1, w1', l, f, pt, d);
      LeaveLetMoves(x, val, k1, TouchExpr(body, q, t, st2), g, f, d, pt[d], w', Eval(v, w, 0));
    }
  }

  lemma TouchLetValueSound(x: Name, v: Expr, body: Expr, ty: Ty, p: Place, t: Tools, st: State, g: Program, w: World,
      w': World, m: nat, f: string, pt: seq<int>, d: nat)
    requires HasTy(v, x.ty) && !x.vec && HasTy(body, ty) && ExprOk(v, g.arity) && ExprOk(body, g.arity)
    requires Below(Names(v), st.k) && Below(Names(body), st.k) && Ready(p, t, st, g)
    requires Worlds({x} + Names(v) + Names(body), p, t, st, w, w') && TouchLet(x, v, body, p, t, st).Ok()
    requires t.mode.calls && t.mode.Wants(f) && d < |pt|
    requires CallsAt(v, w, m, f, pt)
    ensures Covered(TouchLet(x, v, body, p, t, st).boxes, f, d, pt[d], w')
    decreases 1 + Size(v) + Size(body), -1
  {
    hide LetValue, EnterLet, LeaveLet, IvGood, HasTy, TouchExpr, PlaceGood, BoxesGood, Covered,
        LetEndsWorld, Worlds, CallsAt, ExprOk;
    var st1 := TouchExpr(v, p, t, st);
    TouchExprShape(v, x.ty, p, t, st, g);
    var (val, k1) := LetValue(v, p.scope, t.c, st1.k);
    var (scope, k2) := EnterLet(x, val, p.scope, k1);
    var q, st2 := p.(scope := scope), st1.(k := k2);
    InsideLetShape(x, v, p, t, st1, g);
    TouchExprShape(body, ty, q, t, st2, g);
    LeaveLetOk(x, val, k1, TouchExpr(body, q, t, st2));
    var w1 := LetEndsWorld(x, val, k1, w', 0);
    LetEndsWorldSame(x, val, k1, w', 0);
    WorldsLater({x} + Names(v) + Names(body), Names(v), p, t, st, st, w, w');
    TouchExprSound(v, x.ty, p, t, st, g, w, w', m, f, pt, d);
    CoveredMoves(st1.boxes, f, d, pt[d], w', w1, st1.k, g);
    TouchExprKeeps(body, ty, q, t, st2, g, f, d, pt[d], w1);
    LeaveLetMoves(x, val, k1, TouchExpr(body, q, t, st2), g, f, d, pt[d], w', 0);
  }

  // ----- the enclosing lets hold in the run -----

  /** Each recorded let still has the value it was given. */
  ghost predicate LetsHold(lets: Lets, seen: Lets, w: World) {
    lets == seen && forall x :: x in lets ==> Lookup(w, x, 0) == Eval(lets[x], w, 0)
  }

  lemma LetsHoldBind(lets: Lets, seen: Lets, w: World, x: Name, f: nat -> int)
    requires LetsHold(lets, seen, w) && Rebindable(x, seen)
    ensures forall y :: y in lets && y != x ==> Lookup(Bind(w, x, f), y, 0) == Eval(lets[y], Bind(w, x, f), 0)
  {
    hide Eval, Names;
    forall y | y in lets && y != x ensures Lookup(Bind(w, x, f), y, 0) == Eval(lets[y], Bind(w, x, f), 0) {
      BindUnused(lets[y], w, x, f, 0);
    }
  }

  lemma LetsHoldLet(lets: Lets, seen: Lets, w: World, x: Name, v: Expr)
    requires LetsHold(lets, seen, w) && Rebindable(x, seen) && x !in Names(v) && !x.vec && HasTy(v, x.ty)
    ensures LetsHold(lets[x := v], seen[x := v], LetWorld(w, x, v))
  {
    hide Eval, Names, HasTy;
    var f := (m: nat) => Eval(v, w, m);
    LetsHoldBind(lets, seen, w, x, f);
    LookupLet(w, x, v, 0);
    BindUnused(v, w, x, f, 0);
  }

  // ----- conditions -----

  lemma {:induction false} TypedCondition(x: Name, cond: Expr, t: Tools, g: Program, w: World)
    requires SoundSolver(t.solve) && HasTy(cond, BoolT) && Names(cond) <= g.names && Eval(cond, w, 0) != 0
    ensures var s := t.solve(cond, x).0;
            s.Bin? && s.a == Var(x) ==> EvalBin(s.op, Lookup(w, x, 0), Eval(s.b, w, 0)) != 0
  {
    var s := t.solve(cond, x).0;
    assert Eval(s, w, 0) == Eval(cond, w, 0);
    if s.Bin? && s.a == Var(x) { EvalBinIs(s.op, s.a, s.b, w); }
  }

  /** A range narrowed by a condition holds the variable whenever the condition does. */
  lemma RestrictSound(x: Name, cond: Expr, likely: bool, p: Place, t: Tools, k: nat, g: Program, w: World, w': World)
    requires x in p.scope && HasTy(cond, BoolT) && Names(cond) <= g.names && Eval(cond, w, 0) != 0
    requires ToolsGood(t, k, g) && PlaceGood(p, k, g)
    requires Setting(p.scope, t.c, k, w, w') && AgreeOutside(g.names, p.scope, w, w')
    ensures var i := Restrict(x, cond, likely, p.scope, t, k).0;
            i.Some? ==> In(Lookup(w, x, 0), i.value, w')
  {
    hide BoundsOf, Eval, HasTy, SoundOracle, ScopeGood, FuncsGood, FuncsCovered, PlaceGood, Tag, SoundSolver;
    SolvedTypes(x, cond, t, g);
    TypedCondition(x, cond, t, g, w);
    var s := t.solve(cond, x).0;
    if Restrict(x, cond, likely, p.scope, t, k).0.Some? {
      BoundsSound(s.b, IntT, p.scope, t.c, k, w, w', 0);
      assert In(Lookup(w, x, 0), p.scope[x], w');
      RestrictedHolds(Lookup(w, x, 0), Eval(s.b, w, 0), p.scope[x], BoundsOf(s.b, p.scope, t.c, k).0, likely, w');
    }
  }

  lemma RestrictedHolds(v: int, y: int, i: Interval, b: Interval, likely: bool, w: World)
    requires In(v, i, w) && In(y, b, w)
    ensures i.HasUpper() && b.HasUpper() ==>
      && (v < y ==> v <= Eval(Bin(Min, Tag(likely, i.max.e), Bin(Sub, b.max.e, I(1))), w, 0))
      && (v <= y ==> v <= Eval(Bin(Min, Tag(likely, i.max.e), b.max.e), w, 0))
    ensures i.HasLower() && b.HasLower() ==>
      && (v > y ==> v >= Eval(Bin(Max, Tag(likely, i.min.e), Bin(Add, b.min.e, I(1))), w, 0))
      && (v >= y ==> v >= Eval(Bin(Max, Tag(likely, i.min.e), b.min.e), w, 0))
  {
    hide Eval, Tag;
    EvalConst(1, w);
    if i.HasUpper() && b.HasUpper() {
      EvalTag(likely, i.max.e, w);
      EvalBinIs(Sub, b.max.e, I(1), w);
      EvalMin(Tag(likely, i.max.e), Bin(Sub, b.max.e, I(1)), w);
      EvalMin(Tag(likely, i.max.e), b.max.e, w);
    }
    if i.HasLower() && b.HasLower() {
      EvalTag(likely, i.min.e, w);
      EvalBinIs(Add, b.min.e, I(1), w);
      EvalMax(Tag(likely, i.min.e), Bin(Add, b.min.e, I(1)), w);
      EvalMax(Tag(likely, i.min.e), b.min.e, w);
    }
  }

  lemma EvalTag(likely: bool, e: Expr, w: World)
    ensures Eval(Tag(likely, e), w, 0) == Eval(e, w, 0)
  {}

  /** Every narrowed range holds its variable. */
  ghost predicate RestrictionsHold(rs: seq<Restriction>, w: World, w': World) {
    forall i :: 0 <= i < |rs| ==> In(Lookup(w, rs[i].x, 0), rs[i].i, w')
  }

  lemma {:induction false} RestrictionsSound(vs: seq<Name>, cond: Expr, likely: bool, p: Place, t: Tools, k: nat,
      g: Program, w: World, w': World)
    requires HasTy(cond, BoolT) && Names(cond) <= g.names && Eval(cond, w, 0) != 0
    requires ToolsGood(t, k, g) && PlaceGood(p, k, g)
    requires Setting(p.scope, t.c, k, w, w') && AgreeOutside(g.names, p.scope, w, w')
    ensures RestrictionsHold(Restrictions(vs, cond, likely, p.scope, t, k).0, w, w')
    decreases vs
  {
    if vs != [] {
      hide Restrict, In, PlaceGood, ToolsGood, Setting, HasTy, Eval, Names;
      if vs[0] !in p.scope {
        RestrictionsSound(vs[1..], cond, likely, p, t, k, g, w, w');
      } else {
        var (i, k1) := Restrict(vs[0], cond, likely, p.scope, t, k);
        RestrictSound(vs[0], cond, likely, p, t, k, g, w, w');
        PlaceLater(p, k, k1, t, g);
        SettingMoves(p.scope, t.c, k, w, w', w', k1);
        RestrictionsSound(vs[1..], cond, likely, p, t, k1, g, w, w');
      }
    }
  }

  // ----- narrowing and renaming -----

  /** The range recomputed for a let on leaving holds its value. */
  lemma RecomputedSound(n: Ends, rest: seq<Ends>, p: Place, t: Tools, k0: nat, k1: nat, k: nat, g: Program,
      seen: Lets, w: World, w': World)
    requires n.x in p.lets && n.x in p.scope && PlaceGood(p, k0, g) && ToolsGood(t, k0, g) && k0 <= k && k1 <= k
    requires LetsHold(p.lets, seen, w)
    requires Setting(Pushed(p.scope, rest), t.c, k1, w, w') && AgreeOutside(g.names, Pushed(p.scope, rest), w, w')
    requires Covers(p.scope, w, w')
    ensures In(Lookup(w, n.x, 0), Recomputed(n, rest, p.scope, p.lets, t, k).0, w')
  {
    hide LetValue, Intersect, In, Eval, HasTy, Names, IvGood, Setting;
    var e, scope := p.lets[n.x], Pushed(p.scope, rest);
    assert HasTy(e, n.x.ty) && Below(Names(e), k) && Names(e) <= g.names;
    SettingMoves(scope, t.c, k1, w, w', w', k);
    LetValueSound(e, n.x.ty, scope, t.c, k, w, w', 0);
    assert In(Lookup(w, n.x, 0), p.scope[n.x], w');
    IntersectMeaning(Lookup(w, n.x, 0), LetValue(e, scope, t.c, k).0, p.scope[n.x], t.c.oracle, w');
  }

  lemma IntersectMeaning(v: int, i: Interval, j: Interval, o: Oracle, w: World)
    requires SoundOracle(o) && In(v, i, w) && In(v, j, w)
    ensures In(v, Intersect(i, j, o), w)
  {
    if i.min.Fin? && j.min.Fin? {
      var e := Bin(Max, i.min.e, j.min.e);
      assert Eval(o.simp(e), w, 0) == Eval(e, w, 0);
      EvalMax(i.min.e, j.min.e, w);
    }
    if i.max.Fin? && j.max.Fin? {
      var e := Bin(Min, i.max.e, j.max.e);
      assert Eval(o.simp(e), w, 0) == Eval(e, w, 0);
      EvalMin(i.max.e, j.max.e, w);
    }
    hide Eval, SoundOracle;
  }

  /** What holds around the lets that are being renamed. */
  ghost predicate Outside(p: Place, t: Tools, k0: nat, g: Program, seen: Lets, w: World, w': World) {
    && PlaceGood(p, k0, g) && ToolsGood(t, k0, g) && LetsHold(p.lets, seen, w)
    && Setting(p.scope, t.c, k0, w, w') && AgreeOutside(g.names, p.scope, w, w')
  }

  lemma OutsideMoves(p: Place, t: Tools, k0: nat, g: Program, seen: Lets, w: World, w': World, w'': World)
    requires Outside(p, t, k0, g, seen, w, w') && SameBelow(k0, w', w'')
    ensures Outside(p, t, k0, g, seen, w, w'')
  {
    hide Setting, PlaceGood, LetsHold, SoundOracle, SoundSolver, FuncsGood;
    SettingMoves(p.scope, t.c, k0, w, w', w'', k0);
  }

  /** Renaming lets keeps the setting, in the outer world where the new names are defined. */
  lemma {:induction false} PopSetting(ns: seq<Ends>, xs: seq<Name>, p: Place, t: Tools, k0: nat, k: nat, g: Program,
      seen: Lets, w: World, w': World)
    requires NamesGood(ns, xs, k0) && Elems(xs) <= p.lets.Keys && k0 + 2 * |xs| <= k
    requires Outside(p, t, k0, g, seen, w, w')
    ensures Setting(Pushed(p.scope, ns), t.c, k0 + 2 * |xs|, w, PopWorld(ns, p.scope, p.lets, t, k, w', w))
  {
    hide Outside, Setting, PopWorld, Recomputed, NamesGood, Elems, Pushed;
    if ns != [] {
      NamesGoodTail(ns, xs, k0);
      KnownLet(xs[0], p, t, k0, g, seen, w, w');
      var n := ns[0];
      var (i, k1) := Recomputed(n, ns[1..], p.scope, p.lets, t, k);
      PopWorldStep(ns, p.scope, p.lets, t, k, w', w);
      RecomputedLater(n, ns[1..], p, t, k);
      PopSetting(ns[1..], xs[1..], p, t, k0, k1, g, seen, w, w');
      PopSettingStep(ns, xs, p, t, k0, k, g, seen, w, w');
    } else {
      NothingRenamed(xs, p, t, k0, k, g, seen, w, w');
    }
  }

  lemma NothingRenamed(xs: seq<Name>, p: Place, t: Tools, k0: nat, k: nat, g: Program, seen: Lets, w: World, w': World)
    requires NamesGood([], xs, k0) && Outside(p, t, k0, g, seen, w, w')
    ensures Setting(Pushed(p.scope, []), t.c, k0 + 2 * |xs|, w, PopWorld([], p.scope, p.lets, t, k, w', w))
  {
    hide Setting, LetsHold, PlaceGood, ToolsGood;
  }

  lemma RecomputedLater(n: Ends, rest: seq<Ends>, p: Place, t: Tools, k: nat)
    requires n.x in p.lets && n.x in p.scope
    ensures Recomputed(n, rest, p.scope, p.lets, t, k).1 >= k
  {}

  lemma KnownLet(x: Name, p: Place, t: Tools, k0: nat, g: Program, seen: Lets, w: World, w': World)
    requires Outside(p, t, k0, g, seen, w, w') && x in p.lets
    ensures x in p.scope && !x.vec
  {
    hide Setting, HasTy, Names, Eval;
  }

  lemma PopSettingStep(ns: seq<Ends>, xs: seq<Name>, p: Place, t: Tools, k0: nat, k: nat, g: Program,
      seen: Lets, w: World, w': World)
    requires ns != [] && NamesGood(ns, xs, k0) && NamesGood(ns[1..], xs[1..], k0) && k0 + 2 * |xs| <= k
    requires ns[0].x in p.lets && ns[0].x in p.scope && !ns[0].x.vec
    requires Outside(p, t, k0, g, seen, w, w')
    requires
      var (i, k1) := Recomputed(ns[0], ns[1..], p.scope, p.lets, t, k);
      Setting(Pushed(p.scope, ns[1..]), t.c, k0 + 2 * |xs| - 2, w, PopWorld(ns[1..], p.scope, p.lets, t, k1, w', w))
    ensures Setting(Pushed(p.scope, ns), t.c, k0 + 2 * |xs|, w, PopWorld(ns, p.scope, p.lets, t, k, w', w))
  {
    hide Outside, Setting, Recomputed, DefineWorld, PopWorld, IvGood, EndVars, In, EndWorld, Names, Eval;
    var n := ns[0];
    var (i, k1) := Recomputed(n, ns[1..], p.scope, p.lets, t, k);
    var w1, v, k2 := PopWorld(ns[1..], p.scope, p.lets, t, k1, w', w), Lookup(w, n.x, 0), k0 + 2 * |xs|;
    var w2 := EndWorld(w1, n.mn, i.min, v);
    PopWorldStep(ns, p.scope, p.lets, t, k, w', w);
    PopWorldSame(ns[1..], xs[1..], p.scope, p.lets, t, k0, k1, w', w);
    EndWorldSame(w1, n.mn, i.min, v, k2 - 2);
    RecomputedHolds(n, ns[1..], xs[1..], p, t, k0, k, g, seen, w, w', w1);
    SettingMoves(Pushed(p.scope, ns[1..]), t.c, k2 - 2, w, w1, w2, k2 - 2);
    SameBelowTrans2(k0, k2 - 2, w', w1, w2);
    RecomputedHolds(n, ns[1..], xs[1..], p, t, k0, k, g, seen, w, w', w2);
    RecomputedIsGood(n, ns[1..], xs[1..], p, t, k0, k, g, seen, w, w');
    NewEndsGood(n, k2, k1);
    EndVarsMeaning(v, i, n, k1, w1);
    DefineWorldSame(w1, n, i, v, k2 - 2);
    SettingMoves(Pushed(p.scope, ns[1..]), t.c, k2 - 2, w, w1, DefineWorld(w1, n, i, v), k2);
    NewEndsGood(n, k2, k2);
    EndVarsGood(n, k2);
    BindCovers(Pushed(p.scope, ns[1..]), t.c, k2, w, w, DefineWorld(w1, n, i, v), n.x, EndVars(n));
  }

  lemma NewEndsGood(n: Ends, k: nat, k': nat)
    requires k >= 2 && n == NewEnds(n.x, k - 2) && k <= k'
    ensures EndsGood(n, k')
  {}

  lemma EndWorldSame(w: World, x: Name, b: Ext, other: int, k: nat)
    requires k <= x.serial
    ensures SameBelow(k, w, EndWorld(w, x, b, other))
  {
    hide Eval;
  }

  lemma SameBelowTrans2(k0: nat, k: nat, w: World, w': World, w'': World)
    requires SameBelow(k0, w, w') && SameBelow(k, w', w'') && k0 <= k
    ensures SameBelow(k0, w, w'')
  {}

  lemma RecomputedHolds(n: Ends, rest: seq<Ends>, xs: seq<Name>, p: Place, t: Tools, k0: nat, k: nat, g: Program,
      seen: Lets, w: World, w': World, w1: World)
    requires NamesGood(rest, xs, k0) && n.x in p.lets && n.x in p.scope
        && Outside(p, t, k0, g, seen, w, w') && SameBelow(k0, w', w1)
    requires k0 + 2 * |xs| <= k && Setting(Pushed(p.scope, rest), t.c, k0 + 2 * |xs|, w, w1)
    ensures In(Lookup(w, n.x, 0), Recomputed(n, rest, p.scope, p.lets, t, k).0, w1)
  {
    hide Recomputed, SameBelow, In, IvGood, LetsHold, PlaceGood, ToolsGood, ScopeGood,
        FuncsGood, SoundOracle, FuncsCovered;
    OutsideMoves(p, t, k0, g, seen, w, w', w1);
    PushedKeys(p.scope, rest, xs, k0);
    RecomputedSound(n, rest, p, t, k0, k0 + 2 * |xs|, k, g, seen, w, w1);
  }

  lemma RecomputedIsGood(n: Ends, rest: seq<Ends>, xs: seq<Name>, p: Place, t: Tools, k0: nat, k: nat, g: Program,
      seen: Lets, w: World, w': World)
    requires NamesGood(rest, xs, k0) && n.x in p.lets && n.x in p.scope
        && Outside(p, t, k0, g, seen, w, w') && k0 + 2 * |xs| <= k
    ensures var (i, k1) := Recomputed(n, rest, p.scope, p.lets, t, k); IvGood(i, n.x.ty, k1) && k1 >= k
  {
    hide Recomputed, Setting, LetsHold, IvGood, PlaceGood, ToolsGood;
    RecomputedShape(n, rest, xs, p, t, k0, k, g);
  }

  // ----- statements -----

  /** The run and the outer world fit the place. */
  ghost predicate Runs(p: Place, t: Tools, st: State, g: Program, seen: Lets, w: World, w': World) {
    Worlds(g.names, p, t, st, w, w') && LetsHold(p.lets, seen, w)
  }

  lemma RunsLater(p: Place, t: Tools, st: State, st': State, g: Program, seen: Lets, w: World, w': World)
    requires Runs(p, t, st, g, seen, w, w') && st.k <= st'.k
    ensures Runs(p, t, st', g, seen, w, w')
  {
    hide LetsHold, Worlds;
    WorldsLater(g.names, g.names, p, t, st, st', w, w');
  }

  /** The calls made by any lane of an expression of the program. */
  lemma LanesSound(e: Expr, ty: Ty, p: Place, t: Tools, st: State, g: Program, seen: Lets, w: World, w': World,
                   f: string, pt: seq<int>, d: nat)
    requires HasTy(e, ty) && ExprOk(e, g.arity) && Names(e) <= g.names && Ready(p, t, st, g)
    requires Runs(p, t, st, g, seen, w, w') && TouchExpr(e, p, t, st).Ok()
    requires t.mode.calls && t.mode.Wants(f) && AnyLaneCalls(e, w, f, pt) && d < |pt|
    ensures Covered(TouchExpr(e, p, t, st).boxes, f, d, pt[d], w')
  {
    hide Setting, PlaceGood, BoxesGood, LetsHold, CallsAt, Covered, ExprOk, HasTy, TouchExpr;
    var l: nat :| CallsAt(e, w, l, f, pt);
    WorldsLater(g.names, Names(e), p, t, st, st, w, w');
    TouchExprSound(e, ty, p, t, st, g, w, w', l, f, pt, d);
  }

  lemma ArgLanesSound(args: seq<Expr>, p: Place, t: Tools, st: State, g: Program, seen: Lets, w: World, w': World,
                      f: string, pt: seq<int>, d: nat)
    requires TypedArgs(args) && ArgsOk(args, g.arity) && NamesOfAll(args) <= g.names && Ready(p, t, st, g)
    requires Runs(p, t, st, g, seen, w, w') && TouchArgs(args, p, t, st).Ok()
    requires t.mode.calls && t.mode.Wants(f) && AnyLaneArgsCall(args, w, f, pt) && d < |pt|
    ensures Covered(TouchArgs(args, p, t, st).boxes, f, d, pt[d], w')
  {
    hide Setting, PlaceGood, BoxesGood, LetsHold, ArgsCallAt, Covered, ArgsOk, TouchArgs;
    var l: nat :| ArgsCallAt(args, w, l, f, pt);
    WorldsLater(g.names, NamesOfAll(args), p, t, st, st, w, w');
    TouchArgsSound(args, p, t, st, g, w, w', l, f, pt, d);
  }

  lemma {:induction false} TouchStmtSound(s: Stmt, p: Place, t: Tools, st: State, g: Program, seen: Lets, w: World,
      w': World, f: string, pt: seq<int>, d: nat)
    requires StmtOk(s, g.arity, seen) && StmtIn(s, g) && Ready(p, t, st, g) && Runs(p, t, st, g, seen, w, w')
    requires TouchStmt(s, p, t, st).Ok()
    requires Touches(s, t.mode, w, f, pt) && t.mode.Wants(f) && d < |pt|
    ensures Covered(TouchStmt(s, p, t, st).boxes, f, d, pt[d], w')
    decreases s, 2
  {
    match s
    case Block(first, rest) =>
      hide Ready, Covered, Runs;
      var st1 := TouchStmt(first, p, t, st);
      TouchStmtShape(first, p, t, st, g, seen);
      RunsLater(p, t, st, st1, g, seen, w, w');
      if Touches(first, t.mode, w, f, pt) {
        TouchStmtSound(first, p, t, st, g, seen, w, w', f, pt, d);
        TouchStmtKeeps(rest, p, t, st1, g, seen, f, d, pt[d], w');
      } else {
        TouchStmtSound(rest, p, t, st1, g, seen, w, w', f, pt, d);
      }
    case For(x, min, extent, body) => TouchForSound(x, min, extent, body, p, t, st, g, seen, w, w', f, pt, d);
    case LetStmt(x, v, body) => TouchLetStmtSound(x, v, body, p, t, st, g, seen, w, w', f, pt, d);
    case IfThenElse(c, a, b) => TouchIfSound(c, a, b, p, t, st, g, seen, w, w', f, pt, d);
    case Provide(h, values, args) => TouchProvideSound(h, values, args, p, t, st, g, seen, w, w', f, pt, d);
    case Evaluate(e) =>
      var ty :| HasTy(e, ty);
      LanesSound(e, ty, p, t, st, g, seen, w, w', f, pt, d);
  }

  lemma TouchProvideSound(h: string, values: seq<Expr>, args: seq<Expr>, p: Place, t: Tools, st: State, g: Program,
      seen: Lets, w: World, w': World, f: string, pt: seq<int>, d: nat)
    requires var s := Provide(h, values, args);
             StmtOk(s, g.arity, seen) && StmtIn(s, g) && TouchStmt(s, p, t, st).Ok() && Touches(s, t.mode, w, f, pt)
    requires Ready(p, t, st, g) && Runs(p, t, st, g, seen, w, w') && t.mode.Wants(f) && d < |pt|
    ensures Covered(TouchStmt(Provide(h, values, args), p, t, st).boxes, f, d, pt[d], w')
  {
    NoneGood(g);
    ArgsBelow(values, args, g, st.k);
    hide AddBox, Covered, Ready, Runs, UsedGood;
    var st1 := if t.mode.stores then AddBox(h, args, None, p, t, st) else st;
    var st2 := TouchArgs(args, p, t, st1);
    AddBoxShape(h, args, None, p, t, st, g);
    TouchArgsShape(args, p, t, st1, g);
    RunsLater(p, t, st, st1, g, seen, w, w');
    RunsLater(p, t, st, st2, g, seen, w, w');
    if t.mode.stores && h == f && StoresAt(args, w, pt) {
      StoreCovers(f, args, p, t, st, g, seen, w, w', pt, d);
      if t.mode.calls {
        TouchArgsKeeps(args, p, t, st1, g, f, d, pt[d], w');
        TouchArgsKeeps(values, p, t, st2, g, f, d, pt[d], w');
      }
    } else if AnyLaneArgsCall(args, w, f, pt) {
      ArgLanesSound(args, p, t, st1, g, seen, w, w', f, pt, d);
      TouchArgsKeeps(values, p, t, st2, g, f, d, pt[d], w');
    } else {
      ArgLanesSound(values, p, t, st2, g, seen, w, w', f, pt, d);
    }
  }

  lemma StoreCovers(f: string, args: seq<Expr>, p: Place, t: Tools, st: State, g: Program, seen: Lets, w: World,
      w': World, pt: seq<int>, d: nat)
    requires TypedArgs(args) && NamesOfAll(args) <= g.names && |args| == g.arity(f) && Ready(p, t, st, g)
    requires Runs(p, t, st, g, seen, w, w') && t.mode.Wants(f) && StoresAt(args, w, pt) && d < |pt|
    ensures Covered(AddBox(f, args, None, p, t, st).boxes, f, d, pt[d], w')
  {
    var l: nat :| pt == EvalArgs(args, w, l);
    assert Below(NamesOfAll(args), st.k);
    WorldsLater(g.names, NamesOfAll(args), p, t, st, st, w, w');
    hide Ready, Setting, LetsHold, AddBox, Covered;
    AddBoxCovers(f, args, None, p, t, st, g, w, w', l, d);
  }

  /** Every value a loop variable takes is in the loop's range. */
  lemma LoopRangeSound(min: Expr, extent: Expr, scope: Scope, c: Ctx, k: nat, w: World, w': World, i: int)
    requires HasTy(min, IntT) && HasTy(extent, IntT) && Below(Names(min), k) && Below(Names(extent), k)
    requires Setting(scope, c, k, w, w') && AgreeOutside(Names(min) + Names(extent), scope, w, w')
    requires Eval(min, w, 0) <= i < Eval(min, w, 0) + Eval(extent, w, 0)
    ensures var r := LoopRange(min, extent, scope, c, k).0; r.Some? ==> In(i, r.value, w')
  {
    hide BoundsOf, Eval, HasTy, Names, Setting, In;
    var (lo, k1) := BoundsOf(min, scope, c, k);
    var (ext, k2) := BoundsOf(extent, scope, c, k1);
    var (top, k3) := BoundsOf(min, scope, c, k2);
    SettingMoves(scope, c, k, w, w', w', k1);
    SettingMoves(scope, c, k, w, w', w', k2);
    BoundsSound(min, IntT, scope, c, k, w, w', 0);
    BoundsSound(extent, IntT, scope, c, k1, w, w', 0);
    BoundsSound(min, IntT, scope, c, k2, w, w', 0);
    RangeMeaning(Eval(min, w, 0), Eval(extent, w, 0), i, lo, ext, top, w');
  }

  lemma RangeMeaning(min: int, extent: int, i: int, lo: Interval, ext: Interval, top: Interval, w: World)
    requires In(min, lo, w) && In(extent, ext, w) && In(min, top, w) && min <= i < min + extent
    ensures ext.max.Fin? && top.max.Fin? ==>
      In(i, Interval(lo.min, Fin(Bin(Sub, Bin(Add, ext.max.e, top.max.e), I(1)))), w)
  {
    hide Eval;
    EvalConst(1, w);
    if ext.max.Fin? && top.max.Fin? {
      EvalBinIs(Add, ext.max.e, top.max.e, w);
      EvalBinIs(Sub, Bin(Add, ext.max.e, top.max.e), I(1), w);
    }
  }

  /** Entering an iteration of a loop. */
  lemma LoopRuns(x: Name, min: Expr, extent: Expr, p: Place, t: Tools, st: State, g: Program,
      seen: Lets, w: World, w': World, i: int)
    requires HeadOk(min, extent, g) && !x.vec && x.ty.IntT? && x !in seen && Rebindable(x, seen) && Ready(p, t, st, g)
        && Runs(p, t, st, g, seen, w, w')
    requires Eval(min, w, 0) <= i < Eval(min, w, 0) + Eval(extent, w, 0)
    ensures var (r, k) := LoopRange(min, extent, p.scope, t.c, st.k);
            r.Some? ==> Runs(InsideLoop(x, r.value, p), t, st.(k := k), g, seen, LoopWorld(w, x, i), w')
  {
    var (r, k) := LoopRange(min, extent, p.scope, t.c, st.k);
    if r.Some? {
      assert Below(Names(min), st.k) && Below(Names(extent), st.k);
      LoopRangeSound(min, extent, p.scope, t.c, st.k, w, w', i);
      LoopRangeShape(min, extent, p.scope, t.c, st.k);
      LetsHoldBind(p.lets, seen, w, x, (m: nat) => i);
      SettingMoves(p.scope, t.c, st.k, w, w', w', k);
      hide LoopRange, In, IvGood, Setting, LetsHold, PlaceGood, ToolsGood, BoxesGood, Eval, HasTy, Names;
      BindCovers(p.scope, t.c, k, w, LoopWorld(w, x, i), w', x, r.value);
    }
  }

  lemma TouchForSound(x: Name, min: Expr, extent: Expr, body: Stmt, p: Place, t: Tools, st: State, g: Program,
      seen: Lets, w: World, w': World, f: string, pt: seq<int>, d: nat)
    requires var s := For(x, min, extent, body);
             StmtOk(s, g.arity, seen) && StmtIn(s, g) && TouchStmt(s, p, t, st).Ok() && Touches(s, t.mode, w, f, pt)
    requires Ready(p, t, st, g) && Runs(p, t, st, g, seen, w, w') && t.mode.Wants(f) && d < |pt|
    ensures Covered(TouchStmt(For(x, min, extent, body), p, t, st).boxes, f, d, pt[d], w')
    decreases body, 3
  {
    hide Covered, LoopRange, TouchExpr, Ready, HasTy, Runs, Eval;
    var st1 := HeadState(min, extent, p, t, st);
    HeadShape(min, extent, p, t, st, g);
    RunsLater(p, t, st, st1, g, seen, w, w');
    var (r, k) := LoopRange(min, extent, p.scope, t.c, st1.k);
    LoopShape(x, min, extent, p, t, st1, g);
    var q, st2 := InsideLoop(x, r.value, p), st1.(k := k);
    if i :|
        Eval(min, w, 0) <= i < Eval(min, w, 0) + Eval(extent, w, 0)
        && Touches(body, t.mode, LoopWorld(w, x, i), f, pt) {
      LoopRuns(x, min, extent, p, t, st1, g, seen, w, w', i);
      TouchStmtSound(body, q, t, st2, g, seen, LoopWorld(w, x, i), w', f, pt, d);
    } else {
      HeadSound(min, extent, p, t, st, g, seen, w, w', f, pt, d);
      TouchStmtKeeps(body, q, t, st2, g, seen, f, d, pt[d], w');
    }
  }

  lemma HeadBelow(min: Expr, extent: Expr, p: Place, t: Tools, st: State, g: Program)
    requires HeadOk(min, extent, g) && Ready(p, t, st, g)
    ensures Below(Names(min), st.k) && Below(Names(extent), st.k)
  {
    hide HasTy, ExprOk, PlaceGood, BoxesGood, SoundOracle, SoundSolver, FuncsGood, Names;
  }

  lemma HeadMinSound(min: Expr, extent: Expr, p: Place, t: Tools, st: State, g: Program, seen: Lets, w: World,
      w': World, f: string, pt: seq<int>, d: nat)
    requires HeadOk(min, extent, g) && HeadState(min, extent, p, t, st).Ok() && Ready(p, t, st, g)
        && Runs(p, t, st, g, seen, w, w')
    requires t.mode.calls && AnyLaneCalls(min, w, f, pt) && t.mode.Wants(f) && d < |pt|
    ensures Covered(HeadState(min, extent, p, t, st).boxes, f, d, pt[d], w')
  {
    HeadBelow(min, extent, p, t, st, g);
    hide Covered, Ready, Runs, TouchExpr, AnyLaneCalls, Below, HasTy, Names, ExprOk;
    TouchExprShape(min, IntT, p, t, st, g);
    LanesSound(min, IntT, p, t, st, g, seen, w, w', f, pt, d);
    TouchExprKeeps(extent, IntT, p, t, TouchExpr(min, p, t, st), g, f, d, pt[d], w');
  }

  lemma HeadExtentSound(min: Expr, extent: Expr, p: Place, t: Tools, st: State, g: Program, seen: Lets, w: World,
      w': World, f: string, pt: seq<int>, d: nat)
    requires HeadOk(min, extent, g) && HeadState(min, extent, p, t, st).Ok() && Ready(p, t, st, g)
        && Runs(p, t, st, g, seen, w, w')
    requires t.mode.calls && AnyLaneCalls(extent, w, f, pt) && t.mode.Wants(f) && d < |pt|
    ensures Covered(HeadState(min, extent, p, t, st).boxes, f, d, pt[d], w')
  {
    HeadBelow(min, extent, p, t, st, g);
    hide Covered, Ready, Runs, TouchExpr, AnyLaneCalls, Below, HasTy, Names, ExprOk;
    var st1 := TouchExpr(min, p, t, st);
    TouchExprShape(min, IntT, p, t, st, g);
    RunsLater(p, t, st, st1, g, seen, w, w');
    LanesSound(extent, IntT, p, t, st1, g, seen, w, w', f, pt, d);
  }

  lemma HeadSound(min: Expr, extent: Expr, p: Place, t: Tools, st: State, g: Program, seen: Lets, w: World, w': World,
                  f: string, pt: seq<int>, d: nat)
    requires HeadOk(min, extent, g) && HeadState(min, extent, p, t, st).Ok() && Ready(p, t, st, g)
        && Runs(p, t, st, g, seen, w, w')
    requires t.mode.calls && (AnyLaneCalls(min, w, f, pt) || AnyLaneCalls(extent, w, f, pt))
        && t.mode.Wants(f) && d < |pt|
    ensures Covered(HeadState(min, extent, p, t, st).boxes, f, d, pt[d], w')
  {
    hide Covered, Ready, Runs, TouchExpr, AnyLaneCalls, Below, HasTy, Names, ExprOk;
    if AnyLaneCalls(min, w, f, pt) {
      HeadMinSound(min, extent, p, t, st, g, seen, w, w', f, pt, d);
    } else {
      HeadExtentSound(min, extent, p, t, st, g, seen, w, w', f, pt, d);
    }
  }

  lemma LetStmtRuns(x: Name, v: Expr, p: Place, t: Tools, st: State, g: Program, seen: Lets, w: World, w': World)
    requires HasTy(v, x.ty) && !x.vec && Rebindable(x, seen) && x !in Names(v)
        && Names(v) <= g.names && Ready(p, t, st, g)
    requires Runs(p, t, st, g, seen, w, w')
    ensures
      var (val, k1) := LetValue(v, p.scope, t.c, st.k);
      var (scope, k2) := EnterLet(x, val, p.scope, k1);
      Runs(InsideLet(x, v, scope, p), t, st.(k := k2), g, seen[x := v], LetWorld(w, x, v),
          LetEndsWorld(x, val, k1, w', Eval(v, w, 0)))
  {
    assert Below(Names(v), st.k) && Below(g.names, st.k);
    hide Ready, LetValue, EnterLet, LetEndsWorld, LetsHold, HasTy, Names, Eval, Setting, LetWorld;
    LetWorlds(x, v, g.names, p, t, st, g, w, w');
    LetsHoldLet(p.lets, seen, w, x, v);
  }

  lemma TouchLetStmtSound(x: Name, v: Expr, body: Stmt, p: Place, t: Tools, st: State, g: Program, seen: Lets,
                          w: World, w': World, f: string, pt: seq<int>, d: nat)
    requires var s := LetStmt(x, v, body);
             StmtOk(s, g.arity, seen) && StmtIn(s, g) && TouchStmt(s, p, t, st).Ok() && Touches(s, t.mode, w, f, pt)
    requires Ready(p, t, st, g) && Runs(p, t, st, g, seen, w, w') && t.mode.Wants(f) && d < |pt|
    ensures Covered(TouchStmt(LetStmt(x, v, body), p, t, st).boxes, f, d, pt[d], w')
    decreases body, 3
  {
    hide LetValue, EnterLet, LeaveLet, IvGood, HasTy, TouchExpr, PlaceGood, BoxesGood, Covered, LetEndsWorld,
        IsSmallInterval, LetWorld, Runs, Eval, AnyLaneCalls;
    assert Below(Names(v), st.k);
    var seen1, st1 := seen[x := v], TouchExpr(v, p, t, st);
    TouchExprShape(v, x.ty, p, t, st, g);
    RunsLater(p, t, st, st1, g, seen, w, w');
    var (val, k1) := LetValue(v, p.scope, t.c, st1.k);
    var (scope, k2) := EnterLet(x, val, p.scope, k1);
    var q, st2 := InsideLet(x, v, scope, p), st1.(k := k2);
    InsideLetStmtShape(x, v, p, t, st1, g);
    TouchStmtShape(body, q, t, st2, g, seen1);
    var st3, w1' := TouchStmt(body, q, t, st2), LetEndsWorld(x, val, k1, w', Eval(v, w, 0));
    LeaveLetOk(x, val, k1, st3);
    if Touches(body, t.mode, LetWorld(w, x, v), f, pt) {
      LetStmtRuns(x, v, p, t, st1, g, seen, w, w');
      TouchStmtSound(body, q, t, st2, g, seen1, LetWorld(w, x, v), w1', f, pt, d);
    } else {
      LanesSound(v, x.ty, p, t, st, g, seen, w, w', f, pt, d);
      LetEndsWorldSame(x, val, k1, w', Eval(v, w, 0));
      CoveredMoves(st1.boxes, f, d, pt[d], w', w1', st1.k, g);
      TouchStmtKeeps(body, q, t, st2, g, seen1, f, d, pt[d], w1');
    }
    LeaveLetMoves(x, val, k1, st3, g, f, d, pt[d], w', Eval(v, w, 0));
  }

  lemma TouchIfSound(c: Expr, a: Stmt, b: Option<Stmt>, p: Place, t: Tools, st: State, g: Program, seen: Lets,
                     w: World, w': World, f: string, pt: seq<int>, d: nat)
    requires var s := IfThenElse(c, a, b);
             StmtOk(s, g.arity, seen) && StmtIn(s, g) && TouchStmt(s, p, t, st).Ok() && Touches(s, t.mode, w, f, pt)
    requires Ready(p, t, st, g) && Runs(p, t, st, g, seen, w, w') && t.mode.Wants(f) && d < |pt|
    ensures Covered(TouchStmt(IfThenElse(c, a, b), p, t, st).boxes, f, d, pt[d], w')
    decreases IfThenElse(c, a, b), 1
  {
    hide Covered, TouchExpr, Runs, TouchCase, Fork, Eval, AnyLaneCalls, Touches;
    assert Below(Names(c), st.k);
    var st1 := TouchExpr(c, p, t, st);
    TouchExprShape(c, BoolT, p, t, st, g);
    RunsLater(p, t, st, st1, g, seen, w, w');
    ConditionTaken(c, a, b, t, w, f, pt);
    if t.mode.calls && AnyLaneCalls(c, w, f, pt) {
      LanesSound(c, BoolT, p, t, st, g, seen, w, w', f, pt, d);
      IfKeepsRest(c, a, b, p, t, st, g, seen, w', f, d, pt[d]);
    } else if UsesScope(c, p.scope) || !IsPure(c) {
      TouchCasesSound(c, a, b, p, t, st1, g, seen, w, w', f, pt, d);
    } else {
      TouchForkSound(c, a, b, p, t, st1, g, seen, w, w', f, pt, d);
    }
  }

  /** What a run of an `if` touches. */
  lemma ConditionTaken(c: Expr, a: Stmt, b: Option<Stmt>, t: Tools, w: World, f: string, pt: seq<int>)
    requires Touches(IfThenElse(c, a, b), t.mode, w, f, pt)
    ensures (t.mode.calls && AnyLaneCalls(c, w, f, pt)) || BranchTouches(c, a, b, t.mode, w, f, pt)
  {}

  ghost predicate BranchTouches(c: Expr, a: Stmt, b: Option<Stmt>, m: Mode, w: World, f: string, pt: seq<int>) {
    if Eval(c, w, 0) != 0 then Touches(a, m, w, f, pt) else b.Some? && Touches(b.value, m, w, f, pt)
  }

  /** What the condition of an `if` touches stays in the boxes. */
  lemma IfKeepsRest(c: Expr, a: Stmt, b: Option<Stmt>, p: Place, t: Tools, st: State, g: Program, seen: Lets,
      w: World, f: string, d: nat, v: int)
    requires var s := IfThenElse(c, a, b); StmtOk(s, g.arity, seen) && StmtIn(s, g) && TouchStmt(s, p, t, st).Ok()
    requires Ready(p, t, st, g) && Ready(p, t, TouchExpr(c, p, t, st), g)
        && Covered(TouchExpr(c, p, t, st).boxes, f, d, v, w)
    ensures Covered(TouchStmt(IfThenElse(c, a, b), p, t, st).boxes, f, d, v, w)
  {
    var st1 := TouchExpr(c, p, t, st);
    if UsesScope(c, p.scope) || !IsPure(c) {
      SimplifiedCondition(c, t, g);
      hide Ready, TouchCase, Covered, TouchExpr;
      var c1, c2 := t.c.oracle.simp(c), t.c.oracle.simp(Un(Not, c));
      var st2 := TouchCase(c1, c, a, p, t, st1);
      TouchCaseShape(c1, c, a, p, t, st1, g, seen);
      TouchCaseKeeps(c1, c, a, p, t, st1, g, seen, f, d, v, w);
      if b.Some? && !IsNoOp(b.value) { TouchCaseKeeps(c2, c, b.value, p, t, st2, g, seen, f, d, v, w); }
    } else {
      hide Covered, Fork, TouchExpr;
      ForkStates(c, a, b, p, t, st1, g, seen);
      var (sa, sb) := ForkSides(a, b, p, t, st1);
      ForkKeeps(c, sa.boxes, sb.boxes, st1.boxes, t.c.oracle, sb.k, g, f, d, v, w);
    }
  }

  /** The two cases visited in narrowed scopes. */
  lemma TouchCasesSound(c: Expr, a: Stmt, b: Option<Stmt>, p: Place, t: Tools, st: State, g: Program, seen: Lets,
                        w: World, w': World, f: string, pt: seq<int>, d: nat)
    requires StmtOk(IfThenElse(c, a, b), g.arity, seen) && StmtIn(IfThenElse(c, a, b), g)
    requires Ready(p, t, st, g) && Runs(p, t, st, g, seen, w, w') && t.mode.Wants(f) && d < |pt|
    requires BranchTouches(c, a, b, t.mode, w, f, pt)
    requires Cases(c, a, b, p, t, st).Ok()
    ensures Covered(Cases(c, a, b, p, t, st).boxes, f, d, pt[d], w')
    decreases IfThenElse(c, a, b), 0
  {
    SimplifiedCondition(c, t, g);
    ConditionValue(c, t.c.oracle, w);
    hide Ready, TouchCase, Covered, Runs, Eval, HasTy, Names, Touches, SoundOracle, StmtOk, StmtIn, IsNoOp;
    IfParts(c, a, b, g, seen);
    var c1, c2 := t.c.oracle.simp(c), t.c.oracle.simp(Un(Not, c));
    var st1 := TouchCase(c1, c, a, p, t, st);
    TouchCaseShape(c1, c, a, p, t, st, g, seen);
    if Eval(c, w, 0) != 0 {
      TouchCaseSound(c1, c, a, p, t, st, g, seen, w, w', f, pt, d);
      if b.Some? && !IsNoOp(b.value) { TouchCaseKeeps(c2, c, b.value, p, t, st1, g, seen, f, d, pt[d], w'); }
    } else {
      RunsLater(p, t, st, st1, g, seen, w, w');
      if IsNoOp(b.value) { NoOpTouchesNothing(b.value, t.mode, w, f, pt); }
      TouchCaseSound(c2, c, b.value, p, t, st1, g, seen, w, w', f, pt, d);
    }
  }

  lemma IfParts(c: Expr, a: Stmt, b: Option<Stmt>, g: Program, seen: Lets)
    requires StmtOk(IfThenElse(c, a, b), g.arity, seen) && StmtIn(IfThenElse(c, a, b), g)
    ensures StmtOk(a, g.arity, seen) && StmtIn(a, g)
        && (b.Some? ==> StmtOk(b.value, g.arity, seen) && StmtIn(b.value, g))
    ensures HasTy(c, BoolT) && Names(c) <= g.names && ScalarNames(c)
  {}

  function Cases(c: Expr, a: Stmt, b: Option<Stmt>, p: Place, t: Tools, st: State): (r: State) {
    var st1 := TouchCase(t.c.oracle.simp(c), c, a, p, t, st);
    if b.Some? && !IsNoOp(b.value) then TouchCase(t.c.oracle.simp(Un(Not, c)), c, b.value, p, t, st1) else st1
  }

  lemma ConditionValue(c: Expr, o: Oracle, w: World)
    requires SoundOracle(o)
    ensures Eval(o.simp(c), w, 0) == Eval(c, w, 0)
    ensures Eval(o.simp(Un(Not, c)), w, 0) == B2I(Eval(c, w, 0) == 0)
  {
    assert Eval(o.simp(Un(Not, c)), w, 0) == Eval(Un(Not, c), w, 0);
    EvalNot(c, w);
  }

  /** A condition about nothing in scope has the same value in both worlds. */
  lemma TouchForkSound(c: Expr, a: Stmt, b: Option<Stmt>, p: Place, t: Tools, st: State, g: Program, seen: Lets,
                       w: World, w': World, f: string, pt: seq<int>, d: nat)
    requires StmtOk(IfThenElse(c, a, b), g.arity, seen) && StmtIn(IfThenElse(c, a, b), g)
        && !UsesScope(c, p.scope) && IsPure(c)
    requires Ready(p, t, st, g) && Runs(p, t, st, g, seen, w, w') && t.mode.Wants(f) && d < |pt|
    requires BranchTouches(c, a, b, t.mode, w, f, pt)
    requires ForkSides(a, b, p, t, st).1.Ok()
    ensures var (sa, sb) := ForkSides(a, b, p, t, st);
            Covered(Fork(c, sa.boxes, sb.boxes, st.boxes, t.c.oracle), f, d, pt[d], w')
    decreases IfThenElse(c, a, b), 0
  {
    assert Eval(c, w, 0) == Eval(c, w', 0) by { EvalAgree(c, w, w', 0); }
    hide Covered, Fork, Eval, Runs, HasTy, Names, Touches, StmtOk, StmtIn, TouchStmt, PlaceGood;
    IfParts(c, a, b, g, seen);
    ForkStates(c, a, b, p, t, st, g, seen);
    var (sa, sb) := ForkSides(a, b, p, t, st);
    var st1, st2 := st.(boxes := map[]), sa.(boxes := map[]);
    RunsLater(p, t, st, st1, g, seen, w, w');
    if Eval(c, w, 0) != 0 {
      TouchStmtSound(a, p, t, st1, g, seen, w, w', f, pt, d);
    } else {
      RunsLater(p, t, st, st2, g, seen, w, w');
      TouchStmtSound(b.value, p, t, st2, g, seen, w, w', f, pt, d);
    }
    ForkKeeps(c, sa.boxes, sb.boxes, st.boxes, t.c.oracle, sb.k, g, f, d, pt[d], w');
  }

  lemma WithoutTag(c: Expr, w: World)
    requires HasTy(c, BoolT)
    ensures c.Un? && c.uop.Likely? ==>
        HasTy(c.arg, BoolT) && Names(c.arg) == Names(c)
        && Eval(c.arg, w, 0) == Eval(c, w, 0)
  {}

  lemma TouchCaseSound(c: Expr, cond: Expr, body: Stmt, p: Place, t: Tools, st: State, g: Program, seen: Lets,
                       w: World, w': World, f: string, pt: seq<int>, d: nat)
    requires HasTy(c, BoolT) && Names(c) <= g.names && ScalarNames(cond) && Eval(c, w, 0) != 0
    requires StmtOk(body, g.arity, seen) && StmtIn(body, g) && Ready(p, t, st, g) && Runs(p, t, st, g, seen, w, w')
    requires TouchCase(c, cond, body, p, t, st).Ok()
    requires Touches(body, t.mode, w, f, pt) && t.mode.Wants(f) && d < |pt|
    ensures Covered(TouchCase(c, cond, body, p, t, st).boxes, f, d, pt[d], w')
    decreases body, 4 + |Occurrences(cond)|
  {
    hide Restrictions, Setting, LetsHold, PlaceGood, BoxesGood, HasTy, Names, StmtOk, StmtIn, RestrictionsGood,
        Covered, TrimAll, Touches, Eval, TouchStmt;
    var likely := c.Un? && c.uop.Likely?;
    var c' := if likely then c.arg else c;
    WithoutTag(c, w);
    CaseRestrictions(c, cond, p, t, st, g);
    var (rs, k) := Restrictions(Occurrences(cond), c', likely, p.scope, t, st.k);
    RestrictionsSound(Occurrences(cond), c', likely, p, t, st.k, g, w, w');
    RunsLater(p, t, st, st.(k := k), g, seen, w, w');
    TrimAllSound(rs, body, p, t, st.(k := k), g, seen, w, w', f, pt, d);
  }

  lemma TrimAllSound(rs: seq<Restriction>, body: Stmt, p: Place, t: Tools, st: State, g: Program, seen: Lets,
                     w: World, w': World, f: string, pt: seq<int>, d: nat)
    requires RestrictionsGood(rs, p.scope, st.k) && RestrictionsHold(rs, w, w')
    requires StmtOk(body, g.arity, seen) && StmtIn(body, g) && Ready(p, t, st, g) && Runs(p, t, st, g, seen, w, w')
    requires TrimAll(rs, body, p, t, st).Ok()
    requires Touches(body, t.mode, w, f, pt) && t.mode.Wants(f) && d < |pt|
    ensures Covered(TrimAll(rs, body, p, t, st).boxes, f, d, pt[d], w')
    decreases body, 3 + |rs|
  {
    hide Ready, StmtOk, StmtIn, PopLets, DependentNames, Narrowed, Renamed, RestrictionsGood, RestrictionGood,
        PlaceGood, Covered, TrimWorld, Touches, Runs, RestrictionsHold, TrimAll, TouchStmt;
    TrimAllStep(rs, body, p, t, st);
    if rs == [] {
      TouchStmtSound(body, p, t, st, g, seen, w, w', f, pt, d);
    } else {
      var ns := DependentNames(p, rs[0].x, st.k);
      var q := Renamed(Narrowed(p, rs[0]), ns);
      var st1 := st.(k := st.k + 2 * |ns|);
      var st2 := TrimAll(rs[1..], body, q, t, st1);
      RestrictionsSplit(rs, p.scope, st.k);
      NarrowedShape(rs[0], p, t, st, g);
      NarrowedRest(rs[1..], rs[0], p, st.k);
      TrimAllShape(rs[1..], body, q, t, st1, g, seen);
      var w1 := TrimWorld(rs[0], p, t, st.k, st2.k, w', w);
      NarrowedRuns(rs, p, t, st, st2.k, g, seen, w, w');
      TrimAllSound(rs[1..], body, q, t, st1, g, seen, w, w1, f, pt, d);
      TrimmedMoves(rs[0], p, t, st, st2, g, f, d, pt[d], w', w);
    }
  }

  /** Narrowing one variable: the run fits the narrowed place, and the other ranges still hold. */
  lemma NarrowedRuns(rs: seq<Restriction>, p: Place, t: Tools, st: State, k: nat, g: Program,
      seen: Lets, w: World, w': World)
    requires rs != [] && RestrictionsGood(rs, p.scope, st.k) && RestrictionsHold(rs, w, w')
    requires Ready(p, t, st, g) && Runs(p, t, st, g, seen, w, w') && PlaceGood(Narrowed(p, rs[0]), st.k, g)
    requires st.k + 2 * |DependentNames(p, rs[0].x, st.k)| <= k
    ensures
      var ns := DependentNames(p, rs[0].x, st.k);
      var w1 := TrimWorld(rs[0], p, t, st.k, k, w', w);
      && Runs(Renamed(Narrowed(p, rs[0]), ns), t, st.(k := st.k + 2 * |ns|), g, seen, w, w1)
      && RestrictionsHold(rs[1..], w, w1)
  {
    hide TrimWorld, DependentNames, PlaceGood, RestrictionsGood, RestrictionsHold, Ready, Runs;
    TrimWorldSame(rs[0], p, t, st.k, k, w', w);
    RestrictionsHoldLater(rs, p, st.k, w, w', TrimWorld(rs[0], p, t, st.k, k, w', w));
    NarrowedOutside(rs, p, t, st, g, seen, w, w');
    ChildrenAreLets(p, t, st, g);
    RenamedRuns(rs[0], p, t, st, k, g, seen, w, w');
  }

  lemma ChildrenAreLets(p: Place, t: Tools, st: State, g: Program)
    requires Ready(p, t, st, g)
    ensures AllInsts(p.children) <= p.lets.Keys
  {}

  lemma RestrictionsHoldLater(rs: seq<Restriction>, p: Place, k: nat, w: World, w': World, w1: World)
    requires rs != [] && RestrictionsGood(rs, p.scope, k) && RestrictionsHold(rs, w, w') && SameBelow(k, w', w1)
    ensures RestrictionsHold(rs[1..], w, w1)
  {
    hide IvGood, In, SameBelow;
    forall i | 0 <= i < |rs[1..]| ensures In(Lookup(w, rs[1..][i].x, 0), rs[1..][i].i, w1) {
      assert RestrictionGood(rs[i + 1], p.scope, k);
      InMoves(Lookup(w, rs[i + 1].x, 0), rs[i + 1].i, rs[i + 1].x.ty, k, w', w1);
    }
  }

  lemma NarrowedOutside(rs: seq<Restriction>, p: Place, t: Tools, st: State, g: Program,
      seen: Lets, w: World, w': World)
    requires rs != [] && RestrictionsGood(rs, p.scope, st.k) && RestrictionsHold(rs, w, w')
    requires Ready(p, t, st, g) && Runs(p, t, st, g, seen, w, w') && PlaceGood(Narrowed(p, rs[0]), st.k, g)
    ensures Outside(Narrowed(p, rs[0]), t, st.k, g, seen, w, w')
  {
    hide In, IvGood, Setting, PlaceGood, BoxesGood, LetsHold, SoundOracle, SoundSolver;
    var r := rs[0];
    assert RestrictionGood(r, p.scope, st.k);
    assert forall m: nat :: Lookup(w, r.x, m) == Lookup(w, r.x, 0);
    BindCovers(p.scope, t.c, st.k, w, w, w', r.x, r.i);
  }

  lemma RenamedRuns(r: Restriction, p: Place, t: Tools, st: State, k: nat, g: Program, seen: Lets, w: World, w': World)
    requires Outside(Narrowed(p, r), t, st.k, g, seen, w, w') && AllInsts(p.children) <= p.lets.Keys
    requires st.k + 2 * |DependentNames(p, r.x, st.k)| <= k
    ensures
      var ns := DependentNames(p, r.x, st.k);
      Runs(Renamed(Narrowed(p, r), ns), t, st.(k := st.k + 2 * |ns|), g, seen, w, TrimWorld(r, p, t, st.k, k, w', w))
  {
    hide Outside, Setting, LetsHold, Dependents, NameLets, PopWorld, Pushed, NamesGood, Elems,
        AllInsts, SameBelow, AgreeOutside;
    var xs, q := Dependents(p, r.x), Narrowed(p, r);
    var ns := NameLets(xs, st.k);
    NameLetsMeaning(xs, st.k);
    DependentsAreLets(r.x, p);
    NamesGoodCount(ns, xs, st.k);
    PopSetting(ns, xs, q, t, st.k, k, g, seen, w, w');
    PopWorldSame(ns, xs, q.scope, p.lets, t, st.k, k, w', w);
    PushedKeys(q.scope, ns, xs, st.k);
    RenamedAgree(q, t, st.k, g, seen, w, w', PopWorld(ns, q.scope, p.lets, t, k, w', w), Pushed(q.scope, ns));
  }

  lemma NamesGoodCount(ns: seq<Ends>, xs: seq<Name>, k: nat)
    requires NamesGood(ns, xs, k)
    ensures |ns| == |xs|
  {}

  lemma RenamedAgree(q: Place, t: Tools, k: nat, g: Program, seen: Lets, w: World, w': World, w1: World, scope: Scope)
    requires Outside(q, t, k, g, seen, w, w') && SameBelow(k, w', w1) && q.scope.Keys <= scope.Keys
    ensures AgreeOutside(g.names, scope, w, w1) && LetsHold(q.lets, seen, w)
  {
    hide LetsHold, Setting, PlaceGood, SoundOracle, SoundSolver, FuncsGood;
  }

  lemma DependentsAreLets(x: Name, p: Place)
    requires AllInsts(p.children) <= p.lets.Keys
    ensures Elems(Dependents(p, x)) <= p.lets.Keys
  {
    hide AllChildren, AllInsts;
    VisibleMeaning(p.children, p.depth);
    TrimOrderMeaning(x, Visible(p.children, p.depth));
  }

  // ----- boxes_touched -----

  /** Every touched point has as many coordinates as the Func has dimensions. */
  lemma {:induction false} CallsArity(e: Expr, arity: string -> nat, w: World, l: nat, f: string, pt: seq<int>)
    requires ExprOk(e, arity) && CallsAt(e, w, l, f, pt)
    ensures |pt| == arity(f)
    decreases Size(e)
  {
    match e
    case Un(op, a) => CallsArity(a, arity, w, if op.Broadcast? then 0 else l, f, pt);
    case Bin(_, a, b) => CallsArity(if CallsAt(a, w, l, f, pt) then a else b, arity, w, l, f, pt);
    case Select(c, x, y) =>
      CallsArity(if CallsAt(c, w, l, f, pt) then c else if CallsAt(x, w, l, f, pt) then x else y, arity, w, l, f, pt);
    case Ramp(b, s, _) => CallsArity(if CallsAt(b, w, 0, f, pt) then b else s, arity, w, 0, f, pt);
    case Let(x, v, b) =>
      var m := CallsInLet(x, v, b, w, l, f, pt);
      if CallsAt(v, w, m, f, pt) { CallsArity(v, arity, w, m, f, pt); } else {
        CallsArity(b, arity, LetWorld(w, x, v), l, f, pt);
      }
    case Call(_, _, _, args) => if ArgsCallAt(args, w, l, f, pt) { ArgsCallArity(args, arity, w, l, f, pt); }
  }

  lemma {:induction false} ArgsCallArity(args: seq<Expr>, arity: string -> nat, w: World,
      l: nat, f: string, pt: seq<int>)
    requires ArgsOk(args, arity) && ArgsCallAt(args, w, l, f, pt)
    ensures |pt| == arity(f)
    decreases SizeAll(args)
  {
    if CallsAt(args[0], w, l, f, pt) { CallsArity(args[0], arity, w, l, f, pt); } else {
      ArgsCallArity(args[1..], arity, w, l, f, pt);
    }
  }

  lemma {:induction false} TouchesArity(s: Stmt, arity: string -> nat, seen: Lets, m: Mode,
      w: World, f: string, pt: seq<int>)
    requires StmtOk(s, arity, seen) && Touches(s, m, w, f, pt)
    ensures |pt| == arity(f)
    decreases s
  {
    match s
    case Block(first, rest) =>
        TouchesArity(if Touches(first, m, w, f, pt) then first else rest, arity, seen, m, w, f, pt);
    case For(x, min, extent, body) =>
      if l: nat :| CallsAt(min, w, l, f, pt) { CallsArity(min, arity, w, l, f, pt); }
      else if l: nat :| CallsAt(extent, w, l, f, pt) { CallsArity(extent, arity, w, l, f, pt); }
      else {
        var i :| Eval(min, w, 0) <= i < Eval(min, w, 0) + Eval(extent, w, 0)
            && Touches(body, m, LoopWorld(w, x, i), f, pt);
        TouchesArity(body, arity, seen, m, LoopWorld(w, x, i), f, pt);
      }
    case LetStmt(x, v, body) =>
      if l: nat :| CallsAt(v, w, l, f, pt) { CallsArity(v, arity, w, l, f, pt); }
      else { TouchesArity(body, arity, seen[x := v], m, LetWorld(w, x, v), f, pt); }
    case IfThenElse(c, a, b) =>
      if l: nat :| CallsAt(c, w, l, f, pt) { CallsArity(c, arity, w, l, f, pt); }
      else if Eval(c, w, 0) != 0 { TouchesArity(a, arity, seen, m, w, f, pt); }
      else { TouchesArity(b.value, arity, seen, m, w, f, pt); }
    case Provide(g, values, args) =>
      if l: nat :| ArgsCallAt(args, w, l, f, pt) { ArgsCallArity(args, arity, w, l, f, pt); }
      else if l: nat :| ArgsCallAt(values, w, l, f, pt) { ArgsCallArity(values, arity, w, l, f, pt); }
    case Evaluate(e) =>
      var l: nat :| CallsAt(e, w, l, f, pt);
      CallsArity(e, arity, w, l, f, pt);
  }

  /** What is touched is touched by a call or by a store. */
  lemma {:induction false} TouchesSplit(s: Stmt, fn: string, w: World, f: string, pt: seq<int>)
    requires Touches(s, Mode(true, true, fn), w, f, pt)
    ensures Touches(s, Mode(true, false, fn), w, f, pt) || Touches(s, Mode(false, true, fn), w, f, pt)
    decreases s
  {
    var both, calls, stores := Mode(true, true, fn), Mode(true, false, fn), Mode(false, true, fn);
    match s
    case Block(first, rest) =>
      if Touches(first, both, w, f, pt) { TouchesSplit(first, fn, w, f, pt); } else {
        TouchesSplit(rest, fn, w, f, pt);
      }
    case For(x, min, extent, body) =>
      if i :|
          Eval(min, w, 0) <= i < Eval(min, w, 0) + Eval(extent, w, 0)
          && Touches(body, both, LoopWorld(w, x, i), f, pt) {
        TouchesSplit(body, fn, LoopWorld(w, x, i), f, pt);
        assert Touches(body, calls, LoopWorld(w, x, i), f, pt) || Touches(body, stores, LoopWorld(w, x, i), f, pt);
      }
    case LetStmt(x, v, body) =>
      if Touches(body, both, LetWorld(w, x, v), f, pt) { TouchesSplit(body, fn, LetWorld(w, x, v), f, pt); }
    case IfThenElse(c, a, b) =>
      if Eval(c, w, 0) != 0 {
        if Touches(a, both, w, f, pt) { TouchesSplit(a, fn, w, f, pt); }
      } else if b.Some? && Touches(b.value, both, w, f, pt) {
        TouchesSplit(b.value, fn, w, f, pt);
      }
    case _ =>
  }

  /** What boxes_touched is given. */
  ghost predicate Given(s: Stmt, scope: Scope, c: Ctx, solve: Solver, k: nat, g: Program) {
    && SoundOracle(c.oracle) && SoundSolver(solve) && ScopeGood(scope, k) && FuncsGood(c.funcBounds, k)
    && Below(g.names, k) && StmtOk(s, g.arity, map[]) && StmtIn(s, g)
  }

  /** The boxes are well formed and, unless the compiler had to give up, hold
      every point that any run touches, by a call or by a store. `w` is the run
      and `w'` any outer world in which the scope holds: whatever the names made
      up on the way mean in it, the boxes are right. */
  lemma BoxesTouchedSound(s: Stmt, scope: Scope, c: Ctx, solve: Solver, fn: string, k: nat, g: Program,
                          w: World, w': World, f: string, pt: seq<int>)
    requires Given(s, scope, c, solve, k, g) && BoxesTouched(s, scope, c, solve, fn, k).Ok()
    requires Covers(scope, w, w') && AgreeOutside(g.names, scope, w, w') && FuncsCovered(c.funcBounds, w, w')
    requires Touches(s, Mode(true, true, fn), w, f, pt) && (f == fn || fn == "") && pt != []
    ensures var r := BoxesTouched(s, scope, c, solve, fn, k);
            f in r.boxes && InBox(r.boxes[f], pt, w') && BoxesGood(r.boxes, r.k, g)
  {
    hide BoxesGood, Covered, Merge, TouchStmt, Touches, StmtOk, StmtIn, SoundOracle, SoundSolver, In;
    var r := BoxesTouched(s, scope, c, solve, fn, k);
    BothShape(s, scope, c, solve, fn, k, g);
    TouchesArity(s, g.arity, map[], Mode(true, true, fn), w, f, pt);
    forall d: nat | d < |pt| ensures Covered(r.boxes, f, d, pt[d], w') {
      BothSound(s, scope, c, solve, fn, k, g, w, w', f, pt, d);
    }
    CoveredIsIn(r.boxes, r.k, g, f, pt, w');
  }

  /** The two visits, of calls and of stores. */
  function OneVisit(s: Stmt, scope: Scope, c: Ctx, solve: Solver, m: Mode, k: nat): State {
    TouchStmt(s, Outermost(scope), Tools(c, solve, m), State(map[], k, Fine))
  }

  lemma OneVisitSound(s: Stmt, scope: Scope, c: Ctx, solve: Solver, m: Mode, k: nat, g: Program)
    requires Given(s, scope, c, solve, k, g)
    ensures var r := OneVisit(s, scope, c, solve, m, k);
            Ready(Outermost(scope), Tools(c, solve, m), r, g) && r.k >= k
    ensures forall w: World, w': World, f: string, pt: seq<int>, d: nat ::
      OneVisit(s, scope, c, solve, m, k).Ok()
      && Covers(scope, w, w') && AgreeOutside(g.names, scope, w, w') && FuncsCovered(c.funcBounds, w, w')
      && Touches(s, m, w, f, pt) && m.Wants(f) && d < |pt|
      ==> Covered(OneVisit(s, scope, c, solve, m, k).boxes, f, d, pt[d], w')
  {
    hide ScopeGood, FuncsGood, StmtOk, StmtIn, SoundOracle, SoundSolver, TouchStmt, Touches, Covered,
        Covers, AgreeOutside, FuncsCovered;
    var p, t, st := Outermost(scope), Tools(c, solve, m), State(map[], k, Fine);
    assert AllInsts(p.children) == {};
    TouchStmtShape(s, p, t, st, g, map[]);
    forall w: World, w': World, f: string, pt: seq<int>, d: nat |
      OneVisit(s, scope, c, solve, m, k).Ok()
      && Covers(scope, w, w') && AgreeOutside(g.names, scope, w, w') && FuncsCovered(c.funcBounds, w, w')
      && Touches(s, m, w, f, pt) && m.Wants(f) && d < |pt|
      ensures Covered(OneVisit(s, scope, c, solve, m, k).boxes, f, d, pt[d], w')
    {
      TouchStmtSound(s, p, t, st, g, map[], w, w', f, pt, d);
    }
  }

  lemma BothShape(s: Stmt, scope: Scope, c: Ctx, solve: Solver, fn: string, k: nat, g: Program)
    requires Given(s, scope, c, solve, k, g)
    ensures var r := BoxesTouched(s, scope, c, solve, fn, k); BoxesGood(r.boxes, r.k, g) && Below(g.names, r.k)
  {
    hide TouchStmt, StmtOk, StmtIn, SoundSolver, Merge, UsedGood, IvGood, SoundOracle;
    var a := OneVisit(s, scope, c, solve, Mode(true, false, fn), k);
    OneVisitSound(s, scope, c, solve, Mode(true, false, fn), k, g);
    assert Given(s, scope, c, solve, a.k, g) by { LaterShape(scope, c.funcBounds, k, a.k); }
    OneVisitSound(s, scope, c, solve, Mode(false, true, fn), a.k, g);
    var b := OneVisit(s, scope, c, solve, Mode(false, true, fn), a.k);
    BoxesLater(a.boxes, a.k, b.k, g);
    NoneGood(g);
    forall f | f in a.boxes.Keys + b.boxes.Keys
      ensures BoxGood(Merge(BoxOf(a.boxes, f), BoxOf(b.boxes, f), c.oracle), g.arity(f), b.k, g)
    {
      MergeGood(BoxOf(a.boxes, f), BoxOf(b.boxes, f), c.oracle, g.arity(f), b.k, g);
    }
  }

  lemma BothSound(s: Stmt, scope: Scope, c: Ctx, solve: Solver, fn: string, k: nat, g: Program,
                  w: World, w': World, f: string, pt: seq<int>, d: nat)
    requires Given(s, scope, c, solve, k, g) && BoxesTouched(s, scope, c, solve, fn, k).Ok()
    requires Covers(scope, w, w') && AgreeOutside(g.names, scope, w, w') && FuncsCovered(c.funcBounds, w, w')
    requires Touches(s, Mode(true, true, fn), w, f, pt) && (f == fn || fn == "") && d < |pt|
    ensures Covered(BoxesTouched(s, scope, c, solve, fn, k).boxes, f, d, pt[d], w')
  {
    hide TouchStmt, StmtOk, StmtIn, SoundSolver, Merge, UsedGood, IvGood, SoundOracle, Touches, Covers,
        AgreeOutside, FuncsCovered, InDim;
    var calls, stores := Mode(true, false, fn), Mode(false, true, fn);
    var a := OneVisit(s, scope, c, solve, calls, k);
    OneVisitSound(s, scope, c, solve, calls, k, g);
    assert Given(s, scope, c, solve, a.k, g) by { LaterShape(scope, c.funcBounds, k, a.k); }
    OneVisitSound(s, scope, c, solve, stores, a.k, g);
    var b := OneVisit(s, scope, c, solve, stores, a.k);
    TouchesSplit(s, fn, w, f, pt);
    assert Covered(a.boxes, f, d, pt[d], w') || Covered(b.boxes, f, d, pt[d], w');
    assert f in a.boxes ==> BoxGood(a.boxes[f], g.arity(f), a.k, g);
    assert f in b.boxes ==> BoxGood(b.boxes[f], g.arity(f), b.k, g);
    MergeKeeps(BoxOf(a.boxes, f), BoxOf(b.boxes, f), c.oracle, d, pt[d], w');
  }

  /** A point each of whose coordinates is covered is in the box. */
  lemma CoveredIsIn(boxes: BoxMap, k: nat, g: Program, f: string, pt: seq<int>, w: World)
    requires BoxesGood(boxes, k, g) && |pt| == g.arity(f) && pt != []
    requires forall d: nat :: d < |pt| ==> Covered(boxes, f, d, pt[d], w)
    ensures f in boxes && InBox(boxes[f], pt, w)
  {
    hide In, UsedGood, IvGood;
    assert Covered(boxes, f, 0, pt[0], w);
    assert BoxGood(boxes[f], g.arity(f), k, g);
    forall d | 0 <= d < |pt| ensures In(pt[d], boxes[f].bounds[d], w) { assert Covered(boxes, f, d, pt[d], w); }
  }
}
