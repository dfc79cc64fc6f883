// What a visit has once put into a box stays in it.

module BoxesKeep {
  import opened Options
  import opened IR
  import opened Intervals
  import opened BoundsRules
  import opened Bounds
  import opened Boxes
  import opened Stmts
  import opened BoxesTouching
  import opened TrimOrders
  import opened BoxesShape

  /** Coordinate `d` of a point of `f` is known to the boxes. */
  ghost predicate Covered(boxes: BoxMap, f: string, d: nat, v: int, w: World) {
    f in boxes && InDim(boxes[f], d, v, w)
  }

  // ----- the outer world in which the ends of a let have their names -----

  function EndWorld(w: World, x: Name, b: Ext, other: int): World {
    if b.Fin? then LetWorld(w, x, b.e) else Bind(w, x, (m: nat) => other)
  }

  /** Both names defined, the lower end first; a missing end gets any value at all. */
  function DefineWorld(w: World, n: Ends, val: Interval, other: int): World {
    EndWorld(EndWorld(w, n.mn, val.min, other), n.mx, val.max, other)
  }

  lemma DefineWorldSame(w: World, n: Ends, val: Interval, other: int, k: nat)
    requires k <= n.mn.serial && k <= n.mx.serial
    ensures SameBelow(k, w, DefineWorld(w, n, val, other))
  {
    hide Eval;
  }

  lemma EndWorldUnused(e: Expr, w: World, x: Name, b: Ext, other: int)
    requires x !in Names(e)
    ensures Eval(e, EndWorld(w, x, b, other), 0) == Eval(e, w, 0)
  {
    if b.Fin? { LetIfUsed(x, b.e, e, w); } else { BindUnused(e, w, x, (m: nat) => other, 0); }
  }

  /** Wrapping an end in lets moves it to the outer world. */
  lemma DefineEndValue(e: Expr, n: Ends, val: Interval, w: World, other: int)
    requires DefineEnd(e, n, val).Some?
    ensures Eval(DefineEnd(e, n, val).value, w, 0) == Eval(e, DefineWorld(w, n, val, other), 0)
  {
    hide Eval, Names, EndWorld;
    var w1 := EndWorld(w, n.mn, val.min, other);
    var e1 := if n.mx in Names(e) then Let(n.mx, val.max.e, e) else e;
    if n.mx in Names(e) { EndWorldLet(e, w1, n.mx, val.max, other); } else {
      EndWorldUnused(e, w1, n.mx, val.max, other);
    }
    if n.mn in Names(e1) { EndWorldLet(e1, w, n.mn, val.min, other); } else {
      EndWorldUnused(e1, w, n.mn, val.min, other);
    }
  }

  lemma EndWorldLet(e: Expr, w: World, x: Name, b: Ext, other: int)
    requires b.Fin?
    ensures Eval(Let(x, b.e, e), w, 0) == Eval(e, EndWorld(w, x, b, other), 0)
  {
    LetIfUsed(x, b.e, e, w);
  }

  lemma DefineIntervalMoves(v: int, i: Interval, n: Ends, val: Interval, w: World, other: int)
    requires DefineInterval(i, n, val).Some? && In(v, i, DefineWorld(w, n, val, other))
    ensures In(v, DefineInterval(i, n, val).value, w)
  {
    hide Eval, DefineEnd, DefineWorld;
    if i.min.Fin? && i.HasLower() { DefineEndValue(i.min.e, n, val, w, other); }
    if i.max.Fin? && i.HasUpper() { DefineEndValue(i.max.e, n, val, w, other); }
  }

  /** A condition over the program's names does not see the new names. */
  lemma UsedMoves(b: Box, w: World, w': World, k: nat, g: Program)
    requires UsedGood(b.used, g) && Below(g.names, k) && SameBelow(k, w, w') && Used(b, w)
    ensures Used(b, w')
  {
    if b.used.Some? { EvalAgree(b.used.value, w, w', 0); }
  }

  lemma DefineAllMoves(st: State, n: Ends, val: Interval, f: string, d: nat, v: int, w: World,
      other: int, k: nat, g: Program)
    requires DefineAll(st, n, val).Ok() && BoxesGood(st.boxes, st.k, g) && Below(g.names, k)
    requires k <= n.mn.serial && k <= n.mx.serial
    requires Covered(st.boxes, f, d, v, DefineWorld(w, n, val, other))
    ensures Covered(DefineAll(st, n, val).boxes, f, d, v, w)
  {
    hide IvGood, DefineInterval, DefineWorld, In, Eval;
    DefineWorldSame(w, n, val, other, k);
    var b := st.boxes[f];
    assert BoxGood(b, g.arity(f), st.k, g);
    assert SameBelow(k, DefineWorld(w, n, val, other), w);
    UsedMoves(b, DefineWorld(w, n, val, other), w, k, g);
    assert Definable(b, n, val);
    DefineIntervalMoves(v, b.bounds[d], n, val, w, other);
  }

  /** Boxes found so far do not see names handed out later. */
  lemma CoveredMoves(boxes: BoxMap, f: string, d: nat, v: int, w: World, w': World, k: nat, g: Program)
    requires BoxesGood(boxes, k, g) && Below(g.names, k) && SameBelow(k, w, w') && Covered(boxes, f, d, v, w)
    ensures Covered(boxes, f, d, v, w')
  {
    hide IvGood, In;
    assert BoxGood(boxes[f], g.arity(f), k, g);
    UsedMoves(boxes[f], w, w', k, g);
    InMoves(v, boxes[f].bounds[d], IntT, k, w, w');
  }

  // ----- single steps keep what is covered -----

  /** Merging one more good box into the map. */
  lemma MergeIntoKeeps(boxes: BoxMap, h: string, b: Box, o: Oracle, k: nat, g: Program,
      f: string, d: nat, v: int, w: World)
    requires SoundOracle(o) && BoxesGood(boxes, k, g) && BoxGood(b, g.arity(h), k, g)
    requires Covered(boxes, f, d, v, w) || (f == h && InDim(b, d, v, w))
    ensures Covered(MergeInto(boxes, h, b, o), f, d, v, w)
  {
    hide IvGood, In, Merge, UsedGood, SoundOracle, InDim;
    if f == h {
      NothingInEmpty(d, v, w);
      assert h in boxes ==> BoxGood(boxes[h], g.arity(h), k, g);
      MergeKeeps(BoxOf(boxes, h), b, o, d, v, w);
    }
  }

  lemma NothingInEmpty(d: nat, v: int, w: World)
    ensures !InDim(EMPTY_BOX, d, v, w)
  {}

  lemma AddBoxKeeps(h: string, args: seq<Expr>, used: Option<Expr>, p: Place, t: Tools, st: State, g: Program,
      f: string, d: nat, v: int, w: World)
    requires Ready(p, t, st, g) && TypedArgs(args) && Below(NamesOfAll(args), st.k)
        && |args| == g.arity(h) && UsedGood(used, g)
    requires Covered(st.boxes, f, d, v, w)
    ensures Covered(AddBox(h, args, used, p, t, st).boxes, f, d, v, w)
  {
    if t.mode.Wants(h) {
      var (bounds, k) := BoundsOfAll(args, p.scope, t.c, st.k);
      AddedBoxGood(h, args, used, p, t, st, g);
      hide IvGood, PlaceGood, BoundsOfAll, MergeInto, UsedGood, BoxesGood, SoundOracle, Covered;
      BoxesLater(st.boxes, st.k, k, g);
      MergeIntoKeeps(st.boxes, h, Box(bounds, used), t.c.oracle, k, g, f, d, v, w);
    }
  }

  lemma LeaveLetMoves(x: Name, val: Interval, k: nat, st: State, g: Program, f: string, d: nat,
      v: int, w: World, other: int)
    requires LeaveLet(x, val, k, st).Ok() && BoxesGood(st.boxes, st.k, g) && Below(g.names, k)
    requires Covered(st.boxes, f, d, v, LetEndsWorld(x, val, k, w, other))
    ensures Covered(LeaveLet(x, val, k, st).boxes, f, d, v, w)
  {
    hide IsSmallInterval, DefineAll, BoxesGood, Covered, DefineWorld;
    if !IsSmallInterval(val) { DefineAllMoves(st, NewEnds(x, k), val, f, d, v, w, other, k, g); }
  }

  /** The outer world inside a let: the ends of a large interval have names. */
  function LetEndsWorld(x: Name, val: Interval, k: nat, w: World, other: int): World {
    if IsSmallInterval(val) then w else DefineWorld(w, NewEnds(x, k), val, other)
  }

  lemma LetEndsWorldSame(x: Name, val: Interval, k: nat, w: World, other: int)
    ensures SameBelow(k, w, LetEndsWorld(x, val, k, w, other))
  {
    hide IsSmallInterval, DefineWorld;
    if !IsSmallInterval(val) { DefineWorldSame(w, NewEnds(x, k), val, other, k); }
  }

  // ----- expressions -----

  lemma {:induction false} TouchExprKeeps(e: Expr, ty: Ty, p: Place, t: Tools, st: State, g: Program,
      f: string, d: nat, v: int, w: World)
    requires HasTy(e, ty) && ExprOk(e, g.arity) && Below(Names(e), st.k) && Ready(p, t, st, g)
    requires TouchExpr(e, p, t, st).Ok() && Covered(st.boxes, f, d, v, w)
    ensures Covered(TouchExpr(e, p, t, st).boxes, f, d, v, w)
    decreases e, 1
  {
    match e
    case Const(_, _) =>
    case Var(_) =>
    case Un(op, a) =>
      TouchExprKeeps(a, if op.Not? then BoolT else ty, p, t, st, g, f, d, v, w);
    case Bin(op, a, b) =>
      OperandTypes(op, a, b, ty);
      hide Ready, HasTy, Covered;
      TouchExprShape(a, TypeOf(a), p, t, st, g);
      TouchExprKeeps(a, TypeOf(a), p, t, st, g, f, d, v, w);
      TouchExprKeeps(b, TypeOf(b), p, t, TouchExpr(a, p, t, st), g, f, d, v, w);
    case Select(c, x, y) =>
      hide Ready, Covered;
      var st1 := TouchExpr(c, p, t, st);
      TouchExprShape(c, BoolT, p, t, st, g);
      TouchExprShape(x, ty, p, t, st1, g);
      TouchExprKeeps(c, BoolT, p, t, st, g, f, d, v, w);
      TouchExprKeeps(x, ty, p, t, st1, g, f, d, v, w);
      TouchExprKeeps(y, ty, p, t, TouchExpr(x, p, t, st1), g, f, d, v, w);
    case Ramp(b, s, _) =>
      hide Ready, Covered;
      TouchExprShape(b, IntT, p, t, st, g);
      TouchExprKeeps(b, IntT, p, t, st, g, f, d, v, w);
      TouchExprKeeps(s, IntT, p, t, TouchExpr(b, p, t, st), g, f, d, v, w);
    case Let(x, val, b) =>
      hide Ready, Covered;
      TouchLetKeeps(x, val, b, ty, p, t, st, g, f, d, v, w);
    case Call(ct, h, _, args) =>
      if t.mode.calls {
        hide Ready, AddBox, Covered;
        TouchArgsShape(args, p, t, st, g);
        TouchArgsKeeps(args, p, t, st, g, f, d, v, w);
        if ct.FuncCall? {
          TrueGood(g);
          AddBoxKeeps(h, args, Some(Const(1, BoolT)), p, t, TouchArgs(args, p, t, st), g, f, d, v, w);
        }
      }
  }

  lemma TouchArgsKeeps(args: seq<Expr>, p: Place, t: Tools, st: State, g: Program, f: string, d: nat, v: int, w: World)
    requires TypedArgs(args) && ArgsOk(args, g.arity) && Below(NamesOfAll(args), st.k) && Ready(p, t, st, g)
    requires TouchArgs(args, p, t, st).Ok() && Covered(st.boxes, f, d, v, w)
    ensures Covered(TouchArgs(args, p, t, st).boxes, f, d, v, w)
    decreases args, 0
  {
    if args != [] {
      hide Ready, Covered;
      TouchExprShape(args[0], IntT, p, t, st, g);
      TouchExprKeeps(args[0], IntT, p, t, st, g, f, d, v, w);
      TouchArgsKeeps(args[1..], p, t, TouchExpr(args[0], p, t, st), g, f, d, v, w);
    }
  }

  lemma TouchLetKeeps(x: Name, value: Expr, body: Expr, ty: Ty, p: Place, t: Tools, st: State, g: Program,
      f: string, d: nat, v: int, w: World)
    requires HasTy(value, x.ty) && HasTy(body, ty) && ExprOk(value, g.arity) && ExprOk(body, g.arity)
    requires Below(Names(value), st.k) && Below(Names(body), st.k) && Ready(p, t, st, g)
    requires TouchLet(x, value, body, p, t, st).Ok() && Covered(st.boxes, f, d, v, w)
    ensures Covered(TouchLet(x, value, body, p, t, st).boxes, f, d, v, w)
    decreases Let(x, value, body), 0
  {
    hide LetValue, EnterLet, LeaveLet, IvGood, HasTy, Names, TouchExpr, PlaceGood, BoxesGood, Covered, LetEndsWorld;
    var st1 := TouchExpr(value, p, t, st);
    TouchExprShape(value, x.ty, p, t, st, g);
    var (val, k1) := LetValue(value, p.scope, t.c, st1.k);
    var (scope, k2) := EnterLet(x, val, p.scope, k1);
    var q, st2 := p.(scope := scope), st1.(k := k2);
    InsideLetShape(x, value, p, t, st1, g);
    TouchExprShape(body, ty, q, t, st2, g);
    var w1 := LetEndsWorld(x, val, k1, w, 0);
    LetEndsWorldSame(x, val, k1, w, 0);
    LeaveLetOk(x, val, k1, TouchExpr(body, q, t, st2));
    TouchExprKeeps(value, x.ty, p, t, st, g, f, d, v, w);
    CoveredMoves(st1.boxes, f, d, v, w, w1, st1.k, g);
    TouchExprKeeps(body, ty, q, t, st2, g, f, d, v, w1);
    LeaveLetMoves(x, val, k1, TouchExpr(body, q, t, st2), g, f, d, v, w, 0);
  }

  // ----- leaving narrowed lets -----

  /** The outer world in which the ends of all renamed lets have their names.
      `run` is the run inside, which supplies the values of missing ends. */
  function PopWorld(ns: seq<Ends>, scope: Scope, lets: map<Name, Expr>, t: Tools, k: nat, w: World, run: World): World {
    if ns == [] || ns[0].x !in lets || ns[0].x !in scope then w
    else
      var (i, k1) := Recomputed(ns[0], ns[1..], scope, lets, t, k);
      DefineWorld(PopWorld(ns[1..], scope, lets, t, k1, w, run), ns[0], i, Lookup(run, ns[0].x, 0))
  }

  lemma SameBelowTrans(k: nat, w: World, w': World, w'': World)
    requires SameBelow(k, w, w') && SameBelow(k, w', w'')
    ensures SameBelow(k, w, w'')
  {}

  lemma {:induction false} PopWorldSame(ns: seq<Ends>, xs: seq<Name>, scope: Scope, lets: map<Name, Expr>, t: Tools,
      k0: nat, k: nat, w: World, run: World)
    requires NamesGood(ns, xs, k0)
    ensures SameBelow(k0, w, PopWorld(ns, scope, lets, t, k, w, run))
  {
    if ns != [] && ns[0].x in lets && ns[0].x in scope {
      hide DefineWorld, Recomputed, SameBelow;
      assert NamesGood(ns[1..], xs[1..], k0);
      var (i, k1) := Recomputed(ns[0], ns[1..], scope, lets, t, k);
      var w1 := PopWorld(ns[1..], scope, lets, t, k1, w, run);
      PopWorldSame(ns[1..], xs[1..], scope, lets, t, k0, k1, w, run);
      DefineWorldSame(w1, ns[0], i, Lookup(run, ns[0].x, 0), k0);
      SameBelowTrans(k0, w, w1, PopWorld(ns, scope, lets, t, k, w, run));
    } else {
      assert SameBelow(k0, w, w);
    }
  }

  lemma {:induction false} PopLetsMoves(ns: seq<Ends>, xs: seq<Name>, p: Place, t: Tools, st: State, k0: nat,
      g: Program, f: string, d: nat, v: int, w: World, run: World)
    requires NamesGood(ns, xs, k0) && PlaceGood(p, k0, g) && ToolsGood(t, k0, g) && k0 + 2 * |xs| <= st.k
    requires BoxesGood(st.boxes, st.k, g)
    requires PopLets(ns, p.scope, p.lets, t, st).Ok()
    requires Covered(st.boxes, f, d, v, PopWorld(ns, p.scope, p.lets, t, st.k, w, run))
    ensures Covered(PopLets(ns, p.scope, p.lets, t, st).boxes, f, d, v, w)
  {
    if ns != [] && ns[0].x in p.lets && ns[0].x in p.scope {
      hide IvGood, BoxesGood, DefineAll, PlaceGood, DefineWorld, Covered, PopWorld, PopLets, NamesGood, Recomputed,
          SoundOracle, SoundSolver, FuncsGood;
      var n := ns[0];
      NamesGoodTail(ns, xs, k0);
      RecomputedShape(n, ns[1..], xs[1..], p, t, k0, st.k, g);
      var (i, k1) := Recomputed(n, ns[1..], p.scope, p.lets, t, st.k);
      var st1 := st.(k := k1);
      PopWorldStep(ns, p.scope, p.lets, t, st.k, w, run);
      BoxesLater(st.boxes, st.k, k1, g);
      DefineAllK(st1, n, i);
      DefineAllShape(st1, n, i, g);
      PopLetsStep(ns, p.scope, p.lets, t, st);
      NamesGoodSerial(ns, xs, k0);
      DefineAllMoves(st1, n, i, f, d, v, PopWorld(ns[1..], p.scope, p.lets, t, k1, w, run), Lookup(run, n.x, 0), k0, g);
      PopLetsMoves(ns[1..], xs[1..], p, t, DefineAll(st1, n, i), k0, g, f, d, v, w, run);
    }
  }

  lemma PopWorldStep(ns: seq<Ends>, scope: Scope, lets: map<Name, Expr>, t: Tools, k: nat, w: World, run: World)
    requires ns != [] && ns[0].x in lets && ns[0].x in scope
    ensures var (i, k1) := Recomputed(ns[0], ns[1..], scope, lets, t, k);
            PopWorld(ns, scope, lets, t, k, w, run)
            == DefineWorld(PopWorld(ns[1..], scope, lets, t, k1, w, run), ns[0], i, Lookup(run, ns[0].x, 0))
  {
    hide Recomputed, DefineWorld;
  }

  // ----- statements -----

  lemma ForkKeeps(c: Expr, a: BoxMap, b: BoxMap, boxes: BoxMap, o: Oracle, k: nat, g: Program,
      f: string, d: nat, v: int, w: World)
    requires SoundOracle(o) && Below(g.names, k) && HasTy(c, BoolT) && IsPure(c) && Names(c) <= g.names
    requires BoxesGood(a, k, g) && BoxesGood(b, k, g) && BoxesGood(boxes, k, g)
    requires
      || Covered(boxes, f, d, v, w)
      || (Covered(a, f, d, v, w) && Eval(c, w, 0) != 0)
      || (Covered(b, f, d, v, w) && Eval(c, w, 0) == 0)
    ensures Covered(Fork(c, a, b, boxes, o), f, d, v, w)
  {
    NoneGood(g);
    NothingInEmpty(d, v, w);
    assert HasTy(Un(Not, c), BoolT) && IsPure(Un(Not, c)) && Names(Un(Not, c)) == Names(c);
    EvalNot(c, w);
    hide IvGood, Merge, OnlyIf, UsedGood, SoundOracle, HasTy, Names, Eval, InDim;
    if f in a || f in b {
      var a1, b1 := OnlyIf(BoxOf(a, f), c), OnlyIf(BoxOf(b, f), Un(Not, c));
      OnlyIfGood(BoxOf(a, f), c, g.arity(f), k, g);
      OnlyIfGood(BoxOf(b, f), Un(Not, c), g.arity(f), k, g);
      MergeGood(a1, b1, o, g.arity(f), k, g);
      if f in a && InDim(a[f], d, v, w) && Eval(c, w, 0) != 0 { OnlyIfKeeps(a[f], c, d, v, w); }
      if f in b && InDim(b[f], d, v, w) && Eval(c, w, 0) == 0 { OnlyIfKeeps(b[f], Un(Not, c), d, v, w); }
      if InDim(a1, d, v, w) || InDim(b1, d, v, w) { MergeKeeps(a1, b1, o, d, v, w); }
      MergeKeeps(BoxOf(boxes, f), Merge(a1, b1, o), o, d, v, w);
    }
  }

  lemma OnlyIfKeeps(b: Box, c: Expr, d: nat, v: int, w: World)
    requires InDim(b, d, v, w) && Eval(c, w, 0) != 0
    ensures InDim(OnlyIf(b, c), d, v, w)
  {
    hide In, Eval;
    if b.MaybeUnused() { EvalBinIs(And, b.used.value, c, w); }
  }

  lemma {:induction false} TouchStmtKeeps(s: Stmt, p: Place, t: Tools, st: State, g: Program, seen: Lets,
      f: string, d: nat, v: int, w: World)
    requires StmtOk(s, g.arity, seen) && StmtIn(s, g) && Ready(p, t, st, g)
    requires TouchStmt(s, p, t, st).Ok() && Covered(st.boxes, f, d, v, w)
    ensures Covered(TouchStmt(s, p, t, st).boxes, f, d, v, w)
    decreases s, 0
  {
    match s
    case Block(first, rest) =>
      hide Ready, Covered;
      TouchStmtShape(first, p, t, st, g, seen);
      TouchStmtKeeps(first, p, t, st, g, seen, f, d, v, w);
      TouchStmtKeeps(rest, p, t, TouchStmt(first, p, t, st), g, seen, f, d, v, w);
    case For(x, min, extent, body) => TouchForKeeps(x, min, extent, body, p, t, st, g, seen, f, d, v, w);
    case LetStmt(x, value, body) => TouchLetStmtKeeps(x, value, body, p, t, st, g, seen, f, d, v, w);
    case IfThenElse(c, a, b) => TouchIfKeeps(c, a, b, p, t, st, g, seen, f, d, v, w);
    case Provide(h, values, args) =>
      NoneGood(g);
      ArgsBelow(values, args, g, st.k);
      hide AddBox, Covered, Ready;
      var st1 := if t.mode.stores then AddBox(h, args, None, p, t, st) else st;
      AddBoxShape(h, args, None, p, t, st, g);
      AddBoxKeeps(h, args, None, p, t, st, g, f, d, v, w);
      if t.mode.calls {
        TouchArgsShape(args, p, t, st1, g);
        TouchArgsKeeps(args, p, t, st1, g, f, d, v, w);
        TouchArgsKeeps(values, p, t, TouchArgs(args, p, t, st1), g, f, d, v, w);
      }
    case Evaluate(e) =>
      var ty :| HasTy(e, ty);
      TouchExprKeeps(e, ty, p, t, st, g, f, d, v, w);
  }

  lemma ArgsBelow(values: seq<Expr>, args: seq<Expr>, g: Program, k: nat)
    requires NamesOfAll(values) <= g.names && NamesOfAll(args) <= g.names && Below(g.names, k)
    ensures forall k' :: k' >= k ==> Below(NamesOfAll(values), k') && Below(NamesOfAll(args), k')
  {}

  lemma TouchForKeeps(x: Name, min: Expr, extent: Expr, body: Stmt, p: Place, t: Tools, st: State, g: Program,
      seen: Lets, f: string, d: nat, v: int, w: World)
    requires var s := For(x, min, extent, body);
    StmtOk(s, g.arity, seen) && StmtIn(s, g) && Ready(p, t, st, g) && TouchStmt(s, p, t, st).Ok()
    requires Covered(st.boxes, f, d, v, w)
    ensures Covered(TouchStmt(For(x, min, extent, body), p, t, st).boxes, f, d, v, w)
    decreases body, 1
  {
    hide Covered, LoopRange, TouchExpr, Ready, HasTy;
    var st1 := HeadState(min, extent, p, t, st);
    HeadShape(min, extent, p, t, st, g);
    HeadKeeps(min, extent, p, t, st, g, f, d, v, w);
    var (i, k) := LoopRange(min, extent, p.scope, t.c, st1.k);
    LoopShape(x, min, extent, p, t, st1, g);
    if i.Some? {
      TouchStmtKeeps(body, InsideLoop(x, i.value, p), t, st1.(k := k), g, seen, f, d, v, w);
    }
  }

  lemma HeadKeeps(min: Expr, extent: Expr, p: Place, t: Tools, st: State, g: Program,
      f: string, d: nat, v: int, w: World)
    requires HeadOk(min, extent, g) && Ready(p, t, st, g) && HeadState(min, extent, p, t, st).Ok()
        && Covered(st.boxes, f, d, v, w)
    ensures Covered(HeadState(min, extent, p, t, st).boxes, f, d, v, w)
  {
    hide Ready, Covered, TouchExpr, ExprOk, HasTy;
    if t.mode.calls {
      ProgramNames(Names(min), p, t, st, g);
      ProgramNames(Names(extent), p, t, st, g);
      TouchExprShape(min, IntT, p, t, st, g);
      TouchExprKeeps(min, IntT, p, t, st, g, f, d, v, w);
      TouchExprKeeps(extent, IntT, p, t, TouchExpr(min, p, t, st), g, f, d, v, w);
    }
  }

  lemma TouchLetStmtKeeps(x: Name, value: Expr, body: Stmt, p: Place, t: Tools, st: State, g: Program, seen: Lets,
                          f: string, d: nat, v: int, w: World)
    requires var s := LetStmt(x, value, body);
    StmtOk(s, g.arity, seen) && StmtIn(s, g) && Ready(p, t, st, g) && TouchStmt(s, p, t, st).Ok()
    requires Covered(st.boxes, f, d, v, w)
    ensures Covered(TouchStmt(LetStmt(x, value, body), p, t, st).boxes, f, d, v, w)
    decreases body, 1
  {
    hide LetValue, EnterLet, LeaveLet, IvGood, HasTy, TouchExpr, PlaceGood, BoxesGood, Covered,
        LetEndsWorld, IsSmallInterval;
    var st1 := TouchExpr(value, p, t, st);
    TouchExprShape(value, x.ty, p, t, st, g);
    var (val, k1) := LetValue(value, p.scope, t.c, st1.k);
    var (scope, k2) := EnterLet(x, val, p.scope, k1);
    var q, st2 := InsideLet(x, value, scope, p), st1.(k := k2);
    InsideLetStmtShape(x, value, p, t, st1, g);
    TouchStmtShape(body, q, t, st2, g, seen[x := value]);
    var st3, w1 := TouchStmt(body, q, t, st2), LetEndsWorld(x, val, k1, w, 0);
    LetEndsWorldSame(x, val, k1, w, 0);
    LeaveLetOk(x, val, k1, st3);
    TouchExprKeeps(value, x.ty, p, t, st, g, f, d, v, w);
    CoveredMoves(st1.boxes, f, d, v, w, w1, st1.k, g);
    TouchStmtKeeps(body, q, t, st2, g, seen[x := value], f, d, v, w1);
    LeaveLetMoves(x, val, k1, st3, g, f, d, v, w, 0);
  }

  lemma TouchIfKeeps(c: Expr, a: Stmt, b: Option<Stmt>, p: Place, t: Tools, st: State, g: Program, seen: Lets,
                     f: string, d: nat, v: int, w: World)
    requires var s := IfThenElse(c, a, b);
    StmtOk(s, g.arity, seen) && StmtIn(s, g) && Ready(p, t, st, g) && TouchStmt(s, p, t, st).Ok()
    requires Covered(st.boxes, f, d, v, w)
    ensures Covered(TouchStmt(IfThenElse(c, a, b), p, t, st).boxes, f, d, v, w)
    decreases IfThenElse(c, a, b), -1
  {
    hide HasTy, Names, ExprOk, Eval, IvGood, BoxesGood, PlaceGood, SoundOracle, Occurrences;
    var st1 := TouchExpr(c, p, t, st);
    TouchExprShape(c, BoolT, p, t, st, g);
    TouchExprKeeps(c, BoolT, p, t, st, g, f, d, v, w);
    if UsesScope(c, p.scope) || !IsPure(c) {
      SimplifiedCondition(c, t, g);
      hide Ready, TouchCase, Covered, TouchExpr;
      var c1, c2 := t.c.oracle.simp(c), t.c.oracle.simp(Un(Not, c));
      var st2 := TouchCase(c1, c, a, p, t, st1);
      TouchCaseShape(c1, c, a, p, t, st1, g, seen);
      TouchCaseKeeps(c1, c, a, p, t, st1, g, seen, f, d, v, w);
      if b.Some? && !IsNoOp(b.value) { TouchCaseKeeps(c2, c, b.value, p, t, st2, g, seen, f, d, v, w); }
    } else {
      hide Covered, Fork, TouchExpr;
      ForkStates(c, a, b, p, t, st1, g, seen);
      var (sa, sb) := ForkSides(a, b, p, t, st1);
      ForkKeeps(c, sa.boxes, sb.boxes, st1.boxes, t.c.oracle, sb.k, g, f, d, v, w);
    }
  }

  /** What the two sides of an `if` touch. */
  function ForkSides(a: Stmt, b: Option<Stmt>, p: Place, t: Tools, st: State): (r: (State, State)) {
    var sa := TouchStmt(a, p, t, st.(boxes := map[]));
    (sa, if b.Some? then TouchStmt(b.value, p, t, sa.(boxes := map[])) else sa.(boxes := map[]))
  }

  lemma ForkStates(c: Expr, a: Stmt, b: Option<Stmt>, p: Place, t: Tools, st: State, g: Program, seen: Lets)
    requires StmtOk(a, g.arity, seen) && StmtIn(a, g)
        && (b.Some? ==> StmtOk(b.value, g.arity, seen) && StmtIn(b.value, g))
    requires Ready(p, t, st, g)
    ensures var (sa, sb) := ForkSides(a, b, p, t, st);
            && Ready(p, t, sa.(boxes := map[]), g) && Below(g.names, sb.k) && sb.k >= st.k
            && BoxesGood(sa.boxes, sb.k, g) && BoxesGood(sb.boxes, sb.k, g) && BoxesGood(st.boxes, sb.k, g)
  {
    hide TouchStmt, StmtOk, StmtIn;
    var sa := TouchStmt(a, p, t, st.(boxes := map[]));
    TouchStmtShape(a, p, t, st.(boxes := map[]), g, seen);
    if b.Some? { TouchStmtShape(b.value, p, t, sa.(boxes := map[]), g, seen); }
    hide PlaceGood, BoxGood;
    var sb := ForkSides(a, b, p, t, st).1;
    BoxesLater(st.boxes, st.k, sb.k, g);
    BoxesLater(sa.boxes, sa.k, sb.k, g);
  }

  lemma TouchCaseKeeps(c: Expr, cond: Expr, body: Stmt, p: Place, t: Tools, st: State, g: Program, seen: Lets,
                       f: string, d: nat, v: int, w: World)
    requires HasTy(c, BoolT) && Names(c) <= g.names && ScalarNames(cond)
    requires StmtOk(body, g.arity, seen) && StmtIn(body, g) && Ready(p, t, st, g)
    requires TouchCase(c, cond, body, p, t, st).Ok() && Covered(st.boxes, f, d, v, w)
    ensures Covered(TouchCase(c, cond, body, p, t, st).boxes, f, d, v, w)
    decreases body, 2 + |Occurrences(cond)|
  {
    hide Restrictions, Ready, HasTy, Names, StmtOk, StmtIn, RestrictionsGood, Covered, TrimAll;
    CaseRestrictions(c, cond, p, t, st, g);
    var likely := c.Un? && c.uop.Likely?;
    var (rs, k) := Restrictions(Occurrences(cond), if likely then c.arg else c, likely, p.scope, t, st.k);
    TrimAllKeeps(rs, body, p, t, st.(k := k), g, seen, f, d, v, w);
  }

  lemma TrimAllKeeps(rs: seq<Restriction>, body: Stmt, p: Place, t: Tools, st: State, g: Program, seen: Lets,
                     f: string, d: nat, v: int, w: World)
    requires RestrictionsGood(rs, p.scope, st.k)
    requires StmtOk(body, g.arity, seen) && StmtIn(body, g) && Ready(p, t, st, g)
    requires TrimAll(rs, body, p, t, st).Ok() && Covered(st.boxes, f, d, v, w)
    ensures Covered(TrimAll(rs, body, p, t, st).boxes, f, d, v, w)
    decreases body, 1 + |rs|
  {
    hide Ready, StmtOk, StmtIn, PopLets, DependentNames, Narrowed, Renamed, RestrictionsGood, RestrictionGood,
        PlaceGood, Covered, TrimWorld, TrimAll, TouchStmt;
    TrimAllStep(rs, body, p, t, st);
    if rs == [] {
      TouchStmtKeeps(body, p, t, st, g, seen, f, d, v, w);
    } else {
      var ns := DependentNames(p, rs[0].x, st.k);
      var q := Renamed(Narrowed(p, rs[0]), ns);
      var st1 := st.(k := st.k + 2 * |ns|);
      var st2 := TrimAll(rs[1..], body, q, t, st1);
      RestrictionsSplit(rs, p.scope, st.k);
      NarrowedShape(rs[0], p, t, st, g);
      NarrowedRest(rs[1..], rs[0], p, st.k);
      TrimAllShape(rs[1..], body, q, t, st1, g, seen);
      var w1 := TrimWorld(rs[0], p, t, st.k, st2.k, w, w);
      TrimWorldSame(rs[0], p, t, st.k, st2.k, w, w);
      ReadyMoves(p, t, st, g, f, d, v, w, w1);
      TrimAllKeeps(rs[1..], body, q, t, st1, g, seen, f, d, v, w1);
      TrimmedMoves(rs[0], p, t, st, st2, g, f, d, v, w, w);
    }
  }

  lemma ReadyMoves(p: Place, t: Tools, st: State, g: Program, f: string, d: nat, v: int, w: World, w': World)
    requires Ready(p, t, st, g) && SameBelow(st.k, w, w') && Covered(st.boxes, f, d, v, w)
    ensures Covered(st.boxes, f, d, v, w')
  {
    hide BoxesGood, PlaceGood, Covered;
    CoveredMoves(st.boxes, f, d, v, w, w', st.k, g);
  }

  /** The outer world inside one narrowing: made when `k` names had been handed
      out, left when `k1` had. */
  function TrimWorld(r: Restriction, p: Place, t: Tools, k: nat, k1: nat, w: World, run: World): World {
    PopWorld(DependentNames(p, r.x, k), Narrowed(p, r).scope, p.lets, t, k1, w, run)
  }

  lemma TrimWorldSame(r: Restriction, p: Place, t: Tools, k: nat, k1: nat, w: World, run: World)
    ensures SameBelow(k, w, TrimWorld(r, p, t, k, k1, w, run))
  {
    hide PopWorld, TrimOrder, NameLets, SameBelow;
    var xs := Dependents(p, r.x);
    NameLetsMeaning(xs, k);
    PopWorldSame(NameLets(xs, k), xs, Narrowed(p, r).scope, p.lets, t, k, k1, w, run);
  }

  /** Leaving one narrowing moves what is covered to the outer world. */
  lemma TrimmedMoves(r: Restriction, p: Place, t: Tools, st: State, st': State, g: Program, f: string, d: nat,
      v: int, w: World, run: World)
    requires Ready(p, t, st, g) && PlaceGood(Narrowed(p, r), st.k, g)
    requires var ns := DependentNames(p, r.x, st.k);
             Ready(Renamed(Narrowed(p, r), ns), t, st', g) && st.k + 2 * |ns| <= st'.k
    requires PopLets(DependentNames(p, r.x, st.k), Narrowed(p, r).scope, p.lets, t, st').Ok()
    requires Covered(st'.boxes, f, d, v, TrimWorld(r, p, t, st.k, st'.k, w, run))
    ensures Covered(PopLets(DependentNames(p, r.x, st.k), Narrowed(p, r).scope, p.lets, t, st').boxes, f, d, v, w)
  {
    hide PopLets, PlaceGood, BoxesGood, ToolsGood, TrimOrder, NameLets, Pushed, PopWorld, Covered;
    var xs := Dependents(p, r.x);
    NameLetsMeaning(xs, st.k);
    PopLetsMoves(NameLets(xs, st.k), xs, Narrowed(p, r), t, st', st.k, g, f, d, v, w, run);
  }
}
