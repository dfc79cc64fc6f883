// The region over which each Func of a pipeline is computed (the constructor
// and define_bounds of src/BoundsInference.cpp), for pure Funcs at the root.

module BoundsInference {
  import opened Options
  import opened IR
  import opened Intervals
  import opened BoundsRules
  import opened Bounds
  import opened Boxes
  import opened Stmts
  import opened BoxesTouching

  /** A Func: what its values are at a point, for each of its outputs. */
  datatype FuncDef = FuncDef(name: string, args: seq<Name>, values: seq<Expr>)

  /** What is given: the tools, and the region asked of each output. */
  datatype Setup = Setup(c: Ctx, solve: Solver, asked: map<string, Box>)

  // ----- the names of a region's ends -----

  function EndName(f: string, x: Name, end: string): Name { Name(f + ".s0." + x.base + end, 0, IntT, false) }
  function MinVar(f: string, x: Name): Name { EndName(f, x, ".min") }
  function MaxVar(f: string, x: Name): Name { EndName(f, x, ".max") }

  /** populate_scope: each argument ranges over the region, which is known by name. */
  function RangeScope(d: FuncDef): Scope {
    map x | x in d.args :: Interval(Fin(Var(MinVar(d.name, x))), Fin(Var(MaxVar(d.name, x))))
  }

  // ----- what a Func requires of others -----

  const CALLS := Mode(true, false, "")

  /** The boxes of one value, which counts whenever the Func is computed. */
  function Always(boxes: BoxMap): BoxMap {
    map f | f in boxes :: boxes[f].(used := Some(Const(1, BoolT)))
  }

  function MergeAll(a: BoxMap, b: BoxMap, o: Oracle): BoxMap {
    map f | f in a.Keys + b.Keys :: if f in b then Merge(BoxOf(a, f), b[f], o) else a[f]
  }

  function Visited(v: Expr, d: FuncDef, u: Setup, k: nat): State {
    TouchStmt(Evaluate(v), Outermost(RangeScope(d)), Tools(u.c, u.solve, CALLS), State(map[], k, Fine))
  }

  /** The boxes of all values together. */
  function Required(values: seq<Expr>, d: FuncDef, u: Setup, st: State): (r: State)
    ensures r.k >= st.k && (r.Ok() ==> st.Ok())
  {
    if values == [] then st
    else
      var v := Visited(values[0], d, u, st.k);
      Required(values[1..], d, u,
          State(MergeAll(st.boxes, Always(v.boxes), u.c.oracle), v.k, Worse(st.status, v.status)))
  }

  function AllRequired(defs: seq<FuncDef>, u: Setup, k: nat): (r: seq<State>)
    ensures |r| == |defs|
  {
    if defs == [] then []
    else
      var st := Required(defs[0].values, defs[0], u, State(map[], k, Fine));
      [st] + AllRequired(defs[1..], u, st.k)
  }

  /** An unbounded box is an error for the user. */
  predicate AllBounded(b: Box) { forall d :: 0 <= d < |b.bounds| ==> b.bounds[d].IsBounded() }

  /** The boxes asked of Func `j`: by the Funcs after it, and from outside. */
  function Askers(j: nat, defs: seq<FuncDef>, required: seq<State>, u: Setup): seq<Box>
    requires j < |defs| == |required|
  {
    AskedFrom(j + 1, defs[j].name, required)
    + if defs[j].name in u.asked then [u.asked[defs[j].name]] else []
  }

  function AskedFrom(i: nat, f: string, required: seq<State>): seq<Box>
    requires i <= |required|
    decreases |required| - i
  {
    if i == |required| then []
    else
      var b := BoxOf(required[i].boxes, f);
      (if b.IsEmpty() then [] else [b]) + AskedFrom(i + 1, f, required)
  }

  function MergeList(bs: seq<Box>, from: Box, o: Oracle): Box {
    if bs == [] then from else MergeList(bs[1..], Merge(from, bs[0], o), o)
  }

  /** The region computed of Func `j`. */
  function RegionBox(j: nat, defs: seq<FuncDef>, required: seq<State>, u: Setup): Box
    requires j < |defs| == |required|
  {
    MergeList(Askers(j, defs, required, u), EMPTY_BOX, u.c.oracle)
  }

  /** All went well: no box was unbounded. */
  predicate Accepted(defs: seq<FuncDef>, required: seq<State>, u: Setup)
    requires |defs| == |required|
  {
    && (forall i :: 0 <= i < |required| ==> required[i].Ok())
    && (forall i, j :: 0 <= j < i < |required| ==> AllBounded(BoxOf(required[i].boxes, defs[j].name)))
  }

  // ----- the lets that define a region -----

  /** A name and the expression that defines it. */
  type LetList = seq<(Name, Expr)>

  /** From the outermost let inwards: the last dimension first, and the upper
      end before the lower one, which may refer to it. */
  function LetsOf(d: FuncDef, b: Box, n: nat): LetList
    requires n <= |d.args| && |b.bounds| == |d.args| && AllBounded(b)
  {
    if n == 0 then []
    else
      var x, i := d.args[n - 1], b.bounds[n - 1];
      [(MaxVar(d.name, x), i.max.e),
       (MinVar(d.name, x), if i.IsPoint() then Var(MaxVar(d.name, x)) else i.min.e)]
      + LetsOf(d, b, n - 1)
  }

  /** define_bounds: the lets around the statement that computes the Func. */
  function DefineBounds(d: FuncDef, b: Box): LetList {
    if b.IsEmpty() || |b.bounds| != |d.args| || !AllBounded(b) then [] else LetsOf(d, b, |d.args|)
  }

  function Wrap(lets: LetList, s: Stmt): Stmt {
    if lets == [] then s else LetStmt(lets[0].0, lets[0].1, Wrap(lets[1..], s))
  }

  /** The lets of Funcs j and later, those of the last Func outermost. */
  function LetsFrom(j: nat, defs: seq<FuncDef>, required: seq<State>, u: Setup): LetList
    requires j <= |defs| == |required|
    decreases |defs| - j
  {
    if j == |defs| then []
    else LetsFrom(j + 1, defs, required, u) + DefineBounds(defs[j], RegionBox(j, defs, required, u))
  }

  // ----- the same, as the compiler does it -----

  /** Lay out the Funcs and compute what each requires of the earlier ones. */
  method ComputeStages(defs: seq<FuncDef>, u: Setup, next: nat) returns (required: seq<State>)
    ensures required == AllRequired(defs, u, next)
  {
    hide Required;
    required := [];
    var k := next;
    for i := 0 to |defs|
      invariant |required| == i
      invariant AllRequired(defs, u, next) == required + AllRequired(defs[i..], u, k)
    {
      assert defs[i..][0] == defs[i] && defs[i..][1..] == defs[i + 1..];
      var st := ComputeBoxes(defs[i], u, k);
      assert required + ([st] + AllRequired(defs[i + 1..], u, st.k))
          == (required + [st]) + AllRequired(defs[i + 1..], u, st.k);
      required, k := required + [st], st.k;
    }
  }

  method ComputeBoxes(d: FuncDef, u: Setup, next: nat) returns (st: State)
    ensures st == Required(d.values, d, u, State(map[], next, Fine))
  {
    hide Visited, MergeAll;
    st := State(map[], next, Fine);
    for i := 0 to |d.values|
      invariant Required(d.values, d, u, State(map[], next, Fine)) == Required(d.values[i..], d, u, st)
    {
      assert d.values[i..][0] == d.values[i] && d.values[i..][1..] == d.values[i + 1..];
      var v := Visited(d.values[i], d, u, st.k);
      st := State(MergeAll(st.boxes, Always(v.boxes), u.c.oracle), v.k, Worse(st.status, v.status));
    }
  }

  /** Wrap the body of the outermost loop, Func by Func, in the lets that define the regions. */
  method WrapBody(body: Stmt, defs: seq<FuncDef>, required: seq<State>, u: Setup) returns (s: Stmt)
    requires |defs| == |required|
    ensures s == Wrap(LetsFrom(0, defs, required, u), body)
  {
    hide RegionBox, DefineBounds;
    s := body;
    for j := 0 to |defs|
      invariant Wrap(LetsFrom(0, defs, required, u), body) == Wrap(LetsFrom(j, defs, required, u), s)
    {
      var lets := DefineBounds(defs[j], RegionBox(j, defs, required, u));
      WrapAppend(LetsFrom(j + 1, defs, required, u), lets, s);
      var n := |lets|;
      ghost var inner := s;
      while n > 0
        invariant 0 <= n <= |lets| && s == Wrap(lets[n..], inner)
      {
        n := n - 1;
        assert lets[n..][0] == lets[n] && lets[n..][1..] == lets[n + 1..];
        s := LetStmt(lets[n].0, lets[n].1, s);
      }
      assert lets[0..] == lets;
    }
  }

  lemma {:induction false} WrapAppend(a: LetList, b: LetList, s: Stmt)
    ensures Wrap(a + b, s) == Wrap(a, Wrap(b, s))
  {
    if a == [] { assert a + b == b; } else {
      assert (a + b)[0] == a[0] && (a + b)[1..] == a[1..] + b;
      WrapAppend(a[1..], b, s);
    }
  }
}
