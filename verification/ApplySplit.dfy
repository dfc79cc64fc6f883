// Splitting, fusing and renaming loop dimensions (src/ApplySplit.cpp).

module Splits {
  import opened IR
  import opened BoundsRules

  datatype Tail =
    | RoundUp | GuardWithIf | Predicate | PredicateLoads | PredicateStores
    | ShiftInwards | ShiftInwardsAndBlend | RoundUpAndBlend

  datatype Split =
    | SplitVar(oldVar: string, outer: string, inner: string, factor: Expr, tail: Tail)
    | FuseVars(oldVar: string, outer: string, inner: string)
    | RenameVar(oldVar: string, outer: string)

  datatype Kind =
    | Substitution | SubstitutionInCalls | SubstitutionInProvides | LetResult
    | PredicateCalls | PredicateProvides | PredicateAll | BlendProvides

  datatype Result = Result(name: string, value: Expr, kind: Kind)

  type Alignment = map<string, Expr>

  function N(s: string): Name { Name(s, 0, IntT, false) }
  function V(s: string): Expr { Var(N(s)) }
  function Likely1(e: Expr): Expr { Un(Likely, e) }
  function True(): Expr { Const(1, BoolT) }

  function PromiseClamped(e: Expr, lo: Expr, hi: Expr): Expr { Call(PureCall, "promise_clamped", 0, [e, lo, hi]) }

  predicate IsZeroConst(e: Expr) { e.Const? && e.n == 0 }

  // ----- what kind of split is made -----

  /** Exactly, because the factor is known to divide the extent or is one; with
      a tail strategy; or not at all. */
  datatype How = Exactly | By(tail: Tail) | Refused

  predicate Divides(factor: Expr, align: Alignment, oldVar: string, o: Oracle) {
    oldVar in align && IsZeroConst(o.simp(Bin(Mod, align[oldVar], factor)))
  }

  function HowSplit(s: Split, align: Alignment, o: Oracle): How
    requires s.SplitVar?
  {
    if Divides(s.factor, align, s.oldVar, o) then Exactly
    else if s.factor.Const? && s.factor.n <= 0 then Refused
    else if s.factor.Const? && s.factor.n == 1 then Exactly
    else By(s.tail)
  }

  /** The alignments known afterwards. */
  function AlignAfter(s: Split, align: Alignment, o: Oracle): Alignment {
    match s
    case SplitVar(x, outer, inner, f, _) =>
      var align1 := align[inner := f];
      if Divides(f, align1, x, o) then align1[outer := Bin(Div, align1[x], f)] else align1
    case FuseVars(x, outer, inner) =>
      if inner in align && outer in align then align[x := Bin(Mul, align[inner], align[outer])] else align
    case RenameVar(_, _) => align
  }

  // ----- what a split produces -----

  function Base(s: Split, p: string): Expr
    requires s.SplitVar?
  {
    Bin(Add, Bin(Mul, V(p + s.outer), s.factor), V(p + s.oldVar + ".loop_min"))
  }

  function LastBase(s: Split, p: string): Expr
    requires s.SplitVar?
  {
    Bin(Add, V(p + s.oldVar + ".loop_max"), Bin(Sub, I(1), s.factor))
  }

  function Unwanted(s: Split, p: string): Expr
    requires s.SplitVar?
  {
    Bin(Mod, Bin(Sub, I(0), V(p + s.oldVar + ".loop_extent")), s.factor)
  }

  function BaseBy(s: Split, how: How, p: string): Expr
    requires s.SplitVar?
  {
    match how
    case By(ShiftInwards) | By(ShiftInwardsAndBlend) => Bin(Min, Likely1(Base(s, p)), LastBase(s, p))
    case _ => Base(s, p)
  }

  /** Guards and masks, innermost first. */
  function Guards(s: Split, how: How, p: string): seq<Result>
    requires s.SplitVar?
  {
    var x, inner := p + s.oldVar, V(p + s.inner);
    var condition := Likely1(Bin(LE, V(x), V(x + ".loop_max")));
    var guarded := Result(x + ".guarded", PromiseClamped(V(x), V(x), V(x + ".loop_max")), LetResult);
    match how
    case By(GuardWithIf) | By(Predicate) =>
      [Result(x, V(x + ".guarded"), Substitution), guarded, Result("", condition, PredicateAll)]
    case By(PredicateLoads) =>
      [Result(x, V(x + ".guarded"), SubstitutionInCalls), guarded, Result("", condition, PredicateCalls)]
    case By(PredicateStores) =>
      [Result(x, V(x + ".guarded"), SubstitutionInProvides), guarded, Result("", condition, PredicateProvides)]
    case By(ShiftInwardsAndBlend) =>
      [Result("", Select(Bin(EQ, BaseBy(s, how, p), Base(s, p)), Likely1(True()), Bin(GE, inner, Unwanted(s, p))),
          BlendProvides)]
    case By(RoundUpAndBlend) =>
      [Result("", Select(Bin(LT, V(p + s.outer), V(p + s.outer + ".loop_max")), Likely1(True()),
                         Bin(LT, inner, Bin(Sub, s.factor, Unwanted(s, p)))), BlendProvides)]
    case _ => []
  }

  function Results(s: Split, how: How, p: string): seq<Result> {
    match s
    case SplitVar(x, _, inner, _, _) =>
      Guards(s, how, p)
      + [Result(p + x, Bin(Add, V(p + inner + ".base"), V(p + inner)), LetResult),
         Result(p + inner + ".base", BaseBy(s, how, p), LetResult)]
    case FuseVars(x, outer, inner) =>
      var i := Bin(Add, Bin(Mod, V(p + x), V(p + inner + ".loop_extent")), V(p + inner + ".loop_min"));
      var u := Bin(Add, Bin(Div, V(p + x), V(p + inner + ".loop_extent")), V(p + outer + ".loop_min"));
      [Result(p + inner, i, Substitution), Result(p + outer, u, Substitution),
       Result(p + inner, i, LetResult), Result(p + outer, u, LetResult)]
    case RenameVar(x, outer) =>
      [Result(p + x, V(p + outer), Substitution), Result(p + x, V(p + outer), LetResult)]
  }

  function HowOf(s: Split, align: Alignment, o: Oracle): How {
    if s.SplitVar? then HowSplit(s, align[s.inner := s.factor], o) else Exactly
  }

  /** apply_split. A refusal is the error about factors that are not positive. */
  method ApplySplit(s: Split, p: string, known: Alignment, o: Oracle)
      returns (results: seq<Result>, align: Alignment, ok: bool)
    ensures ok <==> !HowOf(s, known, o).Refused?
    ensures align == AlignAfter(s, known, o)
    ensures ok ==> results == Results(s, HowOf(s, known, o), p)
  {
    results, align, ok := [], known, true;
    match s {
      case SplitVar(x, outer, inner, f, tail) =>
        align := align[inner := f];
        var base := Base(s, p);
        var old1, max := V(p + x), V(p + x + ".loop_max");
        var guarded := PromiseClamped(old1, old1, max);
        var condition := Likely1(Bin(LE, old1, max));
        if x in align && IsZeroConst(o.simp(Bin(Mod, align[x], f))) {
          align := align[outer := Bin(Div, align[x], f)];
        } else if f.Const? && f.n <= 0 {
          ok := false;
          return;
        } else if f.Const? && f.n == 1 {
        } else if tail.GuardWithIf? || tail.Predicate? || tail.PredicateLoads? || tail.PredicateStores? {
          var substitution, predication := Substitution, PredicateAll;
          if tail.PredicateLoads? { substitution, predication := SubstitutionInCalls, PredicateCalls; }
          if tail.PredicateStores? { substitution, predication := SubstitutionInProvides, PredicateProvides; }
          results := results + [Result(p + x, V(p + x + ".guarded"), substitution)];
          results := results + [Result(p + x + ".guarded", guarded, LetResult)];
          results := results + [Result("", condition, predication)];
        } else if tail.ShiftInwards? {
          base := Bin(Min, Likely1(base), LastBase(s, p));
        } else if tail.ShiftInwardsAndBlend? {
          var oldBase := base;
          base := Bin(Min, Likely1(base), LastBase(s, p));
          var mask := Bin(GE, V(p + inner), Unwanted(s, p));
          results := results + [Result("", Select(Bin(EQ, base, oldBase), Likely1(True()), mask), BlendProvides)];
        } else if tail.RoundUpAndBlend? {
          var mask := Bin(LT, V(p + inner), Bin(Sub, f, Unwanted(s, p)));
          mask := Select(Bin(LT, V(p + outer), V(p + outer + ".loop_max")), Likely1(True()), mask);
          results := results + [Result("", mask, BlendProvides)];
        }
        results := results + [Result(p + x, Bin(Add, V(p + inner + ".base"), V(p + inner)), LetResult)];
        results := results + [Result(p + inner + ".base", base, LetResult)];
      case FuseVars(x, outer, inner) =>
        var i := Bin(Add, Bin(Mod, V(p + x), V(p + inner + ".loop_extent")), V(p + inner + ".loop_min"));
        var u := Bin(Add, Bin(Div, V(p + x), V(p + inner + ".loop_extent")), V(p + outer + ".loop_min"));
        results := results + [Result(p + inner, i, Substitution)];
        results := results + [Result(p + outer, u, Substitution)];
        results := results + [Result(p + inner, i, LetResult)];
        results := results + [Result(p + outer, u, LetResult)];
        if inner in align && outer in align { align := align[x := Bin(Mul, align[inner], align[outer])]; }
      case RenameVar(x, outer) =>
        results := results + [Result(p + x, V(p + outer), Substitution)];
        results := results + [Result(p + x, V(p + outer), LetResult)];
    }
  }

  // ----- loop bounds -----

  /** compute_loop_bounds_after_split, the innermost let first. */
  function LoopBounds(s: Split, p: string): seq<(string, Expr)> {
    match s
    case SplitVar(x, outer, inner, f, _) =>
      var n := Bin(Div, Bin(Add, Bin(Sub, V(p + x + ".loop_max"), V(p + x + ".loop_min")), f), f);
      [(p + inner + ".loop_min", I(0)), (p + inner + ".loop_max", Bin(Sub, f, I(1))), (p + inner + ".loop_extent", f),
       (p + outer + ".loop_min", I(0)), (p + outer + ".loop_max", Bin(Sub, n, I(1))), (p + outer + ".loop_extent", n)]
    case FuseVars(x, outer, inner) =>
      var n := Bin(Mul, V(p + inner + ".loop_extent"), V(p + outer + ".loop_extent"));
      [(p + x + ".loop_min", I(0)), (p + x + ".loop_max", Bin(Sub, n, I(1))), (p + x + ".loop_extent", n)]
    case RenameVar(x, outer) =>
      [(p + outer + ".loop_min", V(p + x + ".loop_min")), (p + outer + ".loop_max", V(p + x + ".loop_max")),
       (p + outer + ".loop_extent", V(p + x + ".loop_extent"))]
  }

  // ----- running what was produced -----

  function Set(w: World, x: string, v: int): World { Bind(w, N(x), (m: nat) => v) }

  function Get(w: World, x: string): int { Lookup(w, N(x), 0) }

  /** Either a guard stops the body, or it runs in some world, storing or not. */
  datatype Outcome = Stopped | Going(w: World, stores: bool)

  /** Run the lets and guards around a body from the outermost in, as far as
      they say where the body stores. */
  function Run(rs: seq<Result>, w: World, stores: bool): Outcome {
    if rs == [] then Going(w, stores)
    else
      var r, rest := rs[|rs| - 1], rs[..|rs| - 1];
      var v := Eval(r.value, w, 0);
      match r.kind
      case LetResult | Substitution | SubstitutionInProvides => Run(rest, Set(w, r.name, v), stores)
      case PredicateAll => if v != 0 then Run(rest, w, stores) else Stopped
      case PredicateProvides | BlendProvides => Run(rest, w, stores && v != 0)
      case SubstitutionInCalls | PredicateCalls => Run(rest, w, stores)
  }

  function RunLets(lets: seq<(string, Expr)>, w: World): World {
    if lets == [] then w
    else
      var (x, e) := lets[|lets| - 1];
      RunLets(lets[..|lets| - 1], Set(w, x, Eval(e, w, 0)))
  }
}
