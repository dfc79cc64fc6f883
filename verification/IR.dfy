// Expressions of the compiler's intermediate representation, restricted to
// 32-bit integers (which the compiler assumes never overflow) and booleans.

module IR {
  datatype Ty = IntT | BoolT

  /** A variable. `serial` numbers the names handed out by the global
      unique-name counter; names written by the program carry any smaller
      number. `vec` says that the variable is a vector. */
  datatype Name = Name(base: string, serial: nat, ty: Ty, vec: bool)

  type Pos = n: nat | n > 0 witness 1

  datatype BinOp =
    | Add | Sub | Mul | Div | Mod | Min | Max
    | LT | LE | GT | GE | EQ | NE
    | And | Or

  datatype UnOp = Not | Abs | Likely | Broadcast

  /** Pure calls may be moved; calls to a Func may not. */
  datatype CallType = PureCall | FuncCall

  datatype Expr =
    | Const(n: int, cty: Ty)
    | Var(x: Name)
    | Un(uop: UnOp, arg: Expr)
    | Bin(op: BinOp, a: Expr, b: Expr)
    | Select(cond: Expr, onTrue: Expr, onFalse: Expr)
    | Ramp(base: Expr, stride: Expr, lanes: Pos)
    | Let(name: Name, value: Expr, body: Expr)
    | Call(ctype: CallType, func: string, index: nat, args: seq<Expr>)

  type Callee = (string, nat, seq<int>) -> int

  /** What a run gives to variables (lane by lane), to pure calls, and to calls
      of Funcs, which read what has been computed. */
  datatype World = World(vars: (Name, nat) -> int, pures: Callee, funcs: Callee)

  function B2I(b: bool): int { if b then 1 else 0 }

  function Lookup(w: World, x: Name, lane: nat): int {
    var v := w.vars(x, if x.vec then lane else 0);
    if x.ty.BoolT? then B2I(v != 0) else v
  }

  function Bind(w: World, x: Name, f: nat -> int): World {
    w.(vars := (y: Name, m: nat) => if y == x then f(m) else w.vars(y, m))
  }

  function DivImp(x: int, y: int): int { if y == 0 then 0 else x / y }

  function ModImp(x: int, y: int): int { if y == 0 then 0 else x % y }

  function MinI(x: int, y: int): int { if x <= y then x else y }

  function MaxI(x: int, y: int): int { if x >= y then x else y }

  function AbsI(x: int): int { if x < 0 then -x else x }

  function EvalBin(op: BinOp, x: int, y: int): int {
    match op
    case Add => x + y
    case Sub => x - y
    case Mul => x * y
    case Div => DivImp(x, y)
    case Mod => ModImp(x, y)
    case Min => MinI(x, y)
    case Max => MaxI(x, y)
    case LT => B2I(x < y)
    case LE => B2I(x <= y)
    case GT => B2I(x > y)
    case GE => B2I(x >= y)
    case EQ => B2I(x == y)
    case NE => B2I(x != y)
    case And => B2I(x != 0 && y != 0)
    case Or => B2I(x != 0 || y != 0)
  }

  /** The value of lane `l`. A scalar has the same value in every lane. */
  function Eval(e: Expr, w: World, l: nat): int
    decreases e, 1
  {
    match e
    case Const(n, _) => n
    case Var(x) => Lookup(w, x, l)
    case Un(Not, a) => B2I(Eval(a, w, l) == 0)
    case Un(Abs, a) => AbsI(Eval(a, w, l))
    case Un(Likely, a) => Eval(a, w, l)
    case Un(Broadcast, a) => Eval(a, w, 0)
    case Bin(op, a, b) => EvalBin(op, Eval(a, w, l), Eval(b, w, l))
    case Select(c, t, f) => if Eval(c, w, l) != 0 then Eval(t, w, l) else Eval(f, w, l)
    case Ramp(b, s, n) => Eval(b, w, 0) + (if l < n then l else 0) * Eval(s, w, 0)
    case Let(x, v, b) => Eval(b, LetWorld(w, x, v), l)
    case Call(ct, f, i, args) => (if ct.FuncCall? then w.funcs else w.pures)(f, i, EvalArgs(args, w, l))
  }

  /** The world inside `let x = v`. */
  function LetWorld(w: World, x: Name, v: Expr): World
    decreases v, 2
  {
    Bind(w, x, (m: nat) => Eval(v, w, m))
  }

  function EvalArgs(args: seq<Expr>, w: World, l: nat): (r: seq<int>)
    ensures |r| == |args|
    ensures forall i :: 0 <= i < |args| ==> r[i] == Eval(args[i], w, l)
    decreases args, 0
  {
    if args == [] then [] else [Eval(args[0], w, l)] + EvalArgs(args[1..], w, l)
  }

  /** Every name an expression refers to or defines (what expr_uses_var looks for). */
  function Names(e: Expr): set<Name>
    decreases e, 1
  {
    match e
    case Const(_, _) => {}
    case Var(x) => {x}
    case Un(_, a) => Names(a)
    case Bin(_, a, b) => Names(a) + Names(b)
    case Select(c, t, f) => Names(c) + Names(t) + Names(f)
    case Ramp(b, s, _) => Names(b) + Names(s)
    case Let(x, v, b) => {x} + Names(v) + Names(b)
    case Call(_, _, _, args) => NamesOfAll(args)
  }

  function NamesOfAll(args: seq<Expr>): (r: set<Name>)
    ensures forall i :: 0 <= i < |args| ==> Names(args[i]) <= r
    decreases args, 0
  {
    if args == [] then {} else Names(args[0]) + NamesOfAll(args[1..])
  }

  /** No call to a Func. */
  predicate IsPure(e: Expr)
    decreases e, 1
  {
    match e
    case Const(_, _) => true
    case Var(_) => true
    case Un(_, a) => IsPure(a)
    case Bin(_, a, b) => IsPure(a) && IsPure(b)
    case Select(c, t, f) => IsPure(c) && IsPure(t) && IsPure(f)
    case Ramp(b, s, _) => IsPure(b) && IsPure(s)
    case Let(_, v, b) => IsPure(v) && IsPure(b)
    case Call(ct, _, _, args) => ct.PureCall? && AllPure(args)
  }

  predicate AllPure(args: seq<Expr>)
    decreases args, 0
  {
    args != [] ==> IsPure(args[0]) && AllPure(args[1..])
  }

  ghost predicate Below(s: set<Name>, k: nat) {
    forall x :: x in s ==> x.serial < k
  }

  function I(n: int): Expr { Const(n, IntT) }

  function TypeOf(e: Expr): Ty {
    match e
    case Const(_, t) => t
    case Var(x) => x.ty
    case Un(Not, _) => BoolT
    case Un(Abs, _) => IntT
    case Un(_, a) => TypeOf(a)
    case Bin(op, a, _) =>
      (match op
       case Add | Sub | Mul | Div | Mod => IntT
       case Min | Max => TypeOf(a)
       case _ => BoolT)
    case Select(_, t, _) => TypeOf(t)
    case Ramp(_, _, _) => IntT
    case Let(_, _, b) => TypeOf(b)
    case Call(_, _, _, _) => IntT
  }

  /** Type checking. */
  ghost predicate HasTy(e: Expr, ty: Ty)
    decreases e, 1
  {
    match e
    case Const(n, t) => t == ty && (ty.BoolT? ==> n == 0 || n == 1)
    case Var(x) => x.ty == ty
    case Un(Not, a) => ty.BoolT? && HasTy(a, BoolT)
    case Un(Abs, a) => ty.IntT? && HasTy(a, IntT)
    case Un(_, a) => HasTy(a, ty)
    case Bin(op, a, b) =>
      (match op
       case Add | Sub | Mul | Div | Mod => ty.IntT? && HasTy(a, IntT) && HasTy(b, IntT)
       case Min | Max => HasTy(a, ty) && HasTy(b, ty)
       case And | Or => ty.BoolT? && HasTy(a, BoolT) && HasTy(b, BoolT)
       case _ => ty.BoolT? && ((HasTy(a, IntT) && HasTy(b, IntT)) || (HasTy(a, BoolT) && HasTy(b, BoolT))))
    case Select(c, t, f) => HasTy(c, BoolT) && HasTy(t, ty) && HasTy(f, ty)
    case Ramp(b, s, _) => ty.IntT? && HasTy(b, IntT) && HasTy(s, IntT)
    case Let(x, v, b) => HasTy(v, x.ty) && HasTy(b, ty)
    case Call(_, _, _, args) => ty.IntT? && forall i :: 0 <= i < |args| ==> HasTy(args[i], IntT)
  }

  lemma {:induction false} TypeOfWellTyped(e: Expr, ty: Ty)
    requires HasTy(e, ty)
    ensures TypeOf(e) == ty
  {
    match e
    case Un(op, a) => if op.Likely? || op.Broadcast? { TypeOfWellTyped(a, ty); }
    case Bin(op, a, b) => if op.Min? || op.Max? { TypeOfWellTyped(a, ty); }
    case Select(_, t, _) => TypeOfWellTyped(t, ty);
    case Let(_, _, b) => TypeOfWellTyped(b, ty);
    case _ =>
  }

  lemma {:induction false} BoolValue(e: Expr, w: World, l: nat)
    requires HasTy(e, BoolT)
    ensures Eval(e, w, l) == 0 || Eval(e, w, l) == 1
    decreases e
  {
    match e
    case Un(op, a) =>
      if op.Likely? || op.Broadcast? { BoolValue(a, w, if op.Broadcast? then 0 else l); }
    case Bin(op, a, b) =>
      if op.Min? || op.Max? { BoolValue(a, w, l); BoolValue(b, w, l); }
    case Select(c, t, f) => BoolValue(t, w, l); BoolValue(f, w, l);
    case Let(x, v, b) => BoolValue(b, LetWorld(w, x, v), l);
    case _ =>
  }

  /** Two worlds that give the same value to every name of a set, and call the same functions. */
  ghost predicate Agree(s: set<Name>, w: World, w': World) {
    && w.funcs == w'.funcs && w.pures == w'.pures
    && forall x: Name, m: nat :: x in s ==> w.vars(x, m) == w'.vars(x, m)
  }

  lemma {:induction false} EvalAgree(e: Expr, w: World, w': World, l: nat)
    requires Agree(Names(e), w, w')
    ensures Eval(e, w, l) == Eval(e, w', l)
    decreases e, 1
  {
    match e
    case Const(_, _) =>
    case Var(_) =>
    case Un(op, a) => EvalAgree(a, w, w', if op.Broadcast? then 0 else l);
    case Bin(_, a, b) => EvalAgree(a, w, w', l); EvalAgree(b, w, w', l);
    case Select(c, t, f) =>
      EvalAgree(c, w, w', l); EvalAgree(t, w, w', l); EvalAgree(f, w, w', l);
    case Ramp(b, s, _) => EvalAgree(b, w, w', 0); EvalAgree(s, w, w', 0);
    case Let(x, v, b) =>
      forall y: Name, m: nat | y in Names(b)
        ensures LetWorld(w, x, v).vars(y, m) == LetWorld(w', x, v).vars(y, m)
      {
        EvalAgree(v, w, w', m);
      }
      EvalAgree(b, LetWorld(w, x, v), LetWorld(w', x, v), l);
    case Call(_, _, _, args) => EvalArgsAgree(args, w, w', l);
  }

  lemma {:induction false} EvalArgsAgree(args: seq<Expr>, w: World, w': World, l: nat)
    requires Agree(NamesOfAll(args), w, w')
    ensures EvalArgs(args, w, l) == EvalArgs(args, w', l)
    decreases args, 0
  {
    if args != [] {
      EvalAgree(args[0], w, w', l);
      EvalArgsAgree(args[1..], w, w', l);
    }
  }

  /** Binding a name that an expression does not mention changes nothing. */
  lemma BindUnused(e: Expr, w: World, x: Name, f: nat -> int, l: nat)
    requires x !in Names(e)
    ensures Eval(e, Bind(w, x, f), l) == Eval(e, w, l)
  {
    EvalAgree(e, Bind(w, x, f), w, l);
  }
}
