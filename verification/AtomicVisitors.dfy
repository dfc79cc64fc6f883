// The visitors of src/AddAtomicMutex.cpp, which gather what they find in fields.

module AtomicVisitors {
  import opened Options
  import opened AtomicStmts

  /** The names of all stores to a producer. */
  class CollectProducerStoreNames {
    const producer: string
    var storeNames: set<string>

    constructor (name: string)
      ensures producer == name && storeNames == {}
    {
      producer, storeNames := name, {};
    }

    method Visit(s: Stmt)
      modifies this
      ensures storeNames == old(storeNames) + StoreNames(s, producer)
      decreases s
    {
      match s
      case Skip | LockAt(_, _) | UnlockAt(_, _) =>
      case StoreTo(b, _, _, _) => if IsOf(b, producer) { storeNames := storeNames + {b}; }
      case Block(a, b) => Visit(a); Visit(b);
      case LetStmt(_, _, b) => Visit(b);
      case IfThenElse(_, b) => Visit(b);
      case Atomic(_, _, b) => Visit(b);
    }
  }

  /** The index of the first store to a producer, with the lets it needs. */
  class FindProducerStoreIndex {
    const producer: string
    var index: Option<Expr>

    constructor (name: string)
      ensures producer == name && index == None
    {
      producer, index := name, None;
    }

    method Wrap(x: string, v: Expr)
      modifies this
      ensures index == WrapIndex(x, v, old(index))
    {
      if index.Some? && x in Mentions(index.value) { index := Some(Let(x, v, index.value)); }
    }

    method VisitExpr(e: Expr)
      modifies this
      ensures index == FindInExpr(e, old(index))
      decreases e
    {
      match e
      case Lit(_) | Var(_) =>
      case LoadFrom(_, i) => VisitExpr(i);
      case Op(_, a, b) => VisitExpr(a); VisitExpr(b);
      case Select(c, a, b) => VisitExpr(c); VisitExpr(a); VisitExpr(b);
      case Let(x, v, b) => VisitExpr(v); VisitExpr(b); Wrap(x, v);
    }

    method Visit(s: Stmt)
      modifies this
      ensures index == FindIndex(s, producer, old(index))
      decreases s
    {
      match s
      case Skip =>
      case StoreTo(b, v, i, p) =>
        VisitExpr(p);
        VisitExpr(v);
        VisitExpr(i);
        if IsOf(b, producer) && index.None? { index := Some(i); }
      case Block(a, b) => Visit(a); Visit(b);
      case LetStmt(x, v, b) => VisitExpr(v); Visit(b); Wrap(x, v);
      case IfThenElse(c, b) => VisitExpr(c); Visit(b);
      case Atomic(_, _, b) => Visit(b);
      case LockAt(_, i) => VisitExpr(i);
      case UnlockAt(_, i) => VisitExpr(i);
    }
  }

  method CheckAtomicValidity(producer: string, body: Stmt) returns (ok: bool)
    ensures ok <==> IsValid(body, producer)
  {
    var collector := new CollectProducerStoreNames(producer);
    collector.Visit(body);
    var find := new FindProducerStoreIndex(producer);
    find.Visit(body);
    ok := find.index.None? || Mentions(find.index.value) !! collector.storeNames;
  }

  /** The visit of an atomic node that needs a mutex; `t` is the new name. */
  method AddAtomicMutex(producer: string, mutex: string, body: Stmt, t: string) returns (s: Stmt)
    ensures s == AddMutex(producer, mutex, body, t)
  {
    var find := new FindProducerStoreIndex(producer);
    find.Visit(body);
    var index, update := Lit(0), body;
    if find.index.Some? {
      index := Var(t);
      update := ReplaceIndex(body, t);
    }
    s := Atomic(producer, mutex, Block(LockAt(mutex, index), Block(update, UnlockAt(mutex, index))));
    if find.index.Some? { s := LetStmt(t, find.index.value, s); }
  }
}
