// Expressions in memory: nodes at addresses, possibly shared, and the pass
// that removes lets from such a graph, remembering what it has done for each
// address (RemoveLets of src/CSE.cpp).

module CseGraph {
  import opened CseTerms

  /** A node together with everything it points to. */
  datatype Ref =
    | ConstRef(addr: nat, c: int)
    | VarRef(addr: nat, x: string)
    | NodeRef(addr: nat, op: Op, kids: seq<Ref>)
    | LetRef(addr: nat, x: string, value: Ref, body: Ref)

  function Tree(r: Ref): Term
    decreases r, 1
  {
    match r
    case ConstRef(_, c) => Const(c)
    case VarRef(_, x) => Var(x)
    case NodeRef(_, op, kids) => Node(op, Trees(kids))
    case LetRef(_, x, v, b) => Let(x, Tree(v), Tree(b))
  }

  function Trees(rs: seq<Ref>): (ts: seq<Term>)
    ensures |ts| == |rs|
    ensures forall i :: 0 <= i < |rs| ==> ts[i] == Tree(rs[i])
    decreases rs, 0
  {
    if rs == [] then [] else [Tree(rs[0])] + Trees(rs[1..])
  }

  /** What stands at each address. */
  type Heap = map<nat, Ref>

  /** The node and everything below it stands in the heap, so that two nodes
      with the same address are the same node. */
  ghost predicate Lives(r: Ref, heap: Heap)
    decreases r, 1
  {
    && r.addr in heap && heap[r.addr] == r
    && (match r
        case NodeRef(_, _, kids) => AllLive(kids, heap)
        case LetRef(_, _, v, b) => Lives(v, heap) && Lives(b, heap)
        case _ => true)
  }

  ghost predicate AllLive(rs: seq<Ref>, heap: Heap)
    decreases rs, 0
  {
    rs != [] ==> Lives(rs[0], heap) && AllLive(rs[1..], heap)
  }

  ghost predicate Grows(heap: Heap, heap': Heap) {
    forall a :: a in heap ==> a in heap' && heap'[a] == heap[a]
  }

  lemma {:induction false} LivesLater(r: Ref, heap: Heap, heap': Heap)
    requires Lives(r, heap) && Grows(heap, heap')
    ensures Lives(r, heap')
    decreases r, 1
  {
    match r
    case NodeRef(_, _, kids) => AllLiveLater(kids, heap, heap');
    case LetRef(_, _, v, b) => LivesLater(v, heap, heap'); LivesLater(b, heap, heap');
    case _ =>
  }

  lemma {:induction false} AllLiveLater(rs: seq<Ref>, heap: Heap, heap': Heap)
    requires AllLive(rs, heap) && Grows(heap, heap')
    ensures AllLive(rs, heap')
    decreases rs, 0
  {
    if rs != [] { LivesLater(rs[0], heap, heap'); AllLiveLater(rs[1..], heap, heap'); }
  }

  function ScopeTrees(scope: map<string, Ref>): Scope { map x | x in scope :: Tree(scope[x]) }

  lemma LetParts(e: Ref, heap: Heap, scope: Scope)
    requires e.LetRef? && Lives(e, heap)
    ensures Lives(e.value, heap) && Lives(e.body, heap)
    ensures Strip(Tree(e), scope) == Strip(Tree(e.body), scope[e.x := Strip(Tree(e.value), scope)])
  {}

  class RemoveLets {
    var scope: map<string, Ref>
    /** Results by address, valid in the present scope. */
    var done: map<nat, Ref>
    var next: nat
    ghost var heap: Heap

    ghost predicate Valid()
      reads this
    {
      && (forall a :: a in heap ==> a < next)
      && (forall x :: x in scope ==> Lives(scope[x], heap))
      && forall a :: a in done ==>
           a in heap && Lives(done[a], heap) && Tree(done[a]) == Strip(Tree(heap[a]), ScopeTrees(scope))
    }

    constructor (ghost h: Heap, n: nat)
      requires forall a :: a in h ==> a < n
      ensures Valid() && heap == h && scope == map[]
    {
      scope, done, next, heap := map[], map[], n, h;
    }

    /** The result stands in the grown heap and is the term without its lets. */
    method Mutate(e: Ref) returns (r: Ref)
      requires Valid() && Lives(e, heap)
      modifies this
      ensures Valid() && scope == old(scope) && Grows(old(heap), heap)
      ensures Lives(r, heap) && Tree(r) == Strip(Tree(e), ScopeTrees(scope))
      decreases e, 1
    {
      if e.addr in done { return done[e.addr]; }
      match e {
        case ConstRef(_, _) => r := e;
        case VarRef(_, x) => r := if x in scope then scope[x] else e;
        case NodeRef(_, op, kids) =>
          var rs := MutateAll(kids);
          r := NodeRef(next, op, rs);
          Allocate(r);
          LivesLater(e, old(heap), heap);
        case LetRef(_, _, _, _) =>
          r := MutateLet(e);
          LivesLater(e, old(heap), heap);
      }
      done := done[e.addr := r];
    }

    method MutateAll(es: seq<Ref>) returns (rs: seq<Ref>)
      requires Valid() && AllLive(es, heap)
      modifies this
      ensures Valid() && scope == old(scope) && Grows(old(heap), heap)
      ensures AllLive(rs, heap) && Trees(rs) == StripAll(Trees(es), ScopeTrees(scope))
      decreases es, 0
    {
      if es == [] { return []; }
      var r := Mutate(es[0]);
      AllLiveLater(es[1..], old(heap), heap);
      ghost var h := heap;
      var rest := MutateAll(es[1..]);
      LivesLater(r, h, heap);
      rs := [r] + rest;
      assert rs[1..] == rest;
    }

    /** A new node gets a new address. */
    method Allocate(r: Ref)
      requires Valid() && r.NodeRef? && r.addr == next && AllLive(r.kids, heap)
      modifies this
      ensures Valid() && scope == old(scope) && Grows(old(heap), heap) && Lives(r, heap)
    {
      ghost var h := heap;
      heap := heap[next := r];
      next := next + 1;
      assert Grows(h, heap);
      AllLiveLater(r.kids, h, heap);
      forall x | x in scope ensures Lives(scope[x], heap) { LivesLater(scope[x], h, heap); }
      forall a | a in done ensures Lives(done[a], heap) { LivesLater(done[a], h, heap); }
    }

    /** Inside a let nothing remembered so far may be used, and afterwards
        nothing that was learned inside. */
    method MutateLet(e: Ref) returns (r: Ref)
      requires Valid() && e.LetRef? && Lives(e, heap)
      modifies this
      ensures Valid() && scope == old(scope) && Grows(old(heap), heap)
      ensures Lives(r, heap) && Tree(r) == Strip(Tree(e), ScopeTrees(scope))
      decreases e, 0
    {
      hide Lives, Strip, Tree;
      LetParts(e, heap, ScopeTrees(scope));
      var value := Mutate(e.value);
      LivesLater(e.body, old(heap), heap);
      var outside, outer := done, scope;
      ghost var h := heap;
      done := map[];
      scope := scope[e.x := value];
      assert ScopeTrees(scope) == ScopeTrees(outer)[e.x := Tree(value)];
      r := Mutate(e.body);
      done := outside;
      scope := outer;
      forall y | y in scope ensures Lives(scope[y], heap) { LivesLater(scope[y], h, heap); }
      forall a | a in done ensures Lives(done[a], heap) { LivesLater(done[a], h, heap); }
    }
  }
}
