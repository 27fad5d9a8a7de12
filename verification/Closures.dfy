/** Compute and effect closures of the reactive graph.

    A closure is a decision tree over the handles it reads: which handle is read next, and
    what is finally returned, may depend on every value read so far.  That is all a pure
    `(Compute&)` closure can observe, so dependency sets are genuinely dynamic.  `depth`
    bounds the reads on a path; it carries the recursion and nothing else (a closure holds
    finitely many handles, and reading one twice answers the same). */
module Closures {
  import opened Options

  type Id = nat
  type Value = int

  /** An occupant identity: arena index and generation stamp. */
  datatype Handle = Handle(id: Id, gen: nat)

  datatype Tree = Ret(result: Value) | Read(source: Handle, next: Value -> Tree)
  {
    /** The rest of the closure once the read has answered `v`. */
    function Then(v: Value): Tree
      requires Read?
    {
      next(v)
    }
  }

  ghost predicate Bounded(t: Tree, depth: nat)
    decreases depth
  {
    match t
    case Ret(_) => true
    case Read(_, _) => depth > 0 && forall v :: Bounded(t.Then(v), depth - 1)
  }

  datatype RawClosure = RawClosure(tree: Tree, depth: nat)
  type Closure = c: RawClosure | Bounded(c.tree, c.depth) witness RawClosure(Ret(0), 0)

  /** Some execution path of the tree reads `h`. */
  ghost predicate MayRead(t: Tree, depth: nat, h: Handle)
    requires Bounded(t, depth)
    decreases depth
  {
    match t
    case Ret(_) => false
    case Read(s, _) => h == s || exists v :: MayRead(t.Then(v), depth - 1, h)
  }

  ghost predicate Names(c: Closure, h: Handle) {
    MayRead(c.tree, c.depth, h)
  }

  /** The value the tree returns when every read is answered from `m`; None if a read misses. */
  ghost function Replay(t: Tree, depth: nat, m: map<Id, Value>): Option<Value>
    requires Bounded(t, depth)
    decreases depth
  {
    match t
    case Ret(v) => Some(v)
    case Read(h, _) => if h.id in m then Replay(t.Then(m[h.id]), depth - 1, m) else None
  }

  /** The ids that run reads (up to the first miss). */
  ghost function ReadSet(t: Tree, depth: nat, m: map<Id, Value>): set<Id>
    requires Bounded(t, depth)
    decreases depth
  {
    match t
    case Ret(_) => {}
    case Read(h, _) => {h.id} + if h.id in m then ReadSet(t.Then(m[h.id]), depth - 1, m) else {}
  }

  /** A run depends only on the values it reads. */
  lemma {:induction false} ReplayAgree(t: Tree, depth: nat, m: map<Id, Value>, m': map<Id, Value>)
    requires Bounded(t, depth)
    requires Replay(t, depth, m).Some?
    requires forall d :: d in ReadSet(t, depth, m) && d in m ==> d in m' && m'[d] == m[d]
    ensures Replay(t, depth, m') == Replay(t, depth, m)
    ensures ReadSet(t, depth, m') == ReadSet(t, depth, m)
    decreases depth
  {
    match t
    case Ret(_) =>
    case Read(h, _) => ReplayAgree(t.Then(m[h.id]), depth - 1, m, m');
  }

  /** A run that misses nothing reads only what `m` holds. */
  lemma {:induction false} ReplayHits(t: Tree, depth: nat, m: map<Id, Value>)
    requires Bounded(t, depth)
    requires Replay(t, depth, m).Some?
    ensures ReadSet(t, depth, m) <= m.Keys
    decreases depth
  {
    match t
    case Ret(_) =>
    case Read(h, _) => ReplayHits(t.Then(m[h.id]), depth - 1, m);
  }
}
