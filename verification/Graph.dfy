/** The reactive graph as a value, and the invariant every operation of `Context` keeps. */
module Graphs {
  import opened Options
  import opened Closures

  datatype Kind = Source | Computed(body: Closure, guarded: bool) | Effect(run: Closure)

  /** Which nodes exist, and as what.  `gens` stamps each occupant of an id, `birth` orders
      nodes by creation and is used by proofs only. */
  datatype Arena = Arena(kind: map<Id, Kind>, gens: map<Id, nat>, birth: map<Id, nat>)
  {
    predicate IsComputed(n: Id) { n in kind && kind[n].Computed? }
    predicate IsEffect(n: Id) { n in kind && kind[n].Effect? }
    predicate IsReader(n: Id) { n in kind && !kind[n].Source? }
    predicate IsCell(n: Id) { n in kind && !kind[n].Effect? }
    function Gen(n: Id): nat { if n in gens then gens[n] else 0 }
    predicate Current(h: Handle) { h.id in kind && Gen(h.id) == h.gen }
    function Code(n: Id): Closure requires IsReader(n) {
      if kind[n].Computed? then kind[n].body else kind[n].run
    }
    ghost function Rank(n: Id): nat { if n in birth then birth[n] else 0 }
    ghost predicate Before(m: Id, n: Id) { m in birth && n in birth && birth[m] < birth[n] }
    ghost predicate Reads(n: Id, h: Handle) { IsReader(n) && Names(Code(n), h) }
  }

  function At(edges: map<Id, seq<Id>>, n: Id): seq<Id> {
    if n in edges then edges[n] else []
  }

  /** The arena with its mutable columns.  `value[e]` of an effect is what its last run ended
      with. */
  datatype Graph = Graph(
    a: Arena, value: map<Id, Value>, deps: map<Id, seq<Id>>, rdeps: map<Id, seq<Id>>,
    dirty: set<Id>, force: set<Id>)
  {
    function Deps(n: Id): seq<Id> { At(deps, n) }
    function RDeps(n: Id): seq<Id> { At(rdeps, n) }
    predicate Clean(n: Id) { a.IsComputed(n) && n in value && n !in dirty && n !in force }
    predicate Settled(n: Id) { a.IsCell(n) && (a.kind[n].Computed? ==> Clean(n)) }
  }

  ghost predicate NoDup<T(!new)>(s: seq<T>) {
    forall i, j :: 0 <= i < j < |s| ==> s[i] != s[j]
  }

  // ── Structure ──

  ghost predicate Typed(g: Graph) {
    && g.a.birth.Keys == g.a.kind.Keys
    && g.value.Keys <= g.a.kind.Keys
    && (forall n :: n in g.a.kind && g.a.kind[n].Source? ==> n in g.value)
    && (forall n :: n in g.deps <==> g.a.IsReader(n))
    && (forall n :: n in g.rdeps <==> g.a.IsCell(n))
    && (forall n :: n in g.dirty ==> g.a.IsComputed(n))
    && (forall n :: n in g.force ==> g.a.IsReader(n))
  }

  /** Forward and reverse edges mirror each other, without duplicates. */
  ghost predicate Mirrored(deps: map<Id, seq<Id>>, rdeps: map<Id, seq<Id>>) {
    && (forall s, d :: s in At(rdeps, d) <==> d in At(deps, s))
    && (forall n :: NoDup(At(deps, n)))
    && (forall n :: NoDup(At(rdeps, n)))
  }

  /** An edge names a live cell the reader's closure can read, created before the reader. */
  ghost predicate EdgeOk(a: Arena, s: Id, d: Id) {
    a.IsCell(d) && a.Before(d, s) && a.Reads(s, Handle(d, a.Gen(d)))
  }

  ghost predicate EdgesOk(a: Arena, deps: map<Id, seq<Id>>) {
    forall s, d :: d in At(deps, s) ==> EdgeOk(a, s, d)
  }

  /** A handle held by a closure of node `n` was issued, and if it still names a node, that
      node is a cell older than `n`. */
  ghost predicate HandleOk(a: Arena, n: Id, h: Handle) {
    && h.gen <= a.Gen(h.id)
    && (h.gen == a.Gen(h.id) ==> a.IsCell(h.id) && a.Before(h.id, n))
  }

  ghost predicate HandlesOk(a: Arena) {
    forall n, h :: a.Reads(n, h) ==> HandleOk(a, n, h)
  }

  ghost predicate Formed(g: Graph) {
    Typed(g) && Mirrored(g.deps, g.rdeps) && EdgesOk(g.a, g.deps) && HandlesOk(g.a)
  }

  /** No live closure can read a disposed node: the caller's obligation before anything
      that may run a closure. */
  ghost predicate NoDangling(a: Arena) {
    forall n, h :: a.Reads(n, h) ==> a.Current(h)
  }

  /** `n` can read a disposed node, directly or through what it reads. */
  ghost predicate Poisoned(a: Arena, n: Id)
    decreases a.Rank(n)
  {
    exists h :: a.Reads(n, h) && (!a.Current(h) || (a.Before(h.id, n) && Poisoned(a, h.id)))
  }

  lemma {:induction false} NoPoison(a: Arena, n: Id)
    requires NoDangling(a)
    ensures !Poisoned(a, n)
    decreases a.Rank(n)
  {
    if Poisoned(a, n) {
      var h :| a.Reads(n, h) && (!a.Current(h) || (a.Before(h.id, n) && Poisoned(a, h.id)));
      NoPoison(a, h.id);
    }
  }

  /** The occupants two arenas share are the same nodes, and a handle gone stale in the first
      stays stale in the second. */
  ghost predicate Succeeds(a: Arena, a': Arena) {
    && (forall n :: n in a.kind && n in a'.kind && a.Gen(n) == a'.Gen(n)
          ==> a'.kind[n] == a.kind[n] && n in a.birth && n in a'.birth && a'.birth[n] == a.birth[n])
    && (forall n, h :: a.Reads(n, h) && !a.Current(h) ==> !a'.Current(h))
  }

  /** Poison is permanent. */
  lemma {:induction false} PoisonStays(a: Arena, a': Arena, n: Id)
    requires Poisoned(a, n) && Succeeds(a, a')
    requires n in a'.kind && a.Gen(n) == a'.Gen(n)
    ensures Poisoned(a', n)
    decreases a.Rank(n)
  {
    var h :| a.Reads(n, h) && (!a.Current(h) || (a.Before(h.id, n) && Poisoned(a, h.id)));
    assert a'.Reads(n, h);
    if a'.Current(h) {
      assert a.Current(h);
      PoisonStays(a, a', h.id);
      assert a'.Before(h.id, n);
    }
  }

  // ── Cache consistency ──

  /** The cached result of `n` is what its closure computes from the cached values of exactly
      the nodes it has edges to. */
  ghost predicate Local(g: Graph, n: Id)
    requires g.a.IsReader(n)
  {
    var c := g.a.Code(n);
    && n in g.value
    && Replay(c.tree, c.depth, g.value) == Some(g.value[n])
    && forall d :: d in ReadSet(c.tree, c.depth, g.value) <==> d in At(g.deps, n)
  }

  ghost predicate Untouched(g: Graph, n: Id, batched: set<Id>) {
    forall d :: d in At(g.deps, n) ==> d !in batched
  }

  /** Who is exempt from what: `batched` cells have changed without marking their cone yet,
      `scheduled` effects are queued, `computing` readers are inside their closure, `popped`
      effects have left the queue and not finished.  `seen` keeps what the last run of each effect
      read, node by node. */
  datatype Phase = Phase(
    batched: set<Id>, scheduled: set<Id>, computing: set<Id>, popped: set<Id>, seen: map<Id, map<Id, Value>>)

  ghost predicate DepsSettled(g: Graph, n: Id) {
    forall d :: d in At(g.deps, n) ==> g.Settled(d)
  }

  /** The last run of effect `n` read exactly the nodes it has edges to, and their values stand. */
  ghost predicate Saw(g: Graph, seen: map<Id, map<Id, Value>>, n: Id) {
    && n in seen
    && (forall d :: d in seen[n] <==> d in At(g.deps, n))
    && (forall d :: d in At(g.deps, n) ==> d in g.value && seen[n][d] == g.value[d])
  }

  /** A computed node: unless a value it depends on has changed, its cache replays; and if it
      is clean, so is everything below it. */
  ghost predicate ComputedOk(g: Graph, p: Phase, n: Id)
    requires g.a.IsComputed(n)
  {
    && n !in p.scheduled
    && (n in p.computing ==> !g.Clean(n))
    && (n !in p.computing && n in g.value && n !in g.force && Untouched(g, n, p.batched) ==> Local(g, n))
    && (n !in p.computing && g.Clean(n) ==> DepsSettled(g, n))
  }

  /** An effect: while it is not queued nothing below it may be stale, and a forced effect is
      queued.  Effects that can read a disposed node are the exception. */
  ghost predicate EffectOk(g: Graph, p: Phase, n: Id)
    requires g.a.IsEffect(n)
  {
    && (n in p.computing ==> n in p.popped)
    && (n !in p.popped && n !in p.scheduled && !Poisoned(g.a, n) ==> DepsSettled(g, n))
    && (n !in p.computing && n !in g.force && !Poisoned(g.a, n) && Untouched(g, n, p.batched) ==>
          Local(g, n) && Saw(g, p.seen, n))
    && (n in g.force && n !in p.popped ==> n in p.scheduled)
  }

  ghost predicate NodeOk(g: Graph, p: Phase, n: Id) {
    if g.a.IsComputed(n) then ComputedOk(g, p, n)
    else if g.a.IsEffect(n) then EffectOk(g, p, n)
    else n !in p.computing && n !in p.scheduled && n !in p.popped
  }

  ghost predicate Inv(g: Graph, p: Phase) {
    Formed(g) && forall n :: NodeOk(g, p, n)
  }

  // ── From-scratch evaluation: the reference the cache is measured against ──

  ghost function EvalTree(g: Graph, t: Tree, depth: nat, reader: Id): Option<Value>
    requires Bounded(t, depth)
    decreases g.a.Rank(reader), 0, depth
  {
    match t
    case Ret(v) => Some(v)
    case Read(h, _) =>
      if !g.a.Current(h) || !g.a.Before(h.id, reader) then None
      else match Eval(g, h.id)
           case None => None
           case Some(v) => EvalTree(g, t.Then(v), depth - 1, reader)
  }

  /** What reading `n` means: a source holds its value, everything else re-runs its closure
      from the sources up.  No cached value, edge or flag is consulted. */
  ghost function Eval(g: Graph, n: Id): Option<Value>
    decreases g.a.Rank(n), 1
  {
    if n !in g.a.kind then None
    else if g.a.kind[n].Source? then (if n in g.value then Some(g.value[n]) else None)
    else EvalTree(g, g.a.Code(n).tree, g.a.Code(n).depth, n)
  }

  /** What an unpoisoned reader reads is there, older, and unpoisoned too. */
  lemma ReadsUnpoisoned(g: Graph, n: Id, h: Handle)
    requires Formed(g) && !Poisoned(g.a, n) && g.a.Reads(n, h)
    ensures g.a.Current(h) && g.a.IsCell(h.id) && g.a.Before(h.id, n) && !Poisoned(g.a, h.id)
  {
    assert HandleOk(g.a, n, h);
  }

  /** `n` is one of `cells`, or depends on one along edges.  What rests on a cell a batch has written is settled when
      the batch ends. */
  ghost predicate RestsOn(g: Graph, n: Id, cells: set<Id>)
    decreases g.a.Rank(n)
  {
    n in cells || exists m :: m in At(g.deps, n) && g.a.Before(m, n) && RestsOn(g, m, cells)
  }

  lemma {:induction false} RestsOnNothing(g: Graph, n: Id)
    ensures !RestsOn(g, n, {})
    decreases g.a.Rank(n)
  {
    if RestsOn(g, n, {}) {
      var m :| m in At(g.deps, n) && g.a.Before(m, n) && RestsOn(g, m, {});
      RestsOnNothing(g, m);
    }
  }

  lemma {:induction false} RestsTrans(g: Graph, n: Id, cells: set<Id>, below: set<Id>)
    requires RestsOn(g, n, cells) && forall c :: c in cells ==> RestsOn(g, c, below)
    ensures RestsOn(g, n, below)
    decreases g.a.Rank(n)
  {
    if n !in cells {
      var m :| m in At(g.deps, n) && g.a.Before(m, n) && RestsOn(g, m, cells);
      RestsTrans(g, m, cells, below);
    }
  }

  /** Edges decide alone. */
  lemma {:induction false} RestsSame(g: Graph, g': Graph, n: Id, cells: set<Id>)
    requires g'.a == g.a && g'.deps == g.deps
    ensures RestsOn(g', n, cells) == RestsOn(g, n, cells)
    decreases g.a.Rank(n)
  {
    forall m | m in At(g.deps, n) && g.a.Before(m, n) ensures RestsOn(g', m, cells) == RestsOn(g, m, cells) {
      RestsSame(g, g', m, cells);
    }
  }

  lemma RestsUp(g: Graph, n: Id, u: Id, cells: set<Id>)
    requires Formed(g) && RestsOn(g, n, cells) && u in At(g.rdeps, n)
    ensures RestsOn(g, u, cells) && u in g.a.kind
  {
    assert n in At(g.deps, u) && EdgeOk(g.a, u, n);
  }

  /** No effect rests on `cells`. */
  ghost predicate Unheard(g: Graph, cells: set<Id>) {
    forall e :: g.a.IsEffect(e) ==> !RestsOn(g, e, cells)
  }

  /** Replaying over settled reads is from-scratch evaluation, whatever else may have been disposed, and whatever
      a batch still owes elsewhere. */
  lemma {:induction false} ReplayIsEval(g: Graph, p: Phase, n: Id, t: Tree, depth: nat)
    requires Inv(g, p) && p.computing == {}
    requires !Poisoned(g.a, n)
    requires g.a.IsReader(n) && Bounded(t, depth) && Replay(t, depth, g.value).Some?
    requires forall h :: MayRead(t, depth, h) ==> g.a.Reads(n, h)
    requires forall d :: d in ReadSet(t, depth, g.value) ==> g.Settled(d)
    requires forall d :: d in ReadSet(t, depth, g.value) ==> g.a.IsComputed(d) ==> !RestsOn(g, d, p.batched)
    ensures EvalTree(g, t, depth, n) == Replay(t, depth, g.value)
    decreases g.a.Rank(n), 0, depth
  {
    match t
    case Ret(_) =>
    case Read(h, _) =>
      assert MayRead(t, depth, h);
      ReadsUnpoisoned(g, n, h);
      var v := g.value[h.id];
      assert h.id in ReadSet(t, depth, g.value);
      SettledIsEval(g, p, h.id);
      assert forall h' :: MayRead(t.Then(v), depth - 1, h') ==> MayRead(t, depth, h');
      ReplayIsEval(g, p, n, t.Then(v), depth - 1);
  }

  /** Cache coherence: the cached value of a clean node that cannot read a disposed one is its from-scratch value. */
  lemma {:induction false} SettledIsEval(g: Graph, p: Phase, n: Id)
    requires Inv(g, p) && p.computing == {}
    requires g.Settled(n) && (g.a.IsComputed(n) ==> !RestsOn(g, n, p.batched))
    requires !Poisoned(g.a, n)
    ensures n in g.value && Eval(g, n) == Some(g.value[n])
    decreases g.a.Rank(n), 1
  {
    if g.a.IsComputed(n) {
      var c := g.a.Code(n);
      forall d | d in At(g.deps, n) ensures !RestsOn(g, d, p.batched) && d !in p.batched {
        assert EdgeOk(g.a, n, d);
      }
      assert NodeOk(g, p, n) && Untouched(g, n, p.batched);
      assert forall h :: MayRead(c.tree, c.depth, h) ==> g.a.Reads(n, h);
      ReplayIsEval(g, p, n, c.tree, c.depth);
    }
  }

  /** Effect quiescence: an effect that is not queued and cannot read a disposed node last ran on the
      from-scratch value of everything it read, and ended with what a from-scratch run would end with now. */
  lemma {:induction false} EffectIsEval(g: Graph, p: Phase, e: Id)
    requires Inv(g, p) && p.batched == {} && p.computing == {} && p.popped == {} && !Poisoned(g.a, e)
    requires g.a.IsEffect(e) && e !in p.scheduled
    ensures e in g.value && Eval(g, e) == Some(g.value[e])
    ensures e in p.seen && forall d :: d in p.seen[e] ==> Eval(g, d) == Some(p.seen[e][d])
    ensures var c := g.a.Code(e);
            p.seen[e].Keys == ReadSet(c.tree, c.depth, g.value)
                && Replay(c.tree, c.depth, p.seen[e]) == Some(g.value[e])
  {
    var c := g.a.Code(e);
    forall d ensures !RestsOn(g, d, p.batched) { RestsOnNothing(g, d); }
    assert NodeOk(g, p, e) && Untouched(g, e, p.batched);
    assert forall h :: MayRead(c.tree, c.depth, h) ==> g.a.Reads(e, h);
    ReplayIsEval(g, p, e, c.tree, c.depth);
    assert Saw(g, p.seen, e) && Local(g, e);
    forall d | d in p.seen[e] ensures Eval(g, d) == Some(p.seen[e][d]) {
      assert EdgeOk(g.a, e, d);
      ReadsUnpoisoned(g, e, Handle(d, g.a.Gen(d)));
      SettledIsEval(g, p, d);
    }
    ReplayAgree(c.tree, c.depth, g.value, p.seen[e]);
  }

  ghost predicate SameSources(g: Graph, g': Graph) {
    && g'.a == g.a
    && forall n :: n in g.a.kind && g.a.kind[n].Source?
         ==> (n in g'.value <==> n in g.value) && (n in g.value ==> g'.value[n] == g.value[n])
  }

  lemma {:induction false} EvalTreeSame(g: Graph, g': Graph, t: Tree, depth: nat, reader: Id)
    requires SameSources(g, g') && Bounded(t, depth)
    ensures EvalTree(g', t, depth, reader) == EvalTree(g, t, depth, reader)
    decreases g.a.Rank(reader), 0, depth
  {
    match t
    case Ret(_) =>
    case Read(h, _) =>
      if g.a.Current(h) && g.a.Before(h.id, reader) {
        EvalSame(g, g', h.id);
        if Eval(g, h.id).Some? { EvalTreeSame(g, g', t.Then(Eval(g, h.id).val), depth - 1, reader); }
      }
  }

  /** From-scratch evaluation looks at nothing but the arena and the sources. */
  lemma {:induction false} EvalSame(g: Graph, g': Graph, n: Id)
    requires SameSources(g, g')
    ensures Eval(g', n) == Eval(g, n)
    decreases g.a.Rank(n), 1
  {
    if g.a.IsReader(n) { EvalTreeSame(g, g', g.a.Code(n).tree, g.a.Code(n).depth, n); }
  }

  /** With no dangling closure, every read is answered: from-scratch evaluation is total. */
  lemma {:induction false} EvalTotal(g: Graph, n: Id)
    requires Formed(g) && NoDangling(g.a) && n in g.a.kind
    ensures Eval(g, n).Some?
    decreases g.a.Rank(n), 1
  {
    if g.a.IsReader(n) {
      var c := g.a.Code(n);
      assert forall h :: MayRead(c.tree, c.depth, h) ==> g.a.Reads(n, h);
      EvalTreeTotal(g, c.tree, c.depth, n);
    }
  }

  lemma {:induction false} EvalTreeTotal(g: Graph, t: Tree, depth: nat, n: Id)
    requires Formed(g) && NoDangling(g.a) && g.a.IsReader(n) && Bounded(t, depth)
    requires forall h :: MayRead(t, depth, h) ==> g.a.Reads(n, h)
    ensures EvalTree(g, t, depth, n).Some?
    decreases g.a.Rank(n), 0, depth
  {
    match t
    case Ret(_) =>
    case Read(h, _) =>
      assert MayRead(t, depth, h);
      assert g.a.Reads(n, h) && g.a.Current(h) && HandleOk(g.a, n, h);
      EvalTotal(g, h.id);
      var v := Eval(g, h.id).val;
      assert forall h' :: MayRead(t.Then(v), depth - 1, h') ==> MayRead(t, depth, h');
      EvalTreeTotal(g, t.Then(v), depth - 1, n);
  }
}
