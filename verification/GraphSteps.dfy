/** What each primitive step of the engine does to the graph, and that it keeps `Inv`. */
module GraphSteps {
  import opened Options
  import opened Closures
  import opened Graphs

  // ── Edge lists: insert if absent, swap-remove ──

  function EdgeInsert(s: seq<Id>, x: Id): seq<Id> {
    if x in s then s else s + [x]
  }

  function IndexOf(s: seq<Id>, x: Id): (i: nat)
    requires x in s
    ensures i < |s| && s[i] == x
  {
    if s[0] == x then 0 else 1 + IndexOf(s[1..], x)
  }

  /** Overwrite the first occurrence with the last element and drop the last. */
  function EdgeRemove(s: seq<Id>, x: Id): seq<Id> {
    if x in s then s[IndexOf(s, x) := s[|s| - 1]][..|s| - 1] else s
  }

  lemma EdgeInsertMembers(s: seq<Id>, x: Id)
    requires NoDup(s)
    ensures NoDup(EdgeInsert(s, x))
    ensures forall y :: y in EdgeInsert(s, x) <==> y in s || y == x
  {
  }

  lemma EdgeRemoveMembers(s: seq<Id>, x: Id)
    requires NoDup(s)
    ensures NoDup(EdgeRemove(s, x))
    ensures forall y :: y in EdgeRemove(s, x) <==> y in s && y != x
  {
    if x in s {
      var i, r := IndexOf(s, x), EdgeRemove(s, x);
      forall y | y in s && y != x ensures y in r {
        var j :| 0 <= j < |s| && s[j] == y;
        assert r[if j == |s| - 1 then i else j] == y;
      }
      forall y | y in r ensures y in s && y != x {
        var j :| 0 <= j < |r| && r[j] == y;
        assert y == s[if j == i then |s| - 1 else j];
      }
    }
  }

  // ── Entering a closure: all edges of the reader are dropped ──

  ghost predicate Detached(g: Graph, g': Graph, n: Id) {
    && g' == g.(deps := g.deps[n := []], rdeps := g'.rdeps)
    && g'.rdeps.Keys == g.rdeps.Keys
    && (forall d :: NoDup(At(g'.rdeps, d)))
    && (forall d, s :: s in At(g'.rdeps, d) <==> s in At(g.rdeps, d) && s != n)
  }

  lemma DetachKeepsInv(g: Graph, g': Graph, p: Phase, n: Id)
    requires Inv(g, p) && Detached(g, g', n)
    requires g.a.IsReader(n) && !g.Clean(n) && (g.a.IsEffect(n) ==> n in p.popped)
    ensures Inv(g', p.(computing := p.computing + {n}))
  {
    var p' := p.(computing := p.computing + {n});
    assert At(g'.deps, n) == [] && forall m :: m != n ==> At(g'.deps, m) == At(g.deps, m);
    forall m ensures NodeOk(g', p', m) {
      assert NodeOk(g, p, m);
    }
  }

  // ── A tracked read: one edge, both ways ──

  ghost function Tracked(g: Graph, d: Id, s: Id): Graph {
    g.(rdeps := g.rdeps[d := EdgeInsert(g.RDeps(d), s)], deps := g.deps[s := EdgeInsert(g.Deps(s), d)])
  }

  lemma TrackKeepsInv(g: Graph, p: Phase, d: Id, s: Id)
    requires Inv(g, p) && s in p.computing
    requires EdgeOk(g.a, s, d)
    ensures Inv(Tracked(g, d, s), p)
  {
    var g' := Tracked(g, d, s);
    EdgeInsertMembers(g.Deps(s), d);
    EdgeInsertMembers(g.RDeps(d), s);
    assert NodeOk(g, p, s);
    assert At(g'.deps, s) == EdgeInsert(g.Deps(s), d) && At(g'.rdeps, d) == EdgeInsert(g.RDeps(d), s);
    assert forall m :: m != s ==> At(g'.deps, m) == At(g.deps, m);
    assert forall m :: m != d ==> At(g'.rdeps, m) == At(g.rdeps, m);
    forall m ensures NodeOk(g', p, m) {
      assert NodeOk(g, p, m);
    }
  }

  // ── Leaving a closure ──

  /** The closure of `n` returned `v`: its reads are settled and its edges name them. */
  ghost predicate Answered(g: Graph, n: Id, v: Value) {
    && g.a.IsReader(n)
    && DepsSettled(g, n)
    && var c := g.a.Code(n);
       && Replay(c.tree, c.depth, g.value) == Some(v)
       && forall d :: d in ReadSet(c.tree, c.depth, g.value) <==> d in g.Deps(n)
  }

  ghost function Finished(g: Graph, n: Id, v: Value): Graph {
    g.(value := g.value[n := v], dirty := g.dirty - {n},
       force := if g.a.IsComputed(n) then g.force - {n} else g.force)
  }

  /** A cached result survives a change of values it does not depend on. */
  lemma LocalAgree(g: Graph, g': Graph, m: Id)
    requires g.a.IsReader(m) && Local(g, m)
    requires g'.a == g.a && g'.Deps(m) == g.Deps(m)
    requires m in g.value ==> m in g'.value && g'.value[m] == g.value[m]
    requires forall d :: d in g.Deps(m) && d in g.value ==> d in g'.value && g'.value[d] == g.value[d]
    ensures Local(g', m)
  {
    var c := g.a.Code(m);
    ReplayAgree(c.tree, c.depth, g.value, g'.value);
  }

  /** Between the new value and the invalidation it owes, the readers of `n` count as
      depending on a batched cell. */
  ghost function Owed(g: Graph, p: Phase, n: Id, v: Value): Phase {
    p.(computing := p.computing - {n},
       batched := if g.a.IsComputed(n) && n in g.value && g.value[n] != v then p.batched + {n} else p.batched)
  }

  lemma FinishComputed(g: Graph, p: Phase, n: Id, v: Value)
    requires Inv(g, p) && n in p.computing && Answered(g, n, v) && g.a.IsComputed(n)
    ensures Inv(Finished(g, n, v), Owed(g, p, n, v))
    ensures Inv(Finished(g, n, v), p.(computing := p.computing - {n}, batched := p.batched + {n}))
  {
    FinishWith(g, p, n, v, Owed(g, p, n, v));
    FinishWith(g, p, n, v, p.(computing := p.computing - {n}, batched := p.batched + {n}));
  }

  lemma FinishWith(g: Graph, p: Phase, n: Id, v: Value, p': Phase)
    requires Inv(g, p) && n in p.computing && Answered(g, n, v) && g.a.IsComputed(n)
    requires p' == p.(computing := p.computing - {n}, batched := p'.batched) && p.batched <= p'.batched
    requires n in g.value && g.value[n] != v ==> n in p'.batched
    ensures Inv(Finished(g, n, v), p')
  {
    var g' := Finished(g, n, v);
    assert NodeOk(g, p, n);
    forall m ensures NodeOk(g', p', m) {
      assert NodeOk(g, p, m);
      if m == n || (g.a.IsReader(m) && Local(g, m) && Untouched(g', m, p'.batched)) {
        FinishLocal(g, p, n, v, m);
      }
    }
  }

  /** The new value of `n` disturbs nobody's cached result but that of its readers. */
  lemma FinishLocal(g: Graph, p: Phase, n: Id, v: Value, m: Id)
    requires Inv(g, p) && Answered(g, n, v) && g.a.IsReader(m)
    requires m == n || (Local(g, m) && (n in g.Deps(m) ==> n !in g.value || g.value[n] == v))
    ensures Local(Finished(g, n, v), m)
  {
    var g' := Finished(g, n, v);
    var c := g.a.Code(m);
    ReplayHits(c.tree, c.depth, g.value);
    assert n !in g.Deps(n);
    ReplayAgree(c.tree, c.depth, g.value, g'.value);
  }

  /** `read` is what the run of `n` that just ended read. */
  ghost predicate LoggedBy(g: Graph, n: Id, read: map<Id, Value>) {
    forall d :: (d in read <==> d in g.Deps(n)) && (d in read ==> d in g.value && read[d] == g.value[d])
  }

  lemma FinishEffect(g: Graph, p: Phase, n: Id, v: Value, read: map<Id, Value>)
    requires Inv(g, p) && n in p.computing && Answered(g, n, v) && g.a.IsEffect(n) && LoggedBy(g, n, read)
    requires n in g.force ==> n in p.scheduled
    ensures Inv(Finished(g, n, v),
        p.(computing := p.computing - {n}, popped := p.popped - {n}, seen := p.seen[n := read]))
    ensures Saw(Finished(g, n, v), p.seen[n := read], n)
  {
    var g' := Finished(g, n, v);
    var p' := p.(computing := p.computing - {n}, popped := p.popped - {n}, seen := p.seen[n := read]);
    assert forall m :: n !in g.Deps(m) by { assert forall m :: n in At(g.deps, m) ==> EdgeOk(g.a, m, n); }
    forall m ensures NodeOk(g', p', m) {
      assert NodeOk(g, p, m);
      if m == n || (g.a.IsReader(m) && Local(g, m)) {
        FinishLocal(g, p, n, v, m);
      }
    }
  }

  /** A refresh that found nothing to recompute. */
  lemma ValidateKeepsInv(g: Graph, p: Phase, n: Id)
    requires Inv(g, p) && g.a.IsComputed(n) && n in g.value && n !in g.force && n !in p.computing
    requires DepsSettled(g, n)
    ensures Inv(g.(dirty := g.dirty - {n}, force := g.force - {n}), p)
  {
    var g' := g.(dirty := g.dirty - {n}, force := g.force - {n});
    forall m ensures NodeOk(g', p, m) {
      assert NodeOk(g, p, m);
    }
  }

  // ── Writing a source ──

  lemma WriteKeepsInv(g: Graph, p: Phase, n: Id, v: Value)
    requires Inv(g, p) && n in g.a.kind && g.a.kind[n].Source?
    ensures Inv(g.(value := g.value[n := v]), p.(batched := p.batched + {n}))
  {
    var g', p' := g.(value := g.value[n := v]), p.(batched := p.batched + {n});
    forall m ensures NodeOk(g', p', m) {
      assert NodeOk(g, p, m);
      if g.a.IsReader(m) && Local(g, m) && Untouched(g', m, p'.batched) {
        LocalAgree(g, g', m);
      }
    }
  }

  // ── Frontier walks ──

  /** An effect a walk reached, and whether it was reached as a root. */
  datatype Hit = Hit(effect: Id, forced: bool)

  ghost predicate OnlyEffects(g: Graph, hits: seq<Hit>) {
    forall h :: h in hits ==> g.a.IsEffect(h.effect)
  }

  predicate IsHit(hits: seq<Hit>, e: Id) {
    Hit(e, true) in hits || Hit(e, false) in hits
  }

  /** The mark walk has visited `n`, or need not: its flag is up, or it is in the list. */
  ghost predicate Visited(g: Graph, hits: seq<Hit>, n: Id) {
    && (g.a.IsComputed(n) ==> n in g.dirty)
    && (g.a.IsEffect(n) ==> IsHit(hits, n))
  }

  ghost predicate ForceVisited(g: Graph, hits: seq<Hit>, n: Id) {
    && (g.a.IsComputed(n) ==> n in g.dirty && n in g.force)
    && (g.a.IsEffect(n) ==> Hit(n, true) in hits)
  }

  ghost predicate Raised(g: Graph, g': Graph, n: Id) {
    (n in g'.dirty && n !in g.dirty) || (n in g'.force && n !in g.force)
  }

  /** `g'` is `g` with flags raised only, on computed nodes only. */
  ghost predicate FlagsRaised(g: Graph, g': Graph) {
    && g' == g.(dirty := g'.dirty, force := g'.force)
    && g.dirty <= g'.dirty && g.force <= g'.force
    && forall n :: Raised(g, g', n) ==> g.a.IsComputed(n)
  }

  /** The outcome of marking from `roots`: every root is visited with force, and whatever hangs
      below a raised flag is visited. */
  ghost predicate Marked(g: Graph, g': Graph, roots: seq<Id>, hits: seq<Hit>) {
    && FlagsRaised(g, g') && OnlyEffects(g, hits)
    && (forall r :: r in roots ==> ForceVisited(g', hits, r))
    && (forall n, u :: Raised(g, g', n) && u in At(g.rdeps, n) ==> Visited(g', hits, u))
  }

  /** `g'`, `queue'` are `g`, `queue` with the listed effects scheduled. */
  ghost predicate Scheduled(g: Graph, g': Graph, queue: set<Id>, queue': set<Id>, hits: seq<Hit>) {
    && g' == g.(force := g'.force)
    && (forall n :: n in g'.force <==> n in g.force || Hit(n, true) in hits)
    && (forall n :: n in queue' <==> n in queue || IsHit(hits, n))
  }

  lemma ScheduledStep(g: Graph, g1: Graph, g2: Graph, q: set<Id>, q1: set<Id>, hits: seq<Hit>, h: Hit)
    requires Scheduled(g, g1, q, q1, hits)
    requires g2 == if h.forced then g1.(force := g1.force + {h.effect}) else g1
    ensures Scheduled(g, g2, q, q1 + {h.effect}, hits + [h])
  {
    assert forall x :: x in hits + [h] <==> x in hits || x == h;
  }

  /** Marking the readers of `b` and scheduling what the walk reached pays the debt of `b`. */
  lemma NotifyKeepsInv(g: Graph, g1: Graph, g2: Graph, p: Phase, b: Id, hits: seq<Hit>, queue: set<Id>)
    requires Inv(g, p.(batched := p.batched + {b}))
    requires Marked(g, g1, g.RDeps(b), hits) && Scheduled(g1, g2, p.scheduled, queue, hits)
    ensures Inv(g2, p.(scheduled := queue))
  {
    var p0, p2 := p.(batched := p.batched + {b}), p.(scheduled := queue);
    assert Typed(g2) by {
      forall n | n in g2.dirty && n !in g.dirty ensures g.a.IsComputed(n) { assert Raised(g, g1, n); }
      forall n | n in g2.force && n !in g.force ensures g.a.IsReader(n) {
        assert Raised(g, g1, n) || Hit(n, true) in hits;
      }
    }
    forall m ensures NodeOk(g2, p2, m) {
      assert NodeOk(g, p0, m);
      if g.a.IsReader(m) {
        assert b in At(g.deps, m) <==> m in At(g.rdeps, b);
        forall d | d in At(g.deps, m) && g.Settled(d) && !g2.Settled(d) ensures Visited(g1, hits, m) {
          assert Raised(g, g1, d) && m in At(g.rdeps, d);
        }
        assert b !in At(g.deps, m) ==> (Untouched(g, m, p.batched) ==> Untouched(g, m, p0.batched));
      }
    }
  }

  /** Staleness is upward closed: whatever can be reached from a stale node along reverse edges
      is stale, or is an effect already queued. */
  lemma {:induction false} StaleCone(g: Graph, p: Phase, path: seq<Id>)
    requires Inv(g, p) && |path| > 0 && g.a.IsComputed(path[0]) && !g.Clean(path[0])
    requires forall i :: 0 <= i < |path| - 1 ==> path[i + 1] in At(g.rdeps, path[i])
    ensures var n := path[|path| - 1];
            && g.a.IsReader(n) && !g.Clean(n)
            && (g.a.IsEffect(n) && n !in p.popped && !Poisoned(g.a, n) ==> n in p.scheduled)
    decreases |path|
  {
    if |path| > 1 {
      var k := |path| - 1;
      StaleCone(g, p, path[..k]);
      assert path[k] in At(g.rdeps, path[k - 1]);
      assert path[k - 1] in At(g.deps, path[k]);
      assert EdgeOk(g.a, path[k], path[k - 1]);
      assert NodeOk(g, p, path[k]);
    }
  }

  /** A cell nobody reads owes nothing. */
  lemma UnreadKeepsInv(g: Graph, p: Phase, b: Id)
    requires Inv(g, p.(batched := p.batched + {b})) && At(g.rdeps, b) == []
    ensures Inv(g, p)
  {
    forall m ensures NodeOk(g, p, m) {
      assert NodeOk(g, p.(batched := p.batched + {b}), m);
      assert b in At(g.deps, m) <==> m in At(g.rdeps, b);
    }
  }

  /** The outcome of clearing from `roots`: the nodes `cleared` lost value and flags, and what
      hangs below them holds no value either. */
  ghost predicate Cleared(g: Graph, g': Graph, cleared: set<Id>, hits: seq<Hit>) {
    && g' == g.(value := g.value - cleared, dirty := g.dirty - cleared, force := g.force - cleared)
    && OnlyEffects(g, hits)
    && (forall n :: n in cleared ==> g.a.IsComputed(n))
    && (forall n, u :: n in cleared && u in At(g.rdeps, n) ==> Emptied(g', hits, u))
  }

  ghost predicate Emptied(g: Graph, hits: seq<Hit>, n: Id) {
    && (g.a.IsComputed(n) ==> n !in g.value && n !in g.dirty)
    && (g.a.IsEffect(n) ==> Hit(n, true) in hits)
  }

  lemma ClearKeepsInv(g: Graph, g1: Graph, g2: Graph, p: Phase, cleared: set<Id>, hits: seq<Hit>, queue: set<Id>)
    requires Inv(g, p) && p.computing == {}
    requires Cleared(g, g1, cleared, hits) && Scheduled(g1, g2, p.scheduled, queue, hits)
    ensures Inv(g2, p.(scheduled := queue))
  {
    var p2 := p.(scheduled := queue);
    assert forall n :: n in g2.force ==> n in g.force || Hit(n, true) in hits;
    assert Typed(g2);
    forall m ensures NodeOk(g2, p2, m) {
      assert NodeOk(g, p, m);
      if g.a.IsReader(m) {
        forall d | d in At(g.deps, m) && d in cleared ensures Emptied(g1, hits, m) {
          assert m in At(g.rdeps, d);
        }
        if m in g2.value && Local(g, m) && forall d :: d in At(g.deps, m) ==> d !in cleared {
          LocalAgree(g, g2, m);
        }
      }
    }
  }

  // ── Creation ──

  /** The closure of a node to be created holds current handles of cells. */
  ghost predicate HoldsCurrent(a: Arena, k: Kind) {
    !k.Source? ==> forall h :: Names(if k.Computed? then k.body else k.run, h) ==> a.Current(h) && a.IsCell(h.id)
  }

  ghost predicate MayCreate(g: Graph, n: Id, k: Kind) {
    n !in g.a.kind && HoldsCurrent(g.a, k)
  }

  /** Ids no node occupies are named by stale handles only. */
  ghost predicate IdsOk(a: Arena, clock: nat) {
    && a.birth.Keys == a.kind.Keys
    && forall n :: n in a.kind ==> a.birth[n] < clock
  }

  function Created(g: Graph, n: Id, k: Kind, v: Value, clock: nat): Graph {
    Graph(Arena(g.a.kind[n := k], g.a.gens, g.a.birth[n := clock]),
          if k.Source? then g.value[n := v] else g.value,
          if k.Source? then g.deps else g.deps[n := []],
          if k.Effect? then g.rdeps else g.rdeps[n := []],
          g.dirty,
          if k.Effect? then g.force + {n} else g.force)
  }

  /** Creation leaves every existing closure, and what it may read, as it was. */
  lemma CreateArena(g: Graph, n: Id, k: Kind, v: Value, clock: nat)
    requires Formed(g) && MayCreate(g, n, k) && IdsOk(g.a, clock)
    ensures var a' := Created(g, n, k, v, clock).a;
            HandlesOk(a') && Succeeds(g.a, a') && IdsOk(a', clock + 1) && (NoDangling(g.a) ==> NoDangling(a'))
  {
    var a' := Created(g, n, k, v, clock).a;
    forall m, h | a'.Reads(m, h) ensures HandleOk(a', m, h) && (NoDangling(g.a) ==> a'.Current(h)) {
      if m != n {
        assert g.a.Reads(m, h);
        assert HandleOk(g.a, m, h);
      }
    }
    forall m, h | g.a.Reads(m, h) && !g.a.Current(h) ensures !a'.Current(h) {
      assert HandleOk(g.a, m, h);
    }
  }

  lemma CreateColumns(g: Graph, n: Id, k: Kind, v: Value, clock: nat)
    requires Formed(g) && MayCreate(g, n, k) && IdsOk(g.a, clock)
    ensures Typed(Created(g, n, k, v, clock))
    ensures forall m :: At(Created(g, n, k, v, clock).deps, m) == At(g.deps, m)
    ensures forall m :: At(Created(g, n, k, v, clock).rdeps, m) == At(g.rdeps, m)
  {
  }

  lemma CreateForms(g: Graph, n: Id, k: Kind, v: Value, clock: nat)
    requires Formed(g) && MayCreate(g, n, k) && IdsOk(g.a, clock)
    ensures var g' := Created(g, n, k, v, clock);
            Typed(g') && Mirrored(g'.deps, g'.rdeps) && EdgesOk(g'.a, g'.deps)
  {
    var g' := Created(g, n, k, v, clock);
    CreateColumns(g, n, k, v, clock);
    forall s, d | d in At(g'.deps, s) ensures EdgeOk(g'.a, s, d) {
      assert EdgeOk(g.a, s, d);
      assert g'.a.Reads(s, Handle(d, g.a.Gen(d)));
    }
  }

  lemma SawSame(g: Graph, g': Graph, seen: map<Id, map<Id, Value>>, m: Id)
    requires Saw(g, seen, m) && At(g'.deps, m) == At(g.deps, m)
    requires forall d :: d in At(g.deps, m) && d in g.value ==> d in g'.value && g'.value[d] == g.value[d]
    ensures Saw(g', seen, m)
  {
  }

  lemma CreateFresh(g: Graph, p: Phase, n: Id, k: Kind, v: Value, clock: nat, p': Phase)
    requires Formed(g) && NodeOk(g, p, n) && MayCreate(g, n, k)
    requires p' == p.(scheduled := if k.Effect? then p.scheduled + {n} else p.scheduled)
    requires At(Created(g, n, k, v, clock).deps, n) == At(g.deps, n)
    ensures NodeOk(Created(g, n, k, v, clock), p', n)
  {
    hide Poisoned, Mirrored, HandlesOk, Saw;
  }

  lemma CreateOther(g: Graph, p: Phase, n: Id, k: Kind, v: Value, clock: nat, p': Phase, m: Id)
    requires m != n && Formed(g) && NodeOk(g, p, m) && MayCreate(g, n, k)
    requires p' == p.(scheduled := if k.Effect? then p.scheduled + {n} else p.scheduled)
    requires forall x :: At(Created(g, n, k, v, clock).deps, x) == At(g.deps, x)
    requires Poisoned(g.a, m) ==> Poisoned(Created(g, n, k, v, clock).a, m)
    ensures NodeOk(Created(g, n, k, v, clock), p', m)
  {
    hide Poisoned, Mirrored, HandlesOk, Saw, Local, NodeOk;
    var g' := Created(g, n, k, v, clock);
    forall d | d in At(g.deps, m) ensures d != n { assert EdgeOk(g.a, m, d); }
    StandsElsewhere(g, g', p, p', m);
  }

  /** Nothing at `m`, nor at what it reads, is different. */
  lemma StandsElsewhere(g: Graph, g': Graph, p: Phase, p': Phase, m: Id)
    requires NodeOk(g, p, m) && p' == p.(scheduled := p'.scheduled) && (m in p.scheduled <==> m in p'.scheduled)
    requires forall x :: x == m || x in At(g.deps, m) ==>
               && (x in g.a.kind <==> x in g'.a.kind) && (x in g.a.kind ==> g'.a.kind[x] == g.a.kind[x])
               && (x in g.value <==> x in g'.value) && (x in g.value ==> g'.value[x] == g.value[x])
               && (x in g.dirty <==> x in g'.dirty) && (x in g.force <==> x in g'.force)
    requires At(g'.deps, m) == At(g.deps, m) && (Poisoned(g.a, m) ==> Poisoned(g'.a, m))
    ensures NodeOk(g', p', m)
  {
    hide Poisoned, Saw, Local;
    if g.a.IsReader(m) {
      if Saw(g, p.seen, m) { SawSame(g, g', p.seen, m); }
      if Local(g, m) { LocalSameCode(g, g', m); }
    }
  }

  lemma CreateKeepsInv(g: Graph, p: Phase, n: Id, k: Kind, v: Value, clock: nat)
    requires Inv(g, p) && MayCreate(g, n, k) && IdsOk(g.a, clock)
    ensures Inv(Created(g, n, k, v, clock), p.(scheduled := if k.Effect? then p.scheduled + {n} else p.scheduled))
  {
    var g' := Created(g, n, k, v, clock);
    var p' := p.(scheduled := if k.Effect? then p.scheduled + {n} else p.scheduled);
    CreateColumns(g, n, k, v, clock);
    CreateForms(g, n, k, v, clock);
    CreateArena(g, n, k, v, clock);
    forall m ensures NodeOk(g', p', m) {
      assert NodeOk(g, p, m);
      if m == n {
        CreateFresh(g, p, n, k, v, clock, p');
      } else {
        if Poisoned(g.a, m) { PoisonStays(g.a, g'.a, m); }
        CreateOther(g, p, n, k, v, clock, p', m);
      }
    }
  }

  lemma LocalSameCode(g: Graph, g': Graph, m: Id)
    requires g.a.IsReader(m) && g'.a.IsReader(m) && Local(g, m)
    requires g'.a.Code(m) == g.a.Code(m) && At(g'.deps, m) == At(g.deps, m)
    requires m in g.value ==> m in g'.value && g'.value[m] == g.value[m]
    requires forall d :: d in At(g.deps, m) && d in g.value ==> d in g'.value && g'.value[d] == g.value[d]
    ensures Local(g', m)
  {
    var c := g.a.Code(m);
    ReplayAgree(c.tree, c.depth, g.value, g'.value);
  }

  // ── Disposal ──

  /** Every edge at `x` is gone, in both directions. */
  ghost predicate Unlinked(g: Graph, g': Graph, x: Id) {
    && g' == g.(deps := g'.deps, rdeps := g'.rdeps)
    && g'.deps.Keys == g.deps.Keys && g'.rdeps.Keys == g.rdeps.Keys
    && (forall n :: NoDup(At(g'.deps, n)))
    && (forall n :: NoDup(At(g'.rdeps, n)))
    && (forall s, d :: d in At(g'.deps, s) <==> d in At(g.deps, s) && s != x && d != x)
    && (forall s, d :: s in At(g'.rdeps, d) <==> s in At(g.rdeps, d) && s != x && d != x)
  }

  /** The arena slot of `x` emptied and its generation bumped. */
  function Vacated(a: Arena, x: Id): Arena {
    Arena(a.kind - {x}, a.gens[x := a.Gen(x) + 1], a.birth - {x})
  }

  function Removed(g: Graph, x: Id): Graph {
    Graph(Vacated(g.a, x), g.value - {x}, g.deps - {x}, g.rdeps - {x}, g.dirty - {x}, g.force - {x})
  }

  lemma VacateArena(a: Arena, x: Id)
    requires HandlesOk(a) && a.birth.Keys == a.kind.Keys && x in a.kind
    ensures HandlesOk(Vacated(a, x)) && Succeeds(a, Vacated(a, x))
  {
    var a' := Vacated(a, x);
    forall n, h | a'.Reads(n, h) ensures HandleOk(a', n, h) {
      assert a.Reads(n, h);
      assert HandleOk(a, n, h);
    }
    forall n, h | a.Reads(n, h) && !a.Current(h) ensures !a'.Current(h) {
      assert HandleOk(a, n, h);
    }
  }

  /** Whoever has an edge to a poisoned node, or to the node being disposed, is poisoned. */
  lemma PoisonSpreads(g: Graph, x: Id, n: Id, u: Id)
    requires Formed(g) && x in g.a.kind && u in At(g.rdeps, n) && u != x
    requires n == x || Poisoned(Vacated(g.a, x), n)
    ensures Poisoned(Vacated(g.a, x), u)
  {
    var a' := Vacated(g.a, x);
    assert n in At(g.deps, u);
    assert EdgeOk(g.a, u, n);
    var h := Handle(n, g.a.Gen(n));
    assert a'.Reads(u, h);
    if n != x {
      assert a'.Before(n, u);
    } else {
      assert !a'.Current(h);
    }
  }

  lemma RemovedAt(edges: map<Id, seq<Id>>, x: Id)
    ensures forall n :: At(edges - {x}, n) == if n == x then [] else At(edges, n)
  {
  }

  lemma DisposeTyped(g: Graph, g1: Graph, g2: Graph, x: Id)
    requires Typed(g) && x in g.a.kind && Unlinked(g, g1, x) && FlagsRaised(g1, g2)
    ensures Typed(Removed(g2, x))
  {
    assert forall n :: n in g2.dirty && n !in g1.dirty ==> Raised(g1, g2, n);
    assert forall n :: n in g2.force && n !in g1.force ==> Raised(g1, g2, n);
  }

  lemma DisposeColumns(g: Graph, g1: Graph, g2: Graph, x: Id)
    requires Formed(g) && x in g.a.kind && Unlinked(g, g1, x) && FlagsRaised(g1, g2)
    ensures var g3 := Removed(g2, x);
            Mirrored(g3.deps, g3.rdeps) && EdgesOk(g3.a, g3.deps)
    ensures forall s, d :: d in At(Removed(g2, x).deps, s) <==> d in At(g.deps, s) && s != x && d != x
  {
    var g3 := Removed(g2, x);
    RemovedAt(g2.deps, x);
    RemovedAt(g2.rdeps, x);
    forall s, d | d in At(g3.deps, s) ensures EdgeOk(g3.a, s, d) {
      assert EdgeOk(g.a, s, d);
      assert g3.a.Reads(s, Handle(d, g.a.Gen(d)));
    }
  }

  /** A reader of something a disposal unsettled was visited and is poisoned itself. */
  lemma DisposeReaches(g: Graph, g1: Graph, g2: Graph, x: Id, hits: seq<Hit>, m: Id)
    requires Formed(g) && x in g.a.kind && m != x && g.a.IsReader(m)
    requires Unlinked(g, g1, x) && Marked(g1, g2, g.RDeps(x), hits)
    requires forall n :: Raised(g1, g2, n) ==> Poisoned(Vacated(g.a, x), n)
    ensures forall d :: d in At(g.deps, m) && d != x && g.Settled(d) && !Removed(g2, x).Settled(d) ==>
              Visited(g2, hits, m) && Poisoned(Vacated(g.a, x), m)
    ensures x in At(g.deps, m) ==> m in At(g.rdeps, x) && ForceVisited(g2, hits, m)
  {
    hide Poisoned, HandlesOk;
    var g3 := Removed(g2, x);
    assert x in At(g.deps, m) <==> m in At(g.rdeps, x);
    forall d | d in At(g.deps, m) && d != x && g.Settled(d) && !g3.Settled(d)
      ensures Visited(g2, hits, m) && Poisoned(g3.a, m)
    {
      assert Raised(g1, g2, d) && m in At(g1.rdeps, d) by {
        assert d in At(g.deps, m) <==> m in At(g.rdeps, d);
      }
      PoisonSpreads(g, x, d, m);
    }
  }

  /** A cache that never read the disposed node still replays. */
  lemma DisposeReplays(g: Graph, g1: Graph, g2: Graph, x: Id, hits: seq<Hit>, m: Id)
    requires Formed(g) && x in g.a.kind && m != x && g.a.IsReader(m)
    requires Unlinked(g, g1, x) && Marked(g1, g2, g.RDeps(x), hits)
    requires forall s, d :: d in At(Removed(g2, x).deps, s) <==> d in At(g.deps, s) && s != x && d != x
    ensures x !in At(g.deps, m) && Local(g, m) ==> Local(Removed(g2, x), m)
  {
    hide HandlesOk;
    if x !in At(g.deps, m) && Local(g, m) {
      var c := g.a.Code(m);
      ReplayAgree(c.tree, c.depth, g.value, Removed(g2, x).value);
    }
  }

  lemma DisposeSaw(g: Graph, g1: Graph, g2: Graph, seen: map<Id, map<Id, Value>>, x: Id, hits: seq<Hit>, m: Id)
    requires m != x && Unlinked(g, g1, x) && Marked(g1, g2, g.RDeps(x), hits)
    requires forall s, d :: d in At(Removed(g2, x).deps, s) <==> d in At(g.deps, s) && s != x && d != x
    ensures x !in At(g.deps, m) && Saw(g, seen, m) ==> Saw(Removed(g2, x), seen, m)
  {
  }

  lemma DisposeNode(g: Graph, g1: Graph, g2: Graph, p: Phase, p': Phase, x: Id, hits: seq<Hit>, m: Id)
    requires Formed(g) && NodeOk(g, p, m) && p.computing == {} && p.popped == {} && x in g.a.kind
    requires p' == p.(scheduled := p.scheduled - {x})
    requires Unlinked(g, g1, x) && Marked(g1, g2, g.RDeps(x), hits)
    requires forall n :: Raised(g1, g2, n) ==> Poisoned(Vacated(g.a, x), n)
    requires m != x && Poisoned(g.a, m) ==> Poisoned(Vacated(g.a, x), m)
    requires forall s, d :: d in At(Removed(g2, x).deps, s) <==> d in At(g.deps, s) && s != x && d != x
    ensures NodeOk(Removed(g2, x), p', m)
  {
    assert Removed(g2, x).a == Vacated(g.a, x) && g.dirty <= g2.dirty && g.force <= g2.force;
    if m != x { DisposeSaw(g, g1, g2, p.seen, x, hits, m); }
    hide Poisoned, HandlesOk, Local, Unlinked, Marked, Saw;
    if m == x || !g.a.IsReader(m) { return; }
    DisposeReaches(g, g1, g2, x, hits, m);
    DisposeReplays(g, g1, g2, x, hits, m);
    if x in At(g.deps, m) {
      assert m in At(g.rdeps, x);
      PoisonSpreads(g, x, x, m);
    }
  }

  /** Disposing `x`, with its readers' cone marked but no effect scheduled, keeps the invariant. */
  lemma DisposeKeepsInv(g: Graph, g1: Graph, g2: Graph, p: Phase, x: Id, hits: seq<Hit>)
    requires Inv(g, p) && p.computing == {} && p.popped == {} && x in g.a.kind
    requires Unlinked(g, g1, x) && Marked(g1, g2, g.RDeps(x), hits)
    requires forall n :: Raised(g1, g2, n) ==> Poisoned(Vacated(g.a, x), n)
    ensures Inv(Removed(g2, x), p.(scheduled := p.scheduled - {x}))
  {
    var g3, p' := Removed(g2, x), p.(scheduled := p.scheduled - {x});
    VacateArena(g.a, x);
    DisposeTyped(g, g1, g2, x);
    DisposeColumns(g, g1, g2, x);
    forall m ensures NodeOk(g3, p', m) {
      assert NodeOk(g, p, m);
      if m != x && Poisoned(g.a, m) { PoisonStays(g.a, g3.a, m); }
      DisposeNode(g, g1, g2, p, p', x, hits, m);
    }
  }

  // ── Leaving and entering the queue ──

  lemma PopKeepsInv(g: Graph, p: Phase, e: Id)
    requires Inv(g, p) && g.a.IsEffect(e)
    ensures Inv(g, p.(scheduled := p.scheduled - {e}, popped := p.popped + {e}))
  {
    var p' := p.(scheduled := p.scheduled - {e}, popped := p.popped + {e});
    forall m ensures NodeOk(g, p', m) { assert NodeOk(g, p, m); }
  }

  /** An effect with nothing changed below it leaves the flush without running. */
  lemma SkipKeepsInv(g: Graph, p: Phase, e: Id)
    requires Inv(g, p) && g.a.IsEffect(e) && e !in p.computing && DepsSettled(g, e)
    requires e in g.force ==> e in p.scheduled
    ensures Inv(g, p.(popped := p.popped - {e}))
  {
    forall m ensures NodeOk(g, p.(popped := p.popped - {e}), m) { assert NodeOk(g, p, m); }
  }

  /** An effect that is running owes no run for what happened before. */
  lemma UnforceKeepsInv(g: Graph, p: Phase, e: Id)
    requires Inv(g, p) && g.a.IsEffect(e) && e in p.computing
    ensures Inv(g.(force := g.force - {e}), p)
  {
    forall m ensures NodeOk(g.(force := g.force - {e}), p, m) { assert NodeOk(g, p, m); }
  }
}
