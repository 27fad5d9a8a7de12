/** The reactive engine: a lazy, incremental evaluator over the graph, updated in place. */
module Engine {
  import opened Options
  import opened Closures
  import opened Graphs
  import opened GraphSteps

  /** One entry of a walk's stack: a node and whether it is reached as a root. */
  datatype Visit = Visit(node: Id, forced: bool)

  /** What a refresh bounded by rank `r` may change: values and edges of stale computed nodes of
      rank at most `r`, and flags; `own` readers are inside their closure. */
  ghost predicate Progress(g: Graph, g': Graph, r: int, own: set<Id>) {
    && g'.a == g.a
    && (forall n :: g.Clean(n) ==> g'.Clean(n))
    && (forall n :: n in g.a.kind && (g.Clean(n) || !g.a.IsComputed(n) || g.a.Rank(n) > r)
          ==> (n in g'.value <==> n in g.value) && (n in g.value ==> g'.value[n] == g.value[n]))
    && (forall n :: g.a.IsComputed(n) && !g'.Clean(n)
          ==> (n in g'.value <==> n in g.value) && (n in g.value ==> g'.value[n] == g.value[n]))
    && (forall n :: (!g.a.IsComputed(n) || g.a.Rank(n) > r) && n !in own ==> At(g'.deps, n) == At(g.deps, n))
    && (forall n :: (!g.a.IsComputed(n) || g.a.Rank(n) > r) && n in g.force ==> n in g'.force)
  }

  lemma ProgressTrans(g0: Graph, g1: Graph, g2: Graph, r: int, own: set<Id>)
    requires Progress(g0, g1, r, own) && Progress(g1, g2, r, own)
    ensures Progress(g0, g2, r, own)
  {
    forall n | n in g0.a.kind && (g0.Clean(n) || !g0.a.IsComputed(n) || g0.a.Rank(n) > r)
      ensures (n in g2.value <==> n in g0.value) && (n in g0.value ==> g2.value[n] == g0.value[n])
    {
      assert g0.Clean(n) ==> g1.Clean(n);
    }
  }

  /** The computed nodes whose cache may not be current: the measure of a flush. */
  ghost function Stale(g: Graph): set<Id> {
    set n | n in g.a.kind && g.a.IsComputed(n) && !g.Clean(n)
  }

  /** The queue grew only if something was recomputed, and only by effects with something stale
      below them; a newly forced effect is queued. */
  ghost predicate QueueGrew(g: Graph, g': Graph, queue: set<Id>, queue': set<Id>, own: set<Id>) {
    && Stale(g') <= Stale(g) && queue <= queue'
    && (queue' != queue ==> Stale(g') < Stale(g))
    && (forall e :: e in queue' && e !in queue && e !in own ==> !DepsSettled(g, e))
    && (forall e :: g.a.IsEffect(e) && e in g'.force && e !in g.force ==> e in queue')
  }

  lemma QueueGrewTrans(g0: Graph, g1: Graph, g2: Graph, q0: set<Id>, q1: set<Id>, q2: set<Id>, r: int, own: set<Id>)
    requires QueueGrew(g0, g1, q0, q1, own) && QueueGrew(g1, g2, q1, q2, own)
    requires Progress(g0, g1, r, own) && forall e :: e in q2 ==> g0.a.IsEffect(e)
    ensures QueueGrew(g0, g2, q0, q2, own)
  {
    forall e | e !in own && g0.a.IsEffect(e) && DepsSettled(g0, e) ensures DepsSettled(g1, e) {
      assert At(g1.deps, e) == At(g0.deps, e);
      forall d | d in At(g1.deps, e) ensures g1.Settled(d) { assert g0.Settled(d); }
    }
  }

  /** What a change of the stale node `id` can reach: stale nodes younger than it, and effects
      with something stale below them. */
  ghost function Zone(g: Graph, id: Id): set<Id> {
    set n | n in g.a.kind && (if g.a.IsEffect(n) then !DepsSettled(g, n)
                              else g.a.IsComputed(n) && !g.Clean(n) && g.a.Before(id, n))
  }

  lemma ZoneClosed(g: Graph, p: Phase, id: Id, n: Id, u: Id)
    requires Inv(g, p) && g.a.IsComputed(n) && !g.Clean(n) && u in At(g.rdeps, n)
    requires n == id || n in Zone(g, id)
    ensures u in Zone(g, id)
  {
    assert n in At(g.deps, u);
    assert EdgeOk(g.a, u, n);
    assert NodeOk(g, p, u);
  }

  lemma BeginProgress(g: Graph, g': Graph, n: Id, q: set<Id>, r: int)
    requires g' == g.(deps := g.deps[n := []], rdeps := g'.rdeps)
    ensures Progress(g, g', r, {n}) && QueueGrew(g, g', q, q, {n})
  {
    assert Stale(g') == Stale(g);
  }

  lemma NoProgress(g: Graph, q: set<Id>, r: int, own: set<Id>)
    ensures Progress(g, g, r, own) && QueueGrew(g, g, q, q, own)
  {
  }

  lemma ProgressWeaken(g: Graph, g': Graph, q: set<Id>, q': set<Id>, r: int, r': int, own: set<Id>)
    requires Progress(g, g', r, {}) && r <= r' && QueueGrew(g, g', q, q', {})
    ensures Progress(g, g', r', own) && QueueGrew(g, g', q, q', own)
  {
  }

  /** What survives a bounded refresh at a node it does not recompute. */
  lemma ProgressAt(g: Graph, g': Graph, r: int, own: set<Id>, n: Id)
    requires Progress(g, g', r, own)
    ensures g'.a == g.a
    ensures g.a.Rank(n) > r && n !in own ==> At(g'.deps, n) == At(g.deps, n)
    ensures g.Settled(n) ==> g'.Settled(n)
    ensures n in g.a.kind && n in g.value && (g.Settled(n) || g.a.Rank(n) > r) ==>
          n in g'.value && g'.value[n] == g.value[n]
    ensures n in g.a.kind && g.a.Rank(n) > r && n in g'.value ==> n in g.value
    ensures g.a.Rank(n) > r && n in g.force ==> n in g'.force
  {
  }

  lemma SettledHolds(g: Graph, p: Phase, n: Id)
    requires Inv(g, p) && g.Settled(n)
    ensures n in g.value
  {
  }

  lemma EdgeFacts(g: Graph, p: Phase, s: Id, d: Id)
    requires Inv(g, p) && d in At(g.deps, s)
    ensures g.a.IsCell(d) && g.a.Before(d, s) && g.a.Rank(d) < g.a.Rank(s)
  {
    assert EdgeOk(g.a, s, d);
  }

  lemma ValidateProgress(g0: Graph, g: Graph, id: Id, q0: set<Id>, q: set<Id>)
    requires Progress(g0, g, g0.a.Rank(id) - 1, {}) && QueueGrew(g0, g, q0, q, {})
    requires g0.a.IsComputed(id)
    ensures var g' := g.(dirty := g.dirty - {id}, force := g.force - {id});
            Progress(g0, g', g0.a.Rank(id), {}) && QueueGrew(g0, g', q0, q, {})
  {
    var g' := g.(dirty := g.dirty - {id}, force := g.force - {id});
    assert forall n :: g.Clean(n) ==> g'.Clean(n);
    assert Stale(g') <= Stale(g);
  }

  lemma ReadsOwn(a: Arena, n: Id)
    requires a.IsReader(n)
    ensures forall h :: MayRead(a.Code(n).tree, a.Code(n).depth, h) ==> a.Reads(n, h)
  {
  }

  lemma EffectAnswered(g: Graph, e: Id, v: Value)
    requires g.a.IsReader(e) && DepsSettled(g, e)
    requires Replay(g.a.Code(e).tree, g.a.Code(e).depth, g.value) == Some(v)
    requires forall d :: d in At(g.deps, e) <==> d in ReadSet(g.a.Code(e).tree, g.a.Code(e).depth, g.value)
    ensures Answered(g, e, v)
  {
  }

  lemma FinishedEffect(g: Graph, p: Phase, e: Id, v: Value)
    requires Inv(g, p) && g.a.IsEffect(e)
    ensures Finished(g, e, v) == g.(value := g.value[e := v])
  {
    assert g.dirty - {e} == g.dirty;
  }

  lemma EffectKept(g: Graph, g': Graph, e: Id, v: Value)
    requires g.a.IsEffect(e) && g' == g.(value := g.value[e := v])
    ensures Kept(g, g') && Stale(g') == Stale(g)
  {
  }

  /** Emptying an effect's reads and lowering its force flag loses no source and no clean cache. */
  lemma EffectUnforced(g: Graph, g': Graph, e: Id)
    requires g.a.IsEffect(e) && g' == g.(deps := g'.deps, rdeps := g'.rdeps, force := g.force - {e})
    ensures Kept(g, g') && Stale(g') == Stale(g)
  {
  }

  lemma KeptTrans(g0: Graph, g1: Graph, g2: Graph)
    requires g0.a == g1.a && Kept(g0, g1) && Kept(g1, g2)
    ensures Kept(g0, g2)
  {
  }

  lemma ComputingStale(g: Graph, p: Phase, n: Id)
    requires Inv(g, p) && n in p.computing
    ensures !g.Clean(n)
  {
    assert NodeOk(g, p, n);
  }

  lemma DepsSettledStays(g: Graph, g': Graph, r: int, own: set<Id>, n: Id)
    requires Progress(g, g', r, own)
    ensures forall d :: d in At(g.deps, n) && g.Settled(d) ==> g'.Settled(d)
  {
  }

  /** A tracked read is admissible, and registering it changes nothing else. */
  lemma TrackStep(g: Graph, p: Phase, s: Id, h: Handle, q: set<Id>, r: int)
    requires Inv(g, p) && NoDangling(g.a) && s in p.computing && g.a.Reads(s, h)
    ensures g.a.IsCell(h.id) && g.a.Before(h.id, s)
    ensures var g' := Tracked(g, h.id, s);
            && Inv(g', p) && Progress(g, g', r, {s}) && QueueGrew(g, g', q, q, {s})
            && (forall d :: d in At(g'.deps, s) <==> d in At(g.deps, s) || d == h.id)
            && (forall d :: g'.Settled(d) <==> g.Settled(d))
  {
    assert HandleOk(g.a, s, h) && g.a.Current(h);
    assert EdgeOk(g.a, s, h.id);
    TrackKeepsInv(g, p, h.id, s);
    EdgeInsertMembers(At(g.deps, s), h.id);
    assert Stale(Tracked(g, h.id, s)) == Stale(g);
  }

  /** `g'` differs from the finished recompute of `id` by flags and queue entries in its zone. */
  ghost predicate Notified(g: Graph, g': Graph, id: Id, v: Value, q: set<Id>, q': set<Id>) {
    && var f := Finished(g, id, v);
       && g' == f.(dirty := g'.dirty, force := g'.force)
       && f.dirty <= g'.dirty && f.force <= g'.force && q <= q'
       && (forall n :: n in g'.dirty && n !in f.dirty ==> n in Zone(g, id))
       && (forall n :: n in g'.force && n !in f.force ==> n in Zone(g, id))
       && (forall n :: n in q' && n !in q ==> n in Zone(g, id))
       && (forall e :: g.a.IsEffect(e) && e in g'.force && e !in g.force ==> e in q')
  }

  lemma NotifyProgress(g0: Graph, g: Graph, g': Graph, id: Id, v: Value, q0: set<Id>, q: set<Id>, q': set<Id>)
    requires Progress(g0, g, g0.a.Rank(id) - 1, {id}) && QueueGrew(g0, g, q0, q, {id})
    requires g0.a.IsComputed(id) && !g.Clean(id) && !g0.Clean(id)
    requires forall e :: e in q' ==> g0.a.IsEffect(e)
    requires Notified(g, g', id, v, q, q')
    ensures g'.Clean(id)
    ensures Progress(g0, g', g0.a.Rank(id), {}) && QueueGrew(g0, g', q0, q', {})
  {
    assert forall n :: g.Clean(n) ==> g'.Clean(n);
    assert id in Stale(g0) && id !in Stale(g');
    forall e | e !in {id} && g0.a.IsEffect(e) && DepsSettled(g0, e) ensures DepsSettled(g, e) {
      assert At(g.deps, e) == At(g0.deps, e);
      forall d | d in At(g.deps, e) ensures g.Settled(d) { assert g0.Settled(d); }
    }
  }

  /** What a flush keeps of the graph: the sources and every clean cache. */
  ghost predicate Kept(g: Graph, g': Graph) {
    && SameSources(g, g') && Stale(g') <= Stale(g)
    && forall n :: g.Clean(n) ==> g'.Clean(n) && g'.value[n] == g.value[n]
  }

  /** `d` had a value and was given another; an unguarded node may be given an equal one. */
  ghost predicate WasReplaced(g: Graph, g': Graph, d: Id) {
    && g.a.IsComputed(d) && d in g.value && d in g'.value
    && (g.a.kind[d].guarded ==> g'.value[d] != g.value[d])
  }

  lemma ReplacedSince(g0: Graph, g1: Graph, g2: Graph, r: int, d: Id)
    requires Progress(g0, g1, r, {}) && !g1.Clean(d) && WasReplaced(g1, g2, d)
    ensures WasReplaced(g0, g2, d)
  {
  }

  lemma KeptReplaced(g0: Graph, g1: Graph, g2: Graph, d: Id)
    requires WasReplaced(g0, g1, d) && g1.Clean(d) && Kept(g1, g2)
    ensures WasReplaced(g0, g2, d)
  {
  }

  lemma ProgressKept(g: Graph, g': Graph, q: set<Id>, q': set<Id>, r: int, own: set<Id>)
    requires Progress(g, g', r, own) && QueueGrew(g, g', q, q', own) && g.value.Keys <= g.a.kind.Keys
    ensures Kept(g, g') && q <= q' && (q' != q ==> Stale(g') < Stale(g))
    ensures forall e :: g.a.IsEffect(e) && e in g'.force && e !in g.force ==> e in q'
    ensures forall e :: e in q' && e !in q && e !in own ==> !DepsSettled(g, e)
  {
  }

  lemma {:induction false} SubsetSize<T>(s: set<T>, t: set<T>)
    requires s <= t
    ensures |s| <= |t|
    decreases s
  {
    if x :| x in s { SubsetSize(s - {x}, t - {x}); }
  }

  /** With every effect watching only settled nodes, a refresh queues nothing. */
  lemma QuietEffects(g: Graph, p: Phase, q': set<Id>)
    requires Inv(g, p) && p.scheduled == {} && p.popped == {} && NoDangling(g.a)
    requires forall e :: e in q' ==> g.a.IsEffect(e) && !DepsSettled(g, e)
    ensures q' == {}
  {
    forall e | g.a.IsEffect(e) ensures DepsSettled(g, e) {
      NoPoison(g.a, e);
      assert NodeOk(g, p, e);
    }
  }

  lemma SameSourcesRefl(g: Graph)
    ensures SameSources(g, g)
  {
  }

  lemma CreateArenaOk(g: Graph, p: Phase, n: Id, k: Kind, v: Value, clock: nat)
    requires Inv(g, p) && MayCreate(g, n, k) && IdsOk(g.a, clock)
    ensures NoDangling(g.a) ==> NoDangling(Created(g, n, k, v, clock).a)
    ensures IdsOk(Created(g, n, k, v, clock).a, clock + 1)
  {
    CreateArena(g, n, k, v, clock);
  }

  lemma IdentityIds(a: Arena, clock: nat, nextId: nat, freeIds: seq<Id>, issued: set<Handle>)
    requires IdentityOk(a, clock, nextId, freeIds, issued)
    ensures IdsOk(a, clock)
  {
  }

  lemma CreateIdentity(g: Graph, n: Id, k: Kind, v: Value, clock: nat, nextId: nat, freeIds: seq<Id>,
      issued: set<Handle>)
    requires IdentityOk(g.a, clock, nextId, freeIds, issued)
    requires n !in g.a.kind && n < nextId && n !in freeIds
    ensures IdentityOk(Created(g, n, k, v, clock).a, clock + 1, nextId, freeIds, issued + {Handle(n, g.a.Gen(n))})
  {
  }

  datatype NodeKind = SourceNode | ComputedNode | EffectNode

  function KindOf(k: Kind): NodeKind {
    match k
    case Source => SourceNode
    case Computed(_, _) => ComputedNode
    case Effect(_) => EffectNode
  }

  /** `h` still names a node, and one of kind `k`. */
  predicate IsOccupant(a: Arena, h: Handle, k: NodeKind) {
    a.Current(h) && KindOf(a.kind[h.id]) == k
  }

  lemma DisposeZone(g: Graph, p: Phase, id: Id)
    requires Inv(g, p) && id in g.a.kind
    ensures forall n, u :: (n == id || Poisoned(Vacated(g.a, id), n)) && u in At(g.rdeps, n) && u != id ==>
              u in g.a.kind && Poisoned(Vacated(g.a, id), u)
    ensures id !in At(g.rdeps, id)
  {
    forall n, u | (n == id || Poisoned(Vacated(g.a, id), n)) && u in At(g.rdeps, n) && u != id
      ensures u in g.a.kind && Poisoned(Vacated(g.a, id), u)
    {
      PoisonSpreads(g, id, n, u);
    }
    assert id in At(g.deps, id) ==> EdgeOk(g.a, id, id);
  }

  lemma DisposeIdentity(a: Arena, x: Id, clock: nat, nextId: nat, freeIds: seq<Id>, issued: set<Handle>)
    requires IdentityOk(a, clock, nextId, freeIds, issued) && x in a.kind
    ensures IdentityOk(Vacated(a, x), clock, nextId, freeIds + [x], issued)
  {
  }

  lemma CleanAfterDispose(g: Graph, g1: Graph, g2: Graph, p: Phase, x: Id, hits: seq<Hit>)
    requires Inv(g, p) && Unlinked(g, g1, x) && Marked(g1, g2, g.RDeps(x), hits)
    ensures forall n :: Removed(g2, x).Clean(n) ==> g.Clean(n) && x !in At(g.deps, n)
  {
    forall n | Removed(g2, x).Clean(n) ensures g.Clean(n) && x !in At(g.deps, n) {
      assert x in At(g.deps, n) <==> n in At(g.rdeps, x);
      assert n in g.RDeps(x) ==> ForceVisited(g2, hits, n);
    }
  }

  lemma ForcedAfterDispose(g: Graph, g1: Graph, g2: Graph, p: Phase, x: Id, hits: seq<Hit>)
    requires Inv(g, p) && x in g.a.kind && Unlinked(g, g1, x) && Marked(g1, g2, g.RDeps(x), hits)
    ensures forall s, d :: d in At(Removed(g2, x).deps, s) <==> d in At(g.deps, s) && s != x && d != x
    ensures forall r :: x in At(g.deps, r) && Removed(g2, x).a.IsComputed(r) ==>
              r in Removed(g2, x).dirty && r in Removed(g2, x).force
  {
    DisposeColumns(g, g1, g2, x);
    forall r | x in At(g.deps, r) && Removed(g2, x).a.IsComputed(r)
      ensures r in Removed(g2, x).dirty && r in Removed(g2, x).force
    {
      assert r in At(g.rdeps, x);
      assert ForceVisited(g2, hits, r);
    }
  }

  lemma SameSourcesArena(g: Graph, g': Graph)
    requires SameSources(g, g')
    ensures g'.a == g.a
  {
  }

  lemma SameSourcesTrans(g0: Graph, g1: Graph, g2: Graph)
    requires SameSources(g0, g1) && SameSources(g1, g2)
    ensures SameSources(g0, g2)
  {
  }

  lemma FlagsKeepSources(g: Graph, g': Graph)
    requires g' == g.(dirty := g'.dirty, force := g'.force)
    ensures SameSources(g, g')
  {
  }

  lemma ClearedKeepsSources(g: Graph, g1: Graph, g2: Graph, cleared: set<Id>, hits: seq<Hit>)
    requires Cleared(g, g1, cleared, hits) && g2 == g1.(force := g2.force)
    ensures SameSources(g, g2)
  {
  }

  // ── Walk stacks ──

  function Push(stack: seq<Visit>, nodes: seq<Id>, forced: bool): (r: seq<Visit>)
    ensures forall v :: v in r <==> v in stack || (v.node in nodes && v.forced == forced)
    decreases |nodes|
  {
    if nodes == [] then stack else Push(stack + [Visit(nodes[0], forced)], nodes[1..], forced)
  }

  predicate OnStack(stack: seq<Visit>, n: Id) {
    Visit(n, true) in stack || Visit(n, false) in stack
  }

  /** Invariant of the mark walk: whatever must be visited has been, or is on the stack; nothing
      outside `zone` is touched. */
  ghost predicate Marking(g0: Graph, g: Graph, roots: seq<Id>, hits: seq<Hit>, stack: seq<Visit>, zone: set<Id>) {
    && FlagsRaised(g0, g) && OnlyEffects(g0, hits)
    && (forall v :: v in stack ==> v.node in zone)
    && (forall n :: Raised(g0, g, n) ==> n in zone)
    && (forall h :: h in hits ==> h.effect in zone)
    && (forall r :: r in roots ==> ForceVisited(g, hits, r) || Visit(r, true) in stack)
    && (forall n, u :: Raised(g0, g, n) && u in At(g0.rdeps, n) ==> Visited(g, hits, u) || OnStack(stack, u))
  }

  /** Nothing is touched but for a reason: force flags are raised on roots only, and whatever else is raised or
      reported reads something raised. */
  ghost predicate Caused(g0: Graph, g: Graph, roots: seq<Id>, hits: seq<Hit>) {
    && (forall n :: n in g.force && n !in g0.force ==> n in roots)
    && (forall n :: Raised(g0, g, n) ==> n in roots || ReadsRaised(g0, g, n))
    && (forall h :: h in hits ==> h.effect in roots || (!h.forced && ReadsRaised(g0, g, h.effect)))
  }

  ghost predicate ReadsRaised(g0: Graph, g: Graph, u: Id) {
    exists m :: Raised(g0, g, m) && u in At(g0.rdeps, m)
  }

  /** Whatever is on the stack is a root, reached with force, or reads something raised, reached without. */
  ghost predicate Stacked(g0: Graph, g: Graph, roots: seq<Id>, stack: seq<Visit>) {
    forall v :: v in stack ==> if v.forced then v.node in roots else ReadsRaised(g0, g, v.node)
  }

  lemma CauseSlot(g0: Graph, g: Graph, roots: seq<Id>, hits: seq<Hit>, stack: seq<Visit>, top: Visit)
    requires FlagsRaised(g0, g) && Caused(g0, g, roots, hits) && Stacked(g0, g, roots, stack + [top])
    ensures var propagate := top.node !in g.dirty || (top.forced && top.node !in g.force);
            var g' := Flagged(g, top.node, top.forced);
            && Caused(g0, g', roots, hits)
            && Stacked(g0, g', roots, if propagate then Push(stack, At(g0.rdeps, top.node), false) else stack)
  {
    var g' := Flagged(g, top.node, top.forced);
    assert top in stack + [top] && forall v :: v in stack ==> v in stack + [top];
    assert forall n :: Raised(g0, g, n) ==> Raised(g0, g', n);
    assert forall n :: ReadsRaised(g0, g, n) ==> ReadsRaised(g0, g', n);
    assert forall n :: Raised(g0, g', n) ==> Raised(g0, g, n) || n == top.node;
  }

  lemma CauseOther(g0: Graph, g: Graph, roots: seq<Id>, hits: seq<Hit>, stack: seq<Visit>, top: Visit)
    requires Caused(g0, g, roots, hits) && Stacked(g0, g, roots, stack + [top])
    ensures Stacked(g0, g, roots, stack)
    ensures Caused(g0, g, roots, hits + [Hit(top.node, top.forced)])
  {
    assert top in stack + [top] && forall v :: v in stack ==> v in stack + [top];
  }

  lemma MarkBegun(g: Graph, roots: seq<Id>, zone: set<Id>)
    requires forall r :: r in roots ==> r in zone
    ensures Marking(g, g, roots, [], Push([], roots, true), zone)
    ensures Caused(g, g, roots, []) && Stacked(g, g, roots, Push([], roots, true))
  {
  }

  lemma MarkDone(g0: Graph, g: Graph, roots: seq<Id>, hits: seq<Hit>, zone: set<Id>)
    requires Marking(g0, g, roots, hits, [], zone)
    ensures Marked(g0, g, roots, hits)
    ensures (forall n :: Raised(g0, g, n) ==> n in zone) && forall h :: h in hits ==> h.effect in zone
  {
  }

  lemma MarkRaises(g0: Graph, g: Graph, roots: seq<Id>, hits: seq<Hit>, stack: seq<Visit>, zone: set<Id>)
    requires Marking(g0, g, roots, hits, stack, zone)
    ensures FlagsRaised(g0, g)
  {
  }

  /** Every one of `roots` is a computed node that a walk has been through, with force, before. */
  ghost predicate AllForced(g: Graph, roots: seq<Id>) {
    forall r :: r in roots ==> g.a.IsComputed(r) && r in g.dirty && r in g.force
  }

  /** The walk goes on behind `m`: the guard of its propagating branch, on the flags as they stood. */
  ghost predicate Opens(g: Graph, roots: seq<Id>, m: Id) {
    g.a.IsComputed(m) && (m !in g.dirty || (m in roots && m !in g.force))
  }

  /** Some path of edges leads from a root to `n` through nodes the walk goes on behind. */
  ghost predicate Reached(g: Graph, roots: seq<Id>, n: Id)
    decreases g.a.Rank(n)
  {
    n in roots || exists m :: m in At(g.deps, n) && g.a.Before(m, n) && Opens(g, roots, m) && Reached(g, roots, m)
  }

  /** A walk raises exactly the flags it reaches a node to raise. */
  lemma {:induction false} RaisedIffReached(g0: Graph, g: Graph, roots: seq<Id>, hits: seq<Hit>, n: Id)
    requires Formed(g0) && Marked(g0, g, roots, hits) && Caused(g0, g, roots, hits)
    ensures Raised(g0, g, n) <==> Opens(g0, roots, n) && Reached(g0, roots, n)
    decreases g0.a.Rank(n)
  {
    if Raised(g0, g, n) && n !in roots {
      var m :| Raised(g0, g, m) && n in At(g0.rdeps, m);
      assert m in At(g0.deps, n) && EdgeOk(g0.a, n, m);
      RaisedIffReached(g0, g, roots, hits, m);
    }
    if n in roots { assert ForceVisited(g, hits, n) && g.a == g0.a; }
    if Opens(g0, roots, n) && Reached(g0, roots, n) && n !in roots {
      var m :| m in At(g0.deps, n) && g0.a.Before(m, n) && Opens(g0, roots, m) && Reached(g0, roots, m);
      RaisedIffReached(g0, g, roots, hits, m);
      assert n in At(g0.rdeps, m) && Visited(g, hits, n) && g.a == g0.a;
    }
  }

  /** And it reports exactly the effects it reaches: whatever hangs behind a node that is dirty already is missed. */
  lemma HitIffReached(g0: Graph, g: Graph, roots: seq<Id>, hits: seq<Hit>, e: Id)
    requires Formed(g0) && Marked(g0, g, roots, hits) && Caused(g0, g, roots, hits) && g0.a.IsEffect(e)
    ensures IsHit(hits, e) <==> Reached(g0, roots, e)
  {
    if IsHit(hits, e) && e !in roots {
      var h :| h in hits && h.effect == e;
      var m :| Raised(g0, g, m) && e in At(g0.rdeps, m);
      assert m in At(g0.deps, e) && EdgeOk(g0.a, e, m);
      RaisedIffReached(g0, g, roots, hits, m);
    }
    if e in roots { assert ForceVisited(g, hits, e) && g.a == g0.a; }
    if Reached(g0, roots, e) && e !in roots {
      var m :| m in At(g0.deps, e) && g0.a.Before(m, e) && Opens(g0, roots, m) && Reached(g0, roots, m);
      RaisedIffReached(g0, g, roots, hits, m);
      assert e in At(g0.rdeps, m) && Visited(g, hits, e) && g.a == g0.a;
    }
  }

  ghost predicate MarkedExactly(g0: Graph, g: Graph, roots: seq<Id>, hits: seq<Hit>) {
    && (forall n :: Raised(g0, g, n) <==> Opens(g0, roots, n) && Reached(g0, roots, n))
    && (forall e :: g0.a.IsEffect(e) ==> (IsHit(hits, e) <==> Reached(g0, roots, e)))
  }

  lemma MarksExactly(g0: Graph, g: Graph, roots: seq<Id>, hits: seq<Hit>)
    requires Formed(g0) && Marked(g0, g, roots, hits) && Caused(g0, g, roots, hits)
    ensures MarkedExactly(g0, g, roots, hits)
  {
    forall n ensures Raised(g0, g, n) <==> Opens(g0, roots, n) && Reached(g0, roots, n) {
      RaisedIffReached(g0, g, roots, hits, n);
    }
    forall e | g0.a.IsEffect(e) ensures IsHit(hits, e) <==> Reached(g0, roots, e) {
      HitIffReached(g0, g, roots, hits, e);
    }
  }

  /** The queue gains the effects a walk from `roots` reaches, and no other. */
  ghost predicate Told(g: Graph, roots: seq<Id>, queue: set<Id>, queue': set<Id>) {
    forall e :: e in queue' <==> e in queue || (g.a.IsEffect(e) && Reached(g, roots, e))
  }

  lemma HitsTold(g0: Graph, g: Graph, g2: Graph, roots: seq<Id>, hits: seq<Hit>, queue: set<Id>, queue': set<Id>)
    requires MarkedExactly(g0, g, roots, hits) && OnlyEffects(g0, hits) && Scheduled(g, g2, queue, queue', hits)
    ensures Told(g0, roots, queue, queue')
  {
    hide Reached, Opens;
    forall e ensures e in queue' <==> e in queue || (g0.a.IsEffect(e) && Reached(g0, roots, e)) {
      assert IsHit(hits, e) ==> g0.a.IsEffect(e);
    }
  }

  /** Between operations the walk from a source's readers reaches every effect that depends on the source and can
      read nothing disposed: those it misses are all of the others. */
  lemma {:induction false} ReachesUnpoisoned(g: Graph, p: Phase, id: Id, n: Id)
    requires Inv(g, p) && p.computing == {} && g.Settled(n) && DependsOn(g, n, id)
    ensures Reached(g, At(g.rdeps, id), n)
    decreases g.a.Rank(n)
  {
    if id !in At(g.deps, n) {
      var m :| m in At(g.deps, n) && g.a.Before(m, n) && DependsOn(g, m, id);
      assert NodeOk(g, p, n);
      ReachesUnpoisoned(g, p, id, m);
      DependsComputed(g, m, id);
    }
  }

  /** Along edges, `n` depends on `id`. */
  ghost predicate DependsOn(g: Graph, n: Id, id: Id)
    decreases g.a.Rank(n)
  {
    id in At(g.deps, n) || exists m :: m in At(g.deps, n) && g.a.Before(m, n) && DependsOn(g, m, id)
  }

  lemma DependsComputed(g: Graph, m: Id, id: Id)
    requires Formed(g) && g.a.IsCell(m) && DependsOn(g, m, id)
    ensures g.a.IsComputed(m)
  {
    var d :| d in At(g.deps, m);
    assert EdgeOk(g.a, m, d);
  }

  /** The effects a write misses are among those that can read a disposed node. */
  lemma MissedArePoisoned(g: Graph, p: Phase, id: Id, e: Id)
    requires Inv(g, p) && p.computing == {} && p.popped == {} && g.a.IsEffect(e) && e !in p.scheduled
    requires DependsOn(g, e, id) && !Reached(g, At(g.rdeps, id), e)
    ensures Poisoned(g.a, e)
  {
    assert NodeOk(g, p, e);
    if !Poisoned(g.a, e) && id !in At(g.deps, e) {
      var m :| m in At(g.deps, e) && g.a.Before(m, e) && DependsOn(g, m, id);
      ReachesUnpoisoned(g, p, id, m);
      DependsComputed(g, m, id);
      assert Opens(g, At(g.rdeps, id), m);
    }
  }

  lemma {:induction false} NothingReached(g: Graph, n: Id)
    ensures !Reached(g, [], n)
    decreases g.a.Rank(n)
  {
    if Reached(g, [], n) {
      var m :| m in At(g.deps, n) && g.a.Before(m, n) && Opens(g, [], m) && Reached(g, [], m);
      NothingReached(g, m);
    }
  }

  lemma NobodyTold(g: Graph, queue: set<Id>)
    ensures Told(g, [], queue, queue)
  {
    forall e ensures !Reached(g, [], e) { NothingReached(g, e); }
  }

  /** Flags and edges decide alone. */
  lemma {:induction false} ReachedSame(g: Graph, g': Graph, roots: seq<Id>, n: Id)
    requires g' == g.(value := g'.value)
    ensures Reached(g', roots, n) == Reached(g, roots, n)
    decreases g.a.Rank(n)
  {
    forall m | m in At(g.deps, n) && g.a.Before(m, n) ensures Reached(g', roots, m) == Reached(g, roots, m) {
      ReachedSame(g, g', roots, m);
    }
  }

  lemma ToldSame(g: Graph, g': Graph, roots: seq<Id>, queue: set<Id>, queue': set<Id>)
    requires g' == g.(value := g'.value) && Told(g', roots, queue, queue')
    ensures Told(g, roots, queue, queue')
  {
    forall e ensures Reached(g', roots, e) == Reached(g, roots, e) { ReachedSame(g, g', roots, e); }
  }

  /** In particular a walk from roots that were all forced before stops at them. */
  lemma ForcedStopsWalk(g0: Graph, g: Graph, roots: seq<Id>, hits: seq<Hit>)
    requires Formed(g0) && Marked(g0, g, roots, hits) && Caused(g0, g, roots, hits) && AllForced(g0, roots)
    ensures g == g0 && hits == []
  {
    assert |hits| > 0 ==> hits[0] in hits;
    forall n ensures !Raised(g0, g, n) {
      if Raised(g0, g, n) { RaisedIffReached(g0, g, roots, hits, n); NoneOpen(g0, roots, n); }
    }
    assert g.dirty == g0.dirty && g.force == g0.force;
  }

  lemma {:induction false} NoneOpen(g: Graph, roots: seq<Id>, n: Id)
    requires AllForced(g, roots)
    ensures !(Opens(g, roots, n) && Reached(g, roots, n))
    decreases g.a.Rank(n)
  {
    if Opens(g, roots, n) && Reached(g, roots, n) {
      var m :| m in At(g.deps, n) && g.a.Before(m, n) && Opens(g, roots, m) && Reached(g, roots, m);
      NoneOpen(g, roots, m);
    }
  }

  ghost function Flagged(g: Graph, n: Id, forced: bool): Graph {
    g.(dirty := g.dirty + {n}, force := if forced then g.force + {n} else g.force)
  }

  lemma MarkSlot(g0: Graph, g: Graph, roots: seq<Id>, hits: seq<Hit>, stack: seq<Visit>, zone: set<Id>, top: Visit)
    requires Marking(g0, g, roots, hits, stack + [top], zone) && g0.a.IsComputed(top.node)
    requires forall n, u :: n in zone && u in At(g0.rdeps, n) ==> u in zone
    ensures var propagate := top.node !in g.dirty || (top.forced && top.node !in g.force);
            Marking(g0, Flagged(g, top.node, top.forced), roots, hits,
                    if propagate then Push(stack, At(g0.rdeps, top.node), false) else stack, zone)
  {
    var g' := Flagged(g, top.node, top.forced);
    assert forall v :: v in stack + [top] <==> v in stack || v == top;
    assert forall n :: Raised(g0, g', n) ==> Raised(g0, g, n) || n == top.node;
    assert forall u :: Visited(g, hits, u) ==> Visited(g', hits, u);
    assert forall u :: ForceVisited(g, hits, u) ==> ForceVisited(g', hits, u);
  }

  lemma MarkOther(g0: Graph, g: Graph, roots: seq<Id>, hits: seq<Hit>, stack: seq<Visit>, zone: set<Id>, top: Visit)
    requires Marking(g0, g, roots, hits, stack + [top], zone) && !g0.a.IsComputed(top.node)
    ensures Marking(g0, g, roots, if g0.a.IsEffect(top.node) then hits + [Hit(top.node, top.forced)] else hits,
                    stack, zone)
  {
    var hits' := hits + [Hit(top.node, top.forced)];
    assert forall v :: v in stack + [top] <==> v in stack || v == top;
    assert forall h :: h in hits' <==> h in hits || h == Hit(top.node, top.forced);
    assert forall u :: Visited(g, hits, u) ==> Visited(g, hits', u);
    assert forall u :: ForceVisited(g, hits, u) ==> ForceVisited(g, hits', u);
  }

  /** Invariant of the clear walk. */
  ghost predicate Clearing(g0: Graph, g: Graph, cleared: set<Id>, roots: seq<Id>, hits: seq<Hit>, stack: seq<Id>) {
    && g == g0.(value := g0.value - cleared, dirty := g0.dirty - cleared, force := g0.force - cleared)
    && OnlyEffects(g0, hits)
    && (forall n :: n in cleared ==> g0.a.IsComputed(n))
    && (forall r :: r in roots ==> Emptied(g, hits, r) || r in stack)
    && (forall n, u :: n in cleared && u in At(g0.rdeps, n) ==> Emptied(g, hits, u) || u in stack)
  }

  lemma ClearSlotStep(g0: Graph, g: Graph, cleared: set<Id>, roots: seq<Id>, hits: seq<Hit>, stack: seq<Id>, id: Id)
    requires Clearing(g0, g, cleared, roots, hits, stack + [id]) && g0.a.IsComputed(id)
    ensures var g' := g.(value := g.value - {id}, dirty := g.dirty - {id}, force := g.force - {id});
            Clearing(g0, g', cleared + {id}, roots, hits, stack + At(g0.rdeps, id))
    ensures id !in g.value && id !in g.dirty ==> Clearing(g0, g, cleared, roots, hits, stack)
  {
    var g' := g.(value := g.value - {id}, dirty := g.dirty - {id}, force := g.force - {id});
    assert forall v :: v in stack + [id] <==> v in stack || v == id;
    assert forall v :: v in stack + At(g0.rdeps, id) <==> v in stack || v in At(g0.rdeps, id);
    assert forall u :: Emptied(g, hits, u) ==> Emptied(g', hits, u);
    assert g'.value == g0.value - (cleared + {id});
    assert g'.dirty == g0.dirty - (cleared + {id});
    assert g'.force == g0.force - (cleared + {id});
  }

  lemma ClearOther(g0: Graph, g: Graph, cleared: set<Id>, roots: seq<Id>, hits: seq<Hit>, stack: seq<Id>, id: Id)
    requires Clearing(g0, g, cleared, roots, hits, stack + [id]) && !g0.a.IsComputed(id)
    ensures Clearing(g0, g, cleared, roots, if g0.a.IsEffect(id) then hits + [Hit(id, true)] else hits, stack)
  {
    var hits' := hits + [Hit(id, true)];
    assert forall v :: v in stack + [id] <==> v in stack || v == id;
    assert forall h :: h in hits' <==> h in hits || h == Hit(id, true);
    assert forall u :: Emptied(g, hits, u) ==> Emptied(g, hits', u);
  }

  /** Occupant identity: ids below `nextId` are occupied or free, and an issued handle is
      current exactly while its node lives. */
  ghost predicate IdentityOk(a: Arena, clock: nat, nextId: nat, freeIds: seq<Id>, issued: set<Handle>) {
    && IdsOk(a, clock)
    && (forall n :: n in a.kind ==> n < nextId && Handle(n, a.Gen(n)) in issued)
    && NoDup(freeIds)
    && (forall n :: n in freeIds ==> n < nextId && n !in a.kind)
    && (forall n :: n in a.gens ==> n < nextId)
    && (forall h :: h in issued ==> h.gen <= a.Gen(h.id) && (h.gen == a.Gen(h.id) ==> h.id in a.kind))
  }

  class Context {
    var nodes: Graph
    var inProgress: set<Id>
    var nextId: nat
    var freeIds: seq<Id>
    var pending: seq<Id>
    var scheduled: set<Id>
    var flushing: bool
    var batchDepth: nat
    var batchedCells: seq<Id>
    var batchedClears: seq<Id>
    var batchedSlots: seq<Id>

    var clock: nat
    ghost var computing: set<Id>
    ghost var popped: set<Id>
    ghost var issued: set<Handle>
    /** What the last run of each effect read. */
    ghost var seen: map<Id, map<Id, Value>>

    /** The phase, with `batched` the cells whose invalidation is still owed. */
    ghost function P(batched: set<Id>): Phase reads this {
      Phase(batched, scheduled, computing, popped, seen)
    }

    ghost predicate QueueOk() reads this {
      NoDup(pending) && |pending| == |scheduled| && forall e :: e in pending <==> e in scheduled
    }

    ghost predicate Ready(batched: set<Id>) reads this {
      Inv(nodes, P(batched)) && QueueOk()
    }

    // ── Frontier walks ──

    method MarkFrontier(roots: seq<Id>, ghost zone: set<Id>) returns (hits: seq<Hit>)
      requires forall r :: r in roots ==> r in zone
      requires forall n, u :: n in zone && u in At(nodes.rdeps, n) ==> u in zone
      modifies `nodes
      ensures Marked(old(nodes), nodes, roots, hits) && Caused(old(nodes), nodes, roots, hits)
      ensures Formed(old(nodes)) ==> MarkedExactly(old(nodes), nodes, roots, hits)
      ensures forall n :: Raised(old(nodes), nodes, n) ==> n in zone
      ensures forall h :: h in hits ==> h.effect in zone
    {
      hide Marking, Marked, Caused, Stacked, FlagsRaised, MarkedExactly, Formed;
      hits := [];
      var stack := Push([], roots, true);
      ghost var g0 := nodes;
      ghost var slots := set n | n in nodes.a.kind && nodes.a.IsComputed(n);
      MarkBegun(g0, roots, zone);
      while |stack| > 0
        invariant Marking(g0, nodes, roots, hits, stack, zone)
        invariant nodes == g0.(dirty := nodes.dirty, force := nodes.force)
        invariant Caused(g0, nodes, roots, hits) && Stacked(g0, nodes, roots, stack)
        decreases slots - nodes.dirty, slots - nodes.force, |stack|
      {
        var top, rest := stack[|stack| - 1], stack[..|stack| - 1];
        assert stack == rest + [top];
        MarkRaises(g0, nodes, roots, hits, stack, zone);
        var id := top.node;
        if id in nodes.a.kind && nodes.a.kind[id].Computed? {
          MarkSlot(g0, nodes, roots, hits, rest, zone, top);
          CauseSlot(g0, nodes, roots, hits, rest, top);
          var propagate := id !in nodes.dirty || (top.forced && id !in nodes.force);
          nodes := nodes.(dirty := nodes.dirty + {id});
          if top.forced { nodes := nodes.(force := nodes.force + {id}); }
          stack := if propagate then Push(rest, At(nodes.rdeps, id), false) else rest;
        } else {
          MarkOther(g0, nodes, roots, hits, rest, zone, top);
          CauseOther(g0, nodes, roots, hits, rest, top);
          if id in nodes.a.kind && nodes.a.kind[id].Effect? { hits := hits + [Hit(id, top.forced)]; }
          stack := rest;
        }
      }
      assert stack == [];
      MarkDone(g0, nodes, roots, hits, zone);
      if Formed(g0) { MarksExactly(g0, nodes, roots, hits); }
    }

    method ClearFrontier(roots: seq<Id>, ghost zone: set<Id>) returns (hits: seq<Hit>, ghost cleared: set<Id>)
      requires forall r :: r in roots ==> r in zone
      requires forall n, u :: n in zone && u in At(nodes.rdeps, n) ==> u in zone
      modifies `nodes
      ensures Cleared(old(nodes), nodes, cleared, hits)
      ensures forall r :: r in roots ==> Emptied(nodes, hits, r)
      ensures cleared <= zone && forall h :: h in hits ==> h.effect in zone
    {
      hits, cleared := [], {};
      var stack := roots;
      ghost var g0 := nodes;
      ghost var slots := set n | n in nodes.a.kind && nodes.a.IsComputed(n);
      assert g0.value - {} == g0.value;
      while |stack| > 0
        invariant Clearing(g0, nodes, cleared, roots, hits, stack)
        invariant (forall v :: v in stack ==> v in zone) && cleared <= zone
        invariant forall h :: h in hits ==> h.effect in zone
        decreases slots * (nodes.value.Keys + nodes.dirty), |stack|
      {
        var id, rest := stack[|stack| - 1], stack[..|stack| - 1];
        assert stack == rest + [id];
        if id in nodes.a.kind && nodes.a.kind[id].Computed? {
          ClearSlotStep(g0, nodes, cleared, roots, hits, rest, id);
          if id !in nodes.value && id !in nodes.dirty {
            stack := rest;
          } else {
            assert id in slots * (nodes.value.Keys + nodes.dirty);
            nodes := nodes.(value := nodes.value - {id}, dirty := nodes.dirty - {id}, force := nodes.force - {id});
            stack := rest + At(nodes.rdeps, id);
            cleared := cleared + {id};
          }
        } else {
          ClearOther(g0, nodes, cleared, roots, hits, rest, id);
          if id in nodes.a.kind && nodes.a.kind[id].Effect? { hits := hits + [Hit(id, true)]; }
          stack := rest;
        }
      }
    }

    // ── The effect queue ──

    method ScheduleEffect(id: Id, forced: bool)
      requires id in nodes.a.kind && nodes.a.kind[id].Effect? && QueueOk()
      modifies `nodes, `pending, `scheduled
      ensures QueueOk()
      ensures nodes == if forced then old(nodes).(force := old(nodes).force + {id}) else old(nodes)
      ensures scheduled == old(scheduled) + {id}
      ensures pending == if id in old(scheduled) then old(pending) else old(pending) + [id]
    {
      if forced { nodes := nodes.(force := nodes.force + {id}); }
      if id !in scheduled {
        scheduled := scheduled + {id};
        pending := pending + [id];
      }
    }

    method ScheduleAll(hits: seq<Hit>)
      requires OnlyEffects(nodes, hits) && QueueOk()
      modifies `nodes, `pending, `scheduled
      ensures QueueOk()
      ensures Scheduled(old(nodes), nodes, old(scheduled), scheduled, hits)
      ensures hits == [] ==> pending == old(pending)
      ensures old(pending) <= pending
    {
      ghost var g0 := nodes;
      for i := 0 to |hits|
        invariant QueueOk() && Scheduled(g0, nodes, old(scheduled), scheduled, hits[..i])
        invariant (i == 0 ==> pending == old(pending)) && old(pending) <= pending
      {
        assert hits[..i + 1] == hits[..i] + [hits[i]];
        ScheduledStep(g0, nodes, if hits[i].forced then nodes.(force := nodes.force + {hits[i].effect}) else nodes,
                      old(scheduled), scheduled, hits[..i], hits[i]);
        ScheduleEffect(hits[i].effect, hits[i].forced);
      }
      assert hits[..|hits|] == hits;
    }

    /** The back of the queue takes the place of the removed one; what is ahead of that stays put. */
    method RemovePendingEffect(id: Id, ghost ahead: seq<Id>)
      requires QueueOk() && ahead <= pending && id !in ahead
      modifies `pending, `scheduled
      ensures QueueOk() && scheduled == old(scheduled) - {id}
      ensures |pending| <= |old(pending)| && ahead <= pending
    {
      if id !in scheduled { return; }
      EdgeRemoveMembers(pending, id);
      RemoveBehind(pending, id, ahead);
      pending := EdgeRemove(pending, id);
      scheduled := scheduled - {id};
    }

    lemma RemoveBehind(q: seq<Id>, id: Id, ahead: seq<Id>)
      requires ahead <= q && id !in ahead
      ensures ahead <= EdgeRemove(q, id)
    {
      if id in q {
        assert |ahead| <= IndexOf(q, id);
      }
    }

    // ── Invalidation ──

    /** The readers of `id` no longer agree with its value: mark their cone and queue the
        effects in it.  Settles the debt of `id`. */
    method InvalidateDependentsNow(id: Id, ghost batched: set<Id>, ghost zone: set<Id>) returns (any: bool)
      requires Inv(nodes, P(batched + {id})) && QueueOk()
      requires forall r :: r in At(nodes.rdeps, id) ==> r in zone
      requires forall n, u :: n in zone && u in At(nodes.rdeps, n) ==> u in zone
      modifies `nodes, `pending, `scheduled
      ensures Ready(batched)
      ensures nodes == old(nodes).(dirty := nodes.dirty, force := nodes.force)
      ensures old(nodes.dirty) <= nodes.dirty && old(nodes.force) <= nodes.force && old(scheduled) <= scheduled
      ensures forall n :: n in nodes.dirty && n !in old(nodes.dirty) ==> n in zone
      ensures forall n :: n in nodes.force && n !in old(nodes.force) ==> n in zone
      ensures forall n :: n in scheduled && n !in old(scheduled) ==> n in zone
      ensures forall t :: id in At(nodes.deps, t) ==> t in nodes.force
      ensures forall e :: nodes.a.IsEffect(e) && e in nodes.force && e !in old(nodes.force) ==> e in scheduled
      ensures !any ==> scheduled == old(scheduled) && pending == old(pending)
      ensures old(pending) <= pending
      ensures AllForced(old(nodes), At(old(nodes.rdeps), id)) ==> !any && nodes == old(nodes)
      ensures Told(old(nodes), At(old(nodes.rdeps), id), old(scheduled), scheduled)
    {
      hide Reached, Told, MarkedExactly;
      ghost var g, p := nodes, P(batched);
      var roots := At(nodes.rdeps, id);
      assert forall t :: id in At(nodes.deps, t) <==> t in At(nodes.rdeps, id);
      if id !in nodes.a.kind || nodes.a.kind[id].Effect? || |roots| == 0 {
        assert roots == [];
        UnreadKeepsInv(g, p, id);
        NobodyTold(g, scheduled);
        return false;
      }
      var hits := MarkFrontier(roots, zone);
      ghost var g1 := nodes;
      any := |hits| > 0;
      if AllForced(g, roots) { ForcedStopsWalk(g, g1, roots, hits); }
      ScheduleAll(hits);
      if hits == [] { assert nodes.force == g1.force; }
      HitsTold(g, g1, nodes, roots, hits, p.scheduled, scheduled);
      NotifyKeepsInv(g, g1, nodes, p, id, hits, scheduled);
      forall n | (n in nodes.dirty && n !in g.dirty) || (n in nodes.force && n !in g.force)
          || (n in scheduled && n !in p.scheduled)
        ensures n in zone && (nodes.a.IsEffect(n) && n in nodes.force && n !in g.force ==> n in scheduled)
      {
        assert Raised(g, g1, n) || IsHit(hits, n);
      }
      assert forall t :: id in At(nodes.deps, t) ==> ForceVisited(g1, hits, t) && EdgeOk(g.a, t, id);
    }

    // ── Refreshing ──

    /** Everything a closure entered now can read is older than every closure already open. */
    ghost predicate Below(id: Id) reads this {
      forall q :: q in computing || q in inProgress ==> nodes.a.Before(id, q)
    }

    method RemoveDependentEdges(ds: seq<Id>, n: Id)
      requires forall d :: NoDup(At(nodes.rdeps, d))
      modifies `nodes
      ensures nodes == old(nodes).(rdeps := nodes.rdeps) && nodes.rdeps.Keys == old(nodes.rdeps.Keys)
      ensures forall d :: NoDup(At(nodes.rdeps, d))
      ensures forall d, s :: s in At(nodes.rdeps, d) <==> s in At(old(nodes.rdeps), d) && !(s == n && d in ds)
    {
      for i := 0 to |ds|
        invariant nodes == old(nodes).(rdeps := nodes.rdeps) && nodes.rdeps.Keys == old(nodes.rdeps.Keys)
        invariant forall d :: NoDup(At(nodes.rdeps, d))
        invariant forall d, s :: s in At(nodes.rdeps, d) <==> s in At(old(nodes.rdeps), d) && !(s == n && d in ds[..i])
      {
        ghost var before := nodes.rdeps;
        var d := ds[i];
        EdgeRemoveMembers(At(nodes.rdeps, d), n);
        if d in nodes.rdeps { nodes := nodes.(rdeps := nodes.rdeps[d := EdgeRemove(nodes.rdeps[d], n)]); }
        assert forall x :: At(nodes.rdeps, x) == if x == d then EdgeRemove(At(before, d), n) else At(before, x);
        assert ds[..i + 1] == ds[..i] + [d];
      }
      assert ds[..|ds|] == ds;
    }

    method RemoveDependencyEdges(ts: seq<Id>, n: Id)
      requires forall t :: NoDup(At(nodes.deps, t))
      modifies `nodes
      ensures nodes == old(nodes).(deps := nodes.deps) && nodes.deps.Keys == old(nodes.deps.Keys)
      ensures forall t :: NoDup(At(nodes.deps, t))
      ensures forall t, d :: d in At(nodes.deps, t) <==> d in At(old(nodes.deps), t) && !(d == n && t in ts)
    {
      for i := 0 to |ts|
        invariant nodes == old(nodes).(deps := nodes.deps) && nodes.deps.Keys == old(nodes.deps.Keys)
        invariant forall t :: NoDup(At(nodes.deps, t))
        invariant forall t, d :: d in At(nodes.deps, t) <==> d in At(old(nodes.deps), t) && !(d == n && t in ts[..i])
      {
        ghost var before := nodes.deps;
        var t := ts[i];
        EdgeRemoveMembers(At(nodes.deps, t), n);
        if t in nodes.deps { nodes := nodes.(deps := nodes.deps[t := EdgeRemove(nodes.deps[t], n)]); }
        assert forall x :: At(nodes.deps, x) == if x == t then EdgeRemove(At(before, t), n) else At(before, x);
        assert ts[..i + 1] == ts[..i] + [t];
      }
      assert ts[..|ts|] == ts;
    }

    /** Drop every edge of `n` and open its closure. */
    method BeginCompute(n: Id, ghost batched: set<Id>)
      requires Ready(batched) && nodes.a.IsReader(n) && !nodes.Clean(n)
      requires nodes.a.IsEffect(n) ==> n in popped
      modifies `nodes, `computing
      ensures Ready(batched) && computing == old(computing) + {n}
      ensures nodes == old(nodes).(deps := old(nodes.deps)[n := []], rdeps := nodes.rdeps)
    {
      ghost var g := nodes;
      var oldDeps := At(nodes.deps, n);
      nodes := nodes.(deps := nodes.deps[n := []]);
      RemoveDependentEdges(oldDeps, n);
      computing := computing + {n};
      assert forall d, s :: s in At(nodes.rdeps, d) <==> s in At(g.rdeps, d) && s != n by {
        forall d, s ensures s in At(nodes.rdeps, d) <==> s in At(g.rdeps, d) && s != n {
          assert s in At(g.rdeps, d) <==> d in At(g.deps, s);
        }
      }
      DetachKeepsInv(g, nodes, P(batched).(computing := old(computing)), n);
    }

    /** One tracked read: the edge is registered, then the node read is brought up to date. */
    method Track(h: Handle, s: Id, ghost batched: set<Id>) returns (x: Value)
      requires Ready(batched) && NoDangling(nodes.a)
      requires s in computing && DepsSettled(nodes, s) && nodes.a.Reads(s, h)
      requires forall q :: q in computing || q in inProgress ==> q == s || nodes.a.Before(s, q)
      modifies `nodes, `inProgress, `pending, `scheduled, `computing
      ensures Ready(batched) && computing == old(computing) && inProgress == old(inProgress)
      ensures nodes.a == old(nodes.a)
      ensures DepsSettled(nodes, s) && nodes.Settled(h.id) && h.id in nodes.value && nodes.value[h.id] == x
      ensures forall d :: d in At(nodes.deps, s) <==> d in At(old(nodes.deps), s) || d == h.id
      ensures Progress(old(nodes), nodes, nodes.a.Rank(s) - 1, {s})
      ensures QueueGrew(old(nodes), nodes, old(scheduled), scheduled, {s})
      ensures old(pending) <= pending
      decreases nodes.a.Rank(s), 0, 0
    {
      hide Inv, Progress, QueueGrew, IdentityOk, NoDangling, Below;
      ghost var g0, q0 := nodes, scheduled;
      ghost var r := nodes.a.Rank(s) - 1;
      TrackStep(g0, P(batched), s, h, q0, r);
      nodes := nodes.(rdeps := nodes.rdeps[h.id := EdgeInsert(At(nodes.rdeps, h.id), s)]);
      nodes := nodes.(deps := nodes.deps[s := EdgeInsert(At(nodes.deps, s), h.id)]);
      ghost var g1 := nodes;
      if nodes.a.kind[h.id].Computed? {
        SourceBelow(h.id, s);
        var _ := RefreshSlot(h.id, batched);
        ProgressWeaken(g1, nodes, q0, scheduled, nodes.a.Rank(h.id), r, {s});
        ProgressAt(g1, nodes, nodes.a.Rank(h.id), {}, s);
        DepsSettledStays(g1, nodes, r, {s}, s);
        ProgressTrans(g0, g1, nodes, r, {s});
        QueuedAreEffects(batched);
        QueueGrewTrans(g0, g1, nodes, q0, q0, scheduled, r, {s});
      }
      SettledHolds(nodes, P(batched), h.id);
      x := nodes.value[h.id];
    }

    /** The closure of reader `s`, run against the live graph: every read registers its edge,
        then brings the node read up to date. */
    method RunClosure(t: Tree, ghost depth: nat, s: Id, ghost batched: set<Id>)
      returns (v: Value, ghost read: map<Id, Value>)
      requires Ready(batched) && NoDangling(nodes.a)
      requires s in computing && DepsSettled(nodes, s)
      requires Bounded(t, depth) && forall h :: MayRead(t, depth, h) ==> nodes.a.Reads(s, h)
      requires forall q :: q in computing || q in inProgress ==> q == s || nodes.a.Before(s, q)
      modifies `nodes, `inProgress, `pending, `scheduled, `computing
      ensures Ready(batched) && computing == old(computing) && inProgress == old(inProgress)
      ensures nodes.a == old(nodes.a)
      ensures DepsSettled(nodes, s) && Replay(t, depth, nodes.value) == Some(v)
      ensures forall d :: d in At(nodes.deps, s) <==> d in At(old(nodes.deps), s) || d in ReadSet(t, depth, nodes.value)
      ensures Progress(old(nodes), nodes, nodes.a.Rank(s) - 1, {s})
      ensures QueueGrew(old(nodes), nodes, old(scheduled), scheduled, {s})
      ensures old(pending) <= pending
      ensures read.Keys == ReadSet(t, depth, nodes.value)
      ensures forall d :: d in read ==> d in nodes.value && read[d] == nodes.value[d]
      decreases nodes.a.Rank(s), 0, depth + 1
    {
      hide Inv, Progress, QueueGrew, IdentityOk, NoDangling, DepsSettled;
      match t
      case Ret(r) =>
        v, read := r, map[];
        NoProgress(nodes, scheduled, nodes.a.Rank(s) - 1, {s});
      case Read(h, _) =>
        ghost var g0, q0 := nodes, scheduled;
        ghost var r := nodes.a.Rank(s) - 1;
        assert MayRead(t, depth, h);
        var x := Track(h, s, batched);
        ghost var g2, q2 := nodes, scheduled;
        assert forall h' :: MayRead(t.Then(x), depth - 1, h') ==> MayRead(t, depth, h');
        v, read := RunClosure(t.Then(x), depth - 1, s, batched);
        read := read[h.id := x];
        ProgressAt(g2, nodes, r, {s}, h.id);
        ProgressTrans(g0, g2, nodes, r, {s});
        QueuedAreEffects(batched);
        QueueGrewTrans(g0, g2, nodes, q0, q2, scheduled, r, {s});
    }

    lemma SourceBelow(id: Id, s: Id)
      requires forall q :: q in computing || q in inProgress ==> q == s || nodes.a.Before(s, q)
      requires nodes.a.Before(id, s)
      ensures Below(id)
    {
    }

    lemma QueuedAreEffects(batched: set<Id>)
      requires Inv(nodes, P(batched))
      ensures forall e :: e in scheduled ==> nodes.a.IsEffect(e)
    {
      assert forall e :: e in scheduled ==> NodeOk(nodes, P(batched), e);
    }

    /** Bring `id` up to date; returns whether its value was replaced. */
    method RefreshSlot(id: Id, ghost batched: set<Id>) returns (changed: bool)
      requires Ready(batched) && NoDangling(nodes.a)
      requires nodes.a.IsComputed(id) && Below(id)
      modifies `nodes, `inProgress, `pending, `scheduled, `computing
      ensures Ready(batched) && computing == old(computing) && inProgress == old(inProgress)
      ensures nodes.a == old(nodes.a)
      ensures nodes.Clean(id)
      ensures Progress(old(nodes), nodes, nodes.a.Rank(id), {})
      ensures QueueGrew(old(nodes), nodes, old(scheduled), scheduled, {})
      ensures old(pending) <= pending
      ensures changed ==> forall t :: id in At(nodes.deps, t) ==> t in nodes.force
      ensures changed ==> !old(nodes).Clean(id) && WasReplaced(old(nodes), nodes, id)
      ensures id in old(nodes.value) && nodes.value[id] != old(nodes.value[id]) ==> changed
      ensures id !in old(nodes.value) || id in old(nodes.force) ==> Local(nodes, id)
      decreases nodes.a.Rank(id), 2, 0
    {
      hide Inv, Progress, QueueGrew, IdentityOk, NoDangling, Local;
      ghost var g0, q0, r := nodes, scheduled, nodes.a.Rank(id) - 1;
      NoProgress(g0, q0, r, {});
      NoProgress(g0, q0, r + 1, {});
      if id in nodes.value && id !in nodes.dirty && id !in nodes.force { return false; }
      NotComputing(id, batched);
      var entered := inProgress;
      inProgress := inProgress + {id};
      var dependencies := At(nodes.deps, id);
      var dependencyChanged := false;
      for i := 0 to |dependencies|
        invariant Ready(batched) && computing == old(computing) && inProgress == entered + {id}
        invariant nodes.a == g0.a && Progress(g0, nodes, r, {}) && QueueGrew(g0, nodes, q0, scheduled, {})
        invariant At(nodes.deps, id) == dependencies
        invariant forall j :: 0 <= j < i ==> nodes.Settled(dependencies[j])
        invariant (dependencyChanged ==> id in nodes.force) && old(pending) <= pending
      {
        var d := dependencies[i];
        EdgeFacts(nodes, P(batched), id, d);
        ghost var g1, q1 := nodes, scheduled;
        if d in nodes.a.kind && nodes.a.kind[d].Computed? {
          var c := RefreshSlot(d, batched);
          ProgressWeaken(g1, nodes, q1, scheduled, nodes.a.Rank(d), r, {});
          forall n { ProgressAt(g1, nodes, nodes.a.Rank(d), {}, n); }
          assert c ==> d in At(nodes.deps, id);
          dependencyChanged := dependencyChanged || c;
          ProgressTrans(g0, g1, nodes, r, {});
          QueuedAreEffects(batched);
          QueueGrewTrans(g0, g1, nodes, q0, q1, scheduled, r, {});
        }
      }
      ghost var g2, q2 := nodes, scheduled;
      ProgressAt(g0, g2, r, {}, id);
      var needsRecompute := id !in nodes.value || id in nodes.force || dependencyChanged;
      if !needsRecompute {
        ValidateKeepsInv(nodes, P(batched), id);
        ValidateProgress(g0, g2, id, q0, q2);
        nodes := nodes.(dirty := nodes.dirty - {id}, force := nodes.force - {id});
        changed := false;
      } else {
        ProgressWeaken(g0, g2, q0, q2, r, r + 1, {});
        changed := RecomputeSlotNow(id, batched);
        ProgressTrans(g0, g2, nodes, r + 1, {});
        QueuedAreEffects(batched);
        QueueGrewTrans(g0, g2, nodes, q0, q2, scheduled, r + 1, {});
      }
      inProgress := inProgress - {id};
    }

    lemma NotComputing(id: Id, batched: set<Id>)
      requires Inv(nodes, P(batched)) && Below(id)
      ensures id !in computing && id !in inProgress
    {
    }

    method RecomputeSlotNow(id: Id, ghost batched: set<Id>) returns (changed: bool)
      requires Ready(batched) && NoDangling(nodes.a)
      requires nodes.a.IsComputed(id) && !nodes.Clean(id) && id !in computing
      requires forall q :: q in computing || q in inProgress ==> q == id || nodes.a.Before(id, q)
      modifies `nodes, `inProgress, `pending, `scheduled, `computing
      ensures Ready(batched) && computing == old(computing) && inProgress == old(inProgress)
      ensures nodes.a == old(nodes.a)
      ensures nodes.Clean(id)
      ensures Progress(old(nodes), nodes, nodes.a.Rank(id), {})
      ensures QueueGrew(old(nodes), nodes, old(scheduled), scheduled, {})
      ensures old(pending) <= pending
      ensures changed ==> forall t :: id in At(nodes.deps, t) ==> t in nodes.force
      ensures changed ==> WasReplaced(old(nodes), nodes, id)
      ensures id in old(nodes.value) && nodes.value[id] != old(nodes.value[id]) ==> changed
      ensures Local(nodes, id)
      decreases nodes.a.Rank(id), 1, 0
    {
      hide Progress, QueueGrew, Notified, Inv, IdentityOk, NoDangling, Local;
      ghost var g0, q0 := nodes, scheduled;
      BeginCompute(id, batched);
      ghost var g1 := nodes;
      BeginProgress(g0, g1, id, q0, nodes.a.Rank(id) - 1);
      var c := nodes.a.kind[id].body;
      var result, _ := RunClosure(c.tree, c.depth, id, batched);
      ghost var g2, q2 := nodes, scheduled;
      ProgressTrans(g0, g1, g2, nodes.a.Rank(id) - 1, {id});
      ProgressAt(g0, g2, nodes.a.Rank(id) - 1, {id}, id);
      QueuedAreEffects(batched);
      ComputingStale(g2, P(batched), id);
      QueueGrewTrans(g0, g1, g2, q0, q0, q2, nodes.a.Rank(id) - 1, {id});
      changed := FinishRecompute(id, result, batched);
      QueuedAreEffects(batched);
      NotifyProgress(g0, g2, nodes, id, result, q0, q2, scheduled);
    }

    lemma LocalFlags(g: Graph, g': Graph, n: Id)
      requires g.a.IsReader(n) && Local(g, n) && g' == g.(dirty := g'.dirty, force := g'.force)
      ensures Local(g', n)
    {
    }

    /** Store the result of a finished closure and tell the readers if it replaced a value. */
    method FinishRecompute(id: Id, result: Value, ghost batched: set<Id>) returns (changed: bool)
      requires Ready(batched) && nodes.a.IsComputed(id) && id in computing && Answered(nodes, id, result)
      modifies `nodes, `pending, `scheduled, `computing
      ensures Ready(batched) && computing == old(computing) - {id}
      ensures nodes.a == old(nodes.a)
      ensures Notified(old(nodes), nodes, id, result, old(scheduled), scheduled)
      ensures old(pending) <= pending
      ensures changed ==> forall t :: id in At(nodes.deps, t) ==> t in nodes.force
      ensures id in nodes.value && nodes.value[id] == result && Local(nodes, id)
      ensures changed <==> id in old(nodes.value) && !(nodes.a.kind[id].guarded && old(nodes.value[id]) == result)
    {
      ghost var g := nodes;
      assert NodeOk(g, P(batched), id);
      FinishComputed(g, P(batched), id, result);
      FinishLocal(g, P(batched), id, result, id);
      forall n, u | (n == id || n in Zone(g, id)) && u in At(nodes.rdeps, n) ensures u in Zone(g, id) {
        assert n in At(nodes.deps, u) && EdgeOk(g.a, u, n);
        ZoneClosed(g, P(batched), id, n, u);
      }
      var hadValue := id in nodes.value;
      var same := hadValue && nodes.a.kind[id].guarded && nodes.value[id] == result;
      nodes := nodes.(dirty := nodes.dirty - {id}, force := nodes.force - {id});
      if !same { nodes := nodes.(value := nodes.value[id := result]); }
      computing := computing - {id};
      changed := !same && hadValue;
      assert nodes == Finished(g, id, result);
      ghost var g1 := nodes;
      if changed {
        var _ := InvalidateDependentsNow(id, batched, Zone(g, id));
        LocalFlags(g1, nodes, id);
      }
    }
  
    // ── Effects ──

    method EffectShouldRun(id: Id, ghost batched: set<Id>) returns (run: bool, ghost why: Option<Id>)
      requires Ready(batched) && NoDangling(nodes.a) && nodes.a.IsEffect(id) && id !in scheduled
      requires computing == {} && inProgress == {} && id in popped
      modifies `nodes, `inProgress, `pending, `scheduled, `computing
      ensures Ready(batched) && computing == {} && inProgress == {}
      ensures nodes.a == old(nodes.a) && Kept(old(nodes), nodes)
      ensures scheduled != {} && scheduled != old(scheduled) ==> Stale(nodes) < Stale(old(nodes))
      ensures old(scheduled) <= scheduled && old(pending) <= pending
      ensures run <==> id in old(nodes.force) || why.Some?
      ensures why.Some? ==>
            why.val in At(old(nodes.deps), id) && WasReplaced(old(nodes), nodes, why.val) && nodes.Clean(why.val)
      ensures At(nodes.deps, id) == At(old(nodes.deps), id)
      ensures !run ==> DepsSettled(nodes, id) && (id in nodes.force ==> id in scheduled)
    {
      hide Inv, Progress, QueueGrew, WasReplaced;
      why := None;
      ghost var g0, q0, r := nodes, scheduled, nodes.a.Rank(id) - 1;
      NoProgress(g0, q0, r, {});
      KeysOk(batched);
      if id in nodes.force {
        ProgressKept(g0, g0, q0, q0, r, {});
        return true, None;
      }
      var dependencies := At(nodes.deps, id);
      for i := 0 to |dependencies|
        invariant Ready(batched) && computing == {} && inProgress == {}
        invariant nodes.a == g0.a && Progress(g0, nodes, r, {}) && QueueGrew(g0, nodes, q0, scheduled, {})
        invariant At(nodes.deps, id) == dependencies
        invariant forall j :: 0 <= j < i ==> nodes.Settled(dependencies[j])
        invariant old(pending) <= pending
      {
        var d := dependencies[i];
        EdgeFacts(nodes, P(batched), id, d);
        ghost var g1, q1 := nodes, scheduled;
        if d in nodes.a.kind && nodes.a.kind[d].Computed? {
          var c := RefreshSlot(d, batched);
          ProgressWeaken(g1, nodes, q1, scheduled, nodes.a.Rank(d), r, {});
          forall n { ProgressAt(g1, nodes, nodes.a.Rank(d), {}, n); }
          ProgressTrans(g0, g1, nodes, r, {});
          QueuedAreEffects(batched);
          QueueGrewTrans(g0, g1, nodes, q0, q1, scheduled, r, {});
          if c {
            ProgressKept(g0, nodes, q0, scheduled, r, {});
            ReplacedSince(g0, g1, nodes, r, d);
            return true, Some(d);
          }
        }
      }
      ProgressKept(g0, nodes, q0, scheduled, r, {});
      run := false;
    }

    lemma KeysOk(batched: set<Id>)
      requires Inv(nodes, P(batched))
      ensures nodes.value.Keys <= nodes.a.kind.Keys
    {
    }

    /** One popped effect: skip it if nothing below it changed, otherwise re-run it against the
        live graph and keep what it read as its edges. */
    method RunEffect(id: Id, ghost batched: set<Id>) returns (ghost ran: bool, ghost why: Option<Id>)
      requires Ready(batched) && NoDangling(nodes.a) && nodes.a.IsEffect(id) && id !in scheduled
      requires computing == {} && inProgress == {} && popped == {id}
      modifies `nodes, `inProgress, `pending, `scheduled, `computing, `popped, `seen
      ensures Ready(batched) && computing == {} && inProgress == {} && popped == {}
      ensures nodes.a == old(nodes.a) && Kept(old(nodes), nodes)
      ensures scheduled <= old(scheduled) || Stale(nodes) < Stale(old(nodes))
      ensures old(pending) <= pending
      ensures ran <==> id in old(nodes.force) || why.Some?
      ensures why.Some? ==> why.val in At(old(nodes.deps), id) && WasReplaced(old(nodes), nodes, why.val)
      ensures ran ==> Saw(nodes, seen, id) && seen == old(seen)[id := seen[id]]
      ensures !ran ==> seen == old(seen) && At(nodes.deps, id) == At(old(nodes.deps), id)
      ensures id !in scheduled && batched == {} ==> Saw(nodes, seen, id)
    {
      hide Inv, Progress, QueueGrew, Answered, WasReplaced, Saw, Stale, Kept, IdentityOk;
      var run;
      run, why := EffectShouldRun(id, batched);
      ran := run;
      ghost var g1 := nodes;
      if !run {
        SkipKeepsInv(nodes, P(batched), id);
        assert popped - {id} == {};
        popped := {};
      } else {
        ghost var g0 := old(nodes);
        RerunEffect(id, batched, old(pending));
        KeptTrans(g0, g1, nodes);
        StaleKept(g0, g1, nodes);
        if why.Some? { KeptReplaced(g0, g1, nodes, why.val); }
      }
      if id !in scheduled && batched == {} { QuietSaw(id); }
    }

    lemma QuietSaw(id: Id)
      requires Ready({}) && NoDangling(nodes.a) && computing == {} && popped == {} && nodes.a.IsEffect(id)
          && id !in scheduled
      ensures Saw(nodes, seen, id)
    {
      NoPoison(nodes.a, id);
      assert NodeOk(nodes, P({}), id);
    }

    lemma StaleKept(g0: Graph, g1: Graph, g2: Graph)
      requires Kept(g0, g1) && Kept(g1, g2)
      ensures Stale(g2) < Stale(g1) ==> Stale(g2) < Stale(g0)
      ensures Stale(g1) < Stale(g0) ==> Stale(g2) < Stale(g0)
    {
    }

    method RerunEffect(id: Id, ghost batched: set<Id>, ghost ahead: seq<Id>)
      requires Ready(batched) && NoDangling(nodes.a) && nodes.a.IsEffect(id)
      requires computing == {} && inProgress == {} && popped == {id}
      requires ahead <= pending && id !in ahead
      modifies `nodes, `inProgress, `pending, `scheduled, `computing, `popped, `seen
      ensures Ready(batched) && computing == {} && inProgress == {} && popped == {}
      ensures nodes.a == old(nodes.a) && Kept(old(nodes), nodes)
      ensures scheduled <= old(scheduled) || Stale(nodes) < Stale(old(nodes))
      ensures ahead <= pending
      ensures Saw(nodes, seen, id) && seen == old(seen)[id := seen[id]]
    {
      hide Inv, Progress, QueueGrew, Answered, IdentityOk, NoDangling, Kept, Stale, Saw, LoggedBy;
      ghost var g0, q0 := nodes, scheduled;
      OpenEffect(id, batched, ahead);
      ghost var g1, q1 := nodes, scheduled;
      EffectUnforced(g0, g1, id);
      KeysOk(batched);
      var c := nodes.a.kind[id].run;
      ReadsOwn(nodes.a, id);
      var v, read := RunClosure(c.tree, c.depth, id, batched);
      ProgressKept(g1, nodes, q1, scheduled, nodes.a.Rank(id) - 1, {id});
      EffectAnswered(nodes, id, v);
      EffectLogged(nodes, id, read);
      ghost var g2 := nodes;
      CloseEffect(id, v, read, batched);
      KeptTrans(g0, g1, g2);
      KeptTrans(g0, g2, nodes);
    }

    /** A run of effect `id` starts: it leaves the queue, drops its edges and its force flag. */
    method OpenEffect(id: Id, ghost batched: set<Id>, ghost ahead: seq<Id>)
      requires Ready(batched) && nodes.a.IsEffect(id) && computing == {} && popped == {id}
      requires ahead <= pending && id !in ahead
      modifies `nodes, `pending, `scheduled, `computing
      ensures Ready(batched) && computing == {id} && scheduled == old(scheduled) - {id}
      ensures nodes == old(nodes).(deps := nodes.deps, rdeps := nodes.rdeps, force := old(nodes).force - {id})
      ensures At(nodes.deps, id) == []
      ensures ahead <= pending
    {
      hide Inv;
      PopKeepsInv(nodes, P(batched), id);
      RemovePendingEffect(id, ahead);
      assert popped + {id} == popped;
      BeginCompute(id, batched);
      UnforceKeepsInv(nodes, P(batched), id);
      nodes := nodes.(force := nodes.force - {id});
    }

    lemma EffectLogged(g: Graph, e: Id, read: map<Id, Value>)
      requires g.a.IsReader(e) && forall d :: d in read ==> d in g.value && read[d] == g.value[d]
      requires read.Keys == ReadSet(g.a.Code(e).tree, g.a.Code(e).depth, g.value)
      requires forall d :: d in At(g.deps, e) <==> d in ReadSet(g.a.Code(e).tree, g.a.Code(e).depth, g.value)
      ensures LoggedBy(g, e, read)
    {
      assert forall d :: d in read.Keys <==> d in read;
    }

    /** The run of effect `id` is over: it ended with `v`, after reading `read`. */
    method CloseEffect(id: Id, v: Value, ghost read: map<Id, Value>, ghost batched: set<Id>)
      requires Ready(batched) && nodes.a.IsEffect(id) && computing == {id} && popped == {id}
      requires Answered(nodes, id, v) && LoggedBy(nodes, id, read) && (id in nodes.force ==> id in scheduled)
      modifies `nodes, `computing, `popped, `seen
      ensures Ready(batched) && computing == {} && popped == {}
      ensures nodes.a == old(nodes.a) && Kept(old(nodes), nodes) && Stale(nodes) == Stale(old(nodes))
      ensures Saw(nodes, seen, id) && seen == old(seen)[id := read]
    {
      hide Inv, Answered, LoggedBy, Kept, Stale, Saw;
      ghost var g := nodes;
      FinishEffect(nodes, P(batched), id, v, read);
      FinishedEffect(g, P(batched), id, v);
      assert computing - {id} == {} && popped - {id} == {};
      nodes := nodes.(value := nodes.value[id := v]);
      computing, popped := {}, {};
      seen := seen[id := read];
      EffectKept(g, nodes, id, v);
    }

    lemma Onward(start: seq<Id>, order: seq<Id>, q: seq<Id>, q': seq<Id>)
      requires start <= order + q && q != [] && q[1..] <= q'
      ensures start <= order + [q[0]] + q'
    {
      assert order + q == order + [q[0]] + q[1..];
    }

    /** The effect at the front of the queue is popped and run; what it queues goes behind the rest. */
    method RunNext(ghost batched: set<Id>) returns (ghost id: Id)
      requires Ready(batched) && NoDangling(nodes.a) && computing == {} && inProgress == {} && popped == {}
      requires pending != []
      modifies `nodes, `inProgress, `pending, `scheduled, `computing, `popped, `seen
      ensures Ready(batched) && computing == {} && inProgress == {} && popped == {}
      ensures nodes.a == old(nodes.a) && SameSources(old(nodes), nodes) && Stale(nodes) <= Stale(old(nodes))
      ensures Stale(nodes) < Stale(old(nodes)) || |scheduled| < |old(scheduled)|
      ensures id == old(pending)[0] && old(pending)[1..] <= pending
    {
      hide Inv, WasReplaced, Saw;
      QueuedAreEffects(batched);
      id := pending[0];
      var next := pending[0];
      PopKeepsInv(nodes, P(batched), next);
      assert popped + {next} == {next};
      ghost var q := scheduled;
      pending, scheduled := pending[1..], scheduled - {next};
      popped := {next};
      var _, _ := RunEffect(next, batched);
      if scheduled <= q - {next} { SubsetSize(scheduled, q - {next}); }
    }

    /** Run queued effects until none is left, the ones queued at the outset first and in the order of the queue. */
    method FlushEffects(ghost batched: set<Id>) returns (ghost order: seq<Id>)
      requires Ready(batched) && NoDangling(nodes.a) && computing == {} && inProgress == {} && popped == {}
      modifies `nodes, `inProgress, `pending, `scheduled, `computing, `popped, `flushing, `seen
      ensures Ready(batched) && computing == {} && inProgress == {} && popped == {}
      ensures nodes.a == old(nodes.a) && SameSources(old(nodes), nodes)
      ensures !old(flushing) ==> pending == [] && scheduled == {} && !flushing
      ensures old(pending) == [] ==> nodes == old(nodes) && seen == old(seen)
      ensures !old(flushing) ==> old(pending) <= order
    {
      hide Inv;
      order := [];
      if flushing { return; }
      flushing := true;
      while pending != []
        invariant Ready(batched) && computing == {} && inProgress == {} && popped == {}
        invariant nodes.a == old(nodes.a) && SameSources(old(nodes), nodes)
        invariant old(pending) == [] ==> pending == [] && nodes == old(nodes) && seen == old(seen)
        invariant old(pending) <= order + pending
        decreases Stale(nodes), |scheduled|
      {
        ghost var before := pending;
        ghost var id := RunNext(batched);
        Onward(old(pending), order, before, pending);
        order := order + [id];
      }
      flushing := false;
    }

    // ── Between operations ──

    ghost function Batched(): set<Id> reads this {
      set b | b in batchedCells
    }

    /** No closure is open and no flush is running. */
    ghost predicate Idle() reads this {
      computing == {} && popped == {} && inProgress == {} && !flushing
    }

    ghost predicate Valid() reads this {
      && Ready(Batched()) && IdentityOk(nodes.a, clock, nextId, freeIds, issued)
      && Idle() && scheduled == {}
      && (batchDepth == 0 ==> batchedCells == [] && batchedClears == [] && batchedSlots == [])
    }

    constructor ()
      ensures Valid() && nodes.a.kind == map[] && issued == {} && batchDepth == 0
    {
      nodes := Graph(Arena(map[], map[], map[]), map[], map[], map[], {}, {});
      inProgress, scheduled, computing, popped, issued := {}, {}, {}, {}, {};
      seen := map[];
      nextId, clock, batchDepth, flushing := 0, 0, 0, false;
      freeIds, pending, batchedCells, batchedClears, batchedSlots := [], [], [], [], [];
      new;
      assert forall n :: NodeOk(nodes, P({}), n);
    }

    /** A read.  Outside a batch it answers what a from-scratch evaluation over the sources
        would; None is a read of a disposed node. */
    method Get(id: Id) returns (r: Option<Value>)
      requires Valid() && NoDangling(nodes.a)
      modifies `nodes, `inProgress, `pending, `scheduled, `computing
      ensures Valid() && SameSources(old(nodes), nodes)
      ensures !nodes.a.IsCell(id) ==> r == None
      ensures nodes.a.IsCell(id) ==> id in nodes.value && r == Some(nodes.value[id]) && nodes.Settled(id)
      ensures old(nodes).Settled(id) ==> id in old(nodes.value) && r == Some(old(nodes.value)[id])
      ensures nodes.a.IsComputed(id) && (id !in old(nodes.value) || id in old(nodes.force)) ==> Local(nodes, id)
      ensures nodes.a.IsCell(id) && !RestsOn(nodes, id, Batched()) ==> r == Eval(old(nodes), id)
      ensures nodes.a.IsCell(id) && batchedCells == [] ==> r == Eval(old(nodes), id)
    {
      hide Inv, Progress, QueueGrew;
      if id !in nodes.a.kind || nodes.a.kind[id].Effect? { return None; }
      ghost var g := nodes;
      KeysOk(Batched());
      if nodes.a.kind[id].Computed? {
        var _ := RefreshSlot(id, Batched());
        ProgressKept(g, nodes, {}, scheduled, nodes.a.Rank(id), {});
        QueuedAreEffects(Batched());
        QuietEffects(g, Phase(Batched(), {}, {}, {}, seen), scheduled);
        EvalSame(g, nodes, id);
      }
      SettledHolds(nodes, P(Batched()), id);
      r := Some(nodes.value[id]);
      if batchedCells == [] {
        assert Batched() == {};
        RestsOnNothing(nodes, id);
      }
      if !RestsOn(nodes, id, Batched()) {
        NoPoison(nodes.a, id);
        SettledIsEval(nodes, P(Batched()), id);
      }
    }

    /** A write.  Outside a batch, when it returns the queue is empty again. */
    method Set(id: Id, v: Value)
      requires Valid() && NoDangling(nodes.a) && id in nodes.a.kind && nodes.a.kind[id].Source?
      modifies `nodes, `inProgress, `pending, `scheduled, `computing, `popped, `flushing, `seen, `batchedCells
      ensures Valid() && SameSources(old(nodes).(value := old(nodes.value)[id := v]), nodes)
      ensures id in old(nodes.value)
      ensures old(nodes.value)[id] == v ==> nodes == old(nodes) && batchedCells == old(batchedCells)
      ensures old(nodes.value)[id] != v && batchDepth > 0 ==>
                && nodes == old(nodes).(value := old(nodes.value)[id := v])
                && batchedCells == if id in old(batchedCells) then old(batchedCells) else old(batchedCells) + [id]
    {
      hide Inv, SameSources, IdentityOk, NoDangling, AllForced, NoDup;
      ghost var g, before := nodes, Batched();
      SettledHolds(nodes, P(before), id);
      SameSourcesRefl(g);
      assert nodes.value[id] == v ==> g.(value := g.value[id := v]) == g;
      if nodes.value[id] == v { return; }
      ghost var g1 := g.(value := g.value[id := v]);
      SameSourcesRefl(g1);
      if batchDepth > 0 {
        WriteKeepsInv(nodes, P(before), id, v);
        nodes := nodes.(value := nodes.value[id := v]);
        if id !in batchedCells { batchedCells := batchedCells + [id]; }
        assert Batched() == before + {id};
      } else {
        Publish(id, v);
      }
    }

    /** Write a source, mark its readers, and run what must run. */
    method Publish(id: Id, v: Value)
      requires Valid() && NoDangling(nodes.a) && batchDepth == 0 && id in nodes.a.kind && nodes.a.kind[id].Source?
      modifies `nodes, `inProgress, `pending, `scheduled, `computing, `popped, `flushing, `seen
      ensures Valid() && SameSources(old(nodes).(value := old(nodes.value)[id := v]), nodes)
    {
      hide Inv, SameSources, IdentityOk, NoDangling, AllForced, NoDup;
      ghost var g1 := nodes.(value := nodes.value[id := v]);
      var any := WriteAndMark(id, v);
      ghost var g2 := nodes;
      SameSourcesArena(g1, g2);
      if any {
        var _ := FlushEffects({});
        SameSourcesTrans(g1, g2, nodes);
        SameSourcesArena(g2, nodes);
      }
      assert Batched() == {};
    }

    /** The part of a write that runs no closure: the value is replaced and the readers' cone is marked.
        The effects queued are exactly those the walk reaches; readers that are dirty and forced already stop it. */
    method WriteAndMark(id: Id, v: Value) returns (any: bool)
      requires Valid() && batchDepth == 0 && id in nodes.a.kind && nodes.a.kind[id].Source?
      modifies `nodes, `pending, `scheduled
      ensures Ready({}) && SameSources(old(nodes).(value := old(nodes.value)[id := v]), nodes)
      ensures !any ==> scheduled == {}
      ensures AllForced(old(nodes), At(old(nodes.rdeps), id)) ==>
                !any && nodes == old(nodes).(value := old(nodes.value)[id := v])
      ensures forall e :: e in scheduled <==>
                nodes.a.IsEffect(e) && Reached(old(nodes), At(old(nodes.rdeps), id), e)
    {
      hide Inv, SameSources, AllForced, IdentityOk, Reached;
      ghost var g := nodes;
      assert Batched() == {};
      WriteKeepsInv(nodes, P({}), id, v);
      nodes := nodes.(value := nodes.value[id := v]);
      ghost var g1 := nodes;
      ForcedSame(g, g1, At(g.rdeps, id));
      ReadersLive(nodes, P({} + {id}));
      any := InvalidateDependentsNow(id, {}, AllNodes(nodes));
      ToldSame(g, g1, At(g.rdeps, id), {}, scheduled);
      FlagsKeepSources(g1, nodes);
    }

    lemma ForcedSame(g: Graph, g': Graph, roots: seq<Id>)
      requires g' == g.(value := g'.value)
      ensures AllForced(g', roots) == AllForced(g, roots)
    {
    }

    lemma ReadersLive(g: Graph, p: Phase)
      requires Inv(g, p)
      ensures forall n, u :: u in At(g.rdeps, n) ==> u in AllNodes(g)
    {
      forall n, u | u in At(g.rdeps, n) ensures u in g.a.kind {
        assert n in At(g.deps, u) && EdgeOk(g.a, u, n);
      }
    }

    ghost function AllNodes(g: Graph): set<Id> { g.a.kind.Keys }
  
    // ── Clearing ──

    ghost function Ids(ids: seq<Id>): set<Id> {
      set n | n in ids
    }

    /** What a clear leaves: no cache is added, none is dropped that does not rest on `cells`, edges stay, and the
        effects newly queued all rest on `cells`. */
    ghost predicate ClearedOn(g: Graph, g': Graph, cells: set<Id>, queue: set<Id>, queue': set<Id>) {
      && g'.a == g.a && g'.deps == g.deps && g'.rdeps == g.rdeps
      && (forall n :: n in g'.value ==> n in g.value && g'.value[n] == g.value[n])
      && (forall n :: n in g.value && !RestsOn(g, n, cells) ==> n in g'.value)
      && (forall e :: e in queue' && e !in queue ==> g.a.IsEffect(e) && RestsOn(g, e, cells))
    }

    lemma ClearedZone(g: Graph, p: Phase, roots: seq<Id>) returns (zone: set<Id>)
      requires Inv(g, p)
      ensures (forall r :: r in roots ==> r in zone) && forall n :: n in zone ==> RestsOn(g, n, Ids(roots))
      ensures forall n, u :: n in zone && u in At(g.rdeps, n) ==> u in zone
    {
      zone := Ids(roots) + set n | n in g.a.kind && RestsOn(g, n, Ids(roots));
      forall n, u | n in zone && u in At(g.rdeps, n) ensures u in zone { RestsUp(g, n, u, Ids(roots)); }
    }

    lemma ClearedIsOn(g: Graph, g1: Graph, g2: Graph, cells: set<Id>, zone: set<Id>, cleared: set<Id>, hits: seq<Hit>,
                      queue: set<Id>, queue': set<Id>)
      requires Cleared(g, g1, cleared, hits) && Scheduled(g1, g2, queue, queue', hits)
      requires cleared <= zone && (forall h :: h in hits ==> h.effect in zone)
      requires forall n :: n in zone ==> RestsOn(g, n, cells)
      ensures ClearedOn(g, g2, cells, queue, queue')
    {
      hide RestsOn;
      forall e | e in queue' && e !in queue ensures g.a.IsEffect(e) && RestsOn(g, e, cells) {
        assert IsHit(hits, e);
      }
    }

    /** Drop the caches of `roots` and of everything above them, and queue the effects reached. */
    method ClearFrom(roots: seq<Id>, ghost batched: set<Id>)
      requires Ready(batched) && computing == {}
      modifies `nodes, `pending, `scheduled
      ensures Ready(batched) && nodes.a == old(nodes.a) && SameSources(old(nodes), nodes)
      ensures forall r :: r in roots && nodes.a.IsComputed(r) ==> r !in nodes.value
      ensures ClearedOn(old(nodes), nodes, Ids(roots), old(scheduled), scheduled)
    {
      hide ClearedOn, RestsOn;
      ghost var g, p := nodes, P(batched);
      ghost var zone := ClearedZone(g, p, roots);
      var hits, cleared := ClearFrontier(roots, zone);
      ghost var g1 := nodes;
      ScheduleAll(hits);
      ClearKeepsInv(g, g1, nodes, p, cleared, hits, scheduled);
      ClearedKeepsSources(g, g1, nodes, cleared, hits);
      ClearedIsOn(g, g1, nodes, Ids(roots), zone, cleared, hits, p.scheduled, scheduled);
      assert forall r :: r in roots ==> Emptied(g1, hits, r);
    }

    lemma ReadersRest(g: Graph, id: Id)
      requires Formed(g)
      ensures forall r :: r in At(g.rdeps, id) ==> RestsOn(g, r, {id})
    {
      forall r | r in At(g.rdeps, id) ensures RestsOn(g, r, {id}) {
        assert id in {id} && RestsOn(g, id, {id});
        RestsUp(g, id, r, {id});
      }
    }

    lemma ClearedBelow(g: Graph, g': Graph, cells: set<Id>, below: set<Id>, queue: set<Id>, queue': set<Id>)
      requires ClearedOn(g, g', cells, queue, queue') && forall c :: c in cells ==> RestsOn(g, c, below)
      ensures ClearedOn(g, g', below, queue, queue')
    {
      forall n | RestsOn(g, n, cells) ensures RestsOn(g, n, below) { RestsTrans(g, n, cells, below); }
    }

    method ClearCellDependentsNow(id: Id, ghost batched: set<Id>)
      requires Ready(batched) && computing == {}
      modifies `nodes, `pending, `scheduled
      ensures Ready(batched) && nodes.a == old(nodes.a) && SameSources(old(nodes), nodes)
      ensures id in nodes.a.kind && nodes.a.kind[id].Source? ==>
                forall r :: r in At(old(nodes.rdeps), id) && nodes.a.IsComputed(r) ==> r !in nodes.value
      ensures ClearedOn(old(nodes), nodes, {id}, old(scheduled), scheduled)
    {
      hide Inv, RestsOn, ClearedOn, SameSources;
      ghost var g, q := nodes, scheduled;
      ClearedNothing(g, {id}, q);
      FormedNow(batched);
      if id in nodes.a.kind && nodes.a.kind[id].Source? {
        ReadersRest(g, id);
        ClearFrom(At(nodes.rdeps, id), batched);
        ClearedBelow(g, nodes, Ids(At(g.rdeps, id)), {id}, q, scheduled);
      } else {
        SameSourcesRefl(g);
      }
    }

    lemma FormedNow(batched: set<Id>)
      requires Ready(batched)
      ensures Formed(nodes)
    {
    }

    lemma ClearedNothing(g: Graph, cells: set<Id>, queue: set<Id>)
      ensures ClearedOn(g, g, cells, queue, queue)
    {
    }

    /** Where no effect rests on what is cleared, nothing runs. */
    lemma UnheardQueue(g: Graph, g': Graph, cells: set<Id>, queue: set<Id>, queue': set<Id>)
      requires ClearedOn(g, g', cells, queue, queue') && Unheard(g, cells) && queue <= queue'
      ensures queue' == queue
    {
      forall e | e in queue' ensures e in queue {}
    }

    /** Clear a computed node (`Computed::clear`): its cache and its readers' caches are dropped,
        now or when the batch ends. */
    method Clear(id: Id)
      requires Valid() && NoDangling(nodes.a)
      modifies `nodes, `inProgress, `pending, `scheduled, `computing, `popped, `flushing, `seen, `batchedSlots
      ensures Valid() && SameSources(old(nodes), nodes)
      ensures batchDepth > 0 ==>
                && nodes == old(nodes)
                && batchedSlots == if id in old(batchedSlots) then old(batchedSlots) else old(batchedSlots) + [id]
      ensures batchDepth == 0 && Unheard(old(nodes), {id}) ==>
                && (nodes.a.IsComputed(id) ==> id !in nodes.value)
                && ClearedOn(old(nodes), nodes, {id}, {}, {}) && seen == old(seen)
    {
      hide Inv, SameSources, IdentityOk, ClearedOn, Unheard;
      ghost var g, quiet := nodes, Unheard(nodes, {id});
      SameSourcesRefl(g);
      if batchDepth > 0 {
        if id !in batchedSlots { batchedSlots := batchedSlots + [id]; }
      } else {
        ClearFrom([id], Batched());
        assert Ids([id]) == {id};
        ghost var g1 := nodes;
        if quiet { UnheardQueue(g, g1, {id}, {}, scheduled); }
        var _ := FlushEffects(Batched());
        SameSourcesTrans(g, g1, nodes);
        SameSourcesArena(g, nodes);
      }
    }

    method ClearCellDependents(id: Id)
      requires Valid() && NoDangling(nodes.a)
      modifies `nodes, `inProgress, `pending, `scheduled, `computing, `popped, `flushing, `seen, `batchedClears
      ensures Valid() && SameSources(old(nodes), nodes)
      ensures batchDepth > 0 ==>
                && nodes == old(nodes)
                && batchedClears == if id in old(batchedClears) then old(batchedClears) else old(batchedClears) + [id]
      ensures batchDepth == 0 && Unheard(old(nodes), {id}) ==>
                && (id in nodes.a.kind && nodes.a.kind[id].Source? ==>
                      forall r :: r in At(nodes.rdeps, id) ==> r !in nodes.value)
                && ClearedOn(old(nodes), nodes, {id}, {}, {}) && seen == old(seen)
    {
      hide Inv, SameSources, IdentityOk, ClearedOn, Unheard;
      ghost var g, quiet := nodes, Unheard(nodes, {id});
      SameSourcesRefl(g);
      if batchDepth > 0 {
        if id !in batchedClears { batchedClears := batchedClears + [id]; }
      } else {
        ClearCellDependentsNow(id, Batched());
        ghost var g1 := nodes;
        if quiet {
          UnheardQueue(g, g1, {id}, {}, scheduled);
          FormedNow(Batched());
          SameEdges(g, g1, {id}, {}, scheduled);
          UnheardReaders(g, g1, id, scheduled);
        }
        var _ := FlushEffects(Batched());
        SameSourcesTrans(g, g1, nodes);
        SameSourcesArena(g, nodes);
      }
    }

    lemma UnheardReaders(g: Graph, g': Graph, id: Id, queue: set<Id>)
      requires Formed(g') && Unheard(g, {id}) && ClearedOn(g, g', {id}, {}, queue)
      ensures forall r :: r in At(g'.rdeps, id) ==> g'.a.IsComputed(r)
    {
      ReadersRest(g', id);
      forall r | r in At(g'.rdeps, id) ensures g'.a.IsComputed(r) {
        RestsSame(g, g', r, {id});
        assert EdgeOk(g'.a, r, id);
      }
    }

    // ── Batches ──

    method BeginBatch()
      requires Valid()
      modifies `batchDepth
      ensures Valid() && batchDepth == old(batchDepth) + 1
    {
      batchDepth := batchDepth + 1;
    }

    /** Close a batch; the outermost one pays every owed invalidation, then flushes. */
    method FinishBatch()
      requires Valid() && batchDepth > 0 && NoDangling(nodes.a)
      modifies `nodes, `inProgress, `pending, `scheduled, `computing, `popped, `flushing, `seen
      modifies `batchDepth, `batchedCells, `batchedClears, `batchedSlots
      ensures Valid() && batchDepth == old(batchDepth) - 1 && SameSources(old(nodes), nodes)
      ensures old(batchDepth) > 1 ==>
                && nodes == old(nodes) && seen == old(seen)
                && (batchedCells, batchedClears, batchedSlots) == old((batchedCells, batchedClears, batchedSlots))
      ensures old(batchDepth) == 1 ==> batchedCells == [] && batchedClears == [] && batchedSlots == []
      ensures old(batchDepth) == 1 && Unheard(old(nodes), old(Debts())) ==>
                Paying(old(nodes), nodes, old(Debts()), {}) && Unset(nodes, old(batchedClears), old(batchedSlots))
    {
      hide Inv, SameSources, IdentityOk, Paying, Unset, Unheard;
      SameSourcesRefl(nodes);
      batchDepth := batchDepth - 1;
      if batchDepth == 0 {
        FlushBatchedInvalidations();
        assert Batched() == {};
      }
    }

    ghost function Owing(cells: seq<Id>): set<Id> {
      set b | b in cells
    }

    /** Everything a batch owes. */
    ghost function Debts(): set<Id> reads this {
      Ids(batchedCells) + Ids(batchedClears) + Ids(batchedSlots)
    }

    /** In mid-flush: edges are those of `g`, no cache has been added, and if no effect rests on what is owed none
        is queued. */
    ghost predicate Paying(g: Graph, g': Graph, debts: set<Id>, queue: set<Id>) {
      && g'.a == g.a && g'.deps == g.deps && g'.rdeps == g.rdeps
      && (forall n :: n in g'.value ==> n in g.value && g'.value[n] == g.value[n])
      && (forall n :: n in g.value && !RestsOn(g, n, debts) ==> n in g'.value)
      && (Unheard(g, debts) ==> queue == {})
    }

    lemma {:induction false} ReachedRests(g: Graph, id: Id, n: Id)
      requires Formed(g) && Reached(g, At(g.rdeps, id), n)
      ensures RestsOn(g, n, {id})
      decreases g.a.Rank(n)
    {
      ReadersRest(g, id);
      if n !in At(g.rdeps, id) {
        var m :| m in At(g.deps, n) && g.a.Before(m, n) && Opens(g, At(g.rdeps, id), m)
                 && Reached(g, At(g.rdeps, id), m);
        ReachedRests(g, id, m);
      }
    }

    lemma PayCell(g: Graph, g1: Graph, g2: Graph, debts: set<Id>, id: Id, queue: set<Id>, queue': set<Id>)
      requires Paying(g, g1, debts, queue) && Formed(g1) && id in debts
      requires g2 == g1.(dirty := g2.dirty, force := g2.force) && Told(g1, At(g1.rdeps, id), queue, queue')
      ensures Paying(g, g2, debts, queue')
    {
      if Unheard(g, debts) {
        forall e ensures e !in queue' {
          if e in queue' {
            ReachedRests(g1, id, e);
            RestsTrans(g1, e, {id}, debts);
            RestsSame(g, g1, e, debts);
          }
        }
      }
    }

    lemma PayClear(g: Graph, g1: Graph, g2: Graph, debts: set<Id>, cells: set<Id>, queue: set<Id>, queue': set<Id>)
      requires Paying(g, g1, debts, queue) && cells <= debts && ClearedOn(g1, g2, cells, queue, queue')
      ensures Paying(g, g2, debts, queue')
    {
      forall n | RestsOn(g1, n, cells) ensures RestsOn(g, n, debts) {
        RestsTrans(g1, n, cells, debts);
        RestsSame(g, g1, n, debts);
      }
    }

    /** The readers of the cells cleared and the slots cleared are unset. */
    ghost predicate Unset(g: Graph, clears: seq<Id>, slots: seq<Id>) {
      && (forall c, r :: c in clears && c in g.a.kind && g.a.kind[c].Source? && r in At(g.rdeps, c) && g.a.IsComputed(r)
            ==> r !in g.value)
      && (forall s :: s in slots && g.a.IsComputed(s) ==> s !in g.value)
    }

    lemma UnsetNext(g: Graph, g': Graph, cells: set<Id>, clears: seq<Id>, slots: seq<Id>, clears': seq<Id>,
        slots': seq<Id>, queue: set<Id>, queue': set<Id>)
      requires Unset(g, clears, slots) && ClearedOn(g, g', cells, queue, queue')
      requires forall c :: c in clears' ==> c in clears || (c in g.a.kind && g.a.kind[c].Source? ==>
                 forall r :: r in At(g.rdeps, c) && g.a.IsComputed(r) ==> r !in g'.value)
      requires forall s :: s in slots' ==> s in slots || (g.a.IsComputed(s) ==> s !in g'.value)
      ensures Unset(g', clears', slots')
    {
    }

    method FlushBatchedInvalidations()
      requires Ready(Batched()) && NoDangling(nodes.a) && Idle() && scheduled == {}
      modifies `nodes, `inProgress, `pending, `scheduled, `computing, `popped, `flushing, `seen
      modifies `batchedCells, `batchedClears, `batchedSlots
      ensures Ready({}) && Idle() && scheduled == {}
      ensures nodes.a == old(nodes.a) && SameSources(old(nodes), nodes)
      ensures batchedCells == [] && batchedClears == [] && batchedSlots == []
      ensures Unheard(old(nodes), old(Debts())) ==>
                Paying(old(nodes), nodes, old(Debts()), {}) && Unset(nodes, old(batchedClears), old(batchedSlots))
    {
      ghost var g, debts, q := nodes, Debts(), scheduled;
      InvalidateBatched();
      ghost var clears, slots := batchedClears, batchedSlots;
      ClearBatched(g, debts);
      ghost var g2 := nodes;
      var _ := FlushEffects({});
      SameSourcesTrans(g, g2, nodes);
    }

    /** The cells written: mark and queue as each write would have. */
    method InvalidateBatched()
      requires Ready(Batched()) && Idle() && scheduled == {}
      modifies `nodes, `pending, `scheduled, `batchedCells
      ensures Ready({}) && SameSources(old(nodes), nodes) && batchedCells == []
      ensures Paying(old(nodes), nodes, old(Debts()), scheduled)
    {
      hide Inv, SameSources, Paying, Told, RestsOn;
      ghost var g, debts := nodes, Debts();
      SameSourcesRefl(g);
      PayNothing(g, debts);
      assert Owing(batchedCells[0..]) == Batched();
      for i := 0 to |batchedCells|
        invariant Idle() && batchedCells == old(batchedCells)
        invariant Ready(Owing(batchedCells[i..])) && nodes.a == g.a && SameSources(g, nodes)
        invariant Paying(g, nodes, debts, scheduled)
      {
        var id := batchedCells[i];
        assert Owing(batchedCells[i + 1..]) + {id} == Owing(batchedCells[i..]) by {
          assert batchedCells[i..] == [id] + batchedCells[i + 1..];
        }
        ReadersLive(nodes, P(Owing(batchedCells[i..])));
        FormedNow(Owing(batchedCells[i..]));
        ghost var g1, q1 := nodes, scheduled;
        var _ := InvalidateDependentsNow(id, Owing(batchedCells[i + 1..]), AllNodes(nodes));
        FlagsKeepSources(g1, nodes);
        SameSourcesTrans(g, g1, nodes);
        PayCell(g, g1, nodes, debts, id, q1, scheduled);
      }
      assert Owing(batchedCells[|batchedCells|..]) == {};
      batchedCells := [];
    }

    lemma PayNothing(g: Graph, debts: set<Id>)
      ensures Paying(g, g, debts, {})
    {
    }

    /** The clears: first the readers of the cells cleared, then the computed nodes. */
    method ClearBatched(ghost g: Graph, ghost debts: set<Id>)
      requires Ready({}) && Idle() && batchedCells == [] && SameSources(g, nodes)
      requires Paying(g, nodes, debts, scheduled) && Ids(batchedClears) + Ids(batchedSlots) <= debts
      modifies `nodes, `pending, `scheduled, `batchedClears, `batchedSlots
      ensures Ready({}) && SameSources(g, nodes) && batchedClears == [] && batchedSlots == []
      ensures Paying(g, nodes, debts, scheduled) && Unset(nodes, old(batchedClears), old(batchedSlots))
    {
      hide Inv, SameSources, Paying, ClearedOn, RestsOn, Unset;
      var clears, slots := batchedClears, batchedSlots;
      UnsetNone(nodes);
      for i := 0 to |clears|
        invariant Idle() && batchedCells == [] && batchedClears == clears && batchedSlots == slots
        invariant Ready({}) && SameSources(g, nodes) && Paying(g, nodes, debts, scheduled)
        invariant Unset(nodes, clears[..i], [])
      {
        ghost var g1, q1 := nodes, scheduled;
        ClearCellDependentsNow(clears[i], {});
        SameSourcesTrans(g, g1, nodes);
        PayClear(g, g1, nodes, debts, {clears[i]}, q1, scheduled);
        SameEdges(g1, nodes, {clears[i]}, q1, scheduled);
        assert forall c :: c in clears[..i + 1] ==> c in clears[..i] || c == clears[i];
        UnsetNext(g1, nodes, {clears[i]}, clears[..i], [], clears[..i + 1], [], q1, scheduled);
      }
      batchedClears := [];
      assert clears[..|clears|] == clears;
      for i := 0 to |slots|
        invariant Idle() && batchedCells == [] && batchedClears == [] && batchedSlots == slots
        invariant Ready({}) && SameSources(g, nodes) && Paying(g, nodes, debts, scheduled)
        invariant Unset(nodes, clears, slots[..i])
      {
        ghost var g1, q1 := nodes, scheduled;
        ClearFrom([slots[i]], {});
        SameSourcesTrans(g, g1, nodes);
        assert Ids([slots[i]]) == {slots[i]};
        PayClear(g, g1, nodes, debts, {slots[i]}, q1, scheduled);
        assert forall s :: s in slots[..i + 1] ==> s in slots[..i] || s == slots[i];
        UnsetNext(g1, nodes, {slots[i]}, clears, slots[..i], clears, slots[..i + 1], q1, scheduled);
      }
      assert slots[..|slots|] == slots;
      batchedSlots := [];
    }

    lemma UnsetNone(g: Graph)
      ensures Unset(g, [], [])
    {
    }

    lemma SameEdges(g: Graph, g': Graph, cells: set<Id>, queue: set<Id>, queue': set<Id>)
      requires ClearedOn(g, g', cells, queue, queue')
      ensures g'.a == g.a && g'.rdeps == g.rdeps
    {
    }
  
    // ── Creation ──

    method AllocId() returns (id: Id)
      requires IdentityOk(nodes.a, clock, nextId, freeIds, issued)
      modifies `nextId, `freeIds
      ensures id !in nodes.a.kind && id < nextId
      ensures IdentityOk(nodes.a, clock, nextId, freeIds, issued) && id !in freeIds
      ensures Handle(id, nodes.a.Gen(id)) !in issued
    {
      if freeIds != [] {
        id := freeIds[|freeIds| - 1];
        ghost var before := freeIds;
        freeIds := freeIds[..|freeIds| - 1];
        assert forall n :: n in freeIds ==> n in before;
      } else {
        id := nextId;
        nextId := nextId + 1;
      }
    }

    /** Create a node; the handle returned was never issued before. */
    method Insert(k: Kind, v: Value) returns (h: Handle)
      requires Valid() && HoldsCurrent(nodes.a, k)
      requires k.Effect? ==> NoDangling(nodes.a)
      modifies this
      ensures Valid() && h !in old(issued) && issued == old(issued) + {h}
      ensures nodes.a.kind == old(nodes.a.kind)[h.id := k] && h.id !in old(nodes.a.kind) && nodes.a.Current(h)
      ensures SameSources(Created(old(nodes), h.id, k, v, old(clock)), nodes)
      ensures k.Source? ==> Eval(nodes, h.id) == Some(v)
      ensures old(NoDangling(nodes.a)) ==> NoDangling(nodes.a)
      ensures batchDepth == old(batchDepth) && batchedCells == old(batchedCells)
    {
      hide Inv, IdentityOk, NoDangling, HoldsCurrent, SameSources, Created;
      ghost var g0, t0 := nodes, clock;
      h := InsertNode(k, v);
      ghost var g := nodes;
      SameSourcesRefl(g);
      CreatedFacts(g0, nodes, h.id, k, v, t0);
      if k.Effect? {
        ScheduleEffect(h.id, false);
        var _ := FlushEffects(Batched());
        SameSourcesArena(g, nodes);
      }
      CreatedFacts(g0, nodes, h.id, k, v, t0);
    }

    lemma CreatedFacts(g: Graph, g': Graph, n: Id, k: Kind, v: Value, t: nat)
      requires SameSources(Created(g, n, k, v, t), g')
      ensures g'.a.kind == g.a.kind[n := k] && g'.a.Gen(n) == g.a.Gen(n) && (k.Source? ==> Eval(g', n) == Some(v))
    {
    }

    method InsertNode(k: Kind, v: Value) returns (h: Handle)
      requires Valid() && HoldsCurrent(nodes.a, k)
      modifies `nodes, `clock, `nextId, `freeIds, `issued
      ensures Inv(nodes, P(Batched()).(scheduled := if k.Effect? then scheduled + {h.id} else scheduled))
      ensures IdentityOk(nodes.a, clock, nextId, freeIds, issued)
      ensures h !in old(issued) && issued == old(issued) + {h}
      ensures h.id !in old(nodes.a.kind) && h.gen == nodes.a.Gen(h.id) == old(nodes.a).Gen(h.id)
      ensures nodes == Created(old(nodes), h.id, k, v, old(clock))
      ensures old(NoDangling(nodes.a)) ==> NoDangling(nodes.a)
    {
      hide Inv, IdentityOk, NoDangling, HoldsCurrent, IdsOk;
      IdentityIds(nodes.a, clock, nextId, freeIds, issued);
      var id := AllocId();
      ghost var g := nodes;
      CreateKeepsInv(g, P(Batched()), id, k, v, clock);
      CreateArenaOk(g, P(Batched()), id, k, v, clock);
      CreateIdentity(g, id, k, v, clock, nextId, freeIds, issued);
      h := Handle(id, nodes.a.Gen(id));
      nodes := Created(nodes, id, k, v, clock);
      clock := clock + 1;
      issued := issued + {h};
    }

    /** Creating a node leaves every other node's meaning alone. */
    lemma CreateKeepsEval(g: Graph, n: Id, k: Kind, v: Value, m: Id)
      requires Formed(g) && MayCreate(g, n, k) && IdsOk(g.a, clock) && m in g.a.kind
      ensures Eval(Created(g, n, k, v, clock), m) == Eval(g, m)
      decreases g.a.Rank(m), 1
    {
      var g' := Created(g, n, k, v, clock);
      if g.a.IsReader(m) {
        var c := g.a.Code(m);
        ReadsOwn(g.a, m);
        CreateKeepsTree(g, n, k, v, m, c.tree, c.depth);
      }
    }

    lemma {:induction false} CreateKeepsTree(g: Graph, n: Id, k: Kind, v: Value, m: Id, t: Tree, depth: nat)
      requires Formed(g) && MayCreate(g, n, k) && IdsOk(g.a, clock) && g.a.IsReader(m)
      requires Bounded(t, depth) && forall h :: MayRead(t, depth, h) ==> g.a.Reads(m, h)
      ensures EvalTree(Created(g, n, k, v, clock), t, depth, m) == EvalTree(g, t, depth, m)
      decreases g.a.Rank(m), 0, depth
    {
      match t
      case Ret(_) =>
      case Read(h, _) =>
        var g' := Created(g, n, k, v, clock);
        assert MayRead(t, depth, h);
        assert g.a.Reads(m, h) && HandleOk(g.a, m, h);
        if g.a.Current(h) {
          CreateKeepsEval(g, n, k, v, h.id);
          if Eval(g, h.id).Some? {
            var x := Eval(g, h.id).val;
            assert forall h' :: MayRead(t.Then(x), depth - 1, h') ==> MayRead(t, depth, h');
            CreateKeepsTree(g, n, k, v, m, t.Then(x), depth - 1);
          }
        }
    }
  
    // ── Disposal ──

    lemma EdgesNoDup(g: Graph, p: Phase)
      requires Inv(g, p)
      ensures forall n :: NoDup(At(g.deps, n)) && NoDup(At(g.rdeps, n))
    {
    }

    lemma OwnListsGone(edges: map<Id, seq<Id>>, edges': map<Id, seq<Id>>, id: Id)
      requires edges' == (if id in edges then edges[id := []] else edges) && forall n :: NoDup(At(edges, n))
      ensures forall n :: At(edges', n) == (if n == id then [] else At(edges, n)) && NoDup(At(edges', n))
    {
    }

    /** Detach `id` in both directions. */
    method Unlink(id: Id, ghost batched: set<Id>)
      requires Ready(batched) && id in nodes.a.kind
      modifies `nodes
      ensures Unlinked(old(nodes), nodes, id)
    {
      hide Inv, IdentityOk, NoDup;
      ghost var g := nodes;
      EdgesNoDup(g, P(batched));
      var ds, ts := At(nodes.deps, id), At(nodes.rdeps, id);
      if id in nodes.deps { nodes := nodes.(deps := nodes.deps[id := []]); }
      if id in nodes.rdeps { nodes := nodes.(rdeps := nodes.rdeps[id := []]); }
      OwnListsGone(g.deps, nodes.deps, id);
      OwnListsGone(g.rdeps, nodes.rdeps, id);
      RemoveDependentEdges(ds, id);
      RemoveDependencyEdges(ts, id);
      UnlinkedEdges(g, nodes, P(batched), id);
    }

    lemma UnlinkedEdges(g: Graph, g': Graph, p: Phase, id: Id)
      requires Inv(g, p) && g' == g.(deps := g'.deps, rdeps := g'.rdeps)
      requires forall s, d :: d in At(g'.deps, s) <==>
            d in (if s == id then [] else At(g.deps, s)) && !(d == id && s in At(g.rdeps, id))
      requires forall d, s :: s in At(g'.rdeps, d) <==>
            s in (if d == id then [] else At(g.rdeps, d)) && !(s == id && d in At(g.deps, id))
      ensures forall s, d :: d in At(g'.deps, s) <==> d in At(g.deps, s) && s != id && d != id
      ensures forall s, d :: s in At(g'.rdeps, d) <==> s in At(g.rdeps, d) && s != id && d != id
    {
      assert forall s, d :: s in At(g.rdeps, d) <==> d in At(g.deps, s);
    }

    /** Tear down the occupant of `id`: detach it, dirty the cone above it without scheduling any
        effect, empty its slot, and recycle the id under a new generation. */
    method DisposeOccupant(id: Id)
      requires Valid() && id in nodes.a.kind
      modifies `nodes, `freeIds
      ensures Valid() && nodes.a == Vacated(old(nodes.a), id) && freeIds == old(freeIds) + [id]
      ensures nodes.value == old(nodes.value) - {id}
      ensures forall n :: nodes.Clean(n) ==> old(nodes).Clean(n) && id !in At(old(nodes.deps), n)
      ensures forall s, d :: d in At(nodes.deps, s) <==> d in At(old(nodes.deps), s) && s != id && d != id
      ensures forall r :: id in At(old(nodes.deps), r) && nodes.a.IsComputed(r) ==> r in nodes.dirty && r in nodes.force
    {
      hide Inv, IdentityOk, Poisoned;
      ghost var g, p := nodes, P(Batched());
      ghost var zone := set n | n in g.a.kind && n != id && Poisoned(Vacated(g.a, id), n);
      DisposeZone(g, p, id);
      KeysOk(Batched());
      var roots := At(nodes.rdeps, id);
      Unlink(id, Batched());
      ghost var g1 := nodes;
      var hits := MarkFrontier(roots, zone);
      ghost var g2 := nodes;
      DisposeKeepsInv(g, g1, g2, p, id, hits);
      DisposeIdentity(g.a, id, clock, nextId, freeIds, issued);
      CleanAfterDispose(g, g1, g2, p, id, hits);
      ForcedAfterDispose(g, g1, g2, p, id, hits);
      nodes := Removed(nodes, id);
      freeIds := freeIds + [id];
      assert {} - {id} == scheduled;
    }

    /** Disposal through a handle: a stale handle, or one of another kind, changes nothing. */
    method Dispose(h: Handle, k: NodeKind)
      requires Valid()
      modifies `nodes, `freeIds
      ensures Valid()
      ensures !IsOccupant(old(nodes.a), h, k) ==> nodes == old(nodes) && freeIds == old(freeIds)
      ensures IsOccupant(old(nodes.a), h, k) ==>
                && nodes.value == old(nodes.value) - {h.id}
                && (forall s, d :: d in At(nodes.deps, s) <==> d in At(old(nodes.deps), s) && s != h.id && d != h.id)
                && (forall r :: h.id in At(old(nodes.deps), r) && nodes.a.IsComputed(r) ==>
                      r in nodes.dirty && r in nodes.force)
      ensures IsOccupant(old(nodes.a), h, k) ==> nodes.a == Vacated(old(nodes.a), h.id) && !nodes.a.Current(h)
    {
      if nodes.a.Gen(h.id) != h.gen { return; }
      if h.id !in nodes.a.kind || KindOf(nodes.a.kind[h.id]) != k { return; }
      DisposeOccupant(h.id);
    }
  
    // ── What a client may rely on between operations ──

    /** Cache coherence: a cached value that reads as valid is the from-scratch value, for every node that
        cannot read a disposed one and depends on nothing an open batch has written. */
    lemma CleanIsCurrent(n: Id)
      requires Valid() && !Poisoned(nodes.a, n) && nodes.Clean(n)
      requires batchedCells == [] || !RestsOn(nodes, n, Batched())
      ensures Eval(nodes, n) == Some(nodes.value[n])
    {
      if batchedCells == [] {
        assert Batched() == {};
        RestsOnNothing(nodes, n);
      }
      SettledIsEval(nodes, P(Batched()), n);
    }

    /** Effect quiescence: every effect that cannot read a disposed node last ran on the from-scratch value of
        everything it read, and ended with its own. */
    lemma EffectsAreCurrent(e: Id)
      requires Valid() && !Poisoned(nodes.a, e) && batchedCells == [] && nodes.a.IsEffect(e)
      ensures e in seen && forall d :: d in seen[e] ==> Eval(nodes, d) == Some(seen[e][d])
      ensures e in nodes.value && Eval(nodes, e) == Some(nodes.value[e])
      ensures var c := nodes.a.Code(e); Replay(c.tree, c.depth, seen[e]) == Some(nodes.value[e])
    {
      assert Batched() == {};
      EffectIsEval(nodes, P(Batched()), e);
    }
  }
}
