/** Why an effect may miss a publish: a disposal dirties and forces the slot between it and a source without
    queueing it, and the next walk stops at that slot. */
module MissedPublish {
  import opened Options
  import opened Closures
  import opened Graphs
  import opened GraphSteps
  import opened Engine

  /** Reads `x` while `a` is zero, and `a` alone otherwise. */
  function Either(a: Handle, x: Handle): Closure {
    RawClosure(Read(a, v => if v == 0 then Read(x, w => Ret(w)) else Ret(v)), 2)
  }

  function Copy(c: Handle): Closure {
    RawClosure(Read(c, v => Ret(v)), 1)
  }

  /** Two sources, a slot over both, and an effect over the slot. */
  ghost predicate Built(g: Graph, a: Handle, x: Handle, c: Handle, e: Handle) {
    && a.id != x.id && a.id != c.id && a.id != e.id && x.id != c.id && x.id != e.id && c.id != e.id
    && g.a.kind == map[a.id := Source, x.id := Source, c.id := Computed(Either(a, x), true), e.id := Effect(Copy(c))]
    && g.a.Current(a) && g.a.Current(x) && g.a.Current(c) && g.a.Current(e)
    && a.id in g.value && g.value[a.id] == 0 && x.id in g.value && g.value[x.id] == 7
  }

  lemma EitherNames(a: Handle, x: Handle, h: Handle)
    ensures Names(Either(a, x), h) <==> h == a || h == x
  {
    var t := Either(a, x).tree;
    var u := t.Then(0);
    assert u.Read? && u.source == x;
    assert forall v :: u.Then(v).Ret?;
    assert MayRead(u, 1, h) <==> h == x;
    assert forall v :: v != 0 ==> t.Then(v).Ret?;
    assert forall v :: MayRead(t.Then(v), 1, h) ==> v == 0;
  }

  lemma CopyNames(c: Handle, h: Handle)
    ensures Names(Copy(c), h) <==> h == c
  {
    var t := Copy(c).tree;
    assert forall v :: t.Then(v).Ret?;
  }

  lemma EitherReplays(a: Handle, x: Handle, m: map<Id, Value>)
    requires a.id in m && x.id in m && m[a.id] == 0
    ensures Replay(Either(a, x).tree, 2, m) == Some(m[x.id]) && ReadSet(Either(a, x).tree, 2, m) == {a.id, x.id}
  {
    var t := Either(a, x).tree;
    var u := t.Then(0);
    assert u.Read? && u.source == x && u.Then(m[x.id]) == Ret(m[x.id]);
    assert Replay(u, 1, m) == Some(m[x.id]);
    assert ReadSet(u, 1, m) == {x.id};
  }

  lemma CopyReplays(c: Handle, m: map<Id, Value>)
    requires c.id in m
    ensures Replay(Copy(c).tree, 1, m) == Some(m[c.id]) && ReadSet(Copy(c).tree, 1, m) == {c.id}
  {
    var t := Copy(c).tree;
    assert t.Then(m[c.id]) == Ret(m[c.id]);
  }

  /** Between operations the engine has wired it all up, and the effect has seen seven. */
  lemma Wired(g: Graph, p: Phase, a: Handle, x: Handle, c: Handle, e: Handle)
    requires Built(g, a, x, c, e) && Inv(g, p) && NoDangling(g.a)
    requires p.batched == {} && p.scheduled == {} && p.computing == {} && p.popped == {}
    ensures g.Clean(c.id) && g.value[c.id] == 7
    ensures forall d :: d in At(g.deps, c.id) <==> d == a.id || d == x.id
    ensures forall d :: d in At(g.deps, e.id) <==> d == c.id
    ensures e.id in p.seen && p.seen[e.id] == map[c.id := 7] && e.id in g.value && g.value[e.id] == 7
    ensures forall r :: r in At(g.rdeps, a.id) ==> r == c.id
  {
    hide Poisoned, HandlesOk, Either, Copy, Replay, ReadSet;
    NoPoison(g.a, e.id);
    assert NodeOk(g, p, e.id) && NodeOk(g, p, c.id);
    assert Untouched(g, e.id, p.batched) && Untouched(g, c.id, p.batched);
    assert Local(g, e.id) && Saw(g, p.seen, e.id);
    EffectReadsSlot(g, p, c, e);
    assert g.Settled(c.id) && Local(g, c.id);
    SlotReadsBoth(g, a, x, c);
    forall r | r in At(g.rdeps, a.id) ensures r == c.id {
      assert a.id in At(g.deps, r) && EdgeOk(g.a, r, a.id);
      if r == e.id { CopyNames(c, Handle(a.id, g.a.Gen(a.id))); }
    }
  }

  lemma SlotReadsBoth(g: Graph, a: Handle, x: Handle, c: Handle)
    requires g.a.IsComputed(c.id) && g.a.kind[c.id].body == Either(a, x) && Local(g, c.id)
    requires a.id in g.value && x.id in g.value && g.value[a.id] == 0
    ensures g.value[c.id] == g.value[x.id]
    ensures forall d :: d in At(g.deps, c.id) <==> d == a.id || d == x.id
  {
    EitherReplays(a, x, g.value);
  }

  lemma EffectReadsSlot(g: Graph, p: Phase, c: Handle, e: Handle)
    requires g.a.IsEffect(e.id) && g.a.kind[e.id].run == Copy(c) && Local(g, e.id)
    ensures forall d :: d in At(g.deps, e.id) <==> d == c.id
    ensures c.id in g.value ==> g.value[e.id] == g.value[c.id]
  {
    if c.id in g.value { CopyReplays(c, g.value); }
  }

  /** What a creation leaves of the sources and of the handles. */
  lemma SourcesKept(g: Graph, g': Graph, n: Id, k: Kind, v: Value, clock: nat)
    requires SameSources(Created(g, n, k, v, clock), g') && n !in g.a.kind
    ensures forall m :: m in g.a.kind && g.a.kind[m].Source? && m in g.value ==>
          m in g'.value && g'.value[m] == g.value[m]
    ensures k.Source? ==> n in g'.value && g'.value[n] == v
    ensures forall h :: g.a.Current(h) ==> g'.a.Current(h)
  {
  }

  method Build() returns (ctx: Context, a: Handle, x: Handle, c: Handle, e: Handle)
    ensures fresh(ctx) && ctx.Valid() && NoDangling(ctx.nodes.a) && ctx.batchDepth == 0
    ensures Built(ctx.nodes, a, x, c, e)
  {
    hide Inv, IdentityOk, Either, Copy, SameSources, Created, NoDangling;
    ctx := new Context();
    assert NoDangling(ctx.nodes.a) by { NothingDangles(ctx.nodes.a); }
    ghost var g0, t0 := ctx.nodes, ctx.clock;
    a := ctx.Insert(Source, 0);
    ghost var g1, t1 := ctx.nodes, ctx.clock;
    SourcesKept(g0, g1, a.id, Source, 0, t0);
    x := ctx.Insert(Source, 7);
    ghost var g2, t2 := ctx.nodes, ctx.clock;
    SourcesKept(g1, g2, x.id, Source, 7, t1);
    forall h | Names(Either(a, x), h) ensures g2.a.Current(h) && g2.a.IsCell(h.id) { EitherNames(a, x, h); }
    c := ctx.Insert(Computed(Either(a, x), true), 0);
    ghost var g3, t3 := ctx.nodes, ctx.clock;
    SourcesKept(g2, g3, c.id, Computed(Either(a, x), true), 0, t2);
    forall h | Names(Copy(c), h) ensures g3.a.Current(h) && g3.a.IsCell(h.id) { CopyNames(c, h); }
    e := ctx.Insert(Effect(Copy(c)), 0);
    SourcesKept(g3, ctx.nodes, e.id, Effect(Copy(c)), 0, t3);
  }

  lemma NothingDangles(a: Arena)
    requires a.kind == map[]
    ensures NoDangling(a)
  {
  }


  /** The readers of `a` once `x` is gone: the slot alone, dirty and forced. */
  lemma SlotForced(g: Graph, g1: Graph, a: Handle, x: Handle, c: Handle)
    requires Formed(g) && Formed(g1) && a.id != x.id && c.id != x.id
    requires forall r :: r in At(g.rdeps, a.id) ==> r == c.id
    requires forall s, d :: d in At(g1.deps, s) <==> d in At(g.deps, s) && s != x.id && d != x.id
    requires g1.a.IsComputed(c.id) && c.id in g1.dirty && c.id in g1.force
    ensures AllForced(g1, At(g1.rdeps, a.id))
  {
    forall r | r in At(g1.rdeps, a.id) ensures r == c.id {
      assert a.id in At(g1.deps, r);
      assert a.id in At(g.deps, r);
      assert r in At(g.rdeps, a.id);
    }
  }

  lemma OlderThan(g: Graph, n: Id, h: Handle)
    requires Formed(g) && g.a.Reads(n, h) && g.a.Current(h)
    ensures g.a.Before(h.id, n)
  {
    assert HandleOk(g.a, n, h);
  }

  lemma EvalOne(g: Graph, a: Handle, x: Handle, c: Handle, e: Handle)
    requires g.a.Current(a) && g.a.Current(c) && g.a.kind[a.id].Source? && a.id in g.value && g.value[a.id] == 1
    requires g.a.kind[c.id] == Computed(Either(a, x), true) && e.id in g.a.kind && g.a.kind[e.id] == Effect(Copy(c))
    requires g.a.Before(a.id, c.id) && g.a.Before(c.id, e.id)
    ensures Eval(g, c.id) == Some(1) && Eval(g, e.id) == Some(1)
  {
    var t, u := Either(a, x).tree, Copy(c).tree;
    assert t.Then(1) == Ret(1) && u.Then(1) == Ret(1);
    assert Eval(g, a.id) == Some(1);
    assert EvalTree(g, t, 2, c.id) == EvalTree(g, t.Then(1), 1, c.id) == Some(1);
    assert Eval(g, c.id) == EvalTree(g, t, 2, c.id);
    assert EvalTree(g, u, 1, e.id) == EvalTree(g, u.Then(1), 0, e.id) == Some(1);
  }

  /** The run: `x` is disposed, then one is written to `a`.  A from-scratch run of slot and effect now gives one,
      reading nothing disposed; but nothing is queued, and what the effect has seen is seven. */
  method Missed() returns (ctx: Context, c: Handle, e: Handle)
    ensures fresh(ctx) && ctx.Ready({}) && ctx.scheduled == {} && ctx.nodes.a.IsEffect(e.id)
    ensures Eval(ctx.nodes, c.id) == Some(1) && Eval(ctx.nodes, e.id) == Some(1)
    ensures e.id in ctx.seen && ctx.seen[e.id] == map[c.id := 7]
    ensures e.id in ctx.nodes.value && ctx.nodes.value[e.id] == 7
  {
    hide IdentityOk, Either, Copy, NoDangling, SameSources, NodeOk, AllForced, Typed;
    var a, x;
    ctx, a, x, c, e := Build();
    ghost var g0 := ctx.nodes;
    assert ctx.Batched() == {};
    Wired(g0, ctx.P({}), a, x, c, e);
    EitherNames(a, x, a);
    CopyNames(c, c);
    OlderThan(g0, c.id, a);
    OlderThan(g0, e.id, c);
    ctx.Dispose(x, SourceNode);
    ghost var g1 := ctx.nodes;
    SlotForced(g0, g1, a, x, c);
    var any := ctx.WriteAndMark(a.id, 1);
    EvalOne(ctx.nodes, a, x, c, e);
  }
}
