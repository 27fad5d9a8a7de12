/** Teardown scopes: nodes grouped to be disposed together, newest first. */
module Teardown {
  import opened Options
  import opened Closures
  import opened Graphs
  import opened GraphSteps
  import opened Engine

  datatype Member = Member(h: Handle, kind: NodeKind)

  /** The handles ending a scope disposes, in order, starting from arena `a`. */
  function Victims(a: Arena, owned: seq<Member>): seq<Handle>
    decreases |owned|
  {
    if owned == [] then []
    else
      var m, rest := owned[|owned| - 1], owned[..|owned| - 1];
      if IsOccupant(a, m.h, m.kind) then [m.h] + Victims(Vacated(a, m.h.id), rest) else Victims(a, rest)
  }

  function VacatedAll(a: Arena, hs: seq<Handle>): Arena
    decreases |hs|
  {
    if hs == [] then a else VacatedAll(Vacated(a, hs[0].id), hs[1..])
  }

  /** The members still alive, newest first. */
  function AliveReversed(a: Arena, owned: seq<Member>): seq<Handle> {
    if owned == [] then []
    else
      var m := owned[|owned| - 1];
      (if IsOccupant(a, m.h, m.kind) then [m.h] else []) + AliveReversed(a, owned[..|owned| - 1])
  }

  ghost predicate Distinct(owned: seq<Member>) {
    forall i, j :: 0 <= i < j < |owned| ==> owned[i].h != owned[j].h
  }

  lemma {:induction false} AliveElsewhere(a: Arena, owned: seq<Member>, h: Handle)
    requires a.Current(h) && forall m :: m in owned ==> m.h != h
    ensures AliveReversed(Vacated(a, h.id), owned) == AliveReversed(a, owned)
    decreases |owned|
  {
    if owned != [] { AliveElsewhere(a, owned[..|owned| - 1], h); }
  }

  /** A scope disposes exactly its members that are still alive, in reverse creation order:
      disposing one never makes another one look dead. */
  lemma {:induction false} VictimsAreTheLiving(a: Arena, owned: seq<Member>)
    requires Distinct(owned)
    ensures Victims(a, owned) == AliveReversed(a, owned)
    decreases |owned|
  {
    if owned != [] {
      var m, rest := owned[|owned| - 1], owned[..|owned| - 1];
      if IsOccupant(a, m.h, m.kind) {
        VictimsAreTheLiving(Vacated(a, m.h.id), rest);
        AliveElsewhere(a, rest, m.h);
      } else {
        VictimsAreTheLiving(a, rest);
      }
    }
  }

  /** Ending a scope touches no other node, and revives none. */
  lemma {:induction false} VacatedAllKeeps(a: Arena, owned: seq<Member>, h: Handle)
    requires h.id in a.kind ==> h.gen <= a.Gen(h.id)
    ensures var a' := VacatedAll(a, Victims(a, owned));
            && (a'.Current(h) <==> a.Current(h) && h !in Victims(a, owned))
            && (a'.Current(h) ==> a'.kind[h.id] == a.kind[h.id])
    decreases |owned|
  {
    if owned != [] {
      var m, rest := owned[|owned| - 1], owned[..|owned| - 1];
      if IsOccupant(a, m.h, m.kind) {
        VacatedAllKeeps(Vacated(a, m.h.id), rest, h);
        VictimsCurrent(Vacated(a, m.h.id), rest);
      } else {
        VacatedAllKeeps(a, rest, h);
      }
    }
  }

  lemma {:induction false} VictimsCurrent(a: Arena, owned: seq<Member>)
    ensures forall h :: h in Victims(a, owned) ==> exists m :: m in owned && m.h == h
    decreases |owned|
  {
    if owned != [] {
      var m, rest := owned[|owned| - 1], owned[..|owned| - 1];
      VictimsCurrent(a, rest);
      VictimsCurrent(Vacated(a, m.h.id), rest);
      assert m in owned;
    }
  }

  class TeardownScope {
    const ctx: Context
    var owned: seq<Member>

    constructor (ctx: Context)
      ensures this.ctx == ctx && owned == []
    {
      this.ctx, owned := ctx, [];
    }

    ghost predicate Valid() reads this, ctx {
      ctx.Valid() && Distinct(owned) && forall m :: m in owned ==> m.h in ctx.issued
    }

    method Create(k: Kind, v: Value) returns (h: Handle)
      requires Valid() && HoldsCurrent(ctx.nodes.a, k)
      requires k.Effect? ==> NoDangling(ctx.nodes.a)
      modifies this, ctx
      ensures Valid() && owned == old(owned) + [Member(h, KindOf(k))]
      ensures IsOccupant(ctx.nodes.a, h, KindOf(k))
    {
      hide Inv, IdentityOk, NoDangling, HoldsCurrent;
      h := ctx.Insert(k, v);
      owned := owned + [Member(h, KindOf(k))];
    }

    method Disarm()
      requires Valid()
      modifies this
      ensures Valid() && owned == []
    {
      owned := [];
    }

    /** Dispose the members still alive, newest first; a second `End` finds nothing to do. */
    method End() returns (ghost disposed: seq<Handle>)
      requires Valid()
      modifies this, ctx
      ensures Valid() && owned == []
      ensures disposed == AliveReversed(old(ctx.nodes.a), old(owned))
      ensures ctx.nodes.a == VacatedAll(old(ctx.nodes.a), disposed)
    {
      hide Inv, IdentityOk;
      var members := owned;
      owned := [];
      disposed := [];
      ghost var a0 := ctx.nodes.a;
      VictimsAreTheLiving(a0, members);
      var i := |members|;
      assert members[..i] == members;
      while i > 0
        invariant 0 <= i <= |members|
        invariant ctx.Valid() && owned == []
        invariant Victims(a0, members) == disposed + Victims(ctx.nodes.a, members[..i])
        invariant ctx.nodes.a == VacatedAll(a0, disposed)
      {
        i := i - 1;
        var m := members[i];
        ghost var a := ctx.nodes.a;
        assert members[..i + 1][..i] == members[..i];
        ctx.Dispose(m.h, m.kind);
        if IsOccupant(a, m.h, m.kind) {
          VacatedSnoc(a0, disposed, m.h);
          disposed := disposed + [m.h];
        } else {
          assert ctx.nodes.a == a;
        }
      }
    }
  }

  lemma {:induction false} VacatedSnoc(a: Arena, hs: seq<Handle>, h: Handle)
    ensures VacatedAll(a, hs + [h]) == Vacated(VacatedAll(a, hs), h.id)
    decreases |hs|
  {
    if hs == [] {
      assert (hs + [h])[1..] == [];
    } else {
      assert (hs + [h])[1..] == hs[1..] + [h];
      VacatedSnoc(Vacated(a, hs[0].id), hs[1..], h);
    }
  }
}
