/** Replicas exchanging text: over every run, a delta brings exactly what a full merge would. */
module TextNetwork {
  import opened Options
  import opened TextOrder
  import opened TextCrdts

  /** Everything ever typed and deleted, by operation id. */
  datatype Events = Events(inserts: Elems, deletes: map<OpId, OpId>)

  /** A replica's elements and clock, and per peer how far into that peer's operations it has
      been brought (used by proofs only). */
  datatype State = State(elems: Elems, counter: int, know: VersionVector)

  /** `past` remembers every state any replica has been in: whatever is in flight was computed
      from one of them. */
  datatype Net = Net(events: Events, replicas: map<int, State>, past: set<(int, State)>)

  // ── The invariant ──

  ghost predicate HeldOk(ev: Events, st: State, id: OpId)
    requires id in st.elems
  {
    && id in ev.inserts && st.elems[id].ch == ev.inserts[id].ch && st.elems[id].origin == ev.inserts[id].origin
    && id.counter <= st.counter
    && (st.elems[id].deleted.Some? ==>
          var d := st.elems[id].deleted.val;
          d in ev.deletes && ev.deletes[d] == id && d.counter <= Seen(st.know, d.peer))
  }

  ghost predicate InsertKnown(st: State, id: OpId) {
    id in st.elems <==> id.counter <= Seen(st.know, id.peer)
  }

  /** A known deletion shows as a tombstone at least as old. */
  ghost predicate DeleteKnown(ev: Events, st: State, d: OpId)
    requires d in ev.deletes
  {
    d.counter <= Seen(st.know, d.peer) ==>
      var t := ev.deletes[d];
      t in st.elems && st.elems[t].deleted.Some? && !Less(d, st.elems[t].deleted.val)
  }

  ghost predicate StateOk(ev: Events, st: State) {
    && Dated(st.elems) && st.counter >= 0
    && (forall p :: Seen(st.know, p) >= 0)
    && (forall id :: id in st.elems ==> HeldOk(ev, st, id))
    && (forall id :: id in ev.inserts ==> InsertKnown(st, id))
    && (forall d :: d in ev.deletes ==> DeleteKnown(ev, st, d))
  }

  ghost predicate KnowsLess(a: State, b: State) {
    forall p :: Seen(a.know, p) <= Seen(b.know, p)
  }

  /** No state knows more of a peer than the peer has done. */
  ghost predicate Bounded(net: Net, st: State) {
    && (forall p :: p in net.replicas ==> Seen(st.know, p) <= net.replicas[p].counter)
    && (forall p :: p !in net.replicas ==> Seen(st.know, p) == 0)
  }

  ghost predicate OwnOk(net: Net, p: int)
    requires p in net.replicas
  {
    var st := net.replicas[p];
    && (p, st) in net.past
    && (forall id :: id in net.events.inserts && id.peer == p ==> id.counter <= Seen(st.know, p))
    && (forall d :: d in net.events.deletes && d.peer == p ==> d.counter <= Seen(st.know, p))
  }

  ghost predicate PastOk(net: Net, p: int, st: State) {
    && p in net.replicas && StateOk(net.events, st) && Bounded(net, st) && KnowsLess(st, net.replicas[p])
  }

  ghost predicate NetOk(net: Net) {
    && (forall p :: p in net.replicas ==> OwnOk(net, p))
    && (forall p, st :: (p, st) in net.past ==> PastOk(net, p, st))
    && (forall id :: id in net.events.inserts ==> id.counter > 0 && id.peer in net.replicas)
    && (forall d :: d in net.events.deletes ==> d.counter > 0 && d.peer in net.replicas)
  }

  // ── Delta sync is merge ──

  ghost function Ids(ops: seq<TextOp>): set<OpId> {
    if ops == [] then {} else {ops[0].id} + Ids(ops[1..])
  }

  lemma {:induction false} IdsMember(ops: seq<TextOp>, id: OpId)
    ensures id in Ids(ops) <==> exists i :: 0 <= i < |ops| && ops[i].id == id
    decreases |ops|
  {
    if ops != [] {
      IdsMember(ops[1..], id);
      if id in Ids(ops[1..]) {
        var i :| 0 <= i < |ops[1..]| && ops[1..][i].id == id;
        assert ops[i + 1].id == id;
      } else if i :| 0 <= i < |ops| && ops[i].id == id {
        assert i > 0 ==> ops[1..][i - 1].id == id;
      }
    }
  }

  lemma JoinStep(b: Elems, a: Elems, id: OpId, later: set<OpId>)
    requires id in a && id !in later
    ensures Join(JoinOne(b, id, a[id]), Only(a, later)) == Join(b, Only(a, {id} + later))
  {
  }

  lemma {:induction false} ApplyIsJoin(b: Elems, a: Elems, ops: seq<TextOp>)
    requires forall i :: 0 <= i < |ops| ==> ops[i].id in a && ops[i].x == a[ops[i].id]
    requires forall i, j :: 0 <= i < j < |ops| ==> ops[i].id != ops[j].id
    ensures ApplyOps(b, ops) == Join(b, Only(a, Ids(ops)))
    decreases |ops|
  {
    if ops == [] {
      assert Only(a, {}) == map[];
    } else {
      ApplyIsJoin(JoinOne(b, ops[0].id, ops[0].x), a, ops[1..]);
      IdsMember(ops[1..], ops[0].id);
      JoinStep(b, a, ops[0].id, Ids(ops[1..]));
    }
  }

  lemma JoinSkips(b: Elems, a: Elems, sent: set<OpId>)
    requires forall id :: id in a && id !in sent ==>
               id in b && MinDel(b[id].deleted, a[id].deleted) == b[id].deleted
    ensures Join(b, Only(a, sent)) == Join(b, a)
  {
  }

  /** What a peer's vector claims, the peer knows: a tombstone lost to an older one drops out of
      the vector, never the other way round. */
  lemma VectorBelowKnowledge(ev: Events, st: State, vv: VersionVector, p: int)
    requires StateOk(ev, st) && IsVersionVector(st.elems, vv)
    ensures Seen(vv, p) <= Seen(st.know, p)
  {
    if p in vv && vv[p] != 0 {
      var id :| id in st.elems && Mentions(st.elems, id, p, vv[p]);
      assert HeldOk(ev, st, id) && InsertKnown(st, id);
    }
  }

  /** An element of `a` that the vector filters out adds nothing to `b`. */
  lemma FilteredIsKnown(ev: Events, a: State, b: State, vv: VersionVector, id: OpId)
    requires StateOk(ev, a) && StateOk(ev, b) && id in a.elems && !Wanted(vv, id, a.elems[id])
    requires forall p :: Seen(vv, p) <= Seen(b.know, p)
    ensures id in b.elems && MinDel(b.elems[id].deleted, a.elems[id].deleted) == b.elems[id].deleted
  {
    assert HeldOk(ev, a, id) && InsertKnown(b, id);
    if a.elems[id].deleted.Some? {
      assert DeleteKnown(ev, b, a.elems[id].deleted.val);
    }
  }

  /** Delta sync equals full merge: `a`'s delta against any vector `b` had reached, applied to
      `b` now, leaves the elements `b.merge(a)` would. */
  lemma DeltaIsMerge(ev: Events, a: State, b: State, vv: VersionVector, ops: seq<TextOp>)
    requires StateOk(ev, a) && StateOk(ev, b)
    requires forall p :: Seen(vv, p) <= Seen(b.know, p)
    requires IsDelta(a.elems, vv, ops)
    ensures ApplyOps(b.elems, ops) == Join(b.elems, a.elems)
  {
    ApplyIsJoin(b.elems, a.elems, ops);
    forall id | id in a.elems && Wanted(vv, id, a.elems[id]) ensures id in Ids(ops) {
      assert TextOp(id, a.elems[id]) in ops;
      IdsMember(ops, id);
    }
    forall id | id in a.elems && id !in Ids(ops)
      ensures id in b.elems && MinDel(b.elems[id].deleted, a.elems[id].deleted) == b.elems[id].deleted
    {
      FilteredIsKnown(ev, a, b, vv, id);
    }
    JoinSkips(b.elems, a.elems, Ids(ops));
  }

  // ── The network's steps ──

  ghost function KnowJoin(a: VersionVector, b: VersionVector): VersionVector {
    map p | p in a.Keys + b.Keys :: if Seen(a, p) < Seen(b, p) then Seen(b, p) else Seen(a, p)
  }

  ghost function Put(net: Net, ev: Events, p: int, st: State): Net {
    Net(ev, net.replicas[p := st], net.past + {(p, st)})
  }

  datatype Step =
    | Spawn(peer: int)
    | Fork(from: int, peer: int)
    | Insert(at: int, index: nat, ch: string)
    | Delete(at: int, index: nat)
    | Merge(at: int, source: (int, State))
    | Deliver(at: int, asked: State, vv: VersionVector, source: (int, State), ops: seq<TextOp>)

  ghost function Typed(st: State, p: int, index: nat, ch: string): Elem {
    Elem(ch, OriginAt(VisibleOf(st.elems), index), None)
  }

  /** What each step does is what the corresponding operation of `TextCrdt` ensures. */
  ghost predicate Takes(net: Net, s: Step, net': Net) {
    match s
    case Spawn(p) => p !in net.replicas && net' == Put(net, net.events, p, State(map[], 0, map[]))
    case Fork(q, p) => q in net.replicas && p !in net.replicas && net' == Put(net, net.events, p, net.replicas[q])
    case Insert(p, index, ch) =>
      && p in net.replicas && ch != ""
      && var st := net.replicas[p];
         var id, x := OpId(st.counter + 1, p), Typed(st, p, index, ch);
         net' == Put(net, net.events.(inserts := net.events.inserts[id := x]), p,
                     State(st.elems[id := x], st.counter + 1, st.know[p := st.counter + 1]))
    case Delete(p, index) =>
      && p in net.replicas
      && var st := net.replicas[p];
         && index < |VisibleOf(st.elems)|
         && var t, d := VisibleOf(st.elems)[index], OpId(st.counter + 1, p);
            && t in st.elems
            && net' == Put(net, net.events.(deletes := net.events.deletes[d := t]), p,
                           State(st.elems[t := st.elems[t].(deleted := Some(d))], st.counter + 1,
                                 st.know[p := st.counter + 1]))
    case Merge(p, src) =>
      && p in net.replicas && src in net.past
      && var st := net.replicas[p];
         exists c :: IsAdvanced(st.elems, src.1.elems, st.counter, c)
                     && net' == Put(net, net.events, p,
                         State(Join(st.elems, src.1.elems), c, KnowJoin(st.know, src.1.know)))
    case Deliver(p, asked, vv, src, ops) =>
      && p in net.replicas && (p, asked) in net.past && src in net.past
      && IsVersionVector(asked.elems, vv) && IsDelta(src.1.elems, vv, ops)
      && var st := net.replicas[p];
         net' == Put(net, net.events, p, State(ApplyOps(st.elems, ops), AdvanceOps(st.elems, st.counter, ops),
                                               KnowJoin(st.know, src.1.know)))
  }

  /** `st` may become the state of replica `p` under events `ev`. */
  ghost predicate MayPut(net: Net, ev: Events, p: int, st: State) {
    && StateOk(ev, st)
    && (forall id :: id in ev.inserts ==> id in net.events.inserts || (id == OpId(st.counter, p) && st.counter > 0))
    && (forall d :: d in ev.deletes ==> d in net.events.deletes || (d == OpId(st.counter, p) && st.counter > 0))
    && Seen(st.know, p) <= st.counter
    && (ev != net.events ==> Seen(st.know, p) == st.counter)
    && (forall q :: q != p && q in net.replicas ==> Seen(st.know, q) <= net.replicas[q].counter)
    && (forall q :: q != p && q !in net.replicas ==> Seen(st.know, q) == 0)
    && (p in net.replicas ==> KnowsLess(net.replicas[p], st) && net.replicas[p].counter <= st.counter)
  }

  lemma PutOwn(net: Net, ev: Events, p: int, st: State, q: int)
    requires NetOk(net) && MayPut(net, ev, p, st) && q in Put(net, ev, p, st).replicas
    ensures OwnOk(Put(net, ev, p, st), q)
  {
    if q in net.replicas { assert OwnOk(net, q); }
  }

  lemma PutPast(net: Net, ev: Events, p: int, st: State, q: int, s: State)
    requires NetOk(net) && MayPut(net, ev, p, st) && StateOk(ev, s)
    requires (q, s) in net.past || (q, s) == (p, st)
    ensures PastOk(Put(net, ev, p, st), q, s)
  {
    if (q, s) in net.past { assert PastOk(net, q, s); }
  }

  /** Replacing one replica's state keeps the network sound. */
  lemma PutKeeps(net: Net, ev: Events, p: int, st: State)
    requires NetOk(net) && MayPut(net, ev, p, st)
    requires forall q, s :: (q, s) in net.past ==> StateOk(ev, s)
    ensures NetOk(Put(net, ev, p, st))
  {
    var net' := Put(net, ev, p, st);
    forall q | q in net'.replicas ensures OwnOk(net', q) { PutOwn(net, ev, p, st, q); }
    forall q, s | (q, s) in net'.past ensures PastOk(net', q, s) { PutPast(net, ev, p, st, q, s); }
  }

  // ── Each step ──

  ghost function JoinState(b: State, a: State, c: int): State {
    State(Join(b.elems, a.elems), c, KnowJoin(b.know, a.know))
  }

  lemma KnowJoinSeen(a: VersionVector, b: VersionVector, p: int)
    requires Seen(a, p) >= 0 && Seen(b, p) >= 0
    ensures Seen(KnowJoin(a, b), p) == if Seen(a, p) < Seen(b, p) then Seen(b, p) else Seen(a, p)
  {
  }

  lemma JoinHeld(ev: Events, b: State, a: State, c: int, id: OpId)
    requires StateOk(ev, a) && StateOk(ev, b) && id in Join(b.elems, a.elems) && id.counter <= c
    ensures HeldOk(ev, JoinState(b, a, c), id)
  {
    assert id in b.elems ==> HeldOk(ev, b, id);
    assert id in a.elems ==> HeldOk(ev, a, id);
    var x := Join(b.elems, a.elems)[id];
    if x.deleted.Some? { KnowJoinSeen(b.know, a.know, x.deleted.val.peer); }
  }

  lemma JoinDelete(ev: Events, b: State, a: State, c: int, d: OpId)
    requires StateOk(ev, a) && StateOk(ev, b) && d in ev.deletes
    ensures DeleteKnown(ev, JoinState(b, a, c), d)
  {
    assert DeleteKnown(ev, a, d) && DeleteKnown(ev, b, d);
    KnowJoinSeen(b.know, a.know, d.peer);
  }

  lemma JoinStateOk(ev: Events, b: State, a: State, c: int)
    requires StateOk(ev, a) && StateOk(ev, b) && c >= 0
    requires forall id :: id in Join(b.elems, a.elems) ==> id.counter <= c
    ensures StateOk(ev, JoinState(b, a, c))
  {
    var st := JoinState(b, a, c);
    JoinDated(b.elems, a.elems);
    forall p ensures Seen(st.know, p) >= 0 { KnowJoinSeen(b.know, a.know, p); }
    forall id | id in st.elems ensures HeldOk(ev, st, id) { JoinHeld(ev, b, a, c, id); }
    forall id | id in ev.inserts ensures InsertKnown(st, id) {
      assert InsertKnown(a, id) && InsertKnown(b, id);
      KnowJoinSeen(b.know, a.know, id.peer);
    }
    forall d | d in ev.deletes ensures DeleteKnown(ev, st, d) { JoinDelete(ev, b, a, c, d); }
  }

  lemma InsertStateOk(ev: Events, b: State, p: int, index: nat, ch: string)
    requires StateOk(ev, b) && Seen(b.know, p) <= b.counter && OpId(b.counter + 1, p) !in ev.inserts
    requires forall id :: id in ev.inserts && id.peer == p ==> id.counter <= Seen(b.know, p)
    requires forall d :: d in ev.deletes && d.peer == p ==> d.counter <= Seen(b.know, p)
    ensures var id, x := OpId(b.counter + 1, p), Typed(b, p, index, ch);
            var ev' := ev.(inserts := ev.inserts[id := x]);
            StateOk(ev', State(b.elems[id := x], b.counter + 1, b.know[p := b.counter + 1]))
  {
    hide VisibleOf, Full, Live;
    var id, x := OpId(b.counter + 1, p), Typed(b, p, index, ch);
    var ev' := ev.(inserts := ev.inserts[id := x]);
    var st := State(b.elems[id := x], b.counter + 1, b.know[p := b.counter + 1]);
    assert forall q :: Seen(st.know, q) == if q == p then b.counter + 1 else Seen(b.know, q);
    OriginHeld(b.elems, index);
    assert forall y :: y in b.elems ==> HeldOk(ev, b, y);
    assert id !in b.elems;
    assert x.origin.Some? ==> HeldOk(ev, b, x.origin.val);
    InsertDated(b.elems, id, x);
    forall y | y in st.elems ensures HeldOk(ev', st, y) {
      if y != id { assert HeldOk(ev, b, y); }
    }
    forall y | y in ev'.inserts ensures InsertKnown(st, y) {
      if y != id { assert InsertKnown(b, y); }
    }
    forall d | d in ev'.deletes ensures DeleteKnown(ev', st, d) { assert DeleteKnown(ev, b, d); }
  }

  lemma DeleteStateOk(ev: Events, b: State, p: int, index: nat)
    requires StateOk(ev, b) && Seen(b.know, p) <= b.counter && OpId(b.counter + 1, p) !in ev.deletes
    requires forall id :: id in ev.inserts && id.peer == p ==> id.counter <= Seen(b.know, p)
    requires forall d :: d in ev.deletes && d.peer == p ==> d.counter <= Seen(b.know, p)
    requires index < |VisibleOf(b.elems)|
    ensures var t, d := VisibleOf(b.elems)[index], OpId(b.counter + 1, p);
            var ev' := ev.(deletes := ev.deletes[d := t]);
            t in b.elems && StateOk(ev',
                State(b.elems[t := b.elems[t].(deleted := Some(d))], b.counter + 1, b.know[p := b.counter + 1]))
  {
    hide VisibleOf, Full, Live;
    var t, d := VisibleOf(b.elems)[index], OpId(b.counter + 1, p);
    var ev' := ev.(deletes := ev.deletes[d := t]);
    DeleteVisible(b.elems, index, d);
    var st := State(b.elems[t := b.elems[t].(deleted := Some(d))], b.counter + 1, b.know[p := b.counter + 1]);
    assert forall q :: Seen(st.know, q) == if q == p then b.counter + 1 else Seen(b.know, q);
    assert Dated(st.elems) by {
      forall y | y in st.elems ensures DatedAt(st.elems, y) { assert DatedAt(b.elems, y); }
    }
    forall y | y in st.elems ensures HeldOk(ev', st, y) { assert HeldOk(ev, b, y); }
    forall y | y in ev'.inserts ensures InsertKnown(st, y) { assert InsertKnown(b, y); }
    forall x | x in ev'.deletes ensures DeleteKnown(ev', st, x) {
      if x != d { assert DeleteKnown(ev, b, x); }
    }
  }

  /** An operation nobody has seen yet changes no other state's standing. */
  lemma FreshId(net: Net, p: int, q: int, s: State)
    requires NetOk(net) && p in net.replicas && (q, s) in net.past
    ensures var id := OpId(net.replicas[p].counter + 1, p);
            id !in net.events.inserts && id !in net.events.deletes && Seen(s.know, p) < id.counter
                && StateOk(net.events, s)
  {
    assert OwnOk(net, p);
    assert PastOk(net, p, net.replicas[p]) && PastOk(net, q, s);
  }

  lemma OthersMissInsert(ev: Events, s: State, id: OpId, x: Elem)
    requires StateOk(ev, s) && id !in ev.inserts && Seen(s.know, id.peer) < id.counter
    ensures StateOk(ev.(inserts := ev.inserts[id := x]), s)
  {
    var ev' := ev.(inserts := ev.inserts[id := x]);
    forall y | y in s.elems ensures HeldOk(ev', s, y) { assert HeldOk(ev, s, y); }
    assert id !in s.elems;
    forall y | y in ev'.inserts ensures InsertKnown(s, y) {
      if y != id { assert InsertKnown(s, y); }
    }
    forall d | d in ev'.deletes ensures DeleteKnown(ev', s, d) { assert DeleteKnown(ev, s, d); }
  }

  lemma OthersMissDelete(ev: Events, s: State, d: OpId, t: OpId)
    requires StateOk(ev, s) && d !in ev.deletes && Seen(s.know, d.peer) < d.counter
    ensures StateOk(ev.(deletes := ev.deletes[d := t]), s)
  {
    var ev' := ev.(deletes := ev.deletes[d := t]);
    forall y | y in s.elems ensures HeldOk(ev', s, y) { assert HeldOk(ev, s, y); }
    forall x | x in ev'.deletes ensures DeleteKnown(ev', s, x) {
      if x != d { assert DeleteKnown(ev, s, x); }
    }
  }

  lemma {:induction false} AdvanceOpsCovers(e: Elems, c: int, ops: seq<TextOp>)
    requires forall id :: id in e ==> id.counter <= c
    ensures AdvanceOps(e, c, ops) >= c
    ensures forall id :: id in ApplyOps(e, ops) ==> id.counter <= AdvanceOps(e, c, ops)
    decreases |ops|
  {
    if ops != [] {
      AdvanceOpsCovers(JoinOne(e, ops[0].id, ops[0].x), Advance(c, Carried(e, ops[0].id, ops[0].x)), ops[1..]);
    }
  }

  lemma JoinMayPut(net: Net, p: int, q: int, a: State, c: int)
    requires NetOk(net) && p in net.replicas && (q, a) in net.past && c >= net.replicas[p].counter
    requires forall id :: id in Join(net.replicas[p].elems, a.elems) ==> id.counter <= c
    ensures MayPut(net, net.events, p, JoinState(net.replicas[p], a, c))
  {
    var b := net.replicas[p];
    assert OwnOk(net, p);
    assert PastOk(net, p, b) && PastOk(net, q, a);
    JoinStateOk(net.events, b, a, c);
    forall r ensures Seen(KnowJoin(b.know, a.know), r) == if Seen(b.know, r) < Seen(a.know, r) then Seen(a.know, r)
        else Seen(b.know, r) {
      KnowJoinSeen(b.know, a.know, r);
    }
  }

  /** Delivering a delta is a merge with the state it was computed from. */
  lemma DeliverIsMerge(net: Net, p: int, asked: State, vv: VersionVector, q: int, a: State, ops: seq<TextOp>)
    requires NetOk(net) && p in net.replicas && (p, asked) in net.past && (q, a) in net.past
    requires IsVersionVector(asked.elems, vv) && IsDelta(a.elems, vv, ops)
    ensures ApplyOps(net.replicas[p].elems, ops) == Join(net.replicas[p].elems, a.elems)
  {
    assert OwnOk(net, p);
    assert PastOk(net, p, net.replicas[p]) && PastOk(net, p, asked) && PastOk(net, q, a);
    forall r ensures Seen(vv, r) <= Seen(net.replicas[p].know, r) {
      VectorBelowKnowledge(net.events, asked, vv, r);
    }
    DeltaIsMerge(net.events, a, net.replicas[p], vv, ops);
  }

  /** Every step keeps the network sound. */
  lemma StepKeeps(net: Net, s: Step, net': Net)
    requires NetOk(net) && Takes(net, s, net')
    ensures NetOk(net')
  {
    hide NetOk;
    match s
    case Spawn(p) => SpawnKeeps(net, p);
    case Fork(q, p) => ForkKeeps(net, q, p);
    case Insert(p, index, ch) => InsertKeeps(net, p, index, ch);
    case Delete(p, index) => DeleteKeepsNet(net, p, index);
    case Merge(p, src) =>
      var b := net.replicas[p];
      var c :| IsAdvanced(b.elems, src.1.elems, b.counter, c)
               && net' == Put(net, net.events, p, JoinState(b, src.1, c));
      OwnFacts(net, p);
      AdvancedCovers(b.elems, src.1.elems, b.counter, c);
      JoinKeeps(net, p, src.0, src.1, c);
    case Deliver(p, asked, vv, src, ops) =>
      var b := net.replicas[p];
      DeliverIsMerge(net, p, asked, vv, src.0, src.1, ops);
      OwnFacts(net, p);
      AdvanceOpsCovers(b.elems, b.counter, ops);
      JoinKeeps(net, p, src.0, src.1, AdvanceOps(b.elems, b.counter, ops));
  }

  lemma OwnFacts(net: Net, p: int)
    requires NetOk(net) && p in net.replicas
    ensures var st := net.replicas[p];
            && StateOk(net.events, st) && Bounded(net, st) && (p, st) in net.past && Seen(st.know, p) <= st.counter
            && (forall id :: id in st.elems ==> id.counter <= st.counter)
            && (forall id :: id in net.events.inserts && id.peer == p ==> id.counter <= Seen(st.know, p))
            && (forall d :: d in net.events.deletes && d.peer == p ==> d.counter <= Seen(st.know, p))
  {
    assert OwnOk(net, p);
    assert PastOk(net, p, net.replicas[p]);
    assert forall id :: id in net.replicas[p].elems ==> HeldOk(net.events, net.replicas[p], id);
  }

  lemma PastFacts(net: Net, q: int, s: State)
    requires NetOk(net) && (q, s) in net.past
    ensures StateOk(net.events, s)
  {
    assert PastOk(net, q, s);
  }

  lemma JoinKeeps(net: Net, p: int, q: int, a: State, c: int)
    requires NetOk(net) && p in net.replicas && (q, a) in net.past && c >= net.replicas[p].counter
    requires forall id :: id in Join(net.replicas[p].elems, a.elems) ==> id.counter <= c
    ensures NetOk(Put(net, net.events, p, JoinState(net.replicas[p], a, c)))
  {
    hide NetOk, StateOk, MayPut;
    forall q, s | (q, s) in net.past ensures StateOk(net.events, s) { PastFacts(net, q, s); }
    JoinMayPut(net, p, q, a, c);
    PutKeeps(net, net.events, p, JoinState(net.replicas[p], a, c));
  }

  lemma NewcomerMayPut(net: Net, p: int)
    requires NetOk(net) && p !in net.replicas
    ensures MayPut(net, net.events, p, State(map[], 0, map[]))
  {
    var st := State(map[], 0, map[]);
    assert forall q :: Seen(st.know, q) == 0;
    forall id | id in net.events.inserts ensures InsertKnown(st, id) { }
    forall d | d in net.events.deletes ensures DeleteKnown(net.events, st, d) { }
  }

  lemma SpawnKeeps(net: Net, p: int)
    requires NetOk(net) && p !in net.replicas
    ensures NetOk(Put(net, net.events, p, State(map[], 0, map[])))
  {
    hide NetOk, StateOk, MayPut;
    NewcomerMayPut(net, p);
    forall q, s | (q, s) in net.past ensures StateOk(net.events, s) { PastFacts(net, q, s); }
    PutKeeps(net, net.events, p, State(map[], 0, map[]));
  }

  lemma ForkKeeps(net: Net, q: int, p: int)
    requires NetOk(net) && q in net.replicas && p !in net.replicas
    ensures NetOk(Put(net, net.events, p, net.replicas[q]))
  {
    assert OwnOk(net, q);
    assert PastOk(net, q, net.replicas[q]);
    forall r, s | (r, s) in net.past ensures StateOk(net.events, s) { assert PastOk(net, r, s); }
    PutKeeps(net, net.events, p, net.replicas[q]);
  }

  lemma InsertKeeps(net: Net, p: int, index: nat, ch: string)
    requires NetOk(net) && p in net.replicas && ch != ""
    ensures var st := net.replicas[p];
            var id, x := OpId(st.counter + 1, p), Typed(st, p, index, ch);
            NetOk(Put(net, net.events.(inserts := net.events.inserts[id := x]), p,
                      State(st.elems[id := x], st.counter + 1, st.know[p := st.counter + 1])))
  {
    hide NetOk, StateOk;
    var st := net.replicas[p];
    var id, x := OpId(st.counter + 1, p), Typed(st, p, index, ch);
    var ev := net.events.(inserts := net.events.inserts[id := x]);
    var st' := State(st.elems[id := x], st.counter + 1, st.know[p := st.counter + 1]);
    OwnFacts(net, p);
    FreshId(net, p, p, st);
    InsertStateOk(net.events, st, p, index, ch);
    forall q, s | (q, s) in net.past ensures StateOk(ev, s) {
      FreshId(net, p, q, s);
      OthersMissInsert(net.events, s, id, x);
    }
    OwnMayPut(net, ev, p, st');
    hide MayPut;
    PutKeeps(net, ev, p, st');
  }

  /** A replica's own next operation fits its own record. */
  lemma OwnMayPut(net: Net, ev: Events, p: int, st: State)
    requires NetOk(net) && p in net.replicas && StateOk(ev, st)
    requires st.counter == net.replicas[p].counter + 1 && st.know == net.replicas[p].know[p := st.counter]
    requires ev.inserts.Keys <= net.events.inserts.Keys + {OpId(st.counter, p)}
    requires ev.deletes.Keys <= net.events.deletes.Keys + {OpId(st.counter, p)}
    ensures MayPut(net, ev, p, st)
  {
    OwnFacts(net, p);
    assert forall q :: Seen(st.know, q) == if q == p then st.counter else Seen(net.replicas[p].know, q);
  }

  lemma DeleteKeepsNet(net: Net, p: int, index: nat)
    requires NetOk(net) && p in net.replicas && index < |VisibleOf(net.replicas[p].elems)|
    ensures var st := net.replicas[p];
            var t, d := VisibleOf(st.elems)[index], OpId(st.counter + 1, p);
            t in st.elems
            && NetOk(Put(net, net.events.(deletes := net.events.deletes[d := t]), p,
                         State(st.elems[t := st.elems[t].(deleted := Some(d))], st.counter + 1,
                             st.know[p := st.counter + 1])))
  {
    hide NetOk, StateOk;
    var st := net.replicas[p];
    var t, d := VisibleOf(st.elems)[index], OpId(st.counter + 1, p);
    var ev := net.events.(deletes := net.events.deletes[d := t]);
    OwnFacts(net, p);
    FreshId(net, p, p, st);
    DeleteStateOk(net.events, st, p, index);
    var st' := State(st.elems[t := st.elems[t].(deleted := Some(d))], st.counter + 1, st.know[p := st.counter + 1]);
    forall q, s | (q, s) in net.past ensures StateOk(ev, s) {
      FreshId(net, p, q, s);
      OthersMissDelete(net.events, s, d, t);
    }
    OwnMayPut(net, ev, p, st');
    hide MayPut;
    PutKeeps(net, ev, p, st');
  }

  // ── Whole runs ──

  ghost function Empty(): Net {
    Net(Events(map[], map[]), map[], {})
  }

  ghost predicate IsRun(nets: seq<Net>, steps: seq<Step>) {
    && |nets| == |steps| + 1 && nets[0] == Empty()
    && forall i :: 0 <= i < |steps| ==> Takes(nets[i], steps[i], nets[i + 1])
  }

  lemma {:induction false} RunOk(nets: seq<Net>, steps: seq<Step>, i: nat)
    requires IsRun(nets, steps) && i < |nets|
    ensures NetOk(nets[i])
    decreases i
  {
    if i > 0 {
      RunOk(nets, steps, i - 1);
      StepKeeps(nets[i - 1], steps[i - 1], nets[i]);
    }
  }

  /** In every run of distinct-peer replicas, whenever a delta is delivered the receiver ends
      with the elements and the text a merge with the sender's state would have given it; and the delta is one
      the receiver may apply. */
  lemma DeltaSyncTheorem(nets: seq<Net>, steps: seq<Step>, i: nat)
    requires IsRun(nets, steps) && i < |steps| && steps[i].Deliver?
    ensures var p := steps[i].at;
            && p in nets[i].replicas && p in nets[i + 1].replicas
            && var merged := Join(nets[i].replicas[p].elems, steps[i].source.1.elems);
               && nets[i + 1].replicas[p].elems == merged
               && TextOf(nets[i + 1].replicas[p].elems, VisibleOf(nets[i + 1].replicas[p].elems))
                  == TextOf(merged, VisibleOf(merged))
    ensures forall op :: op in steps[i].ops ==> Young(op.id, op.x)
  {
    RunOk(nets, steps, i);
    var s := steps[i];
    assert Takes(nets[i], s, nets[i + 1]);
    DeliverIsMerge(nets[i], s.at, s.asked, s.vv, s.source.0, s.source.1, s.ops);
    PastFacts(nets[i], s.source.0, s.source.1);
    forall op | op in s.ops ensures Young(op.id, op.x) { assert DatedAt(s.source.1.elems, op.id); }
  }
}
