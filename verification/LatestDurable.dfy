/** A keyed publisher of the latest value to a durable sink, with fenced in-flight tokens. */
module LatestDurable {
  import opened Options

  datatype Desired<T> = Desired(epoch: nat, value: T)

  datatype Envelope<K, T> = Envelope(generation: nat, key: K, epoch: nat, value: T)

  datatype State<K, T> = State(desired: Option<Desired<T>>, inflight: Option<Envelope<K, T>>, durable: Option<nat>)

  datatype Upsert = Accepted | Unchanged | AlreadyDurable(through: nat) | StaleEpoch(newest: nat) | EpochConflict

  datatype Claim<K, T> = Claimed(envelope: Envelope<K, T>) | Empty | Busy | StaleClaim(current: nat)

  datatype Ack = Advanced(through: nat) | AckUnchanged(through: nat) | UnknownAck | StaleAck(current: nat)

  datatype Failure = Pending | Superseded | UnknownFailure | StaleFailure(current: nat)

  datatype Reconnection = Moved(requeued: nat, superseded: nat) | Same | StaleReconnect(current: nat)

  // ── What is remembered of the accepted values ──

  /** Everything accepted for one key, oldest first. */
  type History<T> = seq<Desired<T>>

  ghost predicate Rising<T>(h: History<T>) {
    forall i, j :: 0 <= i < j < |h| ==> h[i].epoch < h[j].epoch
  }

  ghost predicate Through(durable: Option<nat>, epoch: nat) {
    durable.Some? && epoch <= durable.val
  }

  /** The newest accepted value is pending, or in flight, or already durable; what is pending is newer
      than what is in flight, and that is newer than what is durable; each carries the value that was
      accepted under its epoch, and a token in flight is of the current generation. */
  ghost predicate KeyOk<K(!new), T(!new)>(key: K, st: State<K, T>, h: History<T>, generation: nat) {
    && Rising(h)
    && (st.desired.Some? ==> h != [] && h[|h| - 1] == st.desired.val && !Through(st.durable, st.desired.val.epoch))
    && (st.inflight.Some? ==>
          && Desired(st.inflight.val.epoch, st.inflight.val.value) in h
          && st.inflight.val.generation == generation && st.inflight.val.key == key
          && !Through(st.durable, st.inflight.val.epoch)
          && (if st.desired.Some? then st.inflight.val.epoch < st.desired.val.epoch
              else h[|h| - 1].epoch == st.inflight.val.epoch))
    && (st.durable.Some? ==> exists i :: 0 <= i < |h| && h[i].epoch == st.durable.val)
    && (st.desired.None? && st.inflight.None? && h != [] ==> st.durable == Some(h[|h| - 1].epoch))
  }

  /** What an offered value is worth, told from the accepted ones alone. */
  ghost function Verdict<T>(h: History<T>, durable: Option<nat>, epoch: nat, value: T): Upsert {
    if Through(durable, epoch) then AlreadyDurable(durable.val)
    else if h == [] || h[|h| - 1].epoch < epoch then Accepted
    else if epoch < h[|h| - 1].epoch then StaleEpoch(h[|h| - 1].epoch)
    else if h[|h| - 1].value == value then Unchanged
    else EpochConflict
  }

  /** An attempt that came to nothing goes back to pending unless something newer is waiting. */
  function Refloated<K, T>(st: State<K, T>): State<K, T> {
    if st.inflight.None? then st
    else if st.desired.Some? && st.desired.val.epoch > st.inflight.val.epoch then st.(inflight := None)
    else st.(inflight := None, desired := Some(Desired(st.inflight.val.epoch, st.inflight.val.value)))
  }

  lemma RefloatedOk<K(!new), T(!new)>(key: K, st: State<K, T>, h: History<T>, generation: nat, next: nat)
    requires KeyOk(key, st, h, generation)
    ensures KeyOk(key, Refloated(st), h, next)
  {
    if st.inflight.Some? && st.desired.None? {
      var d := Desired(st.inflight.val.epoch, st.inflight.val.value);
      var i :| 0 <= i < |h| && h[i] == d;
      assert i == |h| - 1;
    }
  }

  /** An epoch is accepted at most once, so a token's epoch identifies its value. */
  lemma EpochNamesValue<K(!new), T(!new)>(key: K, st: State<K, T>, h: History<T>, generation: nat, d: Desired<T>)
    requires KeyOk(key, st, h, generation) && st.inflight.Some? && d in h && d.epoch == st.inflight.val.epoch
    ensures d.value == st.inflight.val.value
  {
    var i :| 0 <= i < |h| && h[i] == d;
    var j :| 0 <= j < |h| && h[j] == Desired(st.inflight.val.epoch, st.inflight.val.value);
    assert i == j;
  }

  /** The same, told from the key's state. */
  function Judged<K, T(==)>(st: State<K, T>, epoch: nat, value: T): Upsert {
    if st.durable.Some? && epoch <= st.durable.val then AlreadyDurable(st.durable.val)
    else if st.desired.None? && st.inflight.None? then Accepted
    else
      var newest :=
        if st.desired.Some? && (st.inflight.None? || st.inflight.val.epoch <= st.desired.val.epoch)
        then st.desired.val.epoch else st.inflight.val.epoch;
      if epoch < newest then StaleEpoch(newest)
      else if epoch > newest then Accepted
      else
        var retained := if st.desired.Some? && st.desired.val.epoch == epoch then st.desired.val.value
            else st.inflight.val.value;
        if retained == value then Unchanged else EpochConflict
  }

  lemma JudgedIsVerdict<K(!new), T(!new)>(key: K, st: State<K, T>, h: History<T>, generation: nat, epoch: nat, value: T)
    requires KeyOk(key, st, h, generation)
    ensures Judged(st, epoch, value) == Verdict(h, st.durable, epoch, value)
  {
    if st.inflight.Some? && st.desired.None? { LastInflight(key, st, h, generation); }
  }

  /** Once a value is accepted, only a newer epoch is; the same value under the same epoch changes nothing, and
      another value under it is a conflict. */
  lemma OfferedNext<K(!new), T(!new)>(key: K, st: State<K, T>, h: History<T>, generation: nat, epoch: nat, value: T,
      next: nat, other: T)
    requires KeyOk(key, st, h, generation) && Verdict(h, st.durable, epoch, value).Accepted?
    ensures var v := Verdict(h + [Desired(epoch, value)], st.durable, next, other);
            && (v.Accepted? <==> next > epoch)
            && (next == epoch ==> v == if other == value then Unchanged else EpochConflict)
            && (next < epoch ==> v == if Through(st.durable, next) then AlreadyDurable(st.durable.val)
                                     else StaleEpoch(epoch))
  {
  }

  /** Pending is newer than in flight, and in flight is newer than durable. */
  lemma Layered<K(!new), T(!new)>(key: K, st: State<K, T>, h: History<T>, generation: nat)
    requires KeyOk(key, st, h, generation) && st.inflight.Some?
    ensures st.desired.Some? ==> st.inflight.val.epoch < st.desired.val.epoch
    ensures st.durable.Some? ==> st.durable.val < st.inflight.val.epoch
  {
  }

  function Furthest(durable: Option<nat>, epoch: nat): nat {
    if durable.Some? && durable.val > epoch then durable.val else epoch
  }

  function Acknowledged(durable: Option<nat>, epoch: nat): Ack {
    if durable.Some? && epoch <= durable.val then AckUnchanged(Furthest(durable, epoch))
        else Advanced(Furthest(durable, epoch))
  }

  ghost predicate EntriesOk<K(!new), T(!new)>(
    entries: map<K, State<K, T>>, history: map<K, History<T>>, generation: nat)
  {
    && history.Keys == entries.Keys
    && forall k :: k in entries ==> k in history && KeyOk(k, entries[k], history[k], generation)
  }

  lemma Updated<K(!new), T(!new)>(entries: map<K, State<K, T>>, history: map<K, History<T>>, generation: nat,
                                  key: K, st: State<K, T>, h: History<T>)
    requires EntriesOk(entries, history, generation) && KeyOk(key, st, h, generation)
    ensures EntriesOk(entries[key := st], history[key := h], generation)
  {
    hide KeyOk;
    assert history[key := h].Keys == entries[key := st].Keys;
  }

  lemma EntryOk<K(!new), T(!new)>(entries: map<K, State<K, T>>, history: map<K, History<T>>, generation: nat, key: K)
    requires EntriesOk(entries, history, generation) && key in entries
    ensures key in history && KeyOk(key, entries[key], history[key], generation)
  {
  }

  function StateIn<K, T>(entries: map<K, State<K, T>>, key: K): State<K, T> {
    if key in entries then entries[key] else State(None, None, None)
  }

  function HistoryIn<K, T>(history: map<K, History<T>>, key: K): History<T> {
    if key in history then history[key] else []
  }

  ghost predicate SameBut<K(!new), V(!new)>(a: map<K, V>, b: map<K, V>, key: K) {
    forall k :: k != key ==> (k in a <==> k in b) && (k in a ==> a[k] == b[k])
  }

  class Core<K(==, !new), T(==, !new)> {
    var generation: nat
    var entries: map<K, State<K, T>>
    var keys: seq<K>
    ghost var history: map<K, History<T>>

    ghost predicate Valid()
      reads this
    {
      && EntriesOk(entries, history, generation)
      && (forall i, j :: 0 <= i < j < |keys| ==> keys[i] != keys[j])
      && (forall k :: k in keys <==> k in entries)
    }

    function StateOf(key: K): State<K, T>
      reads this
    {
      StateIn(entries, key)
    }

    ghost function HistoryOf(key: K): History<T>
      reads this
    {
      HistoryIn(history, key)
    }

    /** Only `key` is touched, and its frontier never falls. */
    twostate predicate OnlyAt(key: K)
      reads this
    {
      && generation == old(generation)
      && SameBut(old(entries), entries, key) && SameBut(old(history), history, key)
      && (old(StateOf(key)).durable.Some? ==> Through(StateOf(key).durable, old(StateOf(key)).durable.val))
    }

    constructor (generation: nat)
      ensures Valid() && this.generation == generation && entries == map[] && keys == [] && history == map[]
    {
      this.generation, entries, keys, history := generation, map[], [], map[];
    }

    method Ensure(key: K)
      requires Valid()
      modifies this
      ensures Valid() && key in entries && OnlyAt(key)
      ensures StateOf(key) == old(StateOf(key)) && HistoryOf(key) == old(HistoryOf(key))
      ensures keys == if key in old(entries) then old(keys) else old(keys) + [key]
    {
      if key in entries { return; }
      keys := keys + [key];
      Updated(entries, history, generation, key, State(None, None, None), []);
      entries := entries[key := State(None, None, None)];
      history := history[key := []];
    }

    method UpsertDesired(key: K, epoch: nat, value: T) returns (r: Upsert)
      requires Valid()
      modifies this
      ensures Valid() && OnlyAt(key) && key in entries
      ensures r == Verdict(old(HistoryOf(key)), old(StateOf(key)).durable, epoch, value)
      ensures r.Accepted? ==>
                && StateOf(key) == old(StateOf(key)).(desired := Some(Desired(epoch, value)))
                && HistoryOf(key) == old(HistoryOf(key)) + [Desired(epoch, value)]
      ensures !r.Accepted? ==> StateOf(key) == old(StateOf(key)) && HistoryOf(key) == old(HistoryOf(key))
    {
      hide KeyOk, Verdict, Judged, EntriesOk;
      Ensure(key);
      EntryOk(entries, history, generation, key);
      var st := entries[key];
      ghost var h := history[key];
      JudgedIsVerdict(key, st, h, generation, epoch, value);
      r := Judged(st, epoch, value);
      if !r.Accepted? { return; }
      UpsertOk(key, st, h, generation, epoch, value);
      Updated(entries, history, generation, key, st.(desired := Some(Desired(epoch, value))),
          h + [Desired(epoch, value)]);
      entries := entries[key := st.(desired := Some(Desired(epoch, value)))];
      history := history[key := h + [Desired(epoch, value)]];
    }

    /** Take the pending value as a token of the current generation. */
    method ClaimNext(key: K, g: nat) returns (r: Claim<K, T>)
      requires Valid()
      modifies this
      ensures Valid() && OnlyAt(key) && history == old(history)
      ensures var st := old(StateOf(key));
              if g != generation then r == StaleClaim(generation) && entries == old(entries)
              else if st.inflight.Some? then r == Busy && entries == old(entries)
              else if st.desired.None? then r == Empty && entries == old(entries)
              else
                && r == Claimed(Envelope(generation, key, st.desired.val.epoch, st.desired.val.value))
                && entries == old(entries)[key := st.(desired := None, inflight := Some(r.envelope))]
    {
      hide KeyOk, EntriesOk;
      if g != generation { return StaleClaim(generation); }
      if key !in entries { return Empty; }
      EntryOk(entries, history, generation, key);
      var st := entries[key];
      if st.inflight.Some? { return Busy; }
      if st.desired.None? { return Empty; }
      var env := Envelope(g, key, st.desired.val.epoch, st.desired.val.value);
      ClaimOk(key, st, history[key], generation);
      Updated(entries, history, generation, key, st.(desired := None, inflight := Some(env)), history[key]);
      assert history[key := history[key]] == history;
      entries := entries[key := st.(desired := None, inflight := Some(env))];
      r := Claimed(env);
    }

    /** The sink applied the token; a stale or repeated acknowledgement changes nothing. */
    method AckApplied(key: K, g: nat, epoch: nat) returns (r: Ack)
      requires Valid()
      modifies this
      ensures Valid() && OnlyAt(key) && history == old(history)
      ensures var st := old(StateOf(key));
              if g != generation then r == StaleAck(generation) && entries == old(entries)
              else if st.inflight.Some? && st.inflight.val.epoch == epoch then
                r == Advanced(epoch) && entries == old(entries)[key := st.(inflight := None, durable := Some(epoch))]
              else
                && entries == old(entries)
                && r == if Through(st.durable, epoch) then AckUnchanged(st.durable.val) else UnknownAck
    {
      hide KeyOk, EntriesOk;
      if g != generation { return StaleAck(generation); }
      if key !in entries || entries[key].inflight.None? || entries[key].inflight.val.epoch != epoch {
        var durable := if key in entries then entries[key].durable else None;
        return if durable.Some? && epoch <= durable.val then AckUnchanged(durable.val) else UnknownAck;
      }
      EntryOk(entries, history, generation, key);
      var st := entries[key];
      ghost var h := history[key];
      Layered(key, st, h, generation);
      AckOk(key, st, h, generation);
      Updated(entries, history, generation, key, st.(inflight := None, durable := Some(epoch)), h);
      assert history[key := h] == history;
      entries := entries[key := st.(inflight := None, durable := Some(Furthest(st.durable, epoch)))];
      r := Acknowledged(st.durable, epoch);
    }

    method FailRetryable(key: K, g: nat, epoch: nat) returns (r: Failure)
      requires Valid()
      modifies this
      ensures Valid() && OnlyAt(key) && history == old(history)
      ensures var st := old(StateOf(key));
              if g != generation then r == StaleFailure(generation) && entries == old(entries)
              else if st.inflight.Some? && st.inflight.val.epoch == epoch then
                && entries == old(entries)[key := Refloated(st)]
                && r == if st.desired.Some? then Superseded else Pending
              else r == UnknownFailure && entries == old(entries)
    {
      hide KeyOk, EntriesOk;
      if g != generation { return StaleFailure(generation); }
      if key !in entries || entries[key].inflight.None? || entries[key].inflight.val.epoch != epoch {
        return UnknownFailure;
      }
      EntryOk(entries, history, generation, key);
      var st := entries[key];
      Layered(key, st, history[key], generation);
      RefloatedOk(key, st, history[key], generation, generation);
      Updated(entries, history, generation, key, Refloated(st), history[key]);
      assert history[key := history[key]] == history;
      var failed := st.inflight.val;
      st := st.(inflight := None);
      if st.desired.Some? && st.desired.val.epoch > failed.epoch {
        entries := entries[key := st];
        return Superseded;
      }
      entries := entries[key := st.(desired := Some(Desired(failed.epoch, failed.value)))];
      r := Pending;
    }

    /** A new generation takes every token back; a token of an older one is worthless afterwards. */
    method Reconnect(g: nat) returns (r: Reconnection)
      requires Valid()
      modifies this
      ensures Valid() && history == old(history) && keys == old(keys)
      ensures g < old(generation) ==>
            r == StaleReconnect(generation) && generation == old(generation) && entries == old(entries)
      ensures g == old(generation) ==> r == Same && generation == old(generation) && entries == old(entries)
      ensures g > old(generation) ==>
                && generation == g && entries == (map k | k in old(entries) :: Refloated(old(entries)[k]))
                && r == Moved(|Requeued(old(entries))|, |Replaced(old(entries))|)
    {
      hide KeyOk, EntriesOk;
      if g < generation { return StaleReconnect(generation); }
      if g == generation { return Same; }
      ghost var was := entries;
      var after, requeued, superseded := TakeBack(entries, history, generation);
      AllRefloated(was, history, generation, g, after);
      entries := after;
      generation := g;
      r := Moved(requeued, superseded);
    }
  }

  /** The keys whose token goes back to pending, and those whose token something newer replaces. */
  ghost function Requeued<K(!new), T>(was: map<K, State<K, T>>): set<K> {
    set k | k in was && was[k].inflight.Some? && was[k].desired.None?
  }

  ghost function Replaced<K(!new), T>(was: map<K, State<K, T>>): set<K> {
    set k | k in was && was[k].inflight.Some? && was[k].desired.Some?
  }

  lemma Sorted<K(!new), T(!new)>(was: map<K, State<K, T>>)
    ensures forall k :: k in was ==> (k in Requeued(was) <==> was[k].inflight.Some? && was[k].desired.None?)
    ensures forall k :: k in was ==> (k in Replaced(was) <==> was[k].inflight.Some? && was[k].desired.Some?)
    ensures Requeued(was) <= was.Keys && Replaced(was) <= was.Keys
  {
  }

  lemma CountOne<K>(s: set<K>, left: set<K>, k: K)
    requires k in left
    ensures |s - (left - {k})| == |s - left| + if k in s then 1 else 0
  {
    assert s - (left - {k}) == if k in s then s - left + {k} else s - left;
  }

  ghost predicate Partway<K(!new), T(!new)>(was: map<K, State<K, T>>, after: map<K, State<K, T>>, rest: set<K>) {
    && after.Keys == was.Keys && rest <= was.Keys
    && forall k :: k in was ==> after[k] == if k in rest then was[k] else Refloated(was[k])
  }

  lemma OneFurther<K(!new), T(!new)>(was: map<K, State<K, T>>, after: map<K, State<K, T>>, rest: set<K>, k: K)
    requires Partway(was, after, rest) && k in rest
    ensures k in was && k in after && after[k] == was[k] && Partway(was, after[k := Refloated(was[k])], rest - {k})
  {
    assert after[k := Refloated(was[k])].Keys == after.Keys + {k};
  }

  /** One key's token, on reconnect. */
  method TakeOne<K(!new), T(!new)>(key: K, was: State<K, T>, ghost h: History<T>, ghost generation: nat)
    returns (st: State<K, T>, back: bool, dropped: bool)
    requires KeyOk(key, was, h, generation)
    ensures st == Refloated(was)
    ensures back == (was.inflight.Some? && was.desired.None?) && dropped == (was.inflight.Some? && was.desired.Some?)
  {
    hide KeyOk;
    st, back, dropped := was, false, false;
    if st.inflight.None? { return; }
    Layered(key, was, h, generation);
    var flight := st.inflight.val;
    st := st.(inflight := None);
    if st.desired.Some? && st.desired.val.epoch > flight.epoch {
      dropped := true;
    } else {
      st := st.(desired := Some(Desired(flight.epoch, flight.value)));
      back := true;
    }
  }

  method TakeBack<K(==, !new), T(!new)>(
      was: map<K, State<K, T>>, ghost history: map<K, History<T>>, ghost generation: nat)
    returns (after: map<K, State<K, T>>, requeued: nat, superseded: nat)
    requires EntriesOk(was, history, generation)
    ensures after.Keys == was.Keys && forall k :: k in was ==> after[k] == Refloated(was[k])
    ensures requeued == |Requeued(was)| && superseded == |Replaced(was)|
  {
    hide KeyOk, EntriesOk, Requeued, Replaced, Partway, Refloated;
    Sorted(was);
    after, requeued, superseded := was, 0, 0;
    var rest := was.Keys;
    assert Requeued(was) - rest == {} && Replaced(was) - rest == {};
    StartsWhole(was);
    while rest != {}
      invariant Partway(was, after, rest)
      invariant requeued == |Requeued(was) - rest| && superseded == |Replaced(was) - rest|
      decreases rest
    {
      var k :| k in rest;
      CountOne(Requeued(was), rest, k);
      CountOne(Replaced(was), rest, k);
      OneFurther(was, after, rest, k);
      rest := rest - {k};
      EntryOk(was, history, generation, k);
      var st, back, dropped := TakeOne(k, after[k], history[k], generation);
      if back { requeued := requeued + 1; }
      if dropped { superseded := superseded + 1; }
      after := after[k := st];
    }
    assert Requeued(was) - rest == Requeued(was) && Replaced(was) - rest == Replaced(was);
    EndsWhole(was, after);
  }

  lemma StartsWhole<K(!new), T(!new)>(was: map<K, State<K, T>>)
    ensures Partway(was, was, was.Keys)
  {
  }

  lemma EndsWhole<K(!new), T(!new)>(was: map<K, State<K, T>>, after: map<K, State<K, T>>)
    requires Partway(was, after, {})
    ensures after.Keys == was.Keys && forall k :: k in was ==> after[k] == Refloated(was[k])
  {
  }

  lemma LastInflight<K(!new), T(!new)>(key: K, st: State<K, T>, h: History<T>, generation: nat)
    requires KeyOk(key, st, h, generation) && st.inflight.Some? && st.desired.None?
    ensures h[|h| - 1] == Desired(st.inflight.val.epoch, st.inflight.val.value)
  {
    var i :| 0 <= i < |h| && h[i] == Desired(st.inflight.val.epoch, st.inflight.val.value);
  }

  lemma AllRefloated<K(!new), T(!new)>(was: map<K, State<K, T>>, history: map<K, History<T>>, generation: nat, g: nat,
                                       entries: map<K, State<K, T>>)
    requires EntriesOk(was, history, generation) && entries.Keys == was.Keys
    requires forall k :: k in was ==> entries[k] == Refloated(was[k])
    ensures EntriesOk(entries, history, g)
  {
    hide KeyOk;
    forall k | k in entries ensures k in history && KeyOk(k, entries[k], history[k], g) {
      assert k in entries.Keys;
      RefloatedOk(k, was[k], history[k], generation, g);
    }
  }

  lemma ClaimOk<K(!new), T(!new)>(key: K, st: State<K, T>, h: History<T>, generation: nat)
    requires KeyOk(key, st, h, generation) && st.desired.Some? && st.inflight.None?
    ensures KeyOk(key, st.(desired := None,
        inflight := Some(Envelope(generation, key, st.desired.val.epoch, st.desired.val.value))),
                  h, generation)
  {
  }

  lemma UpsertOk<K(!new), T(!new)>(key: K, st: State<K, T>, h: History<T>, generation: nat, epoch: nat, value: T)
    requires KeyOk(key, st, h, generation) && Verdict(h, st.durable, epoch, value).Accepted?
    ensures KeyOk(key, st.(desired := Some(Desired(epoch, value))), h + [Desired(epoch, value)], generation)
  {
    var h' := h + [Desired(epoch, value)];
    if st.inflight.Some? {
      var i :| 0 <= i < |h| && h[i] == Desired(st.inflight.val.epoch, st.inflight.val.value);
      assert h'[i] == h[i];
    }
    if st.durable.Some? {
      var i :| 0 <= i < |h| && h[i].epoch == st.durable.val;
      assert h'[i] == h[i];
    }
  }

  lemma AckOk<K(!new), T(!new)>(key: K, st: State<K, T>, h: History<T>, generation: nat)
    requires KeyOk(key, st, h, generation) && st.inflight.Some?
    ensures KeyOk(key, st.(inflight := None, durable := Some(st.inflight.val.epoch)), h, generation)
  {
    var i :| 0 <= i < |h| && h[i] == Desired(st.inflight.val.epoch, st.inflight.val.value);
  }
}
