/** Keyed ingress scopes, their bounded receipt log, and what each transition tells the shell. */
module Ingress {
  import opened Options
  import opened IngressScopes
  import opened IngressChanges

  datatype IngressError = TransportClosed | DecodeFailed | AuthorityLost

  datatype Outcome =
    | AcceptedOutcome(through: nat, conflated: bool)
    | DroppedOutcome(reason: DropReason)
    | ErrorOutcome(error: IngressError)

  datatype Receipt<K> = Receipt(offset: nat, key: K, generation: nat, sequence: Option<nat>, outcome: Outcome)

  datatype Admission =
    | AcceptedAt(through: nat)
    | ConflatedAt(through: nat)
    | BufferedAt(gapFrom: nat)
    | GenerationHandoff(from: nat, to: nat)
    | DroppedFor(reason: DropReason)
    | BlockedOut

  datatype ReplayRequest = ReplayRequest(generation: nat, fromSequence: nat)

  datatype Change<K> = Change(scopes: seq<(K, ScopeChange)>, accepted: bool, dropped: bool, errors: bool)

  function Quiet<K>(): Change<K> {
    Change([], false, false, false)
  }

  datatype ConfigError = ConflateNotBounding | ZeroReceiptCapacity

  function Refusal(policy: Policy, conflates: bool): Option<ConfigError> {
    if policy.overflow == Conflate && !conflates then Some(ConflateNotBounding)
    else if policy.receiptCapacity == 0 then Some(ZeroReceiptCapacity)
    else None
  }

  function Lookup<K, T>(scopes: map<K, Scope<T>>, key: K): Option<Scope<T>> {
    if key in scopes then Some(scopes[key]) else None
  }

  /** The readers of every key that moved are marked. */
  ghost predicate Sound<K(!new), T>(change: Change<K>, before: map<K, Scope<T>>, then_: nat,
                                    after: map<K, Scope<T>>, now: nat, policy: Policy) {
    forall key ::
      Covers(Dirty(change.scopes, key), ViewOf(Lookup(before, key), policy, then_),
          ViewOf(Lookup(after, key), policy, now))
  }

  lemma OneKey<K(!new), T>(key: K, c: ScopeChange, change: Change<K>, before: map<K, Scope<T>>, after: map<K, Scope<T>>,
                           now: nat, policy: Policy)
    requires change.scopes == Marks(key, c)
    requires forall k :: k != key ==> Lookup(before, k) == Lookup(after, k)
    ensures Sound(change, before, now, after, now, policy)
            <==> CoversStep(c, Lookup(before, key), Lookup(after, key), policy, now)
  {
    forall k ensures Dirty(change.scopes, k) == if k == key then c else NOTHING { MarksOne(key, c, k); }
  }

  function AdmissionOf(d: Decision, from: nat, to: nat): Admission {
    match d
    case Refuse(reason) => DroppedFor(reason)
    case Blocked => BlockedOut
    case Buffered(gap) => BufferedAt(gap)
    case Delivered(through, conflated, handoff) =>
      if handoff then GenerationHandoff(from, to) else if conflated then ConflatedAt(through) else AcceptedAt(through)
  }

  function OutcomeOf(d: Decision): Outcome
    requires !d.Buffered?
  {
    match d
    case Refuse(reason) => DroppedOutcome(reason)
    case Blocked => DroppedOutcome(Backpressure)
    case Delivered(through, conflated, _) => AcceptedOutcome(through, conflated)
  }

  /** The last `capacity` entries. */
  function Newest<A>(s: seq<A>, capacity: nat): seq<A> {
    if |s| > capacity then s[|s| - capacity..] else s
  }

  /** Receipt offsets are consecutive up to the next one and nothing is evicted early, so a consumer
      can tell eviction from silence. */
  ghost predicate LogOk<K(!new)>(receipts: seq<Receipt<K>>, nextOffset: nat, capacity: nat) {
    && |receipts| == (if nextOffset < capacity then nextOffset else capacity)
    && forall i :: 0 <= i < |receipts| ==> receipts[i].offset == nextOffset - |receipts| + i
  }

  lemma LogGrows<K(!new)>(receipts: seq<Receipt<K>>, nextOffset: nat, capacity: nat, r: Receipt<K>)
    requires LogOk(receipts, nextOffset, capacity) && r.offset == nextOffset && capacity > 0
    ensures LogOk(Newest(receipts + [r], capacity), nextOffset + 1, capacity)
  {
  }

  class IngressCore<K(==, !new), T(!new)> {
    const policy: Policy
    const merge: (T, T) -> T
    var scopes: map<K, Scope<T>>
    var receipts: seq<Receipt<K>>
    var nextOffset: nat
    var now: nat

    ghost predicate Valid()
      reads this
    {
      && policy.receiptCapacity > 0 && LogOk(receipts, nextOffset, policy.receiptCapacity)
      && (forall k :: k in scopes ==> Sane(scopes[k]))
    }

    constructor (policy: Policy, merge: (T, T) -> T, conflates: bool)
      requires Refusal(policy, conflates).None?
      ensures Valid() && this.policy == policy && this.merge == merge
      ensures scopes == map[] && receipts == [] && nextOffset == 0 && now == 0
    {
      this.policy, this.merge := policy, merge;
      scopes, receipts, nextOffset, now := map[], [], 0, 0;
    }

    method PushReceipt(r: Receipt<K>)
      requires Valid()
      modifies this`receipts, this`nextOffset
      ensures Valid() && nextOffset == old(nextOffset) + 1
      ensures receipts == Newest(old(receipts) + [r.(offset := old(nextOffset))], policy.receiptCapacity)
    {
      ghost var all := receipts + [r.(offset := nextOffset)];
      LogGrows(receipts, nextOffset, policy.receiptCapacity, r.(offset := nextOffset));
      receipts := receipts + [r.(offset := nextOffset)];
      nextOffset := nextOffset + 1;
      ghost var gone := 0;
      while |receipts| > policy.receiptCapacity
        invariant nextOffset == old(nextOffset) + 1 && gone <= |all| && receipts == all[gone..]
        invariant gone == 0 || |receipts| >= policy.receiptCapacity
        decreases |receipts|
      {
        assert all[gone..][1..] == all[gone + 1..];
        receipts := receipts[1..];
        gone := gone + 1;
      }
    }

    method Open(key: K, generation: nat) returns (change: Change<K>)
      requires Valid()
      modifies this`scopes
      ensures Valid()
      ensures var b := Lookup(old(scopes), key);
              var s := if b.Some? then Reopened(b.val, generation) else NewScope(generation);
              && scopes == old(scopes)[key := s]
              && change == Change(Marks(key, OpenChange(b, s)), false, false, false)
      ensures Sound(change, old(scopes), now, scopes, now, policy)
              <==> (key in old(scopes) ==> !SilentOpen(old(scopes)[key], generation))
    {
      hide Dirty, Covers, ViewOf, RetryOf, Sane;
      ghost var before := scopes;
      SaneEach(key, generation);
      if key !in scopes {
        scopes := scopes[key := NewScope(generation)];
        change := Change([(key, CREATION)], false, false, false);
        OthersCover(NewScope<T>(0), generation, policy, now);
        OneKey(key, CREATION, change, before, scopes, now, policy);
        return;
      }
      var b := scopes[key];
      var s := b;
      if b.lifecycle == Closed {
        s := NewScope(generation);
      } else {
        s := s.(lifecycle := s.LiveOrOpening());
        if generation > s.generation {
          s := s.(generation := generation, delivered := None, pending := map[]);
        }
      }
      scopes := scopes[key := s];
      change := Quiet();
      if b.lifecycle != s.lifecycle || b.generation != s.generation || b.delivered != s.delivered {
        var sc := ScopeChange(false, b.lifecycle != s.lifecycle, true, false);
        change := change.(scopes := Marks(key, sc));
      }
      OpenCovers(b, generation, policy, now);
      OneKey(key, OpenChange(Some(b), s), change, before, scopes, now, policy);
    }

    /** Stop delivering but keep everything; the request is where a replay resumes. */
    method Suspend(key: K) returns (change: Change<K>, request: Option<ReplayRequest>)
      requires Valid()
      modifies this`scopes
      ensures Valid() && Sound(change, old(scopes), now, scopes, now, policy)
      ensures key !in old(scopes) ==> scopes == old(scopes)
      ensures key in old(scopes) ==> scopes == old(scopes)[key := SuspendedOf(old(scopes)[key])]
      ensures scopes == old(scopes) ==> change == Quiet() && request == None
      ensures scopes != old(scopes) ==>
                && change == Change([(key, READINESS_ONLY)], false, false, false) && key in old(scopes)
                && request == Some(ReplayRequest(old(scopes)[key].generation, old(scopes)[key].NextExpected()))
    {
      hide Dirty, Covers, ViewOf, RetryOf, Sane;
      SaneEach(key, 0);
      change, request := Quiet(), None;
      OneKey(key, NOTHING, change, scopes, scopes, now, policy);
      if key !in scopes { UnknownCovers(key); return; }
      ghost var before := scopes;
      var s := scopes[key];
      OthersCover(s, 0, policy, now);
      if s.lifecycle == Suspended || s.lifecycle == Closed {
        assert scopes == scopes[key := s];
        return;
      }
      scopes := scopes[key := s.(lifecycle := Suspended)];
      request := Some(ReplayRequest(s.generation, s.NextExpected()));
      change := Change([(key, READINESS_ONLY)], false, false, false);
      OneKey(key, READINESS_ONLY, change, before, scopes, now, policy);
      assert scopes[key] != before[key];
    }

    lemma UnknownCovers(key: K)
      requires key !in scopes
      ensures CoversStep(NOTHING, Lookup(scopes, key), Lookup(scopes, key), policy, now)
    {
    }

    lemma SaneEach(key: K, generation: nat)
      requires Valid()
      ensures Sane(NewScope<T>(generation)) && Sane(Reconnected(NewScope<T>(generation), generation))
          && Sane(Failed(NewScope<T>(0)))
      ensures key in scopes ==>
                && Sane(scopes[key]) && Sane(Reopened(scopes[key], generation))
                    && Sane(Reconnected(scopes[key], generation))
                && Sane(SuspendedOf(scopes[key])) && Sane(ClosedOf(scopes[key]))
                && Sane(Failed(scopes[key])) && Sane(Drained(scopes[key]))
    {
    }

    /** Resume at `generation`; a higher one is a new producer and starts from nothing. */
    method Reconnect(key: K, generation: nat) returns (change: Change<K>, request: ReplayRequest)
      requires Valid()
      modifies this`scopes
      ensures Valid()
      ensures var b := if key in old(scopes) then old(scopes)[key] else NewScope(generation);
              && scopes == old(scopes)[key := Reconnected(b, generation)]
              && request == ReplayRequest(scopes[key].generation, scopes[key].NextExpected())
              && change == Change(Marks(key, ReconnectChange(Lookup(old(scopes), key), generation)), false, false,
                  false)
      ensures Sound(change, old(scopes), now, scopes, now, policy)
              <==>
                    !(key in old(scopes) && old(scopes)[key].lifecycle == Closed
                    && generation <= old(scopes)[key].generation)
    {
      hide Dirty, Covers, ViewOf, RetryOf, Sane;
      ghost var before := scopes;
      SaneEach(key, generation);
      var created := key !in scopes;
      var b := if created then NewScope(generation) else scopes[key];
      var s := b;
      var handoff := generation > s.generation;
      if handoff {
        s := s.(generation := generation, delivered := None, pending := map[], window := None, depth := 0);
      }
      s := s.(lifecycle := s.LiveOrOpening());
      s := s.(errors := 0);
      scopes := scopes[key := s];
      request := ReplayRequest(s.generation, s.NextExpected());
      var base := ScopeChange(handoff && b.window.Some?, b.lifecycle != s.lifecycle, handoff, b.errors > 0);
      var marked := if created then base.Unite(CREATION) else base;
      change := Change(Marks(key, marked), false, false, false);
      OthersCover(b, generation, policy, now);
      if !created { ReconnectCovers(b, generation, policy, now); }
      OneKey(key, marked, change, before, scopes, now, policy);
    }

    /** Terminal until reopened: everything held is dropped, the watermark is not. */
    method Close(key: K) returns (change: Change<K>)
      requires Valid()
      modifies this`scopes
      ensures Valid() && Sound(change, old(scopes), now, scopes, now, policy)
      ensures key !in old(scopes) ==> scopes == old(scopes) && change == Quiet()
      ensures key in old(scopes) ==>
                && scopes == old(scopes)[key := ClosedOf(old(scopes)[key])]
                && change == Change(Marks(key, CloseChange(old(scopes)[key])), false, false, false)
    {
      hide Dirty, Covers, ViewOf, RetryOf, Sane;
      SaneEach(key, 0);
      change := Quiet();
      OneKey(key, NOTHING, change, scopes, scopes, now, policy);
      if key !in scopes { UnknownCovers(key); return; }
      ghost var before := scopes;
      var b := scopes[key];
      OthersCover(b, 0, policy, now);
      if b.lifecycle == Closed {
        assert scopes == scopes[key := b];
        return;
      }
      scopes := scopes[key := b.(lifecycle := Closed, pending := map[], window := None, depth := 0, errors := 0)];
      var sc := ScopeChange(b.window.Some?, true, true, b.errors > 0);
      change := Change(Marks(key, sc), false, false, false);
      OneKey(key, sc, change, before, scopes, now, policy);
    }

    /** A transport failure: the streak deepens, up to the counter's width. */
    method Fail(key: K, error: IngressError) returns (change: Change<K>)
      requires Valid()
      modifies this`scopes, this`receipts, this`nextOffset
      ensures Valid() && Sound(change, old(scopes), now, scopes, now, policy)
      ensures var b := if key in old(scopes) then old(scopes)[key] else NewScope(0);
              && scopes == old(scopes)[key := Failed(b)]
              && receipts == Newest(old(receipts) + [Receipt(old(nextOffset), key, b.generation, None,
                  ErrorOutcome(error))],
                                    policy.receiptCapacity)
      ensures change == Change(Marks(key, FailChange(Lookup(old(scopes), key))), false, false, true)
      ensures nextOffset == old(nextOffset) + 1
    {
      hide Dirty, Covers, ViewOf, RetryOf, Sane;
      ghost var before := scopes;
      SaneEach(key, 0);
      var created := key !in scopes;
      var b := if created then NewScope(0) else scopes[key];
      var s := b;
      if s.errors < U32_MAX { s := s.(errors := s.errors + 1); }
      scopes := scopes[key := s];
      var marked := if created then RETRY_ONLY.Unite(CREATION) else RETRY_ONLY;
      change := Change(Marks(key, marked), false, false, true);
      OthersCover(b, 0, policy, now);
      OneKey(key, marked, change, before, scopes, now, policy);
      PushReceipt(Receipt(0, key, s.generation, None, ErrorOutcome(error)));
    }

    /** Hand over the window. The watermark stays where it is. */
    method Drain(key: K) returns (change: Change<K>, value: Option<T>)
      requires Valid()
      modifies this`scopes
      ensures Valid() && Sound(change, old(scopes), now, scopes, now, policy)
      ensures key !in old(scopes) ==> scopes == old(scopes) && change == Quiet() && value == None
      ensures key in old(scopes) ==>
                && value == old(scopes)[key].window && scopes == old(scopes)[key := Drained(old(scopes)[key])]
                && change == (if value.Some? then Change([(key, VALUE_ONLY)], false, false, false) else Quiet())
    {
      hide Dirty, Covers, ViewOf, RetryOf, Sane;
      SaneEach(key, 0);
      change, value := Quiet(), None;
      OneKey(key, NOTHING, change, scopes, scopes, now, policy);
      if key !in scopes { UnknownCovers(key); return; }
      ghost var before := scopes;
      var b := scopes[key];
      OthersCover(b, 0, policy, now);
      if b.window.None? {
        assert scopes == scopes[key := b];
        return;
      }
      value := b.window;
      scopes := scopes[key := b.(window := None, depth := 0)];
      change := Change([(key, VALUE_ONLY)], false, false, false);
      OneKey(key, VALUE_ONLY, change, before, scopes, now, policy);
    }

    /** Move the clock; exactly the scopes whose readiness crossed the horizon are marked. */
    method Tick(time: nat) returns (change: Change<K>)
      requires Valid()
      modifies this`now
      ensures Valid() && now == time
      ensures !change.accepted && !change.dropped && !change.errors
      ensures forall key :: (key, READINESS_ONLY) in change.scopes
                <==> key in scopes
                     && ReadinessOf(scopes[key], policy, old(now)) != ReadinessOf(scopes[key], policy, time)
      ensures forall m :: m in change.scopes ==> m.1 == READINESS_ONLY
      ensures Sound(change, scopes, old(now), scopes, time, policy)
    {
      hide Dirty, RetryOf, Sane, ReadinessOf;
      change := Quiet();
      var before := now;
      if time == now {
        forall key ensures Dirty(change.scopes, key) == NOTHING { MarksOne(key, NOTHING, key); }
        return;
      }
      now := time;
      var rest := scopes.Keys;
      ghost var seen: set<K> := {};
      while rest != {}
        invariant rest + seen == scopes.Keys && rest * seen == {} && now == time
        invariant !change.accepted && !change.dropped && !change.errors
        invariant forall m :: m in change.scopes ==> m.1 == READINESS_ONLY
        invariant forall key :: (key, READINESS_ONLY) in change.scopes
                    <==> key in seen
                         && ReadinessOf(scopes[key], policy, before) != ReadinessOf(scopes[key], policy, time)
        decreases rest
      {
        var key :| key in rest;
        rest := rest - {key};
        seen := seen + {key};
        if ReadinessOf(scopes[key], policy, before) != ReadinessOf(scopes[key], policy, time) {
          change := change.(scopes := change.scopes + [(key, READINESS_ONLY)]);
        }
      }
      forall key | key in scopes && ReadinessOf(scopes[key], policy, before) != ReadinessOf(scopes[key], policy, time)
        ensures Dirty(change.scopes, key).readiness
      {
        assert (key, READINESS_ONLY) in change.scopes;
        DirtyHas(change.scopes, key);
      }
    }

    /** Admit one envelope. A refused first envelope leaves no scope behind. */
    method Admit(key: K, env: Envelope<T>) returns (change: Change<K>, admission: Admission)
      requires Valid()
      modifies this`scopes, this`receipts, this`nextOffset
      ensures Valid()
      ensures var b := if key in old(scopes) then old(scopes)[key] else NewScope(env.generation);
              var (s, d) := Decided(merge, b, policy, now, env);
              && scopes == (if d.Buffered? || d.Delivered? || key in old(scopes) then old(scopes)[key := s]
                  else old(scopes))
              && admission == AdmissionOf(d, b.generation, env.generation)
              && change.scopes == Marks(key, AdmitChange(Lookup(old(scopes), key), s, d))
              && change.accepted == d.Delivered? && change.dropped == (d.Refuse? || d.Blocked?) && !change.errors
              && (d.Buffered? ==> receipts == old(receipts) && nextOffset == old(nextOffset))
              && (!d.Buffered? ==>
                    && nextOffset == old(nextOffset) + 1
                    && receipts == Newest(
                         old(receipts) + [Receipt(old(nextOffset), key, s.generation, Some(env.sequence),
                             OutcomeOf(d))],
                         policy.receiptCapacity))
      ensures change.accepted ==>
                var b := if key in old(scopes) then old(scopes)[key] else NewScope(env.generation);
                && key in scopes && scopes[key].delivered.Some?
                && NewestOf(scopes[key].stampedAt, HandedOff(b, env.generation), env, scopes[key].delivered.val)
      ensures Sound(change, old(scopes), now, scopes, now, policy)
              <==> (key in old(scopes) ==> !SilentHandoff(old(scopes)[key], policy, now, env))
    {
      hide Dirty, Covers, ViewOf, RetryOf, Sane, Decided, SilentHandoff, NewestOf;
      ghost var old_ := scopes;
      SaneEach(key, env.generation);
      var created := key !in scopes;
      var b := if created then NewScope(env.generation) else scopes[key];
      SaneStays(merge, b, policy, now, env, 0);
      var s, d := Decide(merge, b, policy, now, env);
      if created {
        FirstAdmitCovers(merge, policy, now, env);
        FirstKeepsFence(merge, policy, now, env);
      } else {
        AdmitCovers(merge, b, policy, now, env);
      }
      if !created || d.Buffered? || d.Delivered? { scopes := scopes[key := s]; }
      if d.Delivered? { DeliveredStamp(merge, b, policy, now, env); }
      var fence := if key in scopes then scopes[key].generation else env.generation;
      var marked := AdmitChange(if created then None else Some(b), s, d);
      change := Change(Marks(key, marked), d.Delivered?, d.Refuse? || d.Blocked?, false);
      admission := AdmissionOf(d, b.generation, env.generation);
      OneKey(key, marked, change, old_, scopes, now, policy);
      if !d.Buffered? {
        PushReceipt(Receipt(0, key, fence, Some(env.sequence), OutcomeOf(d)));
      }
    }
  }

  lemma FirstKeepsFence<T>(merge: (T, T) -> T, policy: Policy, now: nat, env: Envelope<T>)
    ensures Decided(merge, NewScope(env.generation), policy, now, env).0.generation == env.generation
  {
    hide Batch;
  }

  lemma {:induction false} DirtyHas<K(!new)>(marks: seq<(K, ScopeChange)>, key: K)
    requires (key, READINESS_ONLY) in marks
    ensures Dirty(marks, key).readiness
  {
    if marks[0] != (key, READINESS_ONLY) {
      assert marks == [marks[0]] + marks[1..];
      DirtyHas(marks[1..], key);
    }
  }

  // ── The silent changes are reachable ──

  const PLAIN := Policy(0, 10, 4, Block, 8, 1, 100)

  function Latest(a: int, b: int): int { b }

  /** A value stamped 95 that arrives at time 100 under a horizon of 10 makes its scope ready. */
  method FreshArrival() returns (core: IngressCore<int, int>)
    ensures core.Valid() && core.now == 100 && core.policy == PLAIN && 1 in core.scopes
    ensures ReadinessOf(core.scopes[1], core.policy, core.now) == Ready
    ensures AuthorityOf(core.scopes[1]) == Some(Authority(0, Some(0), 95))
  {
    hide Sound, Sane, Covers, AdmitChange, Decided;
    core := new IngressCore(PLAIN, Latest, false);
    var c0 := core.Tick(100);
    var c1 := core.Open(1, 0);
    FirstArrival(Latest);
    var c2, admission := core.Admit(1, Envelope(0, 0, 95, 5));
  }

  lemma FirstIsAlone(merge: (int, int) -> int)
    ensures Deliver(merge, NewScope(0), Envelope(0, 0, 95, 5)).delivered == Some(0)
  {
    hide FoldInto, NewestStamp, Payloads, Batch;
    RunEndUnique<int>(map[], 1, 1);
  }

  lemma FirstArrival(merge: (int, int) -> int)
    ensures var (s, d) := Decided(merge, NewScope(0), PLAIN, 100, Envelope(0, 0, 95, 5));
            d.Delivered? && AuthorityOf(s) == Some(Authority(0, Some(0), 95)) && ReadinessOf(s, PLAIN, 100) == Ready
  {
    hide Deliver, Batch;
    DeliverStamp(merge, NewScope(0), Envelope(0, 0, 95, 5));
    FirstIsAlone(merge);
  }

  /** A closed scope that is reconnected under its own generation has a new authority nobody is told of. */
  method SilentReconnect()
      returns (core: IngressCore<int, int>, change: Change<int>, ghost before: map<int, Scope<int>>)
    ensures core.Valid() && !Sound(change, before, core.now, core.scopes, core.now, core.policy)
  {
    hide Sound, Sane, Covers;
    core := new IngressCore(PLAIN, Latest, false);
    var c0 := core.Open(1, 0);
    var c1 := core.Close(1);
    before := core.scopes;
    var request;
    change, request := core.Reconnect(1, 0);
  }

  /** A closed scope that failed and is opened again loses its retry unannounced. */
  method SilentReopen() returns (core: IngressCore<int, int>, change: Change<int>, ghost before: map<int, Scope<int>>)
    ensures core.Valid() && !Sound(change, before, core.now, core.scopes, core.now, core.policy)
  {
    hide Sound, Sane, Covers;
    core := new IngressCore(PLAIN, Latest, false);
    var c0 := core.Open(1, 0);
    var c1 := core.Close(1);
    var c2 := core.Fail(1, DecodeFailed);
    before := core.scopes;
    change := core.Open(1, 1);
  }

  /** An envelope of a newer generation that is refused, having arrived out of order, moves the authority all the
      same. */
  method SilentRefusal() returns (core: IngressCore<int, int>, change: Change<int>, ghost before: map<int, Scope<int>>)
    ensures core.Valid() && !Sound(change, before, core.now, core.scopes, core.now, core.policy)
  {
    hide Sound, Sane, Covers, Decided, AdmitChange;
    core := new IngressCore(PLAIN, Latest, false);
    var c0 := core.Open(1, 0);
    before := core.scopes;
    var admission;
    change, admission := core.Admit(1, Envelope(1, 1, 0, 5));
  }
}
