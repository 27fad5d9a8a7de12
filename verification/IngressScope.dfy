/** One ingress scope: what it holds, what a reader sees of it, and the admission decision. */
module IngressScopes {
  import opened Options

  const U64_MAX: nat := 0xFFFF_FFFF_FFFF_FFFF
  const U32_MAX: nat := 0xFFFF_FFFF

  datatype Lifecycle = Opening | Live | Suspended | Closed

  datatype Overflow = Block | DropNewest | DropOldest | Conflate | Spill

  datatype Policy = Policy(
    reorderWindow: nat, freshnessHorizon: nat, highWater: nat, overflow: Overflow,
    receiptCapacity: nat, retryBase: nat, retryCeiling: nat)

  datatype Parked<T> = Parked(payload: T, stamp: nat)

  datatype Scope<T> = Scope(
    lifecycle: Lifecycle, generation: nat, delivered: Option<nat>, stampedAt: nat,
    pending: map<nat, Parked<T>>, window: Option<T>, depth: nat, errors: nat)
  {
    /** The first sequence not yet delivered in order. */
    function NextExpected(): nat {
      if delivered.Some? then delivered.val + 1 else 0
    }

    function LiveOrOpening(): Lifecycle {
      if delivered.Some? then Live else Opening
    }
  }

  function NewScope<T>(generation: nat): Scope<T> {
    Scope(Opening, generation, None, 0, map[], None, 0, 0)
  }

  datatype Envelope<T> = Envelope(generation: nat, sequence: nat, stampedAt: nat, payload: T)

  datatype DropReason =
    | StaleGeneration | DuplicateSequence | DuplicateBuffered | ReorderWindowOverflow
    | Expired | Backpressure | ScopeClosed

  datatype Decision =
    | Refuse(reason: DropReason)
    | Blocked
    | Buffered(gapFrom: nat)
    | Delivered(through: nat, conflated: bool, handoff: bool)

  // ── Folding ──

  function FoldInto<T>(merge: (T, T) -> T, w: Option<T>, xs: seq<T>): Option<T>
    decreases |xs|
  {
    if xs == [] then w
    else FoldInto(merge, Some(if w.Some? then merge(w.val, xs[0]) else xs[0]), xs[1..])
  }

  function Fold<T>(merge: (T, T) -> T, xs: seq<T>): Option<T> {
    FoldInto(merge, None, xs)
  }

  function Payloads<T>(bs: seq<Parked<T>>): (r: seq<T>)
    ensures |r| == |bs| && forall i :: 0 <= i < |bs| ==> r[i] == bs[i].payload
  {
    seq(|bs|, i requires 0 <= i < |bs| => bs[i].payload)
  }

  function NewestStamp<T>(stamp: nat, bs: seq<Parked<T>>): nat
    decreases |bs|
  {
    if bs == [] then stamp
    else NewestStamp(if bs[0].stamp > stamp then bs[0].stamp else stamp, bs[1..])
  }

  lemma {:induction false} FoldIntoSplit<T>(merge: (T, T) -> T, w: Option<T>, xs: seq<T>, ys: seq<T>)
    ensures FoldInto(merge, w, xs + ys) == FoldInto(merge, FoldInto(merge, w, xs), ys)
    decreases |xs|
  {
    if xs == [] {
      assert xs + ys == ys;
    } else {
      assert (xs + ys)[1..] == xs[1..] + ys;
      FoldIntoSplit(merge, Some(if w.Some? then merge(w.val, xs[0]) else xs[0]), xs[1..], ys);
    }
  }

  lemma {:induction false} NewestStampSplit<T>(stamp: nat, xs: seq<Parked<T>>, ys: seq<Parked<T>>)
    ensures NewestStamp(stamp, xs + ys) == NewestStamp(NewestStamp(stamp, xs), ys)
    decreases |xs|
  {
    if xs == [] {
      assert xs + ys == ys;
    } else {
      assert (xs + ys)[1..] == xs[1..] + ys;
      NewestStampSplit(if xs[0].stamp > stamp then xs[0].stamp else stamp, xs[1..], ys);
    }
  }

  function Stamps<T>(bs: seq<Parked<T>>): (r: seq<nat>)
    ensures |r| == |bs| && forall i :: 0 <= i < |bs| ==> r[i] == bs[i].stamp
  {
    seq(|bs|, i requires 0 <= i < |bs| => bs[i].stamp)
  }

  /** `top` is the largest of `floor` and the stamps listed. */
  ghost predicate Largest(top: nat, floor: nat, stamps: seq<nat>) {
    floor <= top && (forall s :: s in stamps ==> s <= top) && (top == floor || top in stamps)
  }

  lemma {:induction false} NewestIsLargest<T>(stamp: nat, bs: seq<Parked<T>>)
    ensures Largest(NewestStamp(stamp, bs), stamp, Stamps(bs))
    decreases |bs|
  {
    if bs != [] {
      NewestIsLargest(if bs[0].stamp > stamp then bs[0].stamp else stamp, bs[1..]);
      assert Stamps(bs) == [bs[0].stamp] + Stamps(bs[1..]);
    }
  }

  // ── The run a delivery unblocks ──

  /** The first sequence from `n` on that is not parked. */
  function RunEnd<T>(pending: map<nat, Parked<T>>, n: nat): nat
    decreases |pending|
  {
    if n in pending then
      assert |(pending - {n}).Keys| < |pending.Keys| by { assert (pending - {n}).Keys == pending.Keys - {n}; }
      RunEnd(pending - {n}, n + 1)
    else n
  }

  lemma {:induction false} RunEndIs<T>(pending: map<nat, Parked<T>>, n: nat)
    ensures n <= RunEnd(pending, n) && RunEnd(pending, n) !in pending
    ensures forall i :: n <= i < RunEnd(pending, n) ==> i in pending
    decreases |pending|
  {
    if n in pending {
      assert |(pending - {n}).Keys| < |pending.Keys| by { assert (pending - {n}).Keys == pending.Keys - {n}; }
      RunEndIs(pending - {n}, n + 1);
      forall i | n <= i < RunEnd(pending, n) ensures i in pending {
        if i > n { assert i in pending - {n}; }
      }
      assert RunEnd(pending, n) !in pending - {n};
    }
  }

  lemma {:induction false} RunEndUnique<T>(pending: map<nat, Parked<T>>, n: nat, e: nat)
    requires n <= e && e !in pending && forall i :: n <= i < e ==> i in pending
    ensures RunEnd(pending, n) == e
  {
    RunEndIs(pending, n);
  }

  function RunOf<T>(pending: map<nat, Parked<T>>, n: nat, e: nat): (r: seq<Parked<T>>)
    requires n <= e && forall i :: n <= i < e ==> i in pending
    ensures |r| == e - n && forall i :: 0 <= i < e - n ==> r[i] == pending[n + i]
  {
    seq(e - n, i requires 0 <= i < e - n => pending[n + i])
  }

  // ── Admission ──

  function HandedOff<T>(sc: Scope<T>, generation: nat): Scope<T> {
    if generation > sc.generation
    then sc.(generation := generation, delivered := None, pending := map[], window := None, depth := 0)
    else sc
  }

  predicate Expired<T>(env: Envelope<T>, policy: Policy, now: nat) {
    now > env.stampedAt && now - env.stampedAt > policy.freshnessHorizon
  }

  /** Past the lifecycle, the fence and the freshness test. */
  predicate Fenced<T>(sc: Scope<T>, env: Envelope<T>, policy: Policy, now: nat) {
    sc.lifecycle != Closed && env.generation >= sc.generation && !Expired(env, policy, now)
  }

  predicate Full<T>(sc: Scope<T>, policy: Policy) {
    sc.depth >= policy.highWater
  }

  /** What an in-order delivery folds in: the envelope, then every parked successor it unblocks. */
  function Batch<T>(sc: Scope<T>, env: Envelope<T>): (r: seq<Parked<T>>)
    ensures |r| == RunEnd(sc.pending, env.sequence + 1) - env.sequence >= 1
        && r[0] == Parked(env.payload, env.stampedAt)
    ensures forall i :: 0 < i < |r| ==> env.sequence + i in sc.pending && r[i] == sc.pending[env.sequence + i]
  {
    RunEndIs(sc.pending, env.sequence + 1);
    [Parked(env.payload, env.stampedAt)]
    + RunOf(sc.pending, env.sequence + 1, RunEnd(sc.pending, env.sequence + 1))
  }

  /** The scope once the sequences `first..through`, parked values `done`, have been merged. */
  function Merged<T>(merge: (T, T) -> T, sc: Scope<T>, first: nat, through: nat, done: seq<Parked<T>>): Scope<T> {
    Scope(Live, sc.generation, Some(through), NewestStamp(sc.stampedAt, done),
          map n | n in sc.pending && !(first < n <= through) :: sc.pending[n],
          FoldInto(merge, sc.window, Payloads(done)), sc.depth + |done|, 0)
  }

  function Deliver<T>(merge: (T, T) -> T, sc: Scope<T>, env: Envelope<T>): Scope<T> {
    RunEndIs(sc.pending, env.sequence + 1);
    Merged(merge, sc, env.sequence, RunEnd(sc.pending, env.sequence + 1) - 1, Batch(sc, env))
  }

  function Decided<T>(merge: (T, T) -> T, sc: Scope<T>, policy: Policy, now: nat, env: Envelope<T>)
    : (Scope<T>, Decision)
  {
    if sc.lifecycle == Closed then (sc, Refuse(ScopeClosed))
    else if env.generation < sc.generation then (sc, Refuse(StaleGeneration))
    else if Expired(env, policy, now) then (sc, Refuse(DropReason.Expired))
    else
      var s := HandedOff(sc, env.generation);
      var next := s.NextExpected();
      if env.sequence < next then (s, Refuse(DuplicateSequence))
      else if env.sequence > next then
        if env.sequence in s.pending then (s, Refuse(DuplicateBuffered))
        else if |s.pending| >= policy.reorderWindow then (s, Refuse(ReorderWindowOverflow))
        else (s.(pending := s.pending[env.sequence := Parked(env.payload, env.stampedAt)]), Buffered(next))
      else if Full(s, policy) && policy.overflow == Block then (s, Blocked)
      else if Full(s, policy) && policy.overflow == DropNewest then (s, Refuse(Backpressure))
      else
        var base := if Full(s, policy) && policy.overflow == DropOldest then s.(window := None, depth := 0) else s;
        var after := Deliver(merge, base, env);
        var conflated := base.window.Some? || |Batch(base, env)| > 1;
        (after, Delivered(after.delivered.val, conflated, env.generation > sc.generation))
  }

  /** Merge one payload into the hot window; whether it met something there. */
  method MergeInto<T>(merge: (T, T) -> T, sc: Scope<T>, payload: T, stampedAt: nat)
      returns (s: Scope<T>, conflated: bool)
    ensures conflated == sc.window.Some?
    ensures s == sc.(
                 window := FoldInto(merge, sc.window, [payload]), depth := sc.depth + 1,
                 stampedAt := NewestStamp(sc.stampedAt, [Parked(payload, stampedAt)]))
  {
    s := sc;
    if s.window.None? {
      s := s.(window := Some(payload));
      conflated := false;
    } else {
      s := s.(window := Some(merge(s.window.val, payload)));
      conflated := true;
    }
    s := s.(depth := s.depth + 1);
    if stampedAt > s.stampedAt { s := s.(stampedAt := stampedAt); }
  }

  lemma BatchStep<T>(merge: (T, T) -> T, w: Option<T>, stamp: nat, done: seq<Parked<T>>, b: Parked<T>)
    ensures FoldInto(merge, w, Payloads(done + [b])) == FoldInto(merge, FoldInto(merge, w, Payloads(done)), [b.payload])
    ensures NewestStamp(stamp, done + [b]) == NewestStamp(NewestStamp(stamp, done), [b])
  {
    assert Payloads(done + [b]) == Payloads(done) + [b.payload];
    FoldIntoSplit(merge, w, Payloads(done), [b.payload]);
    NewestStampSplit(stamp, done, [b]);
  }

  lemma {:induction false} FoldSome<T>(merge: (T, T) -> T, w: Option<T>, xs: seq<T>)
    requires xs != []
    ensures FoldInto(merge, w, xs).Some?
    decreases |xs|
  {
    if |xs| > 1 {
      FoldSome(merge, Some(if w.Some? then merge(w.val, xs[0]) else xs[0]), xs[1..]);
    }
  }

  lemma MergedStep<T>(merge: (T, T) -> T, sc: Scope<T>, first: nat, through: nat, done: seq<Parked<T>>)
    requires through + 1 in sc.pending && first <= through
    ensures var s, b := Merged(merge, sc, first, through, done), sc.pending[through + 1];
            Merged(merge, sc, first, through + 1, done + [b])
            == s.(delivered := Some(through + 1), pending := s.pending - {through + 1},
                  window := FoldInto(merge, s.window, [b.payload]), depth := s.depth + 1,
                  stampedAt := NewestStamp(s.stampedAt, [b]))
  {
    BatchStep(merge, sc.window, sc.stampedAt, done, sc.pending[through + 1]);
    assert (map n | n in sc.pending && !(first < n <= through + 1) :: sc.pending[n])
        == (map n | n in sc.pending && !(first < n <= through) :: sc.pending[n]) - {through + 1};
  }

  lemma MergedAll<T>(merge: (T, T) -> T, sc: Scope<T>, env: Envelope<T>, through: nat, done: seq<Parked<T>>)
    requires Flushing(sc, env, through, done) && through + 1 !in sc.pending
    ensures done == Batch(sc, env) && Merged(merge, sc, env.sequence, through, done) == Deliver(merge, sc, env)
  {
    hide FoldInto, NewestStamp, Payloads, Merged;
    RunEndUnique(sc.pending, env.sequence + 1, through + 1);
    var run := RunOf(sc.pending, env.sequence + 1, through + 1);
    assert done[1..] == run by {
      forall k | 0 <= k < |run| ensures done[1..][k] == run[k] {
        assert done[(env.sequence + 1 + k) - env.sequence] == sc.pending[env.sequence + 1 + k];
      }
    }
    assert done == [done[0]] + done[1..];
    assert done == Batch(sc, env);
  }

  /** `done` is the envelope and the parked run behind it, up to `through`. */
  ghost predicate Flushing<T>(sc: Scope<T>, env: Envelope<T>, through: nat, done: seq<Parked<T>>) {
    && env.sequence <= through && |done| == through - env.sequence + 1
    && done[0] == Parked(env.payload, env.stampedAt)
    && forall i :: env.sequence < i <= through ==> i in sc.pending && done[i - env.sequence] == sc.pending[i]
  }

  lemma MergedFirst<T>(merge: (T, T) -> T, sc: Scope<T>, env: Envelope<T>)
    ensures var b := Parked(env.payload, env.stampedAt);
            && Flushing(sc, env, env.sequence, [b])
            && Merged(merge, sc, env.sequence, env.sequence, [b])
               == sc.(lifecycle := Live, delivered := Some(env.sequence), errors := 0, depth := sc.depth + 1,
                      window := FoldInto(merge, sc.window, [env.payload]), stampedAt := NewestStamp(sc.stampedAt, [b]))
  {
    hide FoldInto, NewestStamp;
    assert Payloads([Parked(env.payload, env.stampedAt)]) == [env.payload];
    assert (map n | n in sc.pending && !(env.sequence < n <= env.sequence) :: sc.pending[n]) == sc.pending;
  }

  lemma MergedMore<T>(merge: (T, T) -> T, sc: Scope<T>, env: Envelope<T>, through: nat, done: seq<Parked<T>>)
    requires Flushing(sc, env, through, done)
    ensures var s := Merged(merge, sc, env.sequence, through, done);
            && s.NextExpected() == through + 1 && (through + 1 in s.pending <==> through + 1 in sc.pending)
            && (through + 1 in s.pending ==>
                  && s.pending[through + 1] == sc.pending[through + 1] && s.window.Some?
                  && |s.pending - {through + 1}| < |s.pending|
                  && Flushing(sc, env, through + 1, done + [s.pending[through + 1]]))
  {
    hide FoldInto, NewestStamp;
    var s := Merged(merge, sc, env.sequence, through, done);
    FoldSome(merge, sc.window, Payloads(done));
    if through + 1 in s.pending {
      assert (s.pending - {through + 1}).Keys == s.pending.Keys - {through + 1};
      assert |(s.pending - {through + 1}).Keys| < |s.pending.Keys|;
    }
  }

  /** Merge an in-order envelope and flush every parked successor, one at a time. */
  method Flush<T>(merge: (T, T) -> T, sc: Scope<T>, env: Envelope<T>)
      returns (s: Scope<T>, through: nat, conflated: bool)
    requires env.sequence == sc.NextExpected()
    ensures s == Deliver(merge, sc, env) && s.delivered == Some(through)
    ensures conflated == (sc.window.Some? || |Batch(sc, env)| > 1)
  {
    hide Deliver, Batch, FoldInto, NewestStamp, Merged, Flushing;
    s, conflated := MergeInto(merge, sc, env.payload, env.stampedAt);
    s := s.(delivered := Some(env.sequence), lifecycle := Live, errors := 0);
    through := env.sequence;
    ghost var done := [Parked(env.payload, env.stampedAt)];
    MergedFirst(merge, sc, env);
    while s.NextExpected() in s.pending
      invariant Flushing(sc, env, through, done) && s == Merged(merge, sc, env.sequence, through, done)
      invariant conflated == (sc.window.Some? || |done| > 1) && |done| > 0
      invariant s.delivered == Some(through)
      decreases |s.pending|
    {
      var next := s.NextExpected();
      var b := s.pending[next];
      MergedMore(merge, sc, env, through, done);
      FlushingFrom(sc, env, through, done);
      MergedStep(merge, sc, env.sequence, through, done);
      s := s.(pending := s.pending - {next});
      var coalesced;
      s, coalesced := MergeInto(merge, s, b.payload, b.stamp);
      conflated := conflated || coalesced;
      s := s.(delivered := Some(next));
      through := next;
      done := done + [b];
    }
    MergedMore(merge, sc, env, through, done);
    FlushingFrom(sc, env, through, done);
    MergedAll(merge, sc, env, through, done);
  }

  lemma FlushingFrom<T>(sc: Scope<T>, env: Envelope<T>, through: nat, done: seq<Parked<T>>)
    requires Flushing(sc, env, through, done)
    ensures env.sequence <= through
  {
  }

  /** The admission algebra, step by step: lifecycle, fence, freshness, handoff, dedupe, ordering,
      backpressure, merge. */
  method Decide<T>(merge: (T, T) -> T, sc: Scope<T>, policy: Policy, now: nat, env: Envelope<T>)
    returns (s: Scope<T>, d: Decision)
    ensures (s, d) == Decided(merge, sc, policy, now, env)
  {
    hide Deliver, Batch;
    s := sc;
    if s.lifecycle == Closed { return s, Refuse(ScopeClosed); }
    if env.generation < s.generation { return s, Refuse(StaleGeneration); }
    var age := if now > env.stampedAt then now - env.stampedAt else 0;
    if age > policy.freshnessHorizon { return s, Refuse(DropReason.Expired); }
    var handoff := false;
    if env.generation > s.generation {
      handoff := true;
      s := s.(generation := env.generation, delivered := None, pending := map[], window := None, depth := 0);
    }
    var expected := s.NextExpected();
    if env.sequence < expected { return s, Refuse(DuplicateSequence); }
    if env.sequence > expected {
      if env.sequence in s.pending { return s, Refuse(DuplicateBuffered); }
      if |s.pending| >= policy.reorderWindow { return s, Refuse(ReorderWindowOverflow); }
      s := s.(pending := s.pending[env.sequence := Parked(env.payload, env.stampedAt)]);
      return s, Buffered(expected);
    }
    if s.depth >= policy.highWater {
      match policy.overflow {
        case Block => return s, Blocked;
        case DropNewest => return s, Refuse(Backpressure);
        case DropOldest => s := s.(window := None, depth := 0);
        case Conflate =>
        case Spill =>
      }
    }
    var through, conflated;
    s, through, conflated := Flush(merge, s, env);
    d := Delivered(through, conflated, handoff);
  }

  /** The scope an envelope meets at its generation: its first missing sequence, what is parked, how deep it is. */
  function Missing<T>(sc: Scope<T>, env: Envelope<T>): nat {
    if env.generation > sc.generation || sc.delivered.None? then 0 else sc.delivered.val + 1
  }

  function Parking<T>(sc: Scope<T>, env: Envelope<T>): set<nat> {
    if env.generation > sc.generation then {} else sc.pending.Keys
  }

  function Depth<T>(sc: Scope<T>, env: Envelope<T>): nat {
    if env.generation > sc.generation then 0 else sc.depth
  }

  predicate Timely<T>(sc: Scope<T>, policy: Policy, now: nat, env: Envelope<T>) {
    sc.lifecycle != Closed && sc.generation <= env.generation && now <= env.stampedAt + policy.freshnessHorizon
  }

  /** When an envelope is taken: it is delivered exactly when the scope is open, its generation not a past one, its
      stamp within the horizon, its sequence the first missing one, and the window not full or the policy not one
      that pushes back; it is parked exactly when it is beyond the first missing one, not parked yet, and the reorder
      window has a place. */
  lemma TakenIff<T>(merge: (T, T) -> T, sc: Scope<T>, policy: Policy, now: nat, env: Envelope<T>)
    ensures var d := Decided(merge, sc, policy, now, env).1;
            && (d.Delivered? <==>
                  && Timely(sc, policy, now, env) && env.sequence == Missing(sc, env)
                  && (Depth(sc, env) < policy.highWater || policy.overflow in {DropOldest, Conflate, Spill}))
            && (d.Buffered? <==>
                  && Timely(sc, policy, now, env) && env.sequence > Missing(sc, env)
                  && env.sequence !in Parking(sc, env) && |Parking(sc, env)| < policy.reorderWindow)
            && (d.Buffered? ==> d.gapFrom == Missing(sc, env))
  {
    hide Deliver, Batch;
    if env.generation <= sc.generation { assert |sc.pending| == |sc.pending.Keys|; }
  }

  /** Why one is not: the first that applies of a closed scope, a past generation, a stale stamp, a sequence delivered
      or parked before, a full reorder window, and a full window under a policy that pushes back. */
  lemma RefusedIff<T>(merge: (T, T) -> T, sc: Scope<T>, policy: Policy, now: nat, env: Envelope<T>)
    ensures var d := Decided(merge, sc, policy, now, env).1;
            var timely := Timely(sc, policy, now, env);
            && (d == Refuse(ScopeClosed) <==> sc.lifecycle == Closed)
            && (d == Refuse(StaleGeneration) <==> sc.lifecycle != Closed && env.generation < sc.generation)
            && (d == Refuse(DropReason.Expired) <==>
                  sc.lifecycle != Closed && env.generation >= sc.generation && !timely)
            && (d == Refuse(DuplicateSequence) <==> timely && env.sequence < Missing(sc, env))
            && (d == Refuse(DuplicateBuffered) <==>
                  timely && env.sequence > Missing(sc, env) && env.sequence in Parking(sc, env))
            && (d == Refuse(ReorderWindowOverflow) <==>
                  && timely && env.sequence > Missing(sc, env) && env.sequence !in Parking(sc, env)
                  && |Parking(sc, env)| >= policy.reorderWindow)
            && (d == Refuse(Backpressure) || d == Blocked <==>
                  && timely && env.sequence == Missing(sc, env) && Depth(sc, env) >= policy.highWater
                  && policy.overflow == if d.Blocked? then Block else DropNewest)
  {
    hide Deliver, Batch;
    if env.generation <= sc.generation { assert |sc.pending| == |sc.pending.Keys|; }
  }

  /** `top` is the newest of the old stamp, the envelope's, and those parked from behind the envelope to `through`. */
  ghost predicate NewestOf<T>(top: nat, sc: Scope<T>, env: Envelope<T>, through: nat) {
    && sc.stampedAt <= top && env.stampedAt <= top
    && (forall n :: env.sequence < n <= through ==> n in sc.pending && sc.pending[n].stamp <= top)
    && (top == sc.stampedAt || top == env.stampedAt
        || exists n :: env.sequence < n <= through && n in sc.pending && sc.pending[n].stamp == top)
  }

  lemma DeliverStamp<T>(merge: (T, T) -> T, sc: Scope<T>, env: Envelope<T>)
    ensures var s := Deliver(merge, sc, env);
            && s.lifecycle == Live && s.generation == sc.generation && s.delivered.Some?
            && NewestOf(s.stampedAt, sc, env, s.delivered.val)
  {
    hide FoldInto, NewestStamp, Payloads, RunEnd;
    var s, run := Deliver(merge, sc, env), Batch(sc, env);
    NewestIsLargest(sc.stampedAt, run);
    assert s.delivered == Some(env.sequence + |run| - 1);
    assert Stamps(run)[0] == env.stampedAt && Stamps(run)[0] in Stamps(run);
    forall n | env.sequence < n <= s.delivered.val ensures n in sc.pending && sc.pending[n].stamp <= s.stampedAt {
      var i := n - env.sequence;
      assert 0 < i < |run| && env.sequence + i == n;
      assert Stamps(run)[i] == run[i].stamp && Stamps(run)[i] in Stamps(run);
      assert env.sequence + i in sc.pending;
    }
    if s.stampedAt != sc.stampedAt {
      var i :| 0 <= i < |run| && Stamps(run)[i] == s.stampedAt;
      if i > 0 {
        assert env.sequence + i in sc.pending && run[i] == sc.pending[env.sequence + i];
      }
    }
  }

  /** What readiness is judged by: after a delivery the stamp is no older than it was, no older than the
      envelope's and than that of any parked successor the envelope unblocked, and it is one of these. */
  lemma DeliveredStamp<T>(merge: (T, T) -> T, sc: Scope<T>, policy: Policy, now: nat, env: Envelope<T>)
    requires Decided(merge, sc, policy, now, env).1.Delivered?
    ensures var s := Decided(merge, sc, policy, now, env).0;
            s.delivered.Some? && NewestOf(s.stampedAt, HandedOff(sc, env.generation), env, s.delivered.val)
  {
    hide Deliver, Batch;
    var h := HandedOff(sc, env.generation);
    DeliverStamp(merge, h, env);
    DeliverStamp(merge, h.(window := None, depth := 0), env);
  }

  // ── The other transitions ──

  function Reopened<T>(sc: Scope<T>, generation: nat): Scope<T> {
    if sc.lifecycle == Closed then NewScope(generation)
    else
      var s := sc.(lifecycle := sc.LiveOrOpening());
      if generation > sc.generation then s.(generation := generation, delivered := None, pending := map[]) else s
  }

  function SuspendedOf<T>(sc: Scope<T>): Scope<T> {
    if sc.lifecycle == Suspended || sc.lifecycle == Closed then sc else sc.(lifecycle := Suspended)
  }

  function Reconnected<T>(sc: Scope<T>, generation: nat): Scope<T> {
    var s := HandedOff(sc, generation);
    s.(lifecycle := s.LiveOrOpening(), errors := 0)
  }

  function ClosedOf<T>(sc: Scope<T>): Scope<T> {
    if sc.lifecycle == Closed then sc
    else sc.(lifecycle := Closed, pending := map[], window := None, depth := 0, errors := 0)
  }

  function Failed<T>(sc: Scope<T>): Scope<T> {
    if sc.errors < U32_MAX then sc.(errors := sc.errors + 1) else sc
  }

  function Drained<T>(sc: Scope<T>): Scope<T> {
    if sc.window.Some? then sc.(window := None, depth := 0) else sc
  }

  // ── What a reader sees ──

  datatype Readiness = Unknown | Warming | Ready | Stale | SuspendedScope | ClosedScope

  datatype Authority = Authority(generation: nat, delivered: Option<nat>, stampedAt: nat)

  datatype Retry = Retry(attempt: nat, backoff: nat, resumeFrom: nat)

  function ReadinessOf<T>(sc: Scope<T>, policy: Policy, now: nat): Readiness {
    match sc.lifecycle
    case Closed => ClosedScope
    case Suspended => SuspendedScope
    case Opening => Warming
    case Live =>
      if sc.delivered.None? then Warming
      else if (if now > sc.stampedAt then now - sc.stampedAt else 0) <= policy.freshnessHorizon then Ready
      else Stale
  }

  function AuthorityOf<T>(sc: Scope<T>): Option<Authority> {
    if sc.lifecycle == Closed then None else Some(Authority(sc.generation, sc.delivered, sc.stampedAt))
  }

  function Pow2(n: nat): nat {
    if n == 0 then 1 else 2 * Pow2(n - 1)
  }

  function Backoff(errors: nat, policy: Policy): nat
    requires errors > 0
  {
    var factor := Pow2(if errors - 1 < 31 then errors - 1 else 31);
    var raw := if policy.retryBase != 0 && factor > U64_MAX / policy.retryBase then U64_MAX
        else policy.retryBase * factor;
    if raw > policy.retryCeiling then policy.retryCeiling else raw
  }

  function RetryOf<T>(sc: Scope<T>, policy: Policy): Option<Retry> {
    if sc.errors == 0 then None else Some(Retry(sc.errors, Backoff(sc.errors, policy), sc.NextExpected()))
  }

  /** The saturating 64-bit backoff is the exact doubling, clamped. */
  lemma BackoffExact(errors: nat, policy: Policy)
    requires errors > 0 && policy.retryCeiling <= U64_MAX
    ensures Backoff(errors, policy)
         == (var exact := policy.retryBase * Pow2(if errors - 1 < 31 then errors - 1 else 31);
             if exact > policy.retryCeiling then policy.retryCeiling else exact)
  {
    var f := Pow2(if errors - 1 < 31 then errors - 1 else 31);
    if policy.retryBase != 0 && f > U64_MAX / policy.retryBase {
      Overflows(f, policy.retryBase);
    }
  }

  lemma {:induction false} Pow2Grows(n: nat, m: nat)
    requires n <= m
    ensures 1 <= Pow2(n) <= Pow2(m)
    decreases m
  {
    if n < m { Pow2Grows(n, m - 1); } else if n > 0 { Pow2Grows(n - 1, m - 1); }
  }

  lemma Scaled(b: nat, f: nat, g: nat)
    requires f <= g
    ensures b * f <= b * g
  {
  }

  /** It never shrinks as errors pile up, and never passes the ceiling. */
  lemma BackoffGrows(errors: nat, policy: Policy)
    requires errors > 0 && policy.retryCeiling <= U64_MAX
    ensures Backoff(errors, policy) <= Backoff(errors + 1, policy) <= policy.retryCeiling
  {
    var n := if errors - 1 < 31 then errors - 1 else 31;
    var m := if errors < 31 then errors else 31;
    BackoffExact(errors, policy);
    BackoffExact(errors + 1, policy);
    Pow2Grows(n, m);
    Scaled(policy.retryBase, Pow2(n), Pow2(m));
  }

  lemma Overflows(f: nat, base: nat)
    requires base > 0 && f > U64_MAX / base
    ensures base * f > U64_MAX
  {
    var q := U64_MAX / base;
    assert U64_MAX == q * base + U64_MAX % base && U64_MAX % base < base;
    assert (q + 1) * base > U64_MAX;
    assert f * base >= (q + 1) * base;
  }
}
