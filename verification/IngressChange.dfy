/** Which readers a transition dirties, and when that is everything that moved. */
module IngressChanges {
  import opened Options
  import opened IngressScopes

  datatype ScopeChange = ScopeChange(value: bool, readiness: bool, authority: bool, retry: bool) {
    predicate Empty() {
      !value && !readiness && !authority && !retry
    }

    function Unite(o: ScopeChange): ScopeChange {
      ScopeChange(value || o.value, readiness || o.readiness, authority || o.authority, retry || o.retry)
    }
  }

  const NOTHING := ScopeChange(false, false, false, false)
  const EVERYTHING := ScopeChange(true, true, true, true)
  const READINESS_ONLY := ScopeChange(false, true, false, false)
  const VALUE_ONLY := ScopeChange(true, false, false, false)
  const RETRY_ONLY := ScopeChange(false, false, false, true)
  const CREATION := ScopeChange(false, true, true, false)

  /** The four readers of one key. */
  datatype View<T> = View(value: Option<T>, readiness: Readiness, authority: Option<Authority>, retry: Option<Retry>)

  function ViewOf<T>(sc: Option<Scope<T>>, policy: Policy, now: nat): View<T> {
    if sc.None? then View(None, Unknown, None, None)
    else View(sc.val.window, ReadinessOf(sc.val, policy, now), AuthorityOf(sc.val), RetryOf(sc.val, policy))
  }

  /** Every reader whose answer moved is marked. */
  ghost predicate Covers<T>(c: ScopeChange, a: View<T>, b: View<T>) {
    && (a.value != b.value ==> c.value) && (a.readiness != b.readiness ==> c.readiness)
    && (a.authority != b.authority ==> c.authority) && (a.retry != b.retry ==> c.retry)
  }

  ghost predicate CoversStep<T>(c: ScopeChange, before: Option<Scope<T>>, after: Option<Scope<T>>, policy: Policy,
      now: nat) {
    Covers(c, ViewOf(before, policy, now), ViewOf(after, policy, now))
  }

  // ── What each transition marks ──

  function OpenChange<T>(before: Option<Scope<T>>, after: Scope<T>): ScopeChange {
    if before.None? then CREATION
    else
      var b := before.val;
      if b.lifecycle != after.lifecycle || b.generation != after.generation || b.delivered != after.delivered
      then ScopeChange(false, b.lifecycle != after.lifecycle, true, false)
      else NOTHING
  }

  function ReconnectChange<T>(before: Option<Scope<T>>, generation: nat): ScopeChange {
    var b := if before.Some? then before.val else NewScope(generation);
    var handoff := generation > b.generation;
    var base := ScopeChange(
      handoff && b.window.Some?, b.lifecycle != Reconnected(b, generation).lifecycle, handoff, b.errors > 0);
    if before.None? then base.Unite(CREATION) else base
  }

  function CloseChange<T>(b: Scope<T>): ScopeChange {
    if b.lifecycle == Closed then NOTHING else ScopeChange(b.window.Some?, true, true, b.errors > 0)
  }

  function FailChange<T>(before: Option<Scope<T>>): ScopeChange {
    if before.None? then RETRY_ONLY.Unite(CREATION) else RETRY_ONLY
  }

  function AdmitChange<T>(before: Option<Scope<T>>, after: Scope<T>, d: Decision): ScopeChange {
    if d.Delivered? then EVERYTHING
    else if d.Buffered? then
      if before.None? then CREATION
      else
        var b := before.val;
        ScopeChange(b.window.Some? != after.window.Some?,
                    b.lifecycle != after.lifecycle || b.delivered.Some? != after.delivered.Some?,
                    b.generation != after.generation || b.delivered != after.delivered,
                    false)
    else NOTHING
  }

  // ── When that is enough ──

  /** A handoff that ends in a refusal, or that parks the envelope while a retry is pending, moves
      readers it does not mark. */
  predicate SilentHandoff<T>(b: Scope<T>, policy: Policy, now: nat, env: Envelope<T>) {
    && Fenced(b, env, policy, now) && env.generation > b.generation
    && (if env.sequence == 0 then policy.highWater == 0 && policy.overflow in {Block, DropNewest}
        else policy.reorderWindow == 0 || (b.errors > 0 && b.delivered.Some?))
  }

  lemma AdmitCovers<T>(merge: (T, T) -> T, b: Scope<T>, policy: Policy, now: nat, env: Envelope<T>)
    ensures var (s, d) := Decided(merge, b, policy, now, env);
            CoversStep(AdmitChange(Some(b), s, d), Some(b), Some(s), policy, now)
            <==> !SilentHandoff(b, policy, now, env)
  {
    hide Deliver, Batch, Backoff;
    var (s, d) := Decided(merge, b, policy, now, env);
    if Fenced(b, env, policy, now) && env.generation > b.generation {
      assert s.generation == env.generation by { DeliverKeepsFence(merge, b, policy, now, env); }
      assert AuthorityOf(b) != AuthorityOf(s);
    }
  }

  lemma DeliverKeepsFence<T>(merge: (T, T) -> T, b: Scope<T>, policy: Policy, now: nat, env: Envelope<T>)
    requires Fenced(b, env, policy, now)
    ensures var s := Decided(merge, b, policy, now, env).0;
            s.generation == env.generation && s.lifecycle != Closed
  {
    hide Batch;
  }

  /** The first envelope of an unknown key either leaves nothing behind or is covered. */
  lemma FirstAdmitCovers<T>(merge: (T, T) -> T, policy: Policy, now: nat, env: Envelope<T>)
    ensures var (s, d) := Decided(merge, NewScope(env.generation), policy, now, env);
            CoversStep(AdmitChange(None, s, d), None, if d.Delivered? || d.Buffered? then Some(s)
                else None, policy, now)
  {
    hide Deliver, Batch;
  }

  /** What every scope of a core satisfies. */
  ghost predicate Sane<T>(sc: Scope<T>) {
    && (sc.lifecycle == Opening ==> sc.delivered.None?)
    && (sc.lifecycle == Closed ==> sc.window.None? && sc.pending == map[])
  }

  lemma SaneStays<T>(merge: (T, T) -> T, sc: Scope<T>, policy: Policy, now: nat, env: Envelope<T>, generation: nat)
    requires Sane(sc)
    ensures Sane(Decided(merge, sc, policy, now, env).0)
    ensures Sane(Reopened(sc, generation)) && Sane(Reconnected(sc, generation)) && Sane(SuspendedOf(sc))
    ensures Sane(ClosedOf(sc)) && Sane(Failed(sc)) && Sane(Drained(sc)) && Sane(NewScope<T>(generation))
  {
    hide Batch;
  }

  /** Reopening a live scope at a newer generation, or one with a pending retry, moves more than it marks. */
  predicate SilentOpen<T>(b: Scope<T>, generation: nat) {
    if b.lifecycle == Closed then b.errors > 0
    else generation > b.generation && b.delivered.Some? && (b.lifecycle == Live || b.errors > 0)
  }

  lemma OpenCovers<T>(b: Scope<T>, generation: nat, policy: Policy, now: nat)
    requires Sane(b)
    ensures CoversStep(OpenChange(Some(b), Reopened(b, generation)), Some(b), Some(Reopened(b, generation)), policy,
        now)
            <==> !SilentOpen(b, generation)
  {
    hide Backoff;
  }

  lemma ReconnectCovers<T>(b: Scope<T>, generation: nat, policy: Policy, now: nat)
    requires Sane(b)
    ensures CoversStep(ReconnectChange(Some(b), generation), Some(b), Some(Reconnected(b, generation)), policy, now)
            <==> !(b.lifecycle == Closed && generation <= b.generation)
  {
    hide Backoff;
  }

  /** These always mark enough. */
  lemma OthersCover<T>(b: Scope<T>, generation: nat, policy: Policy, now: nat)
    ensures CoversStep(CREATION, None, Some(NewScope<T>(generation)), policy, now)
    ensures CoversStep(ReconnectChange<T>(None, generation), None,
        Some(Reconnected(NewScope<T>(generation), generation)), policy, now)
    ensures CoversStep(FailChange<T>(None), None, Some(Failed(NewScope<T>(0))), policy, now)
    ensures CoversStep(FailChange(Some(b)), Some(b), Some(Failed(b)), policy, now)
    ensures CoversStep(CloseChange(b), Some(b), Some(ClosedOf(b)), policy, now)
    ensures CoversStep(if SuspendedOf(b) == b then NOTHING else READINESS_ONLY, Some(b), Some(SuspendedOf(b)),
        policy, now)
    ensures CoversStep(if b.window.Some? then VALUE_ONLY else NOTHING, Some(b), Some(Drained(b)), policy, now)
  {
    hide Backoff;
  }

  // ── When nothing is marked in vain ──

  /** Every reader that is marked moved. */
  ghost predicate Spares<T>(c: ScopeChange, before: Option<Scope<T>>, after: Option<Scope<T>>, policy: Policy,
      now: nat) {
    var a, b := ViewOf(before, policy, now), ViewOf(after, policy, now);
    && (c.value ==> a.value != b.value) && (c.readiness ==> a.readiness != b.readiness)
    && (c.authority ==> a.authority != b.authority) && (c.retry ==> a.retry != b.retry)
  }

  /** A delivery marks all four readers.  An envelope parked under the current generation marks none, and one parked
      by a handoff marks in vain only the readiness of a suspended scope. */
  lemma AdmitSpares<T>(merge: (T, T) -> T, b: Scope<T>, policy: Policy, now: nat, env: Envelope<T>)
    requires Sane(b)
    ensures var (s, d) := Decided(merge, b, policy, now, env);
            var c := AdmitChange(Some(b), s, d);
            && (d.Delivered? ==> c.value && c.readiness && c.authority && c.retry)
            && (d.Buffered? && env.generation <= b.generation ==> c.Empty())
            && (!d.Delivered? ==>
                  (Spares(c, Some(b), Some(s), policy, now)
                   <==> !(d.Buffered? && env.generation > b.generation && b.lifecycle == Suspended
                          && b.delivered.Some?)))
  {
    hide Deliver, Batch, Backoff;
  }

  /** The first envelope of an unknown key marks in vain at most the retry of a delivered one. */
  lemma FirstAdmitSpares<T>(merge: (T, T) -> T, policy: Policy, now: nat, env: Envelope<T>)
    ensures var (s, d) := Decided(merge, NewScope(env.generation), policy, now, env);
            var c := AdmitChange(None, s, d);
            var after := if d.Delivered? || d.Buffered? then Some(s) else None;
            Spares(if d.Delivered? then c.(retry := false) else c, None, after, policy, now)
  {
    hide Batch, Backoff, FoldInto;
    FoldIntoSome(merge, None, Payloads(Batch(NewScope(env.generation), env)));
  }

  lemma {:induction false} FoldIntoSome<T>(merge: (T, T) -> T, w: Option<T>, xs: seq<T>)
    ensures xs != [] || w.Some? ==> FoldInto(merge, w, xs).Some?
    decreases |xs|
  {
    if xs != [] { FoldIntoSome(merge, Some(if w.Some? then merge(w.val, xs[0]) else xs[0]), xs[1..]); }
  }

  /** An open marks in vain if and only if it resumes a suspended scope under its generation, or finds a live one that
      a handoff has left with nothing delivered. */
  lemma OpenSpares<T>(b: Scope<T>, generation: nat, policy: Policy, now: nat)
    requires Sane(b)
    ensures var s := Reopened(b, generation);
            Spares(OpenChange(Some(b), s), Some(b), Some(s), policy, now)
            <==> !(b.lifecycle == Suspended && generation <= b.generation)
                 && !(b.lifecycle == Live && b.delivered.None?)
  {
    hide Backoff;
  }

  /** A reconnect marks in vain if and only if it finds such a live scope. */
  lemma ReconnectSpares<T>(b: Scope<T>, generation: nat, policy: Policy, now: nat)
    requires Sane(b)
    ensures Spares(ReconnectChange(Some(b), generation), Some(b), Some(Reconnected(b, generation)), policy, now)
            <==> !(b.lifecycle == Live && b.delivered.None?)
  {
    hide Backoff;
  }

  /** The rest mark nothing in vain, but for a failure past the last the streak can count. */
  lemma OthersSpare<T>(b: Scope<T>, generation: nat, policy: Policy, now: nat)
    requires Sane(b)
    ensures Spares(CREATION, None, Some(NewScope<T>(generation)), policy, now)
    ensures Spares(ReconnectChange<T>(None, generation), None,
        Some(Reconnected(NewScope<T>(generation), generation)), policy, now)
    ensures Spares(FailChange<T>(None), None, Some(Failed(NewScope<T>(0))), policy, now)
    ensures Spares(FailChange(Some(b)), Some(b), Some(Failed(b)), policy, now) <==> b.errors < U32_MAX
    ensures Spares(CloseChange(b), Some(b), Some(ClosedOf(b)), policy, now)
    ensures Spares(if SuspendedOf(b) == b then NOTHING else READINESS_ONLY, Some(b), Some(SuspendedOf(b)), policy, now)
    ensures Spares(if b.window.Some? then VALUE_ONLY else NOTHING, Some(b), Some(Drained(b)), policy, now)
  {
    hide Backoff;
  }

  /** Marking is a set of readers; several marks for one key add up. */
  function Dirty<K(==)>(scopes: seq<(K, ScopeChange)>, key: K): ScopeChange {
    if scopes == [] then NOTHING
    else
      var rest := Dirty(scopes[1..], key);
      if scopes[0].0 == key then scopes[0].1.Unite(rest) else rest
  }

  function Marks<K>(key: K, c: ScopeChange): seq<(K, ScopeChange)> {
    if c.Empty() then [] else [(key, c)]
  }

  lemma MarksOne<K>(key: K, c: ScopeChange, other: K)
    ensures Dirty(Marks(key, c), other) == if other == key then c else NOTHING
  {
    if !c.Empty() {
      assert Marks(key, c)[1..] == [];
    }
  }
}
