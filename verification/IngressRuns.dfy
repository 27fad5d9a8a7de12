/** Every schedule of one ingress scope: what was drained plus what is still in the window is the
    in-order fold, however the envelopes arrived. */
module IngressRuns {
  import opened Options
  import opened IngressScopes

  datatype Event<T> =
    | Admit(env: Envelope<T>)
    | Drain
    | Suspend
    | Reconnect(generation: nat)
    | Open(generation: nat)
    | Close
    | Fail
    | Tick(now: nat)

  /** A scope together with the record of its current generation: the values drained so far, the
      payloads delivered so far, and whether any accumulated value was thrown away. */
  datatype World<T> = World(scope: Scope<T>, now: nat, drained: seq<T>, taken: seq<T>, lost: bool)

  function WindowSeq<T>(sc: Scope<T>): seq<T> {
    if sc.window.Some? then [sc.window.val] else []
  }

  function Next<T>(merge: (T, T) -> T, policy: Policy, w: World<T>, ev: Event<T>): World<T> {
    var sc := w.scope;
    match ev
    case Admit(env) =>
      var (s, d) := Decided(merge, sc, policy, w.now, env);
      var anew := Fenced(sc, env, policy, w.now) && env.generation > sc.generation;
      var u := if anew then World(s, w.now, [], [], false) else w.(scope := s);
      if d.Delivered? then
        var h := HandedOff(sc, env.generation);
        u.(taken := u.taken + Payloads(Batch(h, env)),
           lost := u.lost || (Full(h, policy) && policy.overflow == DropOldest && h.window.Some?))
      else u
    case Drain => w.(scope := Drained(sc), drained := w.drained + WindowSeq(sc))
    case Suspend => w.(scope := SuspendedOf(sc))
    case Reconnect(g) =>
      var s := Reconnected(sc, g);
      if g > sc.generation then World(s, w.now, [], [], false) else w.(scope := s)
    case Open(g) =>
      var s := Reopened(sc, g);
      if sc.lifecycle == Closed then World(s, w.now, [], [], false)
      else if g > sc.generation then World(s, w.now, [], [], sc.window.Some?)
      else w.(scope := s)
    case Close => w.(scope := ClosedOf(sc), lost := w.lost || (sc.lifecycle != Closed && sc.window.Some?))
    case Fail => w.(scope := Failed(sc))
    case Tick(now) => w.(now := now)
  }

  function Run<T>(merge: (T, T) -> T, policy: Policy, generation: nat, now: nat, evs: seq<Event<T>>): World<T>
    decreases |evs|
  {
    if evs == [] then World(NewScope(generation), now, [], [], false)
    else Next(merge, policy, Run(merge, policy, generation, now, evs[..|evs| - 1]), evs[|evs| - 1])
  }

  // ── Associative folds ──

  ghost predicate Associative<T(!new)>(merge: (T, T) -> T) {
    forall a, b, c :: merge(merge(a, b), c) == merge(a, merge(b, c))
  }

  function Combine<T>(merge: (T, T) -> T, a: Option<T>, b: Option<T>): Option<T> {
    if a.None? then b else if b.None? then a else Some(merge(a.val, b.val))
  }

  lemma {:induction false} FoldIntoIsCombine<T(!new)>(merge: (T, T) -> T, w: Option<T>, xs: seq<T>)
    requires Associative(merge)
    ensures FoldInto(merge, w, xs) == Combine(merge, w, Fold(merge, xs))
    decreases |xs|
  {
    if xs != [] {
      var x := Some(if w.Some? then merge(w.val, xs[0]) else xs[0]);
      FoldIntoIsCombine(merge, x, xs[1..]);
      FoldIntoIsCombine(merge, Some(xs[0]), xs[1..]);
      assert Fold(merge, xs) == FoldInto(merge, Some(xs[0]), xs[1..]);
    }
  }

  lemma FoldConcat<T(!new)>(merge: (T, T) -> T, xs: seq<T>, ys: seq<T>)
    requires Associative(merge)
    ensures Fold(merge, xs + ys) == Combine(merge, Fold(merge, xs), Fold(merge, ys))
  {
    FoldIntoSplit(merge, None, xs, ys);
    FoldIntoIsCombine(merge, Fold(merge, xs), ys);
  }

  lemma CombineAssociates<T(!new)>(merge: (T, T) -> T, a: Option<T>, b: Option<T>, c: Option<T>)
    requires Associative(merge)
    ensures Combine(merge, Combine(merge, a, b), c) == Combine(merge, a, Combine(merge, b, c))
  {
  }

  function FoldOfWindow<T>(merge: (T, T) -> T, drained: seq<T>, window: Option<T>): Option<T> {
    Fold(merge, drained + (if window.Some? then [window.val] else []))
  }

  lemma WindowCombines<T(!new)>(merge: (T, T) -> T, drained: seq<T>, window: Option<T>)
    requires Associative(merge)
    ensures FoldOfWindow(merge, drained, window) == Combine(merge, Fold(merge, drained), window)
  {
    if window.Some? {
      FoldConcat(merge, drained, [window.val]);
      assert [window.val][1..] == [];
      assert FoldInto(merge, window, [window.val][1..]) == window;
      assert Fold(merge, [window.val]) == window;
    } else {
      assert drained + [] == drained;
    }
  }

  /** Folding a batch into the window is folding it onto everything delivered. */
  lemma BatchFolds<T(!new)>(merge: (T, T) -> T, drained: seq<T>, window: Option<T>, taken: seq<T>, batch: seq<T>)
    requires Associative(merge) && FoldOfWindow(merge, drained, window) == Fold(merge, taken)
    ensures FoldOfWindow(merge, drained, FoldInto(merge, window, batch)) == Fold(merge, taken + batch)
  {
    var after := FoldInto(merge, window, batch);
    WindowCombines(merge, drained, window);
    WindowCombines(merge, drained, after);
    FoldIntoIsCombine(merge, window, batch);
    FoldConcat(merge, taken, batch);
    CombineAssociates(merge, Fold(merge, drained), window, Fold(merge, batch));
  }

  // ── The invariant ──

  function DepthBound(policy: Policy): nat {
    (if policy.highWater > 1 then policy.highWater else 1) + policy.reorderWindow
  }

  /** The parked envelopes lie beyond the gap and within the reorder window, and the window's depth
      tells whether it holds anything. */
  ghost predicate ScopeOk<T>(sc: Scope<T>, policy: Policy) {
    && (forall n :: n in sc.pending ==> sc.NextExpected() < n)
    && |sc.pending| <= policy.reorderWindow
    && (sc.window.Some? <==> sc.depth > 0)
    && (policy.overflow in {Block, DropNewest, DropOldest} ==> sc.depth <= DepthBound(policy))
  }

  /** Payloads are what the producer of this generation sent under each sequence. */
  ghost predicate Genuine<T>(src: (nat, nat) -> T, w: World<T>) {
    && |w.taken| == w.scope.NextExpected()
    && (forall i :: 0 <= i < |w.taken| ==> w.taken[i] == src(w.scope.generation, i))
    && (forall n :: n in w.scope.pending ==> w.scope.pending[n].payload == src(w.scope.generation, n))
  }

  ghost predicate Conserved<T>(merge: (T, T) -> T, w: World<T>) {
    !w.lost ==> FoldOfWindow(merge, w.drained, w.scope.window) == Fold(merge, w.taken)
  }

  ghost predicate Honest<T>(src: (nat, nat) -> T, evs: seq<Event<T>>) {
    forall i :: 0 <= i < |evs| && evs[i].Admit? ==>
      evs[i].env.payload == src(evs[i].env.generation, evs[i].env.sequence)
  }

  lemma {:induction false} RunIsShort<T>(pending: map<nat, Parked<T>>, n: nat)
    ensures RunEnd(pending, n) - n <= |pending|
    decreases |pending|
  {
    if n in pending {
      assert |(pending - {n}).Keys| == |pending.Keys| - 1 by { assert (pending - {n}).Keys == pending.Keys - {n}; }
      RunIsShort(pending - {n}, n + 1);
    }
  }

  lemma FoldSome<T>(merge: (T, T) -> T, sc: Scope<T>, env: Envelope<T>)
    ensures Deliver(merge, sc, env).window.Some?
  {
    IngressScopes.FoldSome(merge, sc.window, Payloads(Batch(sc, env)));
  }

  /** The scope an in-order delivery starts from, once the overflow policy has had its say. */
  function Relieved<T>(sc: Scope<T>, policy: Policy): Scope<T> {
    if Full(sc, policy) && policy.overflow == DropOldest then sc.(window := None, depth := 0) else sc
  }

  lemma DeliverOk<T>(merge: (T, T) -> T, policy: Policy, sc: Scope<T>, env: Envelope<T>)
    requires ScopeOk(sc, policy) && env.sequence == sc.NextExpected()
    requires Full(sc, policy) ==> policy.overflow != Block && policy.overflow != DropNewest
    ensures ScopeOk(Deliver(merge, Relieved(sc, policy), env), policy)
    ensures Deliver(merge, Relieved(sc, policy), env).NextExpected() == sc.NextExpected() + |Batch(sc, env)|
  {
    hide FoldInto, NewestStamp, Payloads, RunEnd, Batch;
    var base := Relieved(sc, policy);
    var s := Deliver(merge, base, env);
    var e := RunEnd(sc.pending, env.sequence + 1);
    RunEndIs(sc.pending, env.sequence + 1);
    RunIsShort(sc.pending, env.sequence + 1);
    FoldSome(merge, base, env);
    assert s.pending.Keys <= sc.pending.Keys;
    Cardinality(s.pending.Keys, sc.pending.Keys);
    forall n | n in s.pending ensures s.NextExpected() < n {
      assert n in sc.pending && n >= e;
    }
  }

  lemma {:induction false} Cardinality(a: set<nat>, b: set<nat>)
    requires a <= b
    ensures |a| <= |b|
  {
    if a != {} {
      var x :| x in a;
      Cardinality(a - {x}, b - {x});
    }
  }

  lemma AdmitOk<T>(merge: (T, T) -> T, policy: Policy, sc: Scope<T>, now: nat, env: Envelope<T>)
    requires ScopeOk(sc, policy) && Fenced(sc, env, policy, now)
    ensures ScopeOk(Decided(merge, sc, policy, now, env).0, policy)
  {
    hide Deliver, Batch, DepthBound;
    var h := HandedOff(sc, env.generation);
    assert ScopeOk(h, policy);
    if InOrder(h, policy, env) {
      DeliverOk(merge, policy, h, env);
    } else if env.sequence > h.NextExpected() {
      AddOne(h.pending.Keys, env.sequence);
      assert h.pending[env.sequence := Parked(env.payload, env.stampedAt)].Keys == h.pending.Keys + {env.sequence};
    }
  }

  lemma ScopeStays<T>(merge: (T, T) -> T, policy: Policy, w: World<T>, ev: Event<T>)
    requires ScopeOk(w.scope, policy)
    ensures ScopeOk(Next(merge, policy, w, ev).scope, policy)
  {
    hide Decided, Batch;
    if ev.Admit? {
      if Fenced(w.scope, ev.env, policy, w.now) {
        AdmitOk(merge, policy, w.scope, w.now, ev.env);
      } else {
        RefusedStays(merge, policy, w.scope, w.now, ev.env);
      }
    }
  }

  lemma RefusedStays<T>(merge: (T, T) -> T, policy: Policy, sc: Scope<T>, now: nat, env: Envelope<T>)
    requires !Fenced(sc, env, policy, now)
    ensures Decided(merge, sc, policy, now, env).0 == sc && Decided(merge, sc, policy, now, env).1.Refuse?
  {
    hide Deliver, Batch;
  }

  lemma AddOne(a: set<nat>, x: nat)
    ensures |a + {x}| <= |a| + 1
  {
    if x in a { assert a + {x} == a; }
  }

  lemma DeliverGenuine<T>(merge: (T, T) -> T, policy: Policy, src: (nat, nat) -> T, sc: Scope<T>, env: Envelope<T>)
    requires ScopeOk(sc, policy) && env.sequence == sc.NextExpected()
    requires env.generation == sc.generation && env.payload == src(env.generation, env.sequence)
    requires forall n :: n in sc.pending ==> sc.pending[n].payload == src(sc.generation, n)
    requires Full(sc, policy) ==> policy.overflow != Block && policy.overflow != DropNewest
    ensures var s, ps := Deliver(merge, Relieved(sc, policy), env), Payloads(Batch(sc, env));
            && s.generation == sc.generation && s.NextExpected() == sc.NextExpected() + |ps|
            && (forall n :: n in s.pending ==> s.pending[n].payload == src(sc.generation, n))
            && (forall i :: 0 <= i < |ps| ==> ps[i] == src(sc.generation, sc.NextExpected() + i))
  {
    hide FoldInto, NewestStamp, RunEnd, Batch;
    DeliverOk(merge, policy, sc, env);
    RunEndIs(sc.pending, env.sequence + 1);
    var ps := Payloads(Batch(sc, env));
    forall i | 0 <= i < |ps| ensures ps[i] == src(sc.generation, sc.NextExpected() + i) {
      if i > 0 {
        assert Batch(sc, env)[i] == sc.pending[env.sequence + i];
      }
    }
  }

  /** The envelope is delivered: it is next in order and nothing pushes back. */
  predicate InOrder<T>(sc: Scope<T>, policy: Policy, env: Envelope<T>) {
    env.sequence == sc.NextExpected()
    && (Full(sc, policy) ==> policy.overflow != Block && policy.overflow != DropNewest)
  }

  lemma AdmitDelivers<T>(merge: (T, T) -> T, policy: Policy, w: World<T>, env: Envelope<T>)
    requires Fenced(w.scope, env, policy, w.now) && InOrder(HandedOff(w.scope, env.generation), policy, env)
    ensures var h := HandedOff(w.scope, env.generation);
            var anew := env.generation > w.scope.generation;
            Next(merge, policy, w, Admit(env))
            == World(Deliver(merge, Relieved(h, policy), env), w.now, if anew then [] else w.drained,
                     (if anew then [] else w.taken) + Payloads(Batch(h, env)),
                     (if anew then false else w.lost)
                     || (Full(h, policy) && policy.overflow == DropOldest && h.window.Some?))
  {
    hide Deliver, Batch;
  }

  lemma NotDelivered<T>(merge: (T, T) -> T, policy: Policy, w: World<T>, env: Envelope<T>)
    requires !(Fenced(w.scope, env, policy, w.now) && InOrder(HandedOff(w.scope, env.generation), policy, env))
    ensures var h := if Fenced(w.scope, env, policy, w.now) then HandedOff(w.scope, env.generation) else w.scope;
            var u := Next(merge, policy, w, Admit(env));
            && u.scope.generation == h.generation && u.scope.delivered == h.delivered && u.scope.window == h.window
            && (u.scope.pending == h.pending
                || (u.scope.pending == h.pending[env.sequence := Parked(env.payload, env.stampedAt)]
                    && env.generation == h.generation))
            && (if Fenced(w.scope, env, policy, w.now) && env.generation > w.scope.generation
                then u.drained == [] && u.taken == [] && !u.lost
                else u.drained == w.drained && u.taken == w.taken && u.lost == w.lost)
  {
    hide Deliver, Batch;
  }

  lemma AdmitGenuine<T>(merge: (T, T) -> T, policy: Policy, src: (nat, nat) -> T, w: World<T>, env: Envelope<T>)
    requires ScopeOk(w.scope, policy) && Genuine(src, w) && env.payload == src(env.generation, env.sequence)
    ensures Genuine(src, Next(merge, policy, w, Admit(env)))
  {
    hide Next, Decided, Deliver, Batch, DepthBound;
    var h := HandedOff(w.scope, env.generation);
    if Fenced(w.scope, env, policy, w.now) && InOrder(h, policy, env) {
      DeliverGenuine(merge, policy, src, h, env);
      AdmitDelivers(merge, policy, w, env);
    } else {
      NotDelivered(merge, policy, w, env);
    }
  }

  lemma GenuineStays<T>(merge: (T, T) -> T, policy: Policy, src: (nat, nat) -> T, w: World<T>, ev: Event<T>)
    requires ScopeOk(w.scope, policy) && Genuine(src, w)
    requires ev.Admit? ==> ev.env.payload == src(ev.env.generation, ev.env.sequence)
    ensures Genuine(src, Next(merge, policy, w, ev))
  {
    hide Decided, Deliver, Batch, ScopeOk;
    if ev.Admit? { AdmitGenuine(merge, policy, src, w, ev.env); }
  }

  lemma ConservedStays<T(!new)>(merge: (T, T) -> T, policy: Policy, w: World<T>, ev: Event<T>)
    requires Associative(merge) && ScopeOk(w.scope, policy) && Conserved(merge, w)
    ensures Conserved(merge, Next(merge, policy, w, ev))
  {
    hide Batch, Fold, Payloads;
    var w' := Next(merge, policy, w, ev);
    EmptyFolds(merge);
    match ev
    case Admit(env) =>
      if Fenced(w.scope, env, policy, w.now) && InOrder(HandedOff(w.scope, env.generation), policy, env) {
        AdmitDelivers(merge, policy, w, env);
        var h := Relieved(HandedOff(w.scope, env.generation), policy);
        if !w'.lost {
          var anew := env.generation > w.scope.generation;
          var drained, taken := if anew then [] else w.drained, if anew then [] else w.taken;
          assert h.window == HandedOff(w.scope, env.generation).window;
          BatchFolds(merge, drained, h.window, taken, Payloads(Batch(h, env)));
        }
      }
    case Drain =>
      assert w'.drained + [] == w'.drained;
    case _ =>
  }

  lemma EmptyFolds<T>(merge: (T, T) -> T)
    ensures FoldOfWindow(merge, [], None) == Fold(merge, []) == None
  {
    var none: seq<T> := [];
    assert none + none == none;
  }

  lemma {:induction false} RunKeeps<T(!new)>(merge: (T, T) -> T, policy: Policy, src: (nat, nat) -> T,
                                             generation: nat, now: nat, evs: seq<Event<T>>)
    requires Associative(merge) && Honest(src, evs)
    ensures var w := Run(merge, policy, generation, now, evs);
            ScopeOk(w.scope, policy) && Genuine(src, w) && Conserved(merge, w)
    decreases |evs|
  {
    hide Next;
    if evs == [] {
      EmptyFolds(merge);
    } else {
      var pre, ev := evs[..|evs| - 1], evs[|evs| - 1];
      RunKeeps(merge, policy, src, generation, now, pre);
      var w := Run(merge, policy, generation, now, pre);
      ScopeStays(merge, policy, w, ev);
      GenuineStays(merge, policy, src, w, ev);
      ConservedStays(merge, policy, w, ev);
    }
  }

  /** Over every schedule of arrivals, repeats, refusals, drains and reconnects: unless accumulated
      values were discarded, draining and then reading the window gives the fold of the current
      generation's payloads 0, 1, … in sequence order, each exactly once.  Merging needs to be
      associative and nothing more. */
  lemma ReorderNeedsNoCommutativity<T(!new)>(merge: (T, T) -> T, policy: Policy, src: (nat, nat) -> T,
                                             generation: nat, now: nat, evs: seq<Event<T>>)
    requires Associative(merge) && Honest(src, evs)
    ensures var w := Run(merge, policy, generation, now, evs);
            !w.lost ==> FoldOfWindow(merge, w.drained, w.scope.window)
                        == Fold(merge, seq(w.scope.NextExpected(), i requires 0 <= i => src(w.scope.generation, i)))
  {
    RunKeeps(merge, policy, src, generation, now, evs);
    var w := Run(merge, policy, generation, now, evs);
    assert w.taken == seq(w.scope.NextExpected(), i requires 0 <= i => src(w.scope.generation, i));
  }

  // ── Retry ──

  function Counted<T>(merge: (T, T) -> T, policy: Policy, w: World<T>, ev: Event<T>, n: nat): nat {
    match ev
    case Fail => n + 1
    case Reconnect(_) => 0
    case Close => if w.scope.lifecycle == Closed then n else 0
    case Open(_) => if w.scope.lifecycle == Closed then 0 else n
    case Admit(env) => if Decided(merge, w.scope, policy, w.now, env).1.Delivered? then 0 else n
    case _ => n
  }

  /** The failures since the scope last came into being, delivered, reconnected or was closed. */
  function Streak<T>(merge: (T, T) -> T, policy: Policy, generation: nat, now: nat, evs: seq<Event<T>>): nat
    decreases |evs|
  {
    if evs == [] then 0
    else
      var pre := evs[..|evs| - 1];
      Counted(merge, policy, Run(merge, policy, generation, now, pre), evs[|evs| - 1],
              Streak(merge, policy, generation, now, pre))
  }

  ghost predicate Retries<T>(policy: Policy, w: World<T>, n: nat) {
    && ScopeOk(w.scope, policy) && |w.taken| == w.scope.NextExpected()
    && w.scope.errors == if n < U32_MAX then n else U32_MAX
  }

  lemma AdmitRetries<T>(merge: (T, T) -> T, policy: Policy, w: World<T>, env: Envelope<T>)
    requires ScopeOk(w.scope, policy) && |w.taken| == w.scope.NextExpected()
    ensures var u := Next(merge, policy, w, Admit(env));
            && |u.taken| == u.scope.NextExpected()
            && u.scope.errors == (if Decided(merge, w.scope, policy, w.now, env).1.Delivered? then 0
                                  else w.scope.errors)
  {
    hide Deliver, Batch, DepthBound, FoldInto;
    var h := HandedOff(w.scope, env.generation);
    if Fenced(w.scope, env, policy, w.now) && InOrder(h, policy, env) {
      DeliverOk(merge, policy, h, env);
      DeliverClears(merge, Relieved(h, policy), env);
      AdmitDelivers(merge, policy, w, env);
    } else {
      NotDelivered(merge, policy, w, env);
    }
  }

  lemma DeliverClears<T>(merge: (T, T) -> T, sc: Scope<T>, env: Envelope<T>)
    ensures Deliver(merge, sc, env).errors == 0
  {
  }

  lemma RetriesStay<T>(merge: (T, T) -> T, policy: Policy, w: World<T>, ev: Event<T>, n: nat)
    requires Retries(policy, w, n)
    ensures Retries(policy, Next(merge, policy, w, ev), Counted(merge, policy, w, ev, n))
  {
    hide Decided, Batch, ScopeOk;
    ScopeStays(merge, policy, w, ev);
    if ev.Admit? { AdmitRetries(merge, policy, w, ev.env); }
  }

  lemma {:induction false} RunRetries<T>(merge: (T, T) -> T, policy: Policy, generation: nat, now: nat,
      evs: seq<Event<T>>)
    ensures Retries(policy, Run(merge, policy, generation, now, evs), Streak(merge, policy, generation, now, evs))
    decreases |evs|
  {
    hide Next, Counted;
    if evs != [] {
      var pre := evs[..|evs| - 1];
      RunRetries(merge, policy, generation, now, pre);
      RetriesStay(merge, policy, Run(merge, policy, generation, now, pre), evs[|evs| - 1],
                  Streak(merge, policy, generation, now, pre));
    }
  }

  /** After any schedule the retry on offer counts the failures since the last success, waits the clamped doubling
      for that many, and resumes at the number of payloads delivered in the current generation. */
  lemma RetryIs<T>(merge: (T, T) -> T, policy: Policy, generation: nat, now: nat, evs: seq<Event<T>>)
    requires policy.retryCeiling <= U64_MAX
    ensures var w := Run(merge, policy, generation, now, evs);
            var n := Streak(merge, policy, generation, now, evs);
            RetryOf(w.scope, policy)
            == if n == 0 then None
               else
                 var attempt := if n < U32_MAX then n else U32_MAX;
                 var wait := policy.retryBase * Pow2(if n <= 32 then n - 1 else 31);
                 Some(Retry(attempt, if wait > policy.retryCeiling then policy.retryCeiling else wait, |w.taken|))
  {
    hide Run, Pow2, Backoff, Streak;
    RunRetries(merge, policy, generation, now, evs);
    var sc := Run(merge, policy, generation, now, evs).scope;
    if sc.errors > 0 { BackoffExact(sc.errors, policy); }
  }

  // ── Freshness ──

  /** The stamps delivered to the scope since it came into being, every one of them, in the order of delivery. */
  function Heard<T>(merge: (T, T) -> T, policy: Policy, generation: nat, now: nat, evs: seq<Event<T>>): seq<nat>
    decreases |evs|
  {
    if evs == [] then []
    else
      var pre := evs[..|evs| - 1];
      var w, heard := Run(merge, policy, generation, now, pre), Heard(merge, policy, generation, now, pre);
      match evs[|evs| - 1]
      case Admit(env) =>
        if Decided(merge, w.scope, policy, w.now, env).1.Delivered?
        then heard + Stamps(Batch(HandedOff(w.scope, env.generation), env))
        else heard
      case Open(_) => if w.scope.lifecycle == Closed then [] else heard
      case _ => heard
  }

  /** The stamp is the newest delivered, and there is one as soon as a watermark stands. */
  ghost predicate Dated<T>(sc: Scope<T>, heard: seq<nat>) {
    Largest(sc.stampedAt, 0, heard) && (sc.delivered.Some? ==> heard != [])
  }

  lemma LargestOnward(top: nat, old_: nat, heard: seq<nat>, more: seq<nat>)
    requires Largest(old_, 0, heard) && Largest(top, old_, more)
    ensures Largest(top, 0, heard + more)
  {
  }

  lemma AdmitDated<T>(merge: (T, T) -> T, policy: Policy, sc: Scope<T>, now: nat, env: Envelope<T>, heard: seq<nat>)
    requires Dated(sc, heard)
    ensures var (s, d) := Decided(merge, sc, policy, now, env);
            Dated(s, if d.Delivered? then heard + Stamps(Batch(HandedOff(sc, env.generation), env)) else heard)
  {
    hide FoldInto, NewestStamp, Payloads, Largest;
    var h := HandedOff(sc, env.generation);
    NewestIsLargest(sc.stampedAt, Batch(h, env));
    if Decided(merge, sc, policy, now, env).1.Delivered? {
      LargestOnward(Decided(merge, sc, policy, now, env).0.stampedAt, sc.stampedAt, heard, Stamps(Batch(h, env)));
    }
  }

  lemma {:induction false} RunDated<T>(merge: (T, T) -> T, policy: Policy, generation: nat, now: nat,
      evs: seq<Event<T>>)
    ensures Dated(Run(merge, policy, generation, now, evs).scope, Heard(merge, policy, generation, now, evs))
    decreases |evs|
  {
    hide Decided, Batch;
    if evs != [] {
      var pre := evs[..|evs| - 1];
      RunDated(merge, policy, generation, now, pre);
      var w := Run(merge, policy, generation, now, pre);
      if evs[|evs| - 1].Admit? {
        AdmitDated(merge, policy, w.scope, w.now, evs[|evs| - 1].env, Heard(merge, policy, generation, now, pre));
      }
    }
  }

  /** After any schedule and at any time: a live scope that has delivered something in its generation is ready
      exactly when some stamp delivered to it lies within the freshness horizon, and stale otherwise. */
  lemma ReadyIffHeardLately<T>(merge: (T, T) -> T, policy: Policy, generation: nat, now: nat, evs: seq<Event<T>>,
      time: nat)
    ensures var sc := Run(merge, policy, generation, now, evs).scope;
            var heard := Heard(merge, policy, generation, now, evs);
            && (ReadinessOf(sc, policy, time) == Ready
                <==> sc.lifecycle == Live && sc.delivered.Some?
                     && exists s :: s in heard && time <= s + policy.freshnessHorizon)
            && (ReadinessOf(sc, policy, time) == Stale
                <==> sc.lifecycle == Live && sc.delivered.Some?
                     && forall s :: s in heard ==> s + policy.freshnessHorizon < time)
  {
    RunDated(merge, policy, generation, now, evs);
    var sc := Run(merge, policy, generation, now, evs).scope;
    var heard := Heard(merge, policy, generation, now, evs);
    if sc.delivered.Some? { assert heard[0] in heard; }
  }

  /** Discarding takes a `DropOldest` policy, a close, or a reopening at a newer generation. */
  lemma {:induction false} NothingLost<T>(merge: (T, T) -> T, policy: Policy, generation: nat, now: nat,
      evs: seq<Event<T>>)
    requires policy.overflow != DropOldest
    requires forall i :: 0 <= i < |evs| ==> !evs[i].Close? && !evs[i].Open?
    ensures !Run(merge, policy, generation, now, evs).lost
    decreases |evs|
  {
    hide Decided, Batch;
    if evs != [] {
      NothingLost(merge, policy, generation, now, evs[..|evs| - 1]);
    }
  }
}
