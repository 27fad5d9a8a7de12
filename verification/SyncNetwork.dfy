/** A sender and a receiver over a link that loses, repeats and reorders frames. */
module SyncNetwork {
  import opened Options
  import opened Outbox
  import opened ReliableSync

  /** The host's projection: where it starts and how it folds one accepted event. */
  datatype Host<!S, !O> = Host(init: S, fold: (S, O) -> S)

  function FoldOps<S, O>(f: (S, O) -> S, s: S, ops: seq<O>): S
    decreases |ops|
  {
    if ops == [] then s else FoldOps(f, f(s, ops[0]), ops[1..])
  }

  lemma {:induction false} FoldOpsConcat<S, O>(f: (S, O) -> S, s: S, a: seq<O>, b: seq<O>)
    ensures FoldOps(f, s, a + b) == FoldOps(f, FoldOps(f, s, a), b)
    decreases |a|
  {
    if a == [] {
      assert a + b == b;
    } else {
      assert (a + b)[1..] == a[1..] + b;
      FoldOpsConcat(f, f(s, a[0]), a[1..], b);
    }
  }

  /** The sender's state once `e` events were accepted. */
  function StateAt<S, O>(h: Host<S, O>, log: seq<O>, e: int): S
    requires 0 <= e <= |log|
  {
    FoldOps(h.fold, h.init, log[..e])
  }

  /** A data frame says what the sender's history says. */
  ghost predicate FrameOk<S(!new), O(!new)>(h: Host<S, O>, log: seq<O>, m: Msg<S, O>) {
    match m
    case Snapshot(e, s) => 0 <= e <= |log| && s == StateAt(h, log, e)
    case Delta(b, e, ops) => 0 <= b <= e <= |log| && ops == log[b..e]
    case _ => false
  }

  ghost predicate Downward<S(!new), O(!new)>(h: Host<S, O>, log: seq<O>, m: Msg<S, O>) {
    m.OutboxAck? || FrameOk(h, log, m)
  }

  predicate Upward<S, O>(reached: int, m: Msg<S, O>) {
    m.ResyncRequest? || (m.OutboxAck? && m.through <= reached)
  }

  lemma FrameGrows<S(!new), O(!new)>(h: Host<S, O>, log: seq<O>, op: O, m: Msg<S, O>)
    requires FrameOk(h, log, m)
    ensures FrameOk(h, log + [op], m)
  {
    match m
    case Snapshot(e, _) => assert (log + [op])[..e] == log[..e];
    case Delta(b, e, _) => assert (log + [op])[b..e] == log[b..e];
    case _ =>
  }

  /** What the host makes of the frames a tick hands it. */
  function FoldFrames<S, O>(h: Host<S, O>, s: S, frames: seq<Msg<S, O>>): S {
    if frames == [] then s
    else
      var t := FoldFrames(h, s, frames[..|frames| - 1]);
      match frames[|frames| - 1]
      case Snapshot(_, st) => st
      case Delta(_, _, ops) => FoldOps(h.fold, t, ops)
      case _ => t
  }

  // ── Which events a projection has folded ──

  /** From `b` up to and without `e`. */
  function Range(b: int, e: int): (r: seq<int>)
    ensures |r| == (if b <= e then e - b else 0) && forall i :: 0 <= i < |r| ==> r[i] == b + i
    decreases e - b
  {
    if b >= e then [] else Range(b, e - 1) + [e - 1]
  }

  /** The places in the history of the events folded, in the order they were: a snapshot stands for all
      up to its epoch, a delta adds its own. */
  function FoldedBy<S, O>(folded: seq<int>, frames: seq<Msg<S, O>>): seq<int> {
    if frames == [] then folded
    else
      With(FoldedBy(folded, frames[..|frames| - 1]), frames[|frames| - 1])
  }

  function With<S, O>(folded: seq<int>, m: Msg<S, O>): seq<int> {
    match m
    case Snapshot(e, _) => Range(0, e)
    case Delta(b, e, _) => folded + Range(b, e)
    case _ => folded
  }

  ghost predicate InLog<O>(log: seq<O>, at: seq<int>) {
    forall i :: 0 <= i < |at| ==> 0 <= at[i] < |log|
  }

  function Picked<O>(log: seq<O>, at: seq<int>): (r: seq<O>)
    requires InLog(log, at)
    ensures |r| == |at| && forall i :: 0 <= i < |at| ==> r[i] == log[at[i]]
  {
    seq(|at|, i requires 0 <= i < |at| => log[at[i]])
  }

  /** `s` is the fold of the events at `at`, each as often and in the order listed. */
  ghost predicate FoldOf<S(!new), O(!new)>(h: Host<S, O>, log: seq<O>, s: S, at: seq<int>) {
    InLog(log, at) && s == FoldOps(h.fold, h.init, Picked(log, at))
  }

  lemma SnapshotFolds<S(!new), O(!new)>(h: Host<S, O>, log: seq<O>, e: int)
    requires 0 <= e <= |log|
    ensures FoldOf(h, log, StateAt(h, log, e), Range(0, e))
  {
    assert Picked(log, Range(0, e)) == log[..e];
  }

  lemma DeltaFolds<S(!new), O(!new)>(h: Host<S, O>, log: seq<O>, s: S, at: seq<int>, b: int, e: int)
    requires FoldOf(h, log, s, at) && 0 <= b <= e <= |log|
    ensures FoldOf(h, log, FoldOps(h.fold, s, log[b..e]), at + Range(b, e))
  {
    assert Picked(log, at + Range(b, e)) == Picked(log, at) + log[b..e];
    FoldOpsConcat(h.fold, h.init, Picked(log, at), log[b..e]);
  }

  lemma FoldedSnoc<S, O>(h: Host<S, O>, s: S, at: seq<int>, frames: seq<Msg<S, O>>, m: Msg<S, O>)
    ensures FoldFrames(h, s, frames + [m])
         == match m
            case Snapshot(_, st) => st
            case Delta(_, _, ops) => FoldOps(h.fold, FoldFrames(h, s, frames), ops)
            case _ => FoldFrames(h, s, frames)
    ensures FoldedBy(at, frames + [m]) == With(FoldedBy(at, frames), m)
  {
    assert (frames + [m])[..|frames|] == frames;
  }

  // ── The receiver ──

  /** In mid-tick: folding what was applied so far gives the fold of the events it stands for. */
  ghost predicate Faithful<S(!new), O(!new)>(h: Host<S, O>, log: seq<O>, s: S, at: seq<int>, t: Turn<S, O>) {
    && 0 <= t.d.coord.last <= |log|
    && FoldOf(h, log, FoldFrames(h, s, t.p.applied), FoldedBy(at, t.p.applied))
  }

  /** In mid-tick: the events folded are the first ones, up to the receiver's epoch, each once. */
  ghost predicate Level<S(!new), O(!new)>(at: seq<int>, t: Turn<S, O>) {
    FoldedBy(at, t.p.applied) == Range(0, t.d.coord.last)
  }

  /** A receiver has nothing of its own to send but requests and acks. */
  ghost predicate Passive<S(!new), O(!new)>(d: Driver<S, O>) {
    d.pending == [] && d.outbox.retained == map[]
  }

  /** The coordinator after the frames of a tick. */
  function Absorbed<S, O>(c: Coord, inbound: seq<Msg<S, O>>): Coord {
    if inbound == [] then c else IngestStep(Absorbed(c, inbound[..|inbound| - 1]), inbound[|inbound| - 1]).0
  }

  predicate HasSnapshot<S, O>(inbound: seq<Msg<S, O>>) {
    exists i :: 0 <= i < |inbound| && inbound[i].Snapshot?
  }

  lemma SnapshotInFront<S(!new), O(!new)>(inbound: seq<Msg<S, O>>)
    requires inbound != []
    ensures HasSnapshot(inbound) <==> HasSnapshot(inbound[..|inbound| - 1]) || inbound[|inbound| - 1].Snapshot?
  {
    var front := inbound[..|inbound| - 1];
    forall i | 0 <= i < |front| ensures front[i] == inbound[i] {}
    if i :| 0 <= i < |front| && front[i].Snapshot? { assert inbound[i].Snapshot?; }
  }

  lemma RangeSplits(b: int, e: int)
    requires 0 <= b < e
    ensures Range(0, b) + Range(b, e) == Range(0, e)
  {
    hide Range;
  }

  lemma CancelRight(x: seq<int>, y: seq<int>, r: seq<int>)
    ensures x + r == y + r <==> x == y
  {
    if x + r == y + r {
      assert |x| == |y|;
      assert x == (x + r)[..|x|] && y == (y + r)[..|x|];
    }
  }

  lemma RangesJoin(at: seq<int>, b: int, e: int)
    requires 0 <= b < e
    ensures at + Range(b, e) == Range(0, e) <==> at == Range(0, b)
  {
    hide Range;
    RangeSplits(b, e);
    CancelRight(at, Range(0, b), Range(b, e));
  }

  lemma TookKeeps<S(!new), O(!new)>(h: Host<S, O>, log: seq<O>, s: S, at: seq<int>, t: Turn<S, O>, m: Msg<S, O>,
                                    link: nat -> bool, now: int, provider: int -> Msg<S, O>)
    requires Faithful(h, log, s, at, t) && Passive(t.d) && Downward(h, log, m)
    requires forall x :: x in t.p.sent ==> x.ResyncRequest?
    ensures var u := Took(t, m, link, now, provider);
            && Faithful(h, log, s, at, u) && Passive(u.d) && (forall x :: x in u.p.sent ==> x.ResyncRequest?)
            && u.d.coord == IngestStep(t.d.coord, m).0
            && (Level(at, u) <==> Level(at, t) || m.Snapshot?)
  {
    hide FoldFrames, FoldedBy, FoldOf, Range;
    FoldedSnoc(h, s, at, t.p.applied, m);
    if m.Snapshot? { SnapshotFolds(h, log, m.epoch); }
    if m.Delta? {
      DeltaFolds(h, log, FoldFrames(h, s, t.p.applied), FoldedBy(at, t.p.applied), m.base, m.epoch);
      if m.base < m.epoch { RangesJoin(FoldedBy(at, t.p.applied), m.base, m.epoch); }
    }
  }

  lemma {:induction false} TookAllKeeps<S(!new), O(!new)>(h: Host<S, O>, log: seq<O>, s: S, at: seq<int>, t: Turn<S, O>,
      inbound: seq<Msg<S, O>>, link: nat -> bool, now: int, provider: int -> Msg<S, O>)
    requires Faithful(h, log, s, at, t) && Passive(t.d) && forall m :: m in inbound ==> Downward(h, log, m)
    requires forall x :: x in t.p.sent ==> x.ResyncRequest?
    ensures var u := TookAll(t, inbound, link, now, provider);
            && Faithful(h, log, s, at, u) && Passive(u.d) && (forall x :: x in u.p.sent ==> x.ResyncRequest?)
            && u.d.coord == Absorbed(t.d.coord, inbound)
            && (Level(at, u) <==> Level(at, t) || HasSnapshot(inbound))
    decreases |inbound|
  {
    hide Took, Faithful, Passive, Downward, Level, IngestStep;
    if inbound != [] {
      var front, m := inbound[..|inbound| - 1], inbound[|inbound| - 1];
      TookAllKeeps(h, log, s, at, t, front, link, now, provider);
      TookKeeps(h, log, s, at, TookAll(t, front, link, now, provider), m, link, now, provider);
      SnapshotInFront(inbound);
    }
  }

  lemma NothingToReplay<F(!new)>(b: Book<F>, from: int)
    requires b.retained == map[]
    ensures ReplayList(b, from) == []
  {
    assert Lists(Above(b.retained, from), []);
    ReplayListIs(b, from, []);
  }

  /** A receiver tick, from any fold of the history and honest frames in any order and number. */
  lemma ReceiverTick<S(!new), O(!new)>(
      h: Host<S, O>, log: seq<O>, s: S, at: seq<int>, d: Driver<S, O>, inbound: seq<Msg<S, O>>,
      broken: bool, link: nat -> bool, now: int, provider: int -> Msg<S, O>)
    requires 0 <= d.coord.last <= |log| && FoldOf(h, log, s, at) && Passive(d)
    requires forall m :: m in inbound ==> Downward(h, log, m)
    ensures var t := Ticked(d, inbound, broken, link, now, provider);
            && Faithful(h, log, s, at, t) && Passive(t.d) && t.d.coord == Absorbed(d.coord, inbound)
            && (Level(at, t) <==> at == Range(0, d.coord.last) || HasSnapshot(inbound))
            && forall x :: x in t.p.sent ==> Upward(t.d.coord.last, x)
  {
    hide Took, Lists, FoldOf, Range, Absorbed, HasSnapshot;
    NothingToReplay(d.outbox, d.peerAcked);
    var t := Emptied(Started(d, link, now), link, now);
    assert t.d.coord == d.coord && Passive(t.d) && t.p.sent == [] && t.p.applied == [];
    assert Faithful(h, log, s, at, t);
    TookAllKeeps(h, log, s, at, t, inbound, link, now, provider);
  }

  /** In mid-tick, no snapshot met: the events folded are those of before and, behind them, the ones the epoch
      has moved across since. */
  ghost predicate Extends<S(!new), O(!new)>(at: seq<int>, from: int, t: Turn<S, O>) {
    from <= t.d.coord.last && FoldedBy(at, t.p.applied) == at + Range(from, t.d.coord.last)
  }

  lemma RangeGrows(at: seq<int>, from: int, b: int, e: int)
    requires from <= b <= e
    ensures at + Range(from, b) + Range(b, e) == at + Range(from, e)
  {
    hide Range;
  }

  lemma TookExtends<S(!new), O(!new)>(h: Host<S, O>, at: seq<int>, from: int, t: Turn<S, O>, m: Msg<S, O>,
                                      link: nat -> bool, now: int, provider: int -> Msg<S, O>)
    requires Extends(at, from, t) && !m.Snapshot?
    ensures Extends(at, from, Took(t, m, link, now, provider))
    ensures Took(t, m, link, now, provider).d.coord == IngestStep(t.d.coord, m).0
  {
    hide FoldFrames, FoldedBy, Range;
    FoldedSnoc(h, h.init, at, t.p.applied, m);
    if m.Delta? && from <= m.base <= m.epoch { RangeGrows(at, from, m.base, m.epoch); }
  }

  lemma {:induction false} TookAllExtends<S(!new), O(!new)>(
      h: Host<S, O>, at: seq<int>, from: int, t: Turn<S, O>, inbound: seq<Msg<S, O>>,
      link: nat -> bool, now: int, provider: int -> Msg<S, O>)
    requires Extends(at, from, t) && !HasSnapshot(inbound)
    ensures Extends(at, from, TookAll(t, inbound, link, now, provider))
    decreases |inbound|
  {
    hide Took, Extends, HasSnapshot;
    if inbound != [] {
      var front, m := inbound[..|inbound| - 1], inbound[|inbound| - 1];
      SnapshotInFront(inbound);
      TookAllExtends(h, at, from, t, front, link, now, provider);
      TookExtends(h, at, from, TookAll(t, front, link, now, provider), m, link, now, provider);
    }
  }

  /** A tick that meets no snapshot folds exactly the events the epoch moves across, behind those folded before. */
  lemma TickExtends<S(!new), O(!new)>(
      h: Host<S, O>, at: seq<int>, d: Driver<S, O>, inbound: seq<Msg<S, O>>,
      broken: bool, link: nat -> bool, now: int, provider: int -> Msg<S, O>)
    requires Passive(d) && !HasSnapshot(inbound)
    ensures Extends(at, d.coord.last, Ticked(d, inbound, broken, link, now, provider))
  {
    hide Took, Lists, HasSnapshot;
    NothingToReplay(d.outbox, d.peerAcked);
    var t := Emptied(Started(d, link, now), link, now);
    assert t.d.coord == d.coord && t.p.applied == [];
    assert at + Range(d.coord.last, d.coord.last) == at;
    TookAllExtends(h, at, d.coord.last, t, inbound, link, now, provider);
  }

  // ── The sender ──

  ghost predicate Honest<S(!new), O(!new)>(h: Host<S, O>, log: seq<O>, reached: int, d: Driver<S, O>) {
    && (forall i :: 0 <= i < |d.pending| ==> FrameOk(h, log, d.pending[i].1))
    && (forall e :: e in d.outbox.retained ==> FrameOk(h, log, d.outbox.retained[e]))
    && d.outbox.cursor <= reached && d.peerAcked <= reached
  }

  /** A staged frame is still to be sent, or kept for replay, unless the receiver got past it. */
  ghost predicate Kept<S(!new), O(!new)>(reached: int, d: Driver<S, O>, e: int) {
    e <= reached || e in d.outbox.retained || exists i :: 0 <= i < |d.pending| && d.pending[i].0 == e
  }

  ghost predicate AllKept<S(!new), O(!new)>(staged: set<int>, reached: int, d: Driver<S, O>) {
    forall e :: e in staged ==> Kept(reached, d, e)
  }

  ghost predicate SenderTurn<S(!new), O(!new)>(
      h: Host<S, O>, log: seq<O>, staged: set<int>, reached: int, t: Turn<S, O>)
  {
    && Honest(h, log, reached, t.d) && AllKept(staged, reached, t.d)
    && forall x :: x in t.p.sent ==> Downward(h, log, x)
  }

  lemma {:induction false} ReplayedKeeps<S(!new), O(!new)>(h: Host<S, O>, log: seq<O>, staged: set<int>, reached: int,
      t: Turn<S, O>, frames: seq<(int, Msg<S, O>)>, link: nat -> bool, now: int)
    requires SenderTurn(h, log, staged, reached, t)
    requires forall i :: 0 <= i < |frames| ==> FrameOk(h, log, frames[i].1)
    ensures SenderTurn(h, log, staged, reached, Replayed(t, frames, link, now))
    decreases |frames|
  {
    hide FrameOk;
    if frames != [] {
      var p := Send(t.p, frames[0].1, link);
      assert forall e :: Kept(reached, t.d, e) ==> Kept(reached, t.d.(stalled := Some(now), replayPending := true), e);
      ReplayedKeeps(h, log, staged, reached, Turn(t.d, p.(data := p.data + 1)), frames[1..], link, now);
    }
  }

  lemma AppendKeeps<S(!new), O(!new)>(h: Host<S, O>, log: seq<O>, staged: set<int>, reached: int, t: Turn<S, O>)
    requires SenderTurn(h, log, staged, reached, t) && t.d.pending != []
    ensures var d := t.d.(outbox := Appended(t.d.outbox, t.d.pending[0].0, t.d.pending[0].1),
        pending := t.d.pending[1..]);
            Honest(h, log, reached, d) && AllKept(staged, reached, d)
  {
    hide FrameOk;
    var d := t.d.(outbox := Appended(t.d.outbox, t.d.pending[0].0, t.d.pending[0].1), pending := t.d.pending[1..]);
    forall e | e in staged ensures Kept(reached, d, e) {
      assert Kept(reached, t.d, e);
      if e > reached && e !in t.d.outbox.retained {
        var i :| 0 <= i < |t.d.pending| && t.d.pending[i].0 == e;
        if i > 0 { assert d.pending[i - 1].0 == e; }
      }
    }
  }

  lemma {:induction false} EmptiedKeeps<S(!new), O(!new)>(h: Host<S, O>, log: seq<O>, staged: set<int>, reached: int,
      t: Turn<S, O>, link: nat -> bool, now: int)
    requires SenderTurn(h, log, staged, reached, t)
    ensures SenderTurn(h, log, staged, reached, Emptied(t, link, now))
    decreases |t.d.pending|
  {
    hide FrameOk;
    if t.d.stalled.None? && t.d.pending != [] {
      AppendKeeps(h, log, staged, reached, t);
      var d := t.d.(outbox := Appended(t.d.outbox, t.d.pending[0].0, t.d.pending[0].1), pending := t.d.pending[1..]);
      var p := Send(t.p, t.d.pending[0].1, link);
      assert forall e :: Kept(reached, d, e) ==> Kept(reached, d.(stalled := Some(now)), e);
      EmptiedKeeps(h, log, staged, reached, Turn(d, p.(data := p.data + 1)), link, now);
    }
  }

  lemma SenderTook<S(!new), O(!new)>(
      h: Host<S, O>, log: seq<O>, staged: set<int>, reached: int, t: Turn<S, O>, m: Msg<S, O>,
      link: nat -> bool, now: int, provider: int -> Msg<S, O>)
    requires SenderTurn(h, log, staged, reached, t) && Upward(reached, m)
    requires forall from :: FrameOk(h, log, provider(from))
    ensures SenderTurn(h, log, staged, reached, Took(t, m, link, now, provider))
  {
    hide FrameOk;
    var u := Took(t, m, link, now, provider);
    forall e | e in staged ensures Kept(reached, u.d, e) {
      assert Kept(reached, t.d, e);
      assert u.d.pending == t.d.pending;
    }
  }

  lemma {:induction false} SenderTookAll<S(!new), O(!new)>(h: Host<S, O>, log: seq<O>, staged: set<int>, reached: int,
      t: Turn<S, O>, inbound: seq<Msg<S, O>>, link: nat -> bool, now: int, provider: int -> Msg<S, O>)
    requires SenderTurn(h, log, staged, reached, t) && forall m :: m in inbound ==> Upward(reached, m)
    requires forall from :: FrameOk(h, log, provider(from))
    ensures SenderTurn(h, log, staged, reached, TookAll(t, inbound, link, now, provider))
    decreases |inbound|
  {
    hide Took, SenderTurn, FrameOk;
    if inbound != [] {
      SenderTookAll(h, log, staged, reached, t, inbound[..|inbound| - 1], link, now, provider);
      SenderTook(h, log, staged, reached, TookAll(t, inbound[..|inbound| - 1], link, now, provider),
                 inbound[|inbound| - 1], link, now, provider);
    }
  }

  lemma ReplayListHonest<S(!new), O(!new)>(h: Host<S, O>, log: seq<O>, d: Driver<S, O>, reached: int)
    requires Honest(h, log, reached, d)
    ensures forall i :: 0 <= i < |ReplayList(d.outbox, d.peerAcked)| ==>
              FrameOk(h, log, ReplayList(d.outbox, d.peerAcked)[i].1)
  {
    hide FrameOk;
    var out := ReplayList(d.outbox, d.peerAcked);
    if out != [] { assert Lists(Above(d.outbox.retained, d.peerAcked), out); }
  }

  lemma SenderTick<S(!new), O(!new)>(h: Host<S, O>, log: seq<O>, staged: set<int>, reached: int, d: Driver<S, O>,
      inbound: seq<Msg<S, O>>, broken: bool, link: nat -> bool, now: int, provider: int -> Msg<S, O>)
    requires Honest(h, log, reached, d) && AllKept(staged, reached, d)
    requires forall m :: m in inbound ==> Upward(reached, m)
    requires forall from :: FrameOk(h, log, provider(from))
    ensures SenderTurn(h, log, staged, reached, Ticked(d, inbound, broken, link, now, provider))
  {
    hide Took, FrameOk, Replayed, Emptied, TookAll, ReplayList, Upward;
    var t := Turn(d, Progress([], 0, [], 0, 0, false));
    Unaffected(h, log, staged, reached, d);
    if d.replayPending {
      ReplayListHonest(h, log, d, reached);
      ReplayedKeeps(h, log, staged, reached, t.(d := d.(replayPending := false)), ReplayList(d.outbox, d.peerAcked),
          link, now);
    }
    var started := Started(d, link, now);
    EmptiedKeeps(h, log, staged, reached, started, link, now);
    var emptied := Emptied(started, link, now);
    SenderTookAll(h, log, staged, reached, emptied, inbound, link, now, provider);
    var taken := TookAll(emptied, inbound, link, now, provider);
    Unaffected(h, log, staged, reached, taken.d);
  }

  lemma Unaffected<S(!new), O(!new)>(h: Host<S, O>, log: seq<O>, staged: set<int>, reached: int, d: Driver<S, O>)
    requires Honest(h, log, reached, d) && AllKept(staged, reached, d)
    ensures forall a, r, s :: var d' := d.(ackOwed := a, replayPending := r, stalled := s);
                              Honest(h, log, reached, d') && AllKept(staged, reached, d')
  {
    hide FrameOk;
    forall a, r, s ensures var d' := d.(ackOwed := a, replayPending := r, stalled := s); AllKept(staged, reached, d') {
      var d' := d.(ackOwed := a, replayPending := r, stalled := s);
      forall e | e in staged ensures Kept(reached, d', e) { assert Kept(reached, d, e); }
    }
  }

  // ── The whole connection ──

  /** `folded` names the events the projection has folded; `reached` is the highest epoch the receiver ever
      ended a tick at; `staged` every epoch the host put up for sending.  The link keeps all it was ever
      given and delivers what it likes. */
  datatype Net<!S, !O> = Net(
    log: seq<O>, sender: Driver<S, O>, receiver: Driver<S, O>, projection: S, folded: seq<int>, reached: int,
    staged: set<int>, down: seq<Msg<S, O>>, up: seq<Msg<S, O>>)

  datatype Step<!S, !O> =
    | Accept(op: O)
    | Stage(epoch: int, msg: Msg<S, O>)
    | TickSender(inbound: seq<Msg<S, O>>, broken: bool, link: nat -> bool, now: int, provider: int -> Msg<S, O>)
    | TickReceiver(inbound: seq<Msg<S, O>>, broken: bool, link: nat -> bool, now: int, provider: int -> Msg<S, O>)
    | ReconnectSender
    | ReconnectReceiver

  function Reconnected<S, O>(d: Driver<S, O>): Driver<S, O> {
    d.(replayPending := true, ackOwed := true, stalled := None)
  }

  /** A tick whose source breaks reports nothing, so whatever it applied never reaches the host. */
  function Projected<S, O>(h: Host<S, O>, s: S, t: Turn<S, O>, broken: bool): S {
    if broken then s else FoldFrames(h, s, t.p.applied)
  }

  ghost function After<S(!new), O(!new)>(h: Host<S, O>, n: Net<S, O>, step: Step<S, O>): Net<S, O> {
    match step
    case Accept(op) => n.(log := n.log + [op])
    case Stage(epoch, msg) => n.(sender := n.sender.(pending := n.sender.pending + [(epoch, msg)]),
        staged := n.staged + {epoch})
    case TickSender(inbound, broken, link, now, provider) =>
      var t := Ticked(n.sender, inbound, broken, link, now, provider);
      n.(sender := t.d, down := n.down + t.p.sent)
    case TickReceiver(inbound, broken, link, now, provider) =>
      var t := Ticked(n.receiver, inbound, broken, link, now, provider);
      n.(receiver := t.d, projection := Projected(h, n.projection, t, broken),
         folded := if broken then n.folded else FoldedBy(n.folded, t.p.applied),
         reached := Max(n.reached, t.d.coord.last), up := n.up + t.p.sent)
    case ReconnectSender => n.(sender := Reconnected(n.sender))
    case ReconnectReceiver => n.(receiver := Reconnected(n.receiver))
  }

  ghost predicate Enabled<S(!new), O(!new)>(h: Host<S, O>, n: Net<S, O>, step: Step<S, O>) {
    match step
    case Stage(_, msg) => FrameOk(h, n.log, msg)
    case TickSender(inbound, _, _, _, provider) =>
      (forall m :: m in inbound ==> m in n.up) && forall from :: FrameOk(h, n.log, provider(from))
    case TickReceiver(inbound, _, _, _, _) => forall m :: m in inbound ==> m in n.down
    case _ => true
  }

  /** No tick whose source breaks leaves the receiver at another epoch than it found it at. */
  predicate Spared<S, O>(n: Net<S, O>, step: Step<S, O>) {
    step.TickReceiver? && step.broken ==> Absorbed(n.receiver.coord, step.inbound).last == n.receiver.coord.last
  }

  /** Without a snapshot among the frames, that is to say no delta of them starts at the epoch and goes beyond. */
  lemma {:induction false} SparedMeans<S(!new), O(!new)>(c: Coord, inbound: seq<Msg<S, O>>)
    requires !HasSnapshot(inbound)
    ensures c.last <= Absorbed(c, inbound).last
    ensures Absorbed(c, inbound).last == c.last
       <==> forall i :: 0 <= i < |inbound| && inbound[i].Delta? ==>
             inbound[i].base != c.last || inbound[i].epoch <= inbound[i].base
    decreases |inbound|
  {
    if inbound != [] {
      var front, m := inbound[..|inbound| - 1], inbound[|inbound| - 1];
      SnapshotInFront(inbound);
      SparedMeans(c, front);
      var quiet := (x: Msg<S, O>) => x.Delta? ==> x.base != c.last || x.epoch <= x.base;
      assert (forall i :: 0 <= i < |inbound| ==> quiet(inbound[i]))
          <==> (forall i :: 0 <= i < |front| ==> quiet(front[i])) && quiet(m) by {
        if forall i :: 0 <= i < |inbound| ==> quiet(inbound[i]) {
          forall i | 0 <= i < |front| ensures quiet(front[i]) { assert quiet(inbound[i]); }
        }
      }
    }
  }

  ghost predicate Plumbed<S(!new), O(!new)>(h: Host<S, O>, n: Net<S, O>) {
    && Honest(h, n.log, n.reached, n.sender) && AllKept(n.staged, n.reached, n.sender)
    && Passive(n.receiver) && 0 <= n.receiver.coord.last <= |n.log| && n.receiver.coord.last <= n.reached
    && (forall m :: m in n.down ==> Downward(h, n.log, m))
    && (forall m :: m in n.up ==> Upward(n.reached, m))
    && FoldOf(h, n.log, n.projection, n.folded)
  }

  /** The projection has folded the events up to the receiver's epoch, each once and in order. */
  ghost predicate ExactlyOnce<S(!new), O(!new)>(n: Net<S, O>) {
    n.folded == Range(0, n.receiver.coord.last)
  }

  /** So the projection is the sender's state at the receiver's epoch. */
  lemma ExactlyOnceIsState<S(!new), O(!new)>(h: Host<S, O>, n: Net<S, O>)
    requires Plumbed(h, n) && ExactlyOnce(n)
    ensures n.projection == StateAt(h, n.log, n.receiver.coord.last)
  {
    assert Picked(n.log, Range(0, n.receiver.coord.last)) == n.log[..n.receiver.coord.last];
  }

  lemma AcceptKeeps<S(!new), O(!new)>(h: Host<S, O>, n: Net<S, O>, op: O)
    requires Plumbed(h, n)
    ensures Plumbed(h, After(h, n, Accept(op)))
  {
    var log := n.log + [op];
    forall m | FrameOk(h, n.log, m) ensures FrameOk(h, log, m) { FrameGrows(h, n.log, op, m); }
    forall m | Downward(h, n.log, m) ensures Downward(h, log, m) { if !m.OutboxAck? { FrameGrows(h, n.log, op, m); } }
    assert Picked(log, n.folded) == Picked(n.log, n.folded);
  }

  lemma ReachedGrows<S(!new), O(!new)>(h: Host<S, O>, log: seq<O>, staged: set<int>, d: Driver<S, O>, r: int, r': int)
    requires Honest(h, log, r, d) && AllKept(staged, r, d) && r <= r'
    ensures Honest(h, log, r', d) && AllKept(staged, r', d)
    ensures forall m :: Upward<S, O>(r, m) ==> Upward<S, O>(r', m)
  {
    hide FrameOk;
    forall e | e in staged ensures Kept(r', d, e) { assert Kept(r, d, e); }
  }

  /** What a receiver tick does to the events folded: a tick that ends well keeps exactly-once and no less, and
      a snapshot in it restores it; a tick that breaks keeps it if and only if the epoch stays where it was. */
  lemma ReceiverKeeps<S(!new), O(!new)>(h: Host<S, O>, n: Net<S, O>, step: Step<S, O>)
    requires Plumbed(h, n) && step.TickReceiver? && Enabled(h, n, step)
    ensures Plumbed(h, After(h, n, step))
    ensures !step.broken ==> (ExactlyOnce(After(h, n, step)) <==> ExactlyOnce(n) || HasSnapshot(step.inbound))
    ensures ExactlyOnce(n) ==> (ExactlyOnce(After(h, n, step)) <==> Spared(n, step))
  {
    hide Ticked, FoldFrames, FrameOk, StateAt, Downward, Honest, AllKept, FoldOf, Absorbed, HasSnapshot, FoldedBy,
        Range;
    ReceiverTick(h, n.log, n.projection, n.folded, n.receiver, step.inbound, step.broken, step.link, step.now,
        step.provider);
    var t := Ticked(n.receiver, step.inbound, step.broken, step.link, step.now, step.provider);
    ReachedGrows(h, n.log, n.staged, n.sender, n.reached, Max(n.reached, t.d.coord.last));
    if |Range(0, t.d.coord.last)| != |Range(0, n.receiver.coord.last)| {
      assert Range(0, t.d.coord.last) != Range(0, n.receiver.coord.last);
    }
  }

  lemma StageKeeps<S(!new), O(!new)>(h: Host<S, O>, n: Net<S, O>, epoch: int, msg: Msg<S, O>)
    requires Plumbed(h, n) && FrameOk(h, n.log, msg)
    ensures Plumbed(h, After(h, n, Stage(epoch, msg)))
  {
    hide FrameOk;
    var n' := After(h, n, Stage(epoch, msg));
    assert n'.sender.pending[|n.sender.pending|].0 == epoch;
    forall e | e in n'.staged ensures Kept(n.reached, n'.sender, e) {
      if e in n.staged {
        assert Kept(n.reached, n.sender, e);
        if i :| 0 <= i < |n.sender.pending| && n.sender.pending[i].0 == e { assert n'.sender.pending[i].0 == e; }
      }
    }
  }

  lemma StepPlumbs<S(!new), O(!new)>(h: Host<S, O>, n: Net<S, O>, step: Step<S, O>)
    requires Plumbed(h, n) && Enabled(h, n, step)
    ensures Plumbed(h, After(h, n, step))
    ensures !step.TickReceiver? ==> ExactlyOnce(After(h, n, step)) == ExactlyOnce(n)
  {
    hide Ticked, FoldFrames, FrameOk, StateAt, Downward, Honest, AllKept, FoldOf, Range;
    match step
    case Accept(op) => AcceptKeeps(h, n, op);
    case Stage(epoch, msg) => StageKeeps(h, n, epoch, msg);
    case TickSender(inbound, broken, link, now, provider) =>
      SenderTick(h, n.log, n.staged, n.reached, n.sender, inbound, broken, link, now, provider);
    case TickReceiver(_, _, _, _, _) => ReceiverKeeps(h, n, step);
    case ReconnectSender => Unaffected(h, n.log, n.staged, n.reached, n.sender);
    case ReconnectReceiver =>
  }

  /** From any state: a tick that breaks ends exact if and only if the events folded before it are those up to the
      epoch it ends at; a whole one if and only if it began so or meets a snapshot; no other step matters. */
  lemma StepExact<S(!new), O(!new)>(h: Host<S, O>, n: Net<S, O>, step: Step<S, O>)
    requires Plumbed(h, n) && Enabled(h, n, step)
    ensures ExactlyOnce(After(h, n, step)) <==>
        if !step.TickReceiver? then ExactlyOnce(n)
        else if step.broken then n.folded == Range(0, Absorbed(n.receiver.coord, step.inbound).last)
        else ExactlyOnce(n) || HasSnapshot(step.inbound)
  {
    hide Ticked, FoldFrames, FrameOk, StateAt, Downward, Honest, AllKept, FoldOf, Absorbed, HasSnapshot, FoldedBy,
        Range;
    StepPlumbs(h, n, step);
    if step.TickReceiver? {
      ReceiverKeeps(h, n, step);
      ReceiverTick(h, n.log, n.projection, n.folded, n.receiver, step.inbound, step.broken, step.link, step.now,
          step.provider);
    }
  }

  /** Exactly-once survives a step if and only if the step is spared. */
  lemma StepKeeps<S(!new), O(!new)>(h: Host<S, O>, n: Net<S, O>, step: Step<S, O>)
    requires Plumbed(h, n) && ExactlyOnce(n) && Enabled(h, n, step)
    ensures Plumbed(h, After(h, n, step))
    ensures ExactlyOnce(After(h, n, step)) <==> Spared(n, step)
  {
    hide After, Plumbed, Enabled, ExactlyOnce, Absorbed;
    StepPlumbs(h, n, step);
    if step.TickReceiver? { ReceiverKeeps(h, n, step); }
  }

  ghost function Begun<S(!new), O(!new)>(h: Host<S, O>): Net<S, O> {
    var d := Driver([], Book(map[], 0), Coord(0, false), 0, false, false, None);
    Net([], d, d, h.init, [], 0, {}, [], [])
  }

  ghost function Ran<S(!new), O(!new)>(h: Host<S, O>, steps: seq<Step<S, O>>): Net<S, O> {
    if steps == [] then Begun(h) else After(h, Ran(h, steps[..|steps| - 1]), steps[|steps| - 1])
  }

  ghost predicate Possible<S(!new), O(!new)>(h: Host<S, O>, steps: seq<Step<S, O>>) {
    steps == [] ||
    (Possible(h, steps[..|steps| - 1]) && Enabled(h, Ran(h, steps[..|steps| - 1]), steps[|steps| - 1]))
  }

  ghost predicate AllSpared<S(!new), O(!new)>(h: Host<S, O>, steps: seq<Step<S, O>>) {
    steps == [] ||
    (AllSpared(h, steps[..|steps| - 1]) && Spared(Ran(h, steps[..|steps| - 1]), steps[|steps| - 1]))
  }

  /** Over every run, whatever the link loses, repeats or reorders and whenever a source breaks: the projection
      is the fold of the events it names, and every frame put up for sending beyond the highest epoch the
      receiver ever reached is still pending or retained. */
  lemma {:induction false} NothingUnacked<S(!new), O(!new)>(h: Host<S, O>, steps: seq<Step<S, O>>)
    requires Possible(h, steps)
    ensures Plumbed(h, Ran(h, steps))
    ensures FoldOf(h, Ran(h, steps).log, Ran(h, steps).projection, Ran(h, steps).folded)
    ensures Ran(h, steps).sender.outbox.cursor <= Ran(h, steps).reached
    ensures AllKept(Ran(h, steps).staged, Ran(h, steps).reached, Ran(h, steps).sender)
    decreases |steps|
  {
    hide After, Enabled, FoldFrames, FrameOk;
    if steps != [] {
      NothingUnacked(h, steps[..|steps| - 1]);
      StepPlumbs(h, Ran(h, steps[..|steps| - 1]), steps[|steps| - 1]);
    }
  }

  // ── How far the projection has folded, told from the inbound frames and the breaks alone ──

  /** The receiver's coordinator after `steps`. */
  function Heard<S, O>(steps: seq<Step<S, O>>): Coord {
    if steps == [] then Coord(0, false)
    else
      var c, step := Heard(steps[..|steps| - 1]), steps[|steps| - 1];
      if step.TickReceiver? then Absorbed(c, step.inbound) else c
  }

  /** The epoch the projection is folded to, if it is folded to any.  A tick that breaks folds nothing; a whole
      one with a snapshot folds to where it ends; a whole one of deltas folds on from where the epoch stood, which
      leaves a hole or a repetition if that is not where the projection stands. */
  function FoldedTo<S, O>(steps: seq<Step<S, O>>): Option<int> {
    if steps == [] then Some(0)
    else
      var front, step := steps[..|steps| - 1], steps[|steps| - 1];
      var at, from, to := FoldedTo(front), Heard(front).last, Heard(steps).last;
      if !step.TickReceiver? || step.broken then at
      else if HasSnapshot(step.inbound) || at == Some(from) then Some(to)
      else if from == to then at
      else None
  }

  /** The events folded are the first `at.val`, each once and in order; or, for `None`, they are no such list. */
  ghost predicate Folded(folded: seq<int>, at: Option<int>) {
    if at.Some? then at.val >= 0 && folded == Range(0, at.val) else forall k :: folded != Range(0, k)
  }

  lemma RangeInjective(a: int, b: int)
    requires a >= 0 && b >= 0 && Range(0, a) == Range(0, b)
    ensures a == b
  {
    assert |Range(0, a)| == a && |Range(0, b)| == b;
  }

  /** Folding on from elsewhere than where the list ends makes it no initial list, for good. */
  lemma FoldedOn(folded: seq<int>, at: Option<int>, from: int, to: int)
    requires Folded(folded, at) && at != Some(from) && 0 <= from <= to
    ensures Folded(folded + Range(from, to), if from == to then at else None)
  {
    hide Range;
    if from == to {
      assert folded + Range(from, to) == folded;
    } else {
      forall k ensures folded + Range(from, to) != Range(0, k) { HoleStays(folded, at, from, to, k); }
    }
  }

  lemma HoleStays(folded: seq<int>, at: Option<int>, from: int, to: int, k: int)
    requires Folded(folded, at) && at != Some(from) && 0 <= from < to
    ensures folded + Range(from, to) != Range(0, k)
  {
    hide Range;
    var more, n := folded + Range(from, to), |folded|;
    if at.Some? {
      assert more[n] == from != n;
    } else {
      assert folded != Range(0, n);
      assert exists i :: 0 <= i < n && folded[i] != i;
      var i :| 0 <= i < n && folded[i] != i;
      assert more[i] == folded[i];
    }
  }

  /** One tick, told the same way. */
  lemma TickFolds<S(!new), O(!new)>(h: Host<S, O>, n: Net<S, O>, step: Step<S, O>, at: Option<int>)
    requires Plumbed(h, n) && Enabled(h, n, step) && step.TickReceiver? && !step.broken && Folded(n.folded, at)
    ensures var from, to := n.receiver.coord.last, Absorbed(n.receiver.coord, step.inbound).last;
            Folded(After(h, n, step).folded,
                if HasSnapshot(step.inbound) || at == Some(from) then Some(to) else if from == to then at else None)
  {
    hide Ticked, FoldFrames, FrameOk, Downward, FoldOf, Absorbed, HasSnapshot, FoldedBy, Range, Honest, AllKept;
    ReceiverTick(h, n.log, n.projection, n.folded, n.receiver, step.inbound, step.broken, step.link, step.now,
        step.provider);
    var from := n.receiver.coord.last;
    if !HasSnapshot(step.inbound) && at != Some(from) {
      TickExtends(h, n.folded, n.receiver, step.inbound, step.broken, step.link, step.now, step.provider);
      FoldedOn(n.folded, at, from, Absorbed(n.receiver.coord, step.inbound).last);
    }
  }

  /** After any run the coordinator is what was heard, and the projection has folded what the frames and the
      breaks say. */
  lemma {:induction false} RunFolds<S(!new), O(!new)>(h: Host<S, O>, steps: seq<Step<S, O>>)
    requires Possible(h, steps)
    ensures Ran(h, steps).receiver.coord == Heard(steps)
    ensures Folded(Ran(h, steps).folded, FoldedTo(steps))
    decreases |steps|
  {
    hide Ticked, FoldFrames, FrameOk, Plumbed, Enabled, Absorbed, HasSnapshot, FoldedBy, Range, Folded;
    if steps != [] {
      var front, step := steps[..|steps| - 1], steps[|steps| - 1];
      var n := Ran(h, front);
      RunFolds(h, front);
      NothingUnacked(h, front);
      if step.TickReceiver? {
        TickHears(h, n, step);
        if !step.broken { TickFolds(h, n, step, FoldedTo(front)); }
      } else {
        OthersFoldNothing(h, n, step);
      }
    } else {
      BegunFolded(h);
    }
  }

  lemma TickHears<S(!new), O(!new)>(h: Host<S, O>, n: Net<S, O>, step: Step<S, O>)
    requires Plumbed(h, n) && Enabled(h, n, step) && step.TickReceiver?
    ensures After(h, n, step).receiver.coord == Absorbed(n.receiver.coord, step.inbound)
    ensures step.broken ==> After(h, n, step).folded == n.folded
  {
    hide Ticked, FoldFrames, FrameOk, Downward, FoldOf, Absorbed, HasSnapshot, FoldedBy, Range, Honest, AllKept;
    ReceiverTick(h, n.log, n.projection, n.folded, n.receiver, step.inbound, step.broken, step.link, step.now,
        step.provider);
  }

  lemma OthersFoldNothing<S(!new), O(!new)>(h: Host<S, O>, n: Net<S, O>, step: Step<S, O>)
    requires !step.TickReceiver?
    ensures After(h, n, step).receiver.coord == n.receiver.coord && After(h, n, step).folded == n.folded
  {
    hide Ticked;
  }

  lemma BegunFolded<S(!new), O(!new)>(h: Host<S, O>)
    ensures Begun(h).receiver.coord == Coord(0, false) && Folded(Begun(h).folded, Some(0))
  {
  }

  /** Over every run, whatever the link loses, repeats or reorders and whenever sources break: every event up to
      the receiver's epoch has been folded once and in order if and only if the projection is folded to that
      epoch; wherever it is folded to, it is the sender's state there; and while no breaking tick moves the epoch,
      that is where it is. */
  lemma ExactlyOnceEffect<S(!new), O(!new)>(h: Host<S, O>, steps: seq<Step<S, O>>)
    requires Possible(h, steps)
    ensures ExactlyOnce(Ran(h, steps)) <==> FoldedTo(steps) == Some(Heard(steps).last)
    ensures Ran(h, steps).receiver.coord == Heard(steps) && 0 <= Heard(steps).last <= |Ran(h, steps).log|
    ensures FoldedTo(steps).Some? ==>
              && 0 <= FoldedTo(steps).val <= |Ran(h, steps).log|
              && Ran(h, steps).projection == StateAt(h, Ran(h, steps).log, FoldedTo(steps).val)
    ensures AllSpared(h, steps) ==> ExactlyOnce(Ran(h, steps))
  {
    hide Possible, Ran, Heard, FoldedTo, FoldOf, Range, StateAt, AllSpared;
    NothingUnacked(h, steps);
    RunFolds(h, steps);
    var n, at := Ran(h, steps), FoldedTo(steps);
    if at.Some? {
      FoldedIsState(h, n, at.val);
      if ExactlyOnce(n) { RangeInjective(at.val, n.receiver.coord.last); }
    }
    if AllSpared(h, steps) { SparedFront(h, steps); SparedRun(h, steps); }
  }

  lemma FoldedIsState<S(!new), O(!new)>(h: Host<S, O>, n: Net<S, O>, k: int)
    requires Plumbed(h, n) && k >= 0 && n.folded == Range(0, k)
    ensures k <= |n.log| && n.projection == StateAt(h, n.log, k)
  {
    if k > 0 { assert n.folded[k - 1] == k - 1; }
    assert Picked(n.log, Range(0, k)) == n.log[..k];
  }

  lemma SparedFront<S(!new), O(!new)>(h: Host<S, O>, steps: seq<Step<S, O>>)
    requires AllSpared(h, steps)
    ensures steps != [] ==> AllSpared(h, steps[..|steps| - 1])
  {
  }

  /** Spared all along, a run is exact; and the first tick that is not spared ends that. */
  lemma {:induction false} SparedRun<S(!new), O(!new)>(h: Host<S, O>, steps: seq<Step<S, O>>)
    requires Possible(h, steps) && (steps != [] ==> AllSpared(h, steps[..|steps| - 1]))
    ensures ExactlyOnce(Ran(h, steps)) <==> AllSpared(h, steps)
    decreases |steps|
  {
    hide After, Enabled, FoldFrames, FrameOk, Spared, ExactlyOnce;
    if steps != [] {
      var front := steps[..|steps| - 1];
      NothingUnacked(h, front);
      SparedRun(h, front);
      StepKeeps(h, Ran(h, front), steps[|steps| - 1]);
    } else {
      BegunExact(h);
    }
  }

  lemma BegunExact<S(!new), O(!new)>(h: Host<S, O>)
    ensures ExactlyOnce(Begun(h))
  {
  }

  /** However many events earlier breaks have lost, a whole tick with a snapshot among its frames restores it all. */
  lemma SnapshotHeals<S(!new), O(!new)>(h: Host<S, O>, steps: seq<Step<S, O>>, tick: Step<S, O>)
    requires Possible(h, steps) && Enabled(h, Ran(h, steps), tick)
    requires tick.TickReceiver? && !tick.broken && HasSnapshot(tick.inbound)
    ensures ExactlyOnce(After(h, Ran(h, steps), tick))
  {
    hide After, Enabled, ExactlyOnce, HasSnapshot;
    NothingUnacked(h, steps);
    ReceiverKeeps(h, Ran(h, steps), tick);
  }

  /** Whole ticks of deltas never do: what was lost to a break stays lost through them. */
  lemma DeltasDoNotHeal<S(!new), O(!new)>(h: Host<S, O>, steps: seq<Step<S, O>>, step: Step<S, O>)
    requires Possible(h, steps) && Enabled(h, Ran(h, steps), step) && !ExactlyOnce(Ran(h, steps))
    requires step.TickReceiver? ==> !step.broken && !HasSnapshot(step.inbound)
    ensures !ExactlyOnce(After(h, Ran(h, steps), step))
  {
    hide After, Enabled, ExactlyOnce, HasSnapshot;
    NothingUnacked(h, steps);
    StepPlumbs(h, Ran(h, steps), step);
    if step.TickReceiver? { ReceiverKeeps(h, Ran(h, steps), step); }
  }

  /** The failing family is real: the source breaks right after a frame was applied.  The epoch has
      moved, the projection has not, and the frame will be ignored for ever after. */
  lemma BrokenTickForgets(link: nat -> bool, provider: int -> Msg<int, int>)
    ensures var h := Host(0, (s: int, o: int) => s + o);
            var m := Delta(0, 1, [5]);
            var n := Begun(h).(log := [5], down := [m]);
            var n' := After(h, n, TickReceiver([m], true, link, 0, provider));
            && Plumbed(h, n) && ExactlyOnce(n) && Enabled(h, n, TickReceiver([m], true, link, 0, provider))
            && n'.projection == 0 && n'.receiver.coord.last == 1 && !ExactlyOnce(n')
            && StateAt(h, n'.log, 1) == 5 && IngestStep(n'.receiver.coord, m).1 == Ignore
  {
    var h := Host(0, (s: int, o: int) => s + o);
    var m: Msg<int, int> := Delta(0, 1, [5]);
    var n := Begun(h).(log := [5], down := [m]);
    var step: Step<int, int> := TickReceiver([m], true, link, 0, provider);
    assert n.log[0..1] == [5] && n.log[..0] == [] && n.log[..1] == [5];
    assert Picked(n.log, []) == [];
    assert Plumbed(h, n);
    assert [m][..0] == [] && [m][0] == m;
    assert Absorbed(n.receiver.coord, [m]) == IngestStep(Absorbed<int, int>(n.receiver.coord, []), m).0;
    ReceiverTick(h, n.log, n.projection, n.folded, n.receiver, [m], true, link, 0, provider);
    assert FoldOps(h.fold, 0, [5]) == 5 by {
      assert [5][1..] == [];
      assert FoldOps(h.fold, 0, [5]) == FoldOps(h.fold, h.fold(0, 5), []);
    }
    ReceiverKeeps(h, n, step);
  }

  lemma AbsorbedOne<S, O>(c: Coord, m: Msg<S, O>)
    ensures Absorbed(c, [m]) == IngestStep(c, m).0
  {
    assert [m][..0] == [];
    assert Absorbed<S, O>(c, []) == c;
  }

  /** A second break may undo the first: a stale snapshot, broken, takes the epoch back below the projection, and a
      delta, broken too, brings it up again.  Neither tick is spared, and the second meets no snapshot. */
  lemma BreakUndoesBreak(link: nat -> bool, provider: int -> Msg<int, int>)
    ensures var h := Host(0, (s: int, o: int) => s + o);
            var down: seq<Msg<int, int>> := [Snapshot(0, 0), Delta(0, 1, [5])];
            var n := Begun(h).(log := [5], projection := 5, folded := [0], reached := 1, down := down);
            var n0 := n.(receiver := n.receiver.(coord := Coord(1, false)));
            var away := TickReceiver([down[0]], true, link, 0, provider);
            var back := TickReceiver([down[1]], true, link, 0, provider);
            var n1 := After(h, n0, away);
            && Plumbed(h, n0) && ExactlyOnce(n0) && Enabled(h, n0, away) && !Spared(n0, away) && !ExactlyOnce(n1)
            && Enabled(h, n1, back) && !Spared(n1, back) && ExactlyOnce(After(h, n1, back))
  {
    var h := Host(0, (s: int, o: int) => s + o);
    var snapshot: Msg<int, int>, delta: Msg<int, int> := Snapshot(0, 0), Delta(0, 1, [5]);
    var n := Begun(h).(log := [5], projection := 5, folded := [0], reached := 1, down := [snapshot, delta]);
    var n0 := n.(receiver := n.receiver.(coord := Coord(1, false)));
    var away: Step<int, int> := TickReceiver([snapshot], true, link, 0, provider);
    var back: Step<int, int> := TickReceiver([delta], true, link, 0, provider);
    FiveFolded(n0.log);
    assert Plumbed(h, n0);
    hide Plumbed, FoldOf, Ticked, FrameOk, Range;
    assert Range(0, 1) == [0];
    AbsorbedOne(n0.receiver.coord, snapshot);
    StepExact(h, n0, away);
    StepPlumbs(h, n0, away);
    TickHears(h, n0, away);
    var n1 := After(h, n0, away);
    AbsorbedOne(n1.receiver.coord, delta);
    StepExact(h, n1, back);
  }

  lemma FiveFolded(log: seq<int>)
    requires log == [5]
    ensures var h := Host(0, (s: int, o: int) => s + o);
            && FoldOf(h, log, 5, [0]) && FrameOk(h, log, Snapshot(0, 0)) && FrameOk(h, log, Delta(0, 1, [5]))
  {
    var h := Host(0, (s: int, o: int) => s + o);
    assert log[..0] == [] && log[0..1] == [5];
    assert Picked(log, [0]) == [5] && [5][1..] == [];
    assert FoldOps(h.fold, 0, [5]) == FoldOps(h.fold, h.fold(0, 5), []) == 5;
  }

  // ── Catching up ──

  /** Deltas end to end from `from`. */
  ghost predicate Chain<S(!new), O(!new)>(frames: seq<Msg<S, O>>, from: int) {
    frames == [] ||
    (frames[0].Delta? && frames[0].base == from && frames[0].epoch > from && Chain(frames[1..], frames[0].epoch))
  }

  function ChainEnd<S, O>(frames: seq<Msg<S, O>>, from: int): int {
    if frames == [] then from else if frames[0].Delta? then ChainEnd(frames[1..], frames[0].epoch) else from
  }

  function IngestAll<S, O>(c: Coord, frames: seq<Msg<S, O>>): Coord
    decreases |frames|
  {
    if frames == [] then c else IngestAll(IngestStep(c, frames[0]).0, frames[1..])
  }

  lemma {:induction false} ChainRises<S(!new), O(!new)>(frames: seq<Msg<S, O>>, from: int)
    requires Chain(frames, from)
    ensures from <= ChainEnd(frames, from)
    decreases |frames|
  {
    if frames != [] { ChainRises(frames[1..], frames[0].epoch); }
  }

  /** A replayed suffix that starts at or before the receiver's epoch, and has it as a boundary, brings
      the receiver to the suffix's end. */
  lemma {:induction false} ReplayCatchesUp<S(!new), O(!new)>(c: Coord, frames: seq<Msg<S, O>>, from: int, k: nat)
    requires Chain(frames, from) && k <= |frames| && c.last == ChainEnd(frames[..k], from)
    ensures IngestAll(c, frames).last == ChainEnd(frames, from)
    ensures k < |frames| ==> !IngestAll(c, frames).resyncing
    decreases |frames|
  {
    if frames != [] {
      if k == 0 {
        assert frames[..0] == [];
        assert frames[1..][..0] == [];
        ReplayCatchesUp(IngestStep(c, frames[0]).0, frames[1..], frames[0].epoch, 0);
        if |frames| == 1 { assert frames[1..] == []; }
      } else {
        assert frames[..k][1..] == frames[1..][..k - 1];
        ChainPrefix(frames[1..], frames[0].epoch, k - 1);
        ReplayCatchesUp(c, frames[1..], frames[0].epoch, k - 1);
      }
    }
  }

  lemma {:induction false} ChainPrefix<S(!new), O(!new)>(frames: seq<Msg<S, O>>, from: int, k: nat)
    requires Chain(frames, from) && k <= |frames|
    ensures Chain(frames[..k], from) && from <= ChainEnd(frames[..k], from)
    decreases |frames|
  {
    if k > 0 {
      assert frames[..k][1..] == frames[1..][..k - 1];
      ChainPrefix(frames[1..], frames[0].epoch, k - 1);
    }
  }

  // ── One loss-free round trip ──

  function Frames<S, O>(list: seq<(int, Msg<S, O>)>): (r: seq<Msg<S, O>>)
    ensures |r| == |list| && forall i :: 0 <= i < |list| ==> r[i] == list[i].1
  {
    seq(|list|, i requires 0 <= i < |list| => list[i].1)
  }

  lemma FramesFirst<S, O>(sent: seq<Msg<S, O>>, list: seq<(int, Msg<S, O>)>)
    requires list != []
    ensures sent + [list[0].1] + Frames(list[1..]) == sent + Frames(list)
  {
  }

  lemma {:induction false} ReplayKeepsCoord<S, O>(
      t: Turn<S, O>, list: seq<(int, Msg<S, O>)>, link: nat -> bool, now: int)
    ensures Replayed(t, list, link, now).d.coord == t.d.coord
    decreases |list|
  {
    if list != [] && link(t.p.tries) {
      var p := Send(t.p, list[0].1, link);
      ReplayKeepsCoord(Turn(t.d, p.(data := p.data + 1)), list[1..], link, now);
    }
  }

  lemma {:induction false} DrainKeepsCoord<S, O>(t: Turn<S, O>, link: nat -> bool, now: int)
    ensures Emptied(t, link, now).d.coord == t.d.coord
    decreases |t.d.pending|
  {
    if t.d.stalled.None? && t.d.pending != [] && link(t.p.tries) {
      var (epoch, msg) := t.d.pending[0];
      var d := t.d.(outbox := Appended(t.d.outbox, epoch, msg), pending := t.d.pending[1..]);
      var p := Send(t.p, msg, link);
      DrainKeepsCoord(Turn(d, p.(data := p.data + 1)), link, now);
    }
  }

  lemma {:induction false} TakenAbsorbs<S, O>(
      t: Turn<S, O>, inbound: seq<Msg<S, O>>, link: nat -> bool, now: int, provider: int -> Msg<S, O>)
    ensures TookAll(t, inbound, link, now, provider).d.coord == Absorbed(t.d.coord, inbound)
    decreases |inbound|
  {
    if inbound != [] { TakenAbsorbs(t, inbound[..|inbound| - 1], link, now, provider); }
  }

  /** The coordinator moves with the frames taken in and with nothing else. */
  lemma TickAbsorbs<S(!new), O(!new)>(
      d: Driver<S, O>, inbound: seq<Msg<S, O>>, broken: bool, link: nat -> bool, now: int, provider: int -> Msg<S, O>)
    ensures Ticked(d, inbound, broken, link, now, provider).d.coord == Absorbed(d.coord, inbound)
  {
    hide Took, Absorbed, ReplayList, Emptied, Replayed, TookAll;
    var t := Turn(d, Progress([], 0, [], 0, 0, false));
    ReplayKeepsCoord(t.(d := d.(replayPending := false)), ReplayList(d.outbox, d.peerAcked), link, now);
    DrainKeepsCoord(Started(d, link, now), link, now);
    TakenAbsorbs(Emptied(Started(d, link, now), link, now), inbound, link, now, provider);
  }

  lemma {:induction false} AbsorbedSplits<S, O>(c: Coord, a: seq<Msg<S, O>>, b: seq<Msg<S, O>>)
    ensures Absorbed(c, a + b) == Absorbed(Absorbed(c, a), b)
    decreases |b|
  {
    if b == [] {
      assert a + b == a;
    } else {
      assert (a + b)[..|a + b| - 1] == a + b[..|b| - 1];
      AbsorbedSplits(c, a, b[..|b| - 1]);
    }
  }

  lemma {:induction false} AbsorbedIsIngest<S, O>(c: Coord, frames: seq<Msg<S, O>>)
    ensures Absorbed(c, frames) == IngestAll(c, frames)
    decreases |frames|
  {
    if frames != [] {
      assert frames == [frames[0]] + frames[1..];
      AbsorbedSplits(c, [frames[0]], frames[1..]);
      assert Absorbed(c, [frames[0]]) == IngestStep(Absorbed<S, O>(c, []), frames[0]).0 by
          { assert [frames[0]][..0] == []; }
      AbsorbedIsIngest(IngestStep(c, frames[0]).0, frames[1..]);
    }
  }

  /** What a tick replays, if a replay is due. */
  ghost function Due<S(!new), O(!new)>(d: Driver<S, O>): seq<(int, Msg<S, O>)> {
    if d.replayPending then ReplayList(d.outbox, d.peerAcked) else []
  }

  /** What a driver that is not stalled has to send of its own: the replay after a reconnect, then what is pending. */
  ghost function Backlog<S(!new), O(!new)>(d: Driver<S, O>): seq<Msg<S, O>> {
    Frames(Due(d)) + Frames(d.pending)
  }

  /** The outbox after frames were handed to it in order. */
  function Handed<F>(b: Book<F>, list: seq<(int, F)>): Book<F>
    decreases |list|
  {
    if list == [] then b else Handed(Appended(b, list[0].0, list[0].1), list[1..])
  }

  /** From the `first`-th try on, the link takes `k` of `all` frames, and refuses the next if there is one. */
  ghost predicate Takes(link: nat -> bool, first: nat, k: nat, all: nat) {
    k <= all && (forall i :: first <= i < first + k ==> link(i)) && (k < all ==> !link(first + k))
  }

  function Tries(k: nat, all: nat): nat {
    if k < all then k + 1 else k
  }

  lemma {:induction false} ReplayStops<S, O>(
      t: Turn<S, O>, list: seq<(int, Msg<S, O>)>, link: nat -> bool, now: int, k: nat)
    requires Takes(link, t.p.tries, k, |list|)
    ensures var u := Replayed(t, list, link, now);
            && u.p == t.p.(sent := t.p.sent + Frames(list[..k]), tries := t.p.tries + Tries(k, |list|),
                           data := t.p.data + k)
            && u.d == if k < |list| then t.d.(stalled := Some(now), replayPending := true) else t.d
    decreases |list|
  {
    hide Frames;
    if k == 0 {
      NoFrames(t.p.sent, list);
    } else {
      var p := Send(t.p, list[0].1, link);
      ReplayStops(Turn(t.d, p.(data := p.data + 1)), list[1..], link, now, k - 1);
      FramesFirst(t.p.sent, list[..k]);
      assert list[..k][1..] == list[1..][..k - 1];
    }
  }

  lemma NoFrames<S, O>(sent: seq<Msg<S, O>>, list: seq<(int, Msg<S, O>)>)
    ensures sent + Frames(list[..0]) == sent
  {
  }

  lemma {:induction false} DrainStops<S, O>(t: Turn<S, O>, link: nat -> bool, now: int, k: nat)
    requires t.d.stalled.None? && Takes(link, t.p.tries, k, |t.d.pending|)
    ensures Emptied(t, link, now) == Drained(t, now, k)
    decreases |t.d.pending|
  {
    hide Appended, Drained;
    var list := t.d.pending;
    if list == [] {
      DrainedNone(t, now);
    } else if k == 0 {
      DrainedRefused(t, link, now);
    } else {
      var (epoch, msg) := list[0];
      var d := t.d.(outbox := Appended(t.d.outbox, epoch, msg), pending := list[1..]);
      var p := Send(t.p, msg, link);
      var next := Turn(d, p.(data := p.data + 1));
      DrainStops(next, link, now, k - 1);
      DrainedNext(t, link, now, k, next);
    }
  }

  /** The driver once the link has taken the first `k` pending frames and, if there are more, refused one. */
  function Drained<S, O>(t: Turn<S, O>, now: int, k: nat): Turn<S, O>
    requires k <= |t.d.pending|
  {
    var list := t.d.pending;
    var n := Tries(k, |list|);
    Turn(t.d.(pending := list[n..], outbox := Handed(t.d.outbox, list[..n]),
              stalled := if k < |list| then Some(now) else t.d.stalled),
         t.p.(sent := t.p.sent + Frames(list[..k]), tries := t.p.tries + n, data := t.p.data + k))
  }

  lemma DrainedNone<S, O>(t: Turn<S, O>, now: int)
    requires t.d.pending == []
    ensures Drained(t, now, 0) == t
  {
    NoFrames(t.p.sent, t.d.pending);
  }

  lemma DrainedRefused<S, O>(t: Turn<S, O>, link: nat -> bool, now: int)
    requires t.d.stalled.None? && t.d.pending != [] && !link(t.p.tries)
    ensures Emptied(t, link, now) == Drained(t, now, 0)
  {
    hide Appended;
    NoFrames(t.p.sent, t.d.pending);
    HandedFirst(t.d.outbox, t.d.pending, 1);
    assert t.d.pending[1..][..0] == [];
  }

  lemma DrainedNext<S, O>(t: Turn<S, O>, link: nat -> bool, now: int, k: nat, next: Turn<S, O>)
    requires 0 < k <= |t.d.pending| && link(t.p.tries)
    requires var (epoch, msg) := t.d.pending[0];
             next == Turn(t.d.(outbox := Appended(t.d.outbox, epoch, msg), pending := t.d.pending[1..]),
                          Send(t.p, msg, link).(data := t.p.data + 1))
    ensures Drained(next, now, k - 1) == Drained(t, now, k)
  {
    hide Appended, Frames, Handed;
    var list := t.d.pending;
    FramesFirst(t.p.sent, list[..k]);
    assert list[..k][1..] == list[1..][..k - 1];
    HandedFirst(t.d.outbox, list, Tries(k, |list|));
  }

  lemma HandedFirst<F>(b: Book<F>, list: seq<(int, F)>, n: nat)
    requires 0 < n <= |list|
    ensures Handed(b, list[..n]) == Handed(Appended(b, list[0].0, list[0].1), list[1..][..n - 1])
  {
    assert list[..n][1..] == list[1..][..n - 1];
  }

  ghost function Replaying<S(!new), O(!new)>(d: Driver<S, O>, k: nat, tries: nat): Progress<S, O>
    requires k <= |Due(d)|
  {
    Progress([] + Frames(Due(d)[..k]), tries, [], k, 0, false)
  }

  lemma ReplayBreaksOff<S(!new), O(!new)>(d: Driver<S, O>, link: nat -> bool, now: int, k: nat)
    requires k < |Due(d)| && Takes(link, 0, k, |Due(d)|)
    ensures Emptied(Started(d, link, now), link, now)
         == Turn(d.(stalled := Some(now), replayPending := true), Replaying(d, k, k + 1))
  {
    hide ReplayList, Replayed, Frames, Takes;
    ReplayStops(Turn(d.(replayPending := false), Progress([], 0, [], 0, 0, false)), Due(d), link, now, k);
  }

  lemma ReplayPasses<S(!new), O(!new)>(d: Driver<S, O>, link: nat -> bool, now: int, k: nat)
    requires d.stalled.None? && Takes(link, 0, |Due(d)|, |Due(d)|) && Takes(link, |Due(d)|, k, |d.pending|)
    ensures Emptied(Started(d, link, now), link, now)
         == Drained(Turn(d.(replayPending := false), Replaying(d, |Due(d)|, |Due(d)|)), now, k)
  {
    hide ReplayList, Replayed, Emptied, Frames, Takes, Drained;
    var t := Turn(d.(replayPending := false), Progress([], 0, [], 0, 0, false));
    ReplayStops(t, Due(d), link, now, |Due(d)|);
    if !d.replayPending { NoFrames([], Due(d)); }
    assert Started(d, link, now) == Turn(d.(replayPending := false), Replaying(d, |Due(d)|, |Due(d)|));
    DrainStops(Started(d, link, now), link, now, k);
  }

  /** `t` is the driver `d` after it sent `all` up to the first frame refused, the first `replay` of them a replay. */
  ghost predicate Halted<S, O>(d: Driver<S, O>, t: Turn<S, O>, all: seq<Msg<S, O>>, replay: nat, k: nat, now: int) {
    && k <= |all| && |all| == replay + |d.pending| && t.p.data == k && t.p.sent == all[..k]
    && t.d.stalled == (if k < |all| then Some(now) else None)
    && (t.d.replayPending <==> k < replay)
    && var tried := if k < replay then 0 else Tries(k, |all|) - replay;
       t.d.pending == d.pending[tried..] && t.d.outbox == Handed(d.outbox, d.pending[..tried])
  }

  lemma ReplayHalts<S(!new), O(!new)>(d: Driver<S, O>, k: nat, now: int)
    requires k < |Due(d)|
    ensures Halted(d, Turn(d.(stalled := Some(now), replayPending := true), Replaying(d, k, k + 1)),
                   Frames(Due(d)) + Frames(d.pending), |Due(d)|, k, now)
  {
    hide Due, Handed;
    FramesSplit(Due(d), d.pending, k);
    HandedNone(d.outbox, d.pending);
  }

  lemma DrainHalts<S(!new), O(!new)>(d: Driver<S, O>, k: nat, now: int)
    requires d.stalled.None? && k <= |d.pending|
    ensures Halted(d, Drained(Turn(d.(replayPending := false), Replaying(d, |Due(d)|, |Due(d)|)), now, k),
                   Frames(Due(d)) + Frames(d.pending), |Due(d)|, |Due(d)| + k, now)
  {
    hide Due, Handed;
    FramesSplit(Due(d), d.pending, |Due(d)| + k);
  }

  lemma EmptiedHalts<S(!new), O(!new)>(d: Driver<S, O>, link: nat -> bool, now: int, k: nat)
    requires d.stalled.None? && Takes(link, 0, k, |Due(d)| + |d.pending|)
    ensures var t := Emptied(Started(d, link, now), link, now);
            && Halted(d, t, Frames(Due(d)) + Frames(d.pending), |Due(d)|, k, now)
            && t.p.tries == Tries(k, |Due(d)| + |d.pending|) && t.d.ackOwed == d.ackOwed && t.d.coord == d.coord
  {
    hide Emptied, Handed, Takes, Started, Due, Halted;
    BacklogCut(link, k, |Due(d)|, |d.pending|);
    if k < |Due(d)| {
      ReplayBreaksOff(d, link, now, k);
      ReplayHalts(d, k, now);
    } else {
      ReplayPasses(d, link, now, k - |Due(d)|);
      DrainHalts(d, k - |Due(d)|, now);
    }
  }

  /** `u` is the driver so halted after it tried its acknowledgement, if it owed one. */
  ghost predicate HaltedTick<S, O>(
      d: Driver<S, O>, u: Turn<S, O>, all: seq<Msg<S, O>>, replay: nat, k: nat, now: int, link: nat -> bool)
  {
    && k <= |all| && Halted(d, u.(p := u.p.(sent := all[..k])), all, replay, k, now)
    && u.p.sent == all[..k] + if d.ackOwed && link(Tries(k, |all|)) then [OutboxAck(d.coord.last)] else []
  }

  lemma HaltedAdvertises<S, O>(
      d: Driver<S, O>, t: Turn<S, O>, all: seq<Msg<S, O>>, replay: nat, k: nat, now: int, link: nat -> bool)
    requires Halted(d, t, all, replay, k, now)
    requires t.p.tries == Tries(k, |all|) && t.d.ackOwed == d.ackOwed && t.d.coord == d.coord
    ensures HaltedTick(d, Advertised(t, link), all, replay, k, now, link)
  {
    hide Handed;
  }

  /** Over any link: a tick with nothing coming in sends the backlog up to the first frame the link refuses, and then
      tries its acknowledgement.  What it tried of the pending frames is in the outbox, the refused one included; the
      rest stays pending, the driver is stalled, and the replay stays due if it was the replay that broke off. */
  lemma BacklogStops<S(!new), O(!new)>(
      d: Driver<S, O>, link: nat -> bool, now: int, provider: int -> Msg<S, O>, k: nat)
    requires d.stalled.None? && Takes(link, 0, k, |Backlog(d)|)
    ensures HaltedTick(d, Ticked(d, [], false, link, now, provider), Backlog(d), |Due(d)|, k, now, link)
  {
    assert Backlog(d) == Frames(Due(d)) + Frames(d.pending);
    hide Emptied, TookAll, Takes, Started, Due, Backlog, Halted, HaltedTick, Advertised, Frames;
    NothingTaken(Emptied(Started(d, link, now), link, now), link, now, provider);
    EmptiedHalts(d, link, now, k);
    HaltedAdvertises(d, Emptied(Started(d, link, now), link, now), Backlog(d), |Due(d)|, k, now, link);
  }

  lemma FramesSplit<S, O>(a: seq<(int, Msg<S, O>)>, b: seq<(int, Msg<S, O>)>, k: nat)
    requires k <= |a| + |b|
    ensures (Frames(a) + Frames(b))[..k]
         == if k < |a| then [] + Frames(a[..k]) else [] + Frames(a[..|a|]) + Frames(b[..k - |a|])
  {
  }

  lemma BacklogCut(link: nat -> bool, k: nat, replay: nat, pending: nat)
    requires Takes(link, 0, k, replay + pending)
    ensures Takes(link, 0, if k < replay then k else replay, replay)
    ensures k >= replay ==> Takes(link, replay, k - replay, pending)
  {
    if k >= replay {
      forall i | replay <= i < replay + (k - replay) ensures link(i) {}
    }
  }

  lemma HandedNone<F>(b: Book<F>, list: seq<(int, F)>)
    ensures list[0..] == list && Handed(b, list[..0]) == b
  {
  }

  /** Over a link that loses nothing such a tick sends all of it in order, and its acknowledgement if it owes one. */
  lemma BacklogSent<S(!new), O(!new)>(d: Driver<S, O>, link: nat -> bool, now: int, provider: int -> Msg<S, O>)
    requires (forall i :: link(i)) && d.stalled.None?
    ensures var t := Ticked(d, [], false, link, now, provider);
            && t.d.pending == [] && t.d.stalled == None && !t.d.replayPending
            && t.p.sent == Backlog(d) + if d.ackOwed then [OutboxAck(d.coord.last)] else []
  {
    BacklogStops(d, link, now, provider, |Backlog(d)|);
    assert Backlog(d)[..|Backlog(d)|] == Backlog(d);
    hide Ticked, Backlog, Due, Handed;
  }

  /** One tick of a sender that is not stalled, over a link that loses nothing, and one of the receiver on what it
      sent bring the receiver to the end of the sender's backlog, if that is a chain with the receiver's epoch
      among its boundaries. */
  lemma RoundTripCatchesUp<S(!new), O(!new)>(
      sender: Driver<S, O>, receiver: Driver<S, O>, from: int, k: nat,
      link: nat -> bool, now: int, provider: int -> Msg<S, O>, back: nat -> bool, later: int)
    requires (forall i :: link(i)) && sender.stalled.None?
    requires var frames := Backlog(sender);
             Chain(frames, from) && k <= |frames| && receiver.coord.last == ChainEnd(frames[..k], from)
    ensures var sent := Ticked(sender, [], false, link, now, provider).p.sent;
            Ticked(receiver, sent, false, back, later, provider).d.coord.last == ChainEnd(Backlog(sender), from)
  {
    hide Ticked, Absorbed, Backlog, Chain, ChainEnd, IngestAll;
    BacklogSent(sender, link, now, provider);
    var frames, sent := Backlog(sender), Ticked(sender, [], false, link, now, provider).p.sent;
    var ack: Msg<S, O> := OutboxAck(sender.coord.last);
    AbsorbedSplits(receiver.coord, frames, [ack]);
    AckAbsorbed(Absorbed(receiver.coord, frames), ack);
    assert frames + [] == frames;
    TickAbsorbs(receiver, sent, false, back, later, provider);
    AbsorbedIsIngest(receiver.coord, frames);
    ReplayCatchesUp(receiver.coord, frames, from, k);
  }

  lemma NothingTaken<S, O>(t: Turn<S, O>, link: nat -> bool, now: int, provider: int -> Msg<S, O>)
    ensures TookAll(t, [], link, now, provider) == t
  {
  }

  // ── Requests and answers ──

  /** `c` finds the delta `m` beyond its epoch and has not asked yet. */
  predicate Gap<S, O>(c: Coord, m: Msg<S, O>) {
    m.Delta? && m.base > c.last && !c.resyncing
  }

  lemma TookAnswers<S, O>(
      t: Turn<S, O>, m: Msg<S, O>, link: nat -> bool, now: int, provider: int -> Msg<S, O>)
    requires forall i :: link(i)
    ensures var sent := Took(t, m, link, now, provider).p.sent;
            && (forall x :: x in t.p.sent ==> x in sent)
            && (m.ResyncRequest? ==> provider(m.from) in sent)
            && (Gap(t.d.coord, m) ==> ResyncRequest(t.d.coord.last) in sent)
  {
  }

  lemma {:induction false} TookAllAnswers<S, O>(
      t: Turn<S, O>, inbound: seq<Msg<S, O>>, i: nat, link: nat -> bool, now: int, provider: int -> Msg<S, O>)
    requires (forall i :: link(i)) && i < |inbound|
    ensures var sent, c := TookAll(t, inbound, link, now, provider).p.sent, Absorbed(t.d.coord, inbound[..i]);
            && (inbound[i].ResyncRequest? ==> provider(inbound[i].from) in sent)
            && (Gap(c, inbound[i]) ==> ResyncRequest(c.last) in sent)
    decreases |inbound|
  {
    hide Took, Absorbed, Gap;
    var front := inbound[..|inbound| - 1];
    TookAnswers(TookAll(t, front, link, now, provider), inbound[|inbound| - 1], link, now, provider);
    if i < |front| {
      assert front[..i] == inbound[..i];
      TookAllAnswers(t, front, i, link, now, provider);
    } else {
      TakenAbsorbs(t, front, link, now, provider);
    }
  }

  /** Over a link that loses nothing a tick answers each request it meets with what the provider has for it, and
      asks at the first delta beyond its epoch. */
  lemma TickAnswers<S(!new), O(!new)>(
      d: Driver<S, O>, inbound: seq<Msg<S, O>>, i: nat, broken: bool, link: nat -> bool, now: int,
      provider: int -> Msg<S, O>)
    requires (forall i :: link(i)) && i < |inbound|
    ensures var sent, c := Ticked(d, inbound, broken, link, now, provider).p.sent, Absorbed(d.coord, inbound[..i]);
            && (inbound[i].ResyncRequest? ==> provider(inbound[i].from) in sent)
            && (Gap(c, inbound[i]) ==> ResyncRequest(c.last) in sent)
  {
    hide Took, Absorbed, ReplayList, Emptied, Replayed, TookAll, Gap;
    var t := Turn(d, Progress([], 0, [], 0, 0, false));
    ReplayKeepsCoord(t.(d := d.(replayPending := false)), ReplayList(d.outbox, d.peerAcked), link, now);
    DrainKeepsCoord(Started(d, link, now), link, now);
    TookAllAnswers(Emptied(Started(d, link, now), link, now), inbound, i, link, now, provider);
  }

  /** Over links that lose nothing a gap closes itself, whatever breaks went before: the receiver's tick that meets
      it asks, the sender's tick on what was sent answers with a snapshot, and after the receiver's next whole tick
      on that its projection is the sender's state at its epoch. */
  lemma GapHeals<S(!new), O(!new)>(
      h: Host<S, O>, steps: seq<Step<S, O>>, meet: Step<S, O>, i: nat, answer: Step<S, O>, settle: Step<S, O>)
    requires Possible(h, steps) && Enabled(h, Ran(h, steps), meet) && meet.TickReceiver? && i < |meet.inbound|
    requires Gap(Absorbed(Ran(h, steps).receiver.coord, meet.inbound[..i]), meet.inbound[i])
    requires answer.TickSender? && (forall k :: meet.link(k)) && (forall k :: answer.link(k))
    requires forall from ::
               answer.provider(from).Snapshot? && FrameOk(h, Ran(h, steps).log, answer.provider(from))
    requires var n := Ran(h, steps);
             answer.inbound
             == Ticked(n.receiver, meet.inbound, meet.broken, meet.link, meet.now, meet.provider).p.sent
    requires settle.TickReceiver? && !settle.broken
    requires var n := After(h, Ran(h, steps), meet);
             settle.inbound
             == Ticked(n.sender, answer.inbound, answer.broken, answer.link, answer.now, answer.provider).p.sent
    ensures var n := After(h, After(h, After(h, Ran(h, steps), meet), answer), settle);
            ExactlyOnce(n) && 0 <= n.receiver.coord.last <= |n.log|
            && n.projection == StateAt(h, n.log, n.receiver.coord.last)
  {
    hide Ticked, FrameOk, ExactlyOnce, Absorbed, Gap, Ran, Possible, StateAt, Honest, AllKept, FoldOf;
    NothingUnacked(h, steps);
    var n := Ran(h, steps);
    StepPlumbs(h, n, meet);
    var n1 := After(h, n, meet);
    TickAnswers(n.receiver, meet.inbound, i, meet.broken, meet.link, meet.now, meet.provider);
    var ask: Msg<S, O> := ResyncRequest(Absorbed(n.receiver.coord, meet.inbound[..i]).last);
    var k :| 0 <= k < |answer.inbound| && answer.inbound[k] == ask;
    StepPlumbs(h, n1, answer);
    var n2 := After(h, n1, answer);
    TickAnswers(n1.sender, answer.inbound, k, answer.broken, answer.link, answer.now, answer.provider);
    assert HasSnapshot(settle.inbound);
    ReceiverKeeps(h, n2, settle);
    ExactlyOnceIsState(h, After(h, n2, settle));
  }

  // ── Acknowledgements ──

  predicate HasData<S, O>(frames: seq<Msg<S, O>>) {
    exists i :: 0 <= i < |frames| && (frames[i].Snapshot? || frames[i].Delta?)
  }

  lemma DataSnoc<S(!new), O(!new)>(frames: seq<Msg<S, O>>, m: Msg<S, O>)
    ensures HasData(frames + [m]) <==> HasData(frames) || m.Snapshot? || m.Delta?
  {
    var more := frames + [m];
    assert more[|frames|] == m;
    if i :| 0 <= i < |frames| && (frames[i].Snapshot? || frames[i].Delta?) { assert more[i] == frames[i]; }
  }

  /** In mid-tick: an acknowledgement is owed if it was at the outset or some data has been applied since. */
  ghost predicate Owing<S(!new), O(!new)>(owed: bool, t: Turn<S, O>) {
    t.d.ackOwed <==> owed || HasData(t.p.applied)
  }

  lemma TookOwes<S(!new), O(!new)>(
      owed: bool, t: Turn<S, O>, m: Msg<S, O>, link: nat -> bool, now: int, provider: int -> Msg<S, O>)
    requires Owing(owed, t)
    ensures Owing(owed, Took(t, m, link, now, provider))
  {
    hide HasData;
    DataSnoc(t.p.applied, m);
  }

  lemma {:induction false} TookAllOwes<S(!new), O(!new)>(
      owed: bool, t: Turn<S, O>, inbound: seq<Msg<S, O>>, link: nat -> bool, now: int, provider: int -> Msg<S, O>)
    requires Owing(owed, t)
    ensures Owing(owed, TookAll(t, inbound, link, now, provider))
    decreases |inbound|
  {
    hide Took, Owing;
    if inbound != [] {
      var front := inbound[..|inbound| - 1];
      TookAllOwes(owed, t, front, link, now, provider);
      TookOwes(owed, TookAll(t, front, link, now, provider), inbound[|inbound| - 1], link, now, provider);
    }
  }

  lemma {:induction false} ReplayOwesNothing<S, O>(
      t: Turn<S, O>, list: seq<(int, Msg<S, O>)>, link: nat -> bool, now: int)
    ensures var u := Replayed(t, list, link, now);
            && u.d.ackOwed == t.d.ackOwed && u.d.outbox == t.d.outbox && u.d.peerAcked == t.d.peerAcked
            && u.p.applied == t.p.applied
    decreases |list|
  {
    if list != [] && link(t.p.tries) {
      var p := Send(t.p, list[0].1, link);
      ReplayOwesNothing(Turn(t.d, p.(data := p.data + 1)), list[1..], link, now);
    }
  }

  /** What is retained lies above the cursor. */
  ghost predicate Pruned<F(!new)>(b: Book<F>) {
    forall e :: e in b.retained ==> e > b.cursor
  }

  lemma {:induction false} DrainOwesNothing<S(!new), O(!new)>(t: Turn<S, O>, link: nat -> bool, now: int)
    ensures var u := Emptied(t, link, now);
            && u.d.ackOwed == t.d.ackOwed && u.d.peerAcked == t.d.peerAcked && u.p.applied == t.p.applied
            && (Pruned(t.d.outbox) ==> Pruned(u.d.outbox))
    decreases |t.d.pending|
  {
    if t.d.stalled.None? && t.d.pending != [] && link(t.p.tries) {
      var (epoch, msg) := t.d.pending[0];
      var d := t.d.(outbox := Appended(t.d.outbox, epoch, msg), pending := t.d.pending[1..]);
      var p := Send(t.p, msg, link);
      DrainOwesNothing(Turn(d, p.(data := p.data + 1)), link, now);
    }
  }

  /** A tick that owed an acknowledgement, or came to owe one by applying data, sends its epoch as the last frame;
      unless the link refused just that, or the source broke before it, and then the debt stands. */
  lemma AckSentOrOwed<S(!new), O(!new)>(
      d: Driver<S, O>, inbound: seq<Msg<S, O>>, broken: bool, link: nat -> bool, now: int, provider: int -> Msg<S, O>)
    ensures var t := Ticked(d, inbound, broken, link, now, provider);
            var due := d.ackOwed || HasData(t.p.applied);
            && (due && !broken && !t.d.ackOwed ==>
                  t.p.sent != [] && t.p.sent[|t.p.sent| - 1] == OutboxAck(t.d.coord.last))
            && (due && !broken && t.d.ackOwed ==> t.p.tries > 0 && !link(t.p.tries - 1))
            && (broken ==> t.d.ackOwed == due)
            && (!due ==> !t.d.ackOwed)
  {
    hide HasData, ReplayList, Replayed, Emptied, TookAll;
    var t := Turn(d, Progress([], 0, [], 0, 0, false));
    assert !HasData(t.p.applied) by { NoData<S, O>(); }
    ReplayOwesNothing(t.(d := d.(replayPending := false)), ReplayList(d.outbox, d.peerAcked), link, now);
    DrainOwesNothing(Started(d, link, now), link, now);
    TookAllOwes(d.ackOwed, Emptied(Started(d, link, now), link, now), inbound, link, now, provider);
  }

  lemma NoData<S, O>()
    ensures !HasData<S, O>([])
  {
  }

  /** In mid-tick: of the acknowledgements met, the largest counts, and nothing at or below any is retained. */
  ghost predicate Credited<S(!new), O(!new)>(floor: int, inbound: seq<Msg<S, O>>, d: Driver<S, O>) {
    && Pruned(d.outbox) && floor <= d.peerAcked
    && (forall m :: m in inbound && m.OutboxAck? ==> m.through <= d.peerAcked && m.through <= d.outbox.cursor)
    && (d.peerAcked == floor || OutboxAck(d.peerAcked) in inbound)
  }

  lemma TookCredits<S(!new), O(!new)>(
      floor: int, inbound: seq<Msg<S, O>>, t: Turn<S, O>, m: Msg<S, O>, link: nat -> bool, now: int,
      provider: int -> Msg<S, O>)
    requires Credited(floor, inbound, t.d)
    ensures Credited(floor, inbound + [m], Took(t, m, link, now, provider).d)
  {
    if m.OutboxAck? { assert OutboxAck(m.through) == m; }
  }

  lemma {:induction false} TookAllCredits<S(!new), O(!new)>(
      t: Turn<S, O>, inbound: seq<Msg<S, O>>, link: nat -> bool, now: int, provider: int -> Msg<S, O>)
    requires Pruned(t.d.outbox)
    ensures Credited(t.d.peerAcked, inbound, TookAll(t, inbound, link, now, provider).d)
    decreases |inbound|
  {
    hide Took;
    if inbound != [] {
      hide Credited, Pruned;
      var front := inbound[..|inbound| - 1];
      TookAllCredits(t, front, link, now, provider);
      TookCredits(t.d.peerAcked, front, TookAll(t, front, link, now, provider), inbound[|inbound| - 1], link, now,
          provider);
      assert front + [inbound[|inbound| - 1]] == inbound;
    }
  }

  /** A tick ends with the largest acknowledgement heard on record, and nothing at or below any of them retained. */
  lemma TickCredits<S(!new), O(!new)>(
      d: Driver<S, O>, inbound: seq<Msg<S, O>>, broken: bool, link: nat -> bool, now: int, provider: int -> Msg<S, O>)
    requires Pruned(d.outbox)
    ensures var u := Ticked(d, inbound, broken, link, now, provider).d;
            && Credited(d.peerAcked, inbound, u)
            && forall e, m :: e in u.outbox.retained && m in inbound && m.OutboxAck? ==> e > m.through
  {
    hide ReplayList, Replayed, Emptied, TookAll;
    var t := Turn(d, Progress([], 0, [], 0, 0, false));
    ReplayOwesNothing(t.(d := d.(replayPending := false)), ReplayList(d.outbox, d.peerAcked), link, now);
    DrainOwesNothing(Started(d, link, now), link, now);
    TookAllCredits(Emptied(Started(d, link, now), link, now), inbound, link, now, provider);
  }

  /** Over a link that loses nothing, a tick of a receiver that owed an acknowledgement or applied data, and one of
      the sender on what it sent, leave the sender retaining no epoch at or below the receiver's. */
  lemma RoundTripPrunes<S(!new), O(!new)>(
      receiver: Driver<S, O>, inbound: seq<Msg<S, O>>, back: nat -> bool, then_: int, answers: int -> Msg<S, O>,
      sender: Driver<S, O>, broken: bool, link: nat -> bool, now: int, provider: int -> Msg<S, O>)
    requires (forall i :: back(i)) && Pruned(sender.outbox)
    requires var t := Ticked(receiver, inbound, false, back, then_, answers);
             receiver.ackOwed || HasData(t.p.applied)
    ensures var t := Ticked(receiver, inbound, false, back, then_, answers);
            var u := Ticked(sender, t.p.sent, broken, link, now, provider);
            && !t.d.ackOwed && (forall e :: e in u.d.outbox.retained ==> e > t.d.coord.last)
  {
    hide Ticked, HasData;
    var t := Ticked(receiver, inbound, false, back, then_, answers);
    AckSentOrOwed(receiver, inbound, false, back, then_, answers);
    TickCredits(sender, t.p.sent, broken, link, now, provider);
    assert t.p.sent[|t.p.sent| - 1] in t.p.sent;
  }

  /** In every run the sender's book is pruned, so an acknowledgement that gets through frees all it covers: whatever
      the run was, once the receiver's tick has ended with one and the sender has taken in what was sent, no epoch
      at or below the receiver's is retained. */
  lemma AckedIsFreed<S(!new), O(!new)>(
      h: Host<S, O>, steps: seq<Step<S, O>>, tick: Step<S, O>, broken: bool, link: nat -> bool, now: int,
      provider: int -> Msg<S, O>)
    requires tick.TickReceiver? && !tick.broken && forall i :: tick.link(i)
    requires var t := Ticked(Ran(h, steps).receiver, tick.inbound, false, tick.link, tick.now, tick.provider);
             Ran(h, steps).receiver.ackOwed || HasData(t.p.applied)
    ensures var t := Ticked(Ran(h, steps).receiver, tick.inbound, false, tick.link, tick.now, tick.provider);
            var n := After(h, After(h, Ran(h, steps), tick), TickSender(t.p.sent, broken, link, now, provider));
            forall e :: e in n.sender.outbox.retained ==> e > n.receiver.coord.last
  {
    hide Ticked, HasData, Ran;
    var n := Ran(h, steps);
    RunPruned(h, steps);
    RoundTripPrunes(n.receiver, tick.inbound, tick.link, tick.now, tick.provider, n.sender, broken, link, now,
        provider);
  }

  lemma {:induction false} RunPruned<S(!new), O(!new)>(h: Host<S, O>, steps: seq<Step<S, O>>)
    ensures Pruned(Ran(h, steps).sender.outbox)
    decreases |steps|
  {
    hide Ticked;
    if steps != [] {
      RunPruned(h, steps[..|steps| - 1]);
      var d, step := Ran(h, steps[..|steps| - 1]).sender, steps[|steps| - 1];
      if step.TickSender? { TickCredits(d, step.inbound, step.broken, step.link, step.now, step.provider); }
    }
  }

  lemma AckAbsorbed<S, O>(c: Coord, m: Msg<S, O>)
    requires m.OutboxAck?
    ensures Absorbed(c, [m]) == c
  {
    assert [m][..0] == [];
  }
}
