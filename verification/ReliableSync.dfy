/** The receiver's gap detection and the full-duplex driver loop. */
module ReliableSync {
  import opened Options
  import opened Outbox

  /** Protocol frames: full state, a run of operations, and the control frames. */
  datatype Msg<S, O> =
    | Snapshot(epoch: int, state: S)
    | Delta(base: int, epoch: int, ops: seq<O>)
    | CrdtSync(ops: seq<O>)
    | ResyncRequest(from: int)
    | OutboxAck(through: int)

  datatype Action = Apply | RequestSnapshot(from: int) | Ignore

  datatype Coord = Coord(last: int, resyncing: bool)

  function DeltaStep(c: Coord, base: int, epoch: int): (Coord, Action) {
    if base == c.last then
      if epoch >= base + 1 then (Coord(epoch, false), Apply) else (c, Ignore)
    else if base < c.last then (c, Ignore)
    else if c.resyncing then (c, Ignore)
    else (Coord(c.last, true), RequestSnapshot(c.last))
  }

  function IngestStep<S, O>(c: Coord, msg: Msg<S, O>): (Coord, Action) {
    match msg
    case Snapshot(epoch, _) => (Coord(epoch, false), Apply)
    case Delta(base, epoch, _) => DeltaStep(c, base, epoch)
    case _ => (c, Ignore)
  }

  class ResyncCoordinator {
    var last: int
    var resyncing: bool

    constructor (last: int)
      ensures View() == Coord(last, false)
    {
      this.last, resyncing := last, false;
    }

    function View(): Coord
      reads this
    {
      Coord(last, resyncing)
    }

    method IngestDelta(base: int, epoch: int) returns (action: Action)
      modifies this
      ensures (View(), action) == DeltaStep(old(View()), base, epoch)
    {
      if base == last {
        if epoch >= base + 1 {
          last := epoch;
          resyncing := false;
          return Apply;
        }
        return Ignore;
      }
      if base < last { return Ignore; }
      if resyncing { return Ignore; }
      resyncing := true;
      return RequestSnapshot(last);
    }

    method Ingest<S, O>(msg: Msg<S, O>) returns (action: Action)
      modifies this
      ensures (View(), action) == IngestStep(old(View()), msg)
    {
      match msg {
        case Snapshot(epoch, _) =>
          last, resyncing := epoch, false;
          action := Apply;
        case Delta(base, epoch, _) => action := IngestDelta(base, epoch);
        case _ => action := Ignore;
      }
    }
  }

  // ── One tick, as a function of the driver and the link ──

  datatype Driver<S, O> = Driver(
    pending: seq<(int, Msg<S, O>)>, outbox: Book<Msg<S, O>>, coord: Coord,
    peerAcked: int, ackOwed: bool, replayPending: bool, stalled: Option<int>)

  /** What a tick has done so far: frames that reached the peer, tries of the link, frames the host
      must fold, and the counts it reports. */
  datatype Progress<S, O> = Progress(
    sent: seq<Msg<S, O>>, tries: nat, applied: seq<Msg<S, O>>, data: nat, served: nat, asked: bool)

  datatype Turn<S, O> = Turn(d: Driver<S, O>, p: Progress<S, O>)

  /** `link(i)` says whether the i-th send of the tick gets through. */
  function Send<S, O>(p: Progress<S, O>, msg: Msg<S, O>, link: nat -> bool): Progress<S, O> {
    p.(tries := p.tries + 1, sent := if link(p.tries) then p.sent + [msg] else p.sent)
  }

  function Replayed<S, O>(t: Turn<S, O>, frames: seq<(int, Msg<S, O>)>, link: nat -> bool, now: int): Turn<S, O>
    decreases |frames|
  {
    if frames == [] then t
    else
      var p := Send(t.p, frames[0].1, link);
      if link(t.p.tries) then Replayed(Turn(t.d, p.(data := p.data + 1)), frames[1..], link, now)
      else Turn(t.d.(stalled := Some(now), replayPending := true), p)
  }

  function Emptied<S, O>(t: Turn<S, O>, link: nat -> bool, now: int): Turn<S, O>
    decreases |t.d.pending|
  {
    if t.d.stalled.Some? || t.d.pending == [] then t
    else
      var (epoch, msg) := t.d.pending[0];
      var d := t.d.(outbox := Appended(t.d.outbox, epoch, msg), pending := t.d.pending[1..]);
      var p := Send(t.p, msg, link);
      if link(t.p.tries) then Emptied(Turn(d, p.(data := p.data + 1)), link, now)
      else Turn(d.(stalled := Some(now)), p)
  }

  function TookData<S, O>(t: Turn<S, O>, msg: Msg<S, O>, link: nat -> bool, now: int): Turn<S, O> {
    var (c, action) := IngestStep(t.d.coord, msg);
    var d := t.d.(coord := c);
    match action
    case Apply => Turn(d.(ackOwed := true), t.p.(applied := t.p.applied + [msg]))
    case RequestSnapshot(from) =>
      var p := Send(t.p, ResyncRequest(from), link);
      if link(t.p.tries) then Turn(d, p.(asked := true)) else Turn(d.(stalled := Some(now)), p)
    case Ignore => Turn(d, t.p)
  }

  function Took<S, O>(
      t: Turn<S, O>, msg: Msg<S, O>, link: nat -> bool, now: int, provider: int -> Msg<S, O>): Turn<S, O>
  {
    match msg
    case OutboxAck(through) =>
      t.(d := t.d.(peerAcked := Max(t.d.peerAcked, through), outbox := Acked(t.d.outbox, through)))
    case ResyncRequest(from) =>
      var p := Send(t.p, provider(from), link);
      if link(t.p.tries) then Turn(t.d, p.(served := p.served + 1)) else Turn(t.d.(stalled := Some(now)), p)
    case CrdtSync(_) => t.(p := t.p.(applied := t.p.applied + [msg]))
    case _ => TookData(t, msg, link, now)
  }

  function TookAll<S, O>(
      t: Turn<S, O>, inbound: seq<Msg<S, O>>, link: nat -> bool, now: int, provider: int -> Msg<S, O>): Turn<S, O>
  {
    if inbound == [] then t
    else Took(TookAll(t, inbound[..|inbound| - 1], link, now, provider), inbound[|inbound| - 1], link, now, provider)
  }

  function Advertised<S, O>(t: Turn<S, O>, link: nat -> bool): Turn<S, O> {
    if !t.d.ackOwed then t
    else Turn(if link(t.p.tries) then t.d.(ackOwed := false) else t.d, Send(t.p, OutboxAck(t.d.coord.last), link))
  }

  ghost function ReplayList<F(!new)>(b: Book<F>, from: int): seq<(int, F)> {
    if exists out :: Lists(Above(b.retained, from), out)
    then var out :| Lists(Above(b.retained, from), out); out
    else []
  }

  lemma ReplayListIs<F(!new)>(b: Book<F>, from: int, out: seq<(int, F)>)
    requires Lists(Above(b.retained, from), out)
    ensures out == ReplayList(b, from)
  {
    ListsUnique(Above(b.retained, from), out, ReplayList(b, from));
  }

  ghost function Started<S(!new), O(!new)>(d: Driver<S, O>, link: nat -> bool, now: int): Turn<S, O> {
    var t := Turn(d, Progress([], 0, [], 0, 0, false));
    if d.replayPending
    then Replayed(t.(d := d.(replayPending := false)), ReplayList(d.outbox, d.peerAcked), link, now)
    else t
  }

  /** Replay, drain, receive; a source that breaks ends the tick there, otherwise advertise. */
  ghost function Ticked<S(!new), O(!new)>(d: Driver<S, O>, inbound: seq<Msg<S, O>>, broken: bool, link: nat -> bool,
                                          now: int, provider: int -> Msg<S, O>): Turn<S, O> {
    var t := TookAll(Emptied(Started(d, link, now), link, now), inbound, link, now, provider);
    if broken then t else Advertised(t, link)
  }

  class SyncDriver<S(!new), O(!new)> {
    var pending: seq<(int, Msg<S, O>)>
    var outbox: Book<Msg<S, O>>
    const coordinator: ResyncCoordinator
    var peerAcked: int
    var ackOwed: bool
    var replayPending: bool
    var stalled: Option<int>

    function View(): Driver<S, O>
      reads this, coordinator
    {
      Driver(pending, outbox, coordinator.View(), peerAcked, ackOwed, replayPending, stalled)
    }

    constructor (outbox: Book<Msg<S, O>>, last: int)
      ensures fresh(coordinator) && View() == Driver([], outbox, Coord(last, false), 0, false, false, None)
    {
      pending, this.outbox, peerAcked := [], outbox, 0;
      ackOwed, replayPending, stalled := false, false, None;
      coordinator := new ResyncCoordinator(last);
    }

    method Enqueue(epoch: int, msg: Msg<S, O>)
      modifies this`pending
      ensures View() == old(View()).(pending := old(pending) + [(epoch, msg)])
    {
      pending := pending + [(epoch, msg)];
    }

    method OnReconnect()
      modifies this
      ensures View() == old(View()).(replayPending := true, ackOwed := true, stalled := None)
    {
      replayPending, ackOwed, stalled := true, true, None;
    }

    method Replay(link: nat -> bool, now: int, p0: Progress<S, O>) returns (p: Progress<S, O>)
      modifies this
      ensures Turn(View(), p) == Replayed(Turn(old(View()), p0), ReplayList(old(outbox), old(peerAcked)), link, now)
    {
      hide Lists, Above, ReplayList;
      p := p0;
      var frames := InOrder(Above(outbox.retained, peerAcked));
      ReplayListIs(outbox, peerAcked, frames);
      for i := 0 to |frames|
        invariant Replayed(Turn(View(), p), frames[i..], link, now) == Replayed(Turn(old(View()), p0), frames, link,
            now)
      {
        assert frames[i..][0] == frames[i] && frames[i..][1..] == frames[i + 1..];
        var through := link(p.tries);
        p := Send(p, frames[i].1, link);
        if through {
          p := p.(data := p.data + 1);
        } else {
          stalled := Some(now);
          replayPending := true;
          return;
        }
      }
    }

    method DrainPending(link: nat -> bool, now: int, p0: Progress<S, O>) returns (p: Progress<S, O>)
      modifies this
      ensures Turn(View(), p) == Emptied(Turn(old(View()), p0), link, now)
    {
      p := p0;
      while stalled.None? && pending != []
        invariant Emptied(Turn(View(), p), link, now) == Emptied(Turn(old(View()), p0), link, now)
        decreases |pending|
      {
        var (epoch, msg) := pending[0];
        outbox := Appended(outbox, epoch, msg);
        pending := pending[1..];
        var through := link(p.tries);
        p := Send(p, msg, link);
        if through {
          p := p.(data := p.data + 1);
          stalled := None;
        } else {
          stalled := Some(now);
          break;
        }
      }
    }

    method Receive(msg: Msg<S, O>, link: nat -> bool, now: int, provider: int -> Msg<S, O>, p0: Progress<S, O>)
      returns (p: Progress<S, O>)
      modifies this, coordinator
      ensures Turn(View(), p) == Took(Turn(old(View()), p0), msg, link, now, provider)
    {
      p := p0;
      match msg {
        case OutboxAck(through) =>
          if through > peerAcked { peerAcked := through; }
          outbox := Acked(outbox, through);
        case ResyncRequest(from) =>
          p := Send(p, provider(from), link);
          if link(p0.tries) {
            p := p.(served := p.served + 1);
          } else {
            stalled := Some(now);
          }
        case CrdtSync(_) => p := p.(applied := p.applied + [msg]);
        case _ => p := ReceiveData(msg, link, now, p);
      }
    }

    method ReceiveData(msg: Msg<S, O>, link: nat -> bool, now: int, p0: Progress<S, O>) returns (p: Progress<S, O>)
      requires msg.Snapshot? || msg.Delta?
      modifies this, coordinator
      ensures Turn(View(), p) == TookData(Turn(old(View()), p0), msg, link, now)
    {
      p := p0;
      var action := coordinator.Ingest(msg);
      if action.Apply? {
        ackOwed := true;
        p := p.(applied := p.applied + [msg]);
      } else if action.RequestSnapshot? {
        if !link(p.tries) { stalled := Some(now); }
        p := Send(p, ResyncRequest(action.from), link).(asked := p.asked || link(p.tries));
      }
    }

    /** `inbound` is what the source yields before it runs dry, or breaks. */
    method Tick(inbound: seq<Msg<S, O>>, broken: bool, link: nat -> bool, now: int, provider: int -> Msg<S, O>)
      returns (p: Progress<S, O>, ok: bool)
      modifies this, coordinator
      ensures Turn(View(), p) == Ticked(old(View()), inbound, broken, link, now, provider) && ok == !broken
    {
      hide Replayed, Emptied, Took, ReplayList;
      p := Progress([], 0, [], 0, 0, false);
      if replayPending {
        replayPending := false;
        p := Replay(link, now, p);
      }
      p := DrainPending(link, now, p);
      ghost var drained := Turn(View(), p);
      for i := 0 to |inbound|
        invariant Turn(View(), p) == TookAll(drained, inbound[..i], link, now, provider)
      {
        assert inbound[..i + 1][..i] == inbound[..i];
        p := Receive(inbound[i], link, now, provider, p);
      }
      assert inbound[..|inbound|] == inbound;
      if broken { return p, false; }
      if ackOwed {
        if link(p.tries) { ackOwed := false; }
        p := Send(p, OutboxAck(coordinator.last), link);
      }
      ok := true;
    }
  }
}
