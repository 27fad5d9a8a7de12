/** The private framing as a whole: both encoders, the one decoder, and what newer writers may add. */
module PrivateCodec {
  import opened Options
  import opened Bytes
  import opened Json
  import opened MsgPack
  import opened Ipc
  import opened Framing
  import opened PrivateMaps
  import opened PrivateRows

  // ── Sizes ──

  predicate Short<T>(s: seq<T>) {
    |s| < U32
  }

  predicate StateShort(st: NodeState) {
    st.Payload? ==> Short(st.bytes)
  }

  predicate ValueShort(v: IpcValue) {
    v.InlineValue? ==> Short(v.bytes)
  }

  predicate NodeShort(n: NodeSnapshot) {
    Short(n.typeTag) && StateShort(n.state)
  }

  predicate OpShort(op: DeltaOp) {
    match op
    case CellSet(_, payload) => ValueShort(payload)
    case SlotValue(_, payload) => ValueShort(payload)
    case QueuePush(_, payload) => ValueShort(payload)
    case NodeAdd(_, typeTag, state, _) => Short(typeTag) && StateShort(state)
    case _ => true
  }

  /** Lengths and counts below 2^32. */
  predicate MessageShort(m: IpcMessage) {
    match m
    case SnapshotMsg(sn) =>
      && Short(sn.nodes) && Short(sn.edges) && Short(sn.roots)
      && forall i :: 0 <= i < |sn.nodes| ==> NodeShort(sn.nodes[i])
    case DeltaMsg(d) => Short(d.ops) && forall i :: 0 <= i < |d.ops| ==> OpShort(d.ops[i])
    case CrdtSyncMsg(c) => Short(c.frontier) && Short(c.ops)
        && forall i :: 0 <= i < |c.ops| ==> ValueShort(c.ops[i].state)
    case _ => true
  }

  /** What both packers can carry, and what their readers know all of. */
  predicate Carried(w: Wire) {
    Fit(w) && Closed(w)
  }

  lemma RowCarried(ws: seq<Wire>)
    requires Short(ws) && forall k :: 0 <= k < |ws| ==> Carried(ws[k])
    ensures Carried(Row(ws)) && Carried(List(ws))
  {
  }

  lemma MapCarried(known: set<Text>, ps: seq<Pair>)
    requires Short(ps) && forall k :: 0 <= k < |ps| ==> ps[k].key in known && Short(ps[k].key) && Carried(ps[k].value)
    ensures Carried(Map(known, ps))
  {
  }

  lemma LeafCarried()
    ensures forall i :: Fits(i) ==> Carried(Num(i))
    ensures forall t :: Short(t) ==> Carried(Name(t)) && Carried(Bin(t))
    ensures Carried(Nil) && forall b :: Carried(Name(BackendName(b)))
  {
  }

  lemma BlobCarried(r: BlobRef)
    requires BlobFits(r)
    ensures Carried(BlobMap(r)) && Carried(BlobRow(r))
  {
    hide Ascii, Carried, BackendName;
    LeafCarried();
    MapCarried(BLOB_KEYS, BlobMap(r).pairs);
    RowCarried(BlobRow(r).items);
  }

  lemma StampCarried(t: WireStamp)
    requires StampFits(t)
    ensures Carried(StampMap(t)) && Carried(StampRow(t))
  {
    hide Ascii, Carried;
    LeafCarried();
    MapCarried(STAMP_KEYS, StampMap(t).pairs);
    RowCarried(StampRow(t).items);
  }

  lemma KeyCarried(key: Option<Text>)
    requires KeyOk(key)
    ensures Carried(KeyWire(key))
  {
  }

  lemma StateCarried(st: NodeState)
    requires StateFits(st) && StateShort(st)
    ensures Carried(StateMap(st)) && Carried(StateRow(st))
  {
    hide Ascii, Carried, BlobMap, BlobRow;
    LeafCarried();
    if st.SharedBlob? { BlobCarried(st.blob); }
    MapCarried(BODY_KEYS, StateMap(st).pairs);
    RowCarried(StateRow(st).items);
  }

  lemma ValueCarried(v: IpcValue)
    requires ValueFits(v) && ValueShort(v)
    ensures Carried(ValueMap(v)) && Carried(ValueRow(v))
  {
    hide Ascii, Carried, BlobMap, BlobRow;
    LeafCarried();
    if v.BlobValue? { BlobCarried(v.blob); }
    MapCarried(BODY_KEYS, ValueMap(v).pairs);
    RowCarried(ValueRow(v).items);
  }

  lemma NodeCarried(n: NodeSnapshot)
    requires NodeFits(n) && NodeShort(n)
    ensures Carried(NodeMap(n)) && Carried(NodeRow(n))
  {
    hide Ascii, Carried, StateMap, StateRow, KeyWire, KeyOk;
    LeafCarried();
    StateCarried(n.state);
    KeyCarried(n.key);
    MapCarried(NODE_KEYS, NodeMap(n).pairs);
    RowCarried(NodeRow(n).items);
  }

  lemma EdgeCarried(e: EdgeSnapshot)
    requires EdgeFits(e)
    ensures Carried(EdgeMap(e)) && Carried(EdgeRow(e))
  {
    hide Ascii, Carried;
    LeafCarried();
    MapCarried(EDGE_KEYS, EdgeMap(e).pairs);
    RowCarried(EdgeRow(e).items);
  }

  lemma OpCarried(op: DeltaOp)
    requires OpFits(op) && OpShort(op)
    ensures Carried(OpMap(op)) && Carried(OpRow(op))
  {
    hide Ascii, Carried, StateMap, StateRow, ValueMap, ValueRow, KeyWire, KeyOk, StateFits, ValueFits, StateShort,
        ValueShort;
    LeafCarried();
    match op {
      case CellSet(_, payload) => ValueCarried(payload);
      case SlotValue(_, payload) => ValueCarried(payload);
      case QueuePush(_, payload) => ValueCarried(payload);
      case NodeAdd(_, typeTag, state, key) => StateCarried(state); KeyCarried(key);
      case _ =>
    }
    assert Carried(OpPair(DraftOf(op).kind).value);
    OpMapCarried(op);
    RowCarried(OpCells(op));
    RowCarried(OpRow(op).items);
  }

  lemma OpMapCarried(op: DeltaOp)
    requires forall k :: 0 <= k < |OpMap(op).pairs| ==> Carried(OpMap(op).pairs[k].value)
    ensures Carried(OpMap(op))
  {
    hide Ascii, Carried, StateMap, ValueMap, KeyWire;
    MapCarried(OP_KEYS, OpMap(op).pairs);
  }

  lemma CrdtOpCarried(o: CrdtOp)
    requires CrdtOpFits(o) && ValueShort(o.state)
    ensures Carried(CrdtOpMap(o)) && Carried(CrdtOpRow(o))
  {
    hide Ascii, Carried, ValueMap, ValueRow, StampMap, StampRow, KeyWire, KeyOk;
    LeafCarried();
    ValueCarried(o.state);
    StampCarried(o.stamp);
    KeyCarried(o.key);
    MapCarried(CRDT_OP_KEYS, CrdtOpMap(o).pairs);
    RowCarried(CrdtOpRow(o).items);
  }

  lemma EntryCarried(e: FrontierEntry)
    requires EntryFits(e)
    ensures Carried(EntryList(e)) && Carried(EntryRow(e))
  {
    hide Carried, StampMap, StampRow;
    LeafCarried();
    StampCarried(e.stamp);
    RowCarried(EntryList(e).items);
    RowCarried(EntryRow(e).items);
  }

  lemma EachCarried<T>(vs: seq<T>, enc: T -> Wire)
    requires Short(vs) && forall i :: 0 <= i < |vs| ==> Carried(enc(vs[i]))
    ensures Carried(List(Each(vs, enc)))
  {
    hide Carried;
    RowCarried(Each(vs, enc));
  }

  lemma SnapshotCarried(sn: Snapshot)
    requires Proper(SnapshotMsg(sn)) && MessageShort(SnapshotMsg(sn))
    ensures Carried(SnapshotMap(sn)) && Carried(SnapshotRow(sn))
  {
    hide Ascii, Carried, NodeMap, NodeRow, EdgeMap, EdgeRow, NodeFits, NodeShort, EdgeFits, Each;
    LeafCarried();
    forall i | 0 <= i < |sn.nodes| ensures Carried(NodeMap(sn.nodes[i])) && Carried(NodeRow(sn.nodes[i])) {
      NodeCarried(sn.nodes[i]);
    }
    forall i | 0 <= i < |sn.edges| ensures Carried(EdgeMap(sn.edges[i])) && Carried(EdgeRow(sn.edges[i])) {
      EdgeCarried(sn.edges[i]);
    }
    EachCarried(sn.nodes, NodeMap);
    EachCarried(sn.nodes, NodeRow);
    EachCarried(sn.edges, EdgeMap);
    EachCarried(sn.edges, EdgeRow);
    EachCarried(sn.roots, IntWire);
    MapCarried(SNAPSHOT_KEYS, SnapshotMap(sn).pairs);
    RowCarried(SnapshotRow(sn).items);
  }

  lemma DeltaCarried(d: Delta)
    requires Proper(DeltaMsg(d)) && MessageShort(DeltaMsg(d))
    ensures Carried(DeltaMap(d)) && Carried(DeltaRow(d))
  {
    hide Ascii, Carried, OpMap, OpRow, OpFits, OpShort, Each;
    LeafCarried();
    forall i | 0 <= i < |d.ops| ensures Carried(OpMap(d.ops[i])) && Carried(OpRow(d.ops[i])) { OpCarried(d.ops[i]); }
    EachCarried(d.ops, OpMap);
    EachCarried(d.ops, OpRow);
    MapCarried(DELTA_KEYS, DeltaMap(d).pairs);
    RowCarried(DeltaRow(d).items);
  }

  lemma SyncCarried(c: CrdtSync)
    requires Proper(CrdtSyncMsg(c)) && MessageShort(CrdtSyncMsg(c))
    ensures Carried(SyncMap(c)) && Carried(SyncRow(c))
  {
    hide Ascii, Carried, EntryList, EntryRow, CrdtOpMap, CrdtOpRow, EntryFits, CrdtOpFits, Each;
    LeafCarried();
    forall i | 0 <= i < |c.frontier| ensures Carried(EntryList(c.frontier[i])) && Carried(EntryRow(c.frontier[i])) {
      EntryCarried(c.frontier[i]);
    }
    forall i | 0 <= i < |c.ops| ensures Carried(CrdtOpMap(c.ops[i])) && Carried(CrdtOpRow(c.ops[i])) {
      CrdtOpCarried(c.ops[i]);
    }
    EachCarried(c.frontier, EntryList);
    EachCarried(c.frontier, EntryRow);
    EachCarried(c.ops, CrdtOpMap);
    EachCarried(c.ops, CrdtOpRow);
    MapCarried(SYNC_KEYS, SyncMap(c).pairs);
    RowCarried(SyncRow(c).items);
  }

  lemma EpochCarried(name: string, epoch: int)
    requires Fits(epoch) && |name| < 100
    ensures Carried(Map({Ascii(name)}, [Pair(Ascii(name), Num(epoch))])) && Carried(EpochRow(epoch))
  {
    hide Ascii, Carried;
    LeafCarried();
    MapCarried({Ascii(name)}, [Pair(Ascii(name), Num(epoch))]);
    RowCarried(EpochRow(epoch).items);
  }

  lemma MessageCarried(m: IpcMessage)
    requires Proper(m) && MessageShort(m)
    ensures Carried(MessageMap(m)) && Carried(MessageRow(m))
  {
    hide Ascii, Carried, SnapshotMap, SnapshotRow, DeltaMap, DeltaRow, SyncMap, SyncRow, EpochRow, MessageShort;
    match m {
      case SnapshotMsg(sn) => SnapshotCarried(sn);
      case DeltaMsg(d) => DeltaCarried(d);
      case CrdtSyncMsg(c) => SyncCarried(c);
      case ResyncRequest(epoch) => EpochCarried("from_epoch", epoch);
      case OutboxAck(epoch) => EpochCarried("through_epoch", epoch);
    }
    LeafCarried();
    MapCarried(MESSAGE_KEYS, MessageMap(m).pairs);
    RowCarried(MessageRow(m).items);
  }

  // ── Encoding and decoding ──

  function Encode(m: IpcMessage): Text
    requires Fit(MessageMap(m))
  {
    Laid(MessageMap(m))
  }

  function EncodePositional(m: IpcMessage): Text
    requires Fit(MessageRow(m))
  {
    Laid(MessageRow(m))
  }

  /** An array is a positional frame, anything else is read as a keyed one; what follows is not looked at. */
  function Decode(s: Text): Option<IpcMessage> {
    if s == [] then None
    else
      var r := if KindOf(s[0]) == KArray then ReadMessageRow(s) else ReadMessage(s);
      if r.Fail? then None else Some(r.value)
  }

  /** Keys woven in anywhere by a newer writer leave a keyed frame's meaning alone. */
  lemma KeyedForward(m: IpcMessage, x: Wire, rest: Text)
    requires Proper(m) && Wider(MessageMap(m), x) && Fit(x)
    ensures Decode(Laid(x) + rest) == Some(m)
  {
    hide ReadMessage, MessageMap, Proper, Laid;
    MessageReads(m, x, rest);
  }

  /** Cells put behind the known ones by a newer writer leave a positional frame's meaning alone. */
  lemma PositionalForward(m: IpcMessage, x: Wire, rest: Text)
    requires Proper(m) && Wider(MessageRow(m), x) && Fit(x)
    ensures Decode(Laid(x) + rest) == Some(m)
  {
    hide ReadMessageRow, ContentRow, Proper, Reads, ArrayHeader, LaidItems;
    MessageRowReads(m);
    ReadOne(ReadMessageRow, MessageRow(m), m, x, rest);
    ArrayBegins(|x.items|, LaidItems(x.items) + rest);
    assert Laid(x) + rest == ArrayHeader(|x.items|) + (LaidItems(x.items) + rest);
  }

  /** Every message survives both forms, through the one decoder. */
  lemma PrivateRoundTrip(m: IpcMessage)
    requires Proper(m) && MessageShort(m)
    ensures Fit(MessageMap(m)) && Decode(Encode(m)) == Some(m)
    ensures Fit(MessageRow(m)) && Decode(EncodePositional(m)) == Some(m)
  {
    hide Laid, MessageMap, MessageRow, Proper, MessageShort, Decode;
    MessageCarried(m);
    WiderRefl(MessageMap(m));
    WiderRefl(MessageRow(m));
    KeyedForward(m, MessageMap(m), []);
    PositionalForward(m, MessageRow(m), []);
    assert Laid(MessageMap(m)) + [] == Laid(MessageMap(m));
    assert Laid(MessageRow(m)) + [] == Laid(MessageRow(m));
  }

  /** No two messages share a frame, of either form or one of each. */
  lemma FramesApart(m: IpcMessage, n: IpcMessage)
    requires Proper(m) && MessageShort(m) && Proper(n) && MessageShort(n) && m != n
    ensures Fit(MessageMap(m)) && Fit(MessageRow(m)) && Fit(MessageMap(n)) && Fit(MessageRow(n))
    ensures Encode(m) != Encode(n) && EncodePositional(m) != EncodePositional(n) && Encode(m) != EncodePositional(n)
  {
    hide Laid, MessageMap, MessageRow, Proper, MessageShort, Decode;
    PrivateRoundTrip(m);
    PrivateRoundTrip(n);
  }

  // ── Where the readers part ways with what is said of them ──

  ghost predicate Refuses<T>(read: Text -> Parse<T>, w: Wire)
    requires Fit(w)
  {
    forall rest :: read(Laid(w) + rest).Fail?
  }

  lemma {:induction false} CellsRefused<S>(
      i: nat, k: nat, arity: nat, take: (nat, S, Text) -> Parse<S>, ws: seq<Wire>, sts: seq<S>, rest: Text)
    requires i <= k < arity <= |ws| && |sts| == k + 1
    requires forall j :: 0 <= j < |ws| ==> Fit(ws[j]) && Closed(ws[j])
    requires forall j :: 0 <= j < k ==> TakesCell(take, sts[j], j, ws[j], sts[j + 1])
    requires forall more :: take(k, sts[k], Laid(ws[k]) + more).Fail?
    ensures ReadCells(i, arity, LaidItems(ws[i..]) + rest, sts[i], take).Fail?
    decreases k - i
  {
    hide Laid, TakesCell, Fit, Closed;
    var tail := LaidItems(ws[i + 1..]) + rest;
    assert ws[i..][0] == ws[i] && ws[i..][1..] == ws[i + 1..];
    assert LaidItems(ws[i..]) + rest == Laid(ws[i]) + tail;
    if i < k {
      WiderRefl(ws[i]);
      TakenCell(take, sts[i], i, ws[i], sts[i + 1], ws[i], tail);
      CellsRefused(i + 1, k, arity, take, ws, sts, rest);
    }
  }

  /** A row whose `k`-th cell is refused is refused. */
  lemma RowRefused<S>(
      read: Text -> Parse<S>, k: nat, arity: nat, take: (nat, S, Text) -> Parse<S>, ws: seq<Wire>, sts: seq<S>)
    requires k < arity <= |ws| && |sts| == k + 1 && forall s :: read(s) == ReadRow(arity, s, sts[0], take)
    requires Fit(Row(ws)) && forall j :: 0 <= j < |ws| ==> Fit(ws[j]) && Closed(ws[j])
    requires forall j :: 0 <= j < k ==> TakesCell(take, sts[j], j, ws[j], sts[j + 1])
    requires forall more :: take(k, sts[k], Laid(ws[k]) + more).Fail?
    ensures Refuses(read, Row(ws))
  {
    hide TakesCell, LaidItems, ArrayHeader, ArrayCount, ReadCells;
    forall rest ensures read(Laid(Row(ws)) + rest).Fail? {
      var tail := LaidItems(ws) + rest;
      assert Laid(Row(ws)) + rest == ArrayHeader(|ws|) + tail;
      ArrayBegins(|ws|, tail);
      assert ws[0..] == ws;
      CellsRefused(0, k, arity, take, ws, sts, rest);
    }
  }

  /** A positional state whose kind is none of the three is refused, however far out of range it is: the
      keyed form lets kinds that agree modulo 2^32 pass (`KindRefused`). */
  lemma KindRowRefused(kind: int)
    requires Fits(kind) && kind !in {0, 1, 2}
    ensures Refuses(ReadBodyRow, BodyRow(kind, Nil)) && Refuses(ReadStateRow, BodyRow(kind, Nil))
  {
    hide UnpackInt, ReadSchema, ReadRow, TakesCell, Reads, Laid;
    SchemaReads(); CellTakes(BodyCell, ReadSchema, (_: ()) => NO_BODY, NO_BODY, 0, Num(SCHEMA), ());
    NumReads(kind); CellTakes(BodyCell, UnpackInt, (k: int) => NO_BODY.(kind := k), NO_BODY, 1, Num(kind), kind);
    RowRefused(ReadBodyRow, 2, 3, BodyCell, BodyRow(kind, Nil).items, [NO_BODY, NO_BODY, NO_BODY.(kind := kind)]);
    forall rest ensures ReadStateRow(Laid(BodyRow(kind, Nil)) + rest).Fail? {
      assert ReadBodyRow(Laid(BodyRow(kind, Nil)) + rest).Fail?;
    }
  }

  /** An operation with one cell behind its kind and fields, as a newer writer might send it. */
  function LongerOp(op: DeltaOp, extra: Wire): Wire {
    List(OpRow(op).items + [extra])
  }

  function LongerDelta(base: int, epoch: int, op: DeltaOp, extra: Wire, next: DeltaOp): Wire {
    Row([Num(SCHEMA), Num(1), Row([Num(SCHEMA), Num(base), Num(epoch), List([LongerOp(op, extra), OpRow(next)])])])
  }

  predicate IsArray(w: Wire) {
    w.List? || w.Row?
  }

  /** What is left of the operations once the first of two is read. */
  lemma LongerOpLeaves(op: DeltaOp, extra: Wire, next: DeltaOp, rest: Text)
    requires OpKeyOk(op) && Carried(LongerOp(op, extra)) && Carried(OpRow(next))
    ensures var w := List([LongerOp(op, extra), OpRow(next)]);
            Fit(w) && Fit(extra) && Fit(OpRow(next))
            && ReadOpRows(Laid(w) + rest)
               == Framing.ReadItems(1, Laid(extra) + (Laid(OpRow(next)) + rest), ReadOpRow, [op])
  {
    hide Laid, ReadOpRow, OpCells, DraftOf, ArrayHeader, ArrayCount, LaidItems, Wider, OpKeyOk;
    var x, w := LongerOp(op, extra), List([LongerOp(op, extra), OpRow(next)]);
    assert Fit(w);
    var tail := Laid(OpRow(next)) + rest;
    TwoLaid(w, rest);
    ArrayBegins(2, Laid(x) + tail);
    assert Closed(x.items[1]) && x.items[2] == extra;
    WiderRefl(x.items[1]);
    OpRowLeaves(op, x, tail);
    assert x.items[2..] == [extra];
    OneLaid(extra);
    assert ReadOpRow(Laid(x) + tail) == Done(op, Laid(extra) + tail);
    assert [] + [op] == [op];
    assert ReadOpRows(Laid(w) + rest) == Framing.ReadItems(2, Laid(x) + tail, ReadOpRow, []);
  }

  lemma OneLaid(w: Wire)
    requires Fit(w)
    ensures LaidItems([w]) == Laid(w)
  {
    hide Laid;
    assert [w][1..] == [];
  }

  lemma LongerOpsRefused(op: DeltaOp, extra: Wire, next: DeltaOp)
    requires OpKeyOk(op) && Carried(LongerOp(op, extra)) && Carried(OpRow(next)) && !IsArray(extra)
    ensures var w := List([LongerOp(op, extra), OpRow(next)]); Fit(w) && Refuses(ReadOpRows, w)
  {
    hide Laid, ReadOpRow, OpRow, Carried;
    var w := List([LongerOp(op, extra), OpRow(next)]);
    LongerOpLeaves(op, extra, next, []);
    forall rest: Text ensures ReadOpRows(Laid(w) + rest).Fail? {
      LongerOpLeaves(op, extra, next, rest);
      NotAnArray(extra, Laid(OpRow(next)) + rest);
    }
  }

  /** Nothing but an array begins like one. */
  lemma NotAnArray(w: Wire, rest: Text)
    requires Fit(w) && !IsArray(w)
    ensures ReadOpRow(Laid(w) + rest).Fail?
  {
    hide BeBytes, ReadRow, UnpackInt, LaidPairs;
    var s := Laid(w) + rest;
    assert ArrayCount(s).Fail?;
  }

  /** A cell behind an operation's pair is not passed over, although a longer pair is what the reader says it
      accepts: unless the cell is an array itself, the delta is lost with every operation after it. */
  lemma LongerOpLosesDelta(base: int, epoch: int, op: DeltaOp, extra: Wire, next: DeltaOp, rest: Text)
    requires Fits(base) && Fits(epoch) && OpFits(op) && OpShort(op) && OpFits(next) && OpShort(next)
    requires Carried(extra) && !IsArray(extra)
    ensures var w := LongerDelta(base, epoch, op, extra, next); Fit(w) && Decode(Laid(w) + rest) == None
  {
    hide UnpackInt, ReadSchema, ReadOpRows, ReadRow, TakesCell, Reads, Laid, OpRow, LongerOp, OpFits, OpShort;
    var ops := List([LongerOp(op, extra), OpRow(next)]);
    LongerCarried(op, extra);
    OpCarried(next);
    LongerOpsRefused(op, extra, next);
    var delta := Row([Num(SCHEMA), Num(base), Num(epoch), ops]);
    LongerDeltaCarried(base, epoch, ops);
    DeltaRefused(base, epoch, ops);
    var e := Typed(-1);
    SchemaReads(); CellTakes(MessageCell, ReadSchema, (_: ()) => e, e, 0, Num(SCHEMA), ());
    NumReads(1); CellTakes(MessageCell, UnpackInt, (k: int) => Typed(k), e, 1, Num(1), 1);
    forall more: Text ensures MessageCell(2, Typed(1), Laid(delta) + more).Fail? {
      assert ReadDeltaRow(Laid(delta) + more).Fail?;
    }
    RowRefused(ReadEnvelopeRow, 2, 3, MessageCell, [Num(SCHEMA), Num(1), delta], [e, e, Typed(1)]);
    RowFrameRefused([Num(SCHEMA), Num(1), delta], rest);
  }

  lemma LongerDeltaCarried(base: int, epoch: int, ops: Wire)
    requires Fits(base) && Fits(epoch) && ops.List? && |ops.items| == 2
    requires Carried(ops.items[0]) && Carried(ops.items[1])
    ensures var delta := Row([Num(SCHEMA), Num(base), Num(epoch), ops]);
            Carried(ops) && Carried(delta) && Carried(Row([Num(SCHEMA), Num(1), delta]))
  {
    var delta := Row([Num(SCHEMA), Num(base), Num(epoch), ops]);
    LeafCarried();
    RowCarried(ops.items);
    RowCarried(delta.items);
    RowCarried([Num(SCHEMA), Num(1), delta]);
  }

  lemma LongerCarried(op: DeltaOp, extra: Wire)
    requires OpFits(op) && OpShort(op) && Carried(extra)
    ensures OpKeyOk(op) && Carried(LongerOp(op, extra))
  {
    hide OpCells, DraftOf, OpShort;
    OpCarried(op);
    var x := LongerOp(op, extra);
    assert x.items[0] == OpRow(op).items[0] && x.items[1] == OpRow(op).items[1] && x.items[2] == extra;
    assert Carried(OpRow(op).items[0]) && Carried(OpRow(op).items[1]);
    RowCarried(x.items);
  }

  /** All cells but the last as expected; the last stops early. */
  lemma {:induction false} CellsLeave<S>(
      i: nat, take: (nat, S, Text) -> Parse<S>, ws: seq<Wire>, sts: seq<S>, rest: Text, end: Parse<S>)
    requires i < |ws| == |sts| && forall j :: 0 <= j < |ws| ==> Fit(ws[j]) && Closed(ws[j])
    requires forall j :: 0 <= j < |ws| - 1 ==> TakesCell(take, sts[j], j, ws[j], sts[j + 1])
    requires take(|ws| - 1, sts[|ws| - 1], Laid(ws[|ws| - 1]) + rest) == end
    ensures ReadCells(i, |ws|, LaidItems(ws[i..]) + rest, sts[i], take) == end
    decreases |ws| - i
  {
    hide Laid, TakesCell, Fit, Closed;
    var tail := LaidItems(ws[i + 1..]) + rest;
    assert ws[i..][0] == ws[i] && ws[i..][1..] == ws[i + 1..];
    assert LaidItems(ws[i..]) + rest == Laid(ws[i]) + tail;
    if i < |ws| - 1 {
      WiderRefl(ws[i]);
      TakenCell(take, sts[i], i, ws[i], sts[i + 1], ws[i], tail);
      CellsLeave(i + 1, take, ws, sts, rest, end);
    } else {
      assert tail == rest;
    }
  }

  lemma RowLeaves<S>(take: (nat, S, Text) -> Parse<S>, ws: seq<Wire>, sts: seq<S>, rest: Text, end: Parse<S>)
    requires 0 < |ws| == |sts| && Fit(Row(ws)) && forall j :: 0 <= j < |ws| ==> Fit(ws[j]) && Closed(ws[j])
    requires forall j :: 0 <= j < |ws| - 1 ==> TakesCell(take, sts[j], j, ws[j], sts[j + 1])
    requires take(|ws| - 1, sts[|ws| - 1], Laid(ws[|ws| - 1]) + rest) == end
    ensures ReadRow(|ws|, Laid(Row(ws)) + rest, sts[0], take) == end
  {
    hide TakesCell, LaidItems, ArrayHeader, ArrayCount, ReadCells;
    var tail := LaidItems(ws) + rest;
    assert Laid(Row(ws)) + rest == ArrayHeader(|ws|) + tail;
    ArrayBegins(|ws|, tail);
    assert ws[0..] == ws;
    CellsLeave(0, take, ws, sts, rest, end);
  }

  /** And if the cell behind the pair is laid out as an operation, it is taken for the next one: the delta is
      accepted with an operation nobody sent, and the one that was sent is dropped. */
  lemma LongerOpMisread(base: int, epoch: int, op: DeltaOp, other: DeltaOp, next: DeltaOp, rest: Text)
    requires Fits(base) && Fits(epoch) && OpFits(op) && OpShort(op) && OpFits(next) && OpShort(next)
    requires OpFits(other) && OpShort(other)
    ensures var w := LongerDelta(base, epoch, op, OpRow(other), next);
            Fit(w) && Decode(Laid(w) + rest) == Some(DeltaMsg(Delta(base, epoch, [op, other])))
  {
    hide UnpackInt, ReadSchema, ReadOpRows, ReadRow, TakesCell, Reads, Laid, OpRow, LongerOp, OpFits, OpShort;
    OpCarried(op);
    OpCarried(other);
    OpCarried(next);
    LongerCarried(op, OpRow(other));
    FitsKey(other);
    var ops := List([LongerOp(op, OpRow(other)), OpRow(next)]);
    LongerDeltaCarried(base, epoch, ops);
    var left := Laid(OpRow(next)) + rest;
    OpsMisread(op, other, next, rest);
    var read := Delta(base, epoch, [op, other]);
    DeltaLeaves(base, epoch, ops, rest, [op, other], left);
    EnvelopeLeaves(Row([Num(SCHEMA), Num(base), Num(epoch), ops]), rest, read, left);
  }

  lemma FitsKey(op: DeltaOp)
    requires OpFits(op)
    ensures OpKeyOk(op)
  {
  }

  lemma OpsMisread(op: DeltaOp, other: DeltaOp, next: DeltaOp, rest: Text)
    requires OpKeyOk(op) && OpKeyOk(other) && Carried(LongerOp(op, OpRow(other))) && Carried(OpRow(next))
    ensures var w := List([LongerOp(op, OpRow(other)), OpRow(next)]);
            Fit(w) && Fit(OpRow(next)) && ReadOpRows(Laid(w) + rest) == Done([op, other], Laid(OpRow(next)) + rest)
  {
    hide Laid, ReadOpRow, OpRow, Carried, Reads, ReadOpRows, LongerOp, OpKeyOk;
    LongerOpLeaves(op, OpRow(other), next, rest);
    OpRowReads(other);
    OpRowClosed(op, other);
    WiderRefl(OpRow(other));
    var left := Laid(OpRow(next)) + rest;
    ReadOne(ReadOpRow, OpRow(other), other, OpRow(other), left);
    assert [op] + [other] == [op, other];
    assert Framing.ReadItems(1, Laid(OpRow(other)) + left, ReadOpRow, [op]) == Done([op, other], left);
  }

  lemma OpRowClosed(op: DeltaOp, other: DeltaOp)
    requires Carried(LongerOp(op, OpRow(other)))
    ensures Closed(OpRow(other))
  {
    assert LongerOp(op, OpRow(other)).items[2] == OpRow(other);
  }

  lemma DeltaLeaves(base: int, epoch: int, ops: Wire, rest: Text, read: seq<DeltaOp>, left: Text)
    requires Fits(base) && Fits(epoch) && Carried(ops) && ReadOpRows(Laid(ops) + rest) == Done(read, left)
    requires Fit(Row([Num(SCHEMA), Num(base), Num(epoch), ops]))
    ensures ReadDeltaRow(Laid(Row([Num(SCHEMA), Num(base), Num(epoch), ops])) + rest)
         == Done(Delta(base, epoch, read), left)
  {
    hide UnpackInt, ReadSchema, ReadOpRows, ReadRow, TakesCell, Reads, Laid;
    var d1 := NO_DELTA.(baseEpoch := base);
    var d2 := d1.(epoch := epoch);
    SchemaReads(); CellTakes(DeltaCell, ReadSchema, (_: ()) => NO_DELTA, NO_DELTA, 0, Num(SCHEMA), ());
    NumReads(base); CellTakes(DeltaCell, UnpackInt, (v: int) => NO_DELTA.(baseEpoch := v), NO_DELTA, 1, Num(base),
        base);
    NumReads(epoch); CellTakes(DeltaCell, UnpackInt, (v: int) => d1.(epoch := v), d1, 2, Num(epoch), epoch);
    var ws, end := [Num(SCHEMA), Num(base), Num(epoch), ops], Done(d2.(ops := read), left);
    assert DeltaCell(3, d2, Laid(ops) + rest) == end;
    RowLeaves(DeltaCell, ws, [NO_DELTA, NO_DELTA, d1, d2], rest, end);
  }

  lemma EnvelopeLeaves(delta: Wire, rest: Text, read: Delta, left: Text)
    requires Carried(delta) && Fit(Row([Num(SCHEMA), Num(1), delta]))
    requires ReadDeltaRow(Laid(delta) + rest) == Done(read, left)
    ensures Decode(Laid(Row([Num(SCHEMA), Num(1), delta])) + rest) == Some(DeltaMsg(read))
  {
    hide UnpackInt, ReadSchema, ReadDeltaRow, ReadRow, TakesCell, Reads, Laid;
    var e, ws := Typed(-1), [Num(SCHEMA), Num(1), delta];
    SchemaReads(); CellTakes(MessageCell, ReadSchema, (_: ()) => e, e, 0, Num(SCHEMA), ());
    NumReads(1); CellTakes(MessageCell, UnpackInt, (k: int) => Typed(k), e, 1, Num(1), 1);
    assert MessageCell(2, Typed(1), Laid(delta) + rest) == Done(Whole(DeltaMsg(read)), left);
    RowLeaves(MessageCell, ws, [e, e, Typed(1)], rest, Done(Whole(DeltaMsg(read)), left));
    RowFrame(ws, rest);
  }

  lemma RowFrame(ws: seq<Wire>, rest: Text)
    requires Fit(Row(ws))
    ensures var s := Laid(Row(ws)) + rest; s != [] && KindOf(s[0]) == KArray
  {
    hide ArrayHeader, LaidItems;
    ArrayBegins(|ws|, LaidItems(ws) + rest);
    assert Laid(Row(ws)) + rest == ArrayHeader(|ws|) + (LaidItems(ws) + rest);
  }

  lemma DeltaRefused(base: int, epoch: int, ops: Wire)
    requires Fits(base) && Fits(epoch) && Carried(ops) && Refuses(ReadOpRows, ops)
    requires Fit(Row([Num(SCHEMA), Num(base), Num(epoch), ops]))
    ensures Refuses(ReadDeltaRow, Row([Num(SCHEMA), Num(base), Num(epoch), ops]))
  {
    hide UnpackInt, ReadSchema, ReadOpRows, ReadRow, TakesCell, Reads, Laid;
    var d1 := NO_DELTA.(baseEpoch := base);
    var d2 := d1.(epoch := epoch);
    SchemaReads(); CellTakes(DeltaCell, ReadSchema, (_: ()) => NO_DELTA, NO_DELTA, 0, Num(SCHEMA), ());
    NumReads(base); CellTakes(DeltaCell, UnpackInt, (v: int) => NO_DELTA.(baseEpoch := v), NO_DELTA, 1, Num(base),
        base);
    NumReads(epoch); CellTakes(DeltaCell, UnpackInt, (v: int) => d1.(epoch := v), d1, 2, Num(epoch), epoch);
    forall more: Text ensures DeltaCell(3, d2, Laid(ops) + more).Fail? {
      assert ReadOpRows(Laid(ops) + more).Fail?;
    }
    RowRefused(ReadDeltaRow, 3, 4, DeltaCell, [Num(SCHEMA), Num(base), Num(epoch), ops], [NO_DELTA, NO_DELTA, d1, d2]);
  }

  lemma RowFrameRefused(ws: seq<Wire>, rest: Text)
    requires Fit(Row(ws)) && Refuses(ReadEnvelopeRow, Row(ws))
    ensures Decode(Laid(Row(ws)) + rest) == None
  {
    hide ReadEnvelopeRow, ArrayHeader, LaidItems;
    ArrayBegins(|ws|, LaidItems(ws) + rest);
    assert Laid(Row(ws)) + rest == ArrayHeader(|ws|) + (LaidItems(ws) + rest);
    assert ReadEnvelopeRow(Laid(Row(ws)) + rest).Fail?;
  }
}
