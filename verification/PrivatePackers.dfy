/** The private framing's packers as they run: one growing buffer, every map written key by key and every row
    cell by cell. */
module PrivatePackers {
  import opened Options
  import opened Bytes
  import opened Json
  import opened MsgPack
  import opened MsgPackIo
  import opened Ipc
  import opened Framing
  import opened PrivateMaps
  import opened PrivateRows
  import PrivateCodec
  import PrivateReaders

  // ── What is still to be written ──

  lemma MapOpens(buf: Text, x: Wire)
    requires x.Map? && Fit(x)
    ensures buf + Laid(x) == buf + Header(0x80, 0xde, |x.pairs|) + LaidPairs(x.pairs[0..])
  {
    hide LaidPairs, Header;
    assert x.pairs[0..] == x.pairs;
  }

  lemma RowOpens(buf: Text, x: Wire)
    requires (x.Row? || x.List?) && Fit(x)
    ensures buf + Laid(x) == buf + Header(0x90, 0xdc, |x.items|) + LaidItems(x.items[0..])
  {
    hide LaidItems, Header;
    assert x.items[0..] == x.items;
  }

  lemma NextPair(buf: Text, x: Wire, k: nat)
    requires x.Map? && Fit(x) && k < |x.pairs|
    ensures buf + LaidPairs(x.pairs[k..])
        == buf + PackedStr(x.pairs[k].key) + Laid(x.pairs[k].value) + LaidPairs(x.pairs[k + 1..])
  {
    hide Laid, PackedStr, Fit;
    var ps := x.pairs[k..];
    assert ps[0] == x.pairs[k] && ps[1..] == x.pairs[k + 1..];
  }

  lemma NextItem(buf: Text, x: Wire, k: nat)
    requires (x.Row? || x.List?) && Fit(x) && k < |x.items|
    ensures buf + LaidItems(x.items[k..]) == buf + Laid(x.items[k]) + LaidItems(x.items[k + 1..])
  {
    hide Laid, Fit;
    var xs := x.items[k..];
    assert xs[0] == x.items[k] && xs[1..] == x.items[k + 1..];
  }

  /** The key of pair `k`; its value is to follow. */
  method PackName(p: MsgPacker, name: Text, ghost x: Wire, ghost k: nat)
    requires x.Map? && Fit(x) && k < |x.pairs| && x.pairs[k].key == name
    modifies p
    ensures old(p.buf) + LaidPairs(x.pairs[k..]) == p.buf + Laid(x.pairs[k].value) + LaidPairs(x.pairs[k + 1..])
  {
    hide Laid, LaidPairs, PackedStr, Fit;
    NextPair(p.buf, x, k);
    p.Str(name);
  }

  lemma MapEnds(x: Wire)
    requires x.Map?
    ensures LaidPairs(x.pairs[|x.pairs|..]) == []
  {
  }

  lemma RowEnds(x: Wire)
    requires x.Row? || x.List?
    ensures LaidItems(x.items[|x.items|..]) == []
  {
  }

  // ── Keyed form ──

  method PackKey(p: MsgPacker, key: Option<Text>)
    requires Fit(KeyWire(key))
    modifies p
    ensures p.buf == old(p.buf) + Laid(KeyWire(key))
  {
    if key.Some? { p.Str(key.val); } else { p.Push(0xc0); }
  }

  method PackBlob(p: MsgPacker, r: BlobRef)
    requires Fit(BlobMap(r))
    modifies p
    ensures p.buf == old(p.buf) + Laid(BlobMap(r))
  {
    hide Ascii, PackedStr, PackedInt, PackedBin, LaidPairs, Header, BackendName;
    ghost var x := BlobMap(r);
    MapOpens(p.buf, x); p.WriteHeader(0x80, 0xde, 6);
    PackName(p, Ascii("offset"), x, 0); p.I64(r.offset);
    PackName(p, Ascii("len"), x, 1); p.I64(r.len);
    PackName(p, Ascii("generation"), x, 2); p.I64(r.generation);
    PackName(p, Ascii("epoch"), x, 3); p.I64(r.epoch);
    PackName(p, Ascii("checksum"), x, 4); p.I64(r.checksum);
    PackName(p, Ascii("backend"), x, 5); p.Str(BackendName(r.backend));
    MapEnds(x);
  }

  method PackStamp(p: MsgPacker, t: WireStamp)
    requires Fit(StampMap(t))
    modifies p
    ensures p.buf == old(p.buf) + Laid(StampMap(t))
  {
    hide Ascii, PackedStr, PackedInt, PackedBin, LaidPairs, Header;
    ghost var x := StampMap(t);
    MapOpens(p.buf, x); p.WriteHeader(0x80, 0xde, 3);
    PackName(p, Ascii("wall_time"), x, 0); p.I64(t.wallTime);
    PackName(p, Ascii("logical"), x, 1); p.I64(t.logical);
    PackName(p, Ascii("peer"), x, 2); p.I64(t.peer);
    MapEnds(x);
  }

  method PackBytes(p: MsgPacker, b: Text)
    requires Fit(BytesMap(b))
    modifies p
    ensures p.buf == old(p.buf) + Laid(BytesMap(b))
  {
    hide Ascii, PackedStr, PackedInt, PackedBin, LaidPairs, Header;
    ghost var x := BytesMap(b);
    MapOpens(p.buf, x); p.WriteHeader(0x80, 0xde, 2);
    PackName(p, Ascii("kind"), x, 0); p.I64(0);
    PackName(p, Ascii("bytes"), x, 1); p.Bin(b);
    MapEnds(x);
  }

  method PackShared(p: MsgPacker, r: BlobRef)
    requires Fit(SharedMap(r))
    modifies p
    ensures p.buf == old(p.buf) + Laid(SharedMap(r))
  {
    hide Ascii, PackedStr, PackedInt, PackedBin, LaidPairs, Header, BlobMap;
    ghost var x := SharedMap(r);
    MapOpens(p.buf, x); p.WriteHeader(0x80, 0xde, 2);
    PackName(p, Ascii("kind"), x, 0); p.I64(1);
    PackName(p, Ascii("blob"), x, 1); PackBlob(p, r);
    MapEnds(x);
  }

  method PackOpaque(p: MsgPacker)
    requires Fit(StateMap(Opaque))
    modifies p
    ensures p.buf == old(p.buf) + Laid(StateMap(Opaque))
  {
    hide Ascii, PackedStr, PackedInt, PackedBin, LaidPairs, Header;
    ghost var x := StateMap(Opaque);
    MapOpens(p.buf, x); p.WriteHeader(0x80, 0xde, 1);
    PackName(p, Ascii("kind"), x, 0); p.I64(2);
    MapEnds(x);
  }

  method PackState(p: MsgPacker, st: NodeState)
    requires Fit(StateMap(st))
    modifies p
    ensures p.buf == old(p.buf) + Laid(StateMap(st))
  {
    hide Laid, Fit, BytesMap, SharedMap;
    match st
    case Payload(b) => PackBytes(p, b);
    case SharedBlob(r) => PackShared(p, r);
    case Opaque => PackOpaque(p);
  }

  method PackValue(p: MsgPacker, v: IpcValue)
    requires Fit(ValueMap(v))
    modifies p
    ensures p.buf == old(p.buf) + Laid(ValueMap(v))
  {
    hide Laid, Fit, BytesMap, SharedMap;
    match v
    case InlineValue(b) => PackBytes(p, b);
    case BlobValue(r) => PackShared(p, r);
  }

  method PackNode(p: MsgPacker, nd: NodeSnapshot)
    requires Fit(NodeMap(nd))
    modifies p
    ensures p.buf == old(p.buf) + Laid(NodeMap(nd))
  {
    hide Ascii, PackedStr, PackedInt, PackedBin, LaidPairs, Header, StateMap, KeyWire;
    ghost var x := NodeMap(nd);
    MapOpens(p.buf, x); p.WriteHeader(0x80, 0xde, 4);
    PackName(p, Ascii("node"), x, 0); p.I64(nd.node);
    PackName(p, Ascii("type_tag"), x, 1); p.Str(nd.typeTag);
    PackName(p, Ascii("state"), x, 2); PackState(p, nd.state);
    PackName(p, Ascii("key"), x, 3); PackKey(p, nd.key);
    MapEnds(x);
  }

  method PackEdge(p: MsgPacker, e: EdgeSnapshot)
    requires Fit(EdgeMap(e))
    modifies p
    ensures p.buf == old(p.buf) + Laid(EdgeMap(e))
  {
    hide Ascii, PackedStr, PackedInt, PackedBin, LaidPairs, Header;
    ghost var x := EdgeMap(e);
    MapOpens(p.buf, x); p.WriteHeader(0x80, 0xde, 2);
    PackName(p, Ascii("dependent"), x, 0); p.I64(e.dependent);
    PackName(p, Ascii("dependency"), x, 1); p.I64(e.dependency);
    MapEnds(x);
  }

  method PackNodes(p: MsgPacker, ns: seq<NodeSnapshot>)
    requires Fit(List(Each(ns, NodeMap)))
    modifies p
    ensures p.buf == old(p.buf) + Laid(List(Each(ns, NodeMap)))
  {
    hide Each, LaidItems, Header, NodeMap;
    ghost var x := List(Each(ns, NodeMap));
    ghost var goal := p.buf + Laid(x);
    RowOpens(p.buf, x); p.WriteHeader(0x90, 0xdc, |ns|);
    for i := 0 to |ns|
      invariant goal == p.buf + LaidItems(x.items[i..])
    {
      NextItem(p.buf, x, i); PackNode(p, ns[i]);
    }
    RowEnds(x);
  }

  method PackEdges(p: MsgPacker, es: seq<EdgeSnapshot>)
    requires Fit(List(Each(es, EdgeMap)))
    modifies p
    ensures p.buf == old(p.buf) + Laid(List(Each(es, EdgeMap)))
  {
    hide Each, LaidItems, Header, EdgeMap;
    ghost var x := List(Each(es, EdgeMap));
    ghost var goal := p.buf + Laid(x);
    RowOpens(p.buf, x); p.WriteHeader(0x90, 0xdc, |es|);
    for i := 0 to |es|
      invariant goal == p.buf + LaidItems(x.items[i..])
    {
      NextItem(p.buf, x, i); PackEdge(p, es[i]);
    }
    RowEnds(x);
  }

  method PackInts(p: MsgPacker, ns: seq<int>)
    requires Fit(List(Each(ns, IntWire)))
    modifies p
    ensures p.buf == old(p.buf) + Laid(List(Each(ns, IntWire)))
  {
    hide Each, LaidItems, Header;
    ghost var x := List(Each(ns, IntWire));
    ghost var goal := p.buf + Laid(x);
    RowOpens(p.buf, x); p.WriteHeader(0x90, 0xdc, |ns|);
    for i := 0 to |ns|
      invariant goal == p.buf + LaidItems(x.items[i..])
    {
      NextItem(p.buf, x, i); p.I64(ns[i]);
    }
    RowEnds(x);
  }

  method PackSnapshot(p: MsgPacker, sn: Snapshot)
    requires Fit(SnapshotMap(sn))
    modifies p
    ensures p.buf == old(p.buf) + Laid(SnapshotMap(sn))
  {
    hide Ascii, PackedStr, PackedInt, PackedBin, LaidPairs, Header, Each;
    ghost var x := SnapshotMap(sn);
    MapOpens(p.buf, x); p.WriteHeader(0x80, 0xde, 4);
    PackName(p, Ascii("epoch"), x, 0); p.I64(sn.epoch);
    PackName(p, Ascii("nodes"), x, 1); PackNodes(p, sn.nodes);
    PackName(p, Ascii("edges"), x, 2); PackEdges(p, sn.edges);
    PackName(p, Ascii("roots"), x, 3); PackInts(p, sn.roots);
    MapEnds(x);
  }

  method PackNodeOp(p: MsgPacker, kind: int, node: int)
    requires Fit(NodeOpMap(kind, node))
    modifies p
    ensures p.buf == old(p.buf) + Laid(NodeOpMap(kind, node))
  {
    hide Ascii, PackedStr, PackedInt, PackedBin, LaidPairs, Header;
    ghost var x := NodeOpMap(kind, node);
    MapOpens(p.buf, x); p.WriteHeader(0x80, 0xde, 2);
    PackName(p, Ascii("op"), x, 0); p.I64(kind);
    PackName(p, Ascii("node"), x, 1); p.I64(node);
    MapEnds(x);
  }

  method PackPayloadOp(p: MsgPacker, kind: int, node: int, payload: IpcValue)
    requires Fit(PayloadOpMap(kind, node, payload))
    modifies p
    ensures p.buf == old(p.buf) + Laid(PayloadOpMap(kind, node, payload))
  {
    hide Ascii, PackedStr, PackedInt, PackedBin, LaidPairs, Header, ValueMap;
    ghost var x := PayloadOpMap(kind, node, payload);
    MapOpens(p.buf, x); p.WriteHeader(0x80, 0xde, 3);
    PackName(p, Ascii("op"), x, 0); p.I64(kind);
    PackName(p, Ascii("node"), x, 1); p.I64(node);
    PackName(p, Ascii("payload"), x, 2); PackValue(p, payload);
    MapEnds(x);
  }

  method PackEdgeOp(p: MsgPacker, kind: int, dependent: int, dependency: int)
    requires Fit(EdgeOpMap(kind, dependent, dependency))
    modifies p
    ensures p.buf == old(p.buf) + Laid(EdgeOpMap(kind, dependent, dependency))
  {
    hide Ascii, PackedStr, PackedInt, PackedBin, LaidPairs, Header;
    ghost var x := EdgeOpMap(kind, dependent, dependency);
    MapOpens(p.buf, x); p.WriteHeader(0x80, 0xde, 3);
    PackName(p, Ascii("op"), x, 0); p.I64(kind);
    PackName(p, Ascii("dependent"), x, 1); p.I64(dependent);
    PackName(p, Ascii("dependency"), x, 2); p.I64(dependency);
    MapEnds(x);
  }

  method PackAddOp(p: MsgPacker, kind: int, node: int, typeTag: Text, state: NodeState, key: Option<Text>)
    requires Fit(AddOpMap(kind, node, typeTag, state, key))
    modifies p
    ensures p.buf == old(p.buf) + Laid(AddOpMap(kind, node, typeTag, state, key))
  {
    hide Ascii, PackedStr, PackedInt, PackedBin, LaidPairs, Header, StateMap, KeyWire;
    ghost var x := AddOpMap(kind, node, typeTag, state, key);
    MapOpens(p.buf, x); p.WriteHeader(0x80, 0xde, 5);
    PackName(p, Ascii("op"), x, 0); p.I64(kind);
    PackName(p, Ascii("node"), x, 1); p.I64(node);
    PackName(p, Ascii("type_tag"), x, 2); p.Str(typeTag);
    PackName(p, Ascii("state"), x, 3); PackState(p, state);
    PackName(p, Ascii("key"), x, 4); PackKey(p, key);
    MapEnds(x);
  }

  method PackOp(p: MsgPacker, op: DeltaOp)
    requires Fit(OpMap(op))
    modifies p
    ensures p.buf == old(p.buf) + Laid(OpMap(op))
  {
    hide Laid, Fit, NodeOpMap, PayloadOpMap, EdgeOpMap, AddOpMap;
    match op
    case CellSet(node, payload) => PackPayloadOp(p, 0, node, payload);
    case SlotValue(node, payload) => PackPayloadOp(p, 1, node, payload);
    case Invalidate(node) => PackNodeOp(p, 2, node);
    case NodeAdd(node, typeTag, state, key) => PackAddOp(p, 3, node, typeTag, state, key);
    case NodeRemove(node) => PackNodeOp(p, 4, node);
    case EdgeAdd(dependent, dependency) => PackEdgeOp(p, 5, dependent, dependency);
    case EdgeRemove(dependent, dependency) => PackEdgeOp(p, 6, dependent, dependency);
    case QueuePush(node, payload) => PackPayloadOp(p, 7, node, payload);
    case QueuePop(node) => PackNodeOp(p, 8, node);
    case QueueClose(node) => PackNodeOp(p, 9, node);
  }

  method PackOps(p: MsgPacker, ops: seq<DeltaOp>)
    requires Fit(List(Each(ops, OpMap)))
    modifies p
    ensures p.buf == old(p.buf) + Laid(List(Each(ops, OpMap)))
  {
    hide Each, LaidItems, Header, OpMap;
    ghost var x := List(Each(ops, OpMap));
    ghost var goal := p.buf + Laid(x);
    RowOpens(p.buf, x); p.WriteHeader(0x90, 0xdc, |ops|);
    for i := 0 to |ops|
      invariant goal == p.buf + LaidItems(x.items[i..])
    {
      NextItem(p.buf, x, i); PackOp(p, ops[i]);
    }
    RowEnds(x);
  }

  method PackDelta(p: MsgPacker, d: Delta)
    requires Fit(DeltaMap(d))
    modifies p
    ensures p.buf == old(p.buf) + Laid(DeltaMap(d))
  {
    hide Ascii, PackedStr, PackedInt, PackedBin, LaidPairs, Header, Each;
    ghost var x := DeltaMap(d);
    MapOpens(p.buf, x); p.WriteHeader(0x80, 0xde, 3);
    PackName(p, Ascii("base_epoch"), x, 0); p.I64(d.baseEpoch);
    PackName(p, Ascii("epoch"), x, 1); p.I64(d.epoch);
    PackName(p, Ascii("ops"), x, 2); PackOps(p, d.ops);
    MapEnds(x);
  }

  method PackEntry(p: MsgPacker, e: FrontierEntry)
    requires Fit(EntryList(e))
    modifies p
    ensures p.buf == old(p.buf) + Laid(EntryList(e))
  {
    hide PackedStr, PackedInt, PackedBin, LaidItems, Header, StampMap;
    ghost var x := EntryList(e);
    RowOpens(p.buf, x); p.WriteHeader(0x90, 0xdc, 2);
    NextItem(p.buf, x, 0); p.I64(e.peer);
    NextItem(p.buf, x, 1); PackStamp(p, e.stamp);
    RowEnds(x);
  }

  method PackCrdtOp(p: MsgPacker, o: CrdtOp)
    requires Fit(CrdtOpMap(o))
    modifies p
    ensures p.buf == old(p.buf) + Laid(CrdtOpMap(o))
  {
    hide Ascii, PackedStr, PackedInt, PackedBin, LaidPairs, Header, KeyWire, StampMap, ValueMap;
    ghost var x := CrdtOpMap(o);
    MapOpens(p.buf, x); p.WriteHeader(0x80, 0xde, 4);
    PackName(p, Ascii("node"), x, 0); p.I64(o.node);
    PackName(p, Ascii("key"), x, 1); PackKey(p, o.key);
    PackName(p, Ascii("stamp"), x, 2); PackStamp(p, o.stamp);
    PackName(p, Ascii("state"), x, 3); PackValue(p, o.state);
    MapEnds(x);
  }

  method PackFrontier(p: MsgPacker, es: seq<FrontierEntry>)
    requires Fit(List(Each(es, EntryList)))
    modifies p
    ensures p.buf == old(p.buf) + Laid(List(Each(es, EntryList)))
  {
    hide Each, LaidItems, Header, EntryList;
    ghost var x := List(Each(es, EntryList));
    ghost var goal := p.buf + Laid(x);
    RowOpens(p.buf, x); p.WriteHeader(0x90, 0xdc, |es|);
    for i := 0 to |es|
      invariant goal == p.buf + LaidItems(x.items[i..])
    {
      NextItem(p.buf, x, i); PackEntry(p, es[i]);
    }
    RowEnds(x);
  }

  method PackCrdtOps(p: MsgPacker, ops: seq<CrdtOp>)
    requires Fit(List(Each(ops, CrdtOpMap)))
    modifies p
    ensures p.buf == old(p.buf) + Laid(List(Each(ops, CrdtOpMap)))
  {
    hide Each, LaidItems, Header, CrdtOpMap;
    ghost var x := List(Each(ops, CrdtOpMap));
    ghost var goal := p.buf + Laid(x);
    RowOpens(p.buf, x); p.WriteHeader(0x90, 0xdc, |ops|);
    for i := 0 to |ops|
      invariant goal == p.buf + LaidItems(x.items[i..])
    {
      NextItem(p.buf, x, i); PackCrdtOp(p, ops[i]);
    }
    RowEnds(x);
  }

  method PackSync(p: MsgPacker, c: CrdtSync)
    requires Fit(SyncMap(c))
    modifies p
    ensures p.buf == old(p.buf) + Laid(SyncMap(c))
  {
    hide Ascii, PackedStr, PackedInt, PackedBin, LaidPairs, Header, Each;
    ghost var x := SyncMap(c);
    MapOpens(p.buf, x); p.WriteHeader(0x80, 0xde, 2);
    PackName(p, Ascii("frontier"), x, 0); PackFrontier(p, c.frontier);
    PackName(p, Ascii("ops"), x, 1); PackCrdtOps(p, c.ops);
    MapEnds(x);
  }

  method PackResync(p: MsgPacker, epoch: int)
    requires Fit(ContentMap(ResyncRequest(epoch)))
    modifies p
    ensures p.buf == old(p.buf) + Laid(ContentMap(ResyncRequest(epoch)))
  {
    hide Ascii, PackedStr, PackedInt, PackedBin, LaidPairs, Header;
    ghost var x := ContentMap(ResyncRequest(epoch));
    MapOpens(p.buf, x); p.WriteHeader(0x80, 0xde, 1);
    PackName(p, Ascii("from_epoch"), x, 0); p.I64(epoch);
    MapEnds(x);
  }

  method PackAck(p: MsgPacker, epoch: int)
    requires Fit(ContentMap(OutboxAck(epoch)))
    modifies p
    ensures p.buf == old(p.buf) + Laid(ContentMap(OutboxAck(epoch)))
  {
    hide Ascii, PackedStr, PackedInt, PackedBin, LaidPairs, Header;
    ghost var x := ContentMap(OutboxAck(epoch));
    MapOpens(p.buf, x); p.WriteHeader(0x80, 0xde, 1);
    PackName(p, Ascii("through_epoch"), x, 0); p.I64(epoch);
    MapEnds(x);
  }

  method PackContent(p: MsgPacker, m: IpcMessage)
    requires Fit(ContentMap(m))
    modifies p
    ensures p.buf == old(p.buf) + Laid(ContentMap(m))
  {
    hide Laid, Fit, SnapshotMap, DeltaMap, SyncMap;
    match m
    case SnapshotMsg(sn) => PackSnapshot(p, sn);
    case DeltaMsg(d) => PackDelta(p, d);
    case CrdtSyncMsg(c) => PackSync(p, c);
    case ResyncRequest(epoch) => PackResync(p, epoch);
    case OutboxAck(epoch) => PackAck(p, epoch);
  }

  method PackMessage(p: MsgPacker, m: IpcMessage)
    requires Fit(MessageMap(m))
    modifies p
    ensures p.buf == old(p.buf) + Laid(MessageMap(m))
  {
    hide Ascii, PackedStr, PackedInt, PackedBin, LaidPairs, Header, ContentMap;
    ghost var x := MessageMap(m);
    MapOpens(p.buf, x); p.WriteHeader(0x80, 0xde, 2);
    PackName(p, Ascii("type"), x, 0); p.I64(TypeOf(m));
    PackName(p, Ascii("value"), x, 1); PackContent(p, m);
    MapEnds(x);
  }

  // ── Positional form ──

  method PackBlobRow(p: MsgPacker, r: BlobRef)
    requires Fit(BlobRow(r))
    modifies p
    ensures p.buf == old(p.buf) + Laid(BlobRow(r))
  {
    hide PackedStr, PackedInt, PackedBin, LaidItems, Header, BackendName;
    ghost var x := BlobRow(r);
    RowOpens(p.buf, x); p.WriteHeader(0x90, 0xdc, 7);
    NextItem(p.buf, x, 0); p.I64(SCHEMA);
    NextItem(p.buf, x, 1); p.I64(r.offset);
    NextItem(p.buf, x, 2); p.I64(r.len);
    NextItem(p.buf, x, 3); p.I64(r.generation);
    NextItem(p.buf, x, 4); p.I64(r.epoch);
    NextItem(p.buf, x, 5); p.I64(r.checksum);
    NextItem(p.buf, x, 6); p.Str(BackendName(r.backend));
    RowEnds(x);
  }

  method PackStampRow(p: MsgPacker, t: WireStamp)
    requires Fit(StampRow(t))
    modifies p
    ensures p.buf == old(p.buf) + Laid(StampRow(t))
  {
    hide PackedStr, PackedInt, PackedBin, LaidItems, Header;
    ghost var x := StampRow(t);
    RowOpens(p.buf, x); p.WriteHeader(0x90, 0xdc, 4);
    NextItem(p.buf, x, 0); p.I64(SCHEMA);
    NextItem(p.buf, x, 1); p.I64(t.wallTime);
    NextItem(p.buf, x, 2); p.I64(t.logical);
    NextItem(p.buf, x, 3); p.I64(t.peer);
    RowEnds(x);
  }

  method PackBytesRow(p: MsgPacker, b: Text)
    requires Fit(BodyRow(0, Bin(b)))
    modifies p
    ensures p.buf == old(p.buf) + Laid(BodyRow(0, Bin(b)))
  {
    hide PackedStr, PackedInt, PackedBin, LaidItems, Header;
    ghost var x := BodyRow(0, Bin(b));
    RowOpens(p.buf, x); p.WriteHeader(0x90, 0xdc, 3);
    NextItem(p.buf, x, 0); p.I64(SCHEMA);
    NextItem(p.buf, x, 1); p.I64(0);
    NextItem(p.buf, x, 2); p.Bin(b);
    RowEnds(x);
  }

  method PackSharedRow(p: MsgPacker, r: BlobRef)
    requires Fit(BodyRow(1, BlobRow(r)))
    modifies p
    ensures p.buf == old(p.buf) + Laid(BodyRow(1, BlobRow(r)))
  {
    hide PackedStr, PackedInt, PackedBin, LaidItems, Header, BlobRow;
    ghost var x := BodyRow(1, BlobRow(r));
    RowOpens(p.buf, x); p.WriteHeader(0x90, 0xdc, 3);
    NextItem(p.buf, x, 0); p.I64(SCHEMA);
    NextItem(p.buf, x, 1); p.I64(1);
    NextItem(p.buf, x, 2); PackBlobRow(p, r);
    RowEnds(x);
  }

  method PackOpaqueRow(p: MsgPacker)
    requires Fit(BodyRow(2, Nil))
    modifies p
    ensures p.buf == old(p.buf) + Laid(BodyRow(2, Nil))
  {
    hide PackedStr, PackedInt, PackedBin, LaidItems, Header;
    ghost var x := BodyRow(2, Nil);
    RowOpens(p.buf, x); p.WriteHeader(0x90, 0xdc, 3);
    NextItem(p.buf, x, 0); p.I64(SCHEMA);
    NextItem(p.buf, x, 1); p.I64(2);
    NextItem(p.buf, x, 2); p.Push(0xc0);
    RowEnds(x);
  }

  method PackStateRow(p: MsgPacker, st: NodeState)
    requires Fit(StateRow(st))
    modifies p
    ensures p.buf == old(p.buf) + Laid(StateRow(st))
  {
    hide Laid, Fit, BodyRow, BlobRow;
    match st
    case Payload(b) => PackBytesRow(p, b);
    case SharedBlob(r) => PackSharedRow(p, r);
    case Opaque => PackOpaqueRow(p);
  }

  method PackValueRow(p: MsgPacker, v: IpcValue)
    requires Fit(ValueRow(v))
    modifies p
    ensures p.buf == old(p.buf) + Laid(ValueRow(v))
  {
    hide Laid, Fit, BodyRow, BlobRow;
    match v
    case InlineValue(b) => PackBytesRow(p, b);
    case BlobValue(r) => PackSharedRow(p, r);
  }

  method PackNodeRow(p: MsgPacker, nd: NodeSnapshot)
    requires Fit(NodeRow(nd))
    modifies p
    ensures p.buf == old(p.buf) + Laid(NodeRow(nd))
  {
    hide PackedStr, PackedInt, PackedBin, LaidItems, Header, StateRow, KeyWire;
    ghost var x := NodeRow(nd);
    RowOpens(p.buf, x); p.WriteHeader(0x90, 0xdc, 5);
    NextItem(p.buf, x, 0); p.I64(SCHEMA);
    NextItem(p.buf, x, 1); p.I64(nd.node);
    NextItem(p.buf, x, 2); p.Str(nd.typeTag);
    NextItem(p.buf, x, 3); PackStateRow(p, nd.state);
    NextItem(p.buf, x, 4); PackKey(p, nd.key);
    RowEnds(x);
  }

  method PackEdgeRow(p: MsgPacker, e: EdgeSnapshot)
    requires Fit(EdgeRow(e))
    modifies p
    ensures p.buf == old(p.buf) + Laid(EdgeRow(e))
  {
    hide PackedStr, PackedInt, PackedBin, LaidItems, Header;
    ghost var x := EdgeRow(e);
    RowOpens(p.buf, x); p.WriteHeader(0x90, 0xdc, 3);
    NextItem(p.buf, x, 0); p.I64(SCHEMA);
    NextItem(p.buf, x, 1); p.I64(e.dependent);
    NextItem(p.buf, x, 2); p.I64(e.dependency);
    RowEnds(x);
  }

  method PackNodeRows(p: MsgPacker, ns: seq<NodeSnapshot>)
    requires Fit(List(Each(ns, NodeRow)))
    modifies p
    ensures p.buf == old(p.buf) + Laid(List(Each(ns, NodeRow)))
  {
    hide Each, LaidItems, Header, NodeRow;
    ghost var x := List(Each(ns, NodeRow));
    ghost var goal := p.buf + Laid(x);
    RowOpens(p.buf, x); p.WriteHeader(0x90, 0xdc, |ns|);
    for i := 0 to |ns|
      invariant goal == p.buf + LaidItems(x.items[i..])
    {
      NextItem(p.buf, x, i); PackNodeRow(p, ns[i]);
    }
    RowEnds(x);
  }

  method PackEdgeRows(p: MsgPacker, es: seq<EdgeSnapshot>)
    requires Fit(List(Each(es, EdgeRow)))
    modifies p
    ensures p.buf == old(p.buf) + Laid(List(Each(es, EdgeRow)))
  {
    hide Each, LaidItems, Header, EdgeRow;
    ghost var x := List(Each(es, EdgeRow));
    ghost var goal := p.buf + Laid(x);
    RowOpens(p.buf, x); p.WriteHeader(0x90, 0xdc, |es|);
    for i := 0 to |es|
      invariant goal == p.buf + LaidItems(x.items[i..])
    {
      NextItem(p.buf, x, i); PackEdgeRow(p, es[i]);
    }
    RowEnds(x);
  }

  method PackSnapshotRow(p: MsgPacker, sn: Snapshot)
    requires Fit(SnapshotRow(sn))
    modifies p
    ensures p.buf == old(p.buf) + Laid(SnapshotRow(sn))
  {
    hide PackedStr, PackedInt, PackedBin, LaidItems, Header, Each;
    ghost var x := SnapshotRow(sn);
    RowOpens(p.buf, x); p.WriteHeader(0x90, 0xdc, 5);
    NextItem(p.buf, x, 0); p.I64(SCHEMA);
    NextItem(p.buf, x, 1); p.I64(sn.epoch);
    NextItem(p.buf, x, 2); PackNodeRows(p, sn.nodes);
    NextItem(p.buf, x, 3); PackEdgeRows(p, sn.edges);
    NextItem(p.buf, x, 4); PackInts(p, sn.roots);
    RowEnds(x);
  }

  method PackNodeCells(p: MsgPacker, node: int)
    requires Fit(Row([Num(node)]))
    modifies p
    ensures p.buf == old(p.buf) + Laid(Row([Num(node)]))
  {
    hide PackedStr, PackedInt, PackedBin, LaidItems, Header;
    ghost var x := Row([Num(node)]);
    RowOpens(p.buf, x); p.WriteHeader(0x90, 0xdc, 1);
    NextItem(p.buf, x, 0); p.I64(node);
    RowEnds(x);
  }

  method PackPayloadCells(p: MsgPacker, node: int, payload: IpcValue)
    requires Fit(Row([Num(node), ValueRow(payload)]))
    modifies p
    ensures p.buf == old(p.buf) + Laid(Row([Num(node), ValueRow(payload)]))
  {
    hide PackedStr, PackedInt, PackedBin, LaidItems, Header, ValueRow;
    ghost var x := Row([Num(node), ValueRow(payload)]);
    RowOpens(p.buf, x); p.WriteHeader(0x90, 0xdc, 2);
    NextItem(p.buf, x, 0); p.I64(node);
    NextItem(p.buf, x, 1); PackValueRow(p, payload);
    RowEnds(x);
  }

  method PackEdgeCells(p: MsgPacker, dependent: int, dependency: int)
    requires Fit(Row([Num(dependent), Num(dependency)]))
    modifies p
    ensures p.buf == old(p.buf) + Laid(Row([Num(dependent), Num(dependency)]))
  {
    hide PackedStr, PackedInt, PackedBin, LaidItems, Header;
    ghost var x := Row([Num(dependent), Num(dependency)]);
    RowOpens(p.buf, x); p.WriteHeader(0x90, 0xdc, 2);
    NextItem(p.buf, x, 0); p.I64(dependent);
    NextItem(p.buf, x, 1); p.I64(dependency);
    RowEnds(x);
  }

  method PackAddCells(p: MsgPacker, node: int, typeTag: Text, state: NodeState, key: Option<Text>)
    requires Fit(Row([Num(node), Name(typeTag), StateRow(state), KeyWire(key)]))
    modifies p
    ensures p.buf == old(p.buf) + Laid(Row([Num(node), Name(typeTag), StateRow(state), KeyWire(key)]))
  {
    hide PackedStr, PackedInt, PackedBin, LaidItems, Header, StateRow, KeyWire;
    ghost var x := Row([Num(node), Name(typeTag), StateRow(state), KeyWire(key)]);
    RowOpens(p.buf, x); p.WriteHeader(0x90, 0xdc, 4);
    NextItem(p.buf, x, 0); p.I64(node);
    NextItem(p.buf, x, 1); p.Str(typeTag);
    NextItem(p.buf, x, 2); PackStateRow(p, state);
    NextItem(p.buf, x, 3); PackKey(p, key);
    RowEnds(x);
  }

  method PackOpCells(p: MsgPacker, op: DeltaOp)
    requires Fit(Row(OpCells(op)))
    modifies p
    ensures p.buf == old(p.buf) + Laid(Row(OpCells(op)))
  {
    hide Laid, Fit, ValueRow, StateRow, KeyWire;
    match op
    case CellSet(node, payload) => PackPayloadCells(p, node, payload);
    case SlotValue(node, payload) => PackPayloadCells(p, node, payload);
    case Invalidate(node) => PackNodeCells(p, node);
    case NodeAdd(node, typeTag, state, key) => PackAddCells(p, node, typeTag, state, key);
    case NodeRemove(node) => PackNodeCells(p, node);
    case EdgeAdd(dependent, dependency) => PackEdgeCells(p, dependent, dependency);
    case EdgeRemove(dependent, dependency) => PackEdgeCells(p, dependent, dependency);
    case QueuePush(node, payload) => PackPayloadCells(p, node, payload);
    case QueuePop(node) => PackNodeCells(p, node);
    case QueueClose(node) => PackNodeCells(p, node);
  }

  method PackOpRow(p: MsgPacker, op: DeltaOp)
    requires Fit(OpRow(op))
    modifies p
    ensures p.buf == old(p.buf) + Laid(OpRow(op))
  {
    hide PackedStr, PackedInt, PackedBin, LaidItems, Header, OpCells, DraftOf;
    ghost var x := OpRow(op);
    RowOpens(p.buf, x); p.WriteHeader(0x90, 0xdc, 2);
    NextItem(p.buf, x, 0); p.I64(DraftOf(op).kind);
    NextItem(p.buf, x, 1); PackOpCells(p, op);
    RowEnds(x);
  }

  method PackOpRows(p: MsgPacker, ops: seq<DeltaOp>)
    requires Fit(List(Each(ops, OpRow)))
    modifies p
    ensures p.buf == old(p.buf) + Laid(List(Each(ops, OpRow)))
  {
    hide Each, LaidItems, Header, OpRow;
    ghost var x := List(Each(ops, OpRow));
    ghost var goal := p.buf + Laid(x);
    RowOpens(p.buf, x); p.WriteHeader(0x90, 0xdc, |ops|);
    for i := 0 to |ops|
      invariant goal == p.buf + LaidItems(x.items[i..])
    {
      NextItem(p.buf, x, i); PackOpRow(p, ops[i]);
    }
    RowEnds(x);
  }

  method PackDeltaRow(p: MsgPacker, d: Delta)
    requires Fit(DeltaRow(d))
    modifies p
    ensures p.buf == old(p.buf) + Laid(DeltaRow(d))
  {
    hide PackedStr, PackedInt, PackedBin, LaidItems, Header, Each;
    ghost var x := DeltaRow(d);
    RowOpens(p.buf, x); p.WriteHeader(0x90, 0xdc, 4);
    NextItem(p.buf, x, 0); p.I64(SCHEMA);
    NextItem(p.buf, x, 1); p.I64(d.baseEpoch);
    NextItem(p.buf, x, 2); p.I64(d.epoch);
    NextItem(p.buf, x, 3); PackOpRows(p, d.ops);
    RowEnds(x);
  }

  method PackEntryRow(p: MsgPacker, e: FrontierEntry)
    requires Fit(EntryRow(e))
    modifies p
    ensures p.buf == old(p.buf) + Laid(EntryRow(e))
  {
    hide PackedStr, PackedInt, PackedBin, LaidItems, Header, StampRow;
    ghost var x := EntryRow(e);
    RowOpens(p.buf, x); p.WriteHeader(0x90, 0xdc, 3);
    NextItem(p.buf, x, 0); p.I64(SCHEMA);
    NextItem(p.buf, x, 1); p.I64(e.peer);
    NextItem(p.buf, x, 2); PackStampRow(p, e.stamp);
    RowEnds(x);
  }

  method PackCrdtOpRow(p: MsgPacker, o: CrdtOp)
    requires Fit(CrdtOpRow(o))
    modifies p
    ensures p.buf == old(p.buf) + Laid(CrdtOpRow(o))
  {
    hide PackedStr, PackedInt, PackedBin, LaidItems, Header, KeyWire, StampRow, ValueRow;
    ghost var x := CrdtOpRow(o);
    RowOpens(p.buf, x); p.WriteHeader(0x90, 0xdc, 5);
    NextItem(p.buf, x, 0); p.I64(SCHEMA);
    NextItem(p.buf, x, 1); p.I64(o.node);
    NextItem(p.buf, x, 2); PackKey(p, o.key);
    NextItem(p.buf, x, 3); PackStampRow(p, o.stamp);
    NextItem(p.buf, x, 4); PackValueRow(p, o.state);
    RowEnds(x);
  }

  method PackEntryRows(p: MsgPacker, es: seq<FrontierEntry>)
    requires Fit(List(Each(es, EntryRow)))
    modifies p
    ensures p.buf == old(p.buf) + Laid(List(Each(es, EntryRow)))
  {
    hide Each, LaidItems, Header, EntryRow;
    ghost var x := List(Each(es, EntryRow));
    ghost var goal := p.buf + Laid(x);
    RowOpens(p.buf, x); p.WriteHeader(0x90, 0xdc, |es|);
    for i := 0 to |es|
      invariant goal == p.buf + LaidItems(x.items[i..])
    {
      NextItem(p.buf, x, i); PackEntryRow(p, es[i]);
    }
    RowEnds(x);
  }

  method PackCrdtOpRows(p: MsgPacker, ops: seq<CrdtOp>)
    requires Fit(List(Each(ops, CrdtOpRow)))
    modifies p
    ensures p.buf == old(p.buf) + Laid(List(Each(ops, CrdtOpRow)))
  {
    hide Each, LaidItems, Header, CrdtOpRow;
    ghost var x := List(Each(ops, CrdtOpRow));
    ghost var goal := p.buf + Laid(x);
    RowOpens(p.buf, x); p.WriteHeader(0x90, 0xdc, |ops|);
    for i := 0 to |ops|
      invariant goal == p.buf + LaidItems(x.items[i..])
    {
      NextItem(p.buf, x, i); PackCrdtOpRow(p, ops[i]);
    }
    RowEnds(x);
  }

  method PackSyncRow(p: MsgPacker, c: CrdtSync)
    requires Fit(SyncRow(c))
    modifies p
    ensures p.buf == old(p.buf) + Laid(SyncRow(c))
  {
    hide PackedStr, PackedInt, PackedBin, LaidItems, Header, Each;
    ghost var x := SyncRow(c);
    RowOpens(p.buf, x); p.WriteHeader(0x90, 0xdc, 3);
    NextItem(p.buf, x, 0); p.I64(SCHEMA);
    NextItem(p.buf, x, 1); PackEntryRows(p, c.frontier);
    NextItem(p.buf, x, 2); PackCrdtOpRows(p, c.ops);
    RowEnds(x);
  }

  method PackEpochRow(p: MsgPacker, epoch: int)
    requires Fit(EpochRow(epoch))
    modifies p
    ensures p.buf == old(p.buf) + Laid(EpochRow(epoch))
  {
    hide PackedStr, PackedInt, PackedBin, LaidItems, Header;
    ghost var x := EpochRow(epoch);
    RowOpens(p.buf, x); p.WriteHeader(0x90, 0xdc, 2);
    NextItem(p.buf, x, 0); p.I64(SCHEMA);
    NextItem(p.buf, x, 1); p.I64(epoch);
    RowEnds(x);
  }

  method PackContentRow(p: MsgPacker, m: IpcMessage)
    requires Fit(ContentRow(m))
    modifies p
    ensures p.buf == old(p.buf) + Laid(ContentRow(m))
  {
    hide Laid, Fit, SnapshotRow, DeltaRow, SyncRow, EpochRow;
    match m
    case SnapshotMsg(sn) => PackSnapshotRow(p, sn);
    case DeltaMsg(d) => PackDeltaRow(p, d);
    case CrdtSyncMsg(c) => PackSyncRow(p, c);
    case ResyncRequest(epoch) => PackEpochRow(p, epoch);
    case OutboxAck(epoch) => PackEpochRow(p, epoch);
  }

  method PackMessageRow(p: MsgPacker, m: IpcMessage)
    requires Fit(MessageRow(m))
    modifies p
    ensures p.buf == old(p.buf) + Laid(MessageRow(m))
  {
    hide PackedStr, PackedInt, PackedBin, LaidItems, Header, ContentRow, TypeOf;
    ghost var x := MessageRow(m);
    RowOpens(p.buf, x); p.WriteHeader(0x90, 0xdc, 3);
    NextItem(p.buf, x, 0); p.I64(SCHEMA);
    NextItem(p.buf, x, 1); p.I64(TypeOf(m));
    NextItem(p.buf, x, 2); PackContentRow(p, m);
    RowEnds(x);
  }

  // ── Whole frames ──

  method Encode(m: IpcMessage) returns (frame: Text)
    requires Fit(MessageMap(m))
    ensures frame == PrivateCodec.Encode(m)
  {
    hide Laid, MessageMap;
    var p := new MsgPacker();
    PackMessage(p, m);
    frame := p.buf;
  }

  method EncodePositional(m: IpcMessage) returns (frame: Text)
    requires Fit(MessageRow(m))
    ensures frame == PrivateCodec.EncodePositional(m)
  {
    hide Laid, MessageRow;
    var p := new MsgPacker();
    PackMessageRow(p, m);
    frame := p.buf;
  }

  /** Through the packers and back through the readers, in either form. */
  method ThereAndBack(m: IpcMessage, positional: bool) returns (r: Option<IpcMessage>)
    requires Proper(m) && PrivateCodec.MessageShort(m)
    ensures r == Some(m)
  {
    hide Fit, MessageMap, MessageRow, Proper, PrivateCodec.MessageShort, PrivateCodec.Decode;
    PrivateCodec.PrivateRoundTrip(m);
    var frame;
    if positional { frame := EncodePositional(m); } else { frame := Encode(m); }
    r := PrivateReaders.Decode(frame);
  }
}
