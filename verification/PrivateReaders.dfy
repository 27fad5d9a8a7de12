/** The private framing's readers as they run: one cursor, a loop over the pairs of every map with each field
    filled in as its key is met, and the cells of every row taken one by one. */
module PrivateReaders {
  import opened Options
  import opened Bytes
  import opened Json
  import opened MsgPack
  import opened MsgPackIo
  import opened Ipc
  import opened Framing
  import opened PrivateMaps
  import opened PrivateRows
  import PrivateCodec

  // ── Keyed form ──

  method UnpackKey(u: MsgUnpacker) returns (ok: bool, key: Option<Text>)
    requires u.Valid()
    modifies u
    ensures u.Got(ok, key, ReadKey(old(u.Rest())))
  {
    hide UnpackStr, NodeKeyOk;
    key := None;
    if u.Eof() { return false, key; }
    if KindOf(u.src[u.p]) == KNil {
      var _ := u.Tag();
      assert old(u.Rest())[1..] == u.Rest();
      return true, key;
    }
    var path;
    ok, path := u.ReadStr();
    if !ok || !NodeKeyOk(path) { return false, key; }
    key := Some(path);
  }

  method UnpackBackend(u: MsgUnpacker) returns (ok: bool, b: Backend)
    requires u.Valid()
    modifies u
    ensures u.Got(ok, b, ReadBackend(old(u.Rest())))
  {
    hide UnpackStr, BackendNamed;
    b := Shm;
    var name;
    ok, name := u.ReadStr();
    if !ok || BackendNamed(name).None? { return false, b; }
    b := BackendNamed(name).val;
  }

  method UnpackBlob(u: MsgUnpacker) returns (ok: bool, r: BlobRef)
    requires u.Valid()
    modifies u
    ensures u.Got(ok, r, ReadBlob(old(u.Rest())))
  {
    hide Count, UnpackStr, UnpackInt, Skipped, Ascii, ReadBackend;
    r := NO_BLOB;
    var n; ok, n := u.ReadCount(0x80, 0xde);
    if !ok { return; }
    ghost var goal := ReadPairs(n, u.Rest(), r, BlobField);
    for i := 0 to n
      invariant ok && u.Valid() && old(u.p) <= u.p && goal == ReadPairs(n - i, u.Rest(), r, BlobField)
    {
      var k; ok, k := u.ReadStr();
      if !ok { return; }
      if k == Ascii("offset") {
        var x; ok, x := u.ReadI64(); r := r.(offset := x);
      } else if k == Ascii("len") {
        var x; ok, x := u.ReadI64(); r := r.(len := x);
      } else if k == Ascii("generation") {
        var x; ok, x := u.ReadI64(); r := r.(generation := x);
      } else if k == Ascii("epoch") {
        var x; ok, x := u.ReadI64(); r := r.(epoch := x);
      } else if k == Ascii("checksum") {
        var x; ok, x := u.ReadI64(); r := r.(checksum := x);
      } else if k == Ascii("backend") {
        var x; ok, x := UnpackBackend(u); r := r.(backend := x);
      } else {
        ok := u.Skip();
      }
      if !ok { return; }
    }
  }

  method UnpackStamp(u: MsgUnpacker) returns (ok: bool, t: WireStamp)
    requires u.Valid()
    modifies u
    ensures u.Got(ok, t, ReadStamp(old(u.Rest())))
  {
    hide Count, UnpackStr, UnpackInt, Skipped, Ascii;
    t := NO_STAMP;
    var n; ok, n := u.ReadCount(0x80, 0xde);
    if !ok { return; }
    ghost var goal := ReadPairs(n, u.Rest(), t, StampField);
    for i := 0 to n
      invariant ok && u.Valid() && old(u.p) <= u.p && goal == ReadPairs(n - i, u.Rest(), t, StampField)
    {
      var k; ok, k := u.ReadStr();
      if !ok { return; }
      if k == Ascii("wall_time") {
        var x; ok, x := u.ReadI64(); t := t.(wallTime := x);
      } else if k == Ascii("logical") {
        var x; ok, x := u.ReadI64(); t := t.(logical := x);
      } else if k == Ascii("peer") {
        var x; ok, x := u.ReadI64(); t := t.(peer := x);
      } else {
        ok := u.Skip();
      }
      if !ok { return; }
    }
  }

  method UnpackBody(u: MsgUnpacker) returns (ok: bool, d: BodyDraft)
    requires u.Valid()
    modifies u
    ensures u.Got(ok, d, ReadBody(old(u.Rest())))
  {
    hide Count, UnpackStr, UnpackInt, Skipped, Ascii, UnpackBin, ReadBlob, Narrowed;
    d := NO_BODY;
    var n; ok, n := u.ReadCount(0x80, 0xde);
    if !ok { return; }
    ghost var goal := ReadPairs(n, u.Rest(), d, BodyField);
    for i := 0 to n
      invariant ok && u.Valid() && old(u.p) <= u.p && goal == ReadPairs(n - i, u.Rest(), d, BodyField)
    {
      var k; ok, k := u.ReadStr();
      if !ok { return; }
      if k == Ascii("kind") {
        var x; ok, x := u.ReadI64(); d := d.(kind := Narrowed(x));
      } else if k == Ascii("bytes") {
        var x; ok, x := u.ReadBin(); d := d.(bytes := x);
      } else if k == Ascii("blob") {
        var x; ok, x := UnpackBlob(u); d := d.(blob := x);
      } else {
        ok := u.Skip();
      }
      if !ok { return; }
    }
  }

  method UnpackState(u: MsgUnpacker) returns (ok: bool, st: NodeState)
    requires u.Valid()
    modifies u
    ensures u.Got(ok, st, ReadState(old(u.Rest())))
  {
    hide ReadBody, StateOf;
    st := Opaque;
    var d; ok, d := UnpackBody(u);
    if !ok || StateOf(d).None? { return false, st; }
    st := StateOf(d).val;
  }

  method UnpackValue(u: MsgUnpacker) returns (ok: bool, v: IpcValue)
    requires u.Valid()
    modifies u
    ensures u.Got(ok, v, PrivateMaps.ReadValue(old(u.Rest())))
  {
    hide ReadBody, ValueOf;
    v := InlineValue([]);
    var d; ok, d := UnpackBody(u);
    if !ok || ValueOf(d).None? { return false, v; }
    v := ValueOf(d).val;
  }

  method UnpackNode(u: MsgUnpacker) returns (ok: bool, nd: NodeSnapshot)
    requires u.Valid()
    modifies u
    ensures u.Got(ok, nd, ReadNode(old(u.Rest())))
  {
    hide Count, UnpackStr, UnpackInt, Skipped, Ascii, ReadState, ReadKey;
    nd := NO_NODE;
    var n; ok, n := u.ReadCount(0x80, 0xde);
    if !ok { return; }
    ghost var goal := ReadPairs(n, u.Rest(), nd, NodeField);
    for i := 0 to n
      invariant ok && u.Valid() && old(u.p) <= u.p && goal == ReadPairs(n - i, u.Rest(), nd, NodeField)
    {
      var k; ok, k := u.ReadStr();
      if !ok { return; }
      if k == Ascii("node") {
        var x; ok, x := u.ReadI64(); nd := nd.(node := x);
      } else if k == Ascii("type_tag") {
        var x; ok, x := u.ReadStr(); nd := nd.(typeTag := x);
      } else if k == Ascii("state") {
        var x; ok, x := UnpackState(u); nd := nd.(state := x);
      } else if k == Ascii("key") {
        var x; ok, x := UnpackKey(u); nd := nd.(key := x);
      } else {
        ok := u.Skip();
      }
      if !ok { return; }
    }
  }

  method UnpackEdge(u: MsgUnpacker) returns (ok: bool, e: EdgeSnapshot)
    requires u.Valid()
    modifies u
    ensures u.Got(ok, e, ReadEdge(old(u.Rest())))
  {
    hide Count, UnpackStr, UnpackInt, Skipped, Ascii;
    e := NO_EDGE;
    var n; ok, n := u.ReadCount(0x80, 0xde);
    if !ok { return; }
    ghost var goal := ReadPairs(n, u.Rest(), e, EdgeField);
    for i := 0 to n
      invariant ok && u.Valid() && old(u.p) <= u.p && goal == ReadPairs(n - i, u.Rest(), e, EdgeField)
    {
      var k; ok, k := u.ReadStr();
      if !ok { return; }
      if k == Ascii("dependent") {
        var x; ok, x := u.ReadI64(); e := e.(dependent := x);
      } else if k == Ascii("dependency") {
        var x; ok, x := u.ReadI64(); e := e.(dependency := x);
      } else {
        ok := u.Skip();
      }
      if !ok { return; }
    }
  }

  method UnpackNodes(u: MsgUnpacker) returns (ok: bool, read: seq<NodeSnapshot>)
    requires u.Valid()
    modifies u
    ensures u.Got(ok, read, ReadNodes(old(u.Rest())))
  {
    hide Count, ReadNode;
    read := [];
    var n; ok, n := u.ReadCount(0x90, 0xdc);
    if !ok { return; }
    ghost var goal := Framing.ReadItems(n, u.Rest(), ReadNode, read);
    for i := 0 to n
      invariant ok && u.Valid() && old(u.p) <= u.p && goal == Framing.ReadItems(n - i, u.Rest(), ReadNode, read)
    {
      var x; ok, x := UnpackNode(u);
      if !ok { return; }
      read := read + [x];
    }
  }

  method UnpackEdges(u: MsgUnpacker) returns (ok: bool, read: seq<EdgeSnapshot>)
    requires u.Valid()
    modifies u
    ensures u.Got(ok, read, ReadEdges(old(u.Rest())))
  {
    hide Count, ReadEdge;
    read := [];
    var n; ok, n := u.ReadCount(0x90, 0xdc);
    if !ok { return; }
    ghost var goal := Framing.ReadItems(n, u.Rest(), ReadEdge, read);
    for i := 0 to n
      invariant ok && u.Valid() && old(u.p) <= u.p && goal == Framing.ReadItems(n - i, u.Rest(), ReadEdge, read)
    {
      var x; ok, x := UnpackEdge(u);
      if !ok { return; }
      read := read + [x];
    }
  }

  method UnpackInts(u: MsgUnpacker) returns (ok: bool, read: seq<int>)
    requires u.Valid()
    modifies u
    ensures u.Got(ok, read, ReadInts(old(u.Rest())))
  {
    hide Count, UnpackInt;
    read := [];
    var n; ok, n := u.ReadCount(0x90, 0xdc);
    if !ok { return; }
    ghost var goal := Framing.ReadItems(n, u.Rest(), UnpackInt, read);
    for i := 0 to n
      invariant ok && u.Valid() && old(u.p) <= u.p && goal == Framing.ReadItems(n - i, u.Rest(), UnpackInt, read)
    {
      var x; ok, x := u.ReadI64();
      if !ok { return; }
      read := read + [x];
    }
  }

  method UnpackSnapshot(u: MsgUnpacker) returns (ok: bool, sn: Snapshot)
    requires u.Valid()
    modifies u
    ensures u.Got(ok, sn, ReadSnapshot(old(u.Rest())))
  {
    hide Count, UnpackStr, UnpackInt, Skipped, Ascii, ReadNodes, ReadEdges, ReadInts;
    sn := NO_SNAPSHOT;
    var n; ok, n := u.ReadCount(0x80, 0xde);
    if !ok { return; }
    ghost var goal := ReadPairs(n, u.Rest(), sn, SnapshotField);
    for i := 0 to n
      invariant ok && u.Valid() && old(u.p) <= u.p && goal == ReadPairs(n - i, u.Rest(), sn, SnapshotField)
    {
      var k; ok, k := u.ReadStr();
      if !ok { return; }
      if k == Ascii("epoch") {
        var x; ok, x := u.ReadI64(); sn := sn.(epoch := x);
      } else if k == Ascii("nodes") {
        var x; ok, x := UnpackNodes(u); sn := sn.(nodes := sn.nodes + x);
      } else if k == Ascii("edges") {
        var x; ok, x := UnpackEdges(u); sn := sn.(edges := sn.edges + x);
      } else if k == Ascii("roots") {
        var x; ok, x := UnpackInts(u); sn := sn.(roots := sn.roots + x);
      } else {
        ok := u.Skip();
      }
      if !ok { return; }
    }
  }

  method UnpackOpDraft(u: MsgUnpacker) returns (ok: bool, d: OpDraft)
    requires u.Valid()
    modifies u
    ensures u.Got(ok, d, ReadOpDraft(old(u.Rest())))
  {
    hide Count, UnpackStr, UnpackInt, Skipped, Ascii, ReadState, ReadKey, PrivateMaps.ReadValue, Narrowed;
    d := NO_OP;
    var n; ok, n := u.ReadCount(0x80, 0xde);
    if !ok { return; }
    ghost var goal := ReadPairs(n, u.Rest(), d, OpField);
    for i := 0 to n
      invariant ok && u.Valid() && old(u.p) <= u.p && goal == ReadPairs(n - i, u.Rest(), d, OpField)
    {
      var k; ok, k := u.ReadStr();
      if !ok { return; }
      if k == Ascii("op") {
        var x; ok, x := u.ReadI64(); d := d.(kind := Narrowed(x));
      } else if k == Ascii("node") {
        var x; ok, x := u.ReadI64(); d := d.(node := x);
      } else if k == Ascii("dependent") {
        var x; ok, x := u.ReadI64(); d := d.(dependent := x);
      } else if k == Ascii("dependency") {
        var x; ok, x := u.ReadI64(); d := d.(dependency := x);
      } else if k == Ascii("type_tag") {
        var x; ok, x := u.ReadStr(); d := d.(typeTag := x);
      } else if k == Ascii("state") {
        var x; ok, x := UnpackState(u); d := d.(state := x);
      } else if k == Ascii("key") {
        var x; ok, x := UnpackKey(u); d := d.(key := x);
      } else if k == Ascii("payload") {
        var x; ok, x := UnpackValue(u); d := d.(payload := x);
      } else {
        ok := u.Skip();
      }
      if !ok { return; }
    }
  }

  method UnpackOp(u: MsgUnpacker) returns (ok: bool, op: DeltaOp)
    requires u.Valid()
    modifies u
    ensures u.Got(ok, op, ReadOp(old(u.Rest())))
  {
    hide ReadOpDraft, OpOf;
    op := Invalidate(0);
    var d; ok, d := UnpackOpDraft(u);
    if !ok || OpOf(d).None? { return false, op; }
    op := OpOf(d).val;
  }

  method UnpackOps(u: MsgUnpacker) returns (ok: bool, read: seq<DeltaOp>)
    requires u.Valid()
    modifies u
    ensures u.Got(ok, read, ReadOps(old(u.Rest())))
  {
    hide Count, ReadOp;
    read := [];
    var n; ok, n := u.ReadCount(0x90, 0xdc);
    if !ok { return; }
    ghost var goal := Framing.ReadItems(n, u.Rest(), ReadOp, read);
    for i := 0 to n
      invariant ok && u.Valid() && old(u.p) <= u.p && goal == Framing.ReadItems(n - i, u.Rest(), ReadOp, read)
    {
      var x; ok, x := UnpackOp(u);
      if !ok { return; }
      read := read + [x];
    }
  }

  method UnpackDelta(u: MsgUnpacker) returns (ok: bool, d: Delta)
    requires u.Valid()
    modifies u
    ensures u.Got(ok, d, ReadDelta(old(u.Rest())))
  {
    hide Count, UnpackStr, UnpackInt, Skipped, Ascii, ReadOps;
    d := NO_DELTA;
    var n; ok, n := u.ReadCount(0x80, 0xde);
    if !ok { return; }
    ghost var goal := ReadPairs(n, u.Rest(), d, DeltaField);
    for i := 0 to n
      invariant ok && u.Valid() && old(u.p) <= u.p && goal == ReadPairs(n - i, u.Rest(), d, DeltaField)
    {
      var k; ok, k := u.ReadStr();
      if !ok { return; }
      if k == Ascii("base_epoch") {
        var x; ok, x := u.ReadI64(); d := d.(baseEpoch := x);
      } else if k == Ascii("epoch") {
        var x; ok, x := u.ReadI64(); d := d.(epoch := x);
      } else if k == Ascii("ops") {
        var x; ok, x := UnpackOps(u); d := d.(ops := d.ops + x);
      } else {
        ok := u.Skip();
      }
      if !ok { return; }
    }
  }

  method UnpackEntry(u: MsgUnpacker) returns (ok: bool, e: FrontierEntry)
    requires u.Valid()
    modifies u
    ensures u.Got(ok, e, ReadEntry(old(u.Rest())))
  {
    hide Count, UnpackInt, ReadStamp;
    e := NO_ENTRY;
    var n; ok, n := u.ReadCount(0x90, 0xdc);
    if !ok || n != 2 { return false, e; }
    var peer, stamp;
    ok, peer := u.ReadI64();
    if !ok { return; }
    ok, stamp := UnpackStamp(u);
    e := FrontierEntry(peer, stamp);
  }

  method UnpackCrdtOp(u: MsgUnpacker) returns (ok: bool, o: CrdtOp)
    requires u.Valid()
    modifies u
    ensures u.Got(ok, o, ReadCrdtOp(old(u.Rest())))
  {
    hide Count, UnpackStr, UnpackInt, Skipped, Ascii, ReadKey, ReadStamp, PrivateMaps.ReadValue;
    o := NO_CRDT_OP;
    var n; ok, n := u.ReadCount(0x80, 0xde);
    if !ok { return; }
    ghost var goal := ReadPairs(n, u.Rest(), o, CrdtOpField);
    for i := 0 to n
      invariant ok && u.Valid() && old(u.p) <= u.p && goal == ReadPairs(n - i, u.Rest(), o, CrdtOpField)
    {
      var k; ok, k := u.ReadStr();
      if !ok { return; }
      if k == Ascii("node") {
        var x; ok, x := u.ReadI64(); o := o.(node := x);
      } else if k == Ascii("key") {
        var x; ok, x := UnpackKey(u); o := o.(key := x);
      } else if k == Ascii("stamp") {
        var x; ok, x := UnpackStamp(u); o := o.(stamp := x);
      } else if k == Ascii("state") {
        var x; ok, x := UnpackValue(u); o := o.(state := x);
      } else {
        ok := u.Skip();
      }
      if !ok { return; }
    }
  }

  method UnpackFrontier(u: MsgUnpacker) returns (ok: bool, read: seq<FrontierEntry>)
    requires u.Valid()
    modifies u
    ensures u.Got(ok, read, ReadFrontier(old(u.Rest())))
  {
    hide Count, ReadEntry;
    read := [];
    var n; ok, n := u.ReadCount(0x90, 0xdc);
    if !ok { return; }
    ghost var goal := Framing.ReadItems(n, u.Rest(), ReadEntry, read);
    for i := 0 to n
      invariant ok && u.Valid() && old(u.p) <= u.p && goal == Framing.ReadItems(n - i, u.Rest(), ReadEntry, read)
    {
      var x; ok, x := UnpackEntry(u);
      if !ok { return; }
      read := read + [x];
    }
  }

  method UnpackCrdtOps(u: MsgUnpacker) returns (ok: bool, read: seq<CrdtOp>)
    requires u.Valid()
    modifies u
    ensures u.Got(ok, read, ReadCrdtOps(old(u.Rest())))
  {
    hide Count, ReadCrdtOp;
    read := [];
    var n; ok, n := u.ReadCount(0x90, 0xdc);
    if !ok { return; }
    ghost var goal := Framing.ReadItems(n, u.Rest(), ReadCrdtOp, read);
    for i := 0 to n
      invariant ok && u.Valid() && old(u.p) <= u.p && goal == Framing.ReadItems(n - i, u.Rest(), ReadCrdtOp, read)
    {
      var x; ok, x := UnpackCrdtOp(u);
      if !ok { return; }
      read := read + [x];
    }
  }

  method UnpackSync(u: MsgUnpacker) returns (ok: bool, c: CrdtSync)
    requires u.Valid()
    modifies u
    ensures u.Got(ok, c, ReadSync(old(u.Rest())))
  {
    hide Count, UnpackStr, UnpackInt, Skipped, Ascii, ReadFrontier, ReadCrdtOps;
    c := NO_SYNC;
    var n; ok, n := u.ReadCount(0x80, 0xde);
    if !ok { return; }
    ghost var goal := ReadPairs(n, u.Rest(), c, SyncField);
    for i := 0 to n
      invariant ok && u.Valid() && old(u.p) <= u.p && goal == ReadPairs(n - i, u.Rest(), c, SyncField)
    {
      var k; ok, k := u.ReadStr();
      if !ok { return; }
      if k == Ascii("frontier") {
        var x; ok, x := UnpackFrontier(u); c := c.(frontier := c.frontier + x);
      } else if k == Ascii("ops") {
        var x; ok, x := UnpackCrdtOps(u); c := c.(ops := c.ops + x);
      } else {
        ok := u.Skip();
      }
      if !ok { return; }
    }
  }

  method UnpackResync(u: MsgUnpacker) returns (ok: bool, epoch: int)
    requires u.Valid()
    modifies u
    ensures u.Got(ok, epoch, ReadResync(old(u.Rest())))
  {
    hide Count, UnpackStr, UnpackInt, Skipped, Ascii;
    epoch := 0;
    var n; ok, n := u.ReadCount(0x80, 0xde);
    if !ok { return; }
    ghost var goal := ReadPairs(n, u.Rest(), epoch, ResyncField);
    for i := 0 to n
      invariant ok && u.Valid() && old(u.p) <= u.p && goal == ReadPairs(n - i, u.Rest(), epoch, ResyncField)
    {
      var k; ok, k := u.ReadStr();
      if !ok { return; }
      if k == Ascii("from_epoch") {
        var x; ok, x := u.ReadI64(); epoch := x;
      } else {
        ok := u.Skip();
      }
      if !ok { return; }
    }
  }

  method UnpackAck(u: MsgUnpacker) returns (ok: bool, epoch: int)
    requires u.Valid()
    modifies u
    ensures u.Got(ok, epoch, ReadAck(old(u.Rest())))
  {
    hide Count, UnpackStr, UnpackInt, Skipped, Ascii;
    epoch := 0;
    var n; ok, n := u.ReadCount(0x80, 0xde);
    if !ok { return; }
    ghost var goal := ReadPairs(n, u.Rest(), epoch, AckField);
    for i := 0 to n
      invariant ok && u.Valid() && old(u.p) <= u.p && goal == ReadPairs(n - i, u.Rest(), epoch, AckField)
    {
      var k; ok, k := u.ReadStr();
      if !ok { return; }
      if k == Ascii("through_epoch") {
        var x; ok, x := u.ReadI64(); epoch := x;
      } else {
        ok := u.Skip();
      }
      if !ok { return; }
    }
  }

  method UnpackContent(u: MsgUnpacker, kind: int) returns (ok: bool, m: IpcMessage)
    requires u.Valid()
    modifies u
    ensures u.Got(ok, m, ReadContent(kind, old(u.Rest())))
  {
    hide ReadSnapshot, ReadDelta, ReadSync, ReadResync, ReadAck;
    ok, m := false, OutboxAck(0);
    if kind == 0 {
      var x; ok, x := UnpackSnapshot(u); m := SnapshotMsg(x);
    } else if kind == 1 {
      var x; ok, x := UnpackDelta(u); m := DeltaMsg(x);
    } else if kind == 2 {
      var x; ok, x := UnpackSync(u); m := CrdtSyncMsg(x);
    } else if kind == 3 {
      var x; ok, x := UnpackResync(u); m := ResyncRequest(x);
    } else if kind == 4 {
      var x; ok, x := UnpackAck(u); m := OutboxAck(x);
    }
  }

  /** The value returns as soon as it is met; a map without one is refused. */
  method UnpackMessage(u: MsgUnpacker) returns (ok: bool, m: IpcMessage)
    requires u.Valid()
    modifies u
    ensures u.Got(ok, m, ReadMessage(old(u.Rest())))
  {
    hide Count, UnpackStr, UnpackInt, Skipped, Ascii, ReadContent, Narrowed;
    m := OutboxAck(0);
    var n, kind := 0, -1;
    ok, n := u.ReadCount(0x80, 0xde);
    if !ok { return; }
    ghost var goal := ReadEnvelope(n, u.Rest(), kind);
    for i := 0 to n
      invariant ok && u.Valid() && old(u.p) <= u.p && goal == ReadEnvelope(n - i, u.Rest(), kind)
    {
      var k; ok, k := u.ReadStr();
      if !ok { return; }
      if k == Ascii("type") {
        var t;
        ok, t := u.ReadI64();
        kind := Narrowed(t);
      } else if k == Ascii("value") {
        ok, m := UnpackContent(u, kind);
        return;
      } else {
        ok := u.Skip();
      }
      if !ok { return; }
    }
    ok := false;
  }

  // ── Positional form ──

  method UnpackSchema(u: MsgUnpacker) returns (ok: bool)
    requires u.Valid()
    modifies u
    ensures u.Got(ok, (), ReadSchema(old(u.Rest())))
  {
    hide UnpackInt;
    var i;
    ok, i := u.ReadI64();
    ok := ok && i == SCHEMA;
  }

  method UnpackNil(u: MsgUnpacker) returns (ok: bool)
    requires u.Valid()
    modifies u
    ensures u.Got(ok, (), ReadNil(old(u.Rest())))
  {
    if u.Eof() || u.src[u.p] != 0xc0 { return false; }
    var _ := u.Tag();
    assert old(u.Rest())[1..] == u.Rest();
    ok := true;
  }

  method UnpackBlobCells(u: MsgUnpacker) returns (ok: bool, r: BlobRef)
    requires u.Valid()
    modifies u
    ensures u.Got(ok, r, ReadCells(0, 7, old(u.Rest()), NO_BLOB, BlobCell))
  {
    hide UnpackInt, ReadSchema, ReadBackend;
    r := NO_BLOB;
    ghost var goal := ReadCells(0, 7, u.Rest(), r, BlobCell);
    ok := UnpackSchema(u);
    if !ok { return; }
    assert goal == ReadCells(1, 7, u.Rest(), r, BlobCell);
    var offset; ok, offset := u.ReadI64();
    if !ok { return; }
    r := r.(offset := offset);
    assert goal == ReadCells(2, 7, u.Rest(), r, BlobCell);
    var len; ok, len := u.ReadI64();
    if !ok { return; }
    r := r.(len := len);
    assert goal == ReadCells(3, 7, u.Rest(), r, BlobCell);
    var generation; ok, generation := u.ReadI64();
    if !ok { return; }
    r := r.(generation := generation);
    assert goal == ReadCells(4, 7, u.Rest(), r, BlobCell);
    var epoch; ok, epoch := u.ReadI64();
    if !ok { return; }
    r := r.(epoch := epoch);
    assert goal == ReadCells(5, 7, u.Rest(), r, BlobCell);
    var checksum; ok, checksum := u.ReadI64();
    if !ok { return; }
    r := r.(checksum := checksum);
    assert goal == ReadCells(6, 7, u.Rest(), r, BlobCell);
    var backend; ok, backend := UnpackBackend(u);
    if !ok { return; }
    r := r.(backend := backend);
  }

  method UnpackBlobRow(u: MsgUnpacker) returns (ok: bool, r: BlobRef)
    requires u.Valid()
    modifies u
    ensures u.Got(ok, r, ReadBlobRow(old(u.Rest())))
  {
    hide Count, ReadCells, SkippedMany;
    r := NO_BLOB;
    var n; ok, n := u.ReadCount(0x90, 0xdc);
    if !ok || n < 7 { return false, r; }
    ok, r := UnpackBlobCells(u);
    if !ok { return; }
    ok := u.SkipMany(n - 7);
  }

  method UnpackStampCells(u: MsgUnpacker) returns (ok: bool, t: WireStamp)
    requires u.Valid()
    modifies u
    ensures u.Got(ok, t, ReadCells(0, 4, old(u.Rest()), NO_STAMP, StampCell))
  {
    hide UnpackInt, ReadSchema;
    t := NO_STAMP;
    ghost var goal := ReadCells(0, 4, u.Rest(), t, StampCell);
    ok := UnpackSchema(u);
    if !ok { return; }
    assert goal == ReadCells(1, 4, u.Rest(), t, StampCell);
    var wallTime; ok, wallTime := u.ReadI64();
    if !ok { return; }
    t := t.(wallTime := wallTime);
    assert goal == ReadCells(2, 4, u.Rest(), t, StampCell);
    var logical; ok, logical := u.ReadI64();
    if !ok { return; }
    t := t.(logical := logical);
    assert goal == ReadCells(3, 4, u.Rest(), t, StampCell);
    var peer; ok, peer := u.ReadI64();
    if !ok { return; }
    t := t.(peer := peer);
  }

  method UnpackStampRow(u: MsgUnpacker) returns (ok: bool, t: WireStamp)
    requires u.Valid()
    modifies u
    ensures u.Got(ok, t, ReadStampRow(old(u.Rest())))
  {
    hide Count, ReadCells, SkippedMany;
    t := NO_STAMP;
    var n; ok, n := u.ReadCount(0x90, 0xdc);
    if !ok || n < 4 { return false, t; }
    ok, t := UnpackStampCells(u);
    if !ok { return; }
    ok := u.SkipMany(n - 4);
  }

  /** The third cell is what the second says it is. */
  method UnpackBodyCells(u: MsgUnpacker) returns (ok: bool, d: BodyDraft)
    requires u.Valid()
    modifies u
    ensures u.Got(ok, d, ReadCells(0, 3, old(u.Rest()), NO_BODY, BodyCell))
  {
    hide UnpackInt, UnpackBin, ReadSchema, ReadBlobRow, ReadNil;
    d := NO_BODY;
    ghost var goal := ReadCells(0, 3, u.Rest(), d, BodyCell);
    ok := UnpackSchema(u);
    if !ok { return; }
    assert goal == ReadCells(1, 3, u.Rest(), d, BodyCell);
    var kind; ok, kind := u.ReadI64();
    if !ok { return; }
    d := d.(kind := kind);
    assert goal == ReadCells(2, 3, u.Rest(), d, BodyCell);
    if kind == 0 {
      var bytes; ok, bytes := u.ReadBin(); d := d.(bytes := bytes);
    } else if kind == 1 {
      var blob; ok, blob := UnpackBlobRow(u); d := d.(blob := blob);
    } else if kind == 2 {
      ok := UnpackNil(u);
    } else {
      ok := false;
    }
  }

  method UnpackBodyRow(u: MsgUnpacker) returns (ok: bool, d: BodyDraft)
    requires u.Valid()
    modifies u
    ensures u.Got(ok, d, ReadBodyRow(old(u.Rest())))
  {
    hide Count, ReadCells, SkippedMany;
    d := NO_BODY;
    var n; ok, n := u.ReadCount(0x90, 0xdc);
    if !ok || n < 3 { return false, d; }
    ok, d := UnpackBodyCells(u);
    if !ok { return; }
    ok := u.SkipMany(n - 3);
  }

  method UnpackStateRow(u: MsgUnpacker) returns (ok: bool, st: NodeState)
    requires u.Valid()
    modifies u
    ensures u.Got(ok, st, ReadStateRow(old(u.Rest())))
  {
    hide ReadBodyRow, StateOf;
    st := Opaque;
    var d; ok, d := UnpackBodyRow(u);
    if !ok || StateOf(d).None? { return false, st; }
    st := StateOf(d).val;
  }

  method UnpackValueRow(u: MsgUnpacker) returns (ok: bool, v: IpcValue)
    requires u.Valid()
    modifies u
    ensures u.Got(ok, v, ReadValueRow(old(u.Rest())))
  {
    hide ReadBodyRow, ValueOf;
    v := InlineValue([]);
    var d; ok, d := UnpackBodyRow(u);
    if !ok || ValueOf(d).None? { return false, v; }
    v := ValueOf(d).val;
  }

  method UnpackNodeCells(u: MsgUnpacker) returns (ok: bool, nd: NodeSnapshot)
    requires u.Valid()
    modifies u
    ensures u.Got(ok, nd, ReadCells(0, 5, old(u.Rest()), NO_NODE, NodeCell))
  {
    hide UnpackInt, ReadSchema, UnpackStr, ReadStateRow, ReadKey;
    nd := NO_NODE;
    ghost var goal := ReadCells(0, 5, u.Rest(), nd, NodeCell);
    ok := UnpackSchema(u);
    if !ok { return; }
    assert goal == ReadCells(1, 5, u.Rest(), nd, NodeCell);
    var node; ok, node := u.ReadI64();
    if !ok { return; }
    nd := nd.(node := node);
    assert goal == ReadCells(2, 5, u.Rest(), nd, NodeCell);
    var tag; ok, tag := u.ReadStr();
    if !ok { return; }
    nd := nd.(typeTag := tag);
    assert goal == ReadCells(3, 5, u.Rest(), nd, NodeCell);
    var state; ok, state := UnpackStateRow(u);
    if !ok { return; }
    nd := nd.(state := state);
    assert goal == ReadCells(4, 5, u.Rest(), nd, NodeCell);
    var key; ok, key := UnpackKey(u);
    if !ok { return; }
    nd := nd.(key := key);
  }

  method UnpackNodeRow(u: MsgUnpacker) returns (ok: bool, nd: NodeSnapshot)
    requires u.Valid()
    modifies u
    ensures u.Got(ok, nd, ReadNodeRow(old(u.Rest())))
  {
    hide Count, ReadCells, SkippedMany;
    nd := NO_NODE;
    var n; ok, n := u.ReadCount(0x90, 0xdc);
    if !ok || n < 5 { return false, nd; }
    ok, nd := UnpackNodeCells(u);
    if !ok { return; }
    ok := u.SkipMany(n - 5);
  }

  method UnpackEdgeRow(u: MsgUnpacker) returns (ok: bool, e: EdgeSnapshot)
    requires u.Valid()
    modifies u
    ensures u.Got(ok, e, ReadEdgeRow(old(u.Rest())))
  {
    hide Count, UnpackInt, ReadSchema, SkippedMany;
    e := NO_EDGE;
    var n; ok, n := u.ReadCount(0x90, 0xdc);
    if !ok || n < 3 { return false, e; }
    ghost var goal := ReadCells(0, 3, u.Rest(), e, EdgeCell);
    ok := UnpackSchema(u);
    if !ok { return; }
    assert goal == ReadCells(1, 3, u.Rest(), e, EdgeCell);
    var dependent; ok, dependent := u.ReadI64();
    if !ok { return; }
    e := e.(dependent := dependent);
    assert goal == ReadCells(2, 3, u.Rest(), e, EdgeCell);
    var dependency; ok, dependency := u.ReadI64();
    if !ok { return; }
    e := e.(dependency := dependency);
    assert goal == ReadCells(3, 3, u.Rest(), e, EdgeCell);
    ok := u.SkipMany(n - 3);
  }

  method UnpackNodeRows(u: MsgUnpacker) returns (ok: bool, read: seq<NodeSnapshot>)
    requires u.Valid()
    modifies u
    ensures u.Got(ok, read, ReadNodeRows(old(u.Rest())))
  {
    hide Count, ReadNodeRow;
    read := [];
    var n; ok, n := u.ReadCount(0x90, 0xdc);
    if !ok { return; }
    ghost var goal := Framing.ReadItems(n, u.Rest(), ReadNodeRow, read);
    for i := 0 to n
      invariant ok && u.Valid() && old(u.p) <= u.p && goal == Framing.ReadItems(n - i, u.Rest(), ReadNodeRow, read)
    {
      var x; ok, x := UnpackNodeRow(u);
      if !ok { return; }
      read := read + [x];
    }
  }

  method UnpackEdgeRows(u: MsgUnpacker) returns (ok: bool, read: seq<EdgeSnapshot>)
    requires u.Valid()
    modifies u
    ensures u.Got(ok, read, ReadEdgeRows(old(u.Rest())))
  {
    hide Count, ReadEdgeRow;
    read := [];
    var n; ok, n := u.ReadCount(0x90, 0xdc);
    if !ok { return; }
    ghost var goal := Framing.ReadItems(n, u.Rest(), ReadEdgeRow, read);
    for i := 0 to n
      invariant ok && u.Valid() && old(u.p) <= u.p && goal == Framing.ReadItems(n - i, u.Rest(), ReadEdgeRow, read)
    {
      var x; ok, x := UnpackEdgeRow(u);
      if !ok { return; }
      read := read + [x];
    }
  }

  method UnpackSnapshotCells(u: MsgUnpacker) returns (ok: bool, sn: Snapshot)
    requires u.Valid()
    modifies u
    ensures u.Got(ok, sn, ReadCells(0, 5, old(u.Rest()), NO_SNAPSHOT, SnapshotCell))
  {
    hide UnpackInt, ReadSchema, ReadNodeRows, ReadEdgeRows, ReadInts;
    sn := NO_SNAPSHOT;
    ghost var goal := ReadCells(0, 5, u.Rest(), sn, SnapshotCell);
    ok := UnpackSchema(u);
    if !ok { return; }
    assert goal == ReadCells(1, 5, u.Rest(), sn, SnapshotCell);
    var epoch; ok, epoch := u.ReadI64();
    if !ok { return; }
    sn := sn.(epoch := epoch);
    assert goal == ReadCells(2, 5, u.Rest(), sn, SnapshotCell);
    var nodes; ok, nodes := UnpackNodeRows(u);
    if !ok { return; }
    sn := sn.(nodes := nodes);
    assert goal == ReadCells(3, 5, u.Rest(), sn, SnapshotCell);
    var edges; ok, edges := UnpackEdgeRows(u);
    if !ok { return; }
    sn := sn.(edges := edges);
    assert goal == ReadCells(4, 5, u.Rest(), sn, SnapshotCell);
    var roots; ok, roots := UnpackInts(u);
    if !ok { return; }
    sn := sn.(roots := roots);
  }

  method UnpackSnapshotRow(u: MsgUnpacker) returns (ok: bool, sn: Snapshot)
    requires u.Valid()
    modifies u
    ensures u.Got(ok, sn, ReadSnapshotRow(old(u.Rest())))
  {
    hide Count, ReadCells, SkippedMany;
    sn := NO_SNAPSHOT;
    var n; ok, n := u.ReadCount(0x90, 0xdc);
    if !ok || n < 5 { return false, sn; }
    ok, sn := UnpackSnapshotCells(u);
    if !ok { return; }
    ok := u.SkipMany(n - 5);
  }

  /** The cells of an operation; which they are depends on its kind. */
  method UnpackOpCells(u: MsgUnpacker, kind: int) returns (ok: bool, d: OpDraft)
    requires u.Valid() && 0 <= kind <= 9
    modifies u
    ensures u.Got(ok, d, ReadCells(0, Arity(kind), old(u.Rest()), NO_OP.(kind := kind), OpCell))
  {
    hide UnpackInt, UnpackStr, ReadStateRow, ReadValueRow, ReadKey;
    d := NO_OP.(kind := kind);
    ghost var arity := Arity(kind);
    ghost var goal := ReadCells(0, arity, u.Rest(), d, OpCell);
    var x; ok, x := u.ReadI64();
    if !ok { return; }
    d := if Edges(kind) then d.(dependent := x) else d.(node := x);
    assert goal == ReadCells(1, arity, u.Rest(), d, OpCell);
    if kind == 3 {
      var tag; ok, tag := u.ReadStr();
      if !ok { return; }
      d := d.(typeTag := tag);
      assert goal == ReadCells(2, 4, u.Rest(), d, OpCell);
      var state; ok, state := UnpackStateRow(u);
      if !ok { return; }
      d := d.(state := state);
      assert goal == ReadCells(3, 4, u.Rest(), d, OpCell);
      var key; ok, key := UnpackKey(u); d := d.(key := key);
    } else if Edges(kind) {
      ok, x := u.ReadI64(); d := d.(dependency := x);
    } else if kind == 0 || kind == 1 || kind == 7 {
      var payload; ok, payload := UnpackValueRow(u); d := d.(payload := payload);
    }
  }

  /** The pair around the cells is not passed over to its end. */
  method UnpackOpRow(u: MsgUnpacker) returns (ok: bool, op: DeltaOp)
    requires u.Valid()
    modifies u
    ensures u.Got(ok, op, ReadOpRow(old(u.Rest())))
  {
    hide Count, UnpackInt, ReadCells, SkippedMany, OpOf;
    op := Invalidate(0);
    var n, kind, m, d;
    ok, n := u.ReadCount(0x90, 0xdc);
    if !ok || n < 2 { return false, op; }
    ok, kind := u.ReadI64();
    if !ok || !(0 <= kind <= 9) { return false, op; }
    ok, m := u.ReadCount(0x90, 0xdc);
    if !ok || m < Arity(kind) { return false, op; }
    ok, d := UnpackOpCells(u, kind);
    if !ok { return; }
    ok := u.SkipMany(m - Arity(kind));
    if !ok || OpOf(d).None? { return false, op; }
    op := OpOf(d).val;
  }

  method UnpackOpRows(u: MsgUnpacker) returns (ok: bool, read: seq<DeltaOp>)
    requires u.Valid()
    modifies u
    ensures u.Got(ok, read, ReadOpRows(old(u.Rest())))
  {
    hide Count, ReadOpRow;
    read := [];
    var n; ok, n := u.ReadCount(0x90, 0xdc);
    if !ok { return; }
    ghost var goal := Framing.ReadItems(n, u.Rest(), ReadOpRow, read);
    for i := 0 to n
      invariant ok && u.Valid() && old(u.p) <= u.p && goal == Framing.ReadItems(n - i, u.Rest(), ReadOpRow, read)
    {
      var x; ok, x := UnpackOpRow(u);
      if !ok { return; }
      read := read + [x];
    }
  }

  method UnpackDeltaCells(u: MsgUnpacker) returns (ok: bool, d: Delta)
    requires u.Valid()
    modifies u
    ensures u.Got(ok, d, ReadCells(0, 4, old(u.Rest()), NO_DELTA, DeltaCell))
  {
    hide UnpackInt, ReadSchema, ReadOpRows;
    d := NO_DELTA;
    ghost var goal := ReadCells(0, 4, u.Rest(), d, DeltaCell);
    ok := UnpackSchema(u);
    if !ok { return; }
    assert goal == ReadCells(1, 4, u.Rest(), d, DeltaCell);
    var base; ok, base := u.ReadI64();
    if !ok { return; }
    d := d.(baseEpoch := base);
    assert goal == ReadCells(2, 4, u.Rest(), d, DeltaCell);
    var epoch; ok, epoch := u.ReadI64();
    if !ok { return; }
    d := d.(epoch := epoch);
    assert goal == ReadCells(3, 4, u.Rest(), d, DeltaCell);
    var ops; ok, ops := UnpackOpRows(u);
    if !ok { return; }
    d := d.(ops := ops);
  }

  method UnpackDeltaRow(u: MsgUnpacker) returns (ok: bool, d: Delta)
    requires u.Valid()
    modifies u
    ensures u.Got(ok, d, ReadDeltaRow(old(u.Rest())))
  {
    hide Count, ReadCells, SkippedMany;
    d := NO_DELTA;
    var n; ok, n := u.ReadCount(0x90, 0xdc);
    if !ok || n < 4 { return false, d; }
    ok, d := UnpackDeltaCells(u);
    if !ok { return; }
    ok := u.SkipMany(n - 4);
  }

  method UnpackEntryRow(u: MsgUnpacker) returns (ok: bool, e: FrontierEntry)
    requires u.Valid()
    modifies u
    ensures u.Got(ok, e, ReadEntryRow(old(u.Rest())))
  {
    hide Count, UnpackInt, ReadSchema, SkippedMany, ReadStampRow;
    e := NO_ENTRY;
    var n; ok, n := u.ReadCount(0x90, 0xdc);
    if !ok || n < 3 { return false, e; }
    ghost var goal := ReadCells(0, 3, u.Rest(), e, EntryCell);
    ok := UnpackSchema(u);
    if !ok { return; }
    assert goal == ReadCells(1, 3, u.Rest(), e, EntryCell);
    var peer; ok, peer := u.ReadI64();
    if !ok { return; }
    e := e.(peer := peer);
    assert goal == ReadCells(2, 3, u.Rest(), e, EntryCell);
    var stamp; ok, stamp := UnpackStampRow(u);
    if !ok { return; }
    e := e.(stamp := stamp);
    assert goal == ReadCells(3, 3, u.Rest(), e, EntryCell);
    ok := u.SkipMany(n - 3);
  }

  method UnpackCrdtOpCells(u: MsgUnpacker) returns (ok: bool, o: CrdtOp)
    requires u.Valid()
    modifies u
    ensures u.Got(ok, o, ReadCells(0, 5, old(u.Rest()), NO_CRDT_OP, CrdtOpCell))
  {
    hide UnpackInt, ReadSchema, ReadKey, ReadStampRow, ReadValueRow;
    o := NO_CRDT_OP;
    ghost var goal := ReadCells(0, 5, u.Rest(), o, CrdtOpCell);
    ok := UnpackSchema(u);
    if !ok { return; }
    assert goal == ReadCells(1, 5, u.Rest(), o, CrdtOpCell);
    var node; ok, node := u.ReadI64();
    if !ok { return; }
    o := o.(node := node);
    assert goal == ReadCells(2, 5, u.Rest(), o, CrdtOpCell);
    var key; ok, key := UnpackKey(u);
    if !ok { return; }
    o := o.(key := key);
    assert goal == ReadCells(3, 5, u.Rest(), o, CrdtOpCell);
    var stamp; ok, stamp := UnpackStampRow(u);
    if !ok { return; }
    o := o.(stamp := stamp);
    assert goal == ReadCells(4, 5, u.Rest(), o, CrdtOpCell);
    var state; ok, state := UnpackValueRow(u);
    if !ok { return; }
    o := o.(state := state);
  }

  method UnpackCrdtOpRow(u: MsgUnpacker) returns (ok: bool, o: CrdtOp)
    requires u.Valid()
    modifies u
    ensures u.Got(ok, o, ReadCrdtOpRow(old(u.Rest())))
  {
    hide Count, ReadCells, SkippedMany;
    o := NO_CRDT_OP;
    var n; ok, n := u.ReadCount(0x90, 0xdc);
    if !ok || n < 5 { return false, o; }
    ok, o := UnpackCrdtOpCells(u);
    if !ok { return; }
    ok := u.SkipMany(n - 5);
  }

  method UnpackEntryRows(u: MsgUnpacker) returns (ok: bool, read: seq<FrontierEntry>)
    requires u.Valid()
    modifies u
    ensures u.Got(ok, read, ReadEntryRows(old(u.Rest())))
  {
    hide Count, ReadEntryRow;
    read := [];
    var n; ok, n := u.ReadCount(0x90, 0xdc);
    if !ok { return; }
    ghost var goal := Framing.ReadItems(n, u.Rest(), ReadEntryRow, read);
    for i := 0 to n
      invariant ok && u.Valid() && old(u.p) <= u.p && goal == Framing.ReadItems(n - i, u.Rest(), ReadEntryRow, read)
    {
      var x; ok, x := UnpackEntryRow(u);
      if !ok { return; }
      read := read + [x];
    }
  }

  method UnpackCrdtOpRows(u: MsgUnpacker) returns (ok: bool, read: seq<CrdtOp>)
    requires u.Valid()
    modifies u
    ensures u.Got(ok, read, ReadCrdtOpRows(old(u.Rest())))
  {
    hide Count, ReadCrdtOpRow;
    read := [];
    var n; ok, n := u.ReadCount(0x90, 0xdc);
    if !ok { return; }
    ghost var goal := Framing.ReadItems(n, u.Rest(), ReadCrdtOpRow, read);
    for i := 0 to n
      invariant ok && u.Valid() && old(u.p) <= u.p && goal == Framing.ReadItems(n - i, u.Rest(), ReadCrdtOpRow, read)
    {
      var x; ok, x := UnpackCrdtOpRow(u);
      if !ok { return; }
      read := read + [x];
    }
  }

  method UnpackSyncRow(u: MsgUnpacker) returns (ok: bool, c: CrdtSync)
    requires u.Valid()
    modifies u
    ensures u.Got(ok, c, ReadSyncRow(old(u.Rest())))
  {
    hide Count, UnpackInt, ReadSchema, SkippedMany, ReadEntryRows, ReadCrdtOpRows;
    c := NO_SYNC;
    var n; ok, n := u.ReadCount(0x90, 0xdc);
    if !ok || n < 3 { return false, c; }
    ghost var goal := ReadCells(0, 3, u.Rest(), c, SyncCell);
    ok := UnpackSchema(u);
    if !ok { return; }
    assert goal == ReadCells(1, 3, u.Rest(), c, SyncCell);
    var entries; ok, entries := UnpackEntryRows(u);
    if !ok { return; }
    c := c.(frontier := entries);
    assert goal == ReadCells(2, 3, u.Rest(), c, SyncCell);
    var ops; ok, ops := UnpackCrdtOpRows(u);
    if !ok { return; }
    c := c.(ops := ops);
    assert goal == ReadCells(3, 3, u.Rest(), c, SyncCell);
    ok := u.SkipMany(n - 3);
  }

  method UnpackEpochRow(u: MsgUnpacker) returns (ok: bool, epoch: int)
    requires u.Valid()
    modifies u
    ensures u.Got(ok, epoch, ReadEpochRow(old(u.Rest())))
  {
    hide Count, UnpackInt, ReadSchema, SkippedMany;
    epoch := 0;
    var n; ok, n := u.ReadCount(0x90, 0xdc);
    if !ok || n < 2 { return false, epoch; }
    ghost var goal := ReadCells(0, 2, u.Rest(), epoch, EpochCell);
    ok := UnpackSchema(u);
    if !ok { return; }
    assert goal == ReadCells(1, 2, u.Rest(), epoch, EpochCell);
    var x; ok, x := u.ReadI64();
    if !ok { return; }
    epoch := x;
    assert goal == ReadCells(2, 2, u.Rest(), epoch, EpochCell);
    ok := u.SkipMany(n - 2);
  }

  method UnpackContentRow(u: MsgUnpacker, kind: int) returns (ok: bool, m: IpcMessage)
    requires u.Valid()
    modifies u
    ensures u.Got(ok, m, ReadContentRow(kind, old(u.Rest())))
  {
    hide ReadSnapshotRow, ReadDeltaRow, ReadSyncRow, ReadEpochRow;
    ok, m := false, OutboxAck(0);
    if kind == 0 {
      var x; ok, x := UnpackSnapshotRow(u); m := SnapshotMsg(x);
    } else if kind == 1 {
      var x; ok, x := UnpackDeltaRow(u); m := DeltaMsg(x);
    } else if kind == 2 {
      var x; ok, x := UnpackSyncRow(u); m := CrdtSyncMsg(x);
    } else if kind == 3 {
      var x; ok, x := UnpackEpochRow(u); m := ResyncRequest(x);
    } else if kind == 4 {
      var x; ok, x := UnpackEpochRow(u); m := OutboxAck(x);
    }
  }

  method UnpackMessageCells(u: MsgUnpacker) returns (ok: bool, m: IpcMessage)
    requires u.Valid()
    modifies u
    ensures u.Got(ok, Whole(m), ReadCells(0, 3, old(u.Rest()), Typed(-1), MessageCell))
  {
    hide UnpackInt, ReadSchema, ReadContentRow;
    m := OutboxAck(0);
    ghost var goal := ReadCells(0, 3, u.Rest(), Typed(-1), MessageCell);
    ok := UnpackSchema(u);
    if !ok { return; }
    assert goal == ReadCells(1, 3, u.Rest(), Typed(-1), MessageCell);
    var kind; ok, kind := u.ReadI64();
    if !ok { return; }
    assert goal == ReadCells(2, 3, u.Rest(), Typed(kind), MessageCell);
    ok, m := UnpackContentRow(u, kind);
  }

  method UnpackMessageRow(u: MsgUnpacker) returns (ok: bool, m: IpcMessage)
    requires u.Valid()
    modifies u
    ensures u.Got(ok, m, ReadMessageRow(old(u.Rest())))
  {
    hide Count, ReadCells, SkippedMany;
    m := OutboxAck(0);
    var n; ok, n := u.ReadCount(0x90, 0xdc);
    if !ok || n < 3 { return false, m; }
    ok, m := UnpackMessageCells(u);
    if !ok { return; }
    ok := u.SkipMany(n - 3);
  }

  /** The first byte picks the form. */
  method Decode(s: Text) returns (r: Option<IpcMessage>)
    ensures r == PrivateCodec.Decode(s)
  {
    hide ReadMessage, ReadMessageRow;
    var u := new MsgUnpacker(s);
    assert u.Rest() == s;
    if u.Eof() { return None; }
    var ok, m;
    if KindOf(s[0]) == KArray { ok, m := UnpackMessageRow(u); } else { ok, m := UnpackMessage(u); }
    r := if ok then Some(m) else None;
  }
}
