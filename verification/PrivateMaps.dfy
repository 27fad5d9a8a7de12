/** The private framing's keyed form: every record is a map with short keys, and a reader that meets
    a key it does not know passes over its value. */
module PrivateMaps {
  import opened Options
  import opened Bytes
  import opened Json
  import opened MsgPack
  import opened Ipc
  import opened Framing

  /** A 64-bit integer stored in a 32-bit one. */
  function Narrowed(i: int): (r: int)
    ensures -0x8000_0000 <= r < 0x8000_0000 && (r - i) % 0x1_0000_0000 == 0
    ensures -0x8000_0000 <= i < 0x8000_0000 ==> r == i
  {
    (i + 0x8000_0000) % 0x1_0000_0000 - 0x8000_0000
  }

  // ── Leaves ──

  function KeyWire(key: Option<Text>): Wire {
    if key.Some? then Name(key.val) else Nil
  }

  /** Nil is no key; a path that is not a key is refused. */
  function ReadKey(s: Text): Parse<Option<Text>> {
    if s == [] then Fail
    else if KindOf(s[0]) == KNil then Done(None, s[1..])
    else
      var path := UnpackStr(s);
      if path.Fail? || !NodeKeyOk(path.value) then Fail else Done(Some(path.value), path.rest)
  }

  lemma KeyReads(key: Option<Text>)
    requires KeyOk(key)
    ensures Reads(ReadKey, KeyWire(key), key)
  {
    hide UnpackStr, PackedStr, NodeKeyOk;
    forall x, rest: Text | Wider(KeyWire(key), x) && Fit(x) ensures ReadKey(Laid(x) + rest) == Done(key, rest) {
      if key.Some? { StrBack(key.val, rest); } else { assert ([0xc0] + rest)[1..] == rest; }
    }
  }

  function ReadBackend(s: Text): Parse<Backend> {
    Finish(UnpackStr(s), BackendNamed)
  }

  lemma BackendReads(b: Backend)
    ensures Reads(ReadBackend, Name(BackendName(b)), b)
  {
    hide UnpackStr, Reads, BackendNamed, BackendName;
    NameReads(BackendName(b));
    BackendBack(b);
    FinishReads(ReadBackend, UnpackStr, BackendNamed, Name(BackendName(b)), BackendName(b), b);
  }

  // ── Blob references and stamps ──

  const NO_BLOB := BlobRef(0, 0, 0, 0, 0, Shm)
  const BLOB_KEYS := {Ascii("offset"), Ascii("len"), Ascii("generation"), Ascii("epoch"), Ascii("checksum"),
      Ascii("backend")}

  function BlobMap(r: BlobRef): Wire {
    Map(BLOB_KEYS, [
      Pair(Ascii("offset"), Num(r.offset)), Pair(Ascii("len"), Num(r.len)),
          Pair(Ascii("generation"), Num(r.generation)),
      Pair(Ascii("epoch"), Num(r.epoch)), Pair(Ascii("checksum"), Num(r.checksum)),
      Pair(Ascii("backend"), Name(BackendName(r.backend)))])
  }

  function BlobField(k: Text, r: BlobRef, s: Text): Option<Parse<BlobRef>> {
    if k == Ascii("offset") then Some(Put(UnpackInt(s), i => r.(offset := i)))
    else if k == Ascii("len") then Some(Put(UnpackInt(s), i => r.(len := i)))
    else if k == Ascii("generation") then Some(Put(UnpackInt(s), i => r.(generation := i)))
    else if k == Ascii("epoch") then Some(Put(UnpackInt(s), i => r.(epoch := i)))
    else if k == Ascii("checksum") then Some(Put(UnpackInt(s), i => r.(checksum := i)))
    else if k == Ascii("backend") then Some(Put(ReadBackend(s), b => r.(backend := b)))
    else None
  }

  function ReadBlob(s: Text): Parse<BlobRef> {
    ReadMap(s, NO_BLOB, BlobField)
  }

  lemma BlobReads(r: BlobRef)
    ensures Reads(ReadBlob, BlobMap(r), r)
  {
    hide Ascii, UnpackInt, ReadBackend, ReadMap, BackendName, Takes, Reads;
    var ps := BlobMap(r).pairs;
    var r1 := NO_BLOB.(offset := r.offset);
    var r2 := r1.(len := r.len);
    var r3 := r2.(generation := r.generation);
    var r4 := r3.(epoch := r.epoch);
    var r5 := r4.(checksum := r.checksum);
    var sts := [NO_BLOB, r1, r2, r3, r4, r5, r];
    NumReads(r.offset); FieldTakes(BlobField, UnpackInt, (i: int) => NO_BLOB.(offset := i), NO_BLOB, ps[0], r.offset);
    NumReads(r.len); FieldTakes(BlobField, UnpackInt, (i: int) => r1.(len := i), r1, ps[1], r.len);
    NumReads(r.generation); FieldTakes(BlobField, UnpackInt, (i: int) => r2.(generation := i), r2, ps[2], r.generation);
    NumReads(r.epoch); FieldTakes(BlobField, UnpackInt, (i: int) => r3.(epoch := i), r3, ps[3], r.epoch);
    NumReads(r.checksum); FieldTakes(BlobField, UnpackInt, (i: int) => r4.(checksum := i), r4, ps[4], r.checksum);
    BackendReads(r.backend);
        FieldTakes(BlobField, ReadBackend, (b: Backend) => r5.(backend := b), r5, ps[5], r.backend);
    assert forall i :: 0 <= i < |ps| ==> Takes(BlobField, sts[i], ps[i], sts[i + 1]);
    MapReads(ReadBlob, BLOB_KEYS, BlobField, ps, sts);
  }

  const NO_STAMP := WireStamp(0, 0, 0)
  const STAMP_KEYS := {Ascii("wall_time"), Ascii("logical"), Ascii("peer")}

  function StampMap(t: WireStamp): Wire {
    Map(STAMP_KEYS, [
      Pair(Ascii("wall_time"), Num(t.wallTime)), Pair(Ascii("logical"), Num(t.logical)),
          Pair(Ascii("peer"), Num(t.peer))])
  }

  function StampField(k: Text, t: WireStamp, s: Text): Option<Parse<WireStamp>> {
    if k == Ascii("wall_time") then Some(Put(UnpackInt(s), i => t.(wallTime := i)))
    else if k == Ascii("logical") then Some(Put(UnpackInt(s), i => t.(logical := i)))
    else if k == Ascii("peer") then Some(Put(UnpackInt(s), i => t.(peer := i)))
    else None
  }

  function ReadStamp(s: Text): Parse<WireStamp> {
    ReadMap(s, NO_STAMP, StampField)
  }

  lemma StampReads(t: WireStamp)
    ensures Reads(ReadStamp, StampMap(t), t)
  {
    hide Ascii, UnpackInt, ReadMap, Takes, Reads;
    var ps := StampMap(t).pairs;
    var t1 := NO_STAMP.(wallTime := t.wallTime);
    var t2 := t1.(logical := t.logical);
    NumReads(t.wallTime);
        FieldTakes(StampField, UnpackInt, (i: int) => NO_STAMP.(wallTime := i), NO_STAMP, ps[0], t.wallTime);
    NumReads(t.logical); FieldTakes(StampField, UnpackInt, (i: int) => t1.(logical := i), t1, ps[1], t.logical);
    NumReads(t.peer); FieldTakes(StampField, UnpackInt, (i: int) => t2.(peer := i), t2, ps[2], t.peer);
    MapReads(ReadStamp, STAMP_KEYS, StampField, ps, [NO_STAMP, t1, t2, t]);
  }

  // ── States and values ──

  /** What has been met so far of a map that holds a variant. */
  datatype BodyDraft = BodyDraft(kind: int, bytes: Text, blob: BlobRef)

  const NO_BODY := BodyDraft(-1, [], NO_BLOB)
  const BODY_KEYS := {Ascii("kind"), Ascii("bytes"), Ascii("blob")}

  /** The kind is narrowed to 32 bits before it is looked at. */
  function BodyField(k: Text, d: BodyDraft, s: Text): Option<Parse<BodyDraft>> {
    if k == Ascii("kind") then Some(Put(UnpackInt(s), i => d.(kind := Narrowed(i))))
    else if k == Ascii("bytes") then Some(Put(UnpackBin(s), b => d.(bytes := b)))
    else if k == Ascii("blob") then Some(Put(ReadBlob(s), r => d.(blob := r)))
    else None
  }

  function ReadBody(s: Text): Parse<BodyDraft> {
    ReadMap(s, NO_BODY, BodyField)
  }

  function StateOf(d: BodyDraft): Option<NodeState> {
    if d.kind == 0 then Some(Payload(d.bytes))
    else if d.kind == 1 then Some(SharedBlob(d.blob))
    else if d.kind == 2 then Some(Opaque)
    else None
  }

  function ValueOf(d: BodyDraft): Option<IpcValue> {
    if d.kind == 0 then Some(InlineValue(d.bytes))
    else if d.kind == 1 then Some(BlobValue(d.blob))
    else None
  }

  function ReadState(s: Text): Parse<NodeState> {
    Finish(ReadBody(s), StateOf)
  }

  function ReadValue(s: Text): Parse<IpcValue> {
    Finish(ReadBody(s), ValueOf)
  }

  function BytesMap(b: Text): Wire {
    Map(BODY_KEYS, [Pair(Ascii("kind"), Num(0)), Pair(Ascii("bytes"), Bin(b))])
  }

  function SharedMap(r: BlobRef): Wire {
    Map(BODY_KEYS, [Pair(Ascii("kind"), Num(1)), Pair(Ascii("blob"), BlobMap(r))])
  }

  function StateMap(st: NodeState): Wire {
    match st
    case Payload(b) => BytesMap(b)
    case SharedBlob(r) => SharedMap(r)
    case Opaque => Map(BODY_KEYS, [Pair(Ascii("kind"), Num(2))])
  }

  function ValueMap(v: IpcValue): Wire {
    match v
    case InlineValue(b) => BytesMap(b)
    case BlobValue(r) => SharedMap(r)
  }

  lemma BodyKnows()
    ensures KnowsOnly(BodyField, BODY_KEYS) && Ascii("kind") != Ascii("blob")
  {
    hide Ascii;
    NamesDiffer("kind", "blob", 0);
  }

  lemma KindTakes(i: int)
    ensures Takes(BodyField, NO_BODY, Pair(Ascii("kind"), Num(i)), NO_BODY.(kind := Narrowed(i)))
  {
    hide Ascii, UnpackInt, Takes, Reads, Narrowed;
    NumReads(i);
    FieldTakes(BodyField, UnpackInt, (k: int) => NO_BODY.(kind := Narrowed(k)), NO_BODY, Pair(Ascii("kind"), Num(i)),
        i);
  }

  lemma BytesMapReads(b: Text)
    ensures Reads(ReadBody, BytesMap(b), BodyDraft(0, b, NO_BLOB))
  {
    hide Ascii, UnpackBin, ReadMap, Takes, Reads;
    var ps, d := BytesMap(b).pairs, NO_BODY.(kind := 0);
    BodyKnows();
    KindTakes(0);
    BinReads(b); FieldTakes(BodyField, UnpackBin, (t: Text) => d.(bytes := t), d, ps[1], b);
    MapReads(ReadBody, BODY_KEYS, BodyField, ps, [NO_BODY, d, d.(bytes := b)]);
  }

  lemma SharedMapReads(r: BlobRef)
    ensures Reads(ReadBody, SharedMap(r), BodyDraft(1, [], r))
  {
    hide Ascii, ReadBlob, ReadMap, Takes, Reads, BlobMap;
    var ps, d := SharedMap(r).pairs, NO_BODY.(kind := 1);
    BodyKnows();
    KindTakes(1);
    BlobReads(r); FieldTakes(BodyField, ReadBlob, (t: BlobRef) => d.(blob := t), d, ps[1], r);
    MapReads(ReadBody, BODY_KEYS, BodyField, ps, [NO_BODY, d, d.(blob := r)]);
  }

  lemma KindOnlyReads(i: int)
    ensures Reads(ReadBody, Map(BODY_KEYS, [Pair(Ascii("kind"), Num(i))]), NO_BODY.(kind := Narrowed(i)))
  {
    hide Ascii, ReadMap, Takes, Reads, Narrowed;
    var ps := [Pair(Ascii("kind"), Num(i))];
    BodyKnows();
    KindTakes(i);
    MapReads(ReadBody, BODY_KEYS, BodyField, ps, [NO_BODY, NO_BODY.(kind := Narrowed(i))]);
  }

  lemma StateReads(st: NodeState)
    ensures Reads(ReadState, StateMap(st), st)
  {
    hide Ascii, ReadBody, Reads, BytesMap, SharedMap;
    match st
    case Payload(b) => BytesMapReads(b);
        FinishReads(ReadState, ReadBody, StateOf, StateMap(st), BodyDraft(0, b, NO_BLOB), st);
    case SharedBlob(r) => SharedMapReads(r);
        FinishReads(ReadState, ReadBody, StateOf, StateMap(st), BodyDraft(1, [], r), st);
    case Opaque => KindOnlyReads(2); FinishReads(ReadState, ReadBody, StateOf, StateMap(st), NO_BODY.(kind := 2), st);
  }

  lemma ValueReads(v: IpcValue)
    ensures Reads(ReadValue, ValueMap(v), v)
  {
    hide Ascii, ReadBody, Reads, BytesMap, SharedMap;
    match v
    case InlineValue(b) => BytesMapReads(b);
        FinishReads(ReadValue, ReadBody, ValueOf, ValueMap(v), BodyDraft(0, b, NO_BLOB), v);
    case BlobValue(r) => SharedMapReads(r);
        FinishReads(ReadValue, ReadBody, ValueOf, ValueMap(v), BodyDraft(1, [], r), v);
  }

  /** A state map that carries a kind and nothing else is refused if and only if the kind, taken modulo
      2^32, is none of the three: a kind far out of range may pass for one of them. */
  lemma KindRefused(i: int, rest: Text)
    requires Fits(i)
    ensures var w := Map(BODY_KEYS, [Pair(Ascii("kind"), Num(i))]);
            Fit(w) && (ReadState(Laid(w) + rest).Fail? <==> i % 0x1_0000_0000 !in {0, 1, 2})
  {
    hide Ascii, ReadBody, Laid;
    var w := Map(BODY_KEYS, [Pair(Ascii("kind"), Num(i))]);
    assert Wider(w, w) by { WiderRefl(w); }
    assert Fit(w);
    KindOnlyReads(i);
    ReadOne(ReadBody, w, NO_BODY.(kind := Narrowed(i)), w, rest);
  }

  // ── Snapshots ──

  const NO_NODE := NodeSnapshot(0, [], Payload([]), None)
  const NODE_KEYS := {Ascii("node"), Ascii("type_tag"), Ascii("state"), Ascii("key")}

  function NodeMap(n: NodeSnapshot): Wire {
    Map(NODE_KEYS, [
      Pair(Ascii("node"), Num(n.node)), Pair(Ascii("type_tag"), Name(n.typeTag)),
      Pair(Ascii("state"), StateMap(n.state)), Pair(Ascii("key"), KeyWire(n.key))])
  }

  function NodeField(k: Text, n: NodeSnapshot, s: Text): Option<Parse<NodeSnapshot>> {
    if k == Ascii("node") then Some(Put(UnpackInt(s), i => n.(node := i)))
    else if k == Ascii("type_tag") then Some(Put(UnpackStr(s), t => n.(typeTag := t)))
    else if k == Ascii("state") then Some(Put(ReadState(s), st => n.(state := st)))
    else if k == Ascii("key") then Some(Put(ReadKey(s), key => n.(key := key)))
    else None
  }

  function ReadNode(s: Text): Parse<NodeSnapshot> {
    ReadMap(s, NO_NODE, NodeField)
  }

  lemma NodeReads(n: NodeSnapshot)
    requires KeyOk(n.key)
    ensures Reads(ReadNode, NodeMap(n), n)
  {
    hide Ascii, UnpackInt, UnpackStr, ReadState, ReadKey, ReadMap, Takes, Reads, KeyOk, StateMap, KeyWire;
    var ps := NodeMap(n).pairs;
    var n1 := NO_NODE.(node := n.node);
    var n2 := n1.(typeTag := n.typeTag);
    var n3 := n2.(state := n.state);
    NumReads(n.node); FieldTakes(NodeField, UnpackInt, (i: int) => NO_NODE.(node := i), NO_NODE, ps[0], n.node);
    NameReads(n.typeTag); FieldTakes(NodeField, UnpackStr, (t: Text) => n1.(typeTag := t), n1, ps[1], n.typeTag);
    StateReads(n.state); FieldTakes(NodeField, ReadState, (st: NodeState) => n2.(state := st), n2, ps[2], n.state);
    KeyReads(n.key); FieldTakes(NodeField, ReadKey, (key: Option<Text>) => n3.(key := key), n3, ps[3], n.key);
    MapReads(ReadNode, NODE_KEYS, NodeField, ps, [NO_NODE, n1, n2, n3, n]);
  }

  const NO_EDGE := EdgeSnapshot(0, 0)
  const EDGE_KEYS := {Ascii("dependent"), Ascii("dependency")}

  function EdgeMap(e: EdgeSnapshot): Wire {
    Map(EDGE_KEYS, [Pair(Ascii("dependent"), Num(e.dependent)), Pair(Ascii("dependency"), Num(e.dependency))])
  }

  function EdgeField(k: Text, e: EdgeSnapshot, s: Text): Option<Parse<EdgeSnapshot>> {
    if k == Ascii("dependent") then Some(Put(UnpackInt(s), i => e.(dependent := i)))
    else if k == Ascii("dependency") then Some(Put(UnpackInt(s), i => e.(dependency := i)))
    else None
  }

  function ReadEdge(s: Text): Parse<EdgeSnapshot> {
    ReadMap(s, NO_EDGE, EdgeField)
  }

  lemma EdgeReads(e: EdgeSnapshot)
    ensures Reads(ReadEdge, EdgeMap(e), e)
  {
    hide Ascii, UnpackInt, ReadMap, Takes, Reads;
    var ps, e1 := EdgeMap(e).pairs, NO_EDGE.(dependent := e.dependent);
    NumReads(e.dependent);
        FieldTakes(EdgeField, UnpackInt, (i: int) => NO_EDGE.(dependent := i), NO_EDGE, ps[0], e.dependent);
    NumReads(e.dependency); FieldTakes(EdgeField, UnpackInt, (i: int) => e1.(dependency := i), e1, ps[1], e.dependency);
    MapReads(ReadEdge, EDGE_KEYS, EdgeField, ps, [NO_EDGE, e1, e]);
  }

  /** Each element through `enc`. */
  function Each<T>(vs: seq<T>, enc: T -> Wire): (ws: seq<Wire>)
    ensures |ws| == |vs| && forall i :: 0 <= i < |vs| ==> ws[i] == enc(vs[i])
  {
    seq(|vs|, i requires 0 <= i < |vs| => enc(vs[i]))
  }

  function ReadNodes(s: Text): Parse<seq<NodeSnapshot>> { ReadList(s, ReadNode) }

  function ReadEdges(s: Text): Parse<seq<EdgeSnapshot>> { ReadList(s, ReadEdge) }

  function ReadInts(s: Text): Parse<seq<int>> { ReadList(s, UnpackInt) }

  function IntWire(i: int): Wire { Num(i) }

  const NO_SNAPSHOT := Snapshot(0, [], [], [])
  const SNAPSHOT_KEYS := {Ascii("epoch"), Ascii("nodes"), Ascii("edges"), Ascii("roots")}

  function SnapshotMap(sn: Snapshot): Wire {
    Map(SNAPSHOT_KEYS, [
      Pair(Ascii("epoch"), Num(sn.epoch)), Pair(Ascii("nodes"), List(Each(sn.nodes, NodeMap))),
      Pair(Ascii("edges"), List(Each(sn.edges, EdgeMap))), Pair(Ascii("roots"), List(Each(sn.roots, IntWire)))])
  }

  /** A list met twice is appended to. */
  function SnapshotField(k: Text, sn: Snapshot, s: Text): Option<Parse<Snapshot>> {
    if k == Ascii("epoch") then Some(Put(UnpackInt(s), i => sn.(epoch := i)))
    else if k == Ascii("nodes") then Some(Put(ReadNodes(s), ns => sn.(nodes := sn.nodes + ns)))
    else if k == Ascii("edges") then Some(Put(ReadEdges(s), es => sn.(edges := sn.edges + es)))
    else if k == Ascii("roots") then Some(Put(ReadInts(s), rs => sn.(roots := sn.roots + rs)))
    else None
  }

  function ReadSnapshot(s: Text): Parse<Snapshot> {
    ReadMap(s, NO_SNAPSHOT, SnapshotField)
  }

  lemma NodesRead(ns: seq<NodeSnapshot>)
    requires forall i :: 0 <= i < |ns| ==> KeyOk(ns[i].key)
    ensures Reads(ReadNodes, List(Each(ns, NodeMap)), ns)
  {
    hide Reads, ReadList, KeyOk, NodeMap, ReadNode;
    forall i | 0 <= i < |ns| ensures Reads(ReadNode, Each(ns, NodeMap)[i], ns[i]) { NodeReads(ns[i]); }
    ListReads(ReadNodes, ReadNode, Each(ns, NodeMap), ns);
  }

  lemma EdgesRead(es: seq<EdgeSnapshot>)
    ensures Reads(ReadEdges, List(Each(es, EdgeMap)), es)
  {
    hide Reads, ReadList, EdgeMap, ReadEdge;
    forall i | 0 <= i < |es| ensures Reads(ReadEdge, Each(es, EdgeMap)[i], es[i]) { EdgeReads(es[i]); }
    ListReads(ReadEdges, ReadEdge, Each(es, EdgeMap), es);
  }

  lemma IntsRead(ns: seq<int>)
    ensures Reads(ReadInts, List(Each(ns, IntWire)), ns)
  {
    hide Reads, ReadList, UnpackInt;
    forall i | 0 <= i < |ns| ensures Reads(UnpackInt, Each(ns, IntWire)[i], ns[i]) { NumReads(ns[i]); }
    ListReads(ReadInts, UnpackInt, Each(ns, IntWire), ns);
  }

  lemma SnapshotKnows()
    ensures KnowsOnly(SnapshotField, SNAPSHOT_KEYS)
    ensures Ascii("epoch") != Ascii("nodes") && Ascii("epoch") != Ascii("edges") && Ascii("epoch") != Ascii("roots")
    ensures Ascii("nodes") != Ascii("edges") && Ascii("nodes") != Ascii("roots") && Ascii("edges") != Ascii("roots")
  {
    hide Ascii;
    NamesDiffer("epoch", "nodes", 0);
    NamesDiffer("epoch", "edges", 1);
    NamesDiffer("epoch", "roots", 0);
    NamesDiffer("nodes", "edges", 0);
    NamesDiffer("nodes", "roots", 0);
    NamesDiffer("edges", "roots", 0);
  }

  lemma SnapshotReads(sn: Snapshot)
    requires SnapshotFits(sn)
    ensures Reads(ReadSnapshot, SnapshotMap(sn), sn)
  {
    hide Ascii, UnpackInt, ReadNodes, ReadEdges, ReadInts, ReadMap, Takes, Reads, KeyOk, Each, KnowsOnly;
    var ps := SnapshotMap(sn).pairs;
    var s1 := NO_SNAPSHOT.(epoch := sn.epoch);
    var s2 := s1.(nodes := s1.nodes + sn.nodes);
    var s3 := s2.(edges := s2.edges + sn.edges);
    SnapshotKnows();
    NumReads(sn.epoch); FieldTakes(SnapshotField, UnpackInt, (i: int) => NO_SNAPSHOT.(epoch := i), NO_SNAPSHOT,
        ps[0], sn.epoch);
    NodesRead(sn.nodes);
    FieldTakes(SnapshotField, ReadNodes, (ns: seq<NodeSnapshot>) => s1.(nodes := s1.nodes + ns), s1, ps[1], sn.nodes);
    EdgesRead(sn.edges);
    FieldTakes(SnapshotField, ReadEdges, (es: seq<EdgeSnapshot>) => s2.(edges := s2.edges + es), s2, ps[2], sn.edges);
    IntsRead(sn.roots);
    FieldTakes(SnapshotField, ReadInts, (rs: seq<int>) => s3.(roots := s3.roots + rs), s3, ps[3], sn.roots);
    assert s3.(roots := s3.roots + sn.roots) == sn;
    MapReads(ReadSnapshot, SNAPSHOT_KEYS, SnapshotField, ps, [NO_SNAPSHOT, s1, s2, s3, sn]);
  }

  // ── Deltas ──

  /** What has been met so far of an operation's map. */
  datatype OpDraft = OpDraft(
    kind: int, node: int, dependent: int, dependency: int,
    typeTag: Text, state: NodeState, key: Option<Text>, payload: IpcValue)

  const NO_OP := OpDraft(-1, 0, 0, 0, [], Opaque, None, InlineValue([]))
  const OP_KEYS := {
    Ascii("op"), Ascii("node"), Ascii("dependent"), Ascii("dependency"),
    Ascii("type_tag"), Ascii("state"), Ascii("key"), Ascii("payload")}

  function OpField(k: Text, d: OpDraft, s: Text): Option<Parse<OpDraft>> {
    if k == Ascii("op") then Some(Put(UnpackInt(s), i => d.(kind := Narrowed(i))))
    else if k == Ascii("node") then Some(Put(UnpackInt(s), i => d.(node := i)))
    else if k == Ascii("dependent") then Some(Put(UnpackInt(s), i => d.(dependent := i)))
    else if k == Ascii("dependency") then Some(Put(UnpackInt(s), i => d.(dependency := i)))
    else if k == Ascii("type_tag") then Some(Put(UnpackStr(s), t => d.(typeTag := t)))
    else if k == Ascii("state") then Some(Put(ReadState(s), st => d.(state := st)))
    else if k == Ascii("key") then Some(Put(ReadKey(s), key => d.(key := key)))
    else if k == Ascii("payload") then Some(Put(ReadValue(s), v => d.(payload := v)))
    else None
  }

  function OpOf(d: OpDraft): Option<DeltaOp> {
    match d.kind
    case 0 => Some(CellSet(d.node, d.payload))
    case 1 => Some(SlotValue(d.node, d.payload))
    case 2 => Some(Invalidate(d.node))
    case 3 => Some(NodeAdd(d.node, d.typeTag, d.state, d.key))
    case 4 => Some(NodeRemove(d.node))
    case 5 => Some(EdgeAdd(d.dependent, d.dependency))
    case 6 => Some(EdgeRemove(d.dependent, d.dependency))
    case 7 => Some(QueuePush(d.node, d.payload))
    case 8 => Some(QueuePop(d.node))
    case 9 => Some(QueueClose(d.node))
    case _ => None
  }

  function ReadOpDraft(s: Text): Parse<OpDraft> {
    ReadMap(s, NO_OP, OpField)
  }

  function ReadOp(s: Text): Parse<DeltaOp> {
    Finish(ReadOpDraft(s), OpOf)
  }

  function OpPair(kind: int): Pair {
    Pair(Ascii("op"), Num(kind))
  }

  function NodeOpMap(kind: int, node: int): Wire {
    Map(OP_KEYS, [OpPair(kind), Pair(Ascii("node"), Num(node))])
  }

  function PayloadOpMap(kind: int, node: int, payload: IpcValue): Wire {
    Map(OP_KEYS, [OpPair(kind), Pair(Ascii("node"), Num(node)), Pair(Ascii("payload"), ValueMap(payload))])
  }

  function EdgeOpMap(kind: int, dependent: int, dependency: int): Wire {
    Map(OP_KEYS, [OpPair(kind), Pair(Ascii("dependent"), Num(dependent)), Pair(Ascii("dependency"), Num(dependency))])
  }

  function AddOpMap(kind: int, node: int, typeTag: Text, state: NodeState, key: Option<Text>): Wire {
    Map(OP_KEYS, [
      OpPair(kind), Pair(Ascii("node"), Num(node)), Pair(Ascii("type_tag"), Name(typeTag)),
      Pair(Ascii("state"), StateMap(state)), Pair(Ascii("key"), KeyWire(key))])
  }

  function OpMap(op: DeltaOp): Wire {
    match op
    case CellSet(node, payload) => PayloadOpMap(0, node, payload)
    case SlotValue(node, payload) => PayloadOpMap(1, node, payload)
    case Invalidate(node) => NodeOpMap(2, node)
    case NodeAdd(node, typeTag, state, key) => AddOpMap(3, node, typeTag, state, key)
    case NodeRemove(node) => NodeOpMap(4, node)
    case EdgeAdd(dependent, dependency) => EdgeOpMap(5, dependent, dependency)
    case EdgeRemove(dependent, dependency) => EdgeOpMap(6, dependent, dependency)
    case QueuePush(node, payload) => PayloadOpMap(7, node, payload)
    case QueuePop(node) => NodeOpMap(8, node)
    case QueueClose(node) => NodeOpMap(9, node)
  }

  lemma OpBegins(kind: int, node: int)
    requires 0 <= kind <= 9
    ensures KnowsOnly(OpField, OP_KEYS)
    ensures Takes(OpField, NO_OP, OpPair(kind), NO_OP.(kind := kind))
    ensures Takes(OpField, NO_OP.(kind := kind), Pair(Ascii("node"), Num(node)), NO_OP.(kind := kind, node := node))
  {
    hide Ascii, UnpackInt, UnpackStr, ReadState, ReadKey, ReadValue, Takes, Reads;
    var d := NO_OP.(kind := kind);
    NumReads(kind); FieldTakes(OpField, UnpackInt, (i: int) => NO_OP.(kind := Narrowed(i)), NO_OP, OpPair(kind), kind);
    NumReads(node); FieldTakes(OpField, UnpackInt, (i: int) => d.(node := i), d, Pair(Ascii("node"), Num(node)), node);
  }

  lemma NodeOpReads(kind: int, node: int)
    requires 0 <= kind <= 9
    ensures Reads(ReadOpDraft, NodeOpMap(kind, node), NO_OP.(kind := kind, node := node))
  {
    hide Ascii, OpField, ReadMap, Takes, Reads, KnowsOnly;
    var d := NO_OP.(kind := kind);
    OpBegins(kind, node);
    MapReads(ReadOpDraft, OP_KEYS, OpField, NodeOpMap(kind, node).pairs, [NO_OP, d, d.(node := node)]);
  }

  lemma PayloadOpReads(kind: int, node: int, payload: IpcValue)
    requires 0 <= kind <= 9
    ensures Reads(ReadOpDraft, PayloadOpMap(kind, node, payload),
        NO_OP.(kind := kind, node := node, payload := payload))
  {
    hide Ascii, ReadMap, Takes, Reads, KnowsOnly, ReadValue, ValueMap;
    var ps := PayloadOpMap(kind, node, payload).pairs;
    var d, d2 := NO_OP.(kind := kind), NO_OP.(kind := kind, node := node);
    OpBegins(kind, node);
    ValueReads(payload); FieldTakes(OpField, ReadValue, (v: IpcValue) => d2.(payload := v), d2, ps[2], payload);
    hide OpField;
    MapReads(ReadOpDraft, OP_KEYS, OpField, ps, [NO_OP, d, d2, d2.(payload := payload)]);
  }

  lemma EdgeOpReads(kind: int, dependent: int, dependency: int)
    requires 0 <= kind <= 9
    ensures Reads(ReadOpDraft, EdgeOpMap(kind, dependent, dependency),
                  NO_OP.(kind := kind, dependent := dependent, dependency := dependency))
  {
    hide Ascii, ReadMap, Takes, Reads, KnowsOnly, UnpackInt;
    var ps, d := EdgeOpMap(kind, dependent, dependency).pairs, NO_OP.(kind := kind);
    var d1 := d.(dependent := dependent);
    OpBegins(kind, 0);
    NumReads(dependent); FieldTakes(OpField, UnpackInt, (i: int) => d.(dependent := i), d, ps[1], dependent);
    NumReads(dependency); FieldTakes(OpField, UnpackInt, (i: int) => d1.(dependency := i), d1, ps[2], dependency);
    hide OpField;
    MapReads(ReadOpDraft, OP_KEYS, OpField, ps, [NO_OP, d, d1, d1.(dependency := dependency)]);
  }

  lemma AddOpReads(kind: int, node: int, typeTag: Text, state: NodeState, key: Option<Text>)
    requires 0 <= kind <= 9 && KeyOk(key)
    ensures Reads(ReadOpDraft, AddOpMap(kind, node, typeTag, state, key),
                  NO_OP.(kind := kind, node := node, typeTag := typeTag, state := state, key := key))
  {
    hide Ascii, ReadMap, Takes, Reads, KnowsOnly, UnpackStr, ReadState, ReadKey, StateMap, KeyWire, KeyOk;
    var ps, d := AddOpMap(kind, node, typeTag, state, key).pairs, NO_OP.(kind := kind);
    var d1 := d.(node := node);
    var d2 := d1.(typeTag := typeTag);
    var d3 := d2.(state := state);
    OpBegins(kind, node);
    NameReads(typeTag); FieldTakes(OpField, UnpackStr, (t: Text) => d1.(typeTag := t), d1, ps[2], typeTag);
    StateReads(state); FieldTakes(OpField, ReadState, (st: NodeState) => d2.(state := st), d2, ps[3], state);
    KeyReads(key); FieldTakes(OpField, ReadKey, (k: Option<Text>) => d3.(key := k), d3, ps[4], key);
    hide OpField;
    MapReads(ReadOpDraft, OP_KEYS, OpField, ps, [NO_OP, d, d1, d2, d3, d3.(key := key)]);
  }

  function DraftOf(op: DeltaOp): OpDraft {
    match op
    case CellSet(node, payload) => NO_OP.(kind := 0, node := node, payload := payload)
    case SlotValue(node, payload) => NO_OP.(kind := 1, node := node, payload := payload)
    case Invalidate(node) => NO_OP.(kind := 2, node := node)
    case NodeAdd(node, typeTag, state, key) =>
      NO_OP.(kind := 3, node := node, typeTag := typeTag, state := state, key := key)
    case NodeRemove(node) => NO_OP.(kind := 4, node := node)
    case EdgeAdd(dependent, dependency) => NO_OP.(kind := 5, dependent := dependent, dependency := dependency)
    case EdgeRemove(dependent, dependency) => NO_OP.(kind := 6, dependent := dependent, dependency := dependency)
    case QueuePush(node, payload) => NO_OP.(kind := 7, node := node, payload := payload)
    case QueuePop(node) => NO_OP.(kind := 8, node := node)
    case QueueClose(node) => NO_OP.(kind := 9, node := node)
  }

  predicate OpKeyOk(op: DeltaOp) {
    op.NodeAdd? ==> KeyOk(op.key)
  }

  lemma OpDraftReads(op: DeltaOp)
    requires OpKeyOk(op)
    ensures Reads(ReadOpDraft, OpMap(op), DraftOf(op))
  {
    hide Reads, ReadOpDraft, NodeOpMap, PayloadOpMap, EdgeOpMap, AddOpMap, KeyOk;
    match op
    case CellSet(node, payload) => PayloadOpReads(0, node, payload);
    case SlotValue(node, payload) => PayloadOpReads(1, node, payload);
    case Invalidate(node) => NodeOpReads(2, node);
    case NodeAdd(node, typeTag, state, key) => AddOpReads(3, node, typeTag, state, key);
    case NodeRemove(node) => NodeOpReads(4, node);
    case EdgeAdd(dependent, dependency) => EdgeOpReads(5, dependent, dependency);
    case EdgeRemove(dependent, dependency) => EdgeOpReads(6, dependent, dependency);
    case QueuePush(node, payload) => PayloadOpReads(7, node, payload);
    case QueuePop(node) => NodeOpReads(8, node);
    case QueueClose(node) => NodeOpReads(9, node);
  }

  lemma OpReads(op: DeltaOp)
    requires OpKeyOk(op)
    ensures Reads(ReadOp, OpMap(op), op)
  {
    hide Reads, ReadOpDraft, OpMap, OpKeyOk;
    OpDraftReads(op);
    assert OpOf(DraftOf(op)) == Some(op);
    hide OpOf, DraftOf;
    FinishReads(ReadOp, ReadOpDraft, OpOf, OpMap(op), DraftOf(op), op);
  }

  function ReadOps(s: Text): Parse<seq<DeltaOp>> { ReadList(s, ReadOp) }

  const NO_DELTA := Delta(0, 0, [])
  const DELTA_KEYS := {Ascii("base_epoch"), Ascii("epoch"), Ascii("ops")}

  function DeltaMap(d: Delta): Wire {
    Map(DELTA_KEYS, [
      Pair(Ascii("base_epoch"), Num(d.baseEpoch)), Pair(Ascii("epoch"), Num(d.epoch)),
      Pair(Ascii("ops"), List(Each(d.ops, OpMap)))])
  }

  function DeltaField(k: Text, d: Delta, s: Text): Option<Parse<Delta>> {
    if k == Ascii("base_epoch") then Some(Put(UnpackInt(s), i => d.(baseEpoch := i)))
    else if k == Ascii("epoch") then Some(Put(UnpackInt(s), i => d.(epoch := i)))
    else if k == Ascii("ops") then Some(Put(ReadOps(s), ops => d.(ops := d.ops + ops)))
    else None
  }

  function ReadDelta(s: Text): Parse<Delta> {
    ReadMap(s, NO_DELTA, DeltaField)
  }

  lemma OpsRead(ops: seq<DeltaOp>)
    requires forall i :: 0 <= i < |ops| ==> OpKeyOk(ops[i])
    ensures Reads(ReadOps, List(Each(ops, OpMap)), ops)
  {
    hide Reads, ReadList, OpKeyOk, OpMap, ReadOp;
    forall i | 0 <= i < |ops| ensures Reads(ReadOp, Each(ops, OpMap)[i], ops[i]) { OpReads(ops[i]); }
    ListReads(ReadOps, ReadOp, Each(ops, OpMap), ops);
  }

  lemma DeltaReads(d: Delta)
    requires DeltaFits(d)
    ensures Reads(ReadDelta, DeltaMap(d), d)
  {
    hide Ascii, UnpackInt, ReadOps, ReadMap, Takes, Reads, Each;
    var ps := DeltaMap(d).pairs;
    var d1 := NO_DELTA.(baseEpoch := d.baseEpoch);
    var d2 := d1.(epoch := d.epoch);
    NumReads(d.baseEpoch);
        FieldTakes(DeltaField, UnpackInt, (i: int) => NO_DELTA.(baseEpoch := i), NO_DELTA, ps[0], d.baseEpoch);
    NumReads(d.epoch); FieldTakes(DeltaField, UnpackInt, (i: int) => d1.(epoch := i), d1, ps[1], d.epoch);
    forall i | 0 <= i < |d.ops| ensures OpKeyOk(d.ops[i]) { assert OpFits(d.ops[i]); }
    OpsRead(d.ops); FieldTakes(DeltaField, ReadOps, (ops: seq<DeltaOp>) => d2.(ops := d2.ops + ops), d2, ps[2], d.ops);
    assert d2.(ops := d2.ops + d.ops) == d;
    MapReads(ReadDelta, DELTA_KEYS, DeltaField, ps, [NO_DELTA, d1, d2, d]);
  }

  // ── Anti-entropy frames ──

  /** A frontier entry is a bare pair of exactly two cells. */
  function EntryList(e: FrontierEntry): Wire {
    List([Num(e.peer), StampMap(e.stamp)])
  }

  function ReadEntry(s: Text): Parse<FrontierEntry> {
    var n := ArrayCount(s);
    if n.Fail? || n.value != 2 then Fail
    else
      var peer := UnpackInt(n.rest);
      if peer.Fail? then Fail
      else
        var stamp := ReadStamp(peer.rest);
        if stamp.Fail? then Fail else Done(FrontierEntry(peer.value, stamp.value), stamp.rest)
  }

  lemma EntryReads(e: FrontierEntry)
    ensures Reads(ReadEntry, EntryList(e), e)
  {
    hide UnpackInt, ReadStamp, ArrayCount, ArrayHeader, Reads, StampMap, Laid;
    var w := EntryList(e);
    forall x, rest: Text | Wider(w, x) && Fit(x) ensures ReadEntry(Laid(x) + rest) == Done(e, rest) {
      WiderParts(w, x);
      var a, b := x.items[0], x.items[1];
      TwoLaid(x, rest);
      ArrayBegins(2, Laid(a) + (Laid(b) + rest));
      NumReads(e.peer); ReadOne(UnpackInt, w.items[0], e.peer, a, Laid(b) + rest);
      StampReads(e.stamp); ReadOne(ReadStamp, w.items[1], e.stamp, b, rest);
    }
    ReadsMeans(ReadEntry, w, e);
  }

  lemma TwoLaid(x: Wire, rest: Text)
    requires (x.List? || x.Row?) && |x.items| >= 2 && Fit(x)
    ensures Laid(x) + rest
         == ArrayHeader(|x.items|) + (Laid(x.items[0]) + (Laid(x.items[1]) + (LaidItems(x.items[2..]) + rest)))
    ensures |x.items| == 2 ==>
              Laid(x) + rest == ArrayHeader(2) + (Laid(x.items[0]) + (Laid(x.items[1]) + rest))
  {
    hide Laid, ArrayHeader;
    var s, t := x.items, x.items[1..];
    assert t[1..] == s[2..] && t[0] == s[1];
    assert LaidItems(s) == Laid(s[0]) + (Laid(s[1]) + LaidItems(s[2..]));
    LaidArray(x);
    if |s| == 2 { assert LaidItems(s[2..]) == []; }
  }

  lemma LaidArray(x: Wire)
    requires (x.List? || x.Row?) && Fit(x)
    ensures Laid(x) == ArrayHeader(|x.items|) + LaidItems(x.items)
  {
  }

  const NO_CRDT_OP := CrdtOp(0, None, NO_STAMP, InlineValue([]))
  const CRDT_OP_KEYS := {Ascii("node"), Ascii("key"), Ascii("stamp"), Ascii("state")}

  function CrdtOpMap(o: CrdtOp): Wire {
    Map(CRDT_OP_KEYS, [
      Pair(Ascii("node"), Num(o.node)), Pair(Ascii("key"), KeyWire(o.key)),
      Pair(Ascii("stamp"), StampMap(o.stamp)), Pair(Ascii("state"), ValueMap(o.state))])
  }

  function CrdtOpField(k: Text, o: CrdtOp, s: Text): Option<Parse<CrdtOp>> {
    if k == Ascii("node") then Some(Put(UnpackInt(s), i => o.(node := i)))
    else if k == Ascii("key") then Some(Put(ReadKey(s), key => o.(key := key)))
    else if k == Ascii("stamp") then Some(Put(ReadStamp(s), t => o.(stamp := t)))
    else if k == Ascii("state") then Some(Put(ReadValue(s), v => o.(state := v)))
    else None
  }

  function ReadCrdtOp(s: Text): Parse<CrdtOp> {
    ReadMap(s, NO_CRDT_OP, CrdtOpField)
  }

  lemma CrdtOpReads(o: CrdtOp)
    requires KeyOk(o.key)
    ensures Reads(ReadCrdtOp, CrdtOpMap(o), o)
  {
    hide Ascii, UnpackInt, ReadKey, ReadStamp, ReadValue, ReadMap, Takes, Reads, KeyOk, KeyWire, StampMap, ValueMap;
    NamesDiffer("stamp", "state", 3);
    var ps := CrdtOpMap(o).pairs;
    var o1 := NO_CRDT_OP.(node := o.node);
    var o2 := o1.(key := o.key);
    var o3 := o2.(stamp := o.stamp);
    NumReads(o.node); FieldTakes(CrdtOpField, UnpackInt, (i: int) => NO_CRDT_OP.(node := i), NO_CRDT_OP, ps[0], o.node);
    KeyReads(o.key); FieldTakes(CrdtOpField, ReadKey, (key: Option<Text>) => o1.(key := key), o1, ps[1], o.key);
    StampReads(o.stamp); FieldTakes(CrdtOpField, ReadStamp, (t: WireStamp) => o2.(stamp := t), o2, ps[2], o.stamp);
    ValueReads(o.state); FieldTakes(CrdtOpField, ReadValue, (v: IpcValue) => o3.(state := v), o3, ps[3], o.state);
    MapReads(ReadCrdtOp, CRDT_OP_KEYS, CrdtOpField, ps, [NO_CRDT_OP, o1, o2, o3, o]);
  }

  function ReadFrontier(s: Text): Parse<seq<FrontierEntry>> { ReadList(s, ReadEntry) }

  function ReadCrdtOps(s: Text): Parse<seq<CrdtOp>> { ReadList(s, ReadCrdtOp) }

  const NO_SYNC := CrdtSync([], [])
  const SYNC_KEYS := {Ascii("frontier"), Ascii("ops")}

  function SyncMap(c: CrdtSync): Wire {
    Map(SYNC_KEYS, [
      Pair(Ascii("frontier"), List(Each(c.frontier, EntryList))), Pair(Ascii("ops"), List(Each(c.ops, CrdtOpMap)))])
  }

  function SyncField(k: Text, c: CrdtSync, s: Text): Option<Parse<CrdtSync>> {
    if k == Ascii("frontier") then Some(Put(ReadFrontier(s), es => c.(frontier := c.frontier + es)))
    else if k == Ascii("ops") then Some(Put(ReadCrdtOps(s), ops => c.(ops := c.ops + ops)))
    else None
  }

  function ReadSync(s: Text): Parse<CrdtSync> {
    ReadMap(s, NO_SYNC, SyncField)
  }

  lemma FrontierReads(es: seq<FrontierEntry>)
    ensures Reads(ReadFrontier, List(Each(es, EntryList)), es)
  {
    hide Reads, ReadList, EntryList, ReadEntry;
    forall i | 0 <= i < |es| ensures Reads(ReadEntry, Each(es, EntryList)[i], es[i]) { EntryReads(es[i]); }
    ListReads(ReadFrontier, ReadEntry, Each(es, EntryList), es);
  }

  lemma CrdtOpsRead(ops: seq<CrdtOp>)
    requires forall i :: 0 <= i < |ops| ==> KeyOk(ops[i].key)
    ensures Reads(ReadCrdtOps, List(Each(ops, CrdtOpMap)), ops)
  {
    hide Reads, ReadList, KeyOk, CrdtOpMap, ReadCrdtOp;
    forall i | 0 <= i < |ops| ensures Reads(ReadCrdtOp, Each(ops, CrdtOpMap)[i], ops[i]) { CrdtOpReads(ops[i]); }
    ListReads(ReadCrdtOps, ReadCrdtOp, Each(ops, CrdtOpMap), ops);
  }

  lemma SyncReads(c: CrdtSync)
    requires SyncFits(c)
    ensures Reads(ReadSync, SyncMap(c), c)
  {
    hide Ascii, ReadFrontier, ReadCrdtOps, ReadMap, Takes, Reads, Each, KeyOk;
    var ps, c1 := SyncMap(c).pairs, NO_SYNC.(frontier := [] + c.frontier);
    FrontierReads(c.frontier);
    FieldTakes(SyncField, ReadFrontier, (es: seq<FrontierEntry>) => NO_SYNC.(frontier := [] + es), NO_SYNC, ps[0],
        c.frontier);
    CrdtOpsRead(c.ops);
    FieldTakes(SyncField, ReadCrdtOps, (ops: seq<CrdtOp>) => c1.(ops := c1.ops + ops), c1, ps[1], c.ops);
    assert c1.(ops := c1.ops + c.ops) == c;
    MapReads(ReadSync, SYNC_KEYS, SyncField, ps, [NO_SYNC, c1, c]);
  }

  // ── Control frames ──

  const RESYNC_KEYS := {Ascii("from_epoch")}
  const ACK_KEYS := {Ascii("through_epoch")}

  function EpochField(name: Text, k: Text, s: Text): Option<Parse<int>> {
    if k == name then Some(Put(UnpackInt(s), (i: int) => i)) else None
  }

  function ResyncField(k: Text, epoch: int, s: Text): Option<Parse<int>> { EpochField(Ascii("from_epoch"), k, s) }

  function AckField(k: Text, epoch: int, s: Text): Option<Parse<int>> { EpochField(Ascii("through_epoch"), k, s) }

  function ReadResync(s: Text): Parse<int> { ReadMap(s, 0, ResyncField) }

  function ReadAck(s: Text): Parse<int> { ReadMap(s, 0, AckField) }

  lemma ResyncReads(epoch: int)
    ensures Reads(ReadResync, Map(RESYNC_KEYS, [Pair(Ascii("from_epoch"), Num(epoch))]), epoch)
  {
    hide Ascii, UnpackInt, ReadMap, Takes, Reads;
    var ps := [Pair(Ascii("from_epoch"), Num(epoch))];
    NumReads(epoch); FieldTakes(ResyncField, UnpackInt, (i: int) => i, 0, ps[0], epoch);
    MapReads(ReadResync, RESYNC_KEYS, ResyncField, ps, [0, epoch]);
  }

  lemma AckReads(epoch: int)
    ensures Reads(ReadAck, Map(ACK_KEYS, [Pair(Ascii("through_epoch"), Num(epoch))]), epoch)
  {
    hide Ascii, UnpackInt, ReadMap, Takes, Reads;
    var ps := [Pair(Ascii("through_epoch"), Num(epoch))];
    NumReads(epoch); FieldTakes(AckField, UnpackInt, (i: int) => i, 0, ps[0], epoch);
    MapReads(ReadAck, ACK_KEYS, AckField, ps, [0, epoch]);
  }

  // ── The envelope ──

  function TypeOf(m: IpcMessage): int {
    match m
    case SnapshotMsg(_) => 0
    case DeltaMsg(_) => 1
    case CrdtSyncMsg(_) => 2
    case ResyncRequest(_) => 3
    case OutboxAck(_) => 4
  }

  function ContentMap(m: IpcMessage): Wire {
    match m
    case SnapshotMsg(sn) => SnapshotMap(sn)
    case DeltaMsg(d) => DeltaMap(d)
    case CrdtSyncMsg(c) => SyncMap(c)
    case ResyncRequest(epoch) => Map(RESYNC_KEYS, [Pair(Ascii("from_epoch"), Num(epoch))])
    case OutboxAck(epoch) => Map(ACK_KEYS, [Pair(Ascii("through_epoch"), Num(epoch))])
  }

  const MESSAGE_KEYS := {Ascii("type"), Ascii("value")}

  function MessageMap(m: IpcMessage): Wire {
    Map(MESSAGE_KEYS, [Pair(Ascii("type"), Num(TypeOf(m))), Pair(Ascii("value"), ContentMap(m))])
  }

  function ReadContent(kind: int, s: Text): Parse<IpcMessage> {
    match kind
    case 0 => Put(ReadSnapshot(s), sn => SnapshotMsg(sn))
    case 1 => Put(ReadDelta(s), d => DeltaMsg(d))
    case 2 => Put(ReadSync(s), c => CrdtSyncMsg(c))
    case 3 => Put(ReadResync(s), epoch => ResyncRequest(epoch))
    case 4 => Put(ReadAck(s), epoch => OutboxAck(epoch))
    case _ => Fail
  }

  /** The first value met ends the reading; what type it has must have been said before it. */
  function ReadEnvelope(n: nat, s: Text, kind: int): Parse<IpcMessage>
    decreases n
  {
    if n == 0 then Fail
    else
      var key := UnpackStr(s);
      if key.Fail? then Fail
      else if key.value == Ascii("type") then
        var t := UnpackInt(key.rest);
        if t.Fail? then Fail else ReadEnvelope(n - 1, t.rest, Narrowed(t.value))
      else if key.value == Ascii("value") then ReadContent(kind, key.rest)
      else
        var over := Skipped(key.rest);
        if over.Fail? then Fail else ReadEnvelope(n - 1, over.rest, kind)
  }

  function ReadMessage(s: Text): Parse<IpcMessage> {
    var n := MapCount(s);
    if n.Fail? then Fail else ReadEnvelope(n.value, n.rest, -1)
  }

  lemma ContentRead(m: IpcMessage, x: Wire, rest: Text)
    requires Proper(m) && Wider(ContentMap(m), x) && Fit(x)
    ensures ReadContent(TypeOf(m), Laid(x) + rest) == Done(m, rest)
  {
    hide Reads, Ascii, SnapshotMap, DeltaMap, SyncMap, SnapshotFits, DeltaFits, SyncFits;
    hide ReadSnapshot, ReadDelta, ReadSync, ReadResync, ReadAck, Wider, Fit, Laid;
    match m
    case SnapshotMsg(sn) => SnapshotReads(sn); ReadOne(ReadSnapshot, ContentMap(m), sn, x, rest);
    case DeltaMsg(d) => DeltaReads(d); ReadOne(ReadDelta, ContentMap(m), d, x, rest);
    case CrdtSyncMsg(c) => SyncReads(c); ReadOne(ReadSync, ContentMap(m), c, x, rest);
    case ResyncRequest(epoch) => ResyncReads(epoch); ReadOne(ReadResync, ContentMap(m), epoch, x, rest);
    case OutboxAck(epoch) => AckReads(epoch); ReadOne(ReadAck, ContentMap(m), epoch, x, rest);
  }

  /** Read on from where only `ps` is left of what the reader knows. */
  lemma {:induction false} EnvelopeBack(m: IpcMessage, kind: int, ps: seq<Pair>, qs: seq<Pair>, rest: Text)
    requires Proper(m) && Woven(MESSAGE_KEYS, ps, qs)
    requires ps == MessageMap(m).pairs || (ps == MessageMap(m).pairs[1..] && kind == TypeOf(m))
    requires forall k :: 0 <= k < |qs| ==> |qs[k].key| < U32 && Fit(qs[k].value)
    ensures var r := ReadEnvelope(|qs|, LaidPairs(qs) + rest, kind); r.Done? && r.value == m
    decreases qs
  {
    hide Skipped, Laid, PackedStr, UnpackStr, UnpackInt, Fit, Ascii, ContentMap, ReadContent, Proper, Wider;
    assert qs != [];
    var q := qs[0];
    var tail := LaidPairs(qs[1..]) + rest;
    var after := Laid(q.value) + tail;
    assert LaidPairs(qs) + rest == PackedStr(q.key) + after;
    StrBack(q.key, after);
    if q.key !in MESSAGE_KEYS {
      SkipBack(q.value, tail);
      EnvelopeBack(m, kind, ps, qs[1..], rest);
    } else if ps == MessageMap(m).pairs {
      NumReads(TypeOf(m));
      ReadOne(UnpackInt, Num(TypeOf(m)), TypeOf(m), q.value, tail);
      EnvelopeBack(m, TypeOf(m), ps[1..], qs[1..], rest);
    } else {
      ContentRead(m, q.value, tail);
    }
  }

  /** A keyed frame comes back, whatever keys a newer writer wove into any of its maps. */
  lemma MessageReads(m: IpcMessage, x: Wire, rest: Text)
    requires Proper(m) && Wider(MessageMap(m), x) && Fit(x)
    ensures var s := Laid(x) + rest;
            s != [] && KindOf(s[0]) == KMap && ReadMessage(s).Done? && ReadMessage(s).value == m
  {
    hide LaidPairs, MapHeader, MapCount, ReadEnvelope, Ascii, ContentMap, Proper;
    var tail := LaidPairs(x.pairs) + rest;
    assert Laid(x) + rest == MapHeader(|x.pairs|) + tail;
    MapBegins(|x.pairs|, tail);
    EnvelopeBack(m, -1, MessageMap(m).pairs, x.pairs, rest);
  }

  /** Read on, no type met yet, to the value. */
  lemma {:induction false} UntypedRefused(front: seq<Pair>, v: Wire, more: seq<Pair>, rest: Text)
    requires forall k :: 0 <= k < |front| ==> front[k].key !in MESSAGE_KEYS
    requires var ps := front + [Pair(Ascii("value"), v)] + more;
             forall k :: 0 <= k < |ps| ==> |ps[k].key| < U32 && Fit(ps[k].value)
    ensures var ps := front + [Pair(Ascii("value"), v)] + more; ReadEnvelope(|ps|, LaidPairs(ps) + rest, -1).Fail?
    decreases |front|
  {
    hide PackedStr, UnpackStr, UnpackInt, Ascii, Skipped, Laid, Fit;
    var ps := front + [Pair(Ascii("value"), v)] + more;
    var p, tail := ps[0], LaidPairs(ps[1..]) + rest;
    var after := Laid(p.value) + tail;
    assert LaidPairs(ps) + rest == PackedStr(p.key) + after;
    StrBack(p.key, after);
    if front != [] {
      assert p == front[0] && ps[1..] == front[1..] + [Pair(Ascii("value"), v)] + more;
      SkipBack(p.value, tail);
      UntypedRefused(front[1..], v, more, rest);
    }
  }

  /** A value before its type is refused, whatever unknown keys stand in front of it and however the rest is laid
      out. */
  lemma ValueBeforeType(front: seq<Pair>, v: Wire, more: seq<Pair>, rest: Text)
    requires forall k :: 0 <= k < |front| ==> front[k].key !in MESSAGE_KEYS
    requires Fit(Map(MESSAGE_KEYS, front + [Pair(Ascii("value"), v)] + more))
    ensures ReadMessage(Laid(Map(MESSAGE_KEYS, front + [Pair(Ascii("value"), v)] + more)) + rest).Fail?
  {
    hide PackedStr, UnpackStr, MapHeader, MapCount, Ascii, Skipped, ReadEnvelope, LaidPairs;
    var ps := front + [Pair(Ascii("value"), v)] + more;
    var tail := LaidPairs(ps) + rest;
    assert Laid(Map(MESSAGE_KEYS, ps)) + rest == MapHeader(|ps|) + tail;
    MapBegins(|ps|, tail);
    UntypedRefused(front, v, more, rest);
  }
}
