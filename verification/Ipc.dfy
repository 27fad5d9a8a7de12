/** The protocol's messages and their JSON trees: externally tagged, named fields, bytes as integer arrays. */
module Ipc {
  import opened Options
  import opened Bytes
  import opened Json

  datatype Backend = Shm | Arrow | InProcess

  datatype BlobRef = BlobRef(offset: int, len: int, generation: int, epoch: int, checksum: int, backend: Backend)

  datatype NodeState = Payload(bytes: Text) | SharedBlob(blob: BlobRef) | Opaque

  datatype IpcValue = InlineValue(bytes: Text) | BlobValue(blob: BlobRef)

  datatype NodeSnapshot = NodeSnapshot(node: int, typeTag: Text, state: NodeState, key: Option<Text>)

  datatype EdgeSnapshot = EdgeSnapshot(dependent: int, dependency: int)

  datatype Snapshot = Snapshot(epoch: int, nodes: seq<NodeSnapshot>, edges: seq<EdgeSnapshot>, roots: seq<int>)

  datatype DeltaOp =
    | CellSet(node: int, payload: IpcValue)
    | SlotValue(node: int, payload: IpcValue)
    | Invalidate(node: int)
    | NodeAdd(node: int, typeTag: Text, state: NodeState, key: Option<Text>)
    | NodeRemove(node: int)
    | EdgeAdd(dependent: int, dependency: int)
    | EdgeRemove(dependent: int, dependency: int)
    | QueuePush(node: int, payload: IpcValue)
    | QueuePop(node: int)
    | QueueClose(node: int)

  datatype Delta = Delta(baseEpoch: int, epoch: int, ops: seq<DeltaOp>)

  datatype WireStamp = WireStamp(wallTime: int, logical: int, peer: int)

  datatype FrontierEntry = FrontierEntry(peer: int, stamp: WireStamp)

  datatype CrdtOp = CrdtOp(node: int, key: Option<Text>, stamp: WireStamp, state: IpcValue)

  datatype CrdtSync = CrdtSync(frontier: seq<FrontierEntry>, ops: seq<CrdtOp>)

  datatype IpcMessage =
    | SnapshotMsg(snapshot: Snapshot)
    | DeltaMsg(delta: Delta)
    | CrdtSyncMsg(sync: CrdtSync)
    | ResyncRequest(fromEpoch: int)
    | OutboxAck(throughEpoch: int)

  // ── Field access ──

  /** A name's bytes; names are plain ASCII. */
  function Ascii(s: string): (r: Text)
    ensures |r| == |s|
  {
    seq(|s|, i requires 0 <= i < |s| => (s[i] as int % 256) as byte)
  }

  /** Names that differ anywhere differ as bytes. */
  lemma NamesDiffer(a: string, b: string, i: nat)
    requires i < |a| == |b| && a[i] as int % 256 != b[i] as int % 256
    ensures Ascii(a) != Ascii(b)
  {
    assert Ascii(a)[i] as int == a[i] as int % 256;
    assert Ascii(b)[i] as int == b[i] as int % 256;
  }

  /** The first member of that name. */
  function Find(ms: seq<Member>, key: Text): Option<Value> {
    if ms == [] then None else if ms[0].key == key then Some(ms[0].value) else Find(ms[1..], key)
  }

  ghost predicate Distinct(ms: seq<Member>) {
    forall i, j :: 0 <= i < j < |ms| ==> ms[i].key != ms[j].key
  }

  /** With distinct names every member is found under its own, and nothing under another. */
  lemma {:induction false} Fields(ms: seq<Member>)
    requires Distinct(ms)
    ensures forall i :: 0 <= i < |ms| ==> Find(ms, ms[i].key) == Some(ms[i].value)
    ensures forall k :: (forall i :: 0 <= i < |ms| ==> ms[i].key != k) ==> Find(ms, k) == None
    decreases |ms|
  {
    if ms != [] {
      var t := ms[1..];
      Fields(t);
      forall i | 0 <= i < |ms| ensures Find(ms, ms[i].key) == Some(ms[i].value) {
        if i > 0 { assert t[i - 1] == ms[i]; }
      }
      forall k | forall i :: 0 <= i < |ms| ==> ms[i].key != k ensures Find(ms, k) == None {
        forall i | 0 <= i < |t| ensures t[i].key != k { assert t[i] == ms[i + 1]; }
      }
    }
  }

  function AsInt(v: Value): Option<int> {
    if v.Int? then Some(v.i) else None
  }

  function AsStr(v: Value): Option<Text> {
    if v.Str? then Some(v.s) else None
  }

  function AsObj(v: Value): Option<seq<Member>> {
    if v.Obj? then Some(v.members) else None
  }

  function AsArr(v: Value): Option<seq<Value>> {
    if v.Arr? then Some(v.items) else None
  }

  function IntAt(ms: seq<Member>, key: Text): Option<int> {
    var v :- Find(ms, key); AsInt(v)
  }

  function StrAt(ms: seq<Member>, key: Text): Option<Text> {
    var v :- Find(ms, key); AsStr(v)
  }

  function ArrAt(ms: seq<Member>, key: Text): Option<seq<Value>> {
    var v :- Find(ms, key); AsArr(v)
  }

  /** A one-entry object `{tag: body}`. */
  function TagOf(v: Value): Option<Member> {
    if v.Obj? && |v.members| == 1 then Some(v.members[0]) else None
  }

  function Tagged(tag: Text, body: Value): Value {
    Obj([Member(tag, body)])
  }

  // ── Arrays ──

  function ToArray<A>(xs: seq<A>, enc: A -> Value): seq<Value> {
    if xs == [] then [] else [enc(xs[0])] + ToArray(xs[1..], enc)
  }

  function FromArray<A>(vs: seq<Value>, dec: Value -> Option<A>): Option<seq<A>> {
    if vs == [] then Some([])
    else
      var x :- dec(vs[0]);
      var more :- FromArray(vs[1..], dec);
      Some([x] + more)
  }

  lemma {:induction false} ArrayBack<A>(xs: seq<A>, enc: A -> Value, dec: Value -> Option<A>)
    requires forall i :: 0 <= i < |xs| ==> dec(enc(xs[i])) == Some(xs[i])
    ensures FromArray(ToArray(xs, enc), dec) == Some(xs)
    decreases |xs|
  {
    if xs != [] {
      ArrayBack(xs[1..], enc, dec);
      assert ToArray(xs, enc)[1..] == ToArray(xs[1..], enc);
      assert xs == [xs[0]] + xs[1..];
    }
  }

  lemma {:induction false} ArrayExact<A>(xs: seq<A>, enc: A -> Value)
    requires forall i :: 0 <= i < |xs| ==> Exact(enc(xs[i]))
    ensures Exact(Arr(ToArray(xs, enc)))
    decreases |xs|
  {
    if xs != [] {
      ArrayExact(xs[1..], enc);
      assert ToArray(xs, enc)[0] == enc(xs[0]);
      forall k | 0 <= k < |ToArray(xs, enc)| ensures Exact(ToArray(xs, enc)[k]) {
        if k > 0 { assert ToArray(xs, enc)[k] == Arr(ToArray(xs[1..], enc)).items[k - 1]; }
      }
    }
  }

  predicate Fits(i: int) {
    I64_MIN <= i <= I64_MAX
  }

  function ByteToJson(b: byte): Value {
    Int(b as int)
  }

  function JsonToByte(v: Value): Option<byte> {
    var i :- AsInt(v); if 0 <= i <= 255 then Some(i as byte) else None
  }

  function BytesToJson(bs: Text): Value {
    Arr(ToArray(bs, ByteToJson))
  }

  function JsonToBytes(v: Value): Option<Text> {
    var vs :- AsArr(v); FromArray(vs, JsonToByte)
  }

  lemma BytesBack(bs: Text)
    ensures JsonToBytes(BytesToJson(bs)) == Some(bs) && Exact(BytesToJson(bs))
  {
    ArrayBack(bs, ByteToJson, JsonToByte);
    ArrayExact(bs, ByteToJson);
  }

  // ── Leaves ──

  function BackendName(b: Backend): Text {
    match b
    case Shm => Ascii("shm")
    case Arrow => Ascii("arrow")
    case InProcess => Ascii("in_process")
  }

  function BackendNamed(t: Text): Option<Backend> {
    if t == Ascii("shm") then Some(Shm)
    else if t == Ascii("arrow") then Some(Arrow)
    else if t == Ascii("in_process") then Some(InProcess)
    else None
  }

  /** The default backend is left out. */
  function BlobToJson(r: BlobRef): Value {
    Obj([Member(Ascii("offset"), Int(r.offset)), Member(Ascii("len"), Int(r.len)),
         Member(Ascii("generation"), Int(r.generation)), Member(Ascii("epoch"), Int(r.epoch)),
         Member(Ascii("checksum"), Int(r.checksum))]
        + if r.backend != Shm then [Member(Ascii("backend"), Str(BackendName(r.backend)))] else [])
  }

  function JsonToBackend(v: Option<Value>): Option<Backend> {
    if v.None? || v.val.Null? then Some(Shm) else (var t :- AsStr(v.val); BackendNamed(t))
  }

  function JsonToBlob(v: Value): Option<BlobRef> {
    var ms :- AsObj(v);
    var offset :- IntAt(ms, Ascii("offset"));
    var len :- IntAt(ms, Ascii("len"));
    var generation :- IntAt(ms, Ascii("generation"));
    var epoch :- IntAt(ms, Ascii("epoch"));
    var checksum :- IntAt(ms, Ascii("checksum"));
    var backend :- JsonToBackend(Find(ms, Ascii("backend")));
    Some(BlobRef(offset, len, generation, epoch, checksum, backend))
  }

  predicate BlobFits(r: BlobRef) {
    Fits(r.offset) && Fits(r.len) && Fits(r.generation) && Fits(r.epoch) && Fits(r.checksum)
  }

  lemma BlobBack(r: BlobRef)
    ensures JsonToBlob(BlobToJson(r)) == Some(r)
  {
    hide Find, Ascii, BackendName, BackendNamed;
    var ms := BlobToJson(r).members;
    Fields(ms);
    assert ms[0].key == Ascii("offset") && ms[1].key == Ascii("len") && ms[2].key == Ascii("generation");
    assert ms[3].key == Ascii("epoch") && ms[4].key == Ascii("checksum");
    if r.backend != Shm { assert ms[5].key == Ascii("backend"); }
    BackendBack(r.backend);
  }

  lemma BlobExact(r: BlobRef)
    requires BlobFits(r)
    ensures Exact(BlobToJson(r))
  {
    hide Ascii;
  }

  lemma BackendBack(b: Backend)
    ensures BackendNamed(BackendName(b)) == Some(b)
  {
  }


  function Slashes(path: Text): nat {
    if path == [] then 0 else (if path[0] == SLASH then 1 else 0) + Slashes(path[1..])
  }

  /** A key path: some segments, none empty, not too many, not too long. */
  predicate NodeKeyOk(path: Text) {
    && 0 < |path| <= 1024 && Slashes(path) < 32
    && forall i :: 0 <= i < |path| && path[i] == SLASH ==> 0 < i < |path| - 1 && path[i + 1] != SLASH
  }

  predicate KeyOk(key: Option<Text>) {
    key.Some? ==> NodeKeyOk(key.val)
  }

  function JsonToKey(v: Option<Value>): Option<Option<Text>> {
    if v.None? || v.val.Null? then Some(None)
    else
      var t :- AsStr(v.val);
      if NodeKeyOk(t) then Some(Some(t)) else None
  }

  /** Present only when there is a key. */
  function KeyMember(key: Option<Text>): seq<Member> {
    if key.Some? then [Member(Ascii("key"), Str(key.val))] else []
  }

  function StampToJson(t: WireStamp): Value {
    Obj([Member(Ascii("wall_time"), Int(t.wallTime)), Member(Ascii("logical"), Int(t.logical)),
        Member(Ascii("peer"), Int(t.peer))])
  }

  function JsonToStamp(v: Value): Option<WireStamp> {
    var ms :- AsObj(v);
    var wallTime :- IntAt(ms, Ascii("wall_time"));
    var logical :- IntAt(ms, Ascii("logical"));
    var peer :- IntAt(ms, Ascii("peer"));
    Some(WireStamp(wallTime, logical, peer))
  }

  predicate StampFits(t: WireStamp) {
    Fits(t.wallTime) && Fits(t.logical) && Fits(t.peer)
  }

  lemma StampBack(t: WireStamp)
    ensures JsonToStamp(StampToJson(t)) == Some(t)
    ensures StampFits(t) ==> Exact(StampToJson(t))
  {
    hide Find, Ascii;
    var ms := StampToJson(t).members;
    Fields(ms);
    assert ms[0].key == Ascii("wall_time") && ms[1].key == Ascii("logical") && ms[2].key == Ascii("peer");
  }

  // ── States and values ──

  /** The unit variant is a bare string. */
  function StateToJson(st: NodeState): Value {
    match st
    case Payload(bs) => Tagged(Ascii("Payload"), BytesToJson(bs))
    case SharedBlob(blob) => Tagged(Ascii("SharedBlob"), BlobToJson(blob))
    case Opaque => Str(Ascii("Opaque"))
  }

  function JsonToState(v: Value): Option<NodeState> {
    if v.Str? then (if v.s == Ascii("Opaque") then Some(Opaque) else None)
    else
      var t :- TagOf(v);
      if t.key == Ascii("Payload") then (var bs :- JsonToBytes(t.value); Some(Payload(bs)))
      else if t.key == Ascii("SharedBlob") then (var blob :- JsonToBlob(t.value); Some(SharedBlob(blob)))
      else None
  }

  predicate StateFits(st: NodeState) {
    st.SharedBlob? ==> BlobFits(st.blob)
  }

  lemma StateBack(st: NodeState)
    ensures JsonToState(StateToJson(st)) == Some(st)
    ensures StateFits(st) ==> Exact(StateToJson(st))
  {
    hide Ascii, BytesToJson, JsonToBytes, BlobToJson, JsonToBlob;
    match st
    case Payload(bs) => BytesBack(bs);
    case SharedBlob(blob) => BlobBack(blob); if BlobFits(blob) { BlobExact(blob); }
    case Opaque =>
  }

  function ValueToJson(x: IpcValue): Value {
    match x
    case InlineValue(bs) => Tagged(Ascii("Inline"), BytesToJson(bs))
    case BlobValue(blob) => Tagged(Ascii("SharedBlob"), BlobToJson(blob))
  }

  function JsonToValue(v: Value): Option<IpcValue> {
    var t :- TagOf(v);
    if t.key == Ascii("Inline") then (var bs :- JsonToBytes(t.value); Some(InlineValue(bs)))
    else if t.key == Ascii("SharedBlob") then (var blob :- JsonToBlob(t.value); Some(BlobValue(blob)))
    else None
  }

  predicate ValueFits(x: IpcValue) {
    x.BlobValue? ==> BlobFits(x.blob)
  }

  lemma IpcValueBack(x: IpcValue)
    ensures JsonToValue(ValueToJson(x)) == Some(x)
    ensures ValueFits(x) ==> Exact(ValueToJson(x))
  {
    hide Ascii, BytesToJson, JsonToBytes, BlobToJson, JsonToBlob;
    match x
    case InlineValue(bs) => BytesBack(bs);
    case BlobValue(blob) => BlobBack(blob); if BlobFits(blob) { BlobExact(blob); }
  }

  // ── Snapshots ──

  function NodeToJson(n: NodeSnapshot): (v: Value)
    ensures v.Obj?
  {
    Obj([Member(Ascii("node"), Int(n.node)), Member(Ascii("type_tag"), Str(n.typeTag)),
        Member(Ascii("state"), StateToJson(n.state))]
        + KeyMember(n.key))
  }

  function JsonToNode(v: Value): Option<NodeSnapshot> {
    var ms :- AsObj(v);
    var node :- IntAt(ms, Ascii("node"));
    var typeTag :- StrAt(ms, Ascii("type_tag"));
    var sv :- Find(ms, Ascii("state"));
    var state :- JsonToState(sv);
    var key :- JsonToKey(Find(ms, Ascii("key")));
    Some(NodeSnapshot(node, typeTag, state, key))
  }

  predicate NodeFits(n: NodeSnapshot) {
    Fits(n.node) && StateFits(n.state) && KeyOk(n.key)
  }

  lemma NodeBack(n: NodeSnapshot)
    requires KeyOk(n.key)
    ensures JsonToNode(NodeToJson(n)) == Some(n)
    ensures NodeFits(n) ==> Exact(NodeToJson(n))
  {
    hide Find, Ascii, StateToJson, JsonToState, NodeKeyOk;
    var ms := NodeToJson(n).members;
    Fields(ms);
    assert ms[0].key == Ascii("node") && ms[1].key == Ascii("type_tag") && ms[2].key == Ascii("state");
    if n.key.Some? { assert ms[3].key == Ascii("key"); }
    StateBack(n.state);
  }

  function EdgeToJson(e: EdgeSnapshot): (v: Value)
    ensures v.Obj?
  {
    Obj([Member(Ascii("dependent"), Int(e.dependent)), Member(Ascii("dependency"), Int(e.dependency))])
  }

  function JsonToEdge(v: Value): Option<EdgeSnapshot> {
    var ms :- AsObj(v);
    var dependent :- IntAt(ms, Ascii("dependent"));
    var dependency :- IntAt(ms, Ascii("dependency"));
    Some(EdgeSnapshot(dependent, dependency))
  }

  predicate EdgeFits(e: EdgeSnapshot) {
    Fits(e.dependent) && Fits(e.dependency)
  }

  lemma EdgeBack(e: EdgeSnapshot)
    ensures JsonToEdge(EdgeToJson(e)) == Some(e)
    ensures EdgeFits(e) ==> Exact(EdgeToJson(e))
  {
    hide Find, Ascii;
    var ms := EdgeToJson(e).members;
    Fields(ms);
    assert ms[0].key == Ascii("dependent") && ms[1].key == Ascii("dependency");
  }

  function IntToJson(i: int): Value {
    Int(i)
  }

  function SnapshotToJson(s: Snapshot): Value {
    Obj([Member(Ascii("epoch"), Int(s.epoch)), Member(Ascii("nodes"), Arr(ToArray(s.nodes, NodeToJson))),
         Member(Ascii("edges"), Arr(ToArray(s.edges, EdgeToJson))),
             Member(Ascii("roots"), Arr(ToArray(s.roots, IntToJson)))])
  }

  function JsonToSnapshot(v: Value): Option<Snapshot> {
    var ms :- AsObj(v);
    var epoch :- IntAt(ms, Ascii("epoch"));
    var nvs :- ArrAt(ms, Ascii("nodes"));
    var nodes :- FromArray(nvs, JsonToNode);
    var evs :- ArrAt(ms, Ascii("edges"));
    var edges :- FromArray(evs, JsonToEdge);
    var rvs :- ArrAt(ms, Ascii("roots"));
    var roots :- FromArray(rvs, AsInt);
    Some(Snapshot(epoch, nodes, edges, roots))
  }

  predicate SnapshotFits(s: Snapshot) {
    && Fits(s.epoch) && (forall i :: 0 <= i < |s.nodes| ==> NodeFits(s.nodes[i]))
    && (forall i :: 0 <= i < |s.edges| ==> EdgeFits(s.edges[i]))
        && (forall i :: 0 <= i < |s.roots| ==> Fits(s.roots[i]))
  }

  lemma SnapshotNames(ms: seq<Member>)
    requires |ms| == 4 && ms[0].key == Ascii("epoch") && ms[1].key == Ascii("nodes")
    requires ms[2].key == Ascii("edges") && ms[3].key == Ascii("roots")
    ensures Distinct(ms)
  {
    NamesDiffer("epoch", "nodes", 0);
    NamesDiffer("epoch", "edges", 1);
    NamesDiffer("epoch", "roots", 0);
    NamesDiffer("nodes", "edges", 0);
    NamesDiffer("nodes", "roots", 0);
    NamesDiffer("edges", "roots", 0);
  }

  lemma SnapshotArrays(s: Snapshot)
    requires SnapshotFits(s)
    ensures FromArray(ToArray(s.nodes, NodeToJson), JsonToNode) == Some(s.nodes)
    ensures FromArray(ToArray(s.edges, EdgeToJson), JsonToEdge) == Some(s.edges)
    ensures FromArray(ToArray(s.roots, IntToJson), AsInt) == Some(s.roots)
    ensures Exact(Arr(ToArray(s.nodes, NodeToJson))) && Exact(Arr(ToArray(s.edges, EdgeToJson)))
    ensures Exact(Arr(ToArray(s.roots, IntToJson)))
  {
    hide NodeToJson, JsonToNode, EdgeToJson, JsonToEdge;
    forall i | 0 <= i < |s.nodes| ensures JsonToNode(NodeToJson(s.nodes[i])) == Some(s.nodes[i])
        && Exact(NodeToJson(s.nodes[i])) {
      NodeBack(s.nodes[i]);
    }
    forall i | 0 <= i < |s.edges| ensures JsonToEdge(EdgeToJson(s.edges[i])) == Some(s.edges[i])
        && Exact(EdgeToJson(s.edges[i])) {
      EdgeBack(s.edges[i]);
    }
    ArrayBack(s.nodes, NodeToJson, JsonToNode);
    ArrayBack(s.edges, EdgeToJson, JsonToEdge);
    ArrayBack(s.roots, IntToJson, AsInt);
    ArrayExact(s.nodes, NodeToJson);
    ArrayExact(s.edges, EdgeToJson);
    ArrayExact(s.roots, IntToJson);
  }

  lemma SnapshotBack(s: Snapshot)
    requires SnapshotFits(s)
    ensures JsonToSnapshot(SnapshotToJson(s)) == Some(s) && Exact(SnapshotToJson(s))
  {
    hide Find, Ascii, ToArray, FromArray;
    var ms := SnapshotToJson(s).members;
    SnapshotNames(ms);
    Fields(ms);
    assert ms[0].key == Ascii("epoch") && ms[1].key == Ascii("nodes") && ms[2].key == Ascii("edges")
        && ms[3].key == Ascii("roots");
    SnapshotArrays(s);
  }

  // ── Deltas ──

  function OneInt(name: Text, i: int): (v: Value)
    ensures v.Obj?
  {
    Obj([Member(name, Int(i))])
  }

  function WithPayload(node: int, payload: IpcValue): (v: Value)
    ensures v.Obj?
  {
    Obj([Member(Ascii("node"), Int(node)), Member(Ascii("payload"), ValueToJson(payload))])
  }

  function OpTag(op: DeltaOp): Text {
    match op
    case CellSet(_, _) => Ascii("CellSet")
    case SlotValue(_, _) => Ascii("SlotValue")
    case Invalidate(_) => Ascii("Invalidate")
    case NodeAdd(_, _, _, _) => Ascii("NodeAdd")
    case NodeRemove(_) => Ascii("NodeRemove")
    case EdgeAdd(_, _) => Ascii("EdgeAdd")
    case EdgeRemove(_, _) => Ascii("EdgeRemove")
    case QueuePush(_, _) => Ascii("QueuePush")
    case QueuePop(_) => Ascii("QueuePop")
    case QueueClose(_) => Ascii("QueueClose")
  }

  function OpBody(op: DeltaOp): Value {
    match op
    case CellSet(node, payload) => WithPayload(node, payload)
    case SlotValue(node, payload) => WithPayload(node, payload)
    case QueuePush(node, payload) => WithPayload(node, payload)
    case NodeAdd(node, typeTag, state, key) => NodeToJson(NodeSnapshot(node, typeTag, state, key))
    case EdgeAdd(dependent, dependency) => EdgeToJson(EdgeSnapshot(dependent, dependency))
    case EdgeRemove(dependent, dependency) => EdgeToJson(EdgeSnapshot(dependent, dependency))
    case _ => OneInt(Ascii("node"), op.node)
  }

  function OpToJson(op: DeltaOp): Value {
    Tagged(OpTag(op), OpBody(op))
  }

  function PayloadOf(ms: seq<Member>): Option<(int, IpcValue)> {
    var node :- IntAt(ms, Ascii("node"));
    var pv :- Find(ms, Ascii("payload"));
    var payload :- JsonToValue(pv);
    Some((node, payload))
  }

  function JsonToOp(v: Value): Option<DeltaOp> {
    var t :- TagOf(v);
    var ms :- AsObj(t.value);
    if t.key == Ascii("CellSet") then (var p :- PayloadOf(ms); Some(CellSet(p.0, p.1)))
    else if t.key == Ascii("SlotValue") then (var p :- PayloadOf(ms); Some(SlotValue(p.0, p.1)))
    else if t.key == Ascii("Invalidate") then (var n :- IntAt(ms, Ascii("node")); Some(Invalidate(n)))
    else if t.key == Ascii("NodeAdd")
        then (var n :- JsonToNode(t.value); Some(NodeAdd(n.node, n.typeTag, n.state, n.key)))
    else if t.key == Ascii("NodeRemove") then (var n :- IntAt(ms, Ascii("node")); Some(NodeRemove(n)))
    else if t.key == Ascii("EdgeAdd") then (var e :- JsonToEdge(t.value); Some(EdgeAdd(e.dependent, e.dependency)))
    else if t.key == Ascii("EdgeRemove")
        then (var e :- JsonToEdge(t.value); Some(EdgeRemove(e.dependent, e.dependency)))
    else if t.key == Ascii("QueuePush") then (var p :- PayloadOf(ms); Some(QueuePush(p.0, p.1)))
    else if t.key == Ascii("QueuePop") then (var n :- IntAt(ms, Ascii("node")); Some(QueuePop(n)))
    else if t.key == Ascii("QueueClose") then (var n :- IntAt(ms, Ascii("node")); Some(QueueClose(n)))
    else None
  }

  predicate OpFits(op: DeltaOp) {
    match op
    case CellSet(node, payload) => Fits(node) && ValueFits(payload)
    case SlotValue(node, payload) => Fits(node) && ValueFits(payload)
    case QueuePush(node, payload) => Fits(node) && ValueFits(payload)
    case NodeAdd(node, typeTag, state, key) => NodeFits(NodeSnapshot(node, typeTag, state, key))
    case EdgeAdd(dependent, dependency) => Fits(dependent) && Fits(dependency)
    case EdgeRemove(dependent, dependency) => Fits(dependent) && Fits(dependency)
    case _ => Fits(op.node)
  }

  lemma OneIntBack(name: Text, i: int)
    ensures IntAt(OneInt(name, i).members, name) == Some(i)
    ensures Fits(i) ==> Exact(OneInt(name, i))
  {
  }

  lemma PayloadBack(node: int, payload: IpcValue)
    ensures PayloadOf(WithPayload(node, payload).members) == Some((node, payload))
    ensures Fits(node) && ValueFits(payload) ==> Exact(WithPayload(node, payload))
  {
    hide Find, Ascii, ValueToJson, JsonToValue;
    var ms := WithPayload(node, payload).members;
    Fields(ms);
    assert ms[0].key == Ascii("node") && ms[1].key == Ascii("payload");
    IpcValueBack(payload);
  }

  /** The ten operation tags, told apart by length or first differing letter. */
  lemma TagsDiffer()
    ensures Ascii("CellSet") != Ascii("NodeAdd") && Ascii("CellSet") != Ascii("EdgeAdd")
        && Ascii("NodeAdd") != Ascii("EdgeAdd")
    ensures Ascii("SlotValue") != Ascii("QueuePush")
    ensures Ascii("Invalidate") != Ascii("NodeRemove") && Ascii("Invalidate") != Ascii("EdgeRemove")
        && Ascii("Invalidate") != Ascii("QueueClose")
    ensures Ascii("NodeRemove") != Ascii("EdgeRemove") && Ascii("NodeRemove") != Ascii("QueueClose")
        && Ascii("EdgeRemove") != Ascii("QueueClose")
  {
    hide Ascii;
    NamesDiffer("CellSet", "NodeAdd", 0);
    NamesDiffer("CellSet", "EdgeAdd", 0);
    NamesDiffer("NodeAdd", "EdgeAdd", 0);
    NamesDiffer("SlotValue", "QueuePush", 0);
    NamesDiffer("Invalidate", "NodeRemove", 0);
    NamesDiffer("Invalidate", "EdgeRemove", 0);
    NamesDiffer("Invalidate", "QueueClose", 0);
    NamesDiffer("NodeRemove", "EdgeRemove", 0);
    NamesDiffer("NodeRemove", "QueueClose", 0);
    NamesDiffer("EdgeRemove", "QueueClose", 0);
  }

  lemma OpBack(op: DeltaOp)
    requires OpFits(op)
    ensures JsonToOp(OpToJson(op)) == Some(op) && Exact(OpToJson(op))
  {
    hide Ascii, NodeToJson, JsonToNode, EdgeToJson, JsonToEdge, WithPayload, PayloadOf, OneInt, IntAt;
    TagsDiffer();
    match op
    case CellSet(node, payload) => PayloadBack(node, payload);
    case SlotValue(node, payload) => PayloadBack(node, payload);
    case QueuePush(node, payload) => PayloadBack(node, payload);
    case NodeAdd(node, typeTag, state, key) => NodeBack(NodeSnapshot(node, typeTag, state, key));
    case EdgeAdd(dependent, dependency) => EdgeBack(EdgeSnapshot(dependent, dependency));
    case EdgeRemove(dependent, dependency) => EdgeBack(EdgeSnapshot(dependent, dependency));
    case _ => OneIntBack(Ascii("node"), op.node);
  }

  function DeltaToJson(d: Delta): Value {
    Obj([Member(Ascii("base_epoch"), Int(d.baseEpoch)), Member(Ascii("epoch"), Int(d.epoch)),
         Member(Ascii("ops"), Arr(ToArray(d.ops, OpToJson)))])
  }

  function JsonToDelta(v: Value): Option<Delta> {
    var ms :- AsObj(v);
    var baseEpoch :- IntAt(ms, Ascii("base_epoch"));
    var epoch :- IntAt(ms, Ascii("epoch"));
    var ovs :- ArrAt(ms, Ascii("ops"));
    var ops :- FromArray(ovs, JsonToOp);
    Some(Delta(baseEpoch, epoch, ops))
  }

  predicate DeltaFits(d: Delta) {
    Fits(d.baseEpoch) && Fits(d.epoch) && forall i :: 0 <= i < |d.ops| ==> OpFits(d.ops[i])
  }

  lemma DeltaBack(d: Delta)
    requires DeltaFits(d)
    ensures JsonToDelta(DeltaToJson(d)) == Some(d) && Exact(DeltaToJson(d))
  {
    hide Find, Ascii, OpToJson, JsonToOp, OpFits;
    forall i | 0 <= i < |d.ops| ensures JsonToOp(OpToJson(d.ops[i])) == Some(d.ops[i])
        && Exact(OpToJson(d.ops[i])) { OpBack(d.ops[i]); }
    ArrayBack(d.ops, OpToJson, JsonToOp);
    ArrayExact(d.ops, OpToJson);
    var ms := DeltaToJson(d).members;
    Fields(ms);
    assert ms[0].key == Ascii("base_epoch") && ms[1].key == Ascii("epoch") && ms[2].key == Ascii("ops");
  }

  // ── Anti-entropy ──

  /** The key is written always, null when there is none. */
  function CrdtOpToJson(op: CrdtOp): Value {
    Obj([Member(Ascii("node"), Int(op.node)), Member(Ascii("key"), if op.key.Some? then Str(op.key.val) else Null),
         Member(Ascii("stamp"), StampToJson(op.stamp)), Member(Ascii("state"), ValueToJson(op.state))])
  }

  function JsonToCrdtOp(v: Value): Option<CrdtOp> {
    var ms :- AsObj(v);
    var node :- IntAt(ms, Ascii("node"));
    var key :- JsonToKey(Find(ms, Ascii("key")));
    var tv :- Find(ms, Ascii("stamp"));
    var stamp :- JsonToStamp(tv);
    var sv :- Find(ms, Ascii("state"));
    var state :- JsonToValue(sv);
    Some(CrdtOp(node, key, stamp, state))
  }

  predicate CrdtOpFits(op: CrdtOp) {
    Fits(op.node) && KeyOk(op.key) && StampFits(op.stamp) && ValueFits(op.state)
  }

  lemma CrdtOpBack(op: CrdtOp)
    requires CrdtOpFits(op)
    ensures JsonToCrdtOp(CrdtOpToJson(op)) == Some(op) && Exact(CrdtOpToJson(op))
  {
    hide Find, Ascii, StampToJson, JsonToStamp, ValueToJson, JsonToValue, NodeKeyOk;
    var ms := CrdtOpToJson(op).members;
    NamesDiffer("stamp", "state", 3);
    Fields(ms);
    assert ms[0].key == Ascii("node") && ms[1].key == Ascii("key") && ms[2].key == Ascii("stamp")
        && ms[3].key == Ascii("state");
    StampBack(op.stamp);
    IpcValueBack(op.state);
  }

  function EntryToJson(e: FrontierEntry): Value {
    Arr([Int(e.peer), StampToJson(e.stamp)])
  }

  function JsonToEntry(v: Value): Option<FrontierEntry> {
    var vs :- AsArr(v);
    if |vs| != 2 then None
    else
      var peer :- AsInt(vs[0]);
      var stamp :- JsonToStamp(vs[1]);
      Some(FrontierEntry(peer, stamp))
  }

  predicate EntryFits(e: FrontierEntry) {
    Fits(e.peer) && StampFits(e.stamp)
  }

  /** An empty frontier is left out: it means unchanged, not nothing known. */
  function SyncToJson(s: CrdtSync): Value {
    Obj((if s.frontier != [] then [Member(Ascii("frontier"), Arr(ToArray(s.frontier, EntryToJson)))] else [])
        + [Member(Ascii("ops"), Arr(ToArray(s.ops, CrdtOpToJson)))])
  }

  function JsonToFrontier(v: Option<Value>): Option<seq<FrontierEntry>> {
    if v.None? || v.val.Null? then Some([])
    else
      var vs :- AsArr(v.val);
      FromArray(vs, JsonToEntry)
  }

  function JsonToSync(v: Value): Option<CrdtSync> {
    var ms :- AsObj(v);
    var frontier :- JsonToFrontier(Find(ms, Ascii("frontier")));
    var ovs :- ArrAt(ms, Ascii("ops"));
    var ops :- FromArray(ovs, JsonToCrdtOp);
    Some(CrdtSync(frontier, ops))
  }

  predicate SyncFits(s: CrdtSync) {
    (forall i :: 0 <= i < |s.frontier| ==> EntryFits(s.frontier[i]))
        && forall i :: 0 <= i < |s.ops| ==> CrdtOpFits(s.ops[i])
  }

  lemma SyncArrays(s: CrdtSync)
    requires SyncFits(s)
    ensures FromArray(ToArray(s.frontier, EntryToJson), JsonToEntry) == Some(s.frontier)
    ensures FromArray(ToArray(s.ops, CrdtOpToJson), JsonToCrdtOp) == Some(s.ops)
    ensures Exact(Arr(ToArray(s.frontier, EntryToJson))) && Exact(Arr(ToArray(s.ops, CrdtOpToJson)))
  {
    hide CrdtOpToJson, JsonToCrdtOp, StampToJson, JsonToStamp;
    forall i | 0 <= i < |s.frontier|
      ensures JsonToEntry(EntryToJson(s.frontier[i])) == Some(s.frontier[i]) && Exact(EntryToJson(s.frontier[i]))
    {
      StampBack(s.frontier[i].stamp);
    }
    forall i | 0 <= i < |s.ops| ensures JsonToCrdtOp(CrdtOpToJson(s.ops[i])) == Some(s.ops[i])
        && Exact(CrdtOpToJson(s.ops[i])) {
      CrdtOpBack(s.ops[i]);
    }
    ArrayBack(s.frontier, EntryToJson, JsonToEntry);
    ArrayBack(s.ops, CrdtOpToJson, JsonToCrdtOp);
    ArrayExact(s.frontier, EntryToJson);
    ArrayExact(s.ops, CrdtOpToJson);
  }

  lemma SyncBack(s: CrdtSync)
    requires SyncFits(s)
    ensures JsonToSync(SyncToJson(s)) == Some(s) && Exact(SyncToJson(s))
  {
    hide Find, Ascii, ToArray, FromArray;
    var ms := SyncToJson(s).members;
    Fields(ms);
    assert ms[|ms| - 1].key == Ascii("ops");
    if s.frontier != [] { assert ms[0].key == Ascii("frontier"); }
    SyncArrays(s);
  }

  // ── Messages ──

  function ToJson(m: IpcMessage): Value {
    match m
    case SnapshotMsg(s) => Tagged(Ascii("Snapshot"), SnapshotToJson(s))
    case DeltaMsg(d) => Tagged(Ascii("Delta"), DeltaToJson(d))
    case CrdtSyncMsg(s) => Tagged(Ascii("CrdtSync"), SyncToJson(s))
    case ResyncRequest(from) => Tagged(Ascii("ResyncRequest"), OneInt(Ascii("from_epoch"), from))
    case OutboxAck(through) => Tagged(Ascii("OutboxAck"), OneInt(Ascii("through_epoch"), through))
  }

  function FromJson(v: Value): Option<IpcMessage> {
    var t :- TagOf(v);
    if t.key == Ascii("Snapshot") then (var s :- JsonToSnapshot(t.value); Some(SnapshotMsg(s)))
    else if t.key == Ascii("Delta") then (var d :- JsonToDelta(t.value); Some(DeltaMsg(d)))
    else if t.key == Ascii("CrdtSync") then (var s :- JsonToSync(t.value); Some(CrdtSyncMsg(s)))
    else if t.key == Ascii("ResyncRequest") then
      (var ms :- AsObj(t.value); var from :- IntAt(ms, Ascii("from_epoch")); Some(ResyncRequest(from)))
    else if t.key == Ascii("OutboxAck") then
      (var ms :- AsObj(t.value); var through :- IntAt(ms, Ascii("through_epoch")); Some(OutboxAck(through)))
    else None
  }

  /** Every integer is a 64-bit one and every key a valid path, as the message types make them. */
  predicate Proper(m: IpcMessage) {
    match m
    case SnapshotMsg(s) => SnapshotFits(s)
    case DeltaMsg(d) => DeltaFits(d)
    case CrdtSyncMsg(s) => SyncFits(s)
    case ResyncRequest(from) => Fits(from)
    case OutboxAck(through) => Fits(through)
  }

  /** Every message comes back from its tree, and the tree is one the writers can carry. */
  lemma MessageBack(m: IpcMessage)
    requires Proper(m)
    ensures FromJson(ToJson(m)) == Some(m) && Exact(ToJson(m))
  {
    hide Ascii, SnapshotToJson, JsonToSnapshot, DeltaToJson, JsonToDelta, SyncToJson, JsonToSync, OneInt, IntAt;
    NamesDiffer("Snapshot", "CrdtSync", 0);
    match m
    case SnapshotMsg(s) => SnapshotBack(s);
    case DeltaMsg(d) => DeltaBack(d);
    case CrdtSyncMsg(s) => SyncBack(s);
    case ResyncRequest(from) => OneIntBack(Ascii("from_epoch"), from);
    case OutboxAck(through) => OneIntBack(Ascii("through_epoch"), through);
  }
}
