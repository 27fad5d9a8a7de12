/** The bytes of every private frame, spelled out: keys, kinds, order and counts, in both forms. */
module PrivateBytes {
  import opened Options
  import opened Bytes
  import opened Json
  import opened MsgPack
  import opened Ipc
  import opened Framing
  import opened PrivateMaps
  import opened PrivateRows

  // ── Spelling ──

  function I(i: int): Text {
    if I64_MIN <= i <= I64_MAX then PackedInt(i) else []
  }

  function Run(parts: seq<Text>): Text {
    if parts == [] then [] else parts[0] + Run(parts[1..])
  }

  /** A short array. */
  function RowOf(cells: seq<Text>): Text
    requires |cells| < 16
  {
    [(0x90 + |cells|) as byte] + Run(cells)
  }

  function FieldsOf(fields: seq<(string, Text)>): Text {
    if fields == [] then []
    else [((0xa0 + |fields[0].0|) % 256) as byte] + Ascii(fields[0].0) + fields[0].1 + FieldsOf(fields[1..])
  }

  /** A short map with short keys. */
  function MapOf(fields: seq<(string, Text)>): Text
    requires |fields| < 16
  {
    [(0x80 + |fields|) as byte] + FieldsOf(fields)
  }

  function Spelt<A>(xs: seq<A>, spell: A -> Text): (r: seq<Text>)
    ensures |r| == |xs| && forall i :: 0 <= i < |xs| ==> r[i] == spell(xs[i])
  {
    seq(|xs|, i requires 0 <= i < |xs| => spell(xs[i]))
  }

  /** An array of any length. */
  function Listed<A>(xs: seq<A>, spell: A -> Text): Text {
    ArrayHeader(|xs|) + Run(Spelt(xs, spell))
  }

  // ── What is laid out ──

  ghost predicate AllFit(ws: seq<Wire>) {
    forall k :: 0 <= k < |ws| ==> Fit(ws[k])
  }

  lemma {:induction false} ItemsRun(ws: seq<Wire>, parts: seq<Text>)
    requires AllFit(ws) && |ws| == |parts| && forall k :: 0 <= k < |ws| ==> Laid(ws[k]) == parts[k]
    ensures LaidItems(ws) == Run(parts)
    decreases |ws|
  {
    hide Laid;
    if ws != [] { ItemsRun(ws[1..], parts[1..]); }
  }

  lemma ShortHeads(n: nat)
    requires n < 16
    ensures ArrayHeader(n) == [(0x90 + n) as byte] && MapHeader(n) == [(0x80 + n) as byte]
  {
  }

  lemma RowSpelled(w: Wire, cells: seq<Text>)
    requires (w.Row? || w.List?) && Fit(w) && |w.items| == |cells| < 16
    requires forall k :: 0 <= k < |cells| ==> Laid(w.items[k]) == cells[k]
    ensures Laid(w) == RowOf(cells)
  {
    hide Run, LaidItems, ArrayHeader;
    ShortHeads(|cells|);
    ItemsRun(w.items, cells);
  }

  lemma {:induction false} PairsRun(ps: seq<Pair>, fields: seq<(string, Text)>)
    requires |ps| == |fields|
    requires forall k :: 0 <= k < |ps| ==> |ps[k].key| < U32 && Fit(ps[k].value)
    requires forall k :: 0 <= k < |ps| ==>
               |fields[k].0| < 32 && ps[k].key == Ascii(fields[k].0) && Laid(ps[k].value) == fields[k].1
    ensures LaidPairs(ps) == FieldsOf(fields)
    decreases |ps|
  {
    hide Laid, Ascii;
    if ps != [] {
      PairsRun(ps[1..], fields[1..]);
      var name, value, rest := Ascii(fields[0].0), fields[0].1, FieldsOf(fields[1..]);
      Shape(fields[0].0);
      var head := (0xa0 + |fields[0].0|) as byte;
      assert [head] + name + (value + rest) == [head] + name + value + rest;
    }
  }

  lemma Shape(name: string)
    requires |name| < 32
    ensures PackedStr(Ascii(name)) == [(0xa0 + |name|) as byte] + Ascii(name)
  {
  }

  lemma MapSpelled(w: Wire, fields: seq<(string, Text)>)
    requires w.Map? && Fit(w) && |w.pairs| == |fields| < 16
    requires forall k :: 0 <= k < |fields| ==>
               |fields[k].0| < 32 && w.pairs[k].key == Ascii(fields[k].0) && Laid(w.pairs[k].value) == fields[k].1
    ensures Laid(w) == MapOf(fields)
  {
    hide FieldsOf, Ascii, LaidPairs, MapHeader;
    ShortHeads(|fields|);
    PairsRun(w.pairs, fields);
  }

  lemma ListSpelled<A>(xs: seq<A>, enc: A -> Wire, spell: A -> Text)
    requires Fit(List(Each(xs, enc))) && forall k :: 0 <= k < |xs| ==> Laid(enc(xs[k])) == spell(xs[k])
    ensures Laid(List(Each(xs, enc))) == Listed(xs, spell)
  {
    hide Run;
    ItemsRun(Each(xs, enc), Spelt(xs, spell));
  }

  lemma Leaf(i: int, t: Text)
    ensures Fit(Num(i)) ==> Laid(Num(i)) == I(i)
    ensures Fit(Name(t)) ==> Laid(Name(t)) == PackedStr(t)
    ensures Fit(Bin(t)) ==> Laid(Bin(t)) == PackedBin(t)
    ensures Laid(Nil) == [0xc0]
  {
  }

  // ── Leaves ──

  function KeyBytes(key: Option<Text>): Text {
    if key.None? then [0xc0] else PackedStr(key.val)
  }

  function BackendBytes(b: Backend): Text {
    match b
    case Shm => PackedStr(Ascii("shm"))
    case Arrow => PackedStr(Ascii("arrow"))
    case InProcess => PackedStr(Ascii("in_process"))
  }

  lemma KeySpelled(key: Option<Text>)
    requires Fit(KeyWire(key))
    ensures Laid(KeyWire(key)) == KeyBytes(key)
  {
    hide PackedStr;
  }

  lemma BackendSpelled(b: Backend)
    requires Fit(Name(BackendName(b)))
    ensures Laid(Name(BackendName(b))) == BackendBytes(b)
  {
    hide PackedStr, Ascii;
  }

  // ── The keyed form ──

  function BlobKeyed(r: BlobRef): Text {
    MapOf([("offset", I(r.offset)), ("len", I(r.len)), ("generation", I(r.generation)), ("epoch", I(r.epoch)),
           ("checksum", I(r.checksum)), ("backend", BackendBytes(r.backend))])
  }

  function StampKeyed(t: WireStamp): Text {
    MapOf([("wall_time", I(t.wallTime)), ("logical", I(t.logical)), ("peer", I(t.peer))])
  }

  function StateKeyed(st: NodeState): Text {
    match st
    case Payload(b) => MapOf([("kind", I(0)), ("bytes", PackedBin(b))])
    case SharedBlob(r) => MapOf([("kind", I(1)), ("blob", BlobKeyed(r))])
    case Opaque => MapOf([("kind", I(2))])
  }

  function ValueKeyed(v: IpcValue): Text {
    match v
    case InlineValue(b) => MapOf([("kind", I(0)), ("bytes", PackedBin(b))])
    case BlobValue(r) => MapOf([("kind", I(1)), ("blob", BlobKeyed(r))])
  }

  function NodeKeyed(n: NodeSnapshot): Text {
    MapOf([("node", I(n.node)), ("type_tag", PackedStr(n.typeTag)), ("state", StateKeyed(n.state)),
           ("key", KeyBytes(n.key))])
  }

  function EdgeKeyed(e: EdgeSnapshot): Text {
    MapOf([("dependent", I(e.dependent)), ("dependency", I(e.dependency))])
  }

  function SnapshotKeyed(sn: Snapshot): Text {
    MapOf([("epoch", I(sn.epoch)), ("nodes", Listed(sn.nodes, NodeKeyed)), ("edges", Listed(sn.edges, EdgeKeyed)),
           ("roots", Listed(sn.roots, I))])
  }

  function OpKeyed(op: DeltaOp): Text {
    match op
    case CellSet(node, payload) => MapOf([("op", I(0)), ("node", I(node)), ("payload", ValueKeyed(payload))])
    case SlotValue(node, payload) => MapOf([("op", I(1)), ("node", I(node)), ("payload", ValueKeyed(payload))])
    case Invalidate(node) => MapOf([("op", I(2)), ("node", I(node))])
    case NodeAdd(node, typeTag, state, key) =>
      MapOf([("op", I(3)), ("node", I(node)), ("type_tag", PackedStr(typeTag)), ("state", StateKeyed(state)),
             ("key", KeyBytes(key))])
    case NodeRemove(node) => MapOf([("op", I(4)), ("node", I(node))])
    case EdgeAdd(dependent, dependency) =>
      MapOf([("op", I(5)), ("dependent", I(dependent)), ("dependency", I(dependency))])
    case EdgeRemove(dependent, dependency) =>
      MapOf([("op", I(6)), ("dependent", I(dependent)), ("dependency", I(dependency))])
    case QueuePush(node, payload) => MapOf([("op", I(7)), ("node", I(node)), ("payload", ValueKeyed(payload))])
    case QueuePop(node) => MapOf([("op", I(8)), ("node", I(node))])
    case QueueClose(node) => MapOf([("op", I(9)), ("node", I(node))])
  }

  function DeltaKeyed(d: Delta): Text {
    MapOf([("base_epoch", I(d.baseEpoch)), ("epoch", I(d.epoch)), ("ops", Listed(d.ops, OpKeyed))])
  }

  function EntryKeyed(e: FrontierEntry): Text {
    RowOf([I(e.peer), StampKeyed(e.stamp)])
  }

  function CrdtOpKeyed(o: CrdtOp): Text {
    MapOf([("node", I(o.node)), ("key", KeyBytes(o.key)), ("stamp", StampKeyed(o.stamp)),
           ("state", ValueKeyed(o.state))])
  }

  function SyncKeyed(c: CrdtSync): Text {
    MapOf([("frontier", Listed(c.frontier, EntryKeyed)), ("ops", Listed(c.ops, CrdtOpKeyed))])
  }

  function MessageKeyed(m: IpcMessage): Text {
    match m
    case SnapshotMsg(sn) => MapOf([("type", I(0)), ("value", SnapshotKeyed(sn))])
    case DeltaMsg(d) => MapOf([("type", I(1)), ("value", DeltaKeyed(d))])
    case CrdtSyncMsg(c) => MapOf([("type", I(2)), ("value", SyncKeyed(c))])
    case ResyncRequest(from) => MapOf([("type", I(3)), ("value", MapOf([("from_epoch", I(from))]))])
    case OutboxAck(through) => MapOf([("type", I(4)), ("value", MapOf([("through_epoch", I(through))]))])
  }

  lemma BlobIsKeyed(r: BlobRef)
    requires Fit(BlobMap(r))
    ensures Laid(BlobMap(r)) == BlobKeyed(r)
  {
    hide Laid, Ascii, MapOf, I, PackedStr;
    var w := BlobMap(r);
    assert forall k :: 0 <= k < 6 ==> Fit(w.pairs[k].value);
    Leaf(r.offset, []);
    Leaf(r.len, []);
    Leaf(r.generation, []);
    Leaf(r.epoch, []);
    Leaf(r.checksum, []);
    BackendSpelled(r.backend);
    MapSpelled(w, [("offset", I(r.offset)), ("len", I(r.len)), ("generation", I(r.generation)), ("epoch", I(r.epoch)),
                   ("checksum", I(r.checksum)), ("backend", BackendBytes(r.backend))]);
  }

  lemma StampIsKeyed(t: WireStamp)
    requires Fit(StampMap(t))
    ensures Laid(StampMap(t)) == StampKeyed(t)
  {
    hide Laid, Ascii, MapOf, I;
    var w := StampMap(t);
    assert forall k :: 0 <= k < 3 ==> Fit(w.pairs[k].value);
    Leaf(t.wallTime, []);
    Leaf(t.logical, []);
    Leaf(t.peer, []);
    MapSpelled(w, [("wall_time", I(t.wallTime)), ("logical", I(t.logical)), ("peer", I(t.peer))]);
  }

  lemma BodiesAreKeyed(b: Text, r: BlobRef)
    ensures Fit(BytesMap(b)) ==> Laid(BytesMap(b)) == MapOf([("kind", I(0)), ("bytes", PackedBin(b))])
    ensures Fit(SharedMap(r)) ==> Laid(SharedMap(r)) == MapOf([("kind", I(1)), ("blob", BlobKeyed(r))])
  {
    hide Laid, Ascii, MapOf, I, PackedBin, BlobMap, BlobKeyed;
    Leaf(0, b);
    Leaf(1, []);
    if Fit(BytesMap(b)) {
      assert forall k :: 0 <= k < 2 ==> Fit(BytesMap(b).pairs[k].value);
      MapSpelled(BytesMap(b), [("kind", I(0)), ("bytes", PackedBin(b))]);
    }
    if Fit(SharedMap(r)) {
      assert Fit(SharedMap(r).pairs[0].value) && Fit(SharedMap(r).pairs[1].value);
      BlobIsKeyed(r);
      MapSpelled(SharedMap(r), [("kind", I(1)), ("blob", BlobKeyed(r))]);
    }
  }

  lemma StateIsKeyed(st: NodeState)
    requires Fit(StateMap(st))
    ensures Laid(StateMap(st)) == StateKeyed(st)
  {
    hide Laid, Ascii, MapOf, I, BytesMap, SharedMap;
    match st
    case Payload(b) => BodiesAreKeyed(b, NO_BLOB);
    case SharedBlob(r) => BodiesAreKeyed([], r);
    case Opaque =>
      Leaf(2, []);
      assert Fit(StateMap(st).pairs[0].value);
      MapSpelled(StateMap(st), [("kind", I(2))]);
  }

  lemma ValueIsKeyed(v: IpcValue)
    requires Fit(ValueMap(v))
    ensures Laid(ValueMap(v)) == ValueKeyed(v)
  {
    hide Laid, Ascii, MapOf, I, BytesMap, SharedMap;
    match v
    case InlineValue(b) => BodiesAreKeyed(b, NO_BLOB);
    case BlobValue(r) => BodiesAreKeyed([], r);
  }

  lemma NodeIsKeyed(n: NodeSnapshot)
    requires Fit(NodeMap(n))
    ensures Laid(NodeMap(n)) == NodeKeyed(n)
  {
    hide Laid, Ascii, MapOf, I, PackedStr, StateMap, StateKeyed, KeyWire, KeyBytes;
    var w := NodeMap(n);
    assert Fit(w.pairs[0].value) && Fit(w.pairs[1].value) && Fit(w.pairs[2].value) && Fit(w.pairs[3].value);
    Leaf(n.node, n.typeTag);
    StateIsKeyed(n.state);
    KeySpelled(n.key);
    MapSpelled(w, [("node", I(n.node)), ("type_tag", PackedStr(n.typeTag)), ("state", StateKeyed(n.state)),
                   ("key", KeyBytes(n.key))]);
  }

  lemma EdgeIsKeyed(e: EdgeSnapshot)
    requires Fit(EdgeMap(e))
    ensures Laid(EdgeMap(e)) == EdgeKeyed(e)
  {
    hide Laid, Ascii, MapOf, I;
    var w := EdgeMap(e);
    assert forall k :: 0 <= k < 2 ==> Fit(w.pairs[k].value);
    Leaf(e.dependent, []);
    Leaf(e.dependency, []);
    MapSpelled(w, [("dependent", I(e.dependent)), ("dependency", I(e.dependency))]);
  }

  /** A list all of whose items are spelled as told. */
  lemma NodesAreKeyed(ns: seq<NodeSnapshot>)
    requires Fit(List(Each(ns, NodeMap)))
    ensures Laid(List(Each(ns, NodeMap))) == Listed(ns, NodeKeyed)
  {
    hide Laid, Listed, NodeMap, NodeKeyed;
    forall k | 0 <= k < |ns| ensures Laid(NodeMap(ns[k])) == NodeKeyed(ns[k]) {
      assert Fit(Each(ns, NodeMap)[k]);
      NodeIsKeyed(ns[k]);
    }
    ListSpelled(ns, NodeMap, NodeKeyed);
  }

  lemma EdgesAreKeyed(es: seq<EdgeSnapshot>)
    requires Fit(List(Each(es, EdgeMap)))
    ensures Laid(List(Each(es, EdgeMap))) == Listed(es, EdgeKeyed)
  {
    hide Laid, Listed, EdgeMap, EdgeKeyed;
    forall k | 0 <= k < |es| ensures Laid(EdgeMap(es[k])) == EdgeKeyed(es[k]) {
      assert Fit(Each(es, EdgeMap)[k]);
      EdgeIsKeyed(es[k]);
    }
    ListSpelled(es, EdgeMap, EdgeKeyed);
  }

  lemma IntsAreSpelled(roots: seq<int>)
    requires Fit(List(Each(roots, IntWire)))
    ensures Laid(List(Each(roots, IntWire))) == Listed(roots, I)
  {
    hide Laid, Listed, I;
    forall k | 0 <= k < |roots| ensures Laid(IntWire(roots[k])) == I(roots[k]) {
      assert Fit(Each(roots, IntWire)[k]);
      Leaf(roots[k], []);
    }
    ListSpelled(roots, IntWire, I);
  }

  lemma SnapshotIsKeyed(sn: Snapshot)
    requires Fit(SnapshotMap(sn))
    ensures Laid(SnapshotMap(sn)) == SnapshotKeyed(sn)
  {
    hide Laid, Ascii, MapOf, I, Listed, NodeMap, NodeKeyed, EdgeMap, EdgeKeyed, Each;
    var w := SnapshotMap(sn);
    assert Fit(w.pairs[0].value) && Fit(w.pairs[1].value) && Fit(w.pairs[2].value) && Fit(w.pairs[3].value);
    Leaf(sn.epoch, []);
    NodesAreKeyed(sn.nodes);
    EdgesAreKeyed(sn.edges);
    IntsAreSpelled(sn.roots);
    MapSpelled(w, [("epoch", I(sn.epoch)), ("nodes", Listed(sn.nodes, NodeKeyed)),
                   ("edges", Listed(sn.edges, EdgeKeyed)), ("roots", Listed(sn.roots, I))]);
  }

  lemma NodeOpIsKeyed(kind: int, node: int)
    requires Fit(NodeOpMap(kind, node))
    ensures Laid(NodeOpMap(kind, node)) == MapOf([("op", I(kind)), ("node", I(node))])
  {
    hide Laid, Ascii, MapOf, I;
    var w := NodeOpMap(kind, node);
    assert Fit(w.pairs[0].value) && Fit(w.pairs[1].value);
    Leaf(kind, []);
    Leaf(node, []);
    MapSpelled(w, [("op", I(kind)), ("node", I(node))]);
  }

  lemma PayloadOpIsKeyed(kind: int, node: int, payload: IpcValue)
    requires Fit(PayloadOpMap(kind, node, payload))
    ensures Laid(PayloadOpMap(kind, node, payload))
         == MapOf([("op", I(kind)), ("node", I(node)), ("payload", ValueKeyed(payload))])
  {
    hide Laid, Ascii, MapOf, I, ValueMap, ValueKeyed;
    var w := PayloadOpMap(kind, node, payload);
    assert Fit(w.pairs[0].value) && Fit(w.pairs[1].value) && Fit(w.pairs[2].value);
    Leaf(kind, []);
    Leaf(node, []);
    ValueIsKeyed(payload);
    MapSpelled(w, [("op", I(kind)), ("node", I(node)), ("payload", ValueKeyed(payload))]);
  }

  lemma EdgeOpIsKeyed(kind: int, dependent: int, dependency: int)
    requires Fit(EdgeOpMap(kind, dependent, dependency))
    ensures Laid(EdgeOpMap(kind, dependent, dependency))
         == MapOf([("op", I(kind)), ("dependent", I(dependent)), ("dependency", I(dependency))])
  {
    hide Laid, Ascii, MapOf, I;
    var w := EdgeOpMap(kind, dependent, dependency);
    assert Fit(w.pairs[0].value) && Fit(w.pairs[1].value) && Fit(w.pairs[2].value);
    Leaf(kind, []);
    Leaf(dependent, []);
    Leaf(dependency, []);
    MapSpelled(w, [("op", I(kind)), ("dependent", I(dependent)), ("dependency", I(dependency))]);
  }

  lemma AddOpIsKeyed(kind: int, node: int, typeTag: Text, state: NodeState, key: Option<Text>)
    requires Fit(AddOpMap(kind, node, typeTag, state, key))
    ensures Laid(AddOpMap(kind, node, typeTag, state, key))
         == MapOf([("op", I(kind)), ("node", I(node)), ("type_tag", PackedStr(typeTag)), ("state", StateKeyed(state)),
                   ("key", KeyBytes(key))])
  {
    hide Laid, Ascii, MapOf, I, PackedStr, StateMap, StateKeyed, KeyWire, KeyBytes;
    var w := AddOpMap(kind, node, typeTag, state, key);
    assert Fit(w.pairs[0].value) && Fit(w.pairs[1].value) && Fit(w.pairs[2].value);
    assert Fit(w.pairs[3].value) && Fit(w.pairs[4].value);
    Leaf(kind, []);
    Leaf(node, typeTag);
    StateIsKeyed(state);
    KeySpelled(key);
    MapSpelled(w, [("op", I(kind)), ("node", I(node)), ("type_tag", PackedStr(typeTag)), ("state", StateKeyed(state)),
                   ("key", KeyBytes(key))]);
  }

  lemma OpIsKeyed(op: DeltaOp)
    requires Fit(OpMap(op))
    ensures Laid(OpMap(op)) == OpKeyed(op)
  {
    hide Laid, Ascii, MapOf, I, PackedStr, NodeOpMap, PayloadOpMap, EdgeOpMap, AddOpMap, ValueKeyed, StateKeyed,
        KeyBytes;
    match op
    case CellSet(node, payload) => PayloadOpIsKeyed(0, node, payload);
    case SlotValue(node, payload) => PayloadOpIsKeyed(1, node, payload);
    case Invalidate(node) => NodeOpIsKeyed(2, node);
    case NodeAdd(node, typeTag, state, key) => AddOpIsKeyed(3, node, typeTag, state, key);
    case NodeRemove(node) => NodeOpIsKeyed(4, node);
    case EdgeAdd(dependent, dependency) => EdgeOpIsKeyed(5, dependent, dependency);
    case EdgeRemove(dependent, dependency) => EdgeOpIsKeyed(6, dependent, dependency);
    case QueuePush(node, payload) => PayloadOpIsKeyed(7, node, payload);
    case QueuePop(node) => NodeOpIsKeyed(8, node);
    case QueueClose(node) => NodeOpIsKeyed(9, node);
  }

  lemma OpsAreKeyed(ops: seq<DeltaOp>)
    requires Fit(List(Each(ops, OpMap)))
    ensures Laid(List(Each(ops, OpMap))) == Listed(ops, OpKeyed)
  {
    hide Laid, Listed, OpMap, OpKeyed;
    forall k | 0 <= k < |ops| ensures Laid(OpMap(ops[k])) == OpKeyed(ops[k]) {
      assert Fit(Each(ops, OpMap)[k]);
      OpIsKeyed(ops[k]);
    }
    ListSpelled(ops, OpMap, OpKeyed);
  }

  lemma DeltaIsKeyed(d: Delta)
    requires Fit(DeltaMap(d))
    ensures Laid(DeltaMap(d)) == DeltaKeyed(d)
  {
    hide Laid, Ascii, MapOf, I, Listed, OpMap, OpKeyed, Each;
    var w := DeltaMap(d);
    assert Fit(w.pairs[0].value) && Fit(w.pairs[1].value) && Fit(w.pairs[2].value);
    Leaf(d.baseEpoch, []);
    Leaf(d.epoch, []);
    OpsAreKeyed(d.ops);
    MapSpelled(w, [("base_epoch", I(d.baseEpoch)), ("epoch", I(d.epoch)), ("ops", Listed(d.ops, OpKeyed))]);
  }

  lemma EntriesAreKeyed(es: seq<FrontierEntry>)
    requires Fit(List(Each(es, EntryList)))
    ensures Laid(List(Each(es, EntryList))) == Listed(es, EntryKeyed)
  {
    hide Laid, Listed, StampMap, StampKeyed, RowOf, I;
    forall k | 0 <= k < |es| ensures Laid(EntryList(es[k])) == EntryKeyed(es[k]) {
      var w := EntryList(es[k]);
      assert Fit(Each(es, EntryList)[k]);
      assert Fit(w.items[0]) && Fit(w.items[1]);
      Leaf(es[k].peer, []);
      StampIsKeyed(es[k].stamp);
      RowSpelled(w, [I(es[k].peer), StampKeyed(es[k].stamp)]);
    }
    ListSpelled(es, EntryList, EntryKeyed);
  }

  lemma CrdtOpIsKeyed(o: CrdtOp)
    requires Fit(CrdtOpMap(o))
    ensures Laid(CrdtOpMap(o)) == CrdtOpKeyed(o)
  {
    hide Laid, Ascii, MapOf, I, KeyWire, KeyBytes, StampMap, StampKeyed, ValueMap, ValueKeyed;
    var w := CrdtOpMap(o);
    assert Fit(w.pairs[0].value) && Fit(w.pairs[1].value) && Fit(w.pairs[2].value) && Fit(w.pairs[3].value);
    Leaf(o.node, []);
    KeySpelled(o.key);
    StampIsKeyed(o.stamp);
    ValueIsKeyed(o.state);
    MapSpelled(w, [("node", I(o.node)), ("key", KeyBytes(o.key)), ("stamp", StampKeyed(o.stamp)),
                   ("state", ValueKeyed(o.state))]);
  }

  lemma CrdtOpsAreKeyed(ops: seq<CrdtOp>)
    requires Fit(List(Each(ops, CrdtOpMap)))
    ensures Laid(List(Each(ops, CrdtOpMap))) == Listed(ops, CrdtOpKeyed)
  {
    hide Laid, Listed, CrdtOpMap, CrdtOpKeyed;
    forall k | 0 <= k < |ops| ensures Laid(CrdtOpMap(ops[k])) == CrdtOpKeyed(ops[k]) {
      assert Fit(Each(ops, CrdtOpMap)[k]);
      CrdtOpIsKeyed(ops[k]);
    }
    ListSpelled(ops, CrdtOpMap, CrdtOpKeyed);
  }

  lemma SyncIsKeyed(c: CrdtSync)
    requires Fit(SyncMap(c))
    ensures Laid(SyncMap(c)) == SyncKeyed(c)
  {
    hide Laid, Ascii, MapOf, Listed, EntryList, EntryKeyed, CrdtOpMap, CrdtOpKeyed, Each;
    var w := SyncMap(c);
    assert Fit(w.pairs[0].value) && Fit(w.pairs[1].value);
    EntriesAreKeyed(c.frontier);
    CrdtOpsAreKeyed(c.ops);
    MapSpelled(w, [("frontier", Listed(c.frontier, EntryKeyed)), ("ops", Listed(c.ops, CrdtOpKeyed))]);
  }

  lemma EpochIsKeyed(w: Wire, name: string, epoch: int)
    requires w.Map? && w.pairs == [Pair(Ascii(name), Num(epoch))] && Fit(w) && |name| < 32
    ensures Laid(w) == MapOf([(name, I(epoch))])
  {
    hide Laid, Ascii, MapOf, I;
    assert Fit(w.pairs[0].value);
    Leaf(epoch, []);
    MapSpelled(w, [(name, I(epoch))]);
  }

  lemma Wrapped(m: IpcMessage, content: Text)
    requires Fit(MessageMap(m)) && (Fit(ContentMap(m)) ==> Laid(ContentMap(m)) == content)
    ensures Laid(MessageMap(m)) == MapOf([("type", I(TypeOf(m))), ("value", content)])
  {
    hide Laid, Ascii, MapOf, I, ContentMap;
    var w := MessageMap(m);
    assert Fit(w.pairs[0].value) && Fit(w.pairs[1].value);
    Leaf(TypeOf(m), []);
    MapSpelled(w, [("type", I(TypeOf(m))), ("value", content)]);
  }

  lemma ContentFits(m: IpcMessage)
    requires Fit(MessageMap(m))
    ensures Fit(ContentMap(m))
  {
    assert Fit(MessageMap(m).pairs[1].value);
  }

  /** A keyed frame is the bytes spelled out. */
  lemma KeyedSpelled(m: IpcMessage)
    requires Fit(MessageMap(m))
    ensures Laid(MessageMap(m)) == MessageKeyed(m)
  {
    hide Laid, Ascii, MapOf, I, Fit, MessageMap, SnapshotMap, SnapshotKeyed, DeltaMap, DeltaKeyed, SyncMap, SyncKeyed;
    ContentFits(m);
    match m
    case SnapshotMsg(sn) => SnapshotIsKeyed(sn); Wrapped(m, SnapshotKeyed(sn));
    case DeltaMsg(d) => DeltaIsKeyed(d); Wrapped(m, DeltaKeyed(d));
    case CrdtSyncMsg(c) => SyncIsKeyed(c); Wrapped(m, SyncKeyed(c));
    case ResyncRequest(from) =>
      EpochIsKeyed(ContentMap(m), "from_epoch", from);
      Wrapped(m, MapOf([("from_epoch", I(from))]));
    case OutboxAck(through) =>
      EpochIsKeyed(ContentMap(m), "through_epoch", through);
      Wrapped(m, MapOf([("through_epoch", I(through))]));
  }

  // ── The positional form ──

  function BlobPlaced(r: BlobRef): Text {
    RowOf([I(1), I(r.offset), I(r.len), I(r.generation), I(r.epoch), I(r.checksum), BackendBytes(r.backend)])
  }

  function StampPlaced(t: WireStamp): Text {
    RowOf([I(1), I(t.wallTime), I(t.logical), I(t.peer)])
  }

  function StatePlaced(st: NodeState): Text {
    match st
    case Payload(b) => RowOf([I(1), I(0), PackedBin(b)])
    case SharedBlob(r) => RowOf([I(1), I(1), BlobPlaced(r)])
    case Opaque => RowOf([I(1), I(2), [0xc0]])
  }

  function ValuePlaced(v: IpcValue): Text {
    match v
    case InlineValue(b) => RowOf([I(1), I(0), PackedBin(b)])
    case BlobValue(r) => RowOf([I(1), I(1), BlobPlaced(r)])
  }

  function NodePlaced(n: NodeSnapshot): Text {
    RowOf([I(1), I(n.node), PackedStr(n.typeTag), StatePlaced(n.state), KeyBytes(n.key)])
  }

  function EdgePlaced(e: EdgeSnapshot): Text {
    RowOf([I(1), I(e.dependent), I(e.dependency)])
  }

  function SnapshotPlaced(sn: Snapshot): Text {
    RowOf([I(1), I(sn.epoch), Listed(sn.nodes, NodePlaced), Listed(sn.edges, EdgePlaced), Listed(sn.roots, I)])
  }

  function OpPlaced(op: DeltaOp): Text {
    match op
    case CellSet(node, payload) => RowOf([I(0), RowOf([I(node), ValuePlaced(payload)])])
    case SlotValue(node, payload) => RowOf([I(1), RowOf([I(node), ValuePlaced(payload)])])
    case Invalidate(node) => RowOf([I(2), RowOf([I(node)])])
    case NodeAdd(node, typeTag, state, key) =>
      RowOf([I(3), RowOf([I(node), PackedStr(typeTag), StatePlaced(state), KeyBytes(key)])])
    case NodeRemove(node) => RowOf([I(4), RowOf([I(node)])])
    case EdgeAdd(dependent, dependency) => RowOf([I(5), RowOf([I(dependent), I(dependency)])])
    case EdgeRemove(dependent, dependency) => RowOf([I(6), RowOf([I(dependent), I(dependency)])])
    case QueuePush(node, payload) => RowOf([I(7), RowOf([I(node), ValuePlaced(payload)])])
    case QueuePop(node) => RowOf([I(8), RowOf([I(node)])])
    case QueueClose(node) => RowOf([I(9), RowOf([I(node)])])
  }

  function DeltaPlaced(d: Delta): Text {
    RowOf([I(1), I(d.baseEpoch), I(d.epoch), Listed(d.ops, OpPlaced)])
  }

  function EntryPlaced(e: FrontierEntry): Text {
    RowOf([I(1), I(e.peer), StampPlaced(e.stamp)])
  }

  function CrdtOpPlaced(o: CrdtOp): Text {
    RowOf([I(1), I(o.node), KeyBytes(o.key), StampPlaced(o.stamp), ValuePlaced(o.state)])
  }

  function SyncPlaced(c: CrdtSync): Text {
    RowOf([I(1), Listed(c.frontier, EntryPlaced), Listed(c.ops, CrdtOpPlaced)])
  }

  function MessagePlaced(m: IpcMessage): Text {
    match m
    case SnapshotMsg(sn) => RowOf([I(1), I(0), SnapshotPlaced(sn)])
    case DeltaMsg(d) => RowOf([I(1), I(1), DeltaPlaced(d)])
    case CrdtSyncMsg(c) => RowOf([I(1), I(2), SyncPlaced(c)])
    case ResyncRequest(from) => RowOf([I(1), I(3), RowOf([I(1), I(from)])])
    case OutboxAck(through) => RowOf([I(1), I(4), RowOf([I(1), I(through)])])
  }

  lemma BlobIsPlaced(r: BlobRef)
    requires Fit(BlobRow(r))
    ensures Laid(BlobRow(r)) == BlobPlaced(r)
  {
    hide Laid, RowOf, I, BackendName, BackendBytes;
    var w := BlobRow(r);
    assert forall k :: 0 <= k < 7 ==> Fit(w.items[k]);
    Leaf(1, []);
    Leaf(r.offset, []);
    Leaf(r.len, []);
    Leaf(r.generation, []);
    Leaf(r.epoch, []);
    Leaf(r.checksum, []);
    assert Fit(w.items[6]);
    BackendSpelled(r.backend);
    RowSpelled(w, [I(1), I(r.offset), I(r.len), I(r.generation), I(r.epoch), I(r.checksum), BackendBytes(r.backend)]);
  }

  lemma StampIsPlaced(t: WireStamp)
    requires Fit(StampRow(t))
    ensures Laid(StampRow(t)) == StampPlaced(t)
  {
    hide Laid, RowOf, I;
    var w := StampRow(t);
    assert forall k :: 0 <= k < 4 ==> Fit(w.items[k]);
    Leaf(1, []);
    Leaf(t.wallTime, []);
    Leaf(t.logical, []);
    Leaf(t.peer, []);
    RowSpelled(w, [I(1), I(t.wallTime), I(t.logical), I(t.peer)]);
  }

  lemma BodyIsPlaced(kind: int, body: Wire, spelt: Text)
    requires Fit(BodyRow(kind, body)) && (Fit(body) ==> Laid(body) == spelt)
    ensures Laid(BodyRow(kind, body)) == RowOf([I(1), I(kind), spelt])
  {
    hide Laid, RowOf, I;
    var w := BodyRow(kind, body);
    assert Fit(w.items[0]) && Fit(w.items[1]) && Fit(w.items[2]);
    Leaf(1, []);
    Leaf(kind, []);
    RowSpelled(w, [I(1), I(kind), spelt]);
  }

  lemma BodyFits(kind: int, body: Wire)
    requires Fit(BodyRow(kind, body))
    ensures Fit(body)
  {
    assert Fit(BodyRow(kind, body).items[2]);
  }

  lemma StateIsPlaced(st: NodeState)
    requires Fit(StateRow(st))
    ensures Laid(StateRow(st)) == StatePlaced(st)
  {
    hide Laid, Fit, RowOf, I, PackedBin, BodyRow, BlobRow, BlobPlaced;
    match st
    case Payload(b) => Leaf(0, b); BodyIsPlaced(0, Bin(b), PackedBin(b));
    case SharedBlob(r) => BodyFits(1, BlobRow(r)); BlobIsPlaced(r); BodyIsPlaced(1, BlobRow(r), BlobPlaced(r));
    case Opaque => Leaf(0, []); BodyIsPlaced(2, Nil, [0xc0]);
  }

  lemma ValueIsPlaced(v: IpcValue)
    requires Fit(ValueRow(v))
    ensures Laid(ValueRow(v)) == ValuePlaced(v)
  {
    hide Laid, Fit, RowOf, I, PackedBin, BodyRow, BlobRow, BlobPlaced;
    match v
    case InlineValue(b) => Leaf(0, b); BodyIsPlaced(0, Bin(b), PackedBin(b));
    case BlobValue(r) => BodyFits(1, BlobRow(r)); BlobIsPlaced(r); BodyIsPlaced(1, BlobRow(r), BlobPlaced(r));
  }

  lemma NodeIsPlaced(n: NodeSnapshot)
    requires Fit(NodeRow(n))
    ensures Laid(NodeRow(n)) == NodePlaced(n)
  {
    hide Laid, RowOf, I, PackedStr, StateRow, StatePlaced, KeyWire, KeyBytes;
    var w := NodeRow(n);
    assert Fit(w.items[0]) && Fit(w.items[1]) && Fit(w.items[2]) && Fit(w.items[3]) && Fit(w.items[4]);
    Leaf(1, []);
    Leaf(n.node, n.typeTag);
    StateIsPlaced(n.state);
    KeySpelled(n.key);
    RowSpelled(w, [I(1), I(n.node), PackedStr(n.typeTag), StatePlaced(n.state), KeyBytes(n.key)]);
  }

  lemma NodesArePlaced(ns: seq<NodeSnapshot>)
    requires Fit(List(Each(ns, NodeRow)))
    ensures Laid(List(Each(ns, NodeRow))) == Listed(ns, NodePlaced)
  {
    hide Laid, Listed, NodeRow, NodePlaced;
    forall k | 0 <= k < |ns| ensures Laid(NodeRow(ns[k])) == NodePlaced(ns[k]) {
      assert Fit(Each(ns, NodeRow)[k]);
      NodeIsPlaced(ns[k]);
    }
    ListSpelled(ns, NodeRow, NodePlaced);
  }

  lemma EdgesArePlaced(es: seq<EdgeSnapshot>)
    requires Fit(List(Each(es, EdgeRow)))
    ensures Laid(List(Each(es, EdgeRow))) == Listed(es, EdgePlaced)
  {
    hide Laid, Listed, RowOf, I;
    forall k | 0 <= k < |es| ensures Laid(EdgeRow(es[k])) == EdgePlaced(es[k]) {
      var w := EdgeRow(es[k]);
      assert Fit(Each(es, EdgeRow)[k]);
      assert Fit(w.items[0]) && Fit(w.items[1]) && Fit(w.items[2]);
      Leaf(1, []);
      Leaf(es[k].dependent, []);
      Leaf(es[k].dependency, []);
      RowSpelled(w, [I(1), I(es[k].dependent), I(es[k].dependency)]);
    }
    ListSpelled(es, EdgeRow, EdgePlaced);
  }

  lemma SnapshotIsPlaced(sn: Snapshot)
    requires Fit(SnapshotRow(sn))
    ensures Laid(SnapshotRow(sn)) == SnapshotPlaced(sn)
  {
    hide Laid, RowOf, I, Listed, NodeRow, NodePlaced, EdgeRow, EdgePlaced, Each;
    var w := SnapshotRow(sn);
    assert Fit(w.items[0]) && Fit(w.items[1]) && Fit(w.items[2]) && Fit(w.items[3]) && Fit(w.items[4]);
    Leaf(1, []);
    Leaf(sn.epoch, []);
    NodesArePlaced(sn.nodes);
    EdgesArePlaced(sn.edges);
    IntsAreSpelled(sn.roots);
    RowSpelled(w, [I(1), I(sn.epoch), Listed(sn.nodes, NodePlaced), Listed(sn.edges, EdgePlaced), Listed(sn.roots, I)]);
  }

  lemma OpRowSpelled(op: DeltaOp, kind: int, cells: seq<Text>)
    requires Fit(OpRow(op)) && DraftOf(op).kind == kind && |OpCells(op)| == |cells| < 16
    requires forall k :: 0 <= k < |cells| && Fit(OpCells(op)[k]) ==> Laid(OpCells(op)[k]) == cells[k]
    ensures Laid(OpRow(op)) == RowOf([I(kind), RowOf(cells)])
  {
    hide Laid, RowOf, I, OpCells, DraftOf;
    var w := OpRow(op);
    assert Fit(w.items[0]) && Fit(w.items[1]);
    Leaf(kind, []);
    RowSpelled(w.items[1], cells);
    RowSpelled(w, [I(kind), RowOf(cells)]);
  }

  lemma CellsFit(op: DeltaOp)
    requires Fit(OpRow(op))
    ensures AllFit(OpCells(op))
  {
    hide OpCells;
    assert Fit(OpRow(op).items[1]);
  }

  lemma NodeOpIsPlaced(op: DeltaOp, kind: int, node: int)
    requires Fit(OpRow(op)) && DraftOf(op).kind == kind && OpCells(op) == [Num(node)]
    ensures Laid(OpRow(op)) == RowOf([I(kind), RowOf([I(node)])])
  {
    hide Laid, RowOf, I, OpRow, OpCells, DraftOf;
    CellsFit(op);
    assert Fit(OpCells(op)[0]);
    Leaf(node, []);
    OpRowSpelled(op, kind, [I(node)]);
  }

  lemma PayloadOpIsPlaced(op: DeltaOp, kind: int, node: int, payload: IpcValue)
    requires Fit(OpRow(op)) && DraftOf(op).kind == kind && OpCells(op) == [Num(node), ValueRow(payload)]
    ensures Laid(OpRow(op)) == RowOf([I(kind), RowOf([I(node), ValuePlaced(payload)])])
  {
    hide Laid, RowOf, I, OpRow, OpCells, DraftOf, ValueRow, ValuePlaced;
    CellsFit(op);
    assert Fit(OpCells(op)[0]) && Fit(OpCells(op)[1]);
    Leaf(node, []);
    ValueIsPlaced(payload);
    OpRowSpelled(op, kind, [I(node), ValuePlaced(payload)]);
  }

  lemma EdgeOpIsPlaced(op: DeltaOp, kind: int, dependent: int, dependency: int)
    requires Fit(OpRow(op)) && DraftOf(op).kind == kind && OpCells(op) == [Num(dependent), Num(dependency)]
    ensures Laid(OpRow(op)) == RowOf([I(kind), RowOf([I(dependent), I(dependency)])])
  {
    hide Laid, RowOf, I, OpRow, OpCells, DraftOf;
    CellsFit(op);
    assert Fit(OpCells(op)[0]) && Fit(OpCells(op)[1]);
    Leaf(dependent, []);
    Leaf(dependency, []);
    OpRowSpelled(op, kind, [I(dependent), I(dependency)]);
  }

  lemma AddOpIsPlaced(op: DeltaOp)
    requires Fit(OpRow(op)) && op.NodeAdd?
    ensures Laid(OpRow(op)) == OpPlaced(op)
  {
    hide Laid, RowOf, I, OpRow, PackedStr, StateRow, StatePlaced, KeyWire, KeyBytes;
    CellsFit(op);
    var cs := OpCells(op);
    assert Fit(cs[0]) && Fit(cs[1]) && Fit(cs[2]) && Fit(cs[3]);
    Leaf(op.node, op.typeTag);
    StateIsPlaced(op.state);
    KeySpelled(op.key);
    OpRowSpelled(op, 3, [I(op.node), PackedStr(op.typeTag), StatePlaced(op.state), KeyBytes(op.key)]);
  }

  lemma OpIsPlaced(op: DeltaOp)
    requires Fit(OpRow(op))
    ensures Laid(OpRow(op)) == OpPlaced(op)
  {
    hide Laid, Fit, RowOf, I, PackedStr, OpRow, ValueRow, ValuePlaced, StateRow, StatePlaced, KeyWire, KeyBytes;
    match op
    case CellSet(node, payload) => PayloadOpIsPlaced(op, 0, node, payload);
    case SlotValue(node, payload) => PayloadOpIsPlaced(op, 1, node, payload);
    case Invalidate(node) => NodeOpIsPlaced(op, 2, node);
    case NodeAdd(_, _, _, _) => AddOpIsPlaced(op);
    case NodeRemove(node) => NodeOpIsPlaced(op, 4, node);
    case EdgeAdd(dependent, dependency) => EdgeOpIsPlaced(op, 5, dependent, dependency);
    case EdgeRemove(dependent, dependency) => EdgeOpIsPlaced(op, 6, dependent, dependency);
    case QueuePush(node, payload) => PayloadOpIsPlaced(op, 7, node, payload);
    case QueuePop(node) => NodeOpIsPlaced(op, 8, node);
    case QueueClose(node) => NodeOpIsPlaced(op, 9, node);
  }

  lemma OpsArePlaced(ops: seq<DeltaOp>)
    requires Fit(List(Each(ops, OpRow)))
    ensures Laid(List(Each(ops, OpRow))) == Listed(ops, OpPlaced)
  {
    hide Laid, Listed, OpRow, OpPlaced;
    forall k | 0 <= k < |ops| ensures Laid(OpRow(ops[k])) == OpPlaced(ops[k]) {
      assert Fit(Each(ops, OpRow)[k]);
      OpIsPlaced(ops[k]);
    }
    ListSpelled(ops, OpRow, OpPlaced);
  }

  lemma DeltaIsPlaced(d: Delta)
    requires Fit(DeltaRow(d))
    ensures Laid(DeltaRow(d)) == DeltaPlaced(d)
  {
    hide Laid, RowOf, I, Listed, OpRow, OpPlaced, Each;
    var w := DeltaRow(d);
    assert Fit(w.items[0]) && Fit(w.items[1]) && Fit(w.items[2]) && Fit(w.items[3]);
    Leaf(1, []);
    Leaf(d.baseEpoch, []);
    Leaf(d.epoch, []);
    OpsArePlaced(d.ops);
    RowSpelled(w, [I(1), I(d.baseEpoch), I(d.epoch), Listed(d.ops, OpPlaced)]);
  }

  lemma EntriesArePlaced(es: seq<FrontierEntry>)
    requires Fit(List(Each(es, EntryRow)))
    ensures Laid(List(Each(es, EntryRow))) == Listed(es, EntryPlaced)
  {
    hide Laid, Listed, StampRow, StampPlaced, RowOf, I;
    forall k | 0 <= k < |es| ensures Laid(EntryRow(es[k])) == EntryPlaced(es[k]) {
      var w := EntryRow(es[k]);
      assert Fit(Each(es, EntryRow)[k]);
      assert Fit(w.items[0]) && Fit(w.items[1]) && Fit(w.items[2]);
      Leaf(1, []);
      Leaf(es[k].peer, []);
      StampIsPlaced(es[k].stamp);
      RowSpelled(w, [I(1), I(es[k].peer), StampPlaced(es[k].stamp)]);
    }
    ListSpelled(es, EntryRow, EntryPlaced);
  }

  lemma CrdtOpIsPlaced(o: CrdtOp)
    requires Fit(CrdtOpRow(o))
    ensures Laid(CrdtOpRow(o)) == CrdtOpPlaced(o)
  {
    hide Laid, RowOf, I, KeyWire, KeyBytes, StampRow, StampPlaced, ValueRow, ValuePlaced;
    var w := CrdtOpRow(o);
    assert Fit(w.items[0]) && Fit(w.items[1]) && Fit(w.items[2]) && Fit(w.items[3]) && Fit(w.items[4]);
    Leaf(1, []);
    Leaf(o.node, []);
    KeySpelled(o.key);
    StampIsPlaced(o.stamp);
    ValueIsPlaced(o.state);
    RowSpelled(w, [I(1), I(o.node), KeyBytes(o.key), StampPlaced(o.stamp), ValuePlaced(o.state)]);
  }

  lemma CrdtOpsArePlaced(ops: seq<CrdtOp>)
    requires Fit(List(Each(ops, CrdtOpRow)))
    ensures Laid(List(Each(ops, CrdtOpRow))) == Listed(ops, CrdtOpPlaced)
  {
    hide Laid, Listed, CrdtOpRow, CrdtOpPlaced;
    forall k | 0 <= k < |ops| ensures Laid(CrdtOpRow(ops[k])) == CrdtOpPlaced(ops[k]) {
      assert Fit(Each(ops, CrdtOpRow)[k]);
      CrdtOpIsPlaced(ops[k]);
    }
    ListSpelled(ops, CrdtOpRow, CrdtOpPlaced);
  }

  lemma SyncIsPlaced(c: CrdtSync)
    requires Fit(SyncRow(c))
    ensures Laid(SyncRow(c)) == SyncPlaced(c)
  {
    hide Laid, RowOf, I, Listed, EntryRow, EntryPlaced, CrdtOpRow, CrdtOpPlaced, Each;
    var w := SyncRow(c);
    assert Fit(w.items[0]) && Fit(w.items[1]) && Fit(w.items[2]);
    Leaf(1, []);
    EntriesArePlaced(c.frontier);
    CrdtOpsArePlaced(c.ops);
    RowSpelled(w, [I(1), Listed(c.frontier, EntryPlaced), Listed(c.ops, CrdtOpPlaced)]);
  }

  lemma EpochIsPlaced(epoch: int)
    requires Fit(EpochRow(epoch))
    ensures Laid(EpochRow(epoch)) == RowOf([I(1), I(epoch)])
  {
    hide Laid, RowOf, I;
    var w := EpochRow(epoch);
    assert Fit(w.items[0]) && Fit(w.items[1]);
    Leaf(1, []);
    Leaf(epoch, []);
    RowSpelled(w, [I(1), I(epoch)]);
  }

  lemma Seated(m: IpcMessage, content: Text)
    requires Fit(MessageRow(m)) && (Fit(ContentRow(m)) ==> Laid(ContentRow(m)) == content)
    ensures Laid(MessageRow(m)) == RowOf([I(1), I(TypeOf(m)), content])
  {
    hide Laid, RowOf, I, ContentRow;
    var w := MessageRow(m);
    assert Fit(w.items[0]) && Fit(w.items[1]) && Fit(w.items[2]);
    Leaf(1, []);
    Leaf(TypeOf(m), []);
    RowSpelled(w, [I(1), I(TypeOf(m)), content]);
  }

  lemma SeatFits(m: IpcMessage)
    requires Fit(MessageRow(m))
    ensures Fit(ContentRow(m))
  {
    assert Fit(MessageRow(m).items[2]);
  }

  /** A positional frame is the bytes spelled out. */
  lemma PositionalSpelled(m: IpcMessage)
    requires Fit(MessageRow(m))
    ensures Laid(MessageRow(m)) == MessagePlaced(m)
  {
    hide Laid, RowOf, I, Fit, MessageRow, SnapshotRow, SnapshotPlaced, DeltaRow, DeltaPlaced, SyncRow, SyncPlaced,
        EpochRow;
    SeatFits(m);
    match m
    case SnapshotMsg(sn) => SnapshotIsPlaced(sn); Seated(m, SnapshotPlaced(sn));
    case DeltaMsg(d) => DeltaIsPlaced(d); Seated(m, DeltaPlaced(d));
    case CrdtSyncMsg(c) => SyncIsPlaced(c); Seated(m, SyncPlaced(c));
    case ResyncRequest(from) => EpochIsPlaced(from); Seated(m, RowOf([I(1), I(from)]));
    case OutboxAck(through) => EpochIsPlaced(through); Seated(m, RowOf([I(1), I(through)]));
  }
}
