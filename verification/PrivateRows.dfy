/** The private framing's positional form: every record is a row that begins with a schema number, and a
    reader passes over the cells behind those it knows. */
module PrivateRows {
  import opened Options
  import opened Bytes
  import opened Json
  import opened MsgPack
  import opened Ipc
  import opened Framing
  import opened PrivateMaps

  /** Every schema, and the envelope's version, stands at one. */
  const SCHEMA := 1

  function ReadSchema(s: Text): Parse<()> {
    Finish(UnpackInt(s), i => if i == SCHEMA then Some(()) else None)
  }

  lemma SchemaReads()
    ensures Reads(ReadSchema, Num(SCHEMA), ())
  {
    hide UnpackInt, Reads;
    NumReads(SCHEMA);
    FinishReads(ReadSchema, UnpackInt, i => if i == SCHEMA then Some(()) else None, Num(SCHEMA), SCHEMA, ());
  }

  function ReadNil(s: Text): Parse<()> {
    if s == [] || s[0] != 0xc0 then Fail else Done((), s[1..])
  }

  lemma NilReads()
    ensures Reads(ReadNil, Nil, ())
  {
    forall x, rest: Text | Wider(Nil, x) && Fit(x) ensures ReadNil(Laid(x) + rest) == Done((), rest) {
      assert ([0xc0] + rest)[1..] == rest;
    }
  }

  // ── Blob references and stamps ──

  function BlobRow(r: BlobRef): Wire {
    Row([Num(SCHEMA), Num(r.offset), Num(r.len), Num(r.generation), Num(r.epoch), Num(r.checksum),
        Name(BackendName(r.backend))])
  }

  function BlobCell(i: nat, r: BlobRef, s: Text): Parse<BlobRef> {
    match i
    case 0 => Put(ReadSchema(s), _ => r)
    case 1 => Put(UnpackInt(s), v => r.(offset := v))
    case 2 => Put(UnpackInt(s), v => r.(len := v))
    case 3 => Put(UnpackInt(s), v => r.(generation := v))
    case 4 => Put(UnpackInt(s), v => r.(epoch := v))
    case 5 => Put(UnpackInt(s), v => r.(checksum := v))
    case _ => Put(ReadBackend(s), b => r.(backend := b))
  }

  function ReadBlobRow(s: Text): Parse<BlobRef> {
    ReadRow(7, s, NO_BLOB, BlobCell)
  }

  lemma BlobRowReads(r: BlobRef)
    ensures Reads(ReadBlobRow, BlobRow(r), r)
  {
    hide UnpackInt, ReadSchema, ReadBackend, ReadRow, TakesCell, Reads, BackendName;
    var r1 := NO_BLOB.(offset := r.offset);
    var r2 := r1.(len := r.len);
    var r3 := r2.(generation := r.generation);
    var r4 := r3.(epoch := r.epoch);
    var r5 := r4.(checksum := r.checksum);
    SchemaReads(); CellTakes(BlobCell, ReadSchema, (_: ()) => NO_BLOB, NO_BLOB, 0, Num(SCHEMA), ());
    NumReads(r.offset); CellTakes(BlobCell, UnpackInt, (v: int) => NO_BLOB.(offset := v), NO_BLOB, 1, Num(r.offset),
        r.offset);
    NumReads(r.len); CellTakes(BlobCell, UnpackInt, (v: int) => r1.(len := v), r1, 2, Num(r.len), r.len);
    NumReads(r.generation);
    CellTakes(BlobCell, UnpackInt, (v: int) => r2.(generation := v), r2, 3, Num(r.generation), r.generation);
    NumReads(r.epoch); CellTakes(BlobCell, UnpackInt, (v: int) => r3.(epoch := v), r3, 4, Num(r.epoch), r.epoch);
    NumReads(r.checksum);
        CellTakes(BlobCell, UnpackInt, (v: int) => r4.(checksum := v), r4, 5, Num(r.checksum), r.checksum);
    BackendReads(r.backend);
    CellTakes(BlobCell, ReadBackend, (b: Backend) => r5.(backend := b), r5, 6, Name(BackendName(r.backend)), r.backend);
    hide BlobCell;
    RowReads(ReadBlobRow, BlobCell, BlobRow(r).items, [NO_BLOB, NO_BLOB, r1, r2, r3, r4, r5, r]);
  }

  function StampRow(t: WireStamp): Wire {
    Row([Num(SCHEMA), Num(t.wallTime), Num(t.logical), Num(t.peer)])
  }

  function StampCell(i: nat, t: WireStamp, s: Text): Parse<WireStamp> {
    match i
    case 0 => Put(ReadSchema(s), _ => t)
    case 1 => Put(UnpackInt(s), v => t.(wallTime := v))
    case 2 => Put(UnpackInt(s), v => t.(logical := v))
    case _ => Put(UnpackInt(s), v => t.(peer := v))
  }

  function ReadStampRow(s: Text): Parse<WireStamp> {
    ReadRow(4, s, NO_STAMP, StampCell)
  }

  lemma StampRowReads(t: WireStamp)
    ensures Reads(ReadStampRow, StampRow(t), t)
  {
    hide UnpackInt, ReadSchema, ReadRow, TakesCell, Reads;
    var t1 := NO_STAMP.(wallTime := t.wallTime);
    var t2 := t1.(logical := t.logical);
    SchemaReads(); CellTakes(StampCell, ReadSchema, (_: ()) => NO_STAMP, NO_STAMP, 0, Num(SCHEMA), ());
    NumReads(t.wallTime);
    CellTakes(StampCell, UnpackInt, (v: int) => NO_STAMP.(wallTime := v), NO_STAMP, 1, Num(t.wallTime), t.wallTime);
    NumReads(t.logical); CellTakes(StampCell, UnpackInt, (v: int) => t1.(logical := v), t1, 2, Num(t.logical),
        t.logical);
    NumReads(t.peer); CellTakes(StampCell, UnpackInt, (v: int) => t2.(peer := v), t2, 3, Num(t.peer), t.peer);
    RowReads(ReadStampRow, StampCell, StampRow(t).items, [NO_STAMP, NO_STAMP, t1, t2, t]);
  }

  // ── States and values ──

  function BodyRow(kind: int, body: Wire): Wire {
    Row([Num(SCHEMA), Num(kind), body])
  }

  function StateRow(st: NodeState): Wire {
    match st
    case Payload(b) => BodyRow(0, Bin(b))
    case SharedBlob(r) => BodyRow(1, BlobRow(r))
    case Opaque => BodyRow(2, Nil)
  }

  function ValueRow(v: IpcValue): Wire {
    match v
    case InlineValue(b) => BodyRow(0, Bin(b))
    case BlobValue(r) => BodyRow(1, BlobRow(r))
  }

  /** The kind is looked at as it stands, and decides what the third cell is. */
  function BodyCell(i: nat, d: BodyDraft, s: Text): Parse<BodyDraft> {
    match i
    case 0 => Put(ReadSchema(s), _ => d)
    case 1 => Put(UnpackInt(s), k => d.(kind := k))
    case _ =>
      if d.kind == 0 then Put(UnpackBin(s), b => d.(bytes := b))
      else if d.kind == 1 then Put(ReadBlobRow(s), r => d.(blob := r))
      else if d.kind == 2 then Put(ReadNil(s), _ => d)
      else Fail
  }

  function ReadBodyRow(s: Text): Parse<BodyDraft> {
    ReadRow(3, s, NO_BODY, BodyCell)
  }

  function ReadStateRow(s: Text): Parse<NodeState> {
    Finish(ReadBodyRow(s), StateOf)
  }

  function ReadValueRow(s: Text): Parse<IpcValue> {
    Finish(ReadBodyRow(s), ValueOf)
  }

  lemma BodyRowReads(kind: int, body: Wire, d: BodyDraft)
    requires d.kind == kind && TakesCell(BodyCell, NO_BODY.(kind := kind), 2, body, d)
    ensures Reads(ReadBodyRow, BodyRow(kind, body), d)
  {
    hide UnpackInt, ReadSchema, ReadRow, TakesCell, Reads;
    var d1 := NO_BODY.(kind := kind);
    SchemaReads(); CellTakes(BodyCell, ReadSchema, (_: ()) => NO_BODY, NO_BODY, 0, Num(SCHEMA), ());
    NumReads(kind); CellTakes(BodyCell, UnpackInt, (k: int) => NO_BODY.(kind := k), NO_BODY, 1, Num(kind), kind);
    hide BodyCell;
    RowReads(ReadBodyRow, BodyCell, BodyRow(kind, body).items, [NO_BODY, NO_BODY, d1, d]);
  }

  lemma BytesRowReads(b: Text)
    ensures Reads(ReadBodyRow, BodyRow(0, Bin(b)), BodyDraft(0, b, NO_BLOB))
  {
    hide UnpackBin, ReadRow, TakesCell, Reads, BodyRow, ReadBodyRow;
    var d := NO_BODY.(kind := 0);
    BinReads(b); CellTakes(BodyCell, UnpackBin, (t: Text) => d.(bytes := t), d, 2, Bin(b), b);
    BodyRowReads(0, Bin(b), d.(bytes := b));
  }

  lemma SharedRowReads(r: BlobRef)
    ensures Reads(ReadBodyRow, BodyRow(1, BlobRow(r)), BodyDraft(1, [], r))
  {
    hide ReadBlobRow, ReadRow, TakesCell, Reads, BodyRow, ReadBodyRow, BlobRow;
    var d := NO_BODY.(kind := 1);
    BlobRowReads(r); CellTakes(BodyCell, ReadBlobRow, (t: BlobRef) => d.(blob := t), d, 2, BlobRow(r), r);
    BodyRowReads(1, BlobRow(r), d.(blob := r));
  }

  lemma OpaqueRowReads()
    ensures Reads(ReadBodyRow, BodyRow(2, Nil), NO_BODY.(kind := 2))
  {
    hide ReadNil, ReadRow, TakesCell, Reads, BodyRow, ReadBodyRow;
    var d := NO_BODY.(kind := 2);
    NilReads(); CellTakes(BodyCell, ReadNil, (_: ()) => d, d, 2, Nil, ());
    BodyRowReads(2, Nil, d);
  }

  lemma StateRowReads(st: NodeState)
    ensures Reads(ReadStateRow, StateRow(st), st)
  {
    hide ReadBodyRow, Reads, BodyRow, BlobRow;
    match st
    case Payload(b) =>
      BytesRowReads(b); FinishReads(ReadStateRow, ReadBodyRow, StateOf, StateRow(st), BodyDraft(0, b, NO_BLOB), st);
    case SharedBlob(r) =>
      SharedRowReads(r); FinishReads(ReadStateRow, ReadBodyRow, StateOf, StateRow(st), BodyDraft(1, [], r), st);
    case Opaque =>
      OpaqueRowReads(); FinishReads(ReadStateRow, ReadBodyRow, StateOf, StateRow(st), NO_BODY.(kind := 2), st);
  }

  lemma ValueRowReads(v: IpcValue)
    ensures Reads(ReadValueRow, ValueRow(v), v)
  {
    hide ReadBodyRow, Reads, BodyRow, BlobRow;
    match v
    case InlineValue(b) =>
      BytesRowReads(b); FinishReads(ReadValueRow, ReadBodyRow, ValueOf, ValueRow(v), BodyDraft(0, b, NO_BLOB), v);
    case BlobValue(r) =>
      SharedRowReads(r); FinishReads(ReadValueRow, ReadBodyRow, ValueOf, ValueRow(v), BodyDraft(1, [], r), v);
  }

  // ── Snapshots ──

  function NodeRow(n: NodeSnapshot): Wire {
    Row([Num(SCHEMA), Num(n.node), Name(n.typeTag), StateRow(n.state), KeyWire(n.key)])
  }

  function NodeCell(i: nat, n: NodeSnapshot, s: Text): Parse<NodeSnapshot> {
    match i
    case 0 => Put(ReadSchema(s), _ => n)
    case 1 => Put(UnpackInt(s), v => n.(node := v))
    case 2 => Put(UnpackStr(s), t => n.(typeTag := t))
    case 3 => Put(ReadStateRow(s), st => n.(state := st))
    case _ => Put(ReadKey(s), key => n.(key := key))
  }

  function ReadNodeRow(s: Text): Parse<NodeSnapshot> {
    ReadRow(5, s, NO_NODE, NodeCell)
  }

  lemma NodeRowReads(n: NodeSnapshot)
    requires KeyOk(n.key)
    ensures Reads(ReadNodeRow, NodeRow(n), n)
  {
    hide UnpackInt, UnpackStr, ReadSchema, ReadStateRow, ReadKey, ReadRow, TakesCell, Reads, KeyOk, StateRow, KeyWire;
    var n1 := NO_NODE.(node := n.node);
    var n2 := n1.(typeTag := n.typeTag);
    var n3 := n2.(state := n.state);
    SchemaReads(); CellTakes(NodeCell, ReadSchema, (_: ()) => NO_NODE, NO_NODE, 0, Num(SCHEMA), ());
    NumReads(n.node); CellTakes(NodeCell, UnpackInt, (v: int) => NO_NODE.(node := v), NO_NODE, 1, Num(n.node), n.node);
    NameReads(n.typeTag);
        CellTakes(NodeCell, UnpackStr, (t: Text) => n1.(typeTag := t), n1, 2, Name(n.typeTag), n.typeTag);
    StateRowReads(n.state);
    CellTakes(NodeCell, ReadStateRow, (st: NodeState) => n2.(state := st), n2, 3, StateRow(n.state), n.state);
    KeyReads(n.key); CellTakes(NodeCell, ReadKey, (key: Option<Text>) => n3.(key := key), n3, 4, KeyWire(n.key), n.key);
    hide NodeCell;
    RowReads(ReadNodeRow, NodeCell, NodeRow(n).items, [NO_NODE, NO_NODE, n1, n2, n3, n]);
  }

  function EdgeRow(e: EdgeSnapshot): Wire {
    Row([Num(SCHEMA), Num(e.dependent), Num(e.dependency)])
  }

  function EdgeCell(i: nat, e: EdgeSnapshot, s: Text): Parse<EdgeSnapshot> {
    match i
    case 0 => Put(ReadSchema(s), _ => e)
    case 1 => Put(UnpackInt(s), v => e.(dependent := v))
    case _ => Put(UnpackInt(s), v => e.(dependency := v))
  }

  function ReadEdgeRow(s: Text): Parse<EdgeSnapshot> {
    ReadRow(3, s, NO_EDGE, EdgeCell)
  }

  lemma EdgeRowReads(e: EdgeSnapshot)
    ensures Reads(ReadEdgeRow, EdgeRow(e), e)
  {
    hide UnpackInt, ReadSchema, ReadRow, TakesCell, Reads;
    var e1 := NO_EDGE.(dependent := e.dependent);
    SchemaReads(); CellTakes(EdgeCell, ReadSchema, (_: ()) => NO_EDGE, NO_EDGE, 0, Num(SCHEMA), ());
    NumReads(e.dependent);
    CellTakes(EdgeCell, UnpackInt, (v: int) => NO_EDGE.(dependent := v), NO_EDGE, 1, Num(e.dependent), e.dependent);
    NumReads(e.dependency);
    CellTakes(EdgeCell, UnpackInt, (v: int) => e1.(dependency := v), e1, 2, Num(e.dependency), e.dependency);
    RowReads(ReadEdgeRow, EdgeCell, EdgeRow(e).items, [NO_EDGE, NO_EDGE, e1, e]);
  }

  function ReadNodeRows(s: Text): Parse<seq<NodeSnapshot>> { ReadList(s, ReadNodeRow) }

  function ReadEdgeRows(s: Text): Parse<seq<EdgeSnapshot>> { ReadList(s, ReadEdgeRow) }

  lemma NodeRowsRead(ns: seq<NodeSnapshot>)
    requires forall i :: 0 <= i < |ns| ==> KeyOk(ns[i].key)
    ensures Reads(ReadNodeRows, List(Each(ns, NodeRow)), ns)
  {
    hide Reads, ReadList, KeyOk, NodeRow, ReadNodeRow;
    forall i | 0 <= i < |ns| ensures Reads(ReadNodeRow, Each(ns, NodeRow)[i], ns[i]) { NodeRowReads(ns[i]); }
    ListReads(ReadNodeRows, ReadNodeRow, Each(ns, NodeRow), ns);
  }

  lemma EdgeRowsRead(es: seq<EdgeSnapshot>)
    ensures Reads(ReadEdgeRows, List(Each(es, EdgeRow)), es)
  {
    hide Reads, ReadList, EdgeRow, ReadEdgeRow;
    forall i | 0 <= i < |es| ensures Reads(ReadEdgeRow, Each(es, EdgeRow)[i], es[i]) { EdgeRowReads(es[i]); }
    ListReads(ReadEdgeRows, ReadEdgeRow, Each(es, EdgeRow), es);
  }

  function SnapshotRow(sn: Snapshot): Wire {
    Row([Num(SCHEMA), Num(sn.epoch), List(Each(sn.nodes, NodeRow)), List(Each(sn.edges, EdgeRow)),
        List(Each(sn.roots, IntWire))])
  }

  function SnapshotCell(i: nat, sn: Snapshot, s: Text): Parse<Snapshot> {
    match i
    case 0 => Put(ReadSchema(s), _ => sn)
    case 1 => Put(UnpackInt(s), v => sn.(epoch := v))
    case 2 => Put(ReadNodeRows(s), ns => sn.(nodes := ns))
    case 3 => Put(ReadEdgeRows(s), es => sn.(edges := es))
    case _ => Put(ReadInts(s), rs => sn.(roots := rs))
  }

  function ReadSnapshotRow(s: Text): Parse<Snapshot> {
    ReadRow(5, s, NO_SNAPSHOT, SnapshotCell)
  }

  lemma SnapshotRowReads(sn: Snapshot)
    requires SnapshotFits(sn)
    ensures Reads(ReadSnapshotRow, SnapshotRow(sn), sn)
  {
    hide UnpackInt, ReadSchema, ReadNodeRows, ReadEdgeRows, ReadInts, ReadRow, TakesCell, Reads, KeyOk, Each;
    var s1 := NO_SNAPSHOT.(epoch := sn.epoch);
    var s2 := s1.(nodes := sn.nodes);
    var s3 := s2.(edges := sn.edges);
    SchemaReads(); CellTakes(SnapshotCell, ReadSchema, (_: ()) => NO_SNAPSHOT, NO_SNAPSHOT, 0, Num(SCHEMA), ());
    NumReads(sn.epoch);
    CellTakes(SnapshotCell, UnpackInt, (v: int) => NO_SNAPSHOT.(epoch := v), NO_SNAPSHOT, 1, Num(sn.epoch), sn.epoch);
    NodeRowsRead(sn.nodes);
    CellTakes(SnapshotCell, ReadNodeRows, (ns: seq<NodeSnapshot>) => s1.(nodes := ns), s1, 2,
              List(Each(sn.nodes, NodeRow)), sn.nodes);
    EdgeRowsRead(sn.edges);
    CellTakes(SnapshotCell, ReadEdgeRows, (es: seq<EdgeSnapshot>) => s2.(edges := es), s2, 3,
              List(Each(sn.edges, EdgeRow)), sn.edges);
    IntsRead(sn.roots);
    CellTakes(SnapshotCell, ReadInts, (rs: seq<int>) => s3.(roots := rs), s3, 4, List(Each(sn.roots, IntWire)),
        sn.roots);
    hide SnapshotCell;
    RowReads(ReadSnapshotRow, SnapshotCell, SnapshotRow(sn).items, [NO_SNAPSHOT, NO_SNAPSHOT, s1, s2, s3, sn]);
  }

  // ── Deltas ──

  /** How many cells an operation of this kind has. */
  function Arity(kind: int): nat {
    match kind
    case 3 => 4
    case 2 => 1
    case 4 => 1
    case 8 => 1
    case 9 => 1
    case _ => 2
  }

  predicate Edges(kind: int) {
    kind == 5 || kind == 6
  }

  function OpCell(i: nat, d: OpDraft, s: Text): Parse<OpDraft> {
    match i
    case 0 => if Edges(d.kind) then Put(UnpackInt(s), v => d.(dependent := v))
        else Put(UnpackInt(s), v => d.(node := v))
    case 1 =>
      if Edges(d.kind) then Put(UnpackInt(s), v => d.(dependency := v))
      else if d.kind == 3 then Put(UnpackStr(s), t => d.(typeTag := t))
      else Put(ReadValueRow(s), v => d.(payload := v))
    case 2 => Put(ReadStateRow(s), st => d.(state := st))
    case _ => Put(ReadKey(s), key => d.(key := key))
  }

  function OpCells(op: DeltaOp): seq<Wire> {
    match op
    case CellSet(node, payload) => [Num(node), ValueRow(payload)]
    case SlotValue(node, payload) => [Num(node), ValueRow(payload)]
    case QueuePush(node, payload) => [Num(node), ValueRow(payload)]
    case NodeAdd(node, typeTag, state, key) => [Num(node), Name(typeTag), StateRow(state), KeyWire(key)]
    case EdgeAdd(dependent, dependency) => [Num(dependent), Num(dependency)]
    case EdgeRemove(dependent, dependency) => [Num(dependent), Num(dependency)]
    case _ => [Num(op.node)]
  }

  /** A kind and a row of its cells. Its reader takes no cell behind those two, so it is no `Row`. */
  function OpRow(op: DeltaOp): Wire {
    List([Num(DraftOf(op).kind), Row(OpCells(op))])
  }

  /** The outer array may say it is longer than two, but nothing behind the second cell is passed over. */
  function ReadOpRow(s: Text): Parse<DeltaOp> {
    var n := ArrayCount(s);
    if n.Fail? || n.value < 2 then Fail
    else
      var kind := UnpackInt(n.rest);
      if kind.Fail? || !(0 <= kind.value <= 9) then Fail
      else Finish(ReadRow(Arity(kind.value), kind.rest, NO_OP.(kind := kind.value), OpCell), OpOf)
  }

  /** The cells of an operation, under its kind. */
  function OpFields(kind: int): Text -> Parse<OpDraft> {
    s => ReadRow(Arity(kind), s, NO_OP.(kind := kind), OpCell)
  }

  lemma NodeCellsRead(kind: int, node: int)
    requires !Edges(kind) && Arity(kind) == 1
    ensures Reads(OpFields(kind), Row([Num(node)]), NO_OP.(kind := kind, node := node))
  {
    hide UnpackInt, ReadRow, TakesCell, Reads;
    var d := NO_OP.(kind := kind);
    NumReads(node); CellTakes(OpCell, UnpackInt, (v: int) => d.(node := v), d, 0, Num(node), node);
    hide OpCell;
    RowReads(OpFields(kind), OpCell, [Num(node)], [d, d.(node := node)]);
  }

  lemma PayloadCellsRead(kind: int, node: int, payload: IpcValue)
    requires !Edges(kind) && Arity(kind) == 2
    ensures Reads(OpFields(kind), Row([Num(node), ValueRow(payload)]),
        NO_OP.(kind := kind, node := node, payload := payload))
  {
    hide UnpackInt, ReadRow, TakesCell, Reads, ReadValueRow, ValueRow;
    var d, d1 := NO_OP.(kind := kind), NO_OP.(kind := kind, node := node);
    NumReads(node); CellTakes(OpCell, UnpackInt, (v: int) => d.(node := v), d, 0, Num(node), node);
    ValueRowReads(payload);
    CellTakes(OpCell, ReadValueRow, (v: IpcValue) => d1.(payload := v), d1, 1, ValueRow(payload), payload);
    hide OpCell;
    RowReads(OpFields(kind), OpCell, [Num(node), ValueRow(payload)], [d, d1, d1.(payload := payload)]);
  }

  lemma EdgeCellsRead(kind: int, dependent: int, dependency: int)
    requires Edges(kind)
    ensures Reads(OpFields(kind), Row([Num(dependent), Num(dependency)]),
                  NO_OP.(kind := kind, dependent := dependent, dependency := dependency))
  {
    hide UnpackInt, ReadRow, TakesCell, Reads;
    var d, d1 := NO_OP.(kind := kind), NO_OP.(kind := kind, dependent := dependent);
    NumReads(dependent); CellTakes(OpCell, UnpackInt, (v: int) => d.(dependent := v), d, 0, Num(dependent), dependent);
    NumReads(dependency);
        CellTakes(OpCell, UnpackInt, (v: int) => d1.(dependency := v), d1, 1, Num(dependency), dependency);
    hide OpCell;
    RowReads(OpFields(kind), OpCell, [Num(dependent), Num(dependency)], [d, d1, d1.(dependency := dependency)]);
  }

  lemma AddCellsRead(node: int, typeTag: Text, state: NodeState, key: Option<Text>)
    requires KeyOk(key)
    ensures Reads(OpFields(3), Row([Num(node), Name(typeTag), StateRow(state), KeyWire(key)]),
                  NO_OP.(kind := 3, node := node, typeTag := typeTag, state := state, key := key))
  {
    hide UnpackInt, UnpackStr, ReadRow, TakesCell, Reads, ReadStateRow, ReadKey, StateRow, KeyWire, KeyOk;
    var d := NO_OP.(kind := 3);
    var d1 := d.(node := node);
    var d2 := d1.(typeTag := typeTag);
    var d3 := d2.(state := state);
    NumReads(node); CellTakes(OpCell, UnpackInt, (v: int) => d.(node := v), d, 0, Num(node), node);
    NameReads(typeTag); CellTakes(OpCell, UnpackStr, (t: Text) => d1.(typeTag := t), d1, 1, Name(typeTag), typeTag);
    StateRowReads(state);
        CellTakes(OpCell, ReadStateRow, (st: NodeState) => d2.(state := st), d2, 2, StateRow(state), state);
    KeyReads(key); CellTakes(OpCell, ReadKey, (k: Option<Text>) => d3.(key := k), d3, 3, KeyWire(key), key);
    hide OpCell;
    RowReads(OpFields(3), OpCell, [Num(node), Name(typeTag), StateRow(state), KeyWire(key)],
        [d, d1, d2, d3, d3.(key := key)]);
  }

  lemma OpCellsRead(op: DeltaOp)
    requires OpKeyOk(op)
    ensures Reads(OpFields(DraftOf(op).kind), Row(OpCells(op)), DraftOf(op))
  {
    hide Reads, OpFields, StateRow, ValueRow, KeyWire, KeyOk;
    match op
    case CellSet(node, payload) => PayloadCellsRead(0, node, payload);
    case SlotValue(node, payload) => PayloadCellsRead(1, node, payload);
    case Invalidate(node) => NodeCellsRead(2, node);
    case NodeAdd(node, typeTag, state, key) => AddCellsRead(node, typeTag, state, key);
    case NodeRemove(node) => NodeCellsRead(4, node);
    case EdgeAdd(dependent, dependency) => EdgeCellsRead(5, dependent, dependency);
    case EdgeRemove(dependent, dependency) => EdgeCellsRead(6, dependent, dependency);
    case QueuePush(node, payload) => PayloadCellsRead(7, node, payload);
    case QueuePop(node) => NodeCellsRead(8, node);
    case QueueClose(node) => NodeCellsRead(9, node);
  }

  /** An operation comes back from a kind, its cells and anything added inside them; but what stands behind
      the cells in the outer array is left to be read as the next operation. */
  lemma OpRowLeaves(op: DeltaOp, x: Wire, rest: Text)
    requires OpKeyOk(op) && (x.List? || x.Row?) && |x.items| >= 2 && Fit(x)
    requires x.items[0] == Num(DraftOf(op).kind) && Wider(Row(OpCells(op)), x.items[1])
    ensures Fit(x) && (forall k :: 2 <= k < |x.items| ==> Fit(x.items[k]))
    ensures ReadOpRow(Laid(x) + rest) == Done(op, LaidItems(x.items[2..]) + rest)
  {
    hide UnpackInt, ArrayCount, ArrayHeader, Reads, Laid, Wider, OpCells, LaidItems;
    var kind, cells := DraftOf(op).kind, x.items[1];
    var tail := LaidItems(x.items[2..]) + rest;
    assert Fit(x.items[0]) && Fit(x.items[1]);
    TwoLaid(x, rest);
    ArrayBegins(|x.items|, Laid(x.items[0]) + (Laid(cells) + tail));
    NumIsNum(kind, Laid(cells) + tail);
    OpCellsRead(op);
    ReadOne(OpFields(kind), Row(OpCells(op)), DraftOf(op), cells, tail);
    assert OpOf(DraftOf(op)) == Some(op) && 0 <= kind <= 9;
  }

  lemma NumIsNum(i: int, rest: Text)
    requires Fit(Num(i))
    ensures UnpackInt(Laid(Num(i)) + rest) == Done(i, rest)
  {
    hide UnpackInt, Laid;
    NumReads(i);
    ReadOne(UnpackInt, Num(i), i, Num(i), rest);
  }

  /** Cells behind the outer pair are passed over if and only if there are none. */
  lemma OpRowConsumed(op: DeltaOp, more: seq<Wire>, rest: Text)
    requires OpKeyOk(op) && Closed(Row(OpCells(op)))
    requires var x := List([Num(DraftOf(op).kind), Row(OpCells(op))] + more); Fit(x)
    ensures ReadOpRow(Laid(List([Num(DraftOf(op).kind), Row(OpCells(op))] + more)) + rest) == Done(op, rest)
        <==> more == []
  {
    hide Reads, Laid, OpCells, ReadOpRow, DraftOf;
    var x := List([Num(DraftOf(op).kind), Row(OpCells(op))] + more);
    WiderRefl(Row(OpCells(op)));
    OpRowLeaves(op, x, rest);
    assert x.items[2..] == more;
    if more != [] {
      LaidNotEmpty(more[0]);
      assert |LaidItems(more) + rest| > |rest|;
    } else {
      assert LaidItems(more) + rest == rest;
    }
  }

  lemma LaidNotEmpty(w: Wire)
    requires Fit(w)
    ensures |Laid(w)| > 0
  {
    SkipBack(w, []);
    assert Laid(w) + [] == Laid(w);
  }

  lemma OpRowReads(op: DeltaOp)
    requires OpKeyOk(op)
    ensures Reads(ReadOpRow, OpRow(op), op)
  {
    hide Reads, Laid, OpCells, ReadOpRow, DraftOf, OpKeyOk;
    var w := OpRow(op);
    forall x, rest: Text | Wider(w, x) && Fit(x) ensures ReadOpRow(Laid(x) + rest) == Done(op, rest) {
      WiderParts(w, x);
      assert Wider(w.items[0], x.items[0]) && Wider(w.items[1], x.items[1]);
      OpRowLeaves(op, x, rest);
      assert x.items[2..] == [];
      assert LaidItems([]) + rest == rest;
    }
    ReadsMeans(ReadOpRow, w, op);
  }

  function ReadOpRows(s: Text): Parse<seq<DeltaOp>> { ReadList(s, ReadOpRow) }

  lemma OpRowsRead(ops: seq<DeltaOp>)
    requires forall i :: 0 <= i < |ops| ==> OpKeyOk(ops[i])
    ensures Reads(ReadOpRows, List(Each(ops, OpRow)), ops)
  {
    hide Reads, ReadList, OpKeyOk, OpRow, ReadOpRow;
    forall i | 0 <= i < |ops| ensures Reads(ReadOpRow, Each(ops, OpRow)[i], ops[i]) { OpRowReads(ops[i]); }
    ListReads(ReadOpRows, ReadOpRow, Each(ops, OpRow), ops);
  }

  function DeltaRow(d: Delta): Wire {
    Row([Num(SCHEMA), Num(d.baseEpoch), Num(d.epoch), List(Each(d.ops, OpRow))])
  }

  function DeltaCell(i: nat, d: Delta, s: Text): Parse<Delta> {
    match i
    case 0 => Put(ReadSchema(s), _ => d)
    case 1 => Put(UnpackInt(s), v => d.(baseEpoch := v))
    case 2 => Put(UnpackInt(s), v => d.(epoch := v))
    case _ => Put(ReadOpRows(s), ops => d.(ops := ops))
  }

  function ReadDeltaRow(s: Text): Parse<Delta> {
    ReadRow(4, s, NO_DELTA, DeltaCell)
  }

  lemma DeltaRowReads(d: Delta)
    requires DeltaFits(d)
    ensures Reads(ReadDeltaRow, DeltaRow(d), d)
  {
    hide UnpackInt, ReadSchema, ReadOpRows, ReadRow, TakesCell, Reads, Each;
    var d1 := NO_DELTA.(baseEpoch := d.baseEpoch);
    var d2 := d1.(epoch := d.epoch);
    SchemaReads(); CellTakes(DeltaCell, ReadSchema, (_: ()) => NO_DELTA, NO_DELTA, 0, Num(SCHEMA), ());
    NumReads(d.baseEpoch);
    CellTakes(DeltaCell, UnpackInt, (v: int) => NO_DELTA.(baseEpoch := v), NO_DELTA, 1, Num(d.baseEpoch), d.baseEpoch);
    NumReads(d.epoch); CellTakes(DeltaCell, UnpackInt, (v: int) => d1.(epoch := v), d1, 2, Num(d.epoch), d.epoch);
    forall i | 0 <= i < |d.ops| ensures OpKeyOk(d.ops[i]) { assert OpFits(d.ops[i]); }
    OpRowsRead(d.ops);
    CellTakes(DeltaCell, ReadOpRows, (ops: seq<DeltaOp>) => d2.(ops := ops), d2, 3, List(Each(d.ops, OpRow)), d.ops);
    hide DeltaCell;
    RowReads(ReadDeltaRow, DeltaCell, DeltaRow(d).items, [NO_DELTA, NO_DELTA, d1, d2, d]);
  }

  // ── Anti-entropy frames ──

  const NO_ENTRY := FrontierEntry(0, NO_STAMP)

  function EntryRow(e: FrontierEntry): Wire {
    Row([Num(SCHEMA), Num(e.peer), StampRow(e.stamp)])
  }

  function EntryCell(i: nat, e: FrontierEntry, s: Text): Parse<FrontierEntry> {
    match i
    case 0 => Put(ReadSchema(s), _ => e)
    case 1 => Put(UnpackInt(s), v => e.(peer := v))
    case _ => Put(ReadStampRow(s), t => e.(stamp := t))
  }

  function ReadEntryRow(s: Text): Parse<FrontierEntry> {
    ReadRow(3, s, NO_ENTRY, EntryCell)
  }

  lemma EntryRowReads(e: FrontierEntry)
    ensures Reads(ReadEntryRow, EntryRow(e), e)
  {
    hide UnpackInt, ReadSchema, ReadStampRow, ReadRow, TakesCell, Reads, StampRow;
    var e1 := NO_ENTRY.(peer := e.peer);
    SchemaReads(); CellTakes(EntryCell, ReadSchema, (_: ()) => NO_ENTRY, NO_ENTRY, 0, Num(SCHEMA), ());
    NumReads(e.peer); CellTakes(EntryCell, UnpackInt, (v: int) => NO_ENTRY.(peer := v), NO_ENTRY, 1, Num(e.peer),
        e.peer);
    StampRowReads(e.stamp);
    CellTakes(EntryCell, ReadStampRow, (t: WireStamp) => e1.(stamp := t), e1, 2, StampRow(e.stamp), e.stamp);
    RowReads(ReadEntryRow, EntryCell, EntryRow(e).items, [NO_ENTRY, NO_ENTRY, e1, e]);
  }

  function CrdtOpRow(o: CrdtOp): Wire {
    Row([Num(SCHEMA), Num(o.node), KeyWire(o.key), StampRow(o.stamp), ValueRow(o.state)])
  }

  function CrdtOpCell(i: nat, o: CrdtOp, s: Text): Parse<CrdtOp> {
    match i
    case 0 => Put(ReadSchema(s), _ => o)
    case 1 => Put(UnpackInt(s), v => o.(node := v))
    case 2 => Put(ReadKey(s), key => o.(key := key))
    case 3 => Put(ReadStampRow(s), t => o.(stamp := t))
    case _ => Put(ReadValueRow(s), v => o.(state := v))
  }

  function ReadCrdtOpRow(s: Text): Parse<CrdtOp> {
    ReadRow(5, s, NO_CRDT_OP, CrdtOpCell)
  }

  lemma CrdtOpRowReads(o: CrdtOp)
    requires KeyOk(o.key)
    ensures Reads(ReadCrdtOpRow, CrdtOpRow(o), o)
  {
    hide UnpackInt, ReadSchema, ReadKey, ReadStampRow, ReadValueRow, ReadRow, TakesCell, Reads;
    hide KeyOk, KeyWire, StampRow, ValueRow;
    var o1 := NO_CRDT_OP.(node := o.node);
    var o2 := o1.(key := o.key);
    var o3 := o2.(stamp := o.stamp);
    SchemaReads(); CellTakes(CrdtOpCell, ReadSchema, (_: ()) => NO_CRDT_OP, NO_CRDT_OP, 0, Num(SCHEMA), ());
    NumReads(o.node); CellTakes(CrdtOpCell, UnpackInt, (v: int) => NO_CRDT_OP.(node := v), NO_CRDT_OP, 1,
        Num(o.node), o.node);
    KeyReads(o.key); CellTakes(CrdtOpCell, ReadKey, (key: Option<Text>) => o1.(key := key), o1, 2, KeyWire(o.key),
        o.key);
    StampRowReads(o.stamp);
    CellTakes(CrdtOpCell, ReadStampRow, (t: WireStamp) => o2.(stamp := t), o2, 3, StampRow(o.stamp), o.stamp);
    ValueRowReads(o.state);
    CellTakes(CrdtOpCell, ReadValueRow, (v: IpcValue) => o3.(state := v), o3, 4, ValueRow(o.state), o.state);
    hide CrdtOpCell;
    RowReads(ReadCrdtOpRow, CrdtOpCell, CrdtOpRow(o).items, [NO_CRDT_OP, NO_CRDT_OP, o1, o2, o3, o]);
  }

  function ReadEntryRows(s: Text): Parse<seq<FrontierEntry>> { ReadList(s, ReadEntryRow) }

  function ReadCrdtOpRows(s: Text): Parse<seq<CrdtOp>> { ReadList(s, ReadCrdtOpRow) }

  lemma EntryRowsRead(es: seq<FrontierEntry>)
    ensures Reads(ReadEntryRows, List(Each(es, EntryRow)), es)
  {
    hide Reads, ReadList, EntryRow, ReadEntryRow;
    forall i | 0 <= i < |es| ensures Reads(ReadEntryRow, Each(es, EntryRow)[i], es[i]) { EntryRowReads(es[i]); }
    ListReads(ReadEntryRows, ReadEntryRow, Each(es, EntryRow), es);
  }

  lemma CrdtOpRowsRead(ops: seq<CrdtOp>)
    requires forall i :: 0 <= i < |ops| ==> KeyOk(ops[i].key)
    ensures Reads(ReadCrdtOpRows, List(Each(ops, CrdtOpRow)), ops)
  {
    hide Reads, ReadList, KeyOk, CrdtOpRow, ReadCrdtOpRow;
    forall i | 0 <= i < |ops| ensures Reads(ReadCrdtOpRow, Each(ops, CrdtOpRow)[i], ops[i]) { CrdtOpRowReads(ops[i]); }
    ListReads(ReadCrdtOpRows, ReadCrdtOpRow, Each(ops, CrdtOpRow), ops);
  }

  function SyncRow(c: CrdtSync): Wire {
    Row([Num(SCHEMA), List(Each(c.frontier, EntryRow)), List(Each(c.ops, CrdtOpRow))])
  }

  function SyncCell(i: nat, c: CrdtSync, s: Text): Parse<CrdtSync> {
    match i
    case 0 => Put(ReadSchema(s), _ => c)
    case 1 => Put(ReadEntryRows(s), es => c.(frontier := es))
    case _ => Put(ReadCrdtOpRows(s), ops => c.(ops := ops))
  }

  function ReadSyncRow(s: Text): Parse<CrdtSync> {
    ReadRow(3, s, NO_SYNC, SyncCell)
  }

  lemma SyncRowReads(c: CrdtSync)
    requires SyncFits(c)
    ensures Reads(ReadSyncRow, SyncRow(c), c)
  {
    hide ReadSchema, ReadEntryRows, ReadCrdtOpRows, ReadRow, TakesCell, Reads, Each, KeyOk;
    var c1 := NO_SYNC.(frontier := c.frontier);
    SchemaReads(); CellTakes(SyncCell, ReadSchema, (_: ()) => NO_SYNC, NO_SYNC, 0, Num(SCHEMA), ());
    EntryRowsRead(c.frontier);
    CellTakes(SyncCell, ReadEntryRows, (es: seq<FrontierEntry>) => NO_SYNC.(frontier := es), NO_SYNC, 1,
              List(Each(c.frontier, EntryRow)), c.frontier);
    CrdtOpRowsRead(c.ops);
    CellTakes(SyncCell, ReadCrdtOpRows, (ops: seq<CrdtOp>) => c1.(ops := ops), c1, 2, List(Each(c.ops, CrdtOpRow)),
        c.ops);
    RowReads(ReadSyncRow, SyncCell, SyncRow(c).items, [NO_SYNC, NO_SYNC, c1, c]);
  }

  // ── Control frames and the envelope ──

  function EpochRow(epoch: int): Wire {
    Row([Num(SCHEMA), Num(epoch)])
  }

  function EpochCell(i: nat, epoch: int, s: Text): Parse<int> {
    if i == 0 then Put(ReadSchema(s), _ => epoch) else Put(UnpackInt(s), (v: int) => v)
  }

  function ReadEpochRow(s: Text): Parse<int> {
    ReadRow(2, s, 0, EpochCell)
  }

  lemma EpochRowReads(epoch: int)
    ensures Reads(ReadEpochRow, EpochRow(epoch), epoch)
  {
    hide UnpackInt, ReadSchema, ReadRow, TakesCell, Reads;
    SchemaReads(); CellTakes(EpochCell, ReadSchema, (_: ()) => 0, 0, 0, Num(SCHEMA), ());
    NumReads(epoch); CellTakes(EpochCell, UnpackInt, (v: int) => v, 0, 1, Num(epoch), epoch);
    RowReads(ReadEpochRow, EpochCell, EpochRow(epoch).items, [0, 0, epoch]);
  }

  function ContentRow(m: IpcMessage): Wire {
    match m
    case SnapshotMsg(sn) => SnapshotRow(sn)
    case DeltaMsg(d) => DeltaRow(d)
    case CrdtSyncMsg(c) => SyncRow(c)
    case ResyncRequest(epoch) => EpochRow(epoch)
    case OutboxAck(epoch) => EpochRow(epoch)
  }

  function MessageRow(m: IpcMessage): Wire {
    Row([Num(SCHEMA), Num(TypeOf(m)), ContentRow(m)])
  }

  /** The type met, then the message. */
  datatype Envelope = Typed(kind: int) | Whole(m: IpcMessage)

  function ReadContentRow(kind: int, s: Text): Parse<IpcMessage> {
    match kind
    case 0 => Put(ReadSnapshotRow(s), sn => SnapshotMsg(sn))
    case 1 => Put(ReadDeltaRow(s), d => DeltaMsg(d))
    case 2 => Put(ReadSyncRow(s), c => CrdtSyncMsg(c))
    case 3 => Put(ReadEpochRow(s), epoch => ResyncRequest(epoch))
    case 4 => Put(ReadEpochRow(s), epoch => OutboxAck(epoch))
    case _ => Fail
  }

  function MessageCell(i: nat, e: Envelope, s: Text): Parse<Envelope> {
    match i
    case 0 => Put(ReadSchema(s), _ => e)
    case 1 => Put(UnpackInt(s), k => Typed(k))
    case _ => if e.Typed? then Put(ReadContentRow(e.kind, s), m => Whole(m)) else Fail
  }

  function ReadEnvelopeRow(s: Text): Parse<Envelope> {
    ReadRow(3, s, Typed(-1), MessageCell)
  }

  function ReadMessageRow(s: Text): Parse<IpcMessage> {
    Finish(ReadEnvelopeRow(s), (e: Envelope) => if e.Whole? then Some(e.m) else None)
  }

  lemma ContentRowRead(m: IpcMessage, x: Wire, rest: Text)
    requires Proper(m) && Wider(ContentRow(m), x) && Fit(x)
    ensures ReadContentRow(TypeOf(m), Laid(x) + rest) == Done(m, rest)
  {
    hide Reads, SnapshotRow, DeltaRow, SyncRow, EpochRow, SnapshotFits, DeltaFits, SyncFits;
    hide ReadSnapshotRow, ReadDeltaRow, ReadSyncRow, ReadEpochRow, Wider, Fit, Laid;
    match m
    case SnapshotMsg(sn) => SnapshotRowReads(sn); ReadOne(ReadSnapshotRow, ContentRow(m), sn, x, rest);
    case DeltaMsg(d) => DeltaRowReads(d); ReadOne(ReadDeltaRow, ContentRow(m), d, x, rest);
    case CrdtSyncMsg(c) => SyncRowReads(c); ReadOne(ReadSyncRow, ContentRow(m), c, x, rest);
    case ResyncRequest(epoch) => EpochRowReads(epoch); ReadOne(ReadEpochRow, ContentRow(m), epoch, x, rest);
    case OutboxAck(epoch) => EpochRowReads(epoch); ReadOne(ReadEpochRow, ContentRow(m), epoch, x, rest);
  }

  lemma EnvelopeRowReads(m: IpcMessage)
    requires Proper(m)
    ensures Reads(ReadEnvelopeRow, MessageRow(m), Whole(m))
  {
    hide UnpackInt, ReadSchema, ReadContentRow, ContentRow, ReadRow, TakesCell, Reads, Proper;
    var e := Typed(-1);
    SchemaReads(); CellTakes(MessageCell, ReadSchema, (_: ()) => e, e, 0, Num(SCHEMA), ());
    NumReads(TypeOf(m)); CellTakes(MessageCell, UnpackInt, (k: int) => Typed(k), e, 1, Num(TypeOf(m)), TypeOf(m));
    ContentCellTakes(m);
    RowReads(ReadEnvelopeRow, MessageCell, MessageRow(m).items, [e, e, Typed(TypeOf(m)), Whole(m)]);
  }

  lemma ContentCellTakes(m: IpcMessage)
    requires Proper(m)
    ensures TakesCell(MessageCell, Typed(TypeOf(m)), 2, ContentRow(m), Whole(m))
  {
    hide ReadContentRow, ContentRow, Wider, Fit, Laid, Proper;
    forall x, rest: Text | Wider(ContentRow(m), x) && Fit(x)
      ensures MessageCell(2, Typed(TypeOf(m)), Laid(x) + rest) == Done(Whole(m), rest)
    {
      ContentRowRead(m, x, rest);
    }
  }

  /** A positional frame comes back, whatever cells a newer writer put behind those known. */
  lemma MessageRowReads(m: IpcMessage)
    requires Proper(m)
    ensures Reads(ReadMessageRow, MessageRow(m), m)
  {
    hide ReadEnvelopeRow, MessageRow, Reads, Proper;
    EnvelopeRowReads(m);
    FinishReads(ReadMessageRow, ReadEnvelopeRow, (e: Envelope) => if e.Whole? then Some(e.m) else None,
                MessageRow(m), Whole(m), m);
  }
}
