/** The text of every message, spelled out: its names, their order, and what is left out. */
module IpcText {
  import opened Options
  import opened Bytes
  import opened Json
  import opened Ipc

  // ── Spelling ──

  /** A name, its value, and what follows. */
  function Put(name: string, value: Text, rest: Text): Text {
    Ascii("\"") + Ascii(name) + Ascii("\":") + value + rest
  }

  function And(name: string, value: Text, rest: Text): Text {
    Ascii(",") + Put(name, value, rest)
  }

  function Only(name: string, value: Text): Text {
    Ascii("{") + Put(name, value, Ascii("}"))
  }

  function Joined<A>(xs: seq<A>, spell: A -> Text): Text {
    if xs == [] then [] else if |xs| == 1 then spell(xs[0]) else spell(xs[0]) + Ascii(",") + Joined(xs[1..], spell)
  }

  function Listed<A>(xs: seq<A>, spell: A -> Text): Text {
    Ascii("[") + Joined(xs, spell) + Ascii("]")
  }

  function BytesText(bs: Text): Text {
    Listed(bs, (b: byte) => Decimal(b as nat))
  }

  function BackendText(b: Backend): Text {
    match b
    case Shm => Ascii("\"shm\"")
    case Arrow => Ascii("\"arrow\"")
    case InProcess => Ascii("\"in_process\"")
  }

  // ── The messages ──

  function Counted(name: string, i: int): Text {
    Ascii("{") + Put(name, IntText(i), Ascii("}"))
  }

  /** The default backend is left out. */
  function BlobText(r: BlobRef): Text {
    Ascii("{") +
    Put("offset", IntText(r.offset),
        And("len", IntText(r.len),
            And("generation", IntText(r.generation),
                And("epoch", IntText(r.epoch),
                    And("checksum", IntText(r.checksum),
                        if r.backend == Shm then Ascii("}")
                        else And("backend", BackendText(r.backend), Ascii("}")))))))
  }

  function StateText(st: NodeState): Text {
    match st
    case Payload(bs) => Only("Payload", BytesText(bs))
    case SharedBlob(blob) => Only("SharedBlob", BlobText(blob))
    case Opaque => Ascii("\"Opaque\"")
  }

  function ValueText(x: IpcValue): Text {
    match x
    case InlineValue(bs) => Only("Inline", BytesText(bs))
    case BlobValue(blob) => Only("SharedBlob", BlobText(blob))
  }

  /** A missing key is left out. */
  function NodeText(node: int, typeTag: Text, state: NodeState, key: Option<Text>): Text {
    Ascii("{") +
    Put("node", IntText(node),
        And("type_tag", Quoted(typeTag),
            And("state", StateText(state),
                if key.None? then Ascii("}") else And("key", Quoted(key.val), Ascii("}")))))
  }

  function EdgeText(dependent: int, dependency: int): Text {
    Ascii("{") + Put("dependent", IntText(dependent), And("dependency", IntText(dependency), Ascii("}")))
  }

  function PayloadText(node: int, payload: IpcValue): Text {
    Ascii("{") + Put("node", IntText(node), And("payload", ValueText(payload), Ascii("}")))
  }

  function SnapshotText(s: Snapshot): Text {
    Ascii("{") +
    Put("epoch", IntText(s.epoch),
        And("nodes", Listed(s.nodes, (n: NodeSnapshot) => NodeText(n.node, n.typeTag, n.state, n.key)),
            And("edges", Listed(s.edges, (e: EdgeSnapshot) => EdgeText(e.dependent, e.dependency)),
                And("roots", Listed(s.roots, IntText), Ascii("}")))))
  }

  function OpText(op: DeltaOp): Text {
    match op
    case CellSet(node, payload) => Only("CellSet", PayloadText(node, payload))
    case SlotValue(node, payload) => Only("SlotValue", PayloadText(node, payload))
    case Invalidate(node) => Only("Invalidate", Counted("node", node))
    case NodeAdd(node, typeTag, state, key) => Only("NodeAdd", NodeText(node, typeTag, state, key))
    case NodeRemove(node) => Only("NodeRemove", Counted("node", node))
    case EdgeAdd(dependent, dependency) => Only("EdgeAdd", EdgeText(dependent, dependency))
    case EdgeRemove(dependent, dependency) => Only("EdgeRemove", EdgeText(dependent, dependency))
    case QueuePush(node, payload) => Only("QueuePush", PayloadText(node, payload))
    case QueuePop(node) => Only("QueuePop", Counted("node", node))
    case QueueClose(node) => Only("QueueClose", Counted("node", node))
  }

  function DeltaText(d: Delta): Text {
    Ascii("{") +
    Put("base_epoch", IntText(d.baseEpoch),
        And("epoch", IntText(d.epoch),
            And("ops", Listed(d.ops, OpText), Ascii("}"))))
  }

  function StampText(t: WireStamp): Text {
    Ascii("{") +
    Put("wall_time", IntText(t.wallTime),
        And("logical", IntText(t.logical),
            And("peer", IntText(t.peer), Ascii("}"))))
  }

  function EntryText(e: FrontierEntry): Text {
    Ascii("[") + IntText(e.peer) + Ascii(",") + StampText(e.stamp) + Ascii("]")
  }

  /** A missing key is null here. */
  function CrdtOpText(op: CrdtOp): Text {
    Ascii("{") +
    Put("node", IntText(op.node),
        And("key", if op.key.None? then Ascii("null") else Quoted(op.key.val),
            And("stamp", StampText(op.stamp),
                And("state", ValueText(op.state), Ascii("}")))))
  }

  /** An empty frontier is left out. */
  function SyncText(s: CrdtSync): Text {
    if s.frontier == [] then Ascii("{") + Put("ops", Listed(s.ops, CrdtOpText), Ascii("}"))
    else
      Ascii("{") + Put("frontier", Listed(s.frontier, EntryText), And("ops", Listed(s.ops, CrdtOpText), Ascii("}")))
  }

  function MessageText(m: IpcMessage): Text {
    match m
    case SnapshotMsg(s) => Only("Snapshot", SnapshotText(s))
    case DeltaMsg(d) => Only("Delta", DeltaText(d))
    case CrdtSyncMsg(s) => Only("CrdtSync", SyncText(s))
    case ResyncRequest(from) => Only("ResyncRequest", Counted("from_epoch", from))
    case OutboxAck(through) => Only("OutboxAck", Counted("through_epoch", through))
  }

  // ── Objects ──

  function Fields(ms: seq<Member>): Text
    requires ms != []
  {
    Quoted(ms[0].key) + [COLON] + Written(ms[0].value)
    + if |ms| == 1 then [CLOSE_OBJECT] else [COMMA] + Fields(ms[1..])
  }

  lemma {:induction false} MembersAreFields(v: Value, ms: seq<Member>)
    requires ms != [] && forall k :: 0 <= k < |ms| ==> ms[k].value < v
    ensures Members(v, ms) + [CLOSE_OBJECT] == Fields(ms)
    decreases |ms|
  {
    hide Written, Quoted;
    if |ms| > 1 {
      MembersAreFields(v, ms[1..]);
      Grouped(Pair(v, ms[0]), Members(v, ms[1..]));
    }
  }

  lemma Grouped(a: Text, b: Text)
    ensures a + [COMMA] + b + [CLOSE_OBJECT] == a + ([COMMA] + (b + [CLOSE_OBJECT]))
  {
  }

  lemma ObjectText(ms: seq<Member>)
    requires ms != []
    ensures Written(Obj(ms)) == [OPEN_OBJECT] + Fields(ms)
  {
    hide Fields, Members;
    MembersAreFields(Obj(ms), ms);
  }

  predicate Plain(name: string) {
    forall i :: 0 <= i < |name| ==> 34 < name[i] as int < 128 && name[i] != '\\'
  }

  lemma {:induction false} Unescaped(name: string)
    requires Plain(name)
    ensures EscapeAll(Ascii(name)) == Ascii(name)
    decreases |name|
  {
    var t := Ascii(name);
    if name != [] {
      Unescaped(name[1..]);
      assert t[1..] == Ascii(name[1..]) && t == [t[0]] + t[1..];
    }
  }

  lemma Marks()
    ensures Ascii("{") == [OPEN_OBJECT] && Ascii("}") == [CLOSE_OBJECT] && Ascii(",") == [COMMA]
    ensures Ascii("[") == [OPEN_ARRAY] && Ascii("]") == [CLOSE_ARRAY]
    ensures Ascii("\"") == [QUOTE] && Ascii("\":") == [QUOTE] + [COLON]
  {
  }

  /** The fields that remain: nothing but the closing brace, or a comma and more. */
  function Remaining(ms: seq<Member>): Text {
    if ms == [] then [CLOSE_OBJECT] else [COMMA] + Fields(ms)
  }

  lemma FieldPut(name: string, v: Value, ms: seq<Member>)
    requires Plain(name)
    ensures Fields([Member(Ascii(name), v)] + ms) == Put(name, Written(v), Remaining(ms))
  {
    hide Written, EscapeAll;
    var all := [Member(Ascii(name), v)] + ms;
    assert all[1..] == ms;
    Unescaped(name);
    Marks();
    assert Quoted(Ascii(name)) + [COLON] == Ascii("\"") + Ascii(name) + Ascii("\":");
  }

  /** The same behind a comma. */
  lemma FieldAnd(name: string, v: Value, ms: seq<Member>)
    requires Plain(name)
    ensures Remaining([Member(Ascii(name), v)] + ms) == And(name, Written(v), Remaining(ms))
  {
    hide Written, Fields, Put;
    FieldPut(name, v, ms);
    Marks();
  }

  lemma LoneField(name: string, v: Value)
    requires Plain(name)
    ensures Written(Obj([Member(Ascii(name), v)])) == Only(name, Written(v))
  {
    hide Written, Fields, Put;
    ObjectText([Member(Ascii(name), v)]);
    FieldPut(name, v, []);
    assert [Member(Ascii(name), v)] + [] == [Member(Ascii(name), v)];
    Marks();
  }

  // ── Arrays ──

  lemma {:induction false} ItemsJoined<A>(v: Value, xs: seq<A>, enc: A -> Value, spell: A -> Text)
    requires forall k :: 0 <= k < |xs| ==> Written(enc(xs[k])) == spell(xs[k])
    requires forall k :: 0 <= k < |ToArray(xs, enc)| ==> ToArray(xs, enc)[k] < v
    ensures Items(v, ToArray(xs, enc)) == Joined(xs, spell)
    decreases |xs|
  {
    hide Written;
    if xs != [] {
      var items := ToArray(xs, enc);
      assert items[0] == enc(xs[0]) && items[1..] == ToArray(xs[1..], enc);
      ToArrayLength(xs[1..], enc);
      ItemsJoined(v, xs[1..], enc, spell);
      Marks();
    }
  }

  lemma {:induction false} ToArrayLength<A>(xs: seq<A>, enc: A -> Value)
    ensures |ToArray(xs, enc)| == |xs|
  {
    if xs != [] { ToArrayLength(xs[1..], enc); }
  }

  lemma ArrayText<A>(xs: seq<A>, enc: A -> Value, spell: A -> Text)
    requires forall k :: 0 <= k < |xs| ==> Written(enc(xs[k])) == spell(xs[k])
    ensures Written(Arr(ToArray(xs, enc))) == Listed(xs, spell)
  {
    ItemsJoined(Arr(ToArray(xs, enc)), xs, enc, spell);
    Marks();
  }

  // ── Each message is written as spelled ──

  lemma Leaves(i: int, t: Text)
    ensures Written(Int(i)) == IntText(i) && Written(Str(t)) == Quoted(t) && Written(Null) == Ascii("null")
  {
  }

  lemma TwoFields(a: string, x: Value, b: string, y: Value, ms: seq<Member>)
    requires Plain(a) && Plain(b)
    ensures Written(Obj([Member(Ascii(a), x), Member(Ascii(b), y)] + ms))
         == Ascii("{") + Put(a, Written(x), And(b, Written(y), Remaining(ms)))
  {
    hide Written, Fields, Put, And, Remaining, Plain;
    var more := [Member(Ascii(b), y)] + ms;
    var all := [Member(Ascii(a), x)] + more;
    assert [Member(Ascii(a), x), Member(Ascii(b), y)] + ms == all;
    ObjectText(all);
    FieldPut(a, x, more);
    FieldAnd(b, y, ms);
    Marks();
  }

  lemma EdgeSpelled(dependent: int, dependency: int)
    ensures Written(EdgeToJson(EdgeSnapshot(dependent, dependency))) == EdgeText(dependent, dependency)
  {
    hide Written, Put, And, IntText;
    TwoFields("dependent", Int(dependent), "dependency", Int(dependency), []);
    assert [Member(Ascii("dependent"), Int(dependent)), Member(Ascii("dependency"), Int(dependency))] + []
        == [Member(Ascii("dependent"), Int(dependent)), Member(Ascii("dependency"), Int(dependency))];
    Leaves(dependent, []);
    Leaves(dependency, []);
    Marks();
  }

  lemma StampSpelled(t: WireStamp)
    ensures Written(StampToJson(t)) == StampText(t)
  {
    hide Written, Put, And, IntText;
    var peer := Member(Ascii("peer"), Int(t.peer));
    TwoFields("wall_time", Int(t.wallTime), "logical", Int(t.logical), [peer]);
    FieldAnd("peer", Int(t.peer), []);
    assert [peer] + [] == [peer];
    assert StampToJson(t).members
        == [Member(Ascii("wall_time"), Int(t.wallTime)), Member(Ascii("logical"), Int(t.logical))] + [peer];
    Leaves(t.wallTime, []);
    Leaves(t.logical, []);
    Leaves(t.peer, []);
    Marks();
  }

  lemma BytesSpelled(bs: Text)
    ensures Written(BytesToJson(bs)) == BytesText(bs)
  {
    ArrayText(bs, ByteToJson, (b: byte) => Decimal(b as nat));
  }

  lemma Nested<T>(a: T, b: T, c: T, d: T, e: T, x: seq<T>)
    ensures [a, b, c, d] == [a, b] + ([c] + [d])
    ensures [a, b, c, d, e] + x == [a, b] + ([c] + ([d] + ([e] + x)))
  {
  }

  lemma BlobTail(r: BlobRef, backend: seq<Member>)
    requires backend == if r.backend != Shm then [Member(Ascii("backend"), Str(BackendName(r.backend)))] else []
    ensures Remaining(backend) == if r.backend == Shm then Ascii("}") else And("backend", BackendText(r.backend),
        Ascii("}"))
  {
    hide Written, And, BackendName, BackendText;
    Marks();
    if r.backend != Shm {
      FieldAnd("backend", Str(BackendName(r.backend)), []);
      assert backend + [] == backend;
      BackendSpelled(r.backend);
    }
  }

  lemma BlobSpelled(r: BlobRef)
    ensures Written(BlobToJson(r)) == BlobText(r)
  {
    hide Written, Put, And, IntText, BackendName, BackendText, Remaining;
    var backend := if r.backend != Shm then [Member(Ascii("backend"), Str(BackendName(r.backend)))] else [];
    var checksum := [Member(Ascii("checksum"), Int(r.checksum))] + backend;
    var epoch := [Member(Ascii("epoch"), Int(r.epoch))] + checksum;
    var generation := [Member(Ascii("generation"), Int(r.generation))] + epoch;
    BlobTail(r, backend);
    FieldAnd("checksum", Int(r.checksum), backend);
    FieldAnd("epoch", Int(r.epoch), checksum);
    FieldAnd("generation", Int(r.generation), epoch);
    TwoFields("offset", Int(r.offset), "len", Int(r.len), generation);
    Nested(Member(Ascii("offset"), Int(r.offset)), Member(Ascii("len"), Int(r.len)),
           Member(Ascii("generation"), Int(r.generation)), Member(Ascii("epoch"), Int(r.epoch)),
           Member(Ascii("checksum"), Int(r.checksum)), backend);
    BlobLeaves(r);
  }

  lemma BlobLeaves(r: BlobRef)
    ensures Written(Int(r.offset)) == IntText(r.offset) && Written(Int(r.len)) == IntText(r.len)
    ensures Written(Int(r.generation)) == IntText(r.generation) && Written(Int(r.epoch)) == IntText(r.epoch)
    ensures Written(Int(r.checksum)) == IntText(r.checksum)
  {
    hide IntText;
  }

  lemma BackendSpelled(b: Backend)
    ensures Written(Str(BackendName(b))) == BackendText(b)
  {
    hide EscapeAll;
    match b
    case Shm => Unescaped("shm");
    case Arrow => Unescaped("arrow");
    case InProcess => Unescaped("in_process");
  }

  lemma StateSpelled(st: NodeState)
    ensures Written(StateToJson(st)) == StateText(st)
  {
    hide Written, BytesToJson, BytesText, BlobToJson, BlobText, Only;
    match st
    case Payload(bs) =>
      BytesSpelled(bs);
      LoneField("Payload", BytesToJson(bs));
    case SharedBlob(blob) =>
      BlobSpelled(blob);
      LoneField("SharedBlob", BlobToJson(blob));
    case Opaque => OpaqueSpelled();
  }

  lemma OpaqueSpelled()
    ensures Written(Str(Ascii("Opaque"))) == Ascii("\"Opaque\"")
  {
    hide EscapeAll;
    Unescaped("Opaque");
  }

  lemma ValueSpelled(x: IpcValue)
    ensures Written(ValueToJson(x)) == ValueText(x)
  {
    hide Written, BytesToJson, BytesText, BlobToJson, BlobText, Only;
    match x
    case InlineValue(bs) =>
      BytesSpelled(bs);
      LoneField("Inline", BytesToJson(bs));
    case BlobValue(blob) =>
      BlobSpelled(blob);
      LoneField("SharedBlob", BlobToJson(blob));
  }

  lemma NodeSpelled(n: NodeSnapshot)
    ensures Written(NodeToJson(n)) == NodeText(n.node, n.typeTag, n.state, n.key)
  {
    hide Written, Put, And, IntText, Quoted, StateToJson, StateText;
    var state := [Member(Ascii("state"), StateToJson(n.state))] + KeyMember(n.key);
    if n.key.Some? {
      FieldAnd("key", Str(n.key.val), []);
      assert KeyMember(n.key) + [] == KeyMember(n.key);
      Leaves(0, n.key.val);
    }
    FieldAnd("state", StateToJson(n.state), KeyMember(n.key));
    TwoFields("node", Int(n.node), "type_tag", Str(n.typeTag), state);
    assert NodeToJson(n).members
        == [Member(Ascii("node"), Int(n.node)), Member(Ascii("type_tag"), Str(n.typeTag))] + state;
    Leaves(n.node, n.typeTag);
    StateSpelled(n.state);
    Marks();
  }

  lemma PayloadSpelled(node: int, payload: IpcValue)
    ensures Written(WithPayload(node, payload)) == PayloadText(node, payload)
  {
    hide Written, Put, And, IntText, ValueToJson, ValueText;
    var members := [Member(Ascii("node"), Int(node)), Member(Ascii("payload"), ValueToJson(payload))];
    TwoFields("node", Int(node), "payload", ValueToJson(payload), []);
    assert members + [] == members;
    Leaves(node, []);
    ValueSpelled(payload);
    Marks();
  }

  lemma CountedSpelled(name: string, i: int)
    requires Plain(name)
    ensures Written(OneInt(Ascii(name), i)) == Counted(name, i)
  {
    hide Written, Put, IntText;
    LoneField(name, Int(i));
    Leaves(i, []);
    Marks();
  }

  lemma OpSpelled(op: DeltaOp)
    ensures Written(OpToJson(op)) == OpText(op)
  {
    hide Written, Only, WithPayload, PayloadText, NodeToJson, NodeText, EdgeToJson, EdgeText, Counted, OneInt;
    match op
    case CellSet(node, payload) =>
      PayloadSpelled(node, payload);
      LoneField("CellSet", WithPayload(node, payload));
    case SlotValue(node, payload) =>
      PayloadSpelled(node, payload);
      LoneField("SlotValue", WithPayload(node, payload));
    case QueuePush(node, payload) =>
      PayloadSpelled(node, payload);
      LoneField("QueuePush", WithPayload(node, payload));
    case NodeAdd(node, typeTag, state, key) =>
      var n := NodeSnapshot(node, typeTag, state, key);
      NodeSpelled(n);
      LoneField("NodeAdd", NodeToJson(n));
    case EdgeAdd(dependent, dependency) =>
      EdgeSpelled(dependent, dependency);
      LoneField("EdgeAdd", EdgeToJson(EdgeSnapshot(dependent, dependency)));
    case EdgeRemove(dependent, dependency) =>
      EdgeSpelled(dependent, dependency);
      LoneField("EdgeRemove", EdgeToJson(EdgeSnapshot(dependent, dependency)));
    case Invalidate(node) => CountedSpelled("node", node); LoneField("Invalidate", OneInt(Ascii("node"), node));
    case NodeRemove(node) => CountedSpelled("node", node); LoneField("NodeRemove", OneInt(Ascii("node"), node));
    case QueuePop(node) => CountedSpelled("node", node); LoneField("QueuePop", OneInt(Ascii("node"), node));
    case QueueClose(node) => CountedSpelled("node", node); LoneField("QueueClose", OneInt(Ascii("node"), node));
  }

  lemma DeltaSpelled(d: Delta)
    ensures Written(DeltaToJson(d)) == DeltaText(d)
  {
    hide Written, Put, And, IntText, OpToJson, OpText, ToArray, Listed;
    var ops := Arr(ToArray(d.ops, OpToJson));
    forall k | 0 <= k < |d.ops| ensures Written(OpToJson(d.ops[k])) == OpText(d.ops[k]) { OpSpelled(d.ops[k]); }
    ArrayText(d.ops, OpToJson, OpText);
    FieldAnd("ops", ops, []);
    TwoFields("base_epoch", Int(d.baseEpoch), "epoch", Int(d.epoch), [Member(Ascii("ops"), ops)]);
    assert [Member(Ascii("ops"), ops)] + [] == [Member(Ascii("ops"), ops)];
    assert DeltaToJson(d).members
        == [Member(Ascii("base_epoch"), Int(d.baseEpoch)), Member(Ascii("epoch"), Int(d.epoch))]
           + [Member(Ascii("ops"), ops)];
    Leaves(d.baseEpoch, []);
    Leaves(d.epoch, []);
    Marks();
  }

  lemma SnapshotSpelled(s: Snapshot)
    ensures Written(SnapshotToJson(s)) == SnapshotText(s)
  {
    hide Written, Put, And, IntText, NodeToJson, EdgeToJson, NodeText, EdgeText, ToArray, Listed;
    var node := (n: NodeSnapshot) => NodeText(n.node, n.typeTag, n.state, n.key);
    var edge := (e: EdgeSnapshot) => EdgeText(e.dependent, e.dependency);
    forall k | 0 <= k < |s.nodes| ensures Written(NodeToJson(s.nodes[k])) == node(s.nodes[k]) {
      NodeSpelled(s.nodes[k]);
    }
    forall k | 0 <= k < |s.edges| ensures Written(EdgeToJson(s.edges[k])) == edge(s.edges[k]) {
      EdgeSpelled(s.edges[k].dependent, s.edges[k].dependency);
      assert s.edges[k] == EdgeSnapshot(s.edges[k].dependent, s.edges[k].dependency);
    }
    forall k | 0 <= k < |s.roots| ensures Written(IntToJson(s.roots[k])) == IntText(s.roots[k]) {
      Leaves(s.roots[k], []);
    }
    ArrayText(s.nodes, NodeToJson, node);
    ArrayText(s.edges, EdgeToJson, edge);
    ArrayText(s.roots, IntToJson, IntText);
    SnapshotFields(s.epoch, Arr(ToArray(s.nodes, NodeToJson)), Arr(ToArray(s.edges, EdgeToJson)),
                   Arr(ToArray(s.roots, IntToJson)));
  }

  lemma SnapshotFields(epoch: int, nodes: Value, edges: Value, roots: Value)
    ensures Written(Obj([Member(Ascii("epoch"), Int(epoch)), Member(Ascii("nodes"), nodes),
                Member(Ascii("edges"), edges), Member(Ascii("roots"), roots)]))
         == Ascii("{") + Put("epoch", IntText(epoch), And("nodes", Written(nodes), And("edges", Written(edges),
                And("roots", Written(roots), Ascii("}")))))
  {
    hide Written, Put, And, IntText, Fields;
    var last := Member(Ascii("roots"), roots);
    FieldAnd("roots", roots, []);
    assert [last] + [] == [last];
    FieldAnd("edges", edges, [last]);
    TwoFields("epoch", Int(epoch), "nodes", nodes, [Member(Ascii("edges"), edges)] + [last]);
    Nested(Member(Ascii("epoch"), Int(epoch)), Member(Ascii("nodes"), nodes), Member(Ascii("edges"), edges), last,
           last, []);
    Leaves(epoch, []);
    Marks();
  }

  lemma CrdtOpSpelled(op: CrdtOp)
    ensures Written(CrdtOpToJson(op)) == CrdtOpText(op)
  {
    hide Written, Put, And, IntText, Quoted, StampToJson, StampText, ValueToJson, ValueText;
    var key := if op.key.Some? then Str(op.key.val) else Null;
    var last := [Member(Ascii("state"), ValueToJson(op.state))];
    var two := [Member(Ascii("stamp"), StampToJson(op.stamp))] + last;
    FieldAnd("state", ValueToJson(op.state), []);
    assert last + [] == last;
    FieldAnd("stamp", StampToJson(op.stamp), last);
    TwoFields("node", Int(op.node), "key", key, two);
    assert CrdtOpToJson(op).members == [Member(Ascii("node"), Int(op.node)), Member(Ascii("key"), key)] + two;
    Leaves(op.node, if op.key.Some? then op.key.val else []);
    StampSpelled(op.stamp);
    ValueSpelled(op.state);
    Marks();
  }

  lemma EntrySpelled(e: FrontierEntry)
    ensures Written(EntryToJson(e)) == EntryText(e)
  {
    hide IntText, StampToJson, StampText;
    var items := [Int(e.peer), StampToJson(e.stamp)];
    StampSpelled(e.stamp);
    assert items[1..] == [StampToJson(e.stamp)];
    assert Written(Int(e.peer)) == IntText(e.peer);
    assert Items(Arr(items), items) == IntText(e.peer) + [COMMA] + Items(Arr(items), items[1..]);
    Marks();
  }

  lemma SyncSpelled(s: CrdtSync)
    ensures Written(SyncToJson(s)) == SyncText(s)
  {
    hide Written, Put, And, CrdtOpToJson, CrdtOpText, EntryToJson, EntryText, ToArray, Listed;
    forall k | 0 <= k < |s.ops| ensures Written(CrdtOpToJson(s.ops[k])) == CrdtOpText(s.ops[k]) {
      CrdtOpSpelled(s.ops[k]);
    }
    forall k | 0 <= k < |s.frontier| ensures Written(EntryToJson(s.frontier[k])) == EntryText(s.frontier[k]) {
      EntrySpelled(s.frontier[k]);
    }
    ArrayText(s.ops, CrdtOpToJson, CrdtOpText);
    ArrayText(s.frontier, EntryToJson, EntryText);
    var frontier, ops := Arr(ToArray(s.frontier, EntryToJson)), Arr(ToArray(s.ops, CrdtOpToJson));
    if s.frontier == [] {
      LoneField("ops", ops);
      assert [] + [Member(Ascii("ops"), ops)] == [Member(Ascii("ops"), ops)];
    } else {
      var members := [Member(Ascii("frontier"), frontier), Member(Ascii("ops"), ops)];
      TwoFields("frontier", frontier, "ops", ops, []);
      assert members + [] == members && SyncToJson(s).members == members;
    }
    Marks();
  }

  /** The text of a message, names, order and omissions included, is the one spelled out. */
  lemma MessageSpelled(m: IpcMessage)
    ensures Written(ToJson(m)) == MessageText(m)
  {
    hide Written, Only, SnapshotToJson, SnapshotText, DeltaToJson, DeltaText, SyncToJson, SyncText, OneInt, Counted;
    match m
    case SnapshotMsg(s) => SnapshotSpelled(s); LoneField("Snapshot", SnapshotToJson(s));
    case DeltaMsg(d) => DeltaSpelled(d); LoneField("Delta", DeltaToJson(d));
    case CrdtSyncMsg(s) => SyncSpelled(s); LoneField("CrdtSync", SyncToJson(s));
    case ResyncRequest(from) =>
      CountedSpelled("from_epoch", from);
      LoneField("ResyncRequest", OneInt(Ascii("from_epoch"), from));
    case OutboxAck(through) =>
      CountedSpelled("through_epoch", through);
      LoneField("OutboxAck", OneInt(Ascii("through_epoch"), through));
  }
}
