/** The lossless tree replica: local edits, anti-entropy, dependency buffering and rendering. */
module LosslessTree {
  import opened Options
  import opened TextOrder
  import opened TextCrdts
  import opened TreeHistory
  import opened TreeFrontier
  import opened TreeRender
  import opened TreeSteps
  import opened TreeKeys

  /** `ops` fits what is already known: well formed, and one operation per id. */
  ghost predicate Fits(known: History, ops: seq<TreeOp>) {
    && (forall i :: 0 <= i < |ops| ==> OpOk(ops[i]))
    && (forall i :: 0 <= i < |ops| && ops[i].id in known ==> known[ops[i].id] == ops[i])
    && (forall i, j :: 0 <= i < j < |ops| && ops[i].id == ops[j].id ==> ops[i] == ops[j])
  }

  ghost function Gathered(known: History, ops: seq<TreeOp>): History {
    if ops == [] then known else Gathered(known, ops[..|ops| - 1])[ops[|ops| - 1].id := ops[|ops| - 1]]
  }

  lemma {:induction false} GatheredHas(known: History, ops: seq<TreeOp>, id: OpId)
    requires Fits(known, ops)
    ensures id in Gathered(known, ops) <==> id in known || exists i :: 0 <= i < |ops| && ops[i].id == id
    ensures id in known ==> id in Gathered(known, ops) && Gathered(known, ops)[id] == known[id]
    ensures forall i :: 0 <= i < |ops| && ops[i].id == id ==>
          id in Gathered(known, ops) && Gathered(known, ops)[id] == ops[i]
    decreases |ops|
  {
    if ops != [] {
      var pre := ops[..|ops| - 1];
      GatheredHas(known, pre, id);
      assert ops == pre + [ops[|ops| - 1]];
    }
  }

  /** By counter, and under one counter by peer. */
  ghost predicate InOrder(ops: seq<TreeOp>) {
    forall i, j :: 0 <= i < j < |ops| ==>
        ops[i].id.counter < ops[j].id.counter
        || (ops[i].id.counter == ops[j].id.counter && ops[i].id.peer < ops[j].id.peer)
  }

  // ── What a replica keeps true, over the values of its fields ──

  ghost predicate TreeOk(received: History, log: seq<TreeOp>, d: Doc, counter: int) {
    && HistoryOk(received) && Causal(log) && Within(Applied(log), received)
    && 0 <= counter && (forall id :: id in received ==> id.counter <= counter)
    && DocOk(Applied(log), d)
  }

  ghost predicate FrontierOk(f: Frontier, log: seq<TreeOp>) {
    && Reduced(f)
    && (forall id: OpId :: 0 < id.counter ==> (Contains(f, id) <==> id in Applied(log)))
  }

  lemma HeldExactly(f: Frontier, log: seq<TreeOp>, known: History, ops: seq<TreeOp>, i: nat)
    requires FrontierOk(f, log) && Fits(known, ops) && i < |ops|
    ensures Contains(f, ops[i].id) <==> ops[i].id in Applied(log)
  {
    assert OpOk(ops[i]);
  }

  ghost predicate Kept(received: History, op: TreeOp) {
    op.id in received && received[op.id] == op
  }

  /** Received but not applied means waiting in `ops`. */
  ghost predicate Waiting(received: History, log: seq<TreeOp>, ops: seq<TreeOp>) {
    && (forall i :: 0 <= i < |ops| ==> Kept(received, ops[i]))
    && (forall id :: id in received && id !in Applied(log) ==> received[id] in ops)
  }

  ghost predicate Settled(received: History, log: seq<TreeOp>, d: Doc, counter: int, waiting: seq<TreeOp>) {
    TreeOk(received, log, d, counter) && Waiting(received, log, waiting) && Drained(received, Applied(log))
  }

  lemma AppliedOk(received: History, log: seq<TreeOp>, d: Doc, counter: int)
    requires TreeOk(received, log, d, counter)
    ensures HistoryOk(Applied(log)) && Closed(Applied(log))
  {
    CausalCloses(log);
  }

  /** Nothing waiting can have been waiting for an operation that did not exist yet. */
  lemma StaysDrained(received: History, a: History, op: TreeOp)
    requires Grows(a, op) && HistoryOk(received) && Drained(received, a)
    requires forall id :: id in received ==> id.counter < op.id.counter
    ensures Drained(received[op.id := op], a[op.id := op])
  {
    var r, b := received[op.id := op], a[op.id := op];
    forall id | id in r && id !in b ensures !Ready(b, r[id]) {
      if Ready(b, r[id]) { ReadyGrows(a, op, r[id]); }
    }
  }

  lemma FreshId(received: History, log: seq<TreeOp>, d: Doc, counter: int, id: OpId)
    requires TreeOk(received, log, d, counter) && id.counter > counter
    ensures id !in received && id !in Applied(log)
    ensures forall n :: n in d.nodes ==> HeldOk(log, d, n, id)
  {
    var a := Applied(log);
    AppliedOk(received, log, d, counter);
    forall n | n in d.nodes ensures HeldOk(log, d, n, id) {
      assert NodeOk(a, n, d.nodes[n]);
      if n != TREE_ROOT {
        assert IsStamp(a, n, d.nodes[n].stamp);
        assert d.nodes[n].stamp in a;
        ParentBefore(a, n);
      }
    }
  }

  /** A node seen by a replica about to mint `id`. */
  ghost predicate HeldOk(log: seq<TreeOp>, d: Doc, n: OpId, id: OpId)
    requires n in d.nodes
  {
    var x := d.nodes[n];
    && Before(n, id)
    && Born(Applied(log), n) == Some(Birth(x.parent, x.content))
    && (n != TREE_ROOT ==> Less(x.stamp, id) && x.parent.Some? && x.parent.val in d.nodes)
    && (x.content.LeafNode? ==>
          LeafIn(Applied(log), n) && x.textHead in Applied(log) && Before(x.textHead, id) && 0 < x.textHead.counter)
  }

  /** A replica mints `op`, and its tree becomes `d'`. */
  lemma Issue(received: History, log: seq<TreeOp>, d: Doc, counter: int, waiting: seq<TreeOp>, op: TreeOp, d': Doc,
      c: int)
    requires Settled(received, log, d, counter, waiting)
    requires c >= op.id.counter > counter && OpOk(op) && Ready(Applied(log), op)
    requires Grows(Applied(log), op) ==> DocOk(Applied(log)[op.id := op], d')
    ensures op.id !in received
    ensures Settled(received[op.id := op], log + [op], d', c, waiting)
  {
    hide DocOk, Causal;
    AppliedOk(received, log, d, counter);
    FreshId(received, log, d, counter, op.id);
    AppliedSnoc(log, op);
    StaysDrained(received, Applied(log), op);
  }

  lemma CreateIssued(received: History, log: seq<TreeOp>, d: Doc, counter: int, waiting: seq<TreeOp>, op: TreeOp,
      d': Doc, c: int)
    requires Settled(received, log, d, counter, waiting) && c >= op.id.counter > counter
    requires op.kind.CreateNode? && op.kind.created == op.id && op.kind.parent in d.nodes
    requires d' == Doc(
      d.nodes[op.id := Node(Some(op.kind.parent), op.kind.sort, op.id, ContentOf(op.kind.seed), None, op.id)],
      d.children[op.kind.parent := Attached(d, op.kind.parent) + [op.id]])
    ensures op.id !in received
    ensures Settled(received[op.id := op], log + [op], d', c, waiting)
  {
    hide Causal, Applied, DocOk, HistoryOk, Closed, Within, Waiting, Drained;
    FreshId(received, log, d, counter, op.id);
    assert HeldOk(log, d, op.kind.parent, op.id);
    if Grows(Applied(log), op) {
      DocExtended(Applied(log), op, d, d', d'.nodes[op.id], op.kind.parent);
    }
    Issue(received, log, d, counter, waiting, op, d', c);
  }

  /** A local edit of one node that makes none. */
  lemma TouchIssued(received: History, log: seq<TreeOp>, d: Doc, counter: int, waiting: seq<TreeOp>, op: TreeOp,
      y: Node, c: int)
    requires Settled(received, log, d, counter, waiting) && c >= op.id.counter > counter
    requires op.kind.Tombstone? || op.kind.Reorder? || (op.kind.LeafEdit? && op.kind.node in d.nodes
             && d.nodes[op.kind.node].content.LeafNode? && op.kind.prev == d.nodes[op.kind.node].textHead)
    requires op.kind.node in d.nodes
    requires var x := d.nodes[op.kind.node];
             match op.kind
             case Tombstone(_) => y == x.(tomb := Some(op.id))
             case Reorder(node, sort) => node != TREE_ROOT && y == x.(sort := sort, stamp := op.id)
             case _ => y == x.(textHead := op.id)
    ensures op.id !in received
    ensures Settled(received[op.id := op], log + [op], d.(nodes := d.nodes[op.kind.node := y]), c, waiting)
  {
    hide Causal, Applied, DocOk, HistoryOk, Closed, Within, Waiting, Drained, Born;
    var n := op.kind.node;
    FreshId(received, log, d, counter, op.id);
    assert HeldOk(log, d, n, op.id);
    var d' := d.(nodes := d.nodes[n := y]);
    if Grows(Applied(log), op) {
      DocTouched(Applied(log), op, d, d');
    }
    Issue(received, log, d, counter, waiting, op, d', c);
  }

  lemma SplitIssued(received: History, log: seq<TreeOp>, d: Doc, counter: int, waiting: seq<TreeOp>, op: TreeOp,
      p: OpId, d': Doc, c: int)
    requires Settled(received, log, d, counter, waiting) && c >= op.id.counter > counter
    requires op.kind.SplitLeaf? && op.kind.tail == op.id && op.kind.node in d.nodes
    requires var x := d.nodes[op.kind.node];
             && x.content.LeafNode? && op.kind.prev == x.textHead
             && p == (if x.parent.Some? then x.parent.val else TREE_ROOT)
             && d' == Doc(
               d.nodes[op.kind.node := x.(textHead := op.id)]
               [op.id := Node(Some(p), op.kind.sort, op.id, x.content, None, op.id)],
               d.children[p := Attached(d, p) + [op.id]])
    ensures op.id !in received
    ensures Settled(received[op.id := op], log + [op], d', c, waiting)
  {
    hide Causal, Applied, DocOk, HistoryOk, Closed, Within, Waiting, Drained, Born;
    FreshId(received, log, d, counter, op.id);
    assert HeldOk(log, d, op.kind.node, op.id);
    SplitReady(Applied(log), op);
    LeafHasParent(Applied(log), op.kind.node);
    if Grows(Applied(log), op) {
      SplitBorn(Applied(log), op);
      DocExtended(Applied(log), op, d, d', d'.nodes[op.id], p);
    }
    Issue(received, log, d, counter, waiting, op, d', c);
  }

  lemma MergeIssued(received: History, log: seq<TreeOp>, d: Doc, counter: int, waiting: seq<TreeOp>, op: TreeOp,
      tomb: OpId, c: int)
    requires Settled(received, log, d, counter, waiting) && c >= op.id.counter > counter
    requires op.kind.MergeLeaves? && op.kind.left in d.nodes && op.kind.right in d.nodes
    requires d.nodes[op.kind.left].content.LeafNode? && op.kind.prevLeft == d.nodes[op.kind.left].textHead
    requires d.nodes[op.kind.right].content.LeafNode? && op.kind.prevRight == d.nodes[op.kind.right].textHead
    requires tomb.counter >= op.id.counter
    ensures op.id !in received
    ensures var merged := d.nodes[op.kind.left := d.nodes[op.kind.left].(textHead := op.id)];
            var d' := d.(nodes := merged[op.kind.right := merged[op.kind.right].(tomb := Some(tomb))]);
            Settled(received[op.id := op], log + [op], d', c, waiting)
  {
    hide Causal, Applied, DocOk, HistoryOk, Closed, Within, Waiting, Drained, Born;
    FreshId(received, log, d, counter, op.id);
    assert HeldOk(log, d, op.kind.left, op.id);
    assert HeldOk(log, d, op.kind.right, op.id);
    var merged := d.nodes[op.kind.left := d.nodes[op.kind.left].(textHead := op.id)];
    var d' := d.(nodes := merged[op.kind.right := merged[op.kind.right].(tomb := Some(tomb))]);
    if Grows(Applied(log), op) {
      DocTouched(Applied(log), op, d, d');
    }
    Issue(received, log, d, counter, waiting, op, d', c);
  }

  lemma SplitReady(a: History, op: TreeOp)
    requires op.kind.SplitLeaf? && LeafIn(a, op.kind.node) && op.kind.prev in a
    ensures Ready(a, op)
  {
  }

  lemma CounterRaised(received: History, log: seq<TreeOp>, d: Doc, counter: int, waiting: seq<TreeOp>, c: int)
    requires Settled(received, log, d, counter, waiting) && counter <= c
    ensures Settled(received, log, d, c, waiting)
  {
  }

  lemma RootAlone(received: History, log: seq<TreeOp>, d: Doc, counter: int, waiting: seq<TreeOp>, n: OpId)
    requires Settled(received, log, d, counter, waiting) && n in d.nodes
    ensures d.nodes[n].parent.None? <==> n == TREE_ROOT
  {
    assert NodeOk(Applied(log), n, d.nodes[n]);
    AppliedOk(received, log, d, counter);
    if n != TREE_ROOT { ParentBefore(Applied(log), n); }
  }

  /** A tombstone is always younger than its node, so a local tombstoning is never skipped. */
  lemma TombLater(received: History, log: seq<TreeOp>, d: Doc, counter: int, waiting: seq<TreeOp>, n: OpId)
    requires Settled(received, log, d, counter, waiting) && n in d.nodes
    ensures d.nodes[n].tomb.Some? ==> !Less(d.nodes[n].tomb.val, n)
  {
    assert NodeOk(Applied(log), n, d.nodes[n]);
  }

  // ── A replica as a value, and its steps ──

  datatype Replica = Replica(received: History, log: seq<TreeOp>, doc: Doc, counter: int, waiting: seq<TreeOp>)

  ghost predicate ReplicaOk(r: Replica) {
    Settled(r.received, r.log, r.doc, r.counter, r.waiting)
  }

  ghost function Begun(peer: int): Replica {
    Replica(map[], [], Doc(
      map[TREE_ROOT := Node(None, SortKey([128], peer), OpId(0, peer), ElementNode("root"), None, OpId(0, 0))],
      map[]), 0, [])
  }

  lemma BegunOk(peer: int)
    ensures ReplicaOk(Begun(peer))
  {
    var d := Begun(peer).doc;
    forall p ensures KidsOk(d, p) { }
    assert NodeOk(map[], TREE_ROOT, d.nodes[TREE_ROOT]);
  }

  /** Peer `p` minted `op`; a merge takes a second id. */
  function Minted(r: Replica, p: int, op: TreeOp): Replica
    requires Mintable(r.doc, op)
  {
    Replica(r.received[op.id := op], r.log + [op], Made(r.doc, op, OpId(r.counter + 2, p)),
            r.counter + (if op.kind.MergeLeaves? then 2 else 1), r.waiting)
  }

  lemma MintedOk(r: Replica, p: int, op: TreeOp)
    requires ReplicaOk(r) && op.id == OpId(r.counter + 1, p) && Mintable(r.doc, op)
    ensures ReplicaOk(Minted(r, p, op)) && op.id !in r.received && OpOk(op)
  {
    hide Settled;
    var r' := Minted(r, p, op);
    match op.kind {
      case CreateNode(_, _, _, _) =>
        CreateIssued(r.received, r.log, r.doc, r.counter, r.waiting, op, r'.doc, r'.counter);
      case SplitLeaf(_, _, _, _, _) =>
        var leaf := r.doc.nodes[op.kind.node];
        SplitIssued(r.received, r.log, r.doc, r.counter, r.waiting, op,
                    if leaf.parent.Some? then leaf.parent.val else TREE_ROOT, r'.doc, r'.counter);
      case MergeLeaves(_, _, _, _) =>
        MergeIssued(r.received, r.log, r.doc, r.counter, r.waiting, op, OpId(r.counter + 2, p), r'.counter);
      case _ =>
        TouchIssued(r.received, r.log, r.doc, r.counter, r.waiting, op, r'.doc.nodes[op.kind.node], r'.counter);
    }
    assert r'.received[op.id] == op;
    SettledHistory(r');
  }

  lemma SettledHistory(r: Replica)
    requires ReplicaOk(r)
    ensures HistoryOk(r.received)
  {
  }

  /** A batch taken in: what is not applied yet waits with the rest, and all that waits is retried. */
  ghost function Took(r: Replica, ops: seq<TreeOp>): Replica {
    var q := Retried(Queue(r.log, r.doc, r.waiting + Lacking(r.log, ops)));
    Replica(Gathered(r.received, ops), q.log, q.doc, Clock(r.counter, ops), q.waiting)
  }

  lemma TookOk(r: Replica, ops: seq<TreeOp>)
    requires ReplicaOk(r) && Fits(r.received, ops)
    ensures ReplicaOk(Took(r, ops)) && r.log <= Took(r, ops).log && r.counter <= Took(r, ops).counter
  {
    hide Retried, TreeOk, Fits, Drained, Waiting, Clock;
    TakenIn(r, ops);
    RetriedOk(Gathered(r.received, ops), Queue(r.log, r.doc, r.waiting + Lacking(r.log, ops)), Clock(r.counter, ops));
  }

  lemma TookIs(r: Replica, ops: seq<TreeOp>)
    ensures var q := Retried(Queue(r.log, r.doc, r.waiting + Lacking(r.log, ops)));
            Took(r, ops) == Replica(Gathered(r.received, ops), q.log, q.doc, Clock(r.counter, ops), q.waiting)
  {
  }

  lemma BatchBegins(r: Replica, ops: seq<TreeOp>)
    ensures Clock(r.counter, ops[..0]) == r.counter && r.waiting + Lacking(r.log, ops[..0]) == r.waiting
  {
  }

  lemma BatchStep(r: Replica, ops: seq<TreeOp>, i: nat)
    requires i < |ops|
    ensures var c, w, op := Clock(r.counter, ops[..i]), r.waiting + Lacking(r.log, ops[..i]), ops[i];
            && Clock(r.counter, ops[..i + 1]) == (if op.id.counter > c then op.id.counter else c)
            && r.waiting + Lacking(r.log, ops[..i + 1]) == (if op.id in Applied(r.log) then w else w + [op])
  {
    assert ops[..i + 1][..i] == ops[..i] && ops[..i + 1][i] == ops[i];
    assert r.waiting + (Lacking(r.log, ops[..i]) + [ops[i]]) == r.waiting + Lacking(r.log, ops[..i]) + [ops[i]];
  }

  lemma TakenIn(r: Replica, ops: seq<TreeOp>)
    requires ReplicaOk(r) && Fits(r.received, ops)
    ensures var w := r.waiting + Lacking(r.log, ops);
            && TreeOk(Gathered(r.received, ops), r.log, r.doc, Clock(r.counter, ops))
            && Waiting(Gathered(r.received, ops), r.log, w)
  {
    hide TreeOk, Fits, Drained, Waiting;
    var w := r.waiting + Lacking(r.log, ops);
    forall op ensures op in w <==> op in r.waiting || (op in ops && op.id !in Applied(r.log)) {
      LackingHas(r.log, ops, op);
    }
    Delivered(r.received, r.log, r.doc, r.counter, r.waiting, ops, Clock(r.counter, ops), w);
  }

  // ── Applying what was received ──

  lemma DrainGrows(received: History, log: seq<TreeOp>, d: Doc, counter: int, op: TreeOp)
    requires TreeOk(received, log, d, counter) && Kept(received, op)
    requires op.id !in Applied(log) && Ready(Applied(log), op)
    ensures Grows(Applied(log), op)
  {
    AppliedOk(received, log, d, counter);
  }

  lemma DrainStep(received: History, log: seq<TreeOp>, counter: int, op: TreeOp, d: Doc, d': Doc, front: seq<TreeOp>,
      back: seq<TreeOp>)
    requires TreeOk(received, log, d, counter) && Waiting(received, log, front + [op] + back)
    requires op.id !in Applied(log) && Ready(Applied(log), op)
    requires DocOk(Applied(log)[op.id := op], d')
    ensures TreeOk(received, log + [op], d', counter) && Waiting(received, log + [op], front + back)
  {
    hide DocOk;
    AppliedSnoc(log, op);
    assert Kept(received, (front + [op] + back)[|front|]);
    WaitingWithout(received, log + [op], op, front, back);
  }

  lemma WaitingWithout(received: History, log: seq<TreeOp>, op: TreeOp, front: seq<TreeOp>, back: seq<TreeOp>)
    requires forall i :: 0 <= i < |front + [op] + back| ==> Kept(received, (front + [op] + back)[i])
    requires forall id :: id in received && id !in Applied(log) ==> received[id] in front + [op] + back
    requires HistoryOk(received) && op.id in Applied(log)
    ensures Waiting(received, log, front + back)
  {
    forall i | 0 <= i < |front + back| ensures Kept(received, (front + back)[i]) {
      var k := if i < |front| then i else i + 1;
      assert Kept(received, (front + [op] + back)[k]);
    }
    forall id | id in received && id !in Applied(log) ensures received[id] in front + back {
      assert received[id] in front + [op] + back && received[id].id == id;
    }
  }

  lemma Delivered(received: History, log: seq<TreeOp>, d: Doc, counter: int, waiting: seq<TreeOp>, ops: seq<TreeOp>,
                  c: int, w: seq<TreeOp>)
    requires Settled(received, log, d, counter, waiting) && Fits(received, ops)
    requires counter <= c && forall i :: 0 <= i < |ops| ==> ops[i].id.counter <= c
    requires forall op :: op in w <==> op in waiting || (op in ops && op.id !in Applied(log))
    ensures TreeOk(Gathered(received, ops), log, d, c) && Waiting(Gathered(received, ops), log, w)
  {
    hide DocOk, Causal;
    var r := Gathered(received, ops);
    forall id ensures id in received ==> id in r && r[id] == received[id] { GatheredHas(received, ops, id); }
    forall id | id in r ensures id.counter <= c && r[id].id == id && OpOk(r[id]) {
      GatheredHas(received, ops, id);
    }
    forall i | 0 <= i < |w| ensures Kept(r, w[i]) {
      assert w[i] in w;
      GatheredHas(received, ops, w[i].id);
      if w[i] in waiting {
        var k :| 0 <= k < |waiting| && waiting[k] == w[i];
        assert Kept(received, waiting[k]);
      }
    }
    forall id | id in r && id !in Applied(log) ensures r[id] in w {
      GatheredHas(received, ops, id);
    }
  }

  /** A pass loses nothing; one that applies nothing leaves only what is not ready. */
  lemma {:induction false} PassOk(received: History, q: Queue, pending: seq<TreeOp>, counter: int)
    requires TreeOk(received, q.log, q.doc, counter) && Waiting(received, q.log, q.waiting + pending)
    ensures var r := Pass(q, pending);
            && TreeOk(received, r.log, r.doc, counter) && Waiting(received, r.log, r.waiting)
            && (r.log == q.log ==> forall op :: op in r.waiting ==> op in q.waiting || !Ready(Applied(q.log), op))
    decreases |pending|
  {
    hide DocOk, Causal, Applied, TreeOk, Waiting, Ready;
    if pending == [] {
      assert q.waiting + pending == q.waiting;
    } else {
      var op, rest := pending[0], pending[1..];
      assert q.waiting + pending == q.waiting + [op] + rest;
      if op.id in Applied(q.log) {
        HistoryFits(received, q.log, q.doc, counter);
        SkipHeld(received, q.log, q.waiting, op, rest);
        PassOk(received, q, rest, counter);
      } else if Ready(Applied(q.log), op) {
        WaitingKeeps(received, q.log, q.waiting, op, rest);
        DrainGrows(received, q.log, q.doc, counter, op);
        TreeDoc(received, q.log, q.doc, counter);
        TendedOk(Applied(q.log), op, q.doc);
        DrainStep(received, q.log, counter, op, q.doc, Tended(q.doc, op), q.waiting, rest);
        PassOk(received, Queue(q.log + [op], Tended(q.doc, op), q.waiting), rest, counter);
      } else {
        assert q.waiting + [op] + rest == (q.waiting + [op]) + rest;
        PassOk(received, q.(waiting := q.waiting + [op]), rest, counter);
      }
    }
  }

  lemma PassBegins(log: seq<TreeOp>, d: Doc, pending: seq<TreeOp>)
    ensures [] + pending[0..] == pending && Pass(Queue(log, d, []), pending[0..]) == Pass(Queue(log, d, []), pending)
  {
    assert pending[0..] == pending;
  }

  lemma PassStep(q: Queue, pending: seq<TreeOp>, i: nat)
    requires i < |pending|
    ensures q.waiting + pending[i..] == q.waiting + [pending[i]] + pending[i + 1..]
    ensures var op, rest := pending[i], pending[i + 1..];
            Pass(q, pending[i..])
            == if op.id in Applied(q.log) then Pass(q, rest)
               else if Ready(Applied(q.log), op) then
                 Pass(Queue(q.log + [op], Tended(q.doc, op), q.waiting), rest)
               else Pass(q.(waiting := q.waiting + [op]), rest)
  {
    assert pending[i..][0] == pending[i] && pending[i..][1..] == pending[i + 1..];
  }

  lemma PassEnds(q: Queue, pending: seq<TreeOp>)
    ensures Pass(q, pending[|pending|..]) == q && q.waiting + pending[|pending|..] == q.waiting
  {
  }

  lemma RetriedStep(log: seq<TreeOp>, d: Doc, waiting: seq<TreeOp>)
    ensures var r := Pass(Queue(log, d, []), waiting);
            && Retried(Queue(log, d, waiting)) == (if r.log == log then r else Retried(r))
            && log <= r.log && |r.log| + |r.waiting| <= |log| + |waiting|
  {
  }

  lemma TreeDoc(received: History, log: seq<TreeOp>, d: Doc, counter: int)
    requires TreeOk(received, log, d, counter)
    ensures DocOk(Applied(log), d)
  {
  }

  lemma ClockOk(received: History, log: seq<TreeOp>, d: Doc, counter: int)
    requires TreeOk(received, log, d, counter)
    ensures 0 <= counter
  {
  }

  lemma HistoryFits(received: History, log: seq<TreeOp>, d: Doc, counter: int)
    requires TreeOk(received, log, d, counter)
    ensures HistoryOk(received)
  {
  }

  /** Retrying ends with nothing ready left waiting. */
  lemma {:induction false} RetriedOk(received: History, q: Queue, counter: int)
    requires TreeOk(received, q.log, q.doc, counter) && Waiting(received, q.log, q.waiting)
    ensures var r := Retried(q); Settled(received, r.log, r.doc, counter, r.waiting) && q.log <= r.log
    decreases |q.waiting|
  {
    hide TreeOk, Waiting, Ready, Applied, Pass;
    assert [] + q.waiting == q.waiting;
    var r := Pass(Queue(q.log, q.doc, []), q.waiting);
    PassOk(received, Queue(q.log, q.doc, []), q.waiting, counter);
    if r.log == q.log {
      DrainedNow(received, r.log, r.waiting);
    } else {
      RetriedOk(received, r, counter);
    }
  }

  lemma DrainedNow(received: History, log: seq<TreeOp>, waiting: seq<TreeOp>)
    requires Waiting(received, log, waiting)
    requires forall i :: 0 <= i < |waiting| ==> !Ready(Applied(log), waiting[i])
    ensures Drained(received, Applied(log))
  {
    forall id | id in received && id !in Applied(log) ensures !Ready(Applied(log), received[id]) {
      var i :| 0 <= i < |waiting| && waiting[i] == received[id];
    }
  }

  // ── Anti-entropy ──

  function InsertById(ops: seq<TreeOp>, op: TreeOp): (r: seq<TreeOp>)
    ensures forall x :: x in r <==> x in ops || x == op
  {
    if ops == [] || Less(op.id, ops[0].id) then [op] + ops
    else
      var r := [ops[0]] + InsertById(ops[1..], op);
      assert ops == [ops[0]] + ops[1..];
      r
  }

  lemma {:induction false} InsertInOrder(ops: seq<TreeOp>, op: TreeOp)
    requires InOrder(ops) && forall x :: x in ops ==> x.id != op.id
    ensures InOrder(InsertById(ops, op))
    decreases |ops|
  {
    if ops != [] && !Less(op.id, ops[0].id) {
      InsertInOrder(ops[1..], op);
      var t := InsertById(ops[1..], op);
      forall j | 0 <= j < |t| ensures Less(ops[0].id, t[j].id) {
        assert t[j] in t;
        if t[j] in ops[1..] {
          var k :| 0 <= k < |ops[1..]| && ops[1..][k] == t[j];
          assert ops[k + 1] == t[j];
        } else {
          assert ops[0] in ops;
        }
      }
    }
  }

  lemma LogHas(log: seq<TreeOp>, op: TreeOp)
    requires Causal(log)
    ensures op in log <==> op.id in Applied(log) && Applied(log)[op.id] == op
  {
    if op in log {
      var i :| 0 <= i < |log| && log[i] == op;
      AppliedHolds(log, i);
    } else if op.id in Applied(log) {
      var i := AppliedFrom(log, op.id);
    }
  }

  lemma WaitingKeeps(received: History, log: seq<TreeOp>, front: seq<TreeOp>, op: TreeOp, back: seq<TreeOp>)
    requires Waiting(received, log, front + [op] + back)
    ensures Kept(received, op)
  {
    assert (front + [op] + back)[|front|] == op;
  }

  lemma SkipHeld(received: History, log: seq<TreeOp>, front: seq<TreeOp>, op: TreeOp, back: seq<TreeOp>)
    requires HistoryOk(received) && Waiting(received, log, front + [op] + back) && op.id in Applied(log)
    ensures Waiting(received, log, front + back)
  {
    WaitingWithout(received, log, op, front, back);
  }

  /** A replica that is sent what it lacks, and drains, holds everything the sender had applied. */
  lemma CatchesUp(sender: seq<TreeOp>, received: History, log: seq<TreeOp>, ops: seq<TreeOp>, log': seq<TreeOp>)
    requires Causal(sender) && Causal(log) && Within(Applied(log), received) && Fits(received, ops)
    requires forall op :: op in ops <==> op in sender && op.id !in Applied(log)
    requires forall op :: op in sender && op.id in received ==> received[op.id] == op
    requires Within(Applied(log'), Gathered(received, ops)) && Drained(Gathered(received, ops), Applied(log'))
    ensures Within(Applied(sender), Applied(log'))
  {
    var r := Gathered(received, ops);
    forall id | id in Applied(sender) ensures id in r && r[id] == Applied(sender)[id] {
      var k := AppliedFrom(sender, id);
      assert sender[k] in sender;
      GatheredHas(received, ops, id);
      if id !in Applied(log) {
        var j :| 0 <= j < |ops| && ops[j] == sender[k];
      }
    }
    ReachesFurther(sender, r, Applied(log'));
  }

  class LosslessTree {
    const peer: int
    var counter: int
    var doc: Doc
    var log: seq<TreeOp>
    var frontier: Frontier
    var buffered: seq<TreeOp>
    /** Every operation made here or delivered here. */
    ghost var received: History

    ghost predicate Valid()
      reads this
    {
      0 <= counter && Settled(received, log, doc, counter, buffered) && FrontierOk(frontier, log)
    }

    ghost function State(): Replica
      reads this
    {
      Replica(received, log, doc, counter, buffered)
    }

    constructor (peer: int)
      ensures Valid() && this.peer == peer && State() == Begun(peer)
    {
      this.peer := peer;
      counter := 0;
      doc := Doc(
        map[TREE_ROOT := Node(None, SortKey([128], peer), OpId(0, peer), ElementNode("root"), None, OpId(0, 0))],
            map[]);
      log, frontier, buffered, received := [], map[], [], map[];
      new;
      BegunOk(peer);
    }

    /** A copy under another peer id, waiting operations included. */
    method Fork(newPeer: int) returns (clone: LosslessTree)
      requires Valid()
      ensures fresh(clone) && clone.Valid() && clone.peer == newPeer
      ensures clone.State() == State() && clone.frontier == frontier
    {
      clone := new LosslessTree(newPeer);
      clone.counter, clone.doc, clone.log, clone.frontier := counter, doc, log, frontier;
      clone.buffered, clone.received := buffered, received;
    }

    method NextId() returns (id: OpId)
      modifies this`counter
      ensures counter == old(counter) + 1 && id == OpId(counter, peer)
    {
      counter := counter + 1;
      id := OpId(counter, peer);
    }

    method Record(op: TreeOp)
      requires FrontierOk(frontier, log) && 0 < op.id.counter
      modifies this`frontier, this`log
      ensures FrontierOk(frontier, log) && log == old(log) + [op]
    {
      AppliedSnoc(log, op);
      frontier := TreeFrontier.Observe(frontier, op.id);
      log := log + [op];
    }

    // ── Local edits ──

    /** A local edit is minted, applied and logged, and nothing else. */
    twostate predicate Issued(op: TreeOp)
      reads this
    {
      && Valid() && op.id == OpId(old(counter) + 1, peer) && op.id !in old(received)
      && Mintable(old(doc), op) && State() == Minted(old(State()), peer, op)
    }

    twostate predicate Idle()
      reads this
    {
      Valid() && doc == old(doc) && log == old(log) && received == old(received) && buffered == old(buffered)
    }

    /** The key for a child of `parent` behind `after`, or in front of all. */
    method KeyBehind(parent: OpId, after: Option<OpId>) returns (key: SortKey)
      requires after.Some? ==> after.val in doc.nodes
      ensures key == SortKey(KeyFor(doc, parent, after), peer)
    {
      var right := FindRightSibling(doc, parent, after);
      var frac := TreeKeyBetween(
        if after.Some? then Some(doc.nodes[after.val].sort.frac) else None,
        if right.Some? then Some(doc.nodes[right.val].sort.frac) else None);
      key := SortKey(frac, peer);
    }

    /** A child of `parent` behind `after`; an id is spent even when there is no parent. */
    method CreateNode(parent: OpId, after: Option<OpId>, seed: Seed) returns (id: OpId)
      requires Valid() && (after.Some? ==> after.val in doc.nodes)
      modifies this
      ensures id == OpId(counter, peer) && counter == old(counter) + 1
      ensures parent in old(doc.nodes) ==>
                Issued(TreeOp(id, TreeOpKind.CreateNode(
                          id, parent, SortKey(KeyFor(old(doc), parent, after), peer), seed)))
      ensures parent !in old(doc.nodes) ==> Idle()
    {
      hide Settled, FrontierOk;
      ghost var r := State();
      id := NextId();
      CounterRaised(received, log, doc, old(counter), buffered, counter);
      if parent !in doc.nodes {
        return;
      }
      var key := KeyBehind(parent, after);
      var op := TreeOp(id, TreeOpKind.CreateNode(id, parent, key, seed));
      var x := Node(Some(parent), key, id, ContentOf(seed), None, id);
      MintedOk(r, peer, op);
      doc := Doc(doc.nodes[id := x], doc.children[parent := Attached(doc, parent) + [id]]);
      Record(op);
      received := received[id := op];
    }

    method TombstoneNode(node: OpId)
      requires Valid()
      modifies this
      ensures node in old(doc.nodes) ==>
                Issued(TreeOp(OpId(old(counter) + 1, peer), Tombstone(node)))
      ensures node !in old(doc.nodes) ==> Idle() && counter == old(counter)
    {
      hide Settled, FrontierOk;
      ghost var r := State();
      if node !in doc.nodes { return; }
      TombLater(received, log, doc, counter, buffered, node);
      if doc.nodes[node].tomb.Some? {
        if Less(doc.nodes[node].tomb.val, node) { return; }
      }
      var stamp := NextId();
      var op := TreeOp(stamp, Tombstone(node));
      MintedOk(r, peer, op);
      doc := doc.(nodes := doc.nodes[node := doc.nodes[node].(tomb := Some(stamp))]);
      Record(op);
      received := received[stamp := op];
    }

    /** Move `node` behind its sibling `after`, or in front of all; the root has none. */
    method ReorderChild(node: OpId, after: Option<OpId>)
      requires Valid() && (after.Some? ==> after.val in doc.nodes)
      modifies this
      ensures node in old(doc.nodes) && node != TREE_ROOT ==>
                && old(doc).nodes[node].parent.Some?
                && Issued(TreeOp(OpId(old(counter) + 1, peer), Reorder(
                          node, SortKey(KeyFor(old(doc), old(doc).nodes[node].parent.val, after), peer))))
      ensures node !in old(doc.nodes) || node == TREE_ROOT ==> Idle() && counter == old(counter)
    {
      hide Settled, FrontierOk;
      ghost var r := State();
      if node !in doc.nodes { return; }
      RootAlone(received, log, doc, counter, buffered, node);
      if doc.nodes[node].parent.None? { return; }
      var key := KeyBehind(doc.nodes[node].parent.val, after);
      var stamp := NextId();
      var op := TreeOp(stamp, Reorder(node, key));
      MintedOk(r, peer, op);
      doc := doc.(nodes := doc.nodes[node := doc.nodes[node].(sort := key, stamp := stamp)]);
      Record(op);
      received := received[stamp := op];
    }

    /** A change to a leaf's text. `edits` is the text delta the operation carries. */
    method EditLeaf(node: OpId, edits: seq<TextOp>)
      requires Valid()
      modifies this
      ensures Leaf(old(doc), node) ==>
                Issued(TreeOp(OpId(old(counter) + 1, peer), LeafEdit(node, old(doc).nodes[node].textHead, edits)))
      ensures !Leaf(old(doc), node) ==> Idle() && counter == old(counter)
    {
      hide Settled, FrontierOk;
      ghost var r := State();
      if node !in doc.nodes || !doc.nodes[node].content.LeafNode? { return; }
      var prev := doc.nodes[node].textHead;
      var stamp := NextId();
      var op := TreeOp(stamp, LeafEdit(node, prev, edits));
      MintedOk(r, peer, op);
      doc := doc.(nodes := doc.nodes[node := doc.nodes[node].(textHead := stamp)]);
      Record(op);
      received := received[stamp := op];
    }

    /** Cut a leaf in two; the tail is a new sibling, its key the leaf's carried on. */
    method SplitLeaf(node: OpId, atChar: int) returns (tail: OpId)
      requires Valid()
      modifies this
      ensures Leaf(old(doc), node) ==>
                && tail == OpId(old(counter) + 1, peer)
                && Issued(TreeOp(tail, TreeOpKind.SplitLeaf(
                          node, tail, SortKey(KeyBetween(Some(old(doc).nodes[node].sort.frac), None), peer), atChar,
                          old(doc).nodes[node].textHead)))
      ensures !Leaf(old(doc), node) ==> Idle() && counter == old(counter) && tail == OpId(0, 0)
    {
      hide Settled, FrontierOk;
      ghost var r := State();
      if node !in doc.nodes || !doc.nodes[node].content.LeafNode? { return OpId(0, 0); }
      var stamp := NextId();
      tail := stamp;
      var leaf := doc.nodes[node];
      var parent := if leaf.parent.Some? then leaf.parent.val else TREE_ROOT;
      var frac := TreeKeyBetween(Some(leaf.sort.frac), None);
      var x := Node(Some(parent), SortKey(frac, peer), tail, leaf.content, None, stamp);
      var op := TreeOp(stamp, TreeOpKind.SplitLeaf(node, tail, x.sort, atChar, leaf.textHead));
      MintedOk(r, peer, op);
      doc := Doc(
        doc.nodes[node := leaf.(textHead := stamp)][tail := x],
        doc.children[parent := Attached(doc, parent) + [tail]]);
      Record(op);
      received := received[stamp := op];
    }

    /** Join two leaves into the left one. The right one's tombstone gets an id of its own, so one
        counter value of this replica names no operation. */
    method MergeAdjacentLeaves(left: OpId, right: OpId)
      requires Valid()
      modifies this
      ensures Leaf(old(doc), left) && Leaf(old(doc), right) ==>
                && Issued(TreeOp(OpId(old(counter) + 1, peer),
                          MergeLeaves(left, right, old(doc).nodes[left].textHead, old(doc).nodes[right].textHead)))
                && right in doc.nodes && doc.nodes[right].tomb == Some(OpId(old(counter) + 2, peer))
      ensures !(Leaf(old(doc), left) && Leaf(old(doc), right)) ==> Idle() && counter == old(counter)
    {
      hide Settled, FrontierOk;
      ghost var r := State();
      if left !in doc.nodes || right !in doc.nodes { return; }
      if !doc.nodes[left].content.LeafNode? || !doc.nodes[right].content.LeafNode? { return; }
      var prevLeft, prevRight := doc.nodes[left].textHead, doc.nodes[right].textHead;
      var stamp := NextId();
      var op := TreeOp(stamp, MergeLeaves(left, right, prevLeft, prevRight));
      MintedOk(r, peer, op);
      var tomb := NextId();
      var merged := doc.nodes[left := doc.nodes[left].(textHead := stamp)];
      doc := doc.(nodes := merged[right := merged[right].(tomb := Some(tomb))]);
      Record(op);
      received := received[stamp := op];
    }

    // ── Remote operations ──

    /** Apply an operation whose dependencies are there, branch by branch. */
    method ApplyOp(op: TreeOp)
      requires DocOk(Applied(log), doc) && Grows(Applied(log), op)
      modifies this`doc
      ensures DocOk(Applied(log)[op.id := op], doc) && doc == Tended(old(doc), op)
    {
      TendedOk(Applied(log), op, doc);
      hide Applied, Grows, DocOk;
      match op.kind {
        case CreateNode(created, parent, sort, seed) =>
          if created !in doc.nodes {
            var x := Node(Some(parent), sort, op.id, ContentOf(seed), None, created);
            doc := Doc(doc.nodes[created := x], doc.children[parent := Attached(doc, parent) + [created]]);
          }
        case Tombstone(node) =>
          if node in doc.nodes {
            var x := doc.nodes[node];
            if x.tomb.None? || Less(op.id, x.tomb.val) {
              doc := doc.(nodes := doc.nodes[node := x.(tomb := Some(op.id))]);
            }
          }
        case Reorder(node, sort) =>
          if node in doc.nodes {
            var x := doc.nodes[node];
            if Less(x.stamp, op.id) {
              doc := doc.(nodes := doc.nodes[node := x.(sort := sort, stamp := op.id)]);
            }
          }
        case LeafEdit(node, prev, edits) =>
          if node in doc.nodes {
            var x := doc.nodes[node];
            if x.content.LeafNode? {
              doc := doc.(nodes := doc.nodes[node := x.(textHead := op.id)]);
            }
          }
        case SplitLeaf(node, tail, sort, atChar, prev) =>
          if node in doc.nodes && doc.nodes[node].content.LeafNode? {
            var leaf := doc.nodes[node];
            var x := Node(leaf.parent, sort, op.id, leaf.content, None, op.id);
            doc := doc.(nodes := doc.nodes[node := leaf.(textHead := op.id)][tail := x]);
            if leaf.parent.Some? {
              var p := leaf.parent.val;
              doc := doc.(children := doc.children[p := Attached(doc, p) + [tail]]);
            }
          }
        case MergeLeaves(left, right, prevLeft, prevRight) =>
          if left in doc.nodes && right in doc.nodes
             && doc.nodes[left].content.LeafNode? && doc.nodes[right].content.LeafNode? {
            var nodes := doc.nodes[left := doc.nodes[left].(textHead := op.id)];
            doc := doc.(nodes := nodes[right := nodes[right].(tomb := Some(op.id))]);
          }
      }
    }

    predicate DependenciesReady(op: TreeOp)
      reads this
    {
      match op.kind
      case CreateNode(_, parent, _, _) => parent in doc.nodes
      case Tombstone(node) => node in doc.nodes
      case Reorder(node, _) => node in doc.nodes
      case LeafEdit(node, prev, _) => node in doc.nodes && Contains(frontier, prev)
      case SplitLeaf(node, _, _, _, prev) => node in doc.nodes && Contains(frontier, prev)
      case MergeLeaves(left, right, prevLeft, prevRight) =>
        left in doc.nodes && right in doc.nodes && Contains(frontier, prevLeft) && Contains(frontier, prevRight)
    }

    lemma ReadyMeans(op: TreeOp)
      requires TreeOk(received, log, doc, counter) && FrontierOk(frontier, log) && OpOk(op)
      ensures DependenciesReady(op) <==> Ready(Applied(log), op)
      ensures Contains(frontier, op.id) <==> op.id in Applied(log)
    {
      hide Causal, Applied, Within, HistoryOk, NodeOk, KidsOk, Born;
    }

    /** Retry the buffer until a whole pass applies nothing. */
    method DrainBuffered()
      requires TreeOk(received, log, doc, counter) && FrontierOk(frontier, log) && Waiting(received, log, buffered)
      modifies this
      ensures 0 <= counter == old(counter) && received == old(received) && old(log) <= log
      ensures Settled(received, log, doc, counter, buffered) && FrontierOk(frontier, log)
      ensures Queue(log, doc, buffered) == Retried(old(Queue(log, doc, buffered)))
    {
      hide Causal, Applied, TreeOk, Waiting, FrontierOk, Ready, Contains, DependenciesReady, Pass, Retried;
      hide Settled;
      ghost var goal := Retried(Queue(log, doc, buffered));
      RetriedOk(received, Queue(log, doc, buffered), counter);
      ClockOk(received, log, doc, counter);
      while true
        invariant counter == old(counter) && received == old(received)
        invariant TreeOk(received, log, doc, counter) && FrontierOk(frontier, log) && Waiting(received, log, buffered)
        invariant goal == Retried(Queue(log, doc, buffered))
        decreases |buffered|
      {
        var progressed := false;
        var pending := buffered;
        buffered := [];
        ghost var start, startDoc := log, doc;
        ghost var passed := Pass(Queue(log, doc, []), pending);
        PassBegins(log, doc, pending);
        for i := 0 to |pending|
          invariant counter == old(counter) && received == old(received)
          invariant TreeOk(received, log, doc, counter) && FrontierOk(frontier, log)
          invariant Waiting(received, log, buffered + pending[i..])
          invariant passed == Pass(Queue(log, doc, buffered), pending[i..])
          invariant start <= log && (progressed <==> log != start)
        {
          var op := pending[i];
          ghost var rest := pending[i + 1..];
          PassStep(Queue(log, doc, buffered), pending, i);
          WaitingKeeps(received, log, buffered, op, rest);
          HistoryFits(received, log, doc, counter);
          ReadyMeans(op);
          if Contains(frontier, op.id) {
            SkipHeld(received, log, buffered, op, rest);
          } else if DependenciesReady(op) {
            DrainGrows(received, log, doc, counter, op);
            TreeDoc(received, log, doc, counter);
            ghost var d := doc;
            ApplyOp(op);
            DrainStep(received, log, counter, op, d, doc, buffered, rest);
            Record(op);
            progressed := true;
          } else {
            assert buffered + [op] + rest == (buffered + [op]) + rest;
            buffered := buffered + [op];
          }
        }
        PassEnds(Queue(log, doc, buffered), pending);
        RetriedStep(start, startDoc, pending);
        if !progressed { break; }
      }
    }

    /** Take in a batch from another replica. */
    method ApplyUpdate(ops: seq<TreeOp>)
      requires Valid() && Fits(received, ops)
      modifies this
      ensures Valid() && State() == Took(old(State()), ops) && old(log) <= log
    {
      hide Causal, Applied, DocOk, Settled, Took, Retried, FrontierOk, Fits, Contains, Clock, Lacking, Gathered;
      ghost var r := State();
      TookOk(r, ops);
      BatchBegins(r, ops);
      for i := 0 to |ops|
        invariant doc == r.doc && log == r.log && frontier == old(frontier) && received == r.received
        invariant counter == Clock(r.counter, ops[..i])
        invariant buffered == r.waiting + Lacking(r.log, ops[..i])
      {
        var op := ops[i];
        BatchStep(r, ops, i);
        HeldExactly(frontier, log, received, ops, i);
        if op.id.counter > counter { counter := op.id.counter; }
        if !Contains(frontier, op.id) {
          buffered := buffered + [op];
        }
      }
      assert ops[..|ops|] == ops;
      TakenIn(r, ops);
      TookIs(r, ops);
      received := Gathered(received, ops);
      DrainBuffered();
    }

    /** What the other side lacks, oldest first. */
    method Diff(their: Frontier) returns (ops: seq<TreeOp>)
      requires Causal(log)
      ensures InOrder(ops)
      ensures forall op :: op in ops <==> op in log && !Contains(their, op.id)
    {
      hide Causal, Applied;
      ops := [];
      for i := 0 to |log|
        invariant InOrder(ops)
        invariant forall op :: op in ops <==> op in log[..i] && !Contains(their, op.id)
      {
        assert log[..i + 1] == log[..i] + [log[i]];
        if !Contains(their, log[i].id) {
          forall x | x in ops ensures x.id != log[i].id {
            var k :| 0 <= k < i && log[k] == x;
            CausalApart(log, k, i);
          }
          InsertInOrder(ops, log[i]);
          ops := InsertById(ops, log[i]);
        }
      }
      assert log[..|log|] == log;
    }

    /** The live leaves in document order: exactly those with a wholly live ancestry, each once. */
    method Render() returns (out: seq<OpId>)
      requires Valid()
      ensures DistinctKeys(ShapeOf(doc)) ==>
                && out == Reading(ShapeOf(doc), TREE_ROOT) && NoDup(out)
                && forall x :: x in out <==>
                      x in doc.nodes && doc.nodes[x].content.LeafNode? && Shown(ShapeOf(doc), x, TREE_ROOT)
    {
      hide Shown, Reading, Readable, Rendable, DistinctKeys, Causal, Applied, DocOk;
      AppliedOk(received, log, doc, counter);
      DocReadable(Applied(log), doc);
      out := RenderNode(doc, TREE_ROOT);
      ReadingShows(ShapeOf(doc), TREE_ROOT);
    }
  }

  /** Two replicas that were given the same operations are the same tree, and read the same. */
  lemma Converged(a: LosslessTree, b: LosslessTree)
    requires a.Valid() && b.Valid() && a.received == b.received
    ensures Applied(a.log) == Applied(b.log)
    ensures ShapeOf(a.doc) == ShapeOf(b.doc)
    ensures Reading(ShapeOf(a.doc), TREE_ROOT) == Reading(ShapeOf(b.doc), TREE_ROOT)
  {
    AppliedIsDetermined(a.log, b.log, a.received);
    ShapeIsDetermined(Applied(a.log), a.doc, b.doc);
  }

  // ── Exchanges ──

  ghost function Both(a: History, b: History): History {
    map id | id in a.Keys + b.Keys :: if id in a then a[id] else b[id]
  }

  lemma AskedFor(sender: seq<TreeOp>, sent: History, received: History, log: seq<TreeOp>, f: Frontier,
                 universe: History, ops: seq<TreeOp>)
    requires HistoryOk(sent) && Causal(sender) && Within(Applied(sender), sent) && FrontierOk(f, log)
    requires Within(sent, universe) && Within(received, universe)
    requires forall op :: op in ops <==> op in sender && !Contains(f, op.id)
    ensures Fits(received, ops)
    ensures forall op :: op in ops <==> op in sender && op.id !in Applied(log)
    ensures forall op :: op in sender && op.id in received ==> received[op.id] == op
  {
    forall op | op in sender ensures OpOk(op) && op.id in universe && universe[op.id] == op {
      LogHas(sender, op);
      assert sent[op.id] == op;
    }
    forall i | 0 <= i < |ops| ensures OpOk(ops[i]) && ops[i].id in universe && universe[ops[i].id] == ops[i] {
      assert ops[i] in ops;
    }
  }

  lemma GatheredWithin(received: History, ops: seq<TreeOp>, universe: History)
    requires Fits(received, ops) && Within(received, universe)
    requires forall op :: op in ops ==> op.id in universe && universe[op.id] == op
    ensures Within(Gathered(received, ops), universe)
  {
    forall id | id in Gathered(received, ops) ensures id in universe && Gathered(received, ops)[id] == universe[id] {
      GatheredHas(received, ops, id);
      if id !in received {
        var i :| 0 <= i < |ops| && ops[i].id == id;
        assert ops[i] in ops;
      }
    }
  }

  /** Nothing was waiting, so nothing but the sender's operations can have been added. */
  lemma OnlyThese(received: History, log: seq<TreeOp>, sender: seq<TreeOp>, ops: seq<TreeOp>)
    requires Waiting(received, log, []) && Within(Applied(log), received) && Causal(sender) && Fits(received, ops)
    requires forall op :: op in ops ==> op in sender && op.id !in Applied(log)
    ensures Within(Gathered(received, ops), Both(Applied(log), Applied(sender)))
  {
    var all := Both(Applied(log), Applied(sender));
    forall id | id in Gathered(received, ops) ensures id in all && Gathered(received, ops)[id] == all[id] {
      GatheredHas(received, ops, id);
      if id !in received {
        var i :| 0 <= i < |ops| && ops[i].id == id;
        assert ops[i] in ops;
        LogHas(sender, ops[i]);
      }
    }
  }

  /** `to` asks `from` for what it lacks and applies it. */
  method Pull(from: LosslessTree, to: LosslessTree, ghost universe: History)
    requires from != to && from.Valid() && to.Valid()
    requires Within(from.received, universe) && Within(to.received, universe)
    modifies to
    ensures from.Valid() && to.Valid() && Within(to.received, universe)
    ensures old(to.log) <= to.log && Within(Applied(from.log), Applied(to.log))
    ensures forall id: OpId :: 0 < id.counter && Contains(from.frontier, id) ==> Contains(to.frontier, id)
    ensures old(to.buffered) == [] ==> Within(Applied(to.log), Both(old(Applied(to.log)), Applied(from.log)))
  {
    hide Causal, Applied, DocOk, Fits, Drained, Waiting, HistoryOk, Contains, Reduced;
    ghost var received, log := to.received, to.log;
    var ops := from.Diff(to.frontier);
    AskedFor(from.log, from.received, received, log, to.frontier, universe, ops);
    forall op | op in ops ensures op.id in universe && universe[op.id] == op { LogHas(from.log, op); }
    to.ApplyUpdate(ops);
    CatchesUp(from.log, received, log, ops, to.log);
    GatheredWithin(received, ops, universe);
    if old(to.buffered) == [] {
      OnlyThese(received, log, from.log, ops);
    }
  }

  /** Two replicas that pull from each other hold the same operations and the same tree, provided
      the first had nothing waiting: what it waits for the second may never see. */
  method Exchange(a: LosslessTree, b: LosslessTree, ghost universe: History)
    requires a != b && a.Valid() && b.Valid()
    requires Within(a.received, universe) && Within(b.received, universe)
    modifies a, b
    ensures a.Valid() && b.Valid()
    ensures Within(old(Applied(a.log)), Applied(a.log)) && Within(old(Applied(b.log)), Applied(b.log))
    ensures Within(Applied(b.log), Applied(a.log))
    ensures old(a.buffered) == [] ==> Applied(a.log) == Applied(b.log) && ShapeOf(a.doc) == ShapeOf(b.doc)
  {
    hide Causal, Applied, DocOk, Drained, Waiting, HistoryOk, ShapeOf;
    ghost var before := b.log;
    Pull(a, b, universe);
    LogGrew(before, b.log);
    ghost var mine := a.log;
    Pull(b, a, universe);
    LogGrew(mine, a.log);
    if old(a.buffered) == [] {
      assert Applied(a.log) == Applied(b.log);
      ShapeIsDetermined(Applied(a.log), a.doc, b.doc);
    }
  }

  lemma {:induction false} LogGrew(log: seq<TreeOp>, more: seq<TreeOp>)
    requires log <= more && Causal(more)
    ensures Within(Applied(log), Applied(more))
    decreases |more|
  {
    if |log| < |more| {
      assert log <= more[..|more| - 1];
      LogGrew(log, more[..|more| - 1]);
    } else {
      assert log == more;
    }
  }

  lemma DocSwapped(r: Replica, d: Doc)
    requires ReplicaOk(r) && DocOk(Applied(r.log), d)
    ensures ReplicaOk(r.(doc := d))
  {
  }

  /** Replicas agree on which nodes are dead, not on the ids of the tombstones: a second deletion of a node replaces
      the id where it is made, and not where it arrives behind the first. */
  method TombstoneIdsDiffer(a: LosslessTree, node: OpId, peer: int) returns (b: LosslessTree)
    requires a.Valid() && node in a.doc.nodes && a.doc.nodes[node].tomb.None?
    modifies a
    ensures fresh(b) && a.Valid() && b.Valid() && b.log == a.log && b.received == a.received
    ensures node in a.doc.nodes && node in b.doc.nodes
    ensures a.doc.nodes[node].tomb.Some? && b.doc.nodes[node].tomb.Some?
    ensures a.doc.nodes[node].tomb != b.doc.nodes[node].tomb
  {
    hide Causal, Applied, DocOk, Settled, FrontierOk, Grows;
    b := a.Fork(peer);
    Deleted(a, b, node);
    Deleted(a, b, node);
  }

  /** `a` deletes `node` and `b` applies the deletion. */
  method Deleted(a: LosslessTree, b: LosslessTree, node: OpId)
    requires a != b && a.Valid() && b.Valid() && node in a.doc.nodes && node in b.doc.nodes
    requires b.log == a.log && b.received == a.received && b.buffered == a.buffered && b.counter == a.counter
    modifies a, b
    ensures a.Valid() && b.Valid()
    ensures b.log == a.log && b.received == a.received && b.buffered == a.buffered && b.counter == a.counter
    ensures node in a.doc.nodes && a.doc.nodes[node].tomb == Some(OpId(a.counter, a.peer))
    ensures a.counter == old(a.counter) + 1
    ensures var op := TreeOp(OpId(a.counter, a.peer), Tombstone(node));
            node in b.doc.nodes && b.doc == Tended(old(b.doc), op)
  {
    hide Causal, Applied, DocOk, Settled, FrontierOk, Grows;
    ghost var r, rb := a.State(), b.State();
    a.TombstoneNode(node);
    var op := TreeOp(OpId(a.counter, a.peer), Tombstone(node));
    MintedOk(rb, a.peer, op);
    MintGrows(rb, a.peer, op);
    b.ApplyOp(op);
    b.Record(op);
    b.received, b.counter := b.received[op.id := op], a.counter;
    AppliedSnoc(rb.log, op);
    DocSwapped(Minted(rb, a.peer, op), b.doc);
  }

  lemma NodesAreOld(r: Replica, id: OpId)
    requires ReplicaOk(r) && id !in r.received && 0 < id.counter
    ensures id !in r.doc.nodes && forall p :: id !in Attached(r.doc, p)
  {
    AppliedOk(r.received, r.log, r.doc, r.counter);
    forall p ensures id !in Attached(r.doc, p) { assert KidsOk(r.doc, p); }
  }

  /** Two children put one after the other at the same place, in front of all or behind a sibling that is not the
      last attached, have the same sort key: the order in which they are read is left open. */
  method PutTwice(t: LosslessTree, parent: OpId, after: Option<OpId>, seed: Seed) returns (b: OpId, c: OpId)
    requires t.Valid() && parent in t.doc.nodes && (after.Some? ==> after.val in t.doc.nodes)
    requires RightOf(t.doc, Attached(t.doc, parent), after).Some?
    modifies t
    ensures t.Valid() && b != c && b in t.doc.nodes && c in t.doc.nodes
    ensures t.doc.nodes[b].parent == Some(parent) == t.doc.nodes[c].parent
    ensures t.doc.nodes[b].tomb.None? && t.doc.nodes[c].tomb.None?
    ensures t.doc.nodes[b].sort == t.doc.nodes[c].sort && !DistinctKeys(ShapeOf(t.doc))
  {
    hide Causal, Applied, DocOk, Settled, FrontierOk, Grows, KeyFor, RightOf, DistinctKeys;
    ghost var r := t.State();
    b := t.CreateNode(parent, after, seed);
    NodesAreOld(r, b);
    SameKeyAgain(r.doc, parent, after, b, t.doc.nodes[b]);
    ghost var r1 := t.State();
    c := t.CreateNode(parent, after, seed);
    NodesAreOld(r1, c);
    SameKeys(t.doc, parent, b, c);
  }

  lemma SameKeys(d: Doc, p: OpId, b: OpId, c: OpId)
    requires b in d.nodes && c in d.nodes && b != c && b != TREE_ROOT && c != TREE_ROOT
    requires d.nodes[b].parent == Some(p) == d.nodes[c].parent && d.nodes[b].tomb.None? && d.nodes[c].tomb.None?
    requires d.nodes[b].sort == d.nodes[c].sort
    ensures !DistinctKeys(ShapeOf(d))
  {
    assert LiveChild(ShapeOf(d), p, b) && LiveChild(ShapeOf(d), p, c);
  }

  /** What can be minted may be applied next by whoever holds the same. */
  lemma MintGrows(r: Replica, p: int, op: TreeOp)
    requires ReplicaOk(r) && Mintable(r.doc, op) && op.id == OpId(r.counter + 1, p) && OpOk(op) && op.kind.Tombstone?
    ensures DocOk(Applied(r.log), r.doc) && Grows(Applied(r.log), op)
  {
    AppliedOk(r.received, r.log, r.doc, r.counter);
    FreshId(r.received, r.log, r.doc, r.counter, op.id);
    assert Born(Applied(r.log), op.kind.node).Some?;
  }
}
