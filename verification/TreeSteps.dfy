/** What one operation does to the tree: minted here, applied from elsewhere, and retried while it waits. */
module TreeSteps {
  import opened Options
  import opened TextOrder
  import opened TextCrdts
  import opened TreeHistory

  predicate Leaf(d: Doc, n: OpId) {
    n in d.nodes && d.nodes[n].content.LeafNode?
  }

  /** The replica that holds `d` can mint `op`. */
  predicate Mintable(d: Doc, op: TreeOp) {
    match op.kind
    case CreateNode(created, parent, _, _) => created == op.id && parent in d.nodes
    case Tombstone(node) => node in d.nodes
    case Reorder(node, _) => node in d.nodes && node != TREE_ROOT
    case LeafEdit(node, prev, _) => Leaf(d, node) && prev == d.nodes[node].textHead
    case SplitLeaf(node, tail, _, _, prev) => Leaf(d, node) && tail == op.id && prev == d.nodes[node].textHead
    case MergeLeaves(left, right, prevLeft, prevRight) =>
      && Leaf(d, left) && Leaf(d, right)
      && prevLeft == d.nodes[left].textHead && prevRight == d.nodes[right].textHead
  }

  function Touched(d: Doc, n: OpId, x: Node): Doc {
    d.(nodes := d.nodes[n := x])
  }

  function Grown(d: Doc, n: OpId, x: Node, parent: OpId): Doc {
    Doc(d.nodes[n := x], d.children[parent := Attached(d, parent) + [n]])
  }

  /** The leaf joined into the left one gets the tombstone `tomb`. */
  function Joined(d: Doc, op: TreeOp, tomb: OpId): Doc
    requires op.kind.MergeLeaves? && op.kind.left in d.nodes && op.kind.right in d.nodes
  {
    var merged := d.nodes[op.kind.left := d.nodes[op.kind.left].(textHead := op.id)];
    d.(nodes := merged[op.kind.right := merged[op.kind.right].(tomb := Some(tomb))])
  }

  /** A local edit.  A merge takes a second id, `spare`, for the tombstone of the leaf that goes. */
  function Made(d: Doc, op: TreeOp, spare: OpId): Doc
    requires Mintable(d, op)
  {
    match op.kind
    case CreateNode(_, parent, sort, seed) =>
      Grown(d, op.id, Node(Some(parent), sort, op.id, ContentOf(seed), None, op.id), parent)
    case Tombstone(node) => Touched(d, node, d.nodes[node].(tomb := Some(op.id)))
    case Reorder(node, sort) => Touched(d, node, d.nodes[node].(sort := sort, stamp := op.id))
    case LeafEdit(node, _, _) => Touched(d, node, d.nodes[node].(textHead := op.id))
    case SplitLeaf(node, tail, sort, _, _) =>
      var leaf := d.nodes[node];
      var parent := if leaf.parent.Some? then leaf.parent.val else TREE_ROOT;
      Grown(Touched(d, node, leaf.(textHead := op.id)), tail,
            Node(Some(parent), sort, tail, leaf.content, None, op.id), parent)
    case MergeLeaves(_, _, _, _) => Joined(d, op, spare)
  }

  /** An operation from elsewhere: the smaller tombstone wins, the later stamp wins, and what does not apply is
      passed over. */
  function Tended(d: Doc, op: TreeOp): Doc {
    match op.kind
    case CreateNode(created, parent, sort, seed) =>
      if created in d.nodes then d
      else Grown(d, created, Node(Some(parent), sort, op.id, ContentOf(seed), None, created), parent)
    case Tombstone(node) =>
      if node in d.nodes && (d.nodes[node].tomb.None? || Less(op.id, d.nodes[node].tomb.val))
      then Touched(d, node, d.nodes[node].(tomb := Some(op.id)))
      else d
    case Reorder(node, sort) =>
      if node in d.nodes && Less(d.nodes[node].stamp, op.id)
      then Touched(d, node, d.nodes[node].(sort := sort, stamp := op.id))
      else d
    case LeafEdit(node, _, _) =>
      if Leaf(d, node) then Touched(d, node, d.nodes[node].(textHead := op.id)) else d
    case SplitLeaf(node, tail, sort, _, _) =>
      if Leaf(d, node) then
        var leaf := d.nodes[node];
        var x := Node(leaf.parent, sort, op.id, leaf.content, None, op.id);
        var d1 := Touched(d, node, leaf.(textHead := op.id));
        if leaf.parent.Some? then Grown(d1, tail, x, leaf.parent.val) else Touched(d1, tail, x)
      else d
    case MergeLeaves(left, right, _, _) => if Leaf(d, left) && Leaf(d, right) then Joined(d, op, op.id) else d
  }

  lemma SplitBorn(a: History, op: TreeOp)
    requires Grows(a, op) && op.kind.SplitLeaf? && LeafIn(a, op.kind.node)
    ensures Born(a[op.id := op], op.id) == Born(a, op.kind.node)
  {
    BornGrows(a, op, op.kind.node);
  }

  lemma LeafMeans(a: History, d: Doc, n: OpId)
    requires DocOk(a, d)
    ensures Leaf(d, n) <==> LeafIn(a, n)
  {
    if n in d.nodes { assert NodeOk(a, n, d.nodes[n]); }
  }

  /** Whatever is ready leaves the tree saying what the applied set and it say. */
  lemma TendedOk(a: History, op: TreeOp, d: Doc)
    requires DocOk(a, d) && Grows(a, op)
    ensures DocOk(a[op.id := op], Tended(d, op))
  {
    match op.kind
    case CreateNode(_, _, _, _) => TendedCreate(a, op, d);
    case SplitLeaf(_, _, _, _, _) => TendedSplit(a, op, d);
    case _ => TendedTouch(a, op, d);
  }

  lemma TendedCreate(a: History, op: TreeOp, d: Doc)
    requires DocOk(a, d) && Grows(a, op) && op.kind.CreateNode?
    ensures DocOk(a[op.id := op], Tended(d, op))
  {
    NewIdUnborn(a, op);
    assert op.id !in d.nodes;
    var d' := Tended(d, op);
    assert Born(a[op.id := op], op.id) == Some(Birth(Some(op.kind.parent), ContentOf(op.kind.seed)));
    hide HistoryOk, Closed, NodeOk, KidsOk, Born, Ready;
    DocExtended(a, op, d, d', d'.nodes[op.id], op.kind.parent);
  }

  lemma TendedTouch(a: History, op: TreeOp, d: Doc)
    requires DocOk(a, d) && Grows(a, op) && !op.kind.CreateNode? && !op.kind.SplitLeaf?
    ensures DocOk(a[op.id := op], Tended(d, op))
  {
    hide HistoryOk, Closed, KidsOk, Dead, TopStamp;
    if op.kind.MergeLeaves? {
      LeafMeans(a, d, op.kind.left);
      LeafMeans(a, d, op.kind.right);
    }
    hide NodeOk, Born, Ready, LeafIn;
    DocTouched(a, op, d, Tended(d, op));
  }

  lemma TendedSplit(a: History, op: TreeOp, d: Doc)
    requires DocOk(a, d) && Grows(a, op) && op.kind.SplitLeaf?
    ensures DocOk(a[op.id := op], Tended(d, op))
  {
    hide HistoryOk, Closed, KidsOk, Dead, TopStamp;
    var node, d' := op.kind.node, Tended(d, op);
    LeafMeans(a, d, node);
    if Leaf(d, node) {
      assert NodeOk(a, node, d.nodes[node]);
      LeafHasParent(a, node);
      SplitBorn(a, op);
      NewIdUnborn(a, op);
      DocExtended(a, op, d, d', d'.nodes[op.id], d.nodes[node].parent.val);
    } else {
      DocTouched(a, op, d, d');
    }
  }

  // ── Retrying what waits ──

  datatype Queue = Queue(log: seq<TreeOp>, doc: Doc, waiting: seq<TreeOp>)

  /** One pass over `pending`: what is held already is dropped, what is ready is applied, the rest goes on waiting. */
  ghost function Pass(q: Queue, pending: seq<TreeOp>): (r: Queue)
    ensures q.log <= r.log && |r.log| + |r.waiting| <= |q.log| + |q.waiting| + |pending|
    decreases |pending|
  {
    if pending == [] then q
    else
      var op := pending[0];
      if op.id in Applied(q.log) then Pass(q, pending[1..])
      else if Ready(Applied(q.log), op) then
        Pass(Queue(q.log + [op], Tended(q.doc, op), q.waiting), pending[1..])
      else Pass(q.(waiting := q.waiting + [op]), pending[1..])
  }

  /** Passes until one applies nothing. */
  ghost function Retried(q: Queue): Queue
    decreases |q.waiting|
  {
    var r := Pass(Queue(q.log, q.doc, []), q.waiting);
    if r.log == q.log then r else Retried(r)
  }

  /** The operations of a batch that are not applied yet. */
  ghost function Lacking(log: seq<TreeOp>, ops: seq<TreeOp>): seq<TreeOp> {
    if ops == [] then []
    else
      var front, op := ops[..|ops| - 1], ops[|ops| - 1];
      if op.id in Applied(log) then Lacking(log, front) else Lacking(log, front) + [op]
  }

  lemma {:induction false} LackingHas(log: seq<TreeOp>, ops: seq<TreeOp>, op: TreeOp)
    ensures op in Lacking(log, ops) <==> op in ops && op.id !in Applied(log)
    decreases |ops|
  {
    if ops != [] {
      var front, last := ops[..|ops| - 1], ops[|ops| - 1];
      LackingHas(log, front, op);
      assert ops == front + [last];
    }
  }

  /** The clock after seeing a batch. */
  function Clock(counter: int, ops: seq<TreeOp>): (r: int)
    ensures counter <= r && forall i :: 0 <= i < |ops| ==> ops[i].id.counter <= r
    ensures r == counter || exists i :: 0 <= i < |ops| && r == ops[i].id.counter
  {
    if ops == [] then counter
    else
      var front, op := ops[..|ops| - 1], ops[|ops| - 1];
      var c := Clock(counter, front);
      assert forall i :: 0 <= i < |front| ==> ops[i] == front[i];
      if op.id.counter > c then op.id.counter else c
  }

  // ── Tombstone ids ──

  /** The tombstone a node carries is the least operation that deletes it: were that kept by every step, it would
      depend on the applied operations alone. */
  ghost predicate LeastTomb(a: History, d: Doc, n: OpId)
    requires n in d.nodes
  {
    d.nodes[n].tomb.Some? ==>
      var t := d.nodes[n].tomb.val;
      Kills(a, t, n) && forall k :: Kills(a, k, n) ==> k == t || Less(t, k)
  }

  /** No operation applied so far deletes `n` under a smaller id. */
  ghost predicate First(a: History, id: OpId, n: OpId) {
    forall k :: Kills(a, k, n) ==> Less(id, k)
  }

  /** Where it is kept, ids agree. */
  lemma TombsAgree(a: History, d1: Doc, d2: Doc, n: OpId)
    requires DocOk(a, d1) && DocOk(a, d2) && n in d1.nodes && n in d2.nodes
    requires LeastTomb(a, d1, n) && LeastTomb(a, d2, n)
    ensures d1.nodes[n].tomb == d2.nodes[n].tomb
  {
    assert NodeOk(a, n, d1.nodes[n]) && NodeOk(a, n, d2.nodes[n]);
  }

  /** An operation from elsewhere.  Of a node it does not delete it changes nothing; a tombstone keeps the least
      where it was kept, and restores it where it is itself the least and not above what is there; a merge has it if
      and only if nothing smaller was applied. */
  lemma RemoteTomb(a: History, op: TreeOp, d: Doc, n: OpId)
    requires DocOk(a, d) && Grows(a, op) && n in d.nodes
    ensures n in Tended(d, op).nodes
    ensures LeastTomb(a[op.id := op], Tended(d, op), n) <==>
        if !Ends(a, op, n) then LeastTomb(a, d, n)
        else if op.kind.MergeLeaves? then First(a, op.id, n)
        else LeastTomb(a, d, n) || (!Less(d.nodes[n].tomb.val, op.id) && First(a, op.id, n))
  {
    hide DocOk, Closed, HistoryOk, Tended;
    RemoteTombIs(a, op, d, n);
    KillersGrow(a, op, n);
    hide Kills, Ends, Born;
    var b, t := a[op.id := op], Tended(d, op).nodes[n].tomb;
    if !Ends(a, op, n) {
      assert forall k :: Kills(b, k, n) <==> Kills(a, k, n);
    } else if op.kind.MergeLeaves? || t == Some(op.id) {
      assert t == Some(op.id) && Kills(b, op.id, n);
      assert LeastTomb(b, Tended(d, op), n) <==> First(a, op.id, n);
    } else {
      assert t == d.nodes[n].tomb && Less(t.val, op.id);
    }
  }

  lemma KillersGrow(a: History, op: TreeOp, n: OpId)
    requires Grows(a, op) && n != op.id
    ensures forall k :: Kills(a[op.id := op], k, n) <==> Kills(a, k, n) || (k == op.id && Ends(a, op, n))
    ensures !Kills(a, op.id, n)
  {
    forall k ensures Kills(a[op.id := op], k, n) <==> Kills(a, k, n) || (k == op.id && Ends(a, op, n)) {
      KillsGrows(a, op, k, n);
    }
  }

  lemma RemoteTombIs(a: History, op: TreeOp, d: Doc, n: OpId)
    requires DocOk(a, d) && Grows(a, op) && n in d.nodes
    ensures n in Tended(d, op).nodes && n != op.id
    ensures d.nodes[n].tomb.None? <==> forall k :: !Kills(a, k, n)
    ensures Tended(d, op).nodes[n].tomb ==
        if !Ends(a, op, n) then d.nodes[n].tomb
        else if op.kind.MergeLeaves? then Some(op.id)
        else MinDel(d.nodes[n].tomb, Some(op.id))
  {
    NewIdUnborn(a, op);
    assert NodeOk(a, n, d.nodes[n]);
    if op.kind.MergeLeaves? {
      LeafMeans(a, d, op.kind.left);
      LeafMeans(a, d, op.kind.right);
    }
  }

  /** A local edit, its ids newer than all applied.  A tombstone has the least if and only if the node was alive; a
      merge never has it. */
  lemma LocalTomb(a: History, op: TreeOp, d: Doc, spare: OpId, n: OpId)
    requires DocOk(a, d) && Grows(a, op) && Mintable(d, op) && n in d.nodes
    requires (forall k :: k in a ==> k.counter < op.id.counter) && op.id.counter < spare.counter
    ensures n in Made(d, op, spare).nodes
    ensures LeastTomb(a[op.id := op], Made(d, op, spare), n) <==>
        if !Ends(a, op, n) then LeastTomb(a, d, n) else op.kind.Tombstone? && d.nodes[n].tomb.None?
  {
    hide DocOk, Closed, HistoryOk, Made;
    LocalTombIs(a, op, d, spare, n);
    KillersGrow(a, op, n);
    assert forall k :: Kills(a, k, n) ==> k in a;
    hide Kills, Ends, Born;
    var b := a[op.id := op];
    if !Ends(a, op, n) {
      assert forall k :: Kills(b, k, n) <==> Kills(a, k, n);
    } else if op.kind.MergeLeaves? {
      assert !Kills(b, spare, n);
    } else if d.nodes[n].tomb.Some? {
      var k :| Kills(a, k, n);
      assert Kills(b, k, n) && k != op.id && !Less(op.id, k);
    } else {
      assert forall k :: !Kills(a, k, n);
      assert Kills(b, op.id, n);
      forall k | Kills(b, k, n) ensures k == op.id { assert !Kills(a, k, n); }
    }
  }

  lemma LocalTombIs(a: History, op: TreeOp, d: Doc, spare: OpId, n: OpId)
    requires DocOk(a, d) && Grows(a, op) && Mintable(d, op) && n in d.nodes
    ensures n in Made(d, op, spare).nodes && n != op.id
    ensures d.nodes[n].tomb.None? <==> forall k :: !Kills(a, k, n)
    ensures Made(d, op, spare).nodes[n].tomb ==
        if !Ends(a, op, n) then d.nodes[n].tomb else Some(if op.kind.MergeLeaves? then spare else op.id)
    ensures Ends(a, op, n) ==> op.kind.MergeLeaves? || op.kind.Tombstone?
  {
    NewIdUnborn(a, op);
    assert NodeOk(a, n, d.nodes[n]);
    if op.kind.MergeLeaves? {
      LeafMeans(a, d, op.kind.left);
      LeafMeans(a, d, op.kind.right);
    }
  }

  lemma NewAlive(d: Doc, op: TreeOp, spare: OpId, n: OpId)
    requires n !in d.nodes
    ensures n in Tended(d, op).nodes ==> Tended(d, op).nodes[n].tomb.None?
    ensures Mintable(d, op) && n in Made(d, op, spare).nodes ==> Made(d, op, spare).nodes[n].tomb.None?
  {
  }

  /** So one merge, delivered once, leaves two ids: the replica that made it keeps the spare one. */
  lemma MergeIdsDiffer(d: Doc, op: TreeOp, spare: OpId)
    requires Mintable(d, op) && op.kind.MergeLeaves? && spare != op.id
    ensures var right := op.kind.right;
            && right in Made(d, op, spare).nodes && right in Tended(d, op).nodes
            && Made(d, op, spare).nodes[right].tomb != Tended(d, op).nodes[right].tomb
  {
  }
}
