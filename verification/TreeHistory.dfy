/** What a set of tree operations means, whatever order it was applied in. */
module TreeHistory {
  import opened Options
  import opened TextOrder
  import opened TextCrdts

  const TREE_ROOT := OpId(0, 0)

  datatype LeafKind = Token | Trivia | Raw | Error

  datatype SortKey = SortKey(frac: seq<int>, peer: int)

  datatype Content = ElementNode(elementKind: string) | LeafNode(leafKind: LeafKind)

  datatype Seed = SeedElement(element: string) | SeedLeaf(leaf: LeafKind, text: string)

  datatype TreeOpKind =
    | CreateNode(created: OpId, parent: OpId, sort: SortKey, seed: Seed)
    | Tombstone(node: OpId)
    | Reorder(node: OpId, sort: SortKey)
    | LeafEdit(node: OpId, prev: OpId, edits: seq<TextOp>)
    | SplitLeaf(node: OpId, tail: OpId, sort: SortKey, atChar: int, prev: OpId)
    | MergeLeaves(left: OpId, right: OpId, prevLeft: OpId, prevRight: OpId)

  datatype TreeOp = TreeOp(id: OpId, kind: TreeOpKind)

  /** Operations by id. */
  type History = map<OpId, TreeOp>

  function ContentOf(seed: Seed): Content {
    match seed
    case SeedElement(k) => ElementNode(k)
    case SeedLeaf(k, _) => LeafNode(k)
  }

  predicate Before(a: OpId, b: OpId) {
    0 <= a.counter < b.counter
  }

  /** What every operation minted by a replica satisfies: the node it makes has its own id, and
      everything it mentions is older than itself. */
  predicate OpOk(op: TreeOp) {
    && 0 < op.id.counter
    && match op.kind
       case CreateNode(created, parent, _, _) => created == op.id && Before(parent, op.id)
       case Tombstone(node) => Before(node, op.id)
       case Reorder(node, _) => Before(node, op.id)
       case LeafEdit(node, prev, _) => Before(node, op.id) && Before(prev, op.id) && 0 < prev.counter
       case SplitLeaf(node, tail, _, _, prev) =>
         tail == op.id && Before(node, op.id) && Before(prev, op.id) && 0 < prev.counter
       case MergeLeaves(left, right, prevLeft, prevRight) =>
         && Before(left, op.id) && Before(right, op.id)
         && Before(prevLeft, op.id) && 0 < prevLeft.counter
         && Before(prevRight, op.id) && 0 < prevRight.counter
  }

  ghost predicate HistoryOk(a: History) {
    forall id :: id in a ==> a[id].id == id && OpOk(a[id])
  }

  ghost predicate Within(a: History, b: History) {
    forall id :: id in a ==> id in b && a[id] == b[id]
  }

  // ── Nodes and readiness ──

  datatype Birth = Birth(parent: Option<OpId>, content: Content)

  /** The node with id `n`, if the operations make one. Splitting anything but a leaf makes none. */
  ghost function Born(a: History, n: OpId): Option<Birth>
    decreases n.counter, 0
  {
    if n == TREE_ROOT then Some(Birth(None, ElementNode("root")))
    else if n !in a then None
    else match a[n].kind
      case CreateNode(_, parent, _, seed) => Some(Birth(Some(parent), ContentOf(seed)))
      case SplitLeaf(node, _, _, _, _) =>
        if Before(node, n) && LeafIn(a, node) then Born(a, node) else None
      case _ => None
  }

  ghost predicate LeafIn(a: History, n: OpId)
    decreases n.counter, 1
  {
    Born(a, n).Some? && Born(a, n).val.content.LeafNode?
  }

  /** Everything the operation needs is there. */
  ghost predicate Ready(a: History, op: TreeOp) {
    match op.kind
    case CreateNode(_, parent, _, _) => Born(a, parent).Some?
    case Tombstone(node) => Born(a, node).Some?
    case Reorder(node, _) => Born(a, node).Some?
    case LeafEdit(node, prev, _) => Born(a, node).Some? && prev in a
    case SplitLeaf(node, _, _, _, prev) => Born(a, node).Some? && prev in a
    case MergeLeaves(left, right, prevLeft, prevRight) =>
      Born(a, left).Some? && Born(a, right).Some? && prevLeft in a && prevRight in a
  }

  lemma {:induction false} BornMonotone(a: History, b: History, n: OpId)
    requires Within(a, b) && Born(a, n).Some?
    ensures Born(b, n) == Born(a, n)
    decreases n.counter
  {
    if n != TREE_ROOT && a[n].kind.SplitLeaf? {
      BornMonotone(a, b, a[n].kind.node);
    }
  }

  lemma ReadyMonotone(a: History, b: History, op: TreeOp)
    requires Within(a, b) && Ready(a, op)
    ensures Ready(b, op)
  {
    match op.kind
    case CreateNode(_, parent, _, _) => BornMonotone(a, b, parent);
    case MergeLeaves(left, right, _, _) => BornMonotone(a, b, left); BornMonotone(a, b, right);
    case _ => BornMonotone(a, b, op.kind.node);
  }

  // ── Logs ──

  ghost function Applied(log: seq<TreeOp>): History {
    if log == [] then map[] else Applied(log[..|log| - 1])[log[|log| - 1].id := log[|log| - 1]]
  }

  /** Each operation was new and ready when it was applied. */
  ghost predicate Causal(log: seq<TreeOp>) {
    log == [] ||
    (var a := Applied(log[..|log| - 1]);
     var op := log[|log| - 1];
     Causal(log[..|log| - 1]) && Ready(a, op) && op.id !in a)
  }

  /** Nothing received is still waiting for no reason. */
  ghost predicate Drained(received: History, a: History) {
    forall id :: id in received && id !in a ==> !Ready(a, received[id])
  }

  lemma AppliedSnoc(log: seq<TreeOp>, op: TreeOp)
    ensures Applied(log + [op]) == Applied(log)[op.id := op]
    ensures Causal(log + [op]) == (Causal(log) && Ready(Applied(log), op) && op.id !in Applied(log))
  {
    assert (log + [op])[..|log|] == log;
  }

  lemma {:induction false} AppliedHolds(log: seq<TreeOp>, i: nat)
    requires i < |log| && Causal(log)
    ensures log[i].id in Applied(log) && Applied(log)[log[i].id] == log[i]
    decreases |log|
  {
    var pre := log[..|log| - 1];
    if i < |pre| { AppliedHolds(pre, i); }
  }

  lemma {:induction false} AppliedFrom(log: seq<TreeOp>, id: OpId) returns (i: nat)
    requires id in Applied(log)
    ensures i < |log| && log[i].id == id && log[i] == Applied(log)[id]
  {
    if log[|log| - 1].id == id {
      i := |log| - 1;
    } else {
      i := AppliedFrom(log[..|log| - 1], id);
    }
  }

  lemma {:induction false} CausalApart(log: seq<TreeOp>, i: nat, j: nat)
    requires i < j < |log| && Causal(log)
    ensures log[i].id != log[j].id
    decreases |log|
  {
    var pre := log[..|log| - 1];
    if j < |pre| {
      CausalApart(pre, i, j);
    } else {
      AppliedHolds(pre, i);
    }
  }

  /** Whatever one replica managed to apply, a drained replica that received as much has applied
      too: the order of arrival does not matter. */
  lemma {:induction false} ReachesFurther(log: seq<TreeOp>, received: History, b: History)
    requires Causal(log) && Within(Applied(log), received)
    requires Within(b, received) && Drained(received, b)
    ensures Within(Applied(log), b)
    decreases |log|
  {
    if log != [] {
      var pre := log[..|log| - 1];
      var op := log[|log| - 1];
      assert Within(Applied(pre), received) by {
        forall id | id in Applied(pre) ensures id in received && received[id] == Applied(pre)[id] {
          assert Applied(log)[id] == Applied(pre)[id];
        }
      }
      ReachesFurther(pre, received, b);
      ReadyMonotone(Applied(pre), b, op);
      assert received[op.id] == op;
    }
  }

  /** The applied operations are a function of the received ones. */
  lemma AppliedIsDetermined(log1: seq<TreeOp>, log2: seq<TreeOp>, received: History)
    requires Causal(log1) && Within(Applied(log1), received) && Drained(received, Applied(log1))
    requires Causal(log2) && Within(Applied(log2), received) && Drained(received, Applied(log2))
    ensures Applied(log1) == Applied(log2)
  {
    ReachesFurther(log1, received, Applied(log2));
    ReachesFurther(log2, received, Applied(log1));
  }

  /** What was applied has all it needs. */
  ghost predicate Closed(a: History) {
    forall id :: id in a ==> Ready(a, a[id])
  }

  lemma {:induction false} CausalCloses(log: seq<TreeOp>)
    requires Causal(log)
    ensures Closed(Applied(log))
    decreases |log|
  {
    if log != [] {
      var pre := log[..|log| - 1];
      CausalCloses(pre);
      assert Within(Applied(pre), Applied(log));
      forall id | id in Applied(log) ensures Ready(Applied(log), Applied(log)[id]) {
        ReadyMonotone(Applied(pre), Applied(log), Applied(log)[id]);
      }
    }
  }

  // ── One more operation ──

  ghost predicate Grows(a: History, op: TreeOp) {
    HistoryOk(a) && Closed(a) && OpOk(op) && op.id !in a && Ready(a, op)
  }

  lemma {:induction false} BornGrows(a: History, op: TreeOp, n: OpId)
    requires Grows(a, op) && n != op.id
    ensures Born(a[op.id := op], n) == Born(a, n)
    decreases n.counter
  {
    var b := a[op.id := op];
    assert Within(a, b);
    if n in a && n != TREE_ROOT && a[n].kind.SplitLeaf? {
      assert Ready(a, a[n]);
      assert a[n].kind.node != op.id;
      BornGrows(a, op, a[n].kind.node);
    }
  }

  lemma ReadyGrows(a: History, op: TreeOp, other: TreeOp)
    requires Grows(a, op) && OpOk(other) && other.id.counter <= op.id.counter && Ready(a[op.id := op], other)
    ensures Ready(a, other)
  {
    match other.kind
    case CreateNode(_, parent, _, _) => BornGrows(a, op, parent);
    case MergeLeaves(left, right, _, _) => BornGrows(a, op, left); BornGrows(a, op, right);
    case _ => BornGrows(a, op, other.kind.node);
  }

  // ── Structure ──

  /** `s` places the node `n`: its own creation or a later reordering. */
  ghost predicate IsStamp(a: History, n: OpId, s: OpId) {
    s == n || (s in a && a[s].kind.Reorder? && a[s].kind.node == n)
  }

  ghost predicate TopStamp(a: History, n: OpId, s: OpId) {
    IsStamp(a, n, s) && forall t :: IsStamp(a, n, t) ==> t == s || Less(t, s)
  }

  ghost function KeyAt(a: History, s: OpId): SortKey {
    if s in a && (a[s].kind.CreateNode? || a[s].kind.Reorder? || a[s].kind.SplitLeaf?)
    then a[s].kind.sort
    else SortKey([], 0)
  }

  ghost predicate Kills(a: History, id: OpId, n: OpId) {
    id in a &&
    match a[id].kind
    case Tombstone(node) => node == n
    case MergeLeaves(left, right, _, _) => right == n && LeafIn(a, left) && LeafIn(a, right)
    case _ => false
  }

  ghost predicate Dead(a: History, n: OpId) {
    exists id :: Kills(a, id, n)
  }

  datatype Node = Node(
    parent: Option<OpId>, sort: SortKey, stamp: OpId, content: Content, tomb: Option<OpId>, textHead: OpId)

  /** The tree: nodes by id, and each parent's children as they were attached. */
  datatype Doc = Doc(nodes: map<OpId, Node>, children: map<OpId, seq<OpId>>)

  function Attached(d: Doc, p: OpId): seq<OpId> {
    if p in d.children then d.children[p] else []
  }

  ghost predicate NodeOk(a: History, n: OpId, x: Node) {
    && Born(a, n) == Some(Birth(x.parent, x.content))
    && (n != TREE_ROOT ==> TopStamp(a, n, x.stamp) && x.sort == KeyAt(a, x.stamp))
    && (x.tomb.Some? <==> Dead(a, n)) && (x.tomb.Some? ==> Before(n, x.tomb.val))
    && (x.content.LeafNode? ==> x.textHead in a)
  }

  ghost predicate KidsOk(d: Doc, p: OpId) {
    && NoDup(Attached(d, p))
    && forall n :: n in Attached(d, p) <==> n in d.nodes && d.nodes[n].parent == Some(p)
  }

  /** The tree is what the applied operations say. */
  ghost predicate DocOk(a: History, d: Doc) {
    && (forall n :: n in d.nodes <==> Born(a, n).Some?)
    && (forall n :: n in d.nodes ==> NodeOk(a, n, d.nodes[n]))
    && (forall p :: KidsOk(d, p))
  }

  ghost predicate Places(op: TreeOp, n: OpId) {
    op.kind.Reorder? && op.kind.node == n
  }

  ghost predicate Ends(a: History, op: TreeOp, n: OpId) {
    (op.kind.Tombstone? && op.kind.node == n)
    || (op.kind.MergeLeaves? && op.kind.right == n && LeafIn(a, op.kind.left) && LeafIn(a, op.kind.right))
  }

  lemma StampGrows(a: History, op: TreeOp, n: OpId, s: OpId)
    requires Grows(a, op) && n != op.id
    ensures IsStamp(a[op.id := op], n, s) <==> IsStamp(a, n, s) || (s == op.id && Places(op, n))
  {
  }

  lemma KillsGrows(a: History, op: TreeOp, id: OpId, n: OpId)
    requires Grows(a, op) && n != op.id
    ensures Kills(a[op.id := op], id, n) <==> Kills(a, id, n) || (id == op.id && Ends(a, op, n))
  {
    var b := a[op.id := op];
    if id in a && a[id].kind.MergeLeaves? {
      assert Ready(a, a[id]);
      if a[id].kind.left != op.id { BornGrows(a, op, a[id].kind.left); }
      if a[id].kind.right != op.id { BornGrows(a, op, a[id].kind.right); }
    }
    if id == op.id && op.kind.MergeLeaves? {
      BornGrows(a, op, op.kind.left);
      BornGrows(a, op, op.kind.right);
    }
  }

  lemma DeadGrows(a: History, op: TreeOp, n: OpId)
    requires Grows(a, op) && n != op.id
    ensures Dead(a[op.id := op], n) <==> Dead(a, n) || Ends(a, op, n)
  {
    var b := a[op.id := op];
    if Dead(a, n) {
      var id :| Kills(a, id, n);
      KillsGrows(a, op, id, n);
    }
    if Ends(a, op, n) { KillsGrows(a, op, op.id, n); }
    if Dead(b, n) {
      var id :| Kills(b, id, n);
      KillsGrows(a, op, id, n);
    }
  }

  /** What a node must look like after `op`, given what it looked like before. */
  ghost predicate Follows(a: History, op: TreeOp, n: OpId, x: Node, y: Node) {
    && y.parent == x.parent && y.content == x.content
    && (if Places(op, n) && Less(x.stamp, op.id)
        then y.stamp == op.id && y.sort == op.kind.sort
        else y.stamp == x.stamp && y.sort == x.sort)
    && (if Ends(a, op, n) then y.tomb.Some? && (y.tomb == x.tomb || op.id.counter <= y.tomb.val.counter)
        else y.tomb == x.tomb)
    && (y.textHead == x.textHead || y.textHead == op.id)
  }

  lemma NodeGrows(a: History, op: TreeOp, n: OpId, x: Node, y: Node)
    requires Grows(a, op) && n != op.id && NodeOk(a, n, x) && Follows(a, op, n, x, y)
    ensures NodeOk(a[op.id := op], n, y)
  {
    var b := a[op.id := op];
    BornGrows(a, op, n);
    DeadGrows(a, op, n);
    if n != TREE_ROOT {
      assert n in a;
      StampGrows(a, op, n, op.id);
      StampGrows(a, op, n, x.stamp);
      forall t | IsStamp(b, n, t) ensures t == y.stamp || Less(t, y.stamp) {
        StampGrows(a, op, n, t);
      }
    }
  }

  lemma NewIdUnborn(a: History, op: TreeOp)
    requires Grows(a, op)
    ensures Born(a, op.id).None?
  {
  }

  /** No operation already applied speaks of an id that is new. */
  lemma NewNodeOk(a: History, op: TreeOp, x: Node)
    requires Grows(a, op)
    requires Born(a[op.id := op], op.id) == Some(Birth(x.parent, x.content))
    requires x.stamp == op.id && x.sort == op.kind.sort && x.tomb.None? && (x.content.LeafNode? ==> x.textHead == op.id)
    requires op.kind.CreateNode? || op.kind.SplitLeaf?
    ensures NodeOk(a[op.id := op], op.id, x)
  {
    var b := a[op.id := op];
    NewIdUnborn(a, op);
    forall t ensures IsStamp(b, op.id, t) ==> t == op.id {
      if t in a && a[t].kind.Reorder? { assert Ready(a, a[t]); }
    }
    forall id ensures !Kills(b, id, op.id) {
      if id in a { assert Ready(a, a[id]); }
    }
  }

  /** An operation that makes no node. */
  lemma DocTouched(a: History, op: TreeOp, d: Doc, d': Doc)
    requires Grows(a, op) && DocOk(a, d)
    requires !op.kind.CreateNode? && !(op.kind.SplitLeaf? && LeafIn(a, op.kind.node))
    requires d'.children == d.children && d'.nodes.Keys == d.nodes.Keys
    requires forall n :: n in d.nodes ==> Follows(a, op, n, d.nodes[n], d'.nodes[n])
    ensures DocOk(a[op.id := op], d')
  {
    var b := a[op.id := op];
    NewIdUnborn(a, op);
    forall n ensures n in d'.nodes <==> Born(b, n).Some? {
      if n != op.id {
        BornGrows(a, op, n);
        assert n in d.nodes.Keys <==> n in d'.nodes.Keys;
      } else {
        assert n !in d.nodes.Keys;
        if op.kind.SplitLeaf? { BornGrows(a, op, op.kind.node); }
      }
    }
    forall n | n in d'.nodes ensures NodeOk(b, n, d'.nodes[n]) {
      assert n in d.nodes.Keys;
      NodeGrows(a, op, n, d.nodes[n], d'.nodes[n]);
    }
    forall p ensures KidsOk(d', p) {
      assert KidsOk(d, p) && Attached(d', p) == Attached(d, p);
      forall n ensures n in d'.nodes && d'.nodes[n].parent == Some(p) <==>
            n in d.nodes && d.nodes[n].parent == Some(p) {
        assert n in d.nodes.Keys <==> n in d'.nodes.Keys;
      }
    }
  }

  /** An operation that makes the node `op.id`. */
  lemma DocExtended(a: History, op: TreeOp, d: Doc, d': Doc, x: Node, p: OpId)
    requires Grows(a, op) && DocOk(a, d)
    requires op.kind.CreateNode? || (op.kind.SplitLeaf? && LeafIn(a, op.kind.node))
    requires Born(a[op.id := op], op.id) == Some(Birth(x.parent, x.content)) && x.parent == Some(p)
    requires x.stamp == op.id && x.sort == op.kind.sort && x.tomb.None? && (x.content.LeafNode? ==> x.textHead == op.id)
    requires d'.nodes.Keys == d.nodes.Keys + {op.id} && d'.nodes[op.id] == x
    requires forall n :: n in d.nodes ==> Follows(a, op, n, d.nodes[n], d'.nodes[n])
    requires d'.children == d.children[p := Attached(d, p) + [op.id]]
    ensures DocOk(a[op.id := op], d')
  {
    var b := a[op.id := op];
    NewIdUnborn(a, op);
    assert op.id !in d.nodes;
    forall n ensures n in d'.nodes <==> Born(b, n).Some? {
      assert n in d'.nodes.Keys <==> n in d.nodes.Keys || n == op.id;
      if n != op.id { BornGrows(a, op, n); }
    }
    forall n | n in d'.nodes ensures NodeOk(b, n, d'.nodes[n]) {
      assert n in d'.nodes.Keys;
      if n == op.id {
        NewNodeOk(a, op, x);
      } else {
        NodeGrows(a, op, n, d.nodes[n], d'.nodes[n]);
      }
    }
    forall q ensures KidsOk(d', q) {
      assert KidsOk(d, q);
      assert op.id !in Attached(d, q);
      assert Attached(d', q) == if q == p then Attached(d, q) + [op.id] else Attached(d, q);
      forall n ensures n in Attached(d', q) <==> n in d'.nodes && d'.nodes[n].parent == Some(q) {
        assert n in d'.nodes.Keys <==> n in d.nodes.Keys || n == op.id;
      }
    }
  }

  /** Where a new tail goes: beside the leaf it was split from, which is never the root. */
  lemma LeafHasParent(a: History, n: OpId)
    requires LeafIn(a, n)
    ensures n in a && n != TREE_ROOT && Born(a, n).val.parent.Some?
    decreases n.counter
  {
    if a[n].kind.SplitLeaf? { LeafHasParent(a, a[n].kind.node); }
  }

  lemma {:induction false} ParentBefore(a: History, n: OpId)
    requires HistoryOk(a) && Closed(a) && n != TREE_ROOT && Born(a, n).Some?
    ensures Born(a, n).val.parent.Some? && Before(Born(a, n).val.parent.val, n)
    ensures Born(a, Born(a, n).val.parent.val).Some?
    decreases n.counter
  {
    assert Ready(a, a[n]);
    if a[n].kind.SplitLeaf? {
      LeafHasParent(a, a[n].kind.node);
      ParentBefore(a, a[n].kind.node);
    }
  }

  // ── What a reader sees ──

  /** A node as the outside sees it. The root's key is never compared, so it is left out. */
  datatype Face = Face(parent: Option<OpId>, content: Content, sort: SortKey, stamp: OpId, dead: bool)

  type Shape = map<OpId, Face>

  function FaceOf(n: OpId, x: Node): Face {
    if n == TREE_ROOT then Face(x.parent, x.content, SortKey([], 0), TREE_ROOT, x.tomb.Some?)
    else Face(x.parent, x.content, x.sort, x.stamp, x.tomb.Some?)
  }

  function ShapeOf(d: Doc): Shape {
    map n | n in d.nodes :: FaceOf(n, d.nodes[n])
  }

  /** Parent, content, sort key, sort stamp and deadness depend on the applied operations alone. */
  lemma ShapeIsDetermined(a: History, d1: Doc, d2: Doc)
    requires DocOk(a, d1) && DocOk(a, d2)
    ensures ShapeOf(d1) == ShapeOf(d2)
  {
    forall n | n in d1.nodes ensures n in d2.nodes && FaceOf(n, d1.nodes[n]) == FaceOf(n, d2.nodes[n]) {
      assert NodeOk(a, n, d1.nodes[n]) && NodeOk(a, n, d2.nodes[n]);
      if n != TREE_ROOT {
        var s, t := d1.nodes[n].stamp, d2.nodes[n].stamp;
        assert IsStamp(a, n, s) && IsStamp(a, n, t);
      }
    }
    forall n | n in d2.nodes ensures n in d1.nodes { }
  }
}
