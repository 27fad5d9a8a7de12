/** Tree replicas exchanging operations: one operation per id over every run, and convergence. */
module TreeNetwork {
  import opened Options
  import opened TextOrder
  import opened TreeHistory
  import opened TreeFrontier
  import opened TreeRender
  import opened TreeSteps
  import opened LosslessTree

  /** All operations ever minted, and the replicas by peer id. */
  datatype Net = Net(universe: History, replicas: map<int, Replica>)

  ghost predicate NetOk(net: Net) {
    && HistoryOk(net.universe)
    && (forall p :: p in net.replicas ==> ReplicaOk(net.replicas[p]) && Within(net.replicas[p].received, net.universe))
    && (forall id :: id in net.universe ==>
          id.peer in net.replicas && id.counter <= net.replicas[id.peer].counter)
  }

  /** `Spend` is a create under a missing parent: an id is used up for nothing. */
  datatype Step =
    | Join(peer: int)
    | Fork(peer: int, from: int)
    | Spend(peer: int)
    | Mint(peer: int, op: TreeOp)
    | Deliver(peer: int, ops: seq<TreeOp>)

  /** A joining replica has the root alone; a fork is a copy; the rest are the steps the class's methods take. */
  ghost predicate Steps(net: Net, step: Step, net': Net) {
    match step
    case Join(p) =>
      p !in net.replicas && net' == net.(replicas := net.replicas[p := Begun(p)])
    case Fork(p, q) =>
      p !in net.replicas && q in net.replicas && net' == net.(replicas := net.replicas[p := net.replicas[q]])
    case Spend(p) =>
      && p in net.replicas
      && net' == net.(replicas := net.replicas[p := net.replicas[p].(counter := net.replicas[p].counter + 1)])
    case Mint(p, op) =>
      && p in net.replicas && op.id == OpId(net.replicas[p].counter + 1, p) && Mintable(net.replicas[p].doc, op)
      && net' == Net(net.universe[op.id := op], net.replicas[p := Minted(net.replicas[p], p, op)])
    case Deliver(p, ops) =>
      && p in net.replicas && (forall i :: 0 <= i < |ops| ==> Kept(net.universe, ops[i]))
      && net' == net.(replicas := net.replicas[p := Took(net.replicas[p], ops)])
  }

  /** Whatever was minted anywhere fits every replica: the one thing `ApplyUpdate` asks for. */
  lemma DeliveredFits(net: Net, p: int, ops: seq<TreeOp>)
    requires NetOk(net) && p in net.replicas
    requires forall i :: 0 <= i < |ops| ==> Kept(net.universe, ops[i])
    ensures Fits(net.replicas[p].received, ops)
  {
    forall i | 0 <= i < |ops| ensures OpOk(ops[i]) { assert Kept(net.universe, ops[i]); }
    forall i | 0 <= i < |ops| && ops[i].id in net.replicas[p].received
      ensures net.replicas[p].received[ops[i].id] == ops[i]
    {
      assert Kept(net.universe, ops[i]);
    }
    forall i, j | 0 <= i < j < |ops| && ops[i].id == ops[j].id ensures ops[i] == ops[j] {
      assert Kept(net.universe, ops[i]) && Kept(net.universe, ops[j]);
    }
  }

  lemma WithinGrown(a: History, universe: History, op: TreeOp)
    requires Within(a, universe) && op.id !in universe
    ensures Within(a, universe[op.id := op]) && Within(a[op.id := op], universe[op.id := op])
  {
  }

  lemma MintKeeps(net: Net, p: int, op: TreeOp, net': Net)
    requires NetOk(net) && Steps(net, Mint(p, op), net')
    ensures NetOk(net')
  {
    hide ReplicaOk, Within, Made, Mintable;
    var r, r' := net.replicas[p], net'.replicas[p];
    MintedOk(r, p, op);
    assert op.id !in net.universe;
    forall q | q in net'.replicas
      ensures ReplicaOk(net'.replicas[q]) && Within(net'.replicas[q].received, net'.universe)
    {
      if q != p { assert net'.replicas[q] == net.replicas[q]; }
      WithinGrown(net.replicas[q].received, net.universe, op);
    }
    assert r.counter <= r'.counter;
  }

  lemma DeliverKeeps(net: Net, p: int, ops: seq<TreeOp>, net': Net)
    requires NetOk(net) && Steps(net, Deliver(p, ops), net')
    ensures NetOk(net')
  {
    hide ReplicaOk, Within, Fits, Retried;
    DeliveredFits(net, p, ops);
    TookOk(net.replicas[p], ops);
    forall op | op in ops ensures op.id in net.universe && net.universe[op.id] == op {
      var i :| 0 <= i < |ops| && ops[i] == op;
      assert Kept(net.universe, ops[i]);
    }
    GatheredWithin(net.replicas[p].received, ops, net.universe);
  }

  lemma StepKeeps(net: Net, step: Step, net': Net)
    requires NetOk(net) && Steps(net, step, net')
    ensures NetOk(net')
  {
    hide Settled, Took, Minted, Mintable, Kept;
    match step
    case Join(p) => BegunOk(p);
    case Fork(p, q) =>
    case Spend(p) =>
      var r := net.replicas[p];
      CounterRaised(r.received, r.log, r.doc, r.counter, r.waiting, r.counter + 1);
    case Mint(p, op) => MintKeeps(net, p, op, net');
    case Deliver(p, ops) => DeliverKeeps(net, p, ops, net');
  }

  ghost predicate Run(nets: seq<Net>, steps: seq<Step>) {
    && |nets| == |steps| + 1 && nets[0] == Net(map[], map[])
    && forall i :: 0 <= i < |steps| ==> Steps(nets[i], steps[i], nets[i + 1])
  }

  lemma {:induction false} RunOk(nets: seq<Net>, steps: seq<Step>, i: nat)
    requires Run(nets, steps) && i < |nets|
    ensures NetOk(nets[i])
  {
    if i > 0 {
      RunOk(nets, steps, i - 1);
      StepKeeps(nets[i - 1], steps[i - 1], nets[i]);
    }
  }

  /** Over every run: replicas that were given the same operations, in whatever order, batches and
      repetitions, have applied the same ones and hold and read the same tree. */
  lemma StrongConvergence(nets: seq<Net>, steps: seq<Step>, i: nat, p: int, q: int)
    requires Run(nets, steps) && i < |nets| && p in nets[i].replicas && q in nets[i].replicas
    requires nets[i].replicas[p].received.Keys == nets[i].replicas[q].received.Keys
    ensures var a, b := nets[i].replicas[p], nets[i].replicas[q];
            && Applied(a.log) == Applied(b.log) && ShapeOf(a.doc) == ShapeOf(b.doc)
            && Reading(ShapeOf(a.doc), TREE_ROOT) == Reading(ShapeOf(b.doc), TREE_ROOT)
  {
    hide Run, Reading, HistoryOk, DocOk, Causal, Drained, Waiting;
    RunOk(nets, steps, i);
    var a, b := nets[i].replicas[p], nets[i].replicas[q];
    forall id | id in a.received ensures id in b.received && a.received[id] == b.received[id] {
      assert id in b.received.Keys;
    }
    forall id | id in b.received ensures id in a.received { assert id in a.received.Keys; }
    assert a.received == b.received;
    AppliedIsDetermined(a.log, b.log, a.received);
    ShapeIsDetermined(Applied(a.log), a.doc, b.doc);
  }

  // ── Tombstone ids over runs ──

  ghost predicate AllLeast(a: History, d: Doc) {
    forall n :: n in d.nodes ==> LeastTomb(a, d, n)
  }

  ghost predicate NoMerges(h: History) {
    forall id :: id in h ==> !h[id].kind.MergeLeaves?
  }

  lemma RemoteLeast(a: History, op: TreeOp, d: Doc)
    requires DocOk(a, d) && Grows(a, op) && AllLeast(a, d) && !op.kind.MergeLeaves?
    ensures AllLeast(a[op.id := op], Tended(d, op))
  {
    hide DocOk, Grows, Kills, Ends, First, Tended;
    forall n | n in Tended(d, op).nodes ensures LeastTomb(a[op.id := op], Tended(d, op), n) {
      if n in d.nodes { RemoteTomb(a, op, d, n); } else { NewAlive(d, op, op.id, n); }
    }
  }

  lemma {:induction false} PassLeast(received: History, q: Queue, pending: seq<TreeOp>, counter: int)
    requires TreeOk(received, q.log, q.doc, counter) && Waiting(received, q.log, q.waiting + pending)
    requires NoMerges(received) && AllLeast(Applied(q.log), q.doc)
    ensures var r := Pass(q, pending); AllLeast(Applied(r.log), r.doc)
    decreases |pending|
  {
    hide DocOk, Causal, Applied, TreeOk, Waiting, Ready, AllLeast, Tended;
    if pending != [] {
      var op, rest := pending[0], pending[1..];
      assert q.waiting + pending == q.waiting + [op] + rest;
      if op.id in Applied(q.log) {
        HistoryFits(received, q.log, q.doc, counter);
        SkipHeld(received, q.log, q.waiting, op, rest);
        PassLeast(received, q, rest, counter);
      } else if Ready(Applied(q.log), op) {
        WaitingKeeps(received, q.log, q.waiting, op, rest);
        DrainGrows(received, q.log, q.doc, counter, op);
        TreeDoc(received, q.log, q.doc, counter);
        TendedOk(Applied(q.log), op, q.doc);
        DrainStep(received, q.log, counter, op, q.doc, Tended(q.doc, op), q.waiting, rest);
        RemoteLeast(Applied(q.log), op, q.doc);
        AppliedSnoc(q.log, op);
        PassLeast(received, Queue(q.log + [op], Tended(q.doc, op), q.waiting), rest, counter);
      } else {
        assert q.waiting + [op] + rest == (q.waiting + [op]) + rest;
        PassLeast(received, q.(waiting := q.waiting + [op]), rest, counter);
      }
    }
  }

  lemma {:induction false} RetriedLeast(received: History, q: Queue, counter: int)
    requires TreeOk(received, q.log, q.doc, counter) && Waiting(received, q.log, q.waiting)
    requires NoMerges(received) && AllLeast(Applied(q.log), q.doc)
    ensures AllLeast(Applied(Retried(q).log), Retried(q).doc)
    decreases |q.waiting|
  {
    hide TreeOk, Waiting, Applied, Pass, AllLeast, NoMerges;
    assert [] + q.waiting == q.waiting;
    PassOk(received, Queue(q.log, q.doc, []), q.waiting, counter);
    PassLeast(received, Queue(q.log, q.doc, []), q.waiting, counter);
    var r := Pass(Queue(q.log, q.doc, []), q.waiting);
    if r.log != q.log { RetriedLeast(received, r, counter); }
  }

  lemma TookLeast(r: Replica, ops: seq<TreeOp>)
    requires ReplicaOk(r) && Fits(r.received, ops) && NoMerges(Gathered(r.received, ops))
    requires AllLeast(Applied(r.log), r.doc)
    ensures AllLeast(Applied(Took(r, ops).log), Took(r, ops).doc)
  {
    hide TreeOk, Waiting, Applied, Retried, AllLeast, NoMerges, Settled, Fits, Lacking, Clock;
    TakenIn(r, ops);
    RetriedLeast(Gathered(r.received, ops), Queue(r.log, r.doc, r.waiting + Lacking(r.log, ops)),
                 Clock(r.counter, ops));
  }

  /** An edit after which every tombstone is still the least: no merge, and no deletion of a dead node. */
  predicate Plain(d: Doc, op: TreeOp) {
    !op.kind.MergeLeaves? && (op.kind.Tombstone? && op.kind.node in d.nodes ==> d.nodes[op.kind.node].tomb.None?)
  }

  lemma MintedLeast(r: Replica, p: int, op: TreeOp)
    requires ReplicaOk(r) && op.id == OpId(r.counter + 1, p) && Mintable(r.doc, op) && AllLeast(Applied(r.log), r.doc)
    ensures var r' := Minted(r, p, op); AllLeast(Applied(r'.log), r'.doc) <==> Plain(r.doc, op)
  {
    hide Applied, DocOk, Grows, ReplicaOk, Mintable, Made, AllLeast, Plain, Ends;
    MintFresh(r, p, op);
    AppliedSnoc(r.log, op);
    MintEnds(r, p, op);
    LocalLeast(Applied(r.log), op, r.doc, OpId(r.counter + 2, p));
  }

  lemma LocalLeast(a: History, op: TreeOp, d: Doc, spare: OpId)
    requires DocOk(a, d) && Grows(a, op) && Mintable(d, op) && AllLeast(a, d)
    requires (forall k :: k in a ==> k.counter < op.id.counter) && op.id.counter < spare.counter
    requires forall n :: Ends(a, op, n) <==>
        (op.kind.Tombstone? && n == op.kind.node) || (op.kind.MergeLeaves? && n == op.kind.right)
    requires op.kind.Tombstone? ==> op.kind.node in d.nodes
    requires op.kind.MergeLeaves? ==> op.kind.right in d.nodes
    ensures AllLeast(a[op.id := op], Made(d, op, spare)) <==> Plain(d, op)
  {
    hide DocOk, Grows, Made, Mintable, LeastTomb, Ends;
    var b, d' := a[op.id := op], Made(d, op, spare);
    forall n | n in d'.nodes && n !in d.nodes ensures LeastTomb(b, d', n) { AliveLeast(b, d, op, spare, n); }
    if Plain(d, op) {
      forall n | n in d.nodes && n in d'.nodes ensures LeastTomb(b, d', n) { LocalTomb(a, op, d, spare, n); }
    } else {
      var n := if op.kind.MergeLeaves? then op.kind.right else op.kind.node;
      LocalTomb(a, op, d, spare, n);
    }
  }

  lemma AliveLeast(b: History, d: Doc, op: TreeOp, spare: OpId, n: OpId)
    requires Mintable(d, op) && n !in d.nodes && n in Made(d, op, spare).nodes
    ensures LeastTomb(b, Made(d, op, spare), n)
  {
    NewAlive(d, op, spare, n);
  }

  lemma MintFresh(r: Replica, p: int, op: TreeOp)
    requires ReplicaOk(r) && op.id == OpId(r.counter + 1, p) && Mintable(r.doc, op)
    ensures var a := Applied(r.log); DocOk(a, r.doc) && Grows(a, op) && forall k :: k in a ==> k.counter < op.id.counter
  {
    hide Made;
    MintedOk(r, p, op);
    AppliedOk(r.received, r.log, r.doc, r.counter);
    var r' := Minted(r, p, op);
    AppliedSnoc(r.log, op);
    assert Causal(r'.log);
  }

  /** What an edit deletes is there. */
  lemma MintEnds(r: Replica, p: int, op: TreeOp)
    requires ReplicaOk(r) && Mintable(r.doc, op)
    ensures var a := Applied(r.log);
            forall n :: Ends(a, op, n) <==>
              (op.kind.Tombstone? && n == op.kind.node) || (op.kind.MergeLeaves? && n == op.kind.right)
    ensures op.kind.Tombstone? ==> op.kind.node in r.doc.nodes
    ensures op.kind.MergeLeaves? ==> op.kind.right in r.doc.nodes
  {
    if op.kind.MergeLeaves? {
      LeafMeans(Applied(r.log), r.doc, op.kind.left);
      LeafMeans(Applied(r.log), r.doc, op.kind.right);
    }
  }

  ghost predicate NetLeast(net: Net) {
    NoMerges(net.universe)
    && forall p :: p in net.replicas ==> AllLeast(Applied(net.replicas[p].log), net.replicas[p].doc)
  }

  ghost predicate PlainStep(net: Net, step: Step) {
    step.Mint? && step.peer in net.replicas ==> Plain(net.replicas[step.peer].doc, step.op)
  }

  /** While nobody has merged, a step keeps every tombstone everywhere the least if and only if it is plain. */
  lemma StepLeast(net: Net, step: Step, net': Net)
    requires NetOk(net) && Steps(net, step, net') && NetLeast(net)
    ensures NetLeast(net') <==> PlainStep(net, step)
  {
    hide ReplicaOk, AllLeast, Applied, Fits, Minted, Took, Mintable, Begun, Within, HistoryOk;
    match step
    case Join(p) => BegunLeast(p);
    case Fork(p, q) =>
    case Spend(p) =>
    case Mint(p, op) =>
      MintedLeast(net.replicas[p], p, op);
      assert net'.universe[op.id] == op;
      assert p in net'.replicas && net'.replicas[p] == Minted(net.replicas[p], p, op);
    case Deliver(p, ops) =>
      DeliveredFits(net, p, ops);
      DeliveredPlain(net, p, ops);
      TookLeast(net.replicas[p], ops);
  }

  lemma BegunLeast(p: int)
    ensures AllLeast(Applied(Begun(p).log), Begun(p).doc)
  {
  }

  lemma DeliveredPlain(net: Net, p: int, ops: seq<TreeOp>)
    requires NetOk(net) && p in net.replicas && NoMerges(net.universe)
    requires forall i :: 0 <= i < |ops| ==> Kept(net.universe, ops[i])
    ensures NoMerges(Gathered(net.replicas[p].received, ops))
  {
    hide ReplicaOk;
    DeliveredFits(net, p, ops);
    forall op | op in ops ensures op.id in net.universe && net.universe[op.id] == op {
      var i :| 0 <= i < |ops| && ops[i] == op;
      assert Kept(net.universe, ops[i]);
    }
    GatheredWithin(net.replicas[p].received, ops, net.universe);
  }

  lemma {:induction false} RunLeast(nets: seq<Net>, steps: seq<Step>, i: nat)
    requires Run(nets, steps) && i < |nets| && forall j :: 0 <= j < i ==> PlainStep(nets[j], steps[j])
    ensures NetLeast(nets[i])
  {
    hide NetLeast, NetOk, Steps, PlainStep;
    if i > 0 {
      RunLeast(nets, steps, i - 1);
      RunOk(nets, steps, i - 1);
      StepLeast(nets[i - 1], steps[i - 1], nets[i]);
    } else {
      NobodyLeast();
    }
  }

  lemma NobodyLeast()
    ensures NetLeast(Net(map[], map[]))
  {
  }

  /** Over every run in which nobody merges and nobody deletes what is dead: replicas that were given the same
      operations carry the same tombstone ids. */
  lemma TombIdsAgree(nets: seq<Net>, steps: seq<Step>, i: nat, p: int, q: int, n: OpId)
    requires Run(nets, steps) && i < |nets| && p in nets[i].replicas && q in nets[i].replicas
    requires forall j :: 0 <= j < i ==> PlainStep(nets[j], steps[j])
    requires nets[i].replicas[p].received.Keys == nets[i].replicas[q].received.Keys
    requires n in nets[i].replicas[p].doc.nodes && n in nets[i].replicas[q].doc.nodes
    ensures nets[i].replicas[p].doc.nodes[n].tomb == nets[i].replicas[q].doc.nodes[n].tomb
  {
    hide Run, Reading, DocOk, Causal, Drained, Waiting, LeastTomb;
    StrongConvergence(nets, steps, i, p, q);
    RunOk(nets, steps, i);
    RunLeast(nets, steps, i);
    var a, b := nets[i].replicas[p], nets[i].replicas[q];
    TombsAgree(Applied(a.log), a.doc, b.doc, n);
  }
}
