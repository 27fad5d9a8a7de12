# lazily verification

A Dafny model of the reactive and distributed-state cores of lazily, and proofs of what they promise.
`dafny verify dfyconfig.toml` checks all of it.

**Reactive engine** (`Closures`, `Graph`, `GraphSteps`, `Context`, `Teardown`, `EdgeSet`, `MissedPublish`).
A closure is a decision tree over the handles it reads, so what it reads next may depend on every value read so
far.  `Eval` is the reference: it re-runs closures from the sources up and never looks at a cache.  One
invariant, node by node, is kept by every operation of `Context`, through batches, effects and disposal with
recycled ids; it implies that a clean cache is the from-scratch value, inside a batch too wherever the batch has
written nothing below, and that a quiet effect is up to date.  `EdgeSet` holds the indexed edge set and the
indexed queue, proved equal to the linear versions the engine is written with.

**Text replica** (`TextOrder`, `TextCrdt`, `TextNetwork`).  The spliced visible order equals the sorted
pre-order traversal, newer siblings first; and over every network run a delta brings exactly what a full merge
would.

**Lossless tree** (`TreeHistory`, `TreeSteps`, `TreeFrontier`, `TreeKeys`, `TreeRender`, `LosslessTree`,
`TreeNetwork`, `LeafText`).  The tree is specified by the *set* of applied operations, for all six kinds.  The
applied set is a function of the received one, local and remote application agree with the specification, and
rendering depends on it alone.  `TreeKeys` says where a minted key lands; `LeafText` takes the text inside one
leaf through edits, splits and merges.

**Ingress** (`IngressScope`, `IngressRuns`, `IngressChange`, `Ingress`).  The admission algebra over every
schedule, and when the change set a transition hands its shell covers everything that moved.

**Longest increasing subsequence** (`Subsequence`), **reliable sync** (`Journal`, `Outbox`, `ReliableSync`,
`SyncNetwork`), **latest durable projection** (`LatestDurable`), and the two reference **codecs** (`Json`,
`JsonGrammar`, `JsonCanonical`, `JsonParser`, `MsgPack`, `MsgPackFormat`, `MsgPackIo`, `Ipc`, `IpcText`,
`IpcCodecs`): each reads exactly a grammar stated apart from the code and writes the shortest text of it, and each
message's text is spelled out.

**Private framing** (`Framing`, `PrivateMaps`, `PrivateRows`, `PrivateBytes`, `PrivateCodec`, `PrivateReaders`,
`PrivatePackers`).  Keyed maps and positional rows over one tree of wire shapes.  `Wider` says what a newer
writer may add; both forms come back from every widening, and what the packers write is what the readers read.

Where the code and what is said of it part ways, the code is followed:

- A handoff envelope that ends refused, blocked, or parked while a retry is pending moves readers the change
  set does not mark; so do some opens and one reconnect.  `AdmitCovers`, `OpenCovers` and `ReconnectCovers`
  give the exact conditions, and `AdmitSpares` and its like say when a mark is in vain.
- A driver tick whose source breaks after frames were applied throws their `Progress` away, so exactly-once
  fails.  From an exact state it fails at exactly the ticks whose inbound frames move the epoch (`StepKeeps`,
  `SparedMeans`).  Over any run, `ExactlyOnceEffect` tells from the inbound frames and the breaks which epoch the
  projection is folded to, if any, and exactly-once holds if and only if it is the receiver's.  A whole tick with a
  snapshot repairs it (`SnapshotHeals`), whole ticks of deltas do not (`DeltasDoNotHeal`), and a second break may
  (`BreakUndoesBreak`); `BrokenTickForgets` is the shortest failing input.
- A journal record appended behind a torn one is swallowed.  `AppendReadsBack` gives the exact condition,
  `AppendAtBoundary` the length test that excludes it, `LoneByteSwallows` an input.
- An effect below a slot dirtied by a disposal may miss a publish while its closure can still read the disposed
  node: `MissedPublish.Missed` is such a run.  An effect is missed if and only if every path of edges to it from a
  reader of the source is cut by a node whose flags are up already (`HitIffReached`), and only one that can read a
  disposed node is (`MissedArePoisoned`).  The invariant exempts such nodes (`Poisoned`), and every value theorem
  holds of each node that is not one.  The engine's operations that run closures ask that no live closure can read
  a disposed node (`NoDangling`); actually reading one throws.
- Tombstone *ids* are not a function of what was applied; deadness is.  The id that would be is the least operation
  that deletes the node.  `RemoteTomb` and `LocalTomb` say of each operation when it is kept: a local deletion of a
  dead node, every local merge, and a remote merge behind a smaller deletion lose it.  One merge delivered once
  leaves two ids (`MergeIdsDiffer`), and so do two deletions (`TombstoneIdsDiffer`).  `TombIdsAgree` holds over
  runs without either.
- A node's sort key is not always between its neighbours'.  The right sibling is looked for in the order children
  were attached, and the key made between two bounds lies ahead of the upper one if and only if there is room
  (`Roomy`, `BetweenIffRoomy`, `LandsIffRoomy`).  Two children put at one place get equal keys (`SameKeyAgain`,
  `PutTwice`), so the distinct keys that rendering asks for are not a given.
- A split sent as a count of characters comes back short of its byte offset just behind a character of several
  bytes (`CutSurvives`), and a split's head and a merged text are seeded under different peers on different
  replicas (`SplitAgrees`, `SeedsAgree`); the next edit then makes a replica read both copies (`EditAfterMerge`).
  Edits alone keep equal copies equal (`EditArrives`).
- The private framing's keyed readers narrow a discriminator to 32 bits, so kinds far out of range pass
  (`KindRefused`); the positional ones do not (`KindRowRefused`).  A cell behind a positional operation's pair
  is not passed over, although longer pairs are let in (`OpRowConsumed`): if it is no array the delta is refused
  (`LongerOpLosesDelta`), and if it looks like an operation it is taken for one (`LongerOpMisread`).  A keyed value
  before its type is refused (`ValueBeforeType`).

## Model

| member | source | states |
|---|---|---|
| Closures.ReplayAgree | include/lazily/context.hpp:1869-1880 | a closure's run depends on nothing but the values it actually read |
| Graphs.ReplayIsEval | include/lazily/context.hpp:1463-1515 | re-running a closure over settled reads gives what evaluation from the sources gives, dependency sets that change with the values included, inside a batch too, for every node that cannot read a disposed one |
| Graphs.SettledIsEval | include/lazily/context.hpp:1392-1441 | cache coherence: in every state the invariant allows, a clean cached value is the from-scratch value of any node that cannot read a disposed one and depends on no source a batch still owes for |
| Graphs.EffectIsEval | include/lazily/context.hpp:1657-1725 | effect quiescence: every value the last run of an unqueued effect read is the from-scratch value now, those reads are what a run would read now, and their replay is its result |
| Graphs.EvalSame | include/lazily/context.hpp:1383-1390 | the from-scratch meaning looks at nothing but the nodes and the source values: no cache, edge or flag |
| Graphs.EvalTotal | include/lazily/context.hpp:1383-1390 | while no closure can read a disposed node, every node has a from-scratch value |
| Graphs.PoisonStays | include/lazily/context.hpp:1341-1345 | a node that can read a disposed one stays so whatever is created or disposed later, recycled ids included |
| GraphSteps.EdgeInsertMembers | include/lazily/context.hpp:212-232 | inserting an edge adds exactly that id and keeps the list free of duplicates |
| GraphSteps.EdgeRemoveMembers | include/lazily/context.hpp:234-306 | swap-removal takes out exactly that id and keeps the list free of duplicates |
| GraphSteps.TrackKeepsInv | include/lazily/context.hpp:1275-1291 | a tracked read keeps forward and reverse edges mirrored and the cache invariant whole |
| GraphSteps.DetachKeepsInv | include/lazily/context.hpp:1463-1515 | dropping a reader's old edges before it runs keeps the invariant |
| GraphSteps.FinishComputed | include/lazily/context.hpp:1463-1515 | storing a closure's result, guarded by equality or not, leaves a node whose cache replays and owes its readers an invalidation exactly when the value moved |
| GraphSteps.FinishEffect | include/lazily/context.hpp:1674-1713 | an effect that ran to its end agrees with everything below it |
| GraphSteps.ValidateKeepsInv | include/lazily/context.hpp:1392-1441 | a dirty node none of whose dependencies changed may be declared clean without running |
| GraphSteps.WriteKeepsInv | include/lazily/context.hpp:636-656 | a source may change first and mark its readers later, inside a batch or out of it |
| GraphSteps.StaleCone | include/lazily/context.hpp:1524-1554 | marking from the readers of a node reaches its whole dependent cone: nothing above it is left clean, every effect in it is reported |
| GraphSteps.NotifyKeepsInv | include/lazily/context.hpp:1592-1608 | marking the cone and queueing its effects settles what a changed value owed |
| GraphSteps.ClearKeepsInv | include/lazily/context.hpp:1560-1585 | dropping caches upward and forcing the effects reached keeps the invariant |
| GraphSteps.CreateKeepsInv | include/lazily/context.hpp:1247-1261 | a new node under a fresh or recycled id keeps the invariant |
| GraphSteps.DisposeKeepsInv | include/lazily/context.hpp:1184-1245 | detaching a node, dirtying the cone above it and vacating its id keeps edges mirrored and naming only live nodes |
| Engine.Context.MarkFrontier | include/lazily/context.hpp:1524-1554 | terminates on every graph, cycles included; raises a flag exactly where the walk reaches a node that its propagating branch would open, force flags on the roots alone, and reports exactly the effects it reaches |
| Engine.Context.ClearFrontier | include/lazily/context.hpp:1560-1585 | terminates on every graph; empties every cache above the roots and reports every effect reached |
| Engine.Context.InvalidateDependentsNow | include/lazily/context.hpp:1592-1608 | restores the invariant after a value changed, touching nothing outside the cone |
| Engine.Context.RunClosure | include/lazily/context.hpp:1869-1880 | a run refreshes what it reads, registers those edges and no others; the values read, handed back as a ghost map, are those cached, and its result is their replay |
| Engine.Context.Track | include/lazily/context.hpp:1275-1291 | a read is refreshed, its edge registered, and the value handed over is the settled one |
| Engine.Context.RefreshSlot | include/lazily/context.hpp:1392-1441 | afterwards the node is clean; clean nodes keep their values, and what was stale below only shrinks |
| Engine.Context.RecomputeSlotNow | include/lazily/context.hpp:1463-1515 | afterwards the node is clean, and if it reports a change all its readers are forced |
| Engine.Context.RunEffect | include/lazily/context.hpp:1674-1713 | a popped effect runs if and only if it was forced or some dependency, named in the contract, was replaced while it was refreshed; a run records what it saw, no run leaves the record alone, and an effect left unqueued has seen what is there |
| Engine.Context.RunNext | include/lazily/context.hpp:1657-1672 | first in, first out: the effect at the front is the one that runs, and the others keep their places ahead of whatever it queues |
| Engine.Context.FlushEffects | include/lazily/context.hpp:1657-1672 | terminates, and leaves the queue empty; the effects queued on entry are run first, in the order they were queued |
| Engine.Context.Get | include/lazily/context.hpp:1383-1390 | in a batch or out of it: a source answers the value last written to it, a node that was clean answers the value it had, and a node that depends along edges on no source written in the batch answers its from-scratch evaluation; outside a batch, so does every node |
| Engine.Context.Set | include/lazily/context.hpp:636-656 | the sources become the old ones with this one replaced; an equal value changes nothing at all; in a batch only the debt is noted; otherwise the queue is empty again on return |
| Engine.Context.Clear | include/lazily/context.hpp:1044-1050 | drops caches without changing any source: where no effect rests on the node, it is unset afterwards, no cache outside its dependent cone is dropped, none is refilled and no edge moves; in a batch it is only noted, once |
| Engine.Context.ClearCellDependents | include/lazily/context.hpp:1056-1062 | drops the readers' caches without changing any source: where no effect rests on the source, each of its readers is unset afterwards, no cache outside the dependent cone is dropped, none is refilled and no edge moves; in a batch it is only noted, once |
| Engine.Context.FlushBatchedInvalidations | include/lazily/context.hpp:1733-1750 | pays every invalidation a batch owes and flushes once; nothing is owed afterwards; where no effect rests on what is owed for, all that was to be cleared is unset, no cache outside the dependent cones is dropped and none is refilled |
| Engine.Context.FinishBatch | include/lazily/context.hpp:1727-1731 | an inner batch changes nothing but the depth; the outermost pays everything owed; where no effect rests on that, all that was cleared in the batch is unset afterwards |
| Engine.Context.AllocId | include/lazily/context.hpp:1065-1072 | the id is unoccupied, no longer free, and with its generation names a handle that was never issued |
| Engine.Context.Insert | include/lazily/context.hpp:1247-1261 | no two nodes over a whole run share an id and a generation |
| Engine.Context.CreateKeepsEval | include/lazily/context.hpp:1247-1261 | creating a node changes no other node's from-scratch value |
| Engine.Context.DisposeOccupant | include/lazily/context.hpp:1184-1245 | vacates the id under a new generation, frees it once, and leaves clean only nodes that did not depend on it |
| Engine.Context.Dispose | include/lazily/context.hpp:772-839 | a handle that is stale or of another kind disposes nothing |
| Engine.Context.CleanIsCurrent | include/lazily/context.hpp:702-710 | between operations, a cache that reads as valid holds the from-scratch value, for every node that cannot read a disposed one and that depends along edges on no source written in an open batch |
| Engine.Context.EffectsAreCurrent | include/lazily/context.hpp:1657-1672 | between operations, every value a live effect's last run read is the from-scratch value, and the run's replay over them is its result, for every effect that cannot read a disposed node |
| Engine.RaisedIffReached | include/lazily/context.hpp:1524-1554 | a walk raises a node's flags if and only if the node was open on the flags as they stood and a path of open nodes leads to it from a root |
| Engine.HitIffReached | include/lazily/context.hpp:1524-1554 | a walk reports an effect if and only if such a path leads to it: an effect is missed exactly when every path is cut by a node whose flags are up already |
| Engine.ReachesUnpoisoned | include/lazily/context.hpp:1524-1554 | between operations the walk from a source reaches every clean node that depends on it |
| Engine.MissedArePoisoned | include/lazily/context.hpp:1341-1345 | between operations every effect that depends on a source and is missed by its walk can read a disposed node |
| Engine.ForcedStopsWalk | include/lazily/context.hpp:1524-1554 | in particular, if every reader of the roots already has both flags, marking changes nothing and reports no effect |
| Engine.Context.WriteAndMark | include/lazily/context.hpp:636-656 | a write changes the one value and queues exactly the effects the walk reaches; above readers that are all forced already it announces nothing |
| MissedPublish.Missed | include/lazily/context.hpp:1184-1245 | a whole run in which an effect with a valid cache below a disposed node is never told of a write: it last saw 7, the from-scratch value is 1 (concrete run) |
| Teardown.VictimsAreTheLiving | include/lazily/context.hpp:1997-2020 | what ending a scope meets alive is exactly its still-current members, newest first |
| Teardown.VacatedAllKeeps | include/lazily/context.hpp:1997-2020 | disposing some handles leaves every other node's identity alone |
| Teardown.TeardownScope.End | include/lazily/context.hpp:1997-2020 | disposes exactly the still-live members in reverse creation order, and a second end disposes nothing |
| EdgeSets.ProbeMiss | include/lazily/context.hpp:319-334 | a probe that meets an empty slot has passed every slot the id could be in |
| EdgeSets.PlaceIndexes | include/lazily/context.hpp:336-343 | filling an empty slot or a tombstone on the probe path indexes one more element and loses none |
| EdgeSets.DeleteIndexes | include/lazily/context.hpp:234-306 | a tombstone in one slot and the last element's position redirected index exactly the list after swap-removal |
| EdgeSets.EdgeSet.Probe | include/lazily/context.hpp:319-334 | terminates and finds the id's slot if and only if the list holds it |
| EdgeSets.EdgeSet.Insert | include/lazily/context.hpp:212-232 | for any thresholds and hash, same list and same answer as the linear scan, through promotion and rehashing |
| EdgeSets.EdgeSet.Remove | include/lazily/context.hpp:234-306 | for any thresholds and hash, same list and same answer as the linear swap-removal, through tombstones and demotion |
| EdgeSets.PendingQueue.PushBack | include/lazily/context.hpp:393-399 | the queue grows at its end, indexed or not |
| EdgeSets.PendingQueue.PopFront | include/lazily/context.hpp:401-412 | the front leaves, and absolute positions stay exact |
| EdgeSets.PendingQueue.Erase | include/lazily/context.hpp:414-454 | same queue as the linear swap-removal whether the position came from the index or from a scan |
| TextOrder.FullNoDup | include/lazily/crdt.hpp:320-332 | the pre-order traversal meets each element once |
| TextOrder.InsertFull | include/lazily/crdt.hpp:88-100 | a fresh Lamport id lands directly after its origin in the traversal and moves nothing else |
| TextOrder.NewerFirst | include/lazily/crdt.hpp:320-332 | of two siblings under one origin, the one with the larger counter, or with an equal counter and the larger peer, stands in the traversal before the other, and so does everything below it |
| TextOrder.VisibleNewerFirst | include/lazily/crdt.hpp:320-332 | the same of what is visible |
| TextOrder.FrontRace | include/lazily/crdt.hpp:20-35 | two peers type one string each at the front of an empty text: the larger peer's string comes first |
| TextCrdts.InsertVisible | include/lazily/crdt.hpp:88-100 | splicing at the index typed at gives the visible part of the new traversal |
| TextCrdts.DeleteVisible | include/lazily/crdt.hpp:108-123 | cutting out the index deleted gives the visible part of the new traversal |
| TextCrdts.SortOk | include/lazily/crdt.hpp:320-332 | sorting siblings newest first is the order of their set, so the table's own order does not matter |
| TextCrdts.TextCrdt.Traverse | include/lazily/crdt.hpp:320-332 | the recursive traversal computes the sorted pre-order |
| TextCrdts.TextCrdt.Insert | include/lazily/crdt.hpp:88-100 | the cache stays valid and equals the traversal; the visible order gains one element at the index |
| TextCrdts.TextCrdt.Del | include/lazily/crdt.hpp:108-123 | the cache stays valid and equals the traversal; the visible order loses the element at the index, and an index past the end does nothing |
| TextCrdts.TextCrdt.Text | include/lazily/crdt.hpp:125-136 | the text of the traversal, whatever the cache held |
| TextCrdts.TextCrdt.Merge | include/lazily/crdt.hpp:159-184 | id by id, an element only one side holds is taken over and one both hold keeps the smaller deletion; the clock covers them; it reports a change if and only if the set of live elements changed |
| TextCrdts.JoinMeans | include/lazily/crdt.hpp:159-184 | the join is the one table that agrees with both sides id by id |
| TextCrdts.JoinLaws | include/lazily/crdt.hpp:159-184 | joining is commutative, associative and idempotent, tombstones included, for replicas that agree on what an element is |
| TextCrdts.ShowsMeans | include/lazily/crdt.hpp:159-184 | the running test for a visible change is right: it fires if and only if the live elements differ afterwards |
| TextCrdts.TextCrdt.ApplyDelta | include/lazily/crdt.hpp:224-247 | operations are joined one by one, the clock advances past each that was taken, and it reports a change exactly when one shows |
| TextCrdts.TextCrdt.ComputeVersionVector | include/lazily/crdt.hpp:190-199 | per peer the highest counter any element or tombstone mentions, and no higher |
| TextCrdts.TextCrdt.DeltaSince | include/lazily/crdt.hpp:201-222 | exactly the elements the version vector misses, each once |
| TextNetwork.DeltaIsMerge | include/lazily/crdt.hpp:159-247 | applying the delta against one's own version vector gives what merging the whole replica gives, although a deletion that lost is not in the vector |
| TextNetwork.RunOk | include/lazily/crdt.hpp:88-247 | over every run of typing, deleting, forking, merging and deltas in flight, no replica knows an operation it does not hold |
| TextNetwork.DeltaSyncTheorem | include/lazily/crdt.hpp:159-247 | over every such run: delta sync and full merge give the same elements and the same text, and every operation delivered is younger than its origin, as `ApplyDelta` asks |
| TreeHistory.ReachesFurther | include/lazily/lossless_tree_crdt.hpp:485-527 | whatever one replica managed to apply, a drained replica that received as much has applied too |
| TreeHistory.AppliedIsDetermined | include/lazily/lossless_tree_crdt.hpp:431-503 | the applied operations are a function of the received set: order, batching and repetition do not matter |
| TreeHistory.BornGrows | include/lazily/lossless_tree_crdt.hpp:573-660 | an operation that arrives makes or unmakes no other node, split tails included |
| TreeHistory.DocTouched | include/lazily/lossless_tree_crdt.hpp:573-660 | an operation that makes no node leaves the tree saying what the applied set says |
| TreeHistory.DocExtended | include/lazily/lossless_tree_crdt.hpp:573-660 | an operation that makes a node leaves the tree saying what the applied set says, children lists included |
| TreeHistory.ShapeIsDetermined | include/lazily/lossless_tree_crdt.hpp:174-233 | parent, content, sort key, sort stamp and deadness of every node depend on the applied set alone, for all operation kinds |
| TreeFrontier.DotRange.Observe | include/lazily/lossless_tree_crdt.hpp:99-106 | holds what it held and the counter, and folds the run as far as it goes |
| TreeFrontier.Observe | include/lazily/lossless_tree_crdt.hpp:112-118 | the frontier holds what it held and the id |
| TreeRender.KeyOrder | include/lazily/lossless_tree_crdt.hpp:24-34 | sort keys are totally ordered |
| TreeRender.KeyMeans | include/lazily/lossless_tree_crdt.hpp:24-34 | a key is ahead of another if and only if it has the smaller digit where they first differ, or is a proper prefix of it, or equals it with the smaller peer |
| TreeRender.ReadingShows | include/lazily/lossless_tree_crdt.hpp:550-571 | a rendering lists exactly the leaves whose whole ancestry is alive and leafless above, each once |
| TreeRender.FrontFirst | include/lazily/lossless_tree_crdt.hpp:550-571 | under a shown element, every leaf below the sibling whose key is ahead, told by digits, positions and peers, precedes every leaf below the other in the rendering |
| TreeRender.SortedKids | include/lazily/lossless_tree_crdt.hpp:550-571 | the live children, each once, by sort key |
| TreeRender.RenderNode | include/lazily/lossless_tree_crdt.hpp:550-571 | with distinct live sibling keys, the document order; terminates because children are younger |
| TreeKeys.TreeKeyBetween | include/lazily/lossless_tree_crdt.hpp:123-149 | the loop over common positions finds the first gap of more than one, and makes the key that has room there |
| TreeKeys.DigitsStay | include/lazily/lossless_tree_crdt.hpp:123-149 | keys made from minted keys keep their digits in 1 to 128 |
| TreeKeys.BetweenIffRoomy | include/lazily/lossless_tree_crdt.hpp:123-149 | a key made between two keys is behind the lower one always, and ahead of the upper one if and only if there is room: a condition on the two keys and the peer |
| TreeKeys.FindRightSibling | include/lazily/lossless_tree_crdt.hpp:529-540 | the scan finds the first standing child behind the given one in the order children were attached, not in the order of their keys |
| TreeKeys.RightMeans | include/lazily/lossless_tree_crdt.hpp:529-540 | every child between the given one and the one found is dead, and a dead or unknown sibling finds none |
| TreeKeys.SameKeyAgain | include/lazily/lossless_tree_crdt.hpp:529-540 | a second child put at the same place gets the same key, whenever a right sibling was found |
| TreeKeys.ReadBehind | include/lazily/lossless_tree_crdt.hpp:550-571 | a child put behind a sibling is read behind it |
| TreeKeys.ReadInFront | include/lazily/lossless_tree_crdt.hpp:550-571 | a child put in front of the sibling found is read in front of it where there is room, and behind it where there is none |
| TreeKeys.LandsIffRoomy | include/lazily/lossless_tree_crdt.hpp:123-149 | given the true right neighbour, the new key is ahead of every later sibling if and only if there is room |
| LosslessTree.StaysDrained | include/lazily/lossless_tree_crdt.hpp:485-503 | a local edit can unblock nothing that was waiting |
| LosslessTree.TombLater | include/lazily/lossless_tree_crdt.hpp:208-216 | a tombstone is younger than its node, so the early return of a second tombstoning is never taken |
| LosslessTree.TombstoneIdsDiffer | include/lazily/lossless_tree_crdt.hpp:208-216 | from any replica and any live node: deleted twice here and both deletions applied at a fork, the two replicas hold the same operations and different tombstone ids |
| TreeSteps.TendedOk | include/lazily/lossless_tree_crdt.hpp:573-660 | whatever is ready, applied by the remote rule, leaves the tree saying what the applied set and it say |
| TreeSteps.RemoteTomb | include/lazily/lossless_tree_crdt.hpp:602-655 | for each remote operation, when a node's tombstone is the least operation that deletes it: a tombstone keeps that always, a merge has it if and only if no smaller deletion was applied, the rest change nothing |
| TreeSteps.LocalTomb | include/lazily/lossless_tree_crdt.hpp:208-329 | for each local edit, the same: a tombstone has it if and only if the node was alive, a merge never |
| TreeSteps.MergeIdsDiffer | include/lazily/lossless_tree_crdt.hpp:310-329 | one merge, delivered once, leaves two tombstone ids |
| TreeSteps.TombsAgree | include/lazily/lossless_tree_crdt.hpp:208-216 | where two replicas that applied the same operations carry the least, they carry the same id |
| LosslessTree.MintedOk | include/lazily/lossless_tree_crdt.hpp:174-329 | each of the six local edits, as a step on the replica's value, keeps it drained and in agreement with its operations, under an id that is new |
| LosslessTree.PassOk | include/lazily/lossless_tree_crdt.hpp:485-503 | one pass over the buffer loses nothing, and one that applies nothing leaves only what is not ready |
| LosslessTree.TookOk | include/lazily/lossless_tree_crdt.hpp:431-503 | taking in any batch that fits, as a step on the replica's value, ends drained and in agreement |
| LosslessTree.CatchesUp | include/lazily/lossless_tree_crdt.hpp:394-442 | a replica sent what it lacks, once drained, holds everything the sender had applied |
| LosslessTree.LosslessTree.CreateNode | include/lazily/lossless_tree_crdt.hpp:174-206 | mints a fresh ready operation, its sort key computed from the sibling named and the one found to its right, and a tree that agrees with it; under a missing parent only an id is spent |
| LosslessTree.LosslessTree.KeyBehind | include/lazily/lossless_tree_crdt.hpp:174-182 | the key of a child put behind a sibling or at the front, from the tree as it stands |
| LosslessTree.PutTwice | include/lazily/lossless_tree_crdt.hpp:174-206 | two children put at the same place with a sibling to the right get one and the same key: sibling keys are not distinct (any tree) |
| LosslessTree.LosslessTree.TombstoneNode | include/lazily/lossless_tree_crdt.hpp:208-216 | always mints an operation for a node that exists, a second time too |
| LosslessTree.LosslessTree.ReorderChild | include/lazily/lossless_tree_crdt.hpp:218-233 | the fresh stamp is the newest, so the new key, computed like a created node's, wins everywhere; the root is left alone |
| LosslessTree.LosslessTree.EditLeaf | include/lazily/lossless_tree_crdt.hpp:235-262 | a leaf's edits form a chain through the previous text operation, which the frontier holds |
| LosslessTree.LosslessTree.SplitLeaf | include/lazily/lossless_tree_crdt.hpp:264-308 | the tail is a sibling leaf under the operation's own id, keyed behind the head without a right bound |
| LosslessTree.LosslessTree.MergeAdjacentLeaves | include/lazily/lossless_tree_crdt.hpp:310-329 | the whole new state; the right leaf's tombstone is a second id of its own, which names no operation |
| LosslessTree.LosslessTree.ApplyOp | include/lazily/lossless_tree_crdt.hpp:573-660 | the tree after any ready operation, branch by branch: it says what the applied set and the operation say |
| LosslessTree.LosslessTree.ReadyMeans | include/lazily/lossless_tree_crdt.hpp:508-527 | the readiness test on nodes and frontier is readiness with respect to the applied set |
| LosslessTree.LosslessTree.DrainBuffered | include/lazily/lossless_tree_crdt.hpp:485-503 | terminates in the state the passes define; loses nothing that was received, and stops only when nothing waiting is ready |
| LosslessTree.LosslessTree.ApplyUpdate | include/lazily/lossless_tree_crdt.hpp:431-442 | the whole new state is the step of the batch: what is held already is dropped, the clock covers every id, the rest is retried until nothing is ready |
| LosslessTree.LosslessTree.Diff | include/lazily/lossless_tree_crdt.hpp:394-405 | exactly the log's operations the other frontier lacks, by counter and then by peer, ascending |
| LosslessTree.LosslessTree.Render | include/lazily/lossless_tree_crdt.hpp:331-335 | with distinct live sibling keys, every leaf with a live ancestry once, in document order |
| LosslessTree.Converged | include/lazily/lossless_tree_crdt.hpp:431-442 | two replicas given the same operations hold the same tree and read the same |
| LosslessTree.Pull | include/lazily/lossless_tree_crdt.hpp:394-449 | after pulling a diff, log and frontier contain all of the sender's |
| LosslessTree.Exchange | include/lazily/lossless_tree_crdt.hpp:394-449 | two replicas that pull from each other hold the same tree, provided the first had nothing waiting |
| TreeNetwork.DeliveredFits | include/lazily/lossless_tree_crdt.hpp:431-442 | whatever was minted anywhere fits every replica: one operation per id |
| TreeNetwork.RunOk | include/lazily/lossless_tree_crdt.hpp:174-449 | over every run of forks, edits and deliveries, each the step the class's methods take, every replica is drained and agrees with its operations, and there is one operation per id |
| TreeNetwork.StrongConvergence | include/lazily/lossless_tree_crdt.hpp:394-503 | over every run: replicas given the same operations have applied the same ones and hold and read the same tree |
| TreeNetwork.StepLeast | include/lazily/lossless_tree_crdt.hpp:174-503 | while nobody has merged, a step keeps every tombstone everywhere the least deletion if and only if it neither merges nor deletes a dead node |
| TreeNetwork.TombIdsAgree | include/lazily/lossless_tree_crdt.hpp:174-503 | over every run without merges and without deletions of the dead: replicas given the same operations carry the same tombstone ids |
| LeafTexts.InsertStr | include/lazily/crdt.hpp:102-106 | one element a byte is typed, each behind the one before |
| LeafTexts.Seed | include/lazily/lossless_tree_crdt.hpp:187-194 | a leaf's text starts as the string typed by one peer, and reads as it |
| LeafTexts.SeedsAgree | include/lazily/lossless_tree_crdt.hpp:610-616 | two copies seeded with one string are equal if and only if the peer is the same or the string is empty |
| LeafTexts.EditLeaf | include/lazily/lossless_tree_crdt.hpp:235-262 | the text reads as the string with the bytes cut out and the new ones put in, whichever bytes are deleted already; the operations sent out are the whole copy |
| LeafTexts.EditArrives | include/lazily/lossless_tree_crdt.hpp:610-616 | a copy that was equal before is equal again once an edit arrives, insertions and deletions mixed |
| LeafTexts.ByteToChar | include/lazily/lossless_tree_crdt.hpp:542-548 | how many characters begin before the byte offset |
| LeafTexts.CharToByte | include/lazily/lossless_tree_crdt.hpp:658-666 | where the walk stops that counts the beginnings of characters |
| LeafTexts.CutSurvives | include/lazily/lossless_tree_crdt.hpp:658-666 | a byte offset sent as a count of characters comes back if and only if it is the start or the byte before it begins a character of its own; otherwise it falls short |
| LeafTexts.SplitHere | include/lazily/lossless_tree_crdt.hpp:264-308 | both halves start afresh at the byte offset, the head under the peer that splits; past the end it is refused and nothing changes |
| LeafTexts.SplitThere | include/lazily/lossless_tree_crdt.hpp:617-642 | both halves start afresh where the count of characters leads, the head under the peer that made the node |
| LeafTexts.SplitAgrees | include/lazily/lossless_tree_crdt.hpp:617-642 | from one text, the two sides of a split hold equal halves if and only if the head is empty, or the node's own peer split it and the byte before the cut is a character's first |
| LeafTexts.CopiesPile | include/lazily/lossless_tree_crdt.hpp:643-655 | a text that holds two copies of one string, each thinned by deletions, reads as what is left of the larger peer's and then what is left of the other's |
| LeafTexts.EditAfterMerge | include/lazily/lossless_tree_crdt.hpp:643-655 | after a merge seeds one string under two peers, the next edit makes the receiving side read both copies (any string, any deletion) |
| IngressScopes.MergeInto | include/lazily/ingress.hpp:1195-1208 | one payload is folded into the window, and it says whether something was there |
| IngressScopes.Flush | include/lazily/ingress.hpp:1160-1192 | the one-by-one flush of parked successors is the fold of the maximal contiguous run, and nothing beyond it leaves the buffer |
| IngressScopes.Decide | include/lazily/ingress.hpp:1067-1193 | every outcome and every new state of the admission order lifecycle, fence, freshness, handoff, dedupe, ordering, backpressure, merge |
| IngressScopes.TakenIff | include/lazily/ingress.hpp:1067-1193 | an envelope is delivered or parked if and only if the fence, the lifecycle, the horizon, the sequence, the depth and the reorder window say so, in plain terms |
| IngressScopes.RefusedIff | include/lazily/ingress.hpp:1067-1193 | each reason for a refusal with its exact condition |
| IngressScopes.DeliveredStamp | include/lazily/ingress.hpp:1160-1208 | after a delivery the stamp is the largest of the old one, the envelope's and those of the successors it unblocked, and one of them |
| IngressScopes.BackoffExact | include/lazily/ingress.hpp:565-582 | the saturating 64-bit backoff is the exact clamped doubling |
| IngressScopes.BackoffGrows | include/lazily/ingress.hpp:565-582 | one failure more never shortens the backoff, and the ceiling bounds it |
| IngressRuns.BatchFolds | include/lazily/ingress.hpp:1195-1208 | folding a batch into the window is folding it onto everything delivered; associativity is enough |
| IngressRuns.ScopeStays | include/lazily/ingress.hpp:1067-1193 | every transition keeps parked envelopes beyond the gap, within the reorder window, and the depth within high water plus reorder window under a bounding policy |
| IngressRuns.RunKeeps | include/lazily/ingress.hpp:804-1193 | over every schedule, the payloads delivered are the producer's 0, 1, 2, ... of the current generation, each once, and drained values then window fold to them unless something was discarded |
| IngressRuns.ReadyIffHeardLately | include/lazily/ingress.hpp:529-542 | over every schedule, a live scope is ready if and only if some stamp delivered to it lies within the horizon, and stale if and only if none does |
| IngressRuns.RetryIs | include/lazily/ingress.hpp:565-582 | over every schedule, the retry offered is told from the failures since the last delivery: attempt, doubled wait under the ceiling, and where to resume |
| IngressRuns.ReorderNeedsNoCommutativity | include/lazily/ingress.hpp:951-1193 | over every schedule of arrivals, repeats, refusals, drains and reconnects: unless values were discarded, draining then reading the window gives the in-order fold |
| IngressRuns.NothingLost | include/lazily/ingress.hpp:1067-1193 | only DropOldest, a close, or an open discards |
| IngressChanges.AdmitCovers | include/lazily/ingress.hpp:972-1061 | the marked readers include every reader that moved if and only if it was not a handoff that ends refused, blocked, or parked with a retry pending |
| IngressChanges.FirstAdmitCovers | include/lazily/ingress.hpp:972-1061 | the first envelope of a key leaves no scope behind when refused, and marks enough when not |
| IngressChanges.OpenCovers | include/lazily/ingress.hpp:804-835 | the marks of an open suffice if and only if it is not a newer generation over a delivered scope that is live or has a retry pending, nor a closed scope with one |
| IngressChanges.ReconnectCovers | include/lazily/ingress.hpp:860-886 | the marks of a reconnect suffice if and only if it does not revive a closed scope without a newer generation |
| IngressChanges.OthersCover | include/lazily/ingress.hpp:841-960 | suspend, close, fail and drain always mark enough |
| IngressChanges.AdmitSpares | include/lazily/ingress.hpp:972-1061 | an envelope parked under the current generation marks no reader; a delivery marks all four; any other marks only readers that moved, except the readiness of a suspended scope on a handoff |
| IngressChanges.FirstAdmitSpares | include/lazily/ingress.hpp:972-1061 | the first envelope of a key marks only readers that moved, except the retry of a delivered one |
| IngressChanges.OpenSpares | include/lazily/ingress.hpp:804-835 | an open marks only readers that moved if and only if it neither resumes a suspended scope under its generation nor finds a live one with nothing delivered |
| IngressChanges.ReconnectSpares | include/lazily/ingress.hpp:860-886 | a reconnect marks only readers that moved if and only if it does not find such a live scope |
| IngressChanges.OthersSpare | include/lazily/ingress.hpp:841-960 | suspend, close, drain and fail mark only readers that moved; a failure if and only if the streak can still count it |
| Ingress.IngressCore.PushReceipt | include/lazily/ingress.hpp:1210-1217 | receipt offsets stay consecutive and nothing is evicted before the log is full |
| Ingress.IngressCore.Open | include/lazily/ingress.hpp:804-835 | whole new state and change set, and exactly when the change set is sound |
| Ingress.IngressCore.Suspend | include/lazily/ingress.hpp:841-853 | keeps everything but the lifecycle; the replay request names the first missing sequence |
| Ingress.IngressCore.Reconnect | include/lazily/ingress.hpp:860-886 | whole new state, request and change set, and exactly when the change set is sound |
| Ingress.IngressCore.Close | include/lazily/ingress.hpp:889-909 | whole new state; the change set is sound |
| Ingress.IngressCore.Tick | include/lazily/ingress.hpp:914-925 | marks exactly the scopes whose readiness crossed the horizon, both ways |
| Ingress.IngressCore.Fail | include/lazily/ingress.hpp:928-944 | the error streak saturates; a receipt is logged; the change set is sound |
| Ingress.IngressCore.Drain | include/lazily/ingress.hpp:951-961 | hands over the window and leaves the watermark |
| Ingress.IngressCore.Admit | include/lazily/ingress.hpp:972-1061 | new state, admission, receipts and change set of every outcome, the newest stamp among those delivered, and exactly when the change set is sound |
| Ingress.FreshArrival | include/lazily/ingress.hpp:972-1061 | tick to 100, open, admit an envelope stamped 95 under a horizon of 10: ready, and the authority's stamp is 95 (concrete run) |
| Ingress.SilentRefusal | include/lazily/ingress.hpp:972-1061 | a reachable core on which a refused handoff moves a reader the change set does not mark (concrete run) |
| Ingress.SilentReopen | include/lazily/ingress.hpp:804-835 | a reachable core on which an open moves a reader the change set does not mark (concrete run) |
| Ingress.SilentReconnect | include/lazily/ingress.hpp:860-886 | a reachable core on which a reconnect moves a reader the change set does not mark (concrete run) |
| Subsequence.RankBounds | include/lazily/collections.hpp:142-171 | no increasing subsequence ending at a position is longer than its rank |
| Subsequence.TailsGrow | include/lazily/collections.hpp:148-162 | placing a position at the first tail not below it keeps the tails strictly increasing and each rank's best |
| Subsequence.LongestIncreasing | include/lazily/collections.hpp:142-171 | indices and values strictly increase, and no strictly increasing subsequence of the input is longer |
| Journal.ReadBack | include/lazily/reliable_sync.hpp:362-387 | reading undoes writing, whatever bytes follow |
| Journal.RecordLaid | include/lazily/reliable_sync.hpp:336-371 | byte by byte: the operation, eight bytes of the epoch and eight of the length, each the value divided by its power of 256, then the frame |
| Journal.TornReadsPrefix | include/lazily/reliable_sync.hpp:373-387 | a journal cut at any byte reads as exactly the records that were whole |
| Journal.FileSplits | include/lazily/reliable_sync.hpp:373-387 | any file at all is its whole records and a tail that begins none |
| Journal.AppendReadsBack | include/lazily/reliable_sync.hpp:362-387 | for any file and record: the record appended is read back, alone and last, if and only if the torn tail overlaps it, that is, tail then record begin with the record's own bytes |
| Journal.AppendAtBoundary | include/lazily/reliable_sync.hpp:362-387 | a file as long as its whole records reads the next append back |
| Journal.AppendAfterTear | include/lazily/reliable_sync.hpp:362-387 | a record behind a non-empty torn tail is not read back as such if any of its bytes differs from the byte then standing in its place |
| Journal.TornFrameSwallows | include/lazily/reliable_sync.hpp:362-387 | a tail torn inside its frame takes its missing bytes from whatever is appended, and reading goes on in the middle of that |
| Journal.OverlapHappens | include/lazily/reliable_sync.hpp:362-387 | a torn tail that overlaps the record after it exists (concrete input) |
| Journal.LoneByteSwallows | include/lazily/reliable_sync.hpp:362-387 | one stray byte before a cursor record hides the cursor record (concrete input) |
| Journal.AppendU64 | include/lazily/reliable_sync.hpp:336-340 | eight little-endian bytes |
| Journal.ReadU64 | include/lazily/reliable_sync.hpp:342-348 | the value of eight little-endian bytes |
| Outbox.ListsUnique | include/lazily/reliable_sync.hpp:245-268 | a map has one ascending listing, so two outboxes with one book replay and list the same |
| Outbox.CrashKeepsPrefix | include/lazily/reliable_sync.hpp:294-387 | after a crash in mid-write the journal is the outbox as of some prefix of its records, and the cursor has not grown |
| Outbox.ReopenedSteps | include/lazily/reliable_sync.hpp:219-243 | on any reopened file as long as its whole records, an append, an acknowledgement and a pruning are the steps of its book |
| Outbox.JournalFile.AppendRecord | include/lazily/reliable_sync.hpp:362-371 | appends the record's bytes; a negative epoch is refused and changes nothing |
| Outbox.JournalFile.ReadRecords | include/lazily/reliable_sync.hpp:373-387 | every whole record, front to back |
| Outbox.JournalFile.ScanAfter | include/lazily/reliable_sync.hpp:308-325 | puts above the cursor, ascending |
| Outbox.StoredOutbox.Append | include/lazily/reliable_sync.hpp:232 | the same step of the same book over either store |
| Outbox.StoredOutbox.AckThrough | include/lazily/reliable_sync.hpp:234-243 | the same step of the same book over either store; however stale the handle, the cursor never falls |
| Outbox.StoredOutbox.ReplayFrom | include/lazily/reliable_sync.hpp:245-257 | exactly the frames above cursor and argument, ascending, over either store |
| Outbox.StoredOutbox.RetainedEpochs | include/lazily/reliable_sync.hpp:259-268 | exactly the epochs of the book, ascending |
| Outbox.Handover | include/lazily/reliable_sync.hpp:234-243 | two handles on one journal see each other's acknowledgements |
| ReliableSync.ResyncCoordinator.IngestDelta | include/lazily/reliable_sync.hpp:98-116 | apply, ignore or request, with the epoch and the pending request as they then stand |
| ReliableSync.ResyncCoordinator.Ingest | include/lazily/reliable_sync.hpp:119-135 | a snapshot always applies, a control frame never |
| ReliableSync.SyncDriver.Tick | include/lazily/reliable_sync.hpp:645-735 | replay, append-before-send drain, receive and advertise, as one function of the driver, the inbound frames and the link |
| SyncNetwork.ReceiverTick | include/lazily/reliable_sync.hpp:685-735 | from a faithful state, honest frames in any order and number leave it faithful, and it sends nothing but requests and acknowledgements of its epoch |
| SyncNetwork.SenderTick | include/lazily/reliable_sync.hpp:648-705 | a sender's tick sends only honest frames, prunes nothing the receiver has not reached, and loses nothing staged |
| SyncNetwork.StepKeeps | include/lazily/reliable_sync.hpp:645-735 | from an exact state a step keeps the receiver's epoch equal to what was folded if and only if it is not a receiver tick whose source breaks behind frames that move the epoch; the condition looks at the inbound frames alone |
| SyncNetwork.StepExact | include/lazily/reliable_sync.hpp:645-735 | from any state: a tick that breaks ends exact if and only if what was folded before it reaches just to the epoch it ends at, a whole one if and only if it began so or met a snapshot |
| SyncNetwork.TickExtends | include/lazily/reliable_sync.hpp:645-735 | a tick without a snapshot folds exactly the events its epoch moves across, behind those folded before |
| SyncNetwork.RunFolds | include/lazily/reliable_sync.hpp:98-735 | over every run the coordinator and the epoch folded to are what the inbound frames and the breaks say; where no epoch is named, the events folded are no initial part of the history |
| SyncNetwork.SparedRun | include/lazily/reliable_sync.hpp:98-735 | a run none of whose breaks moves the epoch is exact, and the first that does ends that |
| SyncNetwork.SparedMeans | include/lazily/reliable_sync.hpp:98-135 | frames without a snapshot leave the epoch where it is if and only if no delta among them starts at it and ends above it |
| SyncNetwork.NothingUnacked | include/lazily/reliable_sync.hpp:98-735 | over every run, broken sources included: the projection is the fold of recorded events, nothing unreached is acknowledged, and every staged frame above the highest epoch reached is pending or retained |
| SyncNetwork.ExactlyOnceIsState | include/lazily/reliable_sync.hpp:98-135 | when the receiver's epoch is what was folded, its projection is the sender's state at that epoch |
| SyncNetwork.ExactlyOnceEffect | include/lazily/reliable_sync.hpp:98-735 | over every run of a link that loses, repeats and reorders, with sources that break whenever they like: the projection is exact at the receiver's epoch if and only if the epoch it is folded to, told from the inbound frames and the breaks alone, is that epoch; and wherever it is folded to, it is the sender's state there |
| SyncNetwork.BrokenTickForgets | include/lazily/reliable_sync.hpp:685-697 | a source that breaks after a delta was applied loses it: epoch moved, projection not, redelivery ignored (concrete input) |
| SyncNetwork.SnapshotHeals | include/lazily/reliable_sync.hpp:98-735 | after any run, an unbroken tick that takes a snapshot makes the projection right again |
| SyncNetwork.DeltasDoNotHeal | include/lazily/reliable_sync.hpp:98-735 | after any run that lost a frame, no whole tick of deltas, and no step of the sender, makes it right again |
| SyncNetwork.BreakUndoesBreak | include/lazily/reliable_sync.hpp:685-697 | a broken snapshot takes the epoch below the projection and a broken delta brings it up again: exact, inexact, exact (concrete input) |
| SyncNetwork.ReplayCatchesUp | include/lazily/reliable_sync.hpp:98-116 | a replayed chain that has the receiver's epoch as a boundary brings it to the chain's end and ends resyncing |
| SyncNetwork.RoundTripCatchesUp | include/lazily/reliable_sync.hpp:645-735 | over a loss-free link, whatever the sender has to replay and to send brings a receiver anywhere on that chain to its end, as one tick of each driver |
| SyncNetwork.AckSentOrOwed | include/lazily/reliable_sync.hpp:727-730 | an unbroken tick that owed an acknowledgement, or applied a snapshot or delta, sends one with its final epoch as the last thing, or still owes it and the link refused its last try; nothing else is owed |
| SyncNetwork.TickCredits | include/lazily/reliable_sync.hpp:688-691 | a tick credits the largest acknowledgement met, and retains nothing at or below any |
| SyncNetwork.RoundTripPrunes | include/lazily/reliable_sync.hpp:688-730 | one tick of each driver, the way back loss-free: the sender retains no epoch at or below the receiver's |
| SyncNetwork.AckedIsFreed | include/lazily/reliable_sync.hpp:688-730 | the same after any run of the network |
| SyncNetwork.TickAnswers | include/lazily/reliable_sync.hpp:692-722 | over a loss-free link a tick answers every request with the provider's snapshot and every gap with a request naming its epoch |
| SyncNetwork.GapHeals | include/lazily/reliable_sync.hpp:692-722 | after any run: a receiver that meets a gap, the sender's answer and the receiver's next tick end exact at the epoch reached |
| SyncNetwork.BacklogSent | include/lazily/reliable_sync.hpp:648-680 | over a loss-free link a tick sends the replay, then everything pending, in order, then what it owes, and leaves nothing pending |
| SyncNetwork.BacklogStops | include/lazily/reliable_sync.hpp:648-680 | over any link a tick sends its backlog up to the first frame refused: that one is in the outbox, the rest stays pending, the driver is stalled, and the replay stays due exactly if it broke off |
| LatestDurable.EpochNamesValue | include/lazily/latest_durable_projection_core.hpp:135-193 | an epoch is accepted at most once, so a token's epoch identifies its value |
| LatestDurable.JudgedIsVerdict | include/lazily/latest_durable_projection_core.hpp:135-157 | the verdict computed from pending, in-flight and durable is the one told by the newest accepted value alone |
| LatestDurable.OfferedNext | include/lazily/latest_durable_projection_core.hpp:135-157 | offered right behind an accepted value: only a larger epoch is accepted, an equal one is unchanged or a conflict, a smaller one is durable already or stale |
| LatestDurable.Layered | include/lazily/latest_durable_projection_core.hpp:135-231 | pending is newer than in flight, and in flight is newer than durable |
| LatestDurable.RefloatedOk | include/lazily/latest_durable_projection_core.hpp:195-231 | a failed or fenced token goes back to pending or gives way to something newer; nothing newest is lost |
| LatestDurable.Core.UpsertDesired | include/lazily/latest_durable_projection_core.hpp:135-157 | every verdict with its exact condition; only an accepted value changes anything |
| LatestDurable.Core.ClaimNext | include/lazily/latest_durable_projection_core.hpp:159-172 | hands out the pending value under the current generation, or says why not |
| LatestDurable.Core.AckApplied | include/lazily/latest_durable_projection_core.hpp:174-193 | only the token in flight, of this generation, moves the durable frontier, and up |
| LatestDurable.Core.FailRetryable | include/lazily/latest_durable_projection_core.hpp:195-208 | the token returns to pending unless superseded |
| LatestDurable.Core.Reconnect | include/lazily/latest_durable_projection_core.hpp:210-231 | takes every token back, counts exactly those requeued and superseded, and an older generation changes nothing |
| Json.ValueBack | include/lazily/json.hpp:202-236 | the parser reads back any written double-free value byte for byte and leaves what follows |
| Json.RoundTrip | include/lazily/json.hpp:241-524 | reading a written document gives the value that was written, for arbitrary byte strings and all 64-bit integers |
| Json.WrittenInjective | include/lazily/json.hpp:241-524 | no two double-free values share a text |
| Json.Utf8Encodes | include/lazily/json.hpp:385-400 | the bytes appended are the one encoding of the code point: its leading bits above six bits in each byte that follows |
| Json.PairRead | include/lazily/json.hpp:441-455 | the escapes of the two halves of a code point above the first plane read as that code point's bytes |
| Json.LoneRead | include/lazily/json.hpp:441-455 | an escape no low half follows reads as its own unit's bytes, and what follows is left in place |
| JsonGrammar.ReadsTheGrammar | include/lazily/json.hpp:262-518 | for any bytes: the reader answers a value if and only if the bytes are that value's text by the grammar, tokens, escapes, blanks and repeated keys included |
| JsonGrammar.WritesTheGrammar | include/lazily/json.hpp:202-236 | what is written is a text of the value by the same grammar |
| JsonCanonical.WrittenClean | include/lazily/json.hpp:202-236 | no text written holds a control byte |
| JsonCanonical.WrittenShortest | include/lazily/json.hpp:202-236 | the rendering is canonical: no text without control bytes that denotes the value is shorter than the one written, blanks, leading zeros and idle escapes included |
| JsonCanonical.EscapeSmall | include/lazily/json.hpp:150-188 | escapes are spelled without capitals |
| JsonParser.WriteTo | include/lazily/json.hpp:202-236 | the appending writer produces that text |
| JsonParser.Cursor.ParseString | include/lazily/json.hpp:403-460 | the cursor parser reads any string, escapes and surrogate pairs included, as the grammar says, or refuses |
| JsonParser.Cursor.ParseNumber | include/lazily/json.hpp:462-518 | signs, digits, range, partial and malformed tokens decided as the grammar says, floating tokens included |
| JsonParser.Cursor.ParseValue | include/lazily/json.hpp:304-325 | the cursor parser agrees with the grammar on every input |
| JsonParser.Cursor.ParseDocument | include/lazily/json.hpp:262-267 | trailing bytes refuse the document |
| JsonParser.WriteThenParse | include/lazily/json.hpp:241-524 | what was written parses back unchanged |
| MsgPack.IntBack | include/lazily/msgpack.hpp:37-72 | each of the ten integer encodings reads back, negative ones through two's complement |
| MsgPack.SmallestInt | include/lazily/msgpack.hpp:37-72 | no bytes the reader takes for an integer are fewer than those the packer writes for it |
| MsgPack.StrBack | include/lazily/msgpack.hpp:74-90 | each of the four string encodings reads back |
| MsgPack.PackedBack | include/lazily/msgpack_codec.hpp:57-137 | the unpacker reads back any packed double-free value and leaves what follows |
| MsgPack.FrameRoundTrip | include/lazily/msgpack_codec.hpp:142-150 | a frame reads back as the value that was packed |
| MsgPackFormat.ReadsTheFormat | include/lazily/msgpack_codec.hpp:93-137 | for any bytes: the reader answers a value and a rest if and only if the bytes before the rest encode that value by the table of formats, every width accepted |
| MsgPackFormat.BinsReadTheFormat | include/lazily/msgpack.hpp:315-333 | the same of byte strings |
| MsgPackFormat.PacksTheFormat | include/lazily/msgpack_codec.hpp:57-91 | what is packed encodes the value by the same table, and a number not below zero takes no signed form |
| MsgPackFormat.PackedShortest | include/lazily/msgpack_codec.hpp:57-91 | no encoding of a value is shorter than the one packed, headers of strings, arrays and maps included |
| MsgPackFormat.PacksBins | include/lazily/msgpack.hpp:91-104 | a byte string packed encodes those bytes by the same table, in the shortest form |
| MsgPack.SkipsWhatIsRead | include/lazily/msgpack.hpp:352-387 | skipping stops exactly where reading would, for any input the reader accepts |
| MsgPackIo.MsgPacker.I64 | include/lazily/msgpack.hpp:37-72 | the branch ladder writes the encoding that `SmallestInt` shows to be the shortest |
| MsgPackIo.MsgPacker.PackJson | include/lazily/msgpack_codec.hpp:57-91 | packs the value, or refuses if and only if a floating-point number is in it |
| MsgPackIo.MsgUnpacker.ReadI64 | include/lazily/msgpack.hpp:228-266 | any valid integer encoding, and a 64-bit unsigned one only if it fits |
| MsgPackIo.MsgUnpacker.UnpackJson | include/lazily/msgpack_codec.hpp:93-137 | the cursor agrees with the format on every input |
| MsgPackIo.MsgUnpacker.Skip | include/lazily/msgpack.hpp:352-387 | the cursor moves past one value, byte strings included, or refuses |
| MsgPackIo.PackThenUnpack | include/lazily/msgpack_codec.hpp:57-150 | what was packed unpacks unchanged |
| Ipc.OpBack | include/lazily/json_codec.hpp:282-376 | each of the ten delta operations comes back from its tagged tree |
| Ipc.SnapshotBack | include/lazily/json_codec.hpp:210-278 | a snapshot comes back, optional keys omitted or present |
| Ipc.SyncBack | include/lazily/json_codec.hpp:402-476 | an anti-entropy frame comes back, an empty frontier omitted |
| Ipc.MessageBack | include/lazily/json_codec.hpp:502-524 | every message comes back from its tree, which the writers can carry |
| IpcCodecs.JsonRoundTrip | include/lazily/json_codec.hpp:556-562 | decoding the JSON encoding gives the message, for every message |
| IpcText.MessageSpelled | include/lazily/json_codec.hpp:502-524 | the text of every message, key by key in order, spelled out as literals: no tree in between |
| IpcCodecs.EncodeJson | include/lazily/json_codec.hpp:556-562 | the encoder writes that text |
| IpcCodecs.MsgPackRoundTrip | include/lazily/msgpack_codec.hpp:152-163 | decoding the MessagePack encoding gives the message, for every message with lengths below 2^32 |
| IpcCodecs.EncodingsApart | include/lazily/json_codec.hpp:556-562 | two messages never share an encoding in either codec |
| IpcCodecs.ThereAndBack | include/lazily/msgpack_codec.hpp:152-163 | both encoders and decoders, run one after the other, return the message |
| Framing.SkipBack | include/lazily/msgpack.hpp:352-387 | skipping consumes exactly one value of any shape the packers produce, byte strings and nested maps included |
| PrivateMaps.SnapshotReads | include/lazily/codec.hpp:238-340 | a keyed snapshot comes back from any widening: unknown keys woven into any of its maps, at any depth |
| PrivateMaps.OpReads | include/lazily/codec.hpp:344-546 | each of the ten keyed operations comes back from any widening |
| PrivateMaps.DeltaReads | include/lazily/codec.hpp:344-546 | a keyed delta comes back from any widening |
| PrivateMaps.SyncReads | include/lazily/codec.hpp:535-618 | a keyed anti-entropy frame comes back from any widening, its bare frontier pairs included |
| PrivateMaps.KindRefused | include/lazily/codec.hpp:170-205 | a keyed state that carries a kind alone is refused if and only if the kind, modulo 2^32, is none of the three |
| PrivateMaps.ValueBeforeType | include/lazily/codec.hpp:688-721 | a keyed envelope whose value comes before any type is refused, whatever unknown keys stand in front and whatever follows |
| PrivateMaps.MessageReads | include/lazily/codec.hpp:654-721 | a keyed frame comes back from any widening; reading ends at the value, whatever keys stand behind it |
| PrivateRows.OpRowLeaves | include/lazily/codec.hpp:1173-1264 | an operation comes back from its pair, and whatever stands behind the pair is left unread |
| PrivateRows.OpRowConsumed | include/lazily/codec.hpp:1173-1264 | what stands behind an operation's pair is passed over if and only if nothing does |
| PrivateRows.MessageRowReads | include/lazily/codec.hpp:1338-1388 | a positional frame comes back from any widening: cells added behind those known, at any depth but behind an operation's pair |
| PrivateCodec.KeyedForward | include/lazily/codec.hpp:1417-1424 | the decoder is forward compatible on keyed frames, whatever bytes follow |
| PrivateCodec.PositionalForward | include/lazily/codec.hpp:1417-1424 | the decoder is forward compatible on positional frames, whatever bytes follow |
| PrivateCodec.PrivateRoundTrip | include/lazily/codec.hpp:1396-1424 | for every message with lengths below 2^32: the one decoder gives it back from either encoder |
| PrivateBytes.KeyedSpelled | include/lazily/codec.hpp:654-686 | the keyed frame of every message, spelled out: headers, key names in order, values |
| PrivateBytes.PositionalSpelled | include/lazily/codec.hpp:1338-1357 | the positional frame of every message, spelled out: headers and cells in order |
| PrivateCodec.FramesApart | include/lazily/codec.hpp:1396-1424 | two messages share no frame, of either form or one of each |
| PrivateCodec.KindRowRefused | include/lazily/codec.hpp:879-908 | a positional state of any kind but the three is refused, those that agree modulo 2^32 included |
| PrivateCodec.LongerOpLosesDelta | include/lazily/codec.hpp:1173-1302 | for any two operations and any cell that is not an array: the cell behind the first one's pair and the delta that holds both is refused |
| PrivateCodec.LongerOpMisread | include/lazily/codec.hpp:1173-1302 | a cell laid out as an operation behind the pair is taken for the next operation: the delta is accepted with it, and the one sent after it is dropped |
| PrivateReaders.UnpackBlob | include/lazily/codec.hpp:76-97 | the field loop over the cursor agrees with the format on every input |
| PrivateReaders.UnpackOpDraft | include/lazily/codec.hpp:451-533 | the field loop over the cursor agrees with the format on every input, fields in any order and repeated |
| PrivateReaders.UnpackSnapshot | include/lazily/codec.hpp:284-340 | nested loops over the cursor agree with the format on every input; a list met twice is appended to |
| PrivateReaders.UnpackMessage | include/lazily/codec.hpp:688-721 | the cursor agrees with the format on every input; the first value met ends the reading |
| PrivateReaders.UnpackOpRow | include/lazily/codec.hpp:1173-1264 | the cursor agrees with the format on every input, and stops behind the operation's cells |
| PrivateReaders.UnpackMessageRow | include/lazily/codec.hpp:1358-1388 | the cursor agrees with the format on every input |
| PrivateReaders.Decode | include/lazily/codec.hpp:1417-1424 | the decoder run over a cursor is the decoder of the format, for any bytes |
| PrivatePackers.PackOp | include/lazily/codec.hpp:357-447 | the buffer grows by the operation's keyed bytes, for each of the ten |
| PrivatePackers.PackMessage | include/lazily/codec.hpp:654-686 | the buffer grows by the message's keyed bytes |
| PrivatePackers.PackOpRow | include/lazily/codec.hpp:1109-1172 | the buffer grows by the operation's positional bytes, for each of the ten |
| PrivatePackers.PackMessageRow | include/lazily/codec.hpp:1338-1357 | the buffer grows by the message's positional bytes |
| PrivatePackers.ThereAndBack | include/lazily/codec.hpp:1396-1424 | packed into a buffer and read over a cursor, in either form, the message comes back |

## Left out

- Closures that throw, write, dispose or create nodes, effect cleanup callbacks, and reads through a stale handle whose id was recycled; a closure's number of reads on a path is bounded.
- `computed_ripple_when`, eager signals and `signal`, type-erased storage, threads; values are integers with the built-in equality.
- The engine's columns are fields of one record the methods reassign (`nodes`), not one array cell per node; edge lists are sequences there, and the indexed ones are related to them in `EdgeSet`.
- Engine.Context.Clear: does not say that a closure re-runs; where an effect rests on what is cleared, that the caches are gone is stated of `ClearFrom`, because the effect may refill them within the same call.
- Engine.Context.ClearCellDependents: does not say that a closure re-runs; where an effect rests on the source, that the readers' caches are gone is stated of `ClearCellDependentsNow`, because the effect may refill them within the same call.
- Engine.Context.FlushBatchedInvalidations: where an effect rests on what the batch owes for, does not say which caches a batched clear emptied, because the effect may refill them within the same call.
- Counters and epochs are unbounded except where a width decides an outcome (journal words, JSON and MessagePack integers, error streaks); edge positions and queue lengths are assumed below the index's 32-bit marks.
- Hash functions are parameters, and unordered tables are visited in any order.
- TextCrdt: `gc_with` and `clone`; the other replicated types of `crdt.hpp`; `key_between`.
- LosslessTree.LosslessTree.CreateNode: a sibling that names no node, for which the code adds an empty node to its table, is not modelled.
- LosslessTree.LosslessTree.ReorderChild: a sibling that names no node is not modelled, for the same reason.
- LosslessTree.LosslessTree.EditLeaf: carries the chain of text operations; what the edit does to the leaf's text is `LeafTexts.EditLeaf`, beside the tree and not inside its nodes.
- LosslessTree.LosslessTree.SplitLeaf: takes the count of characters as a parameter; the division of the text, and the refusal of a cut behind its end, is `LeafTexts.SplitHere`.
- LosslessTree.LosslessTree.MergeAdjacentLeaves: the tree and the ids; what the seeding of the joined text leads to is `LeafTexts.EditAfterMerge`.
- LosslessTree.LosslessTree.Render: leaf ids stand for the leaves' text.
- TextCrdts.TextCrdt.ApplyDelta: asks that every operation's id is younger than its origin's, held or not, as Lamport clocks make it (`DeltaSyncTheorem` shows it of every delta delivered); operations no replica mints are not modelled.
- Lossless tree: text operations concurrent with a split or a merge of their leaf, aliasing of leaf text between forks, and malformed operations no replica mints; an empty sort key counts as beginning with 0, and digits are unbounded (minted ones stay in 1 to 128, `DigitsStay`).
- TreeRender.RenderNode: does not say which order siblings with equal keys come in, because the library sort leaves it open.
- Ingress: keys' reader tables and the reactive shell, transports and schedules.
- `reconcile`, `KeyedOrder` and the rest of `collections.hpp`.
- Journal: file locking, `fsync` and short writes; an append adds its whole record, and what a crash leaves is the torn file of `CrashKeepsPrefix`.
- ReliableSync.SyncDriver.Tick: the outbox is seen through its book of messages, not through encoded frames, because the frame codec is proved separately; the link's answers, the clock and the inbound frames are parameters.
- SyncNetwork.ExactlyOnceEffect: data flows one way, because the other direction is the same proof with the roles exchanged.
- The liveness cells of `reliable_sync.hpp` (`OrSet`, `WireLwwRegister`).
- JSON floating-point numbers: a well-formed floating token is kept as written, and malformed ones are refused; rounding, and range errors of the library's conversion, are not modelled, nor is `as_int` of a floating number.
- Private framing: fields of a keyed `NodeSnapshot` or `EdgeSnapshot` that a frame leaves out are uninitialised in the code and read as zero here; lengths of 2^32 and more, which the packers would cut.
- I/O, FFI, asynchronous contexts, membership, rate shaping, relays, queues, leases, presence and service registries.
