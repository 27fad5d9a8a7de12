/** The engine's indexed containers, proved to be the plain lists they speed up. */
module EdgeSets {
  import opened Options
  import opened Closures
  import opened Graphs
  import opened GraphSteps

  const TOMB: nat := 0xFFFF_FFFF
  const POS_MAX: nat := 0xFFFF_FFFE

  // ── Counting slots ──

  function Count(s: seq<nat>, v: nat): nat {
    if s == [] then 0 else (if s[0] == v then 1 else 0) + Count(s[1..], v)
  }

  lemma {:induction false} CountUpdate(s: seq<nat>, i: nat, w: nat, v: nat)
    requires i < |s|
    ensures Count(s[i := w], v) == Count(s, v) - (if s[i] == v then 1 else 0) + (if w == v then 1 else 0)
  {
    if i == 0 {
      assert s[i := w][1..] == s[1..];
    } else {
      assert s[i := w][1..] == s[1..][i - 1 := w];
      CountUpdate(s[1..], i - 1, w, v);
    }
  }

  lemma {:induction false} CountPositive(s: seq<nat>, v: nat)
    requires Count(s, v) > 0
    ensures exists i :: 0 <= i < |s| && s[i] == v
  {
    if s[0] != v {
      CountPositive(s[1..], v);
      var i :| 0 <= i < |s[1..]| && s[1..][i] == v;
      assert s[i + 1] == v;
    }
  }

  lemma {:induction false} CountZeros(n: nat, v: nat)
    ensures Count(seq(n, _ => 0), v) == if v == 0 then n else 0
  {
    if n > 0 {
      assert seq(n, _ => 0)[1..] == seq(n - 1, _ => 0);
      CountZeros(n - 1, v);
    }
  }

  // ── Probe sequences ──

  /** Slot visited at step `j` from hash `h` in a table of `cap` slots. */
  function Step(h: nat, j: nat, cap: nat): (i: nat)
    requires j < cap
    ensures i < cap
  {
    var start := h % cap;
    if start + j < cap then start + j else start + j - cap
  }

  function Next(i: nat, cap: nat): nat {
    if i + 1 == cap then 0 else i + 1
  }

  lemma StepNext(h: nat, j: nat, cap: nat)
    requires j < cap
    ensures j + 1 < cap ==> Step(h, j + 1, cap) == Next(Step(h, j, cap), cap)
  {
  }

  /** A probe sequence visits every slot. */
  lemma StepsCover(h: nat, cap: nat, i: nat)
    requires i < cap
    ensures exists j :: 0 <= j < cap && Step(h, j, cap) == i
  {
    var start := h % cap;
    assert Step(h, if i >= start then i - start else i + cap - start, cap) == i;
  }

  /** Probing for hash `h` reaches slot value `p + 1` before any empty slot. */
  ghost predicate Findable(h: nat, slots: seq<nat>, p: nat) {
    exists j :: ReachedAt(h, slots, p, j)
  }

  ghost predicate ReachedAt(h: nat, slots: seq<nat>, p: nat, j: nat) {
    && j < |slots| && slots[Step(h, j, |slots|)] == p + 1
    && forall k :: 0 <= k < j ==> slots[Step(h, k, |slots|)] != 0
  }

  /** The table indexes exactly the first `n` elements of `edges`. */
  ghost predicate Indexes(hash: Id -> nat, edges: seq<Id>, n: nat, slots: seq<nat>, tomb: int) {
    && n <= |edges| < POS_MAX && |slots| > 0
    && (forall i :: 0 <= i < |slots| ==> slots[i] == TOMB || slots[i] <= n)
    && (forall i, j :: 0 <= i < j < |slots| && slots[i] == slots[j] ==> slots[i] == 0 || slots[i] == TOMB)
    && (forall p :: 0 <= p < n ==> Findable(hash(edges[p]), slots, p))
    && Count(slots, TOMB) == tomb && Count(slots, 0) + n + tomb == |slots|
  }

  /** The steps before `j` are not empty, and none of them points at `id`. */
  ghost predicate Missed(edges: seq<Id>, id: Id, h: nat, slots: seq<nat>, j: nat) {
    forall k :: 0 <= k < j && k < |slots| ==> MissedAt(edges, id, slots, Step(h, k, |slots|))
  }

  ghost predicate MissedAt(edges: seq<Id>, id: Id, slots: seq<nat>, i: nat) {
    i < |slots| && slots[i] != 0 && (slots[i] != TOMB && slots[i] <= |edges| ==> edges[slots[i] - 1] != id)
  }

  lemma ProbeMiss(edges: seq<Id>, id: Id, h: nat, slots: seq<nat>, j: nat)
    requires j < |slots| && slots[Step(h, j, |slots|)] == 0 && |edges| < TOMB
    requires Missed(edges, id, h, slots, j)
    ensures forall p :: 0 <= p < |edges| && edges[p] == id ==> !Findable(h, slots, p)
  {
    forall p, j': nat | 0 <= p < |edges| && edges[p] == id ensures !ReachedAt(h, slots, p, j') {
      if j' < j { assert MissedAt(edges, id, slots, Step(h, j', |slots|)); }
    }
  }

  /** Probing terminates and stays in range: there is an empty slot, and positions are valid. */
  ghost predicate Probeable(slots: seq<nat>, n: nat) {
    && n < POS_MAX
    && (exists i :: 0 <= i < |slots| && slots[i] == 0)
    && (forall i :: 0 <= i < |slots| ==> slots[i] == TOMB || slots[i] <= n)
  }

  lemma IndexesProbeable(hash: Id -> nat, edges: seq<Id>, slots: seq<nat>, tomb: int)
    requires Indexes(hash, edges, |edges|, slots, tomb) && |edges| + tomb < |slots|
    ensures Probeable(slots, |edges|)
  {
    CountPositive(slots, 0);
  }

  lemma TombProbeable(slots: seq<nat>, n: nat, i: nat)
    requires Probeable(slots, n) && i < |slots| && slots[i] != 0
    ensures Probeable(slots[i := TOMB], n)
  {
    var e :| 0 <= e < |slots| && slots[e] == 0;
    assert slots[i := TOMB][e] == 0;
  }

  lemma HasEmpty(hash: Id -> nat, edges: seq<Id>, n: nat, slots: seq<nat>, tomb: int)
    requires Indexes(hash, edges, n, slots, tomb) && n + tomb < |slots|
    ensures exists i :: 0 <= i < |slots| && slots[i] == 0
  {
    CountPositive(slots, 0);
  }

  /** What was found before is found after an empty or deleted slot is filled. */
  lemma StillFindable(h: nat, slots: seq<nat>, p: nat, i: nat, x: nat)
    requires Findable(h, slots, p) && i < |slots| && (slots[i] == 0 || slots[i] == TOMB) && x != 0 && p + 1 != TOMB
    ensures Findable(h, slots[i := x], p)
  {
    hide Step;
    var j :| ReachedAt(h, slots, p, j);
    assert ReachedAt(h, slots[i := x], p, j);
  }

  /** Filling an empty or deleted slot with position `n` indexes one more element. */
  lemma PlaceIndexes(hash: Id -> nat, edges: seq<Id>, n: nat, slots: seq<nat>, tomb: int, j: nat)
    requires Indexes(hash, edges, n, slots, tomb) && n < |edges| && j < |slots|
    requires var i := Step(hash(edges[n]), j, |slots|); slots[i] == 0 || slots[i] == TOMB
    requires forall k :: 0 <= k < j ==> slots[Step(hash(edges[n]), k, |slots|)] != 0
    ensures var i := Step(hash(edges[n]), j, |slots|);
            Indexes(hash, edges, n + 1, slots[i := n + 1], if slots[i] == TOMB then tomb - 1 else tomb)
  {
    hide Findable, Count, Step;
    var h, cap := hash(edges[n]), |slots|;
    var i := Step(h, j, cap);
    var slots' := slots[i := n + 1];
    CountUpdate(slots, i, n + 1, 0);
    CountUpdate(slots, i, n + 1, TOMB);
    forall p | 0 <= p < n + 1 ensures Findable(hash(edges[p]), slots', p) {
      if p == n {
        FoundThere(h, slots', n, j);
      } else {
        StillFindable(hash(edges[p]), slots, p, i, n + 1);
      }
    }
  }

  lemma FoundThere(h: nat, slots: seq<nat>, p: nat, j: nat)
    requires ReachedAt(h, slots, p, j)
    ensures Findable(h, slots, p)
  {
  }

  /** Deleting an element of an indexed list: its slot becomes a tombstone, the last element
      takes its position, and the last element's slot is redirected. */
  ghost function Redirected(slots: seq<nat>, slot: nat, last: nat, n: nat): seq<nat>
    requires slot < |slots| && last < |slots| && slots[slot] != 0
  {
    var s1 := slots[slot := TOMB];
    if slots[slot] - 1 == n then s1 else s1[last := slots[slot]]
  }

  ghost predicate Deletable(hash: Id -> nat, edges: seq<Id>, slots: seq<nat>, tomb: int, slot: nat, last: nat) {
    && Indexes(hash, edges, |edges|, slots, tomb) && |edges| > 0 && slot < |slots|
    && slots[slot] != 0 && slots[slot] != TOMB
    && last < |slots| && slots[last] == |edges|
  }

  lemma DeleteCounts(hash: Id -> nat, edges: seq<Id>, slots: seq<nat>, tomb: int, slot: nat, last: nat)
    requires Deletable(hash, edges, slots, tomb, slot, last)
    ensures var s2 := Redirected(slots, slot, last, |edges| - 1);
            |s2| == |slots| && Count(s2, TOMB) == tomb + 1 && Count(s2, 0) == Count(slots, 0)
  {
    var s1 := slots[slot := TOMB];
    CountUpdate(slots, slot, TOMB, 0);
    CountUpdate(slots, slot, TOMB, TOMB);
    if slots[slot] != |edges| {
      CountUpdate(s1, last, slots[slot], 0);
      CountUpdate(s1, last, slots[slot], TOMB);
    }
  }

  lemma DeleteReaches(hash: Id -> nat, edges: seq<Id>, slots: seq<nat>, tomb: int, slot: nat, last: nat, p: nat)
    requires Deletable(hash, edges, slots, tomb, slot, last) && p < |edges| - 1
    ensures var n, pos := |edges| - 1, slots[slot] - 1;
            Findable(hash(edges[if p == pos then n else p]), Redirected(slots, slot, last, n), p)
  {
    var n, pos := |edges| - 1, slots[slot] - 1;
    var was := if p == pos then n else p;
    var j :| ReachedAt(hash(edges[was]), slots, was, j);
    assert ReachedAt(hash(edges[was]), Redirected(slots, slot, last, n), p, j);
  }

  lemma DeleteIndexes(hash: Id -> nat, edges: seq<Id>, slots: seq<nat>, tomb: int, slot: nat, last: nat)
    requires Deletable(hash, edges, slots, tomb, slot, last)
    ensures var pos, n := slots[slot] - 1, |edges| - 1;
            pos <= n && Indexes(hash, edges[pos := edges[n]][..n], n, Redirected(slots, slot, last, n), tomb + 1)
  {
    var pos, n := slots[slot] - 1, |edges| - 1;
    var edges', s2 := edges[pos := edges[n]][..n], Redirected(slots, slot, last, n);
    DeleteCounts(hash, edges, slots, tomb, slot, last);
    forall p | 0 <= p < n ensures Findable(hash(edges'[p]), s2, p) {
      DeleteReaches(hash, edges, slots, tomb, slot, last, p);
      assert edges'[p] == edges[if p == pos then n else p];
    }
  }

  class EdgeSet {
    const promote: nat
    const demote: nat
    const hash: Id -> nat
    var edges: seq<Id>
    var indexed: bool
    var slots: seq<nat>
    var live: nat
    var tomb: int

    ghost predicate Valid() reads this {
      && NoDup(edges) && |edges| < POS_MAX && demote <= promote
      && (indexed ==> Indexes(hash, edges, |edges|, slots, tomb) && live == |edges| && (live + tomb) * 2 < |slots|)
    }

    constructor (promote: nat, demote: nat, hash: Id -> nat)
      requires demote <= promote
      ensures Valid() && edges == []
      ensures this.promote == promote && this.demote == demote && this.hash == hash
    {
      this.promote, this.demote, this.hash := promote, demote, hash;
      edges, indexed, slots, live, tomb := [], false, [], 0, 0;
    }

    /** The slot holding `id`, or None: stops at the first empty slot, skips tombstones. */
    method Probe(id: Id) returns (slot: Option<nat>)
      requires Probeable(slots, |edges|)
      ensures slot.Some? ==> slot.val < |slots| && slots[slot.val] != 0 && slots[slot.val] != TOMB
                             && edges[slots[slot.val] - 1] == id
      ensures slot == None ==> forall p :: 0 <= p < |edges| && edges[p] == id ==> !Findable(hash(id), slots, p)
    {
      var cap, h := |slots|, hash(id);
      ghost var e :| 0 <= e < |slots| && slots[e] == 0;
      StepsCover(h, cap, e);
      ghost var stop :| 0 <= stop < cap && Step(h, stop, cap) == e;
      var i, j := Step(h, 0, cap), 0;
      hide Step;
      while true
        invariant 0 <= j <= stop && i == Step(h, j, cap)
        invariant Missed(edges, id, h, slots, j)
        decreases stop - j
      {
        var v := slots[i];
        if v == 0 {
          ProbeMiss(edges, id, h, slots, j);
          return None;
        }
        if v != TOMB && edges[v - 1] == id { return Some(i); }
        i := Next(i, cap);
        StepNext(h, j, cap);
        j := j + 1;
      }
    }

    /** Write the position of `edges[n]`, known not to be indexed yet. */
    method Place(ghost n: nat, id: Id, pos: nat)
      requires Indexes(hash, edges, n, slots, tomb) && n + tomb < |slots|
      requires n < |edges| && edges[n] == id && pos == n
      modifies `slots, `tomb
      ensures Indexes(hash, edges, n + 1, slots, tomb) && |slots| == old(|slots|) && tomb <= old(tomb)
    {
      HasEmpty(hash, edges, n, slots, tomb);
      var i, j := FreeSlot(id);
      PlaceIndexes(hash, edges, n, slots, tomb, j);
      if slots[i] == TOMB { tomb := tomb - 1; }
      slots := slots[i := pos + 1];
    }

    /** The first empty or deleted slot on the probe path of `id`, and its distance. */
    method FreeSlot(id: Id) returns (i: nat, ghost j: nat)
      requires exists i :: 0 <= i < |slots| && slots[i] == 0
      ensures j < |slots| && i == Step(hash(id), j, |slots|) && (slots[i] == 0 || slots[i] == TOMB)
      ensures forall k :: 0 <= k < j ==> slots[Step(hash(id), k, |slots|)] != 0
    {
      var cap, h := |slots|, hash(id);
      ghost var e :| 0 <= e < |slots| && slots[e] == 0;
      StepsCover(h, cap, e);
      ghost var stop :| 0 <= stop < cap && Step(h, stop, cap) == e;
      i, j := Step(h, 0, cap), 0;
      hide Step;
      while slots[i] != 0 && slots[i] != TOMB
        invariant 0 <= j <= stop && i == Step(h, j, cap)
        invariant forall k :: 0 <= k < j ==> slots[Step(h, k, cap)] != 0
        decreases stop - j
      {
        i := Next(i, cap);
        StepNext(h, j, cap);
        j := j + 1;
      }
    }

    method RebuildIndex()
      requires NoDup(edges) && |edges| < POS_MAX
      modifies `indexed, `slots, `live, `tomb
      ensures indexed && Indexes(hash, edges, |edges|, slots, tomb) && live == |edges|
      ensures (live + tomb) * 2 < |slots|
    {
      var cap := 16;
      while cap < |edges| * 4
        invariant cap >= 16
      {
        cap := cap * 2;
      }
      indexed, slots, live, tomb := true, seq(cap, _ => 0), |edges|, 0;
      CountZeros(cap, 0);
      CountZeros(cap, TOMB);
      for i := 0 to |edges|
        invariant Indexes(hash, edges, i, slots, tomb) && |slots| == cap && tomb <= 0
        invariant indexed && live == |edges|
      {
        Place(i, edges[i], i);
      }
    }

    /** Insert if absent: whatever the representation, the list and the answer are those of the
        scan. */
    method Insert(id: Id) returns (added: bool)
      requires Valid() && |edges| + 1 < POS_MAX
      modifies `edges, `indexed, `slots, `live, `tomb
      ensures Valid()
      ensures edges == EdgeInsert(old(edges), id) && added == (id !in old(edges))
    {
      if indexed {
        IndexesProbeable(hash, edges, slots, tomb);
        var found := Probe(id);
        if found.Some? { return false; }
        assert forall p :: 0 <= p < |edges| ==> Findable(hash(edges[p]), slots, p);
        assert id !in edges;
        ghost var n := |edges|;
        edges := edges + [id];
        live := live + 1;
        GrowIndexes(hash, edges[..n], id, slots, tomb);
        assert edges[..n] + [id] == edges;
        Place(n, id, |edges| - 1);
        if (live + tomb) * 2 >= |slots| || tomb * 4 >= |slots| { RebuildIndex(); }
        return true;
      }
      for i := 0 to |edges|
        invariant forall k :: 0 <= k < i ==> edges[k] != id
      {
        if edges[i] == id { return false; }
      }
      edges := edges + [id];
      if |edges| >= promote && |edges| < POS_MAX { RebuildIndex(); }
      added := true;
    }

    /** Remove if present: the last element takes the place of the removed one. */
    method Remove(id: Id) returns (removed: bool)
      requires Valid()
      modifies `edges, `indexed, `slots, `live, `tomb
      ensures Valid()
      ensures edges == EdgeRemove(old(edges), id) && removed == (id in old(edges))
    {
      if !indexed {
        for i := 0 to |edges|
          invariant forall k :: 0 <= k < i ==> edges[k] != id
        {
          if edges[i] == id {
            RemoveAt(edges, id, i);
            edges := edges[i := edges[|edges| - 1]];
            edges := edges[..|edges| - 1];
            return true;
          }
        }
        return false;
      }
      IndexesProbeable(hash, edges, slots, tomb);
      var slot := Probe(id);
      if slot == None {
        assert forall p :: 0 <= p < |edges| ==> Findable(hash(edges[p]), slots, p);
        return false;
      }
      RemoveSlot(slot.val);
      if |edges| <= demote {
        indexed := false;
      } else if (live + tomb) * 2 >= |slots| || tomb * 4 >= |slots| {
        RebuildIndex();
      }
      removed := true;
    }

    /** Drop the element a found slot points at. */
    method RemoveSlot(slot: nat)
      requires Valid() && indexed && slot < |slots| && slots[slot] != 0 && slots[slot] != TOMB
      modifies `edges, `slots, `live, `tomb
      ensures edges == EdgeRemove(old(edges), old(edges)[old(slots)[slot] - 1])
      ensures NoDup(edges) && |edges| + 1 == |old(edges)|
      ensures Indexes(hash, edges, |edges|, slots, tomb) && live == |edges| && (live + tomb) * 2 < |slots|
    {
      var pos, last := slots[slot] - 1, |edges| - 1;
      ghost var lastSlot := RemoveSlotFacts(hash, edges, slots, tomb, slot);
      hide Indexes, NoDup, EdgeRemove, Deletable, Redirected;
      Relocate(slot, pos, lastSlot);
      live := live - 1;
      tomb := tomb + 1;
      edges := edges[..last];
    }

    /** Tombstone a slot, then let the last element take over its position. */
    method Relocate(slot: nat, pos: nat, ghost lastSlot: nat)
      requires Indexes(hash, edges, |edges|, slots, tomb) && NoDup(edges) && |edges| + tomb < |slots|
      requires Deletable(hash, edges, slots, tomb, slot, lastSlot) && pos == slots[slot] - 1
      modifies `edges, `slots
      ensures edges == old(edges)[pos := old(edges)[|old(edges)| - 1]] && |edges| == |old(edges)|
      ensures |slots| == |old(slots)|
      ensures slots == Redirected(old(slots), slot, lastSlot, |edges| - 1)
    {
      var last := |edges| - 1;
      IndexesProbeable(hash, edges, slots, tomb);
      TombProbeable(slots, |edges|, slot);
      hide Indexes, NoDup, Probeable;
      slots := slots[slot := TOMB];
      if pos != last {
        var moved := edges[last];
        edges := edges[pos := moved];
        var movedSlot := Probe(moved);
        MovedFound(hash, old(edges), old(slots), tomb, slot, lastSlot, movedSlot);
        if movedSlot.Some? { slots := slots[movedSlot.val := pos + 1]; }
      }
    }
  }

  lemma RemoveSlotFacts(hash: Id -> nat, edges: seq<Id>, slots: seq<nat>, tomb: int, slot: nat) returns (lastSlot: nat)
    requires Indexes(hash, edges, |edges|, slots, tomb) && NoDup(edges)
    requires slot < |slots| && slots[slot] != 0 && slots[slot] != TOMB
    ensures Deletable(hash, edges, slots, tomb, slot, lastSlot)
    ensures var pos, n := slots[slot] - 1, |edges| - 1;
            var rest := edges[pos := edges[n]][..n];
            && rest == EdgeRemove(edges, edges[pos]) && NoDup(rest) && |rest| == n
            && Indexes(hash, rest, n, Redirected(slots, slot, lastSlot, n), tomb + 1)
            && |Redirected(slots, slot, lastSlot, n)| == |slots|
  {
    RemoveAt(edges, edges[slots[slot] - 1], slots[slot] - 1);
    LastSlot(hash, edges, slots, tomb);
    lastSlot :| 0 <= lastSlot < |slots| && slots[lastSlot] == |edges|;
    DeleteIndexes(hash, edges, slots, tomb, slot, lastSlot);
  }

  lemma RemoveAbsent(edges: seq<Id>, id: Id)
    ensures id !in edges ==> EdgeRemove(edges, id) == edges
  {
  }

  lemma RemoveAt(edges: seq<Id>, id: Id, i: nat)
    requires NoDup(edges) && i < |edges| && edges[i] == id
    ensures EdgeRemove(edges, id) == edges[i := edges[|edges| - 1]][..|edges| - 1]
    ensures NoDup(EdgeRemove(edges, id))
  {
    assert IndexOf(edges, id) == i;
    EdgeRemoveMembers(edges, id);
  }

  lemma GrowIndexes(hash: Id -> nat, edges: seq<Id>, id: Id, slots: seq<nat>, tomb: int)
    requires Indexes(hash, edges, |edges|, slots, tomb) && |edges| + 1 < POS_MAX
    ensures Indexes(hash, edges + [id], |edges|, slots, tomb)
  {
  }

  lemma LastSlot(hash: Id -> nat, edges: seq<Id>, slots: seq<nat>, tomb: int)
    requires Indexes(hash, edges, |edges|, slots, tomb) && |edges| > 0
    ensures exists i :: 0 <= i < |slots| && slots[i] == |edges|
  {
    var p := |edges| - 1;
    var j :| ReachedAt(hash(edges[p]), slots, p, j);
  }

  /** After the tombstone, probing for the moved element still finds its own slot. */
  lemma MovedFound(hash: Id -> nat, edges: seq<Id>, slots: seq<nat>, tomb: int, slot: nat, last: nat,
      found: Option<nat>)
    requires Indexes(hash, edges, |edges|, slots, tomb) && |edges| > 0 && NoDup(edges)
    requires slot < |slots| && slots[slot] != 0 && slots[slot] != TOMB && last < |slots| && slots[last] == |edges|
    requires slots[slot] != |edges|
    requires var n, pos, s1 := |edges| - 1, slots[slot] - 1, slots[slot := TOMB];
             var e1 := edges[pos := edges[n]];
             && (found.Some? ==> found.val < |s1| && s1[found.val] != 0 && s1[found.val] != TOMB
                                 && e1[s1[found.val] - 1] == edges[n])
             && (found == None ==> forall p :: 0 <= p < |e1| && e1[p] == edges[n] ==> !Findable(hash(edges[n]), s1, p))
    ensures found == Some(last)
  {
    var n, pos, s1 := |edges| - 1, slots[slot] - 1, slots[slot := TOMB];
    var j :| ReachedAt(hash(edges[n]), slots, n, j);
    assert ReachedAt(hash(edges[n]), s1, n, j) && Findable(hash(edges[n]), s1, n);
    assert edges[pos := edges[n]][n] == edges[n];
    assert found.Some? ==> s1[found.val] == |edges|;
  }

  // ── The scheduler queue ──

  /** The index maps every queued id to its absolute position. */
  ghost predicate QueueIndex(q: seq<Id>, base: nat, index: map<Id, nat>) {
    && (forall id :: id in index <==> id in q)
    && (forall i :: 0 <= i < |q| ==> index[q[i]] == base + i)
  }

  class PendingQueue {
    const promote: nat
    const demote: nat
    var q: seq<Id>
    var base: nat
    var index: Option<map<Id, nat>>

    ghost predicate Valid() reads this {
      NoDup(q) && (index.Some? ==> QueueIndex(q, base, index.val))
    }

    constructor (promote: nat, demote: nat)
      ensures Valid() && q == []
    {
      this.promote, this.demote := promote, demote;
      q, base, index := [], 0, None;
    }

    /** The scheduler never queues an id twice (its mark bit says so). */
    method PushBack(id: Id)
      requires Valid() && id !in q
      modifies `q, `index
      ensures Valid() && q == old(q) + [id]
    {
      q := q + [id];
      if index.Some? { index := Some(index.val[id := base + |q| - 1]); }
    }

    method PopFront() returns (id: Id)
      requires Valid() && q != []
      modifies `q, `base, `index
      ensures Valid() && id == old(q)[0] && q == old(q)[1..]
    {
      id := q[0];
      q := q[1..];
      base := base + 1;
      if index.Some? {
        index := Some(index.val - {id});
        if |q| <= demote { index := None; }
      }
    }

    /** Remove if present: the back of the queue takes the place of the removed id. */
    method Erase(id: Id)
      requires Valid()
      modifies `q, `index
      ensures Valid() && q == EdgeRemove(old(q), id)
    {
      hide EdgeRemove, NoDup;
      if index == None {
        if |q| < promote {
          EraseByScan(id);
          return;
        }
        BuildIndex();
      }
      var m := index.val;
      RemoveAbsent(q, id);
      if id !in m { return; }
      ghost var i := QueuePosition(q, base, m, id);
      QueueErase(q, base, m, i);
      RemoveAt(q, id, i);
      EraseAt(id, m);
    }

    method EraseAt(id: Id, m: map<Id, nat>)
      requires id in m && base <= m[id] < base + |q|
      modifies `q, `index
      ensures var i, n := m[id] - base, |old(q)| - 1;
              && q == old(q)[i := old(q)[n]][..n]
              && (index.Some? ==> index.val == (if i == n then m else m[old(q)[n] := m[id]]) - {id})
    {
      var abs, lastAbs := m[id], base + |q| - 1;
      var m' := m;
      if abs != lastAbs {
        var moved := q[|q| - 1];
        q := q[abs - base := moved];
        m' := m[moved := abs];
      }
      q := q[..|q| - 1];
      index := if |q| <= demote then None else Some(m' - {id});
    }

    method EraseByScan(id: Id)
      requires Valid() && index == None
      modifies `q
      ensures Valid() && q == EdgeRemove(old(q), id)
    {
      for i := 0 to |q|
        invariant q == old(q) && forall k :: 0 <= k < i ==> q[k] != id
      {
        if q[i] == id {
          RemoveAt(q, id, i);
          q := q[i := q[|q| - 1]];
          q := q[..|q| - 1];
          return;
        }
      }
    }

    method BuildIndex()
      requires NoDup(q)
      modifies `index
      ensures index.Some? && QueueIndex(q, base, index.val)
    {
      var m: map<Id, nat> := map[];
      for i := 0 to |q|
        invariant QueueIndex(q[..i], base, m)
      {
        assert q[..i + 1] == q[..i] + [q[i]];
        m := m[q[i] := base + i];
      }
      assert q[..|q|] == q;
      index := Some(m);
    }
  }

  lemma QueueErase(q: seq<Id>, base: nat, m: map<Id, nat>, i: nat)
    requires NoDup(q) && QueueIndex(q, base, m) && i < |q|
    ensures var n := |q| - 1;
            QueueIndex(q[i := q[n]][..n], base, (if i == n then m else m[q[n] := base + i]) - {q[i]})
  {
    var n := |q| - 1;
    var rest := q[i := q[n]][..n];
    var m' := (if i == n then m else m[q[n] := base + i]) - {q[i]};
    RemoveAt(q, q[i], i);
    EdgeRemoveMembers(q, q[i]);
    forall k | 0 <= k < |rest| ensures m'[rest[k]] == base + k {
      assert rest[k] in rest;
    }
  }

  lemma QueuePosition(q: seq<Id>, base: nat, m: map<Id, nat>, id: Id) returns (i: nat)
    requires QueueIndex(q, base, m) && id in m
    ensures i < |q| && q[i] == id && m[id] == base + i
  {
    i :| 0 <= i < |q| && q[i] == id;
  }
}
