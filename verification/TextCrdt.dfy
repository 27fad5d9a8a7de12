/** The text replica: a set of elements joined by merge, with a spliced cache of what shows. */
module TextCrdts {
  import opened Options
  import opened TextOrder

  // ── What edits do to the visible order ──

  lemma {:induction false} LiveMembers(e: Elems, s: seq<OpId>)
    requires NoDup(s)
    ensures NoDup(Live(e, s)) && forall x :: x in Live(e, s) <==> x in s && x in e && e[x].deleted.None?
    decreases |s|
  {
    if s != [] {
      assert s == [s[0]] + s[1..];
      LiveMembers(e, s[1..]);
    }
  }

  lemma {:induction false} LiveIgnores(e: Elems, n: OpId, x: Elem, s: seq<OpId>)
    requires n !in s
    ensures Live(e[n := x], s) == Live(e, s)
    decreases |s|
  {
    if s != [] { LiveIgnores(e, n, x, s[1..]); }
  }

  lemma {:induction false} LiveInsert(e: Elems, n: OpId, x: Elem, s: seq<OpId>, o: OpId)
    requires n !in s && n !in e && x.deleted.None? && o in e && e[o].deleted.None?
    ensures Live(e[n := x], InsertAfter(s, o, n)) == InsertAfter(Live(e, s), o, n)
    decreases |s|
  {
    if s == [] { return; }
    var tail := s[1..];
    if s[0] == o {
      LiveIgnores(e, n, x, tail);
      assert ([o, n] + tail)[1..] == [n] + tail;
      assert ([n] + tail)[1..] == tail;
      assert Live(e[n := x], [o, n] + tail) == [o] + ([n] + Live(e, tail));
      assert ([o] + Live(e, tail))[1..] == Live(e, tail);
      assert [o] + ([n] + Live(e, tail)) == [o, n] + Live(e, tail);
    } else {
      LiveInsert(e, n, x, tail, o);
      var first := if s[0] in e && e[s[0]].deleted.None? then [s[0]] else [];
      assert ([s[0]] + InsertAfter(tail, o, n))[1..] == InsertAfter(tail, o, n);
      InsertAfterConcat(first, Live(e, tail), o, n);
    }
  }

  lemma {:induction false} InsertAfterAt(s: seq<OpId>, i: nat, n: OpId)
    requires NoDup(s) && i < |s|
    ensures InsertAfter(s, s[i], n) == s[..i + 1] + [n] + s[i + 1..]
    decreases |s|
  {
    if i > 0 {
      assert s[1..][i - 1] == s[i] && s[0] != s[i];
      InsertAfterAt(s[1..], i - 1, n);
      assert [s[0]] + s[1..][..i] == s[..i + 1];
    }
  }

  function RemoveFirst(s: seq<OpId>, t: OpId): seq<OpId> {
    if s == [] then [] else if s[0] == t then s[1..] else [s[0]] + RemoveFirst(s[1..], t)
  }

  lemma {:induction false} RemoveFirstAt(s: seq<OpId>, i: nat)
    requires NoDup(s) && i < |s|
    ensures RemoveFirst(s, s[i]) == s[..i] + s[i + 1..]
    decreases |s|
  {
    if i > 0 {
      assert s[1..][i - 1] == s[i] && s[0] != s[i];
      RemoveFirstAt(s[1..], i - 1);
      assert [s[0]] + s[1..][..i - 1] == s[..i];
    }
  }

  lemma {:induction false} LiveDelete(e: Elems, t: OpId, x: Elem, s: seq<OpId>)
    requires NoDup(s) && t in e && e[t].deleted.None? && x.deleted.Some?
    ensures Live(e[t := x], s) == RemoveFirst(Live(e, s), t)
    decreases |s|
  {
    if s != [] {
      assert s == [s[0]] + s[1..];
      if s[0] == t {
        LiveIgnores(e, t, x, s[1..]);
        assert ([t] + Live(e, s[1..]))[1..] == Live(e, s[1..]);
      } else {
        LiveDelete(e, t, x, s[1..]);
        assert ([s[0]] + Live(e, s[1..]))[1..] == Live(e, s[1..]);
        assert [] + Live(e, s[1..]) == Live(e, s[1..]);
        assert [] + Live(e[t := x], s[1..]) == Live(e[t := x], s[1..]);
      }
    }
  }

  /** The document order looks at ids and origins only. */
  ghost predicate SameShape(e: Elems, e': Elems) {
    e'.Keys == e.Keys && forall x :: x in e ==> e'[x].origin == e[x].origin
  }

  lemma {:induction false} FullSame(e: Elems, e': Elems, k: OpId)
    requires SameShape(e, e')
    ensures Full(e', k) == Full(e, k)
    decreases Above(e, k), 1, 0
  {
    assert Kids(e', k) == Kids(e, k);
    FullKidsSame(e, e', k, SortDesc(Kids(e, k)));
  }

  lemma {:induction false} FullKidsSame(e: Elems, e': Elems, k: OpId, kids: seq<OpId>)
    requires SameShape(e, e') && (forall c :: c in kids ==> c in Kids(e, k))
    ensures Kids(e', k) == Kids(e, k)
    ensures FullKids(e', k, kids) == FullKids(e, k, kids)
    decreases Above(e, k), 0, |kids|
  {
    assert Kids(e', k) == Kids(e, k);
    if kids != [] {
      assert kids[0] in kids;
      KidAbove(e, k, kids[0]);
      FullSame(e, e', kids[0]);
      FullKidsSame(e, e', k, kids[1..]);
    }
  }

  // ── The join ──

  function MinDel(a: Option<OpId>, b: Option<OpId>): Option<OpId> {
    if a.None? then b else if b.None? then a else if Less(b.val, a.val) then b else a
  }

  /** Take in one remote element: add it, or join the tombstones, smaller delete id first. */
  function JoinOne(e: Elems, id: OpId, x: Elem): Elems {
    if id in e then e[id := e[id].(deleted := MinDel(e[id].deleted, x.deleted))] else e[id := x]
  }

  /** Merge: union of the elements, join of the tombstones of shared ones. */
  function Join(mine: Elems, theirs: Elems): Elems {
    map id | id in mine.Keys + theirs.Keys ::
      if id !in mine then theirs[id]
      else if id !in theirs then mine[id]
      else mine[id].(deleted := MinDel(mine[id].deleted, theirs[id].deleted))
  }

  /** The clock counter an incoming element carries: its own if it is new, its delete's if not. */
  function Carried(e: Elems, id: OpId, x: Elem): Option<int> {
    if id !in e then Some(id.counter)
    else if x.deleted.Some? then Some(x.deleted.val.counter) else None
  }

  function Advance(counter: int, seen: Option<int>): int {
    if seen.Some? && seen.val > counter then seen.val else counter
  }

  /** Whether an incoming element changes what shows. */
  predicate Shows(e: Elems, id: OpId, x: Elem) {
    if id !in e then x.deleted.None? else x.deleted.Some? && e[id].deleted.None?
  }

  /** `c'` is the largest of `c` and the counters `theirs` carries into `mine`. */
  ghost predicate IsAdvanced(mine: Elems, theirs: Elems, c: int, c': int) {
    && c <= c'
    && (forall id :: id in theirs ==> Advance(c', Carried(mine, id, theirs[id])) == c')
    && (c' == c || exists id :: id in theirs && Carried(mine, id, theirs[id]) == Some(c'))
  }

  /** `a` is the earlier deletion, or the same. */
  predicate NoLater(a: OpId, b: OpId) {
    a.counter < b.counter || (a.counter == b.counter && a.peer <= b.peer)
  }

  /** What `id` is after a merge: held if either side holds it, with the text and place either side has for it, shown
      if neither has deleted it, and otherwise deleted by the earliest deletion of the two. */
  ghost predicate Agreed(mine: Elems, theirs: Elems, merged: Elems, id: OpId) {
    && (id in merged <==> id in mine || id in theirs)
    && (id in merged ==>
          && (id in mine ==> merged[id].ch == mine[id].ch && merged[id].origin == mine[id].origin)
          && (id !in mine ==> merged[id].ch == theirs[id].ch && merged[id].origin == theirs[id].origin)
          && (merged[id].deleted.None?
              <==> (id in mine ==> mine[id].deleted.None?) && (id in theirs ==> theirs[id].deleted.None?))
          && (merged[id].deleted.Some? ==>
                && ((id in mine && merged[id].deleted == mine[id].deleted)
                    || (id in theirs && merged[id].deleted == theirs[id].deleted))
                && (id in mine && mine[id].deleted.Some? ==> NoLater(merged[id].deleted.val, mine[id].deleted.val))
                && (id in theirs && theirs[id].deleted.Some? ==>
                      NoLater(merged[id].deleted.val, theirs[id].deleted.val))))
  }

  lemma JoinMeans(mine: Elems, theirs: Elems, merged: Elems)
    ensures merged == Join(mine, theirs) <==> forall id :: Agreed(mine, theirs, merged, id)
  {
    forall id ensures Agreed(mine, theirs, Join(mine, theirs), id) {}
    if forall id :: Agreed(mine, theirs, merged, id) {
      var j := Join(mine, theirs);
      forall id ensures id in merged <==> id in j {
        assert Agreed(mine, theirs, merged, id);
      }
      forall id | id in merged ensures merged[id] == j[id] {
        assert Agreed(mine, theirs, merged, id) && Agreed(mine, theirs, j, id);
      }
    }
  }

  /** Replicas made the same elements: what two hold under one id differs in the deletion at most. */
  ghost predicate SameElements(a: Elems, b: Elems) {
    forall id :: id in a && id in b ==> a[id].ch == b[id].ch && a[id].origin == b[id].origin
  }

  lemma MinDelLaws(a: Option<OpId>, b: Option<OpId>, c: Option<OpId>)
    ensures MinDel(a, b) == MinDel(b, a) && MinDel(a, a) == a && MinDel(MinDel(a, b), c) == MinDel(a, MinDel(b, c))
  {
  }

  lemma JoinAssociates(a: Elems, b: Elems, c: Elems)
    requires SameElements(a, b) && SameElements(b, c) && SameElements(a, c)
    ensures Join(Join(a, b), c) == Join(a, Join(b, c))
  {
    hide MinDel;
    var l, r := Join(Join(a, b), c), Join(a, Join(b, c));
    forall id | id in l ensures id in r && l[id] == r[id] {
      if id in a && id in b && id in c { MinDelLaws(a[id].deleted, b[id].deleted, c[id].deleted); }
    }
    assert l.Keys == r.Keys;
  }

  /** Merging is commutative, associative and idempotent, so replicas may merge in any order and as often as they
      like. */
  lemma JoinLaws(a: Elems, b: Elems, c: Elems)
    requires SameElements(a, b) && SameElements(b, c) && SameElements(a, c)
    ensures Join(a, b) == Join(b, a) && Join(Join(a, b), c) == Join(a, Join(b, c)) && Join(a, a) == a
  {
    hide MinDel;
    JoinAssociates(a, b, c);
    forall id | id in a ensures MinDel(a[id].deleted, a[id].deleted) == a[id].deleted {
      MinDelLaws(a[id].deleted, None, None);
    }
    forall id | id in a && id in b
      ensures MinDel(a[id].deleted, b[id].deleted) == MinDel(b[id].deleted, a[id].deleted)
    {
      MinDelLaws(a[id].deleted, b[id].deleted, None);
    }
  }

  ghost function Alive(e: Elems): set<OpId> {
    set id | id in e && e[id].deleted.None?
  }

  /** The change report is right: the elements that are not deleted change exactly when it says so. */
  lemma ShowsMeans(mine: Elems, theirs: Elems)
    ensures (exists id :: id in theirs && Shows(mine, id, theirs[id])) <==> Alive(Join(mine, theirs)) != Alive(mine)
  {
    var j := Join(mine, theirs);
    if id :| id in theirs && Shows(mine, id, theirs[id]) {
      assert (id in Alive(j)) != (id in Alive(mine));
    } else {
      forall id ensures id in Alive(j) <==> id in Alive(mine) {
        if id in theirs { assert !Shows(mine, id, theirs[id]); }
      }
    }
  }

  // ── Deltas ──

  datatype TextOp = TextOp(id: OpId, x: Elem)

  type VersionVector = map<int, int>

  function Seen(vv: VersionVector, peer: int): int {
    if peer in vv then vv[peer] else 0
  }

  /** A delta to a peer that has seen `vv` carries what that peer cannot have: an element past
      its vector, or a deletion past its vector. */
  predicate Wanted(vv: VersionVector, id: OpId, x: Elem) {
    id.counter > Seen(vv, id.peer) || (x.deleted.Some? && x.deleted.val.counter > Seen(vv, x.deleted.val.peer))
  }

  function ApplyOps(e: Elems, ops: seq<TextOp>): Elems
    decreases |ops|
  {
    if ops == [] then e else ApplyOps(JoinOne(e, ops[0].id, ops[0].x), ops[1..])
  }

  function AdvanceOps(e: Elems, c: int, ops: seq<TextOp>): int
    decreases |ops|
  {
    if ops == [] then c
    else AdvanceOps(JoinOne(e, ops[0].id, ops[0].x), Advance(c, Carried(e, ops[0].id, ops[0].x)), ops[1..])
  }

  /** Whether any of the operations, at its turn, changes what shows. */
  predicate ShowsOps(e: Elems, ops: seq<TextOp>)
    decreases |ops|
  {
    ops != [] && (Shows(e, ops[0].id, ops[0].x) || ShowsOps(JoinOne(e, ops[0].id, ops[0].x), ops[1..]))
  }

  /** The ids an element list or a tombstone mentions for `peer`. */
  ghost predicate Mentions(e: Elems, id: OpId, peer: int, counter: int)
    requires id in e
  {
    || id == OpId(counter, peer)
    || e[id].deleted == Some(OpId(counter, peer))
  }

  /** Per peer, the largest counter any held element or tombstone mentions (0 when none does). */
  ghost predicate IsVersionVector(e: Elems, vv: VersionVector) {
    && (forall id :: id in e ==> id.counter <= Seen(vv, id.peer))
    && (forall id :: id in e && e[id].deleted.Some? ==> e[id].deleted.val.counter <= Seen(vv, e[id].deleted.val.peer))
    && (forall p :: p in vv && vv[p] != 0 ==> exists id :: id in e && Mentions(e, id, p, vv[p]))
  }

  function Raise(vv: VersionVector, id: OpId): VersionVector {
    vv[id.peer := if Seen(vv, id.peer) < id.counter then id.counter else Seen(vv, id.peer)]
  }

  /** The ops list exactly the wanted elements, each once. */
  ghost predicate IsDelta(e: Elems, vv: VersionVector, ops: seq<TextOp>) {
    && (forall i :: 0 <= i < |ops| ==> ops[i].id in e && ops[i].x == e[ops[i].id] && Wanted(vv, ops[i].id, ops[i].x))
    && (forall id :: id in e && Wanted(vv, id, e[id]) ==> TextOp(id, e[id]) in ops)
    && (forall i, j :: 0 <= i < j < |ops| ==> ops[i].id != ops[j].id)
  }

  // ── The replica ──

  function Bucket(m: map<OpId, seq<OpId>>, k: OpId): seq<OpId> {
    if k in m then m[k] else []
  }

  /** `byOrigin` lists, per origin, the elements typed after it. */
  ghost predicate Buckets(e: Elems, m: map<OpId, seq<OpId>>) {
    && (forall k, c :: c in Bucket(m, k) <==> c in e && Key(e[c].origin) == k)
    && (forall k :: NoDup(Bucket(m, k)))
  }

  /** Insertion sort, newest first. */
  function Insort(x: OpId, s: seq<OpId>): seq<OpId> {
    if s == [] || Less(s[0], x) then [x] + s else [s[0]] + Insort(x, s[1..])
  }

  function Sort(s: seq<OpId>): seq<OpId> {
    if s == [] then [] else Insort(s[0], Sort(s[1..]))
  }

  lemma {:induction false} InsortOk(x: OpId, s: seq<OpId>)
    requires Descending(s) && x !in s
    ensures Descending(Insort(x, s)) && forall y :: y in Insort(x, s) <==> y == x || y in s
    decreases |s|
  {
    if s != [] && !Less(s[0], x) {
      assert s[0] in s && Less(x, s[0]);
      InsortOk(x, s[1..]);
      var r := Insort(x, s[1..]);
      forall j | 0 <= j < |r| ensures Less(r[j], s[0]) {
        assert r[j] in r;
        if r[j] != x { var i :| 0 <= i < |s[1..]| && s[1..][i] == r[j]; assert s[i + 1] == r[j]; }
      }
    } else if s != [] {
      forall j | 0 <= j < |s| ensures Less(s[j], x) {
        assert j > 0 ==> Less(s[j], s[0]);
      }
    }
  }

  lemma {:induction false} SortOk(s: seq<OpId>)
    requires NoDup(s)
    ensures Descending(Sort(s)) && forall y :: y in Sort(s) <==> y in s
    decreases |s|
  {
    if s != [] {
      assert s == [s[0]] + s[1..];
      SortOk(s[1..]);
      InsortOk(s[0], Sort(s[1..]));
    }
  }

  /** The visible order after typing: the fresh id is spliced in at the index typed at. */
  lemma InsertVisible(e: Elems, n: OpId, x: Elem, index: nat)
    requires Fresh(e, n, x.origin) && x.deleted.None?
    requires x.origin == OriginAt(VisibleOf(e), index)
    ensures VisibleOf(e[n := x]) == Spliced(VisibleOf(e), index, n)
  {
    hide Full, Live, Dated;
    var full, vis := Full(e, ROOT), VisibleOf(e);
    FullNoDup(e, ROOT);
    LiveMembers(e, full);
    InsertFull(e, n, x, ROOT);
    if n in full { FullUnder(e, ROOT, n); }
    if x.origin == None {
      LiveFront(e, n, x, full);
    } else {
      var pos := if index < |vis| then index else |vis|;
      assert x.origin.val == vis[pos - 1] && vis[pos - 1] in vis;
      NeverRoot(e, x.origin.val);
      LiveInsert(e, n, x, full, x.origin.val);
      InsertAfterAt(vis, pos - 1, n);
    }
  }

  lemma NeverRoot(e: Elems, id: OpId)
    requires Dated(e) && id in e
    ensures id != ROOT
  {
    assert DatedAt(e, id);
  }

  lemma LiveFront(e: Elems, n: OpId, x: Elem, s: seq<OpId>)
    requires n !in s && x.deleted.None?
    ensures Live(e[n := x], [n] + s) == [n] + Live(e, s)
  {
    assert ([n] + s)[1..] == s;
    LiveIgnores(e, n, x, s);
  }

  /** The element a character typed at visible `index` hangs below. */
  function OriginAt(visible: seq<OpId>, index: nat): Option<OpId> {
    if index == 0 then None
    else if index - 1 < |visible| then Some(visible[index - 1])
    else if visible != [] then Some(visible[|visible| - 1])
    else None
  }

  function Spliced(visible: seq<OpId>, index: nat, n: OpId): seq<OpId> {
    var pos := if index < |visible| then index else |visible|;
    visible[..pos] + [n] + visible[pos..]
  }

  /** The visible order after a deletion: the index deleted is cut out. */
  lemma DeleteVisible(e: Elems, index: nat, d: OpId)
    requires Dated(e) && index < |VisibleOf(e)|
    ensures var t := VisibleOf(e)[index];
            t in e && e[t].deleted.None?
            && VisibleOf(e[t := e[t].(deleted := Some(d))]) == VisibleOf(e)[..index] + VisibleOf(e)[index + 1..]
  {
    var full, vis := Full(e, ROOT), VisibleOf(e);
    var t := vis[index];
    FullNoDup(e, ROOT);
    LiveMembers(e, full);
    assert t in vis;
    var x := e[t].(deleted := Some(d));
    FullSame(e, e[t := x], ROOT);
    LiveDelete(e, t, x, full);
    RemoveFirstAt(vis, index);
  }

  class TextCrdt {
    const peer: int
    var counter: int
    var elems: Elems
    var byOrigin: map<OpId, seq<OpId>>
    var visible: seq<OpId>
    var visibleValid: bool

    ghost predicate Valid() reads this {
      && Dated(elems) && Buckets(elems, byOrigin) && counter >= 0
      && (forall id :: id in elems ==> id.counter <= counter)
      && (visibleValid ==> visible == VisibleOf(elems))
    }

    constructor (peer: int)
      ensures Valid() && elems == map[] && counter == 0 && this.peer == peer && !visibleValid
    {
      this.peer, counter, elems, byOrigin, visible, visibleValid := peer, 0, map[], map[], [], false;
    }

    /** Append the visible ids below `k` in document order. */
    method Traverse(k: OpId, out: seq<OpId>) returns (r: seq<OpId>)
      requires Valid()
      ensures r == out + Live(elems, Full(elems, k))
      decreases Above(elems, k), 1, 0
    {
      var children := Sort(Bucket(byOrigin, k));
      SortOk(Bucket(byOrigin, k));
      forall c ensures c in children <==> c in Kids(elems, k) {
        assert c in elems ==> DatedAt(elems, c);
      }
      SortDescIs(Kids(elems, k), children);
      r := TraverseKids(k, children, out);
    }

    method TraverseKids(k: OpId, children: seq<OpId>, out: seq<OpId>) returns (r: seq<OpId>)
      requires Valid() && forall c :: c in children ==> c in Kids(elems, k)
      ensures r == out + Live(elems, FullKids(elems, k, children))
      decreases Above(elems, k), 0, |children|
    {
      hide Buckets, Dated, SortDesc, VisibleOf;
      r := out;
      if children == [] { return; }
      var c := children[0];
      assert c in children;
      KidAbove(elems, k, c);
      LiveKids(elems, k, children);
      ghost var own := if elems[c].deleted.None? then [c] else [];
      Regrouped(out, own, Live(elems, Full(elems, c)), Live(elems, FullKids(elems, k, children[1..])));
      hide Live, Full, FullKids, Kids, Above;
      if elems[c].deleted.None? { r := r + [c]; }
      assert r == out + own;
      r := Traverse(c, r);
      r := TraverseKids(k, children[1..], r);
    }

    method EnsureVisible()
      requires Valid()
      modifies `visible, `visibleValid
      ensures Valid() && visibleValid && visible == VisibleOf(elems)
    {
      if !visibleValid {
        visible := Traverse(ROOT, []);
        visibleValid := true;
      }
    }

    method FindOrigin(index: nat) returns (origin: Option<OpId>)
      requires Valid()
      modifies `visible, `visibleValid
      ensures Valid() && visibleValid && origin == OriginAt(VisibleOf(elems), index)
    {
      EnsureVisible();
      if index == 0 { return None; }
      if index - 1 < |visible| { return Some(visible[index - 1]); }
      if visible != [] { return Some(visible[|visible| - 1]); }
      origin := None;
    }

    /** Type `ch` at a visible index; an index past the end types at the end. */
    method Insert(index: nat, ch: string)
      requires Valid()
      modifies this
      ensures Valid() && counter == old(counter) + (if ch == "" then 0 else 1)
      ensures ch == "" ==> elems == old(elems)
      ensures ch != "" ==>
            elems == old(elems)[OpId(counter, peer) := Elem(ch, OriginAt(VisibleOf(old(elems)), index), None)]
      ensures ch != "" ==>
            VisibleOf(elems) == Spliced(VisibleOf(old(elems)), index, OpId(counter, peer)) && visibleValid
    {
      if ch == "" { return; }
      EnsureVisible();
      var origin := FindOrigin(index);
      counter := counter + 1;
      var id := OpId(counter, peer);
      var x := Elem(ch, origin, None);
      Typed(elems, byOrigin, counter, id, x, index);
      hide Dated, Buckets, VisibleOf, OriginAt, Bucket, Key;
      elems := elems[id := x];
      byOrigin := byOrigin[Key(origin) := Bucket(byOrigin, Key(origin)) + [id]];
      var pos := if index < |visible| then index else |visible|;
      visible := visible[..pos] + [id] + visible[pos..];
    }

    /** Delete the visible character at `index`, if there is one. */
    method Del(index: nat)
      requires Valid()
      modifies this
      ensures Valid()
      ensures index >= |VisibleOf(old(elems))| ==> elems == old(elems) && counter == old(counter)
      ensures index < |VisibleOf(old(elems))| ==>
                var t := VisibleOf(old(elems))[index];
                && counter == old(counter) + 1 && t in old(elems)
                && old(elems)[t].deleted.None?
                && elems == old(elems)[t := old(elems)[t].(deleted := Some(OpId(counter, peer)))]
                && VisibleOf(elems) == VisibleOf(old(elems))[..index] + VisibleOf(old(elems))[index + 1..]
    {
      EnsureVisible();
      if index >= |visible| { return; }
      var target := visible[index];
      counter := counter + 1;
      var delId := OpId(counter, peer);
      DeleteVisible(elems, index, delId);
      DeleteKeeps(elems, byOrigin, target, delId);
      var x := elems[target];
      elems := elems[target := x.(deleted := MinDel(x.deleted, Some(delId)))];
      visible := visible[..index] + visible[index + 1..];
    }

    /** The text shown. */
    method Text() returns (t: string)
      requires Valid()
      modifies `visible, `visibleValid
      ensures Valid() && t == TextOf(elems, VisibleOf(elems))
    {
      EnsureVisible();
      t := "";
      hide Dated, Buckets, VisibleOf, TextOf;
      TextStart(elems, visible);
      for i := 0 to |visible|
        invariant visible == VisibleOf(elems) && Valid()
        invariant t + TextOf(elems, visible[i..]) == TextOf(elems, VisibleOf(elems))
      {
        VisibleHeld(elems, visible[i]);
        TextStep(elems, visible, i, t);
        t := t + elems[visible[i]].ch;
      }
    }

    /** A replica for a new peer with the same elements and clock. */
    method Fork(newPeer: int) returns (clone: TextCrdt)
      requires Valid()
      ensures fresh(clone) && clone.Valid() && clone.peer == newPeer
      ensures clone.elems == elems && clone.counter == counter
    {
      clone := new TextCrdt(newPeer);
      clone.counter := counter;
      clone.elems := elems;
      clone.byOrigin := byOrigin;
    }

    /** Take in one remote element. */
    method TakeIn(id: OpId, x: Elem) returns (shows: bool)
      requires Buckets(elems, byOrigin)
      modifies `elems, `byOrigin, `counter
      ensures elems == JoinOne(old(elems), id, x) && Buckets(elems, byOrigin)
      ensures counter == Advance(old(counter), Carried(old(elems), id, x))
      ensures shows == Shows(old(elems), id, x)
    {
      shows := false;
      if id !in elems {
        InsertBuckets(elems, byOrigin, id, x);
        elems := elems[id := x];
        byOrigin := byOrigin[Key(x.origin) := Bucket(byOrigin, Key(x.origin)) + [id]];
        if x.deleted.None? { shows := true; }
        if id.counter > counter { counter := id.counter; }
      } else {
        var mine := elems[id];
        if x.deleted.Some? && mine.deleted.None? {
          mine := mine.(deleted := x.deleted);
          shows := true;
        } else if x.deleted.Some? && Less(x.deleted.val, mine.deleted.val) {
          mine := mine.(deleted := x.deleted);
        }
        TombstoneBuckets(elems, byOrigin, id, mine);
        elems := elems[id := mine];
        if x.deleted.Some? && x.deleted.val.counter > counter { counter := x.deleted.val.counter; }
      }
    }

    /** Merge another replica's elements, whatever the order its table lists them in. */
    method Merge(other: TextCrdt) returns (changed: bool)
      requires Valid() && other.Valid()
      modifies this
      ensures Valid() && elems == Join(old(elems), old(other.elems))
      ensures IsAdvanced(old(elems), old(other.elems), old(counter), counter)
      ensures forall id :: Agreed(old(elems), old(other.elems), elems, id)
      ensures changed <==> Alive(elems) != Alive(old(elems))
    {
      visibleValid := false;
      changed := false;
      var theirs := other.elems;
      ghost var e0, c0, done := elems, counter, {};
      var todo := theirs.Keys;
      NothingMerged(e0, theirs, c0);
      hide Merging, Buckets, JoinOne, Shows, Agreed, Alive;
      while todo != {}
        invariant done + todo == theirs.Keys && done !! todo && !visibleValid && Buckets(elems, byOrigin)
        invariant Merging(e0, theirs, c0, done, elems, counter, changed)
        decreases todo
      {
        var id :| id in todo;
        MergedOne(e0, theirs, c0, done, elems, counter, changed, id);
        var shows := TakeIn(id, theirs[id]);
        changed := changed || shows;
        todo, done := todo - {id}, done + {id};
      }
      assert done == theirs.Keys;
      AllMerged(e0, theirs, c0, elems, counter, changed);
      JoinMeans(e0, theirs, elems);
      ShowsMeans(e0, theirs);
    }

    method ApplyDelta(ops: seq<TextOp>) returns (changed: bool)
      requires Valid() && forall i :: 0 <= i < |ops| ==> Young(ops[i].id, ops[i].x)
      modifies this
      ensures Valid() && elems == ApplyOps(old(elems), ops) && counter == AdvanceOps(old(elems), old(counter), ops)
      ensures changed == ShowsOps(old(elems), ops)
    {
      visibleValid := false;
      changed := false;
      ghost var e0, c0 := elems, counter;
      assert ops[0..] == ops;
      for i := 0 to |ops|
        invariant Buckets(elems, byOrigin) && Dated(elems) && !visibleValid && counter >= 0
        invariant ApplyOps(elems, ops[i..]) == ApplyOps(e0, ops)
        invariant AdvanceOps(elems, counter, ops[i..]) == AdvanceOps(e0, c0, ops)
        invariant (changed || ShowsOps(elems, ops[i..])) == ShowsOps(e0, ops)
        invariant forall id :: id in elems ==> id.counter <= counter
      {
        assert ops[i..][1..] == ops[i + 1..];
        JoinOneDated(elems, ops[i].id, ops[i].x);
        var shows := TakeIn(ops[i].id, ops[i].x);
        changed := changed || shows;
      }
    }

    method ComputeVersionVector() returns (vv: VersionVector)
      requires Valid()
      ensures IsVersionVector(elems, vv)
    {
      vv := map[];
      var todo := elems.Keys;
      while todo != {}
        invariant todo <= elems.Keys
        invariant IsVersionVector(Only(elems, elems.Keys - todo), vv)
        decreases todo
      {
        var id :| id in todo;
        var x := elems[id];
        VectorNext(elems, elems.Keys - todo, id, vv);
        vv := Raise(vv, id);
        if x.deleted.Some? { vv := Raise(vv, x.deleted.val); }
        assert elems.Keys - (todo - {id}) == elems.Keys - todo + {id};
        todo := todo - {id};
      }
      assert elems.Keys - todo == elems.Keys && Only(elems, elems.Keys) == elems;
    }

    method DeltaSince(vv: VersionVector) returns (ops: seq<TextOp>)
      requires Valid()
      ensures IsDelta(elems, vv, ops)
    {
      ops := [];
      var todo := elems.Keys;
      while todo != {}
        invariant todo <= elems.Keys
        invariant IsDelta(Only(elems, elems.Keys - todo), vv, ops)
        decreases todo
      {
        var id :| id in todo;
        ghost var before := ops;
        if id.counter > Seen(vv, id.peer) {
          ops := ops + [TextOp(id, elems[id])];
        } else if elems[id].deleted.Some? && elems[id].deleted.val.counter > Seen(vv, elems[id].deleted.val.peer) {
          ops := ops + [TextOp(id, elems[id])];
        }
        DeltaNext(elems, elems.Keys - todo, id, vv, before);
        assert elems.Keys - (todo - {id}) == elems.Keys - todo + {id};
        todo := todo - {id};
      }
      assert elems.Keys - todo == elems.Keys && Only(elems, elems.Keys) == elems;
    }
  }

  // ── Partial joins: the elements `done` out of `theirs` ──

  ghost function Only(theirs: Elems, done: set<OpId>): Elems {
    map id | id in done && id in theirs :: theirs[id]
  }

  lemma JoinNext(e: Elems, theirs: Elems, done: set<OpId>, id: OpId)
    requires id in theirs && id !in done
    ensures JoinOne(Join(e, Only(theirs, done)), id, theirs[id]) == Join(e, Only(theirs, done + {id}))
    ensures Shows(Join(e, Only(theirs, done)), id, theirs[id]) == Shows(e, id, theirs[id])
    ensures Carried(Join(e, Only(theirs, done)), id, theirs[id]) == Carried(e, id, theirs[id])
  {
  }

  lemma AdvanceNext(e: Elems, theirs: Elems, done: set<OpId>, id: OpId, c: int, c': int)
    requires id in theirs && id !in done && IsAdvanced(e, Only(theirs, done), c, c')
    ensures IsAdvanced(e, Only(theirs, done + {id}), c, Advance(c', Carried(e, id, theirs[id])))
  {
    var all, c2 := Only(theirs, done + {id}), Advance(c', Carried(e, id, theirs[id]));
    forall y | y in all ensures Advance(c2, Carried(e, y, all[y])) == c2 {
      if y != id { assert y in Only(theirs, done); }
    }
    assert id in all;
    if c2 == c' && c' != c {
      var w :| w in Only(theirs, done) && Carried(e, w, theirs[w]) == Some(c');
      assert w in all;
    }
  }

  /** In mid-merge: `done` of `theirs` has been joined onto `e0`. */
  ghost predicate Merging(e0: Elems, theirs: Elems, c0: int, done: set<OpId>, e: Elems, c: int, changed: bool) {
    && e == Join(e0, Only(theirs, done)) && IsAdvanced(e0, Only(theirs, done), c0, c)
    && (changed <==> exists id :: id in done && id in theirs && Shows(e0, id, theirs[id]))
  }

  lemma NothingMerged(e: Elems, theirs: Elems, c: int)
    ensures Merging(e, theirs, c, {}, e, c, false)
  {
    assert Join(e, Only(theirs, {})) == e;
  }

  lemma MergedOne(e0: Elems, theirs: Elems, c0: int, done: set<OpId>, e: Elems, c: int, changed: bool, id: OpId)
    requires Merging(e0, theirs, c0, done, e, c, changed) && id in theirs && id !in done
    ensures Merging(e0, theirs, c0, done + {id}, JoinOne(e, id, theirs[id]), Advance(c, Carried(e, id, theirs[id])),
                    changed || Shows(e, id, theirs[id]))
  {
    hide IsAdvanced, Join, JoinOne, Carried, Advance, Shows;
    JoinNext(e0, theirs, done, id);
    AdvanceNext(e0, theirs, done, id, c0, c);
  }

  lemma AllMerged(e0: Elems, theirs: Elems, c0: int, e: Elems, c: int, changed: bool)
    requires Merging(e0, theirs, c0, theirs.Keys, e, c, changed)
    requires Dated(e0) && Dated(theirs) && c0 >= 0 && forall id :: id in e0 ==> id.counter <= c0
    ensures e == Join(e0, theirs) && IsAdvanced(e0, theirs, c0, c)
    ensures changed <==> exists id :: id in theirs && Shows(e0, id, theirs[id])
    ensures Dated(e) && forall id :: id in e ==> id.counter <= c
  {
    assert Only(theirs, theirs.Keys) == theirs;
    JoinDated(e0, theirs);
    AdvancedCovers(e0, theirs, c0, c);
  }

  lemma AdvancedCovers(e: Elems, theirs: Elems, c: int, c': int)
    requires IsAdvanced(e, theirs, c, c') && forall id :: id in e ==> id.counter <= c
    ensures forall id :: id in Join(e, theirs) ==> id.counter <= c'
  {
    forall id | id in Join(e, theirs) ensures id.counter <= c' {
      if id !in e { assert Advance(c', Carried(e, id, theirs[id])) == c'; }
    }
  }

  lemma JoinDated(e: Elems, theirs: Elems)
    requires Dated(e) && Dated(theirs)
    ensures Dated(Join(e, theirs))
  {
    forall y | y in Join(e, theirs) ensures DatedAt(Join(e, theirs), y) {
      if y in e { assert DatedAt(e, y); } else { assert DatedAt(theirs, y); }
    }
  }

  lemma JoinOneDated(e: Elems, id: OpId, x: Elem)
    requires Dated(e) && Young(id, x)
    ensures Dated(JoinOne(e, id, x))
  {
    forall y | y in JoinOne(e, id, x) ensures DatedAt(JoinOne(e, id, x), y) {
      if y in e { assert DatedAt(e, y); }
    }
  }

  lemma VectorNext(e: Elems, done: set<OpId>, id: OpId, vv: VersionVector)
    requires id in e && id !in done && IsVersionVector(Only(e, done), vv)
    ensures var vv1 := Raise(vv, id);
            IsVersionVector(Only(e, done + {id}), if e[id].deleted.Some? then Raise(vv1, e[id].deleted.val) else vv1)
  {
    var part, all := Only(e, done), Only(e, done + {id});
    var vv1 := Raise(vv, id);
    var vv2 := if e[id].deleted.Some? then Raise(vv1, e[id].deleted.val) else vv1;
    assert forall p :: Seen(vv, p) <= Seen(vv1, p) <= Seen(vv2, p);
    forall p | p in vv2 && vv2[p] != 0 ensures exists y :: y in all && Mentions(all, y, p, vv2[p]) {
      if p in vv && vv[p] == vv2[p] {
        var y :| y in part && Mentions(part, y, p, vv[p]);
        assert y in all && Mentions(all, y, p, vv2[p]);
      } else {
        assert id in all && Mentions(all, id, p, vv2[p]);
      }
    }
  }

  lemma DeltaNext(e: Elems, done: set<OpId>, id: OpId, vv: VersionVector, ops: seq<TextOp>)
    requires id in e && id !in done && IsDelta(Only(e, done), vv, ops)
    ensures IsDelta(Only(e, done + {id}), vv, if Wanted(vv, id, e[id]) then ops + [TextOp(id, e[id])] else ops)
  {
    var all := Only(e, done + {id});
    var ops' := ops + [TextOp(id, e[id])];
    assert forall y :: y in all <==> y in Only(e, done) || y == id;
    assert forall op :: op in ops' <==> op in ops || op == TextOp(id, e[id]);
  }

  lemma TombstoneBuckets(e: Elems, m: map<OpId, seq<OpId>>, id: OpId, x: Elem)
    requires Buckets(e, m) && id in e && x.origin == e[id].origin
    ensures Buckets(e[id := x], m)
  {
  }

  lemma TextStart(e: Elems, ids: seq<OpId>)
    ensures "" + TextOf(e, ids[0..]) == TextOf(e, ids) && TextOf(e, ids[|ids|..]) == ""
  {
    assert ids[0..] == ids;
  }

  lemma TextStep(e: Elems, ids: seq<OpId>, i: nat, t: string)
    requires i < |ids| && ids[i] in e
    ensures t + TextOf(e, ids[i..]) == (t + e[ids[i]].ch) + TextOf(e, ids[i + 1..])
  {
    assert ids[i..][1..] == ids[i + 1..];
  }

  lemma VisibleHeld(e: Elems, id: OpId)
    requires Dated(e) && id in VisibleOf(e)
    ensures id in e
  {
    FullNoDup(e, ROOT);
    LiveMembers(e, Full(e, ROOT));
  }

  lemma {:induction false} LiveConcat(e: Elems, a: seq<OpId>, b: seq<OpId>)
    ensures Live(e, a + b) == Live(e, a) + Live(e, b)
    decreases |a|
  {
    if a == [] {
      assert a + b == b;
    } else {
      assert (a + b)[1..] == a[1..] + b;
      LiveConcat(e, a[1..], b);
    }
  }

  lemma Regrouped<T>(out: seq<T>, a: seq<T>, b: seq<T>, c: seq<T>)
    ensures out + a + b + c == out + (a + b + c)
  {
  }

  lemma LiveKids(e: Elems, k: OpId, kids: seq<OpId>)
    requires (forall c :: c in kids ==> c in Kids(e, k)) && kids != []
    ensures kids[0] in kids && kids[0] in e
    ensures Live(e, FullKids(e, k, kids)) == (if e[kids[0]].deleted.None? then [kids[0]] else [])
                                             + Live(e, Full(e, kids[0])) + Live(e, FullKids(e, k, kids[1..]))
  {
    var c := kids[0];
    assert c in kids;
    KidAbove(e, k, c);
    LiveConcat(e, [c] + Full(e, c), FullKids(e, k, kids[1..]));
    LiveConcat(e, [c], Full(e, c));
  }

  lemma InsertDated(e: Elems, id: OpId, x: Elem)
    requires Dated(e) && Young(id, x)
    ensures Dated(e[id := x])
  {
    var e' := e[id := x];
    forall y | y in e' ensures DatedAt(e', y) {
      if y != id { assert DatedAt(e, y); }
    }
  }

  lemma OriginHeld(e: Elems, index: nat)
    requires Dated(e)
    ensures var o := OriginAt(VisibleOf(e), index); o.Some? ==> o.val in e
  {
    FullNoDup(e, ROOT);
    LiveMembers(e, Full(e, ROOT));
    var o := OriginAt(VisibleOf(e), index);
    if o.Some? { assert o.val in VisibleOf(e); }
  }

  /** Typing at `index` under the next clock value keeps the table, its index and its visible order in step. */
  lemma Typed(e: Elems, m: map<OpId, seq<OpId>>, clock: int, id: OpId, x: Elem, index: nat)
    requires Dated(e) && Buckets(e, m) && clock > 0 && id.counter == clock
    requires forall y :: y in e ==> y.counter < clock
    requires x.deleted.None? && x.origin == OriginAt(VisibleOf(e), index)
    ensures Dated(e[id := x]) && Buckets(e[id := x], m[Key(x.origin) := Bucket(m, Key(x.origin)) + [id]])
    ensures VisibleOf(e[id := x]) == Spliced(VisibleOf(e), index, id)
    ensures forall y :: y in e[id := x] ==> y.counter <= clock
  {
    hide VisibleOf, Spliced, Buckets;
    OriginHeld(e, index);
    InsertVisible(e, id, x, index);
    InsertBuckets(e, m, id, x);
    InsertDated(e, id, x);
  }

  lemma InsertBuckets(e: Elems, m: map<OpId, seq<OpId>>, id: OpId, x: Elem)
    requires Buckets(e, m) && id !in e
    ensures Buckets(e[id := x], m[Key(x.origin) := Bucket(m, Key(x.origin)) + [id]])
  {
    var k0 := Key(x.origin);
    var m' := m[k0 := Bucket(m, k0) + [id]];
    assert forall k :: Bucket(m', k) == if k == k0 then Bucket(m, k0) + [id] else Bucket(m, k);
  }

  lemma DeleteKeeps(e: Elems, m: map<OpId, seq<OpId>>, t: OpId, d: OpId)
    requires Dated(e) && Buckets(e, m) && t in e
    ensures var e' := e[t := e[t].(deleted := Some(d))]; Dated(e') && Buckets(e', m)
  {
    var e' := e[t := e[t].(deleted := Some(d))];
    forall y | y in e' ensures DatedAt(e', y) { assert DatedAt(e, y); }
  }
}
