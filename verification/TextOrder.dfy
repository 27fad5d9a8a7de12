/** The document order of a text replica: elements hang below the element they were typed
    after, siblings newest first, read in pre-order. */
module TextOrder {
  import opened Options

  /** A Lamport identifier. */
  datatype OpId = OpId(counter: int, peer: int)

  const ROOT := OpId(0, 0)

  predicate Less(a: OpId, b: OpId) {
    a.counter < b.counter || (a.counter == b.counter && a.peer < b.peer)
  }

  datatype Elem = Elem(ch: string, origin: Option<OpId>, deleted: Option<OpId>)

  type Elems = map<OpId, Elem>

  function Key(origin: Option<OpId>): OpId {
    if origin.Some? then origin.val else ROOT
  }

  /** An element is younger than the one it was typed after, as Lamport clocks make it. */
  predicate Young(id: OpId, x: Elem) {
    id.counter > 0 && (x.origin.Some? ==> x.origin.val.counter < id.counter)
  }

  /** Every element is; the one it was typed after need not be held. */
  ghost predicate Dated(e: Elems) {
    forall id :: id in e ==> DatedAt(e, id)
  }

  ghost predicate DatedAt(e: Elems, id: OpId)
    requires id in e
  {
    Young(id, e[id])
  }

  ghost predicate NoDup<T(!new)>(s: seq<T>) {
    forall i, j :: 0 <= i < j < |s| ==> s[i] != s[j]
  }

  // ── Sorted children ──

  lemma {:induction false} HasMax(s: set<OpId>)
    requires s != {}
    ensures exists m :: m in s && forall y :: y in s ==> y == m || Less(y, m)
    decreases s
  {
    var x :| x in s;
    if s == {x} {
      assert forall y :: y in s ==> y == x;
    } else {
      HasMax(s - {x});
      var m :| m in s - {x} && forall y :: y in s - {x} ==> y == m || Less(y, m);
      var top := if Less(m, x) then x else m;
      forall y | y in s ensures y == top || Less(y, top) {
        if y != x { assert y in s - {x}; }
      }
    }
  }

  ghost function Max(s: set<OpId>): (m: OpId)
    requires s != {}
    ensures m in s && forall y :: y in s ==> y == m || Less(y, m)
  {
    HasMax(s);
    var m :| m in s && forall y :: y in s ==> y == m || Less(y, m);
    m
  }

  ghost function SortDesc(s: set<OpId>): (r: seq<OpId>)
    ensures forall x :: x in r <==> x in s
    decreases s
  {
    if s == {} then [] else [Max(s)] + SortDesc(s - {Max(s)})
  }

  predicate Descending(s: seq<OpId>) {
    forall i, j :: 0 <= i < j < |s| ==> Less(s[j], s[i])
  }

  lemma {:induction false} SortDescIs(s: set<OpId>, r: seq<OpId>)
    requires Descending(r) && forall x :: x in r <==> x in s
    ensures r == SortDesc(s)
    decreases |r|
  {
    if r != [] {
      var m := r[0];
      assert m in s;
      assert m == Max(s) by {
        assert Max(s) in r;
      }
      forall x ensures x in r[1..] <==> x in s - {m} {
        if x in s - {m} { var i :| 0 <= i < |r| && r[i] == x; assert r[1..][i - 1] == x; }
      }
      SortDescIs(s - {m}, r[1..]);
    } else {
      assert s == {} by { assert forall x :: x in s ==> x in r; }
    }
  }

  lemma {:induction false} SortDescDescends(s: set<OpId>)
    ensures Descending(SortDesc(s))
    decreases s
  {
    if s != {} { SortDescDescends(s - {Max(s)}); }
  }

  // ── The walk ──

  ghost function Kids(e: Elems, k: OpId): set<OpId> {
    set c | c in e && Key(e[c].origin) == k && k.counter < c.counter
  }

  ghost function Above(e: Elems, k: OpId): set<OpId> {
    set c | c in e && k.counter < c.counter
  }

  lemma KidAbove(e: Elems, k: OpId, c: OpId)
    requires c in Kids(e, k)
    ensures Above(e, c) < Above(e, k)
  {
    assert c in Above(e, k) && c !in Above(e, c);
  }

  /** All descendants of `k` in document order, tombstones included. */
  ghost function Full(e: Elems, k: OpId): seq<OpId>
    decreases Above(e, k), 1, 0
  {
    FullKids(e, k, SortDesc(Kids(e, k)))
  }

  ghost function FullKids(e: Elems, k: OpId, kids: seq<OpId>): seq<OpId>
    requires forall c :: c in kids ==> c in Kids(e, k)
    decreases Above(e, k), 0, |kids|
  {
    if kids == [] then []
    else
      assert kids[0] in kids;
      KidAbove(e, k, kids[0]);
      [kids[0]] + Full(e, kids[0]) + FullKids(e, k, kids[1..])
  }

  ghost function Live(e: Elems, s: seq<OpId>): seq<OpId> {
    if s == [] then []
    else (if s[0] in e && e[s[0]].deleted.None? then [s[0]] else []) + Live(e, s[1..])
  }

  /** The visible ids, in document order. */
  ghost function VisibleOf(e: Elems): seq<OpId> {
    Live(e, Full(e, ROOT))
  }

  ghost function TextOf(e: Elems, ids: seq<OpId>): string {
    if ids == [] then "" else (if ids[0] in e then e[ids[0]].ch else "") + TextOf(e, ids[1..])
  }

  // ── Who hangs below whom ──

  /** Following origins from `x` leads to `k`. */
  ghost predicate Under(e: Elems, x: OpId, k: OpId)
    decreases if x.counter > 0 then x.counter else 0
  {
    x == k || (x in e && x.counter > 0 && Key(e[x].origin).counter < x.counter && Under(e, Key(e[x].origin), k))
  }

  lemma {:induction false} UnderOlder(e: Elems, x: OpId, k: OpId)
    requires Under(e, x, k)
    ensures k == x || k.counter < x.counter
    decreases if x.counter > 0 then x.counter else 0
  {
    if x != k { UnderOlder(e, Key(e[x].origin), k); }
  }

  /** Subtrees of different siblings are disjoint. */
  lemma {:induction false} SiblingsApart(e: Elems, k: OpId, c: OpId, d: OpId, x: OpId)
    requires c in Kids(e, k) && d in Kids(e, k) && Under(e, x, c) && Under(e, x, d)
    ensures c == d
    decreases if x.counter > 0 then x.counter else 0
  {
    if x == c {
      if x != d { UnderOlder(e, k, d); }
    } else if x == d {
      UnderOlder(e, k, c);
    } else {
      SiblingsApart(e, k, c, d, Key(e[x].origin));
    }
  }

  lemma {:induction false} UnderStep(e: Elems, x: OpId, c: OpId, k: OpId)
    requires Under(e, x, c) && c in Kids(e, k) && c.counter > 0
    ensures Under(e, x, k)
    decreases if x.counter > 0 then x.counter else 0
  {
    if x == c {
      assert Under(e, k, k);
    } else {
      UnderStep(e, Key(e[x].origin), c, k);
    }
  }

  lemma {:induction false} FullUnder(e: Elems, k: OpId, x: OpId)
    requires Dated(e) && x in Full(e, k)
    ensures x in e && x != k && Under(e, x, k)
    decreases Above(e, k), 1, 0
  {
    FullKidsUnder(e, k, SortDesc(Kids(e, k)), x);
  }

  lemma {:induction false} FullKidsUnder(e: Elems, k: OpId, kids: seq<OpId>, x: OpId)
    requires Dated(e) && (forall c :: c in kids ==> c in Kids(e, k)) && x in FullKids(e, k, kids)
    ensures x in e && x != k && Under(e, x, k)
    ensures exists c :: c in kids && Under(e, x, c)
    decreases Above(e, k), 0, |kids|
  {
    var c := kids[0];
    assert c in kids;
    KidAbove(e, k, c);
    if x == c {
      assert Under(e, x, c);
      UnderStep(e, x, c, k);
    } else if x in Full(e, c) {
      FullUnder(e, c, x);
      UnderStep(e, x, c, k);
      UnderOlder(e, x, c);
    } else {
      FullKidsUnder(e, k, kids[1..], x);
      var d :| d in kids[1..] && Under(e, x, d);
      assert d in kids;
    }
  }

  lemma {:induction false} FullNoDup(e: Elems, k: OpId)
    requires Dated(e)
    ensures NoDup(Full(e, k))
    decreases Above(e, k), 1, 0
  {
    SortDescDescends(Kids(e, k));
    FullKidsNoDup(e, k, SortDesc(Kids(e, k)));
  }

  lemma {:induction false} FullKidsNoDup(e: Elems, k: OpId, kids: seq<OpId>)
    requires Dated(e) && (forall c :: c in kids ==> c in Kids(e, k)) && Descending(kids)
    ensures NoDup(FullKids(e, k, kids))
    decreases Above(e, k), 0, |kids|
  {
    if kids != [] {
      var c, rest := kids[0], kids[1..];
      assert c in kids;
      KidAbove(e, k, c);
      FullNoDup(e, c);
      FullKidsNoDup(e, k, rest);
      forall x | x in Full(e, c) ensures x != c && x !in FullKids(e, k, rest) {
        FullUnder(e, c, x);
        KidsApart(e, k, kids, x);
      }
      if c in FullKids(e, k, rest) {
        assert Under(e, c, c);
        KidsApart(e, k, kids, c);
      }
      NoDupConcat(Full(e, c), FullKids(e, k, rest));
      NoDupConcat([c], Full(e, c) + FullKids(e, k, rest));
      assert [c] + (Full(e, c) + FullKids(e, k, rest)) == [c] + Full(e, c) + FullKids(e, k, rest);
    }
  }

  /** What hangs below the first sibling does not occur below the others. */
  lemma KidsApart(e: Elems, k: OpId, kids: seq<OpId>, x: OpId)
    requires Dated(e) && (forall c :: c in kids ==> c in Kids(e, k)) && Descending(kids) && kids != []
    requires Under(e, x, kids[0])
    ensures x !in FullKids(e, k, kids[1..])
  {
    if x in FullKids(e, k, kids[1..]) {
      FullKidsUnder(e, k, kids[1..], x);
      var d :| d in kids[1..] && Under(e, x, d);
      assert d in kids && kids[0] in kids;
      SiblingsApart(e, k, kids[0], d, x);
    }
  }

  lemma NoDupConcat<T(!new)>(a: seq<T>, b: seq<T>)
    requires NoDup(a) && NoDup(b) && forall x :: x in a ==> x !in b
    ensures NoDup(a + b)
  {
    forall i, j | 0 <= i < j < |a + b| ensures (a + b)[i] != (a + b)[j] {
      if i < |a| <= j { assert a[i] in a && b[j - |a|] in b; }
    }
  }

  // ── Inserting ──

  /** `n` right after the first occurrence of `o`, or nowhere. */
  function InsertAfter(s: seq<OpId>, o: OpId, n: OpId): seq<OpId> {
    if s == [] then [] else if s[0] == o then [o, n] + s[1..] else [s[0]] + InsertAfter(s[1..], o, n)
  }

  lemma {:induction false} InsertAfterAbsent(s: seq<OpId>, o: OpId, n: OpId)
    requires o !in s
    ensures InsertAfter(s, o, n) == s
    decreases |s|
  {
    if s != [] { InsertAfterAbsent(s[1..], o, n); }
  }

  lemma {:induction false} InsertAfterConcat(a: seq<OpId>, b: seq<OpId>, o: OpId, n: OpId)
    ensures InsertAfter(a + b, o, n) == if o in a then InsertAfter(a, o, n) + b else a + InsertAfter(b, o, n)
    decreases |a|
  {
    if a == [] {
      assert a + b == b;
    } else {
      assert (a + b)[1..] == a[1..] + b;
      InsertAfterConcat(a[1..], b, o, n);
    }
  }

  /** The ids a fresh element is typed under see it appear as their first child. */
  ghost predicate Fresh(e: Elems, n: OpId, origin: Option<OpId>) {
    && Dated(e) && n !in e && n.counter > 0
    && (forall x :: x in e ==> Less(x, n) && x.counter < n.counter)
    && (origin.Some? ==> origin.val in e)
  }

  /** Typing a fresh element puts it directly after its origin and moves nothing else: a fresh
      id is the newest sibling, and nothing hangs below it yet. */
  lemma {:induction false} InsertFull(e: Elems, n: OpId, x: Elem, k: OpId)
    requires Fresh(e, n, x.origin) && k != n && (k in e || k == ROOT)
    ensures Full(e[n := x], k) == (if k == Key(x.origin) then [n] + Full(e, k)
                                   else InsertAfter(Full(e, k), Key(x.origin), n))
    decreases Above(e, k), 1, 0
  {
    hide FullKids, InsertAfter, SortDesc, Kids, Dated;
    InsertKids(e, n, x, k);
    var ks := SortDesc(Kids(e, k));
    SortDescDescends(Kids(e, k));
    InsertFullKids(e, n, x, k, ks);
    if k == Key(x.origin) {
      NoKids(e, n, x);
      NewestFirst(e[n := x], k, n, ks);
      OwnAbsent(e, k);
      InsertAfterAbsent(Full(e, k), k, n);
    }
  }

  /** A childless newest sibling comes first. */
  lemma NewestFirst(e: Elems, k: OpId, n: OpId, ks: seq<OpId>)
    requires n in Kids(e, k) && Full(e, n) == [] && forall c :: c in ks ==> c in Kids(e, k)
    ensures FullKids(e, k, [n] + ks) == [n] + FullKids(e, k, ks)
  {
    hide Full, Kids;
    assert ([n] + ks)[1..] == ks;
  }

  lemma OwnAbsent(e: Elems, k: OpId)
    requires Dated(e)
    ensures k !in Full(e, k)
  {
    if k in Full(e, k) { FullUnder(e, k, k); }
  }

  lemma NoKids(e: Elems, n: OpId, x: Elem)
    requires Fresh(e, n, x.origin)
    ensures Full(e[n := x], n) == []
  {
    var e' := e[n := x];
    assert Kids(e', n) == {} by {
      forall c | c in e ensures c !in Kids(e', n) { assert DatedAt(e, c); }
    }
  }

  lemma InsertKids(e: Elems, n: OpId, x: Elem, k: OpId)
    requires Fresh(e, n, x.origin) && (k in e || k == ROOT || k == n)
    ensures k != n && k == Key(x.origin) ==>
              n in Kids(e[n := x], k) && SortDesc(Kids(e[n := x], k)) == [n] + SortDesc(Kids(e, k))
    ensures k != n && k != Key(x.origin) ==> Kids(e[n := x], k) == Kids(e, k)
    ensures forall c :: c in Kids(e, k) ==> c in Kids(e[n := x], k)
  {
    var e' := e[n := x];
    assert forall c :: c in Kids(e, k) ==> c in Kids(e', k);
    if k != n && k == Key(x.origin) {
      assert Kids(e', k) == Kids(e, k) + {n};
      assert Max(Kids(e', k)) == n;
      assert Kids(e', k) - {n} == Kids(e, k);
    } else if k != n {
      assert Kids(e', k) == Kids(e, k);
    }
  }

  lemma {:induction false} InsertFullKids(e: Elems, n: OpId, x: Elem, k: OpId, kids: seq<OpId>)
    requires Fresh(e, n, x.origin) && (k in e || k == ROOT) && k != n
    requires (forall c :: c in kids ==> c in Kids(e, k)) && Descending(kids)
    ensures forall c :: c in kids ==> c in Kids(e[n := x], k)
    ensures FullKids(e[n := x], k, kids) == InsertAfter(FullKids(e, k, kids), Key(x.origin), n)
    decreases Above(e, k), 0, |kids|
  {
    var e', o := e[n := x], Key(x.origin);
    InsertKids(e, n, x, k);
    if kids != [] {
      var c, rest := kids[0], kids[1..];
      assert c in kids;
      KidAbove(e, k, c);
      InsertFull(e, n, x, c);
      InsertFullKids(e, n, x, k, rest);
      var sub, tail := Full(e, c), FullKids(e, k, rest);
      if o == c || o in sub {
        if o in sub { FullUnder(e, c, o); } else { assert Under(e, o, c); }
        KidsApart(e, k, kids, o);
      }
      InsertInFirst(c, sub, tail, o, n);
    }
  }

  lemma InsertInFirst(c: OpId, sub: seq<OpId>, tail: seq<OpId>, o: OpId, n: OpId)
    requires o == c || o in sub ==> o !in tail
    ensures InsertAfter([c] + sub + tail, o, n)
         == [c] + (if c == o then [n] + sub else InsertAfter(sub, o, n)) + InsertAfter(tail, o, n)
  {
    InsertAfterConcat([c] + sub, tail, o, n);
    InsertAfterConcat([c], sub, o, n);
    if o == c || o in sub { InsertAfterAbsent(tail, o, n); }
    if o == c {
      assert InsertAfter([c], o, n) + sub == [c] + ([n] + sub);
    } else if o !in sub {
      InsertAfterAbsent(sub, o, n);
    }
  }

  // ── Which of two siblings comes first ──

  /** Wherever `x` and `y` both stand in `s`, `x` stands before. */
  ghost predicate Precedes<T(!new)>(s: seq<T>, x: T, y: T) {
    forall i, j :: 0 <= i < |s| && 0 <= j < |s| && s[i] == x && s[j] == y ==> i < j
  }

  lemma PrecedesAbsent<T(!new)>(s: seq<T>, x: T, y: T)
    requires x !in s || y !in s
    ensures Precedes(s, x, y)
  {
  }

  lemma PrecedesTail<T(!new)>(s: seq<T>, x: T, y: T)
    requires s != [] && Precedes(s, x, y)
    ensures Precedes(s[1..], x, y) && (x == y ==> x !in s) && (s[0] == y ==> x !in s[1..])
  {
    forall i | 0 <= i < |s| - 1 && s[1..][i] == x ensures s[0] != y { assert s[i + 1] == x; }
    forall i | 0 <= i < |s| && s[i] == x ensures x != y {}
  }

  lemma PrecedesJoin<T(!new)>(a: seq<T>, b: seq<T>, x: T, y: T)
    requires Precedes(a, x, y) && Precedes(b, x, y) && (y in a ==> x !in b)
    ensures Precedes(a + b, x, y)
  {
  }

  lemma {:induction false} Chain(e: Elems, x: OpId, a: OpId, b: OpId)
    requires Under(e, x, a) && Under(e, x, b)
    ensures Under(e, a, b) || Under(e, b, a)
    decreases if x.counter > 0 then x.counter else 0
  {
    if x != a && x != b { Chain(e, Key(e[x].origin), a, b); }
  }

  lemma {:induction false} UnderTrans(e: Elems, x: OpId, a: OpId, b: OpId)
    requires Under(e, x, a) && Under(e, a, b)
    ensures Under(e, x, b)
    decreases if x.counter > 0 then x.counter else 0
  {
    if x != a { UnderTrans(e, Key(e[x].origin), a, b); }
  }

  /** What lies below `r` and above `x` lies below the child of `r` that `x` lies below. */
  lemma KidOver(e: Elems, r: OpId, c: OpId, k: OpId, x: OpId)
    requires c in Kids(e, r) && c.counter > 0 && Under(e, x, c) && Under(e, x, k) && Under(e, k, r) && k != r
    ensures Under(e, k, c)
  {
    Chain(e, x, c, k);
    if !Under(e, k, c) {
      assert Under(e, r, k);
      UnderOlder(e, r, k);
      UnderOlder(e, k, r);
    }
  }

  /** `m` is newer than `n`: a larger counter, or the same and a larger peer. */
  predicate Newer(m: OpId, n: OpId) {
    m.counter > n.counter || (m.counter == n.counter && m.peer > n.peer)
  }

  /** Two siblings below `k`, the first newer, with what hangs below each. */
  ghost predicate Siblings(e: Elems, k: OpId, m: OpId, n: OpId, x: OpId, y: OpId) {
    m in Kids(e, k) && n in Kids(e, k) && Newer(m, n) && Under(e, x, m) && Under(e, y, n)
  }

  lemma SiblingsBelow(e: Elems, k: OpId, m: OpId, n: OpId, x: OpId, y: OpId)
    requires Dated(e) && Siblings(e, k, m, n, x, y)
    ensures Under(e, x, k) && Under(e, y, k) && !Under(e, x, n) && !Under(e, y, m)
  {
    assert DatedAt(e, m) && DatedAt(e, n);
    UnderStep(e, x, m, k);
    UnderStep(e, y, n, k);
    if Under(e, x, n) { SiblingsApart(e, k, m, n, x); }
    if Under(e, y, m) { SiblingsApart(e, k, m, n, y); }
  }

  lemma {:induction false} FullOrdered(e: Elems, r: OpId, k: OpId, m: OpId, n: OpId, x: OpId, y: OpId)
    requires Dated(e) && Siblings(e, k, m, n, x, y) && Under(e, k, r)
    ensures Precedes(Full(e, r), x, y)
    decreases Above(e, r), 1, 0
  {
    SortDescDescends(Kids(e, r));
    FullKidsOrdered(e, r, SortDesc(Kids(e, r)), k, m, n, x, y);
  }

  lemma {:induction false} FullKidsOrdered(
      e: Elems, r: OpId, kids: seq<OpId>, k: OpId, m: OpId, n: OpId, x: OpId, y: OpId)
    requires Dated(e) && Siblings(e, k, m, n, x, y) && Under(e, k, r)
    requires (forall c :: c in kids ==> c in Kids(e, r)) && Descending(kids)
    ensures Precedes(FullKids(e, r, kids), x, y)
    decreases Above(e, r), 0, |kids|
  {
    hide Full, SortDesc, Siblings, Kids, Under, Dated, NoDup;
    if kids != [] {
      var c, rest := kids[0], kids[1..];
      assert c in kids;
      KidAbove(e, r, c);
      FullKidsOrdered(e, r, rest, k, m, n, x, y);
      FirstOrdered(e, r, c, k, m, n, x, y);
      NotBehind(e, r, kids, k, m, n, x, y);
      PrecedesJoin([c] + Full(e, c), FullKids(e, r, rest), x, y);
    }
  }

  /** Within the first child and what is below it. */
  lemma {:induction false} FirstOrdered(
      e: Elems, r: OpId, c: OpId, k: OpId, m: OpId, n: OpId, x: OpId, y: OpId)
    requires Dated(e) && Siblings(e, k, m, n, x, y) && Under(e, k, r) && c in Kids(e, r)
    ensures Precedes([c] + Full(e, c), x, y)
    decreases Above(e, r), 0, 0
  {
    hide Full, SortDesc;
    KidAbove(e, r, c);
    assert DatedAt(e, c);
    var s := [c] + Full(e, c);
    if x in s && y in s {
      if x != c { FullUnder(e, c, x); }
      if y != c { FullUnder(e, c, y); }
      SiblingsBelow(e, k, m, n, x, y);
      assert Under(e, x, c) && Under(e, y, c);
      if k == r {
        SiblingsApart(e, r, m, c, x);
      } else {
        KidOver(e, r, c, k, x);
        FullOrdered(e, c, k, m, n, x, y);
        if y == c { UnderTrans(e, x, c, n); }
        OwnAbsent(e, c);
        PrecedesHead(c, Full(e, c), x, y);
      }
    } else {
      PrecedesAbsent(s, x, y);
    }
  }

  lemma PrecedesHead<T(!new)>(c: T, s: seq<T>, x: T, y: T)
    requires Precedes(s, x, y) && y != c
    ensures Precedes([c] + s, x, y)
  {
    PrecedesJoin([c], s, x, y);
  }

  /** The older sibling's side does not come under an earlier child than the newer one's. */
  lemma NotBehind(e: Elems, r: OpId, kids: seq<OpId>, k: OpId, m: OpId, n: OpId, x: OpId, y: OpId)
    requires Dated(e) && Siblings(e, k, m, n, x, y) && Under(e, k, r) && kids != []
    requires (forall c :: c in kids ==> c in Kids(e, r)) && Descending(kids)
    requires kids[0] in kids
    ensures y in [kids[0]] + Full(e, kids[0]) ==> x !in FullKids(e, r, kids[1..])
  {
    hide Full, FullKids, SortDesc;
    var c := kids[0];
    if y !in [c] + Full(e, c) || x !in FullKids(e, r, kids[1..]) { return; }
    assert DatedAt(e, c);
    if y != c { FullUnder(e, c, y); }
    assert Under(e, y, c);
    FullKidsUnder(e, r, kids[1..], x);
    var d :| d in kids[1..] && Under(e, x, d);
    assert d in kids && DatedAt(e, d);
    SiblingsBelow(e, k, m, n, x, y);
    var p :| 0 <= p < |kids[1..]| && kids[1..][p] == d;
    assert Less(kids[p + 1], kids[0]);
    if k == r {
      SiblingsApart(e, r, m, d, x);
      SiblingsApart(e, r, n, c, y);
    } else {
      KidOver(e, r, d, k, x);
      KidOver(e, r, c, k, y);
      SiblingsApart(e, r, c, d, k);
    }
  }

  /** Of two siblings the newer stands before the older, with everything below each. */
  lemma NewerFirst(e: Elems, k: OpId, m: OpId, n: OpId, x: OpId, y: OpId)
    requires Dated(e) && Siblings(e, k, m, n, x, y)
    ensures Precedes(Full(e, ROOT), x, y)
  {
    var s := Full(e, ROOT);
    if x in s {
      FullUnder(e, ROOT, x);
      SiblingsBelow(e, k, m, n, x, y);
      Chain(e, x, ROOT, k);
      RootNotHeld(e, k);
      FullOrdered(e, ROOT, k, m, n, x, y);
    } else {
      PrecedesAbsent(s, x, y);
    }
  }

  lemma RootNotHeld(e: Elems, k: OpId)
    requires Dated(e)
    ensures ROOT !in e && (Under(e, ROOT, k) ==> k == ROOT)
  {
    forall id | id in e ensures id != ROOT { assert DatedAt(e, id); }
  }

  lemma {:induction false} LivePrecedes(e: Elems, s: seq<OpId>, x: OpId, y: OpId)
    requires Precedes(s, x, y)
    ensures Precedes(Live(e, s), x, y) && forall z :: z in Live(e, s) ==> z in s
    decreases |s|
  {
    if s != [] {
      var t := s[1..];
      PrecedesTail(s, x, y);
      LivePrecedes(e, t, x, y);
      var head := if s[0] in e && e[s[0]].deleted.None? then [s[0]] else [];
      PrecedesJoin(head, Live(e, t), x, y);
    }
  }

  /** So do the characters shown. */
  lemma VisibleNewerFirst(e: Elems, k: OpId, m: OpId, n: OpId, x: OpId, y: OpId)
    requires Dated(e) && Siblings(e, k, m, n, x, y)
    ensures Precedes(VisibleOf(e), x, y)
  {
    NewerFirst(e, k, m, n, x, y);
    LivePrecedes(e, Full(e, ROOT), x, y);
  }

  /** Two characters typed at the front of an empty document by two peers read with the larger peer's first. */
  lemma FrontRace(p: int, q: int, a: string, b: string)
    requires p < q
    ensures var e := map[OpId(1, p) := Elem(a, None, None), OpId(1, q) := Elem(b, None, None)];
            Dated(e) && TextOf(e, VisibleOf(e)) == b + a
  {
    var m, n := OpId(1, q), OpId(1, p);
    var e := map[n := Elem(a, None, None), m := Elem(b, None, None)];
    assert Kids(e, ROOT) == {m, n} && Kids(e, m) == {} && Kids(e, n) == {};
    SortDescIs({m, n}, [m, n]);
    assert [m, n][1..] == [n] && [n][1..] == [];
    Childless(e, m);
    Childless(e, n);
    assert [n] + [] + [] == [n] && [m] + [] + [n] == [m, n];
    assert FullKids(e, ROOT, [n]) == [n] + Full(e, n) + FullKids(e, ROOT, []) == [n];
    assert FullKids(e, ROOT, [m, n]) == [m] + Full(e, m) + FullKids(e, ROOT, [n]) == [m, n];
    assert Live(e, [n]) == [n] + Live(e, []) == [n];
    assert Live(e, [m, n]) == [m] + Live(e, [n]) == [m, n];
    assert TextOf(e, [n]) == a + TextOf(e, []) == a;
    assert TextOf(e, [m, n]) == b + TextOf(e, [n]);
  }

  lemma Childless(e: Elems, k: OpId)
    requires Kids(e, k) == {}
    ensures Full(e, k) == []
  {
  }
}
