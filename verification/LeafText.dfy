/** The text inside a leaf: edits, which keep two replicas' copies equal, and splits and merges, which start the text
    afresh under whatever peer is at hand. */
module LeafTexts {
  import opened Options
  import opened TextOrder
  import opened TextCrdts
  import opened TextNetwork

  // ── A text typed in one go ──

  /** The ids a peer spends from one counter to another. */
  function Span(peer: int, from: int, last: int): (r: seq<OpId>)
    ensures |r| == (if from <= last then last - from + 1 else 0)
    ensures forall i :: 0 <= i < |r| ==> r[i] == OpId(from + i, peer)
    decreases last - from
  {
    if from > last then [] else [OpId(from, peer)] + Span(peer, from + 1, last)
  }

  function Letter(peer: int, s: string, i: int): Elem
    requires 0 < i <= |s|
  {
    Elem([s[i - 1]], if i == 1 then None else Some(OpId(i - 1, peer)), None)
  }

  /** A fresh replica after `s` is typed at its front: one element a byte, each behind the one before. */
  function Seeded(peer: int, s: string): Elems {
    map i: int | 0 < i <= |s| :: OpId(i, peer) := Letter(peer, s, i)
  }

  lemma SeededHas(peer: int, s: string)
    ensures forall id :: id in Seeded(peer, s) <==> id.peer == peer && 0 < id.counter <= |s|
    ensures forall i :: 0 < i <= |s| ==>
              OpId(i, peer) in Seeded(peer, s) && Seeded(peer, s)[OpId(i, peer)] == Letter(peer, s, i)
  {
    forall id ensures id in Seeded(peer, s) <==> id.peer == peer && 0 < id.counter <= |s| {
      if id.peer == peer && 0 < id.counter <= |s| { assert id == OpId(id.counter, peer); }
    }
  }

  /** The same text typed by two peers is not the same text, unless there is none. */
  lemma SeedsAgree(p: int, q: int, s: string)
    ensures Seeded(p, s) == Seeded(q, s) <==> p == q || s == ""
  {
    SeededHas(p, s);
    SeededHas(q, s);
    if s != "" && p != q { assert OpId(1, p) in Seeded(p, s) && OpId(1, p) !in Seeded(q, s); }
  }

  // ── Reading ──

  lemma {:induction false} TextConcat(e: Elems, a: seq<OpId>, b: seq<OpId>)
    ensures TextOf(e, a + b) == TextOf(e, a) + TextOf(e, b)
    decreases |a|
  {
    if a == [] {
      assert a + b == b;
    } else {
      assert (a + b)[1..] == a[1..] + b;
      TextConcat(e, a[1..], b);
    }
  }

  ghost function Shown(e: Elems): string {
    TextOf(e, VisibleOf(e))
  }

  // ── Two copies under two peers ──

  /** `e` is what `peer` typed as `s`, of which some may be deleted. */
  ghost predicate Copy(e: Elems, peer: int, s: string) {
    && (forall id :: id in e <==> id in Seeded(peer, s))
    && forall id :: id in e ==> e[id].(deleted := None) == Seeded(peer, s)[id]
  }

  /** What is left of `s`. */
  ghost function Left(e: Elems, peer: int, s: string, i: int): string
    requires Copy(e, peer, s) && 0 < i
    decreases |s| - i
  {
    if i > |s| then ""
    else
      SeededHas(peer, s);
      (if e[OpId(i, peer)].deleted.None? then [s[i - 1]] else "") + Left(e, peer, s, i + 1)
  }

  /** Both copies in one replica. */
  ghost predicate Both(e: Elems, p: int, a: Elems, q: int, b: Elems, s: string) {
    p != q && s != "" && Copy(a, p, s) && Copy(b, q, s) && e == Join(a, b)
  }

  /** Where an element of either copy hangs. */
  function Behind(id: OpId): OpId {
    if id.counter == 1 then ROOT else OpId(id.counter - 1, id.peer)
  }

  lemma CopyHas(a: Elems, peer: int, s: string)
    requires Copy(a, peer, s)
    ensures forall id :: id in a <==> id.peer == peer && 0 < id.counter <= |s|
    ensures forall id :: id in a ==> Key(a[id].origin) == Behind(id) && a[id].ch == [s[id.counter - 1]]
  {
    hide Seeded;
    SeededHas(peer, s);
    forall id | id in a ensures Key(a[id].origin) == Behind(id) && a[id].ch == [s[id.counter - 1]] {
      assert id == OpId(id.counter, peer);
      assert a[id].(deleted := None) == Letter(peer, s, id.counter);
    }
  }

  lemma BothHas(e: Elems, p: int, a: Elems, q: int, b: Elems, s: string)
    requires Both(e, p, a, q, b, s)
    ensures forall id :: id in e <==> (id.peer == p || id.peer == q) && 0 < id.counter <= |s|
    ensures forall id :: id in e ==> Key(e[id].origin) == Behind(id)
    ensures forall id :: id in e ==> if id.peer == p then id in a && e[id] == a[id] else id in b && e[id] == b[id]
  {
    hide Copy, Behind;
    CopyHas(a, p, s);
    CopyHas(b, q, s);
  }

  lemma ChainKids(e: Elems, p: int, a: Elems, q: int, b: Elems, s: string, r: int, i: int)
    requires Both(e, p, a, q, b, s) && (r == p || r == q) && 0 < i <= |s|
    ensures Kids(e, OpId(i, r)) == if i == |s| then {} else {OpId(i + 1, r)}
  {
    hide Both;
    BothHas(e, p, a, q, b, s);
  }

  lemma FirstsAtRoot(e: Elems, p: int, q: int, n: nat)
    requires n > 0 && forall id :: id in e <==> (id.peer == p || id.peer == q) && 0 < id.counter <= n
    requires forall id :: id in e ==> Key(e[id].origin) == Behind(id)
    ensures Kids(e, ROOT) == {OpId(1, p), OpId(1, q)}
  {
    assert OpId(1, p) in e && OpId(1, q) in e;
    forall c ensures c in Kids(e, ROOT) ==> c in {OpId(1, p), OpId(1, q)} {
      if c in e {
        assert Key(e[c].origin) == Behind(c);
        assert c == OpId(c.counter, c.peer);
      }
    }
  }

  lemma RootKids(e: Elems, p: int, a: Elems, q: int, b: Elems, s: string)
    requires Both(e, p, a, q, b, s)
    ensures Kids(e, ROOT) == {OpId(1, p), OpId(1, q)}
  {
    hide Kids;
    BothHas(e, p, a, q, b, s);
    FirstsAtRoot(e, p, q, |s|);
  }

  lemma {:induction false} ChainBelow(e: Elems, p: int, a: Elems, q: int, b: Elems, s: string, r: int, i: int)
    requires Both(e, p, a, q, b, s) && (r == p || r == q) && 0 < i <= |s|
    ensures Full(e, OpId(i, r)) == Span(r, i + 1, |s|)
    decreases |s| - i
  {
    hide Both, Kids, Full;
    ChainKids(e, p, a, q, b, s, r, i);
    if i == |s| {
      Childless(e, OpId(i, r));
    } else {
      OneChild(e, OpId(i, r), OpId(i + 1, r));
      ChainBelow(e, p, a, q, b, s, r, i + 1);
    }
  }

  lemma KidsStep(e: Elems, k: OpId, c: OpId, rest: seq<OpId>)
    requires c in Kids(e, k) && forall x :: x in rest ==> x in Kids(e, k)
    ensures FullKids(e, k, [c] + rest) == [c] + Full(e, c) + FullKids(e, k, rest)
  {
    assert ([c] + rest)[1..] == rest;
  }

  lemma OneChild(e: Elems, k: OpId, c: OpId)
    requires Kids(e, k) == {c}
    ensures Full(e, k) == [c] + Full(e, c)
  {
    SortDescIs({c}, [c]);
    KidsStep(e, k, c, []);
    assert [c] + [] == [c];
    assert FullKids(e, k, []) == [];
    assert [c] + Full(e, c) + [] == [c] + Full(e, c);
  }

  lemma TwoChildren(e: Elems, k: OpId, m: OpId, n: OpId)
    requires Kids(e, k) == {m, n} && Less(n, m)
    ensures Full(e, k) == [m] + Full(e, m) + ([n] + Full(e, n))
  {
    SortDescIs({m, n}, [m, n]);
    assert FullKids(e, k, []) == [];
    assert Full(e, k) == FullKids(e, k, [m, n]);
    hide FullKids, Full, Kids;
    KidsStep(e, k, m, [n]);
    KidsStep(e, k, n, []);
    assert [m] + [n] == [m, n] && [n] + [] == [n];
    assert [n] + Full(e, n) + [] == [n] + Full(e, n);
  }

  lemma LeftStep(a: Elems, peer: int, s: string, i: int)
    requires Copy(a, peer, s) && 0 < i <= |s|
    ensures OpId(i, peer) in a
    ensures Left(a, peer, s, i)
         == (if a[OpId(i, peer)].deleted.None? then a[OpId(i, peer)].ch else "") + Left(a, peer, s, i + 1)
  {
    hide Seeded;
    CopyHas(a, peer, s);
  }

  lemma {:induction false} LeftIsText(e: Elems, peer: int, a: Elems, s: string, i: int)
    requires Copy(a, peer, s) && 0 < i && forall id :: id in a ==> id in e && e[id] == a[id]
    ensures TextOf(e, Live(e, Span(peer, i, |s|))) == Left(a, peer, s, i)
    decreases |s| - i
  {
    hide Copy;
    if i <= |s| {
      hide Left, TextOf, Live;
      var id, rest := OpId(i, peer), Span(peer, i + 1, |s|);
      LeftIsText(e, peer, a, s, i + 1);
      LeftStep(a, peer, s, i);
      LiveConcat(e, [id], rest);
      TextConcat(e, Live(e, [id]), Live(e, rest));
      HeadText(e, id);
      assert Span(peer, i, |s|) == [id] + rest;
    }
  }

  lemma HeadText(e: Elems, id: OpId)
    requires id in e
    ensures TextOf(e, Live(e, [id])) == if e[id].deleted.None? then e[id].ch else ""
  {
    assert [id][1..] == [];
    assert Live(e, [id]) == (if e[id].deleted.None? then [id] else []) + Live(e, []);
  }

  /** Two peers' copies of one text in one replica are read one behind the other, the larger peer's first, and what
      was deleted of one is not deleted of the other. */
  lemma CopiesPile(e: Elems, p: int, a: Elems, q: int, b: Elems, s: string)
    requires Both(e, p, a, q, b, s) && p < q
    ensures Shown(e) == Left(b, q, s, 1) + Left(a, p, s, 1)
  {
    BothHas(e, p, a, q, b, s);
    RootKids(e, p, a, q, b, s);
    ChainBelow(e, p, a, q, b, s, q, 1);
    ChainBelow(e, p, a, q, b, s, p, 1);
    BothLeft(e, p, a, q, b, s);
    hide Both, Kids, Full, Live, Left, TextOf, Copy;
    var mine, theirs := Span(p, 1, |s|), Span(q, 1, |s|);
    TwoChildren(e, ROOT, OpId(1, q), OpId(1, p));
    assert theirs == [OpId(1, q)] + Span(q, 2, |s|) && mine == [OpId(1, p)] + Span(p, 2, |s|);
    LiveConcat(e, theirs, mine);
    TextConcat(e, Live(e, theirs), Live(e, mine));
  }

  lemma BothLeft(e: Elems, p: int, a: Elems, q: int, b: Elems, s: string)
    requires Both(e, p, a, q, b, s)
    ensures TextOf(e, Live(e, Span(p, 1, |s|))) == Left(a, p, s, 1)
    ensures TextOf(e, Live(e, Span(q, 1, |s|))) == Left(b, q, s, 1)
  {
    BothHas(e, p, a, q, b, s);
    CopyHas(a, p, s);
    CopyHas(b, q, s);
    LeftIsText(e, p, a, s, 1);
    LeftIsText(e, q, b, s, 1);
  }

  // ── One copy alone ──

  lemma CopyRoot(a: Elems, peer: int, s: string)
    requires Copy(a, peer, s) && s != ""
    ensures Kids(a, ROOT) == {OpId(1, peer)}
  {
    CopyHas(a, peer, s);
    hide Copy;
  }

  lemma CopyKid(a: Elems, peer: int, s: string, i: int)
    requires Copy(a, peer, s) && 0 < i <= |s|
    ensures Kids(a, OpId(i, peer)) == if i == |s| then {} else {OpId(i + 1, peer)}
  {
    hide Copy;
    CopyHas(a, peer, s);
    var k := OpId(i, peer);
    forall c ensures c in Kids(a, k) <==> i < |s| && c == OpId(i + 1, peer) {
      if c in a { assert Key(a[c].origin) == Behind(c); }
    }
  }

  lemma {:induction false} CopyChain(a: Elems, peer: int, s: string, i: int)
    requires Copy(a, peer, s) && 0 < i <= |s|
    ensures Full(a, OpId(i, peer)) == Span(peer, i + 1, |s|)
    decreases |s| - i
  {
    hide Copy, Kids, Full;
    CopyKid(a, peer, s, i);
    if i == |s| {
      Childless(a, OpId(i, peer));
    } else {
      OneChild(a, OpId(i, peer), OpId(i + 1, peer));
      CopyChain(a, peer, s, i + 1);
    }
  }

  /** A copy alone reads as what is left of it. */
  lemma CopyReads(a: Elems, peer: int, s: string)
    requires Copy(a, peer, s)
    ensures Shown(a) == Left(a, peer, s, 1)
  {
    if s == "" {
      CopyHas(a, peer, s);
      assert Kids(a, ROOT) == {};
      Childless(a, ROOT);
    } else {
      CopyRoot(a, peer, s);
      OneChild(a, ROOT, OpId(1, peer));
      CopyChain(a, peer, s, 1);
      LeftIsText(a, peer, a, s, 1);
    }
  }

  lemma {:induction false} LeftWhole(peer: int, s: string, i: int)
    requires 0 < i <= |s| + 1
    ensures Copy(Seeded(peer, s), peer, s) && Left(Seeded(peer, s), peer, s, i) == s[i - 1..]
    decreases |s| - i
  {
    SeededHas(peer, s);
    if i <= |s| {
      LeftWhole(peer, s, i + 1);
      assert s[i - 1..] == [s[i - 1]] + s[i..];
    }
  }

  /** Typed in one go, a text reads as typed. */
  lemma SeededReads(peer: int, s: string)
    ensures Copy(Seeded(peer, s), peer, s) && Shown(Seeded(peer, s)) == s
  {
    LeftWhole(peer, s, 1);
    CopyReads(Seeded(peer, s), peer, s);
  }

  // ── Typing a string ──

  /** `ids` let in at `index`, or at the end. */
  function Wedged(visible: seq<OpId>, index: nat, ids: seq<OpId>): seq<OpId> {
    var pos := if index < |visible| then index else |visible|;
    visible[..pos] + ids + visible[pos..]
  }

  lemma WedgeOne(visible: seq<OpId>, index: nat, ids: seq<OpId>, n: OpId)
    ensures Spliced(Wedged(visible, index, ids), index + |ids|, n) == Wedged(visible, index, ids + [n])
  {
  }

  lemma SpanSnoc(peer: int, from: int, last: int)
    requires from <= last + 1
    ensures Span(peer, from, last + 1) == Span(peer, from, last) + [OpId(last + 1, peer)]
  {
  }

  /** Beyond what `e` held, `e'` holds the letters of `s` under the peer's next ids. */
  ghost predicate Lettered(e: Elems, e': Elems, peer: int, clock: int, s: string) {
    && (forall id :: id in e ==> id in e' && e'[id] == e[id])
    && (forall id :: id in e' && id !in e ==> id.peer == peer && clock < id.counter <= clock + |s|)
    && (forall i :: 0 <= i < |s| ==> LetterAt(e', OpId(clock + 1 + i, peer), s[i]))
  }

  ghost predicate LetterAt(e: Elems, id: OpId, c: char) {
    id in e && e[id].ch == [c] && e[id].deleted.None?
  }

  lemma NothingTyped(e: Elems, peer: int, clock: int, visible: seq<OpId>, index: nat)
    ensures Lettered(e, e, peer, clock, "") && Seeded(peer, "") == map[] && Wedged(visible, index, []) == visible
    ensures VisibleOf(map[]) == []
  {
    assert Kids(map[], ROOT) == {};
    Childless(map[], ROOT);
  }

  lemma OneLetter(e: Elems, before: Elems, after: Elems, peer: int, clock: int, s: string, c: char,
                  origin: Option<OpId>)
    requires Lettered(e, before, peer, clock, s) && forall id :: id in before ==> id.counter <= clock + |s|
    requires after == before[OpId(clock + |s| + 1, peer) := Elem([c], origin, None)]
    ensures Lettered(e, after, peer, clock, s + [c])
  {
    forall i | 0 <= i < |s + [c]| ensures LetterAt(after, OpId(clock + 1 + i, peer), (s + [c])[i]) {
      if i < |s| { assert LetterAt(before, OpId(clock + 1 + i, peer), s[i]); }
    }
  }

  lemma LetterStays(peer: int, s: string, c: char, i: int)
    requires 0 < i <= |s|
    ensures Letter(peer, s, i) == Letter(peer, s + [c], i)
  {
  }

  lemma SeedGrows(before: Elems, after: Elems, peer: int, s: string, c: char, origin: Option<OpId>)
    requires before == Seeded(peer, s) && origin == if s == "" then None else Some(OpId(|s|, peer))
    requires after == before[OpId(|s| + 1, peer) := Elem([c], origin, None)]
    ensures after == Seeded(peer, s + [c])
  {
    hide Seeded;
    var t, n := s + [c], |s| + 1;
    SeededHas(peer, s);
    SeededHas(peer, t);
    assert Letter(peer, t, n) == Elem([c], origin, None);
    hide Letter;
    forall id | id in after ensures id in Seeded(peer, t) && after[id] == Seeded(peer, t)[id] {
      assert id == OpId(id.counter, peer);
      if id.counter < n { LetterStays(peer, s, c, id.counter); }
    }
    forall id | id in Seeded(peer, t) ensures id in after {
      assert id.counter < n || id == OpId(n, peer);
    }
  }

  lemma LastTyped(peer: int, n: nat)
    ensures OriginAt(Wedged([], 0, Span(peer, 1, n)), n) == if n == 0 then None else Some(OpId(n, peer))
  {
    assert Wedged([], 0, Span(peer, 1, n)) == Span(peer, 1, n);
  }

  /** In mid-typing: `s` is in. */
  ghost predicate Typing(e: Elems, clock: int, index: nat, cur: Elems, peer: int, s: string) {
    && VisibleOf(cur) == Wedged(VisibleOf(e), index, Span(peer, clock + 1, clock + |s|))
    && Lettered(e, cur, peer, clock, s)
    && (e == map[] && clock == 0 && index == 0 ==> cur == Seeded(peer, s))
  }

  lemma TypingStarts(e: Elems, clock: int, index: nat, peer: int)
    ensures Typing(e, clock, index, e, peer, "")
  {
    NothingTyped(e, peer, clock, VisibleOf(e), index);
  }

  lemma TypingStep(e: Elems, clock: int, index: nat, cur: Elems, after: Elems, peer: int, s: string, c: char)
    requires Typing(e, clock, index, cur, peer, s) && forall id :: id in cur ==> id.counter <= clock + |s|
    requires after == cur[OpId(clock + |s| + 1, peer) := Elem([c], OriginAt(VisibleOf(cur), index + |s|), None)]
    requires VisibleOf(after) == Spliced(VisibleOf(cur), index + |s|, OpId(clock + |s| + 1, peer))
    ensures Typing(e, clock, index, after, peer, s + [c])
  {
    hide VisibleOf, Lettered, Seeded, Wedged, Spliced, OriginAt;
    WedgeOne(VisibleOf(e), index, Span(peer, clock + 1, clock + |s|), OpId(clock + |s| + 1, peer));
    SpanSnoc(peer, clock + 1, clock + |s|);
    OneLetter(e, cur, after, peer, clock, s, c, OriginAt(VisibleOf(cur), index + |s|));
    if e == map[] && clock == 0 && index == 0 {
      NothingTyped(e, peer, clock, [], index);
      LastTyped(peer, |s|);
      SeedGrows(cur, after, peer, s, c, OriginAt(VisibleOf(cur), |s|));
    }
  }

  method InsertStr(t: TextCrdt, index: nat, s: string)
    requires t.Valid()
    modifies t
    ensures t.Valid() && t.counter == old(t.counter) + |s|
    ensures Typing(old(t.elems), old(t.counter), index, t.elems, t.peer, s)
  {
    hide VisibleOf, Dated, Buckets, Typing, Spliced, OriginAt;
    TypingStarts(t.elems, t.counter, index, t.peer);
    assert s[..0] == [];
    for i := 0 to |s|
      invariant t.Valid() && t.counter == old(t.counter) + i
      invariant Typing(old(t.elems), old(t.counter), index, t.elems, t.peer, s[..i])
    {
      ghost var before := t.elems;
      t.Insert(index + i, [s[i]]);
      TypingStep(old(t.elems), old(t.counter), index, before, t.elems, t.peer, s[..i], s[i]);
      assert s[..i + 1] == s[..i] + [s[i]];
    }
    assert s[..|s|] == s;
  }

  /** A leaf's text starts afresh. */
  method Seed(peer: int, s: string) returns (t: TextCrdt)
    ensures fresh(t) && t.Valid() && t.peer == peer && Bytewise(t.elems)
    ensures t.elems == Seeded(peer, s) && Shown(t.elems) == s
  {
    hide VisibleOf, Dated, Buckets, Seeded, Shown, Bytewise;
    t := new TextCrdt(peer);
    InsertStr(t, 0, s);
    SeededReads(peer, s);
    SeededBytes(peer, s);
  }

  lemma SeededBytes(peer: int, s: string)
    ensures Bytewise(Seeded(peer, s))
  {
    SeededHas(peer, s);
    forall id | id in Seeded(peer, s) ensures |Seeded(peer, s)[id].ch| == 1 { assert id == OpId(id.counter, peer); }
  }

  // ── Edits ──

  /** Every element holds one byte. */
  ghost predicate Bytewise(e: Elems) {
    forall id :: id in e ==> |e[id].ch| == 1
  }

  /** `e'` has all of `e`, of which more may be deleted. */
  ghost predicate Extends(e: Elems, e': Elems) {
    forall id :: id in e ==>
      && id in e' && e'[id].(deleted := e[id].deleted) == e[id]
      && (e[id].deleted.Some? ==> e'[id].deleted == e[id].deleted)
  }

  /** The bytes from `at` on, `del` of them, give way to `ins`. */
  function Edited(s: string, at: nat, del: nat, ins: string): string {
    var a := if at < |s| then at else |s|;
    var b := if at + del < |s| then at + del else |s|;
    s[..a] + ins + s[b..]
  }

  lemma {:induction false} TextSame(e: Elems, e': Elems, ids: seq<OpId>)
    requires forall id :: id in ids ==> id in e && id in e' && e[id].ch == e'[id].ch
    ensures TextOf(e, ids) == TextOf(e', ids)
    decreases |ids|
  {
    if ids != [] { TextSame(e, e', ids[1..]); }
  }

  lemma TextCut(e: Elems, ids: seq<OpId>, a: nat)
    requires Bytewise(e) && a <= |ids| && forall id :: id in ids ==> id in e
    ensures |TextOf(e, ids)| == |ids|
    ensures TextOf(e, ids[..a]) == TextOf(e, ids)[..a] && TextOf(e, ids[a..]) == TextOf(e, ids)[a..]
  {
    Lengths(e, ids[..a]);
    Lengths(e, ids[a..]);
    assert ids == ids[..a] + ids[a..];
    TextConcat(e, ids[..a], ids[a..]);
  }

  lemma {:induction false} Lengths(e: Elems, ids: seq<OpId>)
    requires Bytewise(e) && forall id :: id in ids ==> id in e
    ensures |TextOf(e, ids)| == |ids|
    decreases |ids|
  {
    if ids != [] { Lengths(e, ids[1..]); }
  }

  lemma {:induction false} SpanText(e: Elems, peer: int, clock: int, s: string)
    requires forall i :: 0 <= i < |s| ==> LetterAt(e, OpId(clock + 1 + i, peer), s[i])
    ensures TextOf(e, Span(peer, clock + 1, clock + |s|)) == s
    decreases |s|
  {
    if s != "" {
      var t := s[1..];
      forall i | 0 <= i < |t| ensures LetterAt(e, OpId(clock + 1 + 1 + i, peer), t[i]) {
        assert LetterAt(e, OpId(clock + 1 + (i + 1), peer), s[i + 1]);
      }
      SpanText(e, peer, clock + 1, t);
      assert LetterAt(e, OpId(clock + 1 + 0, peer), s[0]);
      assert s == [s[0]] + t;
    }
  }

  /** Deletions only, and what is visible. */
  ghost predicate Trimmed(e: Elems, e': Elems) {
    Extends(e, e') && forall id :: id in e' ==> id in e
  }

  lemma CopyTrimmed(e: Elems, e': Elems, peer: int, s: string)
    requires Copy(e, peer, s) && Trimmed(e, e')
    ensures Copy(e', peer, s)
  {
    hide Seeded;
    forall id | id in e' ensures e'[id].(deleted := None) == Seeded(peer, s)[id] {
      assert e'[id].(deleted := e[id].deleted) == e[id];
    }
  }

  method DelRange(t: TextCrdt, at: nat, del: nat)
    requires t.Valid()
    modifies t
    ensures t.Valid() && Trimmed(old(t.elems), t.elems)
    ensures var visible := VisibleOf(old(t.elems));
            VisibleOf(t.elems) == if at < |visible|
                                  then visible[..at] + visible[if at + del < |visible| then at + del else |visible|..]
                                  else visible
  {
    hide VisibleOf, Dated, Buckets;
    ghost var visible := VisibleOf(t.elems);
    var i := 0;
    t.EnsureVisible();
    assert at <= |visible| ==> visible == visible[..at] + visible[at + 0..];
    while i < del && at < |t.visible|
      invariant t.Valid() && t.visibleValid && i <= del && Trimmed(old(t.elems), t.elems)
      invariant at < |visible| ==> at + i <= |visible| && VisibleOf(t.elems) == visible[..at] + visible[at + i..]
      invariant at >= |visible| ==> VisibleOf(t.elems) == visible
      decreases del - i
    {
      Shrinks(visible, at, i);
      t.Del(at);
      t.EnsureVisible();
      i := i + 1;
    }
  }

  lemma Shrinks(visible: seq<OpId>, at: nat, i: nat)
    ensures at + i < |visible| ==>
              var v := visible[..at] + visible[at + i..];
              v[..at] + v[at + 1..] == visible[..at] + visible[at + i + 1..]
  {
  }

  lemma WedgeCut(visible: seq<OpId>, v: seq<OpId>, at: nat, del: nat, ids: seq<OpId>)
    requires v == if at < |visible|
                  then visible[..at] + visible[if at + del < |visible| then at + del else |visible|..]
                  else visible
    ensures var a := if at < |visible| then at else |visible|;
            var b := if at + del < |visible| then at + del else |visible|;
            Wedged(v, at, ids) == visible[..a] + ids + visible[b..]
  {
  }

  lemma PiecesText(e: Elems, e': Elems, visible: seq<OpId>, a: nat, b: nat, ids: seq<OpId>)
    requires Bytewise(e) && a <= b <= |visible|
    requires forall id :: id in visible ==> id in e && id in e' && e[id].ch == e'[id].ch
    ensures |TextOf(e, visible)| == |visible|
    ensures TextOf(e', visible[..a] + ids + visible[b..])
         == TextOf(e, visible)[..a] + TextOf(e', ids) + TextOf(e, visible)[b..]
  {
    TextConcat(e', visible[..a] + ids, visible[b..]);
    TextConcat(e', visible[..a], ids);
    TextSame(e, e', visible[..a]);
    TextSame(e, e', visible[b..]);
    TextCut(e, visible, a);
    TextCut(e, visible, b);
  }

  /** The text after an edit: `cut` has lost the range, `e'` has gained the letters of `ins`. */
  lemma EditSplices(e: Elems, cut: Elems, e': Elems, peer: int, clock: int, at: nat, del: nat, ins: string)
    requires Dated(e) && Bytewise(e) && Trimmed(e, cut) && Typing(cut, clock, at, e', peer, ins)
    requires var visible := VisibleOf(e);
             VisibleOf(cut) == if at < |visible|
                               then visible[..at] + visible[if at + del < |visible| then at + del else |visible|..]
                               else visible
    ensures Shown(e') == Edited(Shown(e), at, del, ins)
  {
    var visible := VisibleOf(e);
    var a := if at < |visible| then at else |visible|;
    var b := if at + del < |visible| then at + del else |visible|;
    var ids := Span(peer, clock + 1, clock + |ins|);
    forall id | id in visible ensures id in e && id in e' && e[id].ch == e'[id].ch {
      VisibleHeld(e, id);
      TrimmedAt(e, cut, id);
    }
    WedgeCut(visible, VisibleOf(cut), at, del, ids);
    SpanText(e', peer, clock, ins);
    hide VisibleOf, Extends, Trimmed, TextOf, Bytewise, Wedged;
    PiecesText(e, e', visible, a, b, ids);
  }

  lemma TrimmedAt(e: Elems, cut: Elems, id: OpId)
    requires Trimmed(e, cut) && id in e
    ensures id in cut && cut[id].ch == e[id].ch
  {
    assert cut[id].(deleted := e[id].deleted) == e[id];
  }

  lemma EditExtends(e: Elems, cut: Elems, e': Elems, peer: int, clock: int, ins: string)
    requires Trimmed(e, cut) && Lettered(cut, e', peer, clock, ins)
    ensures Extends(e, e') && (ins == "" ==> Trimmed(e, e')) && (Bytewise(e) ==> Bytewise(e'))
  {
    forall id | Bytewise(e) && id in e' ensures |e'[id].ch| == 1 {
      if id in cut {
        TrimmedAt(e, cut, id);
      } else {
        var i := id.counter - clock - 1;
        assert LetterAt(e', OpId(clock + 1 + i, peer), ins[i]);
      }
    }
  }

  /** A local edit: a fork under this peer, whose whole content goes out as the delta. */
  method EditLeaf(t: TextCrdt, peer: int, at: nat, del: nat, ins: string) returns (u: TextCrdt, delta: seq<TextOp>)
    requires t.Valid() && Bytewise(t.elems)
    ensures fresh(u) && u.Valid() && u.peer == peer && Bytewise(u.elems)
    ensures Shown(u.elems) == Edited(Shown(t.elems), at, del, ins)
    ensures Extends(t.elems, u.elems) && (ins == "" ==> Trimmed(t.elems, u.elems))
    ensures IsDelta(u.elems, map[], delta)
  {
    hide VisibleOf, Buckets, Shown, Typing, Trimmed, Extends, Bytewise;
    u := t.Fork(peer);
    DelRange(u, at, del);
    ghost var cut, clock := u.elems, u.counter;
    InsertStr(u, at, ins);
    EditSplices(t.elems, cut, u.elems, peer, clock, at, del, ins);
    TypingLetters(cut, clock, at, u.elems, peer, ins);
    EditExtends(t.elems, cut, u.elems, peer, clock, ins);
    delta := u.DeltaSince(map[]);
  }

  lemma TypingLetters(e: Elems, clock: int, index: nat, cur: Elems, peer: int, s: string)
    requires Typing(e, clock, index, cur, peer, s)
    ensures Lettered(e, cur, peer, clock, s)
  {
  }

  /** A replica that holds what the text was takes the delta in and holds what it is: edits keep copies equal. */
  lemma EditArrives(e: Elems, e': Elems, delta: seq<TextOp>)
    requires Extends(e, e') && IsDelta(e', map[], delta) && Dated(e')
    ensures ApplyOps(e, delta) == e' && forall i :: 0 <= i < |delta| ==> Young(delta[i].id, delta[i].x)
  {
    DeltaIsAll(e', delta);
    ApplyIsJoin(e, e', delta);
    OnlyAll(e', Ids(delta));
    JoinExtends(e, e');
    forall i | 0 <= i < |delta| ensures Young(delta[i].id, delta[i].x) { assert DatedAt(e', delta[i].id); }
  }

  lemma DeltaIsAll(e: Elems, delta: seq<TextOp>)
    requires IsDelta(e, map[], delta) && Dated(e)
    ensures forall id :: id in e ==> id in Ids(delta)
  {
    forall id | id in e ensures id in Ids(delta) {
      assert DatedAt(e, id);
      assert TextOp(id, e[id]) in delta;
      var i :| 0 <= i < |delta| && delta[i] == TextOp(id, e[id]);
      assert delta[i].id == id;
      IdsMember(delta, id);
    }
  }

  lemma OnlyAll(e: Elems, ids: set<OpId>)
    requires forall id :: id in e ==> id in ids
    ensures Only(e, ids) == e
  {
  }

  lemma JoinExtends(e: Elems, e': Elems)
    requires Extends(e, e')
    ensures Join(e, e') == e'
  {
    var j := Join(e, e');
    forall id | id in j ensures id in e' && j[id] == e'[id] {
      if id in e { assert e'[id].(deleted := e[id].deleted) == e[id]; }
    }
    assert forall id :: id in e' ==> id in j;
  }

  // ── Splits ──

  /** A byte that carries on a character. */
  predicate Carries(c: char) {
    0x80 <= c as int < 0xC0
  }

  /** The characters that begin from `i` up to `k`. */
  function Begun(s: string, i: nat, k: nat): nat
    requires i <= k <= |s|
    decreases k - i
  {
    if i == k then 0 else (if Carries(s[i]) then 0 else 1) + Begun(s, i + 1, k)
  }

  /** From `i` on, until `count` characters have begun. */
  function Past(s: string, i: nat, count: nat): nat
    decreases |s| - i
  {
    if i >= |s| || count == 0 then i else Past(s, i + 1, if Carries(s[i]) then count else count - 1)
  }

  method ByteToChar(s: string, offset: nat) returns (count: nat)
    ensures count == Begun(s, 0, if offset < |s| then offset else |s|)
  {
    count := 0;
    var end := if offset < |s| then offset else |s|;
    for i := 0 to end
      invariant count + Begun(s, i, end) == Begun(s, 0, end)
    {
      if !Carries(s[i]) { count := count + 1; }
    }
  }

  method CharToByte(s: string, offset: nat) returns (at: nat)
    ensures at == Past(s, 0, offset)
  {
    at := 0;
    var count := 0;
    while at < |s| && count < offset
      invariant count <= offset && Past(s, at, offset - count) == Past(s, 0, offset)
      decreases |s| - at
    {
      if !Carries(s[at]) { count := count + 1; }
      at := at + 1;
    }
  }

  /** A cut sent as a count of characters comes back as the byte just behind the last one's first: the right place if
      and only if the byte in front of the cut carries nothing on. */
  lemma {:induction false} CutSurvives(s: string, i: nat, k: nat)
    requires i <= k <= |s|
    ensures Past(s, i, Begun(s, i, k)) <= k
    ensures Past(s, i, Begun(s, i, k)) == k <==> k == i || !Carries(s[k - 1])
    decreases k - i
  {
    if i < k {
      CutSurvives(s, i + 1, k);
      if Begun(s, i, k) == 0 { NoneBegun(s, i, k); }
    }
  }

  lemma {:induction false} NoneBegun(s: string, i: nat, k: nat)
    requires i < k <= |s| && Begun(s, i, k) == 0
    ensures Carries(s[k - 1])
    decreases k - i
  {
    if i + 1 < k { NoneBegun(s, i + 1, k); }
  }

  /** A split where it is made: both halves start afresh, and the cut goes out as a count of characters.  A cut
      behind the end is refused before anything changes. */
  method SplitHere(t: TextCrdt, peer: int, tailPeer: int, at: nat)
    returns (halves: Option<(TextCrdt, TextCrdt, nat)>)
    requires t.Valid()
    modifies t`visible, t`visibleValid
    ensures halves.Some? <==> at <= |Shown(t.elems)|
    ensures halves.Some? ==>
              var (head, tail, atChar) := halves.val;
              && fresh(head) && fresh(tail) && head.Valid() && tail.Valid()
              && head.elems == Seeded(peer, Shown(t.elems)[..at])
              && tail.elems == Seeded(tailPeer, Shown(t.elems)[at..])
              && atChar == Begun(Shown(t.elems), 0, at)
  {
    hide VisibleOf, Dated, Buckets, Seeded, Begun;
    var text := t.Text();
    if at > |text| { return None; }
    var atChar := ByteToChar(text, at);
    var head := Seed(peer, text[..at]);
    var tail := Seed(tailPeer, text[at..]);
    return Some((head, tail, atChar));
  }

  /** The same split where it arrives: the head starts under the peer that made the node. */
  method SplitThere(t: TextCrdt, nodePeer: int, tailPeer: int, atChar: nat) returns (head: TextCrdt, tail: TextCrdt)
    requires t.Valid()
    modifies t`visible, t`visibleValid
    ensures fresh(head) && fresh(tail) && head.Valid() && tail.Valid()
    ensures var cut := Past(Shown(t.elems), 0, atChar);
            && cut <= |Shown(t.elems)|
            && head.elems == Seeded(nodePeer, Shown(t.elems)[..cut])
            && tail.elems == Seeded(tailPeer, Shown(t.elems)[cut..])
  {
    hide VisibleOf, Dated, Buckets, Seeded, Past;
    var text := t.Text();
    var at := CharToByte(text, atChar);
    PastWithin(text, 0, atChar);
    head := Seed(nodePeer, text[..at]);
    tail := Seed(tailPeer, text[at..]);
  }

  lemma {:induction false} PastWithin(s: string, i: nat, count: nat)
    requires i <= |s|
    ensures i <= Past(s, i, count) <= |s|
    decreases |s| - i
  {
    if i < |s| && count > 0 { PastWithin(s, i + 1, if Carries(s[i]) then count else count - 1); }
  }

  /** A split of text that both sides read alike leaves them with equal halves if and only if the head is empty, or
      it was made by the peer that made the node and not just behind a character of several bytes. */
  lemma SplitAgrees(s: string, peer: int, nodePeer: int, tailPeer: int, at: nat)
    requires at <= |s|
    ensures var cut := Past(s, 0, Begun(s, 0, at));
            && cut <= |s|
            && (Seeded(peer, s[..at]) == Seeded(nodePeer, s[..cut])
                && Seeded(tailPeer, s[at..]) == Seeded(tailPeer, s[cut..])
                <==> at == 0 || (peer == nodePeer && !Carries(s[at - 1])))
  {
    CutSurvives(s, 0, at);
    var cut := Past(s, 0, Begun(s, 0, at));
    if cut == at {
      SeedsAgree(peer, nodePeer, s[..at]);
    } else {
      SizesDiffer(peer, nodePeer, s[..at], s[..cut]);
    }
  }

  lemma SizesDiffer(p: int, q: int, a: string, b: string)
    requires |b| < |a|
    ensures Seeded(p, a) != Seeded(q, b)
  {
    SeededHas(p, a);
    SeededHas(q, b);
    assert OpId(|a|, p) in Seeded(p, a) && OpId(|a|, p) !in Seeded(q, b);
  }

  /** What follows where the copies differ.  A merge starts the joined text under whichever peer applies it, so two
      replicas hold `s` under two peers; the next edit, here a deletion, carries its whole copy over.  Where it
      arrives both copies are read, and nothing of the other one is gone. */
  method EditAfterMerge(p: int, q: int, s: string, at: nat, del: nat) returns (mine: TextCrdt, theirs: TextCrdt)
    requires p != q && s != ""
    ensures mine.Valid() && theirs.Valid() && Shown(mine.elems) == Edited(s, at, del, "")
    ensures Shown(theirs.elems) == if p < q then s + Shown(mine.elems) else Shown(mine.elems) + s
  {
    hide VisibleOf, Buckets, Seeded, Shown, Extends, Bytewise, Trimmed, Edited, Copy;
    var here := Seed(p, s);
    theirs := Seed(q, s);
    var delta;
    mine, delta := EditLeaf(here, p, at, del, "");
    Piled(here.elems, mine.elems, delta, p, q, s);
    var _ := theirs.ApplyDelta(delta);
  }

  lemma Piled(e: Elems, e': Elems, delta: seq<TextOp>, p: int, q: int, s: string)
    requires p != q && s != "" && e == Seeded(p, s) && Trimmed(e, e') && IsDelta(e', map[], delta) && Dated(e')
    ensures var theirs := ApplyOps(Seeded(q, s), delta);
            Shown(theirs) == if p < q then s + Shown(e') else Shown(e') + s
    ensures forall i :: 0 <= i < |delta| ==> Young(delta[i].id, delta[i].x)
  {
    hide Seeded, Shown, Extends, Trimmed, Left, Copy;
    var b := Seeded(q, s);
    SeededReads(p, s);
    CopyTrimmed(e, e', p, s);
    LeftWhole(q, s, 1);
    CopyReads(e', p, s);
    CopyReads(b, q, s);
    DeltaIsAll(e', delta);
    ApplyIsJoin(b, e', delta);
    OnlyAll(e', Ids(delta));
    CopyHas(e', p, s);
    CopyHas(b, q, s);
    Apart(e', b);
    var j := Join(b, e');
    if p < q { CopiesPile(j, p, e', q, b, s); } else { CopiesPile(j, q, b, p, e', s); }
    forall i | 0 <= i < |delta| ensures Young(delta[i].id, delta[i].x) { assert DatedAt(e', delta[i].id); }
  }

  lemma Apart(a: Elems, b: Elems)
    requires forall id :: id in a ==> id !in b
    ensures Join(a, b) == Join(b, a)
  {
  }
}
