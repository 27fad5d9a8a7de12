/** Reading a tree: live leaves in document order, siblings by sort key. */
module TreeRender {
  import opened Options
  import opened TextOrder
  import opened TreeHistory

  // ── Sort keys ──

  function CompareFrac(a: seq<int>, b: seq<int>): int {
    if a == [] && b == [] then 0
    else if a == [] then -1
    else if b == [] then 1
    else if a[0] != b[0] then (if a[0] < b[0] then -1 else 1)
    else CompareFrac(a[1..], b[1..])
  }

  function Compare(a: SortKey, b: SortKey): int {
    var c := CompareFrac(a.frac, b.frac);
    if c != 0 then c
    else if a.peer != b.peer then (if a.peer < b.peer then -1 else 1)
    else 0
  }

  predicate KeyLess(a: SortKey, b: SortKey) {
    Compare(a, b) < 0
  }

  lemma {:induction false} FracOrder(a: seq<int>, b: seq<int>)
    ensures CompareFrac(a, b) == -CompareFrac(b, a)
    ensures CompareFrac(a, b) == 0 <==> a == b
  {
    if a != [] && b != [] {
      FracOrder(a[1..], b[1..]);
      assert a == [a[0]] + a[1..] && b == [b[0]] + b[1..];
    }
  }

  lemma {:induction false} FracTransitive(a: seq<int>, b: seq<int>, c: seq<int>)
    requires CompareFrac(a, b) <= 0 && CompareFrac(b, c) <= 0
    ensures CompareFrac(a, c) <= 0
    ensures CompareFrac(a, c) == 0 ==> CompareFrac(a, b) == 0 && CompareFrac(b, c) == 0
  {
    if a != [] && b != [] && c != [] && a[0] == b[0] == c[0] {
      FracTransitive(a[1..], b[1..], c[1..]);
    }
  }

  /** Keys are totally ordered. */
  lemma KeyOrder(a: SortKey, b: SortKey, c: SortKey)
    ensures KeyLess(a, b) ==> !KeyLess(b, a)
    ensures !KeyLess(a, b) && !KeyLess(b, a) ==> a == b
    ensures !KeyLess(b, a) && !KeyLess(c, b) ==> !KeyLess(c, a)
  {
    FracOrder(a.frac, b.frac);
    FracOrder(b.frac, c.frac);
    FracOrder(a.frac, c.frac);
    if CompareFrac(a.frac, b.frac) <= 0 && CompareFrac(b.frac, c.frac) <= 0 {
      FracTransitive(a.frac, b.frac, c.frac);
    }
  }

  /** `a` goes in front of `b`: the smaller digit where they first differ, or a proper prefix, or the same digits and
      the smaller peer. */
  predicate Ahead(a: SortKey, b: SortKey) {
    || (exists i :: 0 <= i < |a.frac| && i < |b.frac| && a.frac[..i] == b.frac[..i] && a.frac[i] < b.frac[i])
    || (|a.frac| < |b.frac| && b.frac[..|a.frac|] == a.frac)
    || (a.frac == b.frac && a.peer < b.peer)
  }

  ghost predicate FracAhead(a: seq<int>, b: seq<int>) {
    || (exists i :: 0 <= i < |a| && i < |b| && a[..i] == b[..i] && a[i] < b[i])
    || (|a| < |b| && b[..|a|] == a)
  }

  lemma TakeOne(s: seq<int>, n: nat)
    requires n < |s|
    ensures s[..n + 1] == [s[0]] + s[1..][..n]
  {
  }

  lemma {:induction false} FracMeans(a: seq<int>, b: seq<int>)
    ensures CompareFrac(a, b) < 0 <==> FracAhead(a, b)
    decreases |a|
  {
    if a != [] && b != [] && a[0] == b[0] {
      var t, u := a[1..], b[1..];
      FracMeans(t, u);
      if FracAhead(t, u) {
        if |t| < |u| && u[..|t|] == t {
          TakeOne(b, |t|);
          assert a == [a[0]] + t;
        } else {
          var i :| 0 <= i < |t| && i < |u| && t[..i] == u[..i] && t[i] < u[i];
          TakeOne(a, i);
          TakeOne(b, i);
          assert a[i + 1] == t[i] && b[i + 1] == u[i];
        }
      }
      if FracAhead(a, b) {
        if |a| < |b| && b[..|a|] == a {
          assert u[..|t|] == b[..|a|][1..];
        } else {
          var i :| 0 <= i < |a| && i < |b| && a[..i] == b[..i] && a[i] < b[i];
          assert i > 0 && t[..i - 1] == a[..i][1..] && u[..i - 1] == b[..i][1..];
          assert t[i - 1] == a[i] && u[i - 1] == b[i];
        }
      }
    } else if a != [] && b != [] {
      assert a[..0] == b[..0];
      if FracAhead(a, b) { FracHead(a, b); }
    }
  }

  lemma FracHead(a: seq<int>, b: seq<int>)
    requires a != [] && b != [] && FracAhead(a, b)
    ensures a[0] <= b[0]
  {
    if |a| < |b| && b[..|a|] == a {
      assert b[..|a|][0] == b[0];
    } else {
      var i :| 0 <= i < |a| && i < |b| && a[..i] == b[..i] && a[i] < b[i];
      if i > 0 { assert a[..i][0] == a[0] && b[..i][0] == b[0]; }
    }
  }

  /** Comparing keys is comparing them digit by digit. */
  lemma KeyMeans(a: SortKey, b: SortKey)
    ensures KeyLess(a, b) <==> Ahead(a, b)
  {
    FracMeans(a.frac, b.frac);
    FracOrder(a.frac, b.frac);
    assert Ahead(a, b) <==> FracAhead(a.frac, b.frac) || (a.frac == b.frac && a.peer < b.peer);
  }

  // ── Document order ──

  ghost predicate LiveChild(s: Shape, p: OpId, n: OpId) {
    n in s && s[n].parent == Some(p) && !s[n].dead
  }

  ghost predicate Sorted(s: Shape, ks: seq<OpId>) {
    && (forall k :: k in ks ==> k in s)
    && forall i, j :: 0 <= i < j < |ks| ==> !KeyLess(s[ks[j]].sort, s[ks[i]].sort)
  }

  ghost predicate Arranged(s: Shape, p: OpId, ks: seq<OpId>) {
    NoDup(ks) && Sorted(s, ks) && forall n :: n in ks <==> LiveChild(s, p, n)
  }

  ghost predicate DistinctKeys(s: Shape) {
    forall p, m, n :: LiveChild(s, p, m) && LiveChild(s, p, n) && s[m].sort == s[n].sort ==> m == n
  }

  lemma {:induction false} SortedSame(s: Shape, p: OpId, ks: seq<OpId>, ls: seq<OpId>)
    requires NoDup(ks) && NoDup(ls) && Sorted(s, ks) && Sorted(s, ls) && forall n :: n in ks <==> n in ls
    requires DistinctKeys(s) && forall n :: n in ks ==> LiveChild(s, p, n)
    ensures ks == ls
    decreases |ks|
  {
    assert ls != [] ==> ls[0] in ls;
    if ks != [] {
      assert ks[0] in ls;
      var i :| 0 <= i < |ls| && ls[i] == ks[0];
      assert ls[0] in ks;
      var j :| 0 <= j < |ks| && ks[j] == ls[0];
      KeyOrder(s[ks[0]].sort, s[ls[0]].sort, s[ks[0]].sort);
      assert ks[0] == ls[0];
      forall n ensures n in ks[1..] <==> n in ls[1..] {
        if n in ks[1..] { assert n in ls; }
        if n in ls[1..] { assert n in ks; }
      }
      SortedSame(s, p, ks[1..], ls[1..]);
    }
  }

  ghost function Order(s: Shape, p: OpId): seq<OpId> {
    if exists ks :: Arranged(s, p, ks) then var ks :| Arranged(s, p, ks); ks else []
  }

  ghost function Younger(s: Shape, n: OpId): set<OpId> {
    set m | m in s && n.counter < m.counter
  }

  /** The live leaves under `n` in document order. */
  ghost function Reading(s: Shape, n: OpId): seq<OpId>
    decreases Younger(s, n), 1, 0
  {
    if n !in s || s[n].dead then []
    else if s[n].content.LeafNode? then [n]
    else ReadingAll(s, n, Order(s, n))
  }

  ghost function ReadingAll(s: Shape, p: OpId, ks: seq<OpId>): seq<OpId>
    decreases Younger(s, p), 0, |ks|
  {
    if ks == [] then []
    else if ks[0] in s && Before(p, ks[0]) then
      (assert ks[0] in Younger(s, p) && ks[0] !in Younger(s, ks[0]);
       assert Younger(s, ks[0]) < Younger(s, p);
       Reading(s, ks[0]) + ReadingAll(s, p, ks[1..]))
    else ReadingAll(s, p, ks[1..])
  }

  // ── What is shown, each leaf once ──

  /** `x` and everything between it and `n` is alive, and nothing between is a leaf. */
  ghost predicate Shown(s: Shape, x: OpId, n: OpId)
    decreases x.counter
  {
    && x in s && !s[x].dead
    && (x == n ||
        (s[x].parent.Some? && Before(s[x].parent.val, x) && Shown(s, s[x].parent.val, n)
         && !s[s[x].parent.val].content.LeafNode?))
  }

  /** Children are younger than their parents, and every family can be put in order. */
  ghost predicate Readable(s: Shape) {
    && (forall n :: n in s && s[n].parent.Some? ==> Before(s[n].parent.val, n))
    && (forall p :: Arrangeable(s, p))
  }

  ghost predicate Arrangeable(s: Shape, p: OpId) {
    exists ks :: Arranged(s, p, ks)
  }

  lemma {:induction false} ShownUp(s: Shape, x: OpId, k: OpId, p: OpId)
    requires Shown(s, x, k) && LiveChild(s, p, k) && Before(p, k) && p in s && !s[p].dead && !s[p].content.LeafNode?
    ensures Shown(s, x, p)
    decreases x.counter
  {
    if x != k { ShownUp(s, s[x].parent.val, k, p); }
  }

  lemma {:induction false} ShownOlder(s: Shape, x: OpId, n: OpId)
    requires Shown(s, x, n)
    ensures x == n || Before(n, x)
    decreases x.counter
  {
    if x != n { ShownOlder(s, s[x].parent.val, n); }
  }

  /** Shown below an element means shown below exactly one of its live children. */
  lemma {:induction false} ShownVia(s: Shape, x: OpId, p: OpId) returns (k: OpId)
    requires Readable(s) && Shown(s, x, p) && x != p
    ensures LiveChild(s, p, k) && Shown(s, x, k)
    decreases x.counter
  {
    if s[x].parent.val == p {
      k := x;
    } else {
      k := ShownVia(s, s[x].parent.val, p);
    }
  }

  lemma {:induction false} ShownOnce(s: Shape, x: OpId, p: OpId, k: OpId, l: OpId)
    requires Shown(s, x, k) && Shown(s, x, l) && LiveChild(s, p, k) && LiveChild(s, p, l)
    requires Before(p, k) && Before(p, l)
    ensures k == l
    decreases x.counter
  {
    if x != k && x != l {
      ShownOnce(s, s[x].parent.val, p, k, l);
    } else if x == k && x != l {
      ShownOlder(s, p, l);
    } else if x == l && x != k {
      ShownOlder(s, p, k);
    }
  }

  /** A reading shows exactly the leaves whose whole ancestry is alive, each of them once. */
  lemma {:induction false} ReadingShows(s: Shape, n: OpId)
    requires Readable(s)
    ensures NoDup(Reading(s, n))
    ensures forall x :: x in Reading(s, n) <==> x in s && s[x].content.LeafNode? && Shown(s, x, n)
    decreases Younger(s, n), 1, 0
  {
    forall x | Shown(s, x, n) ensures n in s && !s[n].dead { AnchorShown(s, x, n); }
    if n in s && !s[n].dead {
      if s[n].content.LeafNode? {
        forall x | x in s && Shown(s, x, n) ensures x == n {
          if x != n { var k := ShownVia(s, x, n); NoneBelowLeaf(s, x, n); }
        }
      } else {
        assert Arrangeable(s, n);
        assert Arranged(s, n, Order(s, n));
        ReadingAllShows(s, n, Order(s, n));
        forall x | x in s && s[x].content.LeafNode? && Shown(s, x, n) ensures x in Reading(s, n) {
          var k := ShownVia(s, x, n);
          assert k in Order(s, n);
        }
      }
    }
  }

  lemma {:induction false} AnchorShown(s: Shape, x: OpId, n: OpId)
    requires Shown(s, x, n)
    ensures n in s && !s[n].dead
    decreases x.counter
  {
    if x != n { AnchorShown(s, s[x].parent.val, n); }
  }

  lemma {:induction false} NoneBelowLeaf(s: Shape, x: OpId, n: OpId)
    requires Shown(s, x, n) && x != n
    ensures n in s && !s[n].content.LeafNode?
    decreases x.counter
  {
    if s[x].parent.val != n { NoneBelowLeaf(s, s[x].parent.val, n); }
  }

  lemma {:induction false} ReadingAllShows(s: Shape, p: OpId, ks: seq<OpId>)
    requires Readable(s) && NoDup(ks) && p in s && !s[p].dead && !s[p].content.LeafNode?
    requires forall k :: k in ks ==> LiveChild(s, p, k)
    ensures NoDup(ReadingAll(s, p, ks))
    ensures forall x :: x in ReadingAll(s, p, ks) <==>
              x in s && s[x].content.LeafNode? && Shown(s, x, p) && exists k :: k in ks && Shown(s, x, k)
    decreases Younger(s, p), 0, |ks|
  {
    if ks != [] {
      var k := ks[0];
      assert LiveChild(s, p, k) && Before(p, k);
      assert k in Younger(s, p) && k !in Younger(s, k);
      assert Younger(s, k) < Younger(s, p);
      ReadingShows(s, k);
      ReadingAllShows(s, p, ks[1..]);
      forall x | x in Reading(s, k) ensures Shown(s, x, p) && x !in ReadingAll(s, p, ks[1..]) {
        OnlyVia(s, x, p, k, ks);
      }
      NoDupConcat(Reading(s, k), ReadingAll(s, p, ks[1..]));
      forall x
        ensures (exists l :: l in ks && Shown(s, x, l))
           <==> Shown(s, x, k) || exists l :: l in ks[1..] && Shown(s, x, l)
      {
        assert ks == [k] + ks[1..];
      }
      assert ReadingAll(s, p, ks) == Reading(s, k) + ReadingAll(s, p, ks[1..]);
    }
  }

  lemma OnlyVia(s: Shape, x: OpId, p: OpId, k: OpId, ks: seq<OpId>)
    requires Readable(s) && NoDup(ks) && p in s && !s[p].dead && !s[p].content.LeafNode?
    requires forall l :: l in ks ==> LiveChild(s, p, l)
    requires ks != [] && k == ks[0] && Shown(s, x, k)
    ensures Shown(s, x, p) && forall l :: l in ks[1..] ==> !Shown(s, x, l)
  {
    ShownUp(s, x, k, p);
    forall l | l in ks[1..] ensures !Shown(s, x, l) {
      var i :| 0 <= i < |ks[1..]| && ks[1..][i] == l;
      assert ks[i + 1] == l;
      if Shown(s, x, l) { ShownOnce(s, x, p, k, l); }
    }
  }

  // ── Which of two siblings is read first ──

  lemma {:induction false} ShownTrans(s: Shape, x: OpId, a: OpId, b: OpId)
    requires Shown(s, x, a) && Shown(s, a, b)
    ensures Shown(s, x, b)
    decreases x.counter
  {
    if x != a { ShownTrans(s, s[x].parent.val, a, b); }
  }

  /** What is shown below `r` and shows `x` is shown below the child of `r` that shows `x`. */
  lemma ChildOver(s: Shape, r: OpId, c: OpId, p: OpId, x: OpId)
    requires Readable(s) && LiveChild(s, r, c) && Shown(s, x, c) && Shown(s, x, p) && Shown(s, p, r) && p != r
    ensures Shown(s, p, c)
  {
    var d := ShownVia(s, p, r);
    ShownTrans(s, x, p, d);
    ShownOnce(s, x, r, c, d);
  }

  /** Two live siblings under `p`, the first with the key in front, and a leaf shown under each. */
  ghost predicate Abreast(s: Shape, p: OpId, m: OpId, n: OpId, x: OpId, y: OpId) {
    && p in s && !s[p].dead && !s[p].content.LeafNode?
    && LiveChild(s, p, m) && LiveChild(s, p, n) && Ahead(s[m].sort, s[n].sort)
    && Shown(s, x, m) && Shown(s, y, n)
  }

  lemma AbreastBelow(s: Shape, p: OpId, m: OpId, n: OpId, x: OpId, y: OpId)
    requires Readable(s) && Abreast(s, p, m, n, x, y)
    ensures Shown(s, x, p) && Shown(s, y, p) && !Shown(s, x, n) && !Shown(s, y, m)
  {
    KeyMeans(s[m].sort, s[n].sort);
    KeyOrder(s[m].sort, s[n].sort, s[m].sort);
    ShownUp(s, x, m, p);
    ShownUp(s, y, n, p);
    if Shown(s, x, n) { ShownOnce(s, x, p, m, n); }
    if Shown(s, y, m) { ShownOnce(s, y, p, m, n); }
  }

  lemma {:induction false} ReadingOrdered(s: Shape, r: OpId, p: OpId, m: OpId, n: OpId, x: OpId, y: OpId)
    requires Readable(s) && Abreast(s, p, m, n, x, y) && Shown(s, p, r)
    ensures Precedes(Reading(s, r), x, y)
    decreases Younger(s, r), 1, 0
  {
    AnchorShown(s, p, r);
    if p != r { NoneBelowLeaf(s, p, r); }
    assert Arrangeable(s, r);
    assert Arranged(s, r, Order(s, r));
    ReadingAllOrdered(s, r, Order(s, r), p, m, n, x, y);
  }

  lemma {:induction false} ReadingAllOrdered(
      s: Shape, r: OpId, ks: seq<OpId>, p: OpId, m: OpId, n: OpId, x: OpId, y: OpId)
    requires Readable(s) && Abreast(s, p, m, n, x, y) && Shown(s, p, r)
    requires NoDup(ks) && Sorted(s, ks) && forall k :: k in ks ==> LiveChild(s, r, k)
    requires r in s && !s[r].dead && !s[r].content.LeafNode?
    ensures Precedes(ReadingAll(s, r, ks), x, y)
    decreases Younger(s, r), 0, |ks|
  {
    hide Reading, Shown, Abreast, LiveChild;
    if ks != [] {
      var k, rest := ks[0], ks[1..];
      assert k in ks;
      LiveYounger(s, r, k);
      SortedRest(s, ks);
      ReadingAllOrdered(s, r, rest, p, m, n, x, y);
      OneOrdered(s, r, k, p, m, n, x, y);
      NoneBehind(s, r, ks, p, m, n, x, y);
      PrecedesJoin(Reading(s, k), ReadingAll(s, r, rest), x, y);
    }
  }

  lemma LiveYounger(s: Shape, r: OpId, k: OpId)
    requires Readable(s) && LiveChild(s, r, k)
    ensures k in s && Before(r, k) && Younger(s, k) < Younger(s, r)
  {
    assert k in Younger(s, r) && k !in Younger(s, k);
  }

  lemma SortedRest(s: Shape, ks: seq<OpId>)
    requires ks != [] && Sorted(s, ks) && NoDup(ks)
    ensures Sorted(s, ks[1..]) && NoDup(ks[1..]) && forall k :: k in ks[1..] ==> k in ks
  {
  }

  lemma {:induction false} OneOrdered(s: Shape, r: OpId, k: OpId, p: OpId, m: OpId, n: OpId, x: OpId, y: OpId)
    requires Readable(s) && Abreast(s, p, m, n, x, y) && Shown(s, p, r) && LiveChild(s, r, k)
    ensures Precedes(Reading(s, k), x, y)
    decreases Younger(s, r), 0, 0
  {
    hide Reading;
    LiveYounger(s, r, k);
    ReadingShows(s, k);
    if x in Reading(s, k) && y in Reading(s, k) {
      AbreastBelow(s, p, m, n, x, y);
      if r == p {
        ShownOnce(s, x, p, m, k);
      } else {
        ChildOver(s, r, k, p, x);
        ReadingOrdered(s, k, p, m, n, x, y);
      }
    } else {
      PrecedesAbsent(Reading(s, k), x, y);
    }
  }

  lemma NoneBehind(s: Shape, r: OpId, ks: seq<OpId>, p: OpId, m: OpId, n: OpId, x: OpId, y: OpId)
    requires Readable(s) && Abreast(s, p, m, n, x, y) && Shown(s, p, r)
    requires NoDup(ks) && Sorted(s, ks) && (forall k :: k in ks ==> LiveChild(s, r, k)) && ks != []
    requires r in s && !s[r].dead && !s[r].content.LeafNode?
    ensures y in Reading(s, ks[0]) ==> x !in ReadingAll(s, r, ks[1..])
  {
    hide Reading, ReadingAll;
    var k := ks[0];
    SortedRest(s, ks);
    ReadingShows(s, k);
    ReadingAllShows(s, r, ks[1..]);
    if y !in Reading(s, k) || x !in ReadingAll(s, r, ks[1..]) { return; }
    assert k in ks;
    var l :| l in ks[1..] && Shown(s, x, l);
    var i :| 0 <= i < |ks[1..]| && ks[1..][i] == l;
    assert ks[i + 1] == l && LiveChild(s, r, l);
    AbreastBelow(s, p, m, n, x, y);
    if r == p {
      ShownOnce(s, x, p, m, l);
      ShownOnce(s, y, p, n, k);
      KeyMeans(s[m].sort, s[n].sort);
    } else {
      ChildOver(s, r, l, p, x);
      ChildOver(s, r, k, p, y);
      ShownOnce(s, p, r, k, l);
    }
  }

  /** Of two live siblings under an element that is shown itself, every leaf under the one whose key is in front is
      read before every leaf under the other. */
  lemma FrontFirst(s: Shape, p: OpId, m: OpId, n: OpId, x: OpId, y: OpId)
    requires Readable(s) && Shown(s, p, TREE_ROOT) && Abreast(s, p, m, n, x, y)
    requires s[x].content.LeafNode? && s[y].content.LeafNode?
    ensures x in Reading(s, TREE_ROOT) && y in Reading(s, TREE_ROOT) && Precedes(Reading(s, TREE_ROOT), x, y)
  {
    ReadingOrdered(s, TREE_ROOT, p, m, n, x, y);
    ReadingShows(s, TREE_ROOT);
    AbreastBelow(s, p, m, n, x, y);
    ShownTrans(s, x, p, TREE_ROOT);
    ShownTrans(s, y, p, TREE_ROOT);
  }

  // ── The renderer ──

  /** What a replica's tree gives the renderer. */
  ghost predicate Rendable(d: Doc) {
    && (forall n :: n in d.nodes && d.nodes[n].parent.Some? ==> Before(d.nodes[n].parent.val, n) && n != TREE_ROOT)
    && (forall p :: KidsOk(d, p))
  }

  function InsertKid(d: Doc, ks: seq<OpId>, k: OpId): (r: seq<OpId>)
    requires k in d.nodes && forall x :: x in ks ==> x in d.nodes
    ensures forall x :: x in r <==> x in ks || x == k
  {
    if ks == [] || KeyLess(d.nodes[k].sort, d.nodes[ks[0]].sort) then [k] + ks
    else
      var r := [ks[0]] + InsertKid(d, ks[1..], k);
      assert ks == [ks[0]] + ks[1..];
      r
  }

  lemma {:induction false} InsertKidKeeps(d: Doc, ks: seq<OpId>, k: OpId)
    requires Rendable(d) && k in d.nodes && k != TREE_ROOT && k !in ks && NoDup(ks) && Sorted(ShapeOf(d), ks)
    requires forall x :: x in ks ==> x in d.nodes && x != TREE_ROOT
    ensures NoDup(InsertKid(d, ks, k)) && Sorted(ShapeOf(d), InsertKid(d, ks, k))
    decreases |ks|
  {
    var s := ShapeOf(d);
    if ks == [] {
    } else if KeyLess(d.nodes[k].sort, d.nodes[ks[0]].sort) {
      forall j | 0 <= j < |ks| ensures !KeyLess(s[ks[j]].sort, s[k].sort) {
        KeyOrder(s[k].sort, s[ks[0]].sort, s[ks[j]].sort);
        KeyOrder(s[ks[0]].sort, s[ks[0]].sort, s[ks[0]].sort);
      }
    } else {
      InsertKidKeeps(d, ks[1..], k);
      var t := InsertKid(d, ks[1..], k);
      forall j | 0 <= j < |t| ensures ks[0] != t[j] && !KeyLess(s[t[j]].sort, s[ks[0]].sort) {
        assert t[j] in t;
        if t[j] in ks[1..] {
          var i :| 0 <= i < |ks[1..]| && ks[1..][i] == t[j];
          assert ks[i + 1] == t[j];
        }
      }
    }
  }

  function SortKids(d: Doc, all: seq<OpId>): (r: seq<OpId>)
    ensures forall x :: x in r <==> x in all && x in d.nodes && d.nodes[x].tomb.None?
  {
    if all == [] then []
    else
      var c := all[|all| - 1];
      var r := SortKids(d, all[..|all| - 1]);
      assert all == all[..|all| - 1] + [c];
      if c in d.nodes && d.nodes[c].tomb.None? then InsertKid(d, r, c) else r
  }

  lemma {:induction false} SortKidsSorts(d: Doc, all: seq<OpId>)
    requires Rendable(d) && NoDup(all) && TREE_ROOT !in all
    ensures NoDup(SortKids(d, all)) && Sorted(ShapeOf(d), SortKids(d, all))
    decreases |all|
  {
    if all != [] {
      var pre, c := all[..|all| - 1], all[|all| - 1];
      SortKidsSorts(d, pre);
      if c in d.nodes && d.nodes[c].tomb.None? {
        assert c !in SortKids(d, pre);
        InsertKidKeeps(d, SortKids(d, pre), c);
      }
    }
  }

  lemma KidsArranged(d: Doc, p: OpId)
    requires Rendable(d)
    ensures Arranged(ShapeOf(d), p, SortKids(d, Attached(d, p)))
  {
    var all := Attached(d, p);
    assert KidsOk(d, p);
    SortKidsSorts(d, all);
    forall x ensures x in SortKids(d, all) <==> LiveChild(ShapeOf(d), p, x) { }
  }

  lemma SortNone(d: Doc)
    ensures SortKids(d, []) == []
  {
  }

  lemma SortSnoc(d: Doc, ks: seq<OpId>, c: OpId)
    ensures SortKids(d, ks + [c])
         == if c in d.nodes && d.nodes[c].tomb.None? then InsertKid(d, SortKids(d, ks), c) else SortKids(d, ks)
  {
    hide InsertKid;
    assert (ks + [c])[..|ks|] == ks;
  }

  /** The live children of `p`, sorted. */
  method SortedKids(d: Doc, p: OpId) returns (ks: seq<OpId>)
    requires Rendable(d)
    ensures Arranged(ShapeOf(d), p, ks)
  {
    hide SortKids, InsertKid, Rendable, Arranged;
    var all := Attached(d, p);
    ks := [];
    SortNone(d);
    for i := 0 to |all|
      invariant ks == SortKids(d, all[..i])
    {
      SortSnoc(d, all[..i], all[i]);
      assert all[..i + 1] == all[..i] + [all[i]];
      if all[i] in d.nodes && d.nodes[all[i]].tomb.None? {
        ks := InsertKid(d, ks, all[i]);
      }
    }
    assert all[..|all|] == all;
    KidsArranged(d, p);
  }

  lemma OrderIs(s: Shape, p: OpId, ks: seq<OpId>)
    requires Arranged(s, p, ks) && DistinctKeys(s)
    ensures Order(s, p) == ks
  {
    SortedSame(s, p, ks, Order(s, p));
  }

  /** A child in order is younger, so fewer nodes are younger than it. */
  lemma KidYounger(d: Doc, p: OpId, ks: seq<OpId>, i: nat)
    requires Rendable(d) && Arranged(ShapeOf(d), p, ks) && i < |ks|
    ensures ks[i] in ShapeOf(d) && Before(p, ks[i]) && Younger(ShapeOf(d), ks[i]) < Younger(ShapeOf(d), p)
  {
    var s := ShapeOf(d);
    assert ks[i] in ks && LiveChild(s, p, ks[i]);
    assert ks[i] in Younger(s, p) && ks[i] !in Younger(s, ks[i]);
  }

  lemma ReadingNext(s: Shape, p: OpId, ks: seq<OpId>, i: nat)
    requires i < |ks| && ks[i] in s && Before(p, ks[i]) && Younger(s, ks[i]) < Younger(s, p)
    ensures ReadingAll(s, p, ks[i..]) == Reading(s, ks[i]) + ReadingAll(s, p, ks[i + 1..])
  {
    hide Reading;
    assert ks[i..][1..] == ks[i + 1..];
  }

  method RenderNode(d: Doc, id: OpId) returns (out: seq<OpId>)
    requires Rendable(d)
    ensures DistinctKeys(ShapeOf(d)) ==> out == Reading(ShapeOf(d), id)
    decreases Younger(ShapeOf(d), id)
  {
    hide Rendable, DistinctKeys, Arranged, ReadingAll, Order, Younger, Before;
    if id !in d.nodes || d.nodes[id].tomb.Some? { return []; }
    if d.nodes[id].content.LeafNode? { return [id]; }
    ghost var s := ShapeOf(d);
    var ks := SortedKids(d, id);
    out := [];
    if DistinctKeys(s) { OrderIs(s, id, ks); }
    hide Reading;
    assert [] + ReadingAll(s, id, ks[0..]) == ReadingAll(s, id, ks) by { assert ks[0..] == ks; }
    for i := 0 to |ks|
      invariant DistinctKeys(s) ==> out + ReadingAll(s, id, ks[i..]) == ReadingAll(s, id, ks)
    {
      KidYounger(d, id, ks, i);
      ReadingNext(s, id, ks, i);
      var one := RenderNode(d, ks[i]);
      assert out + (one + ReadingAll(s, id, ks[i + 1..])) == out + one + ReadingAll(s, id, ks[i + 1..]);
      out := out + one;
    }
    ReadingNone(s, id, ks);
  }

  lemma ReadingNone(s: Shape, p: OpId, ks: seq<OpId>)
    ensures ReadingAll(s, p, ks[|ks|..]) == []
  {
  }

  /** Every tree the operations can make can be rendered. */
  lemma DocReadable(a: History, d: Doc)
    requires HistoryOk(a) && Closed(a) && DocOk(a, d)
    ensures Rendable(d) && Readable(ShapeOf(d))
  {
    var s := ShapeOf(d);
    forall n | n in d.nodes && d.nodes[n].parent.Some? ensures Before(d.nodes[n].parent.val, n) && n != TREE_ROOT {
      assert NodeOk(a, n, d.nodes[n]);
      ParentBefore(a, n);
    }
    forall n | n in s && s[n].parent.Some? ensures Before(s[n].parent.val, n) {
      assert n in d.nodes && s[n].parent == d.nodes[n].parent;
    }
    forall p ensures Arrangeable(s, p) { KidsArranged(d, p); }
  }
}
