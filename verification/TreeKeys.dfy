/** Fractional sort keys: what a key picked between two siblings promises, and where it does not. */
module TreeKeys {
  import opened Options
  import opened TextOrder
  import opened TreeHistory
  import opened TreeRender
  import opened TreeSteps

  const MIDDLE: int := 128

  /** Integer division as the machine does it, towards zero. */
  function Halved(n: int): int {
    if n >= 0 then n / 2 else -(-n / 2)
  }

  function Least(a: nat, b: nat): nat {
    if a < b then a else b
  }

  /** There is a digit to spare at `i`. */
  predicate Gap(lo: seq<int>, hi: seq<int>, i: nat)
    requires i < |lo| && i < |hi|
  {
    hi[i] - lo[i] > 1
  }

  /** The first place from `i` on where there is. */
  function FirstGap(lo: seq<int>, hi: seq<int>, i: nat): (r: Option<nat>)
    ensures r.Some? ==> i <= r.val < Least(|lo|, |hi|) && Gap(lo, hi, r.val)
    ensures forall k :: i <= k < (if r.Some? then r.val else Least(|lo|, |hi|)) ==> !Gap(lo, hi, k)
    decreases |lo| - i
  {
    if i >= Least(|lo|, |hi|) then None else if Gap(lo, hi, i) then Some(i) else FirstGap(lo, hi, i + 1)
  }

  /** An empty key, which no replica mints, counts as beginning with 0. */
  function Front(key: seq<int>): int {
    if key == [] then 0 else key[0]
  }

  /** The digits for a place behind `lo` and in front of `hi`. */
  function KeyBetween(lo: Option<seq<int>>, hi: Option<seq<int>>): (r: seq<int>)
    ensures r != []
  {
    if lo.None? && hi.None? then [MIDDLE]
    else if lo.None? then (if Front(hi.val) > 1 then [Front(hi.val) / 2] else hi.val + [MIDDLE])
    else if hi.None? then lo.val + [MIDDLE]
    else
      var i := FirstGap(lo.val, hi.val, 0);
      if i.Some? then lo.val[..i.val] + [Halved(lo.val[i.val] + hi.val[i.val])] else lo.val + [MIDDLE]
  }

  method TreeKeyBetween(lo: Option<seq<int>>, hi: Option<seq<int>>) returns (key: seq<int>)
    ensures key == KeyBetween(lo, hi)
  {
    if lo.None? && hi.None? { return [MIDDLE]; }
    if lo.None? {
      if Front(hi.val) > 1 { return [Front(hi.val) / 2]; }
      return hi.val + [MIDDLE];
    }
    if hi.None? { return lo.val + [MIDDLE]; }
    var a, b := lo.val, hi.val;
    for i := 0 to Least(|a|, |b|)
      invariant FirstGap(a, b, i) == FirstGap(a, b, 0)
    {
      if a[i] < b[i] && b[i] - a[i] > 1 {
        key := a[..i + 1];
        key := key[i := Halved(a[i] + b[i])];
        return;
      }
    }
    key := a + [MIDDLE];
  }

  /** Digits stay between 1 and 128. */
  predicate Digits(key: seq<int>) {
    forall i :: 0 <= i < |key| ==> 1 <= key[i] <= MIDDLE
  }

  lemma DigitsStay(lo: Option<seq<int>>, hi: Option<seq<int>>)
    requires (lo.Some? ==> Digits(lo.val)) && (hi.Some? ==> Digits(hi.val))
    ensures Digits(KeyBetween(lo, hi))
  {
  }

  // ── Where the key goes ──

  function Frac(key: Option<SortKey>): Option<seq<int>> {
    if key.Some? then Some(key.val.frac) else None
  }

  /** There is room between the two keys: the second starts beyond 1 if it is to be the first child; otherwise the
      digits differ, and where the second's are the first's carried on, they are carried on past 128. */
  predicate Roomy(lo: Option<SortKey>, hi: SortKey, peer: int) {
    if lo.None? then Front(hi.frac) > 1
    else
      var a, b := lo.val.frac, hi.frac;
      a <= b ==>
        && |a| < |b| && b[|a|] >= MIDDLE
        && (b[|a|] == MIDDLE ==> |b| > |a| + 1 || peer < hi.peer)
  }

  lemma MidPlaces(a: seq<int>, i: nat, mid: int)
    requires i < |a| && a[i] < mid
    ensures FracAhead(a, a[..i] + [mid])
  {
    var k := a[..i] + [mid];
    assert k[..i] == a[..i] && k[i] == mid;
  }

  lemma LongerAhead(a: seq<int>)
    ensures FracAhead(a, a + [MIDDLE])
  {
    assert (a + [MIDDLE])[..|a|] == a;
  }

  lemma HalfBetween(a: int, b: int)
    requires b - a > 1
    ensures a < Halved(a + b) < b
  {
  }

  /** Whatever comes behind, the new key is behind `lo`. */
  lemma BehindLeft(lo: SortKey, hi: Option<seq<int>>, peer: int)
    ensures Ahead(lo, SortKey(KeyBetween(Some(lo.frac), hi), peer))
  {
    var i := if hi.Some? then FirstGap(lo.frac, hi.val, 0) else None;
    if i.Some? {
      HalfBetween(lo.frac[i.val], hi.val[i.val]);
      MidPlaces(lo.frac, i.val, Halved(lo.frac[i.val] + hi.val[i.val]));
    } else {
      LongerAhead(lo.frac);
    }
  }

  /** `a` first differs from `b` at `j`, and there is the smaller. */
  predicate Under(a: seq<int>, b: seq<int>, j: nat) {
    j < |a| && j < |b| && a[..j] == b[..j] && a[j] < b[j]
  }

  lemma UnderStays(a: seq<int>, b: seq<int>, j: nat, k: seq<int>)
    requires Under(a, b, j) && a[..j + 1] <= k
    ensures FracAhead(k, b)
  {
    assert k[..j] == a[..j + 1][..j] == a[..j] && k[j] == a[..j + 1][j] == a[j];
  }

  lemma NoGapInCommon(a: seq<int>, b: seq<int>, j: nat)
    requires j <= |a| && j <= |b| && a[..j] == b[..j]
    ensures forall i :: 0 <= i < j ==> !Gap(a, b, i)
  {
    forall i | 0 <= i < j ensures !Gap(a, b, i) { assert a[..j][i] == b[..j][i]; }
  }

  lemma GapAbove(a: seq<int>, b: seq<int>, j: nat)
    requires Under(a, b, j)
    ensures FirstGap(a, b, 0).Some? ==> j <= FirstGap(a, b, 0).val
  {
    NoGapInCommon(a, b, j);
  }

  /** Where the digits differ within both keys there is room, whatever the digits. */
  lemma InFrontOfUnder(a: seq<int>, b: seq<int>, j: nat)
    requires Under(a, b, j)
    ensures FracAhead(KeyBetween(Some(a), Some(b)), b)
  {
    var i, k := FirstGap(a, b, 0), KeyBetween(Some(a), Some(b));
    GapAbove(a, b, j);
    if i.Some? && i.val == j {
      HalfBetween(a[j], b[j]);
      assert k[..j] == a[..j] && k[j] < b[j];
    } else {
      if i.Some? { assert a[..i.val][..j + 1] == a[..j + 1]; }
      UnderStays(a, b, j, k);
    }
  }

  /** Where one key is the other carried on, it hangs on the first digit of that. */
  lemma InFrontOfLonger(a: seq<int>, b: seq<int>)
    requires a < b
    ensures KeyBetween(Some(a), Some(b)) == a + [MIDDLE]
    ensures FracAhead(a + [MIDDLE], b) <==> b[|a|] > MIDDLE || (b[|a|] == MIDDLE && |b| > |a| + 1)
  {
    var k := a + [MIDDLE];
    NoGapInCommon(a, b, |a|);
    assert k[..|a|] == a == b[..|a|];
    assert b[..|k|] == b[..|a|] + [b[|a|]];
    assert forall i :: 0 <= i < |a| ==> k[i] == b[i];
  }

  lemma NeverUnderItself(a: seq<int>)
    ensures !FracAhead(a + [MIDDLE], a)
  {
    FracMeans(a + [MIDDLE], a);
    FracMeans(a, a + [MIDDLE]);
    FracOrder(a, a + [MIDDLE]);
    LongerAhead(a);
  }

  lemma AheadCases(a: SortKey, b: SortKey) returns (j: nat)
    requires Ahead(a, b)
    ensures Under(a.frac, b.frac, j) || a.frac <= b.frac
  {
    if i :| 0 <= i < |a.frac| && i < |b.frac| && a.frac[..i] == b.frac[..i] && a.frac[i] < b.frac[i] {
      j := i;
    } else {
      j := 0;
    }
  }

  lemma NotBoth(a: seq<int>, b: seq<int>, j: nat)
    requires Under(a, b, j)
    ensures !(a <= b)
  {
  }

  /** A key picked between two siblings in order is behind the first, always, and in front of the second if and only
      if there is room. */
  lemma BetweenIffRoomy(lo: Option<SortKey>, hi: SortKey, peer: int)
    requires lo.Some? ==> Ahead(lo.val, hi)
    ensures var key := SortKey(KeyBetween(Frac(lo), Some(hi.frac)), peer);
            && (lo.Some? ==> Ahead(lo.val, key))
            && (Ahead(key, hi) <==> Roomy(lo, hi, peer))
  {
    var b := hi.frac;
    var key := SortKey(KeyBetween(Frac(lo), Some(b)), peer);
    if lo.None? {
      if Front(b) > 1 {
        assert key.frac[..0] == b[..0];
      } else {
        NeverUnderItself(b);
        assert key.frac != b;
      }
    } else {
      var a := lo.val.frac;
      BehindLeft(lo.val, Some(b), peer);
      var j := AheadCases(lo.val, hi);
      if Under(a, b, j) {
        InFrontOfUnder(a, b, j);
        NotBoth(a, b, j);
      } else if a == b {
        NeverUnderItself(a);
        NoGapInCommon(a, b, |a|);
        assert key.frac == a + [MIDDLE] && key.frac != b;
      } else {
        InFrontOfLonger(a, b);
        assert key.frac == b <==> b[|a|] == MIDDLE && |b| == |a| + 1;
      }
    }
  }

  // ── Which sibling counts as the next ──

  predicate Standing(d: Doc, n: OpId) {
    n in d.nodes && d.nodes[n].tomb.None?
  }

  /** The first live child listed behind `after`. The list is in the order the children were attached, not in the
      order they are read. */
  function RightOf(d: Doc, kids: seq<OpId>, after: Option<OpId>): (r: Option<OpId>)
    ensures r.Some? ==> r.val in kids && Standing(d, r.val)
  {
    if kids == [] then None
    else if !Standing(d, kids[0]) then RightOf(d, kids[1..], after)
    else if after.None? then Some(kids[0])
    else RightOf(d, kids[1..], if kids[0] == after.val then None else after)
  }

  /** `r` is the first live one of `kids` from place `i` on, if there is any. */
  ghost predicate FirstFrom(d: Doc, kids: seq<OpId>, i: nat, r: Option<OpId>) {
    if r.Some? then
      exists j :: i <= j < |kids| && kids[j] == r.val && Standing(d, r.val)
                  && forall k :: i <= k < j ==> !Standing(d, kids[k])
    else forall k :: i <= k < |kids| ==> !Standing(d, kids[k])
  }

  lemma FirstFromTail(d: Doc, kids: seq<OpId>, i: nat, r: Option<OpId>)
    requires kids != [] && FirstFrom(d, kids[1..], i, r) && (i == 0 ==> !Standing(d, kids[0]))
    ensures FirstFrom(d, kids, i + 1, r) && (i == 0 ==> FirstFrom(d, kids, 0, r))
  {
    if r.Some? {
      var j :| i <= j < |kids[1..]| && kids[1..][j] == r.val && forall k :: i <= k < j ==> !Standing(d, kids[1..][k]);
      assert kids[j + 1] == r.val;
      forall k | i + 1 <= k < j + 1 ensures !Standing(d, kids[k]) { assert kids[k] == kids[1..][k - 1]; }
    } else {
      forall k | i + 1 <= k < |kids| ensures !Standing(d, kids[k]) { assert kids[k] == kids[1..][k - 1]; }
    }
  }

  lemma {:induction false} FirstIsRight(d: Doc, kids: seq<OpId>)
    ensures FirstFrom(d, kids, 0, RightOf(d, kids, None))
  {
    if kids != [] && !Standing(d, kids[0]) {
      FirstIsRight(d, kids[1..]);
      FirstFromTail(d, kids, 0, RightOf(d, kids, None));
    }
  }

  lemma NextFrom(d: Doc, kids: seq<OpId>, r: Option<OpId>)
    requires kids != [] && FirstFrom(d, kids[1..], 0, r)
    ensures FirstFrom(d, kids, 1, r)
  {
    if r.Some? {
      var j :| 0 <= j < |kids[1..]| && kids[1..][j] == r.val && forall k :: 0 <= k < j ==> !Standing(d, kids[1..][k]);
      assert kids[j + 1] == r.val;
      forall k | 1 <= k < j + 1 ensures !Standing(d, kids[k]) { assert kids[k] == kids[1..][k - 1]; }
    } else {
      forall k | 1 <= k < |kids| ensures !Standing(d, kids[k]) { assert kids[k] == kids[1..][k - 1]; }
    }
  }

  /** Behind a live child it is the next live one in the order of attachment; behind a dead or foreign one, none. */
  lemma {:induction false} RightMeans(d: Doc, kids: seq<OpId>, after: OpId)
    requires NoDup(kids)
    ensures forall i :: 0 <= i < |kids| && kids[i] == after && Standing(d, after) ==>
              FirstFrom(d, kids, i + 1, RightOf(d, kids, Some(after)))
    ensures after !in kids || !Standing(d, after) ==> RightOf(d, kids, Some(after)) == None
    decreases |kids|
  {
    if kids != [] {
      RightMeans(d, kids[1..], after);
      FirstIsRight(d, kids[1..]);
      forall i | 0 <= i < |kids| && kids[i] == after && Standing(d, after)
        ensures FirstFrom(d, kids, i + 1, RightOf(d, kids, Some(after)))
      {
        if i == 0 {
          NextFrom(d, kids, RightOf(d, kids[1..], None));
        } else {
          assert kids[1..][i - 1] == after;
          FirstFromTail(d, kids, i, RightOf(d, kids[1..], Some(after)));
        }
      }
    }
  }

  method FindRightSibling(d: Doc, parent: OpId, after: Option<OpId>) returns (r: Option<OpId>)
    ensures r == RightOf(d, Attached(d, parent), after)
  {
    if parent !in d.children { return None; }
    var kids := d.children[parent];
    var sought := after;
    for i := 0 to |kids|
      invariant RightOf(d, kids[i..], sought) == RightOf(d, kids, after)
    {
      assert kids[i..][0] == kids[i] && kids[i..][1..] == kids[i + 1..];
      if Standing(d, kids[i]) {
        if sought.None? { return Some(kids[i]); }
        if kids[i] == sought.val { sought := None; }
      }
    }
    assert kids[|kids|..] == [];
    r := None;
  }

  /** The digits a child of `parent` put behind `after`, or in front of all for `None`, is given. */
  function KeyFor(d: Doc, parent: OpId, after: Option<OpId>): seq<int>
    requires after.Some? ==> after.val in d.nodes
  {
    var r := RightOf(d, Attached(d, parent), after);
    KeyBetween(if after.Some? then Some(d.nodes[after.val].sort.frac) else None,
               if r.Some? then Some(d.nodes[r.val].sort.frac) else None)
  }

  lemma {:induction false} RightStays(d: Doc, kids: seq<OpId>, after: Option<OpId>, n: OpId, x: Node)
    requires RightOf(d, kids, after).Some? && n !in kids
    ensures RightOf(d.(nodes := d.nodes[n := x]), kids + [n], after) == RightOf(d, kids, after)
    decreases |kids|
  {
    assert (kids + [n])[1..] == kids[1..] + [n];
    if Standing(d, kids[0]) && after.Some? {
      RightStays(d, kids[1..], if kids[0] == after.val then None else after, n, x);
    } else if !Standing(d, kids[0]) {
      RightStays(d, kids[1..], after, n, x);
    }
  }

  lemma {:induction false} RightIgnores(d: Doc, children: map<OpId, seq<OpId>>, kids: seq<OpId>, after: Option<OpId>)
    ensures RightOf(d.(children := children), kids, after) == RightOf(d, kids, after)
    decreases |kids|
  {
    if kids != [] {
      RightIgnores(d, children, kids[1..], after);
      if after.Some? { RightIgnores(d, children, kids[1..], None); }
    }
  }

  /** The next sibling is sought in the order of attachment, where a new child comes last: so the child after it put
      at the same place is given the same digits. */
  lemma SameKeyAgain(d: Doc, parent: OpId, after: Option<OpId>, n: OpId, x: Node)
    requires (after.Some? ==> after.val in d.nodes) && n !in d.nodes && n !in Attached(d, parent)
    requires RightOf(d, Attached(d, parent), after).Some?
    ensures KeyFor(Grown(d, n, x, parent), parent, after) == KeyFor(d, parent, after)
  {
    var kids, d' := Attached(d, parent), Grown(d, n, x, parent);
    RightStays(d, kids, after, n, x);
    RightIgnores(d.(nodes := d.nodes[n := x]), d'.children, kids + [n], after);
    assert RightOf(d, kids, after).val in kids;
  }

  // ── Where the child is read ──

  /** Whatever comes behind, all of a child put behind `a` is read after all of `a`. */
  lemma ReadBehind(s: Shape, p: OpId, a: OpId, n: OpId, hi: Option<seq<int>>, peer: int, x: OpId, y: OpId)
    requires Readable(s) && Shown(s, p, TREE_ROOT) && LiveChild(s, p, a) && LiveChild(s, p, n)
    requires p in s && !s[p].content.LeafNode?
    requires s[n].sort == SortKey(KeyBetween(Some(s[a].sort.frac), hi), peer)
    requires Shown(s, x, a) && Shown(s, y, n) && s[x].content.LeafNode? && s[y].content.LeafNode?
    ensures Precedes(Reading(s, TREE_ROOT), x, y)
  {
    BehindLeft(s[a].sort, hi, peer);
    FrontFirst(s, p, a, n, x, y);
  }

  /** All of it is read before all of the sibling `r` its key was to be in front of, if there is room; and if there is
      none, after it, unless the two keys are equal, which leaves the order open. */
  lemma ReadInFront(s: Shape, p: OpId, lo: Option<OpId>, n: OpId, r: OpId, peer: int, x: OpId, y: OpId)
    requires Readable(s) && Shown(s, p, TREE_ROOT) && LiveChild(s, p, r) && LiveChild(s, p, n)
    requires p in s && !s[p].content.LeafNode?
    requires lo.Some? ==> lo.val in s && Ahead(s[lo.val].sort, s[r].sort)
    requires s[n].sort == SortKey(KeyBetween(if lo.Some? then Some(s[lo.val].sort.frac) else None,
                                             Some(s[r].sort.frac)), peer)
    requires Shown(s, x, n) && Shown(s, y, r) && s[x].content.LeafNode? && s[y].content.LeafNode?
    ensures var room := Roomy(if lo.Some? then Some(s[lo.val].sort) else None, s[r].sort, peer);
            && (room ==> Precedes(Reading(s, TREE_ROOT), x, y))
            && (!room && s[n].sort != s[r].sort ==> Precedes(Reading(s, TREE_ROOT), y, x))
  {
    var key: Option<SortKey> := if lo.Some? then Some(s[lo.val].sort) else None;
    BetweenIffRoomy(key, s[r].sort, peer);
    if Ahead(s[n].sort, s[r].sort) {
      FrontFirst(s, p, n, r, x, y);
    } else if s[n].sort != s[r].sort {
      KeyMeans(s[n].sort, s[r].sort);
      KeyMeans(s[r].sort, s[n].sort);
      KeyOrder(s[n].sort, s[r].sort, s[n].sort);
      FrontFirst(s, p, r, n, y, x);
    }
  }

  /** Let `r` be the first live sibling behind `lo`, or the first of all. A key picked between the two is in front of
      every live sibling that is behind `lo` if and only if there is room: so the child lands just where it was put
      when `r` is indeed the next one read and there is room, and only then. */
  lemma LandsIffRoomy(s: Shape, p: OpId, lo: Option<SortKey>, r: OpId, peer: int)
    requires LiveChild(s, p, r) && (lo.Some? ==> Ahead(lo.val, s[r].sort))
    requires forall q :: LiveChild(s, p, q) && (lo.Some? ==> Ahead(lo.val, s[q].sort)) ==> !Ahead(s[q].sort, s[r].sort)
    ensures var key := SortKey(KeyBetween(Frac(lo), Some(s[r].sort.frac)), peer);
            (forall q :: LiveChild(s, p, q) && (lo.Some? ==> Ahead(lo.val, s[q].sort)) ==> Ahead(key, s[q].sort))
            <==> Roomy(lo, s[r].sort, peer)
  {
    hide Ahead, Roomy;
    var key := SortKey(KeyBetween(Frac(lo), Some(s[r].sort.frac)), peer);
    BetweenIffRoomy(lo, s[r].sort, peer);
    if Roomy(lo, s[r].sort, peer) {
      forall q | LiveChild(s, p, q) && (lo.Some? ==> Ahead(lo.val, s[q].sort)) ensures Ahead(key, s[q].sort) {
        KeyMeans(key, s[r].sort);
        KeyMeans(s[q].sort, s[r].sort);
        KeyMeans(key, s[q].sort);
        KeyMeans(s[q].sort, key);
        KeyOrder(key, s[r].sort, s[q].sort);
        KeyOrder(key, s[q].sort, s[r].sort);
        KeyOrder(s[r].sort, s[q].sort, key);
        KeyOrder(s[r].sort, key, s[q].sort);
      }
    }
  }
}
