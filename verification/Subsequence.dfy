/** Longest strictly increasing subsequence by patience tails and back-pointers. */
module Subsequence {
  /** The "no predecessor" mark, and so no index. */
  const SIZE_MAX: nat := 0xFFFF_FFFF_FFFF_FFFF

  /** `t` lists positions of `s`, left to right, at which the values strictly increase. */
  ghost predicate Increasing(s: seq<nat>, t: seq<nat>) {
    && (forall k :: 0 <= k < |t| ==> t[k] < |s|)
    && (forall j, k :: 0 <= j < k < |t| ==> t[j] < t[k] && s[t[j]] < s[t[k]])
  }

  /** `rank[j]` orders every increasing pair of the first `n` positions. */
  ghost predicate Ranks(s: seq<nat>, rank: seq<nat>, n: nat) {
    && n <= |rank| && n <= |s|
    && forall p, q :: 0 <= p < q < n && s[p] < s[q] ==> rank[p] < rank[q]
  }

  ghost predicate Linked(s: seq<nat>, rank: seq<nat>, j: nat, p: nat)
    requires j < |s| && j < |rank|
  {
    if rank[j] == 1 then p == SIZE_MAX
    else p < j && p < |rank| && s[p] < s[j] && rank[p] + 1 == rank[j]
  }

  /** A position's rank bounds every increasing subsequence that ends there. */
  lemma {:induction false} RankBounds(s: seq<nat>, rank: seq<nat>, t: seq<nat>)
    requires Ranks(s, rank, |s|) && |rank| == |s| && Increasing(s, t) && t != []
    requires forall j :: 0 <= j < |rank| ==> 1 <= rank[j]
    ensures |t| <= rank[t[|t| - 1]]
    decreases |t|
  {
    if |t| > 1 {
      RankBounds(s, rank, t[..|t| - 1]);
      assert t[..|t| - 1][|t| - 2] == t[|t| - 2];
    }
  }

  /** After `n` positions: `tails[k]` ends a best run of length `k + 1`, and each position has its
      rank, the length of the best run ending there. */
  ghost predicate TailsOk(s: seq<nat>, rank: seq<nat>, tails: seq<nat>, n: nat) {
    && n <= |s| && |rank| == n && Ranks(s, rank, n)
    && (forall j :: 0 <= j < n ==> RankOk(s, rank, tails, j))
    && (forall k :: 0 <= k < |tails| ==> tails[k] < n && rank[tails[k]] == k + 1)
    && (forall j, k :: 0 <= j < k < |tails| ==> s[tails[j]] < s[tails[k]])
    && (n > 0 ==> tails != [])
  }

  ghost predicate RankOk(s: seq<nat>, rank: seq<nat>, tails: seq<nat>, j: nat)
    requires j < |rank| <= |s|
  {
    1 <= rank[j] <= |tails| && tails[rank[j] - 1] < |s| && s[tails[rank[j] - 1]] <= s[j]
  }

  ghost predicate Splits(s: seq<nat>, tails: seq<nat>, x: nat, lo: nat) {
    && lo <= |tails| && (forall k :: 0 <= k < |tails| ==> tails[k] < |s|)
    && (forall k :: 0 <= k < lo ==> s[tails[k]] < x)
    && (forall k :: lo <= k < |tails| ==> x <= s[tails[k]])
  }

  function Placed(tails: seq<nat>, lo: nat, i: nat): seq<nat>
    requires lo <= |tails|
  {
    if lo == |tails| then tails + [i] else tails[lo := i]
  }

  lemma TailsGrow(s: seq<nat>, rank: seq<nat>, tails: seq<nat>, i: nat, lo: nat)
    requires TailsOk(s, rank, tails, i) && i < |s| && Splits(s, tails, s[i], lo)
    ensures TailsOk(s, rank + [lo + 1], Placed(tails, lo, i), i + 1)
  {
    var r, t := rank + [lo + 1], Placed(tails, lo, i);
    forall p, q | 0 <= p < q < i + 1 && s[p] < s[q] ensures r[p] < r[q] {
      if q == i { assert RankOk(s, rank, tails, p); }
    }
    forall j | 0 <= j < i + 1 ensures RankOk(s, r, t, j) {
      if j < i { assert RankOk(s, rank, tails, j); }
    }
    forall k | 0 <= k < |t| ensures t[k] < i + 1 && r[t[k]] == k + 1 { }
    forall j, k | 0 <= j < k < |t| ensures s[t[j]] < s[t[k]] {
      assert k < |tails| && j != lo && k != lo ==> s[tails[j]] < s[tails[k]];
    }
  }

  /** The first tail whose value is not below `x`. */
  method LowerBound(s: seq<nat>, tails: seq<nat>, x: nat) returns (lo: nat)
    requires forall k :: 0 <= k < |tails| ==> tails[k] < |s|
    requires forall j, k :: 0 <= j < k < |tails| ==> s[tails[j]] < s[tails[k]]
    ensures Splits(s, tails, x, lo)
  {
    lo := 0;
    var hi := |tails|;
    while lo < hi
      invariant 0 <= lo <= hi <= |tails|
      invariant forall k :: 0 <= k < lo ==> s[tails[k]] < x
      invariant forall k :: hi <= k < |tails| ==> x <= s[tails[k]]
    {
      var mid := (lo + hi) / 2;
      if s[tails[mid]] < x {
        lo := mid + 1;
      } else {
        hi := mid;
      }
    }
  }

  ghost predicate AllLinked(s: seq<nat>, rank: seq<nat>, prev: seq<nat>, n: nat) {
    && n == |rank| <= |s| == |prev|
    && (forall j :: 0 <= j < n ==> Linked(s, rank, j, prev[j]))
    && (forall j :: n <= j < |prev| ==> prev[j] == SIZE_MAX)
  }

  lemma LinkNext(s: seq<nat>, rank: seq<nat>, tails: seq<nat>, prev: seq<nat>, i: nat, lo: nat, prev': seq<nat>)
    requires AllLinked(s, rank, prev, i) && TailsOk(s, rank, tails, i) && i < |s| && Splits(s, tails, s[i], lo)
    requires prev' == if lo > 0 then prev[i := tails[lo - 1]] else prev
    ensures AllLinked(s, rank + [lo + 1], prev', i + 1)
  {
    var r := rank + [lo + 1];
    forall j | 0 <= j < i + 1 ensures Linked(s, r, j, prev'[j]) {
      if j < i { assert Linked(s, rank, j, prev[j]); }
    }
  }

  method LongestIncreasing(s: seq<nat>) returns (res: seq<nat>)
    requires |s| <= SIZE_MAX
    ensures Increasing(s, res)
    ensures forall t :: Increasing(s, t) ==> |t| <= |res|
  {
    var n := |s|;
    forall t | Increasing(s, t) ensures t != [] ==> 0 < n {
      if t != [] { assert t[0] < n; }
    }
    if n == 0 { return []; }
    var tails: seq<nat> := [];
    var prev := new nat[n](_ => SIZE_MAX);
    ghost var rank: seq<nat> := [];
    for i := 0 to n
      invariant TailsOk(s, rank, tails, i)
      invariant AllLinked(s, rank, prev[..], i)
    {
      var lo := LowerBound(s, tails, s[i]);
      ghost var was := prev[..];
      if lo > 0 { prev[i] := tails[lo - 1]; }
      LinkNext(s, rank, tails, was, i, lo, prev[..]);
      TailsGrow(s, rank, tails, i, lo);
      if lo == |tails| {
        tails := tails + [i];
      } else {
        tails := tails[lo := i];
      }
      rank := rank + [lo + 1];
    }
    forall j | 0 <= j < n ensures 1 <= rank[j] && Linked(s, rank, j, prev[j]) {
      assert RankOk(s, rank, tails, j) && prev[..][j] == prev[j];
    }
    var k := tails[|tails| - 1];
    res := TraceBack(s, rank, k, prev);
    Bounded(s, rank, tails, |res|);
  }

  lemma Bounded(s: seq<nat>, rank: seq<nat>, tails: seq<nat>, n: nat)
    requires TailsOk(s, rank, tails, |s|) && n == |tails|
    ensures forall t :: Increasing(s, t) ==> |t| <= n
  {
    forall j | 0 <= j < |rank| ensures 1 <= rank[j] { assert RankOk(s, rank, tails, j); }
    forall t | Increasing(s, t) ensures |t| <= n {
      if t != [] {
        RankBounds(s, rank, t);
        assert RankOk(s, rank, tails, t[|t| - 1]);
      }
    }
  }

  /** Follow the back-pointers from `last` and turn the trail around. */
  method TraceBack(s: seq<nat>, ghost rank: seq<nat>, last: nat, prev: array<nat>) returns (res: seq<nat>)
    requires last < |s| == |rank| == prev.Length <= SIZE_MAX
    requires forall j :: 0 <= j < |s| ==> 1 <= rank[j] && Linked(s, rank, j, prev[j])
    ensures Increasing(s, res) && |res| == rank[last]
  {
    var k: nat := last;
    res := [k];
    ghost var path: seq<nat> := [k];
    while prev[k] != SIZE_MAX
      invariant k < |s| && path != [] && path[0] == k && |path| == |res|
      invariant |res| + rank[k] == rank[last] + 1
      invariant Increasing(s, path)
      invariant forall j :: 0 <= j < |res| ==> res[j] == path[|path| - 1 - j]
      decreases k
    {
      assert Linked(s, rank, k, prev[k]);
      k := prev[k];
      path := [k] + path;
      res := res + [k];
    }
    assert Linked(s, rank, k, prev[k]);
    Reverse(res, path);
    res := Reversed(res);
  }

  function Reversed(s: seq<nat>): (r: seq<nat>)
  {
    if s == [] then [] else Reversed(s[1..]) + [s[0]]
  }

  lemma {:induction false} Reverse(s: seq<nat>, r: seq<nat>)
    requires |r| == |s| && forall j :: 0 <= j < |s| ==> s[j] == r[|s| - 1 - j]
    ensures Reversed(s) == r
    decreases |s|
  {
    if s != [] {
      Reverse(s[1..], r[..|r| - 1]);
      assert r == r[..|r| - 1] + [s[0]];
    }
  }
}
