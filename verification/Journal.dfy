/** The outbox journal: length-prefixed records in one append-only byte file. */
module Journal {
  import opened Bytes

  const PUT: byte := 1
  const DELETE: byte := 2
  const CURSOR: byte := 3
  const HEADER: nat := 17

  datatype Record = Record(op: byte, epoch: nat, frame: seq<byte>)

  predicate RecordOk(r: Record) {
    r.epoch <= I64_MAX && |r.frame| <= U64_MAX
  }

  // ── Little-endian words ──

  function Pow256(n: nat): nat {
    if n == 0 then 1 else 256 * Pow256(n - 1)
  }

  function LeBytes(v: nat, n: nat): (r: seq<byte>)
    ensures |r| == n
    decreases n
  {
    if n == 0 then [] else [(v % 256) as byte] + LeBytes(v / 256, n - 1)
  }

  function LeValue(bs: seq<byte>): nat {
    if bs == [] then 0 else bs[0] as nat + 256 * LeValue(bs[1..])
  }

  lemma {:induction false} LeRoundTrip(v: nat, n: nat)
    requires v < Pow256(n)
    ensures LeValue(LeBytes(v, n)) == v
    decreases n
  {
    if n > 0 {
      LeRoundTrip(v / 256, n - 1);
      assert LeBytes(v, n)[1..] == LeBytes(v / 256, n - 1);
    }
  }

  lemma Words(v: nat)
    requires v <= U64_MAX
    ensures LeValue(LeBytes(v, 8)) == v
  {
    assert Pow256(4) == 0x1_0000_0000;
    assert Pow256(8) == 256 * (256 * (256 * (256 * Pow256(4))));
    LeRoundTrip(v, 8);
  }

  method AppendU64(out: seq<byte>, value: nat) returns (r: seq<byte>)
    ensures r == out + LeBytes(value, 8)
  {
    r := out;
    var rest := value;
    for i := 0 to 8
      invariant r + LeBytes(rest, 8 - i) == out + LeBytes(value, 8)
    {
      assert LeBytes(rest, 8 - i) == [(rest % 256) as byte] + LeBytes(rest / 256, 8 - i - 1);
      r := r + [(rest % 256) as byte];
      rest := rest / 256;
    }
  }

  lemma PowStep(n: nat)
    ensures Pow256(0) == 1 && (n > 0 ==> Pow256(n) == 256 * Pow256(n - 1))
  {
  }

  lemma Scale(b: nat, p: nat)
    ensures 256 * (b * p) == b * (256 * p)
  {
  }

  lemma {:induction false} LeSnoc(bs: seq<byte>, b: byte)
    ensures LeValue(bs + [b]) == LeValue(bs) + b as nat * Pow256(|bs|)
    decreases |bs|
  {
    hide Pow256;
    PowStep(|bs|);
    if bs != [] {
      assert (bs + [b])[1..] == bs[1..] + [b];
      LeSnoc(bs[1..], b);
      Scale(b as nat, Pow256(|bs| - 1));
    } else {
      assert (bs + [b])[1..] == [];
    }
  }

  method ReadU64(data: seq<byte>) returns (value: nat)
    requires |data| >= 8
    ensures value == LeValue(data[..8])
  {
    value := 0;
    var weight := 1;
    for i := 0 to 8
      invariant value == LeValue(data[..i]) && weight == Pow256(i)
    {
      LeSnoc(data[..i], data[i]);
      assert data[..i + 1] == data[..i] + [data[i]];
      value := value + data[i] as nat * weight;
      weight := weight * 256;
    }
  }

  // ── Records ──

  function Encoded(r: Record): (bs: seq<byte>)
    ensures |bs| == HEADER + |r.frame|
  {
    [r.op] + LeBytes(r.epoch, 8) + LeBytes(|r.frame|, 8) + r.frame
  }

  lemma Monotone(a: nat, b: nat, d: nat)
    ensures a <= b ==> d * a <= d * b
  {
  }

  lemma Quotient(v: nat, d: nat, q: nat, r: nat)
    requires d > 0 && v == d * q + r && r < d
    ensures v / d == q
  {
    var k := v / d;
    assert v == d * k + v % d;
    Monotone(k + 1, q, d);
    Monotone(q + 1, k, d);
    assert d * (k + 1) == d * k + d && d * (q + 1) == d * q + d;
  }

  lemma DivTwice(v: nat, p: nat)
    requires p > 0
    ensures v / 256 / p == v / (256 * p)
  {
    var w := v / 256;
    var q, r := w / p, w % p;
    assert v == 256 * w + v % 256 && w == p * q + r;
    Scale(q, p);
    assert v == 256 * p * q + (256 * r + v % 256);
    assert r <= p - 1;
    Quotient(v, 256 * p, q, 256 * r + v % 256);
  }

  lemma {:induction false} LeByteAt(v: nat, n: nat, k: nat)
    requires k < n
    ensures Pow256(k) > 0 && LeBytes(v, n)[k] as nat == v / Pow256(k) % 256
    decreases n
  {
    if k > 0 {
      LeByteAt(v / 256, n - 1, k - 1);
      DivTwice(v, Pow256(k - 1));
    }
  }

  /** A record on disk: the operation's byte, the epoch and the length least significant byte first, the frame. */
  lemma RecordLaid(r: Record)
    ensures var bs := Encoded(r);
            && bs[0] == r.op && bs[HEADER..] == r.frame
            && forall k :: 0 <= k < 8 ==>
                 && Pow256(k) > 0 && bs[1 + k] as nat == r.epoch / Pow256(k) % 256
                 && bs[9 + k] as nat == |r.frame| / Pow256(k) % 256
  {
    hide LeBytes, Pow256;
    var bs := Encoded(r);
    forall k | 0 <= k < 8
      ensures Pow256(k) > 0 && bs[1 + k] as nat == r.epoch / Pow256(k) % 256
      ensures bs[9 + k] as nat == |r.frame| / Pow256(k) % 256
    {
      LeByteAt(r.epoch, 8, k);
      LeByteAt(|r.frame|, 8, k);
      assert bs[1 + k] == LeBytes(r.epoch, 8)[k] && bs[9 + k] == LeBytes(|r.frame|, 8)[k];
    }
  }

  function EncodedAll(rs: seq<Record>): seq<byte> {
    if rs == [] then [] else Encoded(rs[0]) + EncodedAll(rs[1..])
  }

  /** The first record, if the bytes start with a whole and sensible one. */
  predicate Starts(bytes: seq<byte>) {
    && |bytes| >= HEADER && LeValue(bytes[1..9]) <= I64_MAX
    && LeValue(bytes[9..17]) <= |bytes| - HEADER
  }

  function First(bytes: seq<byte>): Record
    requires Starts(bytes)
  {
    Record(bytes[0], LeValue(bytes[1..9]), bytes[HEADER..HEADER + LeValue(bytes[9..17])])
  }

  /** What a reader makes of the file: whole records up to the first that is torn or nonsense. */
  function Parsed(bytes: seq<byte>): seq<Record>
    decreases |bytes|
  {
    if !Starts(bytes) then [] else [First(bytes)] + Parsed(bytes[HEADER + LeValue(bytes[9..17])..])
  }

  lemma HeaderOf(r: Record, rest: seq<byte>)
    requires RecordOk(r)
    ensures Starts(Encoded(r) + rest) && First(Encoded(r) + rest) == r
    ensures (Encoded(r) + rest)[|Encoded(r)|..] == rest && LeValue((Encoded(r) + rest)[9..17]) == |r.frame|
  {
    var bs := Encoded(r) + rest;
    assert bs[1..9] == LeBytes(r.epoch, 8);
    assert bs[9..17] == LeBytes(|r.frame|, 8);
    assert bs[HEADER..HEADER + |r.frame|] == r.frame;
    Words(r.epoch);
    Words(|r.frame|);
  }

  lemma ParsedStep(r: Record, rest: seq<byte>)
    requires RecordOk(r)
    ensures Parsed(Encoded(r) + rest) == [r] + Parsed(rest)
  {
    hide Encoded, LeBytes, LeValue, Starts, First;
    HeaderOf(r, rest);
    var bs := Encoded(r) + rest;
    assert bs[HEADER + LeValue(bs[9..17])..] == rest;
  }

  /** Reading undoes writing, whatever follows. */
  lemma {:induction false} ReadBack(rs: seq<Record>, rest: seq<byte>)
    requires forall i :: 0 <= i < |rs| ==> RecordOk(rs[i])
    ensures Parsed(EncodedAll(rs) + rest) == rs + Parsed(rest)
    decreases |rs|
  {
    hide Encoded, Parsed, RecordOk;
    if rs == [] {
      assert EncodedAll(rs) + rest == rest;
    } else {
      var tail := EncodedAll(rs[1..]) + rest;
      assert EncodedAll(rs) + rest == Encoded(rs[0]) + tail;
      ParsedStep(rs[0], tail);
      ReadBack(rs[1..], rest);
      assert [rs[0]] + (rs[1..] + Parsed(rest)) == rs + Parsed(rest);
    }
  }

  lemma {:induction false} EncodedAllConcat(rs: seq<Record>, ts: seq<Record>)
    ensures EncodedAll(rs + ts) == EncodedAll(rs) + EncodedAll(ts)
    decreases |rs|
  {
    hide Encoded;
    if rs == [] {
      assert rs + ts == ts;
    } else {
      EncodedAllConcat(rs[1..], ts);
      assert (rs + ts)[1..] == rs[1..] + ts;
      assert Encoded(rs[0]) + (EncodedAll(rs[1..]) + EncodedAll(ts)) == EncodedAll(rs) + EncodedAll(ts);
    }
  }

  /** A file cut anywhere reads as some prefix of its records: all that were whole. */
  lemma {:induction false} TornReadsPrefix(rs: seq<Record>, k: nat) returns (j: nat)
    requires (forall i :: 0 <= i < |rs| ==> RecordOk(rs[i])) && k <= |EncodedAll(rs)|
    ensures j <= |rs| && Parsed(EncodedAll(rs)[..k]) == rs[..j]
    ensures |EncodedAll(rs[..j])| <= k && (j < |rs| ==> k < |EncodedAll(rs[..j + 1])|)
    decreases |rs|
  {
    hide Encoded, Parsed, RecordOk;
    if rs == [] {
      j := 0;
      Nothing();
    } else {
      var head, tail := Encoded(rs[0]), EncodedAll(rs[1..]);
      if k < |head| {
        j := 0;
        CutInside(rs[0], k);
        assert EncodedAll(rs)[..k] == head[..k];
        assert EncodedAll(rs[..1]) == head by { assert rs[..1][1..] == []; }
      } else {
        var i := TornReadsPrefix(rs[1..], k - |head|);
        j := i + 1;
        assert EncodedAll(rs)[..k] == head + tail[..k - |head|];
        ParsedStep(rs[0], tail[..k - |head|]);
        assert rs[..j] == [rs[0]] + rs[1..][..i];
        EncodedAllConcat([rs[0]], rs[1..][..i]);
        assert EncodedAll([rs[0]]) == head by { assert [rs[0]][1..] == []; }
        if j < |rs| {
          assert rs[..j + 1] == [rs[0]] + rs[1..][..i + 1];
          EncodedAllConcat([rs[0]], rs[1..][..i + 1]);
        }
      }
    }
  }

  lemma Nothing()
    ensures Parsed([]) == []
  {
  }

  lemma CutInside(r: Record, k: nat)
    requires RecordOk(r) && k < |Encoded(r)|
    ensures Parsed(Encoded(r)[..k]) == []
  {
    if k >= HEADER {
      assert Encoded(r)[..k][9..17] == LeBytes(|r.frame|, 8);
      Words(|r.frame|);
    }
  }

  // ── Appending to a file that may be torn ──

  lemma {:induction false} LeForth(bs: seq<byte>)
    ensures LeBytes(LeValue(bs), |bs|) == bs
    decreases |bs|
  {
    if bs != [] {
      LeForth(bs[1..]);
      assert LeValue(bs) % 256 == bs[0] as nat && LeValue(bs) / 256 == LeValue(bs[1..]);
      assert [bs[0]] + bs[1..] == bs;
    }
  }

  lemma {:induction false} LeBounded(bs: seq<byte>)
    ensures LeValue(bs) < Pow256(|bs|)
    decreases |bs|
  {
    if bs != [] { LeBounded(bs[1..]); }
  }

  lemma WordBounded(bs: seq<byte>)
    requires |bs| == 8
    ensures LeValue(bs) <= U64_MAX
  {
    LeBounded(bs);
    assert Pow256(4) == 0x1_0000_0000;
    assert Pow256(8) == 256 * (256 * (256 * (256 * Pow256(4))));
  }

  lemma FourParts(bytes: seq<byte>, n: nat)
    requires HEADER <= n <= |bytes|
    ensures bytes[..n] == [bytes[0]] + bytes[1..9] + bytes[9..17] + bytes[HEADER..n]
  {
  }

  /** The first record's own bytes are the ones it was read from. */
  lemma FirstIsEncoded(bytes: seq<byte>)
    requires Starts(bytes)
    ensures Encoded(First(bytes)) == bytes[..HEADER + LeValue(bytes[9..17])] && RecordOk(First(bytes))
  {
    LeForth(bytes[1..9]);
    LeForth(bytes[9..17]);
    WordBounded(bytes[9..17]);
    hide LeValue, LeBytes;
    FourParts(bytes, HEADER + LeValue(bytes[9..17]));
  }

  /** What is behind the last whole record. */
  function Tail(bytes: seq<byte>): (t: seq<byte>)
    ensures !Starts(t)
    decreases |bytes|
  {
    if !Starts(bytes) then bytes else Tail(bytes[HEADER + LeValue(bytes[9..17])..])
  }

  /** Any file is the records read from it and a tail from which nothing is read. */
  lemma {:induction false} FileSplits(bytes: seq<byte>)
    ensures bytes == EncodedAll(Parsed(bytes)) + Tail(bytes)
    ensures forall i :: 0 <= i < |Parsed(bytes)| ==> RecordOk(Parsed(bytes)[i])
    decreases |bytes|
  {
    hide Encoded, LeValue, RecordOk, Starts, Parsed, Tail;
    NoneSplits(bytes);
    if Starts(bytes) {
      NextSplits(bytes);
      var n := HEADER + LeValue(bytes[9..17]);
      FileSplits(bytes[n..]);
      FirstIsEncoded(bytes);
      var rs := Parsed(bytes[n..]);
      assert ([First(bytes)] + rs)[1..] == rs;
      assert bytes == bytes[..n] + (EncodedAll(rs) + Tail(bytes[n..]));
    }
  }

  lemma NoneSplits(bytes: seq<byte>)
    ensures !Starts(bytes) ==> Parsed(bytes) == [] && Tail(bytes) == bytes && EncodedAll([]) + bytes == bytes
  {
  }

  lemma NextSplits(bytes: seq<byte>)
    requires Starts(bytes)
    ensures |bytes| >= HEADER && HEADER + LeValue(bytes[9..17]) <= |bytes|
    ensures Parsed(bytes) == [First(bytes)] + Parsed(bytes[HEADER + LeValue(bytes[9..17])..])
    ensures Tail(bytes) == Tail(bytes[HEADER + LeValue(bytes[9..17])..])
  {
    hide LeValue;
  }

  /** A file as long as the records read from it has no tail. */
  lemma WholeByLength(bytes: seq<byte>)
    ensures |bytes| == |EncodedAll(Parsed(bytes))| <==> Tail(bytes) == []
    ensures Tail(bytes) == [] ==> bytes == EncodedAll(Parsed(bytes))
  {
    FileSplits(bytes);
  }

  /** Laid over itself at the tail's length, the record's bytes agree with the tail and with themselves, and
      nothing is read from what is left. An empty tail always fits. */
  predicate Overlaps(tail: seq<byte>, r: Record) {
    Encoded(r) <= tail + Encoded(r) && Parsed((tail + Encoded(r))[|Encoded(r)|..]) == []
  }

  /** A record appended to any file, torn or not, is read back behind the old ones if and only if it overlaps
      the tail. */
  lemma AppendReadsBack(bytes: seq<byte>, r: Record)
    requires RecordOk(r)
    ensures Parsed(bytes + Encoded(r)) == Parsed(bytes) + [r] <==> Overlaps(Tail(bytes), r)
  {
    hide Encoded, RecordOk, Starts;
    var rs, tail := Parsed(bytes), Tail(bytes);
    FileSplits(bytes);
    assert bytes + Encoded(r) == EncodedAll(rs) + (tail + Encoded(r));
    ReadBack(rs, tail + Encoded(r));
    TailReads(tail, r);
    var more := Parsed(tail + Encoded(r));
    assert (rs + more)[|rs|..] == more && (rs + [r])[|rs|..] == [r];
  }

  lemma TailReads(tail: seq<byte>, r: Record)
    requires RecordOk(r)
    ensures Parsed(tail + Encoded(r)) == [r] <==> Overlaps(tail, r)
  {
    hide Encoded, LeValue, Starts;
    var bs, e := tail + Encoded(r), Encoded(r);
    if e <= bs {
      assert bs == e + bs[|e|..];
      ParsedStep(r, bs[|e|..]);
      OneOf(r, Parsed(bs[|e|..]));
    } else if Starts(bs) {
      NextSplits(bs);
      FirstIsEncoded(bs);
      assert Encoded(First(bs)) <= bs;
      assert First(bs) != r;
      assert Parsed(bs)[0] == First(bs);
    } else {
      assert Parsed(bs) == [];
    }
  }

  lemma OneOf(r: Record, rs: seq<Record>)
    ensures [r] + rs == [r] <==> rs == []
  {
    if rs != [] { assert |[r] + rs| != |[r]|; }
  }

  /** At a boundary every record is read back: the length test is one a caller can make. */
  lemma AppendAtBoundary(bytes: seq<byte>, r: Record)
    requires RecordOk(r) && |bytes| == |EncodedAll(Parsed(bytes))|
    ensures Parsed(bytes + Encoded(r)) == Parsed(bytes) + [r]
  {
    hide Encoded, Parsed;
    WholeByLength(bytes);
    Nothing();
    assert [] + Encoded(r) == Encoded(r) && Encoded(r)[|Encoded(r)|..] == [];
    AppendReadsBack(bytes, r);
  }

  /** Behind a record torn before its header was out, no record is read back as itself but one that repeats
      every so many bytes as the tail is long. */
  lemma AppendAfterTear(bytes: seq<byte>, r: Record, i: nat)
    requires RecordOk(r) && Tail(bytes) != [] && i < |Encoded(r)|
    requires (Tail(bytes) + Encoded(r))[i] != Encoded(r)[i]
    ensures Parsed(bytes + Encoded(r)) != Parsed(bytes) + [r]
  {
    hide Encoded, Parsed, Tail;
    AppendReadsBack(bytes, r);
  }

  /** A record torn inside its frame swallows what is appended: it stays unread until its length is made up,
      and then ends with the appended bytes. */
  lemma TornFrameSwallows(tail: seq<byte>, more: seq<byte>)
    requires |tail| >= HEADER && LeValue(tail[1..9]) <= I64_MAX && !Starts(tail)
    ensures var n := HEADER + LeValue(tail[9..17]);
            && |tail| < n
            && (|tail + more| < n ==> Parsed(tail + more) == [])
            && (n <= |tail + more| ==>
                  Parsed(tail + more)
                  == [Record(tail[0], LeValue(tail[1..9]),
                      tail[HEADER..] + more[..n - |tail|])] + Parsed(more[n - |tail|..]))
  {
    hide LeValue;
    var bs, n := tail + more, HEADER + LeValue(tail[9..17]);
    assert bs[1..9] == tail[1..9] && bs[9..17] == tail[9..17];
    if n <= |bs| {
      assert bs[HEADER..n] == tail[HEADER..] + more[..n - |tail|];
      assert bs[n..] == more[n - |tail|..];
    }
  }

  /** A lone byte left by a tear swallows a whole record. */
  lemma LoneByteSwallows()
    ensures var torn, r := [PUT], Record(CURSOR, 1, []);
            Parsed(torn + Encoded(r)) != [r] && r !in Parsed(torn + Encoded(r))
  {
    var r := Record(CURSOR, 1, []);
    var bs := [PUT] + Encoded(r);
    assert bs[1..9][0] == CURSOR;
    assert LeBytes(1, 8)[0] == 1;
    assert bs[1..9][1] == 1;
    assert |bs| == 18;
    if Starts(bs) {
      assert First(bs).op == PUT;
      assert |bs[HEADER + LeValue(bs[9..17])..]| < HEADER;
      assert Parsed(bs) == [First(bs)];
    }
  }

  /** The overlap is real: behind the first nine bytes of this very record, it is read back. */
  lemma OverlapHappens()
    ensures var r := Record(PUT, 0, [0]);
            RecordOk(r) && Overlaps(Encoded(r)[..9], r) && !Starts(Encoded(r)[..9])
  {
    var r := Record(PUT, 0, [0]);
    LeZero(8);
    LeZero(7);
    var z := [0, 0, 0, 0, 0, 0, 0, 0];
    assert LeBytes(1, 8) == [1] + LeBytes(0, 7);
    assert Encoded(r) == [PUT] + z + [PUT] + z;
    var bs := Encoded(r)[..9] + Encoded(r);
    assert bs == Encoded(r) + ([PUT] + z);
    assert bs[|Encoded(r)|..] == [PUT] + z;
  }

  lemma LeZero(n: nat)
    ensures LeBytes(0, n) == seq(n, i => 0 as byte)
  {
    if n > 0 {
      LeZero(n - 1);
      assert [0 as byte] + seq(n - 1, i => 0 as byte) == seq(n, i => 0 as byte);
    }
  }

  // ── What the records add up to ──

  function CursorOf(rs: seq<Record>): nat {
    if rs == [] then 0
    else
      var c, r := CursorOf(rs[..|rs| - 1]), rs[|rs| - 1];
      if r.op == CURSOR && r.epoch > c then r.epoch else c
  }

  function DeletedOf(rs: seq<Record>): nat {
    if rs == [] then 0
    else
      var d, r := DeletedOf(rs[..|rs| - 1]), rs[|rs| - 1];
      if r.op == DELETE && r.epoch > d then r.epoch else d
  }

  function EntriesOf(rs: seq<Record>): map<int, seq<byte>> {
    if rs == [] then map[]
    else
      var m, r := EntriesOf(rs[..|rs| - 1]), rs[|rs| - 1];
      if r.op == PUT then m[r.epoch := r.frame] else m
  }

  lemma FoldSnoc(rs: seq<Record>, r: Record)
    ensures CursorOf(rs + [r]) == if r.op == CURSOR && r.epoch > CursorOf(rs) then r.epoch else CursorOf(rs)
    ensures DeletedOf(rs + [r]) == if r.op == DELETE && r.epoch > DeletedOf(rs) then r.epoch else DeletedOf(rs)
    ensures EntriesOf(rs + [r]) == if r.op == PUT then EntriesOf(rs)[r.epoch as int := r.frame] else EntriesOf(rs)
  {
    assert (rs + [r])[..|rs|] == rs;
  }

  lemma {:induction false} CursorPrefix(rs: seq<Record>, j: nat)
    requires j <= |rs|
    ensures CursorOf(rs[..j]) <= CursorOf(rs)
    decreases |rs|
  {
    if j < |rs| {
      CursorPrefix(rs[..|rs| - 1], j);
      assert rs[..|rs| - 1][..j] == rs[..j];
    } else {
      assert rs[..j] == rs;
    }
  }
}
