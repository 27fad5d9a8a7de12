/** MessagePack as its specification writes it, byte by byte, and that the reader accepts just that. */
module MsgPackFormat {
  import opened Bytes
  import opened Json
  import opened MsgPack

  // ── Words, most significant byte first ──

  function Two(s: Text, at: nat): nat
    requires at + 2 <= |s|
  {
    0x100 * s[at] as nat + s[at + 1] as nat
  }

  function Four(s: Text, at: nat): nat
    requires at + 4 <= |s|
  {
    0x1_0000 * Two(s, at) + Two(s, at + 2)
  }

  function Eight(s: Text, at: nat): nat
    requires at + 8 <= |s|
  {
    0x1_0000_0000 * Four(s, at) + Four(s, at + 4)
  }

  /** Read in two's complement, as one of `range` values. */
  function Complement(v: nat, range: nat): int {
    if 2 * v < range then v else v - range
  }

  // ── The formats ──

  /** positive and negative fixint, uint 8 to 64, int 8 to 64. */
  predicate IntForm(s: Text, i: int) {
    || (|s| == 1 && s[0] <= 0x7f && i == s[0] as int)
    || (|s| == 1 && s[0] >= 0xe0 && i == s[0] as int - 0x100)
    || (|s| == 2 && s[0] == 0xcc && i == s[1] as int)
    || (|s| == 3 && s[0] == 0xcd && i == Two(s, 1))
    || (|s| == 5 && s[0] == 0xce && i == Four(s, 1))
    || (|s| == 9 && s[0] == 0xcf && i == Eight(s, 1) && i <= I64_MAX)
    || (|s| == 2 && s[0] == 0xd0 && i == Complement(s[1] as int, 0x100))
    || (|s| == 3 && s[0] == 0xd1 && i == Complement(Two(s, 1), 0x1_0000))
    || (|s| == 5 && s[0] == 0xd2 && i == Complement(Four(s, 1), 0x1_0000_0000))
    || (|s| == 9 && s[0] == 0xd3 && i == Complement(Eight(s, 1), 0x1_0000_0000_0000_0000))
  }

  /** fixstr, str 8, str 16, str 32. */
  predicate StrForm(s: Text, n: nat) {
    || (|s| == 1 && 0xa0 <= s[0] <= 0xbf && n == s[0] as int - 0xa0)
    || (|s| == 2 && s[0] == 0xd9 && n == s[1] as int)
    || (|s| == 3 && s[0] == 0xda && n == Two(s, 1))
    || (|s| == 5 && s[0] == 0xdb && n == Four(s, 1))
  }

  /** fixarray, array 16, array 32. */
  predicate ArrayForm(s: Text, n: nat) {
    || (|s| == 1 && 0x90 <= s[0] <= 0x9f && n == s[0] as int - 0x90)
    || (|s| == 3 && s[0] == 0xdc && n == Two(s, 1))
    || (|s| == 5 && s[0] == 0xdd && n == Four(s, 1))
  }

  /** fixmap, map 16, map 32. */
  predicate MapForm(s: Text, n: nat) {
    || (|s| == 1 && 0x80 <= s[0] <= 0x8f && n == s[0] as int - 0x80)
    || (|s| == 3 && s[0] == 0xde && n == Two(s, 1))
    || (|s| == 5 && s[0] == 0xdf && n == Four(s, 1))
  }

  /** bin 8, bin 16, bin 32. */
  predicate BinForm(s: Text, n: nat) {
    || (|s| == 2 && s[0] == 0xc4 && n == s[1] as int)
    || (|s| == 3 && s[0] == 0xc5 && n == Two(s, 1))
    || (|s| == 5 && s[0] == 0xc6 && n == Four(s, 1))
  }

  ghost predicate BinEncodes(s: Text, b: Text) {
    exists h :: 0 <= h <= |s| && BinForm(s[..h], |b|) && s[h..] == b
  }

  ghost predicate StrEncodes(s: Text, t: Text) {
    exists h :: 0 <= h <= |s| && StrForm(s[..h], |t|) && s[h..] == t
  }

  /** `s` is an encoding of `v`: any the specification allows, not the shortest alone. */
  ghost predicate Encodes(s: Text, v: Value)
    decreases |s|, 0
  {
    match v
    case Null => s == [0xc0]
    case Bool(b) => s == [if b then 0xc3 else 0xc2]
    case Int(i) => IntForm(s, i)
    case Str(t) => StrEncodes(s, t)
    case Arr(items) => exists h :: 0 < h <= |s| && ArrayForm(s[..h], |items|) && EncodesAll(s[h..], items)
    case Obj(members) => exists h :: 0 < h <= |s| && MapForm(s[..h], |members|) && EncodesPairs(s[h..], members)
    case Real(_) => false
  }

  ghost predicate EncodesAll(s: Text, items: seq<Value>)
    decreases |s|, 1
  {
    if items == [] then s == []
    else exists k :: 0 < k <= |s| && Encodes(s[..k], items[0]) && EncodesAll(s[k..], items[1..])
  }

  ghost predicate EncodesPairs(s: Text, members: seq<Member>)
    decreases |s|, 1
  {
    if members == [] then s == []
    else exists j, k :: 0 < j < k <= |s| && StrEncodes(s[..j], members[0].key)
                        && Encodes(s[j..k], members[0].value) && EncodesPairs(s[k..], members[1..])
  }

  // ── Words agree ──

  lemma OneIs(s: Text, at: nat)
    requires at < |s|
    ensures BeValue(s[at..at + 1]) == s[at] as nat
  {
    assert s[at..at + 1][..0] == [];
    assert s[at..at + 1] == [s[at]];
  }

  lemma TwoIs(s: Text, at: nat)
    requires at + 2 <= |s|
    ensures BeValue(s[at..at + 2]) == Two(s, at)
  {
    assert s[at..at + 2] == s[at..at + 1] + s[at + 1..at + 2];
    HalvesJoin(s[at..at + 1], s[at + 1..at + 2]);
    OneIs(s, at);
    OneIs(s, at + 1);
    Powers();
  }

  lemma FourIs(s: Text, at: nat)
    requires at + 4 <= |s|
    ensures BeValue(s[at..at + 4]) == Four(s, at)
  {
    hide BeValue, Pow256;
    assert s[at..at + 4] == s[at..at + 2] + s[at + 2..at + 4];
    HalvesJoin(s[at..at + 2], s[at + 2..at + 4]);
    TwoIs(s, at);
    TwoIs(s, at + 2);
    Powers();
  }

  lemma EightIs(s: Text, at: nat)
    requires at + 8 <= |s|
    ensures BeValue(s[at..at + 8]) == Eight(s, at)
  {
    hide BeValue, Pow256, Four;
    assert s[at..at + 8] == s[at..at + 4] + s[at + 4..at + 8];
    HalvesJoin(s[at..at + 4], s[at + 4..at + 8]);
    FourIs(s, at);
    FourIs(s, at + 4);
    Powers();
  }

  /** What the reader finds behind a tag. */
  lemma WordsRead(t: Text)
    requires t != []
    ensures Word(t[1..], 1) == if |t| < 2 then Fail else Done(t[1] as nat, t[2..])
    ensures Word(t[1..], 2) == if |t| < 3 then Fail else Done(Two(t, 1), t[3..])
    ensures Word(t[1..], 4) == if |t| < 5 then Fail else Done(Four(t, 1), t[5..])
    ensures Word(t[1..], 8) == if |t| < 9 then Fail else Done(Eight(t, 1), t[9..])
  {
    hide BeValue, Two, Four, Eight;
    if |t| >= 2 { OneIs(t, 1); assert t[1..][..1] == t[1..2] && t[1..][1..] == t[2..]; }
    if |t| >= 3 { TwoIs(t, 1); assert t[1..][..2] == t[1..3] && t[1..][2..] == t[3..]; }
    if |t| >= 5 { FourIs(t, 1); assert t[1..][..4] == t[1..5] && t[1..][4..] == t[5..]; }
    if |t| >= 9 { EightIs(t, 1); assert t[1..][..8] == t[1..9] && t[1..][8..] == t[9..]; }
  }

  lemma {:induction false} HalvesJoin(a: Text, b: Text)
    ensures BeValue(a + b) == BeValue(a) * Pow256(|b|) + BeValue(b)
    decreases |b|
  {
    if b == [] {
      assert a + b == a;
    } else {
      assert (a + b)[..|a + b| - 1] == a + b[..|b| - 1];
      HalvesJoin(a, b[..|b| - 1]);
      Carried(BeValue(a), Pow256(|b| - 1), BeValue(b[..|b| - 1]));
    }
  }

  lemma Carried(a: nat, p: nat, b: nat)
    ensures (a * p + b) * 256 == a * (256 * p) + b * 256
  {
  }

  // ── The reader accepts the format ──

  lemma SameWords(s: Text, rest: Text)
    ensures |s| >= 3 ==> Two(s + rest, 1) == Two(s, 1)
    ensures |s| >= 5 ==> Four(s + rest, 1) == Four(s, 1)
    ensures |s| >= 9 ==> Eight(s + rest, 1) == Eight(s, 1)
  {
  }

  lemma IntRead(s: Text, i: int, rest: Text)
    requires IntForm(s, i)
    ensures UnpackInt(s + rest) == Done(i, rest) && KindOf((s + rest)[0]) == KInt
  {
    hide Word, Two, Four, Eight;
    WordsRead(s + rest);
    SameWords(s, rest);
    assert (s + rest)[|s|..] == rest;
  }

  lemma PrefixWords(t: Text, n: nat)
    requires n <= |t|
    ensures n >= 3 ==> Two(t[..n], 1) == Two(t, 1)
    ensures n >= 5 ==> Four(t[..n], 1) == Four(t, 1)
    ensures n >= 9 ==> Eight(t[..n], 1) == Eight(t, 1)
  {
  }

  lemma IntIsForm(t: Text)
    requires UnpackInt(t).Done?
    ensures var n := |t| - |UnpackInt(t).rest|;
            n > 0 && t[n..] == UnpackInt(t).rest && IntForm(t[..n], UnpackInt(t).value)
  {
    hide Word, Two, Four, Eight;
    WordsRead(t);
    var b := t[0];
    var n := if b <= 0x7f || b >= 0xe0 then 1
             else if b == 0xcc || b == 0xd0 then 2
             else if b == 0xcd || b == 0xd1 then 3
             else if b == 0xce || b == 0xd2 then 5 else 9;
    assert n <= |t| && t[n..] == UnpackInt(t).rest;
    PrefixWords(t, n);
    assert t[..n][0] == b && (n > 1 ==> t[..n][1] == t[1]);
  }

  lemma LengthRead(s: Text, n: nat, rest: Text)
    requires StrForm(s, n)
    ensures StrLength(s + rest) == Done(n, rest) && KindOf((s + rest)[0]) == KStr
  {
    hide Word, Two, Four;
    WordsRead(s + rest);
    SameWords(s, rest);
    assert (s + rest)[|s|..] == rest;
  }

  lemma StrRead(s: Text, t: Text, rest: Text)
    requires StrEncodes(s, t)
    ensures UnpackStr(s + rest) == Done(t, rest) && s != [] && KindOf((s + rest)[0]) == KStr
  {
    hide StrLength, KindOf;
    var h :| 0 <= h <= |s| && StrForm(s[..h], |t|) && s[h..] == t;
    assert s + rest == s[..h] + (t + rest);
    LengthRead(s[..h], |t|, t + rest);
    assert (t + rest)[..|t|] == t && (t + rest)[|t|..] == rest;
  }

  lemma LengthIsForm(t: Text)
    requires StrLength(t).Done?
    ensures var h := |t| - |StrLength(t).rest|;
            h > 0 && t[h..] == StrLength(t).rest && StrForm(t[..h], StrLength(t).value)
  {
    hide Word, Two, Four;
    WordsRead(t);
    var b := t[0];
    var h := if b <= 0xbf then 1 else if b == 0xd9 then 2 else if b == 0xda then 3 else 5;
    assert h <= |t| && t[h..] == StrLength(t).rest;
    PrefixWords(t, h);
    assert t[..h][0] == b && (h > 1 ==> t[..h][1] == t[1]);
  }

  lemma StrIsForm(t: Text)
    requires UnpackStr(t).Done?
    ensures var n := |t| - |UnpackStr(t).rest|;
            n > 0 && t[n..] == UnpackStr(t).rest && StrEncodes(t[..n], UnpackStr(t).value)
  {
    hide StrLength, StrForm;
    LengthIsForm(t);
    var head := StrLength(t);
    var h, n := |t| - |head.rest|, |t| - |head.rest| + head.value;
    assert t[h..][..head.value] == t[..n][h..] && t[h..][head.value..] == t[n..];
    assert t[..n][..h] == t[..h];
  }

  lemma BinRead(s: Text, b: Text, rest: Text)
    requires BinEncodes(s, b)
    ensures UnpackBin(s + rest) == Done(b, rest)
  {
    hide Word, Two, Four;
    var h :| 0 <= h <= |s| && BinForm(s[..h], |b|) && s[h..] == b;
    assert s + rest == s[..h] + (b + rest);
    WordsRead(s + rest);
    SameWords(s[..h], b + rest);
    assert (s + rest)[h..] == b + rest;
    assert (b + rest)[..|b|] == b && (b + rest)[|b|..] == rest;
  }

  lemma BinLengthIsForm(t: Text)
    requires BinLength(t).Done?
    ensures var h := |t| - |BinLength(t).rest|;
            h > 0 && t[h..] == BinLength(t).rest && BinForm(t[..h], BinLength(t).value)
  {
    hide Word, Two, Four;
    WordsRead(t);
    var h := if t[0] == 0xc4 then 2 else if t[0] == 0xc5 then 3 else 5;
    assert h <= |t| && t[h..] == BinLength(t).rest;
    PrefixWords(t, h);
    assert t[..h][0] == t[0] && t[..h][1] == t[1];
  }

  lemma BinIsForm(t: Text)
    requires UnpackBin(t).Done?
    ensures var n := |t| - |UnpackBin(t).rest|;
            t[n..] == UnpackBin(t).rest && BinEncodes(t[..n], UnpackBin(t).value)
  {
    hide BinLength, BinForm;
    BinLengthIsForm(t);
    var head := BinLength(t);
    var h, n := |t| - |head.rest|, |t| - |head.rest| + head.value;
    assert t[h..][..head.value] == t[..n][h..] && t[h..][head.value..] == t[n..];
    assert t[..n][..h] == t[..h];
  }

  lemma CountsRead(s: Text, n: nat, rest: Text)
    ensures ArrayForm(s, n) ==> ArrayCount(s + rest) == Done(n, rest) && KindOf((s + rest)[0]) == KArray
    ensures MapForm(s, n) ==> MapCount(s + rest) == Done(n, rest) && KindOf((s + rest)[0]) == KMap
  {
    hide Word, Two, Four;
    if s != [] {
      WordsRead(s + rest);
      SameWords(s, rest);
      assert (s + rest)[|s|..] == rest;
    }
  }

  lemma CountsAreForms(t: Text)
    ensures ArrayCount(t).Done? ==>
              var h := |t| - |ArrayCount(t).rest|;
              h > 0 && t[h..] == ArrayCount(t).rest && ArrayForm(t[..h], ArrayCount(t).value)
    ensures MapCount(t).Done? ==>
              var h := |t| - |MapCount(t).rest|;
              h > 0 && t[h..] == MapCount(t).rest && MapForm(t[..h], MapCount(t).value)
  {
    hide Word, Two, Four;
    if t != [] {
      WordsRead(t);
      if |t| >= 3 { SameWords(t[..3], t[3..]); assert t[..3] + t[3..] == t; }
      if |t| >= 5 { SameWords(t[..5], t[5..]); assert t[..5] + t[5..] == t; }
    }
  }

  lemma {:induction false} FormatRead(s: Text, v: Value, rest: Text)
    requires Encodes(s, v)
    ensures s != [] && Unpacked(s + rest) == Done(v, rest)
    decreases |s|, 0
  {
    hide UnpackInt, UnpackStr, ArrayCount, MapCount, IntForm, ArrayForm, MapForm, StrEncodes, UnpackedItems,
        UnpackedMembers;
    match v
    case Int(i) => IntRead(s, i, rest);
    case Str(t) => StrRead(s, t, rest);
    case Arr(items) =>
      var h :| 0 < h <= |s| && ArrayForm(s[..h], |items|) && EncodesAll(s[h..], items);
      assert s + rest == s[..h] + (s[h..] + rest);
      CountsRead(s[..h], |items|, s[h..] + rest);
      ItemsRead(s[h..], items, rest);
    case Obj(members) =>
      var h :| 0 < h <= |s| && MapForm(s[..h], |members|) && EncodesPairs(s[h..], members);
      assert s + rest == s[..h] + (s[h..] + rest);
      CountsRead(s[..h], |members|, s[h..] + rest);
      PairsRead(s[h..], members, rest);
    case Null => assert (s + rest)[1..] == rest;
    case Bool(_) => assert (s + rest)[1..] == rest;
    case Real(_) =>
  }

  lemma {:induction false} ItemsRead(s: Text, items: seq<Value>, rest: Text)
    requires EncodesAll(s, items)
    ensures UnpackedItems(s + rest, |items|) == Done(items, rest)
    decreases |s|, 1
  {
    hide Encodes, Unpacked;
    if items == [] {
      assert s + rest == rest;
    } else {
      var k :| 0 < k <= |s| && Encodes(s[..k], items[0]) && EncodesAll(s[k..], items[1..]);
      assert s + rest == s[..k] + (s[k..] + rest);
      FormatRead(s[..k], items[0], s[k..] + rest);
      ItemsRead(s[k..], items[1..], rest);
      assert items == [items[0]] + items[1..];
    }
  }

  lemma {:induction false} PairsRead(s: Text, members: seq<Member>, rest: Text)
    requires EncodesPairs(s, members)
    ensures UnpackedMembers(s + rest, |members|) == Done(members, rest)
    decreases |s|, 1
  {
    hide Encodes, Unpacked, StrEncodes, UnpackStr;
    if members == [] {
      assert s + rest == rest;
    } else {
      var j, k :| 0 < j < k <= |s| && StrEncodes(s[..j], members[0].key) && Encodes(s[j..k], members[0].value)
                  && EncodesPairs(s[k..], members[1..]);
      assert s + rest == s[..j] + (s[j..k] + (s[k..] + rest));
      StrRead(s[..j], members[0].key, s[j..k] + (s[k..] + rest));
      FormatRead(s[j..k], members[0].value, s[k..] + rest);
      PairsRead(s[k..], members[1..], rest);
      assert members == [members[0]] + members[1..];
    }
  }

  lemma CutInside(t: Text, h: nat, n: nat)
    requires h <= n <= |t|
    ensures t[..n][..h] == t[..h] && t[..n][h..] == t[h..][..n - h] && t[h..][n - h..] == t[n..]
  {
  }

  lemma ArrayJoins(t: Text, h: nat, n: nat, items: seq<Value>)
    requires 0 < h <= n <= |t| && ArrayForm(t[..h], |items|) && EncodesAll(t[h..][..n - h], items)
    ensures Encodes(t[..n], Arr(items))
  {
    hide ArrayForm, EncodesAll;
    CutInside(t, h, n);
  }

  lemma MapJoins(t: Text, h: nat, n: nat, members: seq<Member>)
    requires 0 < h <= n <= |t| && MapForm(t[..h], |members|) && EncodesPairs(t[h..][..n - h], members)
    ensures Encodes(t[..n], Obj(members))
  {
    hide MapForm, EncodesPairs;
    CutInside(t, h, n);
  }

  lemma {:induction false} ReadIsFormat(t: Text)
    requires Unpacked(t).Done?
    ensures var n := |t| - |Unpacked(t).rest|;
            n > 0 && t[n..] == Unpacked(t).rest && Encodes(t[..n], Unpacked(t).value)
    decreases |t|, 0
  {
    hide UnpackInt, UnpackStr, ArrayCount, MapCount, IntForm, ArrayForm, MapForm, StrEncodes, UnpackedItems,
        UnpackedMembers, EncodesAll, EncodesPairs;
    var n := |t| - |Unpacked(t).rest|;
    match KindOf(t[0])
    case KInt => IntIsForm(t);
    case KStr => StrIsForm(t);
    case KArray =>
      CountsAreForms(t);
      var head := ArrayCount(t);
      var h := |t| - |head.rest|;
      ItemsAreFormat(head.rest, head.value);
      CutInside(t, h, n);
      ArrayJoins(t, h, n, Unpacked(t).value.items);
    case KMap =>
      CountsAreForms(t);
      var head := MapCount(t);
      var h := |t| - |head.rest|;
      PairsAreFormat(head.rest, head.value);
      CutInside(t, h, n);
      MapJoins(t, h, n, Unpacked(t).value.members);
    case KNil => assert t[..1] == [t[0]];
    case KBool => assert t[..1] == [t[0]];
    case _ =>
  }

  lemma {:induction false} ItemsAreFormat(t: Text, count: nat)
    requires UnpackedItems(t, count).Done?
    ensures var r := UnpackedItems(t, count);
            var n := |t| - |r.rest|;
            t[n..] == r.rest && |r.value| == count && EncodesAll(t[..n], r.value)
    decreases |t|, count + 1
  {
    hide Encodes, Unpacked;
    if count > 0 {
      var one, r := Unpacked(t), UnpackedItems(t, count);
      ReadIsFormat(t);
      ItemsAreFormat(one.rest, count - 1);
      var k, n := |t| - |one.rest|, |t| - |r.rest|;
      assert t[..n][..k] == t[..k] && t[..n][k..] == t[k..][..n - k];
      assert r.value[0] == one.value && r.value[1..] == UnpackedItems(one.rest, count - 1).value;
    }
  }

  lemma {:induction false} PairsAreFormat(t: Text, count: nat)
    requires UnpackedMembers(t, count).Done?
    ensures var r := UnpackedMembers(t, count);
            var n := |t| - |r.rest|;
            t[n..] == r.rest && |r.value| == count && EncodesPairs(t[..n], r.value)
    decreases |t|, count + 1
  {
    hide Encodes, Unpacked, StrEncodes, UnpackStr;
    if count > 0 {
      var key := UnpackStr(t);
      var one, r := UnpackedMember(t), UnpackedMembers(t, count);
      StrIsForm(t);
      ReadIsFormat(key.rest);
      PairsAreFormat(one.rest, count - 1);
      var j, k, n := |t| - |key.rest|, |t| - |one.rest|, |t| - |r.rest|;
      assert t[..n][..j] == t[..j] && t[..n][j..k] == t[j..][..k - j] && t[..n][k..] == t[k..][..n - k];
      assert r.value[0] == one.value && r.value[1..] == UnpackedMembers(one.rest, count - 1).value;
    }
  }

  lemma Halved(t: Text, n: nat)
    requires n <= |t|
    ensures t[..n] + t[n..] == t
  {
  }

  /** The reader finds a value in front of some bytes if and only if what is gone is one of its encodings. */
  lemma ReadsTheFormat(t: Text, v: Value, rest: Text)
    ensures Unpacked(t) == Done(v, rest)
        <==> |rest| <= |t| && t[|t| - |rest|..] == rest && Encodes(t[..|t| - |rest|], v)
  {
    hide Encodes, Unpacked;
    if Unpacked(t) == Done(v, rest) { ReadIsFormat(t); }
    if |rest| <= |t| && t[|t| - |rest|..] == rest && Encodes(t[..|t| - |rest|], v) {
      var n := |t| - |rest|;
      FormatRead(t[..n], v, rest);
      Halved(t, n);
    }
  }

  /** The same of byte strings. */
  lemma BinsReadTheFormat(t: Text, b: Text, rest: Text)
    ensures UnpackBin(t) == Done(b, rest)
        <==> |rest| <= |t| && t[|t| - |rest|..] == rest && BinEncodes(t[..|t| - |rest|], b)
  {
    hide BinEncodes, UnpackBin;
    if UnpackBin(t) == Done(b, rest) {
      UnpackShrinks(t);
      BinIsForm(t);
    }
    if |rest| <= |t| && t[|t| - |rest|..] == rest && BinEncodes(t[..|t| - |rest|], b) {
      var n := |t| - |rest|;
      BinRead(t[..n], b, rest);
      assert t[..n] + rest == t;
    }
  }

  lemma UnpackShrinks(t: Text)
    ensures UnpackBin(t).Done? ==> |UnpackBin(t).rest| < |t|
  {
  }

  // ── The shortest form ──

  lemma TaggedLength(tag: byte, v: nat, n: nat)
    ensures |Tagged(tag, v, n)| == n + 1
  {
  }

  lemma StrHeaderShort(s: Text, n: nat)
    requires StrForm(s, n)
    ensures |StrHeader(n)| <= |s|
  {
    hide Tagged;
    TaggedLength(0xd9, n, 1);
    TaggedLength(0xda, n, 2);
    TaggedLength(0xdb, n, 4);
  }

  lemma BinHeaderShort(s: Text, n: nat)
    requires BinForm(s, n)
    ensures |BinHeader(n)| <= |s|
  {
    hide Tagged;
    TaggedLength(0xc4, n, 1);
    TaggedLength(0xc5, n, 2);
    TaggedLength(0xc6, n, 4);
  }

  lemma HeaderLength(fix: byte, wide: byte, n: nat)
    requires fix <= 0xf0 && wide < 0xff && n < U32
    ensures |Header(fix, wide, n)| == if n <= 15 then 1 else if n <= 0xffff then 3 else 5
  {
    hide Tagged;
    TaggedLength(wide, n, 2);
    TaggedLength(wide + 1, n, 4);
  }

  lemma ArrayShort(s: Text, n: nat)
    requires ArrayForm(s, n)
    ensures |ArrayHeader(n)| <= |s|
  {
    hide Header;
    HeaderLength(0x90, 0xdc, n);
  }

  lemma MapShort(s: Text, n: nat)
    requires MapForm(s, n)
    ensures |MapHeader(n)| <= |s|
  {
    hide Header;
    HeaderLength(0x80, 0xde, n);
  }

  lemma StrShort(s: Text, t: Text)
    requires StrEncodes(s, t)
    ensures |PackedStr(t)| <= |s|
  {
    hide StrForm, StrHeader;
    var h :| 0 <= h <= |s| && StrForm(s[..h], |t|) && s[h..] == t;
    StrHeaderShort(s[..h], |t|);
  }

  lemma IntShort(s: Text, i: int)
    requires IntForm(s, i) && I64_MIN <= i <= I64_MAX
    ensures |PackedInt(i)| <= |s|
  {
    hide IntForm, PackedInt;
    IntRead(s, i, []);
    assert s + [] == s;
    SmallestInt(i, s);
  }

  /** No encoding of a value is shorter than the one packed. */
  lemma {:induction false} PackedShortest(s: Text, v: Value)
    requires Exact(v) && Encodes(s, v)
    ensures |Packed(v)| <= |s|
    decreases |s|, 0
  {
    hide IntForm, StrEncodes, ArrayForm, MapForm, ArrayHeader, MapHeader, PackedInt, PackedStr;
    match v
    case Int(i) => IntShort(s, i);
    case Str(t) => StrShort(s, t);
    case Arr(items) =>
      var h :| 0 < h <= |s| && ArrayForm(s[..h], |items|) && EncodesAll(s[h..], items);
      ArrayShort(s[..h], |items|);
      ItemsShort(s[h..], v, items);
    case Obj(members) =>
      var h :| 0 < h <= |s| && MapForm(s[..h], |members|) && EncodesPairs(s[h..], members);
      MapShort(s[..h], |members|);
      MembersShort(s[h..], v, members);
    case _ =>
  }

  lemma {:induction false} ItemsShort(s: Text, v: Value, items: seq<Value>)
    requires EncodesAll(s, items) && forall k :: 0 <= k < |items| ==> items[k] < v && Exact(items[k])
    ensures |PackedItems(v, items)| <= |s|
    decreases |s|, 1
  {
    hide Encodes, Packed;
    if items != [] {
      var k :| 0 < k <= |s| && Encodes(s[..k], items[0]) && EncodesAll(s[k..], items[1..]);
      PackedShortest(s[..k], items[0]);
      ItemsShort(s[k..], v, items[1..]);
    }
  }

  lemma {:induction false} MembersShort(s: Text, v: Value, members: seq<Member>)
    requires EncodesPairs(s, members)
    requires forall k :: 0 <= k < |members| ==> members[k].value < v && Exact(members[k].value)
    ensures |PackedMembers(v, members)| <= |s|
    decreases |s|, 1
  {
    hide Encodes, Packed, StrEncodes, PackedStr;
    if members != [] {
      var j, k :| 0 < j < k <= |s| && StrEncodes(s[..j], members[0].key) && Encodes(s[j..k], members[0].value)
                  && EncodesPairs(s[k..], members[1..]);
      StrShort(s[..j], members[0].key);
      PackedShortest(s[j..k], members[0].value);
      MembersShort(s[k..], v, members[1..]);
    }
  }

  /** What the packer writes is an encoding, and a number not below zero takes no signed form. */
  lemma PacksTheFormat(v: Value)
    requires Exact(v) && Sized(v)
    ensures Encodes(Packed(v), v)
    ensures v.Int? && v.i >= 0 ==> !(0xd0 <= Packed(v)[0] <= 0xd3)
  {
    hide Encodes, Unpacked;
    PackedBack(v, []);
    assert Packed(v) + [] == Packed(v);
    ReadsTheFormat(Packed(v), v, []);
    assert Packed(v)[..|Packed(v)|] == Packed(v);
  }

  /** The same of byte strings: an encoding, and the shortest. */
  lemma PacksBins(b: Text)
    requires |b| < U32
    ensures BinEncodes(PackedBin(b), b)
    ensures forall s :: BinEncodes(s, b) ==> |PackedBin(b)| <= |s|
  {
    hide UnpackBin, BinEncodes;
    BinBack(b, []);
    assert PackedBin(b) + [] == PackedBin(b);
    BinsReadTheFormat(PackedBin(b), b, []);
    assert PackedBin(b)[..|PackedBin(b)|] == PackedBin(b);
    forall s | BinEncodes(s, b) ensures |PackedBin(b)| <= |s| { BinShort(s, b); }
  }

  lemma BinShort(s: Text, b: Text)
    requires BinEncodes(s, b)
    ensures |PackedBin(b)| <= |s|
  {
    hide BinForm, BinHeader;
    var h :| 0 <= h <= |s| && BinForm(s[..h], |b|) && s[h..] == b;
    BinHeaderShort(s[..h], |b|);
  }
}
