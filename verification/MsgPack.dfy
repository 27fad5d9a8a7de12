/** MessagePack for the JSON value tree: the smallest encodings, and a reader of any valid one
    (the "Formats" section of the MessagePack specification). */
module MsgPack {
  import opened Bytes
  import opened Json

  const U32: nat := 0x1_0000_0000

  // ── Big-endian words ──

  function Pow256(n: nat): (r: nat)
    ensures r > 0
  {
    if n == 0 then 1 else 256 * Pow256(n - 1)
  }

  /** The low `n` bytes of `v`. */
  function BeBytes(v: nat, n: nat): (r: Text)
    ensures |r| == n
    decreases n
  {
    if n == 0 then [] else BeBytes(v / 256, n - 1) + [(v % 256) as byte]
  }

  function BeValue(bs: Text): nat {
    if bs == [] then 0 else BeValue(bs[..|bs| - 1]) * 256 + bs[|bs| - 1] as nat
  }

  lemma {:induction false} BeBack(v: nat, n: nat)
    requires v < Pow256(n)
    ensures BeValue(BeBytes(v, n)) == v
    decreases n
  {
    if n > 0 {
      BeBack(v / 256, n - 1);
      assert BeBytes(v, n)[..n - 1] == BeBytes(v / 256, n - 1);
    }
  }

  lemma {:induction false} BeBounded(bs: Text)
    ensures BeValue(bs) < Pow256(|bs|)
    decreases |bs|
  {
    if bs != [] { BeBounded(bs[..|bs| - 1]); }
  }

  lemma Powers()
    ensures Pow256(1) == 0x100 && Pow256(2) == 0x1_0000 && Pow256(4) == U32 && Pow256(8) == U64_MAX + 1
  {
    assert Pow256(4) == 256 * (256 * Pow256(2));
    assert Pow256(8) == 256 * (256 * (256 * (256 * Pow256(4))));
  }

  // ── Packing ──

  function Tagged(tag: byte, v: int, n: nat): (r: Text)
    requires 0 <= v
    ensures |r| == n + 1 && r[0] == tag
  {
    [tag] + BeBytes(v, n)
  }

  function PackedInt(i: int): Text
    requires I64_MIN <= i <= I64_MAX
  {
    if i >= 0 then
      if i <= 0x7f then [i as byte]
      else if i <= 0xff then Tagged(0xcc, i, 1)
      else if i <= 0xffff then Tagged(0xcd, i, 2)
      else if i <= 0xffffffff then Tagged(0xce, i, 4)
      else Tagged(0xcf, i, 8)
    else
      if i >= -32 then [(i + 0x100) as byte]
      else if i >= -128 then Tagged(0xd0, i + 0x100, 1)
      else if i >= -32768 then Tagged(0xd1, i + 0x1_0000, 2)
      else if i >= -2147483648 then Tagged(0xd2, i + U32, 4)
      else Tagged(0xd3, i + (U64_MAX + 1), 8)
  }

  function StrHeader(n: nat): Text {
    if n <= 31 then [(0xa0 + n) as byte]
    else if n <= 0xff then Tagged(0xd9, n, 1)
    else if n <= 0xffff then Tagged(0xda, n, 2)
    else Tagged(0xdb, n, 4)
  }

  function PackedStr(s: Text): Text {
    StrHeader(|s|) + s
  }

  function BinHeader(n: nat): Text {
    if n <= 0xff then Tagged(0xc4, n, 1)
    else if n <= 0xffff then Tagged(0xc5, n, 2)
    else Tagged(0xc6, n, 4)
  }

  function PackedBin(b: Text): Text {
    BinHeader(|b|) + b
  }

  /** `fix` is the short form's tag, `wide` the 16-bit one's; the 32-bit one follows it. */
  function Header(fix: byte, wide: byte, n: nat): Text
    requires fix <= 0xf0 && wide < 0xff && n < U32
  {
    if n <= 15 then [fix + n as byte]
    else if n <= 0xffff then Tagged(wide, n, 2)
    else Tagged(wide + 1, n, 4)
  }

  /** Counts are cast to 32 bits before they are written. */
  function ArrayHeader(n: nat): Text {
    Header(0x90, 0xdc, n % U32)
  }

  function MapHeader(n: nat): Text {
    Header(0x80, 0xde, n % U32)
  }

  /** No floating-point number, which the bridge refuses; integers are 64-bit ones. */
  function Packed(v: Value): Text
    requires Exact(v)
    decreases v
  {
    match v
    case Null => [0xc0]
    case Bool(b) => if b then [0xc3] else [0xc2]
    case Int(i) => PackedInt(i)
    case Str(s) => PackedStr(s)
    case Arr(items) => ArrayHeader(|items|) + PackedItems(v, items)
    case Obj(members) => MapHeader(|members|) + PackedMembers(v, members)
  }

  function PackedItems(ghost v: Value, items: seq<Value>): Text
    requires forall k :: 0 <= k < |items| ==> items[k] < v && Exact(items[k])
    decreases v, |items|
  {
    if items == [] then [] else Packed(items[0]) + PackedItems(v, items[1..])
  }

  function PackedMembers(ghost v: Value, members: seq<Member>): Text
    requires forall k :: 0 <= k < |members| ==> members[k].value < v && Exact(members[k].value)
    decreases v, |members|
  {
    if members == [] then []
    else PackedStr(members[0].key) + Packed(members[0].value) + PackedMembers(v, members[1..])
  }

  /** Lengths and counts fit the 32 bits the format has for them. */
  predicate Sized(v: Value) {
    match v
    case Str(s) => |s| < U32
    case Arr(items) => |items| < U32 && forall k :: 0 <= k < |items| ==> Sized(items[k])
    case Obj(members) => |members| < U32 && forall k :: 0 <= k < |members| ==>
          |members[k].key| < U32 && Sized(members[k].value)
    case _ => true
  }

  // ── Unpacking ──

  datatype Kind = KNil | KBool | KInt | KStr | KBin | KArray | KMap | KFloat | KOther

  function KindOf(b: byte): Kind {
    if b <= 0x7f then KInt
    else if b <= 0x8f then KMap
    else if b <= 0x9f then KArray
    else if b <= 0xbf then KStr
    else if b >= 0xe0 then KInt
    else if b == 0xc0 then KNil
    else if b == 0xc2 || b == 0xc3 then KBool
    else if 0xc4 <= b <= 0xc6 then KBin
    else if b == 0xca || b == 0xcb then KFloat
    else if 0xcc <= b <= 0xd3 then KInt
    else if 0xd9 <= b <= 0xdb then KStr
    else if b == 0xdc || b == 0xdd then KArray
    else if b == 0xde || b == 0xdf then KMap
    else KOther
  }

  function Word(s: Text, n: nat): (r: Parse<nat>)
    ensures r.Done? ==> n <= |s| && r.rest == s[n..] && r.value == BeValue(s[..n])
  {
    if |s| < n then Fail else Done(BeValue(s[..n]), s[n..])
  }

  /** Two's complement of `n` bytes. */
  function Signed(p: Parse<nat>, half: nat): Parse<int> {
    if p.Fail? then Fail
    else Done(if p.value < half then p.value else p.value - 2 * half, p.rest)
  }

  function UnpackInt(s: Text): (r: Parse<int>)
    ensures r.Done? ==> |r.rest| < |s|
  {
    if s == [] then Fail
    else
      var b, t := s[0], s[1..];
      if b <= 0x7f then Done(b as int, t)
      else if b >= 0xe0 then Done(b as int - 0x100, t)
      else if b == 0xcc then Word(t, 1)
      else if b == 0xcd then Word(t, 2)
      else if b == 0xce then Word(t, 4)
      else if b == 0xcf then (var p := Word(t, 8); if p.Fail? || p.value > I64_MAX then Fail else Done(p.value, p.rest))
      else if b == 0xd0 then Signed(Word(t, 1), 0x80)
      else if b == 0xd1 then Signed(Word(t, 2), 0x8000)
      else if b == 0xd2 then Signed(Word(t, 4), 0x8000_0000)
      else if b == 0xd3 then Signed(Word(t, 8), 0x8000_0000_0000_0000)
      else Fail
  }

  /** A length: the short form keeps it in the tag's low bits. */
  function StrLength(s: Text): (r: Parse<nat>)
    ensures r.Done? ==> |r.rest| < |s|
  {
    if s == [] then Fail
    else
      var b, t := s[0], s[1..];
      if 0xa0 <= b <= 0xbf then Done(b as int - 0xa0, t)
      else if b == 0xd9 then Word(t, 1)
      else if b == 0xda then Word(t, 2)
      else if b == 0xdb then Word(t, 4)
      else Fail
  }

  function Take(p: Parse<nat>): (r: Parse<Text>)
    ensures r.Done? ==> p.Done? && |r.rest| <= |p.rest|
  {
    if p.Fail? || |p.rest| < p.value then Fail else Done(p.rest[..p.value], p.rest[p.value..])
  }

  function UnpackStr(s: Text): (r: Parse<Text>)
    ensures r.Done? ==> |r.rest| < |s|
  {
    Take(StrLength(s))
  }

  function BinLength(s: Text): (r: Parse<nat>)
    ensures r.Done? ==> |r.rest| < |s|
  {
    if s == [] then Fail
    else if s[0] == 0xc4 then Word(s[1..], 1)
    else if s[0] == 0xc5 then Word(s[1..], 2)
    else if s[0] == 0xc6 then Word(s[1..], 4)
    else Fail
  }

  function UnpackBin(s: Text): (r: Parse<Text>)
    ensures r.Done? ==> |r.rest| < |s|
  {
    Take(BinLength(s))
  }

  function Count(s: Text, fix: byte, wide: byte): (r: Parse<nat>)
    requires fix <= 0xf0 && wide < 0xff
    ensures r.Done? ==> |r.rest| < |s|
  {
    if s == [] then Fail
    else
      var b, t := s[0], s[1..];
      if fix <= b <= fix + 15 then Done(b as int - fix as int, t)
      else if b == wide then Word(t, 2)
      else if b == wide + 1 then Word(t, 4)
      else Fail
  }

  function ArrayCount(s: Text): (r: Parse<nat>)
    ensures r.Done? ==> |r.rest| < |s|
  {
    Count(s, 0x90, 0xdc)
  }

  function MapCount(s: Text): (r: Parse<nat>)
    ensures r.Done? ==> |r.rest| < |s|
  {
    Count(s, 0x80, 0xde)
  }

  function Unpacked(s: Text): (r: Parse<Value>)
    ensures r.Done? ==> |r.rest| < |s|
    decreases |s|, 0
  {
    if s == [] then Fail
    else match KindOf(s[0])
      case KNil => Done(Null, s[1..])
      case KBool => Done(Bool(s[0] == 0xc3), s[1..])
      case KInt => (var p := UnpackInt(s); if p.Fail? then Fail else Done(Int(p.value), p.rest))
      case KStr => (var p := UnpackStr(s); if p.Fail? then Fail else Done(Str(p.value), p.rest))
      case KArray =>
        var n := ArrayCount(s);
        if n.Fail? then Fail
        else
          var p := UnpackedItems(n.rest, n.value);
          if p.Fail? then Fail else Done(Arr(p.value), p.rest)
      case KMap =>
        var n := MapCount(s);
        if n.Fail? then Fail
        else
          var p := UnpackedMembers(n.rest, n.value);
          if p.Fail? then Fail else Done(Obj(p.value), p.rest)
      case _ => Fail
  }

  function UnpackedItems(s: Text, n: nat): (r: Parse<seq<Value>>)
    ensures r.Done? ==> |r.rest| <= |s|
    decreases |s|, n + 1
  {
    if n == 0 then Done([], s)
    else
      var v := Unpacked(s);
      if v.Fail? then Fail
      else
        var more := UnpackedItems(v.rest, n - 1);
        if more.Fail? then Fail else Done([v.value] + more.value, more.rest)
  }

  function UnpackedMember(s: Text): (r: Parse<Member>)
    ensures r.Done? ==> |r.rest| < |s|
    decreases |s|, 0
  {
    if s == [] || KindOf(s[0]) != KStr then Fail
    else
      var key := UnpackStr(s);
      if key.Fail? then Fail
      else
        var v := Unpacked(key.rest);
        if v.Fail? then Fail else Done(Member(key.value, v.value), v.rest)
  }

  function UnpackedMembers(s: Text, n: nat): (r: Parse<seq<Member>>)
    ensures r.Done? ==> |r.rest| <= |s|
    decreases |s|, n + 1
  {
    if n == 0 then Done([], s)
    else
      var m := UnpackedMember(s);
      if m.Fail? then Fail
      else
        var more := UnpackedMembers(m.rest, n - 1);
        if more.Fail? then Fail else Done([m.value] + more.value, more.rest)
  }

  /** A whole frame, nothing trailing. */
  function Frame(s: Text): Parse<Value> {
    var v := Unpacked(s);
    if v.Done? && v.rest == [] then v else Fail
  }

  /** Pass over any value; byte strings too, which the bridge itself refuses. */
  function Skipped(s: Text): (r: Parse<()>)
    ensures r.Done? ==> |r.rest| < |s|
    decreases |s|, 0
  {
    if s == [] then Fail
    else match KindOf(s[0])
      case KNil => Done((), s[1..])
      case KBool => Done((), s[1..])
      case KInt => (var p := UnpackInt(s); if p.Fail? then Fail else Done((), p.rest))
      case KStr => (var p := UnpackStr(s); if p.Fail? then Fail else Done((), p.rest))
      case KBin => (var p := UnpackBin(s); if p.Fail? then Fail else Done((), p.rest))
      case KArray => (var n := ArrayCount(s); if n.Fail? then Fail else SkippedMany(n.rest, n.value))
      case KMap => (var n := MapCount(s); if n.Fail? then Fail else SkippedMany(n.rest, 2 * n.value))
      case _ => Fail
  }

  function SkippedMany(s: Text, n: nat): (r: Parse<()>)
    ensures r.Done? ==> |r.rest| <= |s|
    decreases |s|, n + 1
  {
    if n == 0 then Done((), s)
    else
      var one := Skipped(s);
      if one.Fail? then Fail else SkippedMany(one.rest, n - 1)
  }

  // ── Unpacking undoes packing ──

  lemma WordBack(v: nat, n: nat, rest: Text)
    requires v < Pow256(n)
    ensures Word(BeBytes(v, n) + rest, n) == Done(v, rest)
  {
    BeBack(v, n);
    assert (BeBytes(v, n) + rest)[..n] == BeBytes(v, n);
    assert (BeBytes(v, n) + rest)[n..] == rest;
  }

  lemma TaggedBack(tag: byte, v: nat, n: nat, rest: Text)
    requires v < Pow256(n)
    ensures var s := Tagged(tag, v, n) + rest; s[0] == tag && Word(s[1..], n) == Done(v, rest)
  {
    WordBack(v, n, rest);
    assert (Tagged(tag, v, n) + rest)[1..] == BeBytes(v, n) + rest;
  }

  lemma IntBack(i: int, rest: Text)
    requires I64_MIN <= i <= I64_MAX
    ensures UnpackInt(PackedInt(i) + rest) == Done(i, rest) && KindOf((PackedInt(i) + rest)[0]) == KInt
  {
    hide Word, Tagged, BeBytes;
    Powers();
    var s := PackedInt(i) + rest;
    if -32 <= i <= 0x7f {
      assert s[1..] == rest;
    } else if i >= 0 {
      if i <= 0xff { TaggedBack(0xcc, i, 1, rest); }
      else if i <= 0xffff { TaggedBack(0xcd, i, 2, rest); }
      else if i <= 0xffffffff { TaggedBack(0xce, i, 4, rest); }
      else { TaggedBack(0xcf, i, 8, rest); }
    } else {
      if i >= -128 { TaggedBack(0xd0, i + 0x100, 1, rest); }
      else if i >= -32768 { TaggedBack(0xd1, i + 0x1_0000, 2, rest); }
      else if i >= -2147483648 { TaggedBack(0xd2, i + U32, 4, rest); }
      else { TaggedBack(0xd3, i + (U64_MAX + 1), 8, rest); }
    }
  }

  /** No valid encoding of an integer is shorter than the one the packer writes. */
  lemma SmallestInt(i: int, s: Text)
    requires I64_MIN <= i <= I64_MAX && UnpackInt(s) == Done(i, [])
    ensures |PackedInt(i)| <= |s|
  {
    hide BeValue, BeBytes;
    Powers();
    if |s| > 1 { BeBounded(s[1..]); }
    assert |s| > 1 && s[0] !in {0xcf, 0xd3} ==> s[1..][..|s| - 1] == s[1..];
  }

  lemma StrBack(t: Text, rest: Text)
    requires |t| < U32
    ensures UnpackStr(PackedStr(t) + rest) == Done(t, rest) && KindOf((PackedStr(t) + rest)[0]) == KStr
  {
    hide Word, Tagged, BeBytes;
    Powers();
    var n, s := |t|, PackedStr(t) + rest;
    assert s == StrHeader(n) + (t + rest);
    if n <= 31 { assert s[1..] == t + rest; }
    else if n <= 0xff { TaggedBack(0xd9, n, 1, t + rest); }
    else if n <= 0xffff { TaggedBack(0xda, n, 2, t + rest); }
    else { TaggedBack(0xdb, n, 4, t + rest); }
    assert StrLength(s) == Done(n, t + rest);
    assert (t + rest)[..n] == t && (t + rest)[n..] == rest;
  }

  lemma BinBack(b: Text, rest: Text)
    requires |b| < U32
    ensures UnpackBin(PackedBin(b) + rest) == Done(b, rest) && KindOf((PackedBin(b) + rest)[0]) == KBin
  {
    hide Word, Tagged, BeBytes;
    Powers();
    var n, s := |b|, PackedBin(b) + rest;
    assert s == BinHeader(n) + (b + rest);
    if n <= 0xff { TaggedBack(0xc4, n, 1, b + rest); }
    else if n <= 0xffff { TaggedBack(0xc5, n, 2, b + rest); }
    else { TaggedBack(0xc6, n, 4, b + rest); }
    assert BinLength(s) == Done(n, b + rest);
    assert (b + rest)[..n] == b && (b + rest)[n..] == rest;
  }

  lemma HeaderBack(fix: byte, wide: byte, n: nat, rest: Text)
    requires fix <= 0xf0 && fix as int + 15 < wide as int < 0xff && n < U32
    ensures Count(Header(fix, wide, n) + rest, fix, wide) == Done(n, rest)
    ensures n <= 15 ==> (Header(fix, wide, n) + rest)[0] == fix + n as byte
    ensures n > 15 ==> (Header(fix, wide, n) + rest)[0] in {wide, wide + 1}
  {
    hide Word, Tagged, BeBytes;
    Powers();
    var s := Header(fix, wide, n) + rest;
    if n <= 15 { assert s[1..] == rest; }
    else if n <= 0xffff { TaggedBack(wide, n, 2, rest); }
    else { TaggedBack(wide + 1, n, 4, rest); }
  }

  /** The reader gives back the value that was packed, and leaves what follows it. */
  lemma {:induction false} PackedBack(v: Value, rest: Text)
    requires Exact(v) && Sized(v)
    ensures Unpacked(Packed(v) + rest) == Done(v, rest)
    decreases v
  {
    hide UnpackStr, PackedStr, UnpackInt, PackedInt, UnpackedItems, UnpackedMembers, PackedItems, PackedMembers;
    var s := Packed(v) + rest;
    match v
    case Null => assert s[1..] == rest;
    case Bool(b) => assert s[1..] == rest;
    case Int(i) => IntBack(i, rest);
    case Str(t) => StrBack(t, rest);
    case Arr(items) => ArrayBack(v, rest);
    case Obj(members) => MapBack(v, rest);
  }

  lemma {:induction false} ArrayBack(v: Value, rest: Text)
    requires v.Arr? && Exact(v) && Sized(v)
    ensures Unpacked(Packed(v) + rest) == Done(v, rest)
    decreases v, |v.items| + 1
  {
    hide Header, UnpackedItems, PackedItems, Count;
    var tail := PackedItems(v, v.items) + rest;
    var s := ArrayHeader(|v.items|) + tail;
    assert Packed(v) + rest == s;
    HeaderBack(0x90, 0xdc, |v.items|, tail);
    PackedItemsBack(v, v.items, rest);
    assert KindOf(s[0]) == KArray && ArrayCount(s) == Done(|v.items|, tail);
  }

  lemma {:induction false} MapBack(v: Value, rest: Text)
    requires v.Obj? && Exact(v) && Sized(v)
    ensures Unpacked(Packed(v) + rest) == Done(v, rest)
    decreases v, |v.members| + 1
  {
    hide Header, UnpackedMembers, PackedMembers, Count;
    var tail := PackedMembers(v, v.members) + rest;
    var s := MapHeader(|v.members|) + tail;
    assert Packed(v) + rest == s;
    HeaderBack(0x80, 0xde, |v.members|, tail);
    PackedMembersBack(v, v.members, rest);
    assert KindOf(s[0]) == KMap && MapCount(s) == Done(|v.members|, tail);
  }

  lemma {:induction false} PackedItemsBack(v: Value, items: seq<Value>, rest: Text)
    requires forall k :: 0 <= k < |items| ==> items[k] < v && Exact(items[k]) && Sized(items[k])
    ensures UnpackedItems(PackedItems(v, items) + rest, |items|) == Done(items, rest)
    decreases v, |items|
  {
    hide Unpacked, Packed, Exact, Sized;
    if items == [] {
      assert PackedItems(v, items) + rest == rest;
    } else {
      var tail := PackedItems(v, items[1..]) + rest;
      assert PackedItems(v, items) + rest == Packed(items[0]) + tail;
      PackedBack(items[0], tail);
      PackedItemsBack(v, items[1..], rest);
      assert items == [items[0]] + items[1..];
    }
  }

  lemma {:induction false} PackedMembersBack(v: Value, members: seq<Member>, rest: Text)
    requires forall k :: 0 <= k < |members| ==>
               members[k].value < v && Exact(members[k].value) && |members[k].key| < U32 && Sized(members[k].value)
    ensures UnpackedMembers(PackedMembers(v, members) + rest, |members|) == Done(members, rest)
    decreases v, |members|
  {
    hide PackedStr, UnpackStr, Unpacked, Packed, Exact, Sized, UnpackedMember;
    if members == [] {
      assert PackedMembers(v, members) + rest == rest;
    } else {
      var m, tail := members[0], PackedMembers(v, members[1..]) + rest;
      var s := PackedStr(m.key) + (Packed(m.value) + tail);
      assert PackedMembers(v, members) + rest == s;
      PackedBack(m.value, tail);
      PackedMembersBack(v, members[1..], rest);
      MemberRead(m.key, Packed(m.value) + tail);
      assert UnpackedMember(s) == Done(m, tail);
      assert members == [m] + members[1..];
    }
  }

  lemma MemberRead(key: Text, after: Text)
    requires |key| < U32
    ensures UnpackedMember(PackedStr(key) + after)
         == (var v := Unpacked(after); if v.Fail? then Fail else Done(Member(key, v.value), v.rest))
  {
    hide PackedStr, UnpackStr, Unpacked;
    StrBack(key, after);
  }

  lemma FrameRoundTrip(v: Value)
    requires Exact(v) && Sized(v)
    ensures Frame(Packed(v)) == Done(v, [])
  {
    PackedBack(v, []);
    assert Packed(v) + [] == Packed(v);
  }

  // ── Skipping ──

  /** Skipping stops exactly where reading would: an unknown member can be passed over unread. */
  lemma {:induction false} SkipsWhatIsRead(s: Text)
    requires Unpacked(s).Done?
    ensures Skipped(s) == Done((), Unpacked(s).rest)
    decreases |s|, 0
  {
    if KindOf(s[0]) == KArray {
      var n := ArrayCount(s);
      SkipsItems(n.rest, n.value);
    } else if KindOf(s[0]) == KMap {
      var n := MapCount(s);
      SkipsMembers(n.rest, n.value);
    }
  }

  lemma {:induction false} SkipsItems(s: Text, n: nat)
    requires UnpackedItems(s, n).Done?
    ensures SkippedMany(s, n) == Done((), UnpackedItems(s, n).rest)
    decreases |s|, n + 1
  {
    if n > 0 {
      SkipsWhatIsRead(s);
      SkipsItems(Unpacked(s).rest, n - 1);
    }
  }

  lemma SkipsKey(s: Text)
    requires s != [] && KindOf(s[0]) == KStr && UnpackStr(s).Done?
    ensures Skipped(s) == Done((), UnpackStr(s).rest)
  {
    hide UnpackStr;
  }

  lemma SkipOne(s: Text, n: nat)
    requires n > 0 && Skipped(s).Done?
    ensures SkippedMany(s, n) == SkippedMany(Skipped(s).rest, n - 1)
  {
    hide Skipped;
  }

  lemma {:induction false} SkipsMembers(s: Text, n: nat)
    requires UnpackedMembers(s, n).Done?
    ensures SkippedMany(s, 2 * n) == Done((), UnpackedMembers(s, n).rest)
    decreases |s|, n + 1
  {
    hide UnpackStr, Unpacked, Skipped;
    if n > 0 {
      var key := UnpackStr(s);
      SkipsKey(s);
      SkipsWhatIsRead(key.rest);
      SkipsMembers(UnpackedMember(s).rest, n - 1);
      SkipOne(s, 2 * n);
      SkipOne(key.rest, 2 * n - 1);
    } else {
      assert 2 * n == 0;
    }
  }
}
