/** The packer's growing buffer and the unpacker's moving cursor. */
module MsgPackIo {
  import opened Bytes
  import opened Json
  import opened MsgPack

  class MsgPacker {
    var buf: Text

    constructor ()
      ensures buf == []
    {
      buf := [];
    }

    method PushBytes(v: nat, n: nat)
      modifies this
      ensures buf == old(buf) + BeBytes(v, n)
    {
      var i := n;
      ghost var start := buf;
      while i > 0
        invariant 0 <= i <= n && buf == start + BeBytes(v, n)[..n - i]
      {
        BeAt(v, n, n - i);
        assert BeBytes(v, n)[..n - i + 1] == BeBytes(v, n)[..n - i] + [BeBytes(v, n)[n - i]];
        i := i - 1;
        buf := buf + [(v / Pow256(i) % 256) as byte];
      }
      assert BeBytes(v, n)[..n] == BeBytes(v, n);
    }

    method Push(tag: byte)
      modifies this
      ensures buf == old(buf) + [tag]
    {
      buf := buf + [tag];
    }

    method PushTagged(tag: byte, v: nat, n: nat)
      modifies this
      ensures buf == old(buf) + Tagged(tag, v, n)
    {
      Push(tag);
      PushBytes(v, n);
    }

    method I64(v: int)
      requires I64_MIN <= v <= I64_MAX
      modifies this
      ensures buf == old(buf) + PackedInt(v)
    {
      hide Tagged;
      if v >= 0 {
        if v <= 0x7f { Push(v as byte); }
        else if v <= 0xff { PushTagged(0xcc, v, 1); }
        else if v <= 0xffff { PushTagged(0xcd, v, 2); }
        else if v <= 0xffffffff { PushTagged(0xce, v, 4); }
        else { PushTagged(0xcf, v, 8); }
      } else {
        if v >= -32 { Push((v + 0x100) as byte); }
        else if v >= -128 { PushTagged(0xd0, v + 0x100, 1); }
        else if v >= -32768 { PushTagged(0xd1, v + 0x1_0000, 2); }
        else if v >= -2147483648 { PushTagged(0xd2, v + U32, 4); }
        else { PushTagged(0xd3, v + (U64_MAX + 1), 8); }
      }
    }

    method Str(s: Text)
      modifies this
      ensures buf == old(buf) + PackedStr(s)
    {
      hide Tagged;
      var n := |s|;
      if n <= 31 { Push((0xa0 + n) as byte); }
      else if n <= 0xff { PushTagged(0xd9, n, 1); }
      else if n <= 0xffff { PushTagged(0xda, n, 2); }
      else { PushTagged(0xdb, n, 4); }
      assert old(buf) + StrHeader(n) + s == old(buf) + PackedStr(s);
      buf := buf + s;
    }

    method Bin(b: Text)
      modifies this
      ensures buf == old(buf) + PackedBin(b)
    {
      hide Tagged;
      var n := |b|;
      if n <= 0xff { PushTagged(0xc4, n, 1); }
      else if n <= 0xffff { PushTagged(0xc5, n, 2); }
      else { PushTagged(0xc6, n, 4); }
      assert old(buf) + BinHeader(n) + b == old(buf) + PackedBin(b);
      buf := buf + b;
    }

    method WriteHeader(fix: byte, wide: byte, n: nat)
      requires fix <= 0xf0 && wide < 0xff && n < U32
      modifies this
      ensures buf == old(buf) + Header(fix, wide, n)
    {
      hide Tagged;
      if n <= 15 { Push(fix + n as byte); }
      else if n <= 0xffff { PushTagged(wide, n, 2); }
      else { PushTagged(wide + 1, n, 4); }
    }

    /** Pack a value; a floating-point number anywhere in it is refused. */
    method PackJson(v: Value) returns (ok: bool)
      requires Bounded(v)
      modifies this
      ensures ok == Exact(v)
      ensures ok ==> buf == old(buf) + Packed(v)
      decreases v
    {
      ok := true;
      match v {
        case Null => Push(0xc0);
        case Bool(b) => Push(if b then 0xc3 else 0xc2);
        case Int(i) => I64(i);
        case Real(_) => ok := false;
        case Str(s) => Str(s);
        case Arr(items) => ok := PackItems(v);
        case Obj(members) => ok := PackMembers(v);
      }
    }

    method PackItems(v: Value) returns (ok: bool)
      requires Bounded(v) && v.Arr?
      modifies this
      ensures ok == Exact(v)
      ensures ok ==> buf == old(buf) + Packed(v)
      decreases v, 0
    {
      hide Header, Packed, PackedItems;
      var items := v.items;
      WriteHeader(0x90, 0xdc, |items| % U32);
      ghost var start := buf;
      PackedNone(v);
      for i := 0 to |items|
        invariant forall k :: 0 <= k < i ==> Exact(items[k])
        invariant buf == start + PackedItems(v, items[..i])
      {
        ok := PackJson(items[i]);
        if !ok { return; }
        PackedItemsSnoc(v, items[..i], items[i]);
        assert items[..i + 1] == items[..i] + [items[i]];
      }
      assert items[..|items|] == items;
      PackedArr(v);
      assert old(buf) + ArrayHeader(|items|) + PackedItems(v, items) == old(buf) + Packed(v);
      ok := true;
    }

    method PackMembers(v: Value) returns (ok: bool)
      requires Bounded(v) && v.Obj?
      modifies this
      ensures ok == Exact(v)
      ensures ok ==> buf == old(buf) + Packed(v)
      decreases v, 0
    {
      hide Header, Packed, PackedStr, PackedMembers;
      var members := v.members;
      WriteHeader(0x80, 0xde, |members| % U32);
      ghost var start := buf;
      PackedNone(v);
      for i := 0 to |members|
        invariant forall k :: 0 <= k < i ==> Exact(members[k].value)
        invariant buf == start + PackedMembers(v, members[..i])
      {
        ghost var done := PackedMembers(v, members[..i]);
        Str(members[i].key);
        ok := PackJson(members[i].value);
        if !ok { return; }
        PackedMembersSnoc(v, members[..i], members[i]);
        assert members[..i + 1] == members[..i] + [members[i]];
        assert buf == start + (done + PackedStr(members[i].key) + Packed(members[i].value));
      }
      assert members[..|members|] == members;
      PackedObj(v);
      assert old(buf) + MapHeader(|members|) + PackedMembers(v, members) == old(buf) + Packed(v);
      ok := true;
    }
  }

  /** Integers are 64-bit ones, as the tree's type makes them. */
  predicate Bounded(v: Value) {
    match v
    case Int(i) => I64_MIN <= i <= I64_MAX
    case Arr(items) => forall k :: 0 <= k < |items| ==> Bounded(items[k])
    case Obj(members) => forall k :: 0 <= k < |members| ==> Bounded(members[k].value)
    case _ => true
  }

  lemma PackedNone(v: Value)
    ensures PackedItems(v, []) == [] && PackedMembers(v, []) == []
  {
  }

  lemma PackedArr(v: Value)
    requires v.Arr? && Exact(v)
    ensures Packed(v) == ArrayHeader(|v.items|) + PackedItems(v, v.items)
  {
  }

  lemma PackedObj(v: Value)
    requires v.Obj? && Exact(v)
    ensures Packed(v) == MapHeader(|v.members|) + PackedMembers(v, v.members)
  {
  }

  lemma {:induction false} PackedItemsSnoc(v: Value, items: seq<Value>, x: Value)
    requires (forall k :: 0 <= k < |items| ==> items[k] < v && Exact(items[k])) && x < v && Exact(x)
    ensures PackedItems(v, items + [x]) == PackedItems(v, items) + Packed(x)
    decreases |items|
  {
    hide Packed, Exact;
    if items == [] {
      assert items + [x] == [x] && [x][1..] == [];
    } else {
      PackedItemsSnoc(v, items[1..], x);
      assert (items + [x])[1..] == items[1..] + [x];
      assert PackedItems(v, items + [x]) == Packed(items[0]) + PackedItems(v, items[1..] + [x]);
    }
  }

  lemma {:induction false} PackedMembersSnoc(v: Value, members: seq<Member>, x: Member)
    requires (forall k :: 0 <= k < |members| ==> members[k].value < v && Exact(members[k].value)) && x.value < v
        && Exact(x.value)
    ensures PackedMembers(v, members + [x]) == PackedMembers(v, members) + PackedStr(x.key) + Packed(x.value)
    decreases |members|
  {
    hide Packed, Exact, PackedStr;
    if members == [] {
      assert members + [x] == [x] && [x][1..] == [];
    } else {
      PackedMembersSnoc(v, members[1..], x);
      assert (members + [x])[1..] == members[1..] + [x];
      assert PackedMembers(v, members + [x])
          == PackedStr(members[0].key) + Packed(members[0].value) + PackedMembers(v, members[1..] + [x]);
    }
  }

  /** Byte `k` of the big-endian form. */
  lemma {:induction false} BeAt(v: nat, n: nat, k: nat)
    requires k < n
    ensures BeBytes(v, n)[k] == (v / Pow256(n - 1 - k) % 256) as byte
    decreases n
  {
    if k < n - 1 {
      BeAt(v / 256, n - 1, k);
      DivDiv(v, Pow256(n - 2 - k));
    }
  }

  lemma DivDiv(v: nat, p: nat)
    requires p > 0
    ensures v / 256 / p == v / (256 * p)
  {
    var q := v / 256 / p;
    var r := v / 256 % p;
    assert v / 256 == q * p + r;
    assert v == 256 * (v / 256) + v % 256;
    assert v == q * (256 * p) + (256 * r + v % 256);
    assert 256 * r + v % 256 < 256 * p;
    Quotient(v, 256 * p, q, 256 * r + v % 256);
  }

  lemma Quotient(v: nat, d: nat, q: nat, r: nat)
    requires v == q * d + r && r < d
    ensures v / d == q
  {
    Mono(q + 1, v / d, d);
    Mono(v / d + 1, q, d);
  }

  lemma Mono(a: nat, b: nat, d: nat)
    ensures a <= b ==> a * d <= b * d
  {
  }

  // ── Unpacker ──

  class MsgUnpacker {
    const src: Text
    var p: nat

    predicate Valid()
      reads this
    {
      p <= |src|
    }

    function Rest(): Text
      reads this
      requires Valid()
    {
      src[p..]
    }

    constructor (src: Text)
      ensures this.src == src && p == 0 && Valid()
    {
      this.src, p := src, 0;
    }

    predicate Eof()
      reads this
    {
      p >= |src|
    }

    /** What was read is what the format says, and the cursor stands behind it. */
    twostate predicate Got<A>(ok: bool, new value: A, new r: Parse<A>)
      reads this
    {
      && ok == r.Done?
      && (ok ==> Valid() && value == r.value && Rest() == r.rest && old(p) <= p)
    }

    method ReadWord(n: nat) returns (ok: bool, v: nat)
      requires Valid()
      modifies this
      ensures Got(ok, v, Word(old(Rest()), n))
    {
      v := 0;
      if |src| - p < n { return false, v; }
      for i := 0 to n
        invariant v == BeValue(src[p..p + i])
      {
        assert src[p..p + (i + 1)][..i] == src[p..p + i];
        v := v * 256 + src[p + i] as int;
      }
      assert src[p..][..n] == src[p..p + n];
      assert src[p..][n..] == src[p + n..];
      p := p + n;
      ok := true;
    }

    /** The tag byte at the cursor, consumed. */
    method Tag() returns (b: byte)
      requires Valid() && !Eof()
      modifies this
      ensures Valid() && p == old(p) + 1 && b == src[old(p)] && old(Rest()) == [b] + Rest()
    {
      b := src[p];
      p := p + 1;
    }

    method ReadSigned(n: nat, half: nat) returns (ok: bool, v: int)
      requires Valid()
      modifies this
      ensures Got(ok, v, Signed(Word(old(Rest()), n), half))
    {
      var u;
      ok, u := ReadWord(n);
      v := if u < half then u else u - 2 * half;
    }

    method ReadI64() returns (ok: bool, v: int)
      requires Valid()
      modifies this
      ensures Got(ok, v, UnpackInt(old(Rest())))
    {
      hide Word, Signed;
      v := 0;
      if Eof() { return false, v; }
      var b := Tag();
      assert old(Rest())[1..] == Rest();
      if b <= 0x7f { return true, b as int; }
      if b >= 0xe0 { return true, b as int - 0x100; }
      if b == 0xcc { ok, v := ReadWord(1); }
      else if b == 0xcd { ok, v := ReadWord(2); }
      else if b == 0xce { ok, v := ReadWord(4); }
      else if b == 0xcf {
        ok, v := ReadWord(8);
        if ok && v > I64_MAX { ok := false; }
      }
      else if b == 0xd0 { ok, v := ReadSigned(1, 0x80); }
      else if b == 0xd1 { ok, v := ReadSigned(2, 0x8000); }
      else if b == 0xd2 { ok, v := ReadSigned(4, 0x8000_0000); }
      else if b == 0xd3 { ok, v := ReadSigned(8, 0x8000_0000_0000_0000); }
      else { ok := false; }
    }

    method ReadLength() returns (ok: bool, n: nat)
      requires Valid()
      modifies this
      ensures Got(ok, n, StrLength(old(Rest())))
    {
      hide Word;
      n := 0;
      if Eof() { return false, n; }
      var b := Tag();
      assert old(Rest())[1..] == Rest();
      if 0xa0 <= b <= 0xbf { return true, b as int - 0xa0; }
      if b == 0xd9 { ok, n := ReadWord(1); }
      else if b == 0xda { ok, n := ReadWord(2); }
      else if b == 0xdb { ok, n := ReadWord(4); }
      else { ok := false; }
    }

    method TakeBytes(n: nat) returns (ok: bool, out: Text)
      requires Valid()
      modifies this
      ensures Got(ok, out, Take(Done(n, old(Rest()))))
    {
      out := [];
      if |src| - p < n { return false, out; }
      ok, out := true, src[p..p + n];
      assert src[p..][..n] == out && src[p..][n..] == src[p + n..];
      p := p + n;
    }

    method ReadStr() returns (ok: bool, out: Text)
      requires Valid()
      modifies this
      ensures Got(ok, out, UnpackStr(old(Rest())))
    {
      hide StrLength;
      var n;
      out := [];
      ok, n := ReadLength();
      if ok { ok, out := TakeBytes(n); }
    }

    method ReadBinLength() returns (ok: bool, n: nat)
      requires Valid()
      modifies this
      ensures Got(ok, n, BinLength(old(Rest())))
    {
      hide Word;
      n := 0;
      if Eof() { return false, n; }
      var b := Tag();
      assert old(Rest())[1..] == Rest();
      if b == 0xc4 { ok, n := ReadWord(1); }
      else if b == 0xc5 { ok, n := ReadWord(2); }
      else if b == 0xc6 { ok, n := ReadWord(4); }
      else { ok := false; }
    }

    method ReadBin() returns (ok: bool, out: Text)
      requires Valid()
      modifies this
      ensures Got(ok, out, UnpackBin(old(Rest())))
    {
      hide BinLength;
      var n;
      out := [];
      ok, n := ReadBinLength();
      if ok { ok, out := TakeBytes(n); }
    }

    method ReadCount(fix: byte, wide: byte) returns (ok: bool, n: nat)
      requires Valid() && fix <= 0xf0 && wide < 0xff
      modifies this
      ensures Got(ok, n, Count(old(Rest()), fix, wide))
    {
      hide Word;
      n := 0;
      if Eof() { return false, n; }
      var b := Tag();
      assert old(Rest())[1..] == Rest();
      if fix <= b <= fix + 15 { return true, b as int - fix as int; }
      if b == wide { ok, n := ReadWord(2); }
      else if b == wide + 1 { ok, n := ReadWord(4); }
      else { ok := false; }
    }

    method UnpackJson() returns (ok: bool, v: Value)
      requires Valid()
      modifies this
      ensures Got(ok, v, Unpacked(old(Rest())))
      decreases |src| - p, 1
    {
      hide UnpackInt, UnpackStr, Count, UnpackedItems, UnpackedMembers;
      v := Null;
      if Eof() { return false, v; }
      match KindOf(src[p]) {
        case KNil =>
          var _ := Tag();
          assert old(Rest())[1..] == Rest();
          ok := true;
        case KBool =>
          var b := Tag();
          assert old(Rest())[1..] == Rest();
          ok, v := true, Bool(b == 0xc3);
        case KInt =>
          var i;
          ok, i := ReadI64();
          v := Int(i);
        case KStr =>
          var s;
          ok, s := ReadStr();
          v := Str(s);
        case KArray =>
          var n;
          ok, n := ReadCount(0x90, 0xdc);
          if !ok { return; }
          var items;
          ok, items := UnpackItems(n);
          v := Arr(items);
        case KMap =>
          var n;
          ok, n := ReadCount(0x80, 0xde);
          if !ok { return; }
          var members;
          ok, members := UnpackMembers(n);
          v := Obj(members);
        case _ => ok := false;
      }
    }

    method UnpackItems(n: nat) returns (ok: bool, items: seq<Value>)
      requires Valid()
      modifies this
      ensures Got(ok, items, UnpackedItems(old(Rest()), n))
      decreases |src| - p, 2
    {
      hide Unpacked;
      items, ok := [], true;
      ghost var goal := UnpackedItems(Rest(), n);
      FollowsNothing(goal);
      for i := 0 to n
        invariant Valid() && old(p) <= p && ok && goal == Followed(items, UnpackedItems(Rest(), n - i))
      {
        var item;
        ok, item := UnpackJson();
        if !ok { return; }
        FollowsOne(items, item, UnpackedItems(Rest(), n - i - 1));
        items := items + [item];
      }
      assert items + [] == items;
    }

    method UnpackMember() returns (ok: bool, m: Member)
      requires Valid()
      modifies this
      ensures Got(ok, m, UnpackedMember(old(Rest())))
      decreases |src| - p, 2
    {
      hide Unpacked, UnpackStr;
      m := Member([], Null);
      if Eof() || KindOf(src[p]) != KStr { return false, m; }
      var key, value;
      ok, key := ReadStr();
      if !ok { return; }
      ok, value := UnpackJson();
      m := Member(key, value);
    }

    method UnpackMembers(n: nat) returns (ok: bool, members: seq<Member>)
      requires Valid()
      modifies this
      ensures Got(ok, members, UnpackedMembers(old(Rest()), n))
      decreases |src| - p, 3
    {
      hide UnpackedMember;
      members, ok := [], true;
      ghost var goal := UnpackedMembers(Rest(), n);
      FollowsNothing(goal);
      for i := 0 to n
        invariant Valid() && old(p) <= p && ok && goal == Followed(members, UnpackedMembers(Rest(), n - i))
      {
        var m;
        ok, m := UnpackMember();
        if !ok { return; }
        FollowsOne(members, m, UnpackedMembers(Rest(), n - i - 1));
        members := members + [m];
      }
      assert members + [] == members;
    }

    /** Pass over one value, whatever it is. */
    method Skip() returns (ok: bool)
      requires Valid()
      modifies this
      ensures Got(ok, (), Skipped(old(Rest())))
      decreases |src| - p, 1
    {
      hide UnpackInt, UnpackStr, UnpackBin, Count, SkippedMany;
      if Eof() { return false; }
      match KindOf(src[p]) {
        case KNil =>
          var _ := Tag();
          assert old(Rest())[1..] == Rest();
          ok := true;
        case KBool =>
          var _ := Tag();
          assert old(Rest())[1..] == Rest();
          ok := true;
        case KInt =>
          var i;
          ok, i := ReadI64();
        case KStr =>
          var s;
          ok, s := ReadStr();
        case KBin =>
          var s;
          ok, s := ReadBin();
        case KArray =>
          var n;
          ok, n := ReadCount(0x90, 0xdc);
          if !ok { return; }
          ok := SkipMany(n);
        case KMap =>
          var n;
          ok, n := ReadCount(0x80, 0xde);
          if !ok { return; }
          ok := SkipMany(2 * n);
        case _ => ok := false;
      }
    }

    method SkipMany(n: nat) returns (ok: bool)
      requires Valid()
      modifies this
      ensures Got(ok, (), SkippedMany(old(Rest()), n))
      decreases |src| - p, 2
    {
      hide Skipped;
      ok := true;
      for i := 0 to n
        invariant Valid() && old(p) <= p && ok && SkippedMany(old(Rest()), n) == SkippedMany(Rest(), n - i)
      {
        ok := Skip();
        if !ok { return; }
      }
    }

    /** A whole frame, nothing trailing. */
    method ReadFrame() returns (ok: bool, v: Value)
      requires Valid() && p == 0
      modifies this
      ensures var f := Frame(src); ok == f.Done? && (ok ==> v == f.value)
    {
      hide Unpacked;
      assert Rest() == src;
      ok, v := UnpackJson();
      if ok && !Eof() { ok := false; }
    }
  }

  /** What the packer made, the unpacker reads back. */
  method PackThenUnpack(v: Value) returns (ok: bool, w: Value)
    requires Exact(v) && Sized(v) && Bounded(v)
    ensures ok && w == v
  {
    var packer := new MsgPacker();
    var packed := packer.PackJson(v);
    assert [] + Packed(v) == Packed(v);
    FrameRoundTrip(v);
    var unpacker := new MsgUnpacker(packer.buf);
    ok, w := unpacker.ReadFrame();
  }
}
