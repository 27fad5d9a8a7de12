/** The writer and the cursor-driven parser, as they run. */
module JsonParser {
  import opened Bytes
  import opened Json

  // ── Writer ──

  lemma Split(a: Text, b: Text, c: Text)
    ensures a + (b + c) == a + b + c
  {
  }

  method WriteString(out: Text, s: Text) returns (r: Text)
    ensures r == out + Quoted(s)
  {
    r := out + [QUOTE];
    assert s[0..] == s;
    for i := 0 to |s|
      invariant r + EscapeAll(s[i..]) == out + [QUOTE] + EscapeAll(s)
    {
      var c := s[i];
      assert s[i..][1..] == s[i + 1..];
      Split(r, Escape(c), EscapeAll(s[i + 1..]));
      if c == QUOTE {
        r := r + [BACKSLASH, QUOTE];
      } else if c == BACKSLASH {
        r := r + [BACKSLASH, BACKSLASH];
      } else if c == LF {
        r := r + [BACKSLASH, LOWER_N];
      } else if c == CR {
        r := r + [BACKSLASH, LOWER_R];
      } else if c == TAB {
        r := r + [BACKSLASH, LOWER_T];
      } else if c == BS {
        r := r + [BACKSLASH, LOWER_B];
      } else if c == FF {
        r := r + [BACKSLASH, LOWER_F];
      } else if c < 0x20 {
        r := r + [BACKSLASH, LOWER_U, ZERO, ZERO, HexDigit(c as int / 16), HexDigit(c as int % 16)];
      } else {
        r := r + [c];
      }
    }
    assert EscapeAll(s[|s|..]) == [];
    assert out + [QUOTE] + EscapeAll(s) + [QUOTE] == out + Quoted(s);
    r := r + [QUOTE];
  }

  method WriteTo(out: Text, v: Value) returns (r: Text)
    ensures r == out + Written(v)
    decreases v
  {
    hide Quoted;
    match v {
      case Null => r := out + NULL_WORD;
      case Bool(b) => r := out + if b then TRUE_WORD else FALSE_WORD;
      case Int(i) => r := out + IntText(i);
      case Real(lexeme) => r := out + lexeme;
      case Str(s) => r := WriteString(out, s);
      case Arr(items) =>
        r := WriteItems(out + [OPEN_ARRAY], v);
        r := r + [CLOSE_ARRAY];
        assert out + [OPEN_ARRAY] + Items(v, items) + [CLOSE_ARRAY] == out + Written(v);
      case Obj(members) =>
        r := WriteMembers(out + [OPEN_OBJECT], v);
        r := r + [CLOSE_OBJECT];
        assert out + [OPEN_OBJECT] + Members(v, members) + [CLOSE_OBJECT] == out + Written(v);
    }
  }

  method WriteItems(out: Text, v: Value) returns (r: Text)
    requires v.Arr?
    ensures r == out + Items(v, v.items)
    decreases v, 0
  {
    hide Written, Items;
    r := out;
    Nothing(v);
    for i := 0 to |v.items|
      invariant r == out + Items(v, v.items[..i])
    {
      ItemsSnoc(v, v.items[..i], v.items[i]);
      assert v.items[..i + 1] == v.items[..i] + [v.items[i]];
      if i != 0 { r := r + [COMMA]; }
      r := WriteTo(r, v.items[i]);
    }
    assert v.items[..|v.items|] == v.items;
  }

  method WriteMembers(out: Text, v: Value) returns (r: Text)
    requires v.Obj?
    ensures r == out + Members(v, v.members)
    decreases v, 0
  {
    hide Written, Members, Quoted;
    r := out;
    Nothing(v);
    for i := 0 to |v.members|
      invariant r == out + Members(v, v.members[..i])
    {
      MembersSnoc(v, v.members[..i], v.members[i]);
      assert v.members[..i + 1] == v.members[..i] + [v.members[i]];
      if i != 0 { r := r + [COMMA]; }
      r := WriteString(r, v.members[i].key);
      r := r + [COLON];
      r := WriteTo(r, v.members[i].value);
    }
    assert v.members[..|v.members|] == v.members;
  }

  lemma Nothing(v: Value)
    ensures Items(v, []) == [] && Members(v, []) == []
  {
  }

  lemma Regroup(a: Text, b: Text, c: Text, d: Text)
    ensures a + b + (c + d) == a + b + c + d
  {
  }

  lemma {:induction false} ItemsSnoc(v: Value, items: seq<Value>, x: Value)
    requires (forall k :: 0 <= k < |items| ==> items[k] < v) && x < v
    ensures Items(v, items + [x]) == Items(v, items) + ((if items == [] then [] else [COMMA]) + Written(x))
    decreases |items|
  {
    hide Written, Pair, Quoted;
    if items == [] {
      assert items + [x] == [x];
    } else if |items| == 1 {
      assert (items + [x])[1..] == [x];
      assert Written(items[0]) + [COMMA] + Written(x) == Written(items[0]) + ([COMMA] + Written(x));
    } else {
      ItemsSnoc(v, items[1..], x);
      assert (items + [x])[1..] == items[1..] + [x];
      Regroup(Written(items[0]), [COMMA], Items(v, items[1..]), [COMMA] + Written(x));
    }
  }

  lemma {:induction false} MembersSnoc(v: Value, members: seq<Member>, x: Member)
    requires (forall k :: 0 <= k < |members| ==> members[k].value < v) && x.value < v
    ensures Members(v, members + [x]) == Members(v, members) + ((if members == [] then [] else [COMMA]) + Pair(v, x))
    decreases |members|
  {
    hide Written, Pair, Quoted;
    if members == [] {
      assert members + [x] == [x];
    } else if |members| == 1 {
      assert (members + [x])[1..] == [x];
      assert Pair(v, members[0]) + [COMMA] + Pair(v, x) == Pair(v, members[0]) + ([COMMA] + Pair(v, x));
    } else {
      MembersSnoc(v, members[1..], x);
      assert (members + [x])[1..] == members[1..] + [x];
      Regroup(Pair(v, members[0]), [COMMA], Members(v, members[1..]), [COMMA] + Pair(v, x));
    }
  }

  method WriteJson(v: Value) returns (r: Text)
    ensures r == Written(v)
  {
    r := WriteTo([], v);
  }

  // ── Parser ──

  lemma FloatingSnoc(token: Text, c: byte)
    ensures IsFloating(token + [c]) <==> IsFloating(token) || c == DOT || c == LOWER_E || c == UPPER_E
  {
    var t := token + [c];
    assert t[|token|] == c;
    if IsFloating(token) {
      var k :| 0 <= k < |token| && (token[k] == DOT || token[k] == LOWER_E || token[k] == UPPER_E);
      assert t[k] == token[k];
    }
  }

  class Cursor {
    const src: Text
    var pos: nat

    predicate Valid()
      reads this
    {
      pos <= |src|
    }

    function Rest(): Text
      reads this
      requires Valid()
    {
      src[pos..]
    }

    constructor (src: Text)
      ensures this.src == src && pos == 0 && Valid()
    {
      this.src, pos := src, 0;
    }

    /** The reader agrees with the specification and the cursor stands at what it leaves. */
    twostate predicate Read<A>(ok: bool, value: A, p: Parse<A>)
      reads this
    {
      && ok == p.Done?
      && (ok ==> Valid() && value == p.value && Rest() == p.rest && old(pos) < pos)
    }

    method SkipWs()
      requires Valid()
      modifies this
      ensures Valid() && old(pos) <= pos && Rest() == SkipSpace(old(Rest()))
    {
      while pos < |src|
        invariant Valid() && old(pos) <= pos && SkipSpace(Rest()) == SkipSpace(old(Rest()))
        decreases |src| - pos
      {
        var c := src[pos];
        if IsSpace(c) {
          assert src[pos..][1..] == src[pos + 1..];
          pos := pos + 1;
        } else {
          break;
        }
      }
    }

    method Literal(word: Text, v: Value) returns (ok: bool)
      requires Valid() && word != []
      modifies this
      ensures Read(ok, v, ReadWord(old(Rest()), word, v))
    {
      if |src| - pos < |word| { return false; }
      assert src[pos..][..|word|] == src[pos..pos + |word|];
      if src[pos..pos + |word|] != word { return false; }
      assert src[pos..][|word|..] == src[pos + |word|..];
      pos := pos + |word|;
      ok := true;
    }

    method Hex4() returns (ok: bool, v: int)
      requires Valid()
      modifies this
      ensures Read(ok, v, ReadHex4(old(Rest())))
    {
      v := 0;
      if |src| - pos < 4 { return false, v; }
      ghost var s := Rest();
      var bad := false;
      for i := 0 to 4
        invariant pos == old(pos) + i && !bad
        invariant i == 0 ==> v == 0
        invariant i == 1 ==> HexValue(s[0]) >= 0 && v == HexValue(s[0])
        invariant i == 2 ==> HexValue(s[0]) >= 0 && HexValue(s[1]) >= 0 && v == HexValue(s[0]) * 16 + HexValue(s[1])
        invariant i == 3 ==> HexValue(s[0]) >= 0 && HexValue(s[1]) >= 0 && HexValue(s[2]) >= 0
                             && v == (HexValue(s[0]) * 16 + HexValue(s[1])) * 16 + HexValue(s[2])
        invariant i == 4 ==> HexValue(s[0]) >= 0 && HexValue(s[1]) >= 0 && HexValue(s[2]) >= 0 && HexValue(s[3]) >= 0
                             && v == ((HexValue(s[0]) * 16 + HexValue(s[1])) * 16 + HexValue(s[2])) * 16
                                     + HexValue(s[3])
      {
        var d := HexValue(src[pos]);
        assert src[pos] == s[i];
        if d < 0 { return false, v; }
        v := v * 16 + d;
        pos := pos + 1;
      }
      assert s[4..] == src[pos..];
      ok := true;
    }

    method ParseUnicode() returns (ok: bool, out: Text)
      requires Valid()
      modifies this
      ensures Read(ok, out, ReadUnicode(old(Rest())))
    {
      var cp;
      out := [];
      ok, cp := Hex4();
      if !ok { return; }
      ghost var t := Rest();
      if 0xD800 <= cp <= 0xDBFF && |src| - pos >= 6 && src[pos] == BACKSLASH && src[pos + 1] == LOWER_U {
        var mark := pos;
        pos := pos + 2;
        assert Rest() == t[2..];
        var low;
        ok, low := Hex4();
        if !ok { return; }
        if 0xDC00 <= low <= 0xDFFF {
          cp := 0x10000 + (cp - 0xD800) * 1024 + (low - 0xDC00);
        } else {
          pos := mark;
        }
      }
      out := Utf8(cp);
    }

    method ParseEscape() returns (ok: bool, out: Text)
      requires Valid()
      modifies this
      ensures Read(ok, out, ReadEscape(old(Rest())))
    {
      out := [];
      if pos >= |src| { return false, out; }
      var esc := src[pos];
      assert src[pos..][1..] == src[pos + 1..];
      pos := pos + 1;
      ok := true;
      if esc == QUOTE || esc == BACKSLASH || esc == SLASH {
        out := [esc];
      } else if esc == LOWER_B {
        out := [BS];
      } else if esc == LOWER_F {
        out := [FF];
      } else if esc == LOWER_N {
        out := [LF];
      } else if esc == LOWER_R {
        out := [CR];
      } else if esc == LOWER_T {
        out := [TAB];
      } else if esc == LOWER_U {
        ok, out := ParseUnicode();
      } else {
        ok := false;
      }
    }

    method ParseString() returns (ok: bool, out: Text)
      requires Valid()
      modifies this
      ensures Read(ok, out, ReadString(old(Rest())))
    {
      hide ReadEscape;
      out := [];
      if pos >= |src| || src[pos] != QUOTE { return false, out; }
      ghost var goal := ReadChars(src[pos + 1..]);
      FollowsNothing(goal);
      assert src[pos..][1..] == src[pos + 1..];
      pos := pos + 1;
      while true
        invariant Valid() && old(pos) < pos && goal == Followed(out, ReadChars(Rest()))
        decreases |src| - pos
      {
        if pos >= |src| { return false, out; }
        var c := src[pos];
        ghost var here := Rest();
        assert here[1..] == src[pos + 1..];
        pos := pos + 1;
        if c == QUOTE {
          assert out + [] == out;
          return true, out;
        }
        if c != BACKSLASH {
          if ReadChars(Rest()).Done? { Split(out, [c], ReadChars(Rest()).value); }
          out := out + [c];
          continue;
        }
        var fine, piece := ParseEscape();
        if !fine { return false, out; }
        if ReadChars(Rest()).Done? { Split(out, piece, ReadChars(Rest()).value); }
        out := out + piece;
      }
    }

    /** Over everything a number may be made of; whether a dot or an exponent was seen. */
    method ScanNumber() returns (floating: bool)
      requires Valid()
      modifies this
      ensures Valid() && old(pos) <= pos && Rest() == NumberEnd(old(Rest()))
          && floating == IsFloating(src[old(pos)..pos])
    {
      floating := false;
      if pos < |src| && (src[pos] == MINUS || src[pos] == PLUS) {
        assert src[pos..][1..] == src[pos + 1..];
        pos := pos + 1;
      }
      while pos < |src|
        invariant Valid() && old(pos) <= pos && NumberEnd(Rest()) == NumberEnd(old(Rest()))
        invariant floating == IsFloating(src[old(pos)..pos])
        decreases |src| - pos
      {
        var c := src[pos];
        assert src[pos..][1..] == src[pos + 1..];
        assert src[old(pos)..pos + 1] == src[old(pos)..pos] + [c];
        FloatingSnoc(src[old(pos)..pos], c);
        if IsDigit(c) {
          pos := pos + 1;
        } else if c == DOT || c == LOWER_E || c == UPPER_E || c == PLUS || c == MINUS {
          floating := floating || c == DOT || c == LOWER_E || c == UPPER_E;
          pos := pos + 1;
        } else {
          break;
        }
      }
    }

    method ParseNumber() returns (ok: bool, v: Value)
      requires Valid()
      modifies this
      ensures Read(ok, v, ReadNumber(old(Rest())))
    {
      hide NumberEnd, IsFloating, IsDecimal, Integer;
      v := Null;
      var start := pos;
      ghost var s := Rest();
      var floating := ScanNumber();
      var token := src[start..pos];
      assert token == s[..|s| - |Rest()|];
      if pos == start { return false, v; }
      if floating { return IsDecimal(token), Real(token); }
      var i := Integer(token);
      if i.Fail? { return false, v; }
      ok, v := true, Int(i.value);
    }

    method ParseValue() returns (ok: bool, v: Value)
      requires Valid()
      modifies this
      ensures Read(ok, v, ReadValue(old(Rest())))
      decreases |src| - pos, 1
    {
      hide ReadItems, ReadMembers, ReadNumber, ReadString, ReadWord;
      v := Null;
      SkipWs();
      if pos >= |src| { return false, v; }
      var c := src[pos];
      if c == OPEN_OBJECT {
        ok, v := ParseObject();
      } else if c == OPEN_ARRAY {
        ok, v := ParseArray();
      } else if c == QUOTE {
        var s;
        ok, s := ParseString();
        v := Str(s);
      } else if c == LOWER_T {
        ok := Literal(TRUE_WORD, Bool(true));
        v := Bool(true);
      } else if c == LOWER_F {
        ok := Literal(FALSE_WORD, Bool(false));
        v := Bool(false);
      } else if c == LOWER_N {
        ok := Literal(NULL_WORD, Null);
      } else {
        ok, v := ParseNumber();
      }
    }

    method ParseArray() returns (ok: bool, v: Value)
      requires Valid() && pos < |src| && src[pos] == OPEN_ARRAY
      modifies this
      ensures Read(ok, v, ReadValue(old(Rest())))
      decreases |src| - pos, 0
    {
      hide ReadValue, SkipSpace, ReadItems;
      ArrayRead(Rest());
      v := Arr([]);
      assert src[pos..][1..] == src[pos + 1..];
      pos := pos + 1;
      SkipWs();
      if pos >= |src| { return false, v; }
      if src[pos] == CLOSE_ARRAY {
        assert src[pos..][1..] == src[pos + 1..];
        pos := pos + 1;
        return true, v;
      }
      var items;
      ok, items := ParseItems();
      v := Arr(items);
    }

    /** The elements, up to and with the closing bracket. */
    method ParseItems() returns (ok: bool, items: seq<Value>)
      requires Valid()
      modifies this
      ensures Read(ok, items, ReadItems(old(Rest())))
      decreases |src| - pos, 3
    {
      hide ReadValue, SkipSpace;
      items := [];
      ghost var goal := ReadItems(Rest());
      FollowsNothing(goal);
      while true
        invariant Valid() && old(pos) <= pos && goal == Followed(items, ReadItems(Rest()))
        decreases |src| - pos
      {
        var item;
        ok, item := ParseValue();
        if !ok { return; }
        SkipWs();
        if pos >= |src| { return false, items; }
        var c := src[pos];
        assert src[pos..][1..] == src[pos + 1..];
        pos := pos + 1;
        if c == CLOSE_ARRAY { return true, items + [item]; }
        if c != COMMA { return false, items; }
        FollowsOne(items, item, ReadItems(Rest()));
        items := items + [item];
      }
    }

    method ParseMember() returns (ok: bool, m: Member)
      requires Valid()
      modifies this
      ensures Read(ok, m, ReadMember(old(Rest())))
      decreases |src| - pos, 2
    {
      hide ReadValue, SkipSpace, ReadString;
      var key, value;
      m := Member([], Null);
      SkipWs();
      ok, key := ParseString();
      if !ok { return; }
      SkipWs();
      if pos >= |src| || src[pos] != COLON { return false, m; }
      assert src[pos..][1..] == src[pos + 1..];
      pos := pos + 1;
      ok, value := ParseValue();
      m := Member(key, value);
    }

    method ParseObject() returns (ok: bool, v: Value)
      requires Valid() && pos < |src| && src[pos] == OPEN_OBJECT
      modifies this
      ensures Read(ok, v, ReadValue(old(Rest())))
      decreases |src| - pos, 0
    {
      hide ReadValue, SkipSpace, ReadMembers;
      ObjectRead(Rest());
      v := Obj([]);
      assert src[pos..][1..] == src[pos + 1..];
      pos := pos + 1;
      SkipWs();
      if pos >= |src| { return false, v; }
      if src[pos] == CLOSE_OBJECT {
        assert src[pos..][1..] == src[pos + 1..];
        pos := pos + 1;
        return true, v;
      }
      var members;
      ok, members := ParseMembers();
      v := Obj(members);
    }

    /** The members, up to and with the closing brace. */
    method ParseMembers() returns (ok: bool, members: seq<Member>)
      requires Valid()
      modifies this
      ensures Read(ok, members, ReadMembers(old(Rest())))
      decreases |src| - pos, 3
    {
      hide ReadMember, SkipSpace;
      members := [];
      ghost var goal := ReadMembers(Rest());
      FollowsNothing(goal);
      while true
        invariant Valid() && old(pos) <= pos && goal == Followed(members, ReadMembers(Rest()))
        decreases |src| - pos
      {
        var m;
        ok, m := ParseMember();
        if !ok { return; }
        SkipWs();
        if pos >= |src| { return false, members; }
        var c := src[pos];
        assert src[pos..][1..] == src[pos + 1..];
        pos := pos + 1;
        if c == CLOSE_OBJECT { return true, members + [m]; }
        if c != COMMA { return false, members; }
        FollowsOne(members, m, ReadMembers(Rest()));
        members := members + [m];
      }
    }

    method ParseDocument() returns (ok: bool, v: Value)
      requires Valid() && pos == 0
      modifies this
      ensures var d := ReadDocument(src); ok == d.Done? && (ok ==> v == d.value)
    {
      hide ReadValue;
      assert Rest() == src;
      ok, v := ParseValue();
      if !ok { return; }
      SkipWs();
      ok := pos == |src|;
    }
  }

  /** What `WriteJson` wrote, the parser reads back as it was. */
  method WriteThenParse(v: Value) returns (ok: bool, w: Value)
    requires Exact(v)
    ensures ok && w == v
  {
    var text := WriteJson(v);
    RoundTrip(v);
    var cursor := new Cursor(text);
    ok, w := cursor.ParseDocument();
  }
}
