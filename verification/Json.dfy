/** JSON text: the values, the canonical writer's output and the parser's reading of any input
    (sections 3 to 7 of RFC 8259). */
module Json {
  import opened Bytes

  type Text = seq<byte>

  datatype Value =
    | Null
    | Bool(b: bool)
    | Int(i: int)
    | Real(lexeme: Text)
    | Str(s: Text)
    | Arr(items: seq<Value>)
    | Obj(members: seq<Member>)

  datatype Member = Member(key: Text, value: Value)

  /** No floating-point number anywhere, and every integer fits its 64 bits. */
  predicate Exact(v: Value) {
    match v
    case Real(_) => false
    case Int(i) => I64_MIN <= i <= I64_MAX
    case Arr(items) => forall k :: 0 <= k < |items| ==> Exact(items[k])
    case Obj(members) => forall k :: 0 <= k < |members| ==> Exact(members[k].value)
    case _ => true
  }

  // ── Characters ──

  const TAB: byte := 9
  const LF: byte := 10
  const CR: byte := 13
  const BS: byte := 8
  const FF: byte := 12
  const SPACE: byte := 32
  const QUOTE: byte := 34
  const PLUS: byte := 43
  const COMMA: byte := 44
  const MINUS: byte := 45
  const DOT: byte := 46
  const SLASH: byte := 47
  const ZERO: byte := 48
  const COLON: byte := 58
  const UPPER_A: byte := 65
  const UPPER_E: byte := 69
  const OPEN_ARRAY: byte := 91
  const BACKSLASH: byte := 92
  const CLOSE_ARRAY: byte := 93
  const LOWER_A: byte := 97
  const LOWER_B: byte := 98
  const LOWER_E: byte := 101
  const LOWER_F: byte := 102
  const LOWER_N: byte := 110
  const LOWER_R: byte := 114
  const LOWER_T: byte := 116
  const LOWER_U: byte := 117
  const OPEN_OBJECT: byte := 123
  const CLOSE_OBJECT: byte := 125

  const NULL_WORD: Text := [110, 117, 108, 108]
  const TRUE_WORD: Text := [116, 114, 117, 101]
  const FALSE_WORD: Text := [102, 97, 108, 115, 101]

  predicate IsDigit(c: byte) {
    ZERO <= c <= 57
  }

  predicate IsSpace(c: byte) {
    c == SPACE || c == TAB || c == LF || c == CR
  }

  /** What the number scanner takes. */
  predicate InNumber(c: byte) {
    IsDigit(c) || c == DOT || c == LOWER_E || c == UPPER_E || c == PLUS || c == MINUS
  }

  // ── Writing ──

  function HexDigit(n: int): byte
    requires 0 <= n < 16
  {
    if n < 10 then (48 + n) as byte else (87 + n) as byte
  }

  function Escape(c: byte): Text {
    if c == QUOTE then [BACKSLASH, QUOTE]
    else if c == BACKSLASH then [BACKSLASH, BACKSLASH]
    else if c == LF then [BACKSLASH, LOWER_N]
    else if c == CR then [BACKSLASH, LOWER_R]
    else if c == TAB then [BACKSLASH, LOWER_T]
    else if c == BS then [BACKSLASH, LOWER_B]
    else if c == FF then [BACKSLASH, LOWER_F]
    else if c < 0x20 then [BACKSLASH, LOWER_U, ZERO, ZERO, HexDigit(c as int / 16), HexDigit(c as int % 16)]
    else [c]
  }

  function EscapeAll(s: Text): Text {
    if s == [] then [] else Escape(s[0]) + EscapeAll(s[1..])
  }

  function Quoted(s: Text): Text {
    [QUOTE] + EscapeAll(s) + [QUOTE]
  }

  function Decimal(n: nat): Text {
    if n < 10 then [(48 + n) as byte] else Decimal(n / 10) + [(48 + n % 10) as byte]
  }

  function IntText(i: int): Text {
    if i < 0 then [MINUS] + Decimal(-i) else Decimal(i)
  }

  function Written(v: Value): Text
    decreases v
  {
    match v
    case Null => NULL_WORD
    case Bool(b) => if b then TRUE_WORD else FALSE_WORD
    case Int(i) => IntText(i)
    case Real(lexeme) => lexeme
    case Str(s) => Quoted(s)
    case Arr(items) => [OPEN_ARRAY] + Items(v, items) + [CLOSE_ARRAY]
    case Obj(members) => [OPEN_OBJECT] + Members(v, members) + [CLOSE_OBJECT]
  }

  function Items(ghost v: Value, items: seq<Value>): Text
    requires forall k :: 0 <= k < |items| ==> items[k] < v
    decreases v, |items| + 1
  {
    if items == [] then []
    else if |items| == 1 then Written(items[0])
    else Written(items[0]) + [COMMA] + Items(v, items[1..])
  }

  function Pair(ghost v: Value, m: Member): Text
    requires m.value < v
    decreases v, 0
  {
    Quoted(m.key) + [COLON] + Written(m.value)
  }

  function Members(ghost v: Value, members: seq<Member>): Text
    requires forall k :: 0 <= k < |members| ==> members[k].value < v
    decreases v, |members| + 1
  {
    if members == [] then []
    else if |members| == 1 then Pair(v, members[0])
    else Pair(v, members[0]) + [COMMA] + Members(v, members[1..])
  }

  // ── Reading ──

  function SkipSpace(s: Text): (r: Text)
    ensures |r| <= |s| && (r != [] ==> !IsSpace(r[0]))
  {
    if s != [] && IsSpace(s[0]) then SkipSpace(s[1..]) else s
  }

  function HexValue(c: byte): int
    ensures -1 <= HexValue(c) < 16
  {
    if IsDigit(c) then c as int - 48
    else if 97 <= c <= 102 then c as int - 87
    else if 65 <= c <= 70 then c as int - 55
    else -1
  }

  /** Four hex digits. */
  function ReadHex4(s: Text): (r: Parse<int>)
    ensures r.Done? ==> |s| >= 4 && r.rest == s[4..] && 0 <= r.value < 0x10000
  {
    if |s| < 4 || HexValue(s[0]) < 0 || HexValue(s[1]) < 0 || HexValue(s[2]) < 0 || HexValue(s[3]) < 0 then Fail
    else Done(((HexValue(s[0]) * 16 + HexValue(s[1])) * 16 + HexValue(s[2])) * 16 + HexValue(s[3]), s[4..])
  }

  function Utf8(cp: int): Text
    requires 0 <= cp < 0x110000
  {
    if cp < 0x80 then [cp as byte]
    else if cp < 0x800 then [(0xC0 + cp / 64) as byte, (0x80 + cp % 64) as byte]
    else if cp < 0x10000 then [(0xE0 + cp / 4096) as byte, (0x80 + cp / 64 % 64) as byte, (0x80 + cp % 64) as byte]
    else [(0xF0 + cp / 262144) as byte, (0x80 + cp / 4096 % 64) as byte, (0x80 + cp / 64 % 64) as byte,
        (0x80 + cp % 64) as byte]
  }

  /** What follows `\u`: a code unit, or a surrogate pair when a low half comes next. */
  function ReadUnicode(s: Text): (r: Parse<Text>)
    ensures r.Done? ==> |r.rest| < |s|
  {
    var first := ReadHex4(s);
    if first.Fail? then Fail
    else
      var cp, t := first.value, first.rest;
      if 0xD800 <= cp <= 0xDBFF && |t| >= 6 && t[0] == BACKSLASH && t[1] == LOWER_U then
        var second := ReadHex4(t[2..]);
        if second.Fail? then Fail
        else if 0xDC00 <= second.value <= 0xDFFF then
          Done(Utf8(0x10000 + (cp - 0xD800) * 1024 + (second.value - 0xDC00)), second.rest)
        else Done(Utf8(cp), t)
      else Done(Utf8(cp), t)
  }

  // ── What an escape stands for ──

  predicate Continues(c: byte) {
    0x80 <= c < 0xC0
  }

  /** `u` is the code point `cp` in UTF-8: the lead byte tells the length, each byte behind it carries six bits, and
      no shorter form would do (section 3 of RFC 3629). */
  predicate Encodes(u: Text, cp: int) {
    || (|u| == 1 && u[0] < 0x80 && cp == u[0] as int)
    || (|u| == 2 && 0xC0 <= u[0] < 0xE0 && Continues(u[1]) && cp >= 0x80
        && cp == 64 * (u[0] as int - 0xC0) + (u[1] as int - 0x80))
    || (|u| == 3 && 0xE0 <= u[0] < 0xF0 && Continues(u[1]) && Continues(u[2]) && cp >= 0x800
        && cp == 4096 * (u[0] as int - 0xE0) + 64 * (u[1] as int - 0x80) + (u[2] as int - 0x80))
    || (|u| == 4 && 0xF0 <= u[0] < 0xF8 && Continues(u[1]) && Continues(u[2]) && Continues(u[3]) && cp >= 0x10000
        && cp == 262144 * (u[0] as int - 0xF0) + 4096 * (u[1] as int - 0x80) + 64 * (u[2] as int - 0x80)
                 + (u[3] as int - 0x80))
  }

  lemma Sextet(q: int, r: int)
    requires 0 <= r < 64
    ensures (64 * q + r) / 64 == q && (64 * q + r) % 64 == r
  {
  }

  lemma Sextets(cp: int)
    ensures cp / 4096 == cp / 64 / 64 && cp / 262144 == cp / 64 / 64 / 64
    ensures cp == 64 * (cp / 64) + cp % 64
  {
  }

  lemma Utf8IsEncoding(cp: int)
    requires 0 <= cp < 0x110000
    ensures Encodes(Utf8(cp), cp)
  {
    Sextets(cp);
    Sextets(cp / 64);
    Sextets(cp / 64 / 64);
  }

  /** The bytes written for a code point are its encoding, and it has no other. */
  lemma Utf8Encodes(u: Text, cp: int)
    requires 0 <= cp < 0x110000
    ensures Encodes(u, cp) <==> u == Utf8(cp)
  {
    Utf8IsEncoding(cp);
    if Encodes(u, cp) { OneEncoding(u, cp); }
  }

  lemma OneEncoding(u: Text, cp: int)
    requires 0 <= cp < 0x110000 && Encodes(u, cp)
    ensures u == Utf8(cp)
  {
    Sextets(cp);
    if |u| == 2 {
      Sextet(u[0] as int - 0xC0, u[1] as int - 0x80);
    } else if |u| == 3 {
      var top := 64 * (u[0] as int - 0xE0) + (u[1] as int - 0x80);
      assert cp == 64 * top + (u[2] as int - 0x80);
      Sextet(top, u[2] as int - 0x80);
      Sextet(u[0] as int - 0xE0, u[1] as int - 0x80);
    } else if |u| == 4 {
      var top := 64 * (u[0] as int - 0xF0) + (u[1] as int - 0x80);
      var mid := 64 * top + (u[2] as int - 0x80);
      assert cp == 64 * mid + (u[3] as int - 0x80);
      Sextet(mid, u[3] as int - 0x80);
      Sextet(top, u[2] as int - 0x80);
      Sextet(u[0] as int - 0xF0, u[1] as int - 0x80);
    }
  }

  /** `c` is the hex digit `d`, of either case. */
  predicate Spells(c: byte, d: int) {
    if d < 10 then c as int == ZERO as int + d
    else c as int == LOWER_A as int + (d - 10) || c as int == UPPER_A as int + (d - 10)
  }

  /** `h` is the code unit `n` in four hex digits. */
  predicate UnitText(h: Text, n: int) {
    && 0 <= n < 0x10000 && |h| == 4
    && Spells(h[0], n / 4096) && Spells(h[1], n / 256 % 16) && Spells(h[2], n / 16 % 16) && Spells(h[3], n % 16)
  }

  lemma Spelled(c: byte, d: int)
    requires 0 <= d < 16 && Spells(c, d)
    ensures HexValue(c) == d
  {
  }

  lemma Nibbles(n: int)
    requires 0 <= n < 0x10000
    ensures 0 <= n / 4096 < 16 && n / 4096 == n / 256 / 16 && n / 256 == n / 16 / 16
    ensures n == 16 * (n / 16) + n % 16
  {
  }

  lemma UnitRead(h: Text, n: int, rest: Text)
    requires UnitText(h, n)
    ensures ReadHex4(h + rest) == Done(n, rest)
  {
    var t := h + rest;
    assert t[4..] == rest;
    assert t[0] == h[0] && t[1] == h[1] && t[2] == h[2] && t[3] == h[3];
    Nibbles(n);
    Nibbles(n / 16);
    Nibbles(n / 256);
    Spelled(h[0], n / 4096);
    Spelled(h[1], n / 256 % 16);
    Spelled(h[2], n / 16 % 16);
    Spelled(h[3], n % 16);
  }

  predicate HighHalf(n: int) {
    0xD800 <= n < 0xDC00
  }

  predicate LowHalf(n: int) {
    0xDC00 <= n < 0xE000
  }

  /** The two code units of a code point beyond the first 65536 are read as that code point: the ten high and the
      ten low bits of what it exceeds them by (section 2.1 of RFC 2781). */
  lemma PairRead(cp: int, high: Text, low: Text, rest: Text)
    requires 0x10000 <= cp < 0x110000
    requires UnitText(high, 0xD800 + (cp - 0x10000) / 1024) && UnitText(low, 0xDC00 + (cp - 0x10000) % 1024)
    ensures var r := ReadUnicode(high + ([BACKSLASH, LOWER_U] + low + rest));
            r.Done? && Encodes(r.value, cp) && r.rest == rest
  {
    hide UnitText, Encodes, ReadHex4;
    var t := [BACKSLASH, LOWER_U] + low + rest;
    UnitRead(high, 0xD800 + (cp - 0x10000) / 1024, t);
    assert |t| >= 6 by { UnitRead(low, 0xDC00 + (cp - 0x10000) % 1024, rest); }
    assert t[2..] == low + rest;
    UnitRead(low, 0xDC00 + (cp - 0x10000) % 1024, rest);
    Utf8Encodes(Utf8(cp), cp);
  }

  /** Any other code unit stands for itself, a half without its counterpart included, and nothing behind it is
      taken. */
  lemma LoneRead(n: int, h: Text, rest: Text)
    requires UnitText(h, n)
    requires HighHalf(n) && [BACKSLASH, LOWER_U] <= rest ==>
               exists m :: 0 <= m < 0x10000 && !LowHalf(m) && |rest| >= 6 && UnitText(rest[2..6], m)
    ensures var r := ReadUnicode(h + rest); r.Done? && Encodes(r.value, n) && r.rest == rest
  {
    hide Encodes, ReadHex4;
    UnitRead(h, n, rest);
    Utf8Encodes(Utf8(n), n);
    if HighHalf(n) && |rest| >= 6 && rest[0] == BACKSLASH && rest[1] == LOWER_U {
      assert [BACKSLASH, LOWER_U] <= rest;
      var m :| 0 <= m < 0x10000 && !LowHalf(m) && UnitText(rest[2..6], m);
      assert rest[2..] == rest[2..6] + rest[6..];
      UnitRead(rest[2..6], m, rest[6..]);
    }
  }

  /** What follows a backslash. */
  function ReadEscape(s: Text): (r: Parse<Text>)
    ensures r.Done? ==> |r.rest| < |s|
  {
    if s == [] then Fail
    else
      var c, t := s[0], s[1..];
      if c == QUOTE || c == BACKSLASH || c == SLASH then Done([c], t)
      else if c == LOWER_B then Done([BS], t)
      else if c == LOWER_F then Done([FF], t)
      else if c == LOWER_N then Done([LF], t)
      else if c == LOWER_R then Done([CR], t)
      else if c == LOWER_T then Done([TAB], t)
      else if c == LOWER_U then ReadUnicode(t)
      else Fail
  }

  /** One step of a string's inside: a plain byte or an escape. */
  function ReadPiece(s: Text): (r: Parse<Text>)
    requires s != []
    ensures r.Done? ==> |r.rest| < |s|
  {
    if s[0] == BACKSLASH then ReadEscape(s[1..]) else Done([s[0]], s[1..])
  }

  /** The inside of a string up to its closing quote. */
  function ReadChars(s: Text): (r: Parse<Text>)
    ensures r.Done? ==> |r.rest| < |s|
    decreases |s|
  {
    if s == [] then Fail
    else if s[0] == QUOTE then Done([], s[1..])
    else
      var piece := ReadPiece(s);
      if piece.Fail? then Fail
      else
        var more := ReadChars(piece.rest);
        if more.Fail? then Fail else Done(piece.value + more.value, more.rest)
  }

  function ReadString(s: Text): (r: Parse<Text>)
    ensures r.Done? ==> |r.rest| < |s|
  {
    if s == [] || s[0] != QUOTE then Fail else ReadChars(s[1..])
  }

  function NumberEnd(s: Text): (r: Text)
    ensures |r| <= |s| && (r != [] ==> !InNumber(r[0]))
  {
    if s != [] && InNumber(s[0]) then NumberEnd(s[1..]) else s
  }

  function DigitsValue(ds: Text): nat
    requires forall k :: 0 <= k < |ds| ==> IsDigit(ds[k])
  {
    if ds == [] then 0
    else
      assert IsDigit(ds[|ds| - 1]);
      10 * DigitsValue(ds[..|ds| - 1]) + (ds[|ds| - 1] as int - 48)
  }

  predicate AllDigits(ds: Text) {
    ds != [] && forall k :: 0 <= k < |ds| ==> IsDigit(ds[k])
  }

  /** A whole token read as a 64-bit integer: sign, digits, nothing else, and in range. */
  function Integer(token: Text): Parse<int> {
    if token == [] then Fail
    else
      var signed := token[0] == MINUS || token[0] == PLUS;
      var ds := if signed then token[1..] else token;
      if !AllDigits(ds) then Fail
      else
        var i: int := if token[0] == MINUS then 0 - DigitsValue(ds) else DigitsValue(ds);
        if I64_MIN <= i <= I64_MAX then Done(i, []) else Fail
  }

  predicate IsFloating(token: Text) {
    exists k :: 0 <= k < |token| && (token[k] == DOT || token[k] == LOWER_E || token[k] == UPPER_E)
  }

  function AfterDigits(s: Text): (r: Text)
    ensures |r| <= |s|
  {
    if s != [] && IsDigit(s[0]) then AfterDigits(s[1..]) else s
  }

  function AfterSign(s: Text): (r: Text)
    ensures |r| <= |s|
  {
    if s != [] && (s[0] == MINUS || s[0] == PLUS) then s[1..] else s
  }

  /** All of the token is a decimal number: digits with at most one point, and perhaps a whole exponent. */
  predicate IsDecimal(token: Text) {
    var t := AfterSign(token);
    var whole := AfterDigits(t);
    var pointed := whole != [] && whole[0] == DOT;
    var tail := if pointed then AfterDigits(whole[1..]) else whole;
    && |t| - |tail| > (if pointed then 1 else 0)
    && (tail == []
        || ((tail[0] == LOWER_E || tail[0] == UPPER_E)
            && AfterSign(tail[1..]) != [] && AfterDigits(AfterSign(tail[1..])) == []))
  }

  function ReadNumber(s: Text): (r: Parse<Value>)
    ensures r.Done? ==> |r.rest| < |s|
  {
    var rest := NumberEnd(s);
    var token := s[..|s| - |rest|];
    if token == [] then Fail
    else if IsFloating(token) then (if IsDecimal(token) then Done(Real(token), rest) else Fail)
    else
      var i := Integer(token);
      if i.Fail? then Fail else Done(Int(i.value), rest)
  }

  function ReadWord(s: Text, word: Text, v: Value): (r: Parse<Value>)
    ensures r.Done? && word != [] ==> |r.rest| < |s|
  {
    if word <= s then Done(v, s[|word|..]) else Fail
  }

  function ReadValue(s: Text): (r: Parse<Value>)
    ensures r.Done? ==> |r.rest| < |s|
    decreases |s|, 0
  {
    var t := SkipSpace(s);
    if t == [] then Fail
    else if t[0] == OPEN_OBJECT then
      var u := SkipSpace(t[1..]);
      if u == [] then Fail
      else if u[0] == CLOSE_OBJECT then Done(Obj([]), u[1..])
      else
        var ms := ReadMembers(u);
        if ms.Fail? then Fail else Done(Obj(ms.value), ms.rest)
    else if t[0] == OPEN_ARRAY then
      var u := SkipSpace(t[1..]);
      if u == [] then Fail
      else if u[0] == CLOSE_ARRAY then Done(Arr([]), u[1..])
      else
        var vs := ReadItems(u);
        if vs.Fail? then Fail else Done(Arr(vs.value), vs.rest)
    else if t[0] == QUOTE then
      var s' := ReadString(t);
      if s'.Fail? then Fail else Done(Str(s'.value), s'.rest)
    else if t[0] == LOWER_T then ReadWord(t, TRUE_WORD, Bool(true))
    else if t[0] == LOWER_F then ReadWord(t, FALSE_WORD, Bool(false))
    else if t[0] == LOWER_N then ReadWord(t, NULL_WORD, Null)
    else ReadNumber(t)
  }

  function ReadItems(s: Text): (r: Parse<seq<Value>>)
    ensures r.Done? ==> |r.rest| < |s|
    decreases |s|, 1
  {
    var v := ReadValue(s);
    if v.Fail? then Fail
    else
      var t := SkipSpace(v.rest);
      if t == [] then Fail
      else if t[0] == CLOSE_ARRAY then Done([v.value], t[1..])
      else if t[0] != COMMA then Fail
      else
        var more := ReadItems(t[1..]);
        if more.Fail? then Fail else Done([v.value] + more.value, more.rest)
  }

  function ReadMember(s: Text): (r: Parse<Member>)
    ensures r.Done? ==> |r.rest| < |s|
    decreases |s|, 1
  {
    var key := ReadString(SkipSpace(s));
    if key.Fail? then Fail
    else
      var t := SkipSpace(key.rest);
      if t == [] || t[0] != COLON then Fail
      else
        var v := ReadValue(t[1..]);
        if v.Fail? then Fail else Done(Member(key.value, v.value), v.rest)
  }

  function ReadMembers(s: Text): (r: Parse<seq<Member>>)
    ensures r.Done? ==> |r.rest| < |s|
    decreases |s|, 2
  {
    var m := ReadMember(s);
    if m.Fail? then Fail
    else
      var t := SkipSpace(m.rest);
      if t == [] then Fail
      else if t[0] == CLOSE_OBJECT then Done([m.value], t[1..])
      else if t[0] != COMMA then Fail
      else
        var more := ReadMembers(t[1..]);
        if more.Fail? then Fail else Done([m.value] + more.value, more.rest)
  }

  function ReadDocument(s: Text): Parse<Value> {
    var v := ReadValue(s);
    if v.Done? && SkipSpace(v.rest) == [] then Done(v.value, []) else Fail
  }

  // ── Reading undoes writing ──

  lemma Regroup(a: Text, c: Text, m: Text, b: Text, rest: Text)
    ensures a + c + m + b + rest == a + (c + (m + b + rest))
  {
  }

  /** A number would not run on into `rest`. */
  predicate Stops(rest: Text) {
    rest == [] || !InNumber(rest[0])
  }

  lemma PieceBack(c: byte, rest: Text)
    ensures ReadPiece(Escape(c) + rest) == Done([c], rest)
    ensures Escape(c) != [] && Escape(c)[0] != QUOTE
  {
    var e := Escape(c) + rest;
    if e[0] == BACKSLASH {
      assert e[1..] == Escape(c)[1..] + rest;
      if e[1] == LOWER_U {
        assert e[1..][1..] == Escape(c)[2..] + rest;
        assert (Escape(c)[2..] + rest)[4..] == rest;
        assert HexValue(HexDigit(c as int / 16)) == c as int / 16 && HexValue(HexDigit(c as int % 16)) == c as int % 16;
      } else {
        assert e[1..][1..] == rest;
      }
    } else {
      assert e[1..] == rest;
    }
  }

  lemma {:induction false} CharsBack(s: Text, rest: Text)
    ensures ReadChars(EscapeAll(s) + [QUOTE] + rest) == Done(s, rest)
    decreases |s|
  {
    if s == [] {
      assert (EscapeAll(s) + [QUOTE] + rest)[1..] == rest;
    } else {
      var tail := EscapeAll(s[1..]) + [QUOTE] + rest;
      assert EscapeAll(s) + [QUOTE] + rest == Escape(s[0]) + tail;
      PieceBack(s[0], tail);
      CharsBack(s[1..], rest);
      assert [s[0]] + s[1..] == s;
    }
  }

  lemma StringBack(s: Text, rest: Text)
    ensures ReadString(Quoted(s) + rest) == Done(s, rest)
  {
    hide ReadChars, EscapeAll;
    CharsBack(s, rest);
    assert (Quoted(s) + rest)[1..] == EscapeAll(s) + [QUOTE] + rest;
  }

  lemma {:induction false} DecimalBack(n: nat)
    ensures AllDigits(Decimal(n)) && DigitsValue(Decimal(n)) == n
  {
    if n >= 10 {
      DecimalBack(n / 10);
      assert Decimal(n)[..|Decimal(n)| - 1] == Decimal(n / 10);
    } else {
      assert Decimal(n)[..0] == [];
    }
  }

  lemma {:induction false} NumberEndIs(token: Text, rest: Text)
    requires (forall k :: 0 <= k < |token| ==> InNumber(token[k])) && Stops(rest)
    ensures NumberEnd(token + rest) == rest
    decreases |token|
  {
    if token == [] {
      assert token + rest == rest;
    } else {
      assert (token + rest)[1..] == token[1..] + rest;
      NumberEndIs(token[1..], rest);
    }
  }

  lemma IntTextBack(i: int)
    requires I64_MIN <= i <= I64_MAX
    ensures IntText(i) != [] && Integer(IntText(i)) == Done(i, []) && !IsFloating(IntText(i))
    ensures forall k :: 0 <= k < |IntText(i)| ==> InNumber(IntText(i)[k])
  {
    hide Decimal, DigitsValue;
    var token := IntText(i);
    DecimalBack(if i < 0 then -i else i);
    if i < 0 { assert token[1..] == Decimal(-i); }
    forall k | 0 <= k < |token| ensures InNumber(token[k]) && (IsDigit(token[k]) || token[k] == MINUS) {
      if i < 0 && k > 0 { assert token[k] == Decimal(-i)[k - 1]; }
    }
  }

  lemma IntBack(i: int, rest: Text)
    requires I64_MIN <= i <= I64_MAX && Stops(rest)
    ensures ReadNumber(IntText(i) + rest) == Done(Int(i), rest)
  {
    hide IntText, Integer, IsFloating, IsDecimal, NumberEnd, Stops;
    var token := IntText(i);
    IntTextBack(i);
    NumberEndIs(token, rest);
    assert (token + rest)[..|token|] == token;
  }

  /** No written value starts with a space. */
  lemma WrittenStarts(v: Value)
    requires Exact(v)
    ensures Written(v) != [] && !IsSpace(Written(v)[0]) && Written(v)[0] != CLOSE_ARRAY
  {
    if v.Int? { DecimalBack(if v.i < 0 then -v.i else v.i); }
  }

  lemma SpaceFree(s: Text)
    requires s == [] || !IsSpace(s[0])
    ensures SkipSpace(s) == s
  {
  }

  lemma ArrayRead(s: Text)
    requires s != [] && s[0] == OPEN_ARRAY
    ensures var u := SkipSpace(s[1..]);
            ReadValue(s) == if u == [] then Fail
                            else if u[0] == CLOSE_ARRAY then Done(Arr([]), u[1..])
                            else var vs := ReadItems(u); if vs.Fail? then Fail else Done(Arr(vs.value), vs.rest)
  {
    hide ReadItems;
    assert SkipSpace(s) == s;
  }

  lemma ObjectRead(s: Text)
    requires s != [] && s[0] == OPEN_OBJECT
    ensures var u := SkipSpace(s[1..]);
            ReadValue(s) == if u == [] then Fail
                            else if u[0] == CLOSE_OBJECT then Done(Obj([]), u[1..])
                            else var ms := ReadMembers(u); if ms.Fail? then Fail else Done(Obj(ms.value), ms.rest)
  {
    hide ReadMembers;
    assert SkipSpace(s) == s;
  }

  /** The parser gives back what the writer was given, byte for byte, and leaves the rest. */
  lemma {:induction false} ValueBack(v: Value, rest: Text)
    requires Exact(v) && Stops(rest)
    ensures ReadValue(Written(v) + rest) == Done(v, rest)
    decreases v
  {
    var s := Written(v) + rest;
    WrittenStarts(v);
    SpaceFree(s);
    match v
    case Null => assert s[4..] == rest;
    case Bool(b) => assert s[if b then 4 else 5..] == rest;
    case Int(i) =>
      IntBack(i, rest);
      DecimalBack(if i < 0 then -i else i);
    case Str(t) => StringBack(t, rest);
    case Arr(items) => ArrBack(v, rest);
    case Obj(members) => ObjBack(v, rest);
  }

  lemma {:induction false} ArrBack(v: Value, rest: Text)
    requires v.Arr? && Exact(v)
    ensures ReadValue(Written(v) + rest) == Done(v, rest)
    decreases v, |v.items| + 2
  {
    hide ReadValue, SkipSpace, ReadItems;
    var s, u := Written(v) + rest, Items(v, v.items) + [CLOSE_ARRAY] + rest;
    assert s[0] == OPEN_ARRAY && s[1..] == u;
    ArrayRead(s);
    if v.items == [] {
      SpaceFree(u);
      assert u[1..] == rest;
    } else {
      ItemsBack(v, v.items, rest);
    }
  }

  lemma {:induction false} ObjBack(v: Value, rest: Text)
    requires v.Obj? && Exact(v)
    ensures ReadValue(Written(v) + rest) == Done(v, rest)
    decreases v, |v.members| + 2
  {
    hide ReadValue, SkipSpace, ReadMembers;
    var s, u := Written(v) + rest, Members(v, v.members) + [CLOSE_OBJECT] + rest;
    assert s[0] == OPEN_OBJECT && s[1..] == u;
    ObjectRead(s);
    if v.members == [] {
      SpaceFree(u);
      assert u[1..] == rest;
    } else {
      MembersBack(v, v.members, rest);
    }
  }

  lemma LastItem(s: Text, v: Value, rest: Text)
    requires ReadValue(s) == Done(v, [CLOSE_ARRAY] + rest)
    ensures ReadItems(s) == Done([v], rest)
  {
    hide ReadValue, SkipSpace;
    var tail := [CLOSE_ARRAY] + rest;
    SpaceFree(tail);
    assert tail[1..] == rest;
  }

  lemma NextItem(s: Text, v: Value, next: Text, more: seq<Value>, rest: Text)
    requires ReadValue(s) == Done(v, [COMMA] + next) && ReadItems(next) == Done(more, rest)
    ensures ReadItems(s) == Done([v] + more, rest)
  {
    hide ReadValue, SkipSpace;
    var tail := [COMMA] + next;
    SpaceFree(tail);
    assert tail[1..] == next;
  }

  lemma {:induction false} ItemsBack(v: Value, items: seq<Value>, rest: Text)
    requires items != [] && forall k :: 0 <= k < |items| ==> items[k] < v && Exact(items[k])
    ensures var s := Items(v, items) + [CLOSE_ARRAY] + rest;
            ReadItems(s) == Done(items, rest) && SkipSpace(s) == s && s[0] != CLOSE_ARRAY
    decreases v, |items| + 1
  {
    hide ReadItems, ReadValue, Written, SkipSpace, Exact;
    var s, w := Items(v, items) + [CLOSE_ARRAY] + rest, Written(items[0]);
    WrittenStarts(items[0]);
    SpaceFree(s);
    if |items| == 1 {
      var tail := [CLOSE_ARRAY] + rest;
      assert s == w + tail;
      ValueBack(items[0], tail);
      LastItem(s, items[0], rest);
      assert items == [items[0]];
    } else {
      var next := Items(v, items[1..]) + [CLOSE_ARRAY] + rest;
      var tail := [COMMA] + next;
      Regroup(w, [COMMA], Items(v, items[1..]), [CLOSE_ARRAY], rest);
      ValueBack(items[0], tail);
      ItemsBack(v, items[1..], rest);
      NextItem(s, items[0], next, items[1..], rest);
      assert items == [items[0]] + items[1..];
    }
  }

  lemma {:induction false} MemberBack(v: Value, m: Member, rest: Text)
    requires m.value < v && Exact(m.value) && Stops(rest)
    ensures var s := Pair(v, m) + rest; ReadMember(s) == Done(m, rest) && SkipSpace(s) == s && s[0] == QUOTE
    decreases v, 0
  {
    hide ReadValue, Written, ReadString, EscapeAll;
    var s := Pair(v, m) + rest;
    var after := Written(m.value) + rest;
    var tail := [COLON] + after;
    assert s == Quoted(m.key) + tail;
    SpaceFree(s);
    StringBack(m.key, tail);
    SpaceFree(tail);
    assert tail[1..] == after;
    ValueBack(m.value, rest);
  }

  lemma LastMember(s: Text, m: Member, rest: Text)
    requires ReadMember(s) == Done(m, [CLOSE_OBJECT] + rest)
    ensures ReadMembers(s) == Done([m], rest)
  {
    hide ReadMember, SkipSpace;
    var tail := [CLOSE_OBJECT] + rest;
    SpaceFree(tail);
    assert tail[1..] == rest;
  }

  lemma NextMember(s: Text, m: Member, next: Text, more: seq<Member>, rest: Text)
    requires ReadMember(s) == Done(m, [COMMA] + next) && ReadMembers(next) == Done(more, rest)
    ensures ReadMembers(s) == Done([m] + more, rest)
  {
    hide ReadMember, SkipSpace;
    var tail := [COMMA] + next;
    SpaceFree(tail);
    assert tail[1..] == next;
  }

  lemma {:induction false} MembersBack(v: Value, members: seq<Member>, rest: Text)
    requires members != [] && forall k :: 0 <= k < |members| ==> members[k].value < v && Exact(members[k].value)
    ensures var s := Members(v, members) + [CLOSE_OBJECT] + rest;
            ReadMembers(s) == Done(members, rest) && SkipSpace(s) == s && s[0] != CLOSE_OBJECT
    decreases v, |members| + 1
  {
    hide ReadMembers, ReadMember, Pair, SkipSpace, Exact;
    var s, w := Members(v, members) + [CLOSE_OBJECT] + rest, Pair(v, members[0]);
    if |members| == 1 {
      var tail := [CLOSE_OBJECT] + rest;
      assert s == w + tail;
      MemberBack(v, members[0], tail);
      LastMember(s, members[0], rest);
      assert members == [members[0]];
    } else {
      var next := Members(v, members[1..]) + [CLOSE_OBJECT] + rest;
      var tail := [COMMA] + next;
      Regroup(w, [COMMA], Members(v, members[1..]), [CLOSE_OBJECT], rest);
      MemberBack(v, members[0], tail);
      MembersBack(v, members[1..], rest);
      NextMember(s, members[0], next, members[1..], rest);
      assert members == [members[0]] + members[1..];
    }
  }

  /** A document read back is the value that was written. */
  lemma RoundTrip(v: Value)
    requires Exact(v)
    ensures ReadDocument(Written(v)) == Done(v, [])
  {
    ValueBack(v, []);
    assert Written(v) + [] == Written(v);
  }

  /** So no two values share a text. */
  lemma WrittenInjective(v: Value, w: Value)
    requires Exact(v) && Exact(w) && Written(v) == Written(w)
    ensures v == w
  {
    RoundTrip(v);
    RoundTrip(w);
  }
}
