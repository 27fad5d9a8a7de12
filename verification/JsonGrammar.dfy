/** Which documents are read, and as what: the grammar of RFC 8259, with the liberties the parser takes: a sign `+`,
    leading zeros, numbers that begin or end with their point, and any byte but a quote inside a string. */
module JsonGrammar {
  import opened Bytes
  import opened Json

  function Code(c: char): byte
    requires c as int < 128
  {
    c as int as byte
  }

  function Ascii(s: string): (r: Text)
    requires forall i :: 0 <= i < |s| ==> s[i] as int < 128
    ensures |r| == |s| && forall i :: 0 <= i < |s| ==> r[i] == Code(s[i])
  {
    seq(|s|, i requires 0 <= i < |s| => Code(s[i]))
  }

  predicate Blank(s: Text) {
    forall i :: 0 <= i < |s| ==> s[i] in {Code(' '), Code('\t'), Code('\n'), Code('\r')}
  }

  // ── Numbers ──

  predicate Signed(s: Text) {
    s == [] || s == Ascii("+") || s == Ascii("-")
  }

  predicate Figures(s: Text) {
    forall i :: 0 <= i < |s| ==> Code('0') <= s[i] <= Code('9')
  }

  function Pow10(n: nat): nat {
    if n == 0 then 1 else 10 * Pow10(n - 1)
  }

  function Amount(ds: Text): nat
    requires Figures(ds)
  {
    if ds == [] then 0 else (ds[0] as int - 48) * Pow10(|ds| - 1) + Amount(ds[1..])
  }

  /** A sign or none, then digits that say how much, within 64 bits. */
  predicate IntToken(s: Text, i: int) {
    var a := if s != [] && Signed(s[..1]) then 1 else 0;
    && |s| > a && Figures(s[a..]) && I64_MIN <= i <= I64_MAX
    && i == if a == 1 && s[0] == Code('-') then 0 - Amount(s[a..]) else Amount(s[a..])
  }

  predicate Fraction(s: Text) {
    s == [] || (s[0] == Code('.') && Figures(s[1..]))
  }

  ghost predicate Exponent(s: Text) {
    s == [] ||
    (s[0] in {Code('e'), Code('E')}
     && exists a :: 1 <= a < |s| && Signed(s[1..a]) && Figures(s[a..]))
  }

  /** Digits with a point among them or around them, or an exponent behind, or both. */
  ghost predicate RealToken(s: Text) {
    exists a, b, c ::
      && 0 <= a <= b <= c <= |s|
      && Signed(s[..a]) && Figures(s[a..b]) && Fraction(s[b..c]) && Exponent(s[c..])
      && (b > a || c > b + 1) && (c > b || |s| > c)
  }

  // ── Strings ──

  /** `\x` stands for the byte `c`. */
  predicate Short(x: byte, c: byte) {
    || (x in {Code('"'), Code('\\'), Code('/')} && c == x)
    || (x == Code('b') && c == 0x08) || (x == Code('t') && c == 0x09) || (x == Code('n') && c == 0x0a)
    || (x == Code('f') && c == 0x0c) || (x == Code('r') && c == 0x0d)
  }

  function High(cp: int): int {
    0xD800 + (cp - 0x10000) / 1024
  }

  function Low(cp: int): int {
    0xDC00 + (cp - 0x10000) % 1024
  }

  /** The escape of a low half comes next. */
  ghost predicate LowNext(s: Text) {
    |s| >= 6 && s[..2] == Ascii("\\u") && exists m :: UnitText(s[2..6], m) && LowHalf(m)
  }

  ghost predicate OneUnit(p: Text, u: Text, behind: Text) {
    && |p| == 6 && p[..2] == Ascii("\\u")
    && exists n :: UnitText(p[2..6], n) && Encodes(u, n) && !(HighHalf(n) && LowNext(behind))
  }

  ghost predicate TwoUnits(p: Text, u: Text) {
    && |p| == 12 && p[..2] == Ascii("\\u") && p[6..8] == Ascii("\\u")
    && exists cp :: 0x10000 <= cp < 0x110000 && UnitText(p[2..6], High(cp)) && UnitText(p[8..12], Low(cp))
                    && Encodes(u, cp)
  }

  /** `p`, with `behind` behind it, stands for the bytes `u`: one byte for itself, a short escape for one byte, one
      code unit or a surrogate pair for the code point's UTF-8. */
  ghost predicate Piece(p: Text, u: Text, behind: Text) {
    || (|p| == 1 && p[0] != Code('"') && p[0] != Code('\\') && u == p)
    || (|p| == 2 && p[0] == Code('\\') && |u| == 1 && Short(p[1], u[0]))
    || OneUnit(p, u, behind)
    || TwoUnits(p, u)
  }

  ghost predicate Inside(s: Text, t: Text)
    decreases |s|
  {
    if s == [] then t == []
    else exists k, j :: 0 < k <= |s| && 0 <= j <= |t| && Piece(s[..k], t[..j], s[k..]) && Inside(s[k..], t[j..])
  }

  ghost predicate StrToken(s: Text, t: Text) {
    |s| >= 2 && s[0] == Code('"') == s[|s| - 1] && Inside(s[1..|s| - 1], t)
  }

  // ── Values ──

  ghost predicate Denotes(s: Text, v: Value)
    decreases |s|, 0
  {
    match v
    case Null => s == Ascii("null")
    case Bool(b) => s == if b then Ascii("true") else Ascii("false")
    case Int(i) => IntToken(s, i)
    case Real(lexeme) => s == lexeme && RealToken(s)
    case Str(t) => StrToken(s, t)
    case Arr(items) =>
      |s| >= 2 && s[0] == Code('[') && s[|s| - 1] == Code(']') &&
      (if items == [] then Blank(s[1..|s| - 1]) else DenotesAll(s[1..|s| - 1], items))
    case Obj(members) =>
      |s| >= 2 && s[0] == Code('{') && s[|s| - 1] == Code('}') &&
      (if members == [] then Blank(s[1..|s| - 1]) else DenotesPairs(s[1..|s| - 1], members))
  }

  /** With white space around it. */
  ghost predicate Padded(s: Text, v: Value)
    decreases |s|, 1
  {
    exists i, j :: 0 <= i <= j <= |s| && Blank(s[..i]) && Denotes(s[i..j], v) && Blank(s[j..])
  }

  ghost predicate DenotesAll(s: Text, items: seq<Value>)
    requires items != []
    decreases |s|, 2
  {
    if |items| == 1 then Padded(s, items[0])
    else exists k :: 0 <= k < |s| && s[k] == Code(',') && Padded(s[..k], items[0]) && DenotesAll(s[k + 1..], items[1..])
  }

  ghost predicate DenotesPair(s: Text, m: Member)
    decreases |s|, 2
  {
    exists i, j, k :: 0 <= i <= j <= k < |s| && Blank(s[..i]) && StrToken(s[i..j], m.key) && Blank(s[j..k])
                      && s[k] == Code(':') && Padded(s[k + 1..], m.value)
  }

  ghost predicate DenotesPairs(s: Text, members: seq<Member>)
    requires members != []
    decreases |s|, 3
  {
    if |members| == 1 then DenotesPair(s, members[0])
    else exists k :: 0 <= k < |s| && s[k] == Code(',') && DenotesPair(s[..k], members[0])
                     && DenotesPairs(s[k + 1..], members[1..])
  }

  // ── White space ──

  lemma {:induction false} SpaceSkipped(b: Text, s: Text)
    requires Blank(b) && (s == [] || !IsSpace(s[0]))
    ensures SkipSpace(b + s) == s
    decreases |b|
  {
    if b == [] {
      assert b + s == s;
    } else {
      assert (b + s)[1..] == b[1..] + s;
      SpaceSkipped(b[1..], s);
    }
  }

  lemma {:induction false} SpaceIs(t: Text)
    ensures var n := |t| - |SkipSpace(t)|; Blank(t[..n]) && t[n..] == SkipSpace(t)
  {
    if t != [] && IsSpace(t[0]) {
      SpaceIs(t[1..]);
      var n := |t| - |SkipSpace(t)|;
      assert t[..n] == [t[0]] + t[1..][..n - 1] && t[n..] == t[1..][n - 1..];
    }
  }

  // ── Numbers ──

  lemma {:induction false} AmountSnoc(ds: Text, d: byte)
    requires Figures(ds) && Code('0') <= d <= Code('9')
    ensures Figures(ds + [d]) && Amount(ds + [d]) == 10 * Amount(ds) + (d as int - 48)
    decreases |ds|
  {
    var more := ds + [d];
    if ds == [] {
      assert more[1..] == [];
      assert Amount(more) == (d as int - 48) * Pow10(0) + Amount([]);
    } else {
      assert more[1..] == ds[1..] + [d];
      AmountSnoc(ds[1..], d);
      Shifted(ds[0] as int - 48, Pow10(|ds| - 1));
    }
  }

  lemma Shifted(d: int, p: nat)
    ensures d * (10 * p) == 10 * (d * p)
  {
  }

  lemma {:induction false} AmountIs(ds: Text)
    requires Figures(ds)
    ensures (forall k :: 0 <= k < |ds| ==> IsDigit(ds[k])) && DigitsValue(ds) == Amount(ds)
  {
    if ds != [] {
      AmountIs(ds[..|ds| - 1]);
      AmountSnoc(ds[..|ds| - 1], ds[|ds| - 1]);
      assert ds[..|ds| - 1] + [ds[|ds| - 1]] == ds;
    }
  }

  lemma IntegerIs(s: Text, i: int)
    ensures IntToken(s, i) <==> Integer(s) == Done(i, [])
  {
    hide DigitsValue, Amount;
    if s != [] {
      assert s[..1] == [s[0]];
      assert Ascii("+") == [PLUS] && Ascii("-") == [MINUS];
      var ds := if s[0] == MINUS || s[0] == PLUS then s[1..] else s;
      assert s[0..] == s;
      if Figures(ds) { AmountIs(ds); }
      if AllDigits(ds) { assert Figures(ds); }
    }
  }

  lemma {:induction false} DigitsPassed(ds: Text, rest: Text)
    requires Figures(ds) && (rest == [] || !IsDigit(rest[0]))
    ensures AfterDigits(ds + rest) == rest
    decreases |ds|
  {
    if ds == [] {
      assert ds + rest == rest;
    } else {
      assert (ds + rest)[1..] == ds[1..] + rest;
      DigitsPassed(ds[1..], rest);
    }
  }

  lemma {:induction false} DigitsAre(t: Text)
    ensures var n := |t| - |AfterDigits(t)|; Figures(t[..n]) && t[n..] == AfterDigits(t)
    ensures AfterDigits(t) == [] || !IsDigit(AfterDigits(t)[0])
  {
    if t != [] && IsDigit(t[0]) {
      DigitsAre(t[1..]);
      var n := |t| - |AfterDigits(t)|;
      assert t[..n] == [t[0]] + t[1..][..n - 1] && t[n..] == t[1..][n - 1..];
    }
  }

  lemma SignIs(t: Text)
    ensures var n := |t| - |AfterSign(t)|; n <= 1 && Signed(t[..n]) && t[n..] == AfterSign(t)
  {
    if t != [] && (t[0] == MINUS || t[0] == PLUS) {
      assert t[..1] == [t[0]];
      assert Ascii("+") == [PLUS] && Ascii("-") == [MINUS];
    }
  }

  lemma SignPassed(sign: Text, rest: Text)
    requires Signed(sign) && rest != [] && rest[0] != MINUS && rest[0] != PLUS
    ensures AfterSign(sign + rest) == rest && |sign| <= 1
  {
    assert Ascii("+") == [PLUS] && Ascii("-") == [MINUS];
    assert sign == [] ==> sign + rest == rest;
  }

  predicate Tail(e: Text) {
    e == [] || (e[0] in {LOWER_E, UPPER_E} && AfterSign(e[1..]) != [] && AfterDigits(AfterSign(e[1..])) == [])
  }

  lemma ExponentTail(e: Text, a: nat)
    requires 1 <= a < |e| && Signed(e[1..a]) && Figures(e[a..])
    ensures AfterSign(e[1..]) != [] && AfterDigits(AfterSign(e[1..])) == []
  {
    hide AfterSign, AfterDigits;
    assert e[1..] == e[1..a] + e[a..];
    SignPassed(e[1..a], e[a..]);
    DigitsPassed(e[a..], []);
    assert e[a..] + [] == e[a..];
  }

  lemma TailExponent(e: Text) returns (a: nat)
    requires e != [] && AfterSign(e[1..]) != [] && AfterDigits(AfterSign(e[1..])) == []
    ensures 1 <= a < |e| && Signed(e[1..a]) && Figures(e[a..])
  {
    hide AfterSign, AfterDigits, Signed;
    var t := AfterSign(e[1..]);
    SignIs(e[1..]);
    DigitsAre(t);
    a := |e| - |t|;
    assert e[1..][..a - 1] == e[1..a] && e[1..][a - 1..] == e[a..] && t[..|t|] == t;
  }

  lemma ExponentIs(e: Text)
    ensures Exponent(e) <==> Tail(e)
  {
    hide AfterSign, AfterDigits, Signed;
    if e != [] && e[0] in {LOWER_E, UPPER_E} {
      if a :| 1 <= a < |e| && Signed(e[1..a]) && Figures(e[a..]) { ExponentTail(e, a); }
      if AfterSign(e[1..]) != [] && AfterDigits(AfterSign(e[1..])) == [] { var a := TailExponent(e); }
    }
  }

  ghost predicate Parts(s: Text, a: nat, b: nat, c: nat) {
    && a <= b <= c <= |s|
    && Signed(s[..a]) && Figures(s[a..b]) && Fraction(s[b..c]) && Exponent(s[c..])
    && (b > a || c > b + 1) && (c > b || |s| > c)
  }

  lemma ExponentStart(e: Text)
    requires Exponent(e)
    ensures e == [] || (!IsDigit(e[0]) && e[0] != DOT)
  {
  }

  lemma AfterPoint(s: Text, b: nat, c: nat)
    requires b < c <= |s| && Fraction(s[b..c]) && Exponent(s[c..])
    ensures s[b] == DOT && AfterDigits(s[b + 1..]) == s[c..]
  {
    hide Exponent;
    assert s[b..c][0] == s[b] && s[b..c][1..] == s[b + 1..c];
    ExponentStart(s[c..]);
    DigitsPassed(s[b + 1..c], s[c..]);
    assert s[b + 1..] == s[b + 1..c] + s[c..];
  }

  lemma AfterWhole(s: Text, a: nat, b: nat)
    requires a <= b <= |s| && Signed(s[..a]) && Figures(s[a..b])
    requires b == |s| || (!IsDigit(s[b]) && s[b] != MINUS && s[b] != PLUS)
    requires a < |s|
    ensures AfterSign(s) == s[a..] && AfterDigits(s[a..]) == s[b..]
  {
    assert s == s[..a] + s[a..] && s[a..] == s[a..b] + s[b..];
    DigitsPassed(s[a..b], s[b..]);
    if b > a { assert s[a..b][0] == s[a]; }
    SignPassed(s[..a], s[a..]);
  }

  lemma PartsDecimal(s: Text, a: nat, b: nat, c: nat)
    requires Parts(s, a, b, c)
    ensures IsDecimal(s) && IsFloating(s)
  {
    hide AfterSign, AfterDigits, Exponent, Signed;
    ExponentIs(s[c..]);
    ExponentStart(s[c..]);
    if c > b {
      AfterPoint(s, b, c);
      AfterWhole(s, a, b);
      assert s[b..][0] == DOT && s[b..][1..] == s[b + 1..];
    } else {
      assert s[c..][0] == s[c] && s[c] in {LOWER_E, UPPER_E};
      AfterWhole(s, a, b);
    }
  }

  lemma PointParts(s: Text, a: nat, b: nat) returns (c: nat)
    requires a <= b < |s| && s[b] == DOT
    ensures b < c <= |s| && Fraction(s[b..c]) && s[c..] == AfterDigits(s[b + 1..])
  {
    DigitsAre(s[b + 1..]);
    c := |s| - |AfterDigits(s[b + 1..])|;
    assert s[b + 1..][..c - b - 1] == s[b..c][1..] && s[b + 1..][c - b - 1..] == s[c..];
  }

  lemma DecimalParts(s: Text) returns (a: nat, b: nat, c: nat)
    requires IsDecimal(s) && IsFloating(s)
    ensures Parts(s, a, b, c)
  {
    hide AfterSign, AfterDigits, Exponent, Signed, IsFloating;
    var t := AfterSign(s);
    var whole := AfterDigits(t);
    SignIs(s);
    DigitsAre(t);
    a, b := |s| - |t|, |s| - |whole|;
    assert t[..b - a] == s[a..b] && t[b - a..] == s[b..];
    if whole != [] && whole[0] == DOT {
      c := PointParts(s, a, b);
      assert whole[1..] == s[b + 1..];
    } else {
      c := b;
      if c == |s| { assert s[a..b] == s[a..]; NoPoint(s, a); }
      assert s[b..c] == [];
    }
    ExponentIs(s[c..]);
  }

  lemma NoPoint(s: Text, a: nat)
    requires a <= |s| && Signed(s[..a]) && Figures(s[a..])
    ensures !IsFloating(s)
  {
    assert Ascii("+") == [PLUS] && Ascii("-") == [MINUS];
    forall k | 0 <= k < |s| ensures s[k] != DOT && s[k] != LOWER_E && s[k] != UPPER_E {
      if k < a { assert s[..a][k] == s[k]; } else { assert s[a..][k - a] == s[k]; }
    }
  }

  lemma RealIs(s: Text)
    ensures RealToken(s) <==> IsDecimal(s) && IsFloating(s)
  {
    hide IsDecimal, IsFloating, Exponent, Signed;
    if RealToken(s) {
      var a, b, c :| 0 <= a <= b <= c <= |s| && Signed(s[..a]) && Figures(s[a..b]) && Fraction(s[b..c])
                     && Exponent(s[c..]) && (b > a || c > b + 1) && (c > b || |s| > c);
      PartsDecimal(s, a, b, c);
    }
    if IsDecimal(s) && IsFloating(s) { var a, b, c := DecimalParts(s); }
  }

  // ── Strings ──

  lemma ShortIs(x: byte, rest: Text)
    ensures x != LOWER_U ==>
              (ReadEscape([x] + rest).Done? <==> exists c :: Short(x, c))
              && (forall c :: Short(x, c) ==> ReadEscape([x] + rest) == Done([c], rest))
  {
    assert ([x] + rest)[1..] == rest;
    assert Short(LOWER_B, BS) && Short(LOWER_T, TAB) && Short(LOWER_N, LF) && Short(LOWER_F, FF) && Short(LOWER_R, CR);
    assert Short(QUOTE, QUOTE) && Short(BACKSLASH, BACKSLASH) && Short(SLASH, SLASH);
  }

  lemma HexSpells(c: byte)
    requires HexValue(c) >= 0
    ensures Spells(c, HexValue(c))
  {
  }

  lemma HexJoin(a: int, b: int, c: int, d: int)
    requires 0 <= a < 16 && 0 <= b < 16 && 0 <= c < 16 && 0 <= d < 16
    ensures var n := ((a * 16 + b) * 16 + c) * 16 + d;
            0 <= n < 0x10000 && n / 4096 == a && n / 256 % 16 == b && n / 16 % 16 == c && n % 16 == d
  {
  }

  lemma UnitIs(s: Text)
    requires ReadHex4(s).Done?
    ensures |s| >= 4 && UnitText(s[..4], ReadHex4(s).value)
  {
    HexJoin(HexValue(s[0]), HexValue(s[1]), HexValue(s[2]), HexValue(s[3]));
    HexSpells(s[0]);
    HexSpells(s[1]);
    HexSpells(s[2]);
    HexSpells(s[3]);
  }

  lemma Halves(high: int, low: int) returns (cp: int)
    requires HighHalf(high) && LowHalf(low)
    ensures cp == 0x10000 + (high - 0xD800) * 1024 + (low - 0xDC00)
    ensures 0x10000 <= cp < 0x110000 && high == High(cp) && low == Low(cp)
  {
    cp := 0x10000 + (high - 0xD800) * 1024 + (low - 0xDC00);
  }

  lemma UnitPiece(p: Text, u: Text, behind: Text)
    requires Piece(p, u, behind) && p[0] == BACKSLASH && (|p| >= 2 ==> p[1] == LOWER_U)
    ensures |p| >= 6 && exists m :: 0 <= m < 0x10000 && UnitText(p[2..6], m)
  {
    hide Encodes, Spells, LowNext;
  }

  /** A string's inside that goes on with `\u` goes on with a code unit. */
  lemma NextUnit(s: Text, t: Text)
    requires Inside(s, t) && [BACKSLASH, LOWER_U] <= s
    ensures |s| >= 6 && exists m :: 0 <= m < 0x10000 && UnitText(s[2..6], m)
  {
    hide Piece, UnitText;
    var k, j :| 0 < k <= |s| && 0 <= j <= |t| && Piece(s[..k], t[..j], s[k..]) && Inside(s[k..], t[j..]);
    UnitPiece(s[..k], t[..j], s[k..]);
    assert s[..k][2..6] == s[2..6];
  }

  /** The reader takes a piece for what it stands for. `after` begins with the closing quote. */
  lemma PieceRead(p: Text, u: Text, behind: Text, t: Text, after: Text)
    requires Piece(p, u, behind) && Inside(behind, t) && after != [] && after[0] == QUOTE
    ensures p[0] != QUOTE && ReadPiece(p + (behind + after)) == Done(u, behind + after)
  {
    hide Inside, Encodes, UnitText, ReadHex4, ReadUnicode, LowNext;
    var rest := behind + after;
    assert (p + rest)[1..] == p[1..] + rest;
    if |p| == 1 {
      assert p[1..] + rest == rest && p == [p[0]];
    } else if |p| == 2 {
      ShortIs(p[1], rest);
      assert p[1..] == [p[1]] && u == [u[0]];
    } else {
      assert Ascii("\\u") == [BACKSLASH, LOWER_U];
      assert p[1..] + rest == [LOWER_U] + (p[2..] + rest) && ([LOWER_U] + (p[2..] + rest))[1..] == p[2..] + rest;
      if |p| == 6 { OneRead(p, u, behind, t, after); } else { TwoRead(p, u, rest); }
    }
  }

  lemma OneRead(p: Text, u: Text, behind: Text, t: Text, after: Text)
    requires OneUnit(p, u, behind) && Inside(behind, t) && after != [] && after[0] == QUOTE
    ensures ReadUnicode(p[2..] + (behind + after)) == Done(u, behind + after)
  {
    hide Inside, Encodes, UnitText, ReadHex4, ReadUnicode;
    var n :| UnitText(p[2..6], n) && Encodes(u, n) && !(HighHalf(n) && LowNext(behind));
    var rest := behind + after;
    assert p[2..6] == p[2..];
    if HighHalf(n) && [BACKSLASH, LOWER_U] <= rest {
      NextBehind(behind, t, after);
      var m :| 0 <= m < 0x10000 && UnitText(behind[2..6], m);
      assert rest[2..6] == behind[2..6];
      StartsUnit(behind, rest, m);
    }
    LoneRead(n, p[2..], rest);
    UnitBound(p[2..6], n);
    Utf8Encodes(u, n);
    Utf8Encodes(ReadUnicode(p[2..] + rest).value, n);
  }

  lemma UnitBound(h: Text, n: int)
    requires UnitText(h, n)
    ensures 0 <= n < 0x10000
  {
  }

  lemma StartsUnit(behind: Text, rest: Text, m: int)
    requires |behind| >= 6 && behind <= rest && [BACKSLASH, LOWER_U] <= rest && UnitText(behind[2..6], m)
    ensures LowHalf(m) ==> LowNext(behind)
  {
    hide UnitText;
    assert behind[0] == rest[0] && behind[1] == rest[1];
    assert behind[..2] == Ascii("\\u");
  }

  lemma NextBehind(behind: Text, t: Text, after: Text)
    requires Inside(behind, t) && after != [] && after[0] == QUOTE && [BACKSLASH, LOWER_U] <= behind + after
    ensures |behind| >= 6 && exists m :: 0 <= m < 0x10000 && UnitText(behind[2..6], m)
  {
    hide UnitText, Inside;
    var rest := behind + after;
    assert rest[0] == BACKSLASH && rest[1] == LOWER_U;
    if |behind| >= 2 {
      NextUnit(behind, t);
    } else {
      NoStump(behind, t);
    }
  }

  lemma NoStump(behind: Text, t: Text)
    requires Inside(behind, t) && |behind| < 2
    ensures behind == [] || behind[0] != BACKSLASH
  {
    hide OneUnit, TwoUnits;
    if behind != [] {
      var k, j :| 0 < k <= |behind| && 0 <= j <= |t| && Piece(behind[..k], t[..j], behind[k..])
                  && Inside(behind[k..], t[j..]);
      StumpPiece(behind[..k], t[..j], behind[k..]);
    }
  }

  lemma StumpPiece(p: Text, u: Text, behind: Text)
    requires Piece(p, u, behind) && |p| == 1
    ensures p[0] != BACKSLASH
  {
  }

  lemma TwoRead(p: Text, u: Text, rest: Text)
    requires TwoUnits(p, u)
    ensures ReadUnicode(p[2..] + rest) == Done(u, rest)
  {
    hide Encodes, UnitText, ReadHex4, ReadUnicode;
    var cp :| 0x10000 <= cp < 0x110000 && UnitText(p[2..6], High(cp)) && UnitText(p[8..12], Low(cp)) && Encodes(u, cp);
    assert Ascii("\\u") == [BACKSLASH, LOWER_U];
    assert p[2..] + rest == p[2..6] + ([BACKSLASH, LOWER_U] + p[8..12] + rest) by {
      assert p[2..] == p[2..6] + p[6..8] + p[8..12];
    }
    PairRead(cp, p[2..6], p[8..12], rest);
    Utf8Encodes(u, cp);
    Utf8Encodes(ReadUnicode(p[2..] + rest).value, cp);
  }

  lemma CharsStep(s: Text)
    requires s != [] && s[0] != QUOTE && ReadPiece(s).Done? && ReadChars(ReadPiece(s).rest).Done?
    ensures var more := ReadChars(ReadPiece(s).rest);
            ReadChars(s) == Done(ReadPiece(s).value + more.value, more.rest)
  {
    hide ReadPiece;
  }

  lemma Halved(s: Text, k: nat, after: Text)
    requires k <= |s|
    ensures s + after == s[..k] + (s[k..] + after) && s[..k] + s[k..] == s
  {
  }

  lemma {:induction false} InsideRead(s: Text, t: Text, after: Text)
    requires Inside(s, t)
    ensures ReadChars(s + ([QUOTE] + after)) == Done(t, after)
    decreases |s|
  {
    hide Piece, ReadPiece;
    if s == [] {
      assert s + ([QUOTE] + after) == [QUOTE] + after && ([QUOTE] + after)[1..] == after;
    } else {
      hide ReadChars;
      var k, j :| 0 < k <= |s| && 0 <= j <= |t| && Piece(s[..k], t[..j], s[k..]) && Inside(s[k..], t[j..]);
      PieceRead(s[..k], t[..j], s[k..], t[j..], [QUOTE] + after);
      InsideRead(s[k..], t[j..], after);
      Halved(s, k, [QUOTE] + after);
      Halved(t, j, []);
      CharsStep(s + ([QUOTE] + after));
    }
  }

  lemma StrRead(s: Text, t: Text, rest: Text)
    requires StrToken(s, t)
    ensures s[0] == QUOTE && ReadString(s + rest) == Done(t, rest)
  {
    hide Inside, ReadChars;
    var m := s[1..|s| - 1];
    InsideRead(m, t, rest);
    assert (s + rest)[1..] == m + ([QUOTE] + rest);
  }

  /** What the reader takes is a piece, with whatever is behind it. */
  lemma PieceIs(t: Text)
    requires t != [] && t[0] != QUOTE && ReadPiece(t).Done?
    ensures var r := ReadPiece(t);
            var k := |t| - |r.rest|;
            k > 0 && t[k..] == r.rest && Piece(t[..k], r.value, t[k..])
  {
    hide ReadUnicode, Encodes, UnitText, ReadHex4, OneUnit, TwoUnits;
    if t[0] != BACKSLASH {
      assert t[..1] == [t[0]];
    } else if t[1] == LOWER_U {
      assert t[1..][1..] == t[2..];
      UnicodeIs(t);
    } else {
      assert t[1..] == [t[1]] + t[2..];
      ShortIs(t[1], t[2..]);
      var c :| Short(t[1], c);
      assert t[..2][1] == t[1];
    }
  }

  lemma UnicodeIs(t: Text)
    requires |t| >= 2 && t[0] == BACKSLASH && t[1] == LOWER_U && ReadUnicode(t[2..]).Done?
    ensures var r := ReadUnicode(t[2..]);
            var k := |t| - |r.rest|;
            k > 0 && t[k..] == r.rest && (OneUnit(t[..k], r.value, t[k..]) || TwoUnits(t[..k], r.value))
  {
    hide Encodes, UnitText, ReadHex4, OneUnit, TwoUnits, Utf8, LowNext;
    var first := ReadHex4(t[2..]);
    UnitIs(t[2..]);
    FourGone(t[2..]);
    assert t[2..][4..] == t[6..] && t[2..][..4] == t[2..6];
    var n, u := first.value, t[6..];
    if HighHalf(n) && |u| >= 6 && u[0] == BACKSLASH && u[1] == LOWER_U && LowHalf(ReadHex4(u[2..]).value) {
      UnitIs(u[2..]);
      FourGone(u[2..]);
      assert u[2..][..4] == t[8..12] && u[2..][4..] == t[12..];
      PairIs(t, n, ReadHex4(u[2..]).value);
    } else {
      LoneIs(t, n);
    }
  }

  lemma FourGone(s: Text)
    ensures ReadHex4(s).Done? ==> |s| >= 4 && ReadHex4(s).rest == s[4..] && 0 <= ReadHex4(s).value < 0x10000
  {
  }

  lemma PairIs(t: Text, high: int, low: int)
    requires |t| >= 12 && t[0] == BACKSLASH && t[1] == LOWER_U && t[6] == BACKSLASH && t[7] == LOWER_U
    requires UnitText(t[2..6], high) && UnitText(t[8..12], low) && HighHalf(high) && LowHalf(low)
    ensures TwoUnits(t[..12], Utf8(0x10000 + (high - 0xD800) * 1024 + (low - 0xDC00)))
  {
    hide UnitText, Encodes, Utf8;
    var cp := Halves(high, low);
    var p := t[..12];
    assert p[..2] == Ascii("\\u") && p[6..8] == Ascii("\\u") && p[2..6] == t[2..6] && p[8..12] == t[8..12];
    Utf8Encodes(Utf8(cp), cp);
  }

  lemma LoneIs(t: Text, n: int)
    requires |t| >= 6 && t[0] == BACKSLASH && t[1] == LOWER_U && UnitText(t[2..6], n) && 0 <= n < 0x10000
    requires HighHalf(n) && |t[6..]| >= 6 && t[6] == BACKSLASH && t[7] == LOWER_U ==>
               ReadHex4(t[8..]).Done? && !LowHalf(ReadHex4(t[8..]).value)
    ensures OneUnit(t[..6], Utf8(n), t[6..])
  {
    hide UnitText, Encodes, Utf8, ReadHex4;
    assert t[..6][..2] == Ascii("\\u") && t[..6][2..6] == t[2..6];
    Utf8Encodes(Utf8(n), n);
    assert !(HighHalf(n) && LowNext(t[6..])) by { NotLow(t, n); }
  }

  lemma NotLow(t: Text, n: int)
    requires |t| >= 6
    requires HighHalf(n) && |t[6..]| >= 6 && t[6] == BACKSLASH && t[7] == LOWER_U ==>
               ReadHex4(t[8..]).Done? && !LowHalf(ReadHex4(t[8..]).value)
    ensures HighHalf(n) ==> !LowNext(t[6..])
  {
    hide UnitText, ReadHex4;
    var u := t[6..];
    if HighHalf(n) && |u| >= 6 && u[..2] == Ascii("\\u") {
      assert u[0] == u[..2][0] && u[1] == u[..2][1];
      assert u[2..6] == t[8..12] && t[8..] == t[8..12] + t[12..];
      forall m | UnitText(u[2..6], m) ensures !LowHalf(m) { UnitRead(t[8..12], m, t[12..]); }
    }
  }

  lemma PieceShorter(p: Text, u: Text, behind: Text, less: Text)
    requires Piece(p, u, behind) && less <= behind
    ensures Piece(p, u, less)
  {
    hide UnitText, Encodes, TwoUnits;
    if LowNext(less) {
      assert less[2..6] == behind[2..6] && less[..2] == behind[..2];
    }
  }

  lemma {:induction false} InsideIs(t: Text)
    requires ReadChars(t).Done?
    ensures var r := ReadChars(t);
            var n := |t| - |r.rest| - 1;
            n >= 0 && t[n] == QUOTE && t[n + 1..] == r.rest && Inside(t[..n], r.value)
    decreases |t|
  {
    hide Piece, ReadPiece;
    if t[0] == QUOTE {
      assert t[..0] == [];
    } else {
      var piece, r := ReadPiece(t), ReadChars(t);
      PieceIs(t);
      InsideIs(piece.rest);
      var k, j := |t| - |piece.rest|, |piece.value|;
      var n := |t| - |r.rest| - 1;
      var s := t[..n];
      assert s[..k] == t[..k] && s[k..] == piece.rest[..n - k] && s[k..] <= t[k..];
      assert r.value[..j] == piece.value && r.value[j..] == ReadChars(piece.rest).value;
      PieceShorter(s[..k], r.value[..j], t[k..], s[k..]);
    }
  }

  lemma StrIs(t: Text)
    requires ReadString(t).Done?
    ensures var r := ReadString(t);
            var n := |t| - |r.rest|;
            n > 0 && t[n..] == r.rest && StrToken(t[..n], r.value)
  {
    hide Inside, ReadChars;
    var r := ReadString(t);
    InsideIs(t[1..]);
    var n := |t| - |r.rest|;
    assert t[..n][1..n - 1] == t[1..][..n - 2];
  }

  // ── Numbers in place ──

  lemma SignedChars(s: Text)
    requires Signed(s)
    ensures forall k :: 0 <= k < |s| ==> s[k] == PLUS || s[k] == MINUS
  {
    assert Ascii("+") == [PLUS] && Ascii("-") == [MINUS];
  }

  lemma IntChars(s: Text, i: int)
    requires IntToken(s, i)
    ensures s != [] && (forall k :: 0 <= k < |s| ==> InNumber(s[k])) && !IsFloating(s)
  {
    hide Amount;
    var a := if s != [] && Signed(s[..1]) then 1 else 0;
    SignedChars(s[..a]);
    forall k | 0 <= k < |s| ensures InNumber(s[k]) && s[k] != DOT && s[k] != LOWER_E && s[k] != UPPER_E {
      if k < a { assert s[..a][k] == s[k]; } else { assert s[a..][k - a] == s[k]; }
    }
  }

  lemma ExponentChars(e: Text)
    requires Exponent(e)
    ensures forall k :: 0 <= k < |e| ==> InNumber(e[k])
  {
    if e != [] {
      var a :| 1 <= a < |e| && Signed(e[1..a]) && Figures(e[a..]);
      SignedChars(e[1..a]);
      forall k | 0 <= k < |e| ensures InNumber(e[k]) {
        if 1 <= k < a { assert e[1..a][k - 1] == e[k]; } else if k >= a { assert e[a..][k - a] == e[k]; }
      }
    }
  }

  lemma RealChars(s: Text)
    requires RealToken(s)
    ensures s != [] && forall k :: 0 <= k < |s| ==> InNumber(s[k])
  {
    hide Exponent, Signed;
    var a, b, c :| 0 <= a <= b <= c <= |s| && Signed(s[..a]) && Figures(s[a..b]) && Fraction(s[b..c])
                   && Exponent(s[c..]) && (b > a || c > b + 1) && (c > b || |s| > c);
    SignedChars(s[..a]);
    ExponentChars(s[c..]);
    forall k | 0 <= k < |s| ensures InNumber(s[k]) {
      if k < a { assert s[..a][k] == s[k]; }
      else if k < b { assert s[a..b][k - a] == s[k]; }
      else if k == b < c { assert s[b..c][0] == s[k]; }
      else if k < c { assert s[b..c][1..][k - b - 1] == s[k]; }
      else { assert s[c..][k - c] == s[k]; }
    }
  }

  /** `s` is the token of the number `v`. */
  ghost predicate NumberToken(s: Text, v: Value) {
    (v.Int? && IntToken(s, v.i)) || (v.Real? && s == v.lexeme && RealToken(s))
  }

  lemma NumberRead(s: Text, v: Value, rest: Text)
    requires NumberToken(s, v) && Stops(rest)
    ensures s != [] && InNumber(s[0]) && ReadNumber(s + rest) == Done(v, rest)
  {
    hide IntToken, RealToken, IsFloating, IsDecimal, Integer;
    if v.Int? { IntChars(s, v.i); IntegerIs(s, v.i); } else { RealChars(s); RealIs(s); }
    NumberEndIs(s, rest);
    assert (s + rest)[..|s|] == s;
  }

  lemma {:induction false} NumberEnds(t: Text)
    ensures var n := |t| - |NumberEnd(t)|; t[n..] == NumberEnd(t)
  {
    if t != [] && InNumber(t[0]) {
      NumberEnds(t[1..]);
      var n := |t| - |NumberEnd(t)|;
      assert t[n..] == t[1..][n - 1..];
    }
  }

  lemma NumberIs(t: Text)
    requires ReadNumber(t).Done?
    ensures var r := ReadNumber(t);
            var n := |t| - |r.rest|;
            t[n..] == r.rest && NumberToken(t[..n], r.value)
  {
    hide IntToken, RealToken, IsFloating, IsDecimal, Integer;
    NumberEnds(t);
    var s := t[..|t| - |NumberEnd(t)|];
    RealIs(s);
    IntegerWhole(s);
    if Integer(s).Done? { IntegerIs(s, Integer(s).value); }
  }

  lemma IntegerWhole(s: Text)
    ensures Integer(s).Done? ==> Integer(s).rest == []
  {
  }

  // ── Values in place ──

  lemma {:induction false} SkipTwice(t: Text)
    ensures SkipSpace(SkipSpace(t)) == SkipSpace(t)
  {
  }

  lemma ValueSpace(t: Text)
    ensures ReadValue(SkipSpace(t)) == ReadValue(t)
  {
    hide ReadItems, ReadMembers, ReadString, ReadNumber, ReadWord, SkipSpace;
    SkipTwice(t);
  }

  lemma MemberSpace(t: Text)
    ensures ReadMember(SkipSpace(t)) == ReadMember(t)
  {
    hide ReadValue, ReadString, SkipSpace;
    SkipTwice(t);
  }

  lemma SpaceInFront(t: Text)
    ensures ReadItems(SkipSpace(t)) == ReadItems(t) && ReadMembers(SkipSpace(t)) == ReadMembers(t)
  {
    hide ReadValue, ReadMember, SkipSpace;
    ValueSpace(t);
    MemberSpace(t);
  }

  lemma NoNumber(t: Text)
    requires t != [] && !InNumber(t[0])
    ensures ReadNumber(t).Fail?
  {
  }

  lemma ValueStarts(t: Text)
    requires ReadValue(t).Done?
    ensures SkipSpace(t) != [] && SkipSpace(t)[0] != CLOSE_ARRAY
  {
    hide ReadNumber, ReadWord, SkipSpace, ReadString, ReadItems, ReadMembers;
    var u := SkipSpace(t);
    if u != [] && u[0] == CLOSE_ARRAY { NoNumber(u); }
  }

  lemma MemberStarts(t: Text)
    requires ReadMember(t).Done?
    ensures SkipSpace(t) != [] && SkipSpace(t)[0] != CLOSE_OBJECT
  {
    hide ReadValue, SkipSpace, ReadChars;
    assert ReadString(SkipSpace(t)).Done?;
  }

  /** A bracket is no value and no key. */
  lemma NoValue(t: Text)
    ensures ReadItems(t).Done? ==> SkipSpace(t) != [] && SkipSpace(t)[0] != CLOSE_ARRAY
    ensures ReadMembers(t).Done? ==> SkipSpace(t) != [] && SkipSpace(t)[0] != CLOSE_OBJECT
  {
    hide ReadValue, SkipSpace, ReadMember;
    if ReadItems(t).Done? { ValueStarts(t); }
    if ReadMembers(t).Done? { MemberStarts(t); }
  }

  lemma ArrayStep(b: Text, x: Text)
    requires Blank(b)
    ensures var u, vs := SkipSpace(x), ReadItems(x);
            ReadValue(b + ([OPEN_ARRAY] + x))
            == if u != [] && u[0] == CLOSE_ARRAY then Done(Arr([]), u[1..])
               else if vs.Fail? then Fail else Done(Arr(vs.value), vs.rest)
  {
    hide ReadItems;
    SpaceSkipped(b, [OPEN_ARRAY] + x);
    assert ([OPEN_ARRAY] + x)[1..] == x;
    SpaceInFront(x);
    NoValue(x);
  }

  lemma ObjectStep(b: Text, x: Text)
    requires Blank(b)
    ensures var u, ms := SkipSpace(x), ReadMembers(x);
            ReadValue(b + ([OPEN_OBJECT] + x))
            == if u != [] && u[0] == CLOSE_OBJECT then Done(Obj([]), u[1..])
               else if ms.Fail? then Fail else Done(Obj(ms.value), ms.rest)
  {
    hide ReadMembers;
    SpaceSkipped(b, [OPEN_OBJECT] + x);
    assert ([OPEN_OBJECT] + x)[1..] == x;
    SpaceInFront(x);
    NoValue(x);
  }

  /** What may stand behind a value and its white space. */
  predicate Closing(after: Text) {
    after == [] || after[0] in {COMMA, CLOSE_ARRAY, CLOSE_OBJECT}
  }

  lemma SimpleRead(b: Text, s: Text, v: Value, rest: Text)
    requires Blank(b) && Denotes(s, v) && Stops(rest) && !v.Arr? && !v.Obj?
    ensures ReadValue(b + (s + rest)) == Done(v, rest)
  {
    hide ReadItems, ReadMembers, ReadString, ReadNumber, StrToken, IntToken, RealToken;
    if v.Int? || v.Real? { NumberRead(s, v, rest); }
    if v.Str? { StrRead(s, v.s, rest); }
    if v.Bool? || v.Null? { WordRead(s, v, rest); }
    SpaceSkipped(b, s + rest);
  }

  lemma WordRead(s: Text, v: Value, rest: Text)
    requires v.Bool? || v.Null?
    requires s == if v.Null? then Ascii("null") else if v.b then Ascii("true") else Ascii("false")
    ensures s == if v.Null? then NULL_WORD else if v.b then TRUE_WORD else FALSE_WORD
    ensures s != [] && s <= s + rest && (s + rest)[|s|..] == rest
  {
  }

  lemma {:induction false} ValueRead(b: Text, s: Text, v: Value, rest: Text)
    requires Blank(b) && Denotes(s, v) && Stops(rest)
    ensures ReadValue(b + (s + rest)) == Done(v, rest)
    decreases |s|, 0
  {
    hide ReadValue, ReadItems, ReadMembers, ReadMember, SkipSpace, Padded;
    if v.Arr? {
      var m := s[1..|s| - 1];
      assert s + rest == [OPEN_ARRAY] + (m + ([CLOSE_ARRAY] + rest));
      ArrayStep(b, m + ([CLOSE_ARRAY] + rest));
      if v.items == [] {
        SpaceSkipped(m, [CLOSE_ARRAY] + rest);
        assert ([CLOSE_ARRAY] + rest)[1..] == rest;
      } else {
        ItemsRead(m, v.items, rest);
        NoValue(m + ([CLOSE_ARRAY] + rest));
      }
    } else if v.Obj? {
      var m := s[1..|s| - 1];
      assert s + rest == [OPEN_OBJECT] + (m + ([CLOSE_OBJECT] + rest));
      ObjectStep(b, m + ([CLOSE_OBJECT] + rest));
      if v.members == [] {
        SpaceSkipped(m, [CLOSE_OBJECT] + rest);
        assert ([CLOSE_OBJECT] + rest)[1..] == rest;
      } else {
        MembersRead(m, v.members, rest);
        NoValue(m + ([CLOSE_OBJECT] + rest));
      }
    } else {
      SimpleRead(b, s, v, rest);
    }
  }

  lemma BlankStops(b: Text, after: Text)
    requires Blank(b) && Closing(after)
    ensures Stops(b + after)
  {
  }

  lemma CutThree(s: Text, i: nat, j: nat, after: Text)
    requires i <= j <= |s|
    ensures s + after == s[..i] + (s[i..j] + (s[j..] + after))
  {
    assert s == s[..i] + s[i..j] + s[j..];
  }

  lemma {:induction false} PaddedRead(s: Text, v: Value, after: Text)
    requires Padded(s, v) && Closing(after)
    ensures var r := ReadValue(s + after); r.Done? && r.value == v && SkipSpace(r.rest) == after
    decreases |s|, 1
  {
    hide ReadValue, Denotes, SkipSpace;
    var i, j :| 0 <= i <= j <= |s| && Blank(s[..i]) && Denotes(s[i..j], v) && Blank(s[j..]);
    BlankStops(s[j..], after);
    ValueRead(s[..i], s[i..j], v, s[j..] + after);
    CutThree(s, i, j, after);
    SpaceSkipped(s[j..], after);
  }

  lemma ItemsLast(t: Text, rest: Text)
    requires ReadValue(t).Done? && SkipSpace(ReadValue(t).rest) == [CLOSE_ARRAY] + rest
    ensures ReadItems(t) == Done([ReadValue(t).value], rest)
  {
    hide ReadValue, SkipSpace;
    assert ([CLOSE_ARRAY] + rest)[1..] == rest;
  }

  lemma ItemsMore(t: Text, x: Text)
    requires ReadValue(t).Done? && SkipSpace(ReadValue(t).rest) == [COMMA] + x && ReadItems(x).Done?
    ensures ReadItems(t) == Done([ReadValue(t).value] + ReadItems(x).value, ReadItems(x).rest)
  {
    hide ReadValue, SkipSpace;
    assert ([COMMA] + x)[1..] == x;
  }

  lemma MembersLast(t: Text, rest: Text)
    requires ReadMember(t).Done? && SkipSpace(ReadMember(t).rest) == [CLOSE_OBJECT] + rest
    ensures ReadMembers(t) == Done([ReadMember(t).value], rest)
  {
    hide ReadMember, SkipSpace;
    assert ([CLOSE_OBJECT] + rest)[1..] == rest;
  }

  lemma MembersMore(t: Text, x: Text)
    requires ReadMember(t).Done? && SkipSpace(ReadMember(t).rest) == [COMMA] + x && ReadMembers(x).Done?
    ensures ReadMembers(t) == Done([ReadMember(t).value] + ReadMembers(x).value, ReadMembers(x).rest)
  {
    hide ReadMember, SkipSpace;
    assert ([COMMA] + x)[1..] == x;
  }

  lemma Cut(s: Text, k: nat, after: Text)
    requires k < |s|
    ensures s + after == s[..k] + ([s[k]] + (s[k + 1..] + after))
  {
    assert s == s[..k] + [s[k]] + s[k + 1..];
  }

  lemma {:induction false} ItemsRead(s: Text, items: seq<Value>, rest: Text)
    requires items != [] && DenotesAll(s, items)
    ensures ReadItems(s + ([CLOSE_ARRAY] + rest)) == Done(items, rest)
    decreases |s|, 2
  {
    hide ReadValue, ReadItems, Padded, SkipSpace;
    var after := [CLOSE_ARRAY] + rest;
    if |items| == 1 {
      PaddedRead(s, items[0], after);
      ItemsLast(s + after, rest);
      assert items == [items[0]];
    } else {
      var k :| 0 <= k < |s| && s[k] == Code(',') && Padded(s[..k], items[0]) && DenotesAll(s[k + 1..], items[1..]);
      PaddedRead(s[..k], items[0], [COMMA] + (s[k + 1..] + after));
      ItemsRead(s[k + 1..], items[1..], rest);
      Cut(s, k, after);
      ItemsMore(s + after, s[k + 1..] + after);
      assert items == [items[0]] + items[1..];
    }
  }

  lemma MemberStep(b: Text, key: Text, t: Text, c: Text, x: Text)
    requires Blank(b) && StrToken(key, t) && Blank(c) && ReadValue(x).Done?
    ensures ReadMember(b + (key + (c + ([COLON] + x)))) == Done(Member(t, ReadValue(x).value), ReadValue(x).rest)
  {
    hide ReadValue, SkipSpace, StrToken, ReadString;
    var behind := [COLON] + x;
    StrRead(key, t, c + behind);
    SpaceSkipped(b, key + (c + behind));
    SpaceSkipped(c, behind);
    assert behind[1..] == x;
  }

  lemma CutPair(s: Text, i: nat, j: nat, k: nat, after: Text)
    requires i <= j <= k < |s|
    ensures s + after == s[..i] + (s[i..j] + (s[j..k] + ([s[k]] + (s[k + 1..] + after))))
  {
    Cut(s, k, after);
    assert s[..k] == s[..i] + (s[i..j] + s[j..k]);
  }

  lemma {:induction false} MemberRead(s: Text, m: Member, after: Text)
    requires DenotesPair(s, m) && Closing(after)
    ensures var r := ReadMember(s + after); r.Done? && r.value == m && SkipSpace(r.rest) == after
    decreases |s|, 2
  {
    hide ReadValue, ReadMember, Padded, SkipSpace, StrToken;
    var i, j, k :| 0 <= i <= j <= k < |s| && Blank(s[..i]) && StrToken(s[i..j], m.key) && Blank(s[j..k])
                   && s[k] == Code(':') && Padded(s[k + 1..], m.value);
    PaddedRead(s[k + 1..], m.value, after);
    MemberStep(s[..i], s[i..j], m.key, s[j..k], s[k + 1..] + after);
    CutPair(s, i, j, k, after);
  }

  lemma {:induction false} MembersRead(s: Text, members: seq<Member>, rest: Text)
    requires members != [] && DenotesPairs(s, members)
    ensures ReadMembers(s + ([CLOSE_OBJECT] + rest)) == Done(members, rest)
    decreases |s|, 3
  {
    hide ReadMember, ReadMembers, DenotesPair, SkipSpace;
    var after := [CLOSE_OBJECT] + rest;
    if |members| == 1 {
      MemberRead(s, members[0], after);
      MembersLast(s + after, rest);
      assert members == [members[0]];
    } else {
      var k :| 0 <= k < |s| && s[k] == Code(',') && DenotesPair(s[..k], members[0])
               && DenotesPairs(s[k + 1..], members[1..]);
      MemberRead(s[..k], members[0], [COMMA] + (s[k + 1..] + after));
      MembersRead(s[k + 1..], members[1..], rest);
      Cut(s, k, after);
      MembersMore(s + after, s[k + 1..] + after);
      assert members == [members[0]] + members[1..];
    }
  }

  // ── What is read is in the grammar ──

  lemma WordIs(t: Text, word: Text, v: Value, w: string)
    requires (forall i :: 0 <= i < |w| ==> w[i] as int < 128) && word == Ascii(w) && ReadWord(t, word, v).Done?
    ensures var n := |t| - |ReadWord(t, word, v).rest|;
            t[n..] == ReadWord(t, word, v).rest && t[..n] == Ascii(w) && ReadWord(t, word, v).value == v
  {
  }

  /** Anything but an array or an object, no white space in front. */
  lemma SimpleIs(t: Text)
    requires ReadValue(t).Done? && SkipSpace(t) == t && t != [] && t[0] != OPEN_ARRAY && t[0] != OPEN_OBJECT
    ensures var n := |t| - |ReadValue(t).rest|;
            t[n..] == ReadValue(t).rest && Denotes(t[..n], ReadValue(t).value)
  {
    hide ReadItems, ReadMembers, ReadString, ReadNumber, ReadWord, StrToken, IntToken, RealToken;
    if t[0] == QUOTE {
      StrIs(t);
    } else if t[0] == LOWER_T {
      WordIs(t, TRUE_WORD, Bool(true), "true");
    } else if t[0] == LOWER_F {
      WordIs(t, FALSE_WORD, Bool(false), "false");
    } else if t[0] == LOWER_N {
      WordIs(t, NULL_WORD, Null, "null");
    } else {
      NumberIs(t);
    }
  }

  lemma {:induction false} ValueIs(t: Text) returns (i: nat)
    requires ReadValue(t).Done?
    ensures var n := |t| - |ReadValue(t).rest|;
            && i <= n && Blank(t[..i]) && Denotes(t[i..n], ReadValue(t).value) && t[n..] == ReadValue(t).rest
    decreases |t|, 1
  {
    hide ReadValue, ReadItems, ReadMembers, Denotes;
    var u := SkipSpace(t);
    SpaceIs(t);
    i := |t| - |u|;
    Opens(t);
    SpaceSame(t);
    if u[0] == OPEN_ARRAY { ArrayIs(u); } else if u[0] == OPEN_OBJECT { ObjectIs(u); } else { SimpleIs(u); }
    assert u[..|u| - |ReadValue(t).rest|] == t[i..|t| - |ReadValue(t).rest|];
  }

  lemma Opens(t: Text)
    requires ReadValue(t).Done?
    ensures SkipSpace(t) != []
  {
  }

  lemma SpaceSame(t: Text)
    ensures ReadValue(SkipSpace(t)) == ReadValue(t) && SkipSpace(SkipSpace(t)) == SkipSpace(t)
  {
    ValueSpace(t);
    SkipTwice(t);
  }

  lemma {:induction false} ArrayIs(t: Text)
    requires ReadValue(t).Done? && t != [] && t[0] == OPEN_ARRAY
    ensures var n := |t| - |ReadValue(t).rest|;
            t[n..] == ReadValue(t).rest && Denotes(t[..n], ReadValue(t).value)
    decreases |t|, 0
  {
    hide ReadValue, ReadItems, SkipSpace, DenotesAll;
    var x, r := t[1..], ReadValue(t);
    assert [] + ([OPEN_ARRAY] + x) == t;
    ArrayStep([], x);
    var n := |t| - |r.rest|;
    var u := SkipSpace(x);
    SpaceIs(x);
    if u != [] && u[0] == CLOSE_ARRAY {
      assert t[..n][1..n - 1] == x[..|x| - |u|] && t[n - 1..] == u;
    } else {
      ItemsAre(x);
      assert t[..n][1..n - 1] == x[..n - 2];
    }
  }

  lemma {:induction false} ObjectIs(t: Text)
    requires ReadValue(t).Done? && t != [] && t[0] == OPEN_OBJECT
    ensures var n := |t| - |ReadValue(t).rest|;
            t[n..] == ReadValue(t).rest && Denotes(t[..n], ReadValue(t).value)
    decreases |t|, 0
  {
    hide ReadValue, ReadMembers, SkipSpace, DenotesPairs;
    var x, r := t[1..], ReadValue(t);
    assert [] + ([OPEN_OBJECT] + x) == t;
    ObjectStep([], x);
    var n := |t| - |r.rest|;
    var u := SkipSpace(x);
    SpaceIs(x);
    if u != [] && u[0] == CLOSE_OBJECT {
      assert t[..n][1..n - 1] == x[..|x| - |u|] && t[n - 1..] == u;
    } else {
      MembersAre(x);
      assert t[..n][1..n - 1] == x[..n - 2];
    }
  }

  lemma {:induction false} PaddedIs(t: Text)
    requires ReadValue(t).Done?
    ensures var k := |t| - |SkipSpace(ReadValue(t).rest)|;
            t[k..] == SkipSpace(ReadValue(t).rest) && Padded(t[..k], ReadValue(t).value)
    decreases |t|, 2
  {
    hide ReadValue, Denotes, SkipSpace;
    var v := ReadValue(t);
    var i := ValueIs(t);
    SpaceIs(v.rest);
    var n, k := |t| - |v.rest|, |t| - |SkipSpace(v.rest)|;
    assert t[..k][..i] == t[..i] && t[..k][i..n] == t[i..n] && t[..k][n..] == v.rest[..k - n];
  }

  lemma OneItem(s: Text, v: Value)
    requires Padded(s, v)
    ensures DenotesAll(s, [v])
  {
    hide Padded;
  }

  lemma OnePair(s: Text, m: Member)
    requires DenotesPair(s, m)
    ensures DenotesPairs(s, [m])
  {
    hide DenotesPair;
  }

  lemma AllJoin(t: Text, k: nat, n: nat, v: Value, items: seq<Value>)
    requires k < n <= |t| && t[k] == COMMA && items != []
    requires Padded(t[..k], v) && DenotesAll(t[k + 1..n], items)
    ensures DenotesAll(t[..n], [v] + items)
  {
    hide Padded;
    var s := t[..n];
    assert s[..k] == t[..k] && s[k + 1..] == t[k + 1..n] && s[k] == COMMA && ([v] + items)[1..] == items;
  }

  lemma ItemsParts(t: Text)
    requires ReadItems(t).Done?
    ensures var v, r := ReadValue(t), ReadItems(t);
            && v.Done? && SkipSpace(v.rest) != []
            && var u := SkipSpace(v.rest);
               (u[0] == CLOSE_ARRAY && r == Done([v.value], u[1..]))
               || (u[0] == COMMA && ReadItems(u[1..]).Done?
                   && r == Done([v.value] + ReadItems(u[1..]).value, ReadItems(u[1..]).rest))
  {
    hide ReadValue, SkipSpace;
  }

  lemma {:induction false} ItemsAre(t: Text)
    requires ReadItems(t).Done?
    ensures var r := ReadItems(t);
            var n := |t| - |r.rest| - 1;
            n >= 0 && t[n] == CLOSE_ARRAY && t[n + 1..] == r.rest && r.value != [] && DenotesAll(t[..n], r.value)
    decreases |t|, 3
  {
    hide ReadValue, ReadItems, Padded, DenotesAll, SkipSpace;
    var v, r := ReadValue(t), ReadItems(t);
    ItemsParts(t);
    PaddedIs(t);
    var u := SkipSpace(v.rest);
    var k, n := |t| - |u|, |t| - |r.rest| - 1;
    if u[0] == CLOSE_ARRAY {
      OneItem(t[..k], v.value);
    } else {
      ItemsAre(u[1..]);
      assert u[1..][..n - k - 1] == t[k + 1..n];
      AllJoin(t, k, n, v.value, ReadItems(u[1..]).value);
    }
  }

  lemma PairJoins(t: Text, i: nat, j: nat, k: nat, n: nat, key: Text, v: Value)
    requires i <= j <= k < n <= |t|
    requires Blank(t[..i]) && StrToken(t[i..j], key) && Blank(t[j..k]) && t[k] == COLON && Padded(t[k + 1..n], v)
    ensures DenotesPair(t[..n], Member(key, v))
  {
    hide Padded, StrToken, Blank;
    var s := t[..n];
    assert s[..i] == t[..i] && s[i..j] == t[i..j] && s[j..k] == t[j..k] && s[k] == COLON && s[k + 1..] == t[k + 1..n];
  }

  lemma MemberParts(t: Text)
    requires ReadMember(t).Done?
    ensures var key, m := ReadString(SkipSpace(t)), ReadMember(t);
            && key.Done? && SkipSpace(key.rest) != [] && SkipSpace(key.rest)[0] == COLON
            && var v := ReadValue(SkipSpace(key.rest)[1..]);
               v.Done? && m == Done(Member(key.value, v.value), v.rest)
  {
    hide ReadValue, SkipSpace, ReadString;
  }

  lemma KeyIs(t: Text) returns (i: nat, j: nat, k: nat)
    requires ReadMember(t).Done?
    ensures i <= j <= k < |t| && Blank(t[..i]) && StrToken(t[i..j], ReadMember(t).value.key) && Blank(t[j..k])
    ensures t[k] == COLON && ReadValue(t[k + 1..]).Done?
    ensures ReadMember(t).value.value == ReadValue(t[k + 1..]).value && ReadMember(t).rest == ReadValue(t[k + 1..]).rest
  {
    hide ReadValue, ReadMember, SkipSpace, StrToken, ReadString, Blank;
    MemberParts(t);
    SpaceIs(t);
    i := |t| - |SkipSpace(t)|;
    var key := ReadString(t[i..]);
    StrIs(t[i..]);
    j := |t| - |key.rest|;
    Ends(t, i, j);
    SpaceIs(t[j..]);
    k := |t| - |SkipSpace(key.rest)|;
    Ends(t, j, k);
    Ends(t, k, k + 1);
  }

  lemma {:induction false} MemberIs(t: Text)
    requires ReadMember(t).Done?
    ensures var k := |t| - |SkipSpace(ReadMember(t).rest)|;
            t[k..] == SkipSpace(ReadMember(t).rest) && DenotesPair(t[..k], ReadMember(t).value)
    decreases |t|, 3
  {
    hide ReadValue, ReadMember, Padded, SkipSpace, StrToken, DenotesPair, Blank;
    var i, j, k := KeyIs(t);
    PaddedIs(t[k + 1..]);
    var n := |t| - |SkipSpace(ReadMember(t).rest)|;
    Ends(t, k + 1, n);
    PairJoins(t, i, j, k, n, ReadMember(t).value.key, ReadMember(t).value.value);
  }

  lemma Ends(t: Text, i: nat, j: nat)
    requires i <= j <= |t|
    ensures t[i..][..j - i] == t[i..j] && t[i..][j - i..] == t[j..]
  {
  }

  lemma PairsJoin(t: Text, k: nat, n: nat, m: Member, members: seq<Member>)
    requires k < n <= |t| && t[k] == COMMA && members != []
    requires DenotesPair(t[..k], m) && DenotesPairs(t[k + 1..n], members)
    ensures DenotesPairs(t[..n], [m] + members)
  {
    hide DenotesPair;
    var s := t[..n];
    assert s[..k] == t[..k] && s[k + 1..] == t[k + 1..n] && s[k] == COMMA && ([m] + members)[1..] == members;
  }

  lemma MembersParts(t: Text)
    requires ReadMembers(t).Done?
    ensures var m, r := ReadMember(t), ReadMembers(t);
            && m.Done? && SkipSpace(m.rest) != []
            && var u := SkipSpace(m.rest);
               (u[0] == CLOSE_OBJECT && r == Done([m.value], u[1..]))
               || (u[0] == COMMA && ReadMembers(u[1..]).Done?
                   && r == Done([m.value] + ReadMembers(u[1..]).value, ReadMembers(u[1..]).rest))
  {
    hide ReadMember, SkipSpace;
  }

  lemma {:induction false} MembersAre(t: Text)
    requires ReadMembers(t).Done?
    ensures var r := ReadMembers(t);
            var n := |t| - |r.rest| - 1;
            n >= 0 && t[n] == CLOSE_OBJECT && t[n + 1..] == r.rest && r.value != [] && DenotesPairs(t[..n], r.value)
    decreases |t|, 4
  {
    hide ReadMember, ReadMembers, DenotesPair, DenotesPairs, SkipSpace;
    var m, r := ReadMember(t), ReadMembers(t);
    MembersParts(t);
    MemberIs(t);
    var u := SkipSpace(m.rest);
    var k, n := |t| - |u|, |t| - |r.rest| - 1;
    if u[0] == CLOSE_OBJECT {
      OnePair(t[..k], m.value);
    } else {
      MembersAre(u[1..]);
      assert u[1..][..n - k - 1] == t[k + 1..n];
      PairsJoin(t, k, n, m.value, ReadMembers(u[1..]).value);
    }
  }

  /** A document is read, and as `v`, if and only if the grammar has it and lets it denote `v`. */
  lemma ReadsTheGrammar(t: Text, v: Value)
    ensures ReadDocument(t) == Done(v, []) <==> Padded(t, v)
  {
    hide ReadValue, Padded, SkipSpace;
    if ReadDocument(t) == Done(v, []) {
      PaddedIs(t);
      assert t[..|t|] == t;
    }
    if Padded(t, v) {
      PaddedRead(t, v, []);
      assert t + [] == t;
    }
  }

  /** What is written is in the grammar and denotes the value written. */
  lemma WritesTheGrammar(v: Value)
    requires Exact(v)
    ensures Padded(Written(v), v)
  {
    hide ReadDocument, Padded, Written;
    RoundTrip(v);
    ReadsTheGrammar(Written(v), v);
  }
}
