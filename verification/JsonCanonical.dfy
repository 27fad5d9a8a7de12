/** Which of a value's many texts is the one written: no other without control bytes is shorter. */
module JsonCanonical {
  import opened Bytes
  import opened Json
  import opened JsonGrammar

  /** No line breaks, tabs or other control bytes. */
  predicate Clean(s: Text) {
    forall i :: 0 <= i < |s| ==> s[i] >= 0x20
  }

  // ── What is written is clean ──

  lemma {:induction false} EscapeAllClean(s: Text)
    ensures Clean(EscapeAll(s))
    decreases |s|
  {
    if s != [] { EscapeAllClean(s[1..]); }
  }

  /** An escape is spelled without capitals, its hexadecimal digits included. */
  lemma EscapeSmall(c: byte)
    ensures forall k :: 0 <= k < |Escape(c)| && Code('A') <= Escape(c)[k] <= Code('Z') ==> Escape(c) == [c]
  {
  }

  lemma IntTextClean(i: int)
    requires I64_MIN <= i <= I64_MAX
    ensures Clean(IntText(i))
  {
    IntTextBack(i);
    forall k | 0 <= k < |IntText(i)| ensures IntText(i)[k] >= 0x20 { assert InNumber(IntText(i)[k]); }
  }

  lemma {:induction false} WrittenClean(v: Value)
    requires Exact(v)
    ensures Clean(Written(v))
    decreases v
  {
    match v
    case Int(i) => IntTextClean(i);
    case Str(s) => EscapeAllClean(s);
    case Arr(items) => ItemsClean(v, items);
    case Obj(members) => MembersClean(v, members);
    case _ =>
  }

  lemma {:induction false} ItemsClean(v: Value, items: seq<Value>)
    requires forall k :: 0 <= k < |items| ==> items[k] < v && Exact(items[k])
    ensures Clean(Items(v, items))
    decreases v, |items|
  {
    if items != [] {
      WrittenClean(items[0]);
      ItemsClean(v, items[1..]);
    }
  }

  lemma {:induction false} MembersClean(v: Value, members: seq<Member>)
    requires forall k :: 0 <= k < |members| ==> members[k].value < v && Exact(members[k].value)
    ensures Clean(Members(v, members))
    decreases v, |members|
  {
    if members != [] {
      EscapeAllClean(members[0].key);
      WrittenClean(members[0].value);
      MembersClean(v, members[1..]);
    }
  }

  // ── Strings ──

  lemma {:induction false} EscapeAllSplit(a: Text, b: Text)
    ensures EscapeAll(a + b) == EscapeAll(a) + EscapeAll(b)
    decreases |a|
  {
    if a == [] {
      assert a + b == b;
    } else {
      assert (a + b)[1..] == a[1..] + b;
      EscapeAllSplit(a[1..], b);
    }
  }

  lemma {:induction false} AsItIs(u: Text)
    requires forall i :: 0 <= i < |u| ==> u[i] >= 0x80
    ensures |EscapeAll(u)| == |u|
    decreases |u|
  {
    if u != [] { AsItIs(u[1..]); }
  }

  lemma OneEscaped(u: Text)
    requires |u| == 1
    ensures EscapeAll(u) == Escape(u[0])
  {
    assert EscapeAll(u[1..]) == [];
  }

  lemma CodePointEscaped(u: Text, cp: int)
    requires Encodes(u, cp)
    ensures |EscapeAll(u)| <= 6
  {
    if |u| == 1 { OneEscaped(u); } else { AsItIs(u); }
  }

  /** No spelling of some bytes is shorter than their escapes, control bytes apart. */
  lemma PieceShort(p: Text, u: Text, behind: Text)
    requires Piece(p, u, behind) && Clean(p)
    ensures |EscapeAll(u)| <= |p|
  {
    if OneUnit(p, u, behind) {
      var n :| UnitText(p[2..6], n) && Encodes(u, n) && !(HighHalf(n) && LowNext(behind));
      CodePointEscaped(u, n);
    } else if TwoUnits(p, u) {
      var cp :| 0x10000 <= cp < 0x110000 && UnitText(p[2..6], High(cp)) && UnitText(p[8..12], Low(cp))
                && Encodes(u, cp);
      CodePointEscaped(u, cp);
    } else {
      OneEscaped(u);
      assert p[0] >= 0x20;
    }
  }

  lemma {:induction false} InsideShort(s: Text, t: Text)
    requires Inside(s, t) && Clean(s)
    ensures |EscapeAll(t)| <= |s|
    decreases |s|
  {
    if s != [] {
      hide Piece, EscapeAll;
      var k, j :| 0 < k <= |s| && 0 <= j <= |t| && Piece(s[..k], t[..j], s[k..]) && Inside(s[k..], t[j..]);
      PieceShort(s[..k], t[..j], s[k..]);
      InsideShort(s[k..], t[j..]);
      EscapeAllSplit(t[..j], t[j..]);
      assert t[..j] + t[j..] == t;
    }
  }

  lemma StrShort(s: Text, t: Text)
    requires StrToken(s, t) && Clean(s)
    ensures |Quoted(t)| <= |s|
  {
    InsideShort(s[1..|s| - 1], t);
  }

  // ── Numbers ──

  lemma {:induction false} AmountBelow(ds: Text)
    requires Figures(ds)
    ensures 0 <= Amount(ds) < Pow10(|ds|)
    decreases |ds|
  {
    if ds != [] {
      AmountBelow(ds[1..]);
      Leading(ds[0] as int - 48, Pow10(|ds| - 1));
    }
  }

  lemma Leading(d: int, p: nat)
    requires 0 <= d <= 9
    ensures d * p <= 9 * p
  {
  }

  lemma {:induction false} DecimalShort(n: nat, k: nat)
    requires k > 0 && n < Pow10(k)
    ensures |Decimal(n)| <= k
    decreases k
  {
    if n >= 10 {
      DecimalShort(n / 10, k - 1);
    }
  }

  lemma IntShort(s: Text, i: int)
    requires IntToken(s, i)
    ensures |IntText(i)| <= |s|
  {
    var a := if s != [] && Signed(s[..1]) then 1 else 0;
    AmountBelow(s[a..]);
    DecimalShort(if i < 0 then -i else i, |s| - a);
  }

  // ── Values ──

  lemma {:induction false} DenotesShort(s: Text, v: Value)
    requires Denotes(s, v) && Clean(s)
    ensures |Written(v)| <= |s|
    decreases |s|, 0
  {
    match v
    case Int(i) => IntShort(s, i);
    case Str(t) => StrShort(s, t);
    case Arr(items) => if items != [] { AllShort(s[1..|s| - 1], v, items); }
    case Obj(members) => if members != [] { PairsShort(s[1..|s| - 1], v, members); }
    case _ =>
  }

  /** What is written is the shortest: no text without control bytes that denotes the value takes fewer bytes. */
  lemma {:induction false} WrittenShortest(s: Text, v: Value)
    requires Padded(s, v) && Clean(s)
    ensures |Written(v)| <= |s|
    decreases |s|, 1
  {
    hide Denotes, Written;
    var i, j :| 0 <= i <= j <= |s| && Blank(s[..i]) && Denotes(s[i..j], v) && Blank(s[j..]);
    DenotesShort(s[i..j], v);
  }

  lemma {:induction false} AllShort(s: Text, v: Value, items: seq<Value>)
    requires items != [] && DenotesAll(s, items) && Clean(s) && forall k :: 0 <= k < |items| ==> items[k] < v
    ensures |Items(v, items)| <= |s|
    decreases |s|, 2
  {
    hide Padded, Written;
    if |items| == 1 {
      WrittenShortest(s, items[0]);
    } else {
      var k :| 0 <= k < |s| && s[k] == Code(',') && Padded(s[..k], items[0]) && DenotesAll(s[k + 1..], items[1..]);
      WrittenShortest(s[..k], items[0]);
      AllShort(s[k + 1..], v, items[1..]);
    }
  }

  lemma {:induction false} PairShort(s: Text, v: Value, m: Member)
    requires DenotesPair(s, m) && Clean(s) && m.value < v
    ensures |Pair(v, m)| <= |s|
    decreases |s|, 2
  {
    hide Padded, Written, StrToken, Quoted;
    var i, j, k :| 0 <= i <= j <= k < |s| && Blank(s[..i]) && StrToken(s[i..j], m.key) && Blank(s[j..k])
                   && s[k] == Code(':') && Padded(s[k + 1..], m.value);
    StrShort(s[i..j], m.key);
    WrittenShortest(s[k + 1..], m.value);
  }

  lemma {:induction false} PairsShort(s: Text, v: Value, members: seq<Member>)
    requires members != [] && DenotesPairs(s, members) && Clean(s)
    requires forall k :: 0 <= k < |members| ==> members[k].value < v
    ensures |Members(v, members)| <= |s|
    decreases |s|, 3
  {
    hide DenotesPair, Pair;
    if |members| == 1 {
      PairShort(s, v, members[0]);
    } else {
      var k :| 0 <= k < |s| && s[k] == Code(',') && DenotesPair(s[..k], members[0])
               && DenotesPairs(s[k + 1..], members[1..]);
      PairShort(s[..k], v, members[0]);
      PairsShort(s[k + 1..], v, members[1..]);
    }
  }
}
