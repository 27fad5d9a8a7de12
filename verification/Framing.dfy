/** The private framing's shapes: trees as the packer lays them out, what a newer writer may add to them,
    and the two ways the readers walk them (keyed maps and positional rows). */
module Framing {
  import opened Options
  import opened Bytes
  import opened Json
  import opened MsgPack

  datatype Pair = Pair(key: Text, value: Wire)

  /** What a packer can produce. `known` is the set of keys the map's reader knows; a `Row` is an array
      whose reader passes over cells it does not know; a `List` is one whose reader takes every item. */
  datatype Wire =
    | Nil
    | Flag(on: bool)
    | Num(i: int)
    | Name(s: Text)
    | Bin(bytes: Text)
    | List(items: seq<Wire>)
    | Row(items: seq<Wire>)
    | Map(known: set<Text>, pairs: seq<Pair>)

  // ── Bytes ──

  /** Integers are 64-bit ones; lengths and counts fit 32 bits. */
  predicate Fit(w: Wire) {
    match w
    case Num(i) => I64_MIN <= i <= I64_MAX
    case Name(s) => |s| < U32
    case Bin(b) => |b| < U32
    case List(items) => |items| < U32 && forall k :: 0 <= k < |items| ==> Fit(items[k])
    case Row(items) => |items| < U32 && forall k :: 0 <= k < |items| ==> Fit(items[k])
    case Map(_, pairs) => |pairs| < U32 && forall k :: 0 <= k < |pairs| ==> |pairs[k].key| < U32 && Fit(pairs[k].value)
    case _ => true
  }

  function Laid(w: Wire): Text
    requires Fit(w)
    decreases w
  {
    match w
    case Nil => [0xc0]
    case Flag(on) => if on then [0xc3] else [0xc2]
    case Num(i) => PackedInt(i)
    case Name(s) => PackedStr(s)
    case Bin(b) => PackedBin(b)
    case List(items) => ArrayHeader(|items|) + LaidItems(items)
    case Row(items) => ArrayHeader(|items|) + LaidItems(items)
    case Map(_, pairs) => MapHeader(|pairs|) + LaidPairs(pairs)
  }

  function LaidItems(items: seq<Wire>): Text
    requires forall k :: 0 <= k < |items| ==> Fit(items[k])
    decreases items
  {
    if items == [] then [] else Laid(items[0]) + LaidItems(items[1..])
  }

  function LaidPairs(pairs: seq<Pair>): Text
    requires forall k :: 0 <= k < |pairs| ==> |pairs[k].key| < U32 && Fit(pairs[k].value)
    decreases pairs
  {
    if pairs == [] then []
    else PackedStr(pairs[0].key) + (Laid(pairs[0].value) + LaidPairs(pairs[1..]))
  }

  // ── What a newer writer may add ──

  /** `x` is `w` with keys no reader knows woven into maps, and cells behind rows, at any depth. */
  ghost predicate Wider(w: Wire, x: Wire)
    decreases x
  {
    match w
    case List(items) => x.List? && AllWider(items, x.items)
    case Row(items) => x.Row? && |items| <= |x.items| && RowWider(items, x.items)
    case Map(known, pairs) => x.Map? && x.known == known && Woven(known, pairs, x.pairs)
    case _ => x == w
  }

  ghost predicate AllWider(ws: seq<Wire>, xs: seq<Wire>)
    decreases xs
  {
    |ws| == |xs| && (forall k :: 0 <= k < |ws| ==> Wider(ws[k], xs[k]))
  }

  ghost predicate RowWider(ws: seq<Wire>, xs: seq<Wire>)
    decreases xs
  {
    |ws| <= |xs| && (forall k :: 0 <= k < |ws| ==> Wider(ws[k], xs[k]))
  }

  ghost predicate Woven(known: set<Text>, ps: seq<Pair>, qs: seq<Pair>)
    decreases qs
  {
    if qs == [] then ps == []
    else if qs[0].key !in known then Woven(known, ps, qs[1..])
    else ps != [] && ps[0].key == qs[0].key && Wider(ps[0].value, qs[0].value) && Woven(known, ps[1..], qs[1..])
  }

  /** Every key a map holds is one its reader knows. */
  predicate Closed(w: Wire) {
    match w
    case List(items) => forall k :: 0 <= k < |items| ==> Closed(items[k])
    case Row(items) => forall k :: 0 <= k < |items| ==> Closed(items[k])
    case Map(known, pairs) => forall k :: 0 <= k < |pairs| ==> pairs[k].key in known && Closed(pairs[k].value)
    case _ => true
  }

  /** Adding nothing is a way of adding. */
  lemma {:induction false} WiderRefl(w: Wire)
    requires Closed(w)
    ensures Wider(w, w)
    decreases w
  {
    match w
    case List(items) => forall k | 0 <= k < |items| ensures Wider(items[k], items[k]) { WiderRefl(items[k]); }
    case Row(items) => forall k | 0 <= k < |items| ensures Wider(items[k], items[k]) { WiderRefl(items[k]); }
    case Map(known, pairs) => WovenRefl(known, pairs);
    case _ =>
  }

  lemma {:induction false} WovenRefl(known: set<Text>, ps: seq<Pair>)
    requires forall k :: 0 <= k < |ps| ==> ps[k].key in known && Closed(ps[k].value)
    ensures Woven(known, ps, ps)
    decreases ps
  {
    if ps != [] {
      WiderRefl(ps[0].value);
      WovenRefl(known, ps[1..]);
    }
  }

  // ── Passing over ──

  lemma ArrayBegins(n: nat, tail: Text)
    requires n < U32
    ensures var s := ArrayHeader(n) + tail; ArrayCount(s) == Done(n, tail) && KindOf(s[0]) == KArray
  {
    hide Header, Count;
    HeaderBack(0x90, 0xdc, n, tail);
  }

  lemma MapBegins(n: nat, tail: Text)
    requires n < U32
    ensures var s := MapHeader(n) + tail; MapCount(s) == Done(n, tail) && KindOf(s[0]) == KMap
  {
    hide Header, Count;
    HeaderBack(0x80, 0xde, n, tail);
  }

  /** Skipping consumes exactly one value a packer can produce. */
  lemma {:induction false} SkipBack(w: Wire, rest: Text)
    requires Fit(w)
    ensures Skipped(Laid(w) + rest) == Done((), rest)
    decreases w
  {
    hide UnpackStr, PackedStr, UnpackInt, PackedInt, UnpackBin, PackedBin, ArrayCount, MapCount, ArrayHeader, MapHeader;
    hide LaidItems, LaidPairs;
    var s := Laid(w) + rest;
    match w
    case Nil => assert s[1..] == rest;
    case Flag(_) => assert s[1..] == rest;
    case Num(i) => MsgPack.IntBack(i, rest);
    case Name(t) => StrBack(t, rest);
    case Bin(b) => BinBack(b, rest);
    case List(items) =>
      assert s == ArrayHeader(|items|) + (LaidItems(items) + rest);
      ArrayBegins(|items|, LaidItems(items) + rest);
      SkipItems(items, rest);
    case Row(items) =>
      assert s == ArrayHeader(|items|) + (LaidItems(items) + rest);
      ArrayBegins(|items|, LaidItems(items) + rest);
      SkipItems(items, rest);
    case Map(_, pairs) =>
      assert s == MapHeader(|pairs|) + (LaidPairs(pairs) + rest);
      MapBegins(|pairs|, LaidPairs(pairs) + rest);
      SkipPairs(pairs, rest);
  }

  lemma {:induction false} SkipItems(items: seq<Wire>, rest: Text)
    requires forall k :: 0 <= k < |items| ==> Fit(items[k])
    ensures SkippedMany(LaidItems(items) + rest, |items|) == Done((), rest)
    decreases items
  {
    hide Skipped, Laid;
    if items == [] {
      assert LaidItems(items) + rest == rest;
    } else {
      var tail := LaidItems(items[1..]) + rest;
      assert LaidItems(items) + rest == Laid(items[0]) + tail;
      SkipBack(items[0], tail);
      SkipItems(items[1..], rest);
    }
  }

  lemma {:induction false} SkipPairs(pairs: seq<Pair>, rest: Text)
    requires forall k :: 0 <= k < |pairs| ==> |pairs[k].key| < U32 && Fit(pairs[k].value)
    ensures SkippedMany(LaidPairs(pairs) + rest, 2 * |pairs|) == Done((), rest)
    decreases pairs
  {
    hide Skipped, Laid, PackedStr, UnpackStr;
    if pairs == [] {
      assert LaidPairs(pairs) + rest == rest;
    } else {
      var n, p := |pairs|, pairs[0];
      var tail := LaidPairs(pairs[1..]) + rest;
      var after := Laid(p.value) + tail;
      assert LaidPairs(pairs) + rest == PackedStr(p.key) + after;
      StrBack(p.key, after);
      SkipsKey(PackedStr(p.key) + after);
      SkipBack(p.value, tail);
      SkipPairs(pairs[1..], rest);
      SkipOne(PackedStr(p.key) + after, 2 * n);
      SkipOne(after, 2 * n - 1);
    }
  }

  // ── The readers' two walks ──

  /** Carry a field read into the record being filled. */
  function Put<T, S>(p: Parse<T>, f: T -> S): Parse<S> {
    if p.Fail? then Fail else Done(f(p.value), p.rest)
  }

  /** `n` key-value pairs. `take` reads the value of a key it knows; the value of any other is skipped. */
  function ReadPairs<S>(n: nat, s: Text, st: S, take: (Text, S, Text) -> Option<Parse<S>>): Parse<S>
    decreases n
  {
    if n == 0 then Done(st, s)
    else
      var key := UnpackStr(s);
      if key.Fail? then Fail
      else
        var field := take(key.value, st, key.rest);
        if field.None? then
          var over := Skipped(key.rest);
          if over.Fail? then Fail else ReadPairs(n - 1, over.rest, st, take)
        else if field.val.Fail? then Fail
        else ReadPairs(n - 1, field.val.rest, field.val.value, take)
  }

  function ReadMap<S>(s: Text, st: S, take: (Text, S, Text) -> Option<Parse<S>>): Parse<S> {
    var n := MapCount(s);
    if n.Fail? then Fail else ReadPairs(n.value, n.rest, st, take)
  }

  /** `n` items, each appended to those already read. */
  function ReadItems<T>(n: nat, s: Text, read: Text -> Parse<T>, done: seq<T>): Parse<seq<T>>
    decreases n
  {
    if n == 0 then Done(done, s)
    else
      var item := read(s);
      if item.Fail? then Fail else ReadItems(n - 1, item.rest, read, done + [item.value])
  }

  function ReadList<T>(s: Text, read: Text -> Parse<T>): Parse<seq<T>> {
    var n := ArrayCount(s);
    if n.Fail? then Fail else ReadItems(n.value, n.rest, read, [])
  }

  /** Cells `i` up to `arity`, in order. */
  function ReadCells<S>(i: nat, arity: nat, s: Text, st: S, take: (nat, S, Text) -> Parse<S>): Parse<S>
    requires i <= arity
    decreases arity - i
  {
    if i == arity then Done(st, s)
    else
      var cell := take(i, st, s);
      if cell.Fail? then Fail else ReadCells(i + 1, arity, cell.rest, cell.value, take)
  }

  /** A row of at least `arity` cells; those behind are skipped. */
  function ReadRow<S>(arity: nat, s: Text, st: S, take: (nat, S, Text) -> Parse<S>): Parse<S> {
    var n := ArrayCount(s);
    if n.Fail? || n.value < arity then Fail
    else
      var r := ReadCells(0, arity, n.rest, st, take);
      if r.Fail? then Fail
      else
        var over := SkippedMany(r.rest, n.value - arity);
        if over.Fail? then Fail else Done(r.value, over.rest)
  }

  // ── Reading back what was laid out, however much was added ──

  /** From any widening of `w`, `read` gets `v` and leaves what follows. */
  ghost predicate Reads<T>(read: Text -> Parse<T>, w: Wire, v: T) {
    forall x, rest :: Wider(w, x) && Fit(x) ==> read(Laid(x) + rest) == Done(v, rest)
  }

  /** From any widening of `p`'s value, `take` carries `st` to `st'`. */
  ghost predicate Takes<S>(take: (Text, S, Text) -> Option<Parse<S>>, st: S, p: Pair, st': S) {
    forall x, rest :: Wider(p.value, x) && Fit(x) ==> take(p.key, st, Laid(x) + rest) == Some(Done(st', rest))
  }

  ghost predicate TakesCell<S>(take: (nat, S, Text) -> Parse<S>, st: S, i: nat, w: Wire, st': S) {
    forall x, rest :: Wider(w, x) && Fit(x) ==> take(i, st, Laid(x) + rest) == Done(st', rest)
  }

  /** Keys outside `known` are left to be skipped. */
  ghost predicate KnowsOnly<S(!new)>(take: (Text, S, Text) -> Option<Parse<S>>, known: set<Text>) {
    forall k, st, s :: k !in known ==> take(k, st, s) == None
  }

  lemma {:induction false} PairsBack<S(!new)>(
      known: set<Text>, take: (Text, S, Text) -> Option<Parse<S>>, ps: seq<Pair>, qs: seq<Pair>, sts: seq<S>,
          rest: Text)
    requires Woven(known, ps, qs) && |sts| == |ps| + 1 && KnowsOnly(take, known)
    requires forall k :: 0 <= k < |qs| ==> |qs[k].key| < U32 && Fit(qs[k].value)
    requires forall i :: 0 <= i < |ps| ==> Takes(take, sts[i], ps[i], sts[i + 1])
    ensures ReadPairs(|qs|, LaidPairs(qs) + rest, sts[0], take) == Done(sts[|ps|], rest)
    decreases qs
  {
    hide Skipped, Laid, PackedStr, UnpackStr, Wider, Takes, Fit;
    if qs == [] {
      assert LaidPairs(qs) + rest == rest;
    } else {
      var q := qs[0];
      var tail := LaidPairs(qs[1..]) + rest;
      var after := Laid(q.value) + tail;
      assert LaidPairs(qs) + rest == PackedStr(q.key) + after;
      StrBack(q.key, after);
      if q.key !in known {
        SkipBack(q.value, tail);
        PairsBack(known, take, ps, qs[1..], sts, rest);
      } else {
        assert Takes(take, sts[0], ps[0], sts[1]);
        TakenPair(take, sts[0], ps[0], sts[1], q.value, tail);
        var ps', sts' := ps[1..], sts[1..];
        forall i | 0 <= i < |ps'| ensures Takes(take, sts'[i], ps'[i], sts'[i + 1]) {
          assert Takes(take, sts[i + 1], ps[i + 1], sts[i + 2]);
        }
        PairsBack(known, take, ps', qs[1..], sts', rest);
      }
    }
  }

  lemma TakenPair<S>(take: (Text, S, Text) -> Option<Parse<S>>, st: S, p: Pair, st': S, x: Wire, rest: Text)
    requires Takes(take, st, p, st') && Wider(p.value, x) && Fit(x)
    ensures take(p.key, st, Laid(x) + rest) == Some(Done(st', rest))
  {
  }

  /** A map comes back whatever unknown keys were woven into it. */
  lemma MapReads<S(!new)>(
      read: Text -> Parse<S>, known: set<Text>, take: (Text, S, Text) -> Option<Parse<S>>, ps: seq<Pair>, sts: seq<S>)
    requires |sts| > 0 && forall s :: read(s) == ReadMap(s, sts[0], take)
    requires |sts| == |ps| + 1 && KnowsOnly(take, known)
    requires forall i :: 0 <= i < |ps| ==> Takes(take, sts[i], ps[i], sts[i + 1])
    ensures Reads(read, Map(known, ps), sts[|ps|])
  {
    hide Takes, LaidPairs, MapHeader, MapCount, ReadPairs, Woven;
    forall x, rest | Wider(Map(known, ps), x) && Fit(x)
      ensures read(Laid(x) + rest) == Done(sts[|ps|], rest)
    {
      var tail := LaidPairs(x.pairs) + rest;
      assert Laid(x) + rest == MapHeader(|x.pairs|) + tail;
      MapBegins(|x.pairs|, tail);
      PairsBack(known, take, ps, x.pairs, sts, rest);
    }
  }

  lemma {:induction false} ItemsBack<T>(read: Text -> Parse<T>, ws: seq<Wire>, xs: seq<Wire>, vs: seq<T>,
      done: seq<T>, rest: Text)
    requires AllWider(ws, xs) && |vs| == |ws| && forall k :: 0 <= k < |xs| ==> Fit(xs[k])
    requires forall i :: 0 <= i < |ws| ==> Reads(read, ws[i], vs[i])
    ensures ReadItems(|xs|, LaidItems(xs) + rest, read, done) == Done(done + vs, rest)
    decreases xs
  {
    hide Laid, Wider, Reads, Fit;
    if xs == [] {
      assert LaidItems(xs) + rest == rest && done + vs == done;
    } else {
      var tail := LaidItems(xs[1..]) + rest;
      assert LaidItems(xs) + rest == Laid(xs[0]) + tail;
      ReadOne(read, ws[0], vs[0], xs[0], tail);
      var ws', vs' := ws[1..], vs[1..];
      forall i | 0 <= i < |ws'| ensures Reads(read, ws'[i], vs'[i]) { assert Reads(read, ws[i + 1], vs[i + 1]); }
      ItemsBack(read, ws', xs[1..], vs', done + [vs[0]], rest);
      assert done + [vs[0]] + vs' == done + vs;
    }
  }

  lemma ReadOne<T>(read: Text -> Parse<T>, w: Wire, v: T, x: Wire, rest: Text)
    requires Reads(read, w, v) && Wider(w, x) && Fit(x)
    ensures read(Laid(x) + rest) == Done(v, rest)
  {
  }

  /** A list comes back item by item, whatever was added inside the items. */
  lemma ListReads<T>(whole: Text -> Parse<seq<T>>, read: Text -> Parse<T>, ws: seq<Wire>, vs: seq<T>)
    requires forall s :: whole(s) == ReadList(s, read)
    requires |vs| == |ws| && forall i :: 0 <= i < |ws| ==> Reads(read, ws[i], vs[i])
    ensures Reads(whole, List(ws), vs)
  {
    hide Reads, LaidItems, ArrayHeader, ArrayCount, ReadItems;
    forall x, rest | Wider(List(ws), x) && Fit(x) ensures whole(Laid(x) + rest) == Done(vs, rest) {
      var tail := LaidItems(x.items) + rest;
      assert Laid(x) + rest == ArrayHeader(|x.items|) + tail;
      ArrayBegins(|x.items|, tail);
      ItemsBack(read, ws, x.items, vs, [], rest);
      assert [] + vs == vs;
    }
    ReadsMeans(whole, List(ws), vs);
  }

  lemma ReadsMeans<T>(read: Text -> Parse<T>, w: Wire, v: T)
    requires forall x, rest :: Wider(w, x) && Fit(x) ==> read(Laid(x) + rest) == Done(v, rest)
    ensures Reads(read, w, v)
  {
  }

  lemma {:induction false} CellsBack<S>(
      i: nat, take: (nat, S, Text) -> Parse<S>, ws: seq<Wire>, xs: seq<Wire>, sts: seq<S>, rest: Text)
    requires i <= |ws| && RowWider(ws, xs) && |sts| == |ws| + 1 && forall k :: 0 <= k < |xs| ==> Fit(xs[k])
    requires forall k :: 0 <= k < |ws| ==> TakesCell(take, sts[k], k, ws[k], sts[k + 1])
    ensures ReadCells(i, |ws|, LaidItems(xs[i..]) + rest, sts[i], take) == Done(sts[|ws|], LaidItems(xs[|ws|..]) + rest)
    decreases |ws| - i
  {
    hide Laid, Wider, TakesCell, Fit;
    if i < |ws| {
      var tail := LaidItems(xs[i + 1..]) + rest;
      assert xs[i..][0] == xs[i] && xs[i..][1..] == xs[i + 1..];
      assert LaidItems(xs[i..]) + rest == Laid(xs[i]) + tail;
      TakenCell(take, sts[i], i, ws[i], sts[i + 1], xs[i], tail);
      CellsBack(i + 1, take, ws, xs, sts, rest);
    }
  }

  lemma TakenCell<S>(take: (nat, S, Text) -> Parse<S>, st: S, i: nat, w: Wire, st': S, x: Wire, rest: Text)
    requires TakesCell(take, st, i, w, st') && Wider(w, x) && Fit(x)
    ensures take(i, st, Laid(x) + rest) == Done(st', rest)
  {
  }

  /** A row comes back whatever cells were added behind it. */
  lemma RowReads<S>(read: Text -> Parse<S>, take: (nat, S, Text) -> Parse<S>, ws: seq<Wire>, sts: seq<S>)
    requires |sts| > 0 && forall s :: read(s) == ReadRow(|ws|, s, sts[0], take)
    requires |sts| == |ws| + 1
    requires forall k :: 0 <= k < |ws| ==> TakesCell(take, sts[k], k, ws[k], sts[k + 1])
    ensures Reads(read, Row(ws), sts[|ws|])
  {
    hide TakesCell, LaidItems, ArrayHeader, ArrayCount, ReadCells, SkippedMany;
    forall x, rest | Wider(Row(ws), x) && Fit(x)
      ensures read(Laid(x) + rest) == Done(sts[|ws|], rest)
    {
      var xs := x.items;
      var tail := LaidItems(xs) + rest;
      assert Laid(x) + rest == ArrayHeader(|xs|) + tail;
      ArrayBegins(|xs|, tail);
      assert xs[0..] == xs;
      CellsBack(0, take, ws, xs, sts, rest);
      SkipItems(xs[|ws|..], rest);
    }
  }

  // ── Leaves and finishing touches ──

  /** Turn what a walk gathered into a value, or refuse it. */
  function Finish<S, T>(p: Parse<S>, f: S -> Option<T>): Parse<T> {
    if p.Fail? then Fail else if f(p.value).None? then Fail else Done(f(p.value).val, p.rest)
  }

  lemma FinishReads<S, T>(read: Text -> Parse<T>, draft: Text -> Parse<S>, f: S -> Option<T>, w: Wire, d: S, v: T)
    requires Reads(draft, w, d) && f(d) == Some(v)
    requires forall s :: read(s) == Finish(draft(s), f)
    ensures Reads(read, w, v)
  {
    forall x, rest | Wider(w, x) && Fit(x) ensures read(Laid(x) + rest) == Done(v, rest) {
      assert draft(Laid(x) + rest) == Done(d, rest);
    }
  }

  lemma WiderParts(w: Wire, x: Wire)
    requires (w.List? || w.Row?) && Wider(w, x)
    ensures w.List? ==> x.List? && |x.items| == |w.items|
    ensures w.Row? ==> x.Row? && |w.items| <= |x.items|
    ensures forall k :: 0 <= k < |w.items| ==> Wider(w.items[k], x.items[k])
    ensures Fit(x) ==> forall k :: 0 <= k < |x.items| ==> Fit(x.items[k])
  {
  }

  lemma FieldTakes<T, S>(
      take: (Text, S, Text) -> Option<Parse<S>>, read: Text -> Parse<T>, f: T -> S, st: S, p: Pair, v: T)
    requires Reads(read, p.value, v)
    requires forall s :: take(p.key, st, s) == Some(Put(read(s), f))
    ensures Takes(take, st, p, f(v))
  {
    forall x, rest | Wider(p.value, x) && Fit(x)
      ensures take(p.key, st, Laid(x) + rest) == Some(Done(f(v), rest))
    {
      ReadOne(read, p.value, v, x, rest);
    }
  }

  lemma CellTakes<T, S>(
      take: (nat, S, Text) -> Parse<S>, read: Text -> Parse<T>, f: T -> S, st: S, i: nat, w: Wire, v: T)
    requires Reads(read, w, v)
    requires forall s :: take(i, st, s) == Put(read(s), f)
    ensures TakesCell(take, st, i, w, f(v))
  {
    forall x, rest | Wider(w, x) && Fit(x) ensures take(i, st, Laid(x) + rest) == Done(f(v), rest) {
      ReadOne(read, w, v, x, rest);
    }
  }

  lemma NumReads(i: int)
    ensures Reads(UnpackInt, Num(i), i)
  {
    hide UnpackInt, PackedInt;
    forall x, rest | Wider(Num(i), x) && Fit(x) ensures UnpackInt(Laid(x) + rest) == Done(i, rest) {
      MsgPack.IntBack(i, rest);
    }
  }

  lemma NameReads(t: Text)
    ensures Reads(UnpackStr, Name(t), t)
  {
    hide UnpackStr, PackedStr;
    forall x, rest | Wider(Name(t), x) && Fit(x) ensures UnpackStr(Laid(x) + rest) == Done(t, rest) {
      StrBack(t, rest);
    }
  }

  lemma BinReads(b: Text)
    ensures Reads(UnpackBin, Bin(b), b)
  {
    hide UnpackBin, PackedBin;
    forall x, rest | Wider(Bin(b), x) && Fit(x) ensures UnpackBin(Laid(x) + rest) == Done(b, rest) {
      BinBack(b, rest);
    }
  }
}
