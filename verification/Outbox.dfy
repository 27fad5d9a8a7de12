/** The durable outbox over its two stores: a map in memory, and the byte journal. */
module Outbox {
  import opened Bytes
  import opened Journal

  type Frame = seq<byte>

  /** What an outbox promises its user: the frames above the cursor, and the cursor. */
  datatype Book<F> = Book(retained: map<int, F>, cursor: nat)

  function Max(a: int, b: int): (m: int)
    ensures m == a || m == b
    ensures a <= m && b <= m
  {
    if a > b then a else b
  }

  function Above<F>(entries: map<int, F>, cursor: int): map<int, F> {
    map e | e in entries && e > cursor :: entries[e]
  }

  function Appended<F>(b: Book<F>, epoch: int, frame: F): Book<F> {
    if epoch > b.cursor then b.(retained := b.retained[epoch := frame]) else b
  }

  function Acked<F>(b: Book<F>, epoch: int): Book<F> {
    if epoch > b.cursor then Book(Above(b.retained, epoch), epoch) else b
  }

  ghost predicate Has<F>(out: seq<(int, F)>, e: int) {
    exists i :: 0 <= i < |out| && out[i].0 == e
  }

  /** `out` lists `m` by ascending epoch. */
  ghost predicate Lists<F>(m: map<int, F>, out: seq<(int, F)>) {
    && (forall i, j :: 0 <= i < j < |out| ==> out[i].0 < out[j].0)
    && (forall i :: 0 <= i < |out| ==> out[i].0 in m && m[out[i].0] == out[i].1)
    && (forall e :: e in m ==> Has(out, e))
  }

  /** There is one such list, so two outboxes with one book replay the same. */
  lemma {:induction false} ListsUnique<F>(m: map<int, F>, a: seq<(int, F)>, b: seq<(int, F)>)
    requires Lists(m, a) && Lists(m, b)
    ensures a == b
    decreases |a|
  {
    assert |b| > 0 ==> b[0].0 in m && Has(a, b[0].0);
    if |a| > 0 {
      SameFirst(m, a, b);
      DropFirst(m, a);
      DropFirst(m, b);
      ListsUnique(m - {a[0].0}, a[1..], b[1..]);
      assert a == [a[0]] + a[1..] && b == [b[0]] + b[1..];
    }
  }

  lemma SameFirst<F>(m: map<int, F>, a: seq<(int, F)>, b: seq<(int, F)>)
    requires Lists(m, a) && Lists(m, b) && a != []
    ensures b != [] && a[0] == b[0]
  {
    assert Has(b, a[0].0);
    var i :| 0 <= i < |b| && b[i].0 == a[0].0;
    assert Has(a, b[0].0);
    var j :| 0 <= j < |a| && a[j].0 == b[0].0;
    assert b[0].0 <= b[i].0;
    assert a[0].0 <= a[j].0;
  }

  lemma DropFirst<F>(m: map<int, F>, a: seq<(int, F)>)
    requires Lists(m, a) && a != []
    ensures Lists(m - {a[0].0}, a[1..])
  {
    var t := a[1..];
    forall i | 0 <= i < |t| ensures t[i].0 in m - {a[0].0} && (m - {a[0].0})[t[i].0] == t[i].1 {
      assert t[i] == a[i + 1] && a[0].0 < a[i + 1].0;
    }
    forall e | e in m - {a[0].0} ensures Has(t, e) {
      assert Has(a, e);
      var i :| 0 <= i < |a| && a[i].0 == e;
      assert t[i - 1].0 == e;
    }
  }

  lemma NoneMeansEmpty(s: set<int>)
    ensures (forall x :: x !in s) ==> s == {}
  {
    if forall x :: x !in s { assert s == {}; }
  }

  lemma {:induction false} HasLeast(s: set<int>)
    requires s != {}
    ensures exists m :: m in s && forall e :: e in s ==> m <= e
    decreases s
  {
    NoneMeansEmpty(s);
    var x :| x in s;
    if s != {x} {
      HasLeast(s - {x});
      var m :| m in s - {x} && forall e :: e in s - {x} ==> m <= e;
      var least := if x < m then x else m;
      forall e | e in s ensures least <= e { if e != x { assert e in s - {x}; } }
    } else {
      forall e | e in s ensures x <= e { assert e in {x}; }
    }
  }

  /** `out` lists what of `m` is not in `rest`, all of it below `rest`. */
  ghost predicate ListsBelow<F>(m: map<int, F>, rest: set<int>, out: seq<(int, F)>) {
    && rest <= m.Keys && Lists(m - rest, out)
    && forall i, e :: 0 <= i < |out| && e in rest ==> out[i].0 < e
  }

  lemma ListsOneMore<F>(m: map<int, F>, rest: set<int>, out: seq<(int, F)>, e: int)
    requires ListsBelow(m, rest, out) && e in rest && forall x :: x in rest ==> e <= x
    ensures ListsBelow(m, rest - {e}, out + [(e, m[e])])
  {
    var more := out + [(e, m[e])];
    assert more[|out|].0 == e;
    forall x | x in m - (rest - {e}) ensures Has(more, x) {
      if x != e {
        assert Has(out, x);
        var i :| 0 <= i < |out| && out[i].0 == x;
        assert more[i].0 == x;
      }
    }
  }

  /** An ordered map read from front to back. */
  method InOrder<F>(m: map<int, F>) returns (out: seq<(int, F)>)
    ensures Lists(m, out)
  {
    out := [];
    var rest := m.Keys;
    while rest != {}
      invariant ListsBelow(m, rest, out)
      decreases rest
    {
      HasLeast(rest);
      var e :| e in rest && forall x :: x in rest ==> e <= x;
      ListsOneMore(m, rest, out, e);
      out := out + [(e, m[e])];
      rest := rest - {e};
    }
    assert m - {} == m;
  }

  // ── Stores ──

  lemma WholeReads(rs: seq<Record>)
    requires forall i :: 0 <= i < |rs| ==> RecordOk(rs[i])
    ensures Parsed(EncodedAll(rs)) == rs
  {
    ReadBack(rs, []);
    assert EncodedAll(rs) + [] == EncodedAll(rs);
    assert rs + [] == rs;
  }

  class InMemoryStore {
    var entries: map<int, Frame>
    var cursor: nat

    constructor ()
      ensures entries == map[] && cursor == 0
    {
      entries, cursor := map[], 0;
    }
  }

  /** A journal file. `records` says what has been written; every handle on the file shares it. */
  class JournalFile {
    var bytes: seq<byte>
    ghost var records: seq<Record>

    ghost predicate Whole()
      reads this
    {
      bytes == EncodedAll(records) && forall i :: 0 <= i < |records| ==> RecordOk(records[i])
    }

    constructor ()
      ensures Whole() && records == []
    {
      bytes, records := [], [];
    }

    /** A file found on disk that is as long as the records read from it. */
    constructor Reopen(found: seq<byte>)
      requires |found| == |EncodedAll(Parsed(found))|
      ensures Whole() && bytes == found && records == Parsed(found)
    {
      WholeByLength(found);
      FileSplits(found);
      bytes, records := found, Parsed(found);
    }

    /** Write one record in a single locked append; negative epochs are turned away. */
    method AppendRecord(op: byte, epoch: int, frame: Frame) returns (ok: bool)
      requires Whole() && epoch <= I64_MAX && |frame| <= U64_MAX
      modifies this
      ensures Whole() && ok == (epoch >= 0)
      ensures records == if ok then old(records) + [Record(op, epoch, frame)] else old(records)
    {
      if epoch < 0 { return false; }
      var record := [op];
      record := AppendU64(record, epoch);
      record := AppendU64(record, |frame|);
      record := record + frame;
      ghost var r := Record(op, epoch, frame);
      EncodedAllConcat(records, [r]);
      assert EncodedAll([r]) == Encoded(r) by { assert [r][1..] == []; assert EncodedAll([r][1..]) == []; }
      bytes := bytes + record;
      records := records + [r];
      ok := true;
    }

    /** The record at `offset`, if a whole one is there, and where the next one starts. */
    method ReadOne(offset: nat) returns (ok: bool, r: Record, next: nat)
      requires offset <= |bytes|
      ensures ok == Starts(bytes[offset..])
      ensures ok ==> && r == First(bytes[offset..]) && offset < next <= |bytes|
                     && bytes[next..] == bytes[offset..][HEADER + LeValue(bytes[offset..][9..17])..]
    {
      r, next := Record(0, 0, []), offset;
      if |bytes| - offset < HEADER { return false, r, next; }
      ghost var rest := bytes[offset..];
      var epoch := ReadU64(bytes[offset + 1..]);
      var len := ReadU64(bytes[offset + 9..]);
      assert bytes[offset + 1..][..8] == rest[1..9];
      assert bytes[offset + 9..][..8] == rest[9..17];
      if epoch > I64_MAX || len > |bytes| - offset - HEADER { return false, r, next; }
      ok, next := true, offset + HEADER + len;
      r := Record(bytes[offset], epoch, bytes[offset + HEADER..next]);
      assert bytes[offset + HEADER..next] == rest[HEADER..HEADER + len];
    }

    /** Every whole record, front to back. */
    method ReadRecords() returns (rs: seq<Record>)
      ensures rs == Parsed(bytes)
      ensures Whole() ==> rs == records
    {
      hide Starts, First, LeValue;
      var offset := 0;
      rs := [];
      assert bytes[0..] == bytes;
      while true
        invariant 0 <= offset <= |bytes| && rs + Parsed(bytes[offset..]) == Parsed(bytes)
        decreases |bytes| - offset
      {
        var ok, r, next := ReadOne(offset);
        if !ok { break; }
        assert rs + ([r] + Parsed(bytes[next..])) == rs + [r] + Parsed(bytes[next..]);
        rs, offset := rs + [r], next;
      }
      assert rs + [] == rs;
      if Whole() { WholeReads(records); }
    }

    method LoadCursor() returns (cursor: nat)
      requires Whole()
      ensures cursor == CursorOf(records)
    {
      var rs := ReadRecords();
      cursor := 0;
      for i := 0 to |rs|
        invariant cursor == CursorOf(rs[..i])
      {
        assert rs[..i + 1] == rs[..i] + [rs[i]];
        FoldSnoc(rs[..i], rs[i]);
        if rs[i].op == CURSOR && rs[i].epoch > cursor { cursor := rs[i].epoch; }
      }
      assert rs[..|rs|] == rs;
    }

    method ScanAfter(cursor: int) returns (out: seq<(int, Frame)>)
      requires Whole() && DeletedOf(records) <= cursor
      ensures Lists(Above(EntriesOf(records), cursor), out)
    {
      var rs := ReadRecords();
      var entries: map<int, Frame> := map[];
      var deleted := 0;
      assert EntriesOf(rs[..0]) == map[] && DeletedOf(rs[..0]) == 0;
      hide EntriesOf, DeletedOf, Parsed, EncodedAll, RecordOk, Lists, Has;
      for i := 0 to |rs|
        invariant entries == EntriesOf(rs[..i]) && deleted == DeletedOf(rs[..i])
      {
        assert rs[..i + 1] == rs[..i] + [rs[i]];
        FoldSnoc(rs[..i], rs[i]);
        if rs[i].op == PUT {
          entries := entries[rs[i].epoch as int := rs[i].frame];
        } else if rs[i].op == DELETE {
          deleted := Max(deleted, rs[i].epoch);
        }
      }
      assert rs[..|rs|] == rs;
      var effective := Max(cursor, deleted);
      out := InOrder(Above(entries, effective));
    }
  }

  /** The book a journal's records keep. Deletions only ever repeat what the cursor already says. */
  ghost function BookOf(rs: seq<Record>): Book<Frame> {
    Book(Above(EntriesOf(rs), CursorOf(rs)), CursorOf(rs))
  }

  lemma PutBook(rs: seq<Record>, epoch: nat, frame: Frame)
    ensures BookOf(rs + [Record(PUT, epoch, frame)]) == Appended(BookOf(rs), epoch, frame)
  {
    FoldSnoc(rs, Record(PUT, epoch, frame));
  }

  lemma CursorBook(rs: seq<Record>, epoch: nat)
    ensures BookOf(rs + [Record(CURSOR, epoch, [])]) == Acked(BookOf(rs), epoch)
  {
    FoldSnoc(rs, Record(CURSOR, epoch, []));
  }

  lemma DeleteBook(rs: seq<Record>, epoch: nat)
    ensures BookOf(rs + [Record(DELETE, epoch, [])]) == BookOf(rs)
  {
    FoldSnoc(rs, Record(DELETE, epoch, []));
  }

  /** No deletion ever went beyond the cursor of its time. */
  ghost predicate Prudent(rs: seq<Record>) {
    rs == [] || (Prudent(rs[..|rs| - 1]) && DeletedOf(rs) <= CursorOf(rs))
  }

  lemma PrudentSnoc(rs: seq<Record>, r: Record)
    requires Prudent(rs)
    ensures Prudent(rs + [r]) <==> (r.op == DELETE ==> r.epoch <= CursorOf(rs))
    ensures DeletedOf(rs) <= CursorOf(rs)
  {
    FoldSnoc(rs, r);
    assert (rs + [r])[..|rs|] == rs;
  }

  lemma {:induction false} PrudentPrefix(rs: seq<Record>, j: nat)
    requires Prudent(rs) && j <= |rs|
    ensures Prudent(rs[..j])
    decreases |rs|
  {
    if j < |rs| {
      PrudentPrefix(rs[..|rs| - 1], j);
      assert rs[..|rs| - 1][..j] == rs[..j];
    } else {
      assert rs[..j] == rs;
    }
  }

  lemma {:induction false} CursorFits(rs: seq<Record>)
    requires forall i :: 0 <= i < |rs| ==> RecordOk(rs[i])
    ensures CursorOf(rs) <= I64_MAX
    decreases |rs|
  {
    if rs != [] { CursorFits(rs[..|rs| - 1]); }
  }

  /** After a crash in mid-write the journal is the book of some prefix of what was written. */
  lemma CrashKeepsPrefix(rs: seq<Record>, k: nat)
    requires (forall i :: 0 <= i < |rs| ==> RecordOk(rs[i])) && k <= |EncodedAll(rs)|
    ensures exists j :: 0 <= j <= |rs| && BookOf(Parsed(EncodedAll(rs)[..k])) == BookOf(rs[..j])
    ensures BookOf(Parsed(EncodedAll(rs)[..k])).cursor <= BookOf(rs).cursor
    ensures Prudent(rs) ==> Prudent(Parsed(EncodedAll(rs)[..k]))
  {
    var j := TornReadsPrefix(rs, k);
    CursorPrefix(rs, j);
    if Prudent(rs) { PrudentPrefix(rs, j); }
  }

  /** On a file found at a boundary, whatever crash left it so, the outbox's steps are the book's steps. */
  lemma ReopenedSteps(bytes: seq<byte>, epoch: nat, frame: Frame)
    requires |bytes| == |EncodedAll(Parsed(bytes))| && epoch <= I64_MAX && |frame| <= U64_MAX
    ensures BookOf(Parsed(bytes + Encoded(Record(PUT, epoch, frame)))) == Appended(BookOf(Parsed(bytes)), epoch, frame)
    ensures BookOf(Parsed(bytes + Encoded(Record(CURSOR, epoch, [])))) == Acked(BookOf(Parsed(bytes)), epoch)
    ensures BookOf(Parsed(bytes + Encoded(Record(DELETE, epoch, [])))) == BookOf(Parsed(bytes))
  {
    hide Parsed, Encoded, BookOf, Acked, Appended;
    AppendAtBoundary(bytes, Record(PUT, epoch, frame));
    AppendAtBoundary(bytes, Record(CURSOR, epoch, []));
    AppendAtBoundary(bytes, Record(DELETE, epoch, []));
    PutBook(Parsed(bytes), epoch, frame);
    CursorBook(Parsed(bytes), epoch);
    DeleteBook(Parsed(bytes), epoch);
  }

  // ── The protocol over either store ──

  datatype Store = Memory(mem: InMemoryStore) | File(file: JournalFile)

  class StoredOutbox {
    const store: Store
    var acked: int

    ghost function Target(): object
    {
      if store.Memory? then store.mem else store.file
    }

    ghost predicate Valid()
      reads this, Target()
    {
      match store
      case Memory(m) => 0 <= acked <= m.cursor
      case File(f) => f.Whole() && 0 <= acked <= CursorOf(f.records) && Prudent(f.records)
    }

    ghost function View(): Book<Frame>
      reads Target()
    {
      match store
      case Memory(m) => Book(Above(m.entries, m.cursor), m.cursor)
      case File(f) => BookOf(f.records)
    }

    /** A handle on a store that may already hold something, as another handle left it. */
    constructor (store: Store)
      requires store.File? ==> store.file.Whole() && Prudent(store.file.records)
      ensures Valid() && this.store == store
    {
      this.store := store;
      acked := 0;
      new;
      acked := LoadCursor();
    }

    method LoadCursor() returns (cursor: nat)
      requires store.File? ==> store.file.Whole()
      ensures cursor == View().cursor
    {
      match store {
        case Memory(m) => cursor := m.cursor;
        case File(f) => cursor := f.LoadCursor();
      }
    }

    method Append(epoch: int, frame: Frame) returns (ok: bool)
      requires Valid() && epoch <= I64_MAX && |frame| <= U64_MAX
      modifies Target()
      ensures Valid() && View() == Appended(old(View()), epoch, frame)
      ensures ok == (store.Memory? || epoch >= 0)
    {
      match store {
        case Memory(m) =>
          m.entries := m.entries[epoch := frame];
          ok := true;
          assert View().retained == Appended(old(View()), epoch, frame).retained;
        case File(f) =>
          ghost var rs := f.records;
          ok := f.AppendRecord(PUT, epoch, frame);
          if ok {
            FoldSnoc(rs, Record(PUT, epoch, frame));
            PrudentSnoc(rs, Record(PUT, epoch, frame));
            PutBook(rs, epoch, frame);
          }
      }
    }

    /** The peer has everything through `epoch`. However stale this handle, the cursor never falls. */
    method AckThrough(epoch: int)
      requires Valid() && epoch <= I64_MAX
      modifies this, Target()
      ensures Valid() && View() == Acked(old(View()), epoch)
    {
      var cursor := LoadCursor();
      var target := Max(Max(acked, epoch), cursor);
      match store {
        case Memory(m) =>
          if target > acked {
            m.cursor := Max(m.cursor, target);
            acked := target;
          }
          m.entries := map e | e in m.entries && e > target :: m.entries[e];
          assert View().retained == Acked(old(View()), epoch).retained;
        case File(f) =>
          ghost var rs := f.records;
          CursorFits(rs);
          if target > acked {
            var saved := f.AppendRecord(CURSOR, target, []);
            FoldSnoc(rs, Record(CURSOR, target, []));
            PrudentSnoc(rs, Record(CURSOR, target, []));
            CursorBook(rs, target);
            acked := target;
          }
          ghost var mid := f.records;
          var deleted := f.AppendRecord(DELETE, target, []);
          FoldSnoc(mid, Record(DELETE, target, []));
          PrudentSnoc(mid, Record(DELETE, target, []));
          DeleteBook(mid, target);
      }
    }

    /** Everything unacked above `from`, ascending. */
    method ReplayFrom(from: int) returns (out: seq<(int, Frame)>)
      requires Valid()
      ensures Lists(Above(View().retained, from), out)
    {
      var cursor := LoadCursor();
      var effective := Max(Max(from, acked), cursor);
      match store {
        case Memory(m) =>
          out := InOrder(Above(m.entries, effective));
          assert Above(m.entries, effective) == Above(View().retained, from);
        case File(f) =>
          PrudentSnoc(f.records, Record(PUT, 0, []));
          out := f.ScanAfter(effective);
          assert Above(EntriesOf(f.records), effective) == Above(View().retained, from);
      }
    }

    method RetainedEpochs() returns (out: seq<int>)
      requires Valid()
      ensures forall i, j :: 0 <= i < j < |out| ==> out[i] < out[j]
      ensures forall e :: e in out <==> e in View().retained
    {
      var all := ReplayFrom(0);
      assert Above(View().retained, 0) == View().retained;
      out := seq(|all|, i requires 0 <= i < |all| => all[i].0);
      forall e | e in View().retained ensures e in out {
        assert Has(all, e);
        var i :| 0 <= i < |all| && all[i].0 == e;
        assert out[i] == e;
      }
    }

    method AckedThrough() returns (cursor: int)
      requires Valid()
      ensures cursor == View().cursor
    {
      var loaded := LoadCursor();
      cursor := Max(acked, loaded);
    }
  }

  /** Two handles on one journal: what one acknowledges the other keeps, and the reverse. */
  method Handover(a: StoredOutbox, b: StoredOutbox, ea: int, eb: int)
    requires a != b && a.store == b.store && a.store.File? && a.Valid() && b.Valid()
    requires ea <= I64_MAX && eb <= I64_MAX
    modifies a, b, a.store.file
    ensures a.Valid() && b.Valid() && a.View() == b.View() == Acked(Acked(old(a.View()), ea), eb)
  {
    a.AckThrough(ea);
    b.AckThrough(eb);
  }
}
