/**
 * What recovery leaves behind the last record of a segment. It does not clear the bytes it rejects,
 * so they are scanned again on the next restart, behind whatever has been appended by then.
 */
module Remnants {
  import opened Bytes
  import opened Records
  import opened Segments

  /** There is room, and a scan behind the last record finds nothing there. */
  ghost predicate Quiet(h: Hash, s: SegmentView) {
    s.FileOffset() < |s.file| < U32_RANGE && NothingAt(h, s.file, s.FileOffset(), s.Head())
  }

  /** A segment whose file gives it back. */
  ghost predicate Recoverable(h: Hash, s: SegmentView) {
    WellFormed(h, s) && Marked(s) && Quiet(h, s)
  }

  lemma PristineIsRecoverable(h: Hash, s: SegmentView)
    requires Pristine(h, s) && s.FileOffset() < |s.file|
    ensures Recoverable(h, s)
  {
    hide Scan, Holds, ZeroFrom, Marked;
    PristineIsMarked(h, s);
    ScanZeros(h, s.file, s.FileOffset(), s.Head());
  }

  /** With room left, reopening a segment from its own file gives it back exactly when it is quiet. */
  lemma ReopenExactly(h: Hash, s: SegmentView, closed: bool)
    requires WellFormed(h, s) && Marked(s) && s.FileOffset() < |s.file|
    ensures Open(h, s.tail, closed, s.file) == Opened(s.(closed := closed)) <==> Quiet(h, s)
  {
    hide Scan, Holds, Open, Marked;
    ReopenRestores(h, s, closed);
    var more := Scan(h, s.file, s.FileOffset(), s.Head());
    assert more.messages == [] ==> s.messages + more.messages == s.messages;
    assert more.messages != [] ==> |s.messages + more.messages| > |s.messages|;
  }

  lemma RecoverableReopens(h: Hash, s: SegmentView, closed: bool)
    requires Recoverable(h, s)
    ensures Open(h, s.tail, closed, s.file) == Opened(s.(closed := closed))
  {
    hide Open, Marked, WellFormed, NothingAt;
    ReopenExactly(h, s, closed);
  }

  lemma StampedTwice(image: seq<byte>)
    requires |image| >= MAGIC_SIZE
    ensures Stamped(Stamped(image)) == Stamped(image)
  {
    hide Encode;
  }

  /** Whatever opening yields is quiet, so opening it again gives the same segment. */
  lemma OpenedIsQuiet(h: Hash, tail: nat, closed: bool, image: seq<byte>, again: bool)
    requires tail <= U64_RANGE
    ensures var r := Open(h, tail, closed, image);
            r.Opened? ==>
              && Recoverable(h, r.segment)
              && Open(h, tail, again, r.segment.file) == Opened(r.segment.(closed := again))
  {
    hide Scan, Holds, WellFormed, Stamped;
    var r := Open(h, tail, closed, image);
    OpenedIsWellFormed(h, tail, closed, image);
    if r.Opened? {
      StampedTwice(image);
      ScanEnds(h, Stamped(image), tail);
      ReopenExactly(h, r.segment, again);
    }
  }

  lemma SpliceKeepsTail(file: seq<byte>, off: nat, bytes: seq<byte>)
    requires off + |bytes| <= |file|
    ensures Splice(file, off, bytes)[off + |bytes|..] == file[off + |bytes|..]
    ensures off >= MAGIC_SIZE ==> Splice(file, off, bytes)[..MAGIC_SIZE] == file[..MAGIC_SIZE]
  {
  }

  lemma MarkedByPrefix(a: SegmentView, b: SegmentView)
    requires Marked(a) && |b.file| >= MAGIC_SIZE && b.file[..MAGIC_SIZE] == a.file[..MAGIC_SIZE]
    ensures Marked(b)
  {
    hide Encode;
    assert a.file[..MAGIC_SIZE] == Stamped(a.file)[..MAGIC_SIZE] == Encode(4, MAGIC_NUM);
    assert b.file == b.file[..MAGIC_SIZE] + b.file[MAGIC_SIZE..];
  }

  /** What an accepted append changes: one record is added, and nothing behind it is touched. */
  lemma PushIs(h: Hash, s: SegmentView, body: seq<byte>, clock: u32)
    requires WellFormed(h, s) && Marked(s) && s.FileOffset() + HEADER_SIZE + |body| <= |s.file|
    ensures var s' := Push(h, s, body, clock).1;
            var end := s.FileOffset() + HEADER_SIZE + |body|;
            && Marked(s') && s'.tail == s.tail && s'.messages == s.messages + [Message(clock, body)]
            && s'.FileOffset() == end && s'.Head() == s.Head() + 1
            && |s'.file| == |s.file| && s'.file[end..] == s.file[end..]
  {
    hide Holds, Splice, Record, Marked;
    var m, off, s' := Message(clock, body), s.FileOffset(), Push(h, s, body, clock).1;
    EndAppend(s.messages, m);
    SpliceKeepsTail(s.file, off, Record(h, s.Head(), m));
    MarkedByPrefix(s, s');
  }

  /**
   * An accepted append that leaves room keeps the segment quiet exactly when the old file has nothing
   * behind the place of the new record that the next id would accept.
   */
  lemma PushKeepsQuiet(h: Hash, s: SegmentView, body: seq<byte>, clock: u32)
    requires WellFormed(h, s) && Marked(s)
    requires s.FileOffset() + HEADER_SIZE + |body| < |s.file|
    ensures var s' := Push(h, s, body, clock).1;
            && Marked(s')
            && (Quiet(h, s') <==> NothingAt(h, s.file, s.FileOffset() + HEADER_SIZE + |body|, s.Head() + 1))
  {
    hide Scan, Holds, Marked, Push, SegmentView.FileOffset, SegmentView.Head;
    PushIs(h, s, body, clock);
    var s' := Push(h, s, body, clock).1;
    ScanIsForward(h, s.file, s'.file, s'.FileOffset(), s'.Head());
  }

  lemma IdFits(h: Hash, file: seq<byte>, off: nat, id: nat, m: Message)
    requires RecordAt(h, file, off, id, m)
    ensures id < U64_RANGE
  {
    RangeOfWords();
  }

  lemma HeadIs(s: SegmentView)
    ensures s.Head() == s.tail + |s.messages|
  {
  }

  /**
   * If a whole record with the id after next already stands there, the next restart returns it: the
   * segment comes back with more messages than it had.
   */
  lemma RecordReturns(h: Hash, s: SegmentView, body: seq<byte>, clock: u32, closed: bool, stale: Message)
    requires WellFormed(h, s) && Marked(s)
    requires var off := s.FileOffset() + HEADER_SIZE + |body|;
             off + Size(stale) < |s.file| && RecordAt(h, s.file, off, s.Head() + 1, stale)
    ensures var s' := Push(h, s, body, clock).1;
            var r := Open(h, s.tail, closed, s'.file);
            && s'.messages == s.messages + [Message(clock, body)]
            && (r.Opened? ==> s'.messages + [stale] <= r.segment.messages && r.segment.Head() > s'.Head())
  {
    hide Scan, Holds, Marked, RecordAt, Open, Push, SegmentView.FileOffset, SegmentView.Head;
    var off, s' := s.FileOffset() + HEADER_SIZE + |body|, Push(h, s, body, clock).1;
    IdFits(h, s.file, off, s.Head() + 1, stale);
    PushIs(h, s, body, clock);
    PushKeepsWellFormed(h, s, body, clock);
    HeadIs(s');
    ScanIsForward(h, s.file, s'.file, off, s.Head() + 1);
    ScanStep(h, s.file, off, s.Head() + 1, stale);
    ReopenRestores(h, s', closed);
    var r := Open(h, s.tail, closed, s'.file);
    if r.Opened? {
      HeadIs(r.segment);
    }
  }

  // ----- records behind a rejected one

  /** `ms` with message `j` replaced by one of the same size. */
  function Replaced(ms: seq<Message>, j: nat, m: Message): seq<Message>
    requires j < |ms|
  {
    ms[..j] + [m] + ms[j + 1..]
  }

  lemma {:induction false} ReplacedOffsets(ms: seq<Message>, j: nat, m: Message, k: nat)
    requires j < |ms| && Size(m) == Size(ms[j]) && k <= |ms|
    ensures Offset(Replaced(ms, j, m), k) == Offset(ms, k)
  {
    var rs := Replaced(ms, j, m);
    if k > 0 {
      ReplacedOffsets(ms, j, m, k - 1);
      OffsetStep(ms, k - 1);
      OffsetStep(rs, k - 1);
    } else {
      assert rs[..0] == ms[..0];
    }
  }

  /** A file that differs from one with the records `ms` only in the place of record `j`. */
  ghost predicate OnlyAt(file: seq<byte>, image: seq<byte>, ms: seq<Message>, j: nat)
    requires j < |ms|
  {
    && |image| == |file| && Offset(ms, j) <= |file| && Offset(ms, j + 1) <= |file|
    && image[..Offset(ms, j)] == file[..Offset(ms, j)]
    && image[Offset(ms, j + 1)..] == file[Offset(ms, j + 1)..]
  }

  /** With a record of the same size in that place, the file holds all the others again. */
  lemma ReplacedHolds(h: Hash, file: seq<byte>, image: seq<byte>, id: nat, ms: seq<Message>, j: nat, m: Message)
    requires Holds(h, file, id, ms) && End(ms) <= |file|
    requires j < |ms| && OnlyAt(file, image, ms, j) && Size(m) == Size(ms[j])
    requires RecordAt(h, image, Offset(ms, j), id + j, m)
    ensures Holds(h, image, id, Replaced(ms, j, m))
  {
    hide RecordAt, Offset;
    var rs := Replaced(ms, j, m);
    forall k | 0 <= k < |rs|
      ensures HoldsOne(h, image, id, rs, k)
    {
      ReplacedOffsets(ms, j, m, k);
      assert HoldsOne(h, file, id, ms, k);
      if k < j {
        OneBefore(h, file, image, id, ms, j, k);
      } else if k > j {
        OneBehind(h, file, image, id, ms, j, k);
      }
    }
  }

  lemma OneBefore(h: Hash, file: seq<byte>, image: seq<byte>, id: nat, ms: seq<Message>, j: nat, k: nat)
    requires Holds(h, file, id, ms) && k < j < |ms| && OnlyAt(file, image, ms, j)
    ensures RecordAt(h, image, Offset(ms, k), id + k, ms[k])
  {
    hide RecordAt;
    assert HoldsOne(h, file, id, ms, k);
    OffsetStep(ms, k);
    OffsetMonotone(ms, k + 1, j);
    OffsetStep(ms, j);
    RecordIsLocal(h, file, image, Offset(ms, j), Offset(ms, k), id + k, ms[k]);
  }

  lemma OneBehind(h: Hash, file: seq<byte>, image: seq<byte>, id: nat, ms: seq<Message>, j: nat, k: nat)
    requires Holds(h, file, id, ms) && j < k < |ms| && OnlyAt(file, image, ms, j)
    ensures RecordAt(h, image, Offset(ms, k), id + k, ms[k])
  {
    assert HoldsOne(h, file, id, ms, k);
    OffsetMonotone(ms, j + 1, k);
    hide Offset, Decode;
    var off, from := Offset(ms, k), Offset(ms, j + 1);
    SlicesFrom(file, image, from, off, off + 4);
    SlicesFrom(file, image, from, off + 4, off + 12);
    SlicesFrom(file, image, from, off + 12, off + 16);
    SlicesFrom(file, image, from, off + 16, off + 20);
    SlicesFrom(file, image, from, off + 20, off + Size(ms[k]));
    SlicesFrom(file, image, from, off + 4, off + Size(ms[k]));
  }

  /** Damage confined to one record leaves the magic number alone. */
  lemma StillMarked(t: SegmentView, image: seq<byte>, j: nat)
    requires Marked(t) && j < |t.messages| && OnlyAt(t.file, image, t.messages, j)
    ensures |image| >= MAGIC_SIZE && Stamped(image) == image
  {
    hide Marked, End;
    var off := Offset(t.messages, j);
    assert off >= MAGIC_SIZE;
    assert image[..MAGIC_SIZE] == image[..off][..MAGIC_SIZE] == t.file[..off][..MAGIC_SIZE] == t.file[..MAGIC_SIZE];
    MarkedByPrefix(t, t.(file := image));
    assert Marked(t.(file := image)) ==> Stamped(image) == image by { MarkedMeans(t.(file := image)); }
  }

  lemma MarkedMeans(s: SegmentView)
    ensures Marked(s) <==> |s.file| >= MAGIC_SIZE && Stamped(s.file) == s.file
  {
  }

  /** A restart rejects the damaged record and everything behind it. */
  lemma RejectedOpens(h: Hash, t: SegmentView, image: seq<byte>, j: nat, closed: bool)
    requires WellFormed(h, t) && Marked(t) && t.FileOffset() < |t.file|
    requires j < |t.messages| && OnlyAt(t.file, image, t.messages, j)
    requires NothingAt(h, image, Offset(t.messages, j), t.tail + j)
    ensures Open(h, t.tail, closed, image) == Opened(SegmentView(t.tail, t.messages[..j], closed, image))
    ensures Holds(h, image, t.tail, t.messages[..j]) && Offset(t.messages, j) < |image| == |t.file|
  {
    hide Scan, Holds, Marked, Stamped;
    var kept := t.messages[..j];
    StillMarked(t, image, j);
    OffsetMonotone(t.messages, j, |t.messages|);
    assert t.messages[..|t.messages|] == t.messages;
    HoldsPrefix(h, t.file, t.tail, t.messages, j);
    HoldsIsLocal(h, t.file, image, t.tail, kept);
    ScanThrough(h, image, t.tail, kept, 0);
    assert kept[..0] == [] && kept[0..] == kept && kept + [] == kept;
  }

  /**
   * When one record is damaged and rejected, the whole ones behind it are gone; but an append of the
   * same size puts them back in line, and the next restart returns them all.
   */
  lemma RejectedReturn(
      h: Hash, t: SegmentView, image: seq<byte>, j: nat, closed: bool, body: seq<byte>, clock: u32, again: bool)
    requires WellFormed(h, t) && Marked(t) && t.FileOffset() < |t.file|
    requires j < |t.messages| && OnlyAt(t.file, image, t.messages, j)
    requires NothingAt(h, image, Offset(t.messages, j), t.tail + j) && |body| == |t.messages[j].body|
    ensures var s := SegmentView(t.tail, t.messages[..j], closed, image);
            var (p, s') := Push(h, s, body, clock);
            var r := Open(h, t.tail, again, s'.file);
            && Open(h, t.tail, closed, image) == Opened(s)
            && p == Pushed(t.tail + j) && s'.messages == t.messages[..j] + [Message(clock, body)]
            && (r.Opened? ==> Replaced(t.messages, j, Message(clock, body)) <= r.segment.messages)
  {
    hide Scan, Holds, Marked, Stamped, OnlyAt, NothingAt, Splice, Record;
    RejectedOpens(h, t, image, j, closed);
    var ms, m := t.messages, Message(clock, body);
    var s := SegmentView(t.tail, ms[..j], closed, image);
    var s' := Push(h, s, body, clock).1;
    OffsetStep(ms, j);
    OffsetMonotone(ms, j + 1, |ms|);
    assert ms[..|ms|] == ms;
    HoldsAppend(h, image, t.tail, ms[..j], m);
    AppendedHolds(h, t, image, j, m);
    ReplacedReopens(h, t, s'.file, j, m, again);
  }

  lemma AppendedHolds(h: Hash, t: SegmentView, image: seq<byte>, j: nat, m: Message)
    requires WellFormed(h, t) && j < |t.messages| && OnlyAt(t.file, image, t.messages, j)
    requires Size(m) == Size(t.messages[j]) && Offset(t.messages, j) + Size(m) <= |image|
    requires var file := Splice(image, Offset(t.messages, j), Record(h, t.tail + j, m));
             Holds(h, file, t.tail, t.messages[..j] + [m])
    ensures var file := Splice(image, Offset(t.messages, j), Record(h, t.tail + j, m));
            && OnlyAt(t.file, file, t.messages, j)
            && Holds(h, file, t.tail, Replaced(t.messages, j, m))
  {
    hide RecordAt, Record, End;
    var ms, off := t.messages, Offset(t.messages, j);
    var file := Splice(image, off, Record(h, t.tail + j, m));
    OffsetStep(ms, j);
    assert OnlyAt(t.file, file, ms, j);
    assert HoldsOne(h, file, t.tail, ms[..j] + [m], j);
    assert (ms[..j] + [m])[..j] == ms[..j];
    hide Splice, OnlyAt;
    ReplacedHolds(h, t.file, file, t.tail, ms, j, m);
  }

  lemma ReplacedReopens(h: Hash, t: SegmentView, file: seq<byte>, j: nat, m: Message, again: bool)
    requires WellFormed(h, t) && Marked(t) && t.FileOffset() < |t.file|
    requires j < |t.messages| && OnlyAt(t.file, file, t.messages, j) && Size(m) == Size(t.messages[j])
    requires Holds(h, file, t.tail, Replaced(t.messages, j, m))
    ensures var r := Open(h, t.tail, again, file);
            r.Opened? ==> Replaced(t.messages, j, m) <= r.segment.messages
  {
    hide Scan, Holds, Marked, Stamped;
    var rs := Replaced(t.messages, j, m);
    StillMarked(t, file, j);
    ReplacedOffsets(t.messages, j, m, |t.messages|);
    assert t.messages[..|t.messages|] == t.messages && rs[..|rs|] == rs;
    ScanThrough(h, file, t.tail, rs, 0);
    assert rs[..0] == [] && rs[0..] == rs;
  }
}
