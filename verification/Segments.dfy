/** A segment as a value: what one segment file holds, and what each operation makes of it. */
module Segments {
  import opened Bytes
  import opened Records

  const MAX_FILE_LEN: nat := 0x8000_0000

  datatype PushResult = Pushed(id: nat) | MessageTooBig | SegmentFull | SegmentFileInvalid

  datatype SegmentView = SegmentView(tail: nat, messages: seq<Message>, closed: bool, file: seq<byte>) {
    function Head(): nat { tail + |messages| }

    predicate Has(id: nat) { tail <= id < Head() }

    function At(id: nat): Message
      requires Has(id)
    {
      messages[id - tail]
    }

    /** The offset just past the last record. */
    function FileOffset(): nat { End(messages) }

    /** The first timestamp that is not the invalid one. */
    function FirstTimestamp(): u32 { First(messages) }

    function LastTimestamp(): u32 { Last(messages) }
  }

  function Last(ms: seq<Message>): u32 {
    if ms == [] then INVALID_TIMESTAMP else ms[|ms| - 1].timestamp
  }

  function First(ms: seq<Message>): u32 {
    if ms == [] then INVALID_TIMESTAMP
    else if First(ms[..|ms| - 1]) != INVALID_TIMESTAMP then First(ms[..|ms| - 1])
    else ms[|ms| - 1].timestamp
  }

  /** The first timestamp of a segment is that of its first message with a timestamp other than 0. */
  lemma {:induction false} FirstIsEarliest(ms: seq<Message>)
    ensures First(ms) == 0 <==> forall k :: 0 <= k < |ms| ==> ms[k].timestamp == 0
    ensures First(ms) != 0 ==>
              exists k :: 0 <= k < |ms| && ms[k].timestamp == First(ms) && AllZeroBefore(ms, k)
  {
    if ms != [] {
      var n := |ms| - 1;
      FirstIsEarliest(ms[..n]);
      if First(ms[..n]) != 0 {
        var k :| 0 <= k < n && ms[..n][k].timestamp == First(ms[..n]) && AllZeroBefore(ms[..n], k);
        assert forall i :: 0 <= i < k ==> ms[..n][i] == ms[i];
        assert AllZeroBefore(ms, k) && ms[k].timestamp != 0;
      } else {
        assert forall k :: 0 <= k < n ==> ms[k] == ms[..n][k];
        assert AllZeroBefore(ms, n);
      }
    }
  }

  ghost predicate AllZeroBefore(ms: seq<Message>, k: nat) {
    forall i :: 0 <= i < k && i < |ms| ==> ms[i].timestamp == 0
  }

  predicate ValidFileLen(n: nat) { MAGIC_SIZE < n < MAX_FILE_LEN }

  /** The file holds exactly the records of the messages, in place. */
  ghost predicate WellFormed(h: Hash, s: SegmentView) {
    && ValidFileLen(|s.file|)
    && s.FileOffset() <= |s.file|
    && s.Head() <= U64_RANGE
    && Holds(h, s.file, s.tail, s.messages)
  }

  /** Well formed, with a magic number, positive ids and nothing but zeros after the last record. */
  ghost predicate Pristine(h: Hash, s: SegmentView) {
    && WellFormed(h, s)
    && s.tail >= 1
    && s.file[..MAGIC_SIZE] == Encode(4, MAGIC_NUM)
    && ZeroFrom(s.file, s.FileOffset())
  }

  function Zeros(n: nat): (z: seq<byte>)
    ensures |z| == n && ZeroFrom(z, 0)
  {
    seq(n, _ => 0)
  }

  /** A freshly created segment file. */
  function Fresh(startId: nat, fileLen: nat): SegmentView
    requires ValidFileLen(fileLen)
  {
    SegmentView(startId, [], false, Splice(Zeros(fileLen), 0, Encode(4, MAGIC_NUM)))
  }

  lemma FreshIsPristine(h: Hash, startId: nat, fileLen: nat)
    requires ValidFileLen(fileLen) && 1 <= startId <= U64_RANGE
    ensures Pristine(h, Fresh(startId, fileLen))
  {
    var file := Splice(Zeros(fileLen), 0, Encode(4, MAGIC_NUM));
    forall i | MAGIC_SIZE <= i < |file|
      ensures file[i] == 0
    {
      assert file[i] == file[MAGIC_SIZE..][i - MAGIC_SIZE] == Zeros(fileLen)[MAGIC_SIZE..][i - MAGIC_SIZE];
    }
  }

  /** Whether a record of `total` bytes fits after the last one. */
  predicate Fits(s: SegmentView, total: nat)
  {
    s.FileOffset() + total <= |s.file|
  }

  /** Appending a message; `closed` is never consulted. */
  function Push(h: Hash, s: SegmentView, body: seq<byte>, clock: u32): (r: (PushResult, SegmentView))
  {
    var m := Message(clock, body);
    if !Fits(s, Size(m)) then
      if Size(m) + MAGIC_SIZE >= |s.file| then (MessageTooBig, s) else (SegmentFull, s.(closed := true))
    else
      (Pushed(s.Head()),
       s.(messages := s.messages + [m], file := Splice(s.file, s.FileOffset(), Record(h, s.Head(), m))))
  }

  lemma PushKeepsWellFormed(h: Hash, s: SegmentView, body: seq<byte>, clock: u32)
    requires WellFormed(h, s) && s.Head() < U64_RANGE
    ensures WellFormed(h, Push(h, s, body, clock).1)
  {
    hide Holds, Splice, Record;
    var m := Message(clock, body);
    if Fits(s, Size(m)) {
      EndAppend(s.messages, m);
      HoldsAppend(h, s.file, s.tail, s.messages, m);
    }
  }

  lemma PushKeepsPristine(h: Hash, s: SegmentView, body: seq<byte>, clock: u32)
    requires Pristine(h, s) && s.Head() < U64_RANGE
    ensures Pristine(h, Push(h, s, body, clock).1)
  {
    hide Holds, Splice, Record, Encode;
    PushKeepsWellFormed(h, s, body, clock);
    var m := Message(clock, body);
    if Fits(s, Size(m)) {
      EndAppend(s.messages, m);
      var off, end := s.FileOffset(), s.FileOffset() + Size(m);
      var file' := Push(h, s, body, clock).1.file;
      assert file'[..MAGIC_SIZE] == file'[..off][..MAGIC_SIZE] == s.file[..off][..MAGIC_SIZE];
      forall i | end <= i < |file'|
        ensures file'[i] == 0
      {
        assert file'[i] == file'[end..][i - end] == s.file[end..][i - end] == s.file[i];
      }
    }
  }

  /** A fresh segment refuses a message only for its size. */
  lemma FreshAccepts(h: Hash, startId: nat, fileLen: nat, body: seq<byte>, clock: u32)
    requires ValidFileLen(fileLen)
    ensures Push(h, Fresh(startId, fileLen), body, clock).0
         == if HEADER_SIZE + |body| + MAGIC_SIZE <= fileLen then Pushed(startId) else MessageTooBig
  {
  }

  datatype Opened = Opened(segment: SegmentView) | InvalidFile | Fault

  /** A file image with the magic number put back. */
  function Stamped(image: seq<byte>): (r: seq<byte>)
    requires |image| >= MAGIC_SIZE
    ensures |r| == |image| && r[MAGIC_SIZE..] == image[MAGIC_SIZE..]
  {
    Splice(image, 0, Encode(4, MAGIC_NUM))
  }

  /** Opening a checkpointed segment: restore the magic number and rescan the file. */
  function Open(h: Hash, tail: nat, closed: bool, image: seq<byte>): Opened {
    if !ValidFileLen(|image|) then InvalidFile
    else
      var file := Stamped(image);
      var found := Scan(h, file, MAGIC_SIZE, tail);
      if found.fault then Fault else Opened(SegmentView(tail, found.messages, closed, file))
  }

  /** Whatever the bytes are, what opening yields is well formed. */
  lemma OpenedIsWellFormed(h: Hash, tail: nat, closed: bool, image: seq<byte>)
    requires tail <= U64_RANGE
    ensures var r := Open(h, tail, closed, image);
            r.Opened? ==> WellFormed(h, r.segment) && r.segment.FileOffset() < |r.segment.file|
  {
    hide Holds, Splice, Encode, Scan;
    if ValidFileLen(|image|) {
      var file := Splice(image, 0, Encode(4, MAGIC_NUM));
      assert Holds(h, file, tail, []) by { HoldsNothing(h, file, tail); }
      ScanHolds(h, file, tail, []);
      var found := Scan(h, file, MAGIC_SIZE, tail).messages;
      assert [] + found == found;
    }
  }

  lemma HoldsNothing(h: Hash, file: seq<byte>, id: nat)
    ensures Holds(h, file, id, [])
  {
  }

  /** The file starts with the magic number. */
  predicate Marked(s: SegmentView) { |s.file| >= MAGIC_SIZE && Stamped(s.file) == s.file }

  /**
   * Reopening a segment from its own file, whatever stands behind its last record: a file filled to
   * the last byte loses its last message, and otherwise the messages are followed by what the scan
   * finds behind them.
   */
  lemma ReopenRestores(h: Hash, s: SegmentView, closed: bool)
    requires WellFormed(h, s) && Marked(s)
    ensures var more := Scan(h, s.file, s.FileOffset(), s.Head());
            Open(h, s.tail, closed, s.file) ==
              if s.FileOffset() == |s.file| then
                Opened(SegmentView(s.tail, s.messages[..|s.messages| - 1], closed, s.file))
              else if more.fault then Fault
              else Opened(SegmentView(s.tail, s.messages + more.messages, closed, s.file))
  {
    hide Scan, Holds, Stamped;
    if s.FileOffset() == |s.file| {
      ScanStopsAtFull(h, s.file, s.tail, s.messages);
    } else {
      ScanThrough(h, s.file, s.tail, s.messages, 0);
      assert s.messages[..0] == [] && s.messages[0..] == s.messages;
    }
  }

  lemma PristineIsMarked(h: Hash, s: SegmentView)
    requires Pristine(h, s)
    ensures Marked(s)
  {
    hide Encode;
    assert Splice(s.file, 0, Encode(4, MAGIC_NUM)) == s.file[..MAGIC_SIZE] + s.file[MAGIC_SIZE..] == s.file;
  }

  /**
   * Reopening a torn file that keeps the first `k` bytes of an intact one, and is arbitrary
   * after them, restores with its id every message whose record ends within those bytes
   * (and before the end of the file), and fails exactly when records that go on from these
   * lead up to a stored length that wraps.
   */
  lemma TornReopen(h: Hash, s: SegmentView, torn: seq<byte>, k: nat, j: nat, closed: bool)
    requires WellFormed(h, s)
    requires |torn| == |s.file| && k <= |torn| && torn[..k] == s.file[..k]
    requires j <= |s.messages| && Offset(s.messages, j) <= k && Offset(s.messages, j) < |s.file|
    ensures var r := Open(h, s.tail, closed, torn);
            && !r.InvalidFile?
            && (r.Fault? <==> exists ms :: s.messages[..j] <= ms && WrapsAfter(h, Stamped(torn), s.tail, ms))
            && (r.Opened? ==> r.segment.tail == s.tail && s.messages[..j] <= r.segment.messages)
  {
    hide Holds, Scan, Splice, Encode;
    var magic := Encode(4, MAGIC_NUM);
    var file, torn' := Splice(s.file, 0, magic), Splice(torn, 0, magic);
    assert file[..k] == torn'[..k] && file[MAGIC_SIZE..] == s.file[MAGIC_SIZE..] by {
      assert file[..4] == magic == torn'[..4];
      forall i | 4 <= i < |file|
        ensures file[i] == s.file[i] && torn'[i] == torn[i]
      {
        assert file[i] == file[4..][i - 4] && torn'[i] == torn'[4..][i - 4];
      }
    }
    MagicIsNotData(h, s.file, file, s.tail, s.messages);
    TornScan(h, file, torn', k, s.tail, s.messages, j);
    hide WrapsAfter;
    ScanFaultsExactly(h, torn', s.tail);
    if ms :| WrapsAfter(h, torn', s.tail, ms) {
      WrapIsReached(h, torn', s.tail, ms);
    }
  }

  lemma MagicIsNotData(h: Hash, file: seq<byte>, other: seq<byte>, id: nat, ms: seq<Message>)
    requires Holds(h, file, id, ms) && |file| == |other| >= MAGIC_SIZE
    requires file[MAGIC_SIZE..] == other[MAGIC_SIZE..]
    ensures Holds(h, other, id, ms)
  {
    hide RecordAt, End;
    forall k | 0 <= k < |ms|
      ensures HoldsOne(h, other, id, ms, k)
    {
      assert HoldsOne(h, file, id, ms, k);
      RecordIsShielded(h, file, other, Offset(ms, k), id + k, ms[k]);
    }
  }

  lemma RecordIsShielded(h: Hash, file: seq<byte>, other: seq<byte>, off: nat, id: nat, m: Message)
    requires RecordAt(h, file, off, id, m) && off >= MAGIC_SIZE
    requires |file| == |other| && file[MAGIC_SIZE..] == other[MAGIC_SIZE..]
    ensures RecordAt(h, other, off, id, m)
  {
    hide Decode;
    forall i, j | MAGIC_SIZE <= i <= j <= |file|
      ensures file[i..j] == other[i..j]
    {
      SliceOfSlice(file, MAGIC_SIZE, |file|, i - MAGIC_SIZE, j - MAGIC_SIZE);
      SliceOfSlice(other, MAGIC_SIZE, |file|, i - MAGIC_SIZE, j - MAGIC_SIZE);
    }
  }
}
