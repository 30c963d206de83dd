/**
 * The layout of a segment file: a magic number, then records of a packed
 * 20-byte header (hash, id, timestamp, length) followed by the body, then unused space.
 */
module Records {
  import opened Bytes

  const HEADER_SIZE: nat := 20
  const MAGIC_SIZE: nat := 4
  const MAGIC_NUM: u32 := 0xF1031311
  const INVALID_TIMESTAMP: u32 := 0

  datatype Message = Message(timestamp: u32, body: seq<byte>)

  /** The checksum of a record, taken over everything after its hash field. */
  type Hash = seq<byte> -> u32

  function Size(m: Message): nat { HEADER_SIZE + |m.body| }

  /** The file offset just past the records of `ms`. */
  function End(ms: seq<Message>): (e: nat)
    ensures e >= MAGIC_SIZE
  {
    if ms == [] then MAGIC_SIZE else End(ms[..|ms| - 1]) + Size(ms[|ms| - 1])
  }

  /** The file offset of record `k`. */
  function Offset(ms: seq<Message>, k: nat): nat
    requires k <= |ms|
  {
    End(ms[..k])
  }

  lemma OffsetStep(ms: seq<Message>, k: nat)
    requires k < |ms|
    ensures Offset(ms, k + 1) == Offset(ms, k) + Size(ms[k])
  {
    assert ms[..k + 1][..k] == ms[..k];
  }

  lemma {:induction false} OffsetMonotone(ms: seq<Message>, j: nat, k: nat)
    requires j <= k <= |ms|
    ensures Offset(ms, j) + HEADER_SIZE * (k - j) <= Offset(ms, k)
    decreases k - j
  {
    if j < k {
      OffsetMonotone(ms, j, k - 1);
      OffsetStep(ms, k - 1);
    }
  }

  lemma OffsetOfPrefix(ms: seq<Message>, more: seq<Message>, k: nat)
    requires k <= |ms|
    ensures Offset(ms + more, k) == Offset(ms, k)
  {
    assert (ms + more)[..k] == ms[..k];
  }

  function Payload(id: nat, m: Message): (s: seq<byte>)
    ensures |s| == Size(m) - 4
  {
    Encode(8, id) + Encode(4, m.timestamp) + Encode(4, |m.body|) + m.body
  }

  function Record(h: Hash, id: nat, m: Message): (s: seq<byte>)
    ensures |s| == Size(m)
  {
    Encode(4, h(Payload(id, m))) + Payload(id, m)
  }

  /** Byte `k` of a number stored with the least significant byte first. */
  function ByteOf(v: nat, k: nat): nat { if k == 0 then v % 0x100 else ByteOf(v / 0x100, k - 1) }

  lemma {:induction false} EncodedBytes(n: nat, v: nat, k: nat)
    requires k < n
    ensures Encode(n, v)[k] == ByteOf(v, k)
  {
    if k > 0 {
      EncodedBytes(n - 1, v / 0x100, k - 1);
    }
  }

  /**
   * The layout of a record: four bytes of checksum over all that follows, eight of id, four of
   * timestamp and four of length, each with the least significant byte first, and then the body.
   */
  lemma RecordLayout(h: Hash, id: nat, m: Message, k: nat)
    requires k < Size(m)
    ensures Size(m) == 20 + |m.body|
    ensures Record(h, id, m)[k] ==
              if k < 4 then ByteOf(h(Record(h, id, m)[4..]), k)
              else if k < 12 then ByteOf(id, k - 4)
              else if k < 16 then ByteOf(m.timestamp, k - 12)
              else if k < 20 then ByteOf(|m.body|, k - 16)
              else m.body[k - 20]
  {
    assert Record(h, id, m)[4..] == Payload(id, m);
    hide Encode, ByteOf;
    if k < 4 {
      EncodedBytes(4, h(Payload(id, m)), k);
    } else if k < 12 {
      EncodedBytes(8, id, k - 4);
    } else if k < 16 {
      EncodedBytes(4, m.timestamp, k - 12);
    } else if k < 20 {
      EncodedBytes(4, |m.body|, k - 16);
    }
  }

  function HashAt(file: seq<byte>, off: nat): (v: nat)
    requires off + HEADER_SIZE <= |file|
  {
    Decode(file[off..off + 4])
  }

  function IdAt(file: seq<byte>, off: nat): (v: nat)
    requires off + HEADER_SIZE <= |file|
  {
    Decode(file[off + 4..off + 12])
  }

  function TimestampAt(file: seq<byte>, off: nat): (v: u32)
    requires off + HEADER_SIZE <= |file|
  {
    RangeOfWords();
    Decode(file[off + 12..off + 16])
  }

  function LenAt(file: seq<byte>, off: nat): (v: u32)
    requires off + HEADER_SIZE <= |file|
  {
    RangeOfWords();
    Decode(file[off + 16..off + 20])
  }

  /** The message a reader sees at `off`, whatever is stored there. */
  function MessageAt(file: seq<byte>, off: nat): (m: Message)
    requires off + HEADER_SIZE <= |file|
    requires off + HEADER_SIZE + LenAt(file, off) <= |file|
    ensures m.timestamp == TimestampAt(file, off) && |m.body| == LenAt(file, off)
  {
    Message(TimestampAt(file, off), file[off + HEADER_SIZE..off + HEADER_SIZE + LenAt(file, off)])
  }

  predicate ChecksumOk(h: Hash, file: seq<byte>, off: nat)
    requires off + HEADER_SIZE <= |file|
    requires off + HEADER_SIZE + LenAt(file, off) <= |file|
  {
    HashAt(file, off) == h(file[off + 4..off + HEADER_SIZE + LenAt(file, off)])
  }

  /** `file` holds at `off` a complete record of message `m` with id `id`. */
  predicate RecordAt(h: Hash, file: seq<byte>, off: nat, id: nat, m: Message) {
    && off + Size(m) <= |file|
    && IdAt(file, off) == id
    && LenAt(file, off) == |m.body|
    && MessageAt(file, off) == m
    && ChecksumOk(h, file, off)
  }

  /** `file` holds the records of `ms`, numbered from `id`, packed after the magic number. */
  ghost predicate Holds(h: Hash, file: seq<byte>, id: nat, ms: seq<Message>) {
    forall k :: 0 <= k < |ms| ==> HoldsOne(h, file, id, ms, k)
  }

  ghost predicate HoldsOne(h: Hash, file: seq<byte>, id: nat, ms: seq<Message>, k: nat)
    requires k < |ms|
  {
    RecordAt(h, file, Offset(ms, k), id + k, ms[k])
  }

  /** What is written as a record is read back as that record. */
  lemma RecordReadsBack(h: Hash, file: seq<byte>, off: nat, id: u64, m: Message)
    requires off + Size(m) <= |file|
    requires Size(m) < U32_RANGE
    requires file[off..off + Size(m)] == Record(h, id, m)
    ensures RecordAt(h, file, off, id, m)
  {
    hide Decode, Encode;
    RangeOfWords();
    var p, n := Payload(id, m), Size(m);
    SliceOfSlice(file, off, off + n, 0, 4);
    SliceOfSlice(file, off, off + n, 4, n);
    assert file[off + 4..off + n] == p;
    SliceOfSlice(file, off + 4, off + n, 0, 8);
    SliceOfSlice(file, off + 4, off + n, 8, 12);
    SliceOfSlice(file, off + 4, off + n, 12, 16);
    SliceOfSlice(file, off + 4, off + n, 16, n - 4);
    assert p[..8] == Encode(8, id) && p[8..12] == Encode(4, m.timestamp);
    assert p[12..16] == Encode(4, |m.body|) && p[16..] == m.body;
    DecodeEncode(4, h(p));
    DecodeEncode(8, id);
    DecodeEncode(4, m.timestamp);
    DecodeEncode(4, |m.body|);
  }

  lemma SlicesBefore(file: seq<byte>, other: seq<byte>, upTo: nat, i: nat, j: nat)
    requires i <= j <= upTo <= |file| && upTo <= |other| && file[..upTo] == other[..upTo]
    ensures file[i..j] == other[i..j]
  {
    SliceOfSlice(file, 0, upTo, i, j);
    SliceOfSlice(other, 0, upTo, i, j);
    assert file[0..upTo] == file[..upTo] && other[0..upTo] == other[..upTo];
  }

  /** A record depends on nothing past its own end. */
  lemma RecordIsLocal(h: Hash, file: seq<byte>, other: seq<byte>, upTo: nat, off: nat, id: nat, m: Message)
    requires RecordAt(h, file, off, id, m)
    requires off + Size(m) <= upTo <= |file| && upTo <= |other|
    requires file[..upTo] == other[..upTo]
    ensures RecordAt(h, other, off, id, m)
  {
    hide Decode;
    SlicesBefore(file, other, upTo, off, off + 4);
    SlicesBefore(file, other, upTo, off + 4, off + 12);
    SlicesBefore(file, other, upTo, off + 12, off + 16);
    SlicesBefore(file, other, upTo, off + 16, off + 20);
    SlicesBefore(file, other, upTo, off + 20, off + Size(m));
    SlicesBefore(file, other, upTo, off + 4, off + Size(m));
  }

  lemma HoldsIsLocal(h: Hash, file: seq<byte>, other: seq<byte>, id: nat, ms: seq<Message>)
    requires Holds(h, file, id, ms)
    requires End(ms) <= |file| && End(ms) <= |other|
    requires file[..End(ms)] == other[..End(ms)]
    ensures Holds(h, other, id, ms)
  {
    hide RecordAt, End;
    forall k | 0 <= k < |ms|
      ensures HoldsOne(h, other, id, ms, k)
    {
      assert HoldsOne(h, file, id, ms, k);
      OffsetStep(ms, k);
      OffsetMonotone(ms, k + 1, |ms|);
      assert ms[..|ms|] == ms;
      RecordIsLocal(h, file, other, End(ms), Offset(ms, k), id + k, ms[k]);
    }
  }

  lemma HoldsPrefix(h: Hash, file: seq<byte>, id: nat, ms: seq<Message>, j: nat)
    requires Holds(h, file, id, ms) && j <= |ms|
    ensures Holds(h, file, id, ms[..j])
  {
    hide RecordAt, End;
    forall k | 0 <= k < j
      ensures HoldsOne(h, file, id, ms[..j], k)
    {
      assert HoldsOne(h, file, id, ms, k);
      assert ms[..j][..k] == ms[..k];
    }
  }

  lemma HoldsExtend(h: Hash, file: seq<byte>, id: nat, ms: seq<Message>, m: Message)
    requires Holds(h, file, id, ms)
    requires RecordAt(h, file, End(ms), id + |ms|, m)
    ensures Holds(h, file, id, ms + [m])
  {
    hide RecordAt, End;
    assert ms[..|ms|] == ms;
    forall k | 0 <= k < |ms + [m]|
      ensures HoldsOne(h, file, id, ms + [m], k)
    {
      assert k < |ms| ==> HoldsOne(h, file, id, ms, k);
      OffsetOfPrefix(ms, [m], k);
    }
  }

  /** Writing one more record after those of `ms` extends what the file holds. */
  lemma HoldsAppend(h: Hash, file: seq<byte>, id: nat, ms: seq<Message>, m: Message)
    requires Holds(h, file, id, ms)
    requires id + |ms| < U64_RANGE
    requires End(ms) + Size(m) <= |file| < U32_RANGE
    ensures Holds(h, Splice(file, End(ms), Record(h, id + |ms|, m)), id, ms + [m])
  {
    hide *;
    var file' := Splice(file, End(ms), Record(h, id + |ms|, m));
    HoldsIsLocal(h, file, file', id, ms);
    RecordReadsBack(h, file', End(ms), id + |ms|, m);
    HoldsExtend(h, file', id, ms, m);
  }

  /** Everything the scan accepts is a held record, whatever the file contains. */
  lemma {:induction false} ScanHolds(h: Hash, file: seq<byte>, id: nat, ms: seq<Message>)
    requires |file| < U32_RANGE
    requires Holds(h, file, id, ms)
    requires End(ms) <= |file|
    ensures var found := ms + Scan(h, file, End(ms), id + |ms|).messages;
            && Holds(h, file, id, found)
            && End(found) <= |file|
            && (found != ms ==> id + |found| <= U64_RANGE && End(found) < |file|)
    decreases |file| - End(ms)
  {
    hide Scan, RecordAt, Holds, End;
    var off := End(ms);
    var r := Scan(h, file, off, id + |ms|);
    if r.messages == [] {
      assert ms + r.messages == ms;
    } else {
      var m := r.messages[0];
      ScanAccepts(h, file, off, id + |ms|);
      EndAppend(ms, m);
      HoldsExtend(h, file, id, ms, m);
      ScanHolds(h, file, id, ms + [m]);
      assert ms + r.messages == ms + [m] + r.messages[1..];
    }
  }

  /** The first message the scan accepts is a complete record that ends before the file does. */
  lemma ScanAccepts(h: Hash, file: seq<byte>, off: nat, id: nat)
    requires |file| < U32_RANGE
    requires Scan(h, file, off, id).messages != []
    ensures var r := Scan(h, file, off, id);
            var m := r.messages[0];
            && RecordAt(h, file, off, id, m)
            && id < U64_RANGE
            && off + Size(m) < |file|
            && r.messages[1..] == Scan(h, file, off + Size(m), id + 1).messages
  {
    RangeOfWords();
    hide LenAt, MessageAt;
    assert off + HEADER_SIZE + LenAt(file, off) <= |file|;
    assert WrappedEnd(file, off) == off + HEADER_SIZE + LenAt(file, off);
  }

  lemma EndAppend(ms: seq<Message>, m: Message)
    ensures End(ms + [m]) == End(ms) + Size(m)
  {
    assert (ms + [m])[..|ms|] == ms;
  }

  /**
   * What rescanning a file finds. `fault` is set when a stored length is so large that the
   * 32-bit end offset wraps below the file length: the checksum is then read outside the file.
   */
  datatype Scanned = Scanned(messages: seq<Message>, fault: bool)

  /** The end offset of the record at `off` in 32-bit arithmetic. */
  function WrappedEnd(file: seq<byte>, off: nat): u32
    requires off + HEADER_SIZE <= |file|
  {
    (off + (HEADER_SIZE + LenAt(file, off)) % U32_RANGE) % U32_RANGE
  }

  /** The recovery scan from `off`, expecting `id` next. */
  function Scan(h: Hash, file: seq<byte>, off: nat, id: nat): (r: Scanned)
    requires |file| < U32_RANGE
    decreases |file| - off
  {
    if off + HEADER_SIZE >= |file| || IdAt(file, off) != id then
      Scanned([], false)
    else if WrappedEnd(file, off) >= |file| then
      Scanned([], false)
    else if off + HEADER_SIZE + LenAt(file, off) > |file| then
      Scanned([], true)
    else if !ChecksumOk(h, file, off) then
      Scanned([], false)
    else
      var rest := Scan(h, file, off + HEADER_SIZE + LenAt(file, off), id + 1);
      Scanned([MessageAt(file, off)] + rest.messages, rest.fault)
  }

  /** One step of the scan. */
  lemma ScanUnfolds(h: Hash, file: seq<byte>, off: nat, id: nat)
    requires |file| < U32_RANGE
    ensures Scan(h, file, off, id)
         == if off + HEADER_SIZE >= |file| || IdAt(file, off) != id || WrappedEnd(file, off) >= |file| then
              Scanned([], false)
            else if off + HEADER_SIZE + LenAt(file, off) > |file| then
              Scanned([], true)
            else if !ChecksumOk(h, file, off) then
              Scanned([], false)
            else
              var rest := Scan(h, file, off + HEADER_SIZE + LenAt(file, off), id + 1);
              Scanned([MessageAt(file, off)] + rest.messages, rest.fault)
  {
  }

  /** The scan accepts a complete record with the expected id that ends before the file does. */
  lemma ScanStep(h: Hash, file: seq<byte>, off: nat, id: nat, m: Message)
    requires |file| < U32_RANGE
    requires RecordAt(h, file, off, id, m)
    ensures Scan(h, file, off, id)
         == if off + Size(m) < |file| then
              var rest := Scan(h, file, off + Size(m), id + 1);
              Scanned([m] + rest.messages, rest.fault)
            else
              Scanned([], false)
  {
    hide LenAt, IdAt, MessageAt, HashAt;
    assert WrappedEnd(file, off) == (off + Size(m)) % U32_RANGE == off + Size(m);
  }

  /** The scan runs through the held records it can accept, and goes on from there. */
  lemma {:induction false} ScanThrough(h: Hash, file: seq<byte>, id: nat, ms: seq<Message>, k: nat)
    requires |file| < U32_RANGE
    requires Holds(h, file, id, ms)
    requires End(ms) < |file|
    requires k <= |ms|
    ensures var rest := Scan(h, file, End(ms), id + |ms|);
            Scan(h, file, Offset(ms, k), id + k) == Scanned(ms[k..] + rest.messages, rest.fault)
    decreases |ms| - k
  {
    hide RecordAt, Scan, End;
    assert ms[..|ms|] == ms;
    if k < |ms| {
      ScanThrough(h, file, id, ms, k + 1);
      OffsetStep(ms, k);
      OffsetMonotone(ms, k + 1, |ms|);
      assert HoldsOne(h, file, id, ms, k);
      ScanStep(h, file, Offset(ms, k), id + k, ms[k]);
      assert ms[k..] == [ms[k]] + ms[k + 1..];
    }
  }

  ghost predicate ZeroFrom(file: seq<byte>, off: nat) {
    forall i :: off <= i < |file| ==> file[i] == 0
  }

  /** Unused, zero-filled space is never taken for a record. */
  lemma ScanZeros(h: Hash, file: seq<byte>, off: nat, id: nat)
    requires |file| < U32_RANGE
    requires ZeroFrom(file, off) && id >= 1
    ensures Scan(h, file, off, id) == Scanned([], false)
  {
    if off + HEADER_SIZE < |file| {
      DecodeZeros(file[off + 4..off + 12]);
    }
  }

  /** A last record that ends exactly at the end of the file is not accepted. */
  lemma ScanStopsAtFull(h: Hash, file: seq<byte>, id: nat, ms: seq<Message>)
    requires |file| < U32_RANGE && ms != []
    requires Holds(h, file, id, ms)
    requires End(ms) == |file|
    ensures Scan(h, file, MAGIC_SIZE, id) == Scanned(ms[..|ms| - 1], false)
  {
    hide RecordAt, Scan;
    var n := |ms| - 1;
    var init := ms[..n];
    HoldsPrefix(h, file, id, ms, n);
    assert HoldsOne(h, file, id, ms, n);
    hide Holds;
    ScanStep(h, file, End(init), id + n, ms[n]);
    ScanThrough(h, file, id, init, 0);
    assert init[..0] == [] && init[0..] == init;
  }

  /**
   * Recovery inverts writing: rescanning a written file finds exactly the messages written,
   * except that a last record ending exactly at the end of the file is dropped.
   */
  lemma ScanInvertsWriting(h: Hash, file: seq<byte>, id: nat, ms: seq<Message>)
    requires |file| < U32_RANGE && id >= 1
    requires MAGIC_SIZE < |file| && End(ms) <= |file|
    requires Holds(h, file, id, ms)
    requires ZeroFrom(file, End(ms))
    ensures Scan(h, file, MAGIC_SIZE, id)
         == Scanned(if End(ms) < |file| then ms else ms[..|ms| - 1], false)
  {
    hide Holds, Scan, ZeroFrom;
    if End(ms) < |file| {
      ScanThrough(h, file, id, ms, 0);
      ScanZeros(h, file, End(ms), id + |ms|);
      assert ms[..0] == [] && ms[0..] == ms;
    } else {
      ScanStopsAtFull(h, file, id, ms);
    }
  }

  /**
   * A torn image that keeps the first `k` bytes still yields every record that ends
   * within them (and before the end of the file), whatever the other bytes are.
   */
  lemma TornScan(h: Hash, file: seq<byte>, torn: seq<byte>, k: nat, id: nat, ms: seq<Message>, j: nat)
    requires |file| == |torn| < U32_RANGE && k <= |file|
    requires file[..k] == torn[..k]
    requires Holds(h, file, id, ms)
    requires j <= |ms| && Offset(ms, j) <= k && Offset(ms, j) < |file|
    ensures ms[..j] <= Scan(h, torn, MAGIC_SIZE, id).messages
  {
    hide RecordAt, Scan;
    var kept := ms[..j];
    HoldsPrefix(h, file, id, ms, j);
    SliceOfSlice(file, 0, k, 0, End(kept));
    SliceOfSlice(torn, 0, k, 0, End(kept));
    HoldsIsLocal(h, file, torn, id, kept);
    ScanThrough(h, torn, id, kept, 0);
  }

  /** A record with the expected id whose stored length wraps its 32-bit end to a place inside the file. */
  predicate WrapsAt(file: seq<byte>, off: nat, id: nat) {
    && off + HEADER_SIZE < |file|
    && IdAt(file, off) == id
    && WrappedEnd(file, off) < |file| < off + HEADER_SIZE + LenAt(file, off)
  }

  /** The records of `ms` lead up to one whose end wraps. */
  ghost predicate WrapsAfter(h: Hash, file: seq<byte>, id: nat, ms: seq<Message>) {
    Holds(h, file, id, ms) && End(ms) < |file| && WrapsAt(file, End(ms), id + |ms|)
  }

  lemma WrapIsReached(h: Hash, file: seq<byte>, id: nat, ms: seq<Message>)
    requires MAGIC_SIZE < |file| < U32_RANGE && WrapsAfter(h, file, id, ms)
    ensures Scan(h, file, MAGIC_SIZE, id) == Scanned(ms, true)
  {
    hide Scan, Holds, IdAt, LenAt, ChecksumOk;
    ScanThrough(h, file, id, ms, 0);
    ScanUnfolds(h, file, End(ms), id + |ms|);
    assert ms[..0] == [] && ms[0..] == ms && ms + [] == ms;
  }

  /** The scan ends after whole records, in front of something it does not accept. */
  lemma ScanEnds(h: Hash, file: seq<byte>, id: nat)
    requires MAGIC_SIZE < |file| < U32_RANGE
    ensures var r := Scan(h, file, MAGIC_SIZE, id);
            && Holds(h, file, id, r.messages) && End(r.messages) < |file|
            && Scan(h, file, End(r.messages), id + |r.messages|) == Scanned([], r.fault)
  {
    hide Scan, HoldsOne, End;
    var r := Scan(h, file, MAGIC_SIZE, id);
    assert End([]) == MAGIC_SIZE && End(r.messages[..0]) == MAGIC_SIZE by { EndOfNothing(r.messages); }
    ScanHolds(h, file, id, []);
    assert [] + r.messages == r.messages;
    ScanThrough(h, file, id, r.messages, 0);
    assert r.messages[0..] == r.messages;
  }

  lemma EndOfNothing(ms: seq<Message>)
    ensures End([]) == End(ms[..0]) == MAGIC_SIZE
  {
  }

  /**
   * The scan reads outside the file exactly when whole records lead up to one whose end wraps,
   * whatever else the file contains.
   */
  lemma ScanFaultsExactly(h: Hash, file: seq<byte>, id: nat)
    requires MAGIC_SIZE < |file| < U32_RANGE
    ensures Scan(h, file, MAGIC_SIZE, id).fault <==> exists ms :: WrapsAfter(h, file, id, ms)
  {
    hide Scan, Holds, IdAt, LenAt, ChecksumOk, End;
    var r := Scan(h, file, MAGIC_SIZE, id);
    if r.fault {
      ScanEnds(h, file, id);
      ScanUnfolds(h, file, End(r.messages), id + |r.messages|);
      assert WrapsAfter(h, file, id, r.messages);
    }
    if ms :| WrapsAfter(h, file, id, ms) {
      WrapIsReached(h, file, id, ms);
    }
  }

  /** The smallest file that makes the scan read outside it: one header whose end wraps to its start. */
  const WRAPPING: seq<byte> :=
    [0x11, 0x13, 0x03, 0xF1] + [0, 0, 0, 0] + [1, 0, 0, 0, 0, 0, 0, 0] + [0, 0, 0, 0] + [0xEC, 0xFF, 0xFF, 0xFF]
    + [0, 0, 0, 0, 0, 0]

  /** Such files exist, whatever the checksum is. */
  lemma WrappingFaults(h: Hash)
    ensures WrapsAfter(h, WRAPPING, 1, []) && Scan(h, WRAPPING, MAGIC_SIZE, 1).fault
  {
    var file := WRAPPING;
    assert file[8..16] == [1, 0, 0, 0, 0, 0, 0, 0];
    assert IdAt(file, 4) == 1 by {
      DecodeZeros([0, 0, 0, 0, 0, 0, 0]);
      assert [1, 0, 0, 0, 0, 0, 0, 0][1..] == [0, 0, 0, 0, 0, 0, 0];
    }
    assert LenAt(file, 4) == 0xFFFF_FFEC by {
      assert file[20..24] == [0xEC, 0xFF, 0xFF, 0xFF];
      assert [0xEC, 0xFF, 0xFF, 0xFF][1..] == [0xFF, 0xFF, 0xFF] && [0xFF, 0xFF, 0xFF][1..] == [0xFF, 0xFF];
      assert [0xFF, 0xFF][1..] == [0xFF] && [0xFF][1..] == [];
      assert Decode([0xFF, 0xFF]) == 0xFFFF && Decode([0xFF, 0xFF, 0xFF]) == 0xFF_FFFF;
    }
    WrapIsReached(h, file, 1, []);
  }

  // ----- what stands behind the last record

  /** The scan finds nothing at `off`, and ends there. */
  predicate NothingAt(h: Hash, file: seq<byte>, off: nat, id: nat)
    requires |file| < U32_RANGE
  {
    Scan(h, file, off, id) == Scanned([], false)
  }

  lemma SlicesFrom(file: seq<byte>, other: seq<byte>, off: nat, i: nat, j: nat)
    requires |file| == |other| && off <= i <= j <= |file| && file[off..] == other[off..]
    ensures file[i..j] == other[i..j]
  {
    SliceOfSlice(file, off, |file|, i - off, j - off);
    SliceOfSlice(other, off, |file|, i - off, j - off);
    assert file[off..|file|] == file[off..] && other[off..|file|] == other[off..];
  }

  /** The scan never looks back. */
  lemma {:induction false} ScanIsForward(h: Hash, file: seq<byte>, other: seq<byte>, off: nat, id: nat)
    requires |file| == |other| < U32_RANGE && off <= |file| && file[off..] == other[off..]
    ensures Scan(h, file, off, id) == Scan(h, other, off, id)
    decreases |file| - off
  {
    hide Scan, Decode;
    ScanUnfolds(h, file, off, id);
    ScanUnfolds(h, other, off, id);
    if off + HEADER_SIZE < |file| {
      SlicesFrom(file, other, off, off, off + 4);
      SlicesFrom(file, other, off, off + 4, off + 12);
      SlicesFrom(file, other, off, off + 12, off + 16);
      SlicesFrom(file, other, off, off + 16, off + 20);
      var next := off + HEADER_SIZE + LenAt(file, off);
      if next <= |file| {
        SlicesFrom(file, other, off, off + 4, next);
        SlicesFrom(file, other, off, off + HEADER_SIZE, next);
        SlicesFrom(file, other, off, next, |file|);
        assert file[next..] == other[next..];
        ScanIsForward(h, file, other, next, id + 1);
      }
    }
  }
}
