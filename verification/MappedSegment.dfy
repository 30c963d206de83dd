/** The offset index of a segment: the file offset of every message, by consecutive id. */
module OffsetIndexes {
  import opened Bytes

  class OffsetIndex {
    const idOffset: nat
    var index: seq<u32>

    constructor (idOffset: nat)
      ensures this.idOffset == idOffset && index == []
    {
      this.idOffset := idOffset;
      index := [];
    }

    /** An id below `idOffset` wraps to an index past the end. */
    function GetOffset(id: nat): (r: Option<u32>)
      reads this
      ensures r.Some? <==> idOffset <= id < idOffset + |index|
      ensures r.Some? ==> r.value == index[id - idOffset]
    {
      if idOffset <= id < idOffset + |index| then Some(index[id - idOffset]) else None
    }

    method PushOffset(id: nat, offset: u32)
      requires id == idOffset + |index|
      modifies this
      ensures index == old(index) + [offset]
      ensures forall k :: GetOffset(k) == if k == id then Some(offset) else old(GetOffset(k))
    {
      index := index + [offset];
    }
  }
}

/** A segment file mapped in memory, with its offset index. */
module MappedSegments {
  import opened Bytes
  import opened Records
  import opened Segments
  import opened OffsetIndexes

  /** Copies `bytes` into the array at `off`. */
  method Store(a: array<byte>, off: nat, bytes: seq<byte>)
    requires off + |bytes| <= a.Length
    modifies a
    ensures a[..] == Splice(old(a[..]), off, bytes)
  {
    for i := 0 to |bytes|
      invariant a[..] == old(a[..])[..off] + bytes[..i] + old(a[..])[off + i..]
    {
      a[off + i] := bytes[i];
    }
  }

  class Segment {
    const hash: Hash
    const data: array<byte>
    const index: OffsetIndex
    var fileOffset: nat
    var firstTimestamp: u32
    var lastTimestamp: u32
    var tail: nat
    var head: nat
    var closed: bool
    ghost var messages: seq<Message>

    ghost function Footprint(): set<object> { {this, data, index} }

    ghost function View(): SegmentView
      reads this, data
    {
      SegmentView(tail, messages, closed, data[..])
    }

    ghost predicate Valid()
      reads Footprint()
    {
      WellFormed(hash, View()) && Tracks()
    }

    /** The in-memory fields and the index describe the messages. */
    ghost predicate Tracks()
      reads this, index
    {
      && head == tail + |messages|
      && fileOffset == End(messages)
      && firstTimestamp == First(messages)
      && lastTimestamp == Last(messages)
      && index.idOffset == tail
      && Indexed(index.index, messages)
    }

    /** Creates the file: zeros behind a magic number. */
    constructor Create(hash: Hash, startId: nat, fileLen: nat)
      requires ValidFileLen(fileLen) && startId <= U64_RANGE
      ensures Valid() && fresh(Footprint())
      ensures View() == Fresh(startId, fileLen) && head == startId && this.hash == hash
    {
      this.hash := hash;
      data := new byte[fileLen](_ => 0);
      index := new OffsetIndex(startId);
      fileOffset, firstTimestamp, lastTimestamp := MAGIC_SIZE, INVALID_TIMESTAMP, INVALID_TIMESTAMP;
      tail, head, closed, messages := startId, startId, false, [];
      new;
      assert data[..] == Zeros(fileLen);
      Store(data, 0, Encode(4, MAGIC_NUM));
    }

    /** Maps an existing file, before recovery. */
    constructor Map(hash: Hash, startId: nat, image: seq<byte>)
      requires ValidFileLen(|image|)
      ensures Unscanned(startId) && fresh(Footprint())
      ensures data[..] == image && this.hash == hash
    {
      this.hash := hash;
      data := new byte[|image|](i requires 0 <= i < |image| => image[i]);
      index := new OffsetIndex(startId);
      fileOffset, firstTimestamp, lastTimestamp := 0, INVALID_TIMESTAMP, INVALID_TIMESTAMP;
      tail, head, closed, messages := startId, startId, false, [];
    }

    ghost predicate Unscanned(startId: nat)
      reads this, index
    {
      && ValidFileLen(data.Length)
      && firstTimestamp == lastTimestamp == INVALID_TIMESTAMP
      && tail == head == index.idOffset == startId
      && messages == [] && index.index == []
    }

    /** Rebuilds the state by rescanning the file; `fault` reports a read outside the file. */
    method Recover(closed: bool) returns (fault: bool)
      requires Unscanned(tail) && tail <= U64_RANGE
      modifies this, data, index
      ensures tail == old(tail)
      ensures match Segments.Open(hash, tail, closed, old(data[..]))
              case Opened(s) => !fault && Valid() && View() == s
              case Fault => fault
              case InvalidFile => false
    {
      hide Scan, Splice, Encode, Indexed, WrappedEnd, LenAt, IdAt, TimestampAt, MessageAt, ChecksumOk, Holds;
      OpenedIsWellFormed(hash, tail, closed, data[..]);
      this.closed := closed;
      fileOffset := MAGIC_SIZE;
      Store(data, 0, Encode(4, MAGIC_NUM));
      ghost var file := data[..];
      IndexedNothing();
      while fileOffset + HEADER_SIZE < data.Length
        invariant data[..] == file && this.closed == closed && tail == old(tail)
        invariant Tracks()
        invariant var rest := Scan(hash, file, fileOffset, head);
                  Scan(hash, file, MAGIC_SIZE, tail) == Scanned(messages + rest.messages, rest.fault)
        decreases data.Length - fileOffset
      {
        label body:
        ScanUnfolds(hash, file, fileOffset, head);
        if IdAt(data[..], fileOffset) != head {
          break;
        }
        if WrappedEnd(data[..], fileOffset) >= data.Length {
          break;
        }
        var total := HEADER_SIZE + LenAt(data[..], fileOffset);
        if fileOffset + total > data.Length {
          return true;
        }
        if !ChecksumOk(hash, data[..], fileOffset) {
          break;
        }
        Publish(TimestampAt(data[..], fileOffset), total, MessageAt(file, fileOffset));
        ScanJoins(
          old@body(messages), MessageAt(file, old@body(fileOffset)), Scan(hash, file, fileOffset, head).messages);
      }
      ScanUnfolds(hash, file, fileOffset, head);
      assert messages + [] == messages;
      fault := false;
    }

    /** The message with this id, if the segment has it. */
    method Get(id: nat) returns (r: Option<Message>)
      requires Valid()
      ensures r == if tail <= id < head then Some(messages[id - tail]) else None
    {
      var offset := index.GetOffset(id);
      if offset.None? {
        return None;
      }
      ghost var k := id - tail;
      assert HoldsOne(hash, data[..], tail, messages, k);
      OffsetStep(messages, k);
      OffsetMonotone(messages, k + 1, |messages|);
      assert messages[..|messages|] == messages;
      var off := offset.value;
      // the three corruption checks
      assert off <= fileOffset;
      assert off + HEADER_SIZE + LenAt(data[..], off) <= fileOffset;
      assert IdAt(data[..], off) == id;
      r := Some(MessageAt(data[..], off));
    }

    /** Appends a message, writing its fields, its body and last its hash, then publishes it. */
    method Push(body: seq<byte>, clock: u32) returns (r: PushResult)
      requires Valid() && head < U64_RANGE
      requires HEADER_SIZE + |body| + MAGIC_SIZE < U32_RANGE
      modifies this, data, index
      ensures Valid()
      ensures (r, View()) == Segments.Push(hash, old(View()), body, clock)
    {
      hide Splice, Record, Holds, Indexed;
      var total := HEADER_SIZE + |body|;
      if total > data.Length - fileOffset {
        if total + MAGIC_SIZE >= data.Length {
          return MessageTooBig;
        }
        closed := true;
        return SegmentFull;
      }
      var id, off := head, fileOffset;
      ghost var v := View();
      var m := Message(clock, body);
      PushKeepsWellFormed(hash, v, body, clock);
      WriteRecord(off, id, m);
      Publish(clock, total, m);
      r := Pushed(id);
    }

    /** The bookkeeping for a record at `fileOffset`; the index entry comes last. */
    method Publish(timestamp: u32, total: nat, ghost m: Message)
      requires Tracks()
      requires m.timestamp == timestamp && Size(m) == total
      requires fileOffset + total < U32_RANGE
      modifies this, index
      ensures Tracks()
      ensures messages == old(messages) + [m] && tail == old(tail) && closed == old(closed)
    {
      EndAppend(messages, m);
      IndexedAppend(index.index, messages, m);
      if firstTimestamp == INVALID_TIMESTAMP {
        firstTimestamp := timestamp;
      }
      lastTimestamp := timestamp;
      fileOffset := fileOffset + total;
      head := head + 1;
      index.PushOffset(head - 1, fileOffset - total);
      messages := messages + [m];
      assert messages[..|messages| - 1] == old(messages);
    }

    /** The field-by-field writes of one record; the hash comes last. */
    method WriteRecord(off: nat, id: nat, m: Message)
      requires off + Size(m) <= data.Length
      modifies data
      ensures data[..] == Splice(old(data[..]), off, Record(hash, id, m))
    {
      hide Splice, Encode, Payload;
      ghost var file := data[..];
      WritePayload(off + 4, id, m);
      assert data[off + 4..off + Size(m)] == data[..][off + 4..off + Size(m)] == Payload(id, m);
      Store(data, off, Encode(4, hash(data[off + 4..off + Size(m)])));
      SpliceAdjacent(file, off, Encode(4, hash(Payload(id, m))), Payload(id, m));
    }

    method WritePayload(off: nat, id: nat, m: Message)
      requires off + Size(m) - 4 <= data.Length
      modifies data
      ensures data[..] == Splice(old(data[..]), off, Payload(id, m))
    {
      hide Splice, Encode;
      ghost var file := data[..];
      Store(data, off, Encode(8, id));
      Store(data, off + 8, Encode(4, m.timestamp));
      ghost var p := Encode(8, id) + Encode(4, m.timestamp);
      SpliceAdjacent(file, off, Encode(8, id), Encode(4, m.timestamp));
      Store(data, off + 12, Encode(4, |m.body|));
      SpliceAdjacent(file, off, p, Encode(4, |m.body|));
      Store(data, off + 16, m.body);
      SpliceAdjacent(file, off, p + Encode(4, |m.body|), m.body);
    }
  }

  /** The index lists the offset of each message. */
  ghost predicate Indexed(index: seq<u32>, ms: seq<Message>) {
    && |index| == |ms|
    && forall k :: 0 <= k < |ms| ==> index[k] == Offset(ms, k)
  }

  lemma IndexedNothing()
    ensures Indexed([], [])
  {
  }

  lemma ScanJoins(ms: seq<Message>, m: Message, rest: seq<Message>)
    ensures ms + ([m] + rest) == (ms + [m]) + rest
  {
  }

  lemma IndexedAppend(index: seq<u32>, ms: seq<Message>, m: Message)
    requires Indexed(index, ms) && End(ms) < U32_RANGE
    ensures Indexed(index + [End(ms)], ms + [m])
  {
    forall k | 0 <= k < |ms + [m]|
      ensures (index + [End(ms)])[k] == Offset(ms + [m], k)
    {
      OffsetOfPrefix(ms, [m], k);
      assert ms[..|ms|] == ms;
    }
  }
}
