/**
 * One writer and many readers on a segment, step by step: the writer stores a record byte by byte,
 * then updates the bookkeeping fields, then publishes the offset; readers look offsets up, make
 * their three corruption checks and read, each at any moment in between.
 */
module SharedSegment {
  import opened Bytes
  import opened Records
  import opened Segments

  datatype Writer =
    | Resting
    | Storing(m: Message, done: nat)
    | StampingFirst(m: Message)
    | StampingLast(m: Message)
    | Moving(m: Message)
    | Counting(m: Message)
    | Publishing(m: Message)

  datatype Reader =
    | Away
    | FoundOffset(id: nat, off: nat)
    | StartChecked(id: nat, off: nat)
    | EndChecked(id: nat, off: nat)
    | Holding(id: nat, off: nat)
    | Failed

  /** The shared segment. `published` is what the index makes visible to readers. */
  datatype Shared = Shared(
    tail: nat, file: seq<byte>, fileOffset: nat, head: nat,
    firstTimestamp: u32, lastTimestamp: u32, index: seq<nat>,
    published: seq<Message>, writer: Writer, readers: seq<Reader>)

  datatype Move =
    | Begin(body: seq<byte>, clock: u32)
    | Write
    | Lookup(reader: nat, id: nat)
    | Read(reader: nat)

  function Start(tail: nat, fileLen: nat, readers: nat): Shared
    requires ValidFileLen(fileLen)
  {
    Shared(tail, Fresh(tail, fileLen).file, MAGIC_SIZE, tail, INVALID_TIMESTAMP, INVALID_TIMESTAMP, [], [],
           Resting, seq(readers, _ => Away))
  }

  /** The order of the byte stores of a record: everything after the hash, then the hash. */
  function StorePos(off: nat, m: Message, j: nat): nat {
    if j < Size(m) - 4 then off + 4 + j else off + (j - (Size(m) - 4))
  }

  function StoreByte(h: Hash, id: nat, m: Message, j: nat): byte
    requires j < Size(m)
  {
    if j < Size(m) - 4 then Payload(id, m)[j] else Encode(4, h(Payload(id, m)))[j - (Size(m) - 4)]
  }

  /** The next step of the writer. */
  function WriterStep(h: Hash, s: Shared): Shared
    requires s.writer.Storing? ==> s.fileOffset + Size(s.writer.m) <= |s.file|
    requires s.writer.Publishing? ==> s.fileOffset >= Size(s.writer.m)
  {
    var off := s.fileOffset;
    match s.writer
    case Resting => s
    case Storing(m, done) =>
      if done < Size(m) then
        s.(file := s.file[StorePos(off, m, done) := StoreByte(h, s.head, m, done)], writer := Storing(m, done + 1))
      else
        s.(writer := StampingFirst(m))
    case StampingFirst(m) =>
      s.(firstTimestamp := if s.firstTimestamp == INVALID_TIMESTAMP then m.timestamp else s.firstTimestamp,
         writer := StampingLast(m))
    case StampingLast(m) => s.(lastTimestamp := m.timestamp, writer := Moving(m))
    case Moving(m) => s.(fileOffset := s.fileOffset + Size(m), writer := Counting(m))
    case Counting(m) => s.(head := s.head + 1, writer := Publishing(m))
    case Publishing(m) =>
      s.(index := s.index + [s.fileOffset - Size(m)], published := s.published + [m], writer := Resting)
  }

  /** The next check or read of a reader that has found an offset. */
  function ReaderStep(s: Shared, r: Reader): Reader {
    match r
    case FoundOffset(id, off) => if off <= s.fileOffset then StartChecked(id, off) else Failed
    case StartChecked(id, off) =>
      if off + HEADER_SIZE <= |s.file| && off + HEADER_SIZE + LenAt(s.file, off) <= s.fileOffset then
        EndChecked(id, off)
      else Failed
    case EndChecked(id, off) =>
      if off + HEADER_SIZE <= |s.file| && IdAt(s.file, off) == id then Holding(id, off) else Failed
    case _ => r
  }

  ghost predicate Can(s: Shared, move: Move) {
    match move
    case Begin(body, _) =>
      s.writer.Resting? && s.fileOffset + HEADER_SIZE + |body| <= |s.file| && s.head < U64_RANGE
    case Write =>
      && (s.writer.Storing? ==> s.fileOffset + Size(s.writer.m) <= |s.file|)
      && (s.writer.Publishing? ==> s.fileOffset >= Size(s.writer.m))
    case Lookup(r, _) => r < |s.readers|
    case Read(r) => r < |s.readers|
  }

  ghost function Do(h: Hash, s: Shared, move: Move): Shared
    requires Can(s, move)
  {
    match move
    case Begin(body, clock) => s.(writer := Storing(Message(clock, body), 0))
    case Write => WriterStep(h, s)
    case Lookup(r, id) =>
      s.(readers := s.readers[r :=
        if s.tail <= id < s.tail + |s.index| then FoundOffset(id, s.index[id - s.tail]) else Away])
    case Read(r) => s.(readers := s.readers[r := ReaderStep(s, s.readers[r])])
  }

  // ----- the invariant

  /** What the writer has done so far towards its record. */
  ghost predicate WriterOk(h: Hash, s: Shared) {
    var off, id := End(s.published), s.tail + |s.published|;
    match s.writer
    case Resting => s.fileOffset == off && s.head == id
    case Storing(m, done) =>
      && s.fileOffset == off && s.head == id && id < U64_RANGE
      && off + Size(m) <= |s.file| && StoredUpTo(h, s.file, off, id, m, done)
    case StampingFirst(m) => s.fileOffset == off && s.head == id && RecordAt(h, s.file, off, id, m)
    case StampingLast(m) => s.fileOffset == off && s.head == id && RecordAt(h, s.file, off, id, m)
    case Moving(m) => s.fileOffset == off && s.head == id && RecordAt(h, s.file, off, id, m)
    case Counting(m) => s.fileOffset == off + Size(m) && s.head == id && RecordAt(h, s.file, off, id, m)
    case Publishing(m) => s.fileOffset == off + Size(m) && s.head == id + 1 && RecordAt(h, s.file, off, id, m)
  }

  ghost predicate Stored(h: Hash, file: seq<byte>, off: nat, id: nat, m: Message, j: nat)
    requires j < Size(m) && off + Size(m) <= |file|
  {
    file[StorePos(off, m, j)] == StoreByte(h, id, m, j)
  }

  ghost predicate StoredUpTo(h: Hash, file: seq<byte>, off: nat, id: nat, m: Message, done: nat)
    requires off + Size(m) <= |file|
  {
    done <= Size(m) && forall j :: 0 <= j < done ==> Stored(h, file, off, id, m, j)
  }

  /** Everything published is a complete record, and the index says where. */
  ghost predicate PublishedOk(h: Hash, s: Shared) {
    && MAGIC_SIZE <= End(s.published) <= |s.file| < U32_RANGE
    && Holds(h, s.file, s.tail, s.published)
    && |s.index| == |s.published|
    && forall k :: 0 <= k < |s.index| ==> s.index[k] == Offset(s.published, k)
  }

  ghost predicate Points(s: Shared, id: nat, off: nat) {
    && s.tail <= id < s.tail + |s.published|
    && off == Offset(s.published, id - s.tail)
  }

  ghost predicate ReaderOk(s: Shared, r: Reader) {
    match r
    case Away => true
    case FoundOffset(id, off) => Points(s, id, off)
    case StartChecked(id, off) => Points(s, id, off)
    case EndChecked(id, off) => Points(s, id, off)
    case Holding(id, off) => Points(s, id, off)
    case Failed => false
  }

  ghost predicate Good(h: Hash, s: Shared) {
    && PublishedOk(h, s)
    && WriterOk(h, s)
    && forall i :: 0 <= i < |s.readers| ==> ReaderOk(s, s.readers[i])
  }

  // ----- the writer

  lemma StoreKeeps(h: Hash, s: Shared)
    requires PublishedOk(h, s) && WriterOk(h, s) && s.writer.Storing? && s.writer.done < Size(s.writer.m)
    ensures var s' := WriterStep(h, s);
            PublishedOk(h, s') && WriterOk(h, s')
  {
    hide RecordAt, StoreByte;
    var off, id, m, done := End(s.published), s.tail + |s.published|, s.writer.m, s.writer.done;
    var s' := WriterStep(h, s);
    assert s'.file[..off] == s.file[..off];
    HoldsIsLocal(h, s.file, s'.file, s.tail, s.published);
    forall j | 0 <= j < done + 1
      ensures Stored(h, s'.file, off, id, m, j)
    {
      assert j < done ==> Stored(h, s.file, off, id, m, j);
    }
  }

  /** Once every byte is stored, the record is complete. */
  lemma StoredIsRecord(h: Hash, file: seq<byte>, off: nat, id: u64, m: Message)
    requires off + Size(m) <= |file| < U32_RANGE
    requires StoredUpTo(h, file, off, id, m, Size(m))
    ensures RecordAt(h, file, off, id, m)
  {
    hide RecordAt, Encode, Payload;
    var rec := Record(h, id, m);
    forall i | 0 <= i < Size(m)
      ensures file[off..off + Size(m)][i] == rec[i]
    {
      var j := if i >= 4 then i - 4 else Size(m) - 4 + i;
      assert Stored(h, file, off, id, m, j);
    }
    assert file[off..off + Size(m)] == rec;
    RecordReadsBack(h, file, off, id, m);
  }

  lemma PublishKeeps(h: Hash, s: Shared)
    requires PublishedOk(h, s) && WriterOk(h, s) && s.writer.Publishing?
    ensures var s' := WriterStep(h, s);
            PublishedOk(h, s') && WriterOk(h, s')
  {
    var m, ms := s.writer.m, s.published;
    assert End(ms) + Size(m) <= |s.file|;
    hide RecordAt;
    EndAppend(ms, m);
    HoldsExtend(h, s.file, s.tail, ms, m);
    hide Holds, End;
    var s' := WriterStep(h, s);
    forall k | 0 <= k < |s'.index|
      ensures s'.index[k] == Offset(s'.published, k)
    {
      OffsetOfPrefix(ms, [m], k);
      assert ms[..|ms|] == ms;
    }
  }

  lemma WriterKeeps(h: Hash, s: Shared)
    requires PublishedOk(h, s) && WriterOk(h, s)
    ensures var s' := WriterStep(h, s);
            && PublishedOk(h, s') && WriterOk(h, s')
            && s.published <= s'.published && s'.tail == s.tail && s'.readers == s.readers
  {
    hide RecordAt, Holds, StoreByte;
    if s.writer.Storing? {
      if s.writer.done < Size(s.writer.m) {
        StoreKeeps(h, s);
      } else {
        StoredIsRecord(h, s.file, End(s.published), s.tail + |s.published|, s.writer.m);
      }
    } else if s.writer.Publishing? {
      PublishKeeps(h, s);
    }
  }

  // ----- the readers

  /** Published offsets stay where they are while more is published. */
  lemma PointsStays(s: Shared, s': Shared, id: nat, off: nat)
    requires Points(s, id, off) && s.published <= s'.published && s'.tail == s.tail
    ensures Points(s', id, off)
  {
    var more := s'.published[|s.published|..];
    assert s'.published == s.published + more;
    OffsetOfPrefix(s.published, more, id - s.tail);
  }

  lemma ReaderStays(s: Shared, s': Shared, r: Reader)
    requires ReaderOk(s, r) && s.published <= s'.published && s'.tail == s.tail
    ensures ReaderOk(s', r)
  {
    if !r.Away? {
      PointsStays(s, s', r.id, r.off);
    }
  }

  /** At a published offset all three checks pass, whatever the writer is doing. */
  lemma ChecksPass(h: Hash, s: Shared, id: nat, off: nat)
    requires PublishedOk(h, s) && WriterOk(h, s) && Points(s, id, off)
    ensures off + HEADER_SIZE <= |s.file|
    ensures off <= s.fileOffset
    ensures off + HEADER_SIZE + LenAt(s.file, off) <= s.fileOffset <= |s.file|
    ensures IdAt(s.file, off) == id
    ensures MessageAt(s.file, off) == s.published[id - s.tail]
  {
    hide LenAt, IdAt, MessageAt, ChecksumOk;
    var k := id - s.tail;
    assert HoldsOne(h, s.file, s.tail, s.published, k);
    OffsetStep(s.published, k);
    OffsetMonotone(s.published, k + 1, |s.published|);
    assert s.published[..|s.published|] == s.published;
  }

  lemma ReadKeeps(h: Hash, s: Shared, r: Reader)
    requires PublishedOk(h, s) && WriterOk(h, s) && ReaderOk(s, r)
    ensures ReaderOk(s, ReaderStep(s, r))
  {
    hide PublishedOk, WriterOk, Points, LenAt, IdAt;
    if !r.Away? {
      ChecksPass(h, s, r.id, r.off);
    }
  }

  // ----- runs

  /** The parts of the invariant that do not look at the readers. */
  lemma ReadersAreFree(h: Hash, s: Shared, readers: seq<Reader>)
    requires PublishedOk(h, s) && WriterOk(h, s)
    ensures PublishedOk(h, s.(readers := readers)) && WriterOk(h, s.(readers := readers))
  {
    hide Holds, RecordAt, StoredUpTo;
  }

  lemma BeginKeeps(h: Hash, s: Shared, m: Message)
    requires PublishedOk(h, s) && WriterOk(h, s) && s.writer.Resting?
    requires s.fileOffset + Size(m) <= |s.file| && s.head < U64_RANGE
    ensures PublishedOk(h, s.(writer := Storing(m, 0))) && WriterOk(h, s.(writer := Storing(m, 0)))
  {
    hide Holds, RecordAt;
  }

  lemma LookupKeeps(h: Hash, s: Shared, id: nat)
    requires PublishedOk(h, s) && s.tail <= id < s.tail + |s.index|
    ensures Points(s, id, s.index[id - s.tail])
  {
    hide Holds;
  }

  lemma StepKeepsGood(h: Hash, s: Shared, move: Move)
    requires Good(h, s) && Can(s, move)
    ensures var s' := Do(h, s, move);
            Good(h, s') && s.published <= s'.published && s'.tail == s.tail
  {
    hide PublishedOk, WriterOk, WriterStep, Points, ReaderStep;
    var s' := Do(h, s, move);
    match move {
      case Begin(body, clock) => BeginKeeps(h, s, Message(clock, body));
      case Write => WriterKeeps(h, s);
      case Lookup(r, id) =>
        ReadersAreFree(h, s, s'.readers);
        if s.tail <= id < s.tail + |s.index| {
          LookupKeeps(h, s, id);
        }
      case Read(r) =>
        ReadersAreFree(h, s, s'.readers);
        ReadKeeps(h, s, s.readers[r]);
        ReaderStays(s, s', s'.readers[r]);
    }
    forall i | 0 <= i < |s'.readers|
      ensures ReaderOk(s', s'.readers[i])
    {
      ReaderStays(s, s', s.readers[i]);
      if move.Lookup? && i == move.reader && s'.readers[i].FoundOffset? {
        PointsStays(s, s', s'.readers[i].id, s'.readers[i].off);
      }
    }
  }

  ghost predicate IsRun(h: Hash, states: seq<Shared>, moves: seq<Move>) {
    && |states| == |moves| + 1
    && Good(h, states[0])
    && forall i :: 0 <= i < |moves| ==> IsStep(h, states[i], moves[i], states[i + 1])
  }

  ghost predicate IsStep(h: Hash, s: Shared, move: Move, s': Shared) {
    Can(s, move) && s' == Do(h, s, move)
  }

  lemma StartIsGood(h: Hash, tail: nat, fileLen: nat, readers: nat)
    requires ValidFileLen(fileLen)
    ensures Good(h, Start(tail, fileLen, readers))
  {
    HoldsNothing(h, Start(tail, fileLen, readers).file, tail);
  }

  lemma {:induction false} RunIsGood(h: Hash, states: seq<Shared>, moves: seq<Move>, i: nat, j: nat)
    requires IsRun(h, states, moves) && i <= j < |states|
    ensures Good(h, states[j])
    ensures states[i].published <= states[j].published && states[j].tail == states[i].tail
    decreases j
  {
    hide Good, Can, Do;
    if j > 0 {
      RunIsGood(h, states, moves, if i < j then i else j - 1, j - 1);
      assert IsStep(h, states[j - 1], moves[j - 1], states[j]);
      StepKeepsGood(h, states[j - 1], moves[j - 1]);
    }
  }

  /** Over every interleaving no corruption check ever fails. */
  lemma ChecksNeverFail(h: Hash, states: seq<Shared>, moves: seq<Move>, i: nat, r: nat)
    requires IsRun(h, states, moves) && i < |states| && r < |states[i].readers|
    ensures !states[i].readers[r].Failed?
  {
    RunIsGood(h, states, moves, i, i);
  }

  /** What a reader holds is the complete message that was pushed, now and in every later state. */
  lemma HeldIsComplete(h: Hash, states: seq<Shared>, moves: seq<Move>, i: nat, j: nat, r: nat)
    requires IsRun(h, states, moves) && i <= j < |states|
    requires r < |states[i].readers| && states[i].readers[r].Holding?
    ensures var id, off := states[i].readers[r].id, states[i].readers[r].off;
            && states[i].tail <= id < states[i].tail + |states[i].published|
            && off + HEADER_SIZE <= |states[j].file|
            && off + HEADER_SIZE + LenAt(states[j].file, off) <= |states[j].file|
            && IdAt(states[j].file, off) == id
            && MessageAt(states[j].file, off) == states[i].published[id - states[i].tail]
  {
    RunIsGood(h, states, moves, i, i);
    RunIsGood(h, states, moves, i, j);
    var id, off := states[i].readers[r].id, states[i].readers[r].off;
    assert ReaderOk(states[i], states[i].readers[r]);
    hide IsRun, PublishedOk, WriterOk, LenAt, IdAt, MessageAt;
    PointsStays(states[i], states[j], id, off);
    ChecksPass(h, states[j], id, off);
  }

  // ----- progress

  /** The steps a writer still has to take. */
  function StepsLeft(w: Writer): nat {
    match w
    case Resting => 0
    case Storing(m, done) => (if done < Size(m) then Size(m) - done else 0) + 6
    case StampingFirst(_) => 5
    case StampingLast(_) => 4
    case Moving(_) => 3
    case Counting(_) => 2
    case Publishing(_) => 1
  }

  /** What the segment will be when the writer has finished. */
  ghost predicate Completes(s: Shared, s': Shared, m: Message) {
    && s'.published == s.published + [m] && s'.head == s'.tail + |s'.published|
    && s'.tail == s.tail && s'.readers == s.readers && s'.writer.Resting?
    && s'.lastTimestamp == m.timestamp
    && (s.firstTimestamp != INVALID_TIMESTAMP ==> s'.firstTimestamp == s.firstTimestamp)
    && (s.firstTimestamp == INVALID_TIMESTAMP ==> s'.firstTimestamp == m.timestamp)
  }

  /** The writer's own steps, with nobody in between. */
  ghost function Writes(h: Hash, s: Shared, n: nat): (s': Shared)
    requires PublishedOk(h, s) && WriterOk(h, s)
    ensures PublishedOk(h, s') && WriterOk(h, s')
    decreases n
  {
    if n == 0 then s
    else
      WriterKeeps(h, s);
      Writes(h, WriterStep(h, s), n - 1)
  }

  /** A push that has begun is published after as many steps as its record has bytes and six more. */
  lemma WriterFinishes(h: Hash, s: Shared, body: seq<byte>, clock: u32)
    requires PublishedOk(h, s) && WriterOk(h, s) && Can(s, Begin(body, clock))
    ensures var m := Message(clock, body);
            var s1 := Do(h, s, Begin(body, clock));
            PublishedOk(h, s1) && WriterOk(h, s1) && Completes(s, Writes(h, s1, Size(m) + 6), m)
  {
    var m := Message(clock, body);
    BeginKeeps(h, s, m);
    hide PublishedOk, WriterOk;
    StoringFinishes(h, s.(writer := Storing(m, 0)));
  }

  lemma {:induction false} StoringFinishes(h: Hash, s: Shared)
    requires PublishedOk(h, s) && WriterOk(h, s) && s.writer.Storing? && s.writer.done <= Size(s.writer.m)
    ensures Completes(s, Writes(h, s, StepsLeft(s.writer)), s.writer.m)
    decreases StepsLeft(s.writer)
  {
    WriterKeeps(h, s);
    var s1 := WriterStep(h, s);
    hide RecordAt, Holds, StoreByte, StoredUpTo;
    if s.writer.done < Size(s.writer.m) {
      StoringFinishes(h, s1);
    } else {
      StampingFinishes(h, s1);
    }
  }

  lemma StampingFinishes(h: Hash, s: Shared)
    requires PublishedOk(h, s) && WriterOk(h, s) && s.writer.StampingFirst?
    ensures Completes(s, Writes(h, s, 5), s.writer.m)
  {
    hide RecordAt, Holds, End;
    WriterKeeps(h, s);
    var s1 := WriterStep(h, s);
    WriterKeeps(h, s1);
    var s2 := WriterStep(h, s1);
    WriterKeeps(h, s2);
    var s3 := WriterStep(h, s2);
    WriterKeeps(h, s3);
    var s4 := WriterStep(h, s3);
    WriterKeeps(h, s4);
    var s5 := WriterStep(h, s4);
    assert Writes(h, s, 5) == Writes(h, s1, 4) == Writes(h, s2, 3) == Writes(h, s3, 2) == Writes(h, s4, 1) == s5;
  }

  /**
   * A lookup finds exactly the published ids; each read of its reader then passes one check, until
   * after the third it holds that id; no other move disturbs it.
   */
  lemma ReaderAdvances(h: Hash, s: Shared, move: Move, r: nat)
    requires Good(h, s) && Can(s, move) && r < |s.readers|
    ensures var was, now := s.readers[r], Do(h, s, move).readers[r];
            if move.Lookup? && move.reader == r then
              if s.tail <= move.id < s.tail + |s.published| then now.FoundOffset? && now.id == move.id else now.Away?
            else if move.Read? && move.reader == r then
              match was
              case FoundOffset(id, off) => now == StartChecked(id, off)
              case StartChecked(id, off) => now == EndChecked(id, off)
              case EndChecked(id, off) => now == Holding(id, off)
              case _ => now == was
            else now == was
  {
    assert ReaderOk(s, s.readers[r]);
    if !s.readers[r].Away? {
      ChecksPass(h, s, s.readers[r].id, s.readers[r].off);
    }
    WriterKeeps(h, s);
    hide WriterOk, Holds, LenAt, IdAt, WriterStep;
  }
}
