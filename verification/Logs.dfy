/** The segmented log as a value, and the sorted map from id to message that it stands for. */
module Logs {
  import opened Bytes
  import opened Records
  import opened Segments

  datatype Config = Config(
    segmentSize: nat, messageTimeout: u32,
    retentionPeriod: u32, hardRetentionPeriod: u32,
    retentionSize: nat, hardRetentionSize: nat)

  datatype Log = Log(segments: seq<SegmentView>, head: nat, tail: nat)

  datatype Entry = Entry(id: nat, message: Message)

  const Empty := Log([], 1, 1)

  // ----- the simple reading: a map from id to message

  function Part(s: SegmentView): map<nat, Message> {
    map id: nat | id < s.Head() && s.Has(id) :: s.At(id)
  }

  function Contents(segs: seq<SegmentView>): map<nat, Message> {
    if segs == [] then map[] else Contents(segs[1..]) + Part(segs[0])
  }

  /** The stored message with the smallest id at or above `id`, or none if there is no such message. */
  ghost predicate IsCeiling(stored: map<nat, Message>, id: nat, r: Option<Entry>) {
    match r
    case None => forall k :: k in stored ==> k < id
    case Some(e) =>
      && e.id >= id && e.id in stored && stored[e.id] == e.message
      && forall k :: k in stored && k >= id ==> k >= e.id
  }

  // ----- shape

  /** Segments are ordered by id and do not overlap; there may be holes between them. */
  ghost predicate Ordered(segs: seq<SegmentView>) {
    forall i, j :: 0 <= i < j < |segs| ==> segs[i].Head() <= segs[j].tail
  }

  ghost predicate AllWellFormed(h: Hash, segs: seq<SegmentView>) {
    forall i :: 0 <= i < |segs| ==> WellFormed(h, segs[i])
  }

  /** What every operation keeps: order, one place to append, and everything before it closed. */
  ghost predicate Shape(h: Hash, log: Log) {
    && AllWellFormed(h, log.segments)
    && Ordered(log.segments)
    && (forall i :: 0 <= i < |log.segments| - 1 ==> log.segments[i].closed)
    && (log.segments != [] ==> log.segments[|log.segments| - 1].Head() == log.head)
    && log.tail <= log.head <= U64_RANGE
  }

  // ----- lookup

  /** The first segment with messages whose head is past `id`, or the number of segments. */
  function FindSegment(segs: seq<SegmentView>, id: nat): (i: nat)
    ensures i <= |segs|
    ensures i < |segs| ==> id < segs[i].Head() && segs[i].tail < segs[i].Head()
    ensures forall j :: 0 <= j < i ==> segs[j].Head() <= id || segs[j].tail == segs[j].Head()
  {
    if segs == [] then 0
    else if id < segs[0].Head() && segs[0].tail < segs[0].Head() then 0
    else 1 + FindSegment(segs[1..], id)
  }

  function Max(a: nat, b: nat): nat { if a >= b then a else b }

  function Get(segs: seq<SegmentView>, id: nat): Option<Entry> {
    var i := FindSegment(segs, id);
    if i == |segs| then None
    else
      var k := Max(id, segs[i].tail);
      Some(Entry(k, segs[i].messages[k - segs[i].tail]))
  }

  lemma {:induction false} ContentsBounds(segs: seq<SegmentView>, id: nat)
    requires Ordered(segs) && id in Contents(segs)
    ensures segs != [] && segs[0].tail <= id < segs[|segs| - 1].Head()
  {
    if id in Contents(segs[1..]) {
      ContentsBounds(segs[1..], id);
    }
  }

  /** The segmented lookup refines the ceiling lookup of the sorted map. */
  lemma {:induction false} GetIsCeiling(segs: seq<SegmentView>, id: nat)
    requires Ordered(segs)
    ensures IsCeiling(Contents(segs), id, Get(segs, id))
  {
    if segs != [] {
      var s, rest := segs[0], segs[1..];
      forall k | k in Contents(rest)
        ensures s.Head() <= k
      {
        ContentsBounds(rest, k);
      }
      if id < s.Head() && s.tail < s.Head() {
        CeilingHere(Contents(rest), s, id);
      } else {
        hide Get;
        GetSkips(segs, id);
        GetIsCeiling(rest, id);
        CeilingLater(Contents(rest), s, id, Get(rest, id));
      }
    }
  }

  lemma CeilingHere(rest: map<nat, Message>, s: SegmentView, id: nat)
    requires id < s.Head() && s.tail < s.Head()
    requires forall k :: k in rest ==> s.Head() <= k
    ensures s.Has(Max(id, s.tail))
    ensures IsCeiling(rest + Part(s), id, Some(Entry(Max(id, s.tail), s.At(Max(id, s.tail)))))
  {
    assert Max(id, s.tail) in Part(s);
  }

  lemma CeilingLater(rest: map<nat, Message>, s: SegmentView, id: nat, r: Option<Entry>)
    requires IsCeiling(rest, id, r) && (id >= s.Head() || s.tail == s.Head())
    requires forall k :: k in rest ==> s.Head() <= k
    ensures IsCeiling(rest + Part(s), id, r)
  {
  }

  lemma GetSkips(segs: seq<SegmentView>, id: nat)
    requires segs != [] && !(id < segs[0].Head() && segs[0].tail < segs[0].Head())
    ensures Get(segs, id) == Get(segs[1..], id)
  {
  }

  /** Two answers to the same ceiling lookup are equal. */
  lemma CeilingIsUnique(stored: map<nat, Message>, id: nat, a: Option<Entry>, b: Option<Entry>)
    requires IsCeiling(stored, id, a) && IsCeiling(stored, id, b)
    ensures a == b
  {
  }

  // ----- appending

  /** Creates a new segment at the head and appends there. */
  function Roll(h: Hash, size: nat, log: Log, body: seq<byte>, clock: u32): (r: (PushResult, Log)) {
    if !ValidFileLen(size) then (SegmentFileInvalid, log)
    else
      var (r, s) := Segments.Push(h, Fresh(log.head, size), body, clock);
      (r, Log(log.segments + [s], if r.Pushed? then log.head + 1 else log.head, log.tail))
  }

  function Push(h: Hash, size: nat, log: Log, body: seq<byte>, clock: u32): (r: (PushResult, Log)) {
    if log.segments == [] then Roll(h, size, log, body, clock)
    else
      var n := |log.segments| - 1;
      var (r, s) := Segments.Push(h, log.segments[n], body, clock);
      var log' := log.(segments := log.segments[..n] + [s]);
      match r
      case Pushed(_) => (r, log'.(head := log.head + 1))
      case SegmentFull => Roll(h, size, log', body, clock)
      case _ => (r, log')
  }

  lemma RollKeepsShape(h: Hash, size: nat, log: Log, body: seq<byte>, clock: u32)
    requires Shape(h, log) && log.head < U64_RANGE
    requires forall i :: 0 <= i < |log.segments| ==> log.segments[i].closed
    ensures Shape(h, Roll(h, size, log, body, clock).1)
  {
    if ValidFileLen(size) {
      var s0 := Fresh(log.head, size);
      HoldsNothing(h, s0.file, log.head);
      hide Splice, Holds, Zeros;
      PushKeepsWellFormed(h, s0, body, clock);
      var (r, s) := Segments.Push(h, s0, body, clock);
      assert s.tail == log.head && s.Head() == if r.Pushed? then log.head + 1 else log.head;
      hide WellFormed, Segments.Push, Fresh;
      EndsByLast(log.segments);
      OrderedAppend(log.segments, s);
      hide Ordered;
    }
  }

  lemma OrderedAppend(segs: seq<SegmentView>, s: SegmentView)
    requires Ordered(segs) && (segs != [] ==> AllEndBy(segs, s.tail))
    ensures Ordered(segs + [s])
  {
  }

  lemma PushKeepsShape(h: Hash, size: nat, log: Log, body: seq<byte>, clock: u32)
    requires Shape(h, log) && log.head < U64_RANGE
    ensures Shape(h, Push(h, size, log, body, clock).1)
  {
    hide Splice, Holds, Roll;
    if log.segments != [] {
      var n := |log.segments| - 1;
      PushKeepsWellFormed(h, log.segments[n], body, clock);
      var (r, s) := Segments.Push(h, log.segments[n], body, clock);
      var log' := log.(segments := log.segments[..n] + [s]);
      if r.SegmentFull? {
        RollKeepsShape(h, size, log', body, clock);
      }
    } else {
      RollKeepsShape(h, size, log, body, clock);
    }
  }

  /** Every segment ends at or before id `t`. */
  ghost predicate AllEndBy(segs: seq<SegmentView>, t: nat) {
    forall i :: 0 <= i < |segs| ==> segs[i].Head() <= t
  }

  lemma {:induction false} ContentsAppend(segs: seq<SegmentView>, s: SegmentView)
    requires AllEndBy(segs, s.tail)
    ensures Contents(segs + [s]) == Contents(segs) + Part(s)
  {
    if segs == [] {
      assert segs + [s] == [s];
    } else {
      assert (segs + [s])[1..] == segs[1..] + [s];
      ContentsAppend(segs[1..], s);
      PartsCommute(Contents(segs[1..]), segs[0], s);
    }
  }

  lemma PartsCommute(m: map<nat, Message>, a: SegmentView, b: SegmentView)
    requires a.Head() <= b.tail
    ensures m + Part(a) + Part(b) == m + Part(b) + Part(a)
  {
    assert forall id :: !(a.Has(id) && b.Has(id));
  }

  /** What an append to a segment does to its part of the map. */
  lemma PartAfterPush(h: Hash, s: SegmentView, body: seq<byte>, clock: u32)
    ensures var (r, s') := Segments.Push(h, s, body, clock);
            && s'.tail == s.tail
            && (r.Pushed? ==>
                  r.id == s.Head() && s'.Head() == s.Head() + 1
                  && Part(s') == Part(s)[s.Head() := Message(clock, body)])
            && (!r.Pushed? ==> s'.Head() == s.Head() && Part(s') == Part(s))
  {
    hide Splice, Record;
    var (r, s') := Segments.Push(h, s, body, clock);
    assert forall id :: s.Has(id) ==> s'.Has(id) && s'.At(id) == s.At(id);
    assert r.Pushed? ==> s'.Has(s.Head());
  }

  /** The log after an append: the same map, with the message under the next id if it was accepted. */
  ghost predicate Extends(log: Log, body: seq<byte>, clock: u32, r: PushResult, log': Log) {
    && log'.tail == log.tail
    && (r.Pushed? ==>
          && r.id == log.head && log'.head == log.head + 1
          && Contents(log'.segments) == Contents(log.segments)[log.head := Message(clock, body)])
    && (!r.Pushed? ==> log'.head == log.head && Contents(log'.segments) == Contents(log.segments))
  }

  /** An append adds exactly its message under the next id; a refused one leaves the map as it was. */
  lemma PushExtends(h: Hash, size: nat, log: Log, body: seq<byte>, clock: u32)
    requires Shape(h, log) && log.head < U64_RANGE
    ensures var (r, log') := Push(h, size, log, body, clock);
            Extends(log, body, clock, r, log')
  {
    hide Segments.Push, WellFormed, Roll, Contents, Part;
    if log.segments == [] {
      RollExtends(h, size, log, body, clock);
    } else {
      var n := |log.segments| - 1;
      var init, last := log.segments[..n], log.segments[n];
      assert log.segments == init + [last];
      var (r, s) := Segments.Push(h, last, body, clock);
      PartAfterPush(h, last, body, clock);
      assert AllEndBy(init, last.tail);
      ContentsAppend(init, last);
      ContentsAppend(init, s);
      if r.SegmentFull? {
        RollExtends(h, size, log.(segments := init + [s]), body, clock);
      }
    }
  }

  lemma EndsByLast(segs: seq<SegmentView>)
    requires Ordered(segs)
    ensures segs != [] ==> AllEndBy(segs, segs[|segs| - 1].Head())
  {
    if segs != [] {
      assert forall i :: 0 <= i < |segs| - 1 ==> segs[i].Head() <= segs[|segs| - 1].tail;
    }
  }

  lemma RollExtends(h: Hash, size: nat, log: Log, body: seq<byte>, clock: u32)
    requires Ordered(log.segments)
    requires log.segments != [] ==> log.segments[|log.segments| - 1].Head() == log.head
    ensures var (r, log') := Roll(h, size, log, body, clock);
            Extends(log, body, clock, r, log')
  {
    hide Segments.Push, Splice, Contents, Ordered;
    if ValidFileLen(size) {
      var s0 := Fresh(log.head, size);
      var (r, s) := Segments.Push(h, s0, body, clock);
      PartAfterPush(h, s0, body, clock);
      assert Part(s0) == map[];
      assert AllEndBy(log.segments, log.head) by { EndsByLast(log.segments); }
      ContentsAppend(log.segments, s);
    }
  }

  /** Whether an append to this log is accepted, with segments all of one valid size. */
  predicate Accepts(size: nat, log: Log, body: seq<byte>) {
    var total := HEADER_SIZE + |body|;
    if log.segments == [] then total + MAGIC_SIZE <= size
    else Fits(log.segments[|log.segments| - 1], total) || total + MAGIC_SIZE < size
  }

  /**
   * With a uniform segment size the retry after a roll-over always succeeds, so an append
   * fails only as too big, and exactly when `Accepts` says so.
   */
  lemma PushSucceeds(h: Hash, size: nat, log: Log, body: seq<byte>, clock: u32)
    requires ValidFileLen(size)
    requires forall i :: 0 <= i < |log.segments| ==> |log.segments[i].file| == size
    ensures Push(h, size, log, body, clock).0.Pushed? <==> Accepts(size, log, body)
    ensures !Accepts(size, log, body) ==> Push(h, size, log, body, clock).0 == MessageTooBig
    ensures var segs := Push(h, size, log, body, clock).1.segments;
            forall i :: 0 <= i < |segs| ==> |segs[i].file| == size
  {
    hide Splice, Zeros, Record;
    FreshAccepts(h, log.head, size, body, clock);
  }

  /** The segments of a log when its last one is closed. */
  ghost predicate ClosesLast(segs: seq<SegmentView>, closed: seq<SegmentView>) {
    && |closed| == |segs|
    && (forall i :: 0 <= i < |segs| - 1 ==> closed[i] == segs[i])
    && (segs != [] ==>
          var s, c := segs[|segs| - 1], closed[|segs| - 1];
          c.closed && c.tail == s.tail && c.messages == s.messages && c.file == s.file)
  }

  /** The new segment that a push adds: it starts at the head and holds the message if that fits. */
  ghost predicate Rolls(log: Log, size: nat, m: Message, r: PushResult, s: SegmentView) {
    && s.tail == log.head && !s.closed && |s.file| == size
    && (if |m.body| + 24 <= size then r == Pushed(log.head) && s.messages == [m]
        else r == MessageTooBig && s.messages == [])
  }

  /**
   * A push goes into the last segment if there is room, is refused if it could not fit an empty file
   * of that length, and otherwise closes that segment and goes into a new one, if the configured
   * length is valid and large enough; a new segment stays even if it is not.
   */
  lemma PushIsExact(h: Hash, size: nat, log: Log, body: seq<byte>, clock: u32)
    ensures var (r, log') := Push(h, size, log, body, clock);
            var n, m := |log.segments|, Message(clock, body);
            && log'.tail == log.tail
            && log'.head == (if r.Pushed? then log.head + 1 else log.head)
            && (if n > 0 && End(log.segments[n - 1].messages) + |body| + 20 <= |log.segments[n - 1].file| then
                  var s := log.segments[n - 1];
                  && r == Pushed(s.tail + |s.messages|)
                  && |log'.segments| == n && log'.segments[..n - 1] == log.segments[..n - 1]
                  && var s' := log'.segments[n - 1];
                     s'.tail == s.tail && s'.messages == s.messages + [m] && s'.closed == s.closed
                else if n > 0 && |body| + 24 >= |log.segments[n - 1].file| then
                  r == MessageTooBig && log'.segments == log.segments
                else if size <= 4 || size >= 0x8000_0000 then
                  r == SegmentFileInvalid && ClosesLast(log.segments, log'.segments)
                else
                  && |log'.segments| == n + 1 && ClosesLast(log.segments, log'.segments[..n])
                  && Rolls(log, size, m, r, log'.segments[n]))
  {
    hide Splice, Zeros, Record;
    if log.segments != [] {
      var n := |log.segments| - 1;
      assert log.segments[..n] + [log.segments[n]] == log.segments;
    }
    if ValidFileLen(size) {
      FreshAccepts(h, log.head, size, body, clock);
    }
  }

  // ----- logs without holes

  /** The segments follow one another without holes, from id `from` to id `to`. */
  ghost predicate Chained(segs: seq<SegmentView>, from: nat, to: nat) {
    if segs == [] then from == to
    else segs[0].tail == from && Chained(segs[1..], segs[0].Head(), to)
  }

  ghost predicate Dense(log: Log) { Chained(log.segments, log.tail, log.head) }

  lemma {:induction false} ChainedContents(segs: seq<SegmentView>, from: nat, to: nat)
    requires Chained(segs, from, to)
    ensures from <= to
    ensures forall id: nat :: id in Contents(segs) <==> from <= id < to
  {
    if segs != [] {
      ChainedContents(segs[1..], segs[0].Head(), to);
      assert forall id: nat :: id in Contents(segs) <==> id in Contents(segs[1..]) || segs[0].Has(id);
    }
  }

  lemma {:induction false} ChainedAppend(segs: seq<SegmentView>, s: SegmentView, from: nat, to: nat)
    ensures Chained(segs + [s], from, to) <==> Chained(segs, from, s.tail) && to == s.Head()
  {
    if segs == [] {
      assert segs + [s] == [s];
    } else {
      assert (segs + [s])[1..] == segs[1..] + [s];
      ChainedAppend(segs[1..], s, segs[0].Head(), to);
    }
  }

  lemma PushKeepsDense(h: Hash, size: nat, log: Log, body: seq<byte>, clock: u32)
    requires Dense(log)
    ensures Dense(Push(h, size, log, body, clock).1)
  {
    hide Chained, Segments.Push, Splice;
    if log.segments == [] {
      RollKeepsDense(h, size, log, body, clock);
    } else {
      var n := |log.segments| - 1;
      var init, last := log.segments[..n], log.segments[n];
      assert log.segments == init + [last];
      var (r, s) := Segments.Push(h, last, body, clock);
      PartAfterPush(h, last, body, clock);
      ChainedAppend(init, last, log.tail, log.head);
      ChainedAppend(init, s, log.tail, s.Head());
      if r.SegmentFull? {
        RollKeepsDense(h, size, log.(segments := init + [s]), body, clock);
      }
    }
  }

  lemma RollKeepsDense(h: Hash, size: nat, log: Log, body: seq<byte>, clock: u32)
    requires Dense(log)
    ensures Dense(Roll(h, size, log, body, clock).1)
  {
    hide Chained, Segments.Push, Splice;
    if ValidFileLen(size) {
      var (r, s) := Segments.Push(h, Fresh(log.head, size), body, clock);
      PartAfterPush(h, Fresh(log.head, size), body, clock);
      ChainedAppend(log.segments, s, log.tail, s.Head());
    }
  }

  /** In a log without holes every id from the tail to the head is found under itself. */
  lemma DenseGet(log: Log, id: nat)
    requires Dense(log) && Ordered(log.segments)
    ensures log.tail <= id < log.head ==>
              id in Contents(log.segments)
              && Get(log.segments, id) == Some(Entry(id, Contents(log.segments)[id]))
    ensures id >= log.head ==> Get(log.segments, id) == None
  {
    hide Contents, Get;
    ChainedContents(log.segments, log.tail, log.head);
    GetIsCeiling(log.segments, id);
  }

  // ----- purging

  function CloseLastOf(vs: seq<SegmentView>): seq<SegmentView>
    requires vs != []
  {
    vs[..|vs| - 1] + [vs[|vs| - 1].(closed := true)]
  }

  /** Purging moves the tail and closes the last segment, which appends do not heed. */
  function Purged(log: Log): Log {
    Log(if log.segments == [] then [] else CloseLastOf(log.segments), log.head, log.head)
  }

  lemma PurgeKeepsShape(h: Hash, log: Log)
    requires Shape(h, log)
    ensures Shape(h, Purged(log))
  {
    hide Holds;
  }
}
