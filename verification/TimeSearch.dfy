/** Finding the first id whose lookup yields messages from a given time on. */
module TimeSearch {
  import opened Bytes
  import opened Records
  import opened Segments
  import opened Logs

  /** A lookup of `id` yields a message at or after `timestamp`, or nothing. */
  ghost predicate Reaches(segs: seq<SegmentView>, timestamp: u32, id: nat) {
    var r := Get(segs, id);
    r.None? || r.value.message.timestamp >= timestamp
  }

  /** `r` is the least id from the tail of the log on that reaches `timestamp`. */
  ghost predicate IsFirst(log: Log, timestamp: u32, r: nat) {
    && log.tail <= r
    && Reaches(log.segments, timestamp, r)
    && forall id :: log.tail <= id < r ==> !Reaches(log.segments, timestamp, id)
  }

  /** Timestamps do not decrease with the id. */
  ghost predicate SortedByTime(segs: seq<SegmentView>) {
    forall a, b :: a in Contents(segs) && b in Contents(segs) && a <= b ==>
      Contents(segs)[a].timestamp <= Contents(segs)[b].timestamp
  }

  /** Nothing in the log has been purged by moving its tail. */
  ghost predicate Unpurged(log: Log) {
    forall i :: 0 <= i < |log.segments| ==> log.tail <= log.segments[i].tail
  }

  /** The lower bound after narrowing: the tail of the last segment that starts before `timestamp`. */
  function NarrowTail(segs: seq<SegmentView>, timestamp: u32, tail: nat): nat {
    if segs == [] then tail
    else
      var n := |segs| - 1;
      if segs[n].FirstTimestamp() < timestamp then segs[n].tail else NarrowTail(segs[..n], timestamp, tail)
  }

  /** The upper bound after narrowing: the head of the last segment that ends after `timestamp`. */
  function NarrowHead(segs: seq<SegmentView>, timestamp: u32, head: nat): nat {
    if segs == [] then head
    else
      var n := |segs| - 1;
      if segs[n].LastTimestamp() > timestamp then segs[n].Head() else NarrowHead(segs[..n], timestamp, head)
  }

  /**
   * Narrowing keeps the answer: the window starts at the tail, or the id before both its start and
   * the tail still finds messages that are too old.
   */
  ghost predicate NarrowingSafe(log: Log, timestamp: u32) {
    var lo := NarrowTail(log.segments, timestamp, log.tail);
    lo == log.tail || !Reaches(log.segments, timestamp, Max(lo, log.tail) - 1)
  }

  lemma ReachesMonotone(segs: seq<SegmentView>, timestamp: u32, a: nat, b: nat)
    requires Ordered(segs) && SortedByTime(segs) && a <= b
    requires Reaches(segs, timestamp, a)
    ensures Reaches(segs, timestamp, b)
  {
    hide Get, Contents, Ordered;
    GetIsCeiling(segs, a);
    GetIsCeiling(segs, b);
  }

  lemma {:induction false} NarrowTailIs(segs: seq<SegmentView>, timestamp: u32, tail: nat)
    ensures var lo := NarrowTail(segs, timestamp, tail);
            lo == tail || exists i :: 0 <= i < |segs| && lo == segs[i].tail && segs[i].FirstTimestamp() < timestamp
  {
    if segs != [] && segs[|segs| - 1].FirstTimestamp() >= timestamp {
      NarrowTailIs(segs[..|segs| - 1], timestamp, tail);
    }
  }

  lemma {:induction false} NarrowHeadIs(segs: seq<SegmentView>, timestamp: u32, head: nat)
    ensures var hi := NarrowHead(segs, timestamp, head);
            hi == head || exists i :: 0 <= i < |segs| && hi == segs[i].Head() && segs[i].LastTimestamp() > timestamp
  {
    if segs != [] && segs[|segs| - 1].LastTimestamp() <= timestamp {
      NarrowHeadIs(segs[..|segs| - 1], timestamp, head);
    }
  }

  lemma {:induction false} ContentsOfSegment(segs: seq<SegmentView>, i: nat, id: nat)
    requires Ordered(segs) && i < |segs| && segs[i].Has(id)
    ensures id in Contents(segs) && Contents(segs)[id] == segs[i].At(id)
  {
    if i > 0 {
      ContentsOfSegment(segs[1..], i - 1, id);
      assert segs[0].Head() <= segs[i].tail;
    }
  }

  /** The upper bound reaches the timestamp, so the search may assume that its answer exists. */
  lemma HeadReaches(h: Hash, log: Log, timestamp: u32)
    requires Shape(h, log) && SortedByTime(log.segments)
    ensures Reaches(log.segments, timestamp, NarrowHead(log.segments, timestamp, log.head))
  {
    hide Contents, Get, AllWellFormed;
    var segs := log.segments;
    var hi := NarrowHead(segs, timestamp, log.head);
    NarrowHeadIs(segs, timestamp, log.head);
    GetIsCeiling(segs, hi);
    if i :| 0 <= i < |segs| && hi == segs[i].Head() && segs[i].LastTimestamp() > timestamp {
      assert segs[i].Has(hi - 1);
      ContentsOfSegment(segs, i, hi - 1);
    } else {
      forall id | id in Contents(segs)
        ensures id < hi
      {
        ContentsBounds(segs, id);
      }
    }
  }

  /** What the binary search establishes within the narrowed bounds. */
  ghost predicate SearchResult(log: Log, timestamp: u32, r: nat) {
    var lo := NarrowTail(log.segments, timestamp, log.tail);
    var hi := NarrowHead(log.segments, timestamp, log.head);
    if hi < lo then r == lo
    else
      && lo <= r && Reaches(log.segments, timestamp, r)
      && (r == lo || !Reaches(log.segments, timestamp, r - 1))
  }

  /** The search finds the first id that reaches the timestamp exactly when narrowing was safe. */
  lemma SearchIsExact(h: Hash, log: Log, timestamp: u32, r: nat)
    requires Shape(h, log) && SortedByTime(log.segments)
    requires SearchResult(log, timestamp, r)
    ensures IsFirst(log, timestamp, r) <==> NarrowingSafe(log, timestamp)
  {
    hide Reaches, WellFormed, SortedByTime;
    var segs := log.segments;
    var lo := NarrowTail(segs, timestamp, log.tail);
    var hi := NarrowHead(segs, timestamp, log.head);
    HeadReaches(h, log, timestamp);
    if NarrowingSafe(log, timestamp) {
      SafeSearch(log, timestamp, lo, hi, r);
    } else if log.tail <= r {
      if hi >= lo && r > lo && log.tail < r {
        ReachesMonotone(segs, timestamp, Max(lo, log.tail) - 1, r - 1);
      }
    }
  }

  lemma SafeSearch(log: Log, timestamp: u32, lo: nat, hi: nat, r: nat)
    requires Ordered(log.segments) && SortedByTime(log.segments)
    requires lo == NarrowTail(log.segments, timestamp, log.tail) && hi == NarrowHead(log.segments, timestamp, log.head)
    requires Reaches(log.segments, timestamp, hi) && NarrowingSafe(log, timestamp)
    requires SearchResult(log, timestamp, r)
    ensures IsFirst(log, timestamp, r)
  {
    hide Reaches, SortedByTime, Ordered;
    var segs := log.segments;
    if hi < lo {
      ReachesMonotone(segs, timestamp, hi, lo);
      if lo != log.tail {
        ReachesMonotone(segs, timestamp, hi, Max(lo, log.tail) - 1);
        assert false;
      }
    } else {
      if r < log.tail {
        ReachesMonotone(segs, timestamp, r, log.tail - 1);
        assert false;
      }
      forall id | log.tail <= id < r
        ensures !Reaches(segs, timestamp, id)
      {
        if Reaches(segs, timestamp, id) {
          ReachesMonotone(segs, timestamp, id, r - 1);
        }
      }
    }
  }

  lemma {:induction false} FirstIsAMessage(ms: seq<Message>)
    requires ms != []
    ensures First(ms) == ms[0].timestamp || (exists k :: 0 < k < |ms| && First(ms) == ms[k].timestamp)
  {
    var n := |ms| - 1;
    if n > 0 && First(ms[..n]) != INVALID_TIMESTAMP {
      FirstIsAMessage(ms[..n]);
    }
  }

  /**
   * When no segment is empty, only a purge can mislead the search: it does exactly when the window
   * starts before the tail and purged messages reach the timestamp.
   */
  lemma NonEmptyIsSafe(h: Hash, log: Log, timestamp: u32)
    requires Shape(h, log) && SortedByTime(log.segments)
    requires forall i :: 0 <= i < |log.segments| ==> log.segments[i].messages != []
    ensures NarrowingSafe(log, timestamp)
       <==> NarrowTail(log.segments, timestamp, log.tail) >= log.tail
            || !Reaches(log.segments, timestamp, log.tail - 1)
    ensures Unpurged(log) ==> NarrowingSafe(log, timestamp)
  {
    hide WellFormed, Contents, Get;
    var segs := log.segments;
    var lo := NarrowTail(segs, timestamp, log.tail);
    NarrowTailIs(segs, timestamp, log.tail);
    if lo > log.tail {
      var i :| 0 <= i < |segs| && lo == segs[i].tail && segs[i].FirstTimestamp() < timestamp;
      var s := segs[i];
      FirstIsAMessage(s.messages);
      assert s.Has(lo);
      ContentsOfSegment(segs, i, lo);
      if k :| 0 < k < |s.messages| && First(s.messages) == s.messages[k].timestamp {
        assert s.Has(lo + k);
        ContentsOfSegment(segs, i, lo + k);
      }
      GetIsCeiling(segs, lo);
      assert !Reaches(segs, timestamp, lo);
      if Reaches(segs, timestamp, lo - 1) {
        ReachesMonotone(segs, timestamp, lo - 1, lo);
      }
    }
  }

  /** One segment with a message, and an empty one after it. */
  ghost function WithEmptySegment(s: SegmentView, e: SegmentView): Log {
    Log([s.(closed := true), e], e.tail, s.tail)
  }

  /** An empty segment misleads the search past a message that reaches the timestamp. */
  lemma EmptySegmentMisleads(h: Hash, s: SegmentView, e: SegmentView, timestamp: u32, r: nat)
    requires WellFormed(h, s) && WellFormed(h, e)
    requires |s.messages| == 1 && e.messages == [] && e.tail == s.Head()
    requires 0 < timestamp <= s.messages[0].timestamp
    ensures var log := WithEmptySegment(s, e);
            && Shape(h, log) && SortedByTime(log.segments)
            && !NarrowingSafe(log, timestamp)
            && IsFirst(log, timestamp, s.tail)
            && (SearchResult(log, timestamp, r) ==> r >= e.tail && !IsFirst(log, timestamp, r))
  {
    hide Holds;
    var log := WithEmptySegment(s, e);
    var segs := log.segments;
    assert segs[1..] == [e] && [e][1..] == [];
    assert Contents([e]) == map[];
    assert forall id :: id in Contents(segs) ==> id == s.tail;
    assert Get(segs, s.tail) == Some(Entry(s.tail, s.messages[0]));
    assert NarrowTail(segs, timestamp, s.tail) == e.tail;
    if SearchResult(log, timestamp, r) {
      SearchIsExact(h, log, timestamp, r);
    }
  }

  /** What the search sees of one segment with two messages, the second of which is late enough. */
  lemma TwoMessages(c: SegmentView, timestamp: u32, tail: nat)
    requires |c.messages| == 2 && 0 < c.messages[0].timestamp < timestamp <= c.messages[1].timestamp
    ensures SortedByTime([c])
    ensures NarrowTail([c], timestamp, tail) == c.tail && NarrowHead([c], timestamp, c.Head()) == c.Head()
    ensures !Reaches([c], timestamp, c.tail)
    ensures forall id: nat :: id > c.tail ==> Reaches([c], timestamp, id)
  {
    assert [c][1..] == [] && [c][..0] == [];
    assert Contents([c]) == Part(c);
    assert c.messages[..1][..0] == [] && First(c.messages[..1]) == c.messages[0].timestamp;
    assert Get([c], c.tail) == Some(Entry(c.tail, c.messages[0]));
  }

  /** A purge misleads the search into returning a message that was purged. */
  lemma PurgeMisleads(h: Hash, s: SegmentView, timestamp: u32, r: nat)
    requires WellFormed(h, s) && |s.messages| == 2
    requires 0 < s.messages[0].timestamp < timestamp <= s.messages[1].timestamp
    ensures var log := Purged(Log([s], s.Head(), s.tail));
            && Shape(h, log) && SortedByTime(log.segments)
            && !NarrowingSafe(log, timestamp)
            && IsFirst(log, timestamp, log.tail)
            && (SearchResult(log, timestamp, r) ==> r == log.tail - 1 && !IsFirst(log, timestamp, r))
  {
    hide Holds, Reaches, SortedByTime, NarrowTail, NarrowHead;
    var log := Purged(Log([s], s.Head(), s.tail));
    assert log.segments == [s.(closed := true)];
    TwoMessages(s.(closed := true), timestamp, log.tail);
  }
}
