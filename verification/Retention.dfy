/** Retention: which whole segments garbage collection removes, and what that leaves. */
module Retention {
  import opened Bytes
  import opened Records
  import opened Segments
  import opened Logs

  function TotalSize(segs: seq<SegmentView>): nat {
    if segs == [] then 0 else |segs[0].file| + TotalSize(segs[1..])
  }

  /** Age in 32-bit arithmetic: it wraps when the clock is behind the timestamp. */
  function Age(clock: u32, timestamp: u32): u32 { (clock - timestamp) % U32_RANGE }

  /** Whether the hard limits still admit a segment. */
  predicate WithinHardLimits(cfg: Config, s: SegmentView, total: nat, clock: u32) {
    && (cfg.hardRetentionPeriod == 0 || Age(clock, s.LastTimestamp()) <= cfg.hardRetentionPeriod)
    && (cfg.hardRetentionSize == 0 || total <= cfg.hardRetentionSize)
  }

  /** Whether a channel or a soft limit still wants a segment. */
  predicate Wanted(cfg: Config, s: SegmentView, total: nat, smallestTail: nat, clock: u32) {
    || smallestTail < s.Head()
    || (cfg.retentionPeriod != 0 && Age(clock, s.LastTimestamp()) <= cfg.retentionPeriod)
    || (cfg.retentionSize != 0 && total <= cfg.retentionSize)
  }

  predicate Kept(cfg: Config, s: SegmentView, total: nat, smallestTail: nat, clock: u32) {
    WithinHardLimits(cfg, s, total, clock) && Wanted(cfg, s, total, smallestTail, clock)
  }

  /** Collection stops at the first segment of `segs`. */
  predicate StopsAt(cfg: Config, segs: seq<SegmentView>, smallestTail: nat, clock: u32)
    requires segs != []
  {
    !segs[0].closed || Kept(cfg, segs[0], TotalSize(segs), smallestTail, clock)
  }

  /** How many leading segments are collected. */
  function GcCount(cfg: Config, segs: seq<SegmentView>, smallestTail: nat, clock: u32): (n: nat)
    ensures n <= |segs|
    ensures n < |segs| ==> StopsAt(cfg, segs[n..], smallestTail, clock)
    ensures forall i :: 0 <= i < n ==> !StopsAt(cfg, segs[i..], smallestTail, clock)
  {
    assert segs[0..] == segs;
    if segs == [] || StopsAt(cfg, segs, smallestTail, clock) then 0
    else
      var k := GcCount(cfg, segs[1..], smallestTail, clock);
      assert forall i :: 0 < i <= k ==> segs[i..] == segs[1..][i - 1..];
      assert segs[k + 1..] == segs[1..][k..];
      1 + k
  }

  function DropSegments(log: Log, n: nat): Log
    requires n <= |log.segments|
  {
    var rest := log.segments[n..];
    Log(rest, log.head, if rest == [] then log.head else rest[0].tail)
  }

  function Gc(cfg: Config, log: Log, smallestTail: nat, clock: u32): Log {
    var n := GcCount(cfg, log.segments, smallestTail, clock);
    if n == 0 then log else DropSegments(log, n)
  }

  /** Collection stops where it should, so a second one with the same arguments does nothing. */
  lemma GcIsIdempotent(cfg: Config, log: Log, smallestTail: nat, clock: u32)
    ensures Gc(cfg, Gc(cfg, log, smallestTail, clock), smallestTail, clock) == Gc(cfg, log, smallestTail, clock)
  {
    hide StopsAt, GcCount;
    var log' := Gc(cfg, log, smallestTail, clock);
    var n := GcCount(cfg, log'.segments, smallestTail, clock);
    if n > 0 {
      assert log'.segments[0..] == log'.segments;
      assert !StopsAt(cfg, log'.segments[0..], smallestTail, clock);
    }
  }

  /** With hard retention off, only segments that every channel has passed are removed. */
  lemma GcSparesUnread(cfg: Config, log: Log, smallestTail: nat, clock: u32, i: nat)
    requires cfg.hardRetentionPeriod == 0 && cfg.hardRetentionSize == 0
    requires i < GcCount(cfg, log.segments, smallestTail, clock)
    ensures log.segments[i].closed && log.segments[i].Head() <= smallestTail
  {
    hide GcCount;
    assert !StopsAt(cfg, log.segments[i..], smallestTail, clock);
  }

  lemma {:induction false} ContentsDrop(segs: seq<SegmentView>, n: nat, from: nat)
    requires Ordered(segs) && n <= |segs|
    requires forall i :: 0 <= i < n ==> segs[i].Head() <= from
    requires n < |segs| ==> from == segs[n].tail
    ensures forall id: nat :: id in Contents(segs[n..]) <==> id in Contents(segs) && id >= from
    ensures forall id: nat :: id in Contents(segs[n..]) ==> Contents(segs[n..])[id] == Contents(segs)[id]
  {
    if n == 0 {
      assert segs[0..] == segs;
      forall id: nat | id in Contents(segs)
        ensures id >= from
      {
        ContentsBounds(segs, id);
      }
    } else {
      assert segs[n..] == segs[1..][n - 1..];
      ContentsDrop(segs[1..], n - 1, from);
      assert forall id: nat :: id in Contents(segs) && id >= from ==> !segs[0].Has(id);
    }
  }

  lemma OrderedDrop(segs: seq<SegmentView>, n: nat)
    requires Ordered(segs) && n <= |segs|
    ensures Ordered(segs[n..])
    ensures n < |segs| ==> AllEndBy(segs[..n], segs[n].tail)
  {
    var rest := segs[n..];
    forall i, j | 0 <= i < j < |rest|
      ensures rest[i].Head() <= rest[j].tail
    {
      assert rest[i] == segs[n + i] && rest[j] == segs[n + j];
    }
  }

  lemma DropKeepsShape(h: Hash, log: Log, n: nat)
    requires Shape(h, log) && n <= |log.segments|
    ensures Shape(h, DropSegments(log, n))
    ensures forall i :: 0 <= i < n ==> log.segments[i].Head() <= DropSegments(log, n).tail
  {
    hide WellFormed, Ordered;
    var segs, rest := log.segments, log.segments[n..];
    OrderedDrop(segs, n);
    EndsByLast(segs);
    EndsByLast(rest);
    forall i | 0 <= i < |rest|
      ensures WellFormed(h, rest[i]) && (i < |rest| - 1 ==> rest[i].closed)
    {
      assert rest[i] == segs[n + i];
    }
    if rest != [] {
      assert rest[|rest| - 1] == segs[|segs| - 1] && rest[0].Head() <= log.head;
    }
    forall i | 0 <= i < n
      ensures segs[i].Head() <= DropSegments(log, n).tail
    {
      assert segs[..n][i] == segs[i];
    }
  }

  lemma {:induction false} ChainedDrop(segs: seq<SegmentView>, n: nat, from: nat, to: nat)
    requires Chained(segs, from, to) && n <= |segs|
    ensures Chained(segs[n..], if n < |segs| then segs[n].tail else to, to)
  {
    if n > 0 {
      assert segs[n..] == segs[1..][n - 1..];
      ChainedDrop(segs[1..], n - 1, segs[0].Head(), to);
    } else {
      assert segs[0..] == segs;
    }
  }

  /** Collection keeps the shape of the log, and every lookup at or above the new tail. */
  lemma GcKeepsLookups(h: Hash, cfg: Config, log: Log, smallestTail: nat, clock: u32, id: nat)
    requires Shape(h, log)
    ensures var log' := Gc(cfg, log, smallestTail, clock);
            && Shape(h, log')
            && (exists n :: 0 <= n <= |log.segments| && log'.segments == log.segments[n..])
            && (id >= log'.tail ==> Get(log'.segments, id) == Get(log.segments, id))
  {
    hide GcCount, Contents, Get, Shape;
    var n := GcCount(cfg, log.segments, smallestTail, clock);
    assert log.segments[0..] == log.segments;
    var log' := Gc(cfg, log, smallestTail, clock);
    if n > 0 {
      DropKeepsShape(h, log, n);
      assert Ordered(log.segments) && Ordered(log'.segments) by { ShapeIsOrdered(h, log); ShapeIsOrdered(h, log'); }
      ContentsDrop(log.segments, n, log'.tail);
      GetIsCeiling(log.segments, id);
      GetIsCeiling(log'.segments, id);
      if id >= log'.tail {
        CeilingIsUnique(Contents(log.segments), id, Get(log'.segments, id), Get(log.segments, id));
      }
    }
  }

  lemma ShapeIsOrdered(h: Hash, log: Log)
    requires Shape(h, log)
    ensures Ordered(log.segments)
  {
  }

  /** Last timestamps do not decrease from segment to segment. */
  ghost predicate SortedByAge(segs: seq<SegmentView>) {
    forall i, j :: 0 <= i <= j < |segs| ==> segs[i].LastTimestamp() <= segs[j].LastTimestamp()
  }

  /**
   * What collection achieves: afterwards no segment is left, or the first one is open, or the
   * enabled hard limits hold for the total size and for the age of every segment.
   */
  lemma GcBounds(cfg: Config, log: Log, smallestTail: nat, clock: u32)
    requires SortedByAge(log.segments)
    requires forall i :: 0 <= i < |log.segments| ==> log.segments[i].LastTimestamp() <= clock
    ensures var segs := Gc(cfg, log, smallestTail, clock).segments;
            || segs == []
            || !segs[0].closed
            || (&& (cfg.hardRetentionSize != 0 ==> TotalSize(segs) <= cfg.hardRetentionSize)
                && (cfg.hardRetentionPeriod != 0 ==>
                      forall i :: 0 <= i < |segs| ==> clock - segs[i].LastTimestamp() <= cfg.hardRetentionPeriod))
  {
    hide GcCount, Last;
    var n := GcCount(cfg, log.segments, smallestTail, clock);
    var segs := log.segments[n..];
    assert n == 0 ==> segs == log.segments;
    if segs != [] {
      assert StopsAt(cfg, segs, smallestTail, clock);
      assert Age(clock, segs[0].LastTimestamp()) == clock - segs[0].LastTimestamp();
      assert forall i :: 0 <= i < |segs| ==> segs[i] == log.segments[n + i];
    }
  }

  // ----- the policy, from the configuration, the clock, the file sizes and the timestamps

  /** The sum of the file sizes from segment `j` on. */
  function SizeFrom(segs: seq<SegmentView>, j: nat): nat
    requires j <= |segs|
    decreases |segs| - j
  {
    if j == |segs| then 0 else |segs[j].file| + SizeFrom(segs, j + 1)
  }

  /** The time since the last message of a segment, or since time 0 if there is none; it wraps below 0. */
  function AgeAt(s: SegmentView, clock: u32): u32 {
    var last := if s.messages == [] then 0 else s.messages[|s.messages| - 1].timestamp;
    if last <= clock then clock - last else clock + U32_RANGE - last
  }

  /** Segment `j` exceeds a hard limit that is set. */
  predicate OverHardLimit(cfg: Config, segs: seq<SegmentView>, j: nat, clock: u32)
    requires j < |segs|
  {
    || (cfg.hardRetentionPeriod != 0 && AgeAt(segs[j], clock) > cfg.hardRetentionPeriod)
    || (cfg.hardRetentionSize != 0 && SizeFrom(segs, j) > cfg.hardRetentionSize)
  }

  /** Every channel has passed segment `j`, and it is outside both soft limits as far as they are set. */
  predicate Unneeded(cfg: Config, segs: seq<SegmentView>, j: nat, smallestTail: nat, clock: u32)
    requires j < |segs|
  {
    && segs[j].tail + |segs[j].messages| <= smallestTail
    && (cfg.retentionPeriod != 0 ==> AgeAt(segs[j], clock) > cfg.retentionPeriod)
    && (cfg.retentionSize != 0 ==> SizeFrom(segs, j) > cfg.retentionSize)
  }

  predicate MayGo(cfg: Config, segs: seq<SegmentView>, j: nat, smallestTail: nat, clock: u32)
    requires j < |segs|
  {
    segs[j].closed && (OverHardLimit(cfg, segs, j, clock) || Unneeded(cfg, segs, j, smallestTail, clock))
  }

  /** Segment `i` and every older one may go. */
  ghost predicate AllMayGo(cfg: Config, segs: seq<SegmentView>, i: nat, smallestTail: nat, clock: u32)
    requires i < |segs|
  {
    forall j :: 0 <= j <= i ==> MayGo(cfg, segs, j, smallestTail, clock)
  }

  lemma {:induction false} SizeFromIs(segs: seq<SegmentView>, j: nat)
    requires j <= |segs|
    ensures SizeFrom(segs, j) == TotalSize(segs[j..])
    decreases |segs| - j
  {
    if j < |segs| {
      SizeFromIs(segs, j + 1);
      assert segs[j..][1..] == segs[j + 1..];
    }
  }

  lemma StopsExactly(cfg: Config, segs: seq<SegmentView>, j: nat, smallestTail: nat, clock: u32)
    requires j < |segs|
    ensures StopsAt(cfg, segs[j..], smallestTail, clock) <==> !MayGo(cfg, segs, j, smallestTail, clock)
  {
    hide TotalSize, SizeFrom;
    SizeFromIs(segs, j);
  }

  /**
   * Collection removes exactly the segments that may go together with all before them: a segment goes if
   * and only if it and every older one is closed and is over a hard limit or needed by nobody. The head
   * stays, and the tail moves to the start of what is left.
   */
  lemma GcIsExact(cfg: Config, log: Log, smallestTail: nat, clock: u32)
    ensures var log' := Gc(cfg, log, smallestTail, clock);
            var n := |log.segments| - |log'.segments|;
            && 0 <= n && log'.segments == log.segments[n..] && log'.head == log.head
            && (log'.tail == if n == 0 then log.tail
                             else if n == |log.segments| then log.head else log.segments[n].tail)
            && forall i :: 0 <= i < |log.segments| ==> (i < n <==> AllMayGo(cfg, log.segments, i, smallestTail, clock))
  {
    hide GcCount, StopsAt, MayGo;
    var segs, n := log.segments, GcCount(cfg, log.segments, smallestTail, clock);
    assert segs[0..] == segs;
    forall i | 0 <= i < |segs|
      ensures i < n <==> AllMayGo(cfg, segs, i, smallestTail, clock)
    {
      if i < n {
        forall j | 0 <= j <= i
          ensures MayGo(cfg, segs, j, smallestTail, clock)
        {
          StopsExactly(cfg, segs, j, smallestTail, clock);
        }
      } else {
        StopsExactly(cfg, segs, n, smallestTail, clock);
      }
    }
  }
}
