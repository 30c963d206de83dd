/** The queue backend: segments in memory, each with its mapped file, behind one head and one tail. */
module Backend {
  import opened Bytes
  import opened Records
  import opened Segments
  import opened Logs
  import opened MappedSegments
  import opened Retention
  import opened Restart
  import opened Damage
  import opened TimeSearch

  /** The object `s` is in the state `v`. */
  ghost predicate Mirrors(h: Hash, s: Segment, v: SegmentView)
    reads s.Footprint()
  {
    s.hash == h && s.Valid() && s.View() == v
  }

  lemma MirrorsIds(h: Hash, s: Segment, v: SegmentView)
    requires Mirrors(h, s, v)
    ensures s.tail == v.tail && s.head == v.Head()
  {
  }

  /** No two segments share an object. */
  ghost predicate Disjoint(segs: seq<Segment>) {
    forall i, j :: 0 <= i < j < |segs| ==> segs[i].Footprint() !! segs[j].Footprint()
  }

  class QueueBackend {
    const hash: Hash
    var config: Config
    var segments: seq<Segment>
    var head: nat
    var tail: nat
    ghost var views: seq<SegmentView>
    ghost var repr: set<object>

    ghost function View(): Log
      reads this
    {
      Log(views, head, tail)
    }

    /** The objects are in order and in the states that `views` says. */
    ghost predicate Linked()
      reads this, repr
    {
      && this in repr
      && |views| == |segments|
      && (forall i :: 0 <= i < |segments| ==>
            segments[i].Footprint() <= repr - {this} && Mirrors(hash, segments[i], views[i]))
      && Disjoint(segments)
    }

    ghost predicate Valid()
      reads this, repr
    {
      Linked() && Shape(hash, View())
    }

    constructor (hash: Hash, config: Config)
      ensures Valid() && fresh(repr)
      ensures this.hash == hash && this.config == config && View() == Empty
    {
      this.hash, this.config := hash, config;
      segments, head, tail := [], 1, 1;
      views, repr := [], {this};
    }

    method FindSegment(id: nat) returns (i: nat)
      requires Linked()
      ensures i == Logs.FindSegment(views, id)
    {
      hide WellFormed;
      assert views[0..] == views;
      i := 0;
      while i < |segments|
        invariant i <= |segments|
        invariant Logs.FindSegment(views, id) == i + Logs.FindSegment(views[i..], id)
      {
        var s := segments[i];
        assert Mirrors(hash, s, views[i]);
        assert views[i..][0] == views[i] && views[i..][1..] == views[i + 1..];
        if id < s.head && s.tail < s.head {
          return;
        }
        i := i + 1;
      }
    }

    method Lookup(id: nat) returns (r: Option<Entry>)
      requires Linked()
      ensures r == Logs.Get(views, id)
    {
      hide WellFormed;
      var i := FindSegment(id);
      r := None;
      if i < |segments| {
        var s := segments[i];
        assert Mirrors(hash, s, views[i]);
        var m := s.Get(Max(id, s.tail));
        r := Some(Entry(Max(id, s.tail), m.value));
      }
    }

    /** The message with this id, or the next available one. */
    method Get(id: nat) returns (r: Option<Entry>)
      requires Valid()
      ensures r == Logs.Get(views, id)
      ensures IsCeiling(Contents(views), id, r)
    {
      hide AllWellFormed, Linked;
      r := Lookup(id);
      GetIsCeiling(views, id);
    }

    /** Appends a message to the last segment, or to a new one when it is full or missing. */
    method Push(body: seq<byte>, timestamp: u32) returns (r: PushResult)
      requires Valid() && head < U64_RANGE
      requires HEADER_SIZE + |body| + MAGIC_SIZE < U32_RANGE
      modifies repr
      ensures Valid() && fresh(repr - old(repr)) && config == old(config)
      ensures (r, View()) == Logs.Push(hash, config.segmentSize, old(View()), body, timestamp)
    {
      ghost var log := View();
      assert this in repr && |views| == |segments|;
      assert segments != [] ==> views[|views| - 1].Head() == head;
      hide Linked, Segments.Push, Roll, Shape;
      PushKeepsShape(hash, config.segmentSize, log, body, timestamp);
      r := SegmentFull;
      if segments != [] {
        r := PushToLast(body, timestamp);
      }
      if r.SegmentFull? {
        r := PushToNew(body, timestamp);
      }
    }

    /** Appends to the last segment, leaving every other one alone. */
    method PushToLast(body: seq<byte>, timestamp: u32) returns (r: PushResult)
      requires Linked() && segments != [] && views[|views| - 1].Head() < U64_RANGE
      requires HEADER_SIZE + |body| + MAGIC_SIZE < U32_RANGE
      modifies repr
      ensures Linked() && repr == old(repr) && config == old(config)
      ensures var n := |old(views)| - 1;
              var p := Segments.Push(hash, old(views)[n], body, timestamp);
              && r == p.0
              && View() == Log(old(views)[..n] + [p.1], if r.Pushed? then old(head) + 1 else old(head), old(tail))
    {
      hide Segments.Push, WellFormed, Indexed;
      var n := |segments| - 1;
      var last := segments[n];
      assert Mirrors(hash, last, views[n]);
      r := last.Push(body, timestamp);
      if r.Pushed? {
        head := head + 1;
      }
      views := views[..n] + [last.View()];
      forall i | 0 <= i < n
        ensures Mirrors(hash, segments[i], views[i])
      {
        assert old(Mirrors(hash, segments[i], views[i]));
      }
    }

    /** Creates a segment at the head and appends to it. */
    method PushToNew(body: seq<byte>, timestamp: u32) returns (r: PushResult)
      requires Linked() && head < U64_RANGE
      requires HEADER_SIZE + |body| + MAGIC_SIZE < U32_RANGE
      modifies this
      ensures Linked() && fresh(repr - old(repr)) && config == old(config)
      ensures (r, View()) == Roll(hash, config.segmentSize, old(View()), body, timestamp)
    {
      hide Segments.Push, Fresh, WellFormed, Indexed;
      if !ValidFileLen(config.segmentSize) {
        return SegmentFileInvalid;
      }
      var s := new Segment.Create(hash, head, config.segmentSize);
      r := s.Push(body, timestamp);
      if r.Pushed? {
        head := head + 1;
      }
      AddSegment(s);
    }

    /** Adds a segment that shares nothing with the others. */
    method AddSegment(s: Segment)
      requires Linked()
      requires s.hash == hash && s.Valid() && s.Footprint() !! repr
      modifies this`segments, this`views, this`repr
      ensures Linked()
      ensures views == old(views) + [s.View()] && segments == old(segments) + [s] && repr == old(repr) + s.Footprint()
    {
      hide Segment.Valid;
      segments := segments + [s];
      views := views + [s.View()];
      repr := repr + s.Footprint();
      forall i | 0 <= i < |segments| - 1
        ensures Mirrors(hash, segments[i], views[i])
      {
        assert old(Mirrors(hash, segments[i], views[i]));
      }
    }

    /** Collects the leading segments that retention does not keep. */
    method Gc(smallestTail: nat, clock: u32)
      requires Valid()
      modifies this
      ensures Valid() && repr == old(repr) && config == old(config)
      ensures View() == Retention.Gc(config, old(View()), smallestTail, clock)
    {
      var n := CountCollectable(smallestTail, clock);
      if n != 0 {
        ghost var log := View();
        DropKeepsShape(hash, log, n);
        hide Shape, GcCount;
        Drop(n);
      }
    }

    /** Removes the first `n` segments and moves the tail up. */
    method Drop(n: nat)
      requires Linked() && n <= |segments|
      modifies this
      ensures Linked() && repr == old(repr) && config == old(config)
      ensures View() == DropSegments(old(View()), n)
    {
      hide Segment.Valid;
      segments, views := segments[n..], views[n..];
      forall i | 0 <= i < |segments|
        ensures Mirrors(hash, segments[i], views[i]) && segments[i].Footprint() <= repr - {this}
      {
        assert old(Mirrors(hash, segments[i + n], views[i + n]));
      }
      if segments != [] {
        assert Mirrors(hash, segments[0], views[0]);
        tail := segments[0].tail;
      } else {
        tail := head;
      }
    }

    /** How many leading segments retention lets go. */
    method CountCollectable(smallestTail: nat, clock: u32) returns (n: nat)
      requires Linked()
      ensures n == GcCount(config, views, smallestTail, clock)
    {
      hide WellFormed, Kept, Indexed;
      var total := DiskUsage();
      n := 0;
      assert views[0..] == views;
      while n < |segments|
        invariant n <= |segments| == |views|
        invariant total == TotalSize(views[n..])
        invariant GcCount(config, views, smallestTail, clock) == n + GcCount(config, views[n..], smallestTail, clock)
      {
        var s := segments[n];
        assert Mirrors(hash, s, views[n]);
        assert views[n..][0] == views[n] && views[n..][1..] == views[n + 1..];
        if !s.closed {
          break;
        }
        var keep := MustKeep(s, total, smallestTail, clock);
        if keep {
          break;
        }
        total := total - s.data.Length;
        n := n + 1;
      }
    }

    /** Whether retention keeps this segment. */
    method MustKeep(s: Segment, total: nat, smallestTail: nat, clock: u32) returns (r: bool)
      requires s.Valid()
      ensures r == Kept(config, s.View(), total, smallestTail, clock)
    {
      hide WellFormed;
      var age := Age(clock, s.lastTimestamp);
      var hardPeriodOk := config.hardRetentionPeriod == 0 || age <= config.hardRetentionPeriod;
      var hardSizeOk := config.hardRetentionSize == 0 || total <= config.hardRetentionSize;
      var periodOk := config.retentionPeriod != 0 && age <= config.retentionPeriod;
      var sizeOk := config.retentionSize != 0 && total <= config.retentionSize;
      r := hardPeriodOk && hardSizeOk && (smallestTail < s.head || periodOk || sizeOk);
    }

    method DiskUsage() returns (total: nat)
      requires Linked()
      ensures total == TotalSize(views)
    {
      hide WellFormed;
      total := 0;
      for i := |segments| downto 0
        invariant total == TotalSize(views[i..])
      {
        assert Mirrors(hash, segments[i], views[i]);
        assert views[i..][0] == views[i] && views[i..][1..] == views[i + 1..];
        total := total + segments[i].data.Length;
      }
      assert views[0..] == views;
    }

    /**
     * The smallest id whose lookup yields messages from `timestamp` on; it is exact whenever
     * narrowing the search window by segment did not skip it.
     */
    method FindIdForTimestamp(timestamp: u32) returns (r: nat)
      requires Valid()
      ensures SortedByTime(views) ==> (IsFirst(View(), timestamp, r) <==> NarrowingSafe(View(), timestamp))
    {
      hide IsFirst, NarrowingSafe, SortedByTime, Reaches;
      var lo, hi := NarrowWindow(timestamp);
      r := Search(timestamp, lo, hi);
      if SortedByTime(views) {
        HeadReaches(hash, View(), timestamp);
        SearchIsExact(hash, View(), timestamp, r);
      }
    }

    /** Binary search by lookups; ids that find nothing count as late enough. */
    method Search(timestamp: u32, lo: nat, hi: nat) returns (low: nat)
      requires Valid()
      ensures hi < lo ==> low == lo
      ensures lo <= hi ==> lo <= low <= hi && (Reaches(views, timestamp, hi) ==> Reaches(views, timestamp, low))
      ensures low == lo || !Reaches(views, timestamp, low - 1)
    {
      hide Shape, Linked, IsCeiling, Contents, Logs.Get;
      low := lo;
      var high: nat := hi;
      while high > low
        invariant lo <= low && (lo <= hi ==> low <= high) && (hi < lo ==> low == lo)
        invariant high <= hi && (Reaches(views, timestamp, hi) ==> Reaches(views, timestamp, high))
        invariant low == lo || !Reaches(views, timestamp, low - 1)
        decreases if high > low then high - low else 0
      {
        var id := low + (high - low) / 2;
        var m := Get(id);
        if m.Some? {
          if m.value.message.timestamp >= timestamp {
            high := id;
          } else {
            low := id + 1;
          }
        } else {
          high := id;
        }
      }
    }

    /** Narrows the search window using the first and last timestamps of each segment. */
    method NarrowWindow(timestamp: u32) returns (low: nat, high: nat)
      requires Linked()
      ensures low == NarrowTail(views, timestamp, tail)
      ensures high == NarrowHead(views, timestamp, head)
    {
      hide WellFormed;
      low, high := tail, head;
      for i := 0 to |segments|
        invariant low == NarrowTail(views[..i], timestamp, tail)
        invariant high == NarrowHead(views[..i], timestamp, head)
      {
        var s := segments[i];
        assert Mirrors(hash, s, views[i]);
        assert views[..i + 1][..i] == views[..i] && views[..i + 1][i] == views[i];
        if s.firstTimestamp < timestamp {
          low := s.tail;
        }
        if s.lastTimestamp > timestamp {
          high := s.head;
        }
      }
      assert views[..|segments|] == views;
    }

    /** The segments to list in a checkpoint: those that start at or after the tail. */
    method Checkpoint() returns (r: seq<SegmentCheckpoint>)
      requires Linked()
      ensures r == Restart.Checkpoint(View())
    {
      hide WellFormed;
      r := [];
      for i := |segments| downto 0
        invariant r == Checkpoints(Listed(views[i..], tail))
      {
        var s := segments[i];
        assert Mirrors(hash, s, views[i]);
        assert views[i..][0] == views[i] && views[i..][1..] == views[i + 1..];
        if s.tail >= tail {
          r := [SegmentCheckpoint(s.tail, s.head, s.closed)] + r;
        }
      }
      assert views[0..] == views;
    }

    method CloseLast()
      requires Linked() && segments != []
      modifies this`views, segments[|segments| - 1]
      ensures Linked() && views == CloseLastOf(old(views))
    {
      hide Indexed;
      var n := |segments| - 1;
      var last := segments[n];
      assert Mirrors(hash, last, views[n]);
      last.closed := true;
      views := CloseLastOf(views);
      forall i | 0 <= i < n
        ensures Mirrors(hash, segments[i], views[i])
      {
        assert old(Mirrors(hash, segments[i], views[i]));
      }
    }

    /** Drops everything by moving the tail; the last segment is closed but stays in use. */
    method Purge()
      requires Valid()
      modifies repr
      ensures Valid() && repr == old(repr) && config == old(config)
      ensures View() == Purged(old(View()))
    {
      PurgeKeepsShape(hash, View());
      hide Shape, WellFormed;
      tail := head;
      if segments != [] {
        assert segments[|segments| - 1].Footprint() <= repr;
        CloseLast();
      }
    }

    /** Rebuilds a new backend from a checkpoint and the segment files. */
    method Recover(cps: seq<SegmentCheckpoint>, files: Files) returns (fault: bool)
      requires Linked() && segments == [] && head == tail == 1 && repr == {this}
      requires forall i :: 0 <= i < |cps| ==> cps[i].tail <= U64_RANGE
      modifies this
      ensures fresh(repr - {this}) && config == old(config)
      ensures if fault then Restart.Recover(hash, cps, files) == None
              else Linked() && Restart.Recover(hash, cps, files) == Some(View())
      ensures Survivable(hash, cps, files) ==> !fault && Valid()
    {
      hide Open, Segment.Valid, Survivable, Shape;
      SurvivableRestart(hash, cps, files);
      assert cps[0..] == cps;
      for i := 0 to |cps|
        invariant Linked() && fresh(repr - {this}) && config == old(config) && head == tail == 1
        invariant Reopen(hash, cps, files, []) == Reopen(hash, cps[i..], files, views)
      {
        var cp := cps[i];
        assert cps[i..][0] == cp && cps[i..][1..] == cps[i + 1..];
        if cp.tail in files {
          fault := ReopenOne(cp, files[cp.tail]);
          if fault {
            return;
          }
        }
      }
      fault := false;
      if segments != [] {
        var n := |segments| - 1;
        MirrorsIds(hash, segments[0], views[0]);
        MirrorsIds(hash, segments[n], views[n]);
        head, tail := segments[n].head, segments[0].tail;
      }
    }

    /** Opens one listed segment and adds it, closing the one before if the new one is open. */
    method ReopenOne(cp: SegmentCheckpoint, image: seq<byte>) returns (fault: bool)
      requires Linked() && cp.tail <= U64_RANGE
      modifies repr
      ensures Linked() && fresh(repr - old(repr)) && config == old(config) && head == old(head) && tail == old(tail)
      ensures match Open(hash, cp.tail, cp.closed, image)
              case InvalidFile => !fault && views == old(views)
              case Fault => fault
              case Opened(s) => !fault && views == AddReopened(old(views), s)
    {
      hide Open, Indexed, WellFormed;
      OpenInvalid(hash, cp.tail, cp.closed, image);
      fault := false;
      if !ValidFileLen(|image|) {
        return;
      }
      var s := new Segment.Map(hash, cp.tail, image);
      fault := s.Recover(cp.closed);
      if !fault {
        if !s.closed && segments != [] {
          CloseLast();
        }
        AddSegment(s);
      }
    }
  }
}
