/**
 * The window between removing files and writing the next checkpoint: a run that ends in it with every
 * listed file gone, and what a restart from there loses.
 */
module Stranding {
  import opened Bytes
  import opened Records
  import opened Segments
  import opened Logs
  import opened Channels
  import opened Retention
  import opened Restart
  import opened Queues
  import opened Delivery

  /**
   * After a restart that strands a channel, the next message pushed is stored below the tail of that
   * channel, which is told that the queue is at its end.
   */
  lemma StrandedLoses(
      h: Hash, cfg: Config, w: World, files: Files, name: string, body: seq<byte>, clock: u32, now: u32, ticket: int)
    requires Soft(cfg) && Good(h, cfg, w) && FilesFit(h, w, files)
    requires name in w.disk.channels && w.disk.channels[name].tail > DiskHeadOf(w)
    requires HEADER_SIZE + |body| + MAGIC_SIZE < cfg.segmentSize
    ensures var w', id := AfterPush(h, cfg, AfterCrash(h, w, files), body, clock), DiskHeadOf(w);
            && w'.queue.log.head == id + 1 && id in w'.pushed && w'.pushed[id] == Message(clock, body)
            && name in w'.queue.channels && w'.queue.channels[name].flights == []
            && Queues.Get(w'.queue, cfg.messageTimeout, name, now, ticket).0
               == Reply.EndOfQueue(w.disk.channels[name].tail)
  {
    hide Good, FilesFit, Logs.Push, Logs.Get, Queues.Get, Queues.Recover, AfterCrash, Contents, RestartedLog;
    assert Tracked(w) by { GoodIsTracked(h, cfg, w); }
    AfterCrashIs(h, cfg, w, files);
    RestartedLogOk(h, cfg, w);
    var log, t := RestartedLog(w), w.disk.channels[name].tail;
    assert log.head == DiskHeadOf(w) < U64_RANGE by { RestartedHead(h, cfg, w, name); }
    PushSucceeds(h, cfg.segmentSize, log, body, clock);
    hide LogOk, DiskHeadOf;
    PushKeepsLogOk(h, cfg.segmentSize, log, body, clock);
    var w' := AfterPush(h, cfg, AfterCrash(h, w, files), body, clock);
    LogFacts(h, cfg.segmentSize, w'.queue.log);
    DenseGet(w'.queue.log, t);
    GetReplies(w'.queue, cfg.messageTimeout, name, now, ticket);
  }

  lemma GoodIsTracked(h: Hash, cfg: Config, w: World)
    requires Good(h, cfg, w)
    ensures Tracked(w)
  {
  }

  lemma RestartedHead(h: Hash, cfg: Config, w: World, name: string)
    requires Good(h, cfg, w) && RestartedLog(w).head == DiskHead(Left(w), Behind(w))
    requires name in w.disk.channels && w.disk.channels[name].tail > DiskHeadOf(w)
    ensures RestartedLog(w).head == DiskHeadOf(w) < U64_RANGE
  {
    TrackedLengths(w);
    hide DiskHead, Chained, WellFormed, Pristine, ChannelsOk;
  }

  // ----- a run into the window

  lemma RunExtends(h: Hash, cfg: Config, worlds: seq<World>, steps: seq<Step>, s: Step)
    requires IsRun(h, cfg, worlds, steps) && Can(h, worlds[|worlds| - 1], s)
    ensures IsRun(h, cfg, worlds + [Do(h, cfg, worlds[|worlds| - 1], s)], steps + [s])
  {
    hide Can, Do;
    var worlds', steps' := worlds + [Do(h, cfg, worlds[|worlds| - 1], s)], steps + [s];
    forall i | 0 <= i < |steps'|
      ensures IsStep(h, cfg, worlds'[i], steps'[i], worlds'[i + 1])
    {
      assert i < |steps| ==> IsStep(h, cfg, worlds[i], steps[i], worlds[i + 1]);
    }
  }

  const SMALL := Config(30, 1, 0, 0, 0, 0)

  const NOTHING := Message(0, [])

  /** A segment of the small size with one empty message. */
  ghost function One(h: Hash, id: nat, closed: bool): SegmentView {
    Segments.Push(h, Fresh(id, SMALL.segmentSize), [], 0).1.(closed := closed)
  }

  lemma OneIs(h: Hash, id: nat, closed: bool)
    ensures var s := One(h, id, closed);
            s.tail == id && s.messages == [NOTHING] && s.closed == closed && s.Head() == id + 1 && |s.file| == 30
  {
    hide Splice, Zeros, Record, Encode;
    assert [] + [NOTHING] == [NOTHING];
  }

  /** The first message goes to a new segment, and the second does not fit into it any more. */
  lemma TwoPushes(h: Hash)
    ensures Logs.Push(h, 30, Empty, [], 0) == (Pushed(1), Log([One(h, 1, false)], 2, 1))
    ensures Logs.Push(h, 30, Log([One(h, 1, false)], 2, 1), [], 0)
         == (Pushed(2), Log([One(h, 1, true), One(h, 2, false)], 3, 1))
  {
    hide Splice, Zeros, Record, Encode;
    OneIs(h, 1, false);
    assert End([NOTHING]) == 24 by { assert [NOTHING][..0] == []; }
    var a := One(h, 1, false);
    assert Segments.Push(h, a, [], 0) == (SegmentFull, a.(closed := true));
    assert [a][..0] + [a.(closed := true)] == [One(h, 1, true)];
    assert [One(h, 1, true)] + [One(h, 2, false)] == [One(h, 1, true), One(h, 2, false)];
    assert [] + [a] == [a];
  }

  const NAME := "c"

  /** The worlds of the run after the first push, the checkpoint and the second push. */
  ghost function Pushed1(h: Hash): World {
    World(Queue(Log([One(h, 1, false)], 2, 1), map[NAME := Created(2, 0)]),
          QueueCheckpoint([SegmentCheckpoint(1, 2, false)], map[NAME := ChannelCheckpoint(2, 0)]), 0, [], false,
          map[NAME := Promise(2, {})], map[1 := NOTHING], {}, None)
  }

  ghost function Pushed2(h: Hash): World {
    Pushed1(h).(queue := Queue(Log([One(h, 1, true), One(h, 2, false)], 3, 1), map[NAME := Created(2, 0)]),
                pushed := map[1 := NOTHING, 2 := NOTHING])
  }

  /** The worlds after the first push and after the channel is there. */
  ghost function Opening(h: Hash): World {
    Start.(queue := Queue(Log([One(h, 1, false)], 2, 1), map[]), pushed := map[1 := NOTHING])
  }

  ghost function WithChannel1(h: Hash): World {
    Opening(h).(queue := Queue(Log([One(h, 1, false)], 2, 1), map[NAME := Created(2, 0)]),
                promises := map[NAME := Promise(2, {})])
  }

  lemma FirstSteps(h: Hash) returns (worlds: seq<World>, steps: seq<Step>)
    ensures IsRun(h, SMALL, worlds, steps) && worlds[|worlds| - 1] == WithChannel1(h)
  {
    TwoPushes(h);
    hide One, Logs.Push;
    var a := Delivery.Push([], 0);
    worlds, steps := [Start], [];
    RunExtends(h, SMALL, worlds, steps, a);
    assert Do(h, SMALL, Start, a) == Opening(h);
    worlds, steps := worlds + [Opening(h)], steps + [a];
    hide IsRun;
    RunExtends(h, SMALL, worlds, steps, Create(NAME, 0, false));
    assert Do(h, SMALL, Opening(h), Create(NAME, 0, false)) == WithChannel1(h);
    worlds, steps := worlds + [WithChannel1(h)], steps + [Create(NAME, 0, false)];
  }

  lemma SavedFirst(h: Hash)
    ensures ChannelsSaved(SegmentsSaved(WithChannel1(h))) == Pushed1(h)
  {
    OneIs(h, 1, false);
    hide One;
    assert Listed([One(h, 1, false)], 1) == [One(h, 1, false)] by { ListedAll([One(h, 1, false)], 1); }
    assert RealTail(Created(2, 0)) == 2;
    var w := SegmentsSaved(WithChannel1(h));
    assert w.disk.segments == [SegmentCheckpoint(1, 2, false)];
    assert Left(w) == w.disk.segments && Behind(w) == [One(h, 1, false)];
    assert DiskHeadOf(w) == 2;
    var tails := ChannelCheckpoints(w.queue.channels);
    assert tails == map[NAME := ChannelCheckpoint(2, 0)];
    assert !ChannelsSaved(w).ahead;
  }

  lemma FirstHalf(h: Hash) returns (worlds: seq<World>, steps: seq<Step>)
    ensures IsRun(h, SMALL, worlds, steps) && worlds[|worlds| - 1] == Pushed2(h)
  {
    worlds, steps := FirstSteps(h);
    hide One, Logs.Push, IsRun, SegmentsSaved, ChannelsSaved;
    RunExtends(h, SMALL, worlds, steps, SaveSegments);
    var w := SegmentsSaved(WithChannel1(h));
    worlds, steps := worlds + [w], steps + [SaveSegments];
    RunExtends(h, SMALL, worlds, steps, SaveChannels);
    SavedFirst(h);
    worlds, steps := worlds + [Pushed1(h)], steps + [SaveChannels];
    var a := Delivery.Push([], 0);
    RunExtends(h, SMALL, worlds, steps, a);
    TwoPushes(h);
    assert Do(h, SMALL, Pushed1(h), a) == Pushed2(h) by {
      assert map[1 := NOTHING][2 := NOTHING] == map[1 := NOTHING, 2 := NOTHING];
    }
    worlds, steps := worlds + [Pushed2(h)], steps + [a];
  }

  /** Collection takes the first segment, which every channel has passed, and spares the open one. */
  lemma CollectsFirst(h: Hash)
    ensures var segs := [One(h, 1, true), One(h, 2, false)];
            GcCount(SMALL, segs, 2, 0) == 1
  {
    OneIs(h, 1, true);
    OneIs(h, 2, false);
    hide One;
    var segs := [One(h, 1, true), One(h, 2, false)];
    assert segs[1..] == [One(h, 2, false)];
  }

  /** The least real tail is read, and then the first segment is collected. */
  ghost function TailRead(h: Hash): World { Pushed2(h).(reading := Some(Reading({}, Some(2)))) }

  lemma SecondHalf(h: Hash) returns (worlds: seq<World>, steps: seq<Step>)
    ensures IsRun(h, SMALL, worlds, steps) && worlds[|worlds| - 1] == TailRead(h)
  {
    worlds, steps := FirstHalf(h);
    hide One, IsRun;
    var w5 := Pushed2(h).(reading := Some(Reading({NAME}, None)));
    RunExtends(h, SMALL, worlds, steps, StartMaintenance);
    assert Pushed2(h).queue.channels.Keys == {NAME};
    worlds, steps := worlds + [w5], steps + [StartMaintenance];
    RunExtends(h, SMALL, worlds, steps, ReadTail(NAME));
    assert RealTail(Created(2, 0)) == 2;
    assert AfterRead(w5, NAME) == TailRead(h) by { assert {NAME} - {NAME} == {}; }
    worlds, steps := worlds + [TailRead(h)], steps + [ReadTail(NAME)];
  }

  lemma CollectedFirst(h: Hash)
    ensures var w := AfterCollect(SMALL, TailRead(h), 0);
            w.doomed == [One(h, 1, true)] && w.disk == Pushed1(h).disk && w.gone == 0
  {
    CollectsFirst(h);
    hide One, GcCount, Gc;
    var w, segs := TailRead(h), [One(h, 1, true), One(h, 2, false)];
    assert |Left(w)| == 1;
    hide Left;
    assert ListedCount(w) == 1;
    hide ListedCount;
    assert segs[..1] == [One(h, 1, true)];
    assert [] + segs[..1] == segs[..1];
  }

  /** Some run ends with every listed file removed and a channel stranded. */
  lemma StrandedIsReachable(h: Hash) returns (worlds: seq<World>, steps: seq<Step>)
    ensures Soft(SMALL) && IsRun(h, SMALL, worlds, steps) && Stranded(worlds[|worlds| - 1])
  {
    worlds, steps := SecondHalf(h);
    hide One, IsRun, AfterCollect;
    RunExtends(h, SMALL, worlds, steps, Collect(0));
    var w7 := AfterCollect(SMALL, TailRead(h), 0);
    CollectedFirst(h);
    worlds, steps := worlds + [w7], steps + [Collect(0)];
    RunExtends(h, SMALL, worlds, steps, RemoveFile);
    var w8 := AfterRemoval(w7);
    worlds, steps := worlds + [w8], steps + [RemoveFile];
    assert w8.gone == 1 && Left(w8) == [];
    assert w8.disk.channels[NAME].tail == 2 > DiskHeadOf(w8);
  }

  // ----- a run that writes a tail beyond the listed segments

  /** The segments are listed, and then a second one is added. */
  ghost function Listed1(h: Hash): World {
    Opening(h).(disk := QueueCheckpoint([SegmentCheckpoint(1, 2, false)], map[]))
  }

  ghost function Added(h: Hash): World {
    Listed1(h).(queue := Queue(Log([One(h, 1, true), One(h, 2, false)], 3, 1), map[]),
                pushed := map[1 := NOTHING, 2 := NOTHING])
  }

  lemma ListsFirst(h: Hash)
    ensures SegmentsSaved(Opening(h)) == Listed1(h)
  {
    OneIs(h, 1, false);
    hide One;
    assert Listed([One(h, 1, false)], 1) == [One(h, 1, false)] by { ListedAll([One(h, 1, false)], 1); }
    assert SegmentsSaved(Opening(h)).disk.segments == [SegmentCheckpoint(1, 2, false)];
  }

  lemma AddsSecond(h: Hash) returns (worlds: seq<World>, steps: seq<Step>)
    ensures IsRun(h, SMALL, worlds, steps) && worlds[|worlds| - 1] == Added(h)
  {
    TwoPushes(h);
    hide One, Logs.Push, SegmentsSaved;
    var a := Delivery.Push([], 0);
    worlds, steps := [Start], [];
    RunExtends(h, SMALL, worlds, steps, a);
    assert Do(h, SMALL, Start, a) == Opening(h);
    worlds, steps := worlds + [Opening(h)], steps + [a];
    hide IsRun;
    RunExtends(h, SMALL, worlds, steps, SaveSegments);
    ListsFirst(h);
    worlds, steps := worlds + [Listed1(h)], steps + [SaveSegments];
    RunExtends(h, SMALL, worlds, steps, a);
    assert Do(h, SMALL, Listed1(h), a) == Added(h) by {
      assert map[1 := NOTHING][2 := NOTHING] == map[1 := NOTHING, 2 := NOTHING];
    }
    worlds, steps := worlds + [Added(h)], steps + [a];
  }

  lemma TailIsLate(h: Hash, w: World)
    requires w == Added(h).(queue := Added(h).queue.(channels := map[NAME := Created(3, 0)]),
                            promises := map[NAME := Promise(3, {})])
    ensures Stranded(ChannelsSaved(w)) && ChannelsSaved(w).gone == 0
  {
    OneIs(h, 1, true);
    hide One;
    var w' := ChannelsSaved(w);
    assert RealTail(Created(3, 0)) == 3;
    assert w'.disk.channels[NAME].tail == 3;
    assert Left(w') == [SegmentCheckpoint(1, 2, false)];
    assert Behind(w')[0] == One(h, 1, true);
    assert DiskHeadOf(w') == 2;
  }

  /** Some run strands a channel without removing any file. */
  lemma LateTailIsReachable(h: Hash) returns (worlds: seq<World>, steps: seq<Step>)
    ensures IsRun(h, SMALL, worlds, steps) && Stranded(worlds[|worlds| - 1]) && worlds[|worlds| - 1].gone == 0
  {
    worlds, steps := AddsSecond(h);
    hide One, IsRun, ChannelsSaved, Stranded;
    RunExtends(h, SMALL, worlds, steps, Create(NAME, 0, false));
    var w := AfterCreate(Added(h), NAME, 0, false);
    worlds, steps := worlds + [w], steps + [Create(NAME, 0, false)];
    RunExtends(h, SMALL, worlds, steps, SaveChannels);
    TailIsLate(h, w);
    worlds, steps := worlds + [ChannelsSaved(w)], steps + [SaveChannels];
  }

  // ----- a queue emptied by a purge

  /** What a purge of the whole queue does. */
  function QueuePurged(q: Queue): Queue {
    Queue(Purged(q.log), map n | n in q.channels :: PurgedWithQueue(q.channels[n], q.log.head))
  }

  /** Nothing keeps a segment that every channel has passed. */
  predicate Unretained(cfg: Config) {
    cfg.hardRetentionPeriod == 0 && cfg.hardRetentionSize == 0 && cfg.retentionPeriod == 0 && cfg.retentionSize == 0
  }

  lemma CollectsAll(h: Hash, cfg: Config, log: Log, clock: u32)
    requires Shape(h, log) && Unretained(cfg)
    ensures Gc(cfg, Purged(log), log.head, clock) == Log([], log.head, log.head)
  {
    hide WellFormed, GcCount, TotalSize;
    PurgeKeepsShape(h, log);
    var log' := Purged(log);
    var n := GcCount(cfg, log'.segments, log.head, clock);
    EndsByLast(log'.segments);
  }

  lemma PurgedTails(q: Queue, smallest: nat)
    requires q.channels != map[]
    requires forall n :: n in q.channels ==> HeapOk(q.channels[n]) && q.channels[n].flights == []
    ensures forall n :: n in q.channels ==> RealTail(QueuePurged(q).channels[n]) == q.log.head
    ensures IsSmallestTail(QueuePurged(q).channels, smallest) ==> smallest == q.log.head
  {
    var q' := QueuePurged(q);
    forall n | n in q.channels
      ensures RealTail(q'.channels[n]) == q.log.head
    {
      NothingInHeap(q.channels[n]);
    }
    assert q'.channels.Keys == q.channels.Keys;
    hide RealTail;
    if IsSmallestTail(q'.channels, smallest) {
      assert q'.channels != map[];
    }
  }

  lemma NothingInHeap(c: ChannelView)
    requires HeapOk(c) && c.flights == []
    ensures c.heap == multiset{}
  {
    assert forall e :: e !in c.heap;
  }

  /**
   * A purge of the whole queue with nothing in flight, maintenance, its checkpoint and a restart leave
   * an empty log at id 1 and every channel at the old head, so that what is pushed next is lost to
   * all of them unless nothing had ever been pushed.
   */
  lemma PurgeStrandsAll(h: Hash, cfg: Config, q: Queue, smallest: nat, clock: u32, files: Files)
    requires Shape(h, q.log) && Unretained(cfg) && q.channels != map[]
    requires forall n :: n in q.channels ==> HeapOk(q.channels[n]) && q.channels[n].flights == []
    requires IsSmallestTail(QueuePurged(q).channels, smallest)
    ensures var q' := QueuePurged(q).(log := Gc(cfg, Purged(q.log), smallest, clock));
            var r := Queues.Recover(h, Queues.Checkpoint(q'), files);
            && r.Some? && r.value.log == Empty && r.value.channels.Keys == q.channels.Keys
            && forall n :: n in q.channels ==> r.value.channels[n] == Created(q.log.head, q.channels[n].lastTouched)
  {
    PurgedTails(q, smallest);
    CollectsAll(h, cfg, q.log, clock);
    hide RealTail, Gc, IsSmallestTail;
  }
}
