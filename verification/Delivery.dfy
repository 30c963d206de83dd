/**
 * At-least-once delivery: runs of a queue with pushes, deliveries, acknowledgements, maintenance
 * that reads one channel at a time, collects, removes files and checkpoints in steps of their own, and
 * crashes that restart from the last checkpoint.
 */
module Delivery {
  import opened Bytes
  import opened Records
  import opened Segments
  import opened Logs
  import opened Channels
  import opened ChannelLaws
  import opened ChannelRuns
  import opened Retention
  import opened Restart
  import opened Queues
  import opened Remnants
  import Damage

  /**
   * What a channel is owed: every message from id `start` on, except the ids in `done`, which
   * were acknowledged or skipped by a seek.
   */
  datatype Promise = Promise(start: nat, done: set<nat>)

  /** Maintenance under way: the channels still to read, and the least real tail read so far. */
  datatype Reading = Reading(pending: set<string>, smallest: Option<nat>)

  /**
   * A queue and what it leaves on disk. Of the segments that the checkpoint lists, the first `gone`
   * have lost their files, the files of the `doomed` ones are about to be removed, and the rest are
   * the first segments of the log. A tail `ahead` was written to the channel file that is beyond the
   * segments listed in the file written before it.
   */
  datatype World = World(
    queue: Queue,
    disk: QueueCheckpoint,
    gone: nat,
    doomed: seq<SegmentView>,
    ahead: bool,
    promises: map<string, Promise>,
    pushed: map<nat, Message>,
    issued: set<int>,
    reading: Option<Reading>)

  datatype Step =
    | Push(body: seq<byte>, clock: u32)
    | Create(name: string, clock: u32, seen: bool)
    | Delete(name: string)
    | Get(name: string, clock: u32, ticket: int)
    | Ack(name: string, ticket: int, clock: u32)
    | Update(name: string, clock: u32)
    | PurgeChannel(name: string, clock: u32)
    | Seek(name: string, id: nat, clock: u32)
    | StartMaintenance
    | ReadTail(name: string)
    | Collect(clock: u32)
    | RemoveFile
    | SaveSegments
    | SaveChannels
    | Crash(files: Files)

  /** Retention never forces unread messages out, and segments can be created. */
  predicate Soft(cfg: Config) {
    cfg.hardRetentionPeriod == 0 && cfg.hardRetentionSize == 0 && ValidFileLen(cfg.segmentSize)
  }

  const Start := World(Queue(Empty, map[]), QueueCheckpoint([], map[]), 0, [], false, map[], map[], {}, None)

  // ----- the invariant

  /** Every id the channel is owed is stored, and is still to be read or in flight. */
  ghost predicate Owed(c: ChannelView, p: Promise, log: Log) {
    forall id :: p.start <= id < log.head && id !in p.done ==> id >= log.tail && (id >= c.tail || id in Ids(c.flights))
  }

  ghost predicate FlightsStored(c: ChannelView, log: Log) {
    forall id :: id in Ids(c.flights) ==> id >= log.tail
  }

  ghost predicate ChannelOk(c: ChannelView, p: Promise, log: Log, issued: set<int>) {
    && HeapOk(c)
    && Issued(c, issued)
    && FlightsStored(c, log)
    && c.tail <= log.head
    && Owed(c, p, log)
  }

  ghost predicate ChannelsOk(w: World) {
    && w.promises.Keys == w.queue.channels.Keys
    && forall n :: n in w.queue.channels ==>
         ChannelOk(w.queue.channels[n], w.promises[n], w.queue.log, w.issued)
  }

  ghost predicate AllPristine(h: Hash, segs: seq<SegmentView>) {
    forall i :: 0 <= i < |segs| ==> Pristine(h, segs[i])
  }

  /** The log has no holes, its files are as written, and its last segment takes appends. */
  ghost predicate LogOk(h: Hash, size: nat, log: Log) {
    && Shape(h, log)
    && Dense(log)
    && AllPristine(h, log.segments)
    && (forall i :: 0 <= i < |log.segments| ==> |log.segments[i].file| == size)
    && 1 <= log.tail
    && (if log.segments == [] then log.head == 1 else !log.segments[|log.segments| - 1].closed)
  }

  /** What is stored is what was pushed. */
  ghost predicate StoredOk(segs: seq<SegmentView>, pushed: map<nat, Message>) {
    forall id :: id in Contents(segs) ==> id in pushed && pushed[id] == Contents(segs)[id]
  }

  /** The entries list the first of the segments, all closed but the last. */
  ghost predicate DiskListsPrefix(cps: seq<SegmentCheckpoint>, segs: seq<SegmentView>) {
    && |cps| <= |segs|
    && forall i :: 0 <= i < |cps| ==> cps[i].tail == segs[i].tail && (cps[i].closed <==> i < |cps| - 1)
  }

  /** The head of the last of the segments that the entries list. */
  function DiskHead(cps: seq<SegmentCheckpoint>, segs: seq<SegmentView>): nat
    requires |cps| <= |segs|
  {
    if cps == [] then 1 else segs[|cps| - 1].Head()
  }

  /** A restart from the checkpointed tail would not skip anything the channel is owed. */
  ghost predicate DiskOwed(t: nat, p: Promise, head: nat) {
    forall id :: p.start <= id < head && id !in p.done ==> id >= t
  }

  /** The listed entries whose files are still there. */
  function Left(w: World): seq<SegmentCheckpoint> {
    w.disk.segments[Min(w.gone, |w.disk.segments|)..]
  }

  /** How many segments of the log are listed. */
  function ListedCount(w: World): nat {
    Min(|Left(w)| - Min(|w.doomed|, |Left(w)|), |w.queue.log.segments|)
  }

  /** The segments that the entries left begin to list. */
  function Behind(w: World): seq<SegmentView> { w.doomed + w.queue.log.segments }

  ghost predicate Tracked(w: World) {
    w.gone <= |w.disk.segments| && |w.doomed| <= |Left(w)| && DiskListsPrefix(Left(w), Behind(w))
  }

  /** Every file that the checkpoint lists is gone. */
  predicate Emptied(w: World) { w.gone > 0 && w.gone == |w.disk.segments| }

  /** The head a restart would come back with. */
  function DiskHeadOf(w: World): nat {
    if |Left(w)| <= |Behind(w)| then DiskHead(Left(w), Behind(w)) else 1
  }

  /** A channel would come back with a tail beyond the head of the log. */
  ghost predicate Stranded(w: World) {
    exists n :: n in w.disk.channels && w.disk.channels[n].tail > DiskHeadOf(w)
  }

  ghost predicate DiskOk(w: World) {
    && Tracked(w)
    && (forall n :: n in w.disk.channels ==>
          && w.disk.channels[n].tail <= w.queue.log.head
          && (w.ahead || Emptied(w) || w.disk.channels[n].tail <= DiskHead(Left(w), Behind(w))))
    && (forall n :: n in w.disk.channels && n in w.promises ==>
          DiskOwed(w.disk.channels[n].tail, w.promises[n], w.queue.log.head))
  }

  /** The doomed segments are as written, hold what was pushed, and lead up to the listed part of the log. */
  ghost predicate DoomedOk(h: Hash, size: nat, w: World) {
    && AllPristine(h, w.doomed)
    && (forall i :: 0 <= i < |w.doomed| ==> |w.doomed[i].file| == size)
    && StoredOk(w.doomed, w.pushed)
    && w.gone <= |w.disk.segments|
    && (w.doomed != [] ==>
          var end := w.doomed[|w.doomed| - 1].Head();
          && Chained(w.doomed, w.doomed[0].tail, end) && end <= w.queue.log.tail
          && (|Left(w)| > |w.doomed| ==> end == w.queue.log.tail))
  }

  /** What maintenance has read so far is still a lower bound. */
  ghost predicate ReadingOk(w: World) {
    w.reading.Some? ==>
      var rd := w.reading.value;
      && rd.pending <= w.queue.channels.Keys
      && (rd.smallest.Some? ==> rd.smallest.value <= w.queue.log.head)
      && forall n :: n in w.queue.channels && n !in rd.pending ==>
           rd.smallest.Some? && rd.smallest.value <= RealTail(w.queue.channels[n])
  }

  ghost predicate Good(h: Hash, cfg: Config, w: World) {
    && LogOk(h, cfg.segmentSize, w.queue.log)
    && StoredOk(w.queue.log.segments, w.pushed)
    && ChannelsOk(w)
    && DiskOk(w)
    && DoomedOk(h, cfg.segmentSize, w)
    && ReadingOk(w)
  }

  // ----- the log under a push

  /** Segments keep their place and only grow. */
  ghost predicate Grows(segs: seq<SegmentView>, segs': seq<SegmentView>) {
    && |segs| <= |segs'|
    && forall i :: 0 <= i < |segs| ==> segs'[i].tail == segs[i].tail && segs'[i].Head() >= segs[i].Head()
  }

  /** What appending to one segment, and perhaps to a new one after it, does to the list. */
  lemma PushShape(h: Hash, size: nat, log: Log, body: seq<byte>, clock: u32)
    requires LogOk(h, size, log) && ValidFileLen(size) && log.head < U64_RANGE
    ensures var log' := Logs.Push(h, size, log, body, clock).1;
            && AllPristine(h, log'.segments)
            && log'.segments != [] && !log'.segments[|log'.segments| - 1].closed
            && Grows(log.segments, log'.segments)
  {
    hide Segments.Push, Pristine, Fresh, Shape, Chained;
    var segs := log.segments;
    FreshIsPristine(h, log.head, size) by { DenseBounds(log); }
    FreshOpen(h, log.head, size, body, clock);
    PushKeepsPristine(h, Fresh(log.head, size), body, clock);
    PushClosed(h, Fresh(log.head, size), body, clock);
    if segs != [] {
      var last := segs[|segs| - 1];
      LastHead(h, log);
      PushKeepsPristine(h, last, body, clock);
      PushClosed(h, last, body, clock);
    }
  }

  lemma DenseBounds(log: Log)
    requires Dense(log)
    ensures log.tail <= log.head
  {
    hide Contents;
    ChainedContents(log.segments, log.tail, log.head);
  }

  lemma LastHead(h: Hash, log: Log)
    requires Shape(h, log) && log.segments != []
    ensures log.segments[|log.segments| - 1].Head() == log.head
  {
  }

  lemma PushClosed(h: Hash, s: SegmentView, body: seq<byte>, clock: u32)
    ensures var (r, s') := Segments.Push(h, s, body, clock);
            && s'.tail == s.tail && s'.Head() >= s.Head()
            && (r.SegmentFull? ==> s'.closed) && (!r.SegmentFull? ==> s'.closed == s.closed)
  {
    hide Splice, Record;
  }

  lemma FreshOpen(h: Hash, startId: nat, size: nat, body: seq<byte>, clock: u32)
    requires ValidFileLen(size)
    ensures !Segments.Push(h, Fresh(startId, size), body, clock).1.closed
    ensures Fresh(startId, size).tail == Fresh(startId, size).Head() == startId
  {
    hide Splice, Record, Zeros;
    FreshAccepts(h, startId, size, body, clock);
  }

  lemma PushKeepsLogOk(h: Hash, size: nat, log: Log, body: seq<byte>, clock: u32)
    requires LogOk(h, size, log) && ValidFileLen(size) && log.head < U64_RANGE
    ensures var (r, log') := Logs.Push(h, size, log, body, clock);
            && LogOk(h, size, log')
            && Grows(log.segments, log'.segments)
            && Extends(log, body, clock, r, log')
  {
    hide Logs.Push, Shape, Dense, AllPristine, Extends, Grows;
    PushKeepsShape(h, size, log, body, clock);
    PushKeepsDense(h, size, log, body, clock);
    PushSucceeds(h, size, log, body, clock);
    PushShape(h, size, log, body, clock);
    PushExtends(h, size, log, body, clock);
    assert Logs.Push(h, size, log, body, clock).1.tail == log.tail by { ExtendsTail(h, size, log, body, clock); }
  }

  lemma ExtendsTail(h: Hash, size: nat, log: Log, body: seq<byte>, clock: u32)
    ensures Logs.Push(h, size, log, body, clock).1.tail == log.tail
  {
    hide Segments.Push, Fresh;
  }

  // ----- the steps

  /** When a step can happen: tickets are new, and a new channel is not missed by maintenance. */
  ghost predicate Can(h: Hash, w: World, s: Step) {
    match s
    case Push(_, _) => w.queue.log.head < U64_RANGE
    case Create(name, _, seen) => SafeToCreate(w, name, seen)
    case Get(_, _, ticket) => ticket !in w.issued
    case Seek(name, id, _) =>
      name in w.queue.channels ==> w.queue.channels[name].tail <= id <= w.queue.log.head
    case ReadTail(name) => w.reading.Some? && name in w.queue.channels
    case Collect(_) => w.reading.Some? && w.reading.value.pending == {}
    case RemoveFile => w.doomed != []
    case Crash(files) => FilesFit(h, w, files) && !Stranded(w)
    case _ => true
  }

  /**
   * A channel that is created while maintenance reads tails has to be read too, or come after the
   * first reading, which bounds its tail.
   */
  predicate SafeToCreate(w: World, name: string, seen: bool) {
    name in w.queue.channels || w.reading.None? || seen || w.reading.value.smallest.Some?
  }

  /** The files that a crash leaves: those removed are missing, and the others that are listed are intact. */
  ghost predicate FilesFit(h: Hash, w: World, files: Files) {
    && (forall i :: 0 <= i < Min(w.gone, |w.disk.segments|) ==> w.disk.segments[i].tail !in files)
    && Intact(h, Behind(w)[..Min(|Left(w)|, |Behind(w)|)], files)
  }

  ghost function SmallestRead(rd: Reading): nat {
    if rd.smallest.None? then 0 else rd.smallest.value
  }

  /** The file with the segments is written. */
  function SegmentsSaved(w: World): World {
    w.(disk := w.disk.(segments := Restart.Checkpoint(w.queue.log)), gone := 0, doomed := [], ahead := false)
  }

  /** The file with the channels is written. */
  ghost function ChannelsSaved(w: World): World {
    var tails := ChannelCheckpoints(w.queue.channels);
    w.(disk := w.disk.(channels := tails), ahead := exists n :: n in tails && tails[n].tail > DiskHeadOf(w))
  }

  /** After a restart, what was not on disk is gone, and its ids will be given out again. */
  ghost function Restarted(w: World, q: Queue): World {
    var head := q.log.head;
    World(
      q, w.disk, w.gone, [], false,
      map n | n in w.disk.channels ::
        if n in w.promises then
          Promise(Min(w.promises[n].start, head), set id | id in w.promises[n].done && id < head)
        else Promise(head, {}),
      map id | id in w.pushed && id < head :: w.pushed[id],
      w.issued, None)
  }

  function Min(a: nat, b: nat): nat { if a <= b then a else b }

  ghost function AckedId(c: ChannelView, ticket: int, clock: u32): set<nat> {
    if CanAck(c, ticket, clock) then {c.flights[IndexOf(c.flights, ticket)].id} else {}
  }

  ghost function Skipped(from: nat, until: nat): (r: set<nat>)
    ensures forall id: nat :: id in r <==> from <= id < until
    decreases until
  {
    if from >= until then {} else Skipped(from, until - 1) + {until - 1}
  }

  ghost function AfterPush(h: Hash, cfg: Config, w: World, body: seq<byte>, clock: u32): World {
    var (r, log) := Logs.Push(h, cfg.segmentSize, w.queue.log, body, clock);
    w.(queue := w.queue.(log := log),
       pushed := if r.Pushed? then w.pushed[w.queue.log.head := Message(clock, body)] else w.pushed)
  }

  ghost function AfterCreate(w: World, name: string, clock: u32, seen: bool): World {
    if name in w.queue.channels then w
    else
      var rd := w.reading;
      w.(queue := CreateChannel(w.queue, name, clock).1,
         promises := w.promises[name := Promise(w.queue.log.head, {})],
         reading := if rd.Some? && seen then Some(rd.value.(pending := rd.value.pending + {name})) else rd)
  }

  ghost function AfterDelete(w: World, name: string): World {
    var rd := w.reading;
    w.(queue := DeleteChannel(w.queue, name).1,
       promises := w.promises - {name},
       reading := if rd.Some? then Some(rd.value.(pending := rd.value.pending - {name})) else rd)
  }

  /** Replaces one channel, its promise and the tickets given out. */
  ghost function WithChannel(w: World, name: string, c: ChannelView, p: Promise, issued: set<int>): World {
    w.(queue := w.queue.(channels := w.queue.channels[name := c]), promises := w.promises[name := p], issued := issued)
  }

  ghost function AfterGet(cfg: Config, w: World, name: string, clock: u32, ticket: int): World {
    w.(queue := Queues.Get(w.queue, cfg.messageTimeout, name, clock, ticket).1, issued := w.issued + {ticket})
  }

  ghost function AfterAck(w: World, name: string, ticket: int, clock: u32): World {
    if name !in w.queue.channels || name !in w.promises then w
    else
      var p := w.promises[name];
      w.(queue := Queues.Ack(w.queue, name, ticket, clock).1,
         promises := w.promises[name := p.(done := p.done + AckedId(w.queue.channels[name], ticket, clock))])
  }

  ghost function AfterUpdate(w: World, name: string, clock: u32): World {
    if name !in w.queue.channels then w
    else w.(queue := w.queue.(channels := w.queue.channels[name := Expire(w.queue.channels[name], clock)]))
  }

  ghost function AfterPurge(w: World, name: string, clock: u32): World {
    if name !in w.queue.channels then w
    else w.(queue := Queues.Purge(w.queue, name, clock).1,
            promises := w.promises[name := Promise(w.queue.log.head, {})])
  }

  ghost function AfterSeek(w: World, name: string, id: nat, clock: u32): World {
    if name !in w.queue.channels || name !in w.promises then w
    else
      var p := w.promises[name];
      w.(queue := SeekTo(w.queue, name, id, clock).1,
         promises := w.promises[name := p.(done := p.done + Skipped(w.queue.channels[name].tail, id))])
  }

  ghost function AfterRead(w: World, name: string): World
    requires w.reading.Some? && name in w.queue.channels
  {
    var t, rd := RealTail(w.queue.channels[name]), w.reading.value;
    var least := if rd.smallest.None? then t else Min(rd.smallest.value, t);
    w.(reading := Some(Reading(rd.pending - {name}, Some(least))))
  }

  /** Collects with what was read; the listed files of what is collected are doomed. */
  ghost function AfterCollect(cfg: Config, w: World, clock: u32): World
    requires w.reading.Some?
  {
    var log, smallest := w.queue.log, SmallestRead(w.reading.value);
    var n := Min(GcCount(cfg, log.segments, smallest, clock), ListedCount(w));
    w.(queue := w.queue.(log := Gc(cfg, log, smallest, clock)), doomed := w.doomed + log.segments[..n], reading := None)
  }

  ghost function AfterRemoval(w: World): World
    requires w.doomed != []
  {
    w.(gone := w.gone + 1, doomed := w.doomed[1..])
  }

  ghost function AfterCrash(h: Hash, w: World, files: Files): World {
    match Queues.Recover(h, w.disk, files)
    case None => w
    case Some(q) => Restarted(w, q)
  }

  ghost function Do(h: Hash, cfg: Config, w: World, s: Step): World
    requires Can(h, w, s)
  {
    match s
    case Push(body, clock) => AfterPush(h, cfg, w, body, clock)
    case Create(name, clock, seen) => AfterCreate(w, name, clock, seen)
    case Delete(name) => AfterDelete(w, name)
    case Get(name, clock, ticket) => AfterGet(cfg, w, name, clock, ticket)
    case Ack(name, ticket, clock) => AfterAck(w, name, ticket, clock)
    case Update(name, clock) => AfterUpdate(w, name, clock)
    case PurgeChannel(name, clock) => AfterPurge(w, name, clock)
    case Seek(name, id, clock) => AfterSeek(w, name, id, clock)
    case StartMaintenance => w.(reading := Some(Reading(w.queue.channels.Keys, None)))
    case ReadTail(name) => AfterRead(w, name)
    case Collect(clock) => AfterCollect(cfg, w, clock)
    case RemoveFile => AfterRemoval(w)
    case SaveSegments => SegmentsSaved(w)
    case SaveChannels => ChannelsSaved(w)
    case Crash(files) => AfterCrash(h, w, files)
  }

  // ----- steps of one channel

  /** What the new promise owes, the old one owed, or it is not yet stored. */
  ghost predicate OwesNoMore(p: Promise, p': Promise, head: nat) {
    forall id :: p'.start <= id < head && id !in p'.done ==> p.start <= id && id !in p.done
  }

  /** A change to one channel that keeps it well and does not move its real tail back. */
  lemma OneChannelStep(h: Hash, cfg: Config, w: World, name: string, c': ChannelView, p': Promise, issued: set<int>)
    requires Good(h, cfg, w) && name in w.queue.channels && w.issued <= issued
    requires ChannelOk(c', p', w.queue.log, issued)
    requires RealTail(w.queue.channels[name]) <= RealTail(c')
    requires OwesNoMore(w.promises[name], p', w.queue.log.head)
    ensures Good(h, cfg, WithChannel(w, name, c', p', issued))
  {
    hide LogOk, StoredOk, HeapOk, RealTail, Owed, FlightsStored, DiskListsPrefix, DiskHead, Issued, DoomedOk;
    var w' := WithChannel(w, name, c', p', issued);
    forall n | n in w'.queue.channels
      ensures ChannelOk(w'.queue.channels[n], w'.promises[n], w'.queue.log, w'.issued)
    {
      if n != name {
        IssuedGrows(w.queue.channels[n], w.issued, w'.issued);
      }
    }
    hide ChannelOk;
    assert DoomedOk(h, cfg.segmentSize, w') by { DoomedSame(h, cfg.segmentSize, w, w'); }
    forall n | n in w'.disk.channels && n in w'.promises
      ensures DiskOwed(w'.disk.channels[n].tail, w'.promises[n], w'.queue.log.head)
    {
      assert DiskOwed(w.disk.channels[n].tail, w.promises[n], w.queue.log.head);
    }
  }

  lemma DoomedSame(h: Hash, size: nat, w: World, w': World)
    requires DoomedOk(h, size, w) && w'.disk.segments == w.disk.segments && w'.gone == w.gone && w'.doomed == w.doomed
    requires w'.queue.log.tail == w.queue.log.tail && w'.pushed == w.pushed
    ensures DoomedOk(h, size, w')
  {
  }

  lemma IssuedGrows(c: ChannelView, issued: set<int>, issued': set<int>)
    requires Issued(c, issued) && issued <= issued'
    ensures Issued(c, issued')
  {
  }

  /** The id that a channel reads next: what is below the tail of the log is not owed to it. */
  function NextId(log: Log, c: ChannelView): nat { Max(c.tail, log.tail) }

  /** A lookup at the tail of a channel finds exactly the next id. */
  lemma NextIsFound(log: Log, c: ChannelView)
    requires Dense(log) && Ordered(log.segments) && c.tail <= log.head && log.tail <= log.head
    ensures var next := Logs.Get(log.segments, c.tail);
            if NextId(log, c) < log.head then next.Some? && next.value.id == NextId(log, c) else next == None
  {
    hide Logs.Get, Contents, Chained;
    ChainedContents(log.segments, log.tail, log.head);
    GetIsCeiling(log.segments, c.tail);
    var k := NextId(log, c);
    assert k < log.head ==> k in Contents(log.segments);
  }

  lemma GetKeepsChannelOk(c: ChannelView, p: Promise, log: Log, issued: set<int>, clock: u32, timeout: u32, ticket: int)
    requires Dense(log) && Ordered(log.segments)
    requires ChannelOk(c, p, log, issued) && ticket !in issued
    ensures var c' := Channels.Get(c, clock, timeout, ticket, Logs.Get(log.segments, c.tail)).1;
            ChannelOk(c', p, log, issued + {ticket}) && RealTail(c) <= RealTail(c')
  {
    hide HeapOk, RealTail, Logs.Get, Channels.Get, Chained, Ordered, Issued, FreshFor;
    var next := Logs.Get(log.segments, c.tail);
    DenseBounds(log);
    NextIsFound(log, c);
    UnissuedIsFresh(c, issued, ticket);
    var s := ChannelLaws.Get(clock, timeout, ticket, next);
    StepKeepsRealTail(c, s);
    StepKeepsIssued(c, s, issued);
    HeapOkDistinct(c);
    GetMembers(c, clock, timeout, ticket, next);
  }

  lemma AckKeepsChannelOk(c: ChannelView, p: Promise, log: Log, issued: set<int>, ticket: int, clock: u32)
    requires ChannelOk(c, p, log, issued)
    ensures var c' := Channels.Ack(c, ticket, clock).1;
            && ChannelOk(c', p.(done := p.done + AckedId(c, ticket, clock)), log, issued)
            && RealTail(c) <= RealTail(c')
  {
    hide HeapOk, RealTail, Channels.Ack, Issued, CanAck;
    var s := ChannelLaws.Ack(ticket, clock);
    StepKeepsRealTail(c, s);
    StepKeepsIssued(c, s, issued);
    HeapOkDistinct(c);
    AckMembers(c, ticket, clock);
  }

  lemma UpdateKeepsChannelOk(c: ChannelView, p: Promise, log: Log, issued: set<int>, clock: u32)
    requires ChannelOk(c, p, log, issued)
    ensures ChannelOk(Expire(c, clock), p, log, issued) && RealTail(c) <= RealTail(Expire(c, clock))
  {
    hide HeapOk, RealTail, Issued, Expire;
    var s := ChannelLaws.Update(clock);
    StepKeepsRealTail(c, s);
    StepKeepsIssued(c, s, issued);
    ExpireKeepsFlights(c, clock);
    SameMembers(c.flights, Expire(c, clock).flights);
  }

  lemma SeekKeepsChannelOk(c: ChannelView, p: Promise, log: Log, issued: set<int>, id: nat, clock: u32)
    requires ChannelOk(c, p, log, issued) && c.tail <= id <= log.head
    ensures var c' := Channels.Seek(c, id, clock);
            && ChannelOk(c', p.(done := p.done + Skipped(c.tail, id)), log, issued)
            && RealTail(c) <= RealTail(c')
  {
    hide HeapOk, RealTail, Issued;
    var s := ChannelLaws.Seek(id, clock);
    StepKeepsRealTail(c, s);
    StepKeepsIssued(c, s, issued);
  }

  lemma EmptyChannelOk(c: ChannelView, p: Promise, log: Log, issued: set<int>)
    requires c.flights == [] && c.heap == multiset{} && c.tail <= log.head
    requires Owed(c, p, log)
    ensures ChannelOk(c, p, log, issued) && RealTail(c) == c.tail
  {
    EmptyHeapOk(c);
  }

  // ----- every step keeps the invariant

  lemma LogFacts(h: Hash, size: nat, log: Log)
    requires LogOk(h, size, log)
    ensures Dense(log) && Ordered(log.segments) && log.tail <= log.head
  {
    hide WellFormed, Chained;
    DenseBounds(log);
  }

  /** Appending owes each channel at most the new message, which is above its tail. */
  lemma OwedAfterPush(c: ChannelView, p: Promise, log: Log, log': Log, issued: set<int>)
    requires ChannelOk(c, p, log, issued) && log'.tail == log.tail <= log.head <= log'.head <= log.head + 1
    ensures ChannelOk(c, p, log', issued)
  {
    hide HeapOk, RealTail, Issued;
  }

  lemma DiskAfterPush(w: World, w': World)
    requires DiskOk(w) && DiskHead(Left(w), Behind(w)) <= w.queue.log.head
    requires w'.disk == w.disk && w'.promises == w.promises && w'.gone == w.gone && w'.doomed == w.doomed
    requires w'.ahead == w.ahead
    requires w.queue.log.head <= w'.queue.log.head <= w.queue.log.head + 1
    requires Grows(w.queue.log.segments, w'.queue.log.segments)
    ensures DiskOk(w')
  {
    var log, log' := w.queue.log, w'.queue.log;
    assert Grows(Behind(w), Behind(w'));
    forall n | n in w.disk.channels
      ensures w.ahead || Emptied(w) || w.disk.channels[n].tail <= DiskHead(Left(w'), Behind(w'))
      ensures w.disk.channels[n].tail <= log.head
      ensures n in w.promises ==> DiskOwed(w.disk.channels[n].tail, w.promises[n], log'.head)
    {
      assert w.ahead || Emptied(w) || w.disk.channels[n].tail <= DiskHead(Left(w), Behind(w));
      assert n in w.promises ==> DiskOwed(w.disk.channels[n].tail, w.promises[n], log.head);
    }
  }

  /** A new id is not stored in a doomed segment. */
  lemma DoomedAfterPush(h: Hash, size: nat, w: World, w': World, m: Message)
    requires DoomedOk(h, size, w) && w.queue.log.tail <= w.queue.log.head
    requires w'.disk.segments == w.disk.segments && w'.gone == w.gone && w'.doomed == w.doomed
    requires w'.queue.log.tail == w.queue.log.tail
    requires w'.pushed == w.pushed || w'.pushed == w.pushed[w.queue.log.head := m]
    ensures DoomedOk(h, size, w')
  {
    hide Pristine, Contents, Chained;
    if w.doomed != [] {
      ChainedContents(w.doomed, w.doomed[0].tail, w.doomed[|w.doomed| - 1].Head());
    } else {
      assert Contents([]) == map[] by { NothingStored(); }
    }
  }

  lemma PushStep(h: Hash, cfg: Config, w: World, body: seq<byte>, clock: u32)
    requires Soft(cfg) && Good(h, cfg, w) && w.queue.log.head < U64_RANGE
    ensures Good(h, cfg, AfterPush(h, cfg, w, body, clock))
  {
    hide LogOk, ChannelOk, RealTail, Logs.Push, Contents, Grows, DiskOk, DiskHead, DoomedOk;
    var log, w' := w.queue.log, AfterPush(h, cfg, w, body, clock);
    PushKeepsLogOk(h, cfg.segmentSize, log, body, clock);
    var log' := w'.queue.log;
    assert StoredOk(log'.segments, w'.pushed);
    LogFacts(h, cfg.segmentSize, log);
    hide Extends, StoredOk;
    forall n | n in w.queue.channels
      ensures ChannelOk(w.queue.channels[n], w.promises[n], log', w.issued)
    {
      OwedAfterPush(w.queue.channels[n], w.promises[n], log, log', w.issued);
    }
    DiskHeadBound(h, cfg, w);
    DiskAfterPush(w, w');
    DoomedAfterPush(h, cfg.segmentSize, w, w', Message(clock, body));
  }

  lemma DiskHeadBound(h: Hash, cfg: Config, w: World)
    requires LogOk(h, cfg.segmentSize, w.queue.log) && DiskOk(w) && DoomedOk(h, cfg.segmentSize, w)
    ensures Tracked(w) && DiskHead(Left(w), Behind(w)) <= w.queue.log.head
  {
    hide WellFormed, Chained, Pristine;
    var log, k := w.queue.log, |Left(w)| - 1;
    var segs, n := log.segments, |log.segments| - 1;
    DenseBounds(log);
    if 0 <= k < |w.doomed| {
      DoomedBound(h, cfg.segmentSize, w, k);
    } else if k >= |w.doomed| {
      var j := k - |w.doomed|;
      assert Behind(w)[k] == segs[j];
      assert j < n ==> segs[j].Head() <= segs[n].tail;
    }
  }

  lemma DoomedBound(h: Hash, size: nat, w: World, k: nat)
    requires DoomedOk(h, size, w) && k < |w.doomed|
    ensures w.doomed[k].Head() <= w.queue.log.tail
  {
    hide Pristine, StoredOk, Chained;
    ChainedOrdered(w.doomed, w.doomed[0].tail, w.doomed[|w.doomed| - 1].Head());
    assert k < |w.doomed| - 1 ==> w.doomed[k].Head() <= w.doomed[|w.doomed| - 1].tail;
  }

  lemma {:induction false} ChainedOrdered(segs: seq<SegmentView>, from: nat, to: nat)
    requires Chained(segs, from, to)
    ensures Ordered(segs)
    ensures forall i :: 0 <= i < |segs| ==> from <= segs[i].tail && segs[i].Head() <= to
  {
    if segs != [] {
      var rest := segs[1..];
      ChainedOrdered(rest, segs[0].Head(), to);
      ChainedContents(rest, segs[0].Head(), to);
      assert segs == [segs[0]] + rest;
      forall i, j | 0 <= i < j < |segs|
        ensures segs[i].Head() <= segs[j].tail
      {
        assert segs[j] == rest[j - 1];
        assert i > 0 ==> segs[i] == rest[i - 1];
      }
      forall i | 0 <= i < |segs|
        ensures from <= segs[i].tail && segs[i].Head() <= to
      {
        assert i > 0 ==> segs[i] == rest[i - 1];
      }
    }
  }

  /** Creating a channel keeps the invariant exactly when maintenance under way does not miss it. */
  lemma CreateStep(h: Hash, cfg: Config, w: World, name: string, clock: u32, seen: bool)
    requires Good(h, cfg, w)
    ensures Good(h, cfg, AfterCreate(w, name, clock, seen)) <==> SafeToCreate(w, name, seen)
  {
    hide LogOk, StoredOk, ChannelOk, DiskOk, DoomedOk;
    LogFacts(h, cfg.segmentSize, w.queue.log);
    if name !in w.queue.channels {
      var w' := AfterCreate(w, name, clock, seen);
      EmptyChannelOk(w'.queue.channels[name], w'.promises[name], w.queue.log, w.issued);
      hide RealTail;
      DiskAfterCreate(w, w', name);
      DoomedSame(h, cfg.segmentSize, w, w');
      assert ChannelsOk(w');
    }
  }

  lemma DiskAfterCreate(w: World, w': World, name: string)
    requires DiskOk(w) && w'.disk == w.disk && w'.queue.log == w.queue.log && w'.gone == w.gone && w'.doomed == w.doomed
    requires w'.ahead == w.ahead
    requires w'.promises == w.promises[name := Promise(w.queue.log.head, {})]
    ensures DiskOk(w')
  {
    hide DiskHead, DiskListsPrefix;
    forall n | n in w'.disk.channels && n in w'.promises
      ensures DiskOwed(w'.disk.channels[n].tail, w'.promises[n], w'.queue.log.head)
    {
      assert n != name ==> DiskOwed(w.disk.channels[n].tail, w.promises[n], w.queue.log.head);
    }
  }

  lemma DeleteStep(h: Hash, cfg: Config, w: World, name: string)
    requires Good(h, cfg, w)
    ensures Good(h, cfg, AfterDelete(w, name))
  {
    hide LogOk, StoredOk, ChannelOk, RealTail, DiskOwed, DiskHead, DiskListsPrefix, DoomedOk;
    DoomedSame(h, cfg.segmentSize, w, AfterDelete(w, name));
    assert AfterDelete(w, name).queue.channels.Keys == w.queue.channels.Keys - {name};
  }

  lemma UnusedTicket(h: Hash, cfg: Config, w: World, ticket: int)
    requires Good(h, cfg, w)
    ensures Good(h, cfg, w.(issued := w.issued + {ticket}))
  {
    hide LogOk, StoredOk, HeapOk, RealTail, Owed, FlightsStored, DiskOwed, DiskHead, DiskListsPrefix, DoomedOk, Issued;
    DoomedSame(h, cfg.segmentSize, w, w.(issued := w.issued + {ticket}));
    forall n | n in w.queue.channels
      ensures ChannelOk(w.queue.channels[n], w.promises[n], w.queue.log, w.issued + {ticket})
    {
      assert ChannelOk(w.queue.channels[n], w.promises[n], w.queue.log, w.issued);
      IssuedGrows(w.queue.channels[n], w.issued, w.issued + {ticket});
    }
  }

  lemma ChannelIsOk(h: Hash, cfg: Config, w: World, name: string)
    requires Good(h, cfg, w) && name in w.queue.channels
    ensures name in w.promises && ChannelOk(w.queue.channels[name], w.promises[name], w.queue.log, w.issued)
    ensures Dense(w.queue.log) && Ordered(w.queue.log.segments) && w.queue.log.tail <= w.queue.log.head
  {
    hide ChannelOk;
    LogFacts(h, cfg.segmentSize, w.queue.log);
  }

  lemma GetStep(h: Hash, cfg: Config, w: World, name: string, clock: u32, ticket: int)
    requires Good(h, cfg, w) && ticket !in w.issued
    ensures Good(h, cfg, AfterGet(cfg, w, name, clock, ticket))
  {
    hide Good, ChannelOk, Channels.Get, RealTail, Dense, Ordered, Logs.Get;
    if name in w.queue.channels {
      ChannelIsOk(h, cfg, w, name);
      var c, p := w.queue.channels[name], w.promises[name];
      GetKeepsChannelOk(c, p, w.queue.log, w.issued, clock, cfg.messageTimeout, ticket);
      var c' := Channels.Get(c, clock, cfg.messageTimeout, ticket, Logs.Get(w.queue.log.segments, c.tail)).1;
      OneChannelStep(h, cfg, w, name, c', p, w.issued + {ticket});
      assert w.promises[name := p] == w.promises;
    } else {
      UnusedTicket(h, cfg, w, ticket);
    }
  }

  lemma AckStep(h: Hash, cfg: Config, w: World, name: string, ticket: int, clock: u32)
    requires Good(h, cfg, w)
    ensures Good(h, cfg, AfterAck(w, name, ticket, clock))
  {
    hide Good, ChannelOk, Channels.Ack, RealTail, AckedId;
    if name in w.queue.channels {
      ChannelIsOk(h, cfg, w, name);
      var c, p := w.queue.channels[name], w.promises[name];
      AckKeepsChannelOk(c, p, w.queue.log, w.issued, ticket, clock);
      var p' := p.(done := p.done + AckedId(c, ticket, clock));
      OneChannelStep(h, cfg, w, name, Channels.Ack(c, ticket, clock).1, p', w.issued);
    }
  }

  lemma UpdateStep(h: Hash, cfg: Config, w: World, name: string, clock: u32)
    requires Good(h, cfg, w)
    ensures Good(h, cfg, AfterUpdate(w, name, clock))
  {
    hide Good, ChannelOk, Expire, RealTail;
    if name in w.queue.channels {
      ChannelIsOk(h, cfg, w, name);
      var c, p := w.queue.channels[name], w.promises[name];
      UpdateKeepsChannelOk(c, p, w.queue.log, w.issued, clock);
      OneChannelStep(h, cfg, w, name, Expire(c, clock), p, w.issued);
      assert w.promises[name := p] == w.promises;
    }
  }

  lemma PurgeStep(h: Hash, cfg: Config, w: World, name: string, clock: u32)
    requires Good(h, cfg, w)
    ensures Good(h, cfg, AfterPurge(w, name, clock))
  {
    hide Good, ChannelOk, RealTail;
    if name in w.queue.channels {
      ChannelIsOk(h, cfg, w, name);
      var c, p := w.queue.channels[name], w.promises[name];
      PurgeKeepsChannelOk(c, p, w.queue.log, w.issued, clock);
      var c' := Channels.PurgeChannel(c, w.queue.log.head, clock);
      OneChannelStep(h, cfg, w, name, c', Promise(w.queue.log.head, {}), w.issued);
    }
  }

  lemma SeekStep(h: Hash, cfg: Config, w: World, name: string, id: nat, clock: u32)
    requires Good(h, cfg, w)
    requires name in w.queue.channels ==> w.queue.channels[name].tail <= id <= w.queue.log.head
    ensures Good(h, cfg, AfterSeek(w, name, id, clock))
  {
    hide Good, ChannelOk, RealTail;
    if name in w.queue.channels {
      ChannelIsOk(h, cfg, w, name);
      var c, p := w.queue.channels[name], w.promises[name];
      SeekKeepsChannelOk(c, p, w.queue.log, w.issued, id, clock);
      var p' := p.(done := p.done + Skipped(c.tail, id));
      OneChannelStep(h, cfg, w, name, Channels.Seek(c, id, clock), p', w.issued);
    }
  }

  lemma PurgeKeepsChannelOk(c: ChannelView, p: Promise, log: Log, issued: set<int>, clock: u32)
    requires ChannelOk(c, p, log, issued) && log.tail <= log.head
    ensures var c' := Channels.PurgeChannel(c, log.head, clock);
            ChannelOk(c', Promise(log.head, {}), log, issued) && RealTail(c) <= RealTail(c')
  {
    hide HeapOk, RealTail, Issued;
    var c' := Channels.PurgeChannel(c, log.head, clock);
    EmptyChannelOk(c', Promise(log.head, {}), log, issued);
    RealTailIsLowest(c);
  }

  // ----- maintenance

  lemma ReadStep(h: Hash, cfg: Config, w: World, name: string)
    requires Good(h, cfg, w) && w.reading.Some? && name in w.queue.channels
    ensures Good(h, cfg, AfterRead(w, name))
  {
    hide LogOk, StoredOk, ChannelOk, RealTail, DiskOwed, DiskHead, DiskListsPrefix, DoomedOk;
    DoomedSame(h, cfg.segmentSize, w, AfterRead(w, name));
    RealTailIsSafe(w.queue.channels[name], w.promises[name], w.queue.log, w.issued);
  }

  lemma StartStep(h: Hash, cfg: Config, w: World)
    requires Good(h, cfg, w)
    ensures Good(h, cfg, w.(reading := Some(Reading(w.queue.channels.Keys, None))))
  {
    hide LogOk, StoredOk, ChannelOk, RealTail, DiskOwed, DiskHead, DiskListsPrefix, DoomedOk;
    DoomedSame(h, cfg.segmentSize, w, w.(reading := Some(Reading(w.queue.channels.Keys, None))));
  }

  /** A checkpoint of the whole log lists every segment, with only the last one open. */
  lemma CheckpointLists(h: Hash, size: nat, log: Log)
    requires LogOk(h, size, log)
    ensures var cps := Restart.Checkpoint(log);
            && |cps| == |log.segments| && DiskListsPrefix(cps, log.segments)
            && DiskHead(cps, log.segments) == log.head
  {
    hide WellFormed, Pristine, Chained, Listed;
    var segs := log.segments;
    assert segs != [] ==> segs[0].tail == log.tail by { ChainedStart(log); }
    forall i | 0 <= i < |segs|
      ensures segs[i].tail >= log.tail
    {
      assert i > 0 ==> segs[0].Head() <= segs[i].tail;
    }
    ListedAll(segs, log.tail);
  }

  lemma ChainedStart(log: Log)
    requires Dense(log)
    ensures log.tail == if log.segments == [] then log.head else log.segments[0].tail
  {
  }

  /** Nothing a channel is owed is below its real tail. */
  lemma RealTailIsSafe(c: ChannelView, p: Promise, log: Log, issued: set<int>)
    requires ChannelOk(c, p, log, issued)
    ensures RealTail(c) <= c.tail <= log.head
    ensures DiskOwed(RealTail(c), p, log.head)
  {
    hide HeapOk, RealTail, Issued;
    RealTailIsLowest(c);
    forall id | p.start <= id < log.head && id !in p.done
      ensures id >= RealTail(c)
    {
      if id in Ids(c.flights) {
        var i := WithId(c.flights, id);
      }
    }
  }

  /** Writing the segment file lists the whole log, so that nobody is stranded. */
  lemma SaveSegmentsStep(h: Hash, cfg: Config, w: World)
    requires Good(h, cfg, w)
    ensures Good(h, cfg, SegmentsSaved(w)) && !Stranded(SegmentsSaved(w))
  {
    hide LogOk, StoredOk, ChannelOk, RealTail, DiskOwed, DiskHead, Restart.Checkpoint, DoomedOk;
    var w' := SegmentsSaved(w);
    SavedTracked(h, cfg.segmentSize, w);
    NothingDoomed(h, cfg.segmentSize, w');
    assert |Left(w')| <= |Behind(w')|;
    hide Tracked, Left, Behind;
  }

  /** Writing the channel file strands a channel exactly when its real tail is beyond the listed segments. */
  lemma SaveChannelsStep(h: Hash, cfg: Config, w: World)
    requires Good(h, cfg, w)
    ensures Good(h, cfg, ChannelsSaved(w))
    ensures Stranded(ChannelsSaved(w))
       <==> exists n :: n in w.queue.channels && RealTail(w.queue.channels[n]) > DiskHeadOf(w)
  {
    hide LogOk, StoredOk, ChannelOk, RealTail, DiskOwed, DiskHead, DoomedOk, DiskListsPrefix;
    var w' := ChannelsSaved(w);
    DoomedSame(h, cfg.segmentSize, w, w');
    assert DiskHeadOf(w') == DiskHeadOf(w);
    assert |Left(w)| <= |Behind(w)| by { TrackedLengths(w); }
    forall n | n in w'.disk.channels
      ensures w'.disk.channels[n].tail <= w.queue.log.head
      ensures DiskOwed(w'.disk.channels[n].tail, w'.promises[n], w.queue.log.head)
    {
      RealTailIsSafe(w.queue.channels[n], w.promises[n], w.queue.log, w.issued);
    }
  }

  lemma TrackedLengths(w: World)
    requires Tracked(w)
    ensures |Left(w)| <= |Behind(w)|
  {
  }

  lemma SavedTracked(h: Hash, size: nat, w: World)
    requires LogOk(h, size, w.queue.log)
    ensures Tracked(SegmentsSaved(w)) && DiskHead(Left(SegmentsSaved(w)), Behind(SegmentsSaved(w))) == w.queue.log.head
  {
    hide *;
    CheckpointLists(h, size, w.queue.log);
    SavedIs(w);
    NothingRemoved(SegmentsSaved(w));
  }

  lemma SavedIs(w: World)
    ensures SegmentsSaved(w).disk.segments == Restart.Checkpoint(w.queue.log) && SegmentsSaved(w).queue == w.queue
    ensures SegmentsSaved(w).gone == 0 && SegmentsSaved(w).doomed == []
  {
    hide Restart.Checkpoint;
  }

  /** With no file removed or doomed, the checkpoint lists the log itself. */
  lemma NothingRemoved(w: World)
    requires w.gone == 0 && w.doomed == [] && DiskListsPrefix(w.disk.segments, w.queue.log.segments)
    ensures Tracked(w) && Left(w) == w.disk.segments && Behind(w) == w.queue.log.segments
  {
    NoneDoomed(w);
    assert Left(w) == w.disk.segments[0..] == w.disk.segments;
    hide DiskListsPrefix, Left, Behind;
  }

  lemma NothingDoomed(h: Hash, size: nat, w: World)
    requires w.doomed == [] && w.gone <= |w.disk.segments|
    ensures DoomedOk(h, size, w)
  {
  }

  lemma {:induction false} ChainedAdjacent(segs: seq<SegmentView>, from: nat, to: nat, i: nat)
    requires Chained(segs, from, to) && i + 1 < |segs|
    ensures segs[i + 1].tail == segs[i].Head()
  {
    if i > 0 {
      ChainedAdjacent(segs[1..], segs[0].Head(), to, i - 1);
    }
  }

  /** Collection spares the open segment, so what is left is still a good log. */
  lemma CollectKeepsLogOk(h: Hash, cfg: Config, log: Log, smallest: nat, clock: u32)
    requires Soft(cfg) && LogOk(h, cfg.segmentSize, log)
    ensures var log' := Gc(cfg, log, smallest, clock);
            && LogOk(h, cfg.segmentSize, log')
            && log'.head == log.head
            && (log'.tail == log.tail || log'.tail <= smallest)
            && forall id :: id in Contents(log'.segments) ==>
                 id in Contents(log.segments) && Contents(log'.segments)[id] == Contents(log.segments)[id]
  {
    hide GcCount, Contents, Chained, WellFormed, Pristine;
    var n := GcCount(cfg, log.segments, smallest, clock);
    CollectTail(h, cfg, log, smallest, clock);
    if n > 0 {
      GcSparesUnread(cfg, log, smallest, clock, n - 1);
      ChainedAdjacent(log.segments, log.tail, log.head, n - 1);
      hide LogOk;
      DropKeepsLogOk(h, cfg.segmentSize, log, n);
      DropContents(h, cfg.segmentSize, log, n);
    }
  }

  lemma DropKeepsLogOk(h: Hash, size: nat, log: Log, n: nat)
    requires LogOk(h, size, log) && n < |log.segments|
    ensures LogOk(h, size, DropSegments(log, n))
  {
    hide WellFormed, Pristine, Chained, Shape;
    var rest := log.segments[n..];
    DropKeepsShape(h, log, n);
    ChainedDrop(log.segments, n, log.tail, log.head);
    assert Pristine(h, log.segments[n]);
    PristineTail(h, log.segments[n]);
    forall i | 0 <= i < |rest|
      ensures Pristine(h, rest[i]) && |rest[i].file| == size
    {
      assert rest[i] == log.segments[n + i];
    }
  }

  lemma DropContents(h: Hash, size: nat, log: Log, n: nat)
    requires LogOk(h, size, log) && n < |log.segments|
    ensures forall id :: id in Contents(log.segments[n..]) ==>
              id in Contents(log.segments) && Contents(log.segments[n..])[id] == Contents(log.segments)[id]
  {
    hide Contents, WellFormed, Pristine, Chained;
    assert Ordered(log.segments);
    assert forall i :: 0 <= i < n ==> log.segments[i].Head() <= log.segments[n].tail;
    hide Ordered;
    ContentsDrop(log.segments, n, log.segments[n].tail);
  }

  lemma PristineTail(h: Hash, s: SegmentView)
    requires Pristine(h, s)
    ensures s.tail >= 1
  {
  }

  /** The entries left begin to list the same segments after a collection as before. */
  lemma CollectKeepsTracked(cfg: Config, w: World, clock: u32)
    requires w.reading.Some? && Tracked(w)
    ensures var w' := AfterCollect(cfg, w, clock);
            Tracked(w') && DiskHead(Left(w'), Behind(w')) == DiskHead(Left(w), Behind(w))
  {
    hide GcCount;
    var w', segs := AfterCollect(cfg, w, clock), w.queue.log.segments;
    var n, m := GcCount(cfg, segs, SmallestRead(w.reading.value), clock), |Left(w)| - |w.doomed|;
    assert w'.queue.log.segments == segs[n..];
    forall i | 0 <= i < |Left(w)|
      ensures i < |Behind(w')| && Behind(w')[i] == Behind(w)[i]
    {
      if i >= |w.doomed| + Min(n, m) {
        assert n <= m && i - |w.doomed| >= n;
      }
    }
  }

  /** Collected segments that are listed lead up to what is left of the log. */
  lemma CollectKeepsDoomed(h: Hash, cfg: Config, w: World, clock: u32)
    requires Soft(cfg) && Good(h, cfg, w) && w.reading.Some?
    ensures DoomedOk(h, cfg.segmentSize, AfterCollect(cfg, w, clock))
  {
    hide ChannelsOk, ReadingOk, GcCount, Contents, Chained, Pristine, WellFormed;
    var log, smallest := w.queue.log, SmallestRead(w.reading.value);
    var segs := log.segments;
    var n, m := GcCount(cfg, segs, smallest, clock), |Left(w)| - |w.doomed|;
    var k := Min(n, m);
    var w' := AfterCollect(cfg, w, clock);
    CollectTail(h, cfg, log, smallest, clock);
    assert |Left(w')| == |Left(w)| && w'.doomed == w.doomed + segs[..k];
    assert n > 0 ==> w'.queue.log.tail == segs[n].tail;
    StoredJoin(w.doomed, segs, k, w.pushed);
    if k > 0 {
      TakenChained(h, cfg, w, n, k);
    } else {
      assert w'.doomed == w.doomed;
    }
    hide Left, AfterCollect, StoredOk;
  }

  lemma TakenChained(h: Hash, cfg: Config, w: World, n: nat, k: nat)
    requires LogOk(h, cfg.segmentSize, w.queue.log) && DoomedOk(h, cfg.segmentSize, w) && Tracked(w)
    requires 0 < k <= n < |w.queue.log.segments| && k <= |Left(w)| - |w.doomed|
    ensures var segs := w.queue.log.segments;
            var doomed := w.doomed + segs[..k];
            && Chained(doomed, doomed[0].tail, segs[k - 1].Head())
            && segs[k - 1].Head() <= segs[n].tail && (k == n ==> segs[k - 1].Head() == segs[n].tail)
  {
    hide Contents, Chained, Pristine, WellFormed, DiskListsPrefix, StoredOk, Ordered;
    var log, segs := w.queue.log, w.queue.log.segments;
    var taken := segs[..k];
    ChainedLike(segs, taken, log.tail, log.head);
    TakenEnd(h, log, n, k);
    if w.doomed != [] {
      ChainedConcat(w.doomed, taken, w.doomed[0].tail, log.tail, taken[k - 1].Head());
    } else {
      assert w.doomed + taken == taken;
      assert segs[0].tail == log.tail by { ChainedStart(log); }
    }
  }

  lemma CollectTail(h: Hash, cfg: Config, log: Log, smallest: nat, clock: u32)
    requires Soft(cfg) && LogOk(h, cfg.segmentSize, log)
    ensures log.tail <= Gc(cfg, log, smallest, clock).tail
    ensures var n := GcCount(cfg, log.segments, smallest, clock); n > 0 ==> n < |log.segments|
    ensures GcCount(cfg, log.segments, smallest, clock) == 0 ==> Gc(cfg, log, smallest, clock) == log
  {
    hide GcCount, WellFormed, Pristine, Chained;
    var n := GcCount(cfg, log.segments, smallest, clock);
    if n > 0 {
      GcSparesUnread(cfg, log, smallest, clock, n - 1);
      ChainedOrdered(log.segments, log.tail, log.head);
    }
  }

  lemma TakenEnd(h: Hash, log: Log, n: nat, k: nat)
    requires Dense(log) && 0 < k <= n < |log.segments|
    ensures log.segments[k - 1].Head() <= log.segments[n].tail
    ensures k == n ==> log.segments[k - 1].Head() == log.segments[n].tail
  {
    hide Chained;
    ChainedOrdered(log.segments, log.tail, log.head);
    ChainedAdjacent(log.segments, log.tail, log.head, k - 1);
  }

  lemma {:induction false} ChainedConcat(a: seq<SegmentView>, b: seq<SegmentView>, from: nat, mid: nat, to: nat)
    requires Chained(a, from, mid) && Chained(b, mid, to)
    ensures Chained(a + b, from, to)
  {
    if a == [] {
      assert a + b == b;
    } else {
      assert (a + b)[1..] == a[1..] + b;
      ChainedConcat(a[1..], b, a[0].Head(), mid, to);
    }
  }

  lemma MergeIsAssociative(x: map<nat, Message>, y: map<nat, Message>, z: map<nat, Message>)
    ensures x + y + z == x + (y + z)
  {
  }

  lemma {:induction false} ContentsConcat(a: seq<SegmentView>, b: seq<SegmentView>)
    ensures Contents(a + b) == Contents(b) + Contents(a)
  {
    hide Part;
    if a == [] {
      assert a + b == b;
      assert Contents(b) + map[] == Contents(b);
    } else {
      assert (a + b)[1..] == a[1..] + b;
      ContentsConcat(a[1..], b);
      MergeIsAssociative(Contents(b), Contents(a[1..]), Part(a[0]));
    }
  }

  lemma StoredConcat(a: seq<SegmentView>, b: seq<SegmentView>, pushed: map<nat, Message>)
    requires StoredOk(a, pushed) && StoredOk(b, pushed)
    ensures StoredOk(a + b, pushed)
  {
    hide Contents;
    ContentsConcat(a, b);
  }

  lemma StoredPrefix(segs: seq<SegmentView>, k: nat, pushed: map<nat, Message>)
    requires StoredOk(segs, pushed) && k <= |segs| && Ordered(segs)
    ensures StoredOk(segs[..k], pushed)
  {
    hide Contents, Ordered;
    ContentsLike(segs, segs[..k]);
  }

  lemma StoredJoin(doomed: seq<SegmentView>, segs: seq<SegmentView>, k: nat, pushed: map<nat, Message>)
    requires StoredOk(doomed, pushed) && StoredOk(segs, pushed) && k <= |segs| && Ordered(segs)
    ensures StoredOk(doomed + segs[..k], pushed)
  {
    hide StoredOk, Ordered;
    StoredPrefix(segs, k, pushed);
    StoredConcat(doomed, segs[..k], pushed);
  }

  /** What a channel is owed and has in flight stays stored when the tail does not pass its real tail. */
  lemma CollectKeepsChannel(c: ChannelView, p: Promise, log: Log, log': Log, issued: set<int>)
    requires ChannelOk(c, p, log, issued) && log'.head == log.head
    requires log'.tail == log.tail || log'.tail <= RealTail(c)
    ensures ChannelOk(c, p, log', issued)
  {
    hide HeapOk, RealTail, Issued;
    RealTailIsLowest(c);
    RealTailIsSafe(c, p, log, issued);
    forall id | id in Ids(c.flights)
      ensures id >= log'.tail
    {
      var i := WithId(c.flights, id);
    }
  }

  lemma CollectStep(h: Hash, cfg: Config, w: World, clock: u32)
    requires Soft(cfg) && Good(h, cfg, w) && w.reading.Some? && w.reading.value.pending == {}
    ensures Good(h, cfg, AfterCollect(cfg, w, clock))
  {
    hide LogOk, ChannelOk, RealTail, Gc, Contents, Tracked, DiskHead, DiskOwed, DoomedOk;
    var log, smallest := w.queue.log, SmallestRead(w.reading.value);
    var w' := AfterCollect(cfg, w, clock);
    CollectKeepsLogOk(h, cfg, log, smallest, clock);
    CollectKeepsTracked(cfg, w, clock);
    CollectKeepsDoomed(h, cfg, w, clock);
    forall n | n in w.queue.channels
      ensures ChannelOk(w.queue.channels[n], w.promises[n], w'.queue.log, w.issued)
    {
      CollectKeepsChannel(w.queue.channels[n], w.promises[n], log, w'.queue.log, w.issued);
    }
  }

  lemma RemovalStep(h: Hash, cfg: Config, w: World)
    requires Good(h, cfg, w) && w.doomed != []
    ensures Good(h, cfg, AfterRemoval(w))
  {
    hide LogOk, ChannelOk, RealTail, DiskOwed, StoredOk, Tracked, DiskHead, DoomedOk;
    RemovalKeepsTracked(w);
    RemovalKeepsDoomed(h, cfg.segmentSize, w);
  }

  lemma RemovalKeepsTracked(w: World)
    requires Tracked(w) && w.doomed != []
    ensures var w' := AfterRemoval(w);
            && Tracked(w') && |w.doomed| <= |Left(w)|
            && (Emptied(w') || DiskHead(Left(w'), Behind(w')) == DiskHead(Left(w), Behind(w)))
            && !Emptied(w)
  {
    var w' := AfterRemoval(w);
    assert Left(w') == Left(w)[1..] && Behind(w') == Behind(w)[1..];
    hide Left, Behind;
    assert forall i :: 0 <= i < |Left(w')| ==> Left(w')[i] == Left(w)[i + 1] && Behind(w')[i] == Behind(w)[i + 1];
  }

  lemma RemovalKeepsDoomed(h: Hash, size: nat, w: World)
    requires DoomedOk(h, size, w) && w.doomed != [] && |w.doomed| <= |Left(w)|
    ensures DoomedOk(h, size, AfterRemoval(w))
  {
    hide Pristine, Contents;
    var d, end, w' := w.doomed, w.doomed[|w.doomed| - 1].Head(), AfterRemoval(w);
    assert Ordered(d) by { ChainedOrdered(d, d[0].tail, end); }
    assert StoredOk(d[1..], w.pushed) by { StoredSuffix(d, w.pushed); }
    assert Left(w') == Left(w)[1..];
    assert forall i :: 0 <= i < |d| - 1 ==> d[1..][i] == d[i + 1];
    if |d| > 1 {
      ChainedAdjacent(d, d[0].tail, end, 0);
    }
  }

  lemma StoredSuffix(segs: seq<SegmentView>, pushed: map<nat, Message>)
    requires StoredOk(segs, pushed) && Ordered(segs) && segs != []
    ensures StoredOk(segs[1..], pushed)
  {
    hide Contents, Ordered;
    forall id | id in Contents(segs[1..])
      ensures id in pushed && pushed[id] == Contents(segs[1..])[id]
    {
      Damage.RestStored(segs, id);
    }
  }

  // ----- crashes

  /** The first segments of a log as a restart reopens them. */
  function Reopened(segs: seq<SegmentView>, cps: seq<SegmentCheckpoint>): (r: seq<SegmentView>)
    requires |cps| <= |segs|
    ensures |r| == |cps|
    ensures forall i :: 0 <= i < |r| ==> r[i] == segs[i].(closed := cps[i].closed)
  {
    seq(|cps|, i requires 0 <= i < |cps| => segs[i].(closed := cps[i].closed))
  }

  lemma CrashRecovers(h: Hash, segs: seq<SegmentView>, cps: seq<SegmentCheckpoint>, files: Files)
    requires DiskListsPrefix(cps, segs) && Intact(h, segs[..|cps|], files)
    ensures Restart.Recover(h, cps, files) == Some(FromSegments(Reopened(segs, cps)))
  {
    hide Reopen, Pristine;
    var rs := Reopened(segs, cps);
    forall i | 0 <= i < |cps|
      ensures OnDisk(h, cps[i], files, rs[i])
    {
      assert segs[..|cps|][i] == segs[i];
      RecoverableClosed(h, segs[i], cps[i].closed);
    }
    hide OnDisk, Intact;
    assert [] + rs == rs;
    ReopenIntact(h, cps, files, [], rs);
  }

  /** Entries without files are skipped. */
  lemma {:induction false} SkipMissing(h: Hash, cps: seq<SegmentCheckpoint>, files: Files, gone: nat)
    requires gone <= |cps| && forall i :: 0 <= i < gone ==> cps[i].tail !in files
    ensures Restart.Recover(h, cps, files) == Restart.Recover(h, cps[gone..], files)
  {
    if gone == 0 {
      assert cps[0..] == cps;
    } else {
      SkipMissing(h, cps[1..], files, gone - 1);
      assert cps[1..][gone - 1..] == cps[gone..];
    }
  }

  lemma RecoverableClosed(h: Hash, s: SegmentView, closed: bool)
    requires Recoverable(h, s)
    ensures Recoverable(h, s.(closed := closed))
  {
  }

  lemma {:induction false} ChainedLike(segs: seq<SegmentView>, rs: seq<SegmentView>, from: nat, to: nat)
    requires Chained(segs, from, to) && 1 <= |rs| <= |segs|
    requires forall i :: 0 <= i < |rs| ==> rs[i].tail == segs[i].tail && rs[i].messages == segs[i].messages
    ensures Chained(rs, from, segs[|rs| - 1].Head())
  {
    if |rs| > 1 {
      ChainedLike(segs[1..], rs[1..], segs[0].Head(), to);
    }
  }

  lemma {:induction false} ContentsLike(segs: seq<SegmentView>, rs: seq<SegmentView>)
    requires Ordered(segs) && |rs| <= |segs|
    requires forall i :: 0 <= i < |rs| ==> rs[i].tail == segs[i].tail && rs[i].messages == segs[i].messages
    ensures forall id :: id in Contents(rs) ==> id in Contents(segs) && Contents(rs)[id] == Contents(segs)[id]
  {
    if rs != [] {
      ContentsLike(segs[1..], rs[1..]);
      PartLike(rs[0], segs[0]);
    }
  }

  lemma PartLike(a: SegmentView, b: SegmentView)
    requires a.tail == b.tail && a.messages == b.messages
    ensures Part(a) == Part(b)
  {
    assert forall id :: a.Has(id) <==> b.Has(id);
    assert forall id :: a.Has(id) ==> a.At(id) == b.At(id);
  }

  /** The segments behind the entries left follow one another without holes. */
  lemma BehindIsChained(h: Hash, cfg: Config, w: World)
    requires LogOk(h, cfg.segmentSize, w.queue.log) && DoomedOk(h, cfg.segmentSize, w) && Tracked(w) && Left(w) != []
    ensures var segs := Behind(w)[..|Left(w)|];
            Chained(segs, segs[0].tail, segs[|segs| - 1].Head()) && segs[0].tail <= w.queue.log.tail
  {
    hide Pristine, WellFormed, Chained, StoredOk;
    var log, m := w.queue.log, |Left(w)| - |w.doomed|;
    var some := log.segments[..m];
    assert Behind(w)[..|Left(w)|] == w.doomed + some;
    if m > 0 {
      ChainedLike(log.segments, some, log.tail, log.head);
      ChainedStart(log);
      if w.doomed != [] {
        ChainedConcat(w.doomed, some, w.doomed[0].tail, log.tail, some[m - 1].Head());
        DoomedBound(h, cfg.segmentSize, w, 0);
      } else {
        assert w.doomed + some == some;
      }
    } else {
      assert w.doomed + some == w.doomed;
      DoomedBound(h, cfg.segmentSize, w, 0);
    }
  }

  /** What a restart comes back with. */
  ghost function RestartedLog(w: World): Log
    requires Tracked(w)
  {
    FromSegments(Reopened(Behind(w), Left(w)))
  }

  lemma RestartedLogOk(h: Hash, cfg: Config, w: World)
    requires Good(h, cfg, w)
    ensures LogOk(h, cfg.segmentSize, RestartedLog(w))
    ensures RestartedLog(w).head == DiskHead(Left(w), Behind(w)) <= w.queue.log.head
    ensures RestartedLog(w).tail <= w.queue.log.tail
  {
    hide ChannelsOk, ReadingOk, StoredOk, DiskOwed, Pristine, WellFormed, Chained;
    var all, cps := Behind(w), Left(w);
    DiskHeadBound(h, cfg, w);
    if cps == [] {
      assert LogOk(h, cfg.segmentSize, Empty) by { EmptyLogOk(h, cfg.segmentSize); }
    } else {
      BehindIsChained(h, cfg, w);
      BehindIsPristine(h, cfg.segmentSize, w);
      assert w.queue.log.head <= U64_RANGE;
      hide LogOk, DoomedOk, Left, Behind, AllPristine;
      ReopenedLogOk(h, cfg.segmentSize, all, cps);
    }
  }

  lemma BehindIsPristine(h: Hash, size: nat, w: World)
    requires LogOk(h, size, w.queue.log) && DoomedOk(h, size, w)
    ensures AllPristine(h, Behind(w)) && forall i :: 0 <= i < |Behind(w)| ==> |Behind(w)[i].file| == size
  {
    hide Pristine, Chained, Shape, StoredOk;
    var all, d := Behind(w), |w.doomed|;
    forall i | 0 <= i < |all|
      ensures Pristine(h, all[i]) && |all[i].file| == size
    {
      assert all[i] == if i < d then w.doomed[i] else w.queue.log.segments[i - d];
    }
  }

  /** Reopened segments that follow one another are a good log. */
  lemma ReopenedLogOk(h: Hash, size: nat, all: seq<SegmentView>, cps: seq<SegmentCheckpoint>)
    requires cps != [] && DiskListsPrefix(cps, all) && AllPristine(h, all)
    requires forall i :: 0 <= i < |all| ==> |all[i].file| == size
    requires Chained(all[..|cps|], all[0].tail, all[|cps| - 1].Head()) && all[|cps| - 1].Head() <= U64_RANGE
    ensures var log := FromSegments(Reopened(all, cps));
            LogOk(h, size, log) && log.head == DiskHead(cps, all) && log.tail == all[0].tail
  {
    hide Pristine, WellFormed, Chained;
    var rs, k := Reopened(all, cps), |cps|;
    ChainedLike(all[..k], rs, all[0].tail, all[k - 1].Head());
    ChainedOrdered(rs, rs[0].tail, rs[k - 1].Head());
    ChainedContents(rs, rs[0].tail, rs[k - 1].Head());
    hide Ordered;
    forall i | 0 <= i < k
      ensures Pristine(h, rs[i]) && WellFormed(h, rs[i]) && rs[i].tail >= 1
    {
      PristineClosed(h, all[i], cps[i].closed);
    }
  }

  lemma EmptyLogOk(h: Hash, size: nat)
    ensures LogOk(h, size, Empty)
  {
  }

  lemma PristineClosed(h: Hash, s: SegmentView, closed: bool)
    requires Pristine(h, s)
    ensures Pristine(h, s.(closed := closed)) && WellFormed(h, s.(closed := closed)) && s.tail >= 1
  {
  }

  lemma AfterCrashIs(h: Hash, cfg: Config, w: World, files: Files)
    requires Good(h, cfg, w) && FilesFit(h, w, files)
    ensures Queues.Recover(h, w.disk, files) == Some(Queue(RestartedLog(w), RestoredChannels(w.disk.channels)))
    ensures AfterCrash(h, w, files) == Restarted(w, Queue(RestartedLog(w), RestoredChannels(w.disk.channels)))
  {
    hide LogOk, ChannelsOk, ReadingOk, DiskOwed, DoomedOk, Intact, Restart.Recover, FromSegments, Reopened;
    SkipMissing(h, w.disk.segments, files, w.gone);
    CrashRecovers(h, Behind(w), Left(w), files);
  }

  /**
   * A restart from the last checkpoint, at any point between collection, removal of files and the
   * next checkpoint, keeps the invariant exactly when no channel is stranded.
   */
  lemma CrashIsExact(h: Hash, cfg: Config, w: World, files: Files)
    requires Good(h, cfg, w) && FilesFit(h, w, files)
    ensures Queues.Recover(h, w.disk, files).Some?
    ensures Good(h, cfg, AfterCrash(h, w, files)) <==> !Stranded(w)
  {
    hide LogOk, ChannelOk, ReadingOk, DiskOwed, DoomedOk, FilesFit, RestartedLog, DiskHead, Queues.Recover;
    AfterCrashIs(h, cfg, w, files);
    RestartedLogOk(h, cfg, w);
    var w', log' := AfterCrash(h, w, files), RestartedLog(w);
    if Stranded(w) {
      var n :| n in w.disk.channels && w.disk.channels[n].tail > DiskHeadOf(w);
      BeyondHead(w'.queue.channels[n], w'.promises[n], log', w'.issued);
    } else {
      CrashKeepsGood(h, cfg, w, w');
    }
  }

  lemma BeyondHead(c: ChannelView, p: Promise, log: Log, issued: set<int>)
    requires c.tail > log.head
    ensures !ChannelOk(c, p, log, issued)
  {
  }

  lemma CrashKeepsGood(h: Hash, cfg: Config, w: World, w': World)
    requires Good(h, cfg, w) && LogOk(h, cfg.segmentSize, RestartedLog(w)) && !Stranded(w)
    requires w' == Restarted(w, Queue(RestartedLog(w), RestoredChannels(w.disk.channels)))
    requires RestartedLog(w).head == DiskHead(Left(w), Behind(w)) <= w.queue.log.head
    requires RestartedLog(w).tail <= w.queue.log.tail
    ensures Good(h, cfg, w')
  {
    hide LogOk, ChannelOk, ReadingOk, DiskOwed, DoomedOk, RestartedLog, DiskHead, DiskListsPrefix, StoredOk;
    assert StoredOk(w'.queue.log.segments, w'.pushed) by { CrashKeepsStored(h, cfg, w); }
    forall n | n in w.disk.channels
      ensures ChannelOk(w'.queue.channels[n], w'.promises[n], w'.queue.log, w'.issued)
      ensures DiskOwed(w'.disk.channels[n].tail, w'.promises[n], w'.queue.log.head)
      ensures w'.disk.channels[n].tail <= w'.queue.log.head
    {
      assert w.disk.channels[n].tail <= DiskHeadOf(w) == w'.queue.log.head by { TrackedLengths(w); }
      assert n in w.promises ==> ChannelOk(w.queue.channels[n], w.promises[n], w.queue.log, w.issued);
      assert n in w.promises ==> DiskOwed(w.disk.channels[n].tail, w.promises[n], w.queue.log.head);
      CrashKeepsChannel(w, w', n);
    }
    RestartedDisk(w, w');
    NothingDoomed(h, cfg.segmentSize, w');
    assert ReadingOk(w') by { NotReading(w'); }
  }

  lemma NotReading(w: World)
    requires w.reading.None?
    ensures ReadingOk(w)
  {
  }

  lemma RestartedDisk(w: World, w': World)
    requires Tracked(w) && w'.disk == w.disk && w'.gone == w.gone && w'.doomed == []
    requires w'.queue.log == RestartedLog(w)
    ensures Tracked(w') && DiskHead(Left(w'), Behind(w')) == RestartedLog(w).head
  {
    assert Left(w') == Left(w);
    NoneDoomed(w');
    ReopenedListed(Behind(w), Left(w));
    hide Left, Behind, DiskListsPrefix, DiskHead, Reopened;
  }

  lemma ReopenedListed(segs: seq<SegmentView>, cps: seq<SegmentCheckpoint>)
    requires DiskListsPrefix(cps, segs)
    ensures var log' := FromSegments(Reopened(segs, cps));
            DiskListsPrefix(cps, log'.segments) && DiskHead(cps, log'.segments) == log'.head
  {
  }

  lemma NoneDoomed(w: World)
    requires w.doomed == []
    ensures Behind(w) == w.queue.log.segments
  {
  }

  lemma CrashKeepsStored(h: Hash, cfg: Config, w: World)
    requires Good(h, cfg, w) && LogOk(h, cfg.segmentSize, RestartedLog(w))
    ensures var log' := RestartedLog(w);
            StoredOk(log'.segments, map id | id in w.pushed && id < log'.head :: w.pushed[id])
  {
    var log' := RestartedLog(w);
    LogFacts(h, cfg.segmentSize, log');
    hide LogOk, Contents, ChannelsOk, ReadingOk, DiskOk, DoomedOk, Chained, RestartedLog;
    assert StoredOk(log'.segments, w.pushed) by { RestartedStored(h, cfg, w); }
    ChainedContents(log'.segments, log'.tail, log'.head);
  }

  lemma RestartedStored(h: Hash, cfg: Config, w: World)
    requires Good(h, cfg, w)
    ensures StoredOk(RestartedLog(w).segments, w.pushed)
  {
    var all, k := Behind(w), |Left(w)|;
    if k > 0 {
      assert StoredOk(all[..k], w.pushed) && Ordered(all[..k]) by { BehindStored(h, cfg, w); }
      hide LogOk, StoredOk, ChannelsOk, ReadingOk, DoomedOk, DiskListsPrefix, Ordered, Left, Behind, DiskOwed;
      StoredLike(all[..k], Reopened(all, Left(w)), w.pushed);
    } else {
      NothingStored();
    }
  }

  lemma BehindStored(h: Hash, cfg: Config, w: World)
    requires Good(h, cfg, w) && Left(w) != []
    ensures var segs := Behind(w)[..|Left(w)|];
            StoredOk(segs, w.pushed) && Ordered(segs)
  {
    var all, k := Behind(w), |Left(w)|;
    var m := k - |w.doomed|;
    assert all[..k] == w.doomed + w.queue.log.segments[..m];
    LogFacts(h, cfg.segmentSize, w.queue.log);
    BehindIsChained(h, cfg, w);
    hide LogOk, StoredOk, ChannelsOk, ReadingOk, DiskOk, Chained, Behind, Left, Dense, Ordered;
    ChainedOrdered(all[..k], all[0].tail, all[k - 1].Head());
    StoredJoin(w.doomed, w.queue.log.segments, m, w.pushed);
  }

  lemma StoredLike(segs: seq<SegmentView>, rs: seq<SegmentView>, pushed: map<nat, Message>)
    requires StoredOk(segs, pushed) && Ordered(segs) && |rs| == |segs|
    requires forall i :: 0 <= i < |rs| ==> rs[i].tail == segs[i].tail && rs[i].messages == segs[i].messages
    ensures StoredOk(rs, pushed)
  {
    hide Contents, Ordered;
    ContentsLike(segs, rs);
  }

  lemma CrashKeepsChannel(w: World, w': World, n: string)
    requires n in w.disk.channels && w.disk.channels[n].tail <= w'.queue.log.head <= w.queue.log.head
    requires w'.queue.log.tail <= w.queue.log.tail
    requires n in w.promises ==>
               && n in w.queue.channels && ChannelOk(w.queue.channels[n], w.promises[n], w.queue.log, w.issued)
               && DiskOwed(w.disk.channels[n].tail, w.promises[n], w.queue.log.head)
    requires w' == Restarted(w, Queue(w'.queue.log, RestoredChannels(w.disk.channels)))
    ensures ChannelOk(w'.queue.channels[n], w'.promises[n], w'.queue.log, w'.issued)
    ensures DiskOwed(w'.disk.channels[n].tail, w'.promises[n], w'.queue.log.head)
  {
    hide HeapOk, Issued;
    EmptyChannelOk(w'.queue.channels[n], w'.promises[n], w'.queue.log, w'.issued);
  }

  /**
   * A channel can be stranded only when every listed file is gone, or when its tail was written after
   * the segments had been listed and others had been added to them.
   */
  lemma StrandedIsEmptied(h: Hash, cfg: Config, w: World)
    requires Good(h, cfg, w) && Stranded(w)
    ensures Emptied(w) || w.ahead
    ensures |Left(w)| < |Behind(w)|
    ensures Emptied(w) ==> RestartedLog(w) == Empty
  {
    hide ChannelsOk, ReadingOk, DiskOwed, WellFormed, Pristine, Chained;
    if |Left(w)| == |Behind(w)| {
      ListedToHead(h, cfg, w);
    }
  }

  /** When the entries list every segment, a restart comes back with the head of the log. */
  lemma ListedToHead(h: Hash, cfg: Config, w: World)
    requires LogOk(h, cfg.segmentSize, w.queue.log) && Tracked(w) && |Left(w)| == |Behind(w)|
    requires DoomedOk(h, cfg.segmentSize, w)
    ensures DiskHeadOf(w) == w.queue.log.head
  {
    hide WellFormed, Chained, StoredOk;
    var log, n := w.queue.log, |w.doomed| - 1;
    if log.segments == [] && n >= 0 {
      assert log.tail == 1 by { ChainedStart(log); }
      assert Pristine(h, w.doomed[n]);
    }
  }

  lemma CrashStep(h: Hash, cfg: Config, w: World, files: Files)
    requires Good(h, cfg, w) && FilesFit(h, w, files) && !Stranded(w)
    ensures Queues.Recover(h, w.disk, files).Some?
    ensures Good(h, cfg, AfterCrash(h, w, files))
  {
    hide Good, Stranded, FilesFit, AfterCrash, Queues.Recover;
    CrashIsExact(h, cfg, w, files);
  }

  // ----- whole runs

  lemma StepKeepsGood(h: Hash, cfg: Config, w: World, s: Step)
    requires Soft(cfg) && Good(h, cfg, w) && Can(h, w, s)
    ensures Good(h, cfg, Do(h, cfg, w, s))
  {
    hide Good, AfterPush, AfterCreate, AfterDelete, AfterGet, AfterAck, AfterUpdate, AfterPurge, AfterSeek;
    hide AfterRead, AfterCollect, AfterRemoval, AfterCrash, SegmentsSaved, ChannelsSaved;
    hide FilesFit, Stranded, SafeToCreate;
    match s {
      case Push(body, clock) => PushStep(h, cfg, w, body, clock);
      case Create(name, clock, seen) => CreateStep(h, cfg, w, name, clock, seen);
      case Delete(name) => DeleteStep(h, cfg, w, name);
      case Get(name, clock, ticket) => GetStep(h, cfg, w, name, clock, ticket);
      case Ack(name, ticket, clock) => AckStep(h, cfg, w, name, ticket, clock);
      case Update(name, clock) => UpdateStep(h, cfg, w, name, clock);
      case PurgeChannel(name, clock) => PurgeStep(h, cfg, w, name, clock);
      case Seek(name, id, clock) => SeekStep(h, cfg, w, name, id, clock);
      case StartMaintenance => StartStep(h, cfg, w);
      case ReadTail(name) => ReadStep(h, cfg, w, name);
      case Collect(clock) => CollectStep(h, cfg, w, clock);
      case RemoveFile => RemovalStep(h, cfg, w);
      case SaveSegments => SaveSegmentsStep(h, cfg, w);
      case SaveChannels => SaveChannelsStep(h, cfg, w);
      case Crash(files) => CrashStep(h, cfg, w, files);
    }
  }

  /** The worlds that a run goes through, step by step. */
  ghost predicate IsRun(h: Hash, cfg: Config, worlds: seq<World>, steps: seq<Step>) {
    && |worlds| == |steps| + 1
    && worlds[0] == Start
    && forall i :: 0 <= i < |steps| ==> IsStep(h, cfg, worlds[i], steps[i], worlds[i + 1])
  }

  ghost predicate IsStep(h: Hash, cfg: Config, w: World, s: Step, w': World) {
    Can(h, w, s) && w' == Do(h, cfg, w, s)
  }

  lemma {:induction false} RunKeepsGood(h: Hash, cfg: Config, worlds: seq<World>, steps: seq<Step>, i: nat)
    requires Soft(cfg) && IsRun(h, cfg, worlds, steps) && i < |worlds|
    ensures Good(h, cfg, worlds[i])
  {
    hide Good, Can, Do;
    if i == 0 {
      StartIsGood(h, cfg);
    } else {
      RunKeepsGood(h, cfg, worlds, steps, i - 1);
      assert IsStep(h, cfg, worlds[i - 1], steps[i - 1], worlds[i]);
      StepKeepsGood(h, cfg, worlds[i - 1], steps[i - 1]);
    }
  }

  lemma StartIsGood(h: Hash, cfg: Config)
    ensures Good(h, cfg, Start)
  {
    EmptyLogOk(h, cfg.segmentSize);
  }

  /** A stored id is found under itself, with the message that was pushed. */
  lemma StoredIsFound(h: Hash, cfg: Config, w: World, id: nat)
    requires LogOk(h, cfg.segmentSize, w.queue.log) && StoredOk(w.queue.log.segments, w.pushed)
    requires w.queue.log.tail <= id < w.queue.log.head
    ensures id in w.pushed && Logs.Get(w.queue.log.segments, id) == Some(Entry(id, w.pushed[id]))
  {
    LogFacts(h, cfg.segmentSize, w.queue.log);
    hide LogOk, Contents, Logs.Get, Dense, Ordered;
    DenseGet(w.queue.log, id);
  }

  /**
   * At-least-once delivery. In every state of every run, each message a channel is owed is still
   * stored, unchanged and found under its id, and is either in flight or still to be read.
   */
  lemma AtLeastOnce(h: Hash, cfg: Config, worlds: seq<World>, steps: seq<Step>, i: nat, name: string, id: nat)
    requires Soft(cfg) && IsRun(h, cfg, worlds, steps) && i < |worlds|
    requires name in worlds[i].queue.channels
    ensures var w := worlds[i];
            && name in w.promises
            && (w.promises[name].start <= id < w.queue.log.head && id !in w.promises[name].done ==>
                  && id in w.pushed
                  && Logs.Get(w.queue.log.segments, id) == Some(Entry(id, w.pushed[id]))
                  && (id in Ids(w.queue.channels[name].flights) || id >= w.queue.channels[name].tail))
  {
    RunKeepsGood(h, cfg, worlds, steps, i);
    var w := worlds[i];
    hide LogOk, StoredOk, ChannelOk, Logs.Get, DiskOk, DoomedOk, ReadingOk, IsRun;
    var c, p := w.queue.channels[name], w.promises[name];
    if p.start <= id < w.queue.log.head && id !in p.done {
      OwedIsHeld(c, p, w.queue.log, w.issued, id);
      StoredIsFound(h, cfg, w, id);
    }
  }

  lemma OwedIsHeld(c: ChannelView, p: Promise, log: Log, issued: set<int>, id: nat)
    requires ChannelOk(c, p, log, issued) && p.start <= id < log.head && id !in p.done
    ensures id >= log.tail && (id in Ids(c.flights) || id >= c.tail)
  {
    hide HeapOk, RealTail, Issued;
  }

  /** What a delivery should hand out, by the state of the channel alone. */
  ghost predicate Delivers(w: World, name: string, clock: u32, ticket: int, r: Reply)
    requires name in w.queue.channels && name in w.promises
  {
    var c := w.queue.channels[name];
    if c.flights != [] && clock >= c.flights[0].expiration then
      c.flights[0].id in w.pushed
      && r == Delivered(ticket, Entry(c.flights[0].id, w.pushed[c.flights[0].id]))
    else if NextId(w.queue.log, c) < w.queue.log.head then
      var id := NextId(w.queue.log, c);
      id in w.pushed && r == Delivered(ticket, Entry(id, w.pushed[id])) && AllOwedInFlight(c, w.promises[name], id)
    else
      r == Reply.EndOfQueue(c.tail) && AllOwedInFlight(c, w.promises[name], w.queue.log.head)
  }

  /** Everything owed below `head` is in flight. */
  ghost predicate AllOwedInFlight(c: ChannelView, p: Promise, head: nat) {
    forall id :: p.start <= id < head && id !in p.done ==> id in Ids(c.flights)
  }

  /**
   * What a delivery hands out, in every state of every run: a timed-out message goes out again as
   * it was pushed, so the lookup of a message in flight never fails; otherwise the next id goes
   * out; and the end of the queue is reported only when everything owed is in flight.
   */
  lemma DeliveriesAreExact(
      h: Hash, cfg: Config, worlds: seq<World>, steps: seq<Step>, i: nat, name: string, clock: u32, ticket: int)
    requires Soft(cfg) && IsRun(h, cfg, worlds, steps) && i < |worlds|
    requires name in worlds[i].queue.channels
    ensures var w := worlds[i];
            && name in w.promises
            && Delivers(w, name, clock, ticket, Queues.Get(w.queue, cfg.messageTimeout, name, clock, ticket).0)
  {
    RunKeepsGood(h, cfg, worlds, steps, i);
    hide Good, IsRun;
    GoodDelivers(h, cfg, worlds[i], name, clock, ticket);
  }

  lemma GoodDelivers(h: Hash, cfg: Config, w: World, name: string, clock: u32, ticket: int)
    requires Good(h, cfg, w) && name in w.queue.channels
    ensures name in w.promises
    ensures Delivers(w, name, clock, ticket, Queues.Get(w.queue, cfg.messageTimeout, name, clock, ticket).0)
  {
    var log, c, p := w.queue.log, w.queue.channels[name], w.promises[name];
    assert ChannelOk(c, p, log, w.issued) && c.tail <= log.head;
    hide LogOk, StoredOk, Logs.Get, DiskOk, DoomedOk, ReadingOk, ChannelOk, ChannelsOk, Queues.Get;
    GetReplies(w.queue, cfg.messageTimeout, name, clock, ticket);
    if c.flights != [] && clock >= c.flights[0].expiration {
      FlightBounds(c, p, log, w.issued);
      StoredIsFound(h, cfg, w, c.flights[0].id);
    } else {
      NextFound(h, cfg, w, c);
      OwedBelowNext(c, p, log, w.issued);
      hide AllOwedInFlight;
      if NextId(log, c) < log.head {
        StoredIsFound(h, cfg, w, NextId(log, c));
      }
    }
  }

  lemma OwedBelowNext(c: ChannelView, p: Promise, log: Log, issued: set<int>)
    requires ChannelOk(c, p, log, issued)
    ensures AllOwedInFlight(c, p, if NextId(log, c) < log.head then NextId(log, c) else log.head)
  {
    hide HeapOk, Issued, FlightsStored;
  }

  /** A lookup at the tail of a channel finds the next id with the message that was pushed. */
  lemma NextFound(h: Hash, cfg: Config, w: World, c: ChannelView)
    requires LogOk(h, cfg.segmentSize, w.queue.log) && c.tail <= w.queue.log.head
    ensures var log := w.queue.log;
            Logs.Get(log.segments, c.tail) ==
              if NextId(log, c) < log.head then Logs.Get(log.segments, NextId(log, c)) else None
  {
    var log := w.queue.log;
    LogFacts(h, cfg.segmentSize, log);
    hide LogOk, Logs.Get, Contents, Chained;
    var id := NextId(log, c);
    NextIsFound(log, c);
    GetIsCeiling(log.segments, c.tail);
    if id < log.head {
      DenseGet(log, id);
    }
  }

  lemma GetReplies(q: Queue, timeout: u32, name: string, clock: u32, ticket: int)
    requires name in q.channels
    ensures var c, segs := q.channels[name], q.log.segments;
            var again, next := Logs.Get(segs, if c.flights == [] then 0 else c.flights[0].id), Logs.Get(segs, c.tail);
            Queues.Get(q, timeout, name, clock, ticket).0 ==
              if c.flights != [] && clock >= c.flights[0].expiration then
                (if again.Some? then Delivered(ticket, again.value) else Panic)
              else if next.Some? then Delivered(ticket, next.value)
              else Reply.EndOfQueue(c.tail)
  {
    hide Logs.Get, Launch;
  }

  lemma FlightBounds(c: ChannelView, p: Promise, log: Log, issued: set<int>)
    requires ChannelOk(c, p, log, issued) && c.flights != []
    ensures log.tail <= c.flights[0].id < c.tail <= log.head
  {
    hide RealTail, Issued, Owed;
    MembersOf(c.flights, 0);
  }
}
