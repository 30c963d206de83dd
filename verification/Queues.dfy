/** A queue as a value: its log and its channels, and what each request does to them. */
module Queues {
  import opened Bytes
  import opened Records
  import opened Segments
  import opened Logs
  import opened Channels
  import opened Restart

  datatype Queue = Queue(log: Log, channels: map<string, ChannelView>)

  datatype Reply =
    | Delivered(ticket: int, entry: Entry)
    | EndOfQueue(tail: nat)
    | Done
    | ChannelNotFound
    | ChannelAlreadyExists
    | TicketNotFound
    | Panic

  datatype ChannelCheckpoint = ChannelCheckpoint(tail: nat, lastTouched: u32)

  datatype QueueCheckpoint = QueueCheckpoint(
    segments: seq<SegmentCheckpoint>, channels: map<string, ChannelCheckpoint>)

  function CreateChannel(q: Queue, name: string, clock: u32): (Reply, Queue) {
    if name in q.channels then (ChannelAlreadyExists, q)
    else (Done, q.(channels := q.channels[name := Created(q.log.head, clock)]))
  }

  function DeleteChannel(q: Queue, name: string): (Reply, Queue) {
    if name in q.channels then (Done, q.(channels := q.channels - {name})) else (ChannelNotFound, q)
  }

  /** What the backend hands out for a delivery; a message in flight that is gone is a panic. */
  function ReplyTo(segs: seq<SegmentView>, r: GetResult): Reply {
    match r
    case Redelivered(ticket, id) =>
      var m := Logs.Get(segs, id);
      if m.Some? then Delivered(ticket, m.value) else Panic
    case Fetched(ticket, entry) => Delivered(ticket, entry)
    case EndOfQueue(tail) => Reply.EndOfQueue(tail)
  }

  function Get(q: Queue, timeout: u32, name: string, clock: u32, ticket: int): (Reply, Queue) {
    if name !in q.channels then (ChannelNotFound, q)
    else
      var c := q.channels[name];
      var (r, c') := Channels.Get(c, clock, timeout, ticket, Logs.Get(q.log.segments, c.tail));
      (ReplyTo(q.log.segments, r), q.(channels := q.channels[name := c']))
  }

  ghost function Ack(q: Queue, name: string, ticket: int, clock: u32): (Reply, Queue) {
    if name !in q.channels then (ChannelNotFound, q)
    else
      var (ok, c') := Channels.Ack(q.channels[name], ticket, clock);
      (if ok then Done else TicketNotFound, q.(channels := q.channels[name := c']))
  }

  function Purge(q: Queue, name: string, clock: u32): (Reply, Queue) {
    if name !in q.channels then (ChannelNotFound, q)
    else (Done, q.(channels := q.channels[name := PurgeChannel(q.channels[name], q.log.head, clock)]))
  }

  function SeekTo(q: Queue, name: string, id: nat, clock: u32): (Reply, Queue) {
    if name !in q.channels then (ChannelNotFound, q)
    else (Done, q.(channels := q.channels[name := Seek(q.channels[name], id, clock)]))
  }

  /** `best` is the least real tail of the channels named in `read`. */
  ghost predicate IsLeastRead(channels: map<string, ChannelView>, read: set<string>, best: Option<nat>)
    requires read <= channels.Keys
  {
    match best
    case None => read == {}
    case Some(t) =>
      && (exists n :: n in read && t == RealTail(channels[n]))
      && forall n :: n in read ==> t <= RealTail(channels[n])
  }

  lemma ReadOneMore(channels: map<string, ChannelView>, read: set<string>, best: Option<nat>, n: string)
    requires n in channels && read <= channels.Keys && IsLeastRead(channels, read, best)
    ensures var t := RealTail(channels[n]);
            IsLeastRead(channels, read + {n}, if best.Some? && best.value <= t then best else Some(t))
  {
    hide RealTail;
    assert n in read + {n};
    if best.Some? {
      var m :| m in read && best.value == RealTail(channels[m]);
      assert m in read + {n};
    }
  }

  /** The least real tail of the channels, or 0 when there is none. */
  ghost predicate IsSmallestTail(channels: map<string, ChannelView>, t: nat) {
    IsLeastRead(channels, channels.Keys, if channels == map[] then None else Some(t))
    && (channels == map[] ==> t == 0)
  }

  ghost function ChannelCheckpoints(channels: map<string, ChannelView>): map<string, ChannelCheckpoint> {
    map n | n in channels :: ChannelCheckpoint(RealTail(channels[n]), channels[n].lastTouched)
  }

  ghost function Checkpoint(q: Queue): QueueCheckpoint {
    QueueCheckpoint(
      Restart.Checkpoint(q.log), ChannelCheckpoints(q.channels))
  }

  /** Restored channels start at their checkpointed tail with nothing in flight. */
  function RestoredChannels(cps: map<string, ChannelCheckpoint>): map<string, ChannelView> {
    map n | n in cps :: Created(cps[n].tail, cps[n].lastTouched)
  }

  function Recover(h: Hash, cp: QueueCheckpoint, files: Files): Option<Queue> {
    match Restart.Recover(h, cp.segments, files)
    case None => None
    case Some(log) => Some(Queue(log, RestoredChannels(cp.channels)))
  }
}
