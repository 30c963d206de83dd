/** What a client of a queue sees of each request: its reply, and what the next requests then do. */
module QueueLaws {
  import opened Bytes
  import opened Records
  import opened Segments
  import opened Logs
  import opened TimeSearch
  import opened Channels
  import opened ChannelLaws
  import opened Deadlines
  import Restart
  import opened Queues

  /** A request that leaves the log and every other channel as they were. */
  ghost predicate Only(q: Queue, q': Queue, name: string) {
    && q'.log == q.log && q'.channels.Keys == q.channels.Keys
    && forall n :: n in q.channels && n != name ==> q'.channels[n] == q.channels[n]
  }

  /** The channel with nothing in flight that starts at `tail`. */
  ghost predicate StartsAt(c: ChannelView, tail: nat, clock: u32) {
    c.tail == tail && c.flights == [] && c.heap == multiset{} && c.expiredCount == 0 && c.lastTouched == clock
  }

  // ----- replies

  /** A channel is created exactly when its name is new, and it starts at the head of the log. */
  lemma CreateReplies(q: Queue, name: string, clock: u32)
    ensures var (r, q') := CreateChannel(q, name, clock);
            if name in q.channels then r == ChannelAlreadyExists && q' == q
            else
              && r == Done && q'.log == q.log && q'.channels.Keys == q.channels.Keys + {name}
              && StartsAt(q'.channels[name], q.log.head, clock)
              && forall n :: n in q.channels ==> q'.channels[n] == q.channels[n]
  {
  }

  /** A channel is deleted exactly when it exists, and no other is touched. */
  lemma DeleteReplies(q: Queue, name: string)
    ensures var (r, q') := DeleteChannel(q, name);
            && (r == if name in q.channels then Done else ChannelNotFound)
            && q'.log == q.log && q'.channels.Keys == q.channels.Keys - {name}
            && forall n :: n in q.channels && n != name ==> q'.channels[n] == q.channels[n]
  {
  }

  /** A purge succeeds exactly when the channel exists, which then starts at the head of the log. */
  lemma PurgeReplies(q: Queue, name: string, clock: u32)
    ensures var (r, q') := Queues.Purge(q, name, clock);
            && Only(q, q', name)
            && (r == if name in q.channels then Done else ChannelNotFound)
            && (name in q.channels ==> StartsAt(q'.channels[name], q.log.head, clock))
  {
  }

  /** An ack succeeds exactly when the channel has the ticket in flight until some later time. */
  lemma AckReplies(q: Queue, name: string, ticket: int, clock: u32)
    requires name in q.channels ==> Distinct(q.channels[name].flights)
    ensures var (r, q') := Queues.Ack(q, name, ticket, clock);
            && Only(q, q', name)
            && (r == ChannelNotFound <==> name !in q.channels)
            && (r == Done <==> name in q.channels && HeldPast(q.channels[name], ticket, clock))
            && (r == Done || r == ChannelNotFound || r == TicketNotFound)
            && (name in q.channels ==> q'.channels[name] == Channels.Ack(q.channels[name], ticket, clock).1)
  {
    hide Channels.Ack, Distinct, HeldPast;
    if name in q.channels {
      AckIsExact(q.channels[name], ticket, clock);
    }
  }

  /** A seek succeeds exactly when the channel exists, and moves its tail to the id and nothing else. */
  lemma SeekReplies(q: Queue, name: string, id: nat, clock: u32)
    ensures var (r, q') := SeekTo(q, name, id, clock);
            && Only(q, q', name)
            && (r == if name in q.channels then Done else ChannelNotFound)
            && (name in q.channels ==>
                  var c, c' := q.channels[name], q'.channels[name];
                  && c'.tail == id && c'.lastTouched == clock
                  && c'.flights == c.flights && c'.heap == c.heap && c'.expiredCount == c.expiredCount)
  {
  }

  // ----- deliveries

  /** The reply for a message found from `id` on: that with the least id not below it. */
  ghost predicate HandsOutFrom(q: Queue, id: nat, ticket: int, r: Reply) {
    if r.Delivered? then r.ticket == ticket && IsCeiling(Contents(q.log.segments), id, Some(r.entry))
    else r.EndOfQueue? && IsCeiling(Contents(q.log.segments), id, None)
  }

  /**
   * A get hands out the first message in flight if its time is up, and otherwise the stored one with
   * the least id from the tail of the channel on, if there is one.
   */
  lemma GetReplies(q: Queue, timeout: u32, name: string, clock: u32, ticket: int)
    requires Ordered(q.log.segments)
    ensures var (r, q') := Queues.Get(q, timeout, name, clock, ticket);
            && Only(q, q', name)
            && (name !in q.channels <==> r == ChannelNotFound)
            && (name in q.channels ==>
                  var c := q.channels[name];
                  if c.flights != [] && clock >= c.flights[0].expiration then
                    if r.Delivered? then
                      r.ticket == ticket && IsCeiling(Contents(q.log.segments), c.flights[0].id, Some(r.entry))
                    else r == Panic && IsCeiling(Contents(q.log.segments), c.flights[0].id, None)
                  else HandsOutFrom(q, c.tail, ticket, r))
  {
    hide Contents, Logs.Get, Ordered;
    if name in q.channels {
      var c := q.channels[name];
      GetIsExact(c, clock, timeout, ticket, Logs.Get(q.log.segments, c.tail));
      GetIsCeiling(q.log.segments, c.tail);
      if c.flights != [] {
        GetIsCeiling(q.log.segments, c.flights[0].id);
      }
      hide Channels.Get;
    }
  }

  /** The message that a get hands out can be acknowledged at any time before its deadline, and at no other. */
  lemma DeliveryDeadline(q: Queue, timeout: u32, name: string, clock: u32, ticket: int, t: u32)
    requires Ordered(q.log.segments) && name in q.channels
    requires HeapOk(q.channels[name]) && FreshFor(q.channels[name], ticket)
    ensures var (r, q') := Queues.Get(q, timeout, name, clock, ticket);
            r.Delivered? ==> (Queues.Ack(q', name, ticket, t).0 == Done <==> t < EndsAt(clock, timeout))
  {
    hide Contents, Logs.Get, Ordered, HeapOk, FreshFor, Channels.Get, Channels.Ack;
    var c := q.channels[name];
    var next := Logs.Get(q.log.segments, c.tail);
    GetIsCeiling(q.log.segments, c.tail);
    DeadlineIsExact(c, clock, timeout, ticket, next, t);
  }

  /** With nothing timed out, a get after a seek hands out the stored message with the least id not below it. */
  lemma GetAfterSeek(q: Queue, name: string, id: nat, clock: u32, timeout: u32, now: u32, ticket: int)
    requires Ordered(q.log.segments) && name in q.channels
    requires q.channels[name].flights != [] ==> now < q.channels[name].flights[0].expiration
    ensures var q' := SeekTo(q, name, id, clock).1;
            HandsOutFrom(q, id, ticket, Queues.Get(q', timeout, name, now, ticket).0)
  {
    hide SeekTo, Queues.Get, Contents, Ordered;
    SeekReplies(q, name, id, clock);
    GetReplies(SeekTo(q, name, id, clock).1, timeout, name, now, ticket);
  }

  /** After a purge a get hands out nothing that was stored before. */
  lemma GetAfterPurge(h: Hash, q: Queue, name: string, clock: u32, timeout: u32, now: u32, ticket: int)
    requires Shape(h, q.log) && name in q.channels
    ensures var q' := Queues.Purge(q, name, clock).1;
            HandsOutFrom(q, q.log.head, ticket, Queues.Get(q', timeout, name, now, ticket).0)
    ensures forall id :: id in Contents(q.log.segments) ==> id < q.log.head
  {
    hide Queues.Purge, Queues.Get, Contents, WellFormed;
    PurgeReplies(q, name, clock);
    GetReplies(Queues.Purge(q, name, clock).1, timeout, name, now, ticket);
    forall id | id in Contents(q.log.segments)
      ensures id < q.log.head
    {
      ContentsBounds(q.log.segments, id);
    }
  }

  /** So does a new channel, which sees only what is pushed after it was created. */
  lemma GetAfterCreate(q: Queue, name: string, clock: u32, timeout: u32, now: u32, ticket: int)
    requires Ordered(q.log.segments) && name !in q.channels
    ensures var q' := CreateChannel(q, name, clock).1;
            HandsOutFrom(q, q.log.head, ticket, Queues.Get(q', timeout, name, now, ticket).0)
  {
    hide CreateChannel, Queues.Get, Contents, Ordered;
    CreateReplies(q, name, clock);
    GetReplies(CreateChannel(q, name, clock).1, timeout, name, now, ticket);
  }

  // ----- seeking by time

  /**
   * The stored message `e` is the first from the tail of the log on that is not older than `timestamp`;
   * without one, all of them are older.
   */
  ghost predicate FirstSince(log: Log, timestamp: u32, e: Option<Entry>) {
    var stored := Contents(log.segments);
    && (e.Some? ==> e.value.id in stored && stored[e.value.id] == e.value.message
                    && e.value.id >= log.tail && e.value.message.timestamp >= timestamp)
    && forall k :: k in stored && k >= log.tail && (e.Some? ==> k < e.value.id) ==> stored[k].timestamp < timestamp
  }

  /** The least id that reaches the time leads to the first message not older than it. */
  lemma FirstIsSince(log: Log, timestamp: u32, id: nat, e: Option<Entry>)
    requires Ordered(log.segments) && IsFirst(log, timestamp, id)
    requires IsCeiling(Contents(log.segments), id, e)
    ensures FirstSince(log, timestamp, e)
  {
    hide Contents, Logs.Get, Ordered;
    var stored := Contents(log.segments);
    GetIsCeiling(log.segments, id);
    CeilingIsUnique(stored, id, e, Logs.Get(log.segments, id));
    forall k | k in stored && log.tail <= k < id
      ensures stored[k].timestamp < timestamp
    {
      GetIsCeiling(log.segments, k);
      assert !Reaches(log.segments, timestamp, k);
    }
  }

  /** A get after a seek to the id found for a time hands out the first message not older than it. */
  lemma GetAfterSeekToTime(
      q: Queue, name: string, timestamp: u32, id: nat, clock: u32, timeout: u32, now: u32, ticket: int)
    requires Ordered(q.log.segments) && name in q.channels && IsFirst(q.log, timestamp, id)
    requires q.channels[name].flights != [] ==> now < q.channels[name].flights[0].expiration
    ensures var q' := SeekTo(q, name, id, clock).1;
            var r := Queues.Get(q', timeout, name, now, ticket).0;
            && (r.Delivered? || r.EndOfQueue?)
            && FirstSince(q.log, timestamp, if r.Delivered? then Some(r.entry) else None)
  {
    hide SeekTo, Queues.Get, Contents, Ordered, IsFirst, FirstSince, IsCeiling;
    GetAfterSeek(q, name, id, clock, timeout, now, ticket);
    var r := Queues.Get(SeekTo(q, name, id, clock).1, timeout, name, now, ticket).0;
    FirstIsSince(q.log, timestamp, id, if r.Delivered? then Some(r.entry) else None);
  }

  // ----- checkpoints

  /** A checkpoint states every channel's lowest id still needed, and a restart gives it back. */
  lemma CheckpointedChannels(h: Hash, q: Queue, files: Restart.Files, name: string)
    requires name in q.channels && HeapOk(q.channels[name])
    ensures var cp := Queues.Checkpoint(q);
            && cp.channels.Keys == q.channels.Keys
            && IsLowest(q.channels[name], cp.channels[name].tail)
            && cp.channels[name].lastTouched == q.channels[name].lastTouched
            && var r := Queues.Recover(h, cp, files);
               r.Some? ==>
                 && r.value.channels.Keys == q.channels.Keys
                 && StartsAt(r.value.channels[name], cp.channels[name].tail, q.channels[name].lastTouched)
  {
    hide HeapOk, RealTail, Restart.Checkpoint, Restart.Recover;
    RealTailIsLowest(q.channels[name]);
  }
}
