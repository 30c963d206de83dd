/** The queue object: one backend and its channels by name. */
module InnerQueues {
  import opened Bytes
  import opened Records
  import opened Segments
  import opened Logs
  import opened Channels
  import opened ChannelObjects
  import opened Retention
  import opened Restart
  import opened Damage
  import opened TimeSearch
  import opened Backend
  import opened Queues

  /** With timestamps in order, `id` is the first from `timestamp` on exactly when the search is not misled. */
  ghost predicate FoundFor(log: Log, timestamp: u32, id: nat) {
    SortedByTime(log.segments) ==> (IsFirst(log, timestamp, id) <==> NarrowingSafe(log, timestamp))
  }

  lemma FetchedReply(segs: seq<SegmentView>, g: GetResult)
    requires g.Fetched? || g.EndOfQueue?
    ensures ReplyTo(segs, g) == if g.Fetched? then Delivered(g.ticket, g.entry) else Reply.EndOfQueue(g.tail)
  {
  }

  lemma NothingRead(views: map<string, ChannelView>, read: set<string>)
    requires read == {}
    ensures IsLeastRead(views, read, None)
  {
  }

  lemma NothingCheckpointed(views: map<string, ChannelView>)
    ensures ChannelCheckpoints(views - views.Keys) == map[]
  {
  }

  lemma NothingRestored(cps: map<string, ChannelCheckpoint>)
    ensures RestoredChannels(cps - cps.Keys) == map[]
  {
  }

  lemma RestoreOneMore(cps: map<string, ChannelCheckpoint>, names: set<string>, n: string)
    requires n in cps && n in names
    ensures RestoredChannels(cps - (names - {n}))
         == RestoredChannels(cps - names)[n := Created(cps[n].tail, cps[n].lastTouched)]
  {
  }

  lemma CheckpointOneMore(views: map<string, ChannelView>, names: set<string>, n: string)
    requires n in views && n in names
    ensures ChannelCheckpoints(views - (names - {n}))
         == ChannelCheckpoints(views - names)[n := ChannelCheckpoint(RealTail(views[n]), views[n].lastTouched)]
  {
    hide RealTail;
  }

  class InnerQueue {
    const backend: QueueBackend
    var channels: map<string, Channel>
    ghost var views: map<string, ChannelView>
    ghost var repr: set<object>

    ghost function View(): Queue
      reads this, backend
    {
      Queue(backend.View(), views)
    }

    ghost predicate Valid()
      reads this, repr
    {
      && this in repr && backend in repr
      && backend.repr <= repr - {this}
      && backend.Valid()
      && ChannelsLinked()
    }

    ghost predicate ChannelsLinked()
      reads this, repr
    {
      && this in repr && backend in repr
      && views.Keys == channels.Keys
      && (forall n :: n in channels ==>
            channels[n] in repr - {this} - backend.repr && channels[n].View() == views[n])
      && (forall n, m :: n in channels && m in channels && n != m ==> channels[n] != channels[m])
    }

    constructor (hash: Hash, config: Config)
      ensures Valid() && fresh(repr)
      ensures View() == Queue(Empty, map[])
    {
      backend := new QueueBackend(hash, config);
      channels, views := map[], map[];
      new;
      repr := {this} + backend.repr;
    }

    method CreateChannel(name: string, clock: u32) returns (r: Reply)
      requires Valid()
      modifies this
      ensures Valid() && fresh(repr - old(repr))
      ensures (r, View()) == Queues.CreateChannel(old(View()), name, clock)
    {
      if name in channels {
        return ChannelAlreadyExists;
      }
      var c := new Channel(backend.head, clock);
      AddChannel(name, c);
      r := Done;
    }

    /** Adds a channel object that is not in use yet. */
    method AddChannel(n: string, c: Channel)
      requires ChannelsLinked() && n !in channels && c !in repr && c !in backend.repr
      modifies this
      ensures ChannelsLinked() && repr == old(repr) + {c}
      ensures channels == old(channels)[n := c] && views == old(views)[n := c.View()]
    {
      channels := channels[n := c];
      views := views[n := c.View()];
      repr := repr + {c};
    }

    method DeleteChannel(name: string) returns (r: Reply)
      requires Valid()
      modifies this
      ensures Valid() && repr == old(repr)
      ensures (r, View()) == Queues.DeleteChannel(old(View()), name)
    {
      if name !in channels {
        return ChannelNotFound;
      }
      channels := channels - {name};
      views := views - {name};
      r := Done;
    }

    /** Records the new state of a channel that was just changed, all others being as they were. */
    ghost method Relink(name: string)
      requires name in channels && this in repr && backend in repr
      requires views.Keys == channels.Keys
      requires forall n :: n in channels ==> channels[n] in repr - {this} - backend.repr
      requires forall n :: n in channels && n != name ==> channels[n].View() == views[n]
      requires forall n, m :: n in channels && m in channels && n != m ==> channels[n] != channels[m]
      modifies this`views
      ensures ChannelsLinked() && views == old(views)[name := channels[name].View()]
    {
      views := views[name := channels[name].View()];
    }

    method PurgeChannel(name: string, clock: u32) returns (r: Reply)
      requires Valid()
      modifies repr
      ensures Valid() && repr == old(repr)
      ensures (r, View()) == Queues.Purge(old(View()), name, clock)
    {
      hide QueueBackend.Valid;
      if name !in channels {
        return ChannelNotFound;
      }
      channels[name].Purge(backend.head, clock);
      Relink(name);
      r := Done;
    }

    method SeekChannelToId(name: string, id: nat, clock: u32) returns (r: Reply)
      requires Valid()
      modifies repr
      ensures Valid() && repr == old(repr)
      ensures (r, View()) == SeekTo(old(View()), name, id, clock)
      ensures name in old(channels) ==> r == Done && name in views && views[name].tail == id
    {
      hide QueueBackend.Valid;
      if name !in channels {
        return ChannelNotFound;
      }
      channels[name].Seek(id, clock);
      Relink(name);
      r := Done;
    }

    /** Takes a message for a channel under a new ticket. */
    method Get(name: string, clock: u32, ticket: int) returns (r: Reply)
      requires Valid()
      modifies repr
      ensures Valid() && repr == old(repr)
      ensures (r, View()) == Queues.Get(old(View()), backend.config.messageTimeout, name, clock, ticket)
    {
      if name !in channels {
        return ChannelNotFound;
      }
      hide QueueBackend.Valid, Queues.Get;
      if channels[name].FrontTimedOut(clock) {
        r := GetAgain(name, clock, ticket);
      } else {
        r := GetNext(name, clock, ticket);
      }
    }

    /** Sends the first message in flight again, whose time is up. */
    method GetAgain(name: string, clock: u32, ticket: int) returns (r: Reply)
      requires Valid() && name in channels && channels[name].FrontTimedOut(clock)
      modifies repr
      ensures Valid() && repr == old(repr)
      ensures (r, View()) == Queues.Get(old(View()), backend.config.messageTimeout, name, clock, ticket)
    {
      hide QueueBackend.Valid, Channels.Get, Logs.Get, IsCeiling;
      var c := channels[name];
      var id := c.Redeliver(clock, backend.config.messageTimeout, ticket, Logs.Get(backend.views, c.tail));
      Relink(name);
      hide ChannelsLinked;
      var m := backend.Get(id);
      r := if m.Some? then Delivered(ticket, m.value) else Panic;
    }

    /** Sends the next message, if there is one. */
    method GetNext(name: string, clock: u32, ticket: int) returns (r: Reply)
      requires Valid() && name in channels && !channels[name].FrontTimedOut(clock)
      modifies repr
      ensures Valid() && repr == old(repr)
      ensures (r, View()) == Queues.Get(old(View()), backend.config.messageTimeout, name, clock, ticket)
    {
      hide QueueBackend.Valid, Channels.Get, Logs.Get, IsCeiling, ReplyTo;
      var c := channels[name];
      var next := backend.Get(c.tail);
      var g := c.Fetch(clock, backend.config.messageTimeout, ticket, next);
      assert backend.Valid();
      Relink(name);
      hide ChannelsLinked;
      assert backend.Valid();
      r := if g.Fetched? then Delivered(g.ticket, g.entry) else Reply.EndOfQueue(g.tail);
      FetchedReply(backend.views, g);
    }

    method Ack(name: string, ticket: int, clock: u32) returns (r: Reply)
      requires Valid()
      modifies repr
      ensures Valid() && repr == old(repr)
      ensures (r, View()) == Queues.Ack(old(View()), name, ticket, clock)
    {
      hide QueueBackend.Valid;
      if name !in channels {
        return ChannelNotFound;
      }
      var ok := channels[name].Ack(ticket, clock);
      Relink(name);
      r := if ok then Done else TicketNotFound;
    }

    method Push(body: seq<byte>, clock: u32) returns (r: PushResult)
      requires Valid() && backend.head < U64_RANGE
      requires HEADER_SIZE + |body| + MAGIC_SIZE < U32_RANGE
      modifies repr
      ensures Valid() && fresh(repr - old(repr)) && views == old(views)
      ensures (r, backend.View())
           == Logs.Push(backend.hash, backend.config.segmentSize, old(backend.View()), body, clock)
    {
      hide QueueBackend.Valid, Logs.Push;
      r := backend.Push(body, clock);
      repr := repr + backend.repr;
    }

    /** Moves a channel to the first message from `timestamp` on. */
    method SeekChannelToTimestamp(name: string, timestamp: u32, clock: u32) returns (r: Reply)
      requires Valid()
      modifies repr
      ensures Valid() && repr == old(repr)
      ensures name in old(channels) ==>
                exists id :: FoundFor(old(backend.View()), timestamp, id)
                             && (r, View()) == SeekTo(old(View()), name, id, clock)
      ensures name in old(channels) && SortedByTime(old(backend.views))
              && NarrowingSafe(old(backend.View()), timestamp) ==>
                r == Done && name in views && IsFirst(old(backend.View()), timestamp, views[name].tail)
      ensures name !in old(channels) ==> (r, View()) == (ChannelNotFound, old(View()))
    {
      hide QueueBackend.Valid, IsFirst, NarrowingSafe, SortedByTime;
      if name !in channels {
        return ChannelNotFound;
      }
      var id := backend.FindIdForTimestamp(timestamp);
      assert FoundFor(backend.View(), timestamp, id);
      r := SeekChannelToId(name, id, clock);
    }

    lemma KeysMatch()
      requires ChannelsLinked()
      ensures views.Keys == channels.Keys
    {
    }

    /** Reads one channel: its real tail and when it was last touched. */
    method ReadChannel(n: string) returns (t: nat, touched: u32)
      requires ChannelsLinked() && n in channels
      ensures ChannelsLinked()
      ensures n in views && t == RealTail(views[n]) && touched == views[n].lastTouched
    {
      hide RealTail;
      t := channels[n].RealTail();
      touched := channels[n].lastTouched;
    }

    /** The least real tail of all channels, read one channel at a time; 0 without channels. */
    method SmallestTail() returns (t: nat)
      requires ChannelsLinked()
      ensures IsSmallestTail(views, t)
    {
      hide RealTail, ChannelsLinked, IsLeastRead;
      KeysMatch();
      var best: Option<nat> := None;
      var names := channels.Keys;
      assert IsLeastRead(views, views.Keys - names, None) by { NothingRead(views, views.Keys - names); }
      while names != {}
        invariant names <= channels.Keys == views.Keys && ChannelsLinked()
        invariant IsLeastRead(views, views.Keys - names, best)
        invariant names == views.Keys <==> best.None?
        decreases |names|
      {
        var n :| n in names;
        var x, _ := ReadChannel(n);
        ReadOneMore(views, views.Keys - names, best, n);
        assert views.Keys - names + {n} == views.Keys - (names - {n});
        best := if best.Some? && best.value <= x then best else Some(x);
        names := names - {n};
      }
      assert views.Keys - {} == views.Keys;
      t := if best.Some? then best.value else 0;
    }

    /** Collects what every channel has passed, then writes a checkpoint. */
    method Maintenance(clock: u32) returns (cp: QueueCheckpoint, smallest: nat)
      requires Valid()
      modifies repr
      ensures Valid() && repr == old(repr) && views == old(views)
      ensures IsSmallestTail(views, smallest)
      ensures backend.View() == Gc(backend.config, old(backend.View()), smallest, clock)
      ensures cp == Queues.Checkpoint(View())
    {
      hide QueueBackend.Valid, Gc, IsSmallestTail, RealTail;
      smallest := SmallestTail();
      backend.Gc(smallest, clock);
      cp := Checkpoint();
    }

    method BackendCheckpoint() returns (segs: seq<SegmentCheckpoint>)
      requires Valid()
      ensures Valid() && segs == Restart.Checkpoint(backend.View())
    {
      hide Restart.Checkpoint, Shape;
      segs := backend.Checkpoint();
    }

    method Checkpoint() returns (cp: QueueCheckpoint)
      requires Valid()
      ensures cp == Queues.Checkpoint(View())
    {
      hide RealTail, Restart.Checkpoint, QueueBackend.Valid, ChannelsLinked, ChannelCheckpoints;
      KeysMatch();
      assert ChannelCheckpoints(views - channels.Keys) == map[] by { NothingCheckpointed(views); }
      var segs := BackendCheckpoint();
      var cps: map<string, ChannelCheckpoint> := map[];
      var names := channels.Keys;
      while names != {}
        invariant names <= channels.Keys == views.Keys && ChannelsLinked()
        invariant cps == ChannelCheckpoints(views - names)
        decreases |names|
      {
        var n :| n in names;
        var t, touched := ReadChannel(n);
        CheckpointOneMore(views, names, n);
        cps := cps[n := ChannelCheckpoint(t, touched)];
        names := names - {n};
      }
      assert views - {} == views;
      cp := QueueCheckpoint(segs, cps);
    }

    /** Restores a new queue from a checkpoint and the segment files. */
    method Recover(cp: QueueCheckpoint, files: Files) returns (fault: bool)
      requires Valid() && channels == map[] && backend.View() == Empty && backend.repr == {backend}
      requires forall i :: 0 <= i < |cp.segments| ==> cp.segments[i].tail <= U64_RANGE
      modifies repr
      ensures fault <==> Queues.Recover(backend.hash, cp, files) == None
      ensures !fault ==> Restored() && Some(View()) == Queues.Recover(backend.hash, cp, files)
      ensures Survivable(backend.hash, cp.segments, files) ==> !fault && Valid()
    {
      hide Restart.Recover, Survivable, Shape;
      fault := backend.Recover(cp.segments, files);
      repr := repr + backend.repr;
      if !fault {
        hide QueueBackend.Linked;
        RestoreChannels(cp.channels);
      }
    }

    method RestoreChannels(cps: map<string, ChannelCheckpoint>)
      requires Restored() && channels == map[] && views == map[]
      modifies this
      ensures Restored() && views == RestoredChannels(cps)
    {
      hide Restored, RestoredChannels;
      var names := cps.Keys;
      NothingRestored(cps);
      while names != {}
        invariant names <= cps.Keys && Restored()
        invariant channels.Keys == cps.Keys - names && views == RestoredChannels(cps - names)
        decreases |names|
      {
        var n :| n in names;
        RestoreOneMore(cps, names, n);
        RestoreChannel(n, cps[n]);
        names := names - {n};
      }
      assert cps - {} == cps;
    }

    ghost predicate Restored()
      reads this, repr
    {
      this in repr && backend in repr && backend.repr <= repr - {this} && ChannelsLinked() && backend.Linked()
    }

    method RestoreChannel(n: string, cp: ChannelCheckpoint)
      requires Restored() && n !in channels
      modifies this
      ensures Restored() && fresh(repr - old(repr))
      ensures channels.Keys == old(channels).Keys + {n}
      ensures views == old(views)[n := Created(cp.tail, cp.lastTouched)]
    {
      hide QueueBackend.Linked, ChannelsLinked;
      var c := new Channel(cp.tail, cp.lastTouched);
      AddChannel(n, c);
    }
  }
}
