/** Laws of a channel: its real tail, its expired prefix and its clock. */
module ChannelLaws {
  import opened Bytes
  import opened Logs
  import opened Channels

  // ----- what an operation does to the set of ids in flight

  lemma GetMembers(c: ChannelView, clock: u32, timeout: u32, ticket: int, next: Option<Entry>)
    requires Distinct(c.flights)
    ensures var (r, c') := Channels.Get(c, clock, timeout, ticket, next);
            match r
            case Redelivered(t, id) =>
              && c.flights != [] && id == c.flights[0].id && t == ticket && c'.tail == c.tail
              && Ids(c'.flights) == Ids(c.flights) && id in Ids(c.flights)
              && Tickets(c'.flights) == Tickets(c.flights) - {c.flights[0].ticket} + {ticket}
            case Fetched(t, e) =>
              && t == ticket && next == Some(e) && c'.tail == e.id + 1
              && Ids(c'.flights) == Ids(c.flights) + {e.id}
              && Tickets(c'.flights) == Tickets(c.flights) + {ticket}
            case EndOfQueue(_) => next == None && c' == c.(lastTouched := clock)
  {
    var f := InFlight(ticket, 0, Expiration(clock, timeout));
    if c.flights != [] {
      MembersAppend(c.flights[1..], f.(id := c.flights[0].id));
    }
    if next.Some? {
      MembersAppend(c.flights, f.(id := next.value.id));
    }
  }

  lemma AckMembers(c: ChannelView, ticket: int, clock: u32)
    requires Distinct(c.flights)
    ensures var (ok, c') := Channels.Ack(c, ticket, clock);
            var i := IndexOf(c.flights, ticket);
            && c'.tail == c.tail
            && (ok <==> CanAck(c, ticket, clock))
            && (ok ==>
                  && ticket in Tickets(c.flights) && c.flights[i].id in Ids(c.flights)
                  && Tickets(c'.flights) == Tickets(c.flights) - {ticket}
                  && Ids(c'.flights) == Ids(c.flights) - {c.flights[i].id})
            && (!ok ==> c' == c.(lastTouched := clock))
  {
    hide PopStale;
    var i := IndexOf(c.flights, ticket);
    if i < |c.flights| {
      RemoveKeepsDistinct(c.flights, i);
      MembersOf(c.flights, i);
    }
  }

  // ----- the real tail only moves forward

  lemma RealTailGrows(c: ChannelView, c': ChannelView)
    requires HeapOk(c) && HeapOk(c') && c'.tail >= c.tail
    requires forall id :: id in Ids(c'.flights) ==> id in Ids(c.flights) || id >= c.tail
    ensures RealTail(c) <= RealTail(c')
  {
    hide HeapOk, RealTail;
    RealTailIsLowest(c);
    RealTailIsLowest(c');
    if c'.flights != [] && RealTail(c') in Ids(c.flights) {
      var i := WithId(c.flights, RealTail(c'));
    }
  }

  /** The steps of a channel between two readings of its real tail. */
  datatype Step =
    | Get(clock: u32, timeout: u32, ticket: int, next: Option<Entry>)
    | Ack(ticket: int, clock: u32)
    | Update(clock: u32)
    | Purge(newTail: nat, clock: u32)
    | Seek(id: nat, clock: u32)

  ghost function Next(c: ChannelView, s: Step): ChannelView {
    match s
    case Get(clock, timeout, ticket, next) => Channels.Get(c, clock, timeout, ticket, next).1
    case Ack(ticket, clock) => Channels.Ack(c, ticket, clock).1
    case Update(clock) => Expire(c, clock)
    case Purge(newTail, clock) => PurgeChannel(c, newTail, clock)
    case Seek(id, clock) => Channels.Seek(c, id, clock)
  }

  /** Tickets are new, lookups start at the tail, purges and seeks go forward. */
  ghost predicate Legal(c: ChannelView, s: Step) {
    match s
    case Get(_, _, ticket, next) => FreshFor(c, ticket) && FoundAtOrAbove(next, c.tail)
    case Ack(_, _) => true
    case Update(_) => true
    case Purge(newTail, _) => newTail >= c.tail
    case Seek(id, _) => id >= c.tail
  }

  /**
   * Every operation keeps the heap in agreement with the entries in flight, so the real tail is
   * their least id, and never moves it back.
   */
  lemma StepKeepsRealTail(c: ChannelView, s: Step)
    requires HeapOk(c) && Legal(c, s)
    ensures HeapOk(Next(c, s))
    ensures IsLowest(Next(c, s), RealTail(Next(c, s)))
    ensures RealTail(c) <= RealTail(Next(c, s))
  {
    hide HeapOk, RealTail, Channels.Get, Channels.Ack, FreshFor, IsLowest;
    var c' := Next(c, s);
    assert Distinct(c.flights) by { HeapOkDistinct(c); }
    match s {
      case Get(clock, timeout, ticket, next) =>
        GetKeepsHeapOk(c, clock, timeout, ticket, next);
        GetMembers(c, clock, timeout, ticket, next);
      case Ack(ticket, clock) =>
        AckKeepsHeapOk(c, ticket, clock);
        AckMembers(c, ticket, clock);
      case Update(clock) =>
        ExpireKeepsFlights(c, clock);
        SameKeepsHeapOk(c, c');
        SameMembers(c.flights, c'.flights);
      case Purge(newTail, clock) =>
        EmptyHeapOk(c');
      case Seek(id, clock) =>
        SameKeepsHeapOk(c, c');
    }
    RealTailGrows(c, c');
    RealTailIsLowest(c');
  }

  lemma HeapOkDistinct(c: ChannelView)
    requires HeapOk(c)
    ensures Distinct(c.flights)
  {
  }

  lemma EmptyHeapOk(c: ChannelView)
    requires c.flights == [] && c.heap == multiset{}
    ensures HeapOk(c)
  {
  }

  // ----- where the code departs from it

  /** After a seek the real tail is at or below the tail exactly when the seek went no further back than it. */
  lemma SeekKeepsRealTail(c: ChannelView, id: nat, clock: u32)
    requires HeapOk(c)
    ensures var c' := Channels.Seek(c, id, clock);
            && (HeapOk(c') <==> AllBelow(c.flights, id))
            && (RealTail(c') <= c'.tail <==> c.flights == [] || RealTail(c) <= id)
  {
    hide Distinct, AllAgree;
    RealTailIsLowest(c);
    if c.flights != [] {
      assert InHeap(c.heap, c.flights[0]);
    }
  }

  /** After a purge of the whole queue the real tail is the new tail exactly when nothing was in flight. */
  lemma QueuePurgeRealTail(c: ChannelView, newTail: nat)
    requires HeapOk(c) && newTail >= c.tail
    ensures var c' := PurgedWithQueue(c, newTail);
            && RealTail(c') <= newTail
            && (RealTail(c') == newTail <==> c.flights == [])
  {
    hide Distinct, AllAgree;
    RealTailIsLowest(c);
    if c.flights != [] {
      assert InHeap(c.heap, c.flights[0]);
    }
  }

  /**
   * After a purge of the whole queue the heap still tracks what is in flight, but it is stale exactly
   * when something was in flight.
   */
  lemma QueuePurgeLeavesStale(c: ChannelView, newTail: nat)
    requires HeapOk(c) && newTail >= c.tail
    ensures var c' := PurgedWithQueue(c, newTail);
            && HeapTracks(c')
            && (if c.flights == [] then HeapOk(c') else StaleBelow(c', newTail))
  {
    hide Distinct;
    var c' := PurgedWithQueue(c, newTail);
    if c.flights != [] {
      assert InHeap(c.heap, c.flights[0]);
      assert HeapEntry(c.flights[0].id, c.flights[0].ticket) in c'.heap;
    }
    assert Distinct([]) by { NoneDistinct(); }
  }

  lemma NoneDistinct()
    ensures Distinct([])
  {
  }

  /** The heap holds an id below `low`, and everything in flight and still to come is at or above it. */
  ghost predicate StaleBelow(c: ChannelView, low: nat) {
    && low <= c.tail
    && (forall i :: 0 <= i < |c.flights| ==> c.flights[i].id >= low)
    && (exists e :: e in c.heap && e.id < low)
  }

  lemma StaleIsNotOk(c: ChannelView, low: nat)
    requires StaleBelow(c, low)
    ensures !HeapOk(c) && RealTail(c) < low
  {
    hide HeapTracks;
    var e :| e in c.heap && e.id < low;
    assert !Covered(c.flights, e.id);
    assert Before(Top(c.heap), e);
  }

  /**
   * A stale heap is healed by exactly two things: an accepted ack, and a purge of the channel. Every
   * other operation leaves it tracking what is in flight, and as stale as it was.
   */
  lemma StaleUntilAck(c: ChannelView, s: Step, low: nat)
    requires HeapTracks(c) && StaleBelow(c, low) && Legal(c, s)
    ensures var c' := Next(c, s);
            if s.Purge? || (s.Ack? && CanAck(c, s.ticket, s.clock)) then HeapOk(c')
            else HeapTracks(c') && StaleBelow(c', low) && !HeapOk(c')
  {
    hide HeapTracks, RealTail, Channels.Get, Channels.Ack, FreshFor, HeapOk, CanAck;
    var c' := Next(c, s);
    match s {
      case Get(clock, timeout, ticket, next) =>
        GetKeepsTracks(c, clock, timeout, ticket, next);
        GetKeepsStale(c, clock, timeout, ticket, next, low);
      case Ack(ticket, clock) =>
        if CanAck(c, ticket, clock) {
          AckClearsHeap(c, ticket, clock);
        } else {
          RefusedAck(c, ticket, clock);
          SameKeepsTracks(c, c');
        }
      case Update(clock) =>
        ExpireKeepsFlights(c, clock);
        SameKeepsTracks(c, c');
      case Purge(newTail, clock) =>
        EmptyHeapOk(c');
      case Seek(id, clock) =>
        SameKeepsTracks(c, c');
    }
    if StaleBelow(c', low) {
      StaleIsNotOk(c', low);
    }
  }

  lemma RefusedAck(c: ChannelView, ticket: int, clock: u32)
    requires !CanAck(c, ticket, clock)
    ensures Channels.Ack(c, ticket, clock).1 == c.(lastTouched := clock)
  {
  }

  lemma SameKeepsTracks(c: ChannelView, c': ChannelView)
    requires HeapTracks(c) && SameFlights(c.flights, c'.flights) && c'.heap == c.heap && c'.tail >= c.tail
    ensures HeapTracks(c')
  {
    hide Distinct;
    SameMembers(c.flights, c'.flights);
    forall i | 0 <= i < |c'.flights|
      ensures InHeap(c'.heap, c'.flights[i])
    {
      assert InHeap(c.heap, c.flights[i]);
    }
    forall e | e in c'.heap
      ensures Agrees(c'.flights, e)
    {
      assert Agrees(c.flights, e);
    }
  }

  lemma GetKeepsStale(c: ChannelView, clock: u32, timeout: u32, ticket: int, next: Option<Entry>, low: nat)
    requires StaleBelow(c, low) && FoundAtOrAbove(next, c.tail)
    ensures StaleBelow(Channels.Get(c, clock, timeout, ticket, next).1, low)
  {
    var e :| e in c.heap && e.id < low;
    assert e in Channels.Get(c, clock, timeout, ticket, next).1.heap;
  }

  // ----- the expired prefix

  /** The entries marked expired are exactly the first `expiredCount`. */
  ghost predicate PrefixOk(c: ChannelView) {
    && 0 <= c.expiredCount <= |c.flights|
    && forall i :: 0 <= i < |c.flights| ==> (c.flights[i].expiration == EXPIRED <==> i < c.expiredCount)
  }

  /** Expiring marks the entries up to the first one that has not timed out, and changes no other. */
  lemma {:induction false} ExpireKeepsPrefix(c: ChannelView, clock: u32)
    requires PrefixOk(c)
    ensures var c' := Expire(c, clock);
            && PrefixOk(c') && |c'.flights| == |c.flights|
            && c.expiredCount <= c'.expiredCount
            && (forall i :: 0 <= i < c'.expiredCount ==>
                  clock >= c.flights[i].expiration && c'.flights[i] == c.flights[i].(expiration := EXPIRED))
            && (forall i :: c'.expiredCount <= i < |c.flights| ==> c'.flights[i] == c.flights[i])
            && (c'.expiredCount < |c.flights| ==> clock < c.flights[c'.expiredCount].expiration)
    decreases |c.flights| - c.expiredCount
  {
    var n := c.expiredCount;
    if n < |c.flights| && clock >= c.flights[n].expiration {
      var c1 := c.(flights := c.flights[n := c.flights[n].(expiration := EXPIRED)], expiredCount := n + 1);
      ExpireKeepsPrefix(c1, clock);
      assert forall i :: 0 <= i < |c.flights| && i != n ==> c1.flights[i] == c.flights[i];
    } else {
      assert forall i :: 0 <= i < n ==> c.flights[i] == c.flights[i].(expiration := EXPIRED);
    }
  }

  /** A delivery keeps the prefix exactly when the new expiration is not the expired mark. */
  lemma GetKeepsPrefix(c: ChannelView, clock: u32, timeout: u32, ticket: int, next: Option<Entry>)
    requires PrefixOk(c)
    ensures var (r, c') := Channels.Get(c, clock, timeout, ticket, next);
            PrefixOk(c') <==> r.EndOfQueue? || Expiration(clock, timeout) != EXPIRED
  {
    hide Expiration;
    var fs := c.flights;
    var (r, c') := Channels.Get(c, clock, timeout, ticket, next);
    var n := |c'.flights| - 1;
    if r.Redelivered? {
      assert forall i :: 0 <= i < n ==> c'.flights[i] == fs[i + 1];
      assert c'.flights[n].expiration == Expiration(clock, timeout);
    } else if r.Fetched? {
      assert c'.flights[n].expiration == Expiration(clock, timeout);
    }
  }

  lemma AckKeepsPrefix(c: ChannelView, ticket: int, clock: u32)
    requires PrefixOk(c)
    ensures PrefixOk(Channels.Ack(c, ticket, clock).1)
  {
    hide PopStale;
    var i := IndexOf(c.flights, ticket);
    if CanAck(c, ticket, clock) {
      var rest := c.flights[..i] + c.flights[i + 1..];
      assert forall k :: 0 <= k < |rest| ==> rest[k] == c.flights[if k < i then k else k + 1];
    }
  }

  // ----- with a clock that does not go back and one timeout

  /** Expirations are in order after the prefix, and none is later than the latest delivery allows. */
  ghost predicate Timely(c: ChannelView, now: u32, timeout: u32) {
    && PrefixOk(c)
    && (forall i, j :: c.expiredCount <= i <= j < |c.flights| ==> c.flights[i].expiration <= c.flights[j].expiration)
    && (forall i :: 0 <= i < |c.flights| ==> c.flights[i].expiration <= now + timeout)
  }

  /** With a clock that does not go back, every step keeps the order of expirations. */
  lemma StepKeepsTimely(c: ChannelView, s: Step, now: u32, timeout: u32)
    requires Timely(c, now, timeout)
    requires match s
             case Get(clock, t, _, _) => now <= clock && t == timeout && 0 < clock + timeout < U32_RANGE
             case Ack(_, clock) => now <= clock
             case Update(clock) => now <= clock
             case Purge(_, clock) => now <= clock
             case Seek(_, clock) => now <= clock
    ensures Timely(Next(c, s), s.clock, timeout)
  {
    hide Timely, Expire, Channels.Get, Channels.Ack;
    match s {
      case Get(clock, _, ticket, next) => GetKeepsTimely(c, clock, timeout, ticket, next, now);
      case Ack(ticket, clock) => AckKeepsTimely(c, ticket, clock, now, timeout);
      case Update(clock) => ExpireKeepsTimely(c, clock, now, timeout);
      case Purge(_, clock) => TimelyLater(c, Next(c, s), now, clock, timeout);
      case Seek(_, clock) => TimelyLater(c, Next(c, s), now, clock, timeout);
    }
  }

  lemma TimelyLater(c: ChannelView, c': ChannelView, now: u32, clock: u32, timeout: u32)
    requires Timely(c, now, timeout) && now <= clock
    requires || (c'.flights == [] && c'.expiredCount == 0)
             || (c'.flights == c.flights && c'.expiredCount == c.expiredCount)
    ensures Timely(c', clock, timeout)
  {
  }

  lemma GetKeepsTimely(c: ChannelView, clock: u32, timeout: u32, ticket: int, next: Option<Entry>, now: u32)
    requires Timely(c, now, timeout) && now <= clock && 0 < clock + timeout < U32_RANGE
    ensures Timely(Channels.Get(c, clock, timeout, ticket, next).1, clock, timeout)
  {
    GetKeepsPrefix(c, clock, timeout, ticket, next);
    assert Expiration(clock, timeout) == clock + timeout;
    var (r, c') := Channels.Get(c, clock, timeout, ticket, next);
    if r.Redelivered? {
      assert forall i :: 0 <= i < |c'.flights| - 1 ==> c'.flights[i] == c.flights[i + 1];
    }
  }

  lemma AckKeepsTimely(c: ChannelView, ticket: int, clock: u32, now: u32, timeout: u32)
    requires Timely(c, now, timeout) && now <= clock
    ensures Timely(Channels.Ack(c, ticket, clock).1, clock, timeout)
  {
    hide PopStale;
    AckKeepsPrefix(c, ticket, clock);
    var i := IndexOf(c.flights, ticket);
    if CanAck(c, ticket, clock) {
      var rest := c.flights[..i] + c.flights[i + 1..];
      assert forall k :: 0 <= k < |rest| ==> rest[k] == c.flights[if k < i then k else k + 1];
    }
  }

  lemma ExpireKeepsTimely(c: ChannelView, clock: u32, now: u32, timeout: u32)
    requires Timely(c, now, timeout) && now <= clock
    ensures Timely(Expire(c, clock), clock, timeout)
  {
    hide Expire;
    ExpireKeepsPrefix(c, clock);
  }

  /** After an update the count of messages in flight is exact: the prefix is what has timed out. */
  lemma InFlightCountIsExact(c: ChannelView, clock: u32, now: u32, timeout: u32)
    requires Timely(c, now, timeout)
    ensures var c' := Expire(c, clock);
            forall i :: 0 <= i < |c.flights| ==> (i < c'.expiredCount <==> clock >= c.flights[i].expiration)
  {
    hide Expire;
    ExpireKeepsPrefix(c, clock);
  }

  /** A message is sent again exactly when some message in flight has timed out. */
  lemma RedeliversWhenTimedOut(c: ChannelView, clock: u32, now: u32, timeout: u32, ticket: int, next: Option<Entry>)
    requires Timely(c, now, timeout)
    ensures Channels.Get(c, clock, timeout, ticket, next).0.Redelivered?
        <==> exists i :: 0 <= i < |c.flights| && clock >= c.flights[i].expiration
  {
    if i :| 0 <= i < |c.flights| && clock >= c.flights[i].expiration {
      assert c.flights[0].expiration == EXPIRED || c.flights[0].expiration <= c.flights[i].expiration;
    }
  }
}
