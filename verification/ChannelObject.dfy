/** The channel object that get, ack and maintenance work on under its lock. */
module ChannelObjects {
  import opened Bytes
  import opened Logs
  import opened Channels

  lemma TopIsUnique(heap: multiset<HeapEntry>, a: HeapEntry, b: HeapEntry)
    requires IsTop(heap, a) && IsTop(heap, b)
    ensures a == b
  {
  }

  class Channel {
    var lastTouched: u32
    var expiredCount: int
    var tail: nat
    var inFlightMap: seq<InFlight>
    var inFlightHeap: multiset<HeapEntry>

    ghost function View(): ChannelView
      reads this
    {
      ChannelView(lastTouched, expiredCount, tail, inFlightMap, inFlightHeap)
    }

    constructor (tail: nat, clock: u32)
      ensures View() == Created(tail, clock)
    {
      lastTouched, expiredCount, this.tail := clock, 0, tail;
      inFlightMap, inFlightHeap := [], multiset{};
    }

    /** The entry the heap yields next. */
    method Peek() returns (e: HeapEntry)
      requires inFlightHeap != multiset{}
      ensures e == Top(inFlightHeap)
    {
      TopExists(inFlightHeap);
      e :| IsTop(inFlightHeap, e);
      TopIsUnique(inFlightHeap, e, Top(inFlightHeap));
    }

    /** The lowest id the channel still needs, as long as the heap agrees with what is in flight. */
    method RealTail() returns (r: nat)
      ensures r == Channels.RealTail(View())
      ensures HeapOk(View()) ==> IsLowest(View(), r)
    {
      r := tail;
      if inFlightHeap != multiset{} {
        var e := Peek();
        r := e.id;
      }
      if HeapOk(View()) {
        RealTailIsLowest(View());
      }
    }

    /** Marks what has timed out after the expired prefix. */
    method UpdateState(clock: u32)
      requires 0 <= expiredCount
      modifies this
      ensures View() == Expire(old(View()), clock)
    {
      ghost var c := View();
      while expiredCount < |inFlightMap| && clock >= inFlightMap[expiredCount].expiration
        invariant 0 <= expiredCount && Expire(View(), clock) == Expire(c, clock)
        decreases |inFlightMap| - expiredCount
      {
        inFlightMap := inFlightMap[expiredCount := inFlightMap[expiredCount].(expiration := EXPIRED)];
        expiredCount := expiredCount + 1;
      }
    }

    method InFlightCount(clock: u32) returns (n: int)
      requires 0 <= expiredCount
      modifies this
      ensures View() == Expire(old(View()), clock)
      ensures n == |inFlightMap| - expiredCount
    {
      UpdateState(clock);
      n := |inFlightMap| - expiredCount;
    }

    method Purge(newTail: nat, clock: u32)
      modifies this
      ensures View() == PurgeChannel(old(View()), newTail, clock)
    {
      inFlightHeap, inFlightMap, expiredCount := multiset{}, [], 0;
      tail, lastTouched := newTail, clock;
    }

    /** What a purge of the whole queue does here: the heap keeps its entries. */
    method PurgeWithQueue(newTail: nat)
      modifies this
      ensures View() == PurgedWithQueue(old(View()), newTail)
    {
      tail, inFlightMap, expiredCount := newTail, [], 0;
    }

    method Seek(id: nat, clock: u32)
      modifies this
      ensures View() == Channels.Seek(old(View()), id, clock)
    {
      tail, lastTouched := id, clock;
    }

    /** Whether the first message in flight has timed out. */
    predicate FrontTimedOut(clock: u32)
      reads this
    {
      inFlightMap != [] && clock >= inFlightMap[0].expiration
    }

    /** Sends the first message in flight again, under a new ticket. */
    method Redeliver(clock: u32, timeout: u32, ticket: int, ghost next: Option<Entry>) returns (id: nat)
      requires FrontTimedOut(clock)
      modifies this
      ensures (Redelivered(ticket, id), View()) == Channels.Get(old(View()), clock, timeout, ticket, next)
    {
      lastTouched := clock;
      var f := inFlightMap[0];
      if f.expiration == EXPIRED {
        expiredCount := expiredCount - 1;
      }
      id := f.id;
      inFlightMap := inFlightMap[1..] + [InFlight(ticket, id, Expiration(clock, timeout))];
      inFlightHeap := inFlightHeap + multiset{HeapEntry(id, ticket)};
    }

    /** Takes the next stored message, if there is one. */
    method Fetch(clock: u32, timeout: u32, ticket: int, next: Option<Entry>) returns (r: GetResult)
      requires !FrontTimedOut(clock)
      modifies this
      ensures r.Fetched? || r.EndOfQueue?
      ensures (r, View()) == Channels.Get(old(View()), clock, timeout, ticket, next)
    {
      lastTouched := clock;
      if next.None? {
        return EndOfQueue(tail);
      }
      var id := next.value.id;
      inFlightMap := inFlightMap + [InFlight(ticket, id, Expiration(clock, timeout))];
      inFlightHeap := inFlightHeap + multiset{HeapEntry(id, ticket)};
      tail := id + 1;
      r := Fetched(ticket, next.value);
    }

    /** Acknowledges a ticket that has not timed out, then drops stale tops of the heap. */
    method Ack(ticket: int, clock: u32) returns (ok: bool)
      modifies this
      ensures (ok, View()) == Channels.Ack(old(View()), ticket, clock)
    {
      hide PopStale, Tickets;
      lastTouched := clock;
      var i := IndexOf(inFlightMap, ticket);
      if i == |inFlightMap| || clock >= inFlightMap[i].expiration {
        return false;
      }
      inFlightMap := inFlightMap[..i] + inFlightMap[i + 1..];
      DropStale();
      ok := true;
    }

    method DropStale()
      modifies this`inFlightHeap
      ensures inFlightHeap == PopStale(old(inFlightHeap), Tickets(inFlightMap))
    {
      ghost var live := Tickets(inFlightMap);
      while inFlightHeap != multiset{}
        invariant PopStale(inFlightHeap, live) == PopStale(old(inFlightHeap), live)
        decreases |inFlightHeap|
      {
        var e := Peek();
        if e.ticket in Tickets(inFlightMap) {
          break;
        }
        inFlightHeap := inFlightHeap - multiset{e};
      }
    }
  }
}
