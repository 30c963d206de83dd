/**
 * A channel as a value: messages in flight in least-recently-used order, with an expired prefix,
 * beside a min-heap of (id, ticket) pairs that is cleaned only when its top goes stale.
 */
module Channels {
  import opened Bytes
  import opened Logs

  const EXPIRED: u32 := 0

  datatype InFlight = InFlight(ticket: int, id: nat, expiration: u32)

  datatype HeapEntry = HeapEntry(id: nat, ticket: int)

  datatype ChannelView = ChannelView(
    lastTouched: u32, expiredCount: int, tail: nat, flights: seq<InFlight>, heap: multiset<HeapEntry>)

  datatype GetResult =
    | Redelivered(ticket: int, id: nat)
    | Fetched(ticket: int, entry: Entry)
    | EndOfQueue(tail: nat)

  function Created(tail: nat, clock: u32): ChannelView {
    ChannelView(clock, 0, tail, [], multiset{})
  }

  // ----- the heap

  /** The order of the heap: smallest id first, then largest ticket. */
  predicate Before(a: HeapEntry, b: HeapEntry) {
    a.id < b.id || (a.id == b.id && a.ticket >= b.ticket)
  }

  predicate IsTop(heap: multiset<HeapEntry>, e: HeapEntry) {
    e in heap && forall f :: f in heap ==> Before(e, f)
  }

  lemma {:induction false} TopExists(heap: multiset<HeapEntry>)
    requires heap != multiset{}
    ensures exists e :: IsTop(heap, e)
    decreases |heap|
  {
    var x :| x in heap;
    var rest := heap - multiset{x};
    assert heap == rest + multiset{x};
    if rest == multiset{} {
      assert IsTop(heap, x);
    } else {
      TopExists(rest);
      var y :| IsTop(rest, y);
      assert IsTop(heap, if Before(x, y) then x else y);
    }
  }

  ghost function Top(heap: multiset<HeapEntry>): (e: HeapEntry)
    requires heap != multiset{}
    ensures IsTop(heap, e)
  {
    TopExists(heap);
    var e :| IsTop(heap, e);
    e
  }

  /** Removes the top while its ticket is no longer in flight. */
  ghost function PopStale(heap: multiset<HeapEntry>, live: set<int>): (r: multiset<HeapEntry>)
    ensures r <= heap
    ensures forall e :: e in heap && e.ticket in live ==> e in r
    ensures r != multiset{} ==> Top(r).ticket in live
    decreases |heap|
  {
    if heap == multiset{} || Top(heap).ticket in live then heap
    else PopStale(heap - multiset{Top(heap)}, live)
  }

  ghost function RealTail(c: ChannelView): nat {
    if c.heap == multiset{} then c.tail else Top(c.heap).id
  }

  // ----- operations

  function Tickets(fs: seq<InFlight>): set<int> {
    if fs == [] then {} else {fs[0].ticket} + Tickets(fs[1..])
  }

  function Ids(fs: seq<InFlight>): set<nat> {
    if fs == [] then {} else {fs[0].id} + Ids(fs[1..])
  }

  lemma {:induction false} MembersOf(fs: seq<InFlight>, i: nat)
    requires i < |fs|
    ensures fs[i].ticket in Tickets(fs) && fs[i].id in Ids(fs)
  {
    if i > 0 {
      MembersOf(fs[1..], i - 1);
    }
  }

  lemma {:induction false} WithTicket(fs: seq<InFlight>, ticket: int) returns (i: nat)
    requires ticket in Tickets(fs)
    ensures i < |fs| && fs[i].ticket == ticket
  {
    if fs[0].ticket == ticket {
      i := 0;
    } else {
      i := WithTicket(fs[1..], ticket);
      i := i + 1;
    }
  }

  lemma {:induction false} WithId(fs: seq<InFlight>, id: nat) returns (i: nat)
    requires id in Ids(fs)
    ensures i < |fs| && fs[i].id == id
  {
    if fs[0].id == id {
      i := 0;
    } else {
      i := WithId(fs[1..], id);
      i := i + 1;
    }
  }

  lemma {:induction false} MembersAppend(fs: seq<InFlight>, f: InFlight)
    ensures Tickets(fs + [f]) == Tickets(fs) + {f.ticket} && Ids(fs + [f]) == Ids(fs) + {f.id}
  {
    if fs == [] {
      assert fs + [f] == [f];
    } else {
      assert (fs + [f])[1..] == fs[1..] + [f];
      MembersAppend(fs[1..], f);
    }
  }

  function IndexOf(fs: seq<InFlight>, ticket: int): (i: nat)
    ensures i <= |fs|
    ensures i < |fs| ==> fs[i].ticket == ticket
    ensures forall j :: 0 <= j < i ==> fs[j].ticket != ticket
  {
    if fs == [] || fs[0].ticket == ticket then 0 else 1 + IndexOf(fs[1..], ticket)
  }

  /** Marks the entries that follow the expired prefix and have timed out. */
  function Expire(c: ChannelView, clock: u32): ChannelView
    decreases |c.flights| - c.expiredCount
  {
    if 0 <= c.expiredCount < |c.flights| && clock >= c.flights[c.expiredCount].expiration then
      Expire(c.(flights := c.flights[c.expiredCount := c.flights[c.expiredCount].(expiration := EXPIRED)],
                expiredCount := c.expiredCount + 1), clock)
    else c
  }

  function Expiration(clock: u32, timeout: u32): u32 { (clock + timeout) % U32_RANGE }

  function Launch(c: ChannelView, id: nat, ticket: int, clock: u32, timeout: u32): ChannelView {
    c.(flights := c.flights + [InFlight(ticket, id, Expiration(clock, timeout))],
       heap := c.heap + multiset{HeapEntry(id, ticket)})
  }

  /** Takes a message: the first in flight if it has timed out, otherwise the next one stored. */
  function Get(c: ChannelView, clock: u32, timeout: u32, ticket: int, next: Option<Entry>)
      : (r: (GetResult, ChannelView))
  {
    var c := c.(lastTouched := clock);
    if c.flights != [] && clock >= c.flights[0].expiration then
      var f := c.flights[0];
      var count := if f.expiration == EXPIRED then c.expiredCount - 1 else c.expiredCount;
      (Redelivered(ticket, f.id),
       Launch(c.(expiredCount := count, flights := c.flights[1..]), f.id, ticket, clock, timeout))
    else if next.Some? then
      (Fetched(ticket, next.value), Launch(c.(tail := next.value.id + 1), next.value.id, ticket, clock, timeout))
    else
      (EndOfQueue(c.tail), c)
  }

  predicate CanAck(c: ChannelView, ticket: int, clock: u32) {
    var i := IndexOf(c.flights, ticket);
    i < |c.flights| && clock < c.flights[i].expiration
  }

  ghost function Ack(c: ChannelView, ticket: int, clock: u32): (r: (bool, ChannelView)) {
    var c := c.(lastTouched := clock);
    if !CanAck(c, ticket, clock) then (false, c)
    else
      var i := IndexOf(c.flights, ticket);
      var rest := c.flights[..i] + c.flights[i + 1..];
      (true, c.(flights := rest, heap := PopStale(c.heap, Tickets(rest))))
  }

  function PurgeChannel(c: ChannelView, newTail: nat, clock: u32): ChannelView {
    ChannelView(clock, 0, newTail, [], multiset{})
  }

  function Seek(c: ChannelView, id: nat, clock: u32): ChannelView {
    c.(tail := id, lastTouched := clock)
  }

  /** What a purge of the whole queue does to a channel: the heap is not cleared. */
  function PurgedWithQueue(c: ChannelView, newTail: nat): ChannelView {
    c.(tail := newTail, flights := [], expiredCount := 0)
  }

  // ----- invariants

  /** All tickets differ and all ids differ. */
  ghost predicate Distinct(fs: seq<InFlight>) {
    fs == [] || (fs[0].ticket !in Tickets(fs[1..]) && fs[0].id !in Ids(fs[1..]) && Distinct(fs[1..]))
  }

  ghost predicate InHeap(heap: multiset<HeapEntry>, f: InFlight) { HeapEntry(f.id, f.ticket) in heap }

  /** Some entry in flight has an id at or below `id`. */
  ghost predicate Covered(fs: seq<InFlight>, id: nat) {
    exists i :: 0 <= i < |fs| && fs[i].id <= id
  }

  /** Every entry in flight is in the heap. */
  ghost predicate Backed(fs: seq<InFlight>, heap: multiset<HeapEntry>) {
    forall i {:trigger InHeap(heap, fs[i])} :: 0 <= i < |fs| ==> InHeap(heap, fs[i])
  }

  /** No heap entry, live or stale, is below everything in flight. */
  ghost predicate AllCovered(fs: seq<InFlight>, heap: multiset<HeapEntry>) {
    forall e :: e in heap ==> Covered(fs, e.id)
  }

  /** A heap entry and an entry in flight with its ticket have the same id. */
  ghost predicate Agrees(fs: seq<InFlight>, e: HeapEntry) {
    forall i :: 0 <= i < |fs| && fs[i].ticket == e.ticket ==> fs[i].id == e.id
  }

  ghost predicate AllAgree(fs: seq<InFlight>, heap: multiset<HeapEntry>) {
    forall e :: e in heap ==> Agrees(fs, e)
  }

  ghost predicate AllBelow(fs: seq<InFlight>, tail: nat) {
    forall i :: 0 <= i < |fs| ==> fs[i].id < tail
  }

  /** Every entry in flight is in the heap under its id; the heap may hold more. */
  ghost predicate HeapTracks(c: ChannelView) {
    && Distinct(c.flights)
    && AllBelow(c.flights, c.tail)
    && Backed(c.flights, c.heap)
    && AllAgree(c.flights, c.heap)
  }

  ghost predicate HeapOk(c: ChannelView) {
    HeapTracks(c) && AllCovered(c.flights, c.heap)
  }

  /** A ticket that the channel has never used. */
  ghost predicate FreshFor(c: ChannelView, ticket: int) {
    ticket !in Tickets(c.flights) && forall e :: e in c.heap ==> e.ticket != ticket
  }

  /** No ticket of the channel, live or stale, is outside `issued`. */
  ghost predicate Issued(c: ChannelView, issued: set<int>) {
    && (forall i :: 0 <= i < |c.flights| ==> c.flights[i].ticket in issued)
    && (forall e :: e in c.heap ==> e.ticket in issued)
  }

  /** The least id in flight, or the tail when nothing is in flight. */
  ghost predicate IsLowest(c: ChannelView, low: nat) {
    if c.flights == [] then low == c.tail
    else low in Ids(c.flights) && forall i :: 0 <= i < |c.flights| ==> low <= c.flights[i].id
  }

  /** The lazily cleaned heap agrees with the simple definition of the real tail. */
  lemma RealTailIsLowest(c: ChannelView)
    requires HeapOk(c)
    ensures IsLowest(c, RealTail(c))
    ensures c.flights != [] ==> RealTail(c) < c.tail
  {
    hide Distinct;
    if c.flights == [] {
      assert forall id :: !Covered(c.flights, id);
    } else {
      assert InHeap(c.heap, c.flights[0]);
      var top := Top(c.heap);
      assert Covered(c.flights, top.id);
      var i :| 0 <= i < |c.flights| && c.flights[i].id <= top.id;
      forall j | 0 <= j < |c.flights|
        ensures top.id <= c.flights[j].id
      {
        assert InHeap(c.heap, c.flights[j]);
      }
      MembersOf(c.flights, i);
    }
  }

  // ----- what each operation keeps

  /** Entries that agree on tickets and ids in order. */
  ghost predicate SameFlights(fs: seq<InFlight>, gs: seq<InFlight>) {
    && |fs| == |gs|
    && forall i :: 0 <= i < |fs| ==> fs[i].ticket == gs[i].ticket && fs[i].id == gs[i].id
  }

  lemma {:induction false} ExpireKeepsFlights(c: ChannelView, clock: u32)
    ensures var c' := Expire(c, clock);
            SameFlights(c.flights, c'.flights) && c'.heap == c.heap && c'.tail == c.tail
    decreases |c.flights| - c.expiredCount
  {
    if 0 <= c.expiredCount < |c.flights| && clock >= c.flights[c.expiredCount].expiration {
      ExpireKeepsFlights(
        c.(flights := c.flights[c.expiredCount := c.flights[c.expiredCount].(expiration := EXPIRED)],
           expiredCount := c.expiredCount + 1), clock);
    }
  }

  lemma {:induction false} SameMembers(fs: seq<InFlight>, gs: seq<InFlight>)
    requires SameFlights(fs, gs)
    ensures Tickets(fs) == Tickets(gs) && Ids(fs) == Ids(gs) && (Distinct(fs) <==> Distinct(gs))
  {
    if fs != [] {
      SameMembers(fs[1..], gs[1..]);
    }
  }

  lemma SameKeepsHeapOk(c: ChannelView, c': ChannelView)
    requires HeapOk(c) && SameFlights(c.flights, c'.flights) && c'.heap == c.heap && c'.tail >= c.tail
    ensures HeapOk(c')
    ensures c'.tail == c.tail ==> RealTail(c') == RealTail(c)
  {
    hide IsTop, Distinct, Covered;
    var fs, gs := c.flights, c'.flights;
    SameMembers(fs, gs);
    forall i | 0 <= i < |gs|
      ensures InHeap(c'.heap, gs[i])
    {
      assert InHeap(c.heap, fs[i]);
    }
    forall e | e in c'.heap
      ensures Covered(gs, e.id) && Agrees(gs, e)
    {
      assert Covered(fs, e.id) && Agrees(fs, e);
      SameCovered(fs, gs, e.id);
    }
  }

  lemma SameCovered(fs: seq<InFlight>, gs: seq<InFlight>, id: nat)
    requires SameFlights(fs, gs) && Covered(fs, id)
    ensures Covered(gs, id)
  {
    var i :| 0 <= i < |fs| && fs[i].id <= id;
    assert gs[i].id <= id;
  }

  lemma {:induction false} RemoveKeepsDistinct(fs: seq<InFlight>, i: nat)
    requires Distinct(fs) && i < |fs|
    ensures var rest := fs[..i] + fs[i + 1..];
            && Distinct(rest)
            && Tickets(rest) == Tickets(fs) - {fs[i].ticket}
            && Ids(rest) == Ids(fs) - {fs[i].id}
  {
    var rest := fs[..i] + fs[i + 1..];
    if i == 0 {
      assert rest == fs[1..];
    } else {
      var fs', rest' := fs[1..], fs[1..][..i - 1] + fs[1..][i..];
      RemoveKeepsDistinct(fs', i - 1);
      MembersOf(fs', i - 1);
      assert rest[0] == fs[0] && rest[1..] == rest';
    }
  }

  /** An entry put back or added at the end, with a ticket and an id of its own. */
  lemma LaunchKeepsTracks(c: ChannelView, id: nat, ticket: int, clock: u32, timeout: u32)
    requires HeapTracks(c) && FreshFor(c, ticket) && id !in Ids(c.flights) && id < c.tail
    ensures HeapTracks(Launch(c, id, ticket, clock, timeout))
  {
    var c' := Launch(c, id, ticket, clock, timeout);
    var fs, f := c.flights, c'.flights[|c.flights|];
    DistinctAppend(fs, f);
    BackedAppend(fs, f, c.heap);
    forall e | e in c'.heap
      ensures Agrees(c'.flights, e)
    {
      hide Distinct, Backed, AllBelow;
      if e in c.heap {
        assert Agrees(fs, e);
      } else {
        assert e == HeapEntry(id, ticket);
        forall i | 0 <= i < |fs|
          ensures fs[i].ticket != ticket
        {
          MembersOf(fs, i);
        }
      }
    }
  }

  lemma LaunchKeepsHeapOk(c: ChannelView, id: nat, ticket: int, clock: u32, timeout: u32)
    requires HeapTracks(c) && FreshFor(c, ticket) && id !in Ids(c.flights) && id < c.tail
    requires forall e :: e in c.heap ==> e.id >= id || Covered(c.flights, e.id)
    ensures HeapOk(Launch(c, id, ticket, clock, timeout))
  {
    hide HeapTracks, Covered, FreshFor;
    LaunchKeepsTracks(c, id, ticket, clock, timeout);
    var c' := Launch(c, id, ticket, clock, timeout);
    forall e | e in c'.heap
      ensures Covered(c'.flights, e.id)
    {
      CoveredAppend(c.flights, c'.flights[|c.flights|], e.id);
    }
  }

  lemma {:induction false} DistinctAppend(fs: seq<InFlight>, f: InFlight)
    requires Distinct(fs) && f.ticket !in Tickets(fs) && f.id !in Ids(fs)
    ensures Distinct(fs + [f])
  {
    if fs == [] {
      assert fs + [f] == [f];
    } else {
      assert (fs + [f])[1..] == fs[1..] + [f];
      DistinctAppend(fs[1..], f);
      MembersAppend(fs[1..], f);
    }
  }

  lemma BackedAppend(fs: seq<InFlight>, f: InFlight, heap: multiset<HeapEntry>)
    requires Backed(fs, heap)
    ensures Backed(fs + [f], heap + multiset{HeapEntry(f.id, f.ticket)})
  {
    var heap' := heap + multiset{HeapEntry(f.id, f.ticket)};
    forall i | 0 <= i < |fs + [f]|
      ensures InHeap(heap', (fs + [f])[i])
    {
      assert i < |fs| ==> InHeap(heap, fs[i]);
    }
  }

  lemma CoveredAppend(fs: seq<InFlight>, f: InFlight, id: nat)
    requires f.id <= id || Covered(fs, id)
    ensures Covered(fs + [f], id)
  {
    if f.id <= id {
      assert (fs + [f])[|fs|].id <= id;
    } else {
      var i :| 0 <= i < |fs| && fs[i].id <= id;
      assert (fs + [f])[i].id <= id;
    }
  }

  /** A lookup from the tail finds no id below it. */
  predicate FoundAtOrAbove(next: Option<Entry>, tail: nat) { next.Some? ==> next.value.id >= tail }

  /** The channel before the entry that a delivery adds. */
  ghost function Base(c: ChannelView, clock: u32, next: Option<Entry>): ChannelView {
    var fs := c.flights;
    if fs != [] && clock >= fs[0].expiration then
      var count := if fs[0].expiration == EXPIRED then c.expiredCount - 1 else c.expiredCount;
      c.(lastTouched := clock, expiredCount := count, flights := fs[1..])
    else if next.Some? then c.(lastTouched := clock, tail := next.value.id + 1)
    else c.(lastTouched := clock)
  }

  lemma BaseTracks(c: ChannelView, clock: u32, ticket: int, next: Option<Entry>)
    requires HeapTracks(c) && FreshFor(c, ticket) && FoundAtOrAbove(next, c.tail)
    ensures var base := Base(c, clock, next);
            && HeapTracks(base) && FreshFor(base, ticket)
            && (c.flights != [] && clock >= c.flights[0].expiration ==>
                  c.flights[0].id !in Ids(base.flights) && c.flights[0].id < base.tail)
            && (!(c.flights != [] && clock >= c.flights[0].expiration) && next.Some? ==>
                  next.value.id !in Ids(base.flights) && next.value.id < base.tail)
  {
    if c.flights != [] && clock >= c.flights[0].expiration {
      WithoutFirst(c, ticket);
    } else if next.Some? && next.value.id in Ids(c.flights) {
      var i := WithId(c.flights, next.value.id);
    }
  }

  lemma GetKeepsTracks(c: ChannelView, clock: u32, timeout: u32, ticket: int, next: Option<Entry>)
    requires HeapTracks(c) && FreshFor(c, ticket) && FoundAtOrAbove(next, c.tail)
    ensures HeapTracks(Get(c, clock, timeout, ticket, next).1)
  {
    BaseTracks(c, clock, ticket, next);
    hide Launch, HeapTracks, FreshFor;
    var base := Base(c, clock, next);
    if c.flights != [] && clock >= c.flights[0].expiration {
      LaunchKeepsTracks(base, c.flights[0].id, ticket, clock, timeout);
    } else if next.Some? {
      LaunchKeepsTracks(base, next.value.id, ticket, clock, timeout);
    }
  }

  lemma GetKeepsHeapOk(c: ChannelView, clock: u32, timeout: u32, ticket: int, next: Option<Entry>)
    requires HeapOk(c) && FreshFor(c, ticket) && FoundAtOrAbove(next, c.tail)
    ensures HeapOk(Get(c, clock, timeout, ticket, next).1)
  {
    BaseTracks(c, clock, ticket, next);
    hide Launch, HeapTracks, FreshFor, Covered;
    var base := Base(c, clock, next);
    if c.flights != [] && clock >= c.flights[0].expiration {
      forall e | e in c.heap
        ensures e.id >= c.flights[0].id || Covered(base.flights, e.id)
      {
        TailCovered(c.flights, e);
      }
      LaunchKeepsHeapOk(base, c.flights[0].id, ticket, clock, timeout);
    } else if next.Some? {
      LaunchKeepsHeapOk(base, next.value.id, ticket, clock, timeout);
    } else {
      assert HeapTracks(base);
    }
  }

  /** What is left of the invariant when the first entry is taken out to be sent again. */
  lemma WithoutFirst(c: ChannelView, ticket: int)
    requires HeapTracks(c) && FreshFor(c, ticket) && c.flights != []
    ensures var rest := c.flights[1..];
            && Distinct(rest) && Backed(rest, c.heap) && AllAgree(rest, c.heap) && AllBelow(rest, c.tail)
            && c.flights[0].id !in Ids(rest) && ticket !in Tickets(rest)
  {
    var fs, rest := c.flights, c.flights[1..];
    hide Distinct, Tickets, Ids;
    assert fs[..0] + fs[1..] == rest;
    RemoveKeepsDistinct(fs, 0);
    forall i | 0 <= i < |rest|
      ensures InHeap(c.heap, rest[i]) && rest[i].id < c.tail
    {
      assert InHeap(c.heap, fs[i + 1]);
    }
    forall e | e in c.heap
      ensures Agrees(rest, e)
    {
      assert Agrees(fs, e);
    }
  }

  lemma TailCovered(fs: seq<InFlight>, e: HeapEntry)
    requires fs != [] && Covered(fs, e.id)
    ensures e.id >= fs[0].id || Covered(fs[1..], e.id)
  {
    var i :| 0 <= i < |fs| && fs[i].id <= e.id;
    assert i > 0 ==> fs[1..][i - 1].id <= e.id;
  }

  /** An accepted ack clears whatever is stale on top of the heap. */
  lemma AckClearsHeap(c: ChannelView, ticket: int, clock: u32)
    requires HeapTracks(c) && CanAck(c, ticket, clock)
    ensures HeapOk(Ack(c, ticket, clock).1)
  {
    hide PopStale, Distinct, Tickets, Ids, Backed, AllCovered, AllAgree, AllBelow;
    var i := IndexOf(c.flights, ticket);
    var rest := c.flights[..i] + c.flights[i + 1..];
    RemoveKeepsDistinct(c.flights, i);
    PoppedHeap(c, rest, i);
  }

  lemma AckKeepsHeapOk(c: ChannelView, ticket: int, clock: u32)
    requires HeapOk(c)
    ensures HeapOk(Ack(c, ticket, clock).1)
  {
    if CanAck(c, ticket, clock) {
      hide Ack, HeapTracks;
      AckClearsHeap(c, ticket, clock);
    }
  }

  /** After the stale tops are gone, the top is live and bounds everything. */
  lemma PoppedHeap(c: ChannelView, rest: seq<InFlight>, i: nat)
    requires HeapTracks(c) && i < |c.flights| && rest == c.flights[..i] + c.flights[i + 1..]
    ensures var heap := PopStale(c.heap, Tickets(rest));
            Backed(rest, heap) && AllCovered(rest, heap) && AllAgree(rest, heap) && AllBelow(rest, c.tail)
  {
    hide PopStale, Top, Distinct, Covered;
    var fs, heap := c.flights, PopStale(c.heap, Tickets(rest));
    forall k | 0 <= k < |rest|
      ensures InHeap(heap, rest[k]) && rest[k].id < c.tail
    {
      MembersOf(rest, k);
      assert InHeap(c.heap, fs[if k < i then k else k + 1]);
    }
    forall e | e in heap
      ensures Agrees(rest, e)
    {
      assert e in c.heap && Agrees(fs, e);
      RemovedAgrees(fs, i, e);
    }
    if heap != multiset{} {
      var top := Top(heap);
      var k := WithTicket(rest, top.ticket);
      assert Agrees(rest, top);
      forall e | e in heap
        ensures Covered(rest, e.id)
      {
        assert Before(top, e);
        CoveredBy(rest, k, e.id);
      }
    }
  }

  lemma RemovedAgrees(fs: seq<InFlight>, i: nat, e: HeapEntry)
    requires i < |fs| && Agrees(fs, e)
    ensures Agrees(fs[..i] + fs[i + 1..], e)
  {
  }

  lemma CoveredBy(fs: seq<InFlight>, k: nat, id: nat)
    requires k < |fs| && fs[k].id <= id
    ensures Covered(fs, id)
  {
  }
}
