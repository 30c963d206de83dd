/**
 * Deadlines: until when a delivered message can be acknowledged and from when on it is delivered again,
 * and what each operation of a channel leaves alone.
 */
module Deadlines {
  import opened Bytes
  import opened Logs
  import opened Channels
  import opened ChannelLaws

  /** The time at which a delivery made at `clock` is over: a sum of 32-bit numbers that may wrap. */
  function EndsAt(clock: u32, timeout: u32): u32 {
    if clock + timeout < U32_RANGE then clock + timeout else clock + timeout - U32_RANGE
  }

  /** The message is in flight under the ticket until the given time. */
  ghost predicate InFlightUntil(c: ChannelView, ticket: int, id: nat, end: u32) {
    InFlight(ticket, id, end) in c.flights
  }

  /** The ticket is in flight until some time after `t`. */
  ghost predicate HeldPast(c: ChannelView, ticket: int, t: u32) {
    exists i :: 0 <= i < |c.flights| && c.flights[i].ticket == ticket && t < c.flights[i].expiration
  }

  lemma {:induction false} OneByTicket(fs: seq<InFlight>, i: nat, j: nat)
    requires Distinct(fs) && i < |fs| && j < |fs| && fs[i].ticket == fs[j].ticket
    ensures i == j
  {
    if i == 0 && j > 0 {
      MembersOf(fs[1..], j - 1);
    } else if j == 0 && i > 0 {
      MembersOf(fs[1..], i - 1);
    } else if i > 0 {
      OneByTicket(fs[1..], i - 1, j - 1);
    }
  }

  /** An ack succeeds exactly when the ticket is in flight until some later time. */
  lemma AckIsExact(c: ChannelView, ticket: int, t: u32)
    requires Distinct(c.flights)
    ensures Channels.Ack(c, ticket, t).0 <==> HeldPast(c, ticket, t)
  {
    hide PopStale;
    var k := IndexOf(c.flights, ticket);
    if i :| 0 <= i < |c.flights| && c.flights[i].ticket == ticket && t < c.flights[i].expiration {
      OneByTicket(c.flights, i, k);
    }
  }

  lemma AckWhile(c: ChannelView, ticket: int, id: nat, end: u32, t: u32)
    requires Distinct(c.flights) && InFlightUntil(c, ticket, id, end)
    ensures Channels.Ack(c, ticket, t).0 <==> t < end
  {
    hide Channels.Ack, Distinct;
    AckIsExact(c, ticket, t);
    var k :| 0 <= k < |c.flights| && c.flights[k] == InFlight(ticket, id, end);
    if i :| 0 <= i < |c.flights| && c.flights[i].ticket == ticket && t < c.flights[i].expiration {
      OneByTicket(c.flights, i, k);
    }
  }

  /** What a delivery of `id` does: the entries in flight but the sent one stay as they are, in order. */
  ghost predicate Delivers(c: ChannelView, rest: seq<InFlight>, id: nat, ticket: int, end: u32, c': ChannelView) {
    && c'.flights == rest + [InFlight(ticket, id, end)]
    && c'.heap == c.heap + multiset{HeapEntry(id, ticket)}
  }

  /**
   * A get takes the first message in flight if its time is up, and otherwise the next one found; either
   * is in flight from then on until the timeout has passed, and nothing else changes.
   */
  lemma GetIsExact(c: ChannelView, clock: u32, timeout: u32, ticket: int, next: Option<Entry>)
    ensures var (r, c') := Channels.Get(c, clock, timeout, ticket, next);
            var again := c.flights != [] && clock >= c.flights[0].expiration;
            var marked := if again && c.flights[0].expiration == 0 then 1 else 0;
            && (r == if again then Redelivered(ticket, c.flights[0].id)
                     else if next.Some? then Fetched(ticket, next.value) else EndOfQueue(c.tail))
            && c'.lastTouched == clock && c'.expiredCount == c.expiredCount - marked
            && (again ==>
                  && c'.tail == c.tail
                  && Delivers(c, c.flights[1..], c.flights[0].id, ticket, EndsAt(clock, timeout), c'))
            && (!again && next.Some? ==>
                  && c'.tail == next.value.id + 1
                  && Delivers(c, c.flights, next.value.id, ticket, EndsAt(clock, timeout), c'))
            && (!again && next.None? ==> c'.tail == c.tail && c'.flights == c.flights && c'.heap == c.heap)
  {
  }

  /** The message that a get hands out can be acknowledged at any time before its deadline, and at no other. */
  lemma DeadlineIsExact(c: ChannelView, clock: u32, timeout: u32, ticket: int, next: Option<Entry>, t: u32)
    requires HeapOk(c) && FreshFor(c, ticket) && FoundAtOrAbove(next, c.tail)
    ensures var (r, c') := Channels.Get(c, clock, timeout, ticket, next);
            && (r.Redelivered? ==> InFlightUntil(c', ticket, r.id, EndsAt(clock, timeout)))
            && (r.Fetched? ==> InFlightUntil(c', ticket, r.entry.id, EndsAt(clock, timeout)))
            && (!r.EndOfQueue? ==> (Channels.Ack(c', ticket, t).0 <==> t < EndsAt(clock, timeout)))
            && (!r.EndOfQueue? ==> (CanAck(c', ticket, t) <==> t < EndsAt(clock, timeout)))
  {
    hide HeapOk, Channels.Get, Channels.Ack, CanAck, FreshFor;
    var (r, c') := Channels.Get(c, clock, timeout, ticket, next);
    GetKeepsHeapOk(c, clock, timeout, ticket, next);
    HeapOkDistinct(c');
    GetIsExact(c, clock, timeout, ticket, next);
    if !r.EndOfQueue? {
      var id := if r.Redelivered? then r.id else r.entry.id;
      assert c'.flights[|c'.flights| - 1] == InFlight(ticket, id, EndsAt(clock, timeout));
      AckWhile(c', ticket, id, EndsAt(clock, timeout), t);
      AckMembers(c', ticket, t);
    }
  }

  // ----- the deadline holds through a run

  /** The step leaves the entry alone: it comes before the deadline, and neither acks nor purges it. */
  ghost predicate Spares(s: Step, ticket: int, end: u32) {
    s.clock < end && !s.Purge? && (s.Ack? ==> s.ticket != ticket)
  }

  lemma GetSpares(c: ChannelView, clock: u32, timeout: u32, t: int, next: Option<Entry>, k: nat)
    requires k < |c.flights| && clock < c.flights[k].expiration
    ensures c.flights[k] in Channels.Get(c, clock, timeout, t, next).1.flights
  {
    hide Channels.Get;
    GetIsExact(c, clock, timeout, t, next);
    var c' := Channels.Get(c, clock, timeout, t, next).1;
    if clock >= c.flights[0].expiration {
      assert c'.flights[k - 1] == c.flights[k];
    } else {
      assert c'.flights[k] == c.flights[k];
    }
  }

  lemma AckSpares(c: ChannelView, t: int, clock: u32, k: nat)
    requires k < |c.flights| && c.flights[k].ticket != t
    ensures c.flights[k] in Channels.Ack(c, t, clock).1.flights
  {
    hide PopStale;
    var c', i := Channels.Ack(c, t, clock).1, IndexOf(c.flights, t);
    if CanAck(c, t, clock) {
      assert c'.flights[if k < i then k else k - 1] == c.flights[k];
    }
  }

  lemma StepSpares(c: ChannelView, s: Step, ticket: int, id: nat, end: u32)
    requires InFlightUntil(c, ticket, id, end) && Spares(s, ticket, end)
    ensures InFlightUntil(Next(c, s), ticket, id, end)
  {
    var k :| 0 <= k < |c.flights| && c.flights[k] == InFlight(ticket, id, end);
    hide Channels.Get, Channels.Ack, Expire;
    match s {
      case Get(clock, timeout, t, next) => GetSpares(c, clock, timeout, t, next, k);
      case Ack(t, clock) => AckSpares(c, t, clock, k);
      case Update(clock) => ExpireSpares(c, clock, k);
      case Seek(_, _) =>
    }
  }

  lemma {:induction false} ExpireSpares(c: ChannelView, clock: u32, k: nat)
    requires k < |c.flights| && clock < c.flights[k].expiration
    ensures |Expire(c, clock).flights| == |c.flights| && Expire(c, clock).flights[k] == c.flights[k]
    decreases |c.flights| - c.expiredCount
  {
    if 0 <= c.expiredCount < |c.flights| && clock >= c.flights[c.expiredCount].expiration {
      ExpireSpares(
        c.(flights := c.flights[c.expiredCount := c.flights[c.expiredCount].(expiration := EXPIRED)],
           expiredCount := c.expiredCount + 1), clock, k);
    }
  }

  ghost function After(c: ChannelView, steps: seq<Step>): ChannelView
    decreases |steps|
  {
    if steps == [] then c else After(Next(c, steps[0]), steps[1..])
  }

  ghost predicate AllLegal(c: ChannelView, steps: seq<Step>)
    decreases |steps|
  {
    steps == [] || (Legal(c, steps[0]) && AllLegal(Next(c, steps[0]), steps[1..]))
  }

  /**
   * Whatever is done to the channel before the deadline, short of acknowledging that ticket or purging
   * the channel, the message stays in flight and can be acknowledged until then and no longer.
   */
  lemma {:induction false} HeldUntilDeadline(
      c: ChannelView, steps: seq<Step>, ticket: int, id: nat, end: u32, t: u32)
    requires HeapOk(c) && AllLegal(c, steps) && InFlightUntil(c, ticket, id, end)
    requires forall i :: 0 <= i < |steps| ==> Spares(steps[i], ticket, end)
    ensures var c' := After(c, steps);
            InFlightUntil(c', ticket, id, end) && (Channels.Ack(c', ticket, t).0 <==> t < end)
    decreases |steps|
  {
    hide HeapOk, Next, InFlightUntil, Channels.Ack, Legal, Spares;
    if steps == [] {
      HeapOkDistinct(c);
      AckWhile(c, ticket, id, end, t);
    } else {
      assert Spares(steps[0], ticket, end);
      StepSpares(c, steps[0], ticket, id, end);
      StepKeepsRealTail(c, steps[0]);
      HeldUntilDeadline(Next(c, steps[0]), steps[1..], ticket, id, end, t);
    }
  }

  // ----- the other operations

  /** An accepted ack takes out that one entry and leaves the others as they are, in order. */
  lemma AckLeavesOthers(c: ChannelView, ticket: int, clock: u32)
    requires Distinct(c.flights)
    ensures var (ok, c') := Channels.Ack(c, ticket, clock);
            && c'.tail == c.tail && c'.lastTouched == clock && c'.expiredCount == c.expiredCount
            && (!ok ==> c'.flights == c.flights && c'.heap == c.heap)
            && (ok ==> exists i :: 0 <= i < |c.flights| && c.flights[i].ticket == ticket
                                   && c'.flights == c.flights[..i] + c.flights[i + 1..])
  {
    hide PopStale;
    var i := IndexOf(c.flights, ticket);
    assert i < |c.flights| ==> c.flights[i].ticket == ticket;
  }

  /** Updating the state touches only expirations and their count. */
  lemma {:induction false} UpdateLeavesRest(c: ChannelView, clock: u32)
    ensures var c' := Expire(c, clock);
            c'.tail == c.tail && c'.lastTouched == c.lastTouched && c'.heap == c.heap
    decreases |c.flights| - c.expiredCount
  {
    if 0 <= c.expiredCount < |c.flights| && clock >= c.flights[c.expiredCount].expiration {
      UpdateLeavesRest(
        c.(flights := c.flights[c.expiredCount := c.flights[c.expiredCount].(expiration := EXPIRED)],
           expiredCount := c.expiredCount + 1), clock);
    }
  }
}
