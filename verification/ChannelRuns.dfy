/** Runs of a channel: no message is lost or counted twice, and no ticket comes back to life. */
module ChannelRuns {
  import opened Bytes
  import opened Logs
  import opened Channels
  import opened ChannelLaws

  /** A channel with the history of what it fetched, what was acknowledged and which tickets it gave out. */
  datatype Run = Run(channel: ChannelView, fetched: set<nat>, acked: set<nat>, issued: set<int>)

  ghost function Exec(r: Run, s: Step): Run {
    var c' := Next(r.channel, s);
    match s
    case Get(clock, timeout, ticket, next) =>
      (match Channels.Get(r.channel, clock, timeout, ticket, next).0
       case Redelivered(_, _) => r.(channel := c', issued := r.issued + {ticket})
       case Fetched(_, e) => r.(channel := c', issued := r.issued + {ticket}, fetched := r.fetched + {e.id})
       case EndOfQueue(_) => r.(channel := c'))
    case Ack(ticket, clock) =>
      if CanAck(r.channel, ticket, clock) then
        r.(channel := c', acked := r.acked + {r.channel.flights[IndexOf(r.channel.flights, ticket)].id})
      else r.(channel := c')
    case _ => r.(channel := c')
  }

  /** Tickets are new to the run, seeks go forward, nothing is purged. */
  ghost predicate Allowed(r: Run, s: Step) {
    match s
    case Get(_, _, ticket, next) => ticket !in r.issued && FoundAtOrAbove(next, r.channel.tail)
    case Ack(_, _) => true
    case Update(_) => true
    case Purge(_, _) => false
    case Seek(id, _) => id >= r.channel.tail
  }

  ghost predicate AllAllowed(r: Run, steps: seq<Step>)
    decreases |steps|
  {
    steps == [] || (Allowed(r, steps[0]) && AllAllowed(Exec(r, steps[0]), steps[1..]))
  }

  ghost function ExecAll(r: Run, steps: seq<Step>): Run
    decreases |steps|
  {
    if steps == [] then r else ExecAll(Exec(r, steps[0]), steps[1..])
  }

  /** Fetched ids are acknowledged or in flight, never both; ids and tickets in flight pair off. */
  ghost predicate Conserved(r: Run) {
    && HeapOk(r.channel)
    && Issued(r.channel, r.issued)
    && r.fetched == r.acked + Ids(r.channel.flights)
    && r.acked !! Ids(r.channel.flights)
    && forall id :: id in r.fetched ==> id < r.channel.tail
  }

  lemma UnissuedIsFresh(c: ChannelView, issued: set<int>, ticket: int)
    requires Issued(c, issued) && ticket !in issued
    ensures FreshFor(c, ticket)
  {
    if ticket in Tickets(c.flights) {
      var i := WithTicket(c.flights, ticket);
    }
  }

  lemma StepKeepsIssued(c: ChannelView, s: Step, issued: set<int>)
    requires Issued(c, issued)
    ensures Issued(Next(c, s), if s.Get? then issued + {s.ticket} else issued)
    ensures s.Get? && Channels.Get(c, s.clock, s.timeout, s.ticket, s.next).0.EndOfQueue? ==> Issued(Next(c, s), issued)
  {
    hide Channels.Get, Channels.Ack, Expire;
    match s {
      case Get(clock, timeout, ticket, next) => GetKeepsIssued(c, clock, timeout, ticket, next, issued);
      case Ack(ticket, clock) => AckKeepsIssued(c, ticket, clock, issued);
      case Update(clock) =>
        ExpireKeepsFlights(c, clock);
      case Purge(_, _) =>
      case Seek(_, _) =>
    }
  }

  lemma AckKeepsIssued(c: ChannelView, ticket: int, clock: u32, issued: set<int>)
    requires Issued(c, issued)
    ensures Issued(Channels.Ack(c, ticket, clock).1, issued)
  {
    hide PopStale, Tickets;
    var i := IndexOf(c.flights, ticket);
    if CanAck(c, ticket, clock) {
      var rest := c.flights[..i] + c.flights[i + 1..];
      assert forall k :: 0 <= k < |rest| ==> rest[k] == c.flights[if k < i then k else k + 1];
      assert forall e :: e in PopStale(c.heap, Tickets(rest)) ==> e in c.heap;
    }
  }

  lemma GetKeepsIssued(c: ChannelView, clock: u32, timeout: u32, ticket: int, next: Option<Entry>, issued: set<int>)
    requires Issued(c, issued)
    ensures var (r, c') := Channels.Get(c, clock, timeout, ticket, next);
            && Issued(c', issued + {ticket})
            && (r.EndOfQueue? ==> Issued(c', issued))
  {
    hide Expiration;
  }

  lemma StepConserves(r: Run, s: Step)
    requires Conserved(r) && Allowed(r, s)
    ensures Conserved(Exec(r, s))
    ensures r.acked <= Exec(r, s).acked && r.fetched <= Exec(r, s).fetched
  {
    hide HeapOk, Issued, Channels.Get, Channels.Ack, FreshFor, CanAck, RealTail, IsLowest, Expire;
    var c := r.channel;
    HeapOkDistinct(c);
    StepKeepsIssued(c, s, r.issued);
    match s {
      case Get(clock, timeout, ticket, next) =>
        UnissuedIsFresh(c, r.issued, ticket);
        GetMembers(c, clock, timeout, ticket, next);
      case Ack(ticket, clock) =>
        AckMembers(c, ticket, clock);
      case Update(clock) =>
        ExpireKeepsFlights(c, clock);
        SameMembers(c.flights, Expire(c, clock).flights);
      case Seek(_, _) =>
    }
    StepKeepsRealTail(c, s);
  }

  /** Over every run from a new channel: conservation, and one ticket per message in flight. */
  lemma {:induction false} RunConserves(r: Run, steps: seq<Step>)
    requires Conserved(r) && AllAllowed(r, steps)
    ensures Conserved(ExecAll(r, steps))
    ensures r.acked <= ExecAll(r, steps).acked && r.fetched <= ExecAll(r, steps).fetched
    decreases |steps|
  {
    hide Conserved, Allowed, Exec;
    if steps != [] {
      StepConserves(r, steps[0]);
      RunConserves(Exec(r, steps[0]), steps[1..]);
    }
  }

  lemma NewChannelConserves(tail: nat, clock: u32)
    ensures Conserved(Run(Created(tail, clock), {}, {}, {}))
  {
  }

  lemma DeadTicketStep(r: Run, s: Step, ticket: int)
    requires Conserved(r) && Allowed(r, s)
    requires ticket in r.issued && ticket !in Tickets(r.channel.flights)
    ensures ticket in Exec(r, s).issued && ticket !in Tickets(Exec(r, s).channel.flights)
  {
    hide HeapOk, Issued, Channels.Get, Channels.Ack, CanAck, Expire;
    var c := r.channel;
    HeapOkDistinct(c);
    match s {
      case Get(clock, timeout, t, next) => GetMembers(c, clock, timeout, t, next);
      case Ack(t, clock) => AckMembers(c, t, clock);
      case Update(clock) =>
        ExpireKeepsFlights(c, clock);
        SameMembers(c.flights, Expire(c, clock).flights);
      case Seek(_, _) =>
    }
  }

  /** A ticket that was acknowledged or superseded can never acknowledge anything again. */
  lemma {:induction false} DeadTicketStaysDead(r: Run, steps: seq<Step>, ticket: int, clock: u32)
    requires Conserved(r) && AllAllowed(r, steps)
    requires ticket in r.issued && ticket !in Tickets(r.channel.flights)
    ensures !CanAck(ExecAll(r, steps).channel, ticket, clock)
    decreases |steps|
  {
    hide Conserved, Allowed, Exec;
    if steps == [] {
      var i := IndexOf(r.channel.flights, ticket);
      if i < |r.channel.flights| {
        MembersOf(r.channel.flights, i);
      }
    } else {
      StepConserves(r, steps[0]);
      DeadTicketStep(r, steps[0], ticket);
      DeadTicketStaysDead(Exec(r, steps[0]), steps[1..], ticket, clock);
    }
  }

  /** Acknowledging or sending a message again retires its ticket. */
  lemma TicketsRetire(r: Run, s: Step)
    requires Conserved(r) && Allowed(r, s)
    ensures s.Ack? && CanAck(r.channel, s.ticket, s.clock) ==> s.ticket !in Tickets(Exec(r, s).channel.flights)
    ensures s.Get? && Channels.Get(r.channel, s.clock, s.timeout, s.ticket, s.next).0.Redelivered? ==>
              r.channel.flights[0].ticket !in Tickets(Exec(r, s).channel.flights)
  {
    hide HeapOk, Channels.Get, Channels.Ack, CanAck;
    HeapOkDistinct(r.channel);
    match s {
      case Get(clock, timeout, t, next) =>
        GetMembers(r.channel, clock, timeout, t, next);
        UnissuedIsFresh(r.channel, r.issued, t);
        if r.channel.flights != [] {
          MembersOf(r.channel.flights, 0);
        }
      case Ack(t, clock) => AckMembers(r.channel, t, clock);
      case Update(_) =>
      case Seek(_, _) =>
    }
  }
}
