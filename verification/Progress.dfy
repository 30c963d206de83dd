/** Delivery in bounded time: how many requests it takes until a message that is owed is handed out. */
module Progress {
  import opened Bytes
  import opened Records
  import opened Segments
  import opened Logs
  import opened Channels
  import opened Queues
  import opened Delivery

  /** The first `ready` entries in flight have timed out, and the others have not. */
  ghost predicate Ready(c: ChannelView, now: u32, ready: nat) {
    && ready <= |c.flights|
    && forall i :: 0 <= i < |c.flights| ==> (i < ready <==> now >= c.flights[i].expiration)
  }

  /** The message is owed, and was not handed out since the last `|c.flights| - ready` requests. */
  ghost predicate Waiting(c: ChannelView, log: Log, ready: nat, id: nat)
    requires ready <= |c.flights|
  {
    (NextId(log, c) <= id < log.head) || exists i :: 0 <= i < ready && c.flights[i].id == id
  }

  /** How many more requests it takes at most. */
  function Bound(c: ChannelView, log: Log, ready: nat, id: nat): nat {
    if NextId(log, c) <= id then ready + (id - NextId(log, c)) + 1 else ready
  }

  /** The queue after requests with the given tickets, all at one time. */
  ghost function AfterGets(cfg: Config, w: World, name: string, now: u32, tickets: seq<int>): World
    decreases |tickets|
  {
    if tickets == [] then w
    else AfterGets(cfg, AfterGet(cfg, w, name, now, tickets[0]), name, now, tickets[1..])
  }

  /** The reply to request `k` hands out message `id` as it was pushed. */
  ghost predicate HandedOut(cfg: Config, w: World, name: string, now: u32, tickets: seq<int>, k: nat, id: nat) {
    && k < |tickets| && id in w.pushed
    && Queues.Get(AfterGets(cfg, w, name, now, tickets[..k]).queue, cfg.messageTimeout, name, now, tickets[k]).0
       == Delivered(tickets[k], Entry(id, w.pushed[id]))
  }

  ghost predicate NewTickets(w: World, tickets: seq<int>) {
    && (forall i :: 0 <= i < |tickets| ==> tickets[i] !in w.issued)
    && (forall i, j :: 0 <= i < j < |tickets| ==> tickets[i] != tickets[j])
  }

  /** A request sends the first timed-out entry to the back, with a deadline still to come. */
  lemma AgainAdvances(
      c: ChannelView, log: Log, now: u32, timeout: u32, ticket: int, next: Option<Entry>, ready: nat, id: nat)
    requires Ready(c, now, ready) && ready > 0 && Waiting(c, log, ready, id) && c.flights[0].id != id
    requires 0 < timeout && now + timeout < U32_RANGE
    ensures var c' := Channels.Get(c, now, timeout, ticket, next).1;
            && Ready(c', now, ready - 1) && Waiting(c', log, ready - 1, id)
            && Bound(c', log, ready - 1, id) < Bound(c, log, ready, id)
  {
    var c' := Channels.Get(c, now, timeout, ticket, next).1;
    assert c'.tail == c.tail && |c'.flights| == |c.flights|;
    assert forall i :: 0 <= i < |c.flights| - 1 ==> c'.flights[i] == c.flights[i + 1];
    if i :| 0 <= i < ready && c.flights[i].id == id {
      assert c'.flights[i - 1].id == id;
    }
  }

  /** With none of them timed out, a request fetches the next message. */
  lemma NextAdvances(c: ChannelView, log: Log, now: u32, timeout: u32, ticket: int, next: Option<Entry>, id: nat)
    requires Ready(c, now, 0) && Waiting(c, log, 0, id) && NextId(log, c) != id
    requires next.Some? && next.value.id == NextId(log, c)
    requires 0 < timeout && now + timeout < U32_RANGE
    ensures var c' := Channels.Get(c, now, timeout, ticket, next).1;
            && Ready(c', now, 0) && Waiting(c', log, 0, id)
            && Bound(c', log, 0, id) < Bound(c, log, 0, id)
  {
    var c' := Channels.Get(c, now, timeout, ticket, next).1;
    assert c'.flights == c.flights + [InFlight(ticket, next.value.id, now + timeout)];
  }

  /** The state after one request, which either hands the message out or brings it closer. */
  lemma GetAdvances(h: Hash, cfg: Config, w: World, name: string, now: u32, ticket: int, ready: nat, id: nat)
    returns (ready': nat)
    requires Good(h, cfg, w) && name in w.queue.channels && ticket !in w.issued
    requires Ready(w.queue.channels[name], now, ready) && Waiting(w.queue.channels[name], w.queue.log, ready, id)
    requires 0 < cfg.messageTimeout && now + cfg.messageTimeout < U32_RANGE
    requires var c := w.queue.channels[name];
             id != if ready > 0 then c.flights[0].id else NextId(w.queue.log, c)
    ensures var w', c := AfterGet(cfg, w, name, now, ticket), w.queue.channels[name];
            && Good(h, cfg, w') && name in w'.queue.channels
            && w'.queue.log == w.queue.log && w'.pushed == w.pushed
            && var c' := w'.queue.channels[name];
               && Ready(c', now, ready') && Waiting(c', w.queue.log, ready', id)
               && Bound(c', w.queue.log, ready', id) < Bound(c, w.queue.log, ready, id)
  {
    hide Good, Channels.Get, Logs.Get, Waiting, Bound, Ready, NextId;
    GetStep(h, cfg, w, name, now, ticket);
    var c, log := w.queue.channels[name], w.queue.log;
    var next := Logs.Get(log.segments, c.tail);
    if ready > 0 {
      ready' := ready - 1;
      AgainAdvances(c, log, now, cfg.messageTimeout, ticket, next, ready, id);
    } else {
      ready' := 0;
      NextIsThere(h, cfg, w, name, id);
      NextAdvances(c, log, now, cfg.messageTimeout, ticket, next, id);
    }
  }

  lemma NextIsThere(h: Hash, cfg: Config, w: World, name: string, id: nat)
    requires Good(h, cfg, w) && name in w.queue.channels && Waiting(w.queue.channels[name], w.queue.log, 0, id)
    ensures var next := Logs.Get(w.queue.log.segments, w.queue.channels[name].tail);
            next.Some? && next.value.id == NextId(w.queue.log, w.queue.channels[name])
  {
    hide Good, Logs.Get;
    var c := w.queue.channels[name];
    ChannelIsOk(h, cfg, w, name);
    hide HeapOk, Issued, Dense, Ordered;
    NextIsFound(w.queue.log, c);
  }

  /** What the first request hands out. */
  lemma FirstReply(h: Hash, cfg: Config, w: World, name: string, now: u32, ticket: int, ready: nat, id: nat)
    requires Good(h, cfg, w) && name in w.queue.channels
    requires Ready(w.queue.channels[name], now, ready) && Waiting(w.queue.channels[name], w.queue.log, ready, id)
    requires var c := w.queue.channels[name];
             id == if ready > 0 then c.flights[0].id else NextId(w.queue.log, c)
    ensures id in w.pushed
    ensures Queues.Get(w.queue, cfg.messageTimeout, name, now, ticket).0 == Delivered(ticket, Entry(id, w.pushed[id]))
  {
    hide Good, Queues.Get;
    GoodDelivers(h, cfg, w, name, now, ticket);
  }

  lemma BoundIsPositive(c: ChannelView, log: Log, now: u32, ready: nat, id: nat)
    requires Ready(c, now, ready) && Waiting(c, log, ready, id)
    ensures ready <= |c.flights| && Bound(c, log, ready, id) > 0
  {
  }

  /** A message that waits is handed out within the bound. */
  lemma {:induction false} DeliveredSoon(
      h: Hash, cfg: Config, w: World, name: string, now: u32, tickets: seq<int>, ready: nat, id: nat) returns (k: nat)
    requires Good(h, cfg, w) && name in w.queue.channels && NewTickets(w, tickets)
    requires Ready(w.queue.channels[name], now, ready) && Waiting(w.queue.channels[name], w.queue.log, ready, id)
    requires 0 < cfg.messageTimeout && now + cfg.messageTimeout < U32_RANGE
    requires |tickets| >= Bound(w.queue.channels[name], w.queue.log, ready, id)
    ensures k < Bound(w.queue.channels[name], w.queue.log, ready, id)
    ensures HandedOut(cfg, w, name, now, tickets, k, id)
    decreases |tickets|
  {
    hide Good, Queues.Get, Waiting, Bound, Ready, AfterGet, NextId, NewTickets, HandedOut;
    var c, log := w.queue.channels[name], w.queue.log;
    assert ready <= |c.flights| && Bound(c, log, ready, id) > 0 by { BoundIsPositive(c, log, now, ready, id); }
    var t, rest := tickets[0], tickets[1..];
    assert t !in w.issued by { StillNew(cfg, w, name, now, tickets); }
    if id == if ready > 0 then c.flights[0].id else NextId(log, c) {
      k := 0;
      FirstReply(h, cfg, w, name, now, t, ready, id);
      HandedFirst(cfg, w, name, now, tickets, id);
    } else {
      var ready' := GetAdvances(h, cfg, w, name, now, t, ready, id);
      StillNew(cfg, w, name, now, tickets);
      k := DeliveredSoon(h, cfg, AfterGet(cfg, w, name, now, t), name, now, rest, ready', id);
      HandedLater(cfg, w, name, now, tickets, k, id);
      k := k + 1;
    }
  }

  lemma HandedFirst(cfg: Config, w: World, name: string, now: u32, tickets: seq<int>, id: nat)
    requires tickets != [] && id in w.pushed
    requires Queues.Get(w.queue, cfg.messageTimeout, name, now, tickets[0]).0
          == Delivered(tickets[0], Entry(id, w.pushed[id]))
    ensures HandedOut(cfg, w, name, now, tickets, 0, id)
  {
    hide Queues.Get;
    assert tickets[..0] == [];
  }

  lemma HandedLater(cfg: Config, w: World, name: string, now: u32, tickets: seq<int>, k: nat, id: nat)
    requires tickets != []
    requires var w' := AfterGet(cfg, w, name, now, tickets[0]);
             w'.pushed == w.pushed && HandedOut(cfg, w', name, now, tickets[1..], k, id)
    ensures HandedOut(cfg, w, name, now, tickets, k + 1, id)
  {
    hide Queues.Get, AfterGet;
    assert tickets[..k + 1][1..] == tickets[1..][..k] && tickets[..k + 1][0] == tickets[0];
  }

  lemma StillNew(cfg: Config, w: World, name: string, now: u32, tickets: seq<int>)
    requires NewTickets(w, tickets) && tickets != []
    ensures tickets[0] !in w.issued && NewTickets(AfterGet(cfg, w, name, now, tickets[0]), tickets[1..])
  {
    hide Queues.Get;
  }

  /**
   * In every state of every run, once everything the channel has in flight has timed out, each message
   * it is owed is handed out within as many requests as there are entries in flight, plus the number
   * of messages up to it that have not been read.
   */
  lemma DeliveredWithin(
      h: Hash, cfg: Config, worlds: seq<World>, steps: seq<Step>, i: nat,
      name: string, now: u32, tickets: seq<int>, id: nat)
    returns (k: nat)
    requires Soft(cfg) && IsRun(h, cfg, worlds, steps) && i < |worlds|
    requires name in worlds[i].queue.channels && name in worlds[i].promises && NewTickets(worlds[i], tickets)
    requires 0 < cfg.messageTimeout && now + cfg.messageTimeout < U32_RANGE
    requires var w := worlds[i];
             var c, p := w.queue.channels[name], w.promises[name];
             && (forall j :: 0 <= j < |c.flights| ==> now >= c.flights[j].expiration)
             && p.start <= id < w.queue.log.head && id !in p.done
             && |tickets| >= Bound(c, w.queue.log, |c.flights|, id)
    ensures k < Bound(worlds[i].queue.channels[name], worlds[i].queue.log, |worlds[i].queue.channels[name].flights|, id)
    ensures HandedOut(cfg, worlds[i], name, now, tickets, k, id)
  {
    hide Good, HandedOut, Bound;
    RunKeepsGood(h, cfg, worlds, steps, i);
    hide IsRun;
    var w := worlds[i];
    var c := w.queue.channels[name];
    ChannelIsOk(h, cfg, w, name);
    OwedIsHeld(c, w.promises[name], w.queue.log, w.issued, id);
    hide ChannelOk;
    if id in Ids(c.flights) {
      var j := WithId(c.flights, id);
    }
    k := DeliveredSoon(h, cfg, w, name, now, tickets, |c.flights|, id);
  }
}
