/** Who is parked, who is woken and who is retried by each event, and in which order. */
module WakeLaws {
  import opened Bytes
  import opened ParkedClients
  import opened ParkedRuns

  /** The first `n` of a list, or all if there are fewer. */
  function FirstOf(ps: seq<Parked>, n: nat): seq<Parked> { if n < |ps| then ps[..n] else ps }

  function LaterThan(ps: seq<Parked>, n: nat): seq<Parked> { if n < |ps| then ps[n..] else [] }

  /** Only the table of one queue and the wake-up list may differ. */
  ghost predicate OnlyQueue(s: Server, s': Server, queue: string) {
    && s'.clients == s.clients && s'.jobs == s.jobs && s'.nonce == s.nonce
    && s'.waiting.Keys == s.waiting.Keys
    && forall q :: q in s.waiting && q != queue ==> s'.waiting[q] == s.waiting[q]
  }

  /** One channel that exists is woken from. */
  lemma WakeOne(s: Server, queue: string, c: string, n: nat)
    requires queue in s.waiting && c in s.waiting[queue].channels
    ensures var s', w := Wake(s, Place(queue, c), n), s.waiting[queue];
            && OnlyQueue(s, s', queue)
            && s'.waiting[queue] == WaitingClients(w.head, w.channels[c := LaterThan(w.channels[c], n)])
            && s'.awaking == s.awaking + FirstOf(w.channels[c], n)
  {
    var ps := s.waiting[queue].channels[c];
    assert ps[..|ps|] == ps && ps[|ps|..] == [];
  }

  /** Waking touches neither the heads nor the set of channels. */
  lemma {:induction false} WakeEachKeepsShape(s: Server, queue: string, order: seq<string>, n: nat)
    requires queue in s.waiting
    ensures var s' := WakeEach(s, queue, order, n);
            && OnlyQueue(s, s', queue) && s'.waiting[queue].head == s.waiting[queue].head
            && s'.waiting[queue].channels.Keys == s.waiting[queue].channels.Keys
    decreases |order|
  {
    hide At;
    if order != [] {
      WakeEachKeepsShape(Wake(s, Place(queue, order[0]), n), queue, order[1..], n);
    }
  }

  lemma {:induction false} WokenAlike(s: Server, s1: Server, queue: string, order: seq<string>, n: nat)
    requires forall p :: At(s1, p) == At(s, p)
    ensures Woken(s1, queue, order, n) == Woken(s, queue, order, n)
  {
    hide At;
    if order != [] {
      WokenAlike(s, s1, queue, order[1..], n);
    }
  }

  /** Every channel of a queue loses its first `n` clients, and they join the wake-up list in that order. */
  ghost predicate WakesFirst(s: Server, s': Server, queue: string, order: seq<string>, n: nat) {
    && s'.awaking == s.awaking + Woken(s, queue, order, n)
    && (forall c :: c in order ==> At(s', Place(queue, c)) == LaterThan(At(s, Place(queue, c)), n))
  }

  lemma WakeEachWakes(s: Server, queue: string, order: seq<string>, n: nat)
    requires forall i, j :: 0 <= i < j < |order| ==> order[i] != order[j]
    ensures WakesFirst(s, WakeEach(s, queue, order, n), queue, order, n)
  {
    hide At, WakeEach;
    WokenInOrder(s, queue, order, n);
    forall c | c in order
      ensures At(WakeEach(s, queue, order, n), Place(queue, c)) == LaterThan(At(s, Place(queue, c)), n)
    {
      WakeEachIsFifo(s, queue, order, n, c);
    }
  }

  /** What a notification that the head of a queue has moved does to the table and the wake-up list. */
  ghost predicate Notifies(s: Server, s': Server, queue: string, newHead: nat, order: seq<string>) {
    && s'.waiting.Keys == s.waiting.Keys
    && (forall q :: q in s.waiting && q != queue ==> s'.waiting[q] == s.waiting[q])
    && (if queue in s.waiting && newHead > s.waiting[queue].head then
          && s'.waiting[queue].head == newHead
          && s'.waiting[queue].channels.Keys == s.waiting[queue].channels.Keys
          && WakesFirst(s, s', queue, order, newHead - s.waiting[queue].head)
        else s'.waiting == s.waiting && s'.awaking == s.awaking)
  }

  /**
   * When the head of a queue moves by n messages, each of its channels loses its n longest-waiting
   * clients, or all if there are fewer, and they are to be woken in that order; otherwise nothing happens.
   */
  lemma NotifyIsExact(s: Server, queue: string, newHead: nat, order: seq<string>)
    requires Visits(s, queue, order)
    ensures var s' := NotifyQueue(s, queue, newHead, order);
            && Notifies(s, s', queue, newHead, order)
            && s'.clients == s.clients && s'.jobs == s.jobs && s'.nonce == s.nonce
  {
    hide WakeEach, Woken;
    if queue in s.waiting && newHead > s.waiting[queue].head {
      var n := newHead - s.waiting[queue].head;
      var s1 := s.(waiting := s.waiting[queue := s.waiting[queue].(head := newHead)]);
      assert forall p :: At(s1, p) == At(s, p);
      WakeEachKeepsShape(s1, queue, order, n);
      WakeEachWakes(s1, queue, order, n);
      WokenAlike(s, s1, queue, order, n);
    }
  }

  /**
   * An entry is parked last at its place if the channel is there and the queue has nothing newer than
   * what the client saw; else it is on the wake-up list. Nothing else in the table changes.
   */
  ghost predicate Waits(s: Server, s': Server, p: Place, e: Parked, requiredTail: nat) {
    if p.queue in s.waiting && p.channel in s.waiting[p.queue].channels
       && requiredTail >= s.waiting[p.queue].head
    then
      var w := s.waiting[p.queue];
      && s'.awaking == s.awaking
      && s'.waiting
         == s.waiting[p.queue := WaitingClients(w.head, w.channels[p.channel := w.channels[p.channel] + [e]])]
    else
      s'.awaking == s.awaking + [e] && s'.waiting == s.waiting
  }

  lemma WaitsExactly(s: Server, request: nat, p: Place, token: Token, requiredTail: nat)
    ensures var s' := WaitQueue(s, request, p, token, requiredTail);
            && Waits(s, s', p, Parked(token, request), requiredTail)
            && s'.clients == s.clients && s'.jobs == s.jobs && s'.nonce == s.nonce
  {
  }

  // ----- finished jobs

  /** A client without a request, a timer or a job. */
  ghost predicate IsFree(s: Server, t: Token) {
    && t in s.clients && s.clients[t].timeout.None? && s.clients[t].processing.None? && s.clients[t].request.None?
    && t !in s.jobs
  }

  ghost predicate OthersKept(s: Server, s': Server, t: Token) {
    && s'.clients - {t} == s.clients - {t} && s'.jobs - {t} == s.jobs - {t}
  }

  lemma AnsweredFrees(s: Server, t: Token)
    requires t in s.clients
    ensures var a := Answered(s, t);
            && OthersKept(s, a, t) && IsFree(a, t) && a.waiting == s.waiting && a.awaking == s.awaking
            && a.clients[t].hup == s.clients[t].hup
  {
  }

  lemma GoneRemoves(s: Server, t: Token)
    ensures var g := Gone(s, t);
            && OthersKept(s, g, t) && t !in g.clients && t !in g.jobs
            && g.waiting == s.waiting && g.awaking == s.awaking
  {
  }

  lemma NotifiesAlike(s: Server, a: Server, s': Server, queue: string, newHead: nat, order: seq<string>)
    requires a.waiting == s.waiting && a.awaking == s.awaking && Notifies(a, s', queue, newHead, order)
    ensures Notifies(s, s', queue, newHead, order)
  {
    hide Woken;
    assert forall p :: At(a, p) == At(s, p);
    if queue in s.waiting && newHead > s.waiting[queue].head {
      WokenAlike(s, a, queue, order, newHead - s.waiting[queue].head);
    }
  }

  /**
   * When a push is done its client is free again and the queue is notified, unless the client has hung
   * up: then it is removed and nobody is woken for what it pushed.
   */
  lemma PushDone(s: Server, t: Token, queue: string, head: nat, order: seq<string>)
    requires Placed(s) && Possible(s, Finish(t, PutResponse(queue, head, order)))
    ensures var s' := Handle(s, Finish(t, PutResponse(queue, head, order)));
            && t in s.clients && OthersKept(s, s', t)
            && (if s.clients[t].hup then
                  t !in s'.clients && t !in s'.jobs && s'.waiting == s.waiting && s'.awaking == s.awaking
                else IsFree(s', t) && Notifies(s, s', queue, head, order))
  {
    JobOwner(s, t);
    AnsweredFrees(s, t);
    GoneRemoves(s, t);
    hide Placed, NotifyQueue, Answered, Gone, Notifies;
    var a := Answered(s, t);
    NotifyIsExact(a, queue, head, order);
    NotifiesAlike(s, a, NotifyQueue(a, queue, head, order), queue, head, order);
  }

  /** When a get found nothing its client waits, unless it is late or has hung up. */
  lemma GetDone(s: Server, t: Token, p: Place, requiredHead: nat, late: bool)
    requires Placed(s) && Possible(s, Finish(t, GetWouldBlock(p, requiredHead, late)))
    ensures var s' := Handle(s, Finish(t, GetWouldBlock(p, requiredHead, late)));
            && t in s.clients && s.clients[t].request.Some? && OthersKept(s, s', t)
            && (if s.clients[t].hup then
                  t !in s'.clients && t !in s'.jobs && s'.waiting == s.waiting && s'.awaking == s.awaking
                else if late then IsFree(s', t) && s'.waiting == s.waiting && s'.awaking == s.awaking
                else
                  && t in s'.clients && s'.clients[t].timeout == Some(p) && s'.clients[t].processing.None?
                  && s'.clients[t].request == s.clients[t].request && t !in s'.jobs
                  && Waits(s, s', p, Parked(t, s.clients[t].request.value), requiredHead))
  {
    JobOwner(s, t);
    AnsweredFrees(s, t);
    GoneRemoves(s, t);
    hide Placed, Gone, At, Answered, WaitQueue;
    var a, request := Answered(s, t), s.clients[t].request.value;
    var a1 := SetClient(a, t, a.clients[t].(timeout := Some(p), request := Some(request)));
    WaitsExactly(a1, request, p, t, requiredHead);
  }

  lemma ReplyDone(s: Server, t: Token)
    requires Placed(s) && Possible(s, Finish(t, Respond))
    ensures var s' := Handle(s, Finish(t, Respond));
            && t in s.clients && OthersKept(s, s', t) && s'.waiting == s.waiting && s'.awaking == s.awaking
            && (if s.clients[t].hup then t !in s'.clients && t !in s'.jobs else IsFree(s', t))
  {
    JobOwner(s, t);
    hide Placed;
  }

  // ----- the other events

  /** A new request goes to a worker under a cookie of its own, and nothing else changes. */
  lemma RequestStarts(s: Server, t: Token, request: nat)
    requires Possible(s, Request(t, request))
    ensures var s' := Handle(s, Request(t, request));
            && OthersKept(s, s', t) && s'.waiting == s.waiting && s'.awaking == s.awaking
            && t in s'.clients && t in s'.jobs && s'.jobs[t] == Job(s.nonce + 1, request) && s'.nonce == s.nonce + 1
            && s'.clients[t].processing == Some(s.nonce + 1) && s'.clients[t].request == Some(request)
  {
  }

  /** A new client is free, and nobody else notices. */
  lemma AcceptAdds(s: Server, t: Token)
    requires Placed(s) && Possible(s, Accept(t))
    ensures var s' := Handle(s, Accept(t));
            && OthersKept(s, s', t) && IsFree(s', t) && !s'.clients[t].hup
            && s'.waiting == s.waiting && s'.awaking == s.awaking
  {
    assert t !in s.jobs;
    hide Placed;
  }

  /** Messages that become available to a channel wake that many of its longest-waiting clients. */
  lemma AvailableWakes(s: Server, p: Place, n: nat)
    ensures var s' := Handle(s, MessagesAvailable(p, n));
            if p.queue in s.waiting && p.channel in s.waiting[p.queue].channels then
              var w, ps := s.waiting[p.queue], s.waiting[p.queue].channels[p.channel];
              && OnlyQueue(s, s', p.queue)
              && s'.waiting[p.queue] == WaitingClients(w.head, w.channels[p.channel := LaterThan(ps, n)])
              && s'.awaking == s.awaking + FirstOf(ps, n)
            else s' == s
  {
    if p.queue in s.waiting && p.channel in s.waiting[p.queue].channels {
      assert p == Place(p.queue, p.channel);
      WakeOne(s, p.queue, p.channel, n);
    }
  }

  /** When its time is up a client is answered and taken off its list, where the others keep their order. */
  lemma TimeUpFrees(s: Server, t: Token, p: Place)
    requires Placed(s) && t in s.clients && s.clients[t].timeout == Some(p) && t !in Tokens(s.awaking)
    ensures var s' := Handle(s, TimeUp(t));
            && OthersKept(s, s', t) && IsFree(s', t) && s'.awaking == s.awaking
            && forall q :: At(s', q) == Without(At(s, q), t)
  {
    UnparkingFinds(s, t, p);
    hide Placed, Unparked, Without, Answered;
    var s1, s' := Unparked(s, t), Handle(s, TimeUp(t));
    AnsweredFrees(s1, t);
    forall q
      ensures At(s', q) == At(s1, q)
    {
    }
  }

  /** A client that hangs up is gone at once, or is only marked while a job of it runs. */
  lemma HangupRemoves(s: Server, t: Token)
    requires Placed(s) && t in s.clients && t !in Tokens(s.awaking)
    ensures var s' := Handle(s, Hangup(t));
            && OthersKept(s, s', t) && s'.awaking == s.awaking
            && (if s.clients[t].processing.Some? then
                  s'.clients == s.clients[t := s.clients[t].(hup := true)] && s'.jobs == s.jobs
                  && s'.waiting == s.waiting
                else
                  t !in s'.clients && t !in s'.jobs && forall q :: At(s', q) == Without(At(s, q), t))
  {
    if s.clients[t].processing.None? {
      UnparkedWithout(s, t);
      hide Placed, Unparked, Without, Gone;
      var s1, s' := Unparked(s, t), Handle(s, Hangup(t));
      GoneRemoves(s1, t);
      forall q
        ensures At(s', q) == At(s1, q)
      {
      }
    }
  }

  /** Whether or not a client is parked, afterwards it is on no list of the table. */
  lemma UnparkedWithout(s: Server, t: Token)
    requires Placed(s) && t in s.clients && t !in Tokens(s.awaking)
    ensures var s1 := Unparked(s, t);
            && (forall q :: At(s1, q) == Without(At(s, q), t))
            && s1.clients == s.clients && s1.jobs == s.jobs && s1.awaking == s.awaking
  {
    if s.clients[t].timeout.Some? {
      UnparkingFinds(s, t, s.clients[t].timeout.value);
    } else {
      forall q
        ensures Without(At(s, q), t) == At(s, q)
      {
        NotParked(s, t, q);
        WithoutAbsent(At(s, q), t);
      }
    }
  }

  // ----- queues and channels that come and go

  /** Everybody at the listed channels of a queue, one channel after the other. */
  function Everybody(s: Server, queue: string, order: seq<string>): seq<Parked> {
    if order == [] then [] else At(s, Place(queue, order[0])) + Everybody(s, queue, order[1..])
  }

  lemma {:induction false} EverybodyAlike(s: Server, s1: Server, queue: string, order: seq<string>)
    requires forall c :: c in order ==> At(s1, Place(queue, c)) == At(s, Place(queue, c))
    ensures Everybody(s1, queue, order) == Everybody(s, queue, order)
  {
    hide At;
    if order != [] {
      assert order[0] in order && forall c :: c in order[1..] ==> c in order;
      EverybodyAlike(s, s1, queue, order[1..]);
    }
  }

  lemma {:induction false} WakeAllWakes(s: Server, queue: string, order: seq<string>)
    requires queue in s.waiting && forall i, j :: 0 <= i < j < |order| ==> order[i] != order[j]
    ensures var s' := WakeAll(s, queue, order);
            OnlyQueue(s, s', queue) && s'.awaking == s.awaking + Everybody(s, queue, order)
    decreases |order|
  {
    if order != [] {
      var p, rest := Place(queue, order[0]), order[1..];
      var s1 := Wake(s, p, |At(s, p)|);
      assert s1.awaking == s.awaking + At(s, p) && OnlyQueue(s, s1, queue);
      forall c | c in rest
        ensures At(s1, Place(queue, c)) == At(s, Place(queue, c))
      {
        WakeAt(s, p, |At(s, p)|, Place(queue, c));
      }
      hide Wake, At;
      WakeAllWakes(s1, queue, rest);
      EverybodyAlike(s, s1, queue, rest);
    }
  }

  /** With a queue everybody who waits for it is woken, and no other queue is touched. */
  lemma QueueDeleteWakes(s: Server, queue: string, order: seq<string>)
    requires Possible(s, QueueDelete(queue, order))
    ensures var s' := Handle(s, QueueDelete(queue, order));
            && s'.waiting == s.waiting - {queue} && s'.awaking == s.awaking + Everybody(s, queue, order)
            && s'.clients == s.clients && s'.jobs == s.jobs
  {
    WakeAllWakes(s, queue, order);
    hide WakeAll, Everybody;
  }

  /** With a channel everybody who waits for it is woken, and no other channel is touched. */
  lemma ChannelDeleteWakes(s: Server, p: Place)
    requires Possible(s, ChannelDelete(p))
    ensures var s', w := Handle(s, ChannelDelete(p)), s.waiting[p.queue];
            && s'.awaking == s.awaking + At(s, p)
            && s'.waiting == s.waiting[p.queue := WaitingClients(w.head, w.channels - {p.channel})]
            && s'.clients == s.clients && s'.jobs == s.jobs
  {
    var s1, w := Wake(s, p, |At(s, p)|), s.waiting[p.queue];
    assert s1.waiting[p.queue].channels - {p.channel} == w.channels - {p.channel};
    assert s1.awaking == s.awaking + At(s, p);
  }

  /** A queue starts without channels and a channel without clients. */
  lemma CreateAdds(s: Server, e: Event)
    requires Possible(s, e) && (e.QueueCreate? || e.ChannelCreate?)
    ensures var s' := Handle(s, e);
            && s'.awaking == s.awaking && s'.clients == s.clients && s'.jobs == s.jobs
            && (forall p :: At(s', p) == At(s, p))
            && (forall p :: Exists(s', p) <==> Exists(s, p) || (e.ChannelCreate? && p == e.place))
            && (forall q :: q in s'.waiting <==> q in s.waiting || (e.QueueCreate? && q == e.queue))
            && (forall q :: q in s.waiting ==> s'.waiting[q].head == s.waiting[q].head)
            && (e.QueueCreate? ==> s'.waiting[e.queue].head == 0)
  {
  }

  // ----- ticks

  /** A tick sends every woken client's request to a worker again, and touches nobody else. */
  lemma {:induction false} TickRetries(s: Server, u: Token)
    requires Placed(s)
    ensures u in Tokens(s.awaking) ==>
              && u in s.clients && s.clients[u].request.Some?
              && u in Tick(s).jobs && Tick(s).jobs[u].request == s.clients[u].request.value
              && u in Tick(s).clients && Tick(s).clients[u].timeout.None?
    ensures u !in Tokens(s.awaking) ==>
              && (u in Tick(s).clients <==> u in s.clients) && (u in Tick(s).jobs <==> u in s.jobs)
              && (u in s.clients ==> Tick(s).clients[u] == s.clients[u])
              && (u in s.jobs ==> Tick(s).jobs[u] == s.jobs[u])
    decreases |s.awaking|
  {
    if s.awaking != [] {
      assert Backed(s, s.awaking[0]);
      assert Distinct(s.awaking);
      RetryKeepsPlaced(s);
      hide Placed;
      TickRetries(Retry(s), u);
      if u in Tokens(s.awaking[1..]) {
        assert u != s.awaking[0].token;
      }
    }
  }

  // ----- runs

  /** In every run a push by a client that is still there wakes as many waiting clients of each channel. */
  lemma PushWakes(states: seq<Server>, moves: seq<Move>, i: nat, t: Token, queue: string, head: nat, order: seq<string>)
    requires IsRun(states, moves) && i < |moves|
    requires moves[i] == Handling(Finish(t, PutResponse(queue, head, order)))
    ensures t in states[i].clients
    ensures !states[i].clients[t].hup ==> Notifies(states[i], states[i + 1], queue, head, order)
    ensures states[i].clients[t].hup ==>
              states[i + 1].waiting == states[i].waiting && states[i + 1].awaking == states[i].awaking
  {
    RunIsPlaced(states, moves, i);
    assert IsStep(states[i], moves[i], states[i + 1]);
    hide Placed, Handle, Possible, IsRun, Notifies;
    PushDone(states[i], t, queue, head, order);
  }

  /** In every run a client that has been woken has its own request with a worker after the next tick. */
  lemma WokenIsRetried(states: seq<Server>, moves: seq<Move>, i: nat, e: Parked)
    requires IsRun(states, moves) && i < |moves| && moves[i].Ticking? && e in states[i].awaking
    ensures e.token in states[i + 1].jobs && states[i + 1].jobs[e.token].request == e.request
  {
    RunIsPlaced(states, moves, i);
    assert IsStep(states[i], moves[i], states[i + 1]);
    hide IsRun;
    var s := states[i];
    var k :| 0 <= k < |s.awaking| && s.awaking[k] == e;
    TokenAt(s.awaking, k);
    assert Backed(s, s.awaking[k]);
    hide Placed;
    TickRetries(s, e.token);
  }
}
