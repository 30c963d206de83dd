/** The server object that the event handlers work on. */
module ParkedServer {
  import opened Bytes
  import opened ParkedClients
  import opened ParkedRuns

  class ServerState {
    var waiting: map<string, WaitingClients>
    var awaking: seq<Parked>
    var clients: map<Token, Client>
    var jobs: map<Token, Job>
    var nonce: nat

    ghost function View(): Server
      reads this
    {
      Server(waiting, awaking, clients, jobs, nonce)
    }

    constructor ()
      ensures View() == Start
    {
      waiting, awaking, clients, jobs, nonce := map[], [], map[], map[], 0;
    }

    method WaitQueue(request: nat, p: Place, token: Token, requiredTail: nat)
      modifies this
      ensures View() == ParkedClients.WaitQueue(old(View()), request, p, token, requiredTail)
    {
      if p.queue in waiting {
        var w := waiting[p.queue];
        if p.channel in w.channels {
          if requiredTail >= w.head {
            var tokens := w.channels[p.channel] + [Parked(token, request)];
            waiting := waiting[p.queue := w.(channels := w.channels[p.channel := tokens])];
            return;
          }
        }
      }
      awaking := awaking + [Parked(token, request)];
    }

    /** Wakes up to `available` clients of one channel. */
    method NotifyChannel(p: Place, available: nat)
      modifies this
      ensures View() == Wake(old(View()), p, available)
    {
      if p.queue in waiting && p.channel in waiting[p.queue].channels {
        var w := waiting[p.queue];
        var tokens := w.channels[p.channel];
        var drain := Min(available, |tokens|);
        waiting := waiting[p.queue := w.(channels := w.channels[p.channel := tokens[drain..]])];
        awaking := awaking + tokens[..drain];
      }
    }

    /** `order` is the order in which the channels of the queue are visited. */
    method NotifyQueue(queue: string, newHead: nat, order: seq<string>)
      requires Visits(View(), queue, order)
      modifies this
      ensures View() == ParkedClients.NotifyQueue(old(View()), queue, newHead, order)
    {
      if queue !in waiting || newHead <= waiting[queue].head {
        return;
      }
      var available := newHead - waiting[queue].head;
      waiting := waiting[queue := waiting[queue].(head := newHead)];
      ghost var s := View();
      assert order[0..] == order;
      for i := 0 to |order|
        invariant WakeEach(View(), queue, order[i..], available) == WakeEach(s, queue, order, available)
      {
        assert order[i..][0] == order[i] && order[i..][1..] == order[i + 1..];
        NotifyChannel(Place(queue, order[i]), available);
      }
    }

    /** Takes a client off the channel it is parked at, keeping the others in order. */
    method Retain(p: Place, token: Token)
      requires Exists(View(), p)
      modifies this
      ensures View() == Unpark(old(View()), p, token)
    {
      var w := waiting[p.queue];
      var tokens := w.channels[p.channel];
      var kept: seq<Parked> := [];
      assert tokens[0..] == tokens;
      for i := 0 to |tokens|
        invariant View() == old(View())
        invariant kept + Without(tokens[i..], token) == Without(tokens, token)
      {
        assert tokens[i..][0] == tokens[i] && tokens[i..][1..] == tokens[i + 1..];
        if tokens[i].token != token {
          kept := kept + [tokens[i]];
        }
      }
      assert kept == kept + [] == Without(tokens, token);
      waiting := waiting[p.queue := w.(channels := w.channels[p.channel := kept])];
    }

    method NotifyQueueDeleted(queue: string, order: seq<string>)
      requires queue in waiting && Visits(View(), queue, order)
      modifies this
      ensures var s := WakeAll(old(View()), queue, order);
              View() == s.(waiting := s.waiting - {queue})
    {
      ghost var s := View();
      assert order[0..] == order;
      for i := 0 to |order|
        invariant WakeAll(View(), queue, order[i..]) == WakeAll(s, queue, order)
      {
        assert order[i..][0] == order[i] && order[i..][1..] == order[i + 1..];
        var p := Place(queue, order[i]);
        NotifyChannel(p, |At(Server(waiting, awaking, clients, jobs, nonce), p)|);
      }
      waiting := waiting - {queue};
    }

    method NotifyChannelDeleted(p: Place)
      requires Exists(View(), p)
      modifies this
      ensures View() == RemoveChannel(Wake(old(View()), p, |At(old(View()), p)|), p)
    {
      var w := waiting[p.queue];
      awaking := awaking + w.channels[p.channel];
      waiting := waiting[p.queue := w.(channels := w.channels - {p.channel})];
      ghost var s := old(View());
      assert At(s, p)[..|At(s, p)|] == At(s, p);
      assert w.channels[p.channel := []] - {p.channel} == w.channels - {p.channel};
    }

    /** Hands a request to a worker. */
    method Dispatch(token: Token, c: Client, request: nat)
      modifies this
      ensures View() == ParkedClients.Dispatch(old(View()), token, c, request)
    {
      nonce := nonce + 1;
      clients := clients[token := c.(processing := Some(nonce), request := Some(request))];
      jobs := jobs[token := Job(nonce, request)];
    }

    /** Retries everybody on the wake-up list; no client there has lost its timer. */
    method Tick()
      requires Placed(View())
      modifies this
      ensures View() == ParkedRuns.Tick(old(View())) && Settled(View())
    {
      while awaking != []
        invariant Placed(View()) && ParkedRuns.Tick(View()) == ParkedRuns.Tick(old(View()))
        decreases |awaking|
      {
        RetryKeepsPlaced(View());
        hide Placed;
        var a := awaking[0];
        awaking := awaking[1..];
        Dispatch(a.token, clients[a.token].(timeout := None), a.request);
      }
    }
  }
}
