/**
 * Runs of the server: events are handled one after another, and at the end of each turn of the event
 * loop, after any number of them, the clients on the wake-up list are retried.
 */
module ParkedRuns {
  import opened Bytes
  import opened ParkedClients

  datatype Outcome =
    | Respond
    | PutResponse(queue: string, head: nat, order: seq<string>)
    | GetWouldBlock(place: Place, requiredHead: nat, late: bool)

  datatype Event =
    | Accept(token: Token)
    | Request(token: Token, request: nat)
    | Finish(token: Token, outcome: Outcome)
    | TimeUp(token: Token)
    | Hangup(token: Token)
    | MessagesAvailable(place: Place, available: nat)
    | QueueCreate(queue: string)
    | QueueDelete(queue: string, order: seq<string>)
    | ChannelCreate(place: Place)
    | ChannelDelete(place: Place)

  /** Everybody is in place and nothing is left to wake, as after a tick. */
  ghost predicate Settled(s: Server) { Placed(s) && s.awaking == [] }

  /** When an event can reach the server. */
  predicate Possible(s: Server, e: Event) {
    match e
    case Accept(t) => t !in s.clients
    case Request(t, _) => t in s.clients && s.clients[t].request.None? && !s.clients[t].hup
    case Finish(t, o) => t in s.jobs && (o.PutResponse? ==> Visits(s, o.queue, o.order))
    case TimeUp(t) => t in s.clients && s.clients[t].timeout.Some?
    case Hangup(t) => t in s.clients
    case MessagesAvailable(_, _) => true
    case QueueCreate(q) => q !in s.waiting
    case QueueDelete(q, order) => q in s.waiting && Visits(s, q, order)
    case ChannelCreate(p) => p.queue in s.waiting && p.channel !in s.waiting[p.queue].channels
    case ChannelDelete(p) => Exists(s, p)
  }

  // ----- the tick

  lemma RetryKeepsPlaced(s: Server)
    requires Placed(s) && s.awaking != []
    ensures s.awaking[0].token in s.clients
    ensures s.clients[s.awaking[0].token].timeout.Some? && s.clients[s.awaking[0].token].processing.None?
    ensures Placed(Retry(s)) && Retry(s).awaking == s.awaking[1..] && Retry(s).waiting == s.waiting
  {
    var t := s.awaking[0].token;
    assert Backed(s, s.awaking[0]);
    assert ClientOk(s, t);
    var s' := Retry(s);
    assert s'.awaking == Without(s.awaking, t) by { WithoutAbsent(s.awaking[1..], t); }
    forall p
      ensures At(s', p) == Without(At(s, p), t)
    {
      assert At(s', p) == At(s, p);
      assert t in Tokens(s.awaking);
      ParkedNotAwaking(s, p);
      WithoutAbsent(At(s, p), t);
    }
    RelieveKeepsPlaced(s, s', t);
  }

  /** Retries every client on the wake-up list, in order. */
  ghost function Tick(s: Server): (s': Server)
    requires Placed(s)
    ensures Settled(s') && s'.waiting == s.waiting
    decreases |s.awaking|
  {
    if s.awaking == [] then s
    else
      RetryKeepsPlaced(s);
      Tick(Retry(s))
  }

  // ----- handlers

  function Answered(s: Server, t: Token): Server
    requires t in s.clients
  {
    SetClient(s, t, s.clients[t].(processing := None, timeout := None, request := None)).(jobs := s.jobs - {t})
  }

  function Gone(s: Server, t: Token): Server {
    s.(clients := s.clients - {t}, jobs := s.jobs - {t})
  }

  function Park(s: Server, t: Token, p: Place, request: nat, requiredTail: nat): Server
    requires t in s.clients
  {
    WaitQueue(SetClient(s, t, s.clients[t].(timeout := Some(p), request := Some(request))), request, p, t, requiredTail)
  }

  function Finished(s: Server, t: Token, o: Outcome): Server
    requires t in s.clients && s.clients[t].request.Some?
  {
    if s.clients[t].hup then Gone(s, t)
    else
      match o
      case Respond => Answered(s, t)
      case PutResponse(queue, head, order) => NotifyQueue(Answered(s, t), queue, head, order)
      case GetWouldBlock(p, requiredHead, late) =>
        if late then Answered(s, t) else Park(Answered(s, t), t, p, s.clients[t].request.value, requiredHead)
  }

  /** Wakes everybody in the listed channels. */
  function WakeAll(s: Server, queue: string, order: seq<string>): Server
    decreases |order|
  {
    if order == [] then s
    else
      var p := Place(queue, order[0]);
      WakeAll(Wake(s, p, |At(s, p)|), queue, order[1..])
  }

  function Unparked(s: Server, t: Token): Server
    requires t in s.clients
  {
    if s.clients[t].timeout.Some? then Unpark(s, s.clients[t].timeout.value, t) else s
  }

  function Handle(s: Server, e: Event): Server
    requires Possible(s, e)
  {
    match e
    case Accept(t) => SetClient(s, t, Client(None, None, false, None))
    case Request(t, request) => Dispatch(s, t, s.clients[t], request)
    case Finish(t, o) => if t in s.clients && s.clients[t].request.Some? then Finished(s, t, o) else s
    case TimeUp(t) => Answered(Unparked(s, t), t)
    case Hangup(t) =>
      if s.clients[t].processing.Some? then SetClient(s, t, s.clients[t].(hup := true)) else Gone(Unparked(s, t), t)
    case MessagesAvailable(p, n) => Wake(s, p, n)
    case QueueCreate(q) => s.(waiting := s.waiting[q := WaitingClients(0, map[])])
    case QueueDelete(q, order) =>
      var s1 := WakeAll(s, q, order);
      s1.(waiting := s1.waiting - {q})
    case ChannelCreate(p) =>
      var w := s.waiting[p.queue];
      s.(waiting := s.waiting[p.queue := w.(channels := w.channels[p.channel := []])])
    case ChannelDelete(p) => RemoveChannel(Wake(s, p, |At(s, p)|), p)
  }

  // ----- handlers keep every client in its place

  /** Two servers with the same lists and clients. */
  lemma SameTable(s: Server, s': Server)
    requires Placed(s) && s'.awaking == s.awaking && s'.clients == s.clients && s'.jobs == s.jobs
    requires forall p :: At(s', p) == At(s, p)
    ensures Placed(s')
  {
    forall p
      ensures ChannelOk(s', p)
    {
      assert ChannelOk(s, p);
    }
    forall t | t in s'.clients
      ensures ClientOk(s', t)
    {
      assert ClientOk(s, t);
    }
  }

  /** A client that is not parked can be answered, dispatched, marked or removed. */
  lemma UnparkedChange(s: Server, s': Server, t: Token)
    requires Placed(s) && (t in s.clients ==> s.clients[t].timeout.None?)
    requires s'.waiting == s.waiting && s'.awaking == s.awaking
    requires s'.clients - {t} == s.clients - {t} && s'.jobs - {t} == s.jobs - {t}
    requires t in s'.jobs ==> t in s'.clients
    requires t in s'.clients ==>
               var c := s'.clients[t];
               && c.timeout.None?
               && (c.request.Some? <==> c.processing.Some?)
               && (c.processing.Some? <==> t in s'.jobs)
               && (c.processing.Some? ==> s'.jobs[t] == Job(c.processing.value, c.request.value))
    ensures Placed(s')
  {
    forall p
      ensures At(s', p) == Without(At(s, p), t)
    {
      NotParked(s, t, p);
      WithoutAbsent(At(s, p), t);
    }
    NotParked(s, t, Place("", ""));
    WithoutAbsent(s.awaking, t);
    forall u | u != t
      ensures u in s'.clients <==> u in s.clients
      ensures u in s.clients ==> s'.clients[u] == s.clients[u]
      ensures u in s'.jobs <==> u in s.jobs
      ensures u in s.jobs ==> s'.jobs[u] == s.jobs[u]
    {
      assert u in s'.clients <==> u in s'.clients - {t};
      assert u in s.clients <==> u in s.clients - {t};
      assert u in s.clients ==> s.clients[u] == (s.clients - {t})[u];
      assert u in s'.clients ==> s'.clients[u] == (s'.clients - {t})[u];
      assert u in s'.jobs <==> u in s'.jobs - {t};
      assert u in s.jobs <==> u in s.jobs - {t};
      assert u in s.jobs ==> s.jobs[u] == (s.jobs - {t})[u];
      assert u in s'.jobs ==> s'.jobs[u] == (s'.jobs - {t})[u];
    }
    RelieveKeepsPlaced(s, s', t);
  }

  /** A parked client is at its place, which exists, and is taken off it in one piece. */
  lemma UnparkingFinds(s: Server, t: Token, p: Place)
    requires Placed(s) && t in s.clients && s.clients[t].timeout == Some(p) && t !in Tokens(s.awaking)
    ensures Exists(s, p) && s.clients[t].processing.None? && t !in s.jobs
    ensures forall q :: At(Unparked(s, t), q) == Without(At(s, q), t)
    ensures Unparked(s, t).clients == s.clients && Unparked(s, t).jobs == s.jobs && Unparked(s, t).awaking == s.awaking
  {
    assert ClientOk(s, t);
    forall q
      ensures At(Unparked(s, t), q) == Without(At(s, q), t)
    {
      if q != p {
        assert At(Unparked(s, t), q) == At(s, q);
        assert ChannelOk(s, q);
        if t in Tokens(At(s, q)) {
          var i := WithToken(At(s, q), t);
        }
        WithoutAbsent(At(s, q), t);
      }
    }
  }

  lemma TimeUpKeepsPlaced(s: Server, t: Token)
    requires Placed(s) && t in s.clients && s.clients[t].timeout.Some? && t !in Tokens(s.awaking)
    ensures Placed(Answered(Unparked(s, t), t)) && Placed(Gone(Unparked(s, t), t))
  {
    UnparkingFinds(s, t, s.clients[t].timeout.value);
    hide Unparked, Without, Placed, Tokens, Answered, Gone;
    var s1 := Unparked(s, t);
    WithoutAbsent(s.awaking, t);
    AnswerRelieves(s, s1, t);
    GoneRelieves(s, s1, t);
    RelieveKeepsPlaced(s, Answered(s1, t), t);
    RelieveKeepsPlaced(s, Gone(s1, t), t);
  }

  /** The server with a client off its list, and otherwise as it was. */
  ghost predicate TakenOff(s: Server, s1: Server, t: Token) {
    && (forall q :: At(s1, q) == Without(At(s, q), t))
    && s1.awaking == s.awaking == Without(s.awaking, t)
    && s1.clients == s.clients && s1.jobs == s.jobs && t !in s.jobs && t in s.clients
  }

  lemma AnswerRelieves(s: Server, s1: Server, t: Token)
    requires TakenOff(s, s1, t)
    ensures Relieves(s, Answered(s1, t), t)
  {
    hide Without;
    var a := Answered(s1, t);
    forall q
      ensures At(a, q) == At(s1, q)
    {
    }
  }

  lemma GoneRelieves(s: Server, s1: Server, t: Token)
    requires TakenOff(s, s1, t)
    ensures Relieves(s, Gone(s1, t), t)
  {
    hide Without;
    var g := Gone(s1, t);
    forall q
      ensures At(g, q) == At(s1, q)
    {
    }
  }

  /** A job belongs to a client that is being processed and not parked. */
  lemma JobOwner(s: Server, t: Token)
    requires Placed(s) && t in s.jobs
    ensures t in s.clients && s.clients[t].timeout.None? && s.clients[t].processing == Some(s.jobs[t].cookie)
    ensures s.clients[t].request == Some(s.jobs[t].request)
  {
    assert ClientOk(s, t);
  }

  lemma FinishKeepsPlaced(s: Server, t: Token, o: Outcome)
    requires Placed(s) && t in s.jobs
    requires t in s.clients && s.clients[t].request.Some?
    ensures Placed(Finished(s, t, o))
  {
    hide Placed;
    JobOwner(s, t);
    var a := Answered(s, t);
    UnparkedChange(s, a, t);
    UnparkedChange(s, Gone(s, t), t);
    match o {
      case Respond =>
      case PutResponse(queue, head, order) =>
        NotifyKeepsPlaced(a, queue, head, order);
      case GetWouldBlock(p, requiredHead, late) =>
        var s' := Park(a, t, p, s.clients[t].request.value, requiredHead);
        ParkKeepsPlaced(a, s', t, p, s.clients[t].request.value);
    }
  }

  lemma NotifyKeepsPlaced(s: Server, queue: string, newHead: nat, order: seq<string>)
    requires Placed(s)
    ensures Placed(NotifyQueue(s, queue, newHead, order))
    ensures NotifyQueue(s, queue, newHead, order).clients == s.clients
  {
    if queue in s.waiting && newHead > s.waiting[queue].head {
      var s1 := s.(waiting := s.waiting[queue := s.waiting[queue].(head := newHead)]);
      SameTable(s, s1);
      WakeEachKeepsPlaced(s1, queue, order, newHead - s.waiting[queue].head);
    }
  }

  lemma {:induction false} WakeAllKeepsPlaced(s: Server, queue: string, order: seq<string>)
    requires Placed(s)
    ensures var s' := WakeAll(s, queue, order);
            && Placed(s') && s'.clients == s.clients && s'.jobs == s.jobs
            && (forall c :: c in order ==> At(s', Place(queue, c)) == [])
            && (forall p: Place :: At(s, p) == [] ==> At(s', p) == [])
            && (forall p: Place :: p.queue != queue ==> At(s', p) == At(s, p))
            && s'.waiting.Keys == s.waiting.Keys
            && (queue in s.waiting ==> s'.waiting[queue].channels.Keys == s.waiting[queue].channels.Keys)
    decreases |order|
  {
    if order != [] {
      var p := Place(queue, order[0]);
      var s1 := Wake(s, p, |At(s, p)|);
      WakeKeepsPlaced(s, p, |At(s, p)|);
      hide Placed;
      forall q
        ensures At(s1, q) == if q == p then [] else At(s, q)
      {
        WakeAt(s, p, |At(s, p)|, q);
      }
      WakeAllKeepsPlaced(s1, queue, order[1..]);
    }
  }

  lemma DeleteKeepsPlaced(s: Server, q: string, order: seq<string>)
    requires Placed(s) && q in s.waiting && forall c :: c in s.waiting[q].channels ==> c in order
    ensures var s1 := WakeAll(s, q, order);
            Placed(s1.(waiting := s1.waiting - {q}))
  {
    WakeAllKeepsPlaced(s, q, order);
    hide Placed;
    var s1 := WakeAll(s, q, order);
    var s' := s1.(waiting := s1.waiting - {q});
    forall p
      ensures At(s', p) == At(s1, p)
    {
      if p.queue == q && Exists(s1, p) {
        assert p.channel in order && p == Place(q, p.channel);
      }
    }
    SameTable(s1, s');
  }

  lemma ChannelDeleteKeepsPlaced(s: Server, p: Place)
    requires Placed(s) && Exists(s, p)
    ensures Placed(RemoveChannel(Wake(s, p, |At(s, p)|), p))
  {
    var s1 := Wake(s, p, |At(s, p)|);
    WakeKeepsPlaced(s, p, |At(s, p)|);
    WakeAt(s, p, |At(s, p)|, p);
    hide Placed;
    SameTable(s1, RemoveChannel(s1, p));
  }

  /** The event does not take away a client that has been woken but not yet retried. */
  predicate InTurn(s: Server, e: Event) {
    !((e.TimeUp? || e.Hangup?) && e.token in Tokens(s.awaking))
  }

  /**
   * An event keeps every client in its place exactly when it does not take away a client that has
   * been woken since the last tick.
   */
  lemma HandleKeepsPlaced(s: Server, e: Event)
    requires Placed(s) && Possible(s, e)
    ensures Placed(Handle(s, e)) <==> InTurn(s, e)
  {
    hide Placed;
    if InTurn(s, e) {
      InTurnKeepsPlaced(s, e);
    } else {
      OutOfTurnBreaks(s, e);
    }
  }

  lemma InTurnKeepsPlaced(s: Server, e: Event)
    requires Placed(s) && Possible(s, e) && InTurn(s, e)
    ensures Placed(Handle(s, e))
  {
    hide Finished, Wake, WakeAll, RemoveChannel, Answered, Distinct, Tokens;
    match e {
      case Accept(t) =>
        if t in s.jobs {
          JobOwner(s, t);
        }
        UnparkedChange(s, Handle(s, e), t);
      case Request(t, _) =>
        assert ClientOk(s, t);
        UnparkedChange(s, Handle(s, e), t);
      case Finish(t, o) =>
        JobOwner(s, t);
        FinishKeepsPlaced(s, t, o);
      case TimeUp(t) => TimeUpKeepsPlaced(s, t);
      case Hangup(t) =>
        assert ClientOk(s, t);
        if s.clients[t].timeout.Some? {
          TimeUpKeepsPlaced(s, t);
        } else {
          UnparkedChange(s, Handle(s, e), t);
        }
      case MessagesAvailable(p, n) => WakeKeepsPlaced(s, p, n);
      case QueueCreate(_) => SameTable(s, Handle(s, e));
      case QueueDelete(q, order) => DeleteKeepsPlaced(s, q, order);
      case ChannelCreate(_) => SameTable(s, Handle(s, e));
      case ChannelDelete(p) => ChannelDeleteKeepsPlaced(s, p);
    }
  }

  lemma OutOfTurnBreaks(s: Server, e: Event)
    requires Placed(s) && Possible(s, e) && !InTurn(s, e)
    ensures !Placed(Handle(s, e))
  {
    var s' := Handle(s, e);
    var i := WithToken(s.awaking, e.token);
    assert Backed(s, s.awaking[i]) && ClientOk(s, e.token);
    assert s'.awaking == s.awaking && !Backed(s', s'.awaking[i]);
  }

  // ----- runs

  /** What the event loop does: it handles an event, or it ends a turn with a tick. */
  datatype Move = Handling(event: Event) | Ticking

  ghost predicate IsRun(states: seq<Server>, moves: seq<Move>) {
    && |states| == |moves| + 1
    && states[0] == Start
    && forall i :: 0 <= i < |moves| ==> IsStep(states[i], moves[i], states[i + 1])
  }

  ghost predicate IsStep(s: Server, m: Move, s': Server) {
    match m
    case Handling(e) => Possible(s, e) && InTurn(s, e) && s' == Handle(s, e)
    case Ticking => Placed(s) ==> s' == Tick(s)
  }

  lemma StartIsSettled()
    ensures Settled(Start)
  {
  }

  /** In every state of every run all clients are in place, and after a tick nobody is left to wake. */
  lemma {:induction false} RunIsPlaced(states: seq<Server>, moves: seq<Move>, i: nat)
    requires IsRun(states, moves) && i < |states|
    ensures Placed(states[i])
    ensures i > 0 && moves[i - 1].Ticking? ==> Settled(states[i])
  {
    hide Placed, Possible, InTurn, Handle;
    if i == 0 {
      StartIsSettled();
    } else {
      RunIsPlaced(states, moves, i - 1);
      assert IsStep(states[i - 1], moves[i - 1], states[i]);
      if moves[i - 1].Handling? {
        HandleKeepsPlaced(states[i - 1], moves[i - 1].event);
      }
    }
  }

  lemma {:induction false} DistinctAt(ps: seq<Parked>, i: nat, j: nat)
    requires Distinct(ps) && i < j < |ps|
    ensures ps[i].token != ps[j].token
  {
    if i == 0 {
      TokenAt(ps[1..], j - 1);
    } else {
      DistinctAt(ps[1..], i - 1, j - 1);
    }
  }

  ghost predicate NoneTwice(ps: seq<Parked>) {
    forall i, j :: 0 <= i < j < |ps| ==> ps[i].token != ps[j].token
  }

  /**
   * In every state of every run, also between events of one turn, a client whose timer runs is not
   * being processed and is exactly once, with its request, either at its place in the table or on
   * the wake-up list; nobody else is there, and after a tick the client is at its place.
   */
  lemma ParkedExactlyOnce(states: seq<Server>, moves: seq<Move>, n: nat, p: Place, t: Token)
    requires IsRun(states, moves) && n < |states|
    ensures var s := states[n];
            t in s.clients && s.clients[t].timeout == Some(p) ==>
              && s.clients[t].processing.None? && s.clients[t].request.Some?
              && var e := Parked(t, s.clients[t].request.value);
                 && (e in At(s, p)) != (e in s.awaking)
                 && (n > 0 && moves[n - 1].Ticking? ==> e in At(s, p))
    ensures NoneTwice(At(states[n], p)) && NoneTwice(states[n].awaking)
    ensures var s := states[n];
            && (forall e :: e in At(s, p) ==> e.token in s.clients && s.clients[e.token].timeout == Some(p))
            && (forall e :: e in s.awaking ==> e.token in s.clients && s.clients[e.token].timeout.Some?)
  {
    RunIsPlaced(states, moves, n);
    var s := states[n];
    hide IsRun;
    assert ChannelOk(s, p);
    forall i, j | 0 <= i < j < |At(s, p)|
      ensures At(s, p)[i].token != At(s, p)[j].token
    {
      DistinctAt(At(s, p), i, j);
    }
    forall i, j | 0 <= i < j < |s.awaking|
      ensures s.awaking[i].token != s.awaking[j].token
    {
      DistinctAt(s.awaking, i, j);
    }
    if t in s.clients && s.clients[t].timeout == Some(p) {
      ParkedSomewhere(s, p, t);
    }
  }

  lemma ParkedSomewhere(s: Server, p: Place, t: Token)
    requires Placed(s) && t in s.clients && s.clients[t].timeout == Some(p)
    ensures s.clients[t].processing.None? && s.clients[t].request.Some?
    ensures var e := Parked(t, s.clients[t].request.value);
            (e in At(s, p)) != (e in s.awaking)
  {
    assert ClientOk(s, t) && ChannelOk(s, p);
    ParkedNotAwaking(s, p);
    if t in Tokens(s.awaking) {
      var i := WithToken(s.awaking, t);
      assert Backed(s, s.awaking[i]);
      NotListed(At(s, p), t, s.clients[t].request.value);
    } else {
      var i := WithToken(At(s, p), t);
      assert Backed(s, At(s, p)[i]);
      NotListed(s.awaking, t, s.clients[t].request.value);
    }
  }

  lemma NotListed(ps: seq<Parked>, t: Token, request: nat)
    requires t !in Tokens(ps)
    ensures Parked(t, request) !in ps
  {
    if i :| 0 <= i < |ps| && ps[i] == Parked(t, request) {
      TokenAt(ps, i);
    }
  }

  lemma {:induction false} TickKeepsRequests(s: Server, u: Token)
    requires Placed(s) && u in s.clients
    ensures u in Tick(s).clients && Tick(s).clients[u].request == s.clients[u].request
    decreases |s.awaking|
  {
    if s.awaking != [] {
      assert Backed(s, s.awaking[0]);
      RetryKeepsPlaced(s);
      hide Placed;
      TickKeepsRequests(Retry(s), u);
    }
  }

  predicate Concerns(e: Event, t: Token) {
    (e.Accept? || e.Request? || e.Finish? || e.TimeUp? || e.Hangup?) && e.token == t
  }

  lemma HandleLeavesOthers(s: Server, e: Event, u: Token)
    requires Placed(s) && Possible(s, e) && u in s.clients && !Concerns(e, u)
    ensures u in Handle(s, e).clients && Handle(s, e).clients[u] == s.clients[u]
  {
    hide Placed, Finished, Wake, WakeAll, Unparked;
    match e {
      case Finish(t, o) =>
        JobOwner(s, t);
        FinishLeavesOthers(s, t, o, u);
      case QueueDelete(q, order) => WakeAllKeepsPlaced(s, q, order);
      case MessagesAvailable(p, n) => WakeKeepsPlaced(s, p, n);
      case ChannelDelete(p) => WakeKeepsPlaced(s, p, |At(s, p)|);
      case TimeUp(t) => UnparkedClients(s, t);
      case Hangup(t) => UnparkedClients(s, t);
      case _ =>
    }
  }

  lemma UnparkedClients(s: Server, t: Token)
    requires t in s.clients
    ensures Unparked(s, t).clients == s.clients
  {
  }

  lemma FinishLeavesOthers(s: Server, t: Token, o: Outcome, u: Token)
    requires Placed(s) && t in s.jobs && t in s.clients && s.clients[t].request.Some? && u in s.clients && u != t
    ensures u in Finished(s, t, o).clients && Finished(s, t, o).clients[u] == s.clients[u]
  {
    JobOwner(s, t);
    UnparkedChange(s, Answered(s, t), t);
    hide Placed, NotifyQueue;
    if o.PutResponse? {
      NotifyKeepsPlaced(Answered(s, t), o.queue, o.head, o.order);
    }
  }

  /** No request is lost: no move of any run changes the open request of a client it is not about. */
  lemma RequestsAreKept(states: seq<Server>, moves: seq<Move>, i: nat, u: Token)
    requires IsRun(states, moves) && i < |moves|
    requires u in states[i].clients && (moves[i].Handling? ==> !Concerns(moves[i].event, u))
    ensures u in states[i + 1].clients && states[i + 1].clients[u].request == states[i].clients[u].request
  {
    RunIsPlaced(states, moves, i);
    assert IsStep(states[i], moves[i], states[i + 1]);
    hide Placed, Handle, Possible;
    if moves[i].Handling? {
      HandleLeavesOthers(states[i], moves[i].event, u);
    } else {
      TickKeepsRequests(states[i], u);
    }
  }

  /** Wake-ups are first come, first served: each channel visited once loses its first `n` clients. */
  lemma {:induction false} WakeEachIsFifo(s: Server, queue: string, order: seq<string>, n: nat, c: string)
    requires forall i, j :: 0 <= i < j < |order| ==> order[i] != order[j]
    ensures var p := Place(queue, c);
            At(WakeEach(s, queue, order, n), p) == if c in order then At(s, p)[Min(n, |At(s, p)|)..] else At(s, p)
    decreases |order|
  {
    hide Wake;
    if order != [] {
      WakeAt(s, Place(queue, order[0]), n, Place(queue, c));
      WakeEachIsFifo(Wake(s, Place(queue, order[0]), n), queue, order[1..], n, c);
      assert order == [order[0]] + order[1..];
      assert order[0] !in order[1..];
    }
  }

  /** The first `n` clients of each visited channel, in order. */
  function Woken(s: Server, queue: string, order: seq<string>, n: nat): seq<Parked> {
    if order == [] then []
    else
      var ps := At(s, Place(queue, order[0]));
      ps[..Min(n, |ps|)] + Woken(s, queue, order[1..], n)
  }

  lemma {:induction false} WokenElsewhere(s: Server, p: Place, order: seq<string>, n: nat)
    requires p.channel !in order
    ensures Woken(Wake(s, p, n), p.queue, order, n) == Woken(s, p.queue, order, n)
  {
    hide Wake;
    if order != [] {
      assert order == [order[0]] + order[1..];
      WakeAt(s, p, n, Place(p.queue, order[0]));
      WokenElsewhere(s, p, order[1..], n);
    }
  }

  /** The clients that channels lose go to the end of the wake-up list, in their order. */
  lemma {:induction false} WokenInOrder(s: Server, queue: string, order: seq<string>, n: nat)
    requires forall i, j :: 0 <= i < j < |order| ==> order[i] != order[j]
    ensures WakeEach(s, queue, order, n).awaking == s.awaking + Woken(s, queue, order, n)
    decreases |order|
  {
    if order != [] {
      var p := Place(queue, order[0]);
      assert order[0] !in order[1..];
      WokenInOrder(Wake(s, p, n), queue, order[1..], n);
      WokenElsewhere(s, p, order[1..], n);
      assert Wake(s, p, n).awaking == s.awaking + At(s, p)[..Min(n, |At(s, p)|)];
    }
  }

  /**
   * The condition is needed: after a client is woken, its timer can still fire in the same turn, and
   * then the wake-up list names a client whose timer is gone, so that the retry would fail.
   */
  lemma TickMustComeBetween(s: Server, p: Place, t: Token)
    requires Settled(s) && At(s, p) != [] && At(s, p)[0].token == t
    ensures var s1 := Handle(s, MessagesAvailable(p, 1));
            && Placed(s1) && Possible(s1, TimeUp(t)) && !InTurn(s1, TimeUp(t))
            && !Placed(Handle(s1, TimeUp(t)))
  {
    assert ChannelOk(s, p) && Backed(s, At(s, p)[0]);
    var s1 := Handle(s, MessagesAvailable(p, 1));
    WakeKeepsPlaced(s, p, 1);
    assert s1.awaking == [At(s, p)[0]];
    hide Placed;
    HandleKeepsPlaced(s1, TimeUp(t));
  }
}
