/**
 * The parked-client table of the server: clients whose request found no message wait in a queue
 * per channel until a message may have arrived, their time is up, or they are gone.
 */
module ParkedClients {
  import opened Bytes

  type Token = nat

  datatype Parked = Parked(token: Token, request: nat)

  datatype WaitingClients = WaitingClients(head: nat, channels: map<string, seq<Parked>>)

  datatype Place = Place(queue: string, channel: string)

  /** A client: where it is parked (while its timer runs), the job it waits for, and its open request. */
  datatype Client = Client(timeout: Option<Place>, processing: Option<nat>, hup: bool, request: Option<nat>)

  datatype Job = Job(cookie: nat, request: nat)

  datatype Server = Server(
    waiting: map<string, WaitingClients>, awaking: seq<Parked>,
    clients: map<Token, Client>, jobs: map<Token, Job>, nonce: nat)

  const Start := Server(map[], [], map[], map[], 0)

  predicate Exists(s: Server, p: Place) {
    p.queue in s.waiting && p.channel in s.waiting[p.queue].channels
  }

  /** The clients parked at a channel, first come first. */
  function At(s: Server, p: Place): seq<Parked> {
    if Exists(s, p) then s.waiting[p.queue].channels[p.channel] else []
  }

  function Tokens(ps: seq<Parked>): set<Token> {
    if ps == [] then {} else {ps[0].token} + Tokens(ps[1..])
  }

  ghost predicate Distinct(ps: seq<Parked>) {
    ps == [] || (ps[0].token !in Tokens(ps[1..]) && Distinct(ps[1..]))
  }

  // ----- operations on the table

  function SetAt(s: Server, p: Place, ps: seq<Parked>): Server
    requires Exists(s, p)
  {
    var w := s.waiting[p.queue];
    s.(waiting := s.waiting[p.queue := w.(channels := w.channels[p.channel := ps])])
  }

  function Min(a: nat, b: nat): nat { if a <= b then a else b }

  /** Moves up to `n` of the first clients of a channel to the list of those to wake. */
  function Wake(s: Server, p: Place, n: nat): Server {
    if !Exists(s, p) then s
    else
      var k := Min(n, |At(s, p)|);
      SetAt(s, p, At(s, p)[k..]).(awaking := s.awaking + At(s, p)[..k])
  }

  /** The same for several channels of a queue, in the order in which they are visited. */
  function WakeEach(s: Server, queue: string, order: seq<string>, n: nat): Server
    decreases |order|
  {
    if order == [] then s
    else WakeEach(Wake(s, Place(queue, order[0]), n), queue, order[1..], n)
  }

  /** The order visits every channel of the queue once. */
  predicate Visits(s: Server, queue: string, order: seq<string>) {
    && (forall i, j :: 0 <= i < j < |order| ==> order[i] != order[j])
    && (queue in s.waiting ==> forall c :: c in s.waiting[queue].channels ==> c in order)
    && (queue in s.waiting ==> forall c :: c in order ==> c in s.waiting[queue].channels)
  }

  /** Parks a request, or has it retried at once when the channel is gone or has new messages. */
  function WaitQueue(s: Server, request: nat, p: Place, token: Token, requiredTail: nat): Server {
    if Exists(s, p) && requiredTail >= s.waiting[p.queue].head then
      SetAt(s, p, At(s, p) + [Parked(token, request)])
    else
      s.(awaking := s.awaking + [Parked(token, request)])
  }

  /** A push moved the head of a queue: wake as many clients per channel as there are new messages. */
  function NotifyQueue(s: Server, queue: string, newHead: nat, order: seq<string>): Server {
    if queue in s.waiting && newHead > s.waiting[queue].head then
      var n := newHead - s.waiting[queue].head;
      WakeEach(s.(waiting := s.waiting[queue := s.waiting[queue].(head := newHead)]), queue, order, n)
    else s
  }

  function Without(ps: seq<Parked>, token: Token): seq<Parked> {
    if ps == [] then []
    else if ps[0].token == token then Without(ps[1..], token)
    else [ps[0]] + Without(ps[1..], token)
  }

  /** Takes a client out of the channel it is parked at. */
  function Unpark(s: Server, p: Place, token: Token): Server {
    if Exists(s, p) then SetAt(s, p, Without(At(s, p), token)) else s
  }

  function RemoveChannel(s: Server, p: Place): Server {
    if Exists(s, p) then
      var w := s.waiting[p.queue];
      s.(waiting := s.waiting[p.queue := w.(channels := w.channels - {p.channel})])
    else s
  }

  function SetClient(s: Server, token: Token, c: Client): Server {
    s.(clients := s.clients[token := c])
  }

  /** Hands a request to a worker under a new cookie. */
  function Dispatch(s: Server, token: Token, c: Client, request: nat): Server {
    SetClient(s, token, c.(processing := Some(s.nonce + 1), request := Some(request)))
      .(nonce := s.nonce + 1, jobs := s.jobs[token := Job(s.nonce + 1, request)])
  }

  /** Retries the first client on the list: its timer is cleared and its request dispatched again. */
  function Retry(s: Server): Server
    requires s.awaking != [] && s.awaking[0].token in s.clients
  {
    var a := s.awaking[0];
    Dispatch(s.(awaking := s.awaking[1..]), a.token, s.clients[a.token].(timeout := None), a.request)
  }

  // ----- the invariant

  /** An entry of the table or of the wake-up list belongs to a client whose timer runs. */
  ghost predicate Backed(s: Server, e: Parked) {
    && e.token in s.clients
    && s.clients[e.token].timeout.Some?
    && s.clients[e.token].request == Some(e.request)
  }

  ghost predicate ChannelOk(s: Server, p: Place) {
    && Distinct(At(s, p))
    && forall i :: 0 <= i < |At(s, p)| ==>
         Backed(s, At(s, p)[i]) && s.clients[At(s, p)[i].token].timeout == Some(p)
  }

  ghost predicate AwakingOk(s: Server) {
    && Distinct(s.awaking)
    && forall i :: 0 <= i < |s.awaking| ==>
         Backed(s, s.awaking[i])
         && s.awaking[i].token !in Tokens(At(s, s.clients[s.awaking[i].token].timeout.value))
  }

  /** A client is parked, or being processed, or neither; never both, and its request is open accordingly. */
  ghost predicate ClientOk(s: Server, t: Token)
    requires t in s.clients
  {
    var c := s.clients[t];
    && (c.timeout.Some? ==> t in Tokens(At(s, c.timeout.value)) + Tokens(s.awaking))
    && (c.timeout.Some? ==> c.processing.None?)
    && (c.request.Some? <==> c.timeout.Some? || c.processing.Some?)
    && (c.processing.Some? <==> t in s.jobs)
    && (c.processing.Some? ==> s.jobs[t] == Job(c.processing.value, c.request.value))
  }

  ghost predicate Placed(s: Server) {
    && (forall p :: ChannelOk(s, p))
    && AwakingOk(s)
    && (forall t :: t in s.clients ==> ClientOk(s, t))
    && s.jobs.Keys <= s.clients.Keys
  }

  // ----- lists of parked clients

  lemma {:induction false} TokensConcat(a: seq<Parked>, b: seq<Parked>)
    ensures Tokens(a + b) == Tokens(a) + Tokens(b)
    ensures Distinct(a + b) <==> Distinct(a) && Distinct(b) && Tokens(a) !! Tokens(b)
  {
    if a == [] {
      assert a + b == b;
    } else {
      assert (a + b)[1..] == a[1..] + b;
      TokensConcat(a[1..], b);
    }
  }

  lemma {:induction false} TokenAt(ps: seq<Parked>, i: nat)
    requires i < |ps|
    ensures ps[i].token in Tokens(ps)
  {
    if i > 0 {
      TokenAt(ps[1..], i - 1);
    }
  }

  lemma {:induction false} WithToken(ps: seq<Parked>, t: Token) returns (i: nat)
    requires t in Tokens(ps)
    ensures i < |ps| && ps[i].token == t
  {
    if ps[0].token == t {
      i := 0;
    } else {
      i := WithToken(ps[1..], t);
      i := i + 1;
    }
  }

  /** Taking a client out leaves the others in their order. */
  lemma {:induction false} WithoutLeaves(ps: seq<Parked>, t: Token)
    ensures Tokens(Without(ps, t)) == Tokens(ps) - {t}
    ensures Distinct(ps) ==> Distinct(Without(ps, t))
    ensures forall e :: e in Without(ps, t) ==> e in ps
  {
    if ps != [] {
      WithoutLeaves(ps[1..], t);
    }
  }

  // ----- what the table operations keep

  lemma WakeAt(s: Server, p: Place, n: nat, p': Place)
    ensures var k := Min(n, |At(s, p)|);
            At(Wake(s, p, n), p') == if p' == p then At(s, p)[k..] else At(s, p')
  {
  }

  /** A parked client is at one place only, so it is not among those being woken. */
  lemma ParkedNotAwaking(s: Server, p: Place)
    requires Placed(s)
    ensures Tokens(At(s, p)) !! Tokens(s.awaking)
  {
    assert ChannelOk(s, p);
    if t :| t in Tokens(At(s, p)) && t in Tokens(s.awaking) {
      var i := WithToken(At(s, p), t);
      var j := WithToken(s.awaking, t);
    }
  }

  lemma WakeKeepsAwaking(s: Server, p: Place, n: nat)
    requires Placed(s) && Exists(s, p)
    ensures AwakingOk(Wake(s, p, n))
  {
    var s', ps, k := Wake(s, p, n), At(s, p), Min(n, |At(s, p)|);
    assert ps == ps[..k] + ps[k..];
    TokensConcat(ps[..k], ps[k..]);
    TokensConcat(s.awaking, ps[..k]);
    ParkedNotAwaking(s, p);
    WakeAt(s, p, n, p);
    hide Distinct, Tokens;
    assert ChannelOk(s, p);
    forall i | 0 <= i < |s'.awaking|
      ensures Backed(s', s'.awaking[i])
      ensures s'.awaking[i].token !in Tokens(At(s', s'.clients[s'.awaking[i].token].timeout.value))
    {
      if i < |s.awaking| {
        assert s'.awaking[i] == s.awaking[i];
        WakeAt(s, p, n, s.clients[s.awaking[i].token].timeout.value);
      } else {
        var j := i - |s.awaking|;
        assert s'.awaking[i] == ps[j] == ps[..k][j];
        TokenAt(ps[..k], j);
      }
    }
  }

  lemma WakeKeepsChannel(s: Server, p: Place, n: nat, p': Place)
    requires Placed(s)
    ensures ChannelOk(Wake(s, p, n), p')
  {
    var ps, k := At(s, p), Min(n, |At(s, p)|);
    assert ps == ps[..k] + ps[k..];
    TokensConcat(ps[..k], ps[k..]);
    WakeAt(s, p, n, p');
    hide Distinct, Tokens;
    assert ChannelOk(s, p) && ChannelOk(s, p');
  }

  lemma WakeKeepsClient(s: Server, p: Place, n: nat, t: Token)
    requires Placed(s) && t in s.clients
    ensures ClientOk(Wake(s, p, n), t)
  {
    var ps, k := At(s, p), Min(n, |At(s, p)|);
    assert ps == ps[..k] + ps[k..];
    TokensConcat(ps[..k], ps[k..]);
    TokensConcat(s.awaking, ps[..k]);
    assert ClientOk(s, t);
    hide Tokens;
    if s.clients[t].timeout.Some? {
      WakeAt(s, p, n, s.clients[t].timeout.value);
    }
  }

  lemma WakeKeepsPlaced(s: Server, p: Place, n: nat)
    requires Placed(s)
    ensures Placed(Wake(s, p, n))
    ensures Wake(s, p, n).clients == s.clients && Wake(s, p, n).jobs == s.jobs
  {
    if Exists(s, p) {
      WakeKeepsAwaking(s, p, n);
      hide AwakingOk, ChannelOk, ClientOk;
      forall p'
        ensures ChannelOk(Wake(s, p, n), p')
      {
        WakeKeepsChannel(s, p, n, p');
      }
      forall t | t in s.clients
        ensures ClientOk(Wake(s, p, n), t)
      {
        WakeKeepsClient(s, p, n, t);
      }
    }
  }

  lemma {:induction false} WakeEachKeepsPlaced(s: Server, queue: string, order: seq<string>, n: nat)
    requires Placed(s)
    ensures Placed(WakeEach(s, queue, order, n))
    ensures WakeEach(s, queue, order, n).clients == s.clients && WakeEach(s, queue, order, n).jobs == s.jobs
    decreases |order|
  {
    hide Placed, Wake;
    if order != [] {
      WakeKeepsPlaced(s, Place(queue, order[0]), n);
      WakeEachKeepsPlaced(Wake(s, Place(queue, order[0]), n), queue, order[1..], n);
    }
  }

  lemma {:induction false} WithoutAbsent(ps: seq<Parked>, t: Token)
    requires t !in Tokens(ps)
    ensures Without(ps, t) == ps
  {
    if ps != [] {
      WithoutAbsent(ps[1..], t);
    }
  }

  /** `s'` is `s` with client `t` taken off every list and left without a timer. */
  ghost predicate Relieves(s: Server, s': Server, t: Token) {
    && (forall p :: At(s', p) == Without(At(s, p), t))
    && s'.awaking == Without(s.awaking, t)
    && (forall u :: u != t ==> (u in s'.clients <==> u in s.clients))
    && (forall u :: u != t && u in s.clients ==> s'.clients[u] == s.clients[u])
    && (forall u :: u != t ==> (u in s'.jobs <==> u in s.jobs))
    && (forall u :: u != t && u in s.jobs ==> s'.jobs[u] == s.jobs[u])
    && (t in s'.jobs ==> t in s'.clients)
    && (t in s'.clients ==>
          var c := s'.clients[t];
          && c.timeout.None?
          && (c.request.Some? <==> c.processing.Some?)
          && (c.processing.Some? <==> t in s'.jobs)
          && (c.processing.Some? ==> s'.jobs[t] == Job(c.processing.value, c.request.value)))
  }

  lemma WithoutKeepsBacked(s: Server, s': Server, t: Token, ps: seq<Parked>, e: Parked)
    requires Relieves(s, s', t) && e in Without(ps, t)
    requires forall x :: x in ps ==> Backed(s, x)
    ensures e in ps && e.token != t && Backed(s', e) && s'.clients[e.token] == s.clients[e.token]
  {
    WithoutLeaves(ps, t);
    var i :| 0 <= i < |Without(ps, t)| && Without(ps, t)[i] == e;
    TokenAt(Without(ps, t), i);
  }

  lemma RelieveKeepsPlaced(s: Server, s': Server, t: Token)
    requires Placed(s) && Relieves(s, s', t)
    ensures Placed(s')
  {
    forall p
      ensures ChannelOk(s', p)
    {
      RelieveKeepsChannel(s, s', t, p);
    }
    RelieveKeepsAwaking(s, s', t);
    hide ChannelOk, AwakingOk, ClientOk;
    forall u | u in s'.clients
      ensures ClientOk(s', u)
    {
      RelieveKeepsClient(s, s', t, u);
    }
  }

  lemma RelieveKeepsClient(s: Server, s': Server, t: Token, u: Token)
    requires Placed(s) && Relieves(s, s', t) && u in s'.clients
    ensures ClientOk(s', u)
  {
    if u != t {
      assert ClientOk(s, u);
      WithoutLeaves(s.awaking, t);
      if s.clients[u].timeout.Some? {
        WithoutLeaves(At(s, s.clients[u].timeout.value), t);
      }
    }
  }

  lemma RelieveKeepsChannel(s: Server, s': Server, t: Token, p: Place)
    requires Placed(s) && Relieves(s, s', t)
    ensures ChannelOk(s', p)
  {
    assert ChannelOk(s, p);
    WithoutLeaves(At(s, p), t);
    forall i | 0 <= i < |At(s', p)|
      ensures Backed(s', At(s', p)[i]) && s'.clients[At(s', p)[i].token].timeout == Some(p)
    {
      WithoutKeepsBacked(s, s', t, At(s, p), At(s', p)[i]);
    }
  }

  lemma RelieveKeepsAwaking(s: Server, s': Server, t: Token)
    requires Placed(s) && Relieves(s, s', t)
    ensures AwakingOk(s')
  {
    WithoutLeaves(s.awaking, t);
    forall i | 0 <= i < |s'.awaking|
      ensures Backed(s', s'.awaking[i])
      ensures s'.awaking[i].token !in Tokens(At(s', s'.clients[s'.awaking[i].token].timeout.value))
    {
      var e := s'.awaking[i];
      WithoutKeepsBacked(s, s', t, s.awaking, e);
      var j :| 0 <= j < |s.awaking| && s.awaking[j] == e;
      WithoutLeaves(At(s, s.clients[e.token].timeout.value), t);
    }
  }

  /** Parking an idle client: its timer runs, and it is last at its place or on the wake-up list. */
  ghost predicate Parks(s: Server, s': Server, t: Token, p: Place, request: nat) {
    && t in s.clients && s.clients[t].timeout.None? && s.clients[t].processing.None?
    && s'.clients == s.clients[t := s.clients[t].(timeout := Some(p), request := Some(request))]
    && s'.jobs == s.jobs
    && (forall q :: q != p ==> At(s', q) == At(s, q))
    && (|| (At(s', p) == At(s, p) + [Parked(t, request)] && s'.awaking == s.awaking)
        || (At(s', p) == At(s, p) && s'.awaking == s.awaking + [Parked(t, request)]))
  }

  lemma NotParked(s: Server, t: Token, p: Place)
    requires Placed(s) && (t in s.clients ==> s.clients[t].timeout.None?)
    ensures t !in Tokens(s.awaking) && t !in Tokens(At(s, p))
  {
    assert ChannelOk(s, p);
    if t in Tokens(s.awaking) {
      var i := WithToken(s.awaking, t);
    }
    if t in Tokens(At(s, p)) {
      var i := WithToken(At(s, p), t);
    }
  }

  lemma ParkKeepsChannel(s: Server, s': Server, t: Token, p: Place, request: nat, q: Place)
    requires Placed(s) && Parks(s, s', t, p, request)
    ensures ChannelOk(s', q)
  {
    NotParked(s, t, q);
    assert ChannelOk(s, q);
    TokensConcat(At(s, p), [Parked(t, request)]);
    OneIsDistinct(Parked(t, request));
    hide Distinct, Tokens;
    forall i | 0 <= i < |At(s', q)|
      ensures Backed(s', At(s', q)[i]) && s'.clients[At(s', q)[i].token].timeout == Some(q)
    {
      if i < |At(s, q)| {
        assert At(s', q)[i] == At(s, q)[i];
        TokenAt(At(s, q), i);
      }
    }
  }

  lemma OneIsDistinct(e: Parked)
    ensures Distinct([e]) && Tokens([e]) == {e.token}
  {
    assert [e][1..] == [];
  }

  /** What parking adds to the lists is the client that parks. */
  lemma ParkAdds(s: Server, s': Server, t: Token, p: Place, request: nat, q: Place)
    requires Placed(s) && Parks(s, s', t, p, request)
    ensures Tokens(At(s, q)) <= Tokens(At(s', q)) <= Tokens(At(s, q)) + {t}
    ensures Tokens(s.awaking) <= Tokens(s'.awaking)
    ensures t in Tokens(At(s', p)) + Tokens(s'.awaking)
    ensures Distinct(s'.awaking)
  {
    NotParked(s, t, p);
    TokensConcat(s.awaking, [Parked(t, request)]);
    TokensConcat(At(s, p), [Parked(t, request)]);
    OneIsDistinct(Parked(t, request));
    hide Distinct, Tokens, ChannelOk, ClientOk, At;
  }

  lemma ParkKeepsAwaking(s: Server, s': Server, t: Token, p: Place, request: nat)
    requires Placed(s) && Parks(s, s', t, p, request)
    ensures AwakingOk(s')
  {
    NotParked(s, t, p);
    ParkAdds(s, s', t, p, request, p);
    hide Distinct, Tokens, At;
    forall i | 0 <= i < |s'.awaking|
      ensures Backed(s', s'.awaking[i])
      ensures s'.awaking[i].token !in Tokens(At(s', s'.clients[s'.awaking[i].token].timeout.value))
    {
      if i < |s.awaking| {
        AwakingStays(s, s', t, p, request, i);
      }
    }
  }

  lemma AwakingStays(s: Server, s': Server, t: Token, p: Place, request: nat, i: nat)
    requires Placed(s) && Parks(s, s', t, p, request) && i < |s.awaking|
    ensures s'.awaking[i] == s.awaking[i] && Backed(s', s.awaking[i])
    ensures s.awaking[i].token !in Tokens(At(s', s'.clients[s.awaking[i].token].timeout.value))
  {
    var e := s.awaking[i];
    TokenAt(s.awaking, i);
    NotParked(s, t, p);
    assert Backed(s, e) && e.token != t;
    ParkAdds(s, s', t, p, request, s.clients[e.token].timeout.value);
    hide Distinct, Tokens, At;
  }

  lemma ParkKeepsClient(s: Server, s': Server, t: Token, p: Place, request: nat, u: Token)
    requires Placed(s) && Parks(s, s', t, p, request) && u in s'.clients
    ensures ClientOk(s', u)
  {
    assert ClientOk(s, u);
    ParkAdds(s, s', t, p, request, p);
    if s.clients[u].timeout.Some? {
      ParkAdds(s, s', t, p, request, s.clients[u].timeout.value);
    }
    hide Distinct, Tokens, At;
  }

  lemma ParkKeepsPlaced(s: Server, s': Server, t: Token, p: Place, request: nat)
    requires Placed(s) && Parks(s, s', t, p, request)
    ensures Placed(s')
  {
    hide Distinct, Tokens, AwakingOk, ChannelOk, ClientOk, At;
    ParkKeepsAwaking(s, s', t, p, request);
    forall q
      ensures ChannelOk(s', q)
    {
      ParkKeepsChannel(s, s', t, p, request, q);
    }
    forall u | u in s'.clients
      ensures ClientOk(s', u)
    {
      ParkKeepsClient(s, s', t, p, request, u);
    }
  }
}
