/** Listening, connecting and accepting on UNIX sockets. A connector sleeps on its
    target's listener_accepted from the moment its request is queued. */
module SocketConnect {
  import opened Wrappers

  datatype Event = Event(signal: bool, waiters: seq<nat>)

  /** A socket: its backlog capacity (0: not listening), its requests, and the two
      events. The waiters of `accepted` are named by the connecting socket, those of
      `arrived` are acceptors, and `roused` are the acceptors woken and not run yet. */
  datatype Socket = Socket(capacity: nat, requests: seq<nat>, arrived: Event, roused: seq<nat>, accepted: Event,
                           peer: Option<nat>)

  /** `arrivals` and `served` record, for each listener, the connectors that have
      asked and those woken from their wait, in order. */
  datatype Net = Net(sockets: map<nat, Socket>, arrivals: map<nat, seq<nat>>, served: map<nat, seq<nat>>)

  const Silent: Event := Event(false, [])
  const NewSocket: Socket := Socket(0, [], Silent, [], Silent, None)

  /** event_invoke: wake the first waiter, or remember. */
  function Invoked(e: Event): Event {
    if e.waiters == [] then e.(signal := true) else e.(waiters := e.waiters[1..])
  }

  /** Whom event_invoke wakes, if anybody. */
  function Woken(e: Event): seq<nat> {
    if e.waiters == [] then [] else [e.waiters[0]]
  }

  /** scheduler_await: consume the signal, or wait. */
  function Awaited(e: Event, who: nat): Event {
    if e.signal then e.(signal := false) else e.(waiters := e.waiters + [who])
  }

  function Log(logs: map<nat, seq<nat>>, l: nat): seq<nat> {
    if l in logs then logs[l] else []
  }

  // ----------------------------------------------------------------- the steps

  /** unix_socket_init */
  function Create(net: Net, s: nat): Net {
    net.(sockets := net.sockets[s := NewSocket])
  }

  /** unix_socket_listen */
  function Listen(net: Net, l: nat, capacity: nat): Net
    requires l in net.sockets
  {
    net.(sockets := net.sockets[l := net.sockets[l].(requests := [], capacity := capacity)])
  }

  /** unix_socket_connect up to its wait, refused by a socket that is not listening.
      The size of the queue is never counted, so it is never full. */
  function Connect(net: Net, s: nat, l: nat): Net
    requires l in net.sockets
  {
    var target := net.sockets[l];
    if target.capacity == 0 then net
    else
      var asleep := Awaited(target.accepted, s);
      var busy := target.(requests := target.requests + [s], arrived := Invoked(target.arrived),
                          roused := target.roused + Woken(target.arrived), accepted := asleep);
      Net(net.sockets[l := busy],
          net.arrivals[l := Log(net.arrivals, l) + [s]],
          if target.accepted.signal then net.served[l := Log(net.served, l) + [s]] else net.served)
  }

  /** The loop of unix_socket_accept, run by thread `who` until it sleeps or returns; `s`
      is the name of the socket it makes. */
  function Admit(net: Net, l: nat, s: nat, who: nat): Net
    requires l in net.sockets
  {
    var from := net.sockets[l];
    if from.requests == [] then
      net.(sockets := net.sockets[l := from.(arrived := Event(false, from.arrived.waiters + [who]))])
    else
      var r := from.requests[0];
      var listener := from.(requests := from.requests[1..], accepted := Invoked(from.accepted));
      var sockets := net.sockets[l := listener][s := NewSocket.(peer := Some(r))];
      Net(if r in sockets then sockets[r := sockets[r].(peer := Some(s))] else sockets,
          net.arrivals,
          if from.accepted.waiters != [] then net.served[l := Log(net.served, l) + [from.accepted.waiters[0]]]
          else net.served)
  }

  /** unix_socket_accept */
  function Accept(net: Net, l: nat, s: nat, who: nat): Net
    requires l in net.sockets
  {
    if net.sockets[l].capacity == 0 then net else Admit(net, l, s, who)
  }

  /** An acceptor taken off those that were woken. */
  function Called(net: Net, l: nat, i: nat): Net
    requires l in net.sockets && i < |net.sockets[l].roused|
  {
    var from := net.sockets[l];
    net.(sockets := net.sockets[l := from.(roused := from.roused[..i] + from.roused[i + 1..])])
  }

  /** A woken acceptor goes on with its loop. */
  function Resume(net: Net, l: nat, i: nat, s: nat): Net
    requires l in net.sockets && i < |net.sockets[l].roused|
  {
    Admit(Called(net, l, i), l, s, net.sockets[l].roused[i])
  }

  // ---------------------------------------------------------------- invariants

  /** Who waits for a listener are those whose requests it holds, in that order, and
      they have come in the order in which they are served. */
  ghost predicate Aligned(net: Net, l: nat)
    requires l in net.sockets
  {
    && !net.sockets[l].accepted.signal && net.sockets[l].accepted.waiters == net.sockets[l].requests
    && Log(net.arrivals, l) == Log(net.served, l) + net.sockets[l].requests
  }

  predicate Paired(sockets: map<nat, Socket>, s: nat)
    requires s in sockets
  {
    sockets[s].peer.Some? ==>
      var p := sockets[s].peer.value;
      p != s && p in sockets && sockets[p].peer == Some(s)
  }

  /** A request names an unconnected socket, and no other request names it. */
  ghost predicate RequestOk(sockets: map<nat, Socket>, l: nat, i: nat)
    requires l in sockets && i < |sockets[l].requests|
  {
    var r := sockets[l].requests[i];
    && r in sockets && sockets[r].peer.None?
    && forall m, j :: m in sockets && 0 <= j < |sockets[m].requests| && sockets[m].requests[j] == r ==> m == l && j == i
  }

  ghost predicate Symmetric(sockets: map<nat, Socket>) {
    forall s :: s in sockets ==> Paired(sockets, s)
  }

  /** Who has come is served in order, and whoever is connected is connected to the one
      connected to it. */
  ghost predicate Orderly(net: Net) {
    && (forall l :: l in net.sockets ==> Aligned(net, l))
    && Symmetric(net.sockets)
    && (forall l, i :: l in net.sockets && 0 <= i < |net.sockets[l].requests| ==> RequestOk(net.sockets, l, i))
    && (forall l :: l !in net.sockets ==> Log(net.arrivals, l) == [] && Log(net.served, l) == [])
  }

  /** No acceptor sleeps for a request that is there, save those that acceptors already
      woken will take: while one sleeps, the requests are no more than these. A signal
      stands only while nobody sleeps. */
  predicate Attended(from: Socket) {
    && (from.arrived.signal ==> from.arrived.waiters == [])
    && (from.arrived.waiters != [] ==> |from.requests| <= |from.roused|)
  }

  ghost predicate Inv(net: Net) {
    Orderly(net) && forall l :: l in net.sockets ==> Attended(net.sockets[l])
  }

  predicate Waits(net: Net, s: nat) {
    exists l, i :: l in net.sockets && 0 <= i < |net.sockets[l].requests| && net.sockets[l].requests[i] == s
  }

  lemma CreateOrderly(net: Net, s: nat)
    requires Orderly(net) && s !in net.sockets
    ensures Orderly(Create(net, s))
  {
    var n := Create(net, s);
    forall x | x in n.sockets ensures Aligned(n, x) && Paired(n.sockets, x) {
      if x != s { assert Aligned(net, x) && Paired(net.sockets, x); }
    }
    forall l, i | l in n.sockets && 0 <= i < |n.sockets[l].requests| ensures RequestOk(n.sockets, l, i) {
      assert RequestOk(net.sockets, l, i);
    }
  }

  lemma ListenOrderly(net: Net, l: nat, capacity: nat)
    requires Orderly(net) && l in net.sockets
    ensures Orderly(Listen(net, l, capacity)) <==> net.sockets[l].requests == []
  {
    var n := Listen(net, l, capacity);
    assert Aligned(net, l);
    if net.sockets[l].requests == [] {
      forall x | x in n.sockets
        ensures Aligned(n, x) && Paired(n.sockets, x)
      {
        assert Aligned(net, x) && Paired(net.sockets, x);
      }
      forall m, i | m in n.sockets && 0 <= i < |n.sockets[m].requests| ensures RequestOk(n.sockets, m, i) {
        assert RequestOk(net.sockets, m, i);
      }
    } else {
      assert !Aligned(n, l);
    }
  }

  /** Who may ask: a socket that is not connected and not already asking. */
  ghost predicate MayAsk(net: Net, s: nat) {
    s in net.sockets && net.sockets[s].peer.None? && !Waits(net, s)
  }

  lemma ConnectOrderly(net: Net, s: nat, l: nat)
    requires Orderly(net) && l in net.sockets
    ensures Orderly(Connect(net, s, l)) <==> net.sockets[l].capacity == 0 || MayAsk(net, s)
  {
    hide Orderly, Waits;
    if MayAsk(net, s) {
      ConnectKeeps(net, s, l);
    } else if net.sockets[l].capacity > 0 {
      ConnectBreaks(net, s, l);
    }
  }

  lemma ConnectBreaks(net: Net, s: nat, l: nat)
    requires Orderly(net) && l in net.sockets && net.sockets[l].capacity > 0 && !MayAsk(net, s)
    ensures !Orderly(Connect(net, s, l))
  {
    hide Aligned, Symmetric;
    var n, last := Connect(net, s, l), |net.sockets[l].requests|;
    assert n.sockets[l].requests == net.sockets[l].requests + [s] && n.sockets[l].requests[last] == s;
    if Waits(net, s) {
      var m, i :| m in net.sockets && 0 <= i < |net.sockets[m].requests| && net.sockets[m].requests[i] == s;
      assert n.sockets[m].requests[i] == s;
      assert !(m == l && i == last);
    }
    assert !RequestOk(n.sockets, l, last);
  }

  lemma ConnectKeeps(net: Net, s: nat, l: nat)
    requires Orderly(net) && l in net.sockets && MayAsk(net, s)
    ensures Orderly(Connect(net, s, l))
  {
    hide RequestOk, Waits, Aligned, Paired, Connect;
    var n := Connect(net, s, l);
    SameNames(net, s, l);
    forall x | x in n.sockets ensures Aligned(n, x) && Paired(n.sockets, x) { ConnectEach(net, s, l, x); }
    forall m, i | m in n.sockets && 0 <= i < |n.sockets[m].requests| ensures RequestOk(n.sockets, m, i) {
      ConnectRequest(net, s, l, m, i);
    }
    Newcomers(net, s, l);
  }

  lemma SameNames(net: Net, s: nat, l: nat)
    requires l in net.sockets
    ensures Connect(net, s, l).sockets.Keys == net.sockets.Keys
  {
  }

  lemma ConnectEach(net: Net, s: nat, l: nat, x: nat)
    requires Orderly(net) && l in net.sockets && x in net.sockets
    ensures var n := Connect(net, s, l); x in n.sockets && Aligned(n, x) && Paired(n.sockets, x)
  {
    hide RequestOk;
    assert Aligned(net, x) && Paired(net.sockets, x);
    ConnectPairs(net.sockets, Connect(net, s, l).sockets, x);
  }

  /** Pairing is a matter of peers alone. */
  lemma ConnectPairs(sockets: map<nat, Socket>, sockets': map<nat, Socket>, x: nat)
    requires x in sockets && Paired(sockets, x) && sockets'.Keys == sockets.Keys
    requires forall m :: m in sockets ==> sockets'[m].peer == sockets[m].peer
    ensures Paired(sockets', x)
  {
  }

  lemma Newcomers(net: Net, s: nat, l: nat)
    requires Orderly(net) && l in net.sockets
    ensures var n := Connect(net, s, l);
            forall m :: m !in n.sockets ==> Log(n.arrivals, m) == [] && Log(n.served, m) == []
  {
    hide RequestOk, Aligned, Symmetric;
  }

  lemma ConnectRequest(net: Net, s: nat, l: nat, m: nat, i: nat)
    requires Orderly(net) && l in net.sockets && MayAsk(net, s)
    requires var n := Connect(net, s, l); m in n.sockets && i < |n.sockets[m].requests|
    ensures RequestOk(Connect(net, s, l).sockets, m, i)
  {
    hide Aligned, Symmetric;
    if i < |net.sockets[m].requests| { assert RequestOk(net.sockets, m, i); }
  }

  lemma AdmitAligned(net: Net, l: nat, s: nat, who: nat, x: nat)
    requires Orderly(net) && l in net.sockets && s !in net.sockets && x in Admit(net, l, s, who).sockets
    ensures Aligned(Admit(net, l, s, who), x)
  {
    hide Symmetric, RequestOk;
    assert Aligned(net, l);
    var q := net.sockets[l].requests;
    if x == l {
      if q != [] { HeadServed(Log(net.served, l), q); }
    } else if x != s {
      assert Aligned(net, x);
    }
  }

  lemma HeadServed(served: seq<nat>, q: seq<nat>)
    requires q != []
    ensures served + [q[0]] + q[1..] == served + q
  {
    assert q == [q[0]] + q[1..];
  }

  /** Serving r at l: its request goes, and only r and the new socket s get peers. */
  ghost predicate OneServed(sockets: map<nat, Socket>, sockets': map<nat, Socket>, l: nat, s: nat, r: nat)
    requires l in sockets
  {
    && sockets'.Keys == sockets.Keys + {s} && s !in sockets && sockets'[s].requests == []
    && sockets[l].requests != [] && sockets[l].requests[0] == r
    && (forall m :: m in sockets ==>
          sockets'[m].requests == if m == l then sockets[l].requests[1..] else sockets[m].requests)
    && (forall m :: m in sockets && m != r ==> sockets'[m].peer == sockets[m].peer)
  }

  lemma AdmitShape(net: Net, l: nat, s: nat, who: nat)
    requires l in net.sockets && s !in net.sockets && net.sockets[l].requests != []
    requires net.sockets[l].requests[0] in net.sockets
    ensures OneServed(net.sockets, Admit(net, l, s, who).sockets, l, s, net.sockets[l].requests[0])
  {
  }

  lemma ServedRequest(sockets: map<nat, Socket>, sockets': map<nat, Socket>, l: nat, s: nat, r: nat, m: nat, i: nat)
    requires l in sockets && OneServed(sockets, sockets', l, s, r) && m in sockets' && i < |sockets'[m].requests|
    requires RequestOk(sockets, l, 0) && m in sockets
    requires RequestOk(sockets, m, if m == l then i + 1 else i)
    ensures RequestOk(sockets', m, i)
  {
    var x := sockets'[m].requests[i];
    forall k, j | k in sockets' && 0 <= j < |sockets'[k].requests| && sockets'[k].requests[j] == x
      ensures k == m && j == i
    {
      assert k in sockets && sockets[k].requests[if k == l then j + 1 else j] == x;
    }
  }

  lemma AdmitRequest(net: Net, l: nat, s: nat, who: nat, m: nat, i: nat)
    requires Orderly(net) && l in net.sockets && s !in net.sockets
    requires var n := Admit(net, l, s, who); m in n.sockets && i < |n.sockets[m].requests|
    ensures RequestOk(Admit(net, l, s, who).sockets, m, i)
  {
    hide Aligned, Symmetric;
    var from := net.sockets[l];
    if from.requests != [] {
      assert RequestOk(net.sockets, l, 0);
      RequestServed(net, l, s, who, m, i);
    } else {
      AdmitIdle(net, l, s, who, m, i);
    }
  }

  lemma RequestServed(net: Net, l: nat, s: nat, who: nat, m: nat, i: nat)
    requires Orderly(net) && l in net.sockets && s !in net.sockets
    requires net.sockets[l].requests != [] && RequestOk(net.sockets, l, 0)
    requires var n := Admit(net, l, s, who); m in n.sockets && i < |n.sockets[m].requests|
    ensures RequestOk(Admit(net, l, s, who).sockets, m, i)
  {
    hide Aligned, Symmetric, Admit;
    AdmitShape(net, l, s, who);
    var j := if m == l then i + 1 else i;
    assert RequestOk(net.sockets, m, j);
    ServedRequest(net.sockets, Admit(net, l, s, who).sockets, l, s, net.sockets[l].requests[0], m, i);
  }

  lemma AdmitIdle(net: Net, l: nat, s: nat, who: nat, m: nat, i: nat)
    requires Orderly(net) && l in net.sockets && net.sockets[l].requests == []
    requires var n := Admit(net, l, s, who); m in n.sockets && i < |n.sockets[m].requests|
    ensures RequestOk(Admit(net, l, s, who).sockets, m, i)
  {
    hide Aligned, Symmetric;
    assert RequestOk(net.sockets, m, i);
  }

  /** One turn of the loop: the oldest request is served, the very socket that made it is
      woken, and the two ends are each other's peers. */
  lemma AdmitOk(net: Net, l: nat, s: nat, who: nat)
    requires Orderly(net) && l in net.sockets && s !in net.sockets
    ensures Orderly(Admit(net, l, s, who))
    ensures net.sockets[l].requests != [] ==>
              var r := net.sockets[l].requests[0]; var n := Admit(net, l, s, who);
              Log(n.served, l) == Log(net.served, l) + [r] && r in n.sockets
              && n.sockets[r].peer == Some(s) && s in n.sockets && n.sockets[s].peer == Some(r)
  {
    var n := Admit(net, l, s, who);
    assert Aligned(net, l);
    if net.sockets[l].requests != [] { assert RequestOk(net.sockets, l, 0); }
    forall x | x in n.sockets ensures Aligned(n, x) && Paired(n.sockets, x) {
      AdmitAligned(net, l, s, who, x);
      if x != s { assert Paired(net.sockets, x); }
    }
    forall m, i | m in n.sockets && 0 <= i < |n.sockets[m].requests| ensures RequestOk(n.sockets, m, i) {
      AdmitRequest(net, l, s, who, m, i);
    }
  }

  /** Accepting a request keeps pairing symmetric exactly when its socket was not
      connected. */
  lemma AcceptPairs(net: Net, l: nat, s: nat, who: nat)
    requires Symmetric(net.sockets) && l in net.sockets && s !in net.sockets
    requires net.sockets[l].requests != [] && net.sockets[l].requests[0] in net.sockets
    ensures Symmetric(Admit(net, l, s, who).sockets) <==> net.sockets[net.sockets[l].requests[0]].peer.None?
  {
    var r, n := net.sockets[l].requests[0], Admit(net, l, s, who);
    assert Paired(net.sockets, r);
    if net.sockets[r].peer.None? {
      forall x | x in n.sockets ensures Paired(n.sockets, x) { if x != s { assert Paired(net.sockets, x); } }
    } else {
      assert !Paired(n.sockets, net.sockets[r].peer.value);
    }
  }

  // ------------------------------------------------------ order and wake-ups together

  lemma CreateOk(net: Net, s: nat)
    requires Inv(net) && s !in net.sockets
    ensures Inv(Create(net, s))
  {
    hide Orderly;
    CreateOrderly(net, s);
  }

  /** Listening again drops the requests but not the sleepers: it keeps order
      exactly when there is nobody to drop. */
  lemma ListenOk(net: Net, l: nat, capacity: nat)
    requires Inv(net) && l in net.sockets
    ensures Inv(Listen(net, l, capacity)) <==> net.sockets[l].requests == []
  {
    hide Orderly;
    ListenOrderly(net, l, capacity);
  }

  /** Asking a listening socket keeps order and pairing exactly for a socket that may
      ask; it never leaves an acceptor asleep that could take the request. */
  lemma ConnectOk(net: Net, s: nat, l: nat)
    requires Inv(net) && l in net.sockets
    ensures Inv(Connect(net, s, l)) <==> net.sockets[l].capacity == 0 || MayAsk(net, s)
    ensures forall m :: m in net.sockets ==>
              m in Connect(net, s, l).sockets && Attended(Connect(net, s, l).sockets[m])
  {
    hide Orderly, MayAsk;
    ConnectOrderly(net, s, l);
  }

  lemma ConnectIs(net: Net, s: nat, l: nat)
    requires l in net.sockets && !net.sockets[l].accepted.signal
    ensures var from := net.sockets[l]; var n := Connect(net, s, l);
            if from.capacity == 0 then n == net
            else n == Net(net.sockets[l := Socket(from.capacity, from.requests + [s], Invoked(from.arrived),
                                                  from.roused + Woken(from.arrived), Awaited(from.accepted, s),
                                                  from.peer)],
                          net.arrivals[l := Log(net.arrivals, l) + [s]], net.served)
  {
  }

  /** A request on a listening socket wakes the acceptor that has slept longest; with
      nobody asleep it leaves a signal. */
  lemma ConnectRouses(net: Net, s: nat, l: nat)
    requires Inv(net) && l in net.sockets && net.sockets[l].capacity > 0
    ensures l in Connect(net, s, l).sockets
    ensures var from, busy := net.sockets[l], Connect(net, s, l).sockets[l];
            && busy.requests == from.requests + [s] && busy.capacity == from.capacity && busy.peer == from.peer
            && if from.arrived.waiters == [] then busy.arrived == Event(true, []) && busy.roused == from.roused
               else busy.arrived == Event(false, from.arrived.waiters[1..])
                    && busy.roused == from.roused + [from.arrived.waiters[0]]
  {
    assert Attended(net.sockets[l]);
  }

  /** A turn of the loop leaves nobody asleep for a request, even when it is taken by the
      acceptor that was woken for another. */
  lemma AdmitAttended(net: Net, l: nat, s: nat, who: nat, x: nat)
    requires l in net.sockets && s !in net.sockets && x in Admit(net, l, s, who).sockets
    requires var from := net.sockets[l];
             && (from.arrived.signal ==> from.arrived.waiters == [])
             && (from.arrived.waiters != [] ==> |from.requests| <= |from.roused| + 1)
    requires x in net.sockets && x != l ==> Attended(net.sockets[x])
    ensures Attended(Admit(net, l, s, who).sockets[x])
  {
  }

  /** Accepting serves the oldest request, wakes the very socket that made it, and
      leaves the two ends each other's peers. */
  lemma AcceptOk(net: Net, l: nat, s: nat, who: nat)
    requires Inv(net) && l in net.sockets && s !in net.sockets
    ensures Inv(Accept(net, l, s, who))
    ensures net.sockets[l].capacity > 0 && net.sockets[l].requests != [] ==>
              var r := net.sockets[l].requests[0]; var n := Accept(net, l, s, who);
              Log(n.served, l) == Log(net.served, l) + [r] && r in n.sockets
              && n.sockets[r].peer == Some(s) && s in n.sockets && n.sockets[s].peer == Some(r)
  {
    hide Orderly, Admit;
    if net.sockets[l].capacity > 0 {
      AdmitOk(net, l, s, who);
      assert Attended(net.sockets[l]);
      forall x | x in Admit(net, l, s, who).sockets ensures Attended(Admit(net, l, s, who).sockets[x]) {
        AdmitAttended(net, l, s, who, x);
      }
    }
  }

  /** So does a woken acceptor that runs again. */
  lemma ResumeOk(net: Net, l: nat, i: nat, s: nat)
    requires Inv(net) && l in net.sockets && i < |net.sockets[l].roused| && s !in net.sockets
    ensures Inv(Resume(net, l, i, s))
    ensures net.sockets[l].requests != [] ==>
              var r := net.sockets[l].requests[0]; var n := Resume(net, l, i, s);
              Log(n.served, l) == Log(net.served, l) + [r] && r in n.sockets
              && n.sockets[r].peer == Some(s) && s in n.sockets && n.sockets[s].peer == Some(r)
  {
    hide Orderly, Admit;
    var m, who := Called(net, l, i), net.sockets[l].roused[i];
    CalledOrderly(net, l, i);
    AdmitOk(m, l, s, who);
    assert Attended(net.sockets[l]);
    forall x | x in Admit(m, l, s, who).sockets ensures Attended(Admit(m, l, s, who).sockets[x]) {
      AdmitAttended(m, l, s, who, x);
    }
  }

  lemma CalledOrderly(net: Net, l: nat, i: nat)
    requires Orderly(net) && l in net.sockets && i < |net.sockets[l].roused|
    ensures Orderly(Called(net, l, i))
  {
    var n := Called(net, l, i);
    forall x | x in n.sockets ensures Aligned(n, x) && Paired(n.sockets, x) {
      assert Aligned(net, x) && Paired(net.sockets, x);
    }
    forall m, j | m in n.sockets && 0 <= j < |n.sockets[m].requests| ensures RequestOk(n.sockets, m, j) {
      assert RequestOk(net.sockets, m, j);
    }
  }

  // ----------------------------------------------------------------- whole runs

  datatype Label =
    | DoCreate(s: nat)
    | DoListen(l: nat, capacity: nat)
    | DoConnect(s: nat, l: nat)
    | DoAccept(l: nat, s: nat, who: nat)
    | DoResume(l: nat, i: nat, s: nat)

  /** Listening begins with no requests, connectors are unconnected and not waiting. */
  ghost predicate Enabled(net: Net, a: Label) {
    match a
    case DoCreate(s) => s !in net.sockets
    case DoListen(l, capacity) => l in net.sockets && net.sockets[l].requests == []
    case DoConnect(s, l) => l in net.sockets && MayAsk(net, s)
    case DoAccept(l, s, who) => l in net.sockets && s !in net.sockets
    case DoResume(l, i, s) => l in net.sockets && i < |net.sockets[l].roused| && s !in net.sockets
  }

  ghost function Step(net: Net, a: Label): Net
    requires Enabled(net, a)
  {
    match a
    case DoCreate(s) => Create(net, s)
    case DoListen(l, capacity) => Listen(net, l, capacity)
    case DoConnect(s, l) => Connect(net, s, l)
    case DoAccept(l, s, who) => Accept(net, l, s, who)
    case DoResume(l, i, s) => Resume(net, l, i, s)
  }

  ghost predicate IsRun(nets: seq<Net>, labels: seq<Label>) {
    && |nets| == |labels| + 1 && nets[0] == Net(map[], map[], map[])
    && forall i :: 0 <= i < |labels| ==> Enabled(nets[i], labels[i]) && nets[i + 1] == Step(nets[i], labels[i])
  }

  lemma StepOk(net: Net, a: Label)
    requires Inv(net) && Enabled(net, a)
    ensures Inv(Step(net, a))
  {
    hide Inv, MayAsk;
    match a
    case DoCreate(s) => CreateOk(net, s);
    case DoListen(l, capacity) => ListenOk(net, l, capacity);
    case DoConnect(s, l) => ConnectOk(net, s, l);
    case DoAccept(l, s, who) => AcceptOk(net, l, s, who);
    case DoResume(l, i, s) => ResumeOk(net, l, i, s);
  }

  /** In every run: first come first served at every listener, whoever is woken is
      whoever was accepted, pairing is symmetric, and no acceptor sleeps for a request
      that is not another's to take. */
  lemma {:induction false} RunPairs(nets: seq<Net>, labels: seq<Label>, n: nat)
    requires IsRun(nets, labels) && n < |nets|
    ensures Inv(nets[n])
  {
    hide Inv, Step, Enabled;
    if n == 0 {
      EmptyOk();
    } else {
      RunPairs(nets, labels, n - 1);
      assert Enabled(nets[n - 1], labels[n - 1]) && nets[n] == Step(nets[n - 1], labels[n - 1]);
      StepOk(nets[n - 1], labels[n - 1]);
    }
  }

  lemma EmptyOk()
    ensures Inv(Net(map[], map[], map[]))
  {
  }

  // ------------------------------------------------------------- the real thing

  datatype AcceptResult = Invalid | Asleep | Served(s: nat)

  function Signalled(sockets: map<nat, Socket>, l: nat, signal: bool): map<nat, Socket>
    requires l in sockets
  {
    sockets[l := sockets[l].(arrived := sockets[l].arrived.(signal := signal))]
  }

  class SocketLayer {
    var sockets: map<nat, Socket>
    ghost var arrivals: map<nat, seq<nat>>
    ghost var served: map<nat, seq<nat>>

    ghost function Now(): Net
      reads this
    {
      Net(sockets, arrivals, served)
    }

    constructor ()
      ensures Now() == Net(map[], map[], map[]) && Inv(Now())
    {
      sockets, arrivals, served := map[], map[], map[];
    }

    method CreateSocket(s: nat)
      requires Inv(Now()) && s !in sockets
      modifies this
      ensures Now() == Create(old(Now()), s) && Inv(Now())
    {
      CreateOk(Now(), s);
      sockets := sockets[s := NewSocket];
    }

    /** false is ECONNREFUSED. Anyone may call it; order and pairing stay exactly when
        it is refused or the caller may ask. The acceptor that has slept longest is
        woken, or a signal is left for the next. */
    method ConnectTo(s: nat, l: nat) returns (asked: bool)
      requires Inv(Now()) && l in sockets
      modifies this
      ensures Now() == Connect(old(Now()), s, l) && asked == (old(sockets)[l].capacity != 0)
      ensures Inv(Now()) <==> !asked || old(MayAsk(Now(), s))
      ensures l in sockets
      ensures asked ==> var asleep := old(sockets)[l].arrived.waiters;
                        if asleep == [] then sockets[l].arrived.signal
                        else sockets[l].roused == old(sockets)[l].roused + [asleep[0]]
                             && sockets[l].arrived.waiters == asleep[1..]
    {
      hide Inv, Waits, MayAsk, Invoked, Awaited, Woken, Log, Attended, Connect;
      ConnectOk(Now(), s, l);
      Settled(Now());
      Calm(Now(), l);
      ConnectIs(Now(), s, l);
      if sockets[l].capacity == 0 { return false; }
      ConnectRouses(Now(), s, l);
      var target := sockets[l];
      target := target.(requests := target.requests + [s]);
      target := target.(roused := target.roused + Woken(target.arrived), arrived := Invoked(target.arrived));
      target := target.(accepted := Awaited(target.accepted, s));
      sockets := sockets[l := target];
      arrivals := arrivals[l := Log(arrivals, l) + [s]];
      assert Now() == Connect(old(Now()), s, l);
      return true;
    }

    /** Listen on a socket: order stays exactly when no request is pending. */
    method ListenOn(l: nat, capacity: nat)
      requires Inv(Now()) && l in sockets
      modifies this
      ensures Now() == Listen(old(Now()), l, capacity)
      ensures Inv(Now()) <==> old(sockets)[l].requests == []
    {
      hide Inv;
      ListenOk(Now(), l, capacity);
      sockets := sockets[l := sockets[l].(requests := [], capacity := capacity)];
    }

    /** EINVAL on a socket that does not listen, asleep while nobody has asked, and
        otherwise a new socket for the first request. */
    method AcceptOn(l: nat, s: nat, who: nat) returns (r: AcceptResult)
      requires Inv(Now()) && l in sockets && s !in sockets
      modifies this
      ensures Now() == Accept(old(Now()), l, s, who) && Inv(Now())
      ensures r.Invalid? <==> old(sockets)[l].capacity == 0
      ensures r.Asleep? <==> old(sockets)[l].capacity != 0 && old(sockets)[l].requests == []
      ensures r.Served? ==> r.s == s && s in sockets && sockets[s].peer == Some(old(sockets)[l].requests[0])
    {
      hide Inv, Admit;
      AcceptOk(Now(), l, s, who);
      Settled(Now());
      Peers(Now(), l, s, who);
      if sockets[l].capacity == 0 { return Invalid; }
      r := Loop(l, s, who);
    }

    /** An acceptor that was woken goes on with its loop, without looking at the capacity
        again. */
    method ResumeAccept(l: nat, i: nat, s: nat) returns (r: AcceptResult)
      requires Inv(Now()) && l in sockets && i < |sockets[l].roused| && s !in sockets
      modifies this
      ensures Now() == Resume(old(Now()), l, i, s) && Inv(Now())
      ensures !r.Invalid? && (r.Asleep? <==> old(sockets)[l].requests == [])
      ensures r.Served? ==> r.s == s && s in sockets && sockets[s].peer == Some(old(sockets)[l].requests[0])
    {
      hide Orderly, Admit;
      var who := sockets[l].roused[i];
      ResumeOk(Now(), l, i, s);
      Settled(Now());
      CalledOrderly(Now(), l, i);
      Peers(Called(Now(), l, i), l, s, who);
      sockets := sockets[l := sockets[l].(roused := sockets[l].roused[..i] + sockets[l].roused[i + 1..])];
      assert Now() == Called(old(Now()), l, i);
      r := Loop(l, s, who);
    }

    /** The loop of unix_socket_accept. */
    method Loop(l: nat, s: nat, who: nat) returns (r: AcceptResult)
      requires Orderly(Now()) && l in sockets && s !in sockets
      modifies this
      ensures Now() == Admit(old(Now()), l, s, who)
      ensures !r.Invalid? && (r.Asleep? <==> old(sockets)[l].requests == []) && (r.Served? ==> r.s == s)
    {
      hide Orderly;
      while sockets[l].requests == []
        invariant l in sockets && s !in sockets && arrivals == old(arrivals) && served == old(served)
        invariant sockets == Signalled(old(sockets), l, sockets[l].arrived.signal)
        invariant sockets[l].requests != [] ==> sockets == old(sockets)
        decreases sockets[l].arrived.signal
      {
        if !sockets[l].arrived.signal {
          sockets := sockets[l := sockets[l].(arrived := Event(false, sockets[l].arrived.waiters + [who]))];
          assert Now() == Admit(old(Now()), l, s, who);
          return Asleep;
        }
        sockets := sockets[l := sockets[l].(arrived := sockets[l].arrived.(signal := false))];
      }
      Serve(l, s, who);
      return Served(s);
    }

    /** unix_socket_accept once there is a request. */
    method Serve(l: nat, s: nat, ghost who: nat)
      requires Orderly(Now()) && l in sockets && s !in sockets && sockets[l].requests != []
      modifies this
      ensures Now() == Admit(old(Now()), l, s, who)
    {
      hide Orderly;
      ghost var was := sockets;
      Calm(Now(), l);
      var requester := sockets[l].requests[0];
      AdmitIs(Now(), l, s, who);
      served := served[l := Log(served, l) + [requester]];
      sockets := sockets[l := sockets[l].(requests := sockets[l].requests[1..])];
      sockets := sockets[s := NewSocket.(peer := Some(requester))];
      sockets := sockets[requester := sockets[requester].(peer := Some(s))];
      sockets := sockets[l := sockets[l].(accepted := Invoked(sockets[l].accepted))];
      ServeOrder(was, l, s, requester);
    }
  }

  /** The socket table after a request has been served, in one piece. */
  function Served(sockets: map<nat, Socket>, l: nat, s: nat, r: nat): map<nat, Socket>
    requires l in sockets && sockets[l].requests != []
  {
    var from := sockets[l];
    var listener := from.(requests := from.requests[1..], accepted := Invoked(from.accepted));
    var more := sockets[l := listener][s := NewSocket.(peer := Some(r))];
    if r in more then more[r := more[r].(peer := Some(s))] else more
  }

  lemma AdmitIs(net: Net, l: nat, s: nat, who: nat)
    requires l in net.sockets && net.sockets[l].requests != []
    requires net.sockets[l].accepted.waiters == net.sockets[l].requests
    ensures var r := net.sockets[l].requests[0];
            Admit(net, l, s, who) ==
              Net(Served(net.sockets, l, s, r), net.arrivals, net.served[l := Log(net.served, l) + [r]])
  {
  }

  /** The order in which the assignments are made does not matter. */
  lemma ServeOrder(sockets: map<nat, Socket>, l: nat, s: nat, r: nat)
    requires l in sockets && s !in sockets && r in sockets && sockets[l].requests != []
    ensures var a := sockets[l := sockets[l].(requests := sockets[l].requests[1..])];
            var b := a[s := NewSocket.(peer := Some(r))];
            var c := b[r := b[r].(peer := Some(s))];
            c[l := c[l].(accepted := Invoked(c[l].accepted))] == Served(sockets, l, s, r)
  {
    var a := sockets[l := sockets[l].(requests := sockets[l].requests[1..])];
    var b := a[s := NewSocket.(peer := Some(r))];
    var c := b[r := b[r].(peer := Some(s))];
    var d, e := c[l := c[l].(accepted := Invoked(c[l].accepted))], Served(sockets, l, s, r);
    assert d.Keys == e.Keys;
    assert d[l] == e[l] && d[s] == e[s] && d[r] == e[r];
    assert forall x :: x in sockets && x != l && x != r ==> d[x] == sockets[x] && e[x] == sockets[x];
  }

  /** A listener holds no signal, its first sleeper made its first request, and that
      one exists. */
  lemma Calm(net: Net, l: nat)
    requires Orderly(net) && l in net.sockets
    ensures !net.sockets[l].accepted.signal && net.sockets[l].accepted.waiters == net.sockets[l].requests
    ensures net.sockets[l].requests != [] ==> net.sockets[l].requests[0] in net.sockets
  {
    assert Aligned(net, l);
    if net.sockets[l].requests != [] { assert RequestOk(net.sockets, l, 0); }
  }

  lemma Settled(net: Net)
    requires Inv(net)
    ensures Orderly(net)
  {
  }

  lemma Peers(net: Net, l: nat, s: nat, who: nat)
    requires Orderly(net) && l in net.sockets && s !in net.sockets
    ensures net.sockets[l].requests != [] ==>
              var n := Admit(net, l, s, who);
              s in n.sockets && n.sockets[s].peer == Some(net.sockets[l].requests[0])
  {
    hide Orderly, Admit;
    AdmitOk(net, l, s, who);
  }
}
