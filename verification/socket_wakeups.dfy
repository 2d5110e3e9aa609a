/** Runs of the socket layer: who listens, and in what order acceptors are woken. */
module SocketWakeups {
  import opened Wrappers
  import opened SocketConnect

  // ------------------------------------------------------------------ listening

  /** The backlog last asked for at l, and 0 if none was. */
  function LastListen(labels: seq<Label>, l: nat): nat {
    if labels == [] then 0
    else
      var a := labels[|labels| - 1];
      if a.DoListen? && a.l == l then a.capacity else LastListen(labels[..|labels| - 1], l)
  }

  function Capacity(net: Net, l: nat): nat {
    if l in net.sockets then net.sockets[l].capacity else 0
  }

  lemma StepCapacity(net: Net, a: Label, l: nat)
    requires Inv(net) && Enabled(net, a)
    ensures Capacity(Step(net, a), l) == if a.DoListen? && a.l == l then a.capacity else Capacity(net, l)
  {
    hide Inv, MayAsk;
  }

  /** A socket takes requests exactly when it was last told to listen with room for
      some: neither new sockets nor those that accepting makes do. */
  lemma {:induction false} RunListens(nets: seq<Net>, labels: seq<Label>, n: nat, l: nat)
    requires IsRun(nets, labels) && n <= |labels|
    ensures Capacity(nets[n], l) == LastListen(labels[..n], l)
  {
    hide Inv, Step, Enabled, Capacity;
    if n == 0 {
      NoneListens(l);
    } else {
      RunListens(nets, labels, n - 1, l);
      RunPairs(nets, labels, n - 1);
      assert Enabled(nets[n - 1], labels[n - 1]) && nets[n - 1 + 1] == Step(nets[n - 1], labels[n - 1]);
      StepCapacity(nets[n - 1], labels[n - 1], l);
      assert labels[..n][..n - 1] == labels[..n - 1] && labels[..n][n - 1] == labels[n - 1];
    }
  }

  lemma NoneListens(l: nat)
    ensures Capacity(Net(map[], map[], map[]), l) == 0
  {
  }

  // ------------------------------------------------------------------- acceptors

  function Asleep(net: Net, l: nat): seq<nat> {
    if l in net.sockets then net.sockets[l].arrived.waiters else []
  }

  function Roused(net: Net, l: nat): seq<nat> {
    if l in net.sockets then net.sockets[l].roused else []
  }

  /** Who finds no request at l and goes to sleep there. */
  ghost function FallsAsleep(net: Net, a: Label, l: nat): seq<nat>
    requires Enabled(net, a)
  {
    if a.DoAccept? && a.l == l && net.sockets[l].capacity > 0 && net.sockets[l].requests == [] then [a.who]
    else if a.DoResume? && a.l == l && net.sockets[l].requests == [] then [net.sockets[l].roused[a.i]]
    else []
  }

  /** Who has joined the acceptors woken at l. */
  function Joined(before: seq<nat>, after: seq<nat>): seq<nat> {
    if |after| > |before| then [after[|after| - 1]] else []
  }

  /** All who have gone to sleep at l in the first n steps, in order. */
  ghost function Sleepers(nets: seq<Net>, labels: seq<Label>, l: nat, n: nat): seq<nat>
    requires IsRun(nets, labels) && n <= |labels|
  {
    if n == 0 then []
    else
      assert Enabled(nets[n - 1], labels[n - 1]);
      Sleepers(nets, labels, l, n - 1) + FallsAsleep(nets[n - 1], labels[n - 1], l)
  }

  /** All who have been woken there, in order. */
  function Wakened(nets: seq<Net>, l: nat, n: nat): seq<nat>
    requires n < |nets|
  {
    if n == 0 then [] else Wakened(nets, l, n - 1) + Joined(Roused(nets[n - 1], l), Roused(nets[n], l))
  }

  /** The loop of an acceptor touches no other line, and its own only when it sleeps. */
  lemma AdmitLines(net: Net, l: nat, s: nat, who: nat, m: nat)
    requires l in net.sockets && s !in net.sockets
    ensures var n := Admit(net, l, s, who);
            && Roused(n, m) == Roused(net, m)
            && Asleep(n, m) == Asleep(net, m) + if m == l && net.sockets[l].requests == [] then [who] else []
  {
  }

  lemma ConnectLines(net: Net, s: nat, l: nat, m: nat)
    requires Inv(net) && l in net.sockets
    ensures var n := Connect(net, s, l);
            Asleep(net, m) == Joined(Roused(net, m), Roused(n, m)) + Asleep(n, m)
  {
    hide Orderly;
    if m == l && net.sockets[l].capacity > 0 { ConnectRouses(net, s, l); }
  }

  lemma StepWakes(net: Net, a: Label, l: nat)
    requires Inv(net) && Enabled(net, a)
    ensures var n := Step(net, a);
            Asleep(net, l) + FallsAsleep(net, a, l) == Joined(Roused(net, l), Roused(n, l)) + Asleep(n, l)
  {
    hide Inv, MayAsk, Connect, Admit;
    match a
    case DoCreate(_) =>
    case DoListen(_, _) =>
    case DoConnect(s, m) => ConnectLines(net, s, m, l);
    case DoAccept(m, s, who) => AdmitLines(net, m, s, who, l);
    case DoResume(m, i, s) => AdmitLines(Called(net, m, i), m, s, net.sockets[m].roused[i], l);
  }

  /** Acceptors are woken in the order in which they fell asleep: at every point those who
      have gone to sleep are those woken since, in the same order, and after them those
      still asleep. */
  lemma {:induction false} AcceptorsInOrder(nets: seq<Net>, labels: seq<Label>, l: nat, n: nat)
    requires IsRun(nets, labels) && n <= |labels|
    ensures Sleepers(nets, labels, l, n) == Wakened(nets, l, n) + Asleep(nets[n], l)
  {
    hide Inv, Step, Enabled, FallsAsleep, Joined, Roused, Asleep;
    if n == 0 {
      NoneAsleep(l);
    } else {
      AcceptorsInOrder(nets, labels, l, n - 1);
      RunPairs(nets, labels, n - 1);
      assert Enabled(nets[n - 1], labels[n - 1]) && nets[n - 1 + 1] == Step(nets[n - 1], labels[n - 1]);
      StepWakes(nets[n - 1], labels[n - 1], l);
      Regroup(Wakened(nets, l, n - 1), Asleep(nets[n - 1], l), FallsAsleep(nets[n - 1], labels[n - 1], l),
        Joined(Roused(nets[n - 1], l), Roused(nets[n], l)), Asleep(nets[n], l));
    }
  }

  lemma Regroup(a: seq<nat>, b: seq<nat>, c: seq<nat>, d: seq<nat>, e: seq<nat>)
    requires b + c == d + e
    ensures (a + b) + c == (a + d) + e
  {
    assert (a + b) + c == a + (b + c);
  }

  lemma NoneAsleep(l: nat)
    ensures Asleep(Net(map[], map[], map[]), l) == []
  {
  }

  /** While an acceptor sleeps, every request is another's to take, who has been woken
      and has not run yet; a request that nobody is woken for finds nobody asleep. */
  lemma NobodySleepsForARequest(nets: seq<Net>, labels: seq<Label>, l: nat, n: nat)
    requires IsRun(nets, labels) && n <= |labels| && l in nets[n].sockets
    ensures var from := nets[n].sockets[l];
            && (Asleep(nets[n], l) != [] ==> |from.requests| <= |Roused(nets[n], l)| && !from.arrived.signal)
            && (from.requests != [] && Roused(nets[n], l) == [] ==> Asleep(nets[n], l) == [])
  {
    hide Orderly, Step, Enabled;
    RunPairs(nets, labels, n);
    assert Attended(nets[n].sockets[l]);
  }
}
