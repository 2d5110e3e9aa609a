/** What each call of the scheduler does to the whole state, given the invariant. */
module SchedEffects {
  import opened Wrappers
  import opened SchedState
  import opened SchedSteps

  /** Thread t with its status changed, and added at the back of its queue. */
  predicate SentToBack(s: Sched, n: Sched, t: nat) {
    && t in s.threads && t in n.threads && s.threads[t].priority < |s.queues|
    && var p := s.threads[t].priority;
    && t !in s.queues[p] && n.queues == s.queues[p := s.queues[p] + [t]]
  }

  /** A user thread on the core makes a call: it waits, its twin, which was stopped,
      runs and is last in its own queue, and the core is free. Nothing else changes. */
  lemma StartTwinEffect(s: Sched)
    requires Inv(s) && s.current.Some? && s.threads[s.current.value].level == User
    requires s.threads[s.current.value].status == Running
    ensures s.threads[s.current.value].twin.Some?
    ensures var t := s.current.value; var k := s.threads[t].twin.value; var n := StartTwin(s);
            && k != t && k in s.threads && s.threads[k].status == Stopped
            && n.threads == s.threads[t := s.threads[t].(status := Waiting)][k := s.threads[k].(status := Running)]
            && SentToBack(s, n, k) && n.current == None && n.events == s.events
  {
    var t := s.current.value;
    assert ThreadOk(s, t);
    assert ThreadOk(s, s.threads[t].twin.value);
  }

  /** The twin on the core returns: it is stopped, the core is free, and its user thread
      is last in its own queue, running again unless it was killed meanwhile. */
  lemma ReturnTwinEffect(s: Sched)
    requires Inv(s) && s.current.Some? && s.threads[s.current.value].level == Kernel
    requires s.threads[s.current.value].twin.Some?
    ensures var k := s.current.value; var t := s.threads[k].twin.value; var n := ReturnTwin(s);
            && k != t && t in s.threads && s.threads[t].status in {Waiting, Dead}
            && n.threads[k] == s.threads[k].(status := Stopped)
            && n.threads[t] == s.threads[t].(status := if s.threads[t].status == Dead then Dead else Running)
            && n.threads.Keys == s.threads.Keys
            && (forall x :: x in s.threads && x != k && x != t ==> n.threads[x] == s.threads[x])
            && SentToBack(s, n, t) && n.current == None && n.events == s.events
  {
    var k := s.current.value;
    assert ThreadOk(s, k);
    var t := s.threads[k].twin.value;
    assert ThreadOk(s, t) && QueueOk(s, s.threads[t].priority);
  }

  /** A call that neither blocks nor meets other threads, from the user thread through
      its twin and back, leaves what giving up the core would have left. */
  lemma CallAndReturn(s: Sched, m: Sched)
    requires Inv(s) && s.current.Some? && s.threads[s.current.value].level == User
    requires s.threads[s.current.value].status == Running && s.threads[s.current.value].twin.Some?
    requires m == StartTwin(s).(queues := s.queues, current := s.threads[s.current.value].twin)
    ensures m.current.Some? && m.current.value in m.threads && m.threads[m.current.value].twin == s.current
    ensures ReturnTwin(m) == Requeue(s)
  {
    var t := s.current.value;
    assert ThreadOk(s, t);
    var k := s.threads[t].twin.value;
    assert ThreadOk(s, k);
    assert m.threads == s.threads[t := s.threads[t].(status := Waiting)][k := s.threads[k].(status := Running)];
    assert ReturnTwin(m).threads == s.threads;
  }

  /** Waiting for an event: a standing signal is used up and nothing else changes;
      without one the caller blocks, last in line, and the core is free. */
  lemma AwaitEffect(s: Sched, e: nat)
    requires Inv(s) && e in s.events && s.current.Some?
    ensures var t := s.current.value; var n := Await(s, e);
            if s.events[e].signal then
              s.events[e].waiters == [] && n == s.(events := s.events[e := Event(false, [])])
            else
              && t !in s.events[e].waiters && n.queues == s.queues && n.current == None
              && n.threads == s.threads[t := s.threads[t].(status := Blocked, event := Some(e))]
              && n.events == s.events[e := Event(false, s.events[e].waiters + [t])]
  {
    assert EventOk(s, e);
    assert ThreadOk(s, s.current.value);
  }

  /** thread_run of a thread that is not running: it runs, last in its queue. */
  lemma RunEffect(s: Sched, t: nat)
    requires Inv(s) && t in s.threads && Startable(s, t)
    ensures var n := RunThread(s, t);
            if s.threads[t].status == Running then n == s
            else n.threads == s.threads[t := s.threads[t].(status := Running)] && SentToBack(s, n, t)
                 && n.current == s.current && n.events == s.events
  {
    assert ThreadOk(s, t);
  }

  /** thread_kill of a live thread: it is dead, and every queue, the core and every
      event are as they were; one that could run keeps its place in line. */
  lemma KillEffect(s: Sched, t: nat)
    requires Inv(s) && t in s.threads && s.threads[t].status != Dead
    ensures var n := KillThread(s, t);
            && n == s.(threads := s.threads[t := s.threads[t].(status := Dead)])
            && (Ready(n, t) <==> s.threads[t].status == Running)
  {
    assert ThreadOk(s, t);
  }
}
