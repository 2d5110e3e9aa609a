/** Every scheduler call keeps the invariant. */
module SchedSteps {
  import opened Wrappers
  import opened SchedState

  lemma CreateUserOk(s: Sched, t: nat, k: nat)
    requires Inv(s) && t !in s.threads && k !in s.threads && t != k
    ensures Inv(CreateUser(s, t, k))
  {
    var n := CreateUser(s, t, k);
    assert QueueOk(s, MEDIUM);
    forall x | x in n.threads ensures ThreadOk(n, x) { assert x in s.threads ==> ThreadOk(s, x); }
    forall i | 0 <= i < |n.queues| ensures QueueOk(n, i) { assert QueueOk(s, i); }
    forall e | e in n.events ensures EventOk(n, e) { assert EventOk(s, e); }
  }

  lemma CreateKernelOk(s: Sched, k: nat)
    requires Inv(s) && k !in s.threads
    ensures Inv(CreateKernel(s, k))
  {
    var n := CreateKernel(s, k);
    assert QueueOk(s, MEDIUM);
    forall x | x in n.threads ensures ThreadOk(n, x) { assert x in s.threads ==> ThreadOk(s, x); }
    forall i | 0 <= i < |n.queues| ensures QueueOk(n, i) { assert QueueOk(s, i); }
    forall e | e in n.events ensures EventOk(n, e) { assert EventOk(s, e); }
  }

  lemma CreateEventOk(s: Sched, e: nat)
    requires Inv(s) && e !in s.events
    ensures Inv(CreateEvent(s, e))
  {
    var n := CreateEvent(s, e);
    forall x | x in n.threads ensures ThreadOk(n, x) { assert ThreadOk(s, x); }
    forall i | 0 <= i < |n.queues| ensures QueueOk(n, i) { assert QueueOk(s, i); }
    forall f | f in n.events ensures EventOk(n, f) { assert f in s.events ==> EventOk(s, f); }
  }

  lemma AwaitOk(s: Sched, e: nat)
    requires Inv(s) && e in s.events && s.current.Some? && s.threads[s.current.value].level == Kernel
    ensures Inv(Await(s, e))
  {
    var n := Await(s, e);
    CurrentNotQueued(s);
    forall x | x in n.threads ensures ThreadOk(n, x) { assert ThreadOk(s, x); }
    forall i | 0 <= i < |n.queues| ensures QueueOk(n, i) { assert QueueOk(s, i); }
    forall f | f in n.events ensures EventOk(n, f) { assert EventOk(s, f); }
  }

  lemma InvokeThread(s: Sched, e: nat, x: nat)
    requires Inv(s) && e in s.events
    requires x in Invoke(s, e).threads
    ensures ThreadOk(Invoke(s, e), x)
  {
    assert EventOk(s, e);
    assert ThreadOk(s, x);
  }

  lemma InvokeQueue(s: Sched, e: nat, i: nat)
    requires Inv(s) && e in s.events
    requires i < |Invoke(s, e).queues|
    ensures QueueOk(Invoke(s, e), i)
  {
    assert EventOk(s, e);
    assert QueueOk(s, i);
  }

  lemma InvokeEvent(s: Sched, e: nat, f: nat)
    requires Inv(s) && e in s.events
    requires f in Invoke(s, e).events
    ensures EventOk(Invoke(s, e), f)
  {
    assert EventOk(s, e);
    assert EventOk(s, f);
  }

  lemma InvokeSize(s: Sched, e: nat)
    requires Inv(s) && e in s.events
    ensures |Invoke(s, e).queues| == PRIORITIES
            && (Invoke(s, e).current.Some? ==> Invoke(s, e).current.value in Invoke(s, e).threads)
  {
  }

  lemma InvokeOk(s: Sched, e: nat)
    requires Inv(s) && e in s.events
    ensures Inv(Invoke(s, e))
  {
    hide ThreadOk, QueueOk, EventOk;
    var n := Invoke(s, e);
    forall x | x in n.threads ensures ThreadOk(n, x) { InvokeThread(s, e, x); }
    forall i | 0 <= i < |n.queues| ensures QueueOk(n, i) { InvokeQueue(s, e, i); }
    forall f | f in n.events ensures EventOk(n, f) { InvokeEvent(s, e, f); }
    InvokeSize(s, e);
  }

  lemma EnterThread(s: Sched, x: nat)
    requires Inv(s) && s.current.Some? && s.threads[s.current.value].level == User
    requires s.threads[s.current.value].status == Running && s.threads[s.current.value].twin.Some?
    requires x in StartTwin(s).threads
    ensures ThreadOk(StartTwin(s), x)
  {
    CurrentNotQueued(s);
    assert ThreadOk(s, s.current.value);
    assert ThreadOk(s, x);
  }

  lemma EnterQueue(s: Sched, i: nat)
    requires Inv(s) && s.current.Some? && s.threads[s.current.value].level == User
    requires s.threads[s.current.value].status == Running && s.threads[s.current.value].twin.Some?
    requires i < |StartTwin(s).queues|
    ensures QueueOk(StartTwin(s), i)
  {
    CurrentNotQueued(s);
    assert ThreadOk(s, s.current.value);
    assert QueueOk(s, i);
  }

  lemma EnterEvent(s: Sched, f: nat)
    requires Inv(s) && s.current.Some? && s.threads[s.current.value].level == User
    requires s.threads[s.current.value].status == Running && s.threads[s.current.value].twin.Some?
    requires f in StartTwin(s).events
    ensures EventOk(StartTwin(s), f)
  {
    CurrentNotQueued(s);
    assert ThreadOk(s, s.current.value);
    assert EventOk(s, f);
  }

  lemma EnterSize(s: Sched)
    requires Inv(s) && s.current.Some? && s.threads[s.current.value].level == User
    requires s.threads[s.current.value].status == Running && s.threads[s.current.value].twin.Some?
    ensures |StartTwin(s).queues| == PRIORITIES
            && (StartTwin(s).current.Some? ==> StartTwin(s).current.value in StartTwin(s).threads)
  {
  }

  lemma EnterAll(s: Sched)
    requires Inv(s) && s.current.Some? && s.threads[s.current.value].level == User
    requires s.threads[s.current.value].status == Running && s.threads[s.current.value].twin.Some?
    ensures Inv(StartTwin(s))
  {
    hide ThreadOk, QueueOk, EventOk;
    var n := StartTwin(s);
    forall x | x in n.threads ensures ThreadOk(n, x) { EnterThread(s, x); }
    forall i | 0 <= i < |n.queues| ensures QueueOk(n, i) { EnterQueue(s, i); }
    forall f | f in n.events ensures EventOk(n, f) { EnterEvent(s, f); }
    EnterSize(s);
  }

  lemma StartTwinOk(s: Sched)
    requires Inv(s) && s.current.Some? && s.threads[s.current.value].level == User
             && s.threads[s.current.value].status == Running
    ensures Inv(StartTwin(s))
  {
    assert ThreadOk(s, s.current.value);
    EnterAll(s);
  }

  lemma LeaveThread(s: Sched, x: nat)
    requires Inv(s) && s.current.Some? && s.threads[s.current.value].level == Kernel
    requires s.threads[s.current.value].twin.Some?
    requires x in ReturnTwin(s).threads
    ensures ThreadOk(ReturnTwin(s), x)
  {
    CurrentNotQueued(s);
    assert ThreadOk(s, s.current.value);
    assert ThreadOk(s, x);
  }

  lemma LeaveQueue(s: Sched, i: nat)
    requires Inv(s) && s.current.Some? && s.threads[s.current.value].level == Kernel
    requires s.threads[s.current.value].twin.Some?
    requires i < |ReturnTwin(s).queues|
    ensures QueueOk(ReturnTwin(s), i)
  {
    CurrentNotQueued(s);
    assert ThreadOk(s, s.current.value);
    assert QueueOk(s, i);
  }

  lemma LeaveEvent(s: Sched, f: nat)
    requires Inv(s) && s.current.Some? && s.threads[s.current.value].level == Kernel
    requires s.threads[s.current.value].twin.Some?
    requires f in ReturnTwin(s).events
    ensures EventOk(ReturnTwin(s), f)
  {
    CurrentNotQueued(s);
    assert ThreadOk(s, s.current.value);
    assert EventOk(s, f);
  }

  lemma LeaveSize(s: Sched)
    requires Inv(s) && s.current.Some? && s.threads[s.current.value].level == Kernel
    requires s.threads[s.current.value].twin.Some?
    ensures |ReturnTwin(s).queues| == PRIORITIES
            && (ReturnTwin(s).current.Some? ==> ReturnTwin(s).current.value in ReturnTwin(s).threads)
  {
  }

  lemma ReturnTwinOk(s: Sched)
    requires Inv(s) && s.current.Some? && s.threads[s.current.value].level == Kernel
             && s.threads[s.current.value].twin.Some?
    ensures Inv(ReturnTwin(s))
  {
    hide ThreadOk, QueueOk, EventOk;
    var n := ReturnTwin(s);
    forall x | x in n.threads ensures ThreadOk(n, x) { LeaveThread(s, x); }
    forall i | 0 <= i < |n.queues| ensures QueueOk(n, i) { LeaveQueue(s, i); }
    forall f | f in n.events ensures EventOk(n, f) { LeaveEvent(s, f); }
    LeaveSize(s);
  }

  lemma RequeueOk(s: Sched)
    requires Inv(s)
    ensures Inv(Requeue(s)) && Requeue(s).current.None?
  {
    var n := Requeue(s);
    forall x | x in n.threads ensures ThreadOk(n, x) { assert ThreadOk(s, x); }
    forall i | 0 <= i < |n.queues| ensures QueueOk(n, i) { assert QueueOk(s, i); }
    forall f | f in n.events ensures EventOk(n, f) { assert EventOk(s, f); }
  }

  lemma CurrentNotQueued(s: Sched)
    requires Inv(s) && s.current.Some?
    ensures s.current.value in s.threads
    ensures var p := s.threads[s.current.value].priority; p < |s.queues| && s.current.value !in s.queues[p]
  {
    assert ThreadOk(s, s.current.value);
    assert QueueOk(s, s.threads[s.current.value].priority);
  }

  /** A thread that may be started from outside. */
  predicate Startable(s: Sched, t: nat)
    requires t in s.threads
  {
    var th := s.threads[t];
    || th.status == Running
    || (th.status == Stopped
       && (th.level == Kernel && th.twin.Some? ==>
            StatusOf(s.threads, th.twin.value) == Dead && !Ready(s, th.twin.value)))
    || (th.status == Dead && !Ready(s, t) && th.twin.Some? && StatusOf(s.threads, th.twin.value) == Stopped)
  }

  lemma StartedThread(s: Sched, t: nat, x: nat)
    requires Inv(s) && t in s.threads && Startable(s, t)
    requires x in RunThread(s, t).threads
    ensures ThreadOk(RunThread(s, t), x)
  {
    assert ThreadOk(s, t) && QueueOk(s, s.threads[t].priority);
    assert ThreadOk(s, x);
  }

  lemma StartedQueue(s: Sched, t: nat, i: nat)
    requires Inv(s) && t in s.threads && Startable(s, t)
    requires i < |RunThread(s, t).queues|
    ensures QueueOk(RunThread(s, t), i)
  {
    assert ThreadOk(s, t) && QueueOk(s, s.threads[t].priority);
    assert QueueOk(s, i);
  }

  lemma StartedEvent(s: Sched, t: nat, f: nat)
    requires Inv(s) && t in s.threads && Startable(s, t)
    requires f in RunThread(s, t).events
    ensures EventOk(RunThread(s, t), f)
  {
    assert ThreadOk(s, t) && QueueOk(s, s.threads[t].priority);
    assert EventOk(s, f);
  }

  lemma StartedSize(s: Sched, t: nat)
    requires Inv(s) && t in s.threads && Startable(s, t)
    ensures |RunThread(s, t).queues| == PRIORITIES
            && (RunThread(s, t).current.Some? ==> RunThread(s, t).current.value in RunThread(s, t).threads)
  {
  }

  lemma StartedAll(s: Sched, t: nat)
    requires Inv(s) && t in s.threads && Startable(s, t)
    ensures Inv(RunThread(s, t))
  {
    hide ThreadOk, QueueOk, EventOk;
    var n := RunThread(s, t);
    forall x | x in n.threads ensures ThreadOk(n, x) { StartedThread(s, t, x); }
    forall i | 0 <= i < |n.queues| ensures QueueOk(n, i) { StartedQueue(s, t, i); }
    forall f | f in n.events ensures EventOk(n, f) { StartedEvent(s, t, f); }
    StartedSize(s, t);
  }

  /** thread_run is safe exactly for a running thread, a stopped one that is not the
      kernel twin of a live or queued thread, or a killed one whose twin is stopped
      and that is in no queue. */
  lemma RunOk(s: Sched, t: nat)
    requires Inv(s) && t in s.threads
    ensures Inv(RunThread(s, t)) <==> Startable(s, t)
  {
    if Startable(s, t) { StartedAll(s, t); } else { RunBad(s, t); }
  }

  lemma RunBad(s: Sched, t: nat)
    requires Inv(s) && t in s.threads && !Startable(s, t)
    ensures !Inv(RunThread(s, t))
  {
    var n, p := RunThread(s, t), s.threads[t].priority;
    assert ThreadOk(s, t);
    assert n.queues[p] == s.queues[p] + [t];
    if Inv(n) {
      assert ThreadOk(n, t) && QueueOk(n, p);
      if s.threads[t].twin.Some? { assert ThreadOk(n, s.threads[t].twin.value); }
      if t in s.queues[p] { Repeated(s.queues[p], t); }
    }
  }

  lemma Repeated(q: seq<nat>, t: nat)
    requires t in q
    ensures !NoRepeats(q + [t])
  {
    var a :| 0 <= a < |q| && q[a] == t;
    assert (q + [t])[a] == (q + [t])[|q|];
  }

  /** What scheduler_queue does no harm to: it refuses the thread, or the thread is
      dead, nowhere near a core, and not in a call. */
  predicate Queueable(s: Sched, t: nat)
    requires t in s.threads
  {
    var th := s.threads[t];
    || th.status !in {Running, Dead}
    || (th.status == Dead && !Ready(s, t) && th.twin.Some? && StatusOf(s.threads, th.twin.value) == Stopped)
  }

  lemma QueueOkWhen(s: Sched, t: nat)
    requires Inv(s) && t in s.threads
    ensures Inv(Queued(s, t)) <==> Queueable(s, t)
  {
    assert ThreadOk(s, t);
    if s.threads[t].status == Dead {
      KillAgain(s, t);
      KillOk(s, t);
    } else if s.threads[t].status == Running {
      QueueTwice(s, t);
    }
  }

  lemma QueueTwice(s: Sched, t: nat)
    requires Inv(s) && t in s.threads && s.threads[t].status == Running
    ensures !Inv(Queued(s, t))
  {
    var n, p := Queued(s, t), s.threads[t].priority;
    assert ThreadOk(s, t);
    assert n.queues[p] == s.queues[p] + [t];
    if t in s.queues[p] { Repeated(s.queues[p], t); }
    assert !QueueOk(n, p);
  }

  lemma KillAgain(s: Sched, t: nat)
    requires t in s.threads && s.threads[t].status == Dead
    ensures KillThread(s, t) == Queued(s, t)
  {
    assert s.threads[t := s.threads[t]] == s.threads;
  }

  lemma KilledThread(s: Sched, t: nat, x: nat)
    requires Inv(s) && t in s.threads && s.threads[t].level == User && s.threads[t].twin.Some?
    requires s.threads[t].status != Dead || (!Ready(s, t) && StatusOf(s.threads, s.threads[t].twin.value) == Stopped)
    requires x in KillThread(s, t).threads
    ensures ThreadOk(KillThread(s, t), x)
  {
    assert ThreadOk(s, t);
    assert ThreadOk(s, x);
  }

  lemma KilledQueue(s: Sched, t: nat, i: nat)
    requires Inv(s) && t in s.threads && s.threads[t].level == User && s.threads[t].twin.Some?
    requires s.threads[t].status != Dead || (!Ready(s, t) && StatusOf(s.threads, s.threads[t].twin.value) == Stopped)
    requires i < |KillThread(s, t).queues|
    ensures QueueOk(KillThread(s, t), i)
  {
    assert ThreadOk(s, t);
    assert QueueOk(s, i);
  }

  lemma KilledEvent(s: Sched, t: nat, f: nat)
    requires Inv(s) && t in s.threads && s.threads[t].level == User && s.threads[t].twin.Some?
    requires s.threads[t].status != Dead || (!Ready(s, t) && StatusOf(s.threads, s.threads[t].twin.value) == Stopped)
    requires f in KillThread(s, t).events
    ensures EventOk(KillThread(s, t), f)
  {
    assert ThreadOk(s, t);
    assert EventOk(s, f);
  }

  lemma KilledSize(s: Sched, t: nat)
    requires Inv(s) && t in s.threads && s.threads[t].level == User && s.threads[t].twin.Some?
    requires s.threads[t].status != Dead || (!Ready(s, t) && StatusOf(s.threads, s.threads[t].twin.value) == Stopped)
    ensures |KillThread(s, t).queues| == PRIORITIES
            && (KillThread(s, t).current.Some? ==> KillThread(s, t).current.value in KillThread(s, t).threads)
  {
  }

  lemma KilledAll(s: Sched, t: nat)
    requires Inv(s) && t in s.threads && s.threads[t].level == User && s.threads[t].twin.Some?
    requires s.threads[t].status != Dead || (!Ready(s, t) && StatusOf(s.threads, s.threads[t].twin.value) == Stopped)
    ensures Inv(KillThread(s, t))
  {
    hide ThreadOk, QueueOk, EventOk;
    var n := KillThread(s, t);
    forall x | x in n.threads ensures ThreadOk(n, x) { KilledThread(s, t, x); }
    forall i | 0 <= i < |n.queues| ensures QueueOk(n, i) { KilledQueue(s, t, i); }
    forall f | f in n.events ensures EventOk(n, f) { KilledEvent(s, t, f); }
    KilledSize(s, t);
  }

  /** thread_kill of a user thread is safe exactly when the thread is not dead
      already, or is dead without being queued, running or in a call. */
  lemma KillOk(s: Sched, t: nat)
    requires Inv(s) && t in s.threads && s.threads[t].level == User
    ensures Inv(KillThread(s, t)) <==>
            s.threads[t].status != Dead || (!Ready(s, t) && StatusOf(s.threads, s.threads[t].twin.value) == Stopped)
  {
    assert ThreadOk(s, t);
    if s.threads[t].status != Dead || (!Ready(s, t) && StatusOf(s.threads, s.threads[t].twin.value) == Stopped) {
      KilledAll(s, t);
    } else {
      KillBad(s, t);
    }
  }

  lemma KillBad(s: Sched, t: nat)
    requires Inv(s) && t in s.threads && s.threads[t].level == User && s.threads[t].twin.Some?
    requires s.threads[t].status == Dead && (Ready(s, t) || StatusOf(s.threads, s.threads[t].twin.value) != Stopped)
    ensures !Inv(KillThread(s, t))
  {
    var n, p := KillThread(s, t), s.threads[t].priority;
    assert ThreadOk(s, t);
    assert n.queues[p] == s.queues[p] + [t];
    if Inv(n) {
      assert ThreadOk(n, t) && QueueOk(n, p);
      if t in s.queues[p] { Repeated(s.queues[p], t); }
    }
  }

  /** A dead thread at the head of its queue is freed safely: neither it nor its
      twin is in any queue, on a core or among the waiters of an event. */
  lemma FreeIsSafe(s: Sched, i: nat)
    requires Inv(s) && s.current.None? && i < |s.queues| && s.queues[i] != []
             && StatusOf(s.threads, s.queues[i][0]) == Dead
    ensures var t := s.queues[i][0]; var n := Pop(s, i);
            && t in s.threads && s.threads[t].twin.Some? && s.threads[t].twin.value in s.threads
            && Untouched(n, t) && Untouched(n, s.threads[t].twin.value)
  {
    var t, n := s.queues[i][0], Pop(s, i);
    assert QueueOk(s, i) && ThreadOk(s, t);
    var k := s.threads[t].twin.value;
    assert ThreadOk(s, k);
    forall j | 0 <= j < |n.queues| ensures t !in n.queues[j] && k !in n.queues[j] {
      assert QueueOk(s, j);
      assert forall x :: x in n.queues[j] ==> x in s.queues[j];
    }
    forall e | e in n.events ensures t !in n.events[e].waiters && k !in n.events[e].waiters {
      assert EventOk(s, e);
    }
  }

  /** Not queued, not current, not waiting. */
  predicate Untouched(s: Sched, t: nat) {
    && (forall j :: 0 <= j < |s.queues| ==> t !in s.queues[j])
    && s.current != Some(t)
    && forall e :: e in s.events ==> t !in s.events[e].waiters
  }

  lemma FreeOk(s: Sched, i: nat)
    requires Inv(s) && s.current.None? && i < |s.queues| && s.queues[i] != []
             && StatusOf(s.threads, s.queues[i][0]) == Dead
    ensures var t := s.queues[i][0]; var n := FreeThread(Pop(s, i), t);
            && t in s.threads && s.threads[t].twin.Some? && Inv(n)
            && n == Pop(s, i).(threads := s.threads - {t, s.threads[t].twin.value})
  {
    var t := s.queues[i][0];
    FreeIsSafe(s, i);
    var k, m, n := s.threads[t].twin.value, Pop(s, i), FreeThread(Pop(s, i), t);
    assert ThreadOk(s, t) && ThreadOk(s, k);
    assert n.threads == s.threads - {t, k};
    assert n.events == s.events;
    forall x | x in n.threads ensures ThreadOk(n, x) { assert ThreadOk(s, x); }
    forall j | 0 <= j < |n.queues| ensures QueueOk(n, j) { assert QueueOk(s, j); }
    forall f | f in n.events ensures EventOk(n, f) { assert EventOk(s, f); }
  }

  lemma ResumeOk(s: Sched, i: nat)
    requires Inv(s) && s.current.None? && i < |s.queues| && s.queues[i] != []
             && StatusOf(s.threads, s.queues[i][0]) == Running
    ensures Inv(Pop(s, i).(current := Some(s.queues[i][0])))
  {
    var n := Pop(s, i).(current := Some(s.queues[i][0]));
    assert QueueOk(s, i);
    forall x | x in n.threads ensures ThreadOk(n, x) { assert ThreadOk(s, x); }
    forall j | 0 <= j < |n.queues| ensures QueueOk(n, j) { assert QueueOk(s, j); }
    forall f | f in n.events ensures EventOk(n, f) { assert EventOk(s, f); }
  }
}
