/** Runs of the scheduler: how long a system call lasts, and how many waits an event
    ends. */
module SchedCalls {
  import opened Wrappers
  import opened SchedState
  import opened SchedSteps
  import opened SchedDispatch
  import opened SchedEffects
  import opened Scheduler

  // ------------------------------------------------------------- calls in progress

  /** User thread t is in the kernel: its twin k is at work or blocked there, and t waits
      for it, unless it has been killed. */
  predicate InCall(s: Sched, t: nat, k: nat) {
    && t in s.threads && s.threads[t].level == User && s.threads[t].twin == Some(k)
    && k in s.threads && s.threads[k].status in {Running, Blocked}
    && s.threads[t].status in {Waiting, Dead} && !Ready(s, t)
  }

  /** In every run a user thread waits only while its twin is at work or blocked, and
      while the twin is, it waits or has been killed, and no core takes it up. */
  lemma WaitingMeansInCall(states: seq<Sched>, labels: seq<Label>, n: nat, t: nat)
    requires IsRun(states, labels) && n < |states| && t in states[n].threads && states[n].threads[t].level == User
    ensures var s := states[n];
            && s.threads[t].twin.Some? && s.threads[t].twin.value in s.threads
            && (s.threads[t].status == Waiting ==> InCall(s, t, s.threads[t].twin.value))
            && (s.threads[s.threads[t].twin.value].status != Stopped ==> InCall(s, t, s.threads[t].twin.value))
  {
    hide IsRun;
    RunsKeepInv(states, labels, n);
    assert ThreadOk(states[n], t) && ThreadOk(states[n], states[n].threads[t].twin.value);
  }

  lemma {:induction false} WithTwinsOnly(threads: Threads, ts: seq<nat>, x: nat)
    ensures x in WithTwins(threads, ts) ==>
              x in ts || exists y :: y in ts && y in threads && threads[y].twin == Some(x)
  {
    if ts != [] { WithTwinsOnly(threads, ts[1..], x); }
  }

  /** Serving the queues frees neither side of a call in progress. */
  lemma ServedCall(s: Sched, t: nat, k: nat)
    requires Inv(s) && s.current.None? && InCall(s, t, k)
    ensures var n := Dispatch(s, 0);
            t in n.threads && n.threads[t] == s.threads[t] && k in n.threads && n.threads[k] == s.threads[k]
  {
    hide Inv, Dispatch, WithTwins, FirstRunning, Line;
    DispatchOk(s, 0);
    var line := Line(s.queues, 0);
    var dead := line[..FirstRunning(s.threads, line)];
    assert forall x :: x in dead ==> StatusOf(s.threads, x) == Dead;
    CallFacts(s, t, k);
    WithTwinsOnly(s.threads, dead, t);
    WithTwinsOnly(s.threads, dead, k);
    if t in dead { InLine(s, t); }
  }

  lemma CallFacts(s: Sched, t: nat, k: nat)
    requires Inv(s) && InCall(s, t, k)
    ensures s.threads[k].level == Kernel && s.threads[k].twin == Some(t)
    ensures forall y :: y in s.threads && s.threads[y].twin == Some(t) ==> y == k
    ensures forall y :: y in s.threads && s.threads[y].twin == Some(k) ==> y == t
  {
    assert ThreadOk(s, t) && ThreadOk(s, k);
    forall y | y in s.threads && s.threads[y].twin in {Some(t), Some(k)}
      ensures if s.threads[y].twin == Some(t) then y == k else y == t
    {
      assert ThreadOk(s, y);
    }
  }

  lemma InLine(s: Sched, t: nat)
    requires Inv(s) && t in s.threads && t in Line(s.queues, 0)
    ensures Ready(s, t)
  {
    LineIn(s.queues, 0, t);
    var j :| 0 <= j < |s.queues| && t in s.queues[j];
    assert QueueOk(s, j);
  }

  /** A call ends only when the twin returns. */
  lemma CallLasts(s: Sched, l: Label, t: nat, k: nat)
    requires Inv(s) && Enabled(s, l) && InCall(s, t, k) && !(l == LeaveKernel && s.current == Some(k))
    ensures InCall(Step(s, l), t, k)
  {
    hide Inv, Dispatch, InCall;
    StepOk(s, l);
    TwinStays(s, l, t, k);
    BackInCall(Step(s, l), t, k);
  }

  lemma BackInCall(s: Sched, t: nat, k: nat)
    requires Inv(s) && t in s.threads && s.threads[t].level == User && s.threads[t].twin == Some(k)
    requires k in s.threads && s.threads[k].status != Stopped
    ensures InCall(s, t, k)
  {
    assert ThreadOk(s, t) && ThreadOk(s, k);
  }

  lemma TwinStays(s: Sched, l: Label, t: nat, k: nat)
    requires Inv(s) && Enabled(s, l) && InCall(s, t, k) && !(l == LeaveKernel && s.current == Some(k))
    ensures var n := Step(s, l);
            && t in n.threads && n.threads[t].level == User && n.threads[t].twin == Some(k)
            && k in n.threads && n.threads[k].status != Stopped
  {
    hide Inv, Dispatch;
    CallFacts(s, t, k);
    match l
    case YieldCore =>
      RequeueOk(s);
      RequeuedCall(s, t, k);
      ServedCall(Requeue(s), t, k);
    case EnterKernel => StartTwinEffect(s);
    case LeaveKernel => ReturnTwinEffect(s);
    case AwaitEvent(e) => AwaitEffect(s, e);
    case InvokeEvent(e) => InvokedCall(s, e, t, k);
    case _ =>
  }

  lemma RequeuedCall(s: Sched, t: nat, k: nat)
    requires Inv(s) && InCall(s, t, k)
    ensures InCall(Requeue(s), t, k)
  {
    assert ThreadOk(s, t);
  }

  lemma InvokedCall(s: Sched, e: nat, t: nat, k: nat)
    requires Inv(s) && e in s.events && InCall(s, t, k)
    ensures var n := Invoke(s, e);
            && t in n.threads && n.threads[t].level == User && n.threads[t].twin == Some(k)
            && k in n.threads && n.threads[k].status != Stopped
  {
    assert EventOk(s, e);
  }

  /** From the moment a user thread enters the kernel until its twin returns, however
      often the twin blocks, is woken or gives up the core. */
  lemma {:induction false} CallUntilReturn(states: seq<Sched>, labels: seq<Label>, m: nat, n: nat, t: nat, k: nat)
    requires IsRun(states, labels) && m < n <= |labels|
    requires labels[m] == EnterKernel && states[m].current == Some(t) && t in states[m].threads
             && states[m].threads[t].twin == Some(k)
    requires forall i :: m < i < n ==> !(labels[i] == LeaveKernel && states[i].current == Some(k))
    ensures InCall(states[n], t, k)
    decreases n
  {
    hide Inv, Step, InCall;
    RunsKeepInv(states, labels, n - 1);
    assert Enabled(states[n - 1], labels[n - 1]) && states[n - 1 + 1] == Step(states[n - 1], labels[n - 1]);
    if m == n - 1 {
      CallBegins(states[m], t, k);
    } else {
      CallUntilReturn(states, labels, m, n - 1, t, k);
      CallLasts(states[n - 1], labels[n - 1], t, k);
    }
  }

  lemma CallBegins(s: Sched, t: nat, k: nat)
    requires Inv(s) && Enabled(s, EnterKernel) && s.current == Some(t) && s.threads[t].twin == Some(k)
    ensures InCall(Step(s, EnterKernel), t, k)
  {
    hide Inv;
    StepOk(s, EnterKernel);
    StartTwinEffect(s);
    BackInCall(Step(s, EnterKernel), t, k);
  }

  // ------------------------------------------------------------- waits and signals

  /** A signal standing at e, as a number. */
  function Standing(s: Sched, e: nat): nat {
    if e in s.events && s.events[e].signal then 1 else 0
  }

  function Waiters(s: Sched, e: nat): nat {
    if e in s.events then |s.events[e].waiters| else 0
  }

  /** The waits begun at e. */
  function Awaits(labels: seq<Label>, e: nat): nat {
    if labels == [] then 0
    else Awaits(labels[..|labels| - 1], e) + if labels[|labels| - 1] == AwaitEvent(e) then 1 else 0
  }

  /** The invocations of e that did not find a signal standing already. */
  function Invocations(states: seq<Sched>, labels: seq<Label>, e: nat, n: nat): nat
    requires n <= |labels| < |states|
  {
    if n == 0 then 0
    else Invocations(states, labels, e, n - 1)
         + if labels[n - 1] == InvokeEvent(e) && Standing(states[n - 1], e) == 0 then 1 else 0
  }

  lemma StepCounts(s: Sched, l: Label, e: nat)
    requires Inv(s) && Enabled(s, l)
    ensures var n := Step(s, l);
            (if l == AwaitEvent(e) then 1 else 0) + Waiters(s, e) + Standing(n, e) ==
            Waiters(n, e) + Standing(s, e)
              + if l == InvokeEvent(e) && Standing(s, e) == 0 then 1 else 0
  {
    hide Inv, Yield;
    if l.YieldCore? { YieldEvents(s); }
    if l == InvokeEvent(e) { SignalOrWaiters(s, e); }
  }

  lemma SignalOrWaiters(s: Sched, e: nat)
    requires Inv(s) && e in s.events
    ensures s.events[e].signal ==> s.events[e].waiters == []
  {
    assert EventOk(s, e);
  }

  /** Every wait that has ended used up an invocation of its own: of the waits begun at
      e, all but those still asleep are matched by invocations, and one more invocation
      stands as the signal. Nothing else wakes a thread, and nothing signals by itself. */
  lemma {:induction false} WaitsMatchInvocations(states: seq<Sched>, labels: seq<Label>, e: nat, n: nat)
    requires IsRun(states, labels) && n <= |labels|
    ensures Awaits(labels[..n], e) + Standing(states[n], e) ==
            Waiters(states[n], e) + Invocations(states, labels, e, n)
  {
    hide Inv, Step, Standing, Waiters, Enabled;
    if n == 0 {
      EmptyCounts(e);
    } else {
      WaitsMatchInvocations(states, labels, e, n - 1);
      RunsKeepInv(states, labels, n - 1);
      assert Enabled(states[n - 1], labels[n - 1]) && states[n - 1 + 1] == Step(states[n - 1], labels[n - 1]);
      StepCounts(states[n - 1], labels[n - 1], e);
      assert labels[..n][..n - 1] == labels[..n - 1] && labels[..n][n - 1] == labels[n - 1];
    }
  }

  lemma EmptyCounts(e: nat)
    ensures Standing(Boot, e) == 0 && Waiters(Boot, e) == 0
  {
  }

  // ------------------------------------------------------------- new threads

  /** A thread that a step brings is stopped, at TP_MEDIUM, and waits for nothing; one
      of a user has a new twin. */
  lemma NewThreads(s: Sched, l: Label, t: nat)
    requires Inv(s) && Enabled(s, l) && t in Step(s, l).threads && t !in s.threads
    ensures var th := Step(s, l).threads[t];
            && th.status == Stopped && th.priority == MEDIUM && th.event == None
            && (th.level == User <==> l.NewUser? && l.t == t)
            && th.twin == (if l.NewUser? then Some(if l.t == t then l.k else l.t) else None)
  {
    hide Inv, Dispatch;
    if l.YieldCore? { OnlyFreed(s, t); }
  }

  lemma OnlyFreed(s: Sched, t: nat)
    requires Inv(s)
    ensures t in Yield(s).threads ==> t in s.threads && Yield(s).threads[t] == s.threads[t]
  {
    hide Inv, Dispatch;
    RequeueOk(s);
    DispatchOk(Requeue(s), 0);
  }

  /** Nobody's priority or level ever changes. */
  lemma SameRank(s: Sched, l: Label, t: nat)
    requires Inv(s) && Enabled(s, l) && t in s.threads && t in Step(s, l).threads
    ensures Step(s, l).threads[t].priority == s.threads[t].priority
    ensures Step(s, l).threads[t].level == s.threads[t].level
    ensures Step(s, l).threads[t].twin == s.threads[t].twin
  {
    hide Inv, Dispatch;
    if l.YieldCore? { OnlyFreed(s, t); }
  }

  /** So in every run every thread is at TP_MEDIUM, and one queue is in use. */
  lemma {:induction false} AllMedium(states: seq<Sched>, labels: seq<Label>, n: nat, t: nat)
    requires IsRun(states, labels) && n <= |labels| && t in states[n].threads
    ensures states[n].threads[t].priority == MEDIUM
  {
    hide Inv, Step;
    if n > 0 {
      RunsKeepInv(states, labels, n - 1);
      assert Enabled(states[n - 1], labels[n - 1]) && states[n - 1 + 1] == Step(states[n - 1], labels[n - 1]);
      if t in states[n - 1].threads {
        AllMedium(states, labels, n - 1, t);
        SameRank(states[n - 1], labels[n - 1], t);
      } else {
        NewThreads(states[n - 1], labels[n - 1], t);
      }
    }
  }
}
