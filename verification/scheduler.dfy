/** Runs of the scheduler, and the scheduler itself. */
module Scheduler {
  import opened Wrappers
  import opened SchedState
  import opened SchedSteps
  import opened SchedEffects
  import opened SchedDispatch

  datatype Label =
    | NewUser(t: nat, k: nat)
    | NewKernel(k: nat)
    | NewEvent(e: nat)
    | Start(t: nat)             // thread_run by whoever created the thread
    | Kill(t: nat)
    | AwaitEvent(e: nat)
    | InvokeEvent(e: nat)
    | EnterKernel               // scheduler_start_twin
    | LeaveKernel               // scheduler_return_twin0 and 1
    | YieldCore

  predicate CurrentIs(s: Sched, level: Level) {
    s.current.Some? && s.current.value in s.threads && s.threads[s.current.value].level == level
  }

  /** Who makes which call: user threads enter the kernel, their twins leave it,
      kernel threads await, only threads not yet killed are killed, only stopped
      ones started. */
  predicate Enabled(s: Sched, l: Label) {
    match l
    case NewUser(t, k) => t !in s.threads && k !in s.threads && t != k
    case NewKernel(k) => k !in s.threads
    case NewEvent(e) => e !in s.events
    case Start(t) => t in s.threads && s.threads[t].status != Dead && Startable(s, t)
    case Kill(t) => t in s.threads && s.threads[t].level == User && s.threads[t].status != Dead
    case AwaitEvent(e) => e in s.events && CurrentIs(s, Kernel)
    case InvokeEvent(e) => e in s.events
    case EnterKernel =>
      CurrentIs(s, User) && s.threads[s.current.value].status == Running && s.threads[s.current.value].twin.Some?
    case LeaveKernel => CurrentIs(s, Kernel) && s.threads[s.current.value].twin.Some?
    case YieldCore => true
  }

  function Step(s: Sched, l: Label): Sched
    requires Enabled(s, l)
  {
    match l
    case NewUser(t, k) => CreateUser(s, t, k)
    case NewKernel(k) => CreateKernel(s, k)
    case NewEvent(e) => CreateEvent(s, e)
    case Start(t) => RunThread(s, t)
    case Kill(t) => KillThread(s, t)
    case AwaitEvent(e) => Await(s, e)
    case InvokeEvent(e) => Invoke(s, e)
    case EnterKernel => StartTwin(s)
    case LeaveKernel => ReturnTwin(s)
    case YieldCore => Yield(s)
  }

  const Boot: Sched := Sched(map[], [[], [], [], []], None, map[])

  ghost predicate IsRun(states: seq<Sched>, labels: seq<Label>) {
    && |states| == |labels| + 1 && states[0] == Boot
    && forall i :: 0 <= i < |labels| ==> Enabled(states[i], labels[i]) && states[i + 1] == Step(states[i], labels[i])
  }

  lemma YieldOk(s: Sched)
    requires Inv(s)
    ensures Inv(Yield(s)) && Picked(Requeue(s), Yield(s), 0)
  {
    RequeueOk(s);
    DispatchOk(Requeue(s), 0);
  }

  lemma StepOk(s: Sched, l: Label)
    requires Inv(s) && Enabled(s, l)
    ensures Inv(Step(s, l))
  {
    hide Inv, Yield, CreateUser, CreateKernel, CreateEvent, RunThread, KillThread, Await, Invoke, StartTwin, ReturnTwin;
    match l
    case NewUser(t, k) => CreateUserOk(s, t, k);
    case NewKernel(k) => CreateKernelOk(s, k);
    case NewEvent(e) => CreateEventOk(s, e);
    case Start(t) => RunOk(s, t);
    case Kill(t) => KillOk(s, t);
    case AwaitEvent(e) => AwaitOk(s, e);
    case InvokeEvent(e) => InvokeOk(s, e);
    case EnterKernel => StartTwinOk(s);
    case LeaveKernel => ReturnTwinOk(s);
    case YieldCore => YieldOk(s);
  }

  lemma BootOk()
    ensures Inv(Boot)
  {
  }

  /** The invariant holds in every state of every run. */
  lemma {:induction false} RunsKeepInv(states: seq<Sched>, labels: seq<Label>, n: nat)
    requires IsRun(states, labels) && n < |states|
    ensures Inv(states[n])
  {
    hide Inv, Step, Enabled, Boot;
    if n == 0 {
      BootOk();
    } else {
      RunsKeepInv(states, labels, n - 1);
      assert Enabled(states[n - 1], labels[n - 1]) && states[n] == Step(states[n - 1], labels[n - 1]);
      StepOk(states[n - 1], labels[n - 1]);
    }
  }

  predicate IsReadyQueued(s: Sched, t: nat) {
    exists i :: 0 <= i < |s.queues| && t in s.queues[i]
  }

  /** A thread is running exactly when it is live and in a queue or on the core. */
  ghost predicate RunningIffReady(s: Sched, t: nat)
    requires t in s.threads
  {
    && (s.threads[t].status == Running <==>
         s.threads[t].status != Dead && (IsReadyQueued(s, t) || s.current == Some(t)))
    && (IsReadyQueued(s, t) || s.current == Some(t) ==> s.threads[t].status in {Running, Dead})
    && !(IsReadyQueued(s, t) && s.current == Some(t))
  }

  ghost predicate QueuedOnce(s: Sched, t: nat) {
    forall i, a, j, b ::
      (0 <= i < |s.queues| && 0 <= j < |s.queues| && 0 <= a < |s.queues[i]| && 0 <= b < |s.queues[j]|
       && s.queues[i][a] == t && s.queues[j][b] == t) ==> i == j && a == b
  }

  /** A thread is blocked exactly when it is the waiter of an event, and of one. */
  ghost predicate BlockedIffWaiter(s: Sched, t: nat)
    requires t in s.threads
  {
    && (s.threads[t].status == Blocked <==> exists e :: e in s.events && t in s.events[e].waiters)
    && (forall e, f :: e in s.events && f in s.events && t in s.events[e].waiters && t in s.events[f].waiters ==>
         e == f)
  }

  lemma ReadyMeans(s: Sched, t: nat)
    requires Inv(s) && t in s.threads
    ensures RunningIffReady(s, t) && QueuedOnce(s, t)
  {
    assert ThreadOk(s, t);
    var p := s.threads[t].priority;
    assert QueueOk(s, p);
    forall i | 0 <= i < |s.queues| && t in s.queues[i] ensures i == p { assert QueueOk(s, i); }
    assert IsReadyQueued(s, t) <==> t in s.queues[p];
  }

  lemma BlockedMeans(s: Sched, t: nat)
    requires Inv(s) && t in s.threads
    ensures BlockedIffWaiter(s, t)
  {
    assert ThreadOk(s, t);
    forall e | e in s.events && t in s.events[e].waiters ensures s.threads[t].event == Some(e) { assert EventOk(s, e); }
  }

  lemma TwinsMean(s: Sched, t: nat)
    requires Inv(s) && t in s.threads && s.threads[t].twin.Some?
    ensures !(Ready(s, t) && Ready(s, s.threads[t].twin.value))
  {
    assert ThreadOk(s, t) && ThreadOk(s, s.threads[t].twin.value);
  }

  /** In every state of every run, what the design promises of each thread. */
  lemma EveryReachableState(states: seq<Sched>, labels: seq<Label>, n: nat, t: nat)
    requires IsRun(states, labels) && n < |states| && t in states[n].threads
    ensures var s := states[n];
            && RunningIffReady(s, t) && QueuedOnce(s, t) && BlockedIffWaiter(s, t)
            && (s.threads[t].twin.Some? ==> !(Ready(s, t) && Ready(s, s.threads[t].twin.value)))
  {
    hide Inv, IsRun, RunningIffReady, QueuedOnce, BlockedIffWaiter, Ready;
    RunsKeepInv(states, labels, n);
    ReadyMeans(states[n], t);
    BlockedMeans(states[n], t);
    if states[n].threads[t].twin.Some? { TwinsMean(states[n], t); }
  }

  /** An awaited signal is never lost: an event holds a signal or waiters, not both,
      and an invocation with waiters makes the longest waiting one runnable. */
  lemma NoSignalLost(states: seq<Sched>, labels: seq<Label>, n: nat, e: nat)
    requires IsRun(states, labels) && n < |states| && e in states[n].events
    ensures var s := states[n]; var ws := s.events[e].waiters; var s' := Invoke(s, e);
            if ws == [] then s'.events[e] == Event(true, []) && s'.threads == s.threads
            else !s.events[e].signal && s'.events[e] == Event(false, ws[1..])
                 && ws[0] in s.threads && s.threads[ws[0]].status == Blocked
                 && s'.threads == s.threads[ws[0] := s.threads[ws[0]].(status := Running, event := None)]
                 && Ready(s', ws[0])
  {
    hide IsRun;
    RunsKeepInv(states, labels, n);
    var s := states[n];
    assert EventOk(s, e);
    if s.events[e].waiters != [] { assert ThreadOk(s, s.events[e].waiters[0]); }
  }

  // ------------------------------------------------------------- killed threads

  lemma DispatchDead(s: Sched, t: nat)
    requires Inv(s) && s.current.None? && t in s.threads && s.threads[t].status == Dead
    ensures var n := Dispatch(s, 0); n.current != Some(t) && (t in n.threads ==> n.threads[t] == s.threads[t])
  {
    hide Inv, Dispatch, WithTwins;
    DispatchOk(s, 0);
    var line := Line(s.queues, 0);
    FirstIsRunning(s.threads, line);
  }

  lemma {:induction false} FirstIsRunning(threads: Threads, line: seq<nat>)
    ensures var n := FirstRunning(threads, line); n < |line| ==> StatusOf(threads, line[n]) == Running
  {
    if line != [] && StatusOf(threads, line[0]) != Running { FirstIsRunning(threads, line[1..]); }
  }

  /** Killing takes effect at once and for good: whatever happens next, the thread
      is dead or gone, and no core takes it up. */
  lemma DeadStaysDead(s: Sched, l: Label, t: nat)
    requires Inv(s) && Enabled(s, l) && t in s.threads && s.threads[t].status == Dead
    ensures var n := Step(s, l);
            && (t in n.threads ==> n.threads[t].status == Dead)
            && (n.current == Some(t) ==> s.current == Some(t) && l != YieldCore)
  {
    hide Dispatch, Inv;
    match l
    case YieldCore =>
      RequeueOk(s);
      RequeueDead(s, t);
      DispatchDead(Requeue(s), t);
    case InvokeEvent(e) => InvokeDead(s, e, t);
    case AwaitEvent(e) => CurrentAlive(s, t);
    case LeaveKernel => LeaveDead(s, t);
    case EnterKernel => EnterDead(s, t);
    case _ =>
  }

  lemma RequeueDead(s: Sched, t: nat)
    requires t in s.threads && s.threads[t].status == Dead
    ensures Requeue(s).threads == s.threads
  {
  }

  lemma InvokeDead(s: Sched, e: nat, t: nat)
    requires Inv(s) && e in s.events && t in s.threads && s.threads[t].status == Dead
    ensures var n := Invoke(s, e); t in n.threads && n.threads[t].status == Dead && n.current == s.current
  {
    assert ThreadOk(s, t) && EventOk(s, e);
  }

  lemma CurrentAlive(s: Sched, t: nat)
    requires Inv(s) && CurrentIs(s, Kernel) && t in s.threads && s.threads[t].status == Dead
    ensures s.current != Some(t)
  {
    assert ThreadOk(s, t);
  }

  lemma LeaveDead(s: Sched, t: nat)
    requires Inv(s) && Enabled(s, LeaveKernel) && t in s.threads && s.threads[t].status == Dead
    ensures var n := ReturnTwin(s); t in n.threads && n.threads[t].status == Dead && n.current.None?
  {
    assert ThreadOk(s, t) && ThreadOk(s, s.current.value);
  }

  lemma EnterDead(s: Sched, t: nat)
    requires Inv(s) && Enabled(s, EnterKernel) && t in s.threads && s.threads[t].status == Dead
    ensures var n := StartTwin(s); t in n.threads && n.threads[t].status == Dead && n.current.None?
  {
    assert ThreadOk(s, t) && ThreadOk(s, s.current.value) && ThreadOk(s, s.threads[s.current.value].twin.value);
  }

  /** From the kill on, through any number of steps while the thread is there. */
  lemma {:induction false} KilledForGood(states: seq<Sched>, labels: seq<Label>, n: nat, m: nat, t: nat)
    requires IsRun(states, labels) && n < m < |states| && labels[n] == Kill(t)
    requires forall j :: n <= j <= m ==> t in states[j].threads
    ensures states[m].threads[t].status == Dead
    ensures states[m].current == Some(t) ==> states[n].current == Some(t)
    decreases m
  {
    hide Inv, Step;
    RunsKeepInv(states, labels, m - 1);
    assert Enabled(states[m - 1], labels[m - 1]) && states[m] == Step(states[m - 1], labels[m - 1]);
    if m == n + 1 {
      KillKills(states[n], t);
    } else {
      KilledForGood(states, labels, n, m - 1, t);
      DeadStaysDead(states[m - 1], labels[m - 1], t);
    }
  }

  lemma KillKills(s: Sched, t: nat)
    requires Enabled(s, Kill(t))
    ensures var n := Step(s, Kill(t)); t in n.threads && n.threads[t].status == Dead && n.current == s.current
  {
  }

  // ------------------------------------------------------------- no overtaking

  /** Those in front of x. */
  function Ahead(q: seq<nat>, x: nat): seq<nat> {
    if q == [] || q[0] == x then [] else [q[0]] + Ahead(q[1..], x)
  }

  /** `a` is what is left of `b` once some of its first elements have gone. */
  predicate Left(a: seq<nat>, b: seq<nat>) {
    |a| <= |b| && a == b[|b| - |a|..]
  }

  lemma {:induction false} AheadAppend(q: seq<nat>, t: nat, x: nat)
    requires x in q
    ensures Ahead(q + [t], x) == Ahead(q, x)
  {
    if q[0] != x {
      assert (q + [t])[1..] == q[1..] + [t];
      AheadAppend(q[1..], t, x);
    }
  }

  lemma AheadPop(q: seq<nat>, x: nat)
    requires NoRepeats(q) && q != [] && x in q[1..]
    ensures x in q && Left(Ahead(q[1..], x), Ahead(q, x))
  {
  }

  lemma LeftTwice(a: seq<nat>, b: seq<nat>, c: seq<nat>)
    requires Left(a, b) && Left(b, c)
    ensures Left(a, c)
  {
  }

  /** Serving the queues only shortens the line ahead of whoever stays in it. */
  lemma {:induction false} DispatchAhead(s: Sched, i: nat, j: nat, x: nat)
    requires i <= |s.queues| && j < |s.queues| && NoRepeats(s.queues[j])
    ensures |Dispatch(s, i).queues| == |s.queues|
    ensures x in Dispatch(s, i).queues[j] ==>
              x in s.queues[j] && Left(Ahead(Dispatch(s, i).queues[j], x), Ahead(s.queues[j], x))
    decreases |s.queues| - i, if i < |s.queues| then |s.queues[i]| else 0
  {
    hide Ahead, Left, FreeThread;
    LeftSelf(Ahead(s.queues[j], x));
    if i < |s.queues| {
      if s.queues[i] == [] {
        DispatchAhead(s, i + 1, j, x);
      } else {
        var t, p := s.queues[i][0], Pop(s, i);
        FreeKeepsQueues(p, t);
        if StatusOf(s.threads, t) == Dead {
          DispatchAhead(FreeThread(p, t), i, j, x);
        } else if StatusOf(s.threads, t) != Running {
          DispatchAhead(p, i, j, x);
        }
        if x in Dispatch(s, i).queues[j] && j == i {
          AheadPop(s.queues[i], x);
          LeftSelf(Ahead(p.queues[j], x));
          LeftTwice(Ahead(Dispatch(s, i).queues[j], x), Ahead(p.queues[j], x), Ahead(s.queues[j], x));
        }
      }
    }
  }

  lemma LeftSelf(a: seq<nat>)
    ensures Left(a, a)
  {
  }

  lemma QueuedAhead(s: Sched, t: nat, j: nat, x: nat)
    requires j < |s.queues| && x in s.queues[j]
    ensures |Queued(s, t).queues| == |s.queues| && x in Queued(s, t).queues[j]
    ensures Ahead(Queued(s, t).queues[j], x) == Ahead(s.queues[j], x)
  {
    hide Ahead;
    AheadAppend(s.queues[j], t, x);
  }

  lemma RunAhead(s: Sched, t: nat, j: nat, x: nat)
    requires j < |s.queues| && x in s.queues[j]
    ensures |RunThread(s, t).queues| == |s.queues| && Ahead(RunThread(s, t).queues[j], x) == Ahead(s.queues[j], x)
  {
    hide Ahead, Queued;
    QueuedAhead(s.(threads := WithStatus(s.threads, t, Running)), t, j, x);
  }

  /** No thread is overtaken in its queue: while it stays there, those ahead of it
      are those that were, less some that have been served. */
  lemma NoOvertaking(s: Sched, l: Label, j: nat, x: nat)
    requires Inv(s) && Enabled(s, l) && j < |s.queues| && x in s.queues[j]
    ensures |Step(s, l).queues| == |s.queues|
    ensures x in Step(s, l).queues[j] ==> Left(Ahead(Step(s, l).queues[j], x), Ahead(s.queues[j], x))
  {
    hide Inv, Ahead, Left, Queued, RunThread, Dispatch;
    LeftSelf(Ahead(s.queues[j], x));
    match l
    case YieldCore =>
      if s.current.Some? { QueuedAhead(s, s.current.value, j, x); }
      RequeueOk(s);
      SizeKept(Requeue(s));
      QueueDistinct(Requeue(s), j);
      DispatchAhead(Requeue(s), 0, j, x);
    case Start(t) => RunAhead(s, t, j, x);
    case Kill(t) => QueuedAhead(s, t, j, x);
    case InvokeEvent(e) =>
      var ws := s.events[e].waiters;
      if ws != [] {
        var freed := s.(events := s.events[e := s.events[e].(waiters := ws[1..])]);
        var up := if ws[0] in s.threads then freed.(threads := s.threads[ws[0] := s.threads[ws[0]].(event := None)])
                  else freed;
        RunAhead(up, ws[0], j, x);
      }
    case EnterKernel =>
      var t := s.current.value;
      RunAhead(s.(threads := WithStatus(s.threads, t, Waiting), current := None), s.threads[t].twin.value, j, x);
    case LeaveKernel =>
      var k := s.current.value;
      var s' := s.(threads := WithStatus(s.threads, k, Stopped), current := None);
      QueuedAhead(s', s.threads[k].twin.value, j, x);
      RunAhead(s', s.threads[k].twin.value, j, x);
    case _ =>
  }

  lemma QueueDistinct(s: Sched, j: nat)
    requires Inv(s) && j < |s.queues|
    ensures NoRepeats(s.queues[j])
  {
    assert QueueOk(s, j);
  }

  lemma YieldEvents(s: Sched)
    requires Inv(s)
    ensures Yield(s).events == s.events
  {
    hide Inv, Dispatch;
    RequeueOk(s);
    DispatchOk(Requeue(s), 0);
  }

  lemma WaitersDistinct(s: Sched, e: nat)
    requires Inv(s) && e in s.events
    ensures NoRepeats(s.events[e].waiters)
  {
    assert EventOk(s, e);
  }

  /** Nor is a waiter overtaken at its event. */
  lemma NoOvertakingWaiters(s: Sched, l: Label, e: nat, x: nat)
    requires Inv(s) && Enabled(s, l) && e in s.events && x in s.events[e].waiters
    ensures e in Step(s, l).events
    ensures x in Step(s, l).events[e].waiters ==>
              Left(Ahead(Step(s, l).events[e].waiters, x), Ahead(s.events[e].waiters, x))
  {
    hide Inv, Ahead, Left, Yield;
    var ws := s.events[e].waiters;
    LeftSelf(Ahead(ws, x));
    match l
    case YieldCore => YieldEvents(s);
    case AwaitEvent(f) => AheadAppend(ws, s.current.value, x);
    case InvokeEvent(f) =>
      WaitersDistinct(s, e);
      if x in ws[1..] { AheadPop(ws, x); }
    case _ =>
  }

  /** First come, first served, from any point of a run to any later one. */
  lemma {:induction false} FirstComeFirstServed(states: seq<Sched>, labels: seq<Label>, n: nat, m: nat, j: nat, x: nat)
    requires IsRun(states, labels) && n <= m < |states| && j < PRIORITIES
    requires forall i :: n <= i <= m ==> |states[i].queues| == PRIORITIES && x in states[i].queues[j]
    ensures Left(Ahead(states[m].queues[j], x), Ahead(states[n].queues[j], x))
    decreases m
  {
    hide Inv, Step, Ahead, Left;
    LeftSelf(Ahead(states[n].queues[j], x));
    if n < m {
      FirstComeFirstServed(states, labels, n, m - 1, j, x);
      RunsKeepInv(states, labels, m - 1);
      var s, l := states[m - 1], labels[m - 1];
      assert Enabled(s, l) && states[m] == Step(s, l);
      NoOvertaking(s, l, j, x);
      LeftTwice(Ahead(states[m].queues[j], x), Ahead(s.queues[j], x), Ahead(states[n].queues[j], x));
    }
  }

  lemma {:induction false} FirstWaiterFirstWoken(states: seq<Sched>, labels: seq<Label>, n: nat, m: nat, e: nat, x: nat)
    requires IsRun(states, labels) && n <= m < |states|
    requires forall i :: n <= i <= m ==> e in states[i].events && x in states[i].events[e].waiters
    ensures Left(Ahead(states[m].events[e].waiters, x), Ahead(states[n].events[e].waiters, x))
    decreases m
  {
    hide Inv, Step, Ahead, Left;
    LeftSelf(Ahead(states[n].events[e].waiters, x));
    if n < m {
      FirstWaiterFirstWoken(states, labels, n, m - 1, e, x);
      RunsKeepInv(states, labels, m - 1);
      var s, l := states[m - 1], labels[m - 1];
      assert Enabled(s, l) && states[m] == Step(s, l);
      NoOvertakingWaiters(s, l, e, x);
      LeftTwice(Ahead(states[m].events[e].waiters, x), Ahead(s.events[e].waiters, x),
        Ahead(states[n].events[e].waiters, x));
    }
  }

  class Core {
    var threads: Threads
    var queues: Queues
    var current: Option<nat>
    var events: Events

    function Now(): Sched
      reads this
    {
      Sched(threads, queues, current, events)
    }

    /** scheduler_init */
    constructor ()
      ensures Now() == Boot && Inv(Now())
    {
      threads, queues, current, events := map[], [[], [], [], []], None, map[];
      new;
      BootOk();
    }

    /** scheduler_queue */
    method Queue(t: nat)
      requires t in threads && threads[t].priority < |queues|
      modifies this`queues
      ensures Now() == Queued(old(Now()), t)
      ensures old(Inv(Now())) ==> (Inv(Now()) <==> old(Queueable(Now(), t)))
    {
      hide Inv;
      if Inv(Now()) { QueueOkWhen(Now(), t); }
      if threads[t].status == Running || threads[t].status == Dead {
        queues := queues[threads[t].priority := queues[threads[t].priority] + [t]];
      }
    }

    /** thread_run */
    method Run(t: nat)
      requires t in threads && threads[t].priority < |queues|
      modifies this`queues, this`threads
      ensures Now() == RunThread(old(Now()), t)
      ensures old(Inv(Now())) ==> (Inv(Now()) <==> old(Startable(Now(), t)))
    {
      hide Inv, Startable;
      if Inv(Now()) { RunOk(Now(), t); }
      if threads[t].status != Running {
        threads := threads[t := threads[t].(status := Running)];
        Queue(t);
      }
    }

    /** thread_kill */
    method Kill(t: nat)
      requires Inv(Now()) && t in threads
      modifies this`queues, this`threads
      ensures Now() == KillThread(old(Now()), t)
      ensures old(threads[t].level == User) ==>
                (Inv(Now()) <==> old(threads[t].status != Dead || Queueable(Now(), t)))
    {
      assert ThreadOk(Now(), t);
      if threads[t].level == User { KillOk(Now(), t); }
      if threads[t].status != Running {
        Queue(t);
      }
      threads := threads[t := threads[t].(status := Dead)];
    }

    /** thread_create_user */
    method NewUser(t: nat, k: nat)
      requires Inv(Now()) && t !in threads && k !in threads && t != k
      modifies this`threads
      ensures Now() == CreateUser(old(Now()), t, k) && Inv(Now())
    {
      CreateUserOk(Now(), t, k);
      threads := threads[k := Thread(Kernel, Stopped, MEDIUM, None, None)];
      threads := threads[t := Thread(User, Stopped, MEDIUM, Some(k), None)];
      threads := threads[k := threads[k].(twin := Some(t))];
      assert Now() == CreateUser(old(Now()), t, k);
    }

    /** scheduler_await. `blocked` tells whether the caller must yield the core. */
    method AwaitEvent(e: nat) returns (blocked: bool)
      requires Inv(Now()) && e in events && CurrentIs(Now(), Kernel)
      modifies this
      ensures Now() == Await(old(Now()), e) && Inv(Now()) && blocked == !old(events)[e].signal
    {
      AwaitOk(Now(), e);
      if !events[e].signal {
        var t := current.value;
        threads := threads[t := threads[t].(status := Blocked)];
        events := events[e := events[e].(waiters := events[e].waiters + [t])];
        threads := threads[t := threads[t].(event := Some(e))];
        current := None;
        assert Now() == Await(old(Now()), e);
        return true;
      }
      events := events[e := events[e].(signal := false)];
      return false;
    }

    /** event_invoke */
    method InvokeEvent(e: nat)
      requires Inv(Now()) && e in events
      modifies this
      ensures Now() == Invoke(old(Now()), e) && Inv(Now())
    {
      InvokeOk(Now(), e);
      if events[e].waiters != [] {
        var t := events[e].waiters[0];
        assert EventOk(Now(), e) && ThreadOk(Now(), t);
        events := events[e := events[e].(waiters := events[e].waiters[1..])];
        threads := threads[t := threads[t].(event := None)];
        Run(t);
      } else {
        events := events[e := events[e].(signal := true)];
      }
    }

    /** scheduler_start_twin: the caller waits, and its twin runs, last in line. */
    method EnterKernel()
      requires Inv(Now()) && CurrentIs(Now(), User) && threads[current.value].status == Running
      modifies this
      ensures old(threads[current.value].twin.Some?) && Now() == StartTwin(old(Now())) && Inv(Now())
      ensures var t, k := old(current.value), old(threads[current.value].twin.value);
              && t in threads && threads[t].status == Waiting && k in threads && threads[k].status == Running
              && SentToBack(old(Now()), Now(), k) && current == None
    {
      var t := current.value;
      StartTwinEffect(Now());
      assert ThreadOk(Now(), t) && ThreadOk(Now(), threads[t].twin.value);
      StartTwinOk(Now());
      threads := threads[t := threads[t].(status := Waiting)];
      var twin := threads[t].twin.value;
      current := None;
      Run(twin);
    }

    /** scheduler_return_twin0 and 1: the twin stops, and the user thread is last in line,
        running again unless it was killed. */
    method LeaveKernel()
      requires Inv(Now()) && CurrentIs(Now(), Kernel) && threads[current.value].twin.Some?
      modifies this
      ensures Now() == ReturnTwin(old(Now())) && Inv(Now())
      ensures var k, t := old(current.value), old(threads[current.value].twin.value);
              && t in old(threads) && t in threads && k in threads && threads[k].status == Stopped
              && threads[t].status == (if old(threads)[t].status == Dead then Dead else Running)
              && SentToBack(old(Now()), Now(), t) && current == None
    {
      var k := current.value;
      ReturnTwinEffect(Now());
      assert ThreadOk(Now(), k) && ThreadOk(Now(), threads[k].twin.value);
      ReturnTwinOk(Now());
      threads := threads[k := threads[k].(status := Stopped)];
      var twin := threads[k].twin.value;
      current := None;
      if threads[twin].status == Dead {
        Queue(twin);
      } else {
        Run(twin);
      }
    }

    /** scheduler_yield: returns with a thread on the core, or with every queue empty
        (where the original waits for an interrupt). */
    method YieldCore()
      requires Inv(Now())
      modifies this
      ensures Now() == Yield(old(Now())) && Inv(Now()) && Picked(Requeue(old(Now())), Now(), 0)
    {
      hide Inv, Dispatch, Picked, FreeThread, FreeOne;
      ghost var start := Requeue(Now());
      YieldOk(Now());
      RequeueOk(Now());
      if current.Some? {
        CurrentNotQueued(Now());
        Queue(current.value);
        current := None;
      }
      SizeKept(Now());
      var i := 0;
      while i < PRIORITIES
        invariant i <= PRIORITIES == |queues| && Inv(Now()) && current.None?
        invariant Dispatch(Now(), i) == Dispatch(start, 0)
      {
        while queues[i] != []
          invariant i < PRIORITIES == |queues| && Inv(Now()) && current.None?
          invariant Dispatch(Now(), i) == Dispatch(start, 0)
          decreases |queues[i]|
        {
          ghost var s := Now();
          var t := queues[i][0];
          HeadStatus(s, i);
          DispatchStep(s, i);
          queues := queues[i := queues[i][1..]];
          if threads[t].status == Running {
            current := Some(t);
            return;
          } else if threads[t].status == Dead {
            FreeOk(s, i);
            FreeKeepsQueues(Now(), t);
            Free(t);
          }
        }
        DispatchStep(Now(), i);
        i := i + 1;
      }
      DispatchStep(Now(), i);
    }

    /** thread_free */
    method Free(t: nat)
      modifies this`threads, this`events
      ensures Now() == FreeThread(old(Now()), t)
    {
      if t in threads && threads[t].twin.Some? {
        FreeOnly(threads[t].twin.value);
      }
      FreeOnly(t);
    }

    method FreeOnly(t: nat)
      modifies this`threads, this`events
      ensures Now() == FreeOne(old(Now()), t)
    {
      if t in threads {
        var th := threads[t];
        if th.status == Blocked && th.event.Some? && th.event.value in events {
          var e := th.event.value;
          events := events[e := events[e].(waiters := Unlinked(events[e].waiters, t))];
        }
        threads := threads - {t};
      }
    }
  }

  lemma DispatchStep(s: Sched, i: nat)
    ensures i >= |s.queues| ==> Dispatch(s, i) == s
    ensures i < |s.queues| && s.queues[i] == [] ==> Dispatch(s, i) == Dispatch(s, i + 1)
    ensures i < |s.queues| && s.queues[i] != [] ==>
            var t := s.queues[i][0];
            match StatusOf(s.threads, t)
            case Running => Dispatch(s, i) == Pop(s, i).(current := Some(t))
            case Dead => Dispatch(s, i) == Dispatch(FreeThread(Pop(s, i), t), i)
            case _ => Dispatch(s, i) == Dispatch(Pop(s, i), i)
  {
    hide FreeThread;
  }
}
