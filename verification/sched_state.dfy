/** Threads, ready queues and events, and what each scheduler call does to them. */
module SchedState {
  import opened Wrappers

  datatype Level = User | Kernel

  /** TS_RUNNING, TS_STOPPED, TS_WAITING, TS_UNINTERRUPTABLE_WAIT and TS_DEAD */
  datatype Status = Running | Stopped | Waiting | Blocked | Dead

  datatype Thread = Thread(level: Level, status: Status, priority: nat, twin: Option<nat>, event: Option<nat>)
  datatype Event = Event(signal: bool, waiters: seq<nat>)

  type Threads = map<nat, Thread>
  type Queues = seq<seq<nat>>
  type Events = map<nat, Event>

  datatype Sched = Sched(threads: Threads, queues: Queues, current: Option<nat>, events: Events)

  const PRIORITIES: nat := 4
  const MEDIUM: nat := 2

  // -------------------------------------------------------------- primitives

  function WithStatus(threads: Threads, t: nat, st: Status): Threads {
    if t in threads then threads[t := threads[t].(status := st)] else threads
  }

  function StatusOf(threads: Threads, t: nat): Status {
    if t in threads then threads[t].status else Stopped
  }

  /** scheduler_queue */
  function Queued(s: Sched, t: nat): Sched {
    if t in s.threads && s.threads[t].status in {Running, Dead} && s.threads[t].priority < |s.queues| then
      s.(queues := s.queues[s.threads[t].priority := s.queues[s.threads[t].priority] + [t]])
    else s
  }

  /** thread_run */
  function RunThread(s: Sched, t: nat): Sched {
    if StatusOf(s.threads, t) != Running then Queued(s.(threads := WithStatus(s.threads, t, Running)), t) else s
  }

  /** thread_kill */
  function KillThread(s: Sched, t: nat): Sched {
    var s' := if StatusOf(s.threads, t) != Running then Queued(s, t) else s;
    s'.(threads := WithStatus(s'.threads, t, Dead))
  }

  /** thread_create_user, with its kernel twin k */
  function CreateUser(s: Sched, t: nat, k: nat): Sched {
    var more := s.threads[k := Thread(Kernel, Stopped, MEDIUM, Some(t), None)];
    s.(threads := more[t := Thread(User, Stopped, MEDIUM, Some(k), None)])
  }

  /** thread_create_kernel */
  function CreateKernel(s: Sched, k: nat): Sched {
    s.(threads := s.threads[k := Thread(Kernel, Stopped, MEDIUM, None, None)])
  }

  /** event_init */
  function CreateEvent(s: Sched, e: nat): Sched {
    s.(events := s.events[e := Event(false, [])])
  }

  /** scheduler_await, by the current thread; it stays current until it yields. */
  function Await(s: Sched, e: nat): Sched
    requires e in s.events && s.current.Some? && s.current.value in s.threads
  {
    var t := s.current.value;
    if s.events[e].signal then s.(events := s.events[e := s.events[e].(signal := false)])
    else s.(threads := s.threads[t := s.threads[t].(status := Blocked, event := Some(e))],
            events := s.events[e := s.events[e].(waiters := s.events[e].waiters + [t])],
            current := None)
  }

  /** event_invoke */
  function Invoke(s: Sched, e: nat): Sched
    requires e in s.events
  {
    var ws := s.events[e].waiters;
    if ws == [] then s.(events := s.events[e := s.events[e].(signal := true)])
    else
      var t := ws[0];
      var freed := s.(events := s.events[e := s.events[e].(waiters := ws[1..])]);
      RunThread(if t in s.threads then freed.(threads := s.threads[t := s.threads[t].(event := None)]) else freed, t)
  }

  /** scheduler_start_twin, by the current user thread */
  function StartTwin(s: Sched): Sched
    requires s.current.Some? && s.current.value in s.threads && s.threads[s.current.value].twin.Some?
  {
    var t := s.current.value;
    RunThread(s.(threads := WithStatus(s.threads, t, Waiting), current := None), s.threads[t].twin.value)
  }

  /** scheduler_return_twin0 and 1, by the current kernel thread */
  function ReturnTwin(s: Sched): Sched
    requires s.current.Some? && s.current.value in s.threads && s.threads[s.current.value].twin.Some?
  {
    var k := s.current.value;
    var t := s.threads[k].twin.value;
    var s' := s.(threads := WithStatus(s.threads, k, Stopped), current := None);
    if StatusOf(s'.threads, t) == Dead then Queued(s', t) else RunThread(s', t)
  }

  function Unlinked(waiters: seq<nat>, t: nat): seq<nat> {
    if waiters == [] then [] else if waiters[0] == t then waiters[1..] else [waiters[0]] + Unlinked(waiters[1..], t)
  }

  /** waiter_free */
  function WithoutWaiter(events: Events, e: nat, t: nat): Events
    requires e in events
  {
    events[e := events[e].(waiters := Unlinked(events[e].waiters, t))]
  }

  /** The part of thread_free that concerns the thread itself. */
  function FreeOne(s: Sched, t: nat): Sched {
    if t !in s.threads then s
    else
      var th := s.threads[t];
      var events := if th.status == Blocked && th.event.Some? && th.event.value in s.events
                    then WithoutWaiter(s.events, th.event.value, t)
                    else s.events;
      s.(threads := s.threads - {t}, events := events)
  }

  /** thread_free: the twin first */
  function FreeThread(s: Sched, t: nat): Sched {
    if t in s.threads && s.threads[t].twin.Some? then FreeOne(FreeOne(s, s.threads[t].twin.value), t) else FreeOne(s, t)
  }

  /** The head of queue i taken off it. */
  function Pop(s: Sched, i: nat): Sched
    requires i < |s.queues| && s.queues[i] != []
  {
    s.(queues := s.queues[i := s.queues[i][1..]])
  }

  /** scheduler_yield, first part: the current thread goes to the back of its queue. */
  function Requeue(s: Sched): Sched {
    match s.current
    case None => s
    case Some(t) => Queued(s, t).(current := None)
  }

  lemma FreeKeepsQueues(s: Sched, t: nat)
    ensures FreeThread(s, t).queues == s.queues && FreeThread(s, t).current == s.current
  {
  }

  /** scheduler_yield, second part: serve the queues from the highest priority on,
      until a thread runs or, with all of them empty, the core idles. */
  function Dispatch(s: Sched, i: nat): Sched
    decreases |s.queues| - i, if i < |s.queues| then |s.queues[i]| else 0
  {
    if i >= |s.queues| then s
    else if s.queues[i] == [] then Dispatch(s, i + 1)
    else
      var t := s.queues[i][0];
      FreeKeepsQueues(Pop(s, i), t);
      match StatusOf(s.threads, t)
      case Running => Pop(s, i).(current := Some(t))
      case Dead => Dispatch(FreeThread(Pop(s, i), t), i)
      case _ => Dispatch(Pop(s, i), i)
  }

  function Yield(s: Sched): Sched {
    Dispatch(Requeue(s), 0)
  }

  // --------------------------------------------------------------- invariant

  /** On a core or in line for one. */
  predicate Ready(s: Sched, t: nat) {
    || s.current == Some(t)
    || (t in s.threads && s.threads[t].priority < |s.queues| && t in s.queues[s.threads[t].priority])
  }

  /** A user thread and its kernel twin: while the twin is at work the user thread
      waits (or has been killed), and is nowhere near a core. */
  predicate PairOk(s: Sched, t: nat, k: nat)
    requires t in s.threads && k in s.threads
  {
    if s.threads[k].status == Stopped then s.threads[t].status in {Running, Stopped, Dead}
    else s.threads[t].status in {Waiting, Dead} && !Ready(s, t)
  }

  predicate TwinOk(s: Sched, t: nat, u: nat)
    requires t in s.threads
  {
    && u in s.threads && s.threads[u].twin == Some(t) && s.threads[u].level != s.threads[t].level
    && (s.threads[t].level == User ==> PairOk(s, t, u))
  }

  predicate ThreadOk(s: Sched, t: nat)
    requires t in s.threads
  {
    var th := s.threads[t];
    && th.priority < PRIORITIES
    && (th.status == Running ==> Ready(s, t))
    && (Ready(s, t) ==> th.status in {Running, Dead})
    && (th.status == Blocked <==> th.event.Some?)
    && (th.event.Some? ==> th.event.value in s.events && t in s.events[th.event.value].waiters)
    && (if th.level == User then th.twin.Some? && th.status != Blocked else th.status in {Running, Stopped, Blocked})
    && (th.twin.Some? ==> TwinOk(s, t, th.twin.value))
  }

  predicate NoRepeats(q: seq<nat>) {
    forall a, b :: 0 <= a < b < |q| ==> q[a] != q[b]
  }

  predicate QueueOk(s: Sched, i: nat)
    requires i < |s.queues|
  {
    && NoRepeats(s.queues[i])
    && forall t :: t in s.queues[i] ==> t in s.threads && s.threads[t].priority == i && s.current != Some(t)
  }

  predicate EventOk(s: Sched, e: nat)
    requires e in s.events
  {
    && NoRepeats(s.events[e].waiters)
    && (s.events[e].signal ==> s.events[e].waiters == [])
    && forall t :: t in s.events[e].waiters ==> t in s.threads && s.threads[t].event == Some(e)
  }

  ghost predicate Inv(s: Sched) {
    && |s.queues| == PRIORITIES
    && (forall t :: t in s.threads ==> ThreadOk(s, t))
    && (forall i :: 0 <= i < |s.queues| ==> QueueOk(s, i))
    && (forall e :: e in s.events ==> EventOk(s, e))
    && (s.current.Some? ==> s.current.value in s.threads)
  }
}
