/** What scheduler_yield chooses, and whom it buries on the way. */
module SchedDispatch {
  import opened Wrappers
  import opened SchedState
  import opened SchedSteps

  /** The queued threads in the order they are served. */
  function Line(queues: Queues, i: nat): seq<nat>
    decreases |queues| - i
  {
    if i >= |queues| then [] else queues[i] + Line(queues, i + 1)
  }

  function FirstRunning(threads: Threads, line: seq<nat>): (n: nat)
    ensures n <= |line|
  {
    if line == [] || StatusOf(threads, line[0]) == Running then 0 else 1 + FirstRunning(threads, line[1..])
  }

  /** These threads and their twins. */
  function WithTwins(threads: Threads, ts: seq<nat>): set<nat> {
    if ts == [] then {}
    else {ts[0]} + (if ts[0] in threads && threads[ts[0]].twin.Some? then {threads[ts[0]].twin.value} else {})
           + WithTwins(threads, ts[1..])
  }

  /** `after` is `before` once the core has picked the first running thread in line
      (or found none), those ahead of it having been freed with their twins. */
  ghost predicate Picked(before: Sched, after: Sched, i: nat) {
    var line := Line(before.queues, i);
    var n := FirstRunning(before.threads, line);
    && (forall j :: 0 <= j < n ==> StatusOf(before.threads, line[j]) == Dead)
    && after.threads == before.threads - WithTwins(before.threads, line[..n])
    && after.events == before.events
    && after.current == (if n < |line| then Some(line[n]) else None)
    && Line(after.queues, i) == (if n < |line| then line[n + 1..] else [])
  }

  lemma LineHead(queues: Queues, i: nat)
    requires i < |queues| && queues[i] != []
    ensures Line(queues, i) == [queues[i][0]] + Line(queues[i := queues[i][1..]], i)
  {
    var less := queues[i := queues[i][1..]];
    LineSame(queues, less, i + 1);
    assert queues[i] == [queues[i][0]] + queues[i][1..];
  }

  lemma {:induction false} LineSame(a: Queues, b: Queues, i: nat)
    requires |a| == |b| && forall j :: i <= j < |a| ==> a[j] == b[j]
    ensures Line(a, i) == Line(b, i)
    decreases |a| - i
  {
    if i < |a| { LineSame(a, b, i + 1); }
  }

  lemma {:induction false} LineIn(queues: Queues, i: nat, t: nat)
    ensures t in Line(queues, i) <==> exists j :: i <= j < |queues| && t in queues[j]
    decreases |queues| - i
  {
    if i < |queues| {
      LineIn(queues, i + 1, t);
      if t in queues[i] {
        assert t in Line(queues, i);
      } else if j :| i <= j < |queues| && t in queues[j] {
        assert i + 1 <= j && t in Line(queues, i + 1);
      }
    }
  }

  lemma {:induction false} SameFirst(a: Threads, b: Threads, line: seq<nat>)
    requires forall t :: t in line && t in a ==> t in b && b[t] == a[t]
    requires forall t :: t in line && t !in a ==> t !in b
    ensures FirstRunning(a, line) == FirstRunning(b, line)
    ensures forall n :: 0 <= n <= |line| ==> WithTwins(a, line[..n]) == WithTwins(b, line[..n])
  {
    if line != [] {
      SameFirst(a, b, line[1..]);
      forall n | 0 < n <= |line| ensures WithTwins(a, line[..n]) == WithTwins(b, line[..n]) {
        assert line[..n][0] == line[0] && line[..n][1..] == line[1..][..n - 1];
      }
    }
  }

  /** Freeing the head and serving the rest is serving the whole line. */
  lemma PickedDead(s: Sched, m: Sched, n: Sched, i: nat)
    requires Inv(s) && s.current.None? && i < |s.queues| && s.queues[i] != []
    requires StatusOf(s.threads, s.queues[i][0]) == Dead
    requires m == FreeThread(Pop(s, i), s.queues[i][0]) && Picked(m, n, i)
    ensures Picked(s, n, i)
  {
    hide FreeThread, Inv, WithTwins, Untouched, Line, FirstRunning;
    var t := s.queues[i][0];
    FreeOk(s, i);
    FreeIsSafe(s, i);
    LineHead(s.queues, i);
    var k, rest := s.threads[t].twin.value, Line(m.queues, i);
    NotInLine(Pop(s, i), t, i);
    NotInLine(Pop(s, i), k, i);
    FrontDead(s.threads, m.threads, t, k, rest);
    var line, f := [t] + rest, FirstRunning(m.threads, rest);
    assert Line(s.queues, i) == line;
    assert f < |rest| ==> line[f + 1] == rest[f] && line[f + 2..] == rest[f + 1..];
  }

  /** A dead thread in front of a line, and the line without it and its twin. */
  lemma FrontDead(threads: Threads, threads': Threads, t: nat, k: nat, rest: seq<nat>)
    requires t in threads && threads[t].twin == Some(k) && threads[t].status == Dead
    requires threads' == threads - {t, k} && t !in rest && k !in rest
    requires forall j :: 0 <= j < FirstRunning(threads', rest) ==> StatusOf(threads', rest[j]) == Dead
    ensures var line, f := [t] + rest, FirstRunning(threads', rest);
            && FirstRunning(threads, line) == f + 1
            && threads' - WithTwins(threads', rest[..f]) == threads - WithTwins(threads, line[..f + 1])
            && forall j :: 0 <= j < f + 1 ==> StatusOf(threads, line[j]) == Dead
  {
    hide WithTwins;
    var line, f := [t] + rest, FirstRunning(threads', rest);
    SameFirst(threads, threads', rest);
    FrontTwins(threads, t, k, rest, f);
    assert line[1..] == rest;
    forall j | 0 <= j < f + 1 ensures StatusOf(threads, line[j]) == Dead {
      if j > 0 { assert StatusOf(threads', rest[j - 1]) == Dead; }
    }
  }

  lemma NotInLine(s: Sched, t: nat, i: nat)
    requires Untouched(s, t)
    ensures t !in Line(s.queues, i)
  {
    LineIn(s.queues, i, t);
  }

  lemma FrontTwins(threads: Threads, t: nat, k: nat, rest: seq<nat>, f: nat)
    requires f <= |rest| && t in threads && threads[t].twin == Some(k)
    ensures WithTwins(threads, ([t] + rest)[..f + 1]) == {t, k} + WithTwins(threads, rest[..f])
  {
    var line := [t] + rest;
    assert line[..f + 1][0] == t && line[..f + 1][1..] == rest[..f];
  }

  /** Serving the queues keeps the invariant and picks the first running thread in
      order of priority, then of arrival. */
  lemma {:induction false} DispatchOk(s: Sched, i: nat)
    requires Inv(s) && s.current.None? && i <= |s.queues|
    ensures Inv(Dispatch(s, i)) && Picked(s, Dispatch(s, i), i)
    ensures forall j :: 0 <= j < i ==> Dispatch(s, i).queues[j] == s.queues[j]
    decreases |s.queues| - i, if i < |s.queues| then |s.queues[i]| else 0
  {
    hide Inv, FreeThread, Picked, Line, FirstRunning, WithTwins;
    if i >= |s.queues| {
      PickedNone(s, i);
    } else if s.queues[i] == [] {
      SizeKept(s);
      DispatchOk(s, i + 1);
      SizeKept(Dispatch(s, i + 1));
      PickedLater(s, Dispatch(s, i + 1), i);
    } else {
      HeadStatus(s, i);
      if StatusOf(s.threads, s.queues[i][0]) == Running {
        ResumeOk(s, i);
        PickedHead(s, i);
      } else {
        FreeOk(s, i);
        var m := FreeThread(Pop(s, i), s.queues[i][0]);
        DispatchOk(m, i);
        PickedDead(s, m, Dispatch(m, i), i);
      }
    }
  }

  lemma PickedNone(s: Sched, i: nat)
    requires i >= |s.queues| && s.current.None?
    ensures Picked(s, s, i)
  {
  }

  lemma PickedLater(s: Sched, n: Sched, i: nat)
    requires i < |s.queues| == |n.queues| && s.queues[i] == [] && n.queues[i] == [] && Picked(s, n, i + 1)
    ensures Picked(s, n, i)
  {
    assert Line(s.queues, i) == Line(s.queues, i + 1) && Line(n.queues, i) == Line(n.queues, i + 1);
  }

  lemma PickedHead(s: Sched, i: nat)
    requires i < |s.queues| && s.queues[i] != [] && StatusOf(s.threads, s.queues[i][0]) == Running
    ensures Picked(s, Pop(s, i).(current := Some(s.queues[i][0])), i)
  {
    LineHead(s.queues, i);
  }

  lemma SizeKept(s: Sched)
    requires Inv(s)
    ensures |s.queues| == PRIORITIES
  {
  }

  lemma HeadStatus(s: Sched, i: nat)
    requires Inv(s) && i < |s.queues| && s.queues[i] != []
    ensures s.queues[i][0] in s.threads && StatusOf(s.threads, s.queues[i][0]) in {Running, Dead}
  {
    assert QueueOk(s, i) && ThreadOk(s, s.queues[i][0]);
  }
}
