/** Threads and their stacks: whatever faults, forks and unmappings move underneath it,
    a thread's stack stays where it is, with the rights it has. */
module CowStacks {
  import opened CowState
  import opened CowBase
  import opened CowView
  import opened CowSteps
  import opened CowFault
  import opened CowFork
  import opened CowStore
  import opened CowExit
  import opened CowKept
  import opened CowRefines
  import Eager

  /** Thread i keeps its stack if the mapping it names is kept. */
  lemma SameNames(s: State, t: State, c: Ctx, i: nat)
    requires Inv(s) && c in s.stacks && i < |s.stacks[c]|
    requires c in t.stacks && i < |t.stacks[c]| && t.stacks[c][i] == s.stacks[c][i]
    requires var id := s.stacks[c][i]; id in s.lends ==> id in t.lends && t.lends[id] == s.lends[id]
    ensures StackKept(s, t, c, i)
  {
    hide Inv;
    StackLive(s, c, i);
  }

  lemma StoreStacks(s: State, a: Eager.Label, c: Ctx, i: nat)
    requires Inv(s) && Enabled(s, a) && a.Store? && c in s.stacks && i < |s.stacks[c]|
    ensures StackKept(s, Step(s, a), c, i)
  {
    hide Base, ModesOk, StacksOk, View, PrepareWrite, FreshFrames, Filled;
    StackLive(s, c, i);
    if a.v in s.pt[a.c] && !s.pt[a.c][a.v].write {
      var id := s.reserved[a.c][a.v];
      LendFact(s, id);
      if s.lends[id].kind.Borrowed? {
        FaultLends(s, id, a.id, a.r, a.frames);
        FaultStacks(s, id, a.id, a.r, a.frames);
      } else {
        PrepareWriteOk(s, id, a.id, a.r, a.frames);
      }
    }
  }

  lemma UnmapStacks(s: State, a: Eager.Label, c: Ctx, i: nat)
    requires Inv(s) && Enabled(s, a) && a.Unmap? && c in s.stacks && i < |s.stacks[c]|
    ensures StackKept(s, Step(s, a), c, i)
  {
    hide Base, ModesOk, StacksOk, View, Filled, SpanOf, Without;
    StackLive(s, c, i);
    LendFact(s, s.reserved[a.c][a.v]);
  }

  lemma ExitStacks(s: State, a: Eager.Label, c: Ctx, i: nat)
    requires Inv(s) && Enabled(s, a) && a.Exit? && c != a.c && c in s.stacks && i < |s.stacks[c]|
    ensures StackKept(s, Step(s, a), c, i)
  {
    hide Base, ModesOk, StacksOk, View, DropAll;
    StackLive(s, c, i);
    QuietThreads(s, a.c);
    DropAllOk(s.(stacks := s.stacks[a.c := []]), a.c);
  }

  /** One step: every thread of a process that does not exit keeps its stack. */
  lemma StepStacks(s: State, a: Eager.Label, c: Ctx, i: nat)
    requires Inv(s) && Enabled(s, a) && a != Eager.Exit(c) && c in s.stacks && i < |s.stacks[c]|
    ensures StackKept(s, Step(s, a), c, i)
  {
    hide Base, ModesOk, View, Filled, CreateSegment, Release, CowSteps.Fork, CowSteps.Exit, PrepareWrite, Drop;
    hide FreshNames, FreshFrames, Places, Contents, Entries, Reserve, StackLike, HasTwin, SpanFree;
    StackLive(s, c, i);
    match a
    case NewProcess(_) =>
    case Segment(d, v, prot, kind, r, id, frames, init) =>
      CreateSegmentLends(s, d, v, prot, kind, r, id, frames, init);
    case AddThread(_, _) =>
    case Fork(d, child, ids) => ForkOk(s, d, child, ids);
    case Store(_, _, _, _, _, _, _) => StoreStacks(s, a, c, i);
    case Unmap(_, _, _) => UnmapStacks(s, a, c, i);
    case Exit(_) => ExitStacks(s, a, c, i);
    case Keep(_, _, _, _) =>
    case LendKept(_, _, _, _, _, _) =>
    case LetGo(r) => ReleaseLinks(s, r);
  }

  lemma KeptOn(s: State, t: State, u: State, c: Ctx, i: nat)
    requires StackKept(s, t, c, i) && StackKept(t, u, c, i)
    ensures StackKept(s, u, c, i)
  {
  }

  /** Over any stretch of any run a thread keeps its stack until its process exits: the
      mapping it names is always live, in its own process, at the same pages and with
      the same rights, however often it has been lent anew. */
  lemma {:induction false} RunStacks(states: seq<State>, labels: seq<Eager.Label>, m: nat, n: nat, c: Ctx, i: nat)
    requires IsRun(states, labels) && Inv(states[0]) && m <= n <= |labels|
    requires c in states[m].stacks && i < |states[m].stacks[c]|
    requires forall k :: m <= k < n ==> labels[k] != Eager.Exit(c)
    ensures StackKept(states[m], states[n], c, i)
    decreases n
  {
    hide Inv, Enabled, Step;
    if m == n {
      RunRefines(states, labels, m);
      StackLive(states[m], c, i);
    } else {
      RunStacks(states, labels, m, n - 1, c, i);
      RunRefines(states, labels, n - 1);
      assert states[n - 1 + 1] == Step(states[n - 1], labels[n - 1]);
      StepStacks(states[n - 1], labels[n - 1], c, i);
      KeptOn(states[m], states[n - 1], states[n], c, i);
    }
  }

  /** A forked process runs on the stack its parent runs on, page for page, for as long
      as neither exits. */
  lemma ForkedStack(states: seq<State>, labels: seq<Eager.Label>, m: nat, n: nat)
    requires IsRun(states, labels) && Inv(states[0]) && m < n <= |labels| && labels[m].Fork?
    requires forall k :: m < k < n ==> labels[k] != Eager.Exit(labels[m].c) && labels[k] != Eager.Exit(labels[m].child)
    ensures var c, child, s, t := labels[m].c, labels[m].child, states[m], states[n];
            && c in s.stacks && s.stacks[c] != [] && s.stacks[c][0] in s.lends
            && c in t.stacks && t.stacks[c] != [] && t.stacks[c][0] in t.lends
            && child in t.stacks && t.stacks[child] != [] && t.stacks[child][0] in t.lends
            && t.lends[t.stacks[child][0]].ctx == child
            && SameSpan(s.lends[s.stacks[c][0]], t.lends[t.stacks[c][0]])
            && SameSpan(s.lends[s.stacks[c][0]], t.lends[t.stacks[child][0]])
  {
    hide Inv, CowSteps.Fork, FreshNames, HasTwin;
    RunRefines(states, labels, m);
    var c, child, ids := labels[m].c, labels[m].child, labels[m].ids;
    assert states[m + 1] == CowSteps.Fork(states[m], c, child, ids);
    ForkOk(states[m], c, child, ids);
    assert StackKept(states[m], states[m + 1], c, 0);
    RunStacks(states, labels, m + 1, n, c, 0);
    RunStacks(states, labels, m + 1, n, child, 0);
  }
}
