/** Lazy fork refines eager copying, over every run. */
module CowRefines {
  import opened CowState
  import opened CowBase
  import opened CowView
  import opened CowSteps
  import opened CowFault
  import opened CowFork
  import opened CowStore
  import opened CowExit
  import opened CowKept
  import Eager

  /** A mapping of `n` pages starts at page `v` of context `c`. */
  ghost predicate MappingAt(s: State, c: Ctx, v: nat, n: nat) {
    && c in s.reserved && v in s.reserved[c] && s.reserved[c][v] in s.lends
    && s.lends[s.reserved[c][v]].ctx == c
    && s.lends[s.reserved[c][v]].vpage == v && s.lends[s.reserved[c][v]].pages == n
  }

  /** What a caller must respect, and what the allocators may answer: addresses
      not in use. Nothing is asked of counts, borrows or page tables. */
  ghost predicate Enabled(s: State, a: Eager.Label) {
    match a
    case NewProcess(c) => c !in s.lists
    case Segment(c, v, prot, kind, r, id, frames, init) => CanCreate(s, c, v, r, id, frames, init)
    case AddThread(c, v) => c in s.lists && c in s.stacks && c in s.reserved && v in s.reserved[c]
    case Fork(c, child, ids) =>
      && c in s.lists && child !in s.lists && c in s.stacks && s.stacks[c] != []
      && FreshNames(NewContext(s, child), c, child, s.lists[c], ids)
    case Store(c, v, off, b, r, id, frames) => StoreReady(s, c, v, id, r, frames)
    case Unmap(c, v, n) => MappingAt(s, c, v, n) && c in s.stacks && s.reserved[c][v] !in s.stacks[c]
    case Exit(c) => c in s.lists
    case Keep(r, kind, frames, init) => CanKeep(s, r, frames, init)
    case LendKept(c, v, prot, r, id, pages) => CanLendKept(s, c, v, r, id, pages) && MayLend(s.lends, r, prot)
    case LetGo(r) => IsKept(s, r)
  }

  /** One step. The links it follows are there under the invariant; without
      them it would go nowhere. */
  ghost function Step(s: State, a: Eager.Label): State
    requires Enabled(s, a)
  {
    match a
    case NewProcess(c) => NewContext(s, c)
    case Segment(c, v, prot, kind, r, id, frames, init) => CreateSegment(s, c, v, prot, kind, r, id, frames, init)
    case AddThread(c, v) => s.(stacks := s.stacks[c := s.stacks[c] + [s.reserved[c][v]]])
    case Fork(c, child, ids) => Fork(s, c, child, ids)
    case Store(c, v, off, b, r, id, frames) =>
      if v in s.pt[c] && Linked(s, s.reserved[c][v]) then UserStore(s, c, v, off, b, id, r, frames) else s
    case Unmap(c, v, n) => if Linked(s, s.reserved[c][v]) then Drop(s, s.reserved[c][v]) else s
    case Exit(c) => Exit(s, c)
    case Keep(r, kind, frames, init) => AddRoot(s, r, kind, frames, init)
    case LendKept(c, v, prot, r, id, pages) => CowKept.LendKept(s, c, v, prot, r, id)
    case LetGo(r) => Release(s, r)
  }

  lemma StepStore(s: State, a: Eager.Label)
    requires Inv(s) && Enabled(s, a) && a.Store?
    ensures Inv(Step(s, a)) && Abs(Step(s, a)) == Eager.Step(Abs(s), a)
  {
    hide Base, View, StacksOk, ModesOk, Eager.StoreAt, UserStore;
    if a.v in s.pt[a.c] {
      LendFact(s, s.reserved[a.c][a.v]);
      UserStoreOk(s, a.c, a.v, a.off, a.b, a.id, a.r, a.frames);
    } else {
      ViewKeys(s, a.c);
    }
  }

  lemma StepFork(s: State, a: Eager.Label)
    requires Inv(s) && Enabled(s, a) && a.Fork?
    ensures Inv(Step(s, a)) && Abs(Step(s, a)) == Eager.Step(Abs(s), a)
  {
    hide Base, View, StacksOk, ModesOk, Fork, FreshNames;
    ContextFact(s, a.c);
    ForkOk(s, a.c, a.child, a.ids);
  }

  lemma StepSegment(s: State, a: Eager.Label)
    requires Inv(s) && Enabled(s, a) && a.Segment?
    ensures Inv(Step(s, a)) && Abs(Step(s, a)) == Eager.Step(Abs(s), a)
  {
    hide Base, View, StacksOk, ModesOk, CreateSegment, Eager.NewCells;
    CreateSegmentOk(s, a.c, a.v, a.prot, a.kind, a.r, a.id, a.frames, a.init);
    CreateSegmentBase(s, a.c, a.v, a.prot, a.kind, a.r, a.id, a.frames, a.init);
  }

  lemma StepUnmap(s: State, a: Eager.Label)
    requires Inv(s) && Enabled(s, a) && a.Unmap?
    ensures Inv(Step(s, a)) && Abs(Step(s, a)) == Eager.Step(Abs(s), a)
  {
    hide Base, View, StacksOk, ModesOk, Drop;
    LendFact(s, s.reserved[a.c][a.v]);
    AbsUnmap(s, s.reserved[a.c][a.v]);
  }

  lemma StepExit(s: State, a: Eager.Label)
    requires Inv(s) && Enabled(s, a) && a.Exit?
    ensures Inv(Step(s, a)) && Abs(Step(s, a)) == Eager.Step(Abs(s), a)
  {
    hide Base, View, StacksOk, ModesOk, CowSteps.Exit;
    ExitOk(s, a.c);
  }

  lemma StepThread(s: State, a: Eager.Label)
    requires Inv(s) && Enabled(s, a) && a.AddThread?
    ensures Inv(Step(s, a)) && Abs(Step(s, a)) == Eager.Step(Abs(s), a)
  {
    hide Base, View, ModesOk;
    var t := Step(s, a);
    ContextFact(s, a.c);
    CloneBase(s, t);
    ReservedListed(s, a.c, a.v);
    AbsSame(s, t);
  }

  lemma ReservedListed(s: State, c: Ctx, v: nat)
    requires Base(s) && c in s.reserved && v in s.reserved[c] && c in s.lists
    ensures s.reserved[c][v] in s.lists[c]
  {
    hide FramesOk, CountsOk, SlotsOk, LendersOk;
  }

  lemma StepKept(s: State, a: Eager.Label)
    requires Inv(s) && Enabled(s, a) && (a.Keep? || a.LendKept? || a.LetGo?)
    ensures Inv(Step(s, a)) && Abs(Step(s, a)) == Eager.Step(Abs(s), a)
  {
    hide Base, View, ModesOk, StacksOk, CowKept.LendKept, Release, AddRoot, Eager.NewCells, CanKeep, CanLendKept;
    match a
    case Keep(r, kind, frames, init) => KeepOk(s, r, kind, frames, init);
    case LendKept(c, v, prot, r, id, pages) => LendKeptOk(s, c, v, prot, r, id, pages);
    case LetGo(r) => LetGoOk(s, r);
  }

  lemma StepNew(s: State, a: Eager.Label)
    requires Inv(s) && Enabled(s, a) && a.NewProcess?
    ensures Inv(Step(s, a)) && Abs(Step(s, a)) == Eager.Step(Abs(s), a)
  {
    hide Base, View, StacksOk, ModesOk, NewContext;
    NewContextOk(s, a.c);
  }

  /** Every step of the copy-on-write manager keeps the invariant and does to
      every process's memory what the eager step does. */
  lemma StepRefines(s: State, a: Eager.Label)
    requires Inv(s) && Enabled(s, a)
    ensures Inv(Step(s, a)) && Abs(Step(s, a)) == Eager.Step(Abs(s), a)
  {
    hide Inv, Enabled, Step, Abs, Eager.Step;
    match a {
      case NewProcess(_) => StepNew(s, a);
      case Segment(_, _, _, _, _, _, _, _) => StepSegment(s, a);
      case AddThread(_, _) => StepThread(s, a);
      case Fork(_, _, _) => StepFork(s, a);
      case Store(_, _, _, _, _, _, _) => StepStore(s, a);
      case Unmap(_, _, _) => StepUnmap(s, a);
      case Exit(_) => StepExit(s, a);
      case Keep(_, _, _, _) => StepKept(s, a);
      case LendKept(_, _, _, _, _, _) => StepKept(s, a);
      case LetGo(_) => StepKept(s, a);
    }
  }

  /** `states` is a run of the manager under `labels`. */
  ghost predicate IsRun(states: seq<State>, labels: seq<Eager.Label>) {
    && |states| == |labels| + 1
    && forall i :: 0 <= i < |labels| ==> Enabled(states[i], labels[i]) && states[i + 1] == Step(states[i], labels[i])
  }

  const Boot: State := State(map[], map[], map[], map[], map[], map[], map[], map[], map[])

  lemma BootOk()
    ensures Inv(Boot) && Abs(Boot) == map[]
  {
  }

  /** In every run, from any state that has the invariant, it holds at every point,
      and each process sees exactly the memory it would see had every fork copied at
      once. */
  lemma {:induction false} RunRefines(states: seq<State>, labels: seq<Eager.Label>, n: nat)
    requires IsRun(states, labels) && Inv(states[0]) && n <= |labels|
    ensures Inv(states[n]) && Abs(states[n]) == Eager.Run(Abs(states[0]), labels[..n])
  {
    hide Inv, Enabled, Step, Abs;
    if n == 0 {
      assert labels[..0] == [];
    } else {
      RunRefines(states, labels, n - 1);
      assert states[n - 1 + 1] == Step(states[n - 1], labels[n - 1]);
      StepRefines(states[n - 1], labels[n - 1]);
      assert labels[..n] == labels[..n - 1] + [labels[n - 1]];
      RunSnoc(Abs(states[0]), labels[..n - 1], labels[n - 1]);
    }
  }

  /** From an empty system: the world of eager copies starts empty. */
  lemma BootRefines(states: seq<State>, labels: seq<Eager.Label>, n: nat)
    requires IsRun(states, labels) && states[0] == Boot && n <= |labels|
    ensures Inv(states[n]) && Abs(states[n]) == Eager.Run(map[], labels[..n])
  {
    hide Inv, Enabled, Step, Abs;
    BootOk();
    RunRefines(states, labels, n);
  }

  lemma {:induction false} RunSnoc(w: Eager.World, labels: seq<Eager.Label>, a: Eager.Label)
    ensures Eager.Run(w, labels + [a]) == Eager.Step(Eager.Run(w, labels), a)
    decreases |labels|
  {
    hide Eager.Step;
    if labels == [] {
      assert ([] + [a])[1..] == [];
    } else {
      assert (labels + [a])[1..] == labels[1..] + [a];
      RunSnoc(Eager.Step(w, labels[0]), labels[1..], a);
    }
  }
}
