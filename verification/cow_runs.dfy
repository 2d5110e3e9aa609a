/** What holds in every state of every run, besides the refinement: exact counts,
    no leaks, and one writer to a private page. A run may begin in any state that has
    the invariant, and the kernel may keep handles on roots of its own. */
module CowRuns {
  import opened CowState
  import opened CowBase
  import opened CowView
  import opened CowSteps
  import opened CowStore
  import opened CowExit
  import opened CowKept
  import opened CowRefines
  import CowFork
  import CowFault
  import Eager

  // -------------------------------------------------------------- open handles

  /** The handles that are open on a root. */
  function Held(handles: map<Id, nat>, r: Id): nat {
    if r in handles then handles[r] else 0
  }

  /** What a step opens or closes: only the kernel's own calls do. */
  function Opens(a: Eager.Label, r: Id): int {
    if a.Keep? && a.r == r then 1 else if a.LetGo? && a.r == r then -1 else 0
  }

  /** Handles opened less handles closed. */
  function Ledger(labels: seq<Eager.Label>, r: Id): int {
    if labels == [] then 0 else Ledger(labels[..|labels| - 1], r) + Opens(labels[|labels| - 1], r)
  }

  lemma FaultHandles(s: State, id: Id, id': Id, r: Id, frames: seq<Frame>)
    requires Linked(s, id) && FreshId(s, r) && |frames| == s.lends[id].pages && r !in s.handles
    ensures forall q :: Held(PrepareWrite(s, id, id', r, frames).handles, q) == Held(s.handles, q)
  {
    hide Entries, Reserve, SpanOf, Without, Places, Contents, RemapAll, CopyOf, Filled;
  }

  lemma {:induction false} ForkHandles(s: State, c: Ctx, child: Ctx, list: seq<Id>, names: seq<(Id, Id)>)
    ensures ForkAll(s, c, child, list, names).handles == s.handles
    decreases |list|
  {
    hide ForkOne, CanForkOne;
    if list != [] && names != [] && CanForkOne(s, c, child, list[0], names[0].0) {
      ForkOneHandles(s, c, child, list[0], names[0].0, names[0].1);
      ForkHandles(ForkOne(s, c, child, list[0], names[0].0, names[0].1), c, child, list[1..], names[1..]);
    }
  }

  lemma ForkOneHandles(s: State, c: Ctx, child: Ctx, id: Id, a: Id, b: Id)
    requires CanForkOne(s, c, child, id, a)
    ensures ForkOne(s, c, child, id, a, b).handles == s.handles
  {
    hide Entries, Reserve, SpanOf, Without, RemapAll, Filled;
  }

  lemma SegmentHandles(s: State, c: Ctx, v: nat, prot: Prot, kind: RootKind, r: Id, id: Id, frames: seq<Frame>,
                       init: seq<Page>)
    requires CowFault.CanCreate(s, c, v, r, id, frames, init)
    ensures CreateSegment(s, c, v, prot, kind, r, id, frames, init).handles == s.handles[r := 0]
  {
    hide Entries, Reserve, Places, Contents, SpanFree;
  }

  lemma ReturnedHandles(s: State, t: State, r: Id)
    requires Base(s) && Base(t) && RootsReturned(s, t)
    ensures Held(t.handles, r) == Held(s.handles, r)
  {
    hide ListsOk, LendersOk, FramesOk, TablesOk, LentFrom;
    assert r in s.handles <==> r in s.roots;
    assert r in t.handles <==> r in t.roots;
  }

  lemma HandleKeys(s: State)
    requires Base(s)
    ensures s.handles.Keys == s.roots.Keys
  {
  }

  lemma LetGoHandles(s: State, r: Id, q: Id)
    requires Base(s) && IsKept(s, r)
    ensures Held(Release(s, r).handles, q) == Held(s.handles, q) - (if q == r then 1 else 0)
  {
    hide ListsOk, LendersOk, FramesOk, TablesOk, LentFrom, Release;
    ReleaseIs(s, r);
  }

  /** Every step but the kernel's own gives back the handles it opens. */
  lemma StepHandles(s: State, a: Eager.Label, r: Id)
    requires Inv(s) && Enabled(s, a)
    ensures Held(Step(s, a).handles, r) == Held(s.handles, r) + Opens(a, r)
  {
    hide Base, ModesOk, StacksOk, ForkAll, CowSteps.Exit, Drop, CreateSegment, PrepareWrite, Release,
         CowFork.FreshNames, Places, Contents, RootsReturned, FreshFrames, SpanFree, Held;
    HandleKeys(s);
    match a
    case NewProcess(_) =>
    case Segment(c, v, prot, kind, q, id, frames, init) =>
      SegmentHandles(s, c, v, prot, kind, q, id, frames, init);
      HeldPut(s.handles, q, 0, r);
    case AddThread(_, _) =>
    case Fork(c, child, ids) => ForkHandles(NewContext(s, child), c, child, s.lists[c], ids);
    case Store(c, v, off, b, q, id, frames) =>
      if v in s.pt[c] && Linked(s, s.reserved[c][v]) { FaultHandles(s, s.reserved[c][v], id, q, frames); }
    case Unmap(c, v, _) => UnmapHandles(s, s.reserved[c][v], r);
    case Exit(c) => ExitHandles(s, c, r);
    case Keep(q, _, _, _) => HeldPut(s.handles, q, 1, r);
    case LendKept(_, _, _, _, _, _) =>
    case LetGo(q) => LetGoHandles(s, q, r);
  }

  lemma HeldPut(handles: map<Id, nat>, q: Id, n: nat, r: Id)
    requires q !in handles
    ensures Held(handles[q := n], r) == Held(handles, r) + (if r == q then n else 0)
  {
  }

  lemma UnmapHandles(s: State, id: Id, r: Id)
    requires Base(s) && id in s.lends
    ensures Linked(s, id) && Held(Drop(s, id).handles, r) == Held(s.handles, r)
  {
    hide Base, RootsReturned, Drop;
    LendFact(s, id);
    DropBase(s, id);
    DropRoots(s, id);
    ReturnedHandles(s, Drop(s, id), r);
  }

  lemma ExitHandles(s: State, c: Ctx, r: Id)
    requires Inv(s) && c in s.lists
    ensures Held(CowSteps.Exit(s, c).handles, r) == Held(s.handles, r)
  {
    hide Base, ModesOk, StacksOk, RootsReturned, CowSteps.Exit;
    ExitOk(s, c);
    ReturnedHandles(s, CowSteps.Exit(s, c), r);
  }

  /** The handles open on a root are those open at the start, with what the kernel has
      opened and closed since. */
  lemma {:induction false} RunHandles(states: seq<State>, labels: seq<Eager.Label>, n: nat, r: Id)
    requires IsRun(states, labels) && Inv(states[0]) && n <= |labels|
    ensures Inv(states[n]) && Held(states[n].handles, r) == Held(states[0].handles, r) + Ledger(labels[..n], r)
  {
    hide Inv, Enabled, Step, Held, Opens;
    RunRefines(states, labels, n);
    if n > 0 {
      RunRefines(states, labels, n - 1);
      RunHandles(states, labels, n - 1, r);
      assert states[n - 1 + 1] == Step(states[n - 1], labels[n - 1]);
      StepHandles(states[n - 1], labels[n - 1], r);
      assert labels[..n][..n - 1] == labels[..n - 1] && labels[..n][n - 1] == labels[n - 1];
    }
  }

  // ------------------------------------------------------------------- results

  /** A root's count is the number of handles open on it plus the number of live
      mappings lent from it, and is not zero; a handle or a mapping is never on a root
      that is gone. */
  lemma CountsInRuns(states: seq<State>, labels: seq<Eager.Label>, n: nat, r: Id)
    requires IsRun(states, labels) && Inv(states[0]) && n <= |labels|
    ensures var s := states[n]; var held := Held(states[0].handles, r) + Ledger(labels[..n], r);
            && (r in s.roots ==> s.roots[r].refs == held + |LentFrom(s.lends, r)| > 0)
            && (r !in s.roots ==> held == 0 && LentFrom(s.lends, r) == {})
  {
    hide Enabled, Step, FramesOk, TablesOk, ListsOk, ModesOk, StacksOk, Ledger;
    RunHandles(states, labels, n, r);
    HandleKeys(states[n]);
  }

  /** No frame leaks: one that is taken is mapped in some process, or belongs to a root
      on which a handle is open. */
  lemma TakenFramesAreMapped(states: seq<State>, labels: seq<Eager.Label>, n: nat, f: Frame)
    requires IsRun(states, labels) && Inv(states[0]) && n <= |labels| && f in states[n].owner
    ensures var s := states[n]; var r := s.owner[f].root;
            || Held(states[0].handles, r) + Ledger(labels[..n], r) > 0
            || exists c, p :: c in s.pt && p in s.pt[c] && s.pt[c][p].frame == f
  {
    hide Enabled, Step, Inv, Ledger, Held;
    var s := states[n];
    var r := s.owner[f].root;
    RunHandles(states, labels, n, r);
    CountsInRuns(states, labels, n, r);
    OwnedByRoot(s, f);
    if LentFrom(s.lends, r) != {} {
      var id :| id in LentFrom(s.lends, r);
      LentIsMapped(s, id, f);
    }
  }

  lemma OwnedByRoot(s: State, f: Frame)
    requires Inv(s) && f in s.owner
    ensures s.owner[f].root in s.roots && f in s.roots[s.owner[f].root].frames
  {
  }

  lemma LentIsMapped(s: State, id: Id, f: Frame)
    requires Inv(s) && id in s.lends && s.lends[id].lender in s.roots && f in s.roots[s.lends[id].lender].frames
    ensures exists c, p :: c in s.pt && p in s.pt[c] && s.pt[c][p].frame == f
  {
    hide ModesOk, StacksOk, ListsOk, NoStraySlots, CountsOk;
    var r := s.lends[id].lender;
    var i :| 0 <= i < |s.roots[r].frames| && s.roots[r].frames[i] == f;
    var p := s.lends[id].vpage + i;
    assert InSpan(s.lends[id], p);
    assert s.pt[s.lends[id].ctx][p].frame == f;
  }

  /** When the last process has exited, the roots on which a handle is open remain,
      with their frames, and nothing else. */
  lemma AllExited(states: seq<State>, labels: seq<Eager.Label>, n: nat)
    requires IsRun(states, labels) && Inv(states[0]) && n <= |labels| && states[n].pt == map[]
    ensures var s := states[n];
            && (forall r :: r in s.roots <==> Held(states[0].handles, r) + Ledger(labels[..n], r) > 0)
            && (forall f :: f in s.owner <==> exists r :: r in s.roots && f in s.roots[r].frames)
  {
    hide Enabled, Step, Inv, Ledger, Held;
    var s := states[n];
    RunRefines(states, labels, n);
    NobodyLeft(s);
    forall r ensures r in s.roots <==> Held(states[0].handles, r) + Ledger(labels[..n], r) > 0 {
      CountsInRuns(states, labels, n, r);
      assert LentFrom(s.lends, r) == {};
    }
    forall f ensures f in s.owner <==> exists r :: r in s.roots && f in s.roots[r].frames { FramesOwned(s, f); }
  }

  lemma NobodyLeft(s: State)
    requires Inv(s) && s.pt == map[]
    ensures s.lends == map[]
  {
    hide FramesOk, CountsOk, TablesOk, LendersOk, ModesOk;
    assert s.lists.Keys == {};
  }

  lemma FramesOwned(s: State, f: Frame)
    requires Inv(s)
    ensures f in s.owner <==> exists r :: r in s.roots && f in s.roots[r].frames
  {
    hide CountsOk, TablesOk, LendersOk, ModesOk, ListsOk, StacksOk;
    if r :| r in s.roots && f in s.roots[r].frames {
      var i :| 0 <= i < |s.roots[r].frames| && s.roots[r].frames[i] == f;
      assert FrameAt(s.owner, s.mem, s.roots[r].frames[i], r, i);
    }
  }

  /** If the kernel held nothing at the start and keeps nothing, all is free at the
      end. */
  lemma NothingKept(states: seq<State>, labels: seq<Eager.Label>, n: nat)
    requires IsRun(states, labels) && Inv(states[0]) && n <= |labels| && states[n].pt == map[]
    requires forall r :: r in states[0].handles ==> states[0].handles[r] == 0
    requires forall i :: 0 <= i < n ==> !labels[i].Keep?
    ensures states[n].owner == map[] && states[n].roots == map[]
  {
    hide Enabled, Step, Inv;
    AllExited(states, labels, n);
    forall r ensures r !in states[n].roots { NoneOpened(labels[..n], r); }
  }

  lemma {:induction false} NoneOpened(labels: seq<Eager.Label>, r: Id)
    requires forall i :: 0 <= i < |labels| ==> !labels[i].Keep?
    ensures Ledger(labels, r) <= 0
  {
    if labels != [] { NoneOpened(labels[..|labels| - 1], r); }
  }

  /** In every run a frame that is writable without PMAN_PROT_SHARED is mapped at one
      page of one process, through a SHARED mapping; borrows are never writable. */
  lemma OneWriter(states: seq<State>, labels: seq<Eager.Label>, n: nat, c: Ctx, v: nat, d: Ctx, p: nat)
    requires IsRun(states, labels) && Inv(states[0]) && n <= |labels|
    requires var s := states[n];
             && c in s.pt && v in s.pt[c] && s.pt[c][v].write
             && d in s.pt && p in s.pt[d] && s.pt[d][p].frame == s.pt[c][v].frame
    ensures var s := states[n];
            && Readable(s, c, v) && s.lends[s.reserved[c][v]].kind.Shared?
            && (!s.lends[s.reserved[c][v]].prot.shared ==> d == c && p == v)
  {
    hide Enabled, Step, Inv, Base;
    RunRefines(states, labels, n);
    var s := states[n];
    CowFork.InvBase(s);
    WritableEntry(s, c, v);
    if !s.lends[s.reserved[c][v]].prot.shared { ExclusiveWriter(s, c, v, d, p); }
  }

  /** In every run a page can be executed exactly where its process was given that right,
      and written only where it was given that one: the entry says what the world of
      eager copies says. */
  lemma RightsInRuns(states: seq<State>, labels: seq<Eager.Label>, n: nat, c: Ctx, v: nat)
    requires IsRun(states, labels) && Inv(states[0]) && n <= |labels|
    requires c in states[n].pt && v in states[n].pt[c]
    ensures var w := Eager.Run(Abs(states[0]), labels[..n]); var entry := states[n].pt[c][v];
            && c in w && v in w[c]
            && (entry.exec <==> w[c][v].prot.exec)
            && (entry.write ==> w[c][v].prot.write)
  {
    hide Enabled, Step, Inv, Base, Eager.Run, Abs;
    RunRefines(states, labels, n);
    CowFork.InvBase(states[n]);
    WritableEntry(states[n], c, v);
    CellProt(states[n], c, v);
  }

  /** The kernel's own image, as boot leaves it: a root with an open handle, lent to the
      first process as shared memory, which every fork hands on. */
  function Booted(image: seq<Frame>, pages: seq<Page>, v: nat): seq<Eager.Label> {
    [Eager.Keep(0, Map, image, pages), Eager.NewProcess(0),
     Eager.LendKept(0, v, Prot(false, true, true), 0, 1, pages)]
  }

  /** There the count is one more than the number of mappings, for as long as the
      kernel does not let go of it. */
  lemma ImageStays(states: seq<State>, labels: seq<Eager.Label>, image: seq<Frame>, pages: seq<Page>, v: nat, n: nat)
    requires IsRun(states, labels) && states[0] == Boot && 3 <= n <= |labels|
    requires labels[..3] == Booted(image, pages, v)
    requires forall i :: 3 <= i < n ==> labels[i] != Eager.LetGo(0) && !(labels[i].Keep? && labels[i].r == 0)
    ensures 0 in states[n].roots && states[n].roots[0].refs == 1 + |LentFrom(states[n].lends, 0)|
  {
    hide Enabled, Step, Inv;
    BootOk();
    CountsInRuns(states, labels, n, 0);
    QuietLedger(labels, 3, n, 0);
    BootedLedger(image, pages, v);
  }

  /** Such a start is a run, whatever the image and wherever it is lent. */
  lemma BootRuns(image: seq<Frame>, pages: seq<Page>, v: nat)
    requires NoDup(image) && |image| == |pages| > 0
    ensures exists states :: IsRun(states, Booted(image, pages, v)) && states[0] == Boot
  {
    hide Enabled, Step, NoDup;
    var labels := Booted(image, pages, v);
    KeepImage(image, pages, v);
    LendImage(image, pages, v);
    var s1, s2 := Kept(image, pages), NewContext(Kept(image, pages), 0);
    var states := [Boot, s1, s2, Step(s2, labels[2])];
    assert IsRun(states, labels);
  }

  function Kept(image: seq<Frame>, pages: seq<Page>): State
    requires |image| == |pages|
  {
    AddRoot(Boot, 0, Map, image, pages)
  }

  lemma KeepImage(image: seq<Frame>, pages: seq<Page>, v: nat)
    requires NoDup(image) && |image| == |pages|
    ensures var labels := Booted(image, pages, v); var s1 := Kept(image, pages);
            && Enabled(Boot, labels[0]) && Step(Boot, labels[0]) == s1
            && Enabled(s1, labels[1]) && Step(s1, labels[1]) == NewContext(s1, 0)
  {
    hide NoDup, Places, Contents;
  }

  lemma LendImage(image: seq<Frame>, pages: seq<Page>, v: nat)
    requires NoDup(image) && |image| == |pages| > 0
    ensures Enabled(NewContext(Kept(image, pages), 0), Booted(image, pages, v)[2])
  {
    hide NoDup, Places, Contents;
    ContentsFact(image, pages);
    assert Boot.mem + Contents(image, pages) == Contents(image, pages);
    assert Holds(Contents(image, pages), image, pages);
  }

  lemma BootedLedger(image: seq<Frame>, pages: seq<Page>, v: nat)
    ensures Ledger(Booted(image, pages, v), 0) == 1
  {
    var b := Booted(image, pages, v);
    assert b[..2][..1] == b[..1] && b[..1][..0] == [];
    assert Ledger(b[..1], 0) == 1;
    assert Ledger(b[..2], 0) == 1;
  }

  lemma {:induction false} QuietLedger(labels: seq<Eager.Label>, m: nat, n: nat, r: Id)
    requires m <= n <= |labels| && forall i :: m <= i < n ==> Opens(labels[i], r) == 0
    ensures Ledger(labels[..n], r) == Ledger(labels[..m], r)
    decreases n
  {
    if m < n {
      QuietLedger(labels, m, n - 1, r);
      assert labels[..n][..n - 1] == labels[..n - 1];
    }
  }
}
