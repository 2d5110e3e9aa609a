/** Segment creation and the write fault keep the invariant; the fault changes
    no process's memory. */
module CowFault {
  import opened CowState
  import opened CowBase
  import opened CowView
  import opened CowSteps
  import Eager

  /** Every context's memory is the same in both states. */
  ghost predicate SameViews(s: State, t: State) {
    s.pt.Keys == t.pt.Keys && forall d :: d in s.pt ==> View(t, d) == View(s, d)
  }

  // -------------------------------------------------------------- sharing modes

  /** Replacing a mapping by one that will be alone on its root. */
  lemma ModesAlone(lends: map<Id, Lend>, id: Id, id': Id, l: Lend)
    requires ModesOk(lends) && l.kind.Shared?
    requires forall x :: x in lends && x != id ==> lends[x].lender != l.lender
    ensures ModesOk((lends - {id})[id' := l])
  {
  }

  /** A second window on shared memory. */
  lemma ModesShare(lends: map<Id, Lend>, id: Id, a: Id, l: Lend)
    requires ModesOk(lends) && id in lends && a !in lends
    requires l.kind.Shared? && l.prot.shared && lends[id].prot.shared && l.lender == lends[id].lender
    ensures ModesOk(lends[a := l])
  {
  }

  /** A private mapping becomes two borrows. */
  lemma ModesBorrow(lends: map<Id, Lend>, id: Id, a: Id, la: Lend, b: Id, lb: Lend)
    requires ModesOk(lends) && id in lends && !lends[id].prot.shared && a !in lends
    requires la.kind.Borrowed? && lb.kind.Borrowed? && !la.prot.shared && !lb.prot.shared
    requires la.lender == lb.lender == lends[id].lender
    ensures ModesOk((lends[a := la] - {id})[b := lb])
  {
  }

  // -------------------------------------------------------------------- stacks

  lemma StacksReplace(lists: map<Ctx, seq<Id>>, stacks: map<Ctx, seq<Id>>, c: Ctx, id: Id, id': Id)
    requires StacksOk(lists, stacks) && c in lists
    ensures StacksOk(lists[c := [id'] + Without(lists[c], id)], stacks[c := RemapAll(stacks[c], id, id')])
  {
    var q := [id'] + Without(lists[c], id);
    assert forall x :: x in q <==> x == id' || x in Without(lists[c], id);
    hide Without;
  }

  lemma StacksGrow(lists: map<Ctx, seq<Id>>, stacks: map<Ctx, seq<Id>>, c: Ctx, id: Id)
    requires StacksOk(lists, stacks) && c in lists
    ensures StacksOk(lists[c := [id] + lists[c]], stacks)
  {
    assert forall x :: x in [id] + lists[c] <==> x == id || x in lists[c];
  }

  // ------------------------------------------------- replacing a mapping in place

  lemma FreeAfterDrop(s: State, id: Id)
    requires Linked(s, id)
    ensures SpanFree(Drop(s, id).reserved, s.lends[id].ctx, s.lends[id].vpage, s.lends[id].pages)
  {
    hide Without;
    var l := s.lends[id];
    forall p | l.vpage <= p < l.vpage + l.pages ensures p !in Drop(s, id).reserved[l.ctx] {
      assert InSpan(l, p);
    }
  }

  predicate SameContents(mem: map<Frame, Page>, f: seq<Frame>, g: seq<Frame>) {
    |f| == |g| && Filled(mem, f) && Filled(mem, g) && forall i :: 0 <= i < |f| ==> mem[f[i]] == mem[g[i]]
  }

  /** A mapping may be dropped and lent again from a root with the same
      contents without any process noticing. */
  ghost predicate CanRelend(s: State, id: Id, id': Id, r: Id) {
    && Base(s) && Linked(s, id) && s.lends[id].pages > 0
    && var t := Drop(s, id);
    && FreshId(t, id') && r in t.roots
    && SameContents(s.mem, t.roots[r].frames, s.roots[s.lends[id].lender].frames)
    && (s.lends[id].prot.shared ==> r == s.lends[id].lender)
  }

  lemma RelendBase(s: State, id: Id, id': Id, kind: LendKind, r: Id)
    requires CanRelend(s, id, id', r)
    ensures Base(Drop(s, id)) && CanLend(Drop(s, id), id', s.lends[id].ctx, r, s.lends[id].vpage)
    ensures Base(Relend(s, id, id', kind, r))
  {
    hide Base, Without;
    var l := s.lends[id];
    DropBase(s, id);
    FreeAfterDrop(s, id);
    AddLendBase(Drop(s, id), id', l.ctx, kind, l.prot, r, l.vpage);
  }

  lemma SameCells(mem: map<Frame, Page>, f: seq<Frame>, g: seq<Frame>, l: Lend, l': Lend)
    requires SameContents(mem, f, g) && l.pages == l'.pages == |f| && l.vpage == l'.vpage && l.prot == l'.prot
    requires l.prot.shared ==> l.lender == l'.lender
    ensures LendCells(mem, f, l) == LendCells(mem, g, l') && LendCells(mem, f, l).Keys == SpanOf(l')
  {
  }

  lemma RefillView(s: State, id: Id)
    requires Base(s) && Linked(s, id)
    ensures var l := s.lends[id];
            View(s, l.ctx) - SpanOf(l) + LendCells(s.mem, s.roots[l.lender].frames, l) == View(s, l.ctx)
  {
    hide Base, View;
    var l := s.lends[id];
    forall p | InSpan(l, p)
      ensures p in View(s, l.ctx) && View(s, l.ctx)[p] == LendCells(s.mem, s.roots[l.lender].frames, l)[p]
    {
      ViewLend(s, id, p);
    }
  }

  lemma RelendOwnView(s: State, id: Id, id': Id, kind: LendKind, r: Id)
    requires CanRelend(s, id, id', r)
    ensures View(Relend(s, id, id', kind, r), s.lends[id].ctx) == View(s, s.lends[id].ctx)
  {
    hide Base, View, Without, LendCells, SpanOf, Entries, Reserve, SpanFree;
    var l := s.lends[id];
    var t := Drop(s, id);
    RelendBase(s, id, id', kind, r);
    ContextFact(t, l.ctx);
    ViewDrop(s, id, l.ctx);
    ViewAddLend(t, id', l.ctx, kind, l.prot, r, l.vpage);
    SameCells(s.mem, t.roots[r].frames, s.roots[l.lender].frames, Lend(l.ctx, kind, l.prot, r, l.vpage, l.pages), l);
    RefillView(s, id);
  }

  lemma RelendViews(s: State, id: Id, id': Id, kind: LendKind, r: Id)
    requires CanRelend(s, id, id', r)
    ensures SameViews(s, Relend(s, id, id', kind, r))
  {
    hide Base, View, Without, Filled, SpanOf, Entries, Reserve, SpanFree;
    var l := s.lends[id];
    var t := Drop(s, id);
    RelendBase(s, id, id', kind, r);
    ContextFact(s, l.ctx);
    ContextFact(t, l.ctx);
    var u := Relend(s, id, id', kind, r);
    forall d | d in s.pt ensures View(u, d) == View(s, d) {
      if d == l.ctx {
        RelendOwnView(s, id, id', kind, r);
      } else {
        ViewDrop(s, id, d);
        ViewAddLendOther(t, id', l.ctx, kind, l.prot, r, l.vpage, d);
      }
    }
  }

  // ---------------------------------------------------------- the write fault

  /** An address the heap may return for the mapping that replaces `id`: the old
      mapping is freed first, so its own address may come back. */
  predicate FreshAfter(s: State, id: Id, id': Id) {
    id' !in s.roots && (id' == id || id' !in s.lends)
  }

  lemma SoleBorrower(s: State, id: Id, x: Id)
    requires Base(s) && Linked(s, id) && s.roots[s.lends[id].lender].refs == 1
    requires x in s.lends && s.lends[x].lender == s.lends[id].lender
    ensures x == id
  {
    hide ListsOk, FramesOk, TablesOk;
    var lent := LentFrom(s.lends, s.lends[id].lender);
    assert x in lent && id in lent;
    if x != id {
      assert |{x, id}| == 2 && {x, id} <= lent;
      SubsetCard({x, id}, lent);
    }
  }

  lemma SubsetCard(a: set<Id>, b: set<Id>)
    requires a <= b
    ensures |a| <= |b|
  {
    assert b == a + (b - a);
  }

  lemma RemapInvisible(s: State, c: Ctx, id: Id, id': Id)
    requires Base(s) && c in s.stacks
    ensures Base(Remap(s, c, id, id')) && SameViews(s, Remap(s, c, id, id'))
  {
    hide ListsOk, LendersOk, FramesOk, SlotsOk, NoStraySlots, CountsOk, View;
    forall d | d in s.pt ensures View(Remap(s, c, id, id'), d) == View(s, d) {
      ViewRecount(s, Remap(s, c, id, id'), d);
    }
  }

  lemma ReleaseInvisible(s: State, r: Id)
    requires Base(s) && r in s.roots && s.roots[r].refs > 0 && r in s.handles && s.handles[r] > 0
    ensures Base(Release(s, r)) && SameViews(s, Release(s, r))
  {
    hide Base, View, Release;
    ReleaseBase(s, r);
    ReleaseFields(s, r);
    forall d | d in s.pt ensures View(Release(s, r), d) == View(s, d) {
      ViewRecount(s, Release(s, r), d);
    }
  }

  lemma ReleaseFields(s: State, r: Id)
    requires r in s.roots && s.roots[r].refs > 0 && r in s.handles && s.handles[r] > 0
    ensures var t := Release(s, r); t.lends == s.lends && t.pt == s.pt && t.reserved == s.reserved && t.mem == s.mem
  {
    hide DropReference;
    DropFields(s.(handles := s.handles[r := s.handles[r] - 1]), r);
  }

  lemma DropFields(s: State, r: Id)
    requires r in s.roots && s.roots[r].refs > 0
    ensures var t := DropReference(s, r);
            t.lends == s.lends && t.pt == s.pt && t.reserved == s.reserved && t.mem == s.mem
  {
    var root := s.roots[r];
    if root.refs == 1 {
      assert DropReference(s, r) ==
        State(s.roots - {r}, s.lends, s.lists, s.pt, s.reserved, s.owner - (set f | f in root.frames), s.mem,
          s.handles - {r}, s.stacks);
    } else {
      assert DropReference(s, r) ==
        State(s.roots[r := root.(refs := root.refs - 1)], s.lends, s.lists, s.pt, s.reserved, s.owner, s.mem,
          s.handles, s.stacks);
    }
  }

  lemma AddReferenceInvisible(s: State, r: Id)
    requires Base(s) && r in s.roots && r in s.handles
    ensures Base(AddReference(s, r)) && SameViews(s, AddReference(s, r))
  {
    hide Base, View;
    AddReferenceBase(s, r);
    forall d | d in s.pt ensures View(AddReference(s, r), d) == View(s, d) {
      ViewRecount(s, AddReference(s, r), d);
    }
  }

  lemma AddRootInvisible(s: State, r: Id, kind: RootKind, frames: seq<Frame>, init: seq<Page>)
    requires Base(s) && FreshId(s, r) && FreshFrames(s, frames) && |frames| == |init|
    ensures Base(AddRoot(s, r, kind, frames, init)) && SameViews(s, AddRoot(s, r, kind, frames, init))
  {
    hide Base, View;
    AddRootBase(s, r, kind, frames, init);
    forall d | d in s.pt ensures View(AddRoot(s, r, kind, frames, init), d) == View(s, d) {
      ViewAddRoot(s, r, kind, frames, init, d);
    }
  }

  lemma PromoteBase(s: State, id: Id, id': Id)
    requires Base(s) && Linked(s, id) && s.lends[id].pages > 0 && FreshAfter(s, id, id')
    ensures Base(Promote(s, id, id')) && SameViews(s, Promote(s, id, id'))
  {
    hide Base, View, Without, Entries, Reserve, SpanOf;
    var l := s.lends[id];
    var s1 := AddReference(s, l.lender);
    AddReferenceInvisible(s, l.lender);
    var s2 := Relend(s1, id, id', Shared, l.lender);
    RelendBase(s1, id, id', Shared, l.lender);
    RelendViews(s1, id, id', Shared, l.lender);
    ReleaseInvisible(s2, l.lender);
    RemapInvisible(Release(s2, l.lender), l.ctx, id, id');
  }

  /** The write fault of the last borrower keeps the invariant and leaves every
      process's memory as it was. */
  lemma PromoteOk(s: State, id: Id, id': Id)
    requires Inv(s) && Linked(s, id) && FreshAfter(s, id, id')
    requires s.lends[id].pages > 0 && s.roots[s.lends[id].lender].refs == 1
    ensures Inv(Promote(s, id, id')) && SameViews(s, Promote(s, id, id'))
    ensures Promote(s, id, id').lends == (s.lends - {id})[id' := s.lends[id].(kind := Shared)]
  {
    hide Base, View, Without, Entries, Reserve, SpanOf, ModesOk, StacksOk, RemapAll, Filled;
    PromoteBase(s, id, id');
    var l := s.lends[id];
    forall x | x in s.lends && x != id ensures s.lends[x].lender != l.lender {
      if s.lends[x].lender == l.lender { SoleBorrower(s, id, x); }
    }
    ModesAlone(s.lends, id, id', l.(kind := Shared));
    ContextFact(s, l.ctx);
    StacksReplace(s.lists, s.stacks, l.ctx, id, id');
    assert Promote(s, id, id').lists == s.lists[l.ctx := [id'] + Without(s.lists[l.ctx], id)];
  }

  lemma CopyRelend(s: State, s1: State, id: Id, id': Id, r: Id, frames: seq<Frame>)
    requires Base(s) && Linked(s, id) && s.lends[id].pages > 0 && FreshAfter(s, id, id')
    requires FreshId(s, r) && r != id' && FreshFrames(s, frames) && |frames| == s.lends[id].pages
    requires !s.lends[id].prot.shared
    requires s1 == AddRoot(s, r, Alloc, frames, CopyOf(s.mem, s.roots[s.lends[id].lender].frames)) && Base(s1)
    ensures CanRelend(s1, id, id', r)
  {
    hide Base, Without, Entries, Reserve, SpanOf, NoDup, Places, Contents;
    CopySame(s, id, r, frames);
  }

  lemma CopyAwayBase(s: State, id: Id, id': Id, r: Id, frames: seq<Frame>)
    requires Base(s) && Linked(s, id) && s.lends[id].pages > 0 && FreshAfter(s, id, id')
    requires FreshId(s, r) && r != id' && FreshFrames(s, frames) && |frames| == s.lends[id].pages
    requires !s.lends[id].prot.shared
    ensures Base(CopyAway(s, id, id', r, frames)) && SameViews(s, CopyAway(s, id, id', r, frames))
  {
    hide Base, View, Without, Entries, Reserve, SpanOf, NoDup, Places, Contents, CanRelend, FreshFrames;
    var l := s.lends[id];
    var init := CopyOf(s.mem, s.roots[l.lender].frames);
    var s1 := AddRoot(s, r, Alloc, frames, init);
    AddRootInvisible(s, r, Alloc, frames, init);
    CopyRelend(s, s1, id, id', r, frames);
    var s2 := Relend(s1, id, id', Shared, r);
    RelendBase(s1, id, id', Shared, r);
    RelendViews(s1, id, id', Shared, r);
    ReleaseInvisible(s2, r);
    RemapInvisible(Release(s2, r), l.ctx, id, id');
  }

  /** The copied frames hold what the original frames hold. */
  lemma CopySame(s: State, id: Id, r: Id, frames: seq<Frame>)
    requires Base(s) && Linked(s, id) && FreshFrames(s, frames) && |frames| == s.lends[id].pages
    ensures var f := s.roots[s.lends[id].lender].frames;
            SameContents(s.mem + Contents(frames, CopyOf(s.mem, f)), frames, f)
  {
    hide Base, NoDup, Contents;
    var l := s.lends[id];
    var f := s.roots[l.lender].frames;
    var m := Contents(frames, CopyOf(s.mem, f));
    ContentsFact(frames, CopyOf(s.mem, f));
    forall i | 0 <= i < |f| ensures f[i] !in m {
      assert InSpan(l, l.vpage + i);
      SlotFact(s, id, l.vpage + i);
    }
  }

  lemma CopyAwayShape(s: State, id: Id, id': Id, r: Id, frames: seq<Frame>)
    requires Linked(s, id) && FreshId(s, r) && |frames| == s.lends[id].pages
    ensures var t := CopyAway(s, id, id', r, frames); var l := s.lends[id];
            && t.lends == (s.lends - {id})[id' := l.(kind := Shared, lender := r)]
            && t.lists == s.lists[l.ctx := [id'] + Without(s.lists[l.ctx], id)]
            && t.stacks == s.stacks[l.ctx := RemapAll(s.stacks[l.ctx], id, id')]
  {
    hide Without, Entries, Reserve, SpanOf, RemapAll, Places, Contents, Filled, CopyOf;
  }

  /** So does the write fault that copies. */
  lemma CopyAwayOk(s: State, id: Id, id': Id, r: Id, frames: seq<Frame>)
    requires Inv(s) && Linked(s, id) && s.lends[id].pages > 0 && FreshAfter(s, id, id')
    requires FreshId(s, r) && r != id' && FreshFrames(s, frames) && |frames| == s.lends[id].pages
    requires !s.lends[id].prot.shared
    ensures Inv(CopyAway(s, id, id', r, frames)) && SameViews(s, CopyAway(s, id, id', r, frames))
    ensures CopyAway(s, id, id', r, frames).lends == (s.lends - {id})[id' := s.lends[id].(kind := Shared, lender := r)]
  {
    hide View, StacksOk, NoDup, Filled, CopyAway, ListsOk, FramesOk, SlotsOk, NoStraySlots, CountsOk, FreshFrames,
         ModesOk;
    CopyAwayBase(s, id, id', r, frames);
    CopyAwayShape(s, id, id', r, frames);
    var l := s.lends[id];
    ModesAlone(s.lends, id, id', l.(kind := Shared, lender := r));
    StacksReplace(s.lists, s.stacks, l.ctx, id, id');
  }

  /** The last borrower keeps the root it had: no frame is taken or given back. */
  lemma PromoteRoots(s: State, id: Id, id': Id)
    requires Linked(s, id) && s.roots[s.lends[id].lender].refs == 1
    ensures var t := Promote(s, id, id'); t.roots == s.roots && t.owner == s.owner && t.mem == s.mem
  {
    hide Without, Entries, Reserve, SpanOf, RemapAll, Filled;
  }

  /** A copy takes the new frames for a root of its own, with one reference; the old
      root loses one. */
  lemma CopyAwayRoots(s: State, id: Id, id': Id, r: Id, frames: seq<Frame>)
    requires Linked(s, id) && FreshId(s, r) && |frames| == s.lends[id].pages
    requires s.roots[s.lends[id].lender].refs > 1
    ensures var t := CopyAway(s, id, id', r, frames); var q := s.lends[id].lender;
            t.roots == s.roots[q := s.roots[q].(refs := s.roots[q].refs - 1)][r := Root(Alloc, 1, frames)]
  {
    hide Without, Entries, Reserve, SpanOf, RemapAll, Places, Contents, Filled, CopyOf;
  }

  /** pman_context_prepare_write keeps the invariant and changes no process's
      memory; afterwards the mapping in place is SHARED with the same rights. It
      stays on its root if nobody else uses that, and else gets one of its own. */
  lemma PrepareWriteOk(s: State, id: Id, id': Id, r: Id, frames: seq<Frame>)
    requires Inv(s) && Linked(s, id) && FreshAfter(s, id, id')
    requires FreshId(s, r) && r != id' && FreshFrames(s, frames) && |frames| == s.lends[id].pages
    ensures var t := PrepareWrite(s, id, id', r, frames);
            && Inv(t) && SameViews(s, t)
            && (s.lends[id].kind.Shared? ==> t == s)
            && (s.lends[id].kind.Borrowed? ==>
                  && t.lends.Keys == s.lends.Keys - {id} + {id'}
                  && t.lends[id'].kind.Shared? && t.lends[id'].prot == s.lends[id].prot
                  && t.lends[id'].ctx == s.lends[id].ctx && t.lends[id'].vpage == s.lends[id].vpage
                  && t.lends[id'].pages == s.lends[id].pages)
    ensures s.lends[id].kind.Borrowed? ==> FaultRoots(s, PrepareWrite(s, id, id', r, frames), id, id', r, frames)
  {
    hide Base, View, StacksOk, Promote, CopyAway, Filled;
    LendFact(s, id);
    if s.lends[id].kind.Borrowed? {
      if s.roots[s.lends[id].lender].refs == 1 {
        PromoteOk(s, id, id');
        PromoteRoots(s, id, id');
      } else {
        CopyAwayOk(s, id, id', r, frames);
        CopyAwayRoots(s, id, id', r, frames);
      }
    }
  }

  /** Which root a faulting mapping ends up on. */
  ghost predicate FaultRoots(s: State, t: State, id: Id, id': Id, r: Id, frames: seq<Frame>)
    requires Linked(s, id)
  {
    var q := s.lends[id].lender;
    && id' in t.lends
    && if s.roots[q].refs == 1 then t.lends[id'].lender == q && t.roots == s.roots && t.owner == s.owner
       else t.lends[id'].lender == r
            && t.roots == s.roots[q := s.roots[q].(refs := s.roots[q].refs - 1)][r := Root(Alloc, 1, frames)]
  }

  lemma FaultLends(s: State, id: Id, id': Id, r: Id, frames: seq<Frame>)
    requires Inv(s) && Linked(s, id) && FreshAfter(s, id, id') && s.lends[id].kind.Borrowed?
    requires FreshId(s, r) && r != id' && FreshFrames(s, frames) && |frames| == s.lends[id].pages
    ensures var t := PrepareWrite(s, id, id', r, frames);
            && id' in t.lends && t.lends == (s.lends - {id})[id' := t.lends[id']]
            && t.lends[id'].ctx == s.lends[id].ctx && t.lends[id'].vpage == s.lends[id].vpage
            && t.lends[id'].pages == s.lends[id].pages && t.lends[id'].prot == s.lends[id].prot
  {
    hide Base, View, StacksOk, Promote, CopyAway, Filled;
    LendFact(s, id);
    if s.roots[s.lends[id].lender].refs == 1 {
      PromoteOk(s, id, id');
    } else {
      CopyAwayOk(s, id, id', r, frames);
    }
  }

  lemma FaultStacks(s: State, id: Id, id': Id, r: Id, frames: seq<Frame>)
    requires Linked(s, id) && FreshId(s, r) && |frames| == s.lends[id].pages && s.lends[id].kind.Borrowed?
    ensures var c := s.lends[id].ctx;
            PrepareWrite(s, id, id', r, frames).stacks == s.stacks[c := RemapAll(s.stacks[c], id, id')]
  {
    hide Entries, Reserve, SpanOf, Without, Places, Contents, RemapAll, CopyOf, Filled;
  }

  // --------------------------------------------------------- segment creation

  ghost predicate CanCreate(s: State, c: Ctx, v: nat, r: Id, id: Id, frames: seq<Frame>, init: seq<Page>) {
    && c in s.lists && c in s.pt && c in s.reserved
    && FreshId(s, r) && FreshId(s, id) && r != id
    && FreshFrames(s, frames) && |frames| == |init| && |frames| > 0
    && SpanFree(s.reserved, c, v, |frames|)
  }

  lemma NewLendCells(mem: map<Frame, Page>, frames: seq<Frame>, init: seq<Page>, l: Lend)
    requires NoDup(frames) && |frames| == |init| == l.pages
    ensures Filled(mem + Contents(frames, init), frames)
    ensures LendCells(mem + Contents(frames, init), frames, l) == Eager.NewCells(l.vpage, l.prot, l.lender, init)
  {
    hide NoDup, Contents;
    ContentsFact(frames, init);
    assert forall i :: 0 <= i < |frames| ==> frames[i] in Contents(frames, init);
    assert forall p :: InSpan(l, p) <==> Eager.Pages(l.vpage, |init|, p);
  }

  lemma CreateLend(s: State, c: Ctx, v: nat, prot: Prot, kind: RootKind, r: Id, id: Id, frames: seq<Frame>,
                   init: seq<Page>)
    requires Base(s) && CanCreate(s, c, v, r, id, frames, init)
    ensures var s1 := AddRoot(s, r, kind, frames, init);
            && SameViews(s, s1) && CanLend(s1, id, c, r, v) && Filled(s1.mem, frames)
            && s1.pt[c].Keys == s1.reserved[c].Keys && s1.pt.Keys == s1.reserved.Keys
            && LendCells(s1.mem, frames, Lend(c, Shared, prot, r, v, |frames|)) == Eager.NewCells(v, prot, r, init)
  {
    hide Base, View, NoDup, Places, Contents, LendCells, Eager.NewCells;
    AddRootInvisible(s, r, kind, frames, init);
    ContextFact(AddRoot(s, r, kind, frames, init), c);
    NewLendCells(s.mem, frames, init, Lend(c, Shared, prot, r, v, |frames|));
  }

  lemma CreateSegmentBase(s: State, c: Ctx, v: nat, prot: Prot, kind: RootKind, r: Id, id: Id, frames: seq<Frame>,
                          init: seq<Page>)
    requires Base(s) && CanCreate(s, c, v, r, id, frames, init)
    ensures var t := CreateSegment(s, c, v, prot, kind, r, id, frames, init);
            && Base(t) && t.pt.Keys == s.pt.Keys
            && View(t, c) == View(s, c) + Eager.NewCells(v, prot, r, init)
            && forall d :: d in s.pt && d != c ==> View(t, d) == View(s, d)
  {
    hide Base, View, NoDup, Places, Contents, LendCells, Eager.NewCells, Entries, Reserve, Filled, FreshFrames,
         SpanFree;
    CreateLend(s, c, v, prot, kind, r, id, frames, init);
    var s1 := AddRoot(s, r, kind, frames, init);
    var s2 := AddLend(s1, id, c, Shared, prot, r, v);
    AddLendBase(s1, id, c, Shared, prot, r, v);
    ViewAddLend(s1, id, c, Shared, prot, r, v);
    forall d | d in s.pt && d != c ensures View(s2, d) == View(s, d) {
      ViewAddLendOther(s1, id, c, Shared, prot, r, v, d);
    }
    ReleaseInvisible(s2, r);
  }

  lemma CreateSegmentOk(s: State, c: Ctx, v: nat, prot: Prot, kind: RootKind, r: Id, id: Id, frames: seq<Frame>,
                        init: seq<Page>)
    requires Inv(s) && CanCreate(s, c, v, r, id, frames, init)
    ensures Inv(CreateSegment(s, c, v, prot, kind, r, id, frames, init))
  {
    hide View, StacksOk, NoDup, Places, Contents, Entries, Reserve, Eager.NewCells, Filled, SpanFree;
    hide ListsOk, FramesOk, SlotsOk, NoStraySlots, CountsOk, FreshFrames, ModesOk;
    CreateSegmentBase(s, c, v, prot, kind, r, id, frames, init);
    var l := Lend(c, Shared, prot, r, v, |frames|);
    ModesAlone(s.lends, id, id, l);
    assert s.lends - {id} == s.lends;
    StacksGrow(s.lists, s.stacks, c, id);
  }

  lemma CreateSegmentLends(s: State, c: Ctx, v: nat, prot: Prot, kind: RootKind, r: Id, id: Id, frames: seq<Frame>,
                           init: seq<Page>)
    requires CanCreate(s, c, v, r, id, frames, init)
    ensures var t := CreateSegment(s, c, v, prot, kind, r, id, frames, init);
            && t.lends == s.lends[id := Lend(c, Shared, prot, r, v, |frames|)] && t.lists.Keys == s.lists.Keys
            && t.stacks == s.stacks && t.roots == s.roots[r := Root(kind, 1, frames)]
  {
    hide Entries, Reserve, Places, Contents, SpanFree;
  }
}
