/** User stores, unmapping and exit. */
module CowStore {
  import opened Wrappers
  import opened CowState
  import opened CowBase
  import opened CowView
  import opened CowSteps
  import opened CowFault
  import Eager

  // ----------------------------------------------------------- who may write

  /** A page-table entry is writable exactly when it belongs to a SHARED mapping
      with write permission: no BORROWED mapping ever has a writable entry. It is
      executable exactly when the mapping has that right. */
  lemma WritableEntry(s: State, c: Ctx, v: nat)
    requires Base(s) && c in s.pt && v in s.pt[c]
    ensures Readable(s, c, v)
    ensures var l := s.lends[s.reserved[c][v]];
            && (s.pt[c][v].write <==> l.kind.Shared? && l.prot.write)
            && (s.pt[c][v].exec <==> l.prot.exec)
  {
    hide Base;
    MappedFact(s, c, v);
    SlotFact(s, s.reserved[c][v], v);
  }

  /** Two pages backed by one frame are the same place of the same root. */
  lemma SameFrame(s: State, c: Ctx, v: nat, d: Ctx, p: nat)
    requires Base(s) && c in s.pt && v in s.pt[c] && d in s.pt && p in s.pt[d]
    ensures Readable(s, c, v) && Readable(s, d, p)
    ensures var l, m := s.lends[s.reserved[c][v]], s.lends[s.reserved[d][p]];
            s.pt[c][v].frame == s.pt[d][p].frame <==> l.lender == m.lender && v - l.vpage == p - m.vpage
  {
    hide Base;
    MappedFact(s, c, v);
    MappedFact(s, d, p);
    SlotFact(s, s.reserved[c][v], v);
    SlotFact(s, s.reserved[d][p], p);
  }

  /** Exclusive writer: a frame that a process can write through a mapping
      without the shared right is mapped nowhere else, in any process. */
  lemma ExclusiveWriter(s: State, c: Ctx, v: nat, d: Ctx, p: nat)
    requires Inv(s) && c in s.pt && v in s.pt[c] && d in s.pt && p in s.pt[d]
    requires s.pt[c][v].write && s.pt[d][p].frame == s.pt[c][v].frame
    requires c in s.reserved && v in s.reserved[c] && s.reserved[c][v] in s.lends
    requires !s.lends[s.reserved[c][v]].prot.shared
    ensures d == c && p == v
  {
    hide Base, StacksOk;
    WritableEntry(s, c, v);
    SameFrame(s, c, v, d, p);
    MappedFact(s, c, v);
    MappedFact(s, d, p);
  }

  // ------------------------------------------------------------------- storing

  lemma WriteBase(s: State, f: Frame, off: nat, b: int)
    requires Base(s)
    ensures Base(Write(s, f, off, b))
  {
    hide ListsOk, LendersOk, SlotsOk, NoStraySlots, CountsOk;
    var t := Write(s, f, off, b);
    assert FramesOk(t.roots, t.owner, t.mem) by {
      forall r, i | r in t.roots && 0 <= i < |t.roots[r].frames|
        ensures FrameAt(t.owner, t.mem, t.roots[r].frames[i], r, i)
      {
        assert FrameAt(s.owner, s.mem, s.roots[r].frames[i], r, i);
      }
    }
  }

  /** The page at (d, p) after a store to the frame behind (c, v). */
  lemma CellAfterWrite(s: State, c: Ctx, v: nat, off: nat, b: int, d: Ctx, p: nat)
    requires Base(s) && c in s.pt && v in s.pt[c] && d in s.pt && p in s.pt[d]
    ensures Readable(s, c, v) && Readable(s, d, p)
    ensures var t := Write(s, s.pt[c][v].frame, off, b);
            Readable(t, d, p) &&
            CellAt(t, d, p) ==
              if s.pt[d][p].frame == s.pt[c][v].frame then Eager.Poke(CellAt(s, d, p), off, b) else CellAt(s, d, p)
  {
    hide Base;
    MappedFact(s, c, v);
    MappedFact(s, d, p);
  }

  /** When the frame behind (d, p) is the one stored to, in the terms of the
      views: itself for private memory, a window on the same object otherwise. */
  lemma HitByStore(s: State, c: Ctx, v: nat, d: Ctx, p: nat)
    requires Inv(s) && c in s.pt && v in s.pt[c] && s.pt[c][v].write && d in s.pt && p in s.pt[d]
    ensures Readable(s, c, v) && Readable(s, d, p)
    ensures var cell := CellAt(s, c, v);
            s.pt[d][p].frame == s.pt[c][v].frame <==>
            if cell.obj.None? then d == c && p == v else CellAt(s, d, p).obj == cell.obj
  {
    hide Base, StacksOk, ModesOk;
    MappedFact(s, c, v);
    MappedFact(s, d, p);
    var l := s.lends[s.reserved[c][v]];
    if !l.prot.shared {
      if s.pt[d][p].frame == s.pt[c][v].frame { ExclusiveWriter(s, c, v, d, p); }
    } else {
      SameFrame(s, c, v, d, p);
      SharedTogether(s, s.reserved[c][v], s.reserved[d][p]);
    }
  }

  lemma SharedTogether(s: State, a: Id, b: Id)
    requires Inv(s) && a in s.lends && b in s.lends
    ensures s.lends[a].lender == s.lends[b].lender ==> (s.lends[a].prot.shared <==> s.lends[b].prot.shared)
  {
    hide Base, StacksOk;
  }

  ghost function Abs(s: State): Eager.World {
    map c | c in s.pt :: View(s, c)
  }

  lemma ViewKeys(s: State, c: Ctx)
    requires Base(s) && c in s.pt
    ensures View(s, c).Keys == s.pt[c].Keys
    ensures forall p :: p in s.pt[c] ==> Readable(s, c, p) && View(s, c)[p] == CellAt(s, c, p)
  {
    hide Base;
    forall p | p in s.pt[c] ensures Readable(s, c, p) { MappedFact(s, c, p); }
  }

  lemma WriteView(s: State, c: Ctx, v: nat, off: nat, b: int, d: Ctx)
    requires Inv(s) && c in s.pt && v in s.pt[c] && s.pt[c][v].write && d in s.pt && v in View(s, c)
    requires c in Abs(s) && v in Abs(s)[c]
    ensures View(Write(s, s.pt[c][v].frame, off, b), d) == Eager.StoreAt(Abs(s), c, v, off, b)[d]
  {
    hide Base, StacksOk, ModesOk, Readable, CellAt, View;
    var t := Write(s, s.pt[c][v].frame, off, b);
    WriteBase(s, s.pt[c][v].frame, off, b);
    ViewKeys(s, c);
    ViewKeys(s, d);
    ViewKeys(t, d);
    forall p | p in s.pt[d] ensures View(t, d)[p] == Eager.StoreAt(Abs(s), c, v, off, b)[d][p] {
      CellAfterWrite(s, c, v, off, b, d, p);
      HitByStore(s, c, v, d, p);
    }
  }

  /** A store through a writable entry does to the processes' memories what the
      eager store does. */
  lemma WriteOk(s: State, c: Ctx, v: nat, off: nat, b: int)
    requires Inv(s) && c in s.pt && v in s.pt[c] && s.pt[c][v].write
    ensures var t := Write(s, s.pt[c][v].frame, off, b);
            && Inv(t) && c in Abs(s) && v in Abs(s)[c] && Abs(s)[c][v].prot.write
            && Abs(t) == Eager.StoreAt(Abs(s), c, v, off, b)
  {
    hide Base, StacksOk, ModesOk, View;
    var t := Write(s, s.pt[c][v].frame, off, b);
    WriteBase(s, s.pt[c][v].frame, off, b);
    WritableEntry(s, c, v);
    ViewKeys(s, c);
    forall d | d in s.pt ensures View(t, d) == Eager.StoreAt(Abs(s), c, v, off, b)[d] {
      WriteView(s, c, v, off, b, d);
    }
  }

  lemma AbsSame(s: State, t: State)
    requires SameViews(s, t)
    ensures Abs(t) == Abs(s)
  {
    hide View;
  }

  /** What the allocators must answer if the store faults. */
  ghost predicate StoreReady(s: State, c: Ctx, v: nat, id': Id, r: Id, frames: seq<Frame>) {
    && c in s.pt
    && (v in s.pt[c] ==>
          && c in s.reserved && v in s.reserved[c] && s.reserved[c][v] in s.lends
          && FreshAfter(s, s.reserved[c][v], id') && FreshId(s, r) && r != id'
          && FreshFrames(s, frames) && |frames| == s.lends[s.reserved[c][v]].pages)
  }

  lemma FaultEntry(s: State, t: State, c: Ctx, v: nat, id': Id)
    requires Base(s) && Base(t) && c in s.pt && v in s.pt[c] && id' in t.lends
    requires c in s.reserved && v in s.reserved[c] && s.reserved[c][v] in s.lends
    requires var l, m := s.lends[s.reserved[c][v]], t.lends[id'];
             l.ctx == m.ctx && l.vpage == m.vpage && l.pages == m.pages && l.prot == m.prot && m.kind.Shared?
    ensures c in t.pt && v in t.pt[c] && (t.pt[c][v].write <==> s.lends[s.reserved[c][v]].prot.write)
  {
    hide Base;
    MappedFact(s, c, v);
    SlotFact(t, id', v);
  }

  lemma CellProt(s: State, c: Ctx, v: nat)
    requires Base(s) && c in s.pt && v in s.pt[c]
    ensures c in s.reserved && v in s.reserved[c] && Linked(s, s.reserved[c][v])
    ensures c in Abs(s) && v in Abs(s)[c] && Abs(s)[c][v].prot == s.lends[s.reserved[c][v]].prot
  {
    hide Base;
    MappedFact(s, c, v);
    LendFact(s, s.reserved[c][v]);
  }

  /** A user store lands exactly when the page's rights allow writing, whatever
      faults it takes, and then does what the eager store does. */
  lemma UserStoreOk(s: State, c: Ctx, v: nat, off: nat, b: int, id': Id, r: Id, frames: seq<Frame>)
    requires Inv(s) && StoreReady(s, c, v, id', r, frames)
    requires v in s.pt[c] ==> Linked(s, s.reserved[c][v])
    ensures var t := UserStore(s, c, v, off, b, id', r, frames);
            && Inv(t)
            && Abs(t) == if v in Abs(s)[c] && Abs(s)[c][v].prot.write then Eager.StoreAt(Abs(s), c, v, off, b)
                         else Abs(s)
  {
    hide Base, View, StacksOk, ModesOk, Linked, Write, Eager.StoreAt, Promote, CopyAway;
    ViewKeys(s, c);
    if v in s.pt[c] {
      CellProt(s, c, v);
      WritableEntry(s, c, v);
      if s.pt[c][v].write {
        WriteOk(s, c, v, off, b);
      } else {
        FaultingStore(s, c, v, off, b, id', r, frames);
      }
    }
  }

  lemma FaultingStore(s: State, c: Ctx, v: nat, off: nat, b: int, id': Id, r: Id, frames: seq<Frame>)
    requires Inv(s) && StoreReady(s, c, v, id', r, frames) && v in s.pt[c] && !s.pt[c][v].write
    requires Linked(s, s.reserved[c][v])
    ensures var t := UserStore(s, c, v, off, b, id', r, frames);
            && Inv(t) && v in Abs(s)[c]
            && Abs(t) == if Abs(s)[c][v].prot.write then Eager.StoreAt(Abs(s), c, v, off, b) else Abs(s)
  {
    hide Base, View, StacksOk, ModesOk, Linked, Write, Eager.StoreAt, Promote, CopyAway;
    var id := s.reserved[c][v];
    CellProt(s, c, v);
    WritableEntry(s, c, v);
    PrepareWriteOk(s, id, id', r, frames);
    var t := PrepareWrite(s, id, id', r, frames);
    AbsSame(s, t);
    if s.lends[id].kind.Borrowed? {
      FaultEntry(s, t, c, v, id');
      if t.pt[c][v].write { WriteOk(t, c, v, off, b); }
    }
  }

  // ------------------------------------------------------------------ unmapping

  lemma ModesShrink(lends: map<Id, Lend>, ids: set<Id>)
    requires ModesOk(lends)
    ensures ModesOk(lends - ids)
  {
  }

  /** Unmapping any mapping does to every view what it should; the whole invariant
      stays exactly when the mapping is no thread's stack, since a thread would go on
      pointing at it. */
  lemma UnmapOk(s: State, id: Id)
    requires Inv(s) && Linked(s, id)
    ensures var t := Drop(s, id); var l := s.lends[id];
            && Base(t) && ModesOk(t.lends) && t.pt.Keys == s.pt.Keys
            && View(t, l.ctx) == View(s, l.ctx) - SpanOf(l)
            && forall d :: d in s.pt && d != l.ctx ==> View(t, d) == View(s, d)
    ensures Inv(Drop(s, id)) <==> id !in s.stacks[s.lends[id].ctx]
  {
    hide Base, View, ModesOk, SpanOf, StacksOk, Without;
    var l := s.lends[id];
    DropBase(s, id);
    ContextFact(s, l.ctx);
    ModesShrink(s.lends, {id});
    StacksDrop(s.lists, s.stacks, l.ctx, id);
    forall d | d in s.pt ensures View(Drop(s, id), d) == if d == l.ctx then View(s, d) - SpanOf(l) else View(s, d) {
      ViewDrop(s, id, d);
    }
  }

  lemma StacksDrop(lists: map<Ctx, seq<Id>>, stacks: map<Ctx, seq<Id>>, c: Ctx, id: Id)
    requires StacksOk(lists, stacks) && c in lists
    ensures StacksOk(lists[c := Without(lists[c], id)], stacks) <==> id !in stacks[c]
  {
    if id in stacks[c] {
      var i :| 0 <= i < |stacks[c]| && stacks[c][i] == id;
      assert stacks[c][i] !in lists[c := Without(lists[c], id)][c];
    }
  }

  lemma AbsUnmap(s: State, id: Id)
    requires Inv(s) && Linked(s, id)
    ensures var l := s.lends[id];
            && (Inv(Drop(s, id)) <==> id !in s.stacks[l.ctx]) && l.ctx in Abs(s)
            && Abs(Drop(s, id)) ==
                 Abs(s)[l.ctx := map p | p in Abs(s)[l.ctx] && !Eager.Pages(l.vpage, l.pages, p) :: Abs(s)[l.ctx][p]]
  {
    hide Base, View, ModesOk, StacksOk, Drop;
    UnmapOk(s, id);
    var l := s.lends[id];
    var m := View(s, l.ctx);
    assert m - SpanOf(l) == map p | p in m && !Eager.Pages(l.vpage, l.pages, p) :: m[p] by {
      assert forall p :: p in SpanOf(l) <==> Eager.Pages(l.vpage, l.pages, p) && p >= 0;
    }
  }
}
