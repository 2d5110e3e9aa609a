/** What a process sees of its memory, and how each primitive changes it. */
module CowView {
  import opened Wrappers
  import opened CowState
  import opened CowBase

  /** One page as its process sees it: the bytes, the rights asked for, and for
      shared memory the object it is a window on. */
  datatype Cell = Cell(data: Page, prot: Prot, obj: Option<Place>)

  type Memory = map<nat, Cell>

  ghost predicate Readable(s: State, c: Ctx, p: nat) {
    && c in s.pt && p in s.pt[c] && s.pt[c][p].frame in s.mem
    && c in s.reserved && p in s.reserved[c] && s.reserved[c][p] in s.lends
    && InSpan(s.lends[s.reserved[c][p]], p)
  }

  function ObjectOf(l: Lend, p: nat): Option<Place>
    requires InSpan(l, p)
  {
    if l.prot.shared then Some(Place(l.lender, p - l.vpage)) else None
  }

  /** Read through the page-table entry, as the processor does. */
  ghost function CellAt(s: State, c: Ctx, p: nat): Cell
    requires Readable(s, c, p)
  {
    var l := s.lends[s.reserved[c][p]];
    Cell(s.mem[s.pt[c][p].frame], l.prot, ObjectOf(l, p))
  }

  lemma SlotFact(s: State, id: Id, p: nat)
    requires Base(s) && id in s.lends && InSpan(s.lends[id], p)
    ensures var l := s.lends[id];
            && l.lender in s.roots && l.pages == |s.roots[l.lender].frames|
            && l.ctx in s.pt && p in s.pt[l.ctx]
            && s.pt[l.ctx][p] == EntryOf(s.roots[l.lender].frames, l, p)
            && l.ctx in s.reserved && p in s.reserved[l.ctx] && s.reserved[l.ctx][p] == id
            && s.pt[l.ctx][p].frame in s.mem
            && s.pt[l.ctx][p].frame in s.owner
            && s.owner[s.pt[l.ctx][p].frame] == Place(l.lender, p - l.vpage)
  {
    hide ListsOk, CountsOk, NoStraySlots;
    var l := s.lends[id];
    assert SlotOk(s.roots[l.lender].frames, id, l, s.pt[l.ctx], s.reserved[l.ctx], p);
    assert FrameAt(s.owner, s.mem, s.roots[l.lender].frames[p - l.vpage], l.lender, p - l.vpage);
  }

  lemma MappedFact(s: State, c: Ctx, p: nat)
    requires Base(s) && c in s.pt && p in s.pt[c]
    ensures Readable(s, c, p) && s.lends[s.reserved[c][p]].ctx == c
  {
    hide ListsOk, CountsOk, SlotsOk, FramesOk, LendersOk;
    var id := s.reserved[c][p];
    SlotFact(s, id, p);
  }

  /** The memory of context `c`. Under the base invariant every mapped page is
      readable (`MappedFact`), so nothing mapped is left out. */
  ghost function View(s: State, c: Ctx): Memory {
    if c in s.pt then map p | p in s.pt[c] && Readable(s, c, p) :: CellAt(s, c, p) else map[]
  }

  /** The pages a mapping contributes. */
  ghost function LendCells(mem: map<Frame, Page>, frames: seq<Frame>, l: Lend): Memory
    requires l.pages == |frames| && Filled(mem, frames)
  {
    map p: nat | l.vpage <= p < l.vpage + l.pages && InSpan(l, p) ::
      Cell(mem[frames[p - l.vpage]], l.prot, ObjectOf(l, p))
  }

  // ------------------------------------------------------- effects on views

  /** A view is fixed by the tables, the rights and the frames they reach. */
  lemma ViewFrame(s: State, t: State, c: Ctx)
    requires c in s.pt && c in t.pt && c in s.reserved && c in t.reserved
    requires t.pt[c] == s.pt[c] && t.reserved[c] == s.reserved[c]
    requires forall p :: p in s.pt[c] ==> Readable(s, c, p) && Readable(t, c, p) && CellAt(s, c, p) == CellAt(t, c, p)
    ensures View(t, c) == View(s, c)
  {
  }

  /** A context whose own tables are untouched keeps its view. */
  lemma OtherView(s: State, t: State, d: Ctx)
    requires t.lends == s.lends && t.mem == s.mem && d in s.pt && d in t.pt && t.pt[d] == s.pt[d]
    requires d in s.reserved <==> d in t.reserved
    requires d in s.reserved ==> t.reserved[d] == s.reserved[d]
    ensures View(t, d) == View(s, d)
  {
    assert forall p :: p in s.pt[d] ==> (Readable(s, d, p) <==> Readable(t, d, p));
  }

  lemma ViewAddRoot(s: State, r: Id, kind: RootKind, frames: seq<Frame>, init: seq<Page>, c: Ctx)
    requires Base(s) && FreshId(s, r) && FreshFrames(s, frames) && |frames| == |init| && c in s.pt
    ensures View(AddRoot(s, r, kind, frames, init), c) == View(s, c)
  {
    hide Base, NoDup, Contents, Places;
    var t := AddRoot(s, r, kind, frames, init);
    ContentsFact(frames, init);
    forall p | p in s.pt[c] ensures Readable(s, c, p) && Readable(t, c, p) && CellAt(s, c, p) == CellAt(t, c, p) {
      MappedFact(s, c, p);
      SlotFact(s, s.reserved[c][p], p);
    }
    ContextFact(s, c);
    ViewFrame(s, t, c);
  }

  /** Counting alone is invisible. */
  lemma ViewRecount(s: State, t: State, c: Ctx)
    requires t.lends == s.lends && t.pt == s.pt && t.reserved == s.reserved && t.mem == s.mem
    ensures View(t, c) == View(s, c)
  {
    if c in s.pt {
      assert forall p :: p in s.pt[c] ==> (Readable(s, c, p) <==> Readable(t, c, p));
    }
  }

  /** A mapping's pages are in its context's view. */
  lemma ViewLend(s: State, id: Id, p: nat)
    requires Base(s) && id in s.lends && InSpan(s.lends[id], p)
    ensures var l := s.lends[id];
            && l.lender in s.roots && l.pages == |s.roots[l.lender].frames| && Filled(s.mem, s.roots[l.lender].frames)
            && p in View(s, l.ctx) && View(s, l.ctx)[p] == LendCells(s.mem, s.roots[l.lender].frames, l)[p]
  {
    hide Base;
    LendFact(s, id);
    SlotFact(s, id, p);
  }

  lemma CellAddLend(s: State, id: Id, c: Ctx, kind: LendKind, prot: Prot, r: Id, v: nat, d: Ctx, p: nat)
    requires Base(s) && c in s.lists && c in s.pt && c in s.reserved && r in s.roots && id !in s.lends && d in s.pt
             && p in s.pt[d]
    requires d == c ==> !(v <= p < v + |s.roots[r].frames|)
    ensures var t := AddLend(s, id, c, kind, prot, r, v);
            Readable(s, d, p) && Readable(t, d, p) && CellAt(t, d, p) == CellAt(s, d, p)
  {
    hide Base;
    MappedFact(s, d, p);
  }

  lemma ViewAddLendOther(s: State, id: Id, c: Ctx, kind: LendKind, prot: Prot, r: Id, v: nat, d: Ctx)
    requires CanLend(s, id, c, r, v) && d in s.pt && d != c
    requires c in s.pt && c in s.reserved && d in s.reserved
    ensures View(AddLend(s, id, c, kind, prot, r, v), d) == View(s, d)
  {
    hide Base;
    var t := AddLend(s, id, c, kind, prot, r, v);
    forall p | p in s.pt[d] ensures Readable(s, d, p) && Readable(t, d, p) && CellAt(t, d, p) == CellAt(s, d, p) {
      CellAddLend(s, id, c, kind, prot, r, v, d, p);
    }
    ViewFrame(s, t, d);
  }

  lemma CellNewLend(s: State, id: Id, c: Ctx, kind: LendKind, prot: Prot, r: Id, v: nat, p: nat)
    requires c in s.lists && c in s.pt && c in s.reserved && r in s.roots && Filled(s.mem, s.roots[r].frames)
    requires v <= p < v + |s.roots[r].frames|
    ensures var t := AddLend(s, id, c, kind, prot, r, v);
            Readable(t, c, p) && CellAt(t, c, p) == LendCells(s.mem, s.roots[r].frames, t.lends[id])[p]
  {
    hide Entries, Reserve;
    var frames := s.roots[r].frames;
    var l := Lend(c, kind, prot, r, v, |frames|);
    NewSlot(frames, l, id, p);
    var t := AddLend(s, id, c, kind, prot, r, v);
    assert t.pt[c][p] == EntryOf(frames, l, p) && t.reserved[c][p] == id;
  }

  lemma NewSlot(frames: seq<Frame>, l: Lend, id: Id, p: nat)
    requires l.pages == |frames| && l.vpage <= p < l.vpage + l.pages
    ensures InSpan(l, p) && p in Entries(frames, l) && Entries(frames, l)[p] == EntryOf(frames, l, p)
    ensures p in Reserve(l, id) && Reserve(l, id)[p] == id
  {
  }

  lemma ViewGrows(s: State, t: State, c: Ctx, more: Memory)
    requires c in s.pt && c in t.pt && t.pt[c].Keys == s.pt[c].Keys + more.Keys
    requires forall p :: p in s.pt[c] && p !in more ==>
               Readable(s, c, p) && Readable(t, c, p) && CellAt(t, c, p) == CellAt(s, c, p)
    requires forall p :: p in more ==> Readable(t, c, p) && CellAt(t, c, p) == more[p]
    ensures View(t, c) == View(s, c) + more
  {
  }

  lemma ViewAddLend(s: State, id: Id, c: Ctx, kind: LendKind, prot: Prot, r: Id, v: nat)
    requires CanLend(s, id, c, r, v) && Filled(s.mem, s.roots[r].frames)
    requires c in s.pt && c in s.reserved && s.pt[c].Keys == s.reserved[c].Keys
    ensures var t := AddLend(s, id, c, kind, prot, r, v);
            View(t, c) == View(s, c) + LendCells(s.mem, s.roots[r].frames, t.lends[id])
  {
    hide Base, Readable, CellAt, View;
    var t := AddLend(s, id, c, kind, prot, r, v);
    var more := LendCells(s.mem, s.roots[r].frames, t.lends[id]);
    forall p | p in s.pt[c] && p !in more
      ensures Readable(s, c, p) && Readable(t, c, p) && CellAt(t, c, p) == CellAt(s, c, p)
    {
      CellAddLend(s, id, c, kind, prot, r, v, c, p);
    }
    forall p | p in more ensures Readable(t, c, p) && CellAt(t, c, p) == more[p] {
      CellNewLend(s, id, c, kind, prot, r, v, p);
    }
    assert more.Keys == Entries(s.roots[r].frames, t.lends[id]).Keys;
    ViewGrows(s, t, c, more);
  }

  lemma ViewDrop(s: State, id: Id, d: Ctx)
    requires Base(s) && Linked(s, id) && d in s.pt
    ensures View(Drop(s, id), d) == if d == s.lends[id].ctx then View(s, d) - SpanOf(s.lends[id]) else View(s, d)
  {
    hide Base, Without;
    var t := Drop(s, id);
    forall p | p in t.pt[d] ensures Readable(s, d, p) && Readable(t, d, p) && CellAt(t, d, p) == CellAt(s, d, p) {
      MappedFact(s, d, p);
    }
    assert forall p :: p in View(t, d) <==> p in t.pt[d];
  }
}
