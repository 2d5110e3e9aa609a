/** The paging manager as the kernel runs it: tables, lists and counts changed in
    place, page by page. Each operation is proved against the value-level
    operation of the same name. Addresses and frames that the heap and the
    physical allocator would return are parameters. */
module CowManager {
  import opened Wrappers
  import opened CowState
  import opened CowBase
  import opened CowView
  import Steps = CowSteps
  import opened CowFault
  import opened CowFork
  import opened CowStore
  import opened CowExit
  import opened CowKept
  import Eager

  lemma EntriesSnoc(frames: seq<Frame>, l: Lend, i: nat)
    requires i < |frames| == l.pages
    ensures Entries(frames[..i + 1], l.(pages := i + 1)) ==
            Entries(frames[..i], l.(pages := i))[l.vpage + i := EntryOf(frames, l, l.vpage + i)]
  {
    var a, b := Entries(frames[..i + 1], l.(pages := i + 1)), Entries(frames[..i], l.(pages := i));
    assert forall p :: InSpan(l.(pages := i + 1), p) <==> InSpan(l.(pages := i), p) || p == l.vpage + i;
    assert forall p :: p in a <==> p in b || p == l.vpage + i;
  }

  lemma NoEntries(l: Lend)
    ensures Entries([], l.(pages := 0)) == map[]
  {
  }

  lemma PlacesSnoc(r: Id, frames: seq<Frame>, i: nat)
    requires i < |frames|
    ensures Places(r, frames[..i + 1]) == Places(r, frames[..i])[frames[i] := Place(r, i)]
  {
    assert frames[..i + 1][..i] == frames[..i];
  }

  lemma ContentsSnoc(frames: seq<Frame>, init: seq<Page>, i: nat)
    requires i < |frames| == |init|
    ensures Contents(frames[..i + 1], init[..i + 1]) == Contents(frames[..i], init[..i])[frames[i] := init[i]]
  {
    assert frames[..i + 1][..i] == frames[..i] && init[..i + 1][..i] == init[..i];
  }

  /** The loop of palloc_alloc over the physical allocator. */
  method TakeFrames(owner: map<Frame, Place>, r: Id, frames: seq<Frame>) returns (taken: map<Frame, Place>)
    ensures taken == owner + Places(r, frames)
  {
    taken := owner;
    var i := 0;
    while i < |frames|
      invariant 0 <= i <= |frames|
      invariant taken == owner + Places(r, frames[..i])
    {
      PlacesSnoc(r, frames, i);
      taken := taken[frames[i] := Place(r, i)];
      i := i + 1;
    }
    assert frames[..i] == frames;
  }

  /** The kernel's copy into a root's frames. */
  method FillFrames(mem: map<Frame, Page>, frames: seq<Frame>, init: seq<Page>) returns (filled: map<Frame, Page>)
    requires |frames| == |init|
    ensures filled == mem + Contents(frames, init)
  {
    filled := mem;
    var i := 0;
    while i < |frames|
      invariant 0 <= i <= |frames|
      invariant filled == mem + Contents(frames[..i], init[..i])
    {
      ContentsSnoc(frames, init, i);
      filled := filled[frames[i] := init[i]];
      i := i + 1;
    }
    assert frames[..i] == frames && init[..i] == init;
  }

  /** The loops of paging_map_ex calls in add_borrowed and add_shared. */
  method MapPages(table: map<nat, Pte>, frames: seq<Frame>, l: Lend) returns (mapped: map<nat, Pte>)
    requires l.pages == |frames|
    ensures mapped == table + Entries(frames, l)
  {
    hide Entries;
    NoEntries(l);
    mapped := table;
    var i := 0;
    assert frames[..0] == [];
    while i < |frames|
      invariant 0 <= i <= |frames|
      invariant mapped == table + Entries(frames[..i], l.(pages := i))
    {
      EntriesSnoc(frames, l, i);
      var p: nat := l.vpage + i;
      mapped := mapped[p := Pte(frames[i], l.kind.Shared? && l.prot.write, l.prot.exec)];
      i := i + 1;
    }
    assert frames[..i] == frames && l.(pages := i) == l;
  }

  lemma SpanSnoc(l: Lend, i: nat)
    ensures SpanOf(l.(pages := i + 1)) == SpanOf(l.(pages := i)) + {l.vpage + i}
  {
    forall p: nat ensures InSpan(l.(pages := i + 1), p) <==> InSpan(l.(pages := i), p) || p == l.vpage + i {}
  }

  /** The loops of paging_unmap calls in pman_context_unmap. */
  method UnmapPages(table: map<nat, Pte>, l: Lend) returns (rest: map<nat, Pte>)
    ensures rest == table - SpanOf(l)
  {
    rest := table;
    var i := 0;
    while i < l.pages
      invariant 0 <= i <= l.pages
      invariant rest == table - SpanOf(l.(pages := i))
    {
      SpanSnoc(l, i);
      rest := rest - {l.vpage + i};
      i := i + 1;
    }
    assert l.(pages := i) == l;
  }

  class PagingManager {
    var roots: map<Id, Root>
    var lends: map<Id, Lend>
    var lists: map<Ctx, seq<Id>>
    var pt: map<Ctx, map<nat, Pte>>
    var reserved: map<Ctx, map<nat, Id>>
    var owner: map<Frame, Place>
    var mem: map<Frame, Page>
    var stacks: map<Ctx, seq<Id>>
    ghost var handles: map<Id, nat>

    ghost function Now(): State
      reads this
    {
      State(roots, lends, lists, pt, reserved, owner, mem, handles, stacks)
    }

    constructor ()
      ensures Inv(Now()) && Abs(Now()) == map[]
    {
      roots, lends, lists, pt, reserved := map[], map[], map[], map[], map[];
      owner, mem, stacks, handles := map[], map[], map[], map[];
    }

    method NewContext(c: Ctx)
      modifies this
      ensures Now() == CowState.NewContext(old(Now()), c)
      ensures old(Inv(Now()) && c !in lists) ==> Inv(Now()) && Abs(Now()) == old(Abs(Now()))[c := map[]]
    {
      hide Inv, Abs;
      NewContextAbs(Now(), c);
      lists, pt, reserved, stacks := lists[c := []], pt[c := map[]], reserved[c := map[]], stacks[c := []];
    }

    /** pman_context_add_alloc and add_map: the frames are taken one by one. */
    method AddRoot(r: Id, kind: RootKind, frames: seq<Frame>, init: seq<Page>)
      requires |frames| == |init|
      modifies this
      ensures Now() == CowState.AddRoot(old(Now()), r, kind, frames, init)
    {
      var taken := TakeFrames(owner, r, frames);
      var filled := FillFrames(mem, frames, init);
      roots, handles, owner, mem := roots[r := Root(kind, 1, frames)], handles[r := 1], taken, filled;
    }

    /** pman_add_reference */
    method AddReference(r: Id)
      requires r in roots && r in handles
      modifies this
      ensures Now() == CowState.AddReference(old(Now()), r)
    {
      roots := roots[r := roots[r].(refs := roots[r].refs + 1)];
      handles := handles[r := handles[r] + 1];
    }

    /** pman_context_add_borrowed (kind Borrowed) and add_shared (kind Shared). */
    method AddLend(id: Id, c: Ctx, kind: LendKind, prot: Prot, r: Id, v: nat)
      requires r in roots && c in lists && c in pt && c in reserved
      modifies this
      ensures Now() == CowState.AddLend(old(Now()), id, c, kind, prot, r, v)
    {
      var frames := roots[r].frames;
      var l := Lend(c, kind, prot, r, v, |frames|);
      reserved := reserved[c := reserved[c] + Reserve(l, id)];
      roots := roots[r := roots[r].(refs := roots[r].refs + 1)];
      var table := MapPages(pt[c], frames, l);
      pt := pt[c := table];
      lends := lends[id := l];
      lists := lists[c := [id] + lists[c]];
    }

    /** The root branches of pman_context_unmap. */
    method DropReference(r: Id)
      requires r in roots && roots[r].refs > 0
      modifies this
      ensures Now() == CowState.DropReference(old(Now()), r)
    {
      var root := roots[r];
      if root.refs == 1 {
        roots := roots - {r};
        owner := owner - (set f | f in root.frames);
        handles := handles - {r};
      } else {
        roots := roots[r := root.(refs := root.refs - 1)];
      }
    }

    /** pman_context_unmap on a root whose handle the caller gives back. */
    method Release(r: Id)
      requires r in roots && roots[r].refs > 0 && r in handles && handles[r] > 0
      modifies this
      ensures Now() == CowState.Release(old(Now()), r)
    {
      handles := handles[r := handles[r] - 1];
      DropReference(r);
    }

    /** pman_context_unmap on a lent mapping: its lender loses a reference, its
        pages are unmapped one by one and their addresses released. */
    method Unmap(id: Id)
      requires Linked(Now(), id)
      modifies this
      ensures Now() == CowState.Drop(old(Now()), id)
    {
      var l := lends[id];
      lists := lists[l.ctx := Without(lists[l.ctx], id)];
      DropReference(l.lender);
      var table := UnmapPages(pt[l.ctx], l);
      pt := pt[l.ctx := table];
      reserved := reserved[l.ctx := reserved[l.ctx] - SpanOf(l)];
      lends := lends - {id};
    }

    /** pman_context_get_vaddr: the list walk finds the mapping a page is
        reserved for, and nothing else. */
    method GetVaddr(c: Ctx, v: nat) returns (found: Option<Id>)
      requires Base(Now()) && c in lists
      ensures found == if c in reserved && v in reserved[c] then Some(reserved[c][v]) else None
    {
      hide Base;
      ghost var s := Now();
      var i := 0;
      while i < |lists[c]|
        invariant 0 <= i <= |lists[c]|
        invariant forall j :: 0 <= j < i ==> lists[c][j] in lends && !InSpan(lends[lists[c][j]], v)
      {
        var id := lists[c][i];
        ListedFact(s, c, i);
        if lends[id].vpage <= v && v < lends[id].vpage + lends[id].pages {
          SlotFact(s, id, v);
          return Some(id);
        }
        i := i + 1;
      }
      NotFound(s, c, v);
      return None;
    }

    /** pman_context_prepare_write and process_remap. With fresh frames and names no
        process notices. */
    method PrepareWrite(id: Id, id': Id, r: Id, frames: seq<Frame>)
      requires Linked(Now(), id) && FreshId(Now(), r) && |frames| == lends[id].pages
      modifies this
      ensures Now() == Steps.PrepareWrite(old(Now()), id, id', r, frames)
      ensures old(FaultReady(Now(), id, id', r, frames)) ==> Inv(Now()) && Abs(Now()) == old(Abs(Now()))
    {
      hide FaultReady, Inv, Abs, Steps.Promote, Steps.CopyAway;
      FaultInvisible(Now(), id, id', r, frames);
      if lends[id].kind.Borrowed? {
        if roots[lends[id].lender].refs == 1 {
          PromoteMapping(id, id');
        } else {
          CopyMapping(id, id', r, frames);
        }
      }
    }

    /** The single-reference branch. */
    method PromoteMapping(id: Id, id': Id)
      requires Linked(Now(), id)
      modifies this
      ensures Now() == Steps.Promote(old(Now()), id, id')
    {
      hide Without, Entries, Reserve, SpanOf, Filled, RemapAll;
      var l := lends[id];
      AddReference(l.lender);
      Unmap(id);
      AddLend(id', l.ctx, Shared, l.prot, l.lender, l.vpage);
      Release(l.lender);
      stacks := stacks[l.ctx := RemapAll(stacks[l.ctx], id, id')];
    }

    /** The copying branch. */
    method CopyMapping(id: Id, id': Id, r: Id, frames: seq<Frame>)
      requires Linked(Now(), id) && FreshId(Now(), r) && |frames| == lends[id].pages
      modifies this
      ensures Now() == Steps.CopyAway(old(Now()), id, id', r, frames)
    {
      hide Without, Entries, Reserve, SpanOf, Places, Contents, RemapAll;
      var l := lends[id];
      AddRoot(r, Alloc, frames, Steps.CopyOf(mem, roots[l.lender].frames));
      Unmap(id);
      AddLend(id', l.ctx, Shared, l.prot, r, l.vpage);
      Release(r);
      stacks := stacks[l.ctx := RemapAll(stacks[l.ctx], id, id')];
    }

    /** process_create_segment: the new pages appear in this process and nowhere
        else. */
    method CreateSegment(c: Ctx, v: nat, prot: Prot, kind: RootKind, r: Id, id: Id, frames: seq<Frame>, init: seq<Page>)
      requires Inv(Now()) && CanCreate(Now(), c, v, r, id, frames, init)
      modifies this
      ensures Now() == Steps.CreateSegment(old(Now()), c, v, prot, kind, r, id, frames, init)
      ensures Inv(Now()) && Abs(Now()) == old(Abs(Now()))[c := old(Abs(Now()))[c] + Eager.NewCells(v, prot, r, init)]
    {
      hide Inv, Abs, Eager.NewCells, Entries, Reserve, Places, Contents;
      SegmentAbs(Now(), c, v, prot, kind, r, id, frames, init);
      AddRoot(r, kind, frames, init);
      AddLend(id, c, Shared, prot, r, v);
      Release(r);
    }

    /** sys_paging_map_kernel_executable, and whoever else lends memory the kernel goes
        on holding: exactly its pages appear, in this process. */
    method LendHeld(c: Ctx, v: nat, prot: Prot, r: Id, id: Id, ghost pages: seq<Page>)
      requires Inv(Now()) && CanLendKept(Now(), c, v, r, id, pages)
      modifies this
      ensures Now() == CowKept.LendKept(old(Now()), c, v, prot, r, id)
      ensures c in old(Abs(Now()))
      ensures Abs(Now()) == old(Abs(Now()))[c := old(Abs(Now()))[c] + Eager.NewCells(v, prot, r, pages)]
      ensures Inv(Now()) <==> old(MayLend(lends, r, prot))
    {
      hide Inv, Abs, Eager.NewCells, Entries, Reserve, MayLend, Base, View;
      LendKeptOk(Now(), c, v, prot, r, id, pages);
      AddLend(id, c, Shared, prot, r, v);
    }

    method ForkOne(c: Ctx, child: Ctx, id: Id, a: Id, b: Id)
      requires Steps.CanForkOne(Now(), c, child, id, a)
      modifies this
      ensures Now() == Steps.ForkOne(old(Now()), c, child, id, a, b)
    {
      hide Without, Entries, Reserve, SpanOf;
      var l := lends[id];
      if l.prot.shared {
        if l.kind.Shared? {
          AddLend(a, child, Shared, l.prot, l.lender, l.vpage);
        }
      } else {
        AddLend(a, child, Borrowed, l.prot, l.lender, l.vpage);
        Unmap(id);
        AddLend(b, c, Borrowed, l.prot, l.lender, l.vpage);
        stacks := stacks[c := RemapAll(stacks[c], id, b)];
      }
    }

    /** process_create_fork: the parent's mappings are listed, then lent one by
        one. The child ends up with the parent's memory and no process sees a
        change; its thread has its stack where the parent's first thread has, and
        every other thread keeps the stack it had. */
    method Fork(c: Ctx, child: Ctx, names: seq<(Id, Id)>)
      requires Inv(Now()) && c in lists && child !in lists && c in stacks && stacks[c] != []
      requires FreshNames(CowState.NewContext(Now(), child), c, child, lists[c], names)
      modifies this
      ensures Now() == Steps.Fork(old(Now()), c, child, names)
      ensures Inv(Now()) && Abs(Now()) == old(Abs(Now()))[child := old(Abs(Now()))[c]]
      ensures StacksKept(old(Now()), Now()) && StackLike(Now(), c, child)
    {
      hide Inv, View, Pending, Linked, Steps.ForkOne, FreshId, FreshAfter, NoDup, SpanFree, ForkEffect, StacksKept,
           StackLike;
      ghost var s := Now();
      ForkAbs(s, c, child, names);
      ForkStart(s, c, child);
      var mappings: seq<Id> := [];
      var i := 0;
      while i < |lists[c]|
        modifies {}
        invariant 0 <= i <= |lists[c]| && mappings == lists[c][..i]
      {
        mappings := mappings + [lists[c][i]];
        i := i + 1;
      }
      assert mappings == lists[c];
      NewContext(child);
      ghost var s0 := Now();
      i := 0;
      assert mappings[0..] == mappings && names[0..] == names;
      while i < |mappings|
        invariant 0 <= i <= |mappings|
        invariant Inv(Now()) && Pending(Now(), c, child, mappings[i..])
        invariant i <= |names| && FreshNames(Now(), c, child, mappings[i..], names[i..])
        invariant Steps.ForkAll(s0, c, child, mappings, names) ==
                    Steps.ForkAll(Now(), c, child, mappings[i..], names[i..])
      {
        ForkTurn(Now(), c, child, mappings[i..], names[i..]);
        assert mappings[i..][1..] == mappings[i + 1..] && names[i..][1..] == names[i + 1..];
        ForkOne(c, child, mappings[i], names[i].0, names[i].1);
        i := i + 1;
      }
      assert Now() == Steps.ForkAll(s0, c, child, mappings, names);
      CloneStack(c, child);
    }

    /** A user store, with the page fault it may take (pman_page_fault_handler):
        it lands exactly when the mapping's rights allow writing, and then only
        the pages that share the stored byte change. */
    method UserStore(c: Ctx, v: nat, off: nat, b: int, id': Id, r: Id, frames: seq<Frame>) returns (landed: bool)
      requires Inv(Now()) && StoreReady(Now(), c, v, id', r, frames)
      modifies this
      ensures Inv(Now()) && c in old(Abs(Now()))
      ensures landed <==> v in old(Abs(Now()))[c] && old(Abs(Now()))[c][v].prot.write
      ensures Abs(Now()) == if landed then Eager.StoreAt(old(Abs(Now())), c, v, off, b) else old(Abs(Now()))
    {
      hide Inv, View, Base, Linked, FreshFrames, FreshAfter, FreshId, Steps.PrepareWrite, Eager.StoreAt;
      ghost var s := Now();
      StoreFacts(s, c, v, off, b, id', r, frames);
      if v !in pt[c] {
        return false;
      }
      if !pt[c][v].write {
        var found := GetVaddr(c, v);
        PrepareWrite(found.value, id', r, frames);
      }
      if c in pt && v in pt[c] && pt[c][v].write {
        var f := pt[c][v].frame;
        if f in mem {
          mem := mem[f := mem[f][off := b]];
        }
        return true;
      }
      return false;
    }

    /** The stack of the forked thread (thread_create_fork). */
    method CloneStack(c: Ctx, child: Ctx)
      modifies this
      ensures Now() == Steps.CloneStack(old(Now()), c, child)
    {
      if c in stacks && stacks[c] != [] && stacks[c][0] in lends && child in reserved
        && lends[stacks[c][0]].vpage in reserved[child]
      {
        stacks := stacks[child := [reserved[child][lends[stacks[c][0]].vpage]]];
      }
    }

    /** pman_free_context on a process's context: the loop ends, and what is left
        is what the remaining processes hold. */
    method FreeContext(c: Ctx)
      requires Inv(Now()) && c in lists
      modifies this
      ensures Now() == Steps.Exit(old(Now()), c)
      ensures Inv(Now()) && Abs(Now()) == old(Abs(Now())) - {c} && RootsReturned(old(Now()), Now())
    {
      hide Inv, View, RootsReturned, Linked, Base, Drop;
      ghost var s := Now();
      ExitAbs(s, c);
      stacks := stacks[c := []];
      ghost var s0 := Now();
      while c in lists && lists[c] != []
        invariant c in lists && Base(Now())
        invariant Steps.DropAll(s0, c) == Steps.DropAll(Now(), c)
        decreases if c in lists then |lists[c]| else 0
      {
        FreeTurn(Now(), c);
        Unmap(lists[c][0]);
      }
      lists, pt, reserved, stacks := lists - {c}, pt - {c}, reserved - {c}, stacks - {c};
    }
  }

  lemma StoreFacts(s: State, c: Ctx, v: nat, off: nat, b: int, id': Id, r: Id, frames: seq<Frame>)
    requires Inv(s) && StoreReady(s, c, v, id', r, frames)
    ensures c in s.lists && c in Abs(s) && Base(s)
    ensures v in s.pt[c] <==> v in Abs(s)[c]
    ensures v in s.pt[c] ==>
              && Linked(s, s.reserved[c][v]) && FreshId(s, r) && |frames| == s.lends[s.reserved[c][v]].pages
              && var t := Steps.UserStore(s, c, v, off, b, id', r, frames);
              && Inv(t)
              && Abs(t) == if Abs(s)[c][v].prot.write then Eager.StoreAt(Abs(s), c, v, off, b) else Abs(s)
    ensures v in s.pt[c] ==>
              var t := if s.pt[c][v].write then s else Steps.PrepareWrite(s, s.reserved[c][v], id', r, frames);
              c in t.pt && v in t.pt[c] && t.pt[c][v].write <==> Abs(s)[c][v].prot.write
  {
    hide Base, View, StacksOk, ModesOk, Steps.UserStore, Steps.PrepareWrite, Eager.StoreAt, Linked;
    ContextFact(s, c);
    ViewKeys(s, c);
    if v in s.pt[c] {
      CellProt(s, c, v);
      UserStoreOk(s, c, v, off, b, id', r, frames);
      WritableEntry(s, c, v);
      if !s.pt[c][v].write {
        PreparedEntry(s, c, v, id', r, frames);
      }
    }
  }

  lemma NewContextAbs(s: State, c: Ctx)
    ensures Inv(s) && c !in s.lists ==>
              Inv(CowState.NewContext(s, c)) && Abs(CowState.NewContext(s, c)) == Abs(s)[c := map[]]
  {
    hide Base, View, StacksOk, ModesOk;
    if Inv(s) && c !in s.lists { NewContextOk(s, c); }
  }

  /** The frames and names a write fault may need are at hand. */
  ghost predicate FaultReady(s: State, id: Id, id': Id, r: Id, frames: seq<Frame>) {
    Inv(s) && id in s.lends && FreshAfter(s, id, id') && r != id' && FreshFrames(s, frames)
  }

  lemma FaultInvisible(s: State, id: Id, id': Id, r: Id, frames: seq<Frame>)
    requires Linked(s, id) && FreshId(s, r) && |frames| == s.lends[id].pages
    ensures FaultReady(s, id, id', r, frames) ==>
              Inv(Steps.PrepareWrite(s, id, id', r, frames)) && Abs(Steps.PrepareWrite(s, id, id', r, frames)) == Abs(s)
  {
    hide Inv, Abs, Steps.PrepareWrite, Linked;
    if FaultReady(s, id, id', r, frames) {
      PrepareWriteOk(s, id, id', r, frames);
      AbsSame(s, Steps.PrepareWrite(s, id, id', r, frames));
    }
  }

  lemma SegmentAbs(s: State, c: Ctx, v: nat, prot: Prot, kind: RootKind, r: Id, id: Id, frames: seq<Frame>,
                   init: seq<Page>)
    requires Inv(s) && CanCreate(s, c, v, r, id, frames, init)
    ensures var t := Steps.CreateSegment(s, c, v, prot, kind, r, id, frames, init);
            Inv(t) && c in Abs(s) && Abs(t) == Abs(s)[c := Abs(s)[c] + Eager.NewCells(v, prot, r, init)]
  {
    hide Base, View, StacksOk, ModesOk, Steps.CreateSegment, Eager.NewCells;
    CreateSegmentOk(s, c, v, prot, kind, r, id, frames, init);
    CreateSegmentBase(s, c, v, prot, kind, r, id, frames, init);
  }

  lemma PreparedEntry(s: State, c: Ctx, v: nat, id': Id, r: Id, frames: seq<Frame>)
    requires Inv(s) && StoreReady(s, c, v, id', r, frames) && v in s.pt[c] && !s.pt[c][v].write
    requires Linked(s, s.reserved[c][v])
    ensures var t := Steps.PrepareWrite(s, s.reserved[c][v], id', r, frames);
            c in t.pt && v in t.pt[c] && (t.pt[c][v].write <==> s.lends[s.reserved[c][v]].prot.write)
  {
    hide Base, View, StacksOk, ModesOk, Linked, Steps.PrepareWrite;
    var id := s.reserved[c][v];
    WritableEntry(s, c, v);
    PrepareWriteOk(s, id, id', r, frames);
    if s.lends[id].kind.Borrowed? {
      FaultEntry(s, Steps.PrepareWrite(s, id, id', r, frames), c, v, id');
    }
  }

  lemma ForkAbs(s: State, c: Ctx, child: Ctx, names: seq<(Id, Id)>)
    requires Inv(s) && c in s.lists && child !in s.lists && c in s.stacks && s.stacks[c] != []
    requires FreshNames(CowState.NewContext(s, child), c, child, s.lists[c], names)
    ensures c in Abs(s) && Inv(Steps.Fork(s, c, child, names))
    ensures Abs(Steps.Fork(s, c, child, names)) == Abs(s)[child := Abs(s)[c]]
    ensures StacksKept(s, Steps.Fork(s, c, child, names)) && StackLike(Steps.Fork(s, c, child, names), c, child)
  {
    hide Base, View, StacksOk, ModesOk, FreshNames, Steps.Fork, StacksKept, StackLike, HasTwin;
    ContextFact(s, c);
    ForkOk(s, c, child, names);
  }

  lemma ForkStart(s: State, c: Ctx, child: Ctx)
    requires Inv(s) && c in s.lists && child !in s.lists
    ensures var t := CowState.NewContext(s, child); Inv(t) && Pending(t, c, child, s.lists[c])
  {
    hide Base, View, StacksOk, ModesOk;
    NewContextOk(s, child);
    StartPending(s, c, child);
  }

  /** One turn of the fork loop, as the loop needs it. */
  lemma ForkTurn(s: State, c: Ctx, child: Ctx, list: seq<Id>, names: seq<(Id, Id)>)
    requires Inv(s) && Pending(s, c, child, list) && FreshNames(s, c, child, list, names) && list != []
    ensures names != [] && Steps.CanForkOne(s, c, child, list[0], names[0].0)
    ensures var t := Steps.ForkOne(s, c, child, list[0], names[0].0, names[0].1);
            && Inv(t) && Pending(t, c, child, list[1..]) && FreshNames(t, c, child, list[1..], names[1..])
            && Steps.ForkAll(s, c, child, list, names) == Steps.ForkAll(t, c, child, list[1..], names[1..])
  {
    hide Inv, Pending, View, FreshId, FreshAfter, Linked, Steps.ForkOne, SpanFree, ForkEffect;
    InvBase(s);
    PendingForkable(s, c, child, list);
    var id, a, b := list[0], names[0].0, names[0].1;
    assert Steps.CanForkOne(s, c, child, id, a);
    var t := Steps.ForkOne(s, c, child, id, a, b);
    ForkOneOk(s, c, child, id, a, b);
    InvBase(t);
    PendingNext(s, t, c, child, list);
  }

  lemma ExitAbs(s: State, c: Ctx)
    requires Inv(s) && c in s.lists
    ensures Inv(Steps.Exit(s, c)) && Abs(Steps.Exit(s, c)) == Abs(s) - {c} && RootsReturned(s, Steps.Exit(s, c))
    ensures Base(s.(stacks := s.stacks[c := []]))
  {
    hide Base, View, StacksOk, ModesOk, RootsReturned, Steps.Exit;
    ExitOk(s, c);
    QuietThreads(s, c);
  }

  lemma FreeTurn(s: State, c: Ctx)
    requires Base(s) && c in s.lists && s.lists[c] != []
    ensures Linked(s, s.lists[c][0])
    ensures var t := Drop(s, s.lists[c][0]);
            && Base(t) && c in t.lists && |t.lists[c]| < |s.lists[c]|
            && Steps.DropAll(s, c) == Steps.DropAll(t, c)
  {
    hide Base, SpanOf;
    HeadLinked(s, c);
    DropBase(s, s.lists[c][0]);
    LendFact(s, s.lists[c][0]);
  }

  lemma ListedFact(s: State, c: Ctx, i: nat)
    requires Base(s) && c in s.lists && i < |s.lists[c]|
    ensures s.lists[c][i] in s.lends && s.lends[s.lists[c][i]].ctx == c
  {
    hide FramesOk, CountsOk, TablesOk, LendersOk;
    assert s.lists[c][i] in s.lists[c];
  }

  lemma NotFound(s: State, c: Ctx, v: nat)
    requires Base(s) && c in s.lists
    requires forall j :: 0 <= j < |s.lists[c]| ==> s.lists[c][j] in s.lends && !InSpan(s.lends[s.lists[c][j]], v)
    ensures c in s.reserved && v !in s.reserved[c]
  {
    hide FramesOk, CountsOk, SlotsOk, LendersOk;
    ContextFact(s, c);
    assert forall id :: id in s.lists[c] ==> !InSpan(s.lends[id], v);
  }
}
