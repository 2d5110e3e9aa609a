/** The paging manager's compound operations: segment creation, the write
    fault, fork, unmap and exit, each a short sequence of primitives. */
module CowSteps {
  import opened CowState
  import opened CowBase
  import opened CowView

  /** process_create_segment: a new root, lent as SHARED, its handle given back. */
  function CreateSegment(s: State, c: Ctx, v: nat, prot: Prot, kind: RootKind, r: Id, id: Id, frames: seq<Frame>,
                         init: seq<Page>): State
    requires |frames| == |init| && c in s.lists && c in s.pt && c in s.reserved
  {
    Release(AddLend(AddRoot(s, r, kind, frames, init), id, c, Shared, prot, r, v), r)
  }

  /** Unmap a mapping and lend `r` in its place: same context, address, rights. */
  function Relend(s: State, id: Id, id': Id, kind: LendKind, r: Id): State
    requires Linked(s, id) && r in Drop(s, id).roots
  {
    var l := s.lends[id];
    AddLend(Drop(s, id), id', l.ctx, kind, l.prot, r, l.vpage)
  }

  /** pman_context_prepare_write on a BORROWED mapping with the last reference:
      the mapping becomes a SHARED one of the same root. */
  function Promote(s: State, id: Id, id': Id): State
    requires Linked(s, id)
  {
    var l := s.lends[id];
    var s1 := AddReference(s, l.lender);
    var s2 := Relend(s1, id, id', Shared, l.lender);
    Remap(Release(s2, l.lender), l.ctx, id, id')
  }

  function CopyOf(mem: map<Frame, Page>, frames: seq<Frame>): (pages: seq<Page>)
    requires Filled(mem, frames)
    ensures |pages| == |frames| && forall i :: 0 <= i < |frames| ==> pages[i] == mem[frames[i]]
  {
    seq(|frames|, i requires 0 <= i < |frames| => mem[frames[i]])
  }

  /** pman_context_prepare_write with other references left: a new root is
      filled with a copy and lent as SHARED in the mapping's place. */
  function CopyAway(s: State, id: Id, id': Id, r: Id, frames: seq<Frame>): State
    requires Linked(s, id) && FreshId(s, r) && |frames| == s.lends[id].pages
  {
    var l := s.lends[id];
    var s1 := AddRoot(s, r, Alloc, frames, CopyOf(s.mem, s.roots[l.lender].frames));
    var s2 := Relend(s1, id, id', Shared, r);
    Remap(Release(s2, r), l.ctx, id, id')
  }

  /** pman_context_prepare_write */
  function PrepareWrite(s: State, id: Id, id': Id, r: Id, frames: seq<Frame>): State
    requires Linked(s, id) && FreshId(s, r) && |frames| == s.lends[id].pages
  {
    if s.lends[id].kind.Shared? then s
    else if s.roots[s.lends[id].lender].refs == 1 then Promote(s, id, id')
    else CopyAway(s, id, id', r, frames)
  }

  predicate CanForkOne(s: State, c: Ctx, child: Ctx, id: Id, a: Id) {
    && Linked(s, id) && s.lends[id].ctx == c && c != child && FreshId(s, a)
    && child in s.lists && child in s.pt && child in s.reserved
  }

  /** One turn of the loop of process_create_fork: `a` is lent to the child and
      `b` replaces `id` in the parent. */
  function ForkOne(s: State, c: Ctx, child: Ctx, id: Id, a: Id, b: Id): State
    requires CanForkOne(s, c, child, id, a)
  {
    var l := s.lends[id];
    if l.prot.shared then
      if l.kind.Borrowed? then s
      else AddLend(s, a, child, Shared, l.prot, l.lender, l.vpage)
    else
      var s1 := AddLend(s, a, child, Borrowed, l.prot, l.lender, l.vpage);
      var s2 := Relend(s1, id, b, Borrowed, l.lender);
      Remap(s2, c, id, b)
  }

  /** The loop of process_create_fork over the parent's mappings, taken when the
      fork begins. It stops short if a mapping it needs is gone, which
      `CowFork.ForkOk` rules out. */
  function ForkAll(s: State, c: Ctx, child: Ctx, list: seq<Id>, names: seq<(Id, Id)>): State
    decreases |list|
  {
    if list == [] || names == [] || !CanForkOne(s, c, child, list[0], names[0].0) then s
    else ForkAll(ForkOne(s, c, child, list[0], names[0].0, names[0].1), c, child, list[1..], names[1..])
  }

  /** The child's thread takes the mapping at the address of the parent's first
      stack (thread_create_fork). */
  function CloneStack(s: State, c: Ctx, child: Ctx): State {
    if c in s.stacks && s.stacks[c] != [] && s.stacks[c][0] in s.lends && child in s.reserved
      && s.lends[s.stacks[c][0]].vpage in s.reserved[child]
    then s.(stacks := s.stacks[child := [s.reserved[child][s.lends[s.stacks[c][0]].vpage]]])
    else s
  }

  /** process_create_fork */
  function Fork(s: State, c: Ctx, child: Ctx, names: seq<(Id, Id)>): State
    requires c in s.lists
  {
    CloneStack(ForkAll(NewContext(s, child), c, child, s.lists[c], names), c, child)
  }

  /** The loop of pman_free_context. */
  function DropAll(s: State, c: Ctx): State
    decreases if c in s.lists then |s.lists[c]| else 0
  {
    if c !in s.lists || s.lists[c] == [] || !Linked(s, s.lists[c][0]) || s.lends[s.lists[c][0]].ctx != c then s
    else DropAll(Drop(s, s.lists[c][0]), c)
  }

  /** process_free, as far as memory goes: the threads no longer count, then the
      context is emptied and freed. */
  function Exit(s: State, c: Ctx): State {
    var t := DropAll(s.(stacks := s.stacks[c := []]), c);
    t.(lists := t.lists - {c}, pt := t.pt - {c}, reserved := t.reserved - {c}, stacks := t.stacks - {c})
  }

  /** A user store through the page table: a fault on a mapped, read-only page
      runs prepare_write and the store is tried again; if the page is still not
      writable the store never lands. */
  function UserStore(s: State, c: Ctx, v: nat, off: nat, b: int, id': Id, r: Id, frames: seq<Frame>): State
    requires c in s.pt && (v in s.pt[c] ==> c in s.reserved && v in s.reserved[c] && Linked(s, s.reserved[c][v]))
    requires v in s.pt[c] ==> FreshId(s, r) && |frames| == s.lends[s.reserved[c][v]].pages
  {
    if v !in s.pt[c] then s
    else if s.pt[c][v].write then Write(s, s.pt[c][v].frame, off, b)
    else
      var t := PrepareWrite(s, s.reserved[c][v], id', r, frames);
      if c in t.pt && v in t.pt[c] && t.pt[c][v].write then Write(t, t.pt[c][v].frame, off, b) else t
  }

  function Write(s: State, f: Frame, off: nat, b: int): State {
    if f in s.mem then s.(mem := s.mem[f := s.mem[f][off := b]]) else s
  }
}
