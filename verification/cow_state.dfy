/** The paging manager's state and primitive operations, as values.

    Root mappings (ALLOC and MAP) own physical frames and carry a reference
    count; they live in the kernel context. Lent mappings (BORROWED and
    SHARED) sit in a process context, name the root they were lent from, and
    are the only thing a process's page table is built from. */
module CowState {

  type Id = nat        // address of a pman_mapping_t
  type Ctx = nat       // a process's paging context
  type Frame = nat     // a physical page
  type Page = map<int, int>  // contents of a physical page, by byte offset

  datatype Prot = Prot(write: bool, exec: bool, shared: bool)
  datatype LendKind = Borrowed | Shared
  datatype RootKind = Alloc | Map

  datatype Root = Root(kind: RootKind, refs: nat, frames: seq<Frame>)
  datatype Lend = Lend(ctx: Ctx, kind: LendKind, prot: Prot, lender: Id, vpage: nat, pages: nat)
  datatype Pte = Pte(frame: Frame, write: bool, exec: bool)
  datatype Place = Place(root: Id, index: nat)

  /** `pt` holds each context's page table as the flat map it implements;
      `reserved` its virtual allocator: the pages taken, and for which mapping.
      `owner` is the physical allocator: the frames taken, and by which root.
      `handles` counts the owner handles the kernel still holds on a root:
      adding a root yields one, and unmapping the root gives it back.
      `stacks` holds, per context, the stack mapping of each thread. */
  datatype State = State(
    roots: map<Id, Root>,
    lends: map<Id, Lend>,
    lists: map<Ctx, seq<Id>>,
    pt: map<Ctx, map<nat, Pte>>,
    reserved: map<Ctx, map<nat, Id>>,
    owner: map<Frame, Place>,
    mem: map<Frame, Page>,
    handles: map<Id, nat>,
    stacks: map<Ctx, seq<Id>>)

  // ---------------------------------------------------------------- operations

  predicate FreshId(s: State, id: Id) {
    id !in s.roots && id !in s.lends
  }

  predicate NoDup<T(==)>(q: seq<T>) {
    forall i, j :: 0 <= i < j < |q| ==> q[i] != q[j]
  }

  predicate FreshFrames(s: State, frames: seq<Frame>) {
    && NoDup(frames)
    && forall i :: 0 <= i < |frames| ==> frames[i] !in s.owner
  }

  /** The frames of root `r`, each with its place. */
  function Places(r: Id, frames: seq<Frame>): map<Frame, Place> {
    if frames == [] then map[]
    else Places(r, frames[..|frames| - 1])[frames[|frames| - 1] := Place(r, |frames| - 1)]
  }

  /** Frame contents after the kernel has filled a new root with `init`. */
  function Contents(frames: seq<Frame>, init: seq<Page>): map<Frame, Page>
    requires |frames| == |init|
  {
    if frames == [] then map[]
    else Contents(frames[..|frames| - 1], init[..|frames| - 1])[frames[|frames| - 1] := init[|frames| - 1]]
  }

  /** pman_context_add_alloc / add_map in the kernel context: the new root has
      one reference, held by the caller. */
  function AddRoot(s: State, r: Id, kind: RootKind, frames: seq<Frame>, init: seq<Page>): State
    requires |frames| == |init|
  {
    s.(roots := s.roots[r := Root(kind, 1, frames)],
       handles := s.handles[r := 1],
       owner := s.owner + Places(r, frames),
       mem := s.mem + Contents(frames, init))
  }

  /** pman_add_reference */
  function AddReference(s: State, r: Id): State
    requires r in s.roots && r in s.handles
  {
    s.(roots := s.roots[r := s.roots[r].(refs := s.roots[r].refs + 1)],
       handles := s.handles[r := s.handles[r] + 1])
  }

  function EntryOf(frames: seq<Frame>, l: Lend, p: nat): Pte
    requires l.vpage <= p < l.vpage + |frames|
  {
    Pte(frames[p - l.vpage], l.kind.Shared? && l.prot.write, l.prot.exec)
  }

  predicate InSpan(l: Lend, p: nat) { l.vpage <= p < l.vpage + l.pages }

  /** One page-table entry per frame, from the mapping's first page up. */
  function Entries(frames: seq<Frame>, l: Lend): map<nat, Pte>
    requires l.pages == |frames|
  {
    map p: nat | l.vpage <= p < l.vpage + l.pages && InSpan(l, p) :: EntryOf(frames, l, p)
  }

  function Reserve(l: Lend, id: Id): map<nat, Id> {
    map p: nat | l.vpage <= p < l.vpage + l.pages && InSpan(l, p) :: id
  }

  function SpanOf(l: Lend): set<nat> {
    set p: nat | l.vpage <= p < l.vpage + l.pages && InSpan(l, p)
  }

  /** pman_context_add_borrowed and pman_context_add_shared, which differ only
      in whether the page-table entries may be writable. */
  function AddLend(s: State, id: Id, c: Ctx, kind: LendKind, prot: Prot, r: Id, v: nat): State
    requires r in s.roots && c in s.lists && c in s.pt && c in s.reserved
  {
    var root := s.roots[r];
    var l := Lend(c, kind, prot, r, v, |root.frames|);
    s.(roots := s.roots[r := root.(refs := root.refs + 1)],
       lends := s.lends[id := l],
       lists := s.lists[c := [id] + s.lists[c]],
       pt := s.pt[c := s.pt[c] + Entries(root.frames, l)],
       reserved := s.reserved[c := s.reserved[c] + Reserve(l, id)])
  }

  /** The root branch of pman_context_unmap: one reference less, and at zero the
      root goes and its frames return to the physical allocator. */
  function DropReference(s: State, r: Id): State
    requires r in s.roots && s.roots[r].refs > 0
  {
    var root := s.roots[r];
    if root.refs == 1 then
      s.(roots := s.roots - {r}, handles := s.handles - {r}, owner := s.owner - (set f | f in root.frames))
    else s.(roots := s.roots[r := root.(refs := root.refs - 1)])
  }

  function Without(q: seq<Id>, id: Id): (w: seq<Id>)
    ensures forall x :: x in w <==> x in q && x != id
    ensures id in q ==> |w| < |q|
    ensures |w| <= |q|
  {
    if q == [] then []
    else
      var rest := Without(q[1..], id);
      assert forall x :: x in q <==> x == q[0] || x in q[1..];
      if q[0] == id then rest else [q[0]] + rest
  }

  predicate Filled(mem: map<Frame, Page>, frames: seq<Frame>) {
    forall i :: 0 <= i < |frames| ==> frames[i] in mem
  }

  /** The links the code follows from a lent mapping are all there. */
  predicate Linked(s: State, id: Id) {
    && id in s.lends
    && var l := s.lends[id];
    && l.ctx in s.lists && l.ctx in s.pt && l.ctx in s.reserved && l.ctx in s.stacks
    && l.lender in s.roots && s.roots[l.lender].refs > 0 && l.lender in s.handles
    && l.pages == |s.roots[l.lender].frames| && Filled(s.mem, s.roots[l.lender].frames)
  }

  /** The BORROWED and SHARED branches of pman_context_unmap. */
  function Drop(s: State, id: Id): State
    requires Linked(s, id)
  {
    var l := s.lends[id];
    DropReference(s, l.lender).(
      lends := s.lends - {id},
      lists := s.lists[l.ctx := Without(s.lists[l.ctx], id)],
      pt := s.pt[l.ctx := s.pt[l.ctx] - SpanOf(l)],
      reserved := s.reserved[l.ctx := s.reserved[l.ctx] - SpanOf(l)])
  }

  /** pman_context_unmap on a root whose handle the kernel holds. */
  function Release(s: State, r: Id): State
    requires r in s.roots && s.roots[r].refs > 0
    requires r in s.handles && s.handles[r] > 0
  {
    DropReference(s.(handles := s.handles[r := s.handles[r] - 1]), r)
  }

  /** pman_new_context */
  function NewContext(s: State, c: Ctx): State {
    s.(lists := s.lists[c := []], pt := s.pt[c := map[]], reserved := s.reserved[c := map[]],
      stacks := s.stacks[c := []])
  }

  function RemapAll(stacks: seq<Id>, before: Id, after: Id): (r: seq<Id>)
    ensures |r| == |stacks|
    ensures forall i :: 0 <= i < |r| ==> r[i] == if stacks[i] == before then after else stacks[i]
  {
    seq(|stacks|, i requires 0 <= i < |stacks| => if stacks[i] == before then after else stacks[i])
  }

  /** process_remap */
  function Remap(s: State, c: Ctx, before: Id, after: Id): State
    requires c in s.stacks
  {
    s.(stacks := s.stacks[c := RemapAll(s.stacks[c], before, after)])
  }

  // ---------------------------------------------------------------- invariant

  /** The lists name exactly the lent mappings, each in its own context. */
  ghost predicate ListsOk(lends: map<Id, Lend>, lists: map<Ctx, seq<Id>>) {
    && (forall c :: c in lists ==> NoDup(lists[c]))
    && (forall c, id :: c in lists && id in lists[c] ==> id in lends && lends[id].ctx == c)
    && (forall id :: id in lends ==> lends[id].ctx in lists && id in lists[lends[id].ctx])
  }

  ghost predicate LendersOk(roots: map<Id, Root>, lends: map<Id, Lend>) {
    forall id :: id in lends ==>
      && lends[id].lender in roots
      && lends[id].pages == |roots[lends[id].lender].frames|
      && lends[id].pages > 0
  }

  predicate FrameAt(owner: map<Frame, Place>, mem: map<Frame, Page>, f: Frame, r: Id, i: nat) {
    f in mem && f in owner && owner[f] == Place(r, i)
  }

  /** Every frame of a root is taken for that root and place, and every frame
      taken belongs to a root: no frame has two owners and none leaks. */
  ghost predicate FramesOk(roots: map<Id, Root>, owner: map<Frame, Place>, mem: map<Frame, Page>) {
    && (forall r, i :: r in roots && 0 <= i < |roots[r].frames| ==> FrameAt(owner, mem, roots[r].frames[i], r, i))
    && (forall f :: f in owner ==> owner[f].root in roots && f in roots[owner[f].root].frames)
  }

  ghost predicate SlotOk(frames: seq<Frame>, id: Id, l: Lend, pt: map<nat, Pte>, res: map<nat, Id>, p: nat)
    requires l.pages == |frames| && InSpan(l, p)
  {
    && p in pt && pt[p] == EntryOf(frames, l, p)
    && p in res && res[p] == id
  }

  /** Every page of a mapping is mapped and reserved as the mapping says. */
  ghost predicate SlotsOk(roots: map<Id, Root>, lends: map<Id, Lend>, pt: map<Ctx, map<nat, Pte>>,
                          reserved: map<Ctx, map<nat, Id>>)
    requires LendersOk(roots, lends)
  {
    forall id, p :: id in lends && InSpan(lends[id], p) ==>
      && lends[id].ctx in pt && lends[id].ctx in reserved
      && SlotOk(roots[lends[id].lender].frames, id, lends[id], pt[lends[id].ctx], reserved[lends[id].ctx], p)
  }

  /** Nothing else is mapped or reserved. */
  ghost predicate NoStraySlots(lends: map<Id, Lend>, pt: map<Ctx, map<nat, Pte>>, reserved: map<Ctx, map<nat, Id>>) {
    && pt.Keys == reserved.Keys
    && (forall c, p :: c in reserved && p in reserved[c] ==>
          && reserved[c][p] in lends
          && lends[reserved[c][p]].ctx == c && InSpan(lends[reserved[c][p]], p))
    && (forall c :: c in pt ==> pt[c].Keys == reserved[c].Keys)
  }

  /** The page tables and reservations say exactly what the mappings say; since
      a page is reserved for one mapping, mappings of a context never overlap. */
  ghost predicate TablesOk(roots: map<Id, Root>, lends: map<Id, Lend>, pt: map<Ctx, map<nat, Pte>>,
                           reserved: map<Ctx, map<nat, Id>>)
    requires LendersOk(roots, lends)
  {
    SlotsOk(roots, lends, pt, reserved) && NoStraySlots(lends, pt, reserved)
  }

  ghost function LentFrom(lends: map<Id, Lend>, r: Id): set<Id> {
    set id | id in lends && lends[id].lender == r
  }

  /** References are exact: open handles plus live lent mappings, never zero. */
  ghost predicate CountsOk(roots: map<Id, Root>, handles: map<Id, nat>, lends: map<Id, Lend>) {
    && handles.Keys == roots.Keys
    && forall r :: r in roots ==>
         roots[r].refs == handles[r] + |LentFrom(lends, r)| && roots[r].refs > 0
  }

  /** Every thread's stack mapping is a live mapping of its context. */
  ghost predicate StacksOk(lists: map<Ctx, seq<Id>>, stacks: map<Ctx, seq<Id>>) {
    && stacks.Keys == lists.Keys
    && forall c, i :: c in stacks && 0 <= i < |stacks[c]| ==> stacks[c][i] in lists[c]
  }

  ghost predicate Base(s: State) {
    && s.lists.Keys == s.pt.Keys == s.stacks.Keys
    && ListsOk(s.lends, s.lists)
    && LendersOk(s.roots, s.lends)
    && FramesOk(s.roots, s.owner, s.mem)
    && TablesOk(s.roots, s.lends, s.pt, s.reserved)
    && CountsOk(s.roots, s.handles, s.lends)
  }

  /** Which kinds of lending may coexist on one root: borrows are never of
      shared memory, shared memory is lent to all as shared, and a private
      mapping that is not a borrow is alone on its root. */
  ghost predicate ModesOk(lends: map<Id, Lend>) {
    && (forall a :: a in lends && lends[a].kind.Borrowed? ==> !lends[a].prot.shared)
    && (forall a, b :: a in lends && b in lends && a != b && lends[a].lender == lends[b].lender ==>
          && (lends[a].prot.shared <==> lends[b].prot.shared)
          && (!lends[a].prot.shared ==> lends[a].kind.Borrowed?))
  }

  ghost predicate Inv(s: State) {
    Base(s) && ModesOk(s.lends) && StacksOk(s.lists, s.stacks)
  }

  ghost predicate SpanFree(reserved: map<Ctx, map<nat, Id>>, c: Ctx, v: nat, n: nat) {
    c in reserved && forall p :: v <= p < v + n ==> p !in reserved[c]
  }
}
