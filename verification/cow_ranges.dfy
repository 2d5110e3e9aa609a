/** The paging manager over the virtual-range allocator: every context has its own
    list of ranges, and each mapping is placed and released through it. An address
    of 0 asks for first fit, so that fork and the write fault, which put a mapping
    back where it was, rely on first fit finding that very place. */
module CowRanges {
  import opened Wrappers
  import opened CowState
  import opened CowBase
  import opened CowView
  import opened CowSteps
  import opened CowFault
  import opened CowFork
  import opened CowStore
  import opened CowExit
  import opened CowKept
  import opened CowRefines
  import Eager
  import Tiling
  import opened Valloc

  type Ranges = map<Ctx, seq<Node>>
  type Lends = map<Id, Lend>

  function SpanFor(l: Lend): Tiling.Span {
    (l.vpage, l.pages)
  }

  /** The page ranges that a context's mappings take. */
  function Spans(lends: Lends, c: Ctx): set<Tiling.Span> {
    set id | id in lends && lends[id].ctx == c :: SpanFor(lends[id])
  }

  ghost predicate BackedAt(lends: Lends, nodes: seq<Node>, c: Ctx) {
    Tiles(nodes) && Tiling.Live(Segs(nodes), 0, 0) == Spans(lends, c)
  }

  /** Each context's list reserves exactly the ranges of its mappings. */
  ghost predicate Backed(s: State, ranges: Ranges) {
    ranges.Keys == s.lists.Keys && forall c :: c in ranges ==> BackedAt(s.lends, ranges[c], c)
  }

  // ------------------------------------------------------------- what steps do

  const Unused: seq<Node> := [Node(true, 0, REGION_PAGES)]

  /** A mapping placed at page v, or nothing if the allocator would put it elsewhere
      or not at all. */
  function Place(ranges: Ranges, c: Ctx, v: nat, n: nat): Option<Ranges> {
    if c !in ranges then None
    else match PlaceOn(ranges[c], v, n)
         case None => None
         case Some(r) => if r.0 == PAGE * v then Some(ranges[c := r.1]) else None
  }

  function Give(ranges: Ranges, c: Ctx, v: nat): Ranges {
    if c in ranges then ranges[c := ReleaseOn(ranges[c], PAGE * v)] else ranges
  }

  /** pman_context_prepare_write */
  function FaultRanges(ranges: Ranges, l: Lend): Option<Ranges> {
    if l.kind.Shared? then Some(ranges) else Place(Give(ranges, l.ctx, l.vpage), l.ctx, l.vpage, l.pages)
  }

  /** One turn of the loop of process_create_fork */
  function ForkOneRanges(ranges: Ranges, c: Ctx, child: Ctx, l: Lend): Option<Ranges> {
    if l.prot.shared && l.kind.Borrowed? then Some(ranges)
    else match Place(ranges, child, l.vpage, l.pages)
         case None => None
         case Some(r) => if l.prot.shared then Some(r) else Place(Give(r, c, l.vpage), c, l.vpage, l.pages)
  }

  function ForkRanges(s: State, ranges: Ranges, c: Ctx, child: Ctx, list: seq<Id>, names: seq<(Id, Id)>): Option<Ranges>
    decreases |list|
  {
    if list == [] || names == [] || !CanForkOne(s, c, child, list[0], names[0].0) then Some(ranges)
    else match ForkOneRanges(ranges, c, child, s.lends[list[0]])
         case None => None
         case Some(r) =>
           ForkRanges(ForkOne(s, c, child, list[0], names[0].0, names[0].1), r, c, child, list[1..], names[1..])
  }

  /** The loop of pman_free_context */
  function DropRanges(s: State, ranges: Ranges, c: Ctx): Ranges
    decreases if c in s.lists then |s.lists[c]| else 0
  {
    if c !in s.lists || s.lists[c] == [] || !Linked(s, s.lists[c][0]) || s.lends[s.lists[c][0]].ctx != c then ranges
    else DropRanges(Drop(s, s.lists[c][0]), Give(ranges, c, s.lends[s.lists[c][0]].vpage), c)
  }

  ghost function StepRanges(s: State, ranges: Ranges, a: Eager.Label): Option<Ranges>
    requires Enabled(s, a)
  {
    match a
    case NewProcess(c) => Some(ranges[c := Unused])
    case Segment(c, v, _, _, _, _, frames, _) => Place(ranges, c, v, |frames|)
    case AddThread(_, _) => Some(ranges)
    case Fork(c, child, ids) => ForkRanges(NewContext(s, child), ranges[child := Unused], c, child, s.lists[c], ids)
    case Store(c, v, _, _, _, _, _) =>
      if v in s.pt[c] && !s.pt[c][v].write then FaultRanges(ranges, s.lends[s.reserved[c][v]]) else Some(ranges)
    case Unmap(c, v, _) => Some(Give(ranges, c, v))
    case Exit(c) => Some(DropRanges(s.(stacks := s.stacks[c := []]), ranges, c) - {c})
    case Keep(_, _, _, _) => Some(ranges)
    case LendKept(c, v, _, _, _, pages) => Place(ranges, c, v, |pages|)
    case LetGo(_) => Some(ranges)
  }

  // ------------------------------------------------------------------ the spans

  lemma SpansAdd(lends: Lends, id: Id, l: Lend, c: Ctx)
    requires id !in lends
    ensures Spans(lends[id := l], c) == Spans(lends, c) + (if l.ctx == c then {SpanFor(l)} else {})
  {
    var more := lends[id := l];
    forall x | x in Spans(lends, c) ensures x in Spans(more, c) {
      var i :| i in lends && lends[i].ctx == c && x == SpanFor(lends[i]);
      assert more[i] == lends[i];
    }
    if l.ctx == c { assert more[id] == l; }
  }

  /** A mapping replaced by another at its place. */
  lemma SpansSwap(lends: Lends, id: Id, id': Id, l: Lend, c: Ctx)
    requires id in lends && (id' == id || id' !in lends) && l.ctx == lends[id].ctx && SpanFor(l) == SpanFor(lends[id])
    ensures Spans((lends - {id})[id' := l], c) == Spans(lends, c)
  {
    var less := lends - {id};
    var more := less[id' := l];
    forall x | x in Spans(lends, c) ensures x in Spans(more, c) {
      var i :| i in lends && lends[i].ctx == c && x == SpanFor(lends[i]);
      var k := if i == id then id' else i;
      assert k in more && more[k].ctx == c && SpanFor(more[k]) == x;
    }
    forall x | x in Spans(more, c) ensures x in Spans(lends, c) {
      var i :| i in more && more[i].ctx == c && x == SpanFor(more[i]);
      var k := if i == id' then id else i;
      assert k in lends && lends[k].ctx == c && SpanFor(lends[k]) == x;
    }
  }

  lemma SpansDrop(s: State, id: Id, c: Ctx)
    requires Base(s) && id in s.lends
    ensures Spans(s.lends - {id}, c) ==
              Spans(s.lends, c) - (if s.lends[id].ctx == c then {SpanFor(s.lends[id])} else {})
  {
    hide Base;
    var less, l := s.lends - {id}, s.lends[id];
    forall x | x in Spans(less, c) ensures x in Spans(s.lends, c) && (l.ctx == c ==> x != SpanFor(l)) {
      var i :| i in less && less[i].ctx == c && x == SpanFor(less[i]);
      assert i in s.lends && s.lends[i] == less[i];
      if l.ctx == c && x == SpanFor(l) {
        LendFact(s, id);
        assert InSpan(l, l.vpage) && InSpan(s.lends[i], l.vpage);
        Disjoint(s, id, i, l.vpage);
      }
    }
    forall x | x in Spans(s.lends, c) && !(l.ctx == c && x == SpanFor(l)) ensures x in Spans(less, c) {
      var i :| i in s.lends && s.lends[i].ctx == c && x == SpanFor(s.lends[i]);
      assert i in less && less[i] == s.lends[i];
    }
  }

  lemma SpansIn(lends: Lends, id: Id)
    requires id in lends
    ensures SpanFor(lends[id]) in Spans(lends, lends[id].ctx)
  {
  }

  /** Pages that no mapping of the context takes are free in its list. */
  lemma FreeInList(s: State, nodes: seq<Node>, c: Ctx, v: nat, n: nat)
    requires Base(s) && c in s.lists && BackedAt(s.lends, nodes, c) && SpanFree(s.reserved, c, v, n)
    requires n > 0 && v + n <= REGION_PAGES
    ensures Tiling.SpanFree(Segs(nodes), 0, v, n)
  {
    hide Base, Tiles, Tiling.Live;
    TilesTotal(nodes);
    forall x | x in Tiling.Live(Segs(nodes), 0, 0) ensures x.0 + x.1 <= v || v + n <= x.0 {
      var id :| id in s.lends && s.lends[id].ctx == c && x == SpanFor(s.lends[id]);
      LendFact(s, id);
      var p := if v <= x.0 then x.0 else v;
      if !(x.0 + x.1 <= v || v + n <= x.0) {
        assert InSpan(s.lends[id], p);
        SlotFact(s, id, p);
      }
    }
  }

  lemma SpanInRegion(lends: Lends, nodes: seq<Node>, c: Ctx, x: Tiling.Span)
    requires BackedAt(lends, nodes, c) && x in Spans(lends, c)
    ensures x.0 + x.1 <= REGION_PAGES
  {
    hide Tiles, Spans;
    Tiling.LiveBounds(Segs(nodes), 0, 0, x);
    TilesTotal(nodes);
  }

  // ------------------------------------------------------- one call at a time

  /** A new mapping where the pages are free is placed there. */
  lemma PlaceBacked(s: State, ranges: Ranges, c: Ctx, v: nat, n: nat)
    requires Base(s) && Backed(s, ranges) && c in s.lists && SpanFree(s.reserved, c, v, n)
    requires n > 0 && v + n <= REGION_PAGES
    ensures var r := Place(ranges, c, v, n);
            && r.Some? && r.value.Keys == ranges.Keys && (forall d :: d in ranges && d != c ==> r.value[d] == ranges[d])
            && Tiles(r.value[c]) && Tiling.Live(Segs(r.value[c]), 0, 0) == Spans(s.lends, c) + {(v, n)}
  {
    hide Base, Tiles, Tiling.Live, PlaceOn, Spans, SpanFree;
    FreeInList(s, ranges[c], c, v, n);
    PlaceOk(ranges[c], v, n);
  }

  /** A mapping released and placed again leaves every list as it was. */
  lemma SwapRanges(ranges: Ranges, lends: Lends, l: Lend)
    requires l.ctx in ranges && BackedAt(lends, ranges[l.ctx], l.ctx) && SpanFor(l) in Spans(lends, l.ctx)
    ensures Place(Give(ranges, l.ctx, l.vpage), l.ctx, l.vpage, l.pages) == Some(ranges)
  {
    hide Tiles, Tiling.Live, PlaceOn, ReleaseOn, Spans;
    Recycled(ranges[l.ctx], l.vpage, l.pages);
    assert ranges[l.ctx := ReleaseOn(ranges[l.ctx], PAGE * l.vpage)][l.ctx := ranges[l.ctx]] == ranges;
  }

  lemma DropBacked(s: State, ranges: Ranges, id: Id)
    requires Base(s) && Backed(s, ranges) && Linked(s, id)
    ensures Backed(Drop(s, id), Give(ranges, s.lends[id].ctx, s.lends[id].vpage))
  {
    hide Base, Tiles, Tiling.Live, ReleaseOn, Spans, SpanOf, Without, DropReference;
    var l := s.lends[id];
    SpansIn(s.lends, id);
    ReleaseSpan(ranges[l.ctx], l.vpage, l.pages);
    forall c | c in ranges ensures BackedAt(s.lends - {id}, Give(ranges, l.ctx, l.vpage)[c], c) {
      SpansDrop(s, id, c);
    }
  }

  lemma FaultBacked(s: State, ranges: Ranges, id: Id, id': Id, r: Id, frames: seq<Frame>)
    requires Inv(s) && Linked(s, id) && FreshAfter(s, id, id') && Backed(s, ranges)
    requires FreshId(s, r) && r != id' && FreshFrames(s, frames) && |frames| == s.lends[id].pages
    ensures FaultRanges(ranges, s.lends[id]) == Some(ranges)
    ensures Backed(PrepareWrite(s, id, id', r, frames), ranges)
  {
    hide Base, Tiles, Tiling.Live, Place, Give, Spans, View, StacksOk, Promote, CopyAway;
    var l := s.lends[id];
    SpansIn(s.lends, id);
    SwapRanges(ranges, s.lends, l);
    PrepareWriteOk(s, id, id', r, frames);
    if l.kind.Borrowed? {
      var t := PrepareWrite(s, id, id', r, frames);
      FaultLends(s, id, id', r, frames);
      ContextFact(s, l.ctx);
      ContextFact(t, l.ctx);
      forall c | c in ranges ensures BackedAt(t.lends, ranges[c], c) {
        SpansSwap(s.lends, id, id', t.lends[id'], c);
      }
    }
  }

  // ---------------------------------------------------------------------- fork

  /** One turn of fork: the child's list gains the span, the parent's is as it was. */
  lemma ForkOneBacked(s: State, ranges: Ranges, c: Ctx, child: Ctx, id: Id, a: Id, b: Id)
    requires Inv(s) && Forkable(s, c, child, id) && FreshPair(s, id, a, b) && Backed(s, ranges)
    ensures var r := ForkOneRanges(ranges, c, child, s.lends[id]); var t := ForkOne(s, c, child, id, a, b);
            && r.Some? && Backed(t, r.value) && r.value.Keys == ranges.Keys
            && (forall d :: d in ranges && d != child ==> r.value[d] == ranges[d])
            && Spans(t.lends, child) == Spans(s.lends, child) + {SpanFor(s.lends[id])}
            && forall d :: d != child ==> Spans(t.lends, d) == Spans(s.lends, d)
  {
    hide Base, Tiles, Tiling.Live, Place, Give, Spans, View, StacksOk, ForkOne, SpanFree, FreshPair, ModesOk, Filled,
         ForkOneRanges;
    var l := s.lends[id];
    ForkOneKeys(s, c, child, id, a, b);
    SharedNotBorrowed(s, id);
    ForkOnePlaced(s, ranges, c, child, id);
    forall d
      ensures Spans(ForkOne(s, c, child, id, a, b).lends, d) ==
                Spans(s.lends, d) + (if d == child then {SpanFor(l)} else {})
    {
      ForkOneSpans(s, c, child, id, a, b, d);
    }
  }

  lemma ForkOnePlaced(s: State, ranges: Ranges, c: Ctx, child: Ctx, id: Id)
    requires Inv(s) && Forkable(s, c, child, id) && Backed(s, ranges)
    requires s.lends[id].prot.shared ==> s.lends[id].kind.Shared?
    ensures var l := s.lends[id]; var r := ForkOneRanges(ranges, c, child, l);
            && r.Some? && r.value.Keys == ranges.Keys && child in ranges
            && (forall d :: d in ranges && d != child ==> r.value[d] == ranges[d])
            && Tiles(r.value[child]) && Tiling.Live(Segs(r.value[child]), 0, 0) == Spans(s.lends, child) + {SpanFor(l)}
  {
    hide Base, Tiles, Tiling.Live, Place, Give, Spans, View, StacksOk, SpanFree, ModesOk, Filled;
    var l := s.lends[id];
    InvBase(s);
    SpansIn(s.lends, id);
    ContextFact(s, c);
    SpanInRegion(s.lends, ranges[c], c, SpanFor(l));
    PlaceBacked(s, ranges, child, l.vpage, l.pages);
    SwapRanges(Place(ranges, child, l.vpage, l.pages).value, s.lends, l);
  }

  lemma ForkOneKeys(s: State, c: Ctx, child: Ctx, id: Id, a: Id, b: Id)
    requires Inv(s) && Forkable(s, c, child, id) && FreshPair(s, id, a, b)
    ensures CanForkOne(s, c, child, id, a) && ForkOne(s, c, child, id, a, b).lists.Keys == s.lists.Keys
  {
    hide Base, View, StacksOk, ModesOk, ForkOne, SpanFree, Linked;
    ForkOneOk(s, c, child, id, a, b);
    ContextFact(s, c);
    ContextFact(ForkOne(s, c, child, id, a, b), c);
  }

  lemma ForkOneSpans(s: State, c: Ctx, child: Ctx, id: Id, a: Id, b: Id, d: Ctx)
    requires Forkable(s, c, child, id) && FreshPair(s, id, a, b)
             && (s.lends[id].prot.shared ==> s.lends[id].kind.Shared?)
    ensures Spans(ForkOne(s, c, child, id, a, b).lends, d) ==
            Spans(s.lends, d) + (if d == child then {SpanFor(s.lends[id])} else {})
  {
    hide Spans, SpanFree, ForkOne, Filled;
    var l := s.lends[id];
    var la := Lend(child, if l.prot.shared then Shared else Borrowed, l.prot, l.lender, l.vpage, l.pages);
    ForkOneLends(s, c, child, id, a, b);
    SpansAdd(s.lends, a, la, d);
    if !l.prot.shared {
      SpansSwap(s.lends[a := la], id, b, Lend(c, Borrowed, l.prot, l.lender, l.vpage, l.pages), d);
    }
  }

  lemma {:induction false} ForkBacked(s: State, ranges: Ranges, c: Ctx, child: Ctx, list: seq<Id>, names: seq<(Id, Id)>)
    requires Inv(s) && Pending(s, c, child, list) && FreshNames(s, c, child, list, names) && Backed(s, ranges)
    ensures var r := ForkRanges(s, ranges, c, child, list, names); var t := ForkAll(s, c, child, list, names);
            && r.Some? && Backed(t, r.value) && r.value.Keys == ranges.Keys
            && (forall d :: d in ranges && d != child ==> r.value[d] == ranges[d])
            && Spans(t.lends, child) ==
               Spans(s.lends, child) + set id | id in list && id in s.lends :: SpanFor(s.lends[id])
    decreases |list|
  {
    hide Inv, Pending, FreshPair, ForkOne, ForkOneRanges, CanForkOne, Backed, Spans;
    if list != [] {
      ForkTurnBacked(s, ranges, c, child, list, names);
      var id, a, b := list[0], names[0].0, names[0].1;
      var t := ForkOne(s, c, child, id, a, b);
      ForkBacked(t, ForkOneRanges(ranges, c, child, s.lends[id]).value, c, child, list[1..], names[1..]);
      ListSpans(s, t, c, child, list);
    }
  }

  lemma ForkTurnBacked(s: State, ranges: Ranges, c: Ctx, child: Ctx, list: seq<Id>, names: seq<(Id, Id)>)
    requires Inv(s) && Pending(s, c, child, list) && FreshNames(s, c, child, list, names) && Backed(s, ranges)
             && list != []
    ensures names != [] && CanForkOne(s, c, child, list[0], names[0].0) && list[0] in s.lends
    ensures var id := list[0]; var t := ForkOne(s, c, child, id, names[0].0, names[0].1);
            var r := ForkOneRanges(ranges, c, child, s.lends[id]);
            && Inv(t) && Pending(t, c, child, list[1..]) && FreshNames(t, c, child, list[1..], names[1..])
            && (forall x :: x in s.lends && x != id ==> x in t.lends && t.lends[x] == s.lends[x])
            && r.Some? && Backed(t, r.value) && r.value.Keys == ranges.Keys
            && (forall d :: d in ranges && d != child ==> r.value[d] == ranges[d])
            && Spans(t.lends, child) == Spans(s.lends, child) + {SpanFor(s.lends[id])}
  {
    hide Inv, Pending, FreshId, FreshAfter, ForkOne, ForkOneRanges, Linked, SpanFree, ForkEffect, Backed, Spans;
    InvBase(s);
    PendingForkable(s, c, child, list);
    var id, a, b := list[0], names[0].0, names[0].1;
    assert CanForkOne(s, c, child, id, a);
    ForkOneOk(s, c, child, id, a, b);
    InvBase(ForkOne(s, c, child, id, a, b));
    PendingNext(s, ForkOne(s, c, child, id, a, b), c, child, list);
    ForkOneBacked(s, ranges, c, child, id, a, b);
  }

  lemma ListSpans(s: State, t: State, c: Ctx, child: Ctx, list: seq<Id>)
    requires Pending(s, c, child, list) && list != []
    requires forall x :: x in s.lends && x != list[0] ==> x in t.lends && t.lends[x] == s.lends[x]
    ensures (set id | id in list && id in s.lends :: SpanFor(s.lends[id])) ==
            {SpanFor(s.lends[list[0]])} + set id | id in list[1..] && id in t.lends :: SpanFor(t.lends[id])
  {
    hide SpanFree;
    assert forall id :: id in list <==> id == list[0] || id in list[1..];
    forall i | 0 < i < |list| ensures list[i] != list[0] && list[i] in s.lends {}
    forall id | id in list[1..] ensures id != list[0] && id in s.lends && id in t.lends && t.lends[id] == s.lends[id] {
      var i :| 0 <= i < |list[1..]| && list[1..][i] == id;
      assert list[i + 1] == id;
    }
  }

  /** Fork through the allocator: every placement succeeds at the parent's address,
      the parent's list is untouched, and the child's list is the parent's. */
  lemma ForkCopiesRanges(s: State, ranges: Ranges, c: Ctx, child: Ctx, names: seq<(Id, Id)>)
    requires Inv(s) && Backed(s, ranges) && c in s.lists && child !in s.lists && c in s.stacks && s.stacks[c] != []
    requires FreshNames(NewContext(s, child), c, child, s.lists[c], names)
    ensures c in ranges
    ensures ForkRanges(NewContext(s, child), ranges[child := Unused], c, child, s.lists[c], names) ==
            Some(ranges[child := ranges[c]])
    ensures Backed(Fork(s, c, child, names), ranges[child := ranges[c]])
  {
    hide Base, StacksOk, ModesOk, ForkAll, ForkRanges, FreshNames, Pending, Tiles, Tiling.Live, Spans, View, BackedAt;
    NewContextOk(s, child);
    StartPending(s, c, child);
    NewBacked(s, ranges, child);
    var s0, r0 := NewContext(s, child), ranges[child := Unused];
    ForkBacked(s0, r0, c, child, s.lists[c], names);
    var t, r := ForkAll(s0, c, child, s.lists[c], names), ForkRanges(s0, r0, c, child, s.lists[c], names).value;
    AllSpans(s, c);
    NoSpans(s, child);
    SameLists(s.lends, t.lends, ranges[c], r[child], c, child);
    assert r == ranges[child := ranges[c]];
  }

  /** A context with the spans of another has its list. */
  lemma SameLists(lends: Lends, lends': Lends, nodes: seq<Node>, nodes': seq<Node>, c: Ctx, child: Ctx)
    requires BackedAt(lends, nodes, c) && BackedAt(lends', nodes', child) && Spans(lends', child) == Spans(lends, c)
    ensures nodes' == nodes
  {
    hide Tiles, Tiling.Live, Spans;
    SameReserved(nodes', nodes);
  }

  lemma NewBacked(s: State, ranges: Ranges, c: Ctx)
    requires Base(s) && Backed(s, ranges) && c !in s.lists
    ensures Backed(NewContext(s, c), ranges[c := Unused])
  {
    hide Base, Tiles, Tiling.Live, Spans;
    NoSpans(s, c);
    UnusedTiles();
  }

  lemma UnusedTiles()
    ensures Tiles(Unused) && Tiling.Live(Segs(Unused), 0, 0) == {}
  {
    assert Segs(Unused) == [Tiling.Seg(REGION_PAGES, false)];
    Tiling.Single(Tiling.Seg(REGION_PAGES, false), 0, 0);
  }

  lemma NoSpans(s: State, c: Ctx)
    requires Base(s) && c !in s.lists
    ensures Spans(s.lends, c) == {}
  {
    hide FramesOk, CountsOk, TablesOk, LendersOk;
  }

  lemma AllSpans(s: State, c: Ctx)
    requires Base(s) && c in s.lists
    ensures (set id | id in s.lists[c] && id in s.lends :: SpanFor(s.lends[id])) == Spans(s.lends, c)
  {
    hide FramesOk, CountsOk, TablesOk, LendersOk;
  }

  // ---------------------------------------------------------------------- exit

  lemma {:induction false} DropAllBacked(s: State, ranges: Ranges, c: Ctx)
    requires Base(s) && ModesOk(s.lends) && c in s.lists && Backed(s, ranges)
    ensures Backed(DropAll(s, c), DropRanges(s, ranges, c))
    decreases |s.lists[c]|
  {
    hide Base, Tiles, Tiling.Live, Spans, Drop, Filled, Give, ModesOk, View;
    if s.lists[c] != [] {
      HeadLinked(s, c);
      var id := s.lists[c][0];
      DropBacked(s, ranges, id);
      DropHead(s, id, c);
      DropAllBacked(Drop(s, id), Give(ranges, c, s.lends[id].vpage), c);
    }
  }

  /** When a process exits its list ends as one free range, and no other changes. */
  lemma ExitFreesRanges(s: State, ranges: Ranges, c: Ctx)
    requires Inv(s) && Backed(s, ranges) && c in s.lists
    ensures var r := DropRanges(s.(stacks := s.stacks[c := []]), ranges, c);
            c in r && r[c] == Unused && Backed(CowSteps.Exit(s, c), r - {c})
  {
    hide Base, StacksOk, ModesOk, DropAll, DropRanges, Tiles, Tiling.Live, Spans, View, Others;
    var s0 := s.(stacks := s.stacks[c := []]);
    QuietThreads(s, c);
    DropAllBacked(s0, ranges, c);
    DropAllOk(s0, c);
    var t, r := DropAll(s0, c), DropRanges(s0, ranges, c);
    OthersSpans(s.lends, c);
    UnusedTiles();
    SameReserved(r[c], Unused);
  }

  lemma OthersSpans(lends: Lends, c: Ctx)
    ensures Spans(Others(lends, c), c) == {}
  {
  }

  // ---------------------------------------------------------------- whole runs

  /** New mappings lie in the region the allocator manages. */
  predicate InRegion(a: Eager.Label) {
    && (a.Segment? ==> a.v + |a.frames| <= REGION_PAGES)
    && (a.LendKept? ==> a.v + |a.pages| <= REGION_PAGES)
  }

  lemma SegmentBacked(s: State, ranges: Ranges, a: Eager.Label)
    requires Inv(s) && Enabled(s, a) && a.Segment? && InRegion(a) && Backed(s, ranges)
    ensures StepRanges(s, ranges, a).Some? && Backed(Step(s, a), StepRanges(s, ranges, a).value)
  {
    hide Base, StacksOk, ModesOk, Tiles, Tiling.Live, Spans, View, Place, CreateSegment, Eager.NewCells;
    PlaceBacked(s, ranges, a.c, a.v, |a.frames|);
    CreateSegmentLends(s, a.c, a.v, a.prot, a.kind, a.r, a.id, a.frames, a.init);
    var l := Lend(a.c, Shared, a.prot, a.r, a.v, |a.frames|);
    LentSpans(s, ranges, a.id, l, Place(ranges, a.c, a.v, |a.frames|).value);
  }

  lemma LendKeptBacked(s: State, ranges: Ranges, a: Eager.Label)
    requires Inv(s) && Enabled(s, a) && a.LendKept? && InRegion(a) && Backed(s, ranges)
    ensures StepRanges(s, ranges, a).Some? && Backed(Step(s, a), StepRanges(s, ranges, a).value)
  {
    hide Base, StacksOk, ModesOk, Tiles, Tiling.Live, Spans, View, Place, MayLend, SpanFree, Entries, Reserve;
    PlaceBacked(s, ranges, a.c, a.v, |a.pages|);
    var l := Lend(a.c, Shared, a.prot, a.r, a.v, |a.pages|);
    LentSpans(s, ranges, a.id, l, Place(ranges, a.c, a.v, |a.pages|).value);
  }

  /** Lists that have gained a mapping's range, and the mappings that have gained it. */
  lemma LentSpans(s: State, ranges: Ranges, id: Id, l: Lend, r: Ranges)
    requires Backed(s, ranges) && id !in s.lends && l.ctx in ranges && r.Keys == ranges.Keys
    requires forall d :: d in ranges && d != l.ctx ==> r[d] == ranges[d]
    requires Tiles(r[l.ctx]) && Tiling.Live(Segs(r[l.ctx]), 0, 0) == Spans(s.lends, l.ctx) + {SpanFor(l)}
    ensures forall c :: c in r ==> BackedAt(s.lends[id := l], r[c], c)
  {
    hide Tiles, Tiling.Live, Spans;
    forall c | c in r ensures BackedAt(s.lends[id := l], r[c], c) { SpansAdd(s.lends, id, l, c); }
  }

  lemma StoreBacked(s: State, ranges: Ranges, a: Eager.Label)
    requires Inv(s) && Enabled(s, a) && a.Store? && Backed(s, ranges)
    ensures StepRanges(s, ranges, a) == Some(ranges) && Backed(Step(s, a), ranges)
  {
    hide Base, StacksOk, ModesOk, Tiles, Tiling.Live, Spans, View, PrepareWrite, FaultRanges, FreshFrames, Filled;
    if a.v in s.pt[a.c] {
      var id := s.reserved[a.c][a.v];
      LendFact(s, id);
      if !s.pt[a.c][a.v].write { FaultBacked(s, ranges, id, a.id, a.r, a.frames); }
    }
  }

  lemma UnmapBacked(s: State, ranges: Ranges, a: Eager.Label)
    requires Inv(s) && Enabled(s, a) && a.Unmap? && Backed(s, ranges)
    ensures StepRanges(s, ranges, a).Some? && Backed(Step(s, a), StepRanges(s, ranges, a).value)
  {
    hide Base, StacksOk, ModesOk, Tiles, Tiling.Live, Spans, View, Drop, Give;
    LendFact(s, s.reserved[a.c][a.v]);
    DropBacked(s, ranges, s.reserved[a.c][a.v]);
  }

  lemma QuietBacked(s: State, ranges: Ranges, a: Eager.Label)
    requires Inv(s) && Enabled(s, a) && Backed(s, ranges) && (a.NewProcess? || a.AddThread? || a.Keep? || a.LetGo?)
    ensures StepRanges(s, ranges, a).Some? && Backed(Step(s, a), StepRanges(s, ranges, a).value)
  {
    hide Base, StacksOk, ModesOk, Tiles, Tiling.Live, Spans, View, Release, Places, Contents, FreshFrames;
    if a.NewProcess? { NewBacked(s, ranges, a.c); }
    if a.LetGo? { ReleaseLinks(s, a.r); }
  }

  /** Every step of the manager goes through the allocator without a miss: each
      placement lands where the manager says it is. */
  lemma StepBacked(s: State, ranges: Ranges, a: Eager.Label)
    requires Inv(s) && Enabled(s, a) && InRegion(a) && Backed(s, ranges)
    ensures StepRanges(s, ranges, a).Some? && Backed(Step(s, a), StepRanges(s, ranges, a).value)
  {
    hide Base, StacksOk, ModesOk, Backed, ForkRanges, DropRanges, Fork, CowSteps.Exit, FreshNames;
    match a {
      case NewProcess(_) => QuietBacked(s, ranges, a);
      case Segment(_, _, _, _, _, _, _, _) => SegmentBacked(s, ranges, a);
      case AddThread(_, _) => QuietBacked(s, ranges, a);
      case Fork(c, child, ids) => ForkCopiesRanges(s, ranges, c, child, ids);
      case Store(_, _, _, _, _, _, _) => StoreBacked(s, ranges, a);
      case Unmap(_, _, _) => UnmapBacked(s, ranges, a);
      case Exit(c) => ExitFreesRanges(s, ranges, c);
      case Keep(_, _, _, _) => QuietBacked(s, ranges, a);
      case LendKept(_, _, _, _, _, _) => LendKeptBacked(s, ranges, a);
      case LetGo(_) => QuietBacked(s, ranges, a);
    }
  }

  /** The lists after n steps, from those at the start. */
  ghost function RunRanges(states: seq<State>, labels: seq<Eager.Label>, start: Ranges, n: nat): Option<Ranges>
    requires IsRun(states, labels) && n <= |labels|
  {
    if n == 0 then Some(start)
    else match RunRanges(states, labels, start, n - 1)
         case None => None
         case Some(r) => assert Enabled(states[n - 1], labels[n - 1]); StepRanges(states[n - 1], r, labels[n - 1])
  }

  /** In every run the allocators hold exactly the mappings' ranges, and no placement
      ever fails or goes astray. */
  lemma {:induction false} RunBacked(states: seq<State>, labels: seq<Eager.Label>, start: Ranges, n: nat)
    requires IsRun(states, labels) && Inv(states[0]) && Backed(states[0], start) && n <= |labels|
    requires forall i :: 0 <= i < |labels| ==> InRegion(labels[i])
    ensures RunRanges(states, labels, start, n).Some? && Backed(states[n], RunRanges(states, labels, start, n).value)
  {
    hide Inv, Enabled, Step, StepRanges, Backed;
    if n > 0 {
      RunBacked(states, labels, start, n - 1);
      RunRefines(states, labels, n - 1);
      assert states[n - 1 + 1] == Step(states[n - 1], labels[n - 1]);
      StepBacked(states[n - 1], RunRanges(states, labels, start, n - 1).value, labels[n - 1]);
    }
  }

  /** An empty system has no lists. */
  lemma BootBacked()
    ensures Inv(Boot) && Backed(Boot, map[])
  {
    BootOk();
  }
}
