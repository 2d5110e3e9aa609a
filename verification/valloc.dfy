/** The virtual-range allocator (valloc_t): a list of address ranges in order,
    each free or reserved. */
module Valloc {
  import opened Wrappers
  import opened Tiling

  const PAGE: nat := 0x1000
  const REGION_PAGES: nat := 0x1000000000     // VALLOC_REGION_SIZE / VALLOC_PAGE_SIZE
  const WORD: nat := 0x1_0000_0000_0000_0000
  const SIGN: nat := 0x8000_0000_0000_0000    // past it an address counts as negative

  datatype Node = Node(isFree: bool, start: int, pages: nat)

  /** An address, NULL, a kernel panic, or nodes written that no longer tile. */
  datatype Outcome = Panic | Null | Wild | At(addr: int)

  /** DIV_UP(size, VALLOC_PAGE_SIZE), whose sum wraps. */
  function PagesFor(size: nat): nat { (size + PAGE - 1) % WORD / PAGE }

  /** No pages are asked for exactly when the size is zero or its rounding wraps. */
  lemma NoPages(size: nat)
    requires size < WORD
    ensures PagesFor(size) == 0 <==> size == 0 || size + PAGE - 1 >= WORD
    ensures PagesFor(size) > 0 ==> PagesFor(size) == (size + PAGE - 1) / PAGE
  {
  }

  function SegOf(n: Node): Seg { Seg(n.pages, !n.isFree) }

  function Segs(nodes: seq<Node>): (segs: seq<Seg>)
    ensures |segs| == |nodes| && forall i :: 0 <= i < |nodes| ==> segs[i] == SegOf(nodes[i])
  {
    seq(|nodes|, i requires 0 <= i < |nodes| => SegOf(nodes[i]))
  }

  predicate Placed(nodes: seq<Node>, i: nat)
    requires i < |nodes|
  {
    nodes[i].start == PAGE * Start(Segs(nodes), i, 0)
  }

  /** The nodes tile the whole region in address order, none is empty, and no two
      neighbours are both free. */
  predicate Tiles(nodes: seq<Node>) {
    && Canonical(Segs(nodes)) && Total(Segs(nodes), 0) == REGION_PAGES
    && forall i :: 0 <= i < |nodes| ==> Placed(nodes, i)
  }

  function NodesOf(nodes: seq<Node>, i: nat, k: nat, more: seq<Node>): seq<Node>
    requires i <= k <= |nodes|
  {
    nodes[..i] + more + nodes[k..]
  }

  /** Replacing nodes i to k by nodes that cover the same range, in order. */
  lemma Replace(nodes: seq<Node>, i: nat, k: nat, more: seq<Node>)
    requires Tiles(nodes) && i <= k <= |nodes|
    requires Total(Segs(more), 0) == Total(Segs(nodes)[i..k], 0)
    requires forall j :: 0 <= j < |more| ==>
               more[j].start == PAGE * (Start(Segs(nodes), i, 0) + Total(Segs(more)[..j], 0))
    requires Canonical(Splice(Segs(nodes), i, k, Segs(more)))
    ensures Segs(NodesOf(nodes, i, k, more)) == Splice(Segs(nodes), i, k, Segs(more))
    ensures Tiles(NodesOf(nodes, i, k, more))
  {
    hide Canonical, Total, Start;
    var r := NodesOf(nodes, i, k, more);
    var segs, pieces := Segs(nodes), Segs(more);
    assert Segs(r) == Splice(segs, i, k, pieces);
    SpliceTotal(segs, i, k, pieces, 0, 0);
    forall j | 0 <= j < |r| ensures Placed(r, j) { PlacedAnew(nodes, i, k, more, j); }
  }

  lemma PlacedAnew(nodes: seq<Node>, i: nat, k: nat, more: seq<Node>, j: nat)
    requires Tiles(nodes) && i <= k <= |nodes| && j < |NodesOf(nodes, i, k, more)|
    requires Total(Segs(more), 0) == Total(Segs(nodes)[i..k], 0)
    requires forall j :: 0 <= j < |more| ==>
               more[j].start == PAGE * (Start(Segs(nodes), i, 0) + Total(Segs(more)[..j], 0))
    requires Segs(NodesOf(nodes, i, k, more)) == Splice(Segs(nodes), i, k, Segs(more))
    ensures Placed(NodesOf(nodes, i, k, more), j)
  {
    hide Canonical, Total, Start;
    SpliceStarts(Segs(nodes), i, k, Segs(more), 0, j);
    if j < i {
      assert Placed(nodes, j);
    } else if j >= i + |more| {
      assert Placed(nodes, j - i - |more| + k);
    }
  }

  // ---------------------------------------------------------- what the calls do

  /** The first free node with room for n pages, or the number of nodes. */
  function Fit(nodes: seq<Node>, n: nat): (i: nat)
    ensures i <= |nodes|
  {
    if nodes == [] || (nodes[0].isFree && nodes[0].pages >= n) then 0 else 1 + Fit(nodes[1..], n)
  }

  /** The first node that holds the address. */
  function Holder(nodes: seq<Node>, vaddr: int): (i: nat)
    ensures i <= |nodes|
  {
    if nodes == [] || nodes[0].start <= vaddr < nodes[0].start + PAGE * nodes[0].pages then 0
    else 1 + Holder(nodes[1..], vaddr)
  }

  /** The first node that starts at the address. */
  function Starting(nodes: seq<Node>, vaddr: int): (i: nat)
    ensures i <= |nodes|
  {
    if nodes == [] || nodes[0].start == vaddr then 0 else 1 + Starting(nodes[1..], vaddr)
  }

  /** valloc_alloc of n pages: the address and the list, or no room. */
  function AllocOn(nodes: seq<Node>, n: nat): Option<(int, seq<Node>)> {
    var i := Fit(nodes, n);
    if i < |nodes| && n <= nodes[i].pages then Some((nodes[i].start, NodesOf(nodes, i, i + 1, AllocNodes(nodes[i], n))))
    else None
  }

  /** valloc_reserve of n pages: the list, or NULL or panic. */
  function ReserveOn(nodes: seq<Node>, vaddr: int, n: nat): Option<seq<Node>> {
    var i := Holder(nodes, vaddr);
    if vaddr >= 0 && vaddr % PAGE == 0 && i < |nodes| && nodes[i].isFree
       && vaddr + PAGE * n <= nodes[i].start + PAGE * nodes[i].pages
    then Some(NodesOf(nodes, i, i + 1, ReserveNodes(nodes[i], vaddr / PAGE, n)))
    else None
  }

  /** valloc_release */
  function ReleaseOn(nodes: seq<Node>, vaddr: int): seq<Node> {
    var i := Starting(nodes, vaddr);
    if i < |nodes| then ReleaseNodes(nodes, i) else nodes
  }

  lemma {:induction false} FitIs(nodes: seq<Node>, n: nat, i: nat)
    requires i <= |nodes| && (i < |nodes| ==> nodes[i].isFree && nodes[i].pages >= n)
    requires forall j :: 0 <= j < i ==> !(nodes[j].isFree && nodes[j].pages >= n)
    ensures Fit(nodes, n) == i
  {
    if i > 0 { FitIs(nodes[1..], n, i - 1); }
  }

  lemma {:induction false} HolderIs(nodes: seq<Node>, vaddr: int, i: nat)
    requires i <= |nodes| && (i < |nodes| ==> nodes[i].start <= vaddr < nodes[i].start + PAGE * nodes[i].pages)
    requires forall j :: 0 <= j < i ==> !(nodes[j].start <= vaddr < nodes[j].start + PAGE * nodes[j].pages)
    ensures Holder(nodes, vaddr) == i
  {
    if i > 0 { HolderIs(nodes[1..], vaddr, i - 1); }
  }

  lemma {:induction false} StartingIs(nodes: seq<Node>, vaddr: int, i: nat)
    requires i <= |nodes| && (i < |nodes| ==> nodes[i].start == vaddr)
    requires forall j :: 0 <= j < i ==> nodes[j].start != vaddr
    ensures Starting(nodes, vaddr) == i
  {
    if i > 0 { StartingIs(nodes[1..], vaddr, i - 1); }
  }

  class VirtualAllocator {
    var nodes: seq<Node>

    ghost predicate Valid()
      reads this
    {
      Tiles(nodes)
    }

    /** The page ranges in use: first page and number of pages. */
    ghost function Reserved(): set<Span>
      reads this
    {
      Live(Segs(nodes), 0, 0)
    }

    /** valloc_init */
    constructor ()
      ensures Valid() && Reserved() == {}
    {
      nodes := [Node(true, 0, REGION_PAGES)];
      assert Segs([Node(true, 0, REGION_PAGES)]) == [Seg(REGION_PAGES, false)];
      Single(Seg(REGION_PAGES, false), 0, 0);
    }

    /** valloc_alloc: first fit. A panic exactly when no free range is long enough. A
        request that comes to no pages would cut off an empty node (`Wild`). */
    method Alloc(size: nat) returns (r: Outcome)
      requires Valid() && size < WORD
      modifies this
      ensures Valid() && !r.Null? && (!r.At? ==> nodes == old(nodes))
      ensures r.Panic? <==>
              forall i :: 0 <= i < |old(nodes)| && old(nodes)[i].isFree ==> old(nodes)[i].pages < PagesFor(size)
      ensures r.Wild? <==> !r.Panic? && PagesFor(size) == 0
      ensures r.At? ==> exists p: nat :: r.addr == PAGE * p && old(Tiling.SpanFree(Segs(nodes), 0, p, PagesFor(size)))
                          && Reserved() == old(Reserved()) + {(p, PagesFor(size))}
      ensures r.At? ==>
                forall i :: 0 <= i < |old(nodes)| && old(nodes)[i].isFree && old(nodes)[i].pages >= PagesFor(size) ==>
                  r.addr <= old(nodes)[i].start
      ensures r.At? ==> AllocOn(old(nodes), PagesFor(size)) == Some((r.addr, nodes))
      ensures r.Panic? ==> AllocOn(old(nodes), PagesFor(size)) == None
    {
      hide Tiles, Canonical, Total, Live, Start;
      var n := PagesFor(size);
      var i := 0;
      while i < |nodes| && !(nodes[i].isFree && nodes[i].pages >= n)
        invariant 0 <= i <= |nodes| && nodes == old(nodes)
        invariant forall j :: 0 <= j < i ==> !(nodes[j].isFree && nodes[j].pages >= n)
      {
        i := i + 1;
      }
      FitIs(nodes, n, i);
      if i == |nodes| {
        return Panic;
      }
      if n == 0 {
        assert nodes[i].isFree && nodes[i].pages >= n;
        return Wild;
      }
      var node := nodes[i];
      AllocOk(nodes, i, n);
      ghost var p := Start(Segs(nodes), i, 0);
      if n == node.pages {
        nodes := nodes[..i] + [node.(isFree := false)] + nodes[i + 1..];
      } else {
        nodes := nodes[..i] + [Node(false, node.start, n), Node(true, node.start + PAGE * n, node.pages - n)]
          + nodes[i + 1..];
      }
      r := At(node.start);
      assert r.addr == PAGE * p;
    }

    /** valloc_reserve: succeeds exactly on an aligned address whose whole span is
        free, and then at that address; outside the region the kernel panics. A
        request of no pages, or so long that its end counts as negative, passes the
        test of the end in any free node (`Wild`). */
    method Reserve(vaddr: int, size: nat) returns (r: Outcome)
      requires Valid() && size < WORD
      modifies this
      ensures Valid() && (!r.At? ==> nodes == old(nodes))
      ensures vaddr % PAGE != 0 ==> r == Null
      ensures vaddr % PAGE == 0 ==> (r.Panic? <==> !(0 <= vaddr < PAGE * REGION_PAGES))
      ensures r.Wild? <==> !r.Panic? && Astray(vaddr, PagesFor(size)) && vaddr % PAGE == 0
                           && old(Tiling.SpanFree(Segs(nodes), 0, vaddr / PAGE, 1))
      ensures r.At? <==> !Astray(vaddr, PagesFor(size)) && vaddr % PAGE == 0 && vaddr >= 0
                         && old(Tiling.SpanFree(Segs(nodes), 0, vaddr / PAGE, PagesFor(size)))
      ensures r.At? ==> r.addr == vaddr && Reserved() == old(Reserved()) + {(vaddr / PAGE, PagesFor(size))}
      ensures r.At? ==> ReserveOn(old(nodes), vaddr, PagesFor(size)) == Some(nodes)
      ensures r.Null? || r.Panic? ==> ReserveOn(old(nodes), vaddr, PagesFor(size)) == None
    {
      hide Tiles, Canonical, Total, Live, Start, Tiling.SpanFree, ReserveNodes, NodesOf;
      if vaddr % PAGE != 0 {
        return Null;
      }
      var n := PagesFor(size);
      var i := Search(vaddr);
      if i == |nodes| {
        NowhereFree(nodes, vaddr, n);
        return Panic;
      }
      var node := nodes[i];
      var end := node.start + PAGE * node.pages;
      var reqEnd := if vaddr + PAGE * n < SIGN then vaddr + PAGE * n else vaddr + PAGE * n - WORD;
      NodeEnd(nodes, i);
      ReserveOk(nodes, i, vaddr / PAGE, 1);
      if n > 0 { ReserveOk(nodes, i, vaddr / PAGE, n); }
      if !node.isFree {
        return Null;
      }
      if reqEnd > end {
        return Null;
      }
      if n == 0 || reqEnd < vaddr {
        return Wild;
      }
      CutOut(i, vaddr, n);
      return At(vaddr);
    }

    /** The node that holds an address, or the number of nodes. */
    method Search(vaddr: int) returns (i: nat)
      requires Valid()
      ensures i <= |nodes| && i == Holder(nodes, vaddr)
      ensures i < |nodes| ==> nodes[i].start <= vaddr < nodes[i].start + PAGE * nodes[i].pages
      ensures i < |nodes| ==> 0 <= vaddr < PAGE * REGION_PAGES
      ensures i == |nodes| ==> !(0 <= vaddr < PAGE * REGION_PAGES)
    {
      hide Tiles, Canonical, Total, Start;
      i := 0;
      TilesEnds(nodes);
      while i < |nodes| && !(nodes[i].start <= vaddr < nodes[i].start + PAGE * nodes[i].pages)
        invariant 0 <= i <= |nodes|
        invariant vaddr >= 0 ==> vaddr >= PAGE * Start(Segs(nodes), i, 0)
        invariant forall j :: 0 <= j < i ==> !(nodes[j].start <= vaddr < nodes[j].start + PAGE * nodes[j].pages)
      {
        NodeEnd(nodes, i);
        i := i + 1;
      }
      HolderIs(nodes, vaddr, i);
      if i < |nodes| {
        NodeEnd(nodes, i);
        StartMonotone(Segs(nodes), i, |nodes|, 0);
      }
    }

    /** A free node cut in up to three. */
    method CutOut(i: nat, vaddr: int, n: nat)
      requires i < |nodes| && vaddr % PAGE == 0 && vaddr >= 0 && nodes[i].start <= vaddr
      requires vaddr + PAGE * n <= nodes[i].start + PAGE * nodes[i].pages
      modifies this
      ensures nodes == NodesOf(old(nodes), i, i + 1, ReserveNodes(old(nodes)[i], vaddr / PAGE, n))
    {
      var node := nodes[i];
      var end, reqEnd := node.start + PAGE * node.pages, vaddr + PAGE * n;
      var before, after := [], [];
      if vaddr > node.start {
        before := [Node(true, node.start, (vaddr - node.start) / PAGE)];
      }
      if reqEnd < end {
        after := [Node(true, vaddr + PAGE * n, (end - reqEnd) / PAGE)];
      }
      nodes := nodes[..i] + (before + [Node(false, vaddr, n)] + after) + nodes[i + 1..];
    }

    /** valloc_release: a range is given back by its first address and joined with
        its free neighbours. */
    method Release(vaddr: int) returns (found: bool)
      requires Valid()
      modifies this
      ensures Valid()
      ensures found <==> exists i :: 0 <= i < |old(nodes)| && old(nodes)[i].start == vaddr
      ensures !found ==> nodes == old(nodes)
      ensures forall i :: 0 <= i < |old(nodes)| && old(nodes)[i].start == vaddr ==>
                if old(nodes)[i].isFree then nodes == old(nodes)
                else (vaddr / PAGE, old(nodes)[i].pages) in old(Reserved())
                     && Reserved() == old(Reserved()) - {(vaddr / PAGE, old(nodes)[i].pages)}
      ensures nodes == ReleaseOn(old(nodes), vaddr)
    {
      hide Tiles, Canonical, Total, Live, Start, Freed, ReleaseNodes;
      var i := 0;
      while i < |nodes|
        invariant 0 <= i <= |nodes| && nodes == old(nodes)
        invariant forall j :: 0 <= j < i ==> nodes[j].start != vaddr
      {
        if nodes[i].start == vaddr {
          StartingIs(nodes, vaddr, i);
          ReleaseOk(nodes, i);
          JoinBoth(nodes, i);
          if i + 1 < |nodes| && nodes[i + 1].isFree {
            nodes := nodes[..i] + [nodes[i].(pages := nodes[i].pages + nodes[i + 1].pages)] + nodes[i + 2..];
          }
          assert nodes == JoinRight(old(nodes), i);
          if i > 0 && nodes[i - 1].isFree {
            nodes := nodes[..i - 1] + [nodes[i - 1].(pages := nodes[i - 1].pages + nodes[i].pages)] + nodes[i + 1..];
          } else {
            nodes := nodes[i := nodes[i].(isFree := true)];
          }
          return true;
        }
        i := i + 1;
      }
      StartingIs(nodes, vaddr, i);
      return false;
    }

    /** What pman_context_add_borrowed and add_shared ask for: an address of 0 reads as
        "anywhere" and goes to first fit. Where the span is free it is what they get,
        at 0 too. */
    method Place(vaddr: nat, size: nat) returns (r: Outcome)
      requires Valid() && size < WORD && vaddr % PAGE == 0
      modifies this
      ensures Valid()
      ensures r.At? ==> PlaceOn(old(nodes), vaddr / PAGE, PagesFor(size)) == Some((r.addr, nodes))
      ensures PagesFor(size) > 0 && old(Tiling.SpanFree(Segs(nodes), 0, vaddr / PAGE, PagesFor(size))) ==>
                r == At(vaddr) && Reserved() == old(Reserved()) + {(vaddr / PAGE, PagesFor(size))}
    {
      hide Tiles, Canonical, Total, Live, Start, Tiling.SpanFree, PlaceOn;
      var n := PagesFor(size);
      PlaceIs(nodes, vaddr / PAGE, n);
      if n > 0 && Tiling.SpanFree(Segs(nodes), 0, vaddr / PAGE, n) {
        PlaceOk(nodes, vaddr / PAGE, n);
        SpanNotAstray(nodes, vaddr / PAGE, n);
      }
      if vaddr == 0 {
        r := Alloc(size);
      } else {
        r := Reserve(vaddr, size);
      }
    }

    /** Releasing a range and asking for it again, as fork and the write fault do, gives
        the same address and restores the very same list. */
    method Recycle(vaddr: nat, size: nat, ghost i: nat)
      requires Valid() && size < WORD
      requires i < |nodes| && nodes[i].start == vaddr && !nodes[i].isFree && nodes[i].pages == PagesFor(size)
      modifies this
      ensures nodes == old(nodes)
    {
      hide Tiles, Canonical, Total, Live, Start, Tiling.SpanFree, PlaceOn, ReleaseOn;
      NodeEnd(nodes, i);
      UsedSpan(nodes, i);
      ReleaseSpan(nodes, vaddr / PAGE, PagesFor(size));
      Recycled(nodes, vaddr / PAGE, PagesFor(size));
      var found := Release(vaddr);
      var r := Place(vaddr, size);
    }
  }

  /** The end of the request, as a signed 64-bit address, does not lie behind its
      beginning. */
  predicate Astray(vaddr: int, n: nat) {
    n == 0 || vaddr + PAGE * n >= SIGN
  }

  lemma SpanNotAstray(nodes: seq<Node>, v: nat, n: nat)
    requires Tiles(nodes) && n > 0 && SpanFree(Segs(nodes), 0, v, n)
    ensures !Astray(PAGE * v, n)
  {
    TilesTotal(nodes);
  }

  lemma UsedSpan(nodes: seq<Node>, i: nat)
    requires Tiles(nodes) && i < |nodes| && !nodes[i].isFree
    ensures nodes[i].start % PAGE == 0 && (nodes[i].start / PAGE, nodes[i].pages) in Live(Segs(nodes), 0, 0)
  {
    hide Canonical, Total, Live, Start;
    NodeEnd(nodes, i);
    UsedIsLive(Segs(nodes), i, 0);
  }

  lemma PlaceIs(nodes: seq<Node>, v: nat, n: nat)
    ensures v == 0 ==> PlaceOn(nodes, v, n) == AllocOn(nodes, n)
    ensures v > 0 ==> PlaceOn(nodes, v, n) == match ReserveOn(nodes, PAGE * v, n)
                                              case None => None
                                              case Some(r) => Some((PAGE * v, r))
  {
  }

  function ReserveNodes(node: Node, p: nat, n: nat): seq<Node> {
    var v, end := PAGE * p, node.start + PAGE * node.pages;
    (if v > node.start then [Node(true, node.start, (v - node.start) / PAGE)] else []) + [Node(false, v, n)]
      + (if v + PAGE * n < end then [Node(true, v + PAGE * n, (end - v - PAGE * n) / PAGE)] else [])
  }

  function AllocNodes(node: Node, n: nat): seq<Node>
    requires n <= node.pages
  {
    if n == node.pages then [node.(isFree := false)]
    else [Node(false, node.start, n), Node(true, node.start + PAGE * n, node.pages - n)]
  }

  /** What first fit does at node i. */
  lemma AllocOk(nodes: seq<Node>, i: nat, n: nat)
    requires Tiles(nodes) && i < |nodes| && nodes[i].isFree && 0 < n <= nodes[i].pages
    ensures var p := Start(Segs(nodes), i, 0);
            var r := NodesOf(nodes, i, i + 1, AllocNodes(nodes[i], n));
            && nodes[i].start == PAGE * p && SpanFree(Segs(nodes), 0, p, n)
            && Tiles(r) && Live(Segs(r), 0, 0) == Live(Segs(nodes), 0, 0) + {(p, n)}
    ensures forall j :: i < j < |nodes| ==> nodes[i].start <= nodes[j].start
  {
    hide Canonical, Total, Live, Start, SpanFree;
    var segs := Segs(nodes);
    var more := AllocNodes(nodes[i], n);
    assert Segs(more) == Pieces(0, n, nodes[i].pages - n);
    CarveOk(segs, i, 0, n, nodes[i].pages - n, 0, 0);
    PiecesFacts(0, n, nodes[i].pages - n, 0, 0);
    SliceTotal(segs, i);
    MoreStarts(more);
    assert Placed(nodes, i);
    Replace(nodes, i, i + 1, more);
    CanonicalSizes(segs, i);
    SpanFreeIn(segs, i, Start(segs, i, 0), n);
    forall j | i < j < |nodes| ensures nodes[i].start <= nodes[j].start {
      assert Placed(nodes, j);
      StartMonotone(segs, i, j, 0);
    }
  }

  lemma SliceTotal(segs: seq<Seg>, i: nat)
    requires i < |segs|
    ensures Total(segs[i..i + 1], 0) == segs[i].size
  {
    assert segs[i..i + 1] == [segs[i]];
    Single(segs[i], 0, 0);
  }

  lemma MoreStarts(more: seq<Node>)
    ensures |more| > 0 ==> Total(Segs(more)[..0], 0) == 0
    ensures |more| > 1 ==> Total(Segs(more)[..1], 0) == more[0].pages
    ensures |more| > 2 ==> Total(Segs(more)[..2], 0) == more[0].pages + more[1].pages
  {
    var s := Segs(more);
    if |more| > 1 { assert s[..1] == [s[0]]; Single(s[0], 0, 0); }
    if |more| > 2 {
      assert s[..2] == [s[0]] + [s[1]];
      TotalConcat([s[0]], [s[1]], 0);
      Single(s[1], 0, 0);
    }
  }

  lemma TilesEnds(nodes: seq<Node>)
    requires Tiles(nodes)
    ensures Start(Segs(nodes), 0, 0) == 0 && Start(Segs(nodes), |nodes|, 0) == REGION_PAGES
  {
    assert Segs(nodes)[..|nodes|] == Segs(nodes);
  }

  lemma TilesTotal(nodes: seq<Node>)
    requires Tiles(nodes)
    ensures Total(Segs(nodes), 0) == REGION_PAGES
  {
  }

  lemma FirstNode(nodes: seq<Node>, n: nat)
    requires Tiles(nodes) && n > 0 && SpanFree(Segs(nodes), 0, 0, n)
    ensures |nodes| > 0 && nodes[0].isFree && nodes[0].pages >= n && nodes[0].start == 0
  {
    hide Canonical, SpanFree, Live;
    TilesEnds(nodes);
    NodeEnd(nodes, 0);
    CanonicalSizes(Segs(nodes), 0);
    SpanFreeIn(Segs(nodes), 0, 0, n);
  }

  lemma NodeEnd(nodes: seq<Node>, i: nat)
    requires Tiles(nodes) && i < |nodes|
    ensures nodes[i].start == PAGE * Start(Segs(nodes), i, 0)
    ensures nodes[i].start + PAGE * nodes[i].pages == PAGE * Start(Segs(nodes), i + 1, 0)
  {
    assert Placed(nodes, i);
    StartNext(Segs(nodes), i, 0);
  }

  /** Nothing is free outside the region. */
  lemma NowhereFree(nodes: seq<Node>, vaddr: int, n: nat)
    requires Tiles(nodes) && vaddr % PAGE == 0 && !(0 <= vaddr < PAGE * REGION_PAGES)
    ensures vaddr >= 0 ==> !SpanFree(Segs(nodes), 0, vaddr / PAGE, 1)
    ensures vaddr >= 0 && n > 0 ==> !SpanFree(Segs(nodes), 0, vaddr / PAGE, n)
  {
  }

  lemma ReserveOk(nodes: seq<Node>, i: nat, p: nat, n: nat)
    requires Tiles(nodes) && i < |nodes| && n > 0
    requires nodes[i].start <= PAGE * p < nodes[i].start + PAGE * nodes[i].pages
    ensures PAGE * p < PAGE * REGION_PAGES
    ensures SpanFree(Segs(nodes), 0, p, n) <==>
              nodes[i].isFree && PAGE * (p + n) <= nodes[i].start + PAGE * nodes[i].pages
    ensures SpanFree(Segs(nodes), 0, p, n) ==>
            var r := NodesOf(nodes, i, i + 1, ReserveNodes(nodes[i], p, n));
            Tiles(r) && Live(Segs(r), 0, 0) == Live(Segs(nodes), 0, 0) + {(p, n)}
  {
    hide Canonical, Total, Live, Start, SpanFree, ReserveNodes;
    var segs := Segs(nodes);
    NodeEnd(nodes, i);
    SpanFreeIn(segs, i, p, n);
    StartMonotone(segs, i, |segs|, 0);
    if SpanFree(segs, 0, p, n) {
      var s := Start(segs, i, 0);
      var pre, post := p - s, s + nodes[i].pages - p - n;
      CarveOk(segs, i, pre, n, post, 0, 0);
      PiecesFacts(pre, n, post, 0, 0);
      SliceTotal(segs, i);
      var more := ReserveNodes(nodes[i], p, n);
      ReserveShape(nodes[i], s, p, n);
      Replace(nodes, i, i + 1, more);
    }
  }

  lemma ReserveShape(node: Node, s: nat, p: nat, n: nat)
    requires node.isFree && node.start == PAGE * s && s <= p && n > 0 && p + n <= s + node.pages
    ensures Segs(ReserveNodes(node, p, n)) == Pieces(p - s, n, s + node.pages - p - n)
    ensures var more := ReserveNodes(node, p, n);
            forall j :: 0 <= j < |more| ==> more[j].start == PAGE * (s + Total(Segs(more)[..j], 0))
  {
    MoreStarts(ReserveNodes(node, p, n));
  }

  /** What valloc_release leaves: nodes lo to hi become one. */
  function ReleaseNodes(nodes: seq<Node>, i: nat): seq<Node>
    requires i < |nodes|
  {
    var segs := Segs(nodes);
    var lo, hi := Lo(segs, i), Hi(segs, i);
    var pages := nodes[i].pages + (if lo < i then nodes[lo].pages else 0)
          + (if hi > i + 1 then nodes[i + 1].pages else 0);
    nodes[..lo] + [Node(true, nodes[lo].start, pages)] + nodes[hi..]
  }

  function JoinRight(nodes: seq<Node>, i: nat): seq<Node>
    requires i < |nodes|
  {
    if i + 1 < |nodes| && nodes[i + 1].isFree then
      nodes[..i] + [nodes[i].(pages := nodes[i].pages + nodes[i + 1].pages)] + nodes[i + 2..]
    else nodes
  }

  function JoinLeft(nodes: seq<Node>, i: nat): seq<Node>
    requires i < |nodes|
  {
    if i > 0 && nodes[i - 1].isFree then
      nodes[..i - 1] + [nodes[i - 1].(pages := nodes[i - 1].pages + nodes[i].pages)] + nodes[i + 1..]
    else nodes[i := nodes[i].(isFree := true)]
  }

  lemma JoinBoth(nodes: seq<Node>, i: nat)
    requires i < |nodes|
    ensures JoinLeft(JoinRight(nodes, i), i) == ReleaseNodes(nodes, i)
  {
    hide Segs;
    var right, hi := JoinRight(nodes, i), Hi(Segs(nodes), i);
    RightParts(nodes, i);
    if i > 0 && nodes[i - 1].isFree {
      assert right[..i - 1] == right[..i][..i - 1] == nodes[..i - 1];
    } else {
      var last := right[i].(isFree := true);
      assert right[i := last] == right[..i] + [last] + right[i + 1..];
    }
  }

  lemma RightParts(nodes: seq<Node>, i: nat)
    requires i < |nodes|
    ensures var right := JoinRight(nodes, i); var hi := Hi(Segs(nodes), i);
            && i < |right| && right[..i] == nodes[..i] && right[i + 1..] == nodes[hi..]
            && right[i] == nodes[i].(pages := nodes[i].pages + (if hi > i + 1 then nodes[i + 1].pages else 0))
            && (i > 0 ==> right[i - 1] == nodes[i - 1])
    ensures Lo(Segs(nodes), i) == if i > 0 && nodes[i - 1].isFree then i - 1 else i
  {
    var right, hi := JoinRight(nodes, i), Hi(Segs(nodes), i);
    if hi == i + 2 {
      assert right[..i] == nodes[..i] && right[i + 1..] == nodes[i + 2..];
    }
  }

  /** A free node has no free neighbours to join. */
  lemma FreeAlone(nodes: seq<Node>, i: nat)
    requires i < |nodes| && Canonical(Segs(nodes)) && nodes[i].isFree
    ensures ReleaseNodes(nodes, i) == nodes
  {
    hide Canonical;
    if i > 0 { Neighbours(Segs(nodes), i - 1); }
    if i + 1 < |nodes| { Neighbours(Segs(nodes), i); }
    assert nodes == nodes[..i] + [nodes[i]] + nodes[i + 1..];
  }

  lemma ReleaseOk(nodes: seq<Node>, i: nat)
    requires Tiles(nodes) && i < |nodes|
    ensures Tiles(ReleaseNodes(nodes, i)) && Segs(ReleaseNodes(nodes, i)) == Freed(Segs(nodes), i, 0)
    ensures nodes[i].isFree ==> ReleaseNodes(nodes, i) == nodes
    ensures !nodes[i].isFree ==>
            var x := (nodes[i].start / PAGE, nodes[i].pages);
            && x in Live(Segs(nodes), 0, 0)
            && Live(Segs(ReleaseNodes(nodes, i)), 0, 0) == Live(Segs(nodes), 0, 0) - {x}
    ensures forall j :: 0 <= j < |nodes| && nodes[j].start == nodes[i].start ==> j == i
  {
    hide Canonical, Total, Live, Start;
    var segs := Segs(nodes);
    var lo, hi := Lo(segs, i), Hi(segs, i);
    assert Placed(nodes, i) && Placed(nodes, lo);
    FreedCanonical(segs, i, 0);
    RunTotal(segs, i, 0, 0);
    var more := [ReleaseNodes(nodes, i)[lo]];
    assert Segs(more) == [SegOf(more[0])];
    Single(SegOf(more[0]), 0, 0);
    MoreStarts(more);
    Replace(nodes, lo, hi, more);
    assert ReleaseNodes(nodes, i) == NodesOf(nodes, lo, hi, more);
    if nodes[i].isFree { FreeAlone(nodes, i); } else { FreedOk(segs, i, 0, 0); }
    forall j | 0 <= j < |nodes| && nodes[j].start == nodes[i].start ensures j == i {
      assert Placed(nodes, j);
      CanonicalSizes(segs, i);
      CanonicalSizes(segs, j);
      if j < i { StartMonotone(segs, j, i, 0); }
      if i < j { StartMonotone(segs, i, j, 0); }
    }
  }

  /** The list is a function of the ranges in use. */
  lemma SameReserved(a: seq<Node>, b: seq<Node>)
    requires Tiles(a) && Tiles(b) && Live(Segs(a), 0, 0) == Live(Segs(b), 0, 0)
    ensures a == b
  {
    hide Canonical, Total, Live, Start;
    LayoutUnique(Segs(a), Segs(b), 0, 0);
    forall i | 0 <= i < |a| ensures a[i] == b[i] {
      assert Placed(a, i) && Placed(b, i);
      assert SegOf(a[i]) == SegOf(b[i]);
    }
  }

  function ReleasedSegs(nodes: seq<Node>, i: nat): seq<Seg>
    requires i < |nodes|
  {
    Segs(ReleaseNodes(nodes, i))
  }

  /** A range just released is free. */
  lemma ReleaseFrees(nodes: seq<Node>, i: nat)
    requires Tiles(nodes) && i < |nodes| && !nodes[i].isFree
    ensures nodes[i].start >= 0 && nodes[i].start % PAGE == 0
    ensures SpanFree(ReleasedSegs(nodes, i), 0, nodes[i].start / PAGE, nodes[i].pages)
    ensures Total(ReleasedSegs(nodes, i), 0) == Total(Segs(nodes), 0)
    ensures Live(ReleasedSegs(nodes, i), 0, 0) == Live(Segs(nodes), 0, 0) - {(nodes[i].start / PAGE, nodes[i].pages)}
  {
    hide Canonical, Total, Live, Start;
    ReleaseOk(nodes, i);
    NodeEnd(nodes, i);
    var segs := Segs(nodes);
    var p, n := nodes[i].start / PAGE, nodes[i].pages;
    StartMonotone(segs, i, |segs|, 0);
    assert Start(segs, |segs|, 0) == Total(segs, 0) by { TilesEnds(nodes); }
    forall x | x in Live(segs, 0, 0) && x != (p, n) ensures x.0 + x.1 <= p || p + n <= x.0 {
      LiveDisjoint(segs, 0, 0, x, (p, n));
    }
  }

  // ------------------------------------------------- placing at a given page

  /** The call pman_context_add_borrowed and add_shared make for page v: an address of
      0 reads as "anywhere". */
  function PlaceOn(nodes: seq<Node>, v: nat, n: nat): Option<(int, seq<Node>)> {
    if v == 0 then AllocOn(nodes, n)
    else match ReserveOn(nodes, PAGE * v, n)
         case None => None
         case Some(r) => Some((PAGE * v, r))
  }

  /** Wherever the span is free the call succeeds there, at page 0 too, and reserves
      exactly that span. */
  lemma PlaceOk(nodes: seq<Node>, v: nat, n: nat)
    requires Tiles(nodes) && n > 0 && SpanFree(Segs(nodes), 0, v, n)
    ensures var r := PlaceOn(nodes, v, n);
            && r.Some? && r.value.0 == PAGE * v && Tiles(r.value.1)
            && Live(Segs(r.value.1), 0, 0) == Live(Segs(nodes), 0, 0) + {(v, n)}
  {
    hide Tiles, Live, Canonical, Total, Start, SpanFree, NodesOf;
    if v == 0 {
      FirstNode(nodes, n);
      FitIs(nodes, n, 0);
      AllocOk(nodes, 0, n);
    } else {
      TilesEnds(nodes);
      SpanInside(nodes, v, n);
      var i := HolderOf(nodes, v, |nodes|);
      HolderIs(nodes, PAGE * v, i);
      ReserveOk(nodes, i, v, n);
    }
  }

  lemma SpanInside(nodes: seq<Node>, v: nat, n: nat)
    requires Tiles(nodes) && SpanFree(Segs(nodes), 0, v, n)
    ensures v + n <= REGION_PAGES
  {
  }

  /** The node that holds a page below the start of node k. */
  lemma {:induction false} HolderOf(nodes: seq<Node>, v: nat, k: nat) returns (i: nat)
    requires Tiles(nodes) && k <= |nodes| && v < Start(Segs(nodes), k, 0)
    ensures i < k && nodes[i].start <= PAGE * v < nodes[i].start + PAGE * nodes[i].pages
    ensures forall j :: 0 <= j < i ==> nodes[j].start + PAGE * nodes[j].pages <= PAGE * v
    decreases k
  {
    hide Tiles, Canonical;
    TilesEnds(nodes);
    NodeEnd(nodes, k - 1);
    if v < Start(Segs(nodes), k - 1, 0) {
      i := HolderOf(nodes, v, k - 1);
    } else {
      i := k - 1;
      forall j | 0 <= j < k - 1 ensures nodes[j].start + PAGE * nodes[j].pages <= PAGE * v {
        NodeEnd(nodes, j);
        StartMonotone(Segs(nodes), j, k - 1, 0);
      }
    }
  }

  /** A reserved span, released by its address. */
  lemma ReleaseSpan(nodes: seq<Node>, v: nat, n: nat)
    requires Tiles(nodes) && (v, n) in Live(Segs(nodes), 0, 0)
    ensures var r := ReleaseOn(nodes, PAGE * v);
            && Tiles(r) && Live(Segs(r), 0, 0) == Live(Segs(nodes), 0, 0) - {(v, n)} && SpanFree(Segs(r), 0, v, n)
               && n > 0
  {
    hide Tiles, Live, Canonical, Total, Start, SpanFree, ReleaseNodes;
    LiveIndex(Segs(nodes), 0, 0, (v, n));
    var segs := Segs(nodes);
    var i :| 0 <= i < |segs| && segs[i].used && (v, n) == (0 + Start(segs, i, 0) + 0, segs[i].size);
    NodeEnd(nodes, i);
    ReleaseOk(nodes, i);
    ReleaseFrees(nodes, i);
    TilesCanonical(nodes);
    CanonicalSizes(segs, i);
    StartingIs(nodes, PAGE * v, i);
  }

  lemma TilesCanonical(nodes: seq<Node>)
    requires Tiles(nodes)
    ensures Canonical(Segs(nodes))
  {
  }

  /** Release and place again, as fork and the write fault do: the same address and
      the very same list, wherever the span is. */
  lemma Recycled(nodes: seq<Node>, v: nat, n: nat)
    requires Tiles(nodes) && (v, n) in Live(Segs(nodes), 0, 0)
    ensures PlaceOn(ReleaseOn(nodes, PAGE * v), v, n) == Some((PAGE * v, nodes))
  {
    hide Tiles, Live, Canonical, SpanFree, PlaceOn, ReleaseOn;
    ReleaseSpan(nodes, v, n);
    var r := ReleaseOn(nodes, PAGE * v);
    PlaceOk(r, v, n);
    SameReserved(PlaceOn(r, v, n).value.1, nodes);
  }

  /** First fit, when no address is asked for, leaves what placing the range where it
      landed would have left. */
  lemma Anywhere(nodes: seq<Node>, v: nat, n: nat)
    requires Tiles(nodes) && n > 0 && AllocOn(nodes, n).Some? && AllocOn(nodes, n).value.0 == PAGE * v
    ensures PlaceOn(nodes, v, n) == AllocOn(nodes, n)
  {
    hide Tiles, Live, Canonical, Total, Start, SpanFree, NodesOf, ReserveOn, AllocNodes;
    var i := Fit(nodes, n);
    FitHas(nodes, n);
    AllocOk(nodes, i, n);
    PlaceOk(nodes, v, n);
    SameReserved(PlaceOn(nodes, v, n).value.1, AllocOn(nodes, n).value.1);
  }

  lemma {:induction false} FitHas(nodes: seq<Node>, n: nat)
    ensures Fit(nodes, n) < |nodes| ==> nodes[Fit(nodes, n)].isFree && nodes[Fit(nodes, n)].pages >= n
  {
    if nodes != [] { FitHas(nodes[1..], n); }
  }
}
