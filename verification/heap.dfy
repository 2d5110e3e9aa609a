/** The kernel heap: blocks between boundary tags in one stretch of memory. */
module Heap {
  import opened Tiling

  const HEAP_SIZE: nat := 0x100000
  const TAG: nat := 24                      // sizeof(heap_tag_t)
  const WORD: nat := 0x1_0000_0000_0000_0000

  /** One byte of heap memory. A tag is held by its first byte; `Pad` are the
      rest. Reading a tag anywhere else would be reading garbage. */
  datatype Cell = Byte(b: int) | Tag(reserved: bool, prev: nat, next: nat) | Pad

  // The tag in front of block i; tag |segs| is the tail.
  function TagOf(segs: seq<Seg>, i: nat): Cell
    requires i <= |segs|
  {
    Tag(i < |segs| && segs[i].used, if i == 0 then 0 else segs[i - 1].size, if i < |segs| then segs[i].size else 0)
  }

  predicate TagAt(m: seq<Cell>, segs: seq<Seg>, i: nat)
    requires i <= |segs|
  {
    Start(segs, i, TAG) < |m| && m[Start(segs, i, TAG)] == TagOf(segs, i)
  }

  /** The tag walk from the head meets exactly these blocks and ends on the tail
      tag, each tag agreeing with its neighbours, and everything is filled. */
  predicate Layout(m: seq<Cell>, segs: seq<Seg>) {
    && segs != [] && |m| == Total(segs, TAG) + TAG
    && forall i :: 0 <= i <= |segs| ==> TagAt(m, segs, i)
  }

  /** The test of the search loop, with its 64-bit addition. */
  predicate Fits(next: nat, size: nat) {
    next > (size + TAG + 1) % WORD || next == size
  }

  predicate Eligible(g: Seg, size: nat) {
    !g.used && Fits(g.size, size)
  }

  /** A block that passes the test can hold the request, with room for a tag and
      more if it is to be split: true for every block exactly when the addition in
      the test does not wrap. */
  lemma FitsIsSound(size: nat)
    requires size < WORD
    ensures (forall next: nat :: next < WORD && Fits(next, size) ==> next == size || next > size + TAG + 1)
            <==> size + TAG + 1 < WORD
  {
    if size + TAG + 1 >= WORD {
      assert Fits(TAG + 2, size) by { assert (size + TAG + 1) % WORD == size + TAG + 1 - WORD; }
    }
  }

  // ------------------------------------------------------------- after alloc

  /** `m'` differs from `m` only at or between two addresses. */
  predicate OnlyBetween(m: seq<Cell>, m': seq<Cell>, a: nat, b: nat) {
    |m| == |m'| && forall k :: 0 <= k < |m| && !(a <= k <= b) ==> m'[k] == m[k]
  }

  function Slice(m: seq<Cell>, a: nat, n: nat): seq<Cell> {
    if a + n <= |m| then m[a..a + n] else []
  }

  /** These spans are inside memory and keep their bytes. */
  predicate Keeps(m: seq<Cell>, m': seq<Cell>, xs: set<Span>) {
    |m'| == |m| && forall x :: x in xs ==> x.0 + x.1 <= |m| && Slice(m', x.0, x.1) == Slice(m, x.0, x.1)
  }

  /** The first block the search stops at, or the number of blocks. */
  function FirstFit(segs: seq<Seg>, size: nat): nat {
    if segs == [] || Eligible(segs[0], size) then 0 else 1 + FirstFit(segs[1..], size)
  }

  lemma {:induction false} FirstFitIs(segs: seq<Seg>, size: nat, i: nat)
    requires i <= |segs| && (i < |segs| ==> Eligible(segs[i], size))
    requires forall j :: 0 <= j < i ==> !Eligible(segs[j], size)
    ensures FirstFit(segs, size) == i
  {
    if i > 0 { FirstFitIs(segs[1..], size, i - 1); }
  }

  lemma SpliceTail(segs: seq<Seg>, i: nat, k: nat, pieces: seq<Seg>, e: nat)
    requires i <= k <= e < |segs|
    ensures var r := Splice(segs, i, k, pieces); var j := e - k + i + |pieces|; j < |r| && r[j] == segs[e]
  {
  }

  lemma TagLeft(m: seq<Cell>, m': seq<Cell>, segs: seq<Seg>, i: nat, k: nat, pieces: seq<Seg>, j: nat)
    requires j < i < k <= |segs| && pieces != [] && TagAt(m, segs, j)
    requires Total(pieces, TAG) == Total(segs[i..k], TAG)
    requires OnlyBetween(m, m', Start(segs, i, TAG), Start(segs, k, TAG))
    ensures TagAt(m', Splice(segs, i, k, pieces), j)
  {
    hide Total, Start;
    SpliceStarts(segs, i, k, pieces, TAG, j);
    StartMonotone(segs, j, i, TAG);
    var r := Splice(segs, i, k, pieces);
    assert r[j] == segs[j] && (j > 0 ==> r[j - 1] == segs[j - 1]);
  }

  lemma TagRight(m: seq<Cell>, m': seq<Cell>, segs: seq<Seg>, i: nat, k: nat, pieces: seq<Seg>, d: nat)
    requires i < k < d <= |segs| && pieces != [] && TagAt(m, segs, d)
    requires Total(pieces, TAG) == Total(segs[i..k], TAG)
    requires OnlyBetween(m, m', Start(segs, i, TAG), Start(segs, k, TAG))
    ensures TagAt(m', Splice(segs, i, k, pieces), d - k + i + |pieces|)
  {
    hide Total, Start, Splice;
    var j := d - k + i + |pieces|;
    SpliceStarts(segs, i, k, pieces, TAG, j);
    StartMonotone(segs, k, d, TAG);
    SpliceLength(segs, i, k, pieces);
    SpliceTail(segs, i, k, pieces, d - 1);
    if d < |segs| { SpliceTail(segs, i, k, pieces, d); }
  }

  lemma LayoutSplice(m: seq<Cell>, m': seq<Cell>, segs: seq<Seg>, i: nat, k: nat, pieces: seq<Seg>)
    requires Layout(m, segs) && i < k <= |segs| && pieces != []
    requires Total(pieces, TAG) == Total(segs[i..k], TAG)
    requires OnlyBetween(m, m', Start(segs, i, TAG), Start(segs, k, TAG))
    requires forall j :: i <= j <= i + |pieces| ==> TagAt(m', Splice(segs, i, k, pieces), j)
    ensures Layout(m', Splice(segs, i, k, pieces))
  {
    hide Total, Start, TagAt, Splice;
    var r := Splice(segs, i, k, pieces);
    SpliceTotal(segs, i, k, pieces, TAG, 0);
    SpliceLength(segs, i, k, pieces);
    forall j | 0 <= j <= |r| ensures TagAt(m', r, j) {
      if j < i {
        TagLeft(m, m', segs, i, k, pieces, j);
      } else if j > i + |pieces| {
        TagRight(m, m', segs, i, k, pieces, j - i - |pieces| + k);
      }
    }
  }

  lemma SpliceLength(segs: seq<Seg>, i: nat, k: nat, pieces: seq<Seg>)
    requires i <= k <= |segs|
    ensures |Splice(segs, i, k, pieces)| == |segs| - (k - i) + |pieces|
  {
  }

  /** Blocks in use elsewhere keep every byte. */
  lemma OthersKept(m: seq<Cell>, m': seq<Cell>, segs: seq<Seg>, i: nat, k: nat, x: Span)
    requires i < k <= |segs| && |m| == Total(segs, TAG) + TAG
    requires OnlyBetween(m, m', Start(segs, i, TAG), Start(segs, k, TAG))
    requires x in Live(segs, TAG, 0) && x !in Live(segs[i..k], TAG, Start(segs, i, TAG))
    ensures x.0 + x.1 <= |m| && m'[x.0..x.0 + x.1] == m[x.0..x.0 + x.1]
  {
    hide Total, Start, Live;
    LiveBounds(segs, TAG, 0, x);
    SpliceTotal(segs, i, k, segs[i..k], TAG, 0);
    assert x in Live(segs[..i], TAG, 0) || x in Live(segs[k..], TAG, Start(segs, k, TAG));
    if x in Live(segs[..i], TAG, 0) {
      LiveBounds(segs[..i], TAG, 0, x);
      StartIsTotal(segs, i);
    } else {
      LiveBounds(segs[k..], TAG, Start(segs, k, TAG), x);
    }
  }

  lemma StartIsTotal(segs: seq<Seg>, i: nat)
    requires i <= |segs|
    ensures Start(segs, i, TAG) == Total(segs[..i], TAG)
  {
  }

  lemma WalkFacts(m: seq<Cell>, segs: seq<Seg>, i: nat)
    requires Layout(m, segs) && Canonical(segs) && i <= |segs|
    ensures TagAt(m, segs, i) && Start(segs, i, TAG) + TAG <= |m|
    ensures i < |segs| ==> m[Start(segs, i, TAG)].next > 0
    ensures i < |segs| ==> Start(segs, i + 1, TAG) == Start(segs, i, TAG) + segs[i].size + TAG
    ensures i == |segs| ==> Start(segs, i, TAG) + TAG == |m|
  {
    hide Total, Start;
    if i < |segs| {
      StartNext(segs, i, TAG);
      StartMonotone(segs, i, |segs|, TAG);
    } else {
      StartIsTotal(segs, i);
      assert segs[..i] == segs;
    }
  }

  function Rest(g: Seg, size: nat): nat {
    if g.size > size + TAG then g.size - size - TAG else 0
  }

  /** The block list after heap_alloc has taken `size` bytes of block i. */
  function Taken(segs: seq<Seg>, i: nat, size: nat): seq<Seg>
    requires i < |segs|
  {
    Carve(segs, i, 0, size, Rest(segs[i], size))
  }

  predicate RoomIn(g: Seg, size: nat) {
    !g.used && size > 0 && (g.size == size || g.size > size + TAG + 1)
  }

  lemma TakenFacts(segs: seq<Seg>, i: nat, size: nat)
    requires i < |segs| && Canonical(segs) && RoomIn(segs[i], size)
    ensures var r := Taken(segs, i, size); var x := (Start(segs, i, TAG) + TAG, size);
            && Canonical(r) && Total(r, TAG) == Total(segs, TAG)
            && x !in Live(segs, TAG, 0) && Live(r, TAG, 0) == Live(segs, TAG, 0) + {x}
            && Used(r) == Used(segs) + size
  {
    hide Total, Start, Live, Used, Canonical;
    CarveOk(segs, i, 0, size, Rest(segs[i], size), TAG, 0);
  }

  lemma TakenTags(segs: seq<Seg>, i: nat, size: nat)
    requires i < |segs| && Canonical(segs) && RoomIn(segs[i], size)
    ensures var r := Taken(segs, i, size); var g := segs[i]; var a := Start(segs, i, TAG);
            && |r| >= i + 1 && Start(r, i, TAG) == a
            && TagOf(r, i) == Tag(true, TagOf(segs, i).prev, size)
            && (if g.size == size then
                  |r| == |segs| && Start(r, i + 1, TAG) == Start(segs, i + 1, TAG)
                  && TagOf(r, i + 1) == TagOf(segs, i + 1)
                else
                  && |r| == |segs| + 1 && Start(r, i + 1, TAG) == a + size + TAG
                  && Start(r, i + 2, TAG) == Start(segs, i + 1, TAG)
                  && TagOf(r, i + 1) == Tag(false, size, g.size - size - TAG)
                  && TagOf(r, i + 2) == TagOf(segs, i + 1).(prev := g.size - size - TAG))
  {
    hide Total, Start, Canonical;
    var pieces := Pieces(0, size, Rest(segs[i], size));
    PiecesFacts(0, size, Rest(segs[i], size), TAG, 0);
    assert segs[i..i + 1] == [segs[i]];
    Single(segs[i], TAG, 0);
    forall j | i <= j <= i + |pieces|
      ensures Start(Taken(segs, i, size), j, TAG) == Start(segs, i, TAG) + Total(pieces[..j - i], TAG)
    {
      SpliceStarts(segs, i, i + 1, pieces, TAG, j);
    }
    SpliceStarts(segs, i, i + 1, pieces, TAG, i + |pieces|);
    assert pieces[..0] == [] && Total([], TAG) == 0 by { EmptyTotal(); }
    assert pieces[..1] == [Seg(size, true)];
    Single(Seg(size, true), TAG, 0);
  }

  lemma EmptyTotal()
    ensures Total([], TAG) == 0
  {
  }

  /** The tag writes of heap_alloc. */
  ghost predicate AllocWrites(m: seq<Cell>, m': seq<Cell>, segs: seq<Seg>, i: nat, size: nat)
    requires i < |segs|
  {
    var a, b, g := Start(segs, i, TAG), Start(segs, i + 1, TAG), segs[i];
    && OnlyBetween(m, m', a, b) && b < |m| && a + size + TAG <= b && m[a].Tag? && m[b].Tag?
    && m'[a] == Tag(true, m[a].prev, size)
    && (if g.size == size then m'[b] == m[b]
        else g.size > size + TAG && m'[a + size + TAG] == Tag(false, size, g.size - size - TAG)
             && m'[b] == m[b].(prev := g.size - size - TAG))
  }

  /** Zeroing the bytes of the new block touches none of the tags written. */
  lemma ZeroInside(m: seq<Cell>, m1: seq<Cell>, m2: seq<Cell>, segs: seq<Seg>, i: nat, size: nat)
    requires i < |segs| && AllocWrites(m, m1, segs, i, size) && |m2| == |m1|
    requires var a := Start(segs, i, TAG);
             forall k :: 0 <= k < |m1| && !(a + TAG <= k < a + TAG + size) ==> m2[k] == m1[k]
    ensures AllocWrites(m, m2, segs, i, size)
  {
    hide Start;
  }

  lemma AllocLayout(m: seq<Cell>, m': seq<Cell>, segs: seq<Seg>, i: nat, size: nat)
    requires Layout(m, segs) && Canonical(segs) && i < |segs| && RoomIn(segs[i], size)
    requires AllocWrites(m, m', segs, i, size)
    ensures Layout(m', Taken(segs, i, size))
  {
    hide Total, Start, Canonical, Layout, TagOf;
    WalkFacts(m, segs, i);
    WalkFacts(m, segs, i + 1);
    TakenTags(segs, i, size);
    var pieces := Pieces(0, size, Rest(segs[i], size));
    PiecesFacts(0, size, Rest(segs[i], size), TAG, 0);
    assert segs[i..i + 1] == [segs[i]];
    Single(segs[i], TAG, 0);
    TagFields(segs, i);
    LayoutSplice(m, m', segs, i, i + 1, pieces);
  }

  lemma TagFields(segs: seq<Seg>, i: nat)
    requires i <= |segs|
    ensures TagOf(segs, i).Tag?
    ensures i < |segs| ==> TagOf(segs, i).next == segs[i].size && TagOf(segs, i).reserved == segs[i].used
    ensures i > 0 ==> TagOf(segs, i).prev == segs[i - 1].size
  {
  }

  // -------------------------------------------------------------- after free

  lemma FreedTags(segs: seq<Seg>, i: nat)
    requires i < |segs|
    ensures var r := Freed(segs, i, TAG); var lo, hi := Lo(segs, i), Hi(segs, i);
            && lo < |r| && Start(r, lo, TAG) == Start(segs, lo, TAG) && Start(r, lo + 1, TAG) == Start(segs, hi, TAG)
            && TagOf(r, lo) == Tag(false, TagOf(segs, lo).prev, r[lo].size)
            && TagOf(r, lo + 1) == TagOf(segs, hi).(prev := r[lo].size)
            && r[lo].size ==
                 segs[i].size + (if lo < i then segs[lo].size + TAG else 0)
                   + (if hi > i + 1 then segs[i + 1].size + TAG else 0)
            && !r[lo].used && r == Splice(segs, lo, hi, [r[lo]]) && Total([r[lo]], TAG) == Total(segs[lo..hi], TAG)
  {
    hide Total, Start;
    var lo, hi := Lo(segs, i), Hi(segs, i);
    RunTotal(segs, i, TAG, 0);
    var r := Freed(segs, i, TAG);
    var piece := [r[lo]];
    Single(r[lo], TAG, 0);
    assert r == Splice(segs, lo, hi, piece);
    SpliceStarts(segs, lo, hi, piece, TAG, lo);
    SpliceStarts(segs, lo, hi, piece, TAG, lo + 1);
    assert lo + 1 < |r| ==> r[lo + 1] == segs[hi];
  }

  /** The tag writes of heap_free, in effect: the joined block's first tag and
      the tag behind it. */
  ghost predicate FreeWrites(m: seq<Cell>, m': seq<Cell>, segs: seq<Seg>, i: nat)
    requires i < |segs|
  {
    var lo, hi := Lo(segs, i), Hi(segs, i);
    var a, b, size := Start(segs, lo, TAG), Start(segs, hi, TAG), Freed(segs, i, TAG)[lo].size;
    && OnlyBetween(m, m', a, b) && a < |m| && b < |m| && m[a].Tag? && m[b].Tag?
    && m'[a] == Tag(false, m[a].prev, size) && m'[b] == m[b].(prev := size)
  }

  lemma FreeLayout(m: seq<Cell>, m': seq<Cell>, segs: seq<Seg>, i: nat)
    requires Layout(m, segs) && Canonical(segs) && i < |segs| && FreeWrites(m, m', segs, i)
    ensures Layout(m', Freed(segs, i, TAG))
  {
    hide Total, Start, Canonical, Layout, TagOf, Freed;
    var lo, hi := Lo(segs, i), Hi(segs, i);
    WalkFacts(m, segs, lo);
    WalkFacts(m, segs, hi);
    FreedTags(segs, i);
    LayoutSplice(m, m', segs, lo, hi, [Freed(segs, i, TAG)[lo]]);
  }

  /** What an allocation comes to: a panic, writes outside the block found, writes
      past the new block, or a block. */
  datatype Outcome = Panic | Wild | Overrun | Block(addr: nat)

  class Heap {
    const mem: array<Cell>
    var allocSize: int
    ghost var segs: seq<Seg>

    ghost predicate Valid()
      reads this, mem
    {
      mem.Length == HEAP_SIZE && Layout(mem[..], segs) && Canonical(segs)
    }

    /** alloc_size agrees with the blocks in use. */
    ghost predicate Accounted()
      reads this
    {
      allocSize == Used(segs)
    }

    /** Addresses and sizes of the live allocations. */
    ghost function Allocations(): set<Span>
      reads this
    {
      Live(segs, TAG, 0)
    }

    /** heap_init (the tag set-up) */
    constructor ()
      ensures Valid() && Accounted() && fresh(mem)
      ensures segs == [Seg(HEAP_SIZE - 2 * TAG, false)] && Allocations() == {}
    {
      mem := new Cell[HEAP_SIZE](_ => Byte(0));
      allocSize := 0;
      segs := [Seg(HEAP_SIZE - 2 * TAG, false)];
      new;
      var sectorSize := HEAP_SIZE - 2 * TAG;
      mem[0] := Tag(false, 0, sectorSize);
      mem[sectorSize + TAG] := Tag(false, sectorSize, 0);
      InitLayout(mem[..]);
    }

    /** heap_alloc: first fit. A panic on a request of zero bytes or when no block is
        eligible. If the sum in the test wraps, the block found is too small and the
        original writes its tags outside it (`Wild`). */
    method Alloc(size: nat) returns (r: Outcome)
      requires Valid() && size < WORD
      modifies this, mem
      ensures !r.Overrun? && (!r.Block? ==> segs == old(segs) && mem[..] == old(mem[..]))
      ensures r.Panic? <==> size == 0 || forall i :: 0 <= i < |old(segs)| ==> !Eligible(old(segs)[i], size)
      ensures r.Wild? <==> !r.Panic? && size + TAG + 1 >= WORD
      ensures r.Block? ==> Valid() && (old(Accounted()) ==> Accounted())
      ensures r.Block? ==>
                (r.addr, size) !in old(Allocations()) && Allocations() == old(Allocations()) + {(r.addr, size)}
      ensures r.Block? ==> r.addr + size <= mem.Length && forall k :: r.addr <= k < r.addr + size ==> mem[k] == Byte(0)
      ensures r.Block? ==> Keeps(old(mem[..]), mem[..], old(Allocations()))
      ensures r.Block? ==>
                FirstFit(old(segs), size) < |old(segs)| && segs == Taken(old(segs), FirstFit(old(segs), size), size)
    {
      hide Layout, Canonical, Total, Start, Live, TagOf, Used, FirstFit, Taken;
      if size == 0 {
        return Panic;
      }
      ghost var m := mem[..];
      var least := (size + TAG + 1) % WORD;
      var cur := 0;
      ghost var i := 0;
      allocSize := allocSize + size;
      WalkFacts(m, segs, 0);
      TagFields(segs, 0);
      HeadAtZero(m, segs);
      while mem[cur].reserved || (mem[cur].next <= least && mem[cur].next != size)
        invariant i < |segs| && cur == Start(segs, i, TAG) < mem.Length && mem[cur] == TagOf(segs, i) && mem[cur].Tag?
        invariant mem[cur].next == segs[i].size && mem[cur].reserved == segs[i].used
        invariant mem[..] == m && segs == old(segs) && allocSize == old(allocSize) + size && Valid()
        invariant forall j :: 0 <= j < i ==> !Eligible(segs[j], size)
        decreases |segs| - i
      {
        WalkFacts(m, segs, i);
        WalkFacts(m, segs, i + 1);
        TagFields(segs, i + 1);
        cur := cur + mem[cur].next + TAG;
        i := i + 1;
        assert mem[cur] == m[cur];
        TailTag(segs, i);
        if mem[cur].next == 0 {
          return Panic;
        }
      }
      assert Eligible(segs[i], size);
      if size + TAG + 1 >= WORD {
        return Wild;
      }
      assert RoomIn(segs[i], size);
      TakenFacts(segs, i, size);
      WalkFacts(m, segs, i);
      Take(cur, i, size);
      r := Block(cur + TAG);
      AllocKeeps(m, mem[..], old(segs), i);
      FirstFitIs(old(segs), size, i);
    }

    /** The block found is marked, and split if it is longer than asked. */
    method Take(cur: nat, ghost i: nat, size: nat)
      requires Valid() && i < |segs| && cur == Start(segs, i, TAG) && RoomIn(segs[i], size)
      modifies this, mem
      ensures Valid() && segs == Taken(old(segs), i, size) && allocSize == old(allocSize)
      ensures OnlyBetween(old(mem[..]), mem[..], Start(old(segs), i, TAG), Start(old(segs), i + 1, TAG))
      ensures cur + TAG + size <= mem.Length && forall k :: cur + TAG <= k < cur + TAG + size ==> mem[k] == Byte(0)
    {
      hide Layout, Canonical, Total, Start, Live, TagOf, Used, Taken;
      ghost var m := mem[..];
      WalkFacts(m, segs, i);
      WalkFacts(m, segs, i + 1);
      TagFields(segs, i);
      TagFields(segs, i + 1);
      Mark(cur, i, size);
      ghost var m1 := mem[..];
      Zero(cur + TAG, size);
      ZeroInside(m, m1, mem[..], segs, i, size);
      AllocLayout(m, mem[..], segs, i, size);
      TakenFacts(segs, i, size);
      segs := Taken(segs, i, size);
    }

    /** The tag writes of heap_alloc. */
    method Mark(cur: nat, ghost i: nat, size: nat)
      requires Valid() && i < |segs| && cur == Start(segs, i, TAG) && RoomIn(segs[i], size)
      modifies mem
      ensures AllocWrites(old(mem[..]), mem[..], segs, i, size)
    {
      hide Layout, Canonical, Total, Start, TagOf;
      WalkFacts(mem[..], segs, i);
      WalkFacts(mem[..], segs, i + 1);
      TagFields(segs, i);
      TagFields(segs, i + 1);
      var tag := mem[cur];
      var next := cur + tag.next + TAG;
      assert tag.next == mem[next].prev;  // the code's consistency test passes
      if tag.next == size {
        mem[cur] := tag.(reserved := true);
      } else {
        var mid := cur + size + TAG;
        var remaining := tag.next - size - TAG;
        mem[cur] := Tag(true, tag.prev, size);
        forall k | mid < k < mid + TAG { mem[k] := Pad; }
        mem[mid] := Tag(false, size, remaining);
        mem[next] := mem[next].(prev := remaining);
      }
    }

    /** heap_free of the block in front of which tag i stands. A block that is not
        in use is a kernel panic; otherwise exactly this allocation goes, the
        block is joined with its free neighbours, and no other allocation loses a
        byte. */
    method Free(alloc: nat, ghost i: nat) returns (ok: bool)
      requires Valid() && i < |segs| && alloc == Start(segs, i, TAG) + TAG
      modifies this, mem
      ensures ok == old(segs)[i].used
      ensures !ok ==> segs == old(segs) && mem[..] == old(mem[..])
      ensures ok ==> Valid() && (old(Accounted()) ==> Accounted())
      ensures ok ==> (alloc, old(segs)[i].size) in old(Allocations())
                     && Allocations() == old(Allocations()) - {(alloc, old(segs)[i].size)}
      ensures ok ==> Keeps(old(mem[..]), mem[..], Allocations())
      ensures ok ==> segs == Freed(old(segs), i, TAG)
    {
      hide Layout, Canonical, Total, Start, Live, TagOf, Used, Freed;
      ghost var m := mem[..];
      WalkFacts(m, segs, i);
      TagFields(segs, i);
      allocSize := allocSize - mem[alloc - TAG].next;
      if !mem[alloc - TAG].reserved {
        return false;
      }
      Join(alloc - TAG, i);
      FreeLayout(m, mem[..], segs, i);
      FreedOk(segs, i, TAG, 0);
      LayoutSize(m, segs);
      segs := Freed(segs, i, TAG);
      FreeKeeps(m, mem[..], old(segs), i, Allocations());
      return true;
    }

    /** The tag writes of heap_free: join right, then left. */
    method Join(tag: nat, ghost i: nat)
      requires Valid() && i < |segs| && tag == Start(segs, i, TAG) && segs[i].used
      modifies mem
      ensures FreeWrites(old(mem[..]), mem[..], segs, i)
    {
      hide Layout, Canonical, Total, Start, TagOf, Freed;
      ghost var m := mem[..];
      ghost var lo, hi := Lo(segs, i), Hi(segs, i);
      FreedTags(segs, i);
      JoinFacts(m, segs, i);
      var next := JoinRight(tag, i);
      if mem[tag].prev != 0 {
        var prev := tag - mem[tag].prev - TAG;
        if !mem[prev].reserved {
          mem[prev] := mem[prev].(next := mem[prev].next + mem[tag].next + TAG);
          mem[next] := mem[next].(prev := mem[prev].next);
          return;
        }
      }
      mem[tag] := mem[tag].(reserved := false);
    }

    /** The following block taken in if it is free; `next` is the tag behind. */
    method JoinRight(tag: nat, ghost i: nat) returns (next: nat)
      requires Valid() && i < |segs| && tag == Start(segs, i, TAG) && segs[i].used
      modifies mem
      ensures OnlyBetween(old(mem[..]), mem[..], tag, next) && tag < next == Start(segs, Hi(segs, i), TAG) < mem.Length
      ensures old(mem[tag].Tag?) && old(mem[..])[next].Tag?
      ensures var size := segs[i].size + (if Hi(segs, i) > i + 1 then segs[i + 1].size + TAG else 0);
              mem[tag] == old(mem[tag]).(next := size) && mem[next] == old(mem[..])[next].(prev := size)
    {
      hide Layout, Canonical, Total, Start, TagOf;
      JoinFacts(mem[..], segs, i);
      next := tag + mem[tag].next + TAG;
      assert mem[tag].next == mem[next].prev;  // the code's consistency test passes
      if !mem[next].reserved && mem[next].next != 0 {
        mem[tag] := mem[tag].(next := mem[tag].next + mem[next].next + TAG);
        next := next + mem[next].next + TAG;
        mem[next] := mem[next].(prev := mem[tag].next);
      }
      mem[next] := mem[next].(prev := mem[tag].next);
    }

    /** heap_realloc: the old contents lead the new block, the old allocation is gone,
        and all others are untouched. If the new block is the smaller one the copy
        would run over the tag behind it (`Overrun`). */
    method Realloc(alloc: nat, size: nat, ghost i: nat) returns (r: Outcome)
      requires Valid() && i < |segs| && segs[i].used && alloc == Start(segs, i, TAG) + TAG && size < WORD
      modifies this, mem
      ensures r.Panic? <==> size == 0 || forall j :: 0 <= j < |old(segs)| ==> !Eligible(old(segs)[j], size)
      ensures r.Wild? <==> !r.Panic? && size + TAG + 1 >= WORD
      ensures r.Overrun? <==> !r.Panic? && !r.Wild? && size < old(segs)[i].size
      ensures r.Block? ==> Valid() && (old(Accounted()) ==> Accounted())
      ensures r.Block? ==> Allocations() == old(Allocations()) - {(alloc, old(segs)[i].size)} + {(r.addr, size)}
      ensures r.Block? ==> r.addr + size <= mem.Length && alloc + old(segs)[i].size <= mem.Length
      ensures r.Block? ==> Slice(mem[..], r.addr, old(segs)[i].size) == Slice(old(mem[..]), alloc, old(segs)[i].size)
      ensures r.Block? ==> Keeps(old(mem[..]), mem[..], Allocations() - {(r.addr, size)})
    {
      hide Layout, Canonical, Total, Start, Live, TagOf, Used, Eligible, Slice, Taken, Freed, FirstFit;
      ghost var m0, x := mem[..], (alloc, segs[i].size);
      WalkFacts(m0, segs, i);
      CanonicalSizes(segs, i);
      UsedIsLive(segs, i, TAG);
      r := Alloc(size);
      if !r.Block? {
        return;
      }
      ghost var j := BlockOf(segs, x);
      WalkFacts(mem[..], segs, j);
      TagFields(segs, j);
      if size < mem[alloc - TAG].next {
        return Overrun;
      }
      ghost var y := (r.addr, size);
      Move(r.addr, alloc, x, y);
      ghost var m2 := mem[..];
      ghost var k := BlockOf(segs, x);
      var ok := Free(alloc, k);
      assert y in Allocations();
      SlicePrefix(m2, mem[..], y, x.1);
    }

    /** The memcpy of heap_realloc: the old block's size is read from its tag. */
    method Move(to: nat, alloc: nat, ghost x: Span, ghost y: Span)
      requires Valid() && x in Allocations() && y in Allocations() && x != y && x.1 <= y.1 && x.0 == alloc && y.0 == to
      modifies mem
      ensures Valid() && Keeps(old(mem[..]), mem[..], Allocations() - {y})
      ensures to + x.1 <= mem.Length && Slice(mem[..], to, x.1) == Slice(old(mem[..]), alloc, x.1)
    {
      hide Layout, Canonical, Total, Start, Live, TagOf;
      ghost var m := mem[..];
      ghost var k := BlockOf(segs, x);
      WalkFacts(m, segs, k);
      TagFields(segs, k);
      LiveDisjoint(segs, TAG, 0, x, y);
      LayoutSize(m, segs);
      LiveBounds(segs, TAG, 0, x);
      LiveBounds(segs, TAG, 0, y);
      Copy(to, alloc, mem[alloc - TAG].next);
      PayloadLayout(m, mem[..], segs, y);
      forall z | z in Allocations() - {y}
        ensures z.0 + z.1 <= mem.Length && Slice(mem[..], z.0, z.1) == Slice(m, z.0, z.1)
      {
        LiveDisjoint(segs, TAG, 0, z, y);
        LiveBounds(segs, TAG, 0, z);
      }
    }

    /** memcpy of n bytes between two ranges that do not meet. */
    method Copy(to: nat, from: nat, n: nat)
      requires to + n <= mem.Length && from + n <= mem.Length && (to + n <= from || from + n <= to)
      modifies mem
      ensures mem[to..to + n] == old(mem[from..from + n])
      ensures forall k :: 0 <= k < mem.Length && !(to <= k < to + n) ==> mem[k] == old(mem[k])
    {
      ghost var was := mem[..];
      var j := 0;
      while j < n
        invariant 0 <= j <= n
        invariant forall k :: to <= k < to + j ==> mem[k] == was[k - to + from]
        invariant forall k :: 0 <= k < mem.Length && !(to <= k < to + j) ==> mem[k] == was[k]
      {
        mem[to + j] := mem[from + j];
        j := j + 1;
      }
      SameSlice(was, mem[..], to, from, n);
      assert was[from..from + n] == old(mem[from..from + n]);
      assert mem[..][to..to + n] == mem[to..to + n];
    }

    /** heap_check never finds anything to panic about. */
    method Check() returns (ok: bool)
      requires Valid()
      ensures ok
    {
      hide Layout, Canonical, Total, Start, TagOf;
      ghost var m := mem[..];
      var cur := 0;
      ghost var i := 0;
      HeadAtZero(m, segs);
      WalkFacts(m, segs, 0);
      TagFields(segs, 0);
      TailTag(segs, 0);
      while mem[cur].next != 0
        invariant i <= |segs| && cur == Start(segs, i, TAG) < mem.Length && mem[cur] == TagOf(segs, i) && mem[cur].Tag?
        invariant mem[cur].next == 0 <==> i == |segs|
        decreases |segs| - i
      {
        WalkFacts(m, segs, i);
        WalkFacts(m, segs, i + 1);
        TagFields(segs, i);
        TagFields(segs, i + 1);
        TailTag(segs, i + 1);
        var next := cur + mem[cur].next + TAG;
        if mem[cur].next != mem[next].prev {
          return false;
        }
        cur := next;
        i := i + 1;
      }
      WalkFacts(m, segs, i);
      return cur == HEAP_SIZE - TAG;
    }

    /** heap_usage recounts the bytes in use, and finds what alloc_size says. */
    method Usage() returns (used: nat)
      requires Valid()
      ensures used == Used(segs) && (Accounted() ==> used == allocSize)
    {
      hide Layout, Canonical, Total, Start, TagOf, Used;
      ghost var m := mem[..];
      used := 0;
      var cur := 0;
      ghost var i := 0;
      HeadAtZero(m, segs);
      UsedPrefix(segs, 0);
      while cur != HEAP_SIZE - TAG
        invariant i <= |segs| && cur == Start(segs, i, TAG)
        invariant used == Used(segs[..i])
        decreases |segs| - i
      {
        WalkFacts(m, segs, i);
        TagFields(segs, i);
        UsedPrefix(segs, i);
        if mem[cur].reserved {
          used := used + mem[cur].next;
        }
        cur := cur + mem[cur].next + TAG;
        i := i + 1;
      }
      if i < |segs| {
        WalkFacts(m, segs, i);
        WalkFacts(m, segs, i + 1);
        assert false;
      }
      assert segs[..i] == segs;
    }

    /** memset(p, 0, n) */
    method Zero(p: nat, n: nat)
      requires p + n <= mem.Length
      modifies mem
      ensures forall k :: p <= k < p + n ==> mem[k] == Byte(0)
      ensures forall k :: 0 <= k < mem.Length && !(p <= k < p + n) ==> mem[k] == old(mem[k])
    {
      var j := 0;
      while j < n
        invariant 0 <= j <= n
        invariant forall k :: p <= k < p + j ==> mem[k] == Byte(0)
        invariant forall k :: 0 <= k < mem.Length && !(p <= k < p + j) ==> mem[k] == old(mem[k])
      {
        mem[p + j] := Byte(0);
        j := j + 1;
      }
    }
  }

  lemma InitLayout(m: seq<Cell>)
    requires |m| == HEAP_SIZE
    requires m[0] == Tag(false, 0, HEAP_SIZE - 2 * TAG) && m[HEAP_SIZE - TAG] == Tag(false, HEAP_SIZE - 2 * TAG, 0)
    ensures var segs := [Seg(HEAP_SIZE - 2 * TAG, false)];
            Layout(m, segs) && Canonical(segs) && Used(segs) == 0 && Live(segs, TAG, 0) == {}
  {
    var segs := [Seg(HEAP_SIZE - 2 * TAG, false)];
    Single(segs[0], TAG, 0);
    assert segs[..0] == [] && segs[..1] == segs;
    assert TagAt(m, segs, 0) && TagAt(m, segs, 1);
  }

  lemma RunNotLive(segs: seq<Seg>, i: nat, x: Span)
    requires i < |segs| && segs[i].used && x != (Start(segs, i, TAG) + TAG, segs[i].size)
    ensures x !in Live(segs[Lo(segs, i)..Hi(segs, i)], TAG, Start(segs, Lo(segs, i), TAG))
  {
    RunTotal(segs, i, TAG, 0);
  }

  /** The tags heap_free looks at. */
  lemma JoinFacts(m: seq<Cell>, segs: seq<Seg>, i: nat)
    requires Layout(m, segs) && Canonical(segs) && i < |segs| && segs[i].used
    ensures var a := Start(segs, i, TAG); var b := Start(segs, i + 1, TAG);
            && b == a + segs[i].size + TAG < |m| && segs[i].size > 0
            && m[a] == Tag(true, if i == 0 then 0 else segs[i - 1].size, segs[i].size)
            && m[b].Tag? && m[b].prev == segs[i].size
            && (i + 1 < |segs| ==> m[b].reserved == segs[i + 1].used && m[b].next == segs[i + 1].size > 0)
            && (i + 1 == |segs| ==> m[b].next == 0)
            && (i + 1 < |segs| ==>
                 Start(segs, i + 2, TAG) == b + segs[i + 1].size + TAG < |m| && m[Start(segs, i + 2, TAG)].Tag?)
            && (i > 0 ==> segs[i - 1].size > 0 && Start(segs, i - 1, TAG) + segs[i - 1].size + TAG == a)
            && (i > 0 ==> m[Start(segs, i - 1, TAG)].Tag? && m[Start(segs, i - 1, TAG)].reserved == segs[i - 1].used
                          && m[Start(segs, i - 1, TAG)].next == segs[i - 1].size)
  {
    hide Start, Total, Layout;
    WalkFacts(m, segs, i);
    WalkFacts(m, segs, i + 1);
    if i + 1 < |segs| { WalkFacts(m, segs, i + 2); }
    if i > 0 { WalkFacts(m, segs, i - 1); }
  }

  ghost function BlockOf(segs: seq<Seg>, x: Span): (i: nat)
    requires x in Live(segs, TAG, 0)
    ensures i < |segs| && segs[i].used && x == (Start(segs, i, TAG) + TAG, segs[i].size)
  {
    LiveIndex(segs, TAG, 0, x);
    var i :| 0 <= i < |segs| && segs[i].used && x == (0 + Start(segs, i, TAG) + TAG, segs[i].size);
    i
  }

  /** Writing inside a live allocation disturbs no tag. */
  lemma PayloadLayout(m: seq<Cell>, m': seq<Cell>, segs: seq<Seg>, x: Span)
    requires Layout(m, segs) && x in Live(segs, TAG, 0) && |m'| == |m|
    requires forall k :: 0 <= k < |m| && !(x.0 <= k < x.0 + x.1) ==> m'[k] == m[k]
    ensures Layout(m', segs)
  {
    hide Total, Start, Live;
    var i := BlockOf(segs, x);
    StartNext(segs, i, TAG);
    forall j | 0 <= j <= |segs| ensures TagAt(m', segs, j) {
      assert TagAt(m, segs, j);
      if j < i { StartMonotone(segs, j, i, TAG); }
      if i + 1 < j { StartMonotone(segs, i + 1, j, TAG); }
    }
  }

  lemma SameSlice(a: seq<Cell>, b: seq<Cell>, to: nat, from: nat, n: nat)
    requires |a| == |b| && to + n <= |a| && from + n <= |a|
    requires forall k :: to <= k < to + n ==> b[k] == a[k - to + from]
    ensures b[to..to + n] == a[from..from + n]
  {
  }

  lemma SlicePrefix(m: seq<Cell>, m': seq<Cell>, y: Span, n: nat)
    requires y.0 + y.1 <= |m| && |m| == |m'| && Slice(m, y.0, y.1) == Slice(m', y.0, y.1) && n <= y.1
    ensures Slice(m, y.0, n) == Slice(m', y.0, n)
  {
    assert Slice(m, y.0, n) == Slice(m, y.0, y.1)[..n];
    assert Slice(m', y.0, n) == Slice(m', y.0, y.1)[..n];
  }

  lemma UsedPrefix(segs: seq<Seg>, i: nat)
    requires i <= |segs|
    ensures Used(segs[..0]) == 0
    ensures i < |segs| ==> Used(segs[..i + 1]) == Used(segs[..i]) + (if segs[i].used then segs[i].size else 0)
  {
    if i < |segs| {
      assert segs[..i + 1] == segs[..i] + [segs[i]];
      UsedConcat(segs[..i], [segs[i]]);
      Single(segs[i], TAG, 0);
    }
  }

  lemma FreeBlockNotLive(segs: seq<Seg>, i: nat, x: Span)
    requires i < |segs| && !segs[i].used
    ensures x !in Live(segs[i..i + 1], TAG, Start(segs, i, TAG))
  {
    assert segs[i..i + 1] == [segs[i]];
    Single(segs[i], TAG, Start(segs, i, TAG));
  }

  lemma AllocKeeps(m: seq<Cell>, m': seq<Cell>, segs: seq<Seg>, i: nat)
    requires Layout(m, segs) && i < |segs| && !segs[i].used
    requires OnlyBetween(m, m', Start(segs, i, TAG), Start(segs, i + 1, TAG))
    ensures Keeps(m, m', Live(segs, TAG, 0))
  {
    hide Layout, Total, Start, Live;
    LayoutSize(m, segs);
    forall x | x in Live(segs, TAG, 0) ensures x.0 + x.1 <= |m| && Slice(m', x.0, x.1) == Slice(m, x.0, x.1) {
      FreeBlockNotLive(segs, i, x);
      OthersKept(m, m', segs, i, i + 1, x);
    }
  }

  lemma FreeKeeps(m: seq<Cell>, m': seq<Cell>, segs: seq<Seg>, i: nat, xs: set<Span>)
    requires Layout(m, segs) && i < |segs| && segs[i].used && FreeWrites(m, m', segs, i)
    requires xs == Live(segs, TAG, 0) - {(Start(segs, i, TAG) + TAG, segs[i].size)}
    ensures Keeps(m, m', xs)
  {
    hide Layout, Total, Start, Live, Freed;
    LayoutSize(m, segs);
    forall x | x in xs ensures x.0 + x.1 <= |m| && Slice(m', x.0, x.1) == Slice(m, x.0, x.1) {
      RunNotLive(segs, i, x);
      OthersKept(m, m', segs, Lo(segs, i), Hi(segs, i), x);
    }
  }

  lemma LayoutSize(m: seq<Cell>, segs: seq<Seg>)
    requires Layout(m, segs)
    ensures |m| == Total(segs, TAG) + TAG
  {
  }

  lemma HeadAtZero(m: seq<Cell>, segs: seq<Seg>)
    requires Layout(m, segs)
    ensures |segs| > 0 && Start(segs, 0, TAG) == 0
  {
    assert segs[..0] == [];
  }

  lemma TailTag(segs: seq<Seg>, i: nat)
    requires i <= |segs| && Canonical(segs)
    ensures TagOf(segs, i).next == 0 <==> i == |segs|
  {
  }

  // ------------------------------------------------------------- whole runs

  datatype Op = Allocate(size: nat) | GiveBack(i: nat)

  const Initial: seq<Seg> := [Seg(HEAP_SIZE - 2 * TAG, false)]

  /** What one call does to the blocks; a call that panics does nothing. */
  function Apply(segs: seq<Seg>, op: Op): seq<Seg> {
    match op
    case Allocate(size) =>
      var i := FirstFit(segs, size);
      if size > 0 && i < |segs| && RoomIn(segs[i], size) then Taken(segs, i, size) else segs
    case GiveBack(i) => if i < |segs| && segs[i].used then Freed(segs, i, TAG) else segs
  }

  function After(ops: seq<Op>): seq<Seg> {
    if ops == [] then Initial else Apply(After(ops[..|ops| - 1]), ops[|ops| - 1])
  }

  /** After any run of allocations and releases: no empty block, no two free
      neighbours, and blocks with their tags fill the heap. */
  lemma {:induction false} RunTiles(ops: seq<Op>)
    ensures var segs := After(ops); segs != [] && Canonical(segs) && Total(segs, TAG) + TAG == HEAP_SIZE
  {
    hide Canonical, Total, Live, Used, Start, Taken, Freed, FirstFit;
    if ops == [] {
      InitialTiles();
    } else {
      var before, op := After(ops[..|ops| - 1]), ops[|ops| - 1];
      RunTiles(ops[..|ops| - 1]);
      EmptyTotal();
      if op.Allocate? {
        var i := FirstFit(before, op.size);
        if i < |before| && RoomIn(before[i], op.size) { TakenFacts(before, i, op.size); }
      } else if op.i < |before| && before[op.i].used {
        FreedOk(before, op.i, TAG, 0);
      }
    }
  }

  lemma InitialTiles()
    ensures Initial != [] && Canonical(Initial) && Total(Initial, TAG) + TAG == HEAP_SIZE
  {
  }

  /** Two runs that leave the same allocations live leave the same blocks,
      whatever happened on the way. */
  lemma HistoryForgotten(ops: seq<Op>, ops': seq<Op>)
    requires Live(After(ops), TAG, 0) == Live(After(ops'), TAG, 0)
    ensures After(ops) == After(ops')
  {
    RunTiles(ops);
    RunTiles(ops');
    LayoutUnique(After(ops), After(ops'), TAG, 0);
  }

  /** Once every allocation has been released, in whatever order, the heap is the
      one free block it was at the start. */
  lemma AllFreed(ops: seq<Op>)
    requires Live(After(ops), TAG, 0) == {}
    ensures After(ops) == Initial
  {
    Single(Initial[0], TAG, 0);
    assert After([]) == Initial;
    HistoryForgotten(ops, []);
  }

  /** heap_free right after heap_alloc restores the blocks exactly, whether or not
      the block was split. */
  lemma AllocThenFree(segs: seq<Seg>, i: nat, size: nat)
    requires Canonical(segs) && i < |segs| && RoomIn(segs[i], size)
    ensures var r := Taken(segs, i, size); i < |r| && r[i].used && Freed(r, i, TAG) == segs
  {
    hide Canonical, Total, Live, Used, Start, Freed, Taken;
    TakenTags(segs, i, size);
    TakenFacts(segs, i, size);
    var r := Taken(segs, i, size);
    FreedOk(r, i, TAG, 0);
    LayoutUnique(Freed(r, i, TAG), segs, TAG, 0);
  }

  /** heap_realloc copies as many bytes as the old block had. With bytes in it,
      the tags survive that exactly when the new block is not the smaller one. */
  lemma ReallocKeepsTags(m: seq<Cell>, m': seq<Cell>, segs: seq<Seg>, x: Span, y: Span)
    requires Layout(m, segs) && Canonical(segs) && x in Live(segs, TAG, 0) && y in Live(segs, TAG, 0) && x != y
    requires x.0 + x.1 <= |m| && y.0 + x.1 <= |m| == |m'|
    requires forall k :: x.0 <= k < x.0 + x.1 ==> m[k].Byte?
    requires forall k :: y.0 <= k < y.0 + x.1 ==> m'[k] == m[k - y.0 + x.0]
    requires forall k :: 0 <= k < |m| && !(y.0 <= k < y.0 + x.1) ==> m'[k] == m[k]
    ensures Layout(m', segs) <==> x.1 <= y.1
  {
    hide Canonical, Total, Live, Start;
    if x.1 <= y.1 {
      PayloadLayout(m, m', segs, y);
    } else {
      var i := BlockOf(segs, y);
      StartNext(segs, i, TAG);
      assert m'[y.0 + y.1] == m[x.0 + y.1];
      assert !TagAt(m', segs, i + 1);
    }
  }
}
