/** The index from physical to virtual addresses: 256 buckets, each a chain of
    pages of entries. */
module TranslationMap {
  import opened Wrappers

  const BUCKETS: nat := 256
  const PAGE_ENTRIES: nat := 254            // (4096 - 8 - 8 - 4) / 16

  datatype Entry = Entry(paddr: nat, vaddr: nat)

  type Page = seq<Entry>                    // entries[0 .. entry_count]
  type Chain = seq<Page>

  function Hash(paddr: nat): (h: nat)
    ensures h < BUCKETS
  {
    paddr / 0x1000 % BUCKETS
  }

  /** The first entry for `p` in a page, or the page's length. */
  function Position(page: Page, p: nat): (i: nat)
    ensures i <= |page|
  {
    if page == [] || page[0].paddr == p then 0 else 1 + Position(page[1..], p)
  }

  /** What a chain says about `p`: the first entry for it. */
  function Find(chain: Chain, p: nat): Option<nat> {
    if chain == [] then None
    else var i := Position(chain[0], p);
         if i < |chain[0]| then Some(chain[0][i].vaddr) else Find(chain[1..], p)
  }

  function CountIn(page: Page, p: nat): nat {
    if page == [] then 0 else (if page[0].paddr == p then 1 else 0) + CountIn(page[1..], p)
  }

  /** How many entries a chain has for `p`. */
  function Count(chain: Chain, p: nat): nat {
    if chain == [] then 0 else CountIn(chain[0], p) + Count(chain[1..], p)
  }

  /** The first page with room, or the length of the chain. */
  function Room(chain: Chain): (j: nat)
    ensures j <= |chain|
  {
    if chain == [] || |chain[0]| != PAGE_ENTRIES then 0 else 1 + Room(chain[1..])
  }

  function Inserted(chain: Chain, e: Entry): Chain {
    if Room(chain) < |chain| then chain[Room(chain) := chain[Room(chain)] + [e]] else [[e]] + chain
  }

  function Without(page: Page, i: nat): Page {
    if i < |page| then page[..i] + page[i + 1..] else page
  }

  /** The first entry for `p` taken out. */
  function Removed(chain: Chain, p: nat): Chain {
    if chain == [] then []
    else if Position(chain[0], p) < |chain[0]| then [Without(chain[0], Position(chain[0], p))] + chain[1..]
    else [chain[0]] + Removed(chain[1..], p)
  }

  // ----------------------------------------------------------- about one page

  lemma {:induction false} PositionIs(page: Page, p: nat, i: nat)
    requires i <= |page| && (i < |page| ==> page[i].paddr == p)
    requires forall k :: 0 <= k < i ==> page[k].paddr != p
    ensures Position(page, p) == i
  {
    if i > 0 { PositionIs(page[1..], p, i - 1); }
  }

  lemma {:induction false} PositionHolds(page: Page, p: nat)
    ensures Position(page, p) < |page| ==> page[Position(page, p)].paddr == p
    ensures CountIn(page, p) == 0 <==> Position(page, p) == |page|
  {
    if page != [] { PositionHolds(page[1..], p); }
  }

  lemma {:induction false} CountInConcat(a: Page, b: Page, p: nat)
    ensures CountIn(a + b, p) == CountIn(a, p) + CountIn(b, p)
  {
    if a == [] { assert a + b == b; }
    else {
      assert (a + b)[1..] == a[1..] + b;
      CountInConcat(a[1..], b, p);
    }
  }

  lemma {:induction false} PositionAppend(page: Page, e: Entry, p: nat)
    ensures Position(page + [e], p) ==
            if Position(page, p) < |page| then Position(page, p) else if e.paddr == p then |page| else |page| + 1
  {
    if page != [] {
      assert (page + [e])[1..] == page[1..] + [e];
      PositionAppend(page[1..], e, p);
    }
  }

  lemma {:induction false} WithoutOther(page: Page, i: nat, q: nat)
    requires i < |page| && page[i].paddr != q
    ensures var r := Without(page, i); var k := Position(page, q); var k' := Position(r, q);
            && (k < |page| <==> k' < |r|) && (k < |page| ==> r[k'] == page[k])
  {
    var r := Without(page, i);
    if i == 0 {
      assert r == page[1..];
    } else {
      assert r[1..] == Without(page[1..], i - 1);
      if page[0].paddr != q { WithoutOther(page[1..], i - 1, q); }
    }
  }

  lemma WithoutCount(page: Page, i: nat, p: nat)
    requires i < |page|
    ensures CountIn(Without(page, i), p) == CountIn(page, p) - (if page[i].paddr == p then 1 else 0)
  {
    assert page == page[..i] + [page[i]] + page[i + 1..];
    CountInConcat(page[..i], [page[i]], p);
    CountInConcat(page[..i] + [page[i]], page[i + 1..], p);
    CountInConcat(page[..i], page[i + 1..], p);
    assert CountIn([page[i]], p) == if page[i].paddr == p then 1 else 0;
  }

  // --------------------------------------------------------------- one chain

  lemma {:induction false} FindCount(chain: Chain, p: nat)
    ensures Find(chain, p).Some? <==> Count(chain, p) > 0
  {
    if chain != [] {
      PositionHolds(chain[0], p);
      FindCount(chain[1..], p);
    }
  }

  /** Growing page j by one entry: other keys notice nothing, and the new entry
      counts for its own unless an earlier one is found first. */
  lemma {:induction false} AppendFind(chain: Chain, j: nat, e: Entry, q: nat)
    requires j < |chain|
    ensures var r := chain[j := chain[j] + [e]];
            && Count(r, q) == Count(chain, q) + (if e.paddr == q then 1 else 0)
            && Find(r, q) == (if e.paddr == q && Find(chain[..j + 1], q).None? then Some(e.vaddr) else Find(chain, q))
  {
    var r := chain[j := chain[j] + [e]];
    assert chain[..j + 1][0] == chain[0] && chain[..j + 1][1..] == chain[1..][..j];
    if j == 0 {
      PositionAppend(chain[0], e, q);
      CountInConcat(chain[0], [e], q);
      assert CountIn([e], q) == if e.paddr == q then 1 else 0;
      assert r[1..] == chain[1..];
    } else {
      assert r[1..] == chain[1..][j - 1 := chain[1..][j - 1] + [e]];
      AppendFind(chain[1..], j - 1, e, q);
    }
  }

  /** Entering a key disturbs no other; a key entered twice translates to the newer
      address exactly when no page up to the one that had room knows it. */
  lemma InsertedFind(chain: Chain, e: Entry, q: nat)
    ensures Count(Inserted(chain, e), q) == Count(chain, q) + (if e.paddr == q then 1 else 0)
    ensures q != e.paddr ==> Find(Inserted(chain, e), q) == Find(chain, q)
    ensures Find(Inserted(chain, e), e.paddr) ==
            var early := Find(chain[..if Room(chain) < |chain| then Room(chain) + 1 else 0], e.paddr);
            if early.None? then Some(e.vaddr) else Find(chain, e.paddr)
  {
    var j := Room(chain);
    if j < |chain| {
      AppendFind(chain, j, e, q);
      AppendFind(chain, j, e, e.paddr);
    } else {
      var r := [[e]] + chain;
      assert r[0] == [e] && r[1..] == chain;
      assert CountIn([e], q) == if e.paddr == q then 1 else 0;
      PositionIs([e], e.paddr, 0);
      if q != e.paddr { PositionIs([e], q, 1); }
    }
  }

  lemma {:induction false} PrefixFind(chain: Chain, j: nat, p: nat)
    requires j <= |chain| && Find(chain, p).None?
    ensures Find(chain[..j], p).None?
  {
    if j > 0 {
      assert chain[..j][0] == chain[0] && chain[..j][1..] == chain[1..][..j - 1];
      PrefixFind(chain[1..], j - 1, p);
    }
  }

  /** Taking out an entry disturbs no other key. */
  lemma {:induction false} RemovedFind(chain: Chain, p: nat, q: nat)
    ensures Count(Removed(chain, p), q) == Count(chain, q) - (if p == q && Count(chain, p) > 0 then 1 else 0)
    ensures q != p ==> Find(Removed(chain, p), q) == Find(chain, q)
  {
    if chain != [] {
      var i, r := Position(chain[0], p), Removed(chain, p);
      PositionHolds(chain[0], p);
      if i < |chain[0]| {
        assert r[0] == Without(chain[0], i) && r[1..] == chain[1..];
        WithoutCount(chain[0], i, q);
        if q != p { WithoutOther(chain[0], i, q); }
      } else {
        assert r[0] == chain[0] && r[1..] == Removed(chain[1..], p);
        RemovedFind(chain[1..], p, q);
      }
    }
  }

  lemma {:induction false} FirstThere(chain: Chain, j: nat, p: nat)
    requires j < |chain| && Position(chain[j], p) < |chain[j]|
    requires forall k :: 0 <= k < j ==> Position(chain[k], p) == |chain[k]|
    ensures var i := Position(chain[j], p);
            Find(chain, p) == Some(chain[j][i].vaddr) && Removed(chain, p) == chain[j := Without(chain[j], i)]
  {
    if j > 0 { FirstThere(chain[1..], j - 1, p); }
  }

  lemma {:induction false} NotThere(chain: Chain, p: nat)
    requires forall k :: 0 <= k < |chain| ==> Position(chain[k], p) == |chain[k]|
    ensures Find(chain, p) == None && Removed(chain, p) == chain && Count(chain, p) == 0
  {
    if chain != [] {
      PositionHolds(chain[0], p);
      NotThere(chain[1..], p);
    }
  }

  // ---------------------------------------------------------------- all of it

  type Table = s: seq<Chain> | |s| == BUCKETS witness seq(BUCKETS, _ => [[]])

  function Translated(t: Table, p: nat): Option<nat> {
    Find(t[Hash(p)], p)
  }

  function Mapped(t: Table, p: nat, v: nat): Table {
    t[Hash(p) := Inserted(t[Hash(p)], Entry(p, v))]
  }

  function Unmapped(t: Table, p: nat): Table {
    t[Hash(p) := Removed(t[Hash(p)], p)]
  }

  /** Every entry in its own bucket, every key once, every page within bounds. */
  ghost predicate Proper(t: Table) {
    forall h, p :: 0 <= h < BUCKETS ==> Count(t[h], p) <= (if Hash(p) == h then 1 else 0)
  }

  predicate Bounded(chain: Chain) {
    chain != [] && forall j :: 0 <= j < |chain| ==> |chain[j]| <= PAGE_ENTRIES
  }

  lemma InsertedBounded(chain: Chain, e: Entry)
    requires Bounded(chain)
    ensures Bounded(Inserted(chain, e))
  {
    RoomHas(chain);
  }

  lemma {:induction false} RoomHas(chain: Chain)
    ensures Room(chain) < |chain| ==> |chain[Room(chain)]| != PAGE_ENTRIES
    ensures forall k :: 0 <= k < Room(chain) ==> |chain[k]| == PAGE_ENTRIES
  {
    if chain != [] {
      RoomHas(chain[1..]);
    }
  }

  lemma {:induction false} RemovedBounded(chain: Chain, p: nat)
    requires forall j :: 0 <= j < |chain| ==> |chain[j]| <= PAGE_ENTRIES
    ensures |Removed(chain, p)| == |chain| && forall j :: 0 <= j < |chain| ==> |Removed(chain, p)[j]| <= PAGE_ENTRIES
  {
    if chain != [] { RemovedBounded(chain[1..], p); }
  }

  datatype Op = Map(paddr: nat, vaddr: nat) | Unmap(paddr: nat)

  function Apply(t: Table, op: Op): Table {
    match op
    case Map(p, v) => Mapped(t, p, v)
    case Unmap(p) => Unmapped(t, p)
  }

  function Simple(m: map<nat, nat>, op: Op): map<nat, nat> {
    match op
    case Map(p, v) => m[p := v]
    case Unmap(p) => m - {p}
  }

  /** The index holds exactly what a finite map would. */
  ghost predicate Holds(t: Table, m: map<nat, nat>) {
    Proper(t) && forall p: nat :: Translated(t, p) == if p in m then Some(m[p]) else None
  }

  /** One operation on keys entered at most once keeps the index and the map
      together. */
  lemma StepHolds(t: Table, m: map<nat, nat>, op: Op)
    requires Holds(t, m) && (op.Map? ==> op.paddr !in m)
    ensures Holds(Apply(t, op), Simple(m, op))
  {
    hide Find, Count, Inserted, Removed;
    var p, h := op.paddr, Hash(op.paddr);
    var next := Apply(t, op);
    FindCount(t[h], p);
    assert Translated(t, p) == if p in m then Some(m[p]) else None;
    forall q: nat ensures Translated(next, q) == if q in Simple(m, op) then Some(Simple(m, op)[q]) else None {
      assert Translated(t, q) == if q in m then Some(m[q]) else None;
      if Hash(q) == h { StepFind(t, op, q); }
    }
    forall g, q | 0 <= g < BUCKETS ensures Count(next[g], q) <= (if Hash(q) == g then 1 else 0) {
      assert Count(t[g], q) <= (if Hash(q) == g then 1 else 0);
      if g == h { StepFind(t, op, q); }
    }
  }

  lemma StepFind(t: Table, op: Op, q: nat)
    requires Proper(t) && (op.Map? ==> Translated(t, op.paddr).None?)
    ensures var h := Hash(op.paddr); var r := Apply(t, op)[h];
            && Count(r, q) == (if q != op.paddr then Count(t[h], q) else if op.Map? then 1 else 0)
            && Find(r, q) == (if q != op.paddr then Find(t[h], q) else if op.Map? then Some(op.vaddr) else None)
  {
    hide Inserted, Removed, Find, Count, Room;
    var h := Hash(op.paddr);
    var chain := t[h];
    FindCount(chain, op.paddr);
    assert Count(chain, op.paddr) <= 1;
    if op.Map? {
      var e := Entry(op.paddr, op.vaddr);
      InsertedFind(chain, e, q);
      PrefixFind(chain, if Room(chain) < |chain| then Room(chain) + 1 else 0, op.paddr);
    } else {
      RemovedFind(chain, op.paddr, q);
      FindCount(Removed(chain, op.paddr), q);
    }
  }

  function Fresh(): (t: Table)
    ensures forall h :: 0 <= h < BUCKETS ==> t[h] == [[]]
  {
    seq(BUCKETS, _ => [[]])
  }

  function After(ops: seq<Op>): Table {
    if ops == [] then Fresh() else Apply(After(ops[..|ops| - 1]), ops[|ops| - 1])
  }

  function SimpleAfter(ops: seq<Op>): map<nat, nat> {
    if ops == [] then map[] else Simple(SimpleAfter(ops[..|ops| - 1]), ops[|ops| - 1])
  }

  /** No key is entered while it is there. */
  predicate Distinct(ops: seq<Op>) {
    || ops == []
    || (&& Distinct(ops[..|ops| - 1])
        && (ops[|ops| - 1].Map? ==> ops[|ops| - 1].paddr !in SimpleAfter(ops[..|ops| - 1])))
  }

  /** Any run over distinct live keys: the index is the finite map, each entry once
      in its own bucket. */
  lemma {:induction false} RunHolds(ops: seq<Op>)
    requires Distinct(ops)
    ensures Holds(After(ops), SimpleAfter(ops))
  {
    if ops == [] {
      forall h, p: nat | 0 <= h < BUCKETS ensures Count(Fresh()[h], p) == 0 && Find(Fresh()[h], p) == None {
        NotThere(Fresh()[h], p);
      }
    } else {
      RunHolds(ops[..|ops| - 1]);
      StepHolds(After(ops[..|ops| - 1]), SimpleAfter(ops[..|ops| - 1]), ops[|ops| - 1]);
    }
  }

  // ------------------------------------------------------------- the real thing

  class Index {
    const roots: array<Chain>

    ghost predicate Valid()
      reads this, roots
    {
      roots.Length == BUCKETS && forall h :: 0 <= h < BUCKETS ==> Bounded(roots[h])
    }

    /** paging_tmap_init: one empty page to a bucket. */
    constructor ()
      ensures Valid() && fresh(roots) && roots[..] == Fresh()
    {
      roots := new Chain[BUCKETS](_ => [[]]);
    }

    /** paging_tmap_map */
    method Map(paddr: nat, vaddr: nat)
      requires Valid()
      modifies roots
      ensures Valid() && roots[..] == Mapped(old(roots[..]), paddr, vaddr)
    {
      var h := Hash(paddr);
      var chain := roots[h];
      InsertedBounded(chain, Entry(paddr, vaddr));
      var j := 0;
      while j < |chain|
        invariant j <= |chain| && Room(chain) >= j && roots[..] == old(roots[..])
      {
        RoomFrom(chain, j);
        if |chain[j]| != PAGE_ENTRIES {
          roots[h] := chain[j := chain[j] + [Entry(paddr, vaddr)]];
          return;
        }
        j := j + 1;
      }
      roots[h] := [[Entry(paddr, vaddr)]] + chain;
    }

    /** paging_tmap_unmap */
    method Unmap(paddr: nat) returns (ok: bool)
      requires Valid()
      modifies roots
      ensures Valid() && ok == Translated(old(roots[..]), paddr).Some?
      ensures roots[..] == Unmapped(old(roots[..]), paddr)
    {
      var h := Hash(paddr);
      var chain := roots[h];
      RemovedBounded(chain, paddr);
      var j := 0;
      while j < |chain|
        invariant j <= |chain| && roots[..] == old(roots[..])
        invariant forall k :: 0 <= k < j ==> Position(chain[k], paddr) == |chain[k]|
      {
        var i := Search(chain[j], paddr);
        if i < |chain[j]| {
          FirstThere(chain, j, paddr);
          var page := ShiftLeft(chain[j], i);
          roots[h] := chain[j := page];
          return true;
        }
        j := j + 1;
      }
      NotThere(chain, paddr);
      assert roots[..] == Unmapped(old(roots[..]), paddr);
      return false;
    }

    /** paging_tmap_translate */
    method Translate(paddr: nat) returns (r: Option<nat>)
      requires Valid()
      ensures r == Translated(roots[..], paddr)
    {
      var chain := roots[Hash(paddr)];
      var j := 0;
      while j < |chain|
        invariant j <= |chain| && forall k :: 0 <= k < j ==> Position(chain[k], paddr) == |chain[k]|
      {
        var i := Search(chain[j], paddr);
        if i < |chain[j]| {
          FirstThere(chain, j, paddr);
          return Some(chain[j][i].vaddr);
        }
        j := j + 1;
      }
      NotThere(chain, paddr);
      return None;
    }
  }

  method Search(page: Page, p: nat) returns (i: nat)
    ensures i == Position(page, p)
  {
    i := 0;
    while i < |page|
      invariant i <= |page| && forall k :: 0 <= k < i ==> page[k].paddr != p
    {
      if page[i].paddr == p { break; }
      i := i + 1;
    }
    PositionIs(page, p, i);
  }

  /** The entries behind entry i moved down over it. */
  method ShiftLeft(page: Page, i: nat) returns (r: Page)
    requires i < |page|
    ensures r == Without(page, i)
  {
    r := page;
    for j := i + 1 to |page|
      invariant |r| == |page| && r[..j - 1] == Without(page, i)[..j - 1] && r[j..] == page[j..]
    {
      r := r[j - 1 := r[j]];
    }
    r := r[..|page| - 1];
  }

  lemma {:induction false} RoomFrom(chain: Chain, j: nat)
    requires j < |chain| && Room(chain) >= j
    ensures Room(chain) == j <==> |chain[j]| != PAGE_ENTRIES
  {
    if j > 0 { RoomFrom(chain[1..], j - 1); }
  }
}
