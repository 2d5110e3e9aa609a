/** Mapping and unmapping runs of pages in one tree of page tables. */
module Mapper {
  import opened Wrappers
  import opened PageTables

  datatype Outcome = Done | AlreadyMapped | OutOfTables
  datatype UnmapResult = Cleared | NotMapped | NullTable

  type Flat = map<nat, Leaf>

  /** The slot of page k of a run that begins at page number v: the walk looks at
      36 bits of the number. */
  function Slot(v: nat, k: nat): (s: nat)
    ensures s < SLOTS
  {
    (v + k) % SLOTS
  }

  /** What page k of a run mapped from `frame` on translates to. */
  function LeafOf(frame: nat, k: nat, rights: Rights): Leaf {
    Leaf((frame + k) % FRAMES, rights)
  }

  /** n pages from page v on, mapped to consecutive frames. */
  function Mapped(flat: Flat, v: nat, frame: nat, rights: Rights, n: nat): Flat {
    if n == 0 then flat else Mapped(flat, v, frame, rights, n - 1)[Slot(v, n - 1) := LeafOf(frame, n - 1, rights)]
  }

  function Unmapped(flat: Flat, v: nat, n: nat): Flat {
    if n == 0 then flat else Unmapped(flat, v, n - 1) - {Slot(v, n - 1)}
  }

  /** None of the n pages is mapped, and none of them is another one. */
  ghost predicate Vacant(flat: Flat, v: nat, n: nat) {
    n <= SLOTS && forall k :: 0 <= k < n ==> Slot(v, k) !in flat
  }

  ghost predicate InRun(v: nat, n: nat, s: nat) {
    exists k :: 0 <= k < n && s == Slot(v, k)
  }

  lemma SlotsDiffer(v: nat, j: nat, k: nat)
    requires j < k < j + SLOTS
    ensures Slot(v, j) != Slot(v, k)
  {
    var a, b := (v + j) / SLOTS, (v + k) / SLOTS;
    assert v + j == a * SLOTS + Slot(v, j) && v + k == b * SLOTS + Slot(v, k);
    assert a == b || a + 1 == b;
  }

  /** The run is there, page for page on consecutive frames with the rights asked for, and
      nothing else has changed. */
  lemma {:induction false} MappedIs(flat: Flat, v: nat, frame: nat, rights: Rights, n: nat, s: nat)
    requires n <= SLOTS
    ensures !InRun(v, n, s) ==> Get(Mapped(flat, v, frame, rights, n), s) == Get(flat, s)
    ensures forall k :: 0 <= k < n ==>
              && Slot(v, k) == (v + k) % SLOTS
              && Get(Mapped(flat, v, frame, rights, n), Slot(v, k)) == Some(Leaf((frame + k) % FRAMES, rights))
  {
    if n > 0 {
      MappedIs(flat, v, frame, rights, n - 1, s);
      assert !InRun(v, n, s) ==> s != Slot(v, n - 1) && !InRun(v, n - 1, s);
      forall k | 0 <= k < n
        ensures Get(Mapped(flat, v, frame, rights, n), Slot(v, k)) == Some(LeafOf(frame, k, rights))
      {
        if k < n - 1 { SlotsDiffer(v, k, n - 1); }
      }
    }
  }

  lemma {:induction false} UnmappedIs(flat: Flat, v: nat, n: nat, s: nat)
    ensures s in Unmapped(flat, v, n) <==> s in flat && !InRun(v, n, s)
    ensures s in Unmapped(flat, v, n) ==> Unmapped(flat, v, n)[s] == flat[s]
  {
    if n > 0 {
      UnmappedIs(flat, v, n - 1, s);
      assert InRun(v, n, s) <==> InRun(v, n - 1, s) || s == Slot(v, n - 1) by {
        if k :| 0 <= k < n && s == Slot(v, k) { assert k < n - 1 ==> InRun(v, n - 1, s); }
      }
    }
  }

  /** Unmapping what was mapped over vacant pages restores every translation. */
  lemma MapThenUnmap(flat: Flat, v: nat, frame: nat, rights: Rights, n: nat)
    requires Vacant(flat, v, n)
    ensures Unmapped(Mapped(flat, v, frame, rights, n), v, n) == flat
  {
    var there := Mapped(flat, v, frame, rights, n);
    forall s ensures Get(Unmapped(there, v, n), s) == Get(flat, s) {
      MappedIs(flat, v, frame, rights, n, s);
      UnmappedIs(there, v, n, s);
      if InRun(v, n, s) { var k :| 0 <= k < n && s == Slot(v, k); }
    }
    var back := Unmapped(there, v, n);
    forall s ensures (s in back <==> s in flat) && (s in back ==> back[s] == flat[s]) {
      assert Get(back, s) == Get(flat, s);
    }
  }

  /** The page of a run that a further page would collide with. */
  lemma MappedTaken(flat: Flat, v: nat, frame: nat, rights: Rights, n: nat)
    ensures (forall s :: s in Mapped(flat, v, frame, rights, n) <==> s in flat || InRun(v, n, s))
  {
    if n > 0 {
      MappedTaken(flat, v, frame, rights, n - 1);
      forall s ensures s in Mapped(flat, v, frame, rights, n) <==> s in flat || InRun(v, n, s) {
        assert InRun(v, n, s) <==> InRun(v, n - 1, s) || s == Slot(v, n - 1) by {
          if k :| 0 <= k < n && s == Slot(v, k) { assert k < n - 1 ==> InRun(v, n - 1, s); }
        }
      }
    }
  }

  /** A step of the mapping loop: the next page is vacant exactly when it was so
      before and is none of the pages done. */
  lemma VacantStep(flat: Flat, v: nat, frame: nat, rights: Rights, n: nat)
    requires Vacant(flat, v, n)
    ensures Slot(v, n) !in Mapped(flat, v, frame, rights, n) <==> Vacant(flat, v, n + 1)
  {
    hide Mapped, Slot;
    MappedTaken(flat, v, frame, rights, n);
    if n == SLOTS {
      SlotAgain(v);
      assert InRun(v, n, Slot(v, 0));
    } else if InRun(v, n, Slot(v, n)) {
      var k :| 0 <= k < n && Slot(v, n) == Slot(v, k);
      SlotsDiffer(v, k, n);
      assert false;
    }
  }

  lemma SlotAgain(v: nat)
    ensures Slot(v, SLOTS) == Slot(v, 0)
  {
  }

  class AddressSpace {
    var tables: Tables
    const root: nat
    var supply: seq<nat>                  // page-table frames not yet handed out
    ghost var place: map<nat, Place>
    ghost var flat: Flat

    ghost predicate Valid()
      reads this
    {
      && Tree(tables, root, place) && Translates(tables, root, flat)
      && Supply(supply, tables)
    }

    /** The page table of slot s exists, mapped or not. */
    ghost predicate HasTables(s: nat)
      reads this
    {
      Bottom(tables, root, 3, s).Some?
    }

    constructor (root: nat, supply: seq<nat>)
      requires root != 0 && Supply(supply, map[root := Zeroed()])
      ensures Valid() && flat == map[] && this.root == root && this.supply == supply && tables == map[root := Zeroed()]
    {
      this.root := root;
      this.supply := supply;
      tables := map[root := Zeroed()];
      place := map[root := Place(3, 0)];
      flat := map[];
    }

    /** One of the three like steps of paging_map_single: the table below entry i
        of t, made if it is not there. */
    method Descend(t: nat, i: nat, ghost level: nat, ghost s: nat) returns (r: Option<nat>, made: seq<nat>)
      requires Valid() && OnWay(place, t, level, s) && 0 < level && i == Index(s, level)
      modifies this`tables, this`supply, this`place
      ensures Valid() && Grown(old(tables), old(place), old(supply), tables, place, supply, made)
      ensures forall u :: u in old(tables) && u != t ==> u in tables && tables[u] == old(tables)[u]
      ensures old(EntryFor(tables, t, level, s)).present ==> made == [] && tables == old(tables)
      ensures r.None? ==> supply == [] && !EntryFor(tables, t, level, s).present
      ensures r.Some? ==> OnWay(place, r.value, level - 1, s) && EntryFor(tables, t, level, s).present
                          && EntryFor(tables, t, level, s).frame == r.value
      ensures forall s' :: 0 <= s' < SLOTS && old(HasTables(s')) ==> HasTables(s')
      ensures forall u, l :: OnWay(old(place), u, l, s) ==> OnWay(place, u, l, s)
    {
      hide Tree, Translates, Above, Walk, Bottom, Link, Grown, PlaceUnder;
      GrownNone(tables, place, supply);
      WayIn(tables, root, place, t, level, s);
      made := [];
      if !tables[t][i].present {
        if supply == [] {
          return None, made;
        }
        var c := supply[0];
        made := [c];
        LinkTree(tables, root, place, t, i, c);
        LinkTranslates(tables, root, place, flat, t, i, c);
        ghost var before, placeBefore := tables, place;
        GrownLink(tables, place, supply, t, i);
        LinkOnWay(place, t, i, c, level, s);
        LinkFacts(tables, t, i, c, level, s);
        place := PlaceUnder(place, t, i, c);
        tables := tables[c := Zeroed()];
        tables := tables[t := tables[t][i := Entry(true, c, Open)]];
        LinkIs(before, t, i, c);
        supply := supply[1..];
        r := Some(c);
        forall s' | 0 <= s' < SLOTS && Bottom(before, root, 3, s').Some? ensures Bottom(tables, root, 3, s').Some? {
          RootOnWay(before, root, placeBefore, s');
          LinkWalk(before, root, placeBefore, t, i, c, root, 3, s');
        }
      } else {
        DownOnWay(tables, root, place, t, level, s);
        r := Some(tables[t][i].frame);
        // the translation map knows the table, so error 0x601 is never raised
        WayIn(tables, root, place, r.value, level - 1, s);
      }
    }

    /** The first two of the three steps down: the page directory of a page. */
    method FindDirectory(page: nat, ghost v: nat, ghost k: nat) returns (r: Option<nat>, made: seq<nat>)
      requires Valid() && page == v + k
      modifies this`tables, this`supply, this`place
      ensures Valid() && Grown(old(tables), old(place), old(supply), tables, place, supply, made)
      ensures forall s :: 0 <= s < SLOTS && old(HasTables(s)) ==> HasTables(s)
      ensures old(HasTables(Slot(v, k))) ==> r.Some? && made == [] && tables == old(tables)
      ensures r.None? ==> supply == [] && Slot(v, k) !in flat
      ensures r.Some? ==> Reaches(tables, root, place, Slot(v, k), r.value)
    {
      hide Tree, Translates, Above, Walk, Bottom, OnWay, EntryFor, Supply, Grown, Index, Slot;
      ghost var s, t0, p0, s0 := Slot(v, k), tables, place, supply;
      Indices(v, k);
      RootOnWay(tables, root, place, s);
      WayIn(tables, root, place, root, 3, s);
      WalkVia(tables, root, 3, s);
      var pdpt, made3 := Descend(root, page / 0x800_0000 % 0x200, 3, s);
      made := made3;
      WalkVia(tables, root, 3, s);
      WalkFlat(tables, root, flat, s);
      if pdpt.None? { return None, made; }
      ghost var t1, p1, s1 := tables, place, supply;
      WalkVia(tables, pdpt.value, 2, s);
      WayIn(tables, root, place, root, 3, s);
      WayIn(tables, root, place, pdpt.value, 2, s);
      r, made := Descend(pdpt.value, page / 0x4_0000 % 0x200, 2, s);
      GrownTwice(t0, p0, s0, t1, p1, s1, made3, tables, place, supply, made);
      made := made + made3;
      EntrySame(t1, tables, root, 3, s);
      WalkVia(tables, root, 3, s);
      WalkVia(tables, pdpt.value, 2, s);
      WalkFlat(tables, root, flat, s);
    }

    /** The way down to the page table of a page, tables made where they lack. */
    method FindTable(page: nat, ghost v: nat, ghost k: nat) returns (r: Option<nat>, made: seq<nat>)
      requires Valid() && page == v + k
      modifies this`tables, this`supply, this`place
      ensures Valid() && Grown(old(tables), old(place), old(supply), tables, place, supply, made)
      ensures forall s :: 0 <= s < SLOTS && old(HasTables(s)) ==> HasTables(s)
      ensures old(HasTables(Slot(v, k))) ==> made == []
      ensures r.None? ==> supply == [] && Slot(v, k) !in flat
      ensures r.Some? ==> OnWay(place, r.value, 0, Slot(v, k)) && Bottom(tables, root, 3, Slot(v, k)) == r
    {
      hide Tree, Translates, Above, Walk, Bottom, OnWay, EntryFor, Supply, Grown, Index, Slot, Reaches;
      ghost var s, t0, p0, s0 := Slot(v, k), tables, place, supply;
      var pdt, made2 := FindDirectory(page, v, k);
      if pdt.None? { return None, made2; }
      ghost var t1, p1, s1 := tables, place, supply;
      Indices(v, k);
      ReachFacts(tables, root, place, s, pdt.value);
      WalkVia(tables, pdt.value, 1, s);
      r, made := Descend(pdt.value, page / 0x200 % 0x200, 1, s);
      GrownTwice(t0, p0, s0, t1, p1, s1, made2, tables, place, supply, made);
      made := made + made2;
      ReachKept(t1, p1, tables, place, root, s, pdt.value);
      ReachFacts(tables, root, place, s, pdt.value);
      WalkVia(tables, pdt.value, 1, s);
      WalkFlat(tables, root, flat, s);
      if r.Some? { BottomHere(tables, root, place, r.value, s); }
    }

    /** paging_map_single */
    method MapSingle(page: nat, frame: nat, rights: Rights, ghost v: nat, ghost k: nat)
      returns (r: Outcome, made: seq<nat>)
      requires Valid() && page == v + k
      modifies this
      ensures Valid() && Grown(old(tables), old(place), old(supply), tables, place, supply, made)
      ensures forall s :: 0 <= s < SLOTS && old(HasTables(s)) ==> HasTables(s)
      ensures r.AlreadyMapped? <==> Slot(v, k) in old(flat)
      ensures r.AlreadyMapped? ==> made == []
      ensures r.OutOfTables? ==> supply == []
      ensures r.Done? ==> flat == old(flat)[Slot(v, k) := Leaf(frame % FRAMES, rights)] && HasTables(Slot(v, k))
      ensures !r.Done? ==> flat == old(flat)
    {
      hide Tree, Translates, Above, Walk, Bottom, OnWay, EntryFor, Supply, Grown, Index, Slot;
      ghost var s := Slot(v, k);
      var pt;
      pt, made := FindTable(page, v, k);
      if pt.None? {
        return OutOfTables, made;
      }
      Indices(v, k);
      LeafEntry(tables, root, place, flat, s);
      MappedHasTables(old(tables), root, flat, s);
      if tables[pt.value][page % 0x200].present {
        return AlreadyMapped, made;
      }
      WayIn(tables, root, place, pt.value, 0, s);
      ghost var t1 := tables;
      SetLeaf(pt.value, page % 0x200, Entry(true, frame % FRAMES, rights), s);
      assert tables == t1[pt.value := tables[pt.value]];
      GrownPut(old(tables), old(place), old(supply), t1, place, supply, made, pt.value, tables[pt.value]);
      return Done, made;
    }

    /** paging_map_ex: page v + k goes to frame + k for every k < n, and nothing else
        is translated differently. It stops at the first page already mapped. The
        page tables made are recorded, each once. */
    method MapPages(v: nat, frame: nat, n: nat, rights: Rights)
      returns (r: Outcome, allocations: seq<nat>, ghost done: nat)
      requires Valid()
      modifies this
      ensures Valid() && done <= n && flat == Mapped(old(flat), v, frame, rights, done)
      ensures r.Done? <==> done == n
      ensures Vacant(old(flat), v, done)
      ensures r.AlreadyMapped? ==> !Vacant(old(flat), v, done + 1)
      ensures r.OutOfTables? ==> supply == []
      ensures !r.OutOfTables? ==> Grown(old(tables), old(place), old(supply), tables, place, supply, allocations)
      ensures forall k :: 0 <= k < done ==> HasTables(Slot(v, k))
      ensures forall s :: 0 <= s < SLOTS && old(HasTables(s)) ==> HasTables(s)
    {
      hide Tree, Translates, Above, Walk, Bottom, OnWay, EntryFor, Supply, Grown, Index, Slot, Vacant;
      var capacity := 1;
      allocations := [];
      GrownNone(tables, place, supply);
      VacantNone(flat, v);
      var currentFrame, currentPage := frame, v;
      var i := 0;
      while i < n
        invariant i <= n && currentFrame == frame + i && currentPage == v + i && |allocations| < capacity
        invariant Valid() && flat == Mapped(old(flat), v, frame, rights, i) && Vacant(old(flat), v, i)
        invariant Grown(old(tables), old(place), old(supply), tables, place, supply, allocations)
        invariant forall k :: 0 <= k < i ==> HasTables(Slot(v, k))
        invariant forall s :: 0 <= s < SLOTS && old(HasTables(s)) ==> HasTables(s)
      {
        VacantStep(old(flat), v, frame, rights, i);
        ghost var t1, p1, s1 := tables, place, supply;
        var made;
        r, made := MapSingle(currentPage, currentFrame, rights, v, i);
        GrownTwice(old(tables), old(place), old(supply), t1, p1, s1, allocations, tables, place, supply, made);
        if !r.Done? {
          assert r.AlreadyMapped? ==> made + allocations == allocations;
          return r, allocations, i;
        }
        GrownOrder(old(tables), old(place), old(supply), tables, place, supply, made, allocations);
        allocations, capacity := AddAllocations(allocations, made, capacity);
        currentFrame, currentPage := currentFrame + 1, currentPage + 1;
        i := i + 1;
      }
      return Done, allocations, n;
    }

    /** paging_unmap_single. Where a table on the way is missing the original reads
        through the null pointer it gets for it (`NullTable`). */
    method UnmapSingle(page: nat, ghost v: nat, ghost k: nat) returns (r: UnmapResult)
      requires Valid() && page == v + k
      modifies this`tables, this`flat
      ensures Valid() && flat == old(flat) - {Slot(v, k)}
      ensures r.Cleared? <==> Slot(v, k) in old(flat)
      ensures r.NullTable? <==> !old(HasTables(Slot(v, k)))
      ensures !r.Cleared? ==> tables == old(tables)
      ensures tables.Keys == old(tables).Keys
      ensures forall u :: u in old(tables) && u !in place ==> tables[u] == old(tables)[u]
      ensures forall s :: 0 <= s < SLOTS ==> HasTables(s) == old(HasTables(s))
    {
      hide Tree, Translates, Above, Walk, Bottom, OnWay, Supply, Index, Slot;
      ghost var s := Slot(v, k);
      MappedHasTables(tables, root, flat, s);
      Indices(v, k);
      RootOnWay(tables, root, place, s);
      WayIn(tables, root, place, root, 3, s);
      WalkVia(tables, root, 3, s);
      NowhereDown(tables, root, place, root, 3, s);
      var pdpt := tables[root][page / 0x800_0000 % 0x200].frame;
      assert s !in flat ==> flat == flat - {s};
      if pdpt !in tables { return NullTable; }
      DownOnWay(tables, root, place, root, 3, s);
      WayIn(tables, root, place, pdpt, 2, s);
      WalkVia(tables, pdpt, 2, s);
      NowhereDown(tables, root, place, pdpt, 2, s);
      var pdt := tables[pdpt][page / 0x4_0000 % 0x200].frame;
      if pdt !in tables { return NullTable; }
      DownOnWay(tables, root, place, pdpt, 2, s);
      WayIn(tables, root, place, pdt, 1, s);
      WalkVia(tables, pdt, 1, s);
      NowhereDown(tables, root, place, pdt, 1, s);
      var pt := tables[pdt][page / 0x200 % 0x200].frame;
      if pt !in tables { return NullTable; }
      DownOnWay(tables, root, place, pdt, 1, s);
      BottomHere(tables, root, place, pt, s);
      LeafEntry(tables, root, place, flat, s);
      if !tables[pt][page % 0x200].present {
        return NotMapped;
      }
      SetLeaf(pt, page % 0x200, tables[pt][page % 0x200].(present := false), s);
      return Cleared;
    }

    /** paging_unmap: exactly those n pages are no longer translated, up to the first
        whose tables are missing, where the original would not go on. */
    method UnmapPages(v: nat, n: nat) returns (ok: bool, ghost done: nat)
      requires Valid()
      modifies this`tables, this`flat
      ensures Valid() && done <= n && (ok <==> done == n) && flat == Unmapped(old(flat), v, done)
      ensures forall k :: 0 <= k < done ==> old(HasTables(Slot(v, k)))
      ensures done < n ==> !old(HasTables(Slot(v, done)))
      ensures tables.Keys == old(tables).Keys
      ensures forall u :: u in old(tables) && u !in place ==> tables[u] == old(tables)[u]
      ensures forall s :: 0 <= s < SLOTS ==> HasTables(s) == old(HasTables(s))
    {
      hide Tree, Translates, Bottom, Supply, Slot;
      var i := 0;
      while i < n
        invariant i <= n && Valid() && flat == Unmapped(old(flat), v, i)
        invariant forall k :: 0 <= k < i ==> old(HasTables(Slot(v, k)))
        invariant tables.Keys == old(tables).Keys
        invariant forall u :: u in old(tables) && u !in place ==> tables[u] == old(tables)[u]
        invariant forall s :: 0 <= s < SLOTS ==> HasTables(s) == old(HasTables(s))
      {
        assert HasTables(Slot(v, i)) == old(HasTables(Slot(v, i)));
        var r := UnmapSingle(v + i, v, i);
        if r.NullTable? {
          MappedHasTables(tables, root, flat, Slot(v, i));
          return false, i;
        }
        i := i + 1;
      }
      return true, n;
    }

    /** The entry of slot s written in its page table. */
    method SetLeaf(t: nat, i: nat, e: Entry, ghost s: nat)
      requires Valid() && s < SLOTS && Bottom(tables, root, 3, s) == Some(t) && i == Index(s, 0)
      modifies this`tables, this`flat
      ensures Valid() && flat == (if e.present then old(flat)[s := Leaf(e.frame, e.rights)] else old(flat) - {s})
      ensures tables.Keys == old(tables).Keys && t in tables && t in place
      ensures forall u :: u in old(tables) && u != t ==> tables[u] == old(tables)[u]
      ensures forall s' :: 0 <= s' < SLOTS ==> HasTables(s') == old(HasTables(s'))
    {
      hide Tree, Translates, Above, Walk, Bottom, OnWay, EntryFor, Index;
      ghost var before := tables;
      LeafEntry(tables, root, place, flat, s);
      WayIn(tables, root, place, t, 0, s);
      PutLeafTree(tables, root, place, t, i, e);
      PutLeafTranslates(tables, root, place, flat, s, t, e);
      tables := tables[t := tables[t][i := e]];
      flat := if e.present then flat[s := Leaf(e.frame, e.rights)] else flat - {s};
      forall s' | 0 <= s' < SLOTS ensures Bottom(tables, root, 3, s').Some? == Bottom(before, root, 3, s').Some? {
        RootOnWay(before, root, place, s');
        PutLeafWalk(before, root, place, s, t, e, root, 3, s');
      }
    }
  }

  /** add_allocation for each table made: the buffer is doubled as soon as it is
      full, so there is always room for one more. */
  method AddAllocations(allocations: seq<nat>, made: seq<nat>, capacity: nat) returns (r: seq<nat>, capacity': nat)
    requires |allocations| < capacity
    ensures r == allocations + made && |r| < capacity'
  {
    r, capacity' := allocations, capacity;
    for j := 0 to |made|
      invariant r == allocations + made[..j] && |r| < capacity'
    {
      r := r + [made[j]];
      if |r| == capacity' {
        capacity' := capacity' * 2;
      }
    }
  }

  lemma VacantNone(flat: Flat, v: nat)
    ensures Vacant(flat, v, 0)
  {
  }

  lemma MappedHasTables(tables: Tables, root: nat, flat: Flat, s: nat)
    requires Translates(tables, root, flat) && s < SLOTS
    ensures s in flat ==> Bottom(tables, root, 3, s).Some?
  {
    hide Walk, Bottom;
    if s in flat { WalkBottom(tables, root, 3, s); }
  }

  lemma GrownOrder(tables: Tables, place: map<nat, Place>, supply: seq<nat>,
                   tables': Tables, place': map<nat, Place>, supply': seq<nat>, a: seq<nat>, b: seq<nat>)
    requires Grown(tables, place, supply, tables', place', supply', a + b)
    ensures Grown(tables, place, supply, tables', place', supply', b + a)
  {
    assert multiset(a + b) == multiset(b + a);
    assert SetOf(a + b) == SetOf(b + a);
  }

  /** Page directory d is two steps below the root on the way of s. */
  ghost predicate Reaches(tables: Tables, root: nat, place: map<nat, Place>, s: nat, d: nat) {
    && OnWay(place, d, 1, s) && EntryFor(tables, root, 3, s).present
    && OnWay(place, EntryFor(tables, root, 3, s).frame, 2, s)
    && EntryFor(tables, EntryFor(tables, root, 3, s).frame, 2, s).present
    && EntryFor(tables, EntryFor(tables, root, 3, s).frame, 2, s).frame == d
  }

  lemma ReachFacts(tables: Tables, root: nat, place: map<nat, Place>, s: nat, d: nat)
    requires Reaches(tables, root, place, s, d)
    ensures OnWay(place, d, 1, s) && (Walk(tables, root, 3, s).None? <==> Walk(tables, d, 1, s).None?)
    ensures Bottom(tables, root, 3, s) == Bottom(tables, d, 1, s)
  {
    hide Walk, Bottom, OnWay, EntryFor;
    WalkVia(tables, root, 3, s);
    WalkVia(tables, EntryFor(tables, root, 3, s).frame, 2, s);
  }

  /** A change to the directory itself leaves the way to it. */
  lemma ReachKept(tables: Tables, place: map<nat, Place>, tables': Tables, place': map<nat, Place>, root: nat, s: nat,
                  d: nat)
    requires Tree(tables, root, place) && Tree(tables', root, place') && s < SLOTS && Reaches(tables, root, place, s, d)
    requires forall u :: u in tables && u != d ==> u in tables' && tables'[u] == tables[u]
    requires forall u, l :: OnWay(place, u, l, s) ==> OnWay(place', u, l, s)
    ensures Reaches(tables', root, place', s, d)
  {
    hide Tree, EntryFor, Above;
    RootOnWay(tables, root, place, s);
    WayIn(tables, root, place, root, 3, s);
    var a := EntryFor(tables, root, 3, s).frame;
    WayIn(tables, root, place, a, 2, s);
    EntrySame(tables, tables', root, 3, s);
    EntrySame(tables, tables', a, 2, s);
  }

  lemma BottomHere(tables: Tables, root: nat, place: map<nat, Place>, t: nat, s: nat)
    requires Tree(tables, root, place) && OnWay(place, t, 0, s)
    ensures Bottom(tables, t, 0, s) == Some(t)
  {
  }

  lemma LeafEntry(tables: Tables, root: nat, place: map<nat, Place>, flat: Flat, s: nat)
    requires Tree(tables, root, place) && Translates(tables, root, flat) && s < SLOTS
             && Bottom(tables, root, 3, s).Some?
    ensures var t := Bottom(tables, root, 3, s).value;
            IsTable(tables, t) && OnWay(place, t, 0, s) && (tables[t][Index(s, 0)].present <==> s in flat)
  {
    hide Above, Tree, Walk, Bottom;
    RootOnWay(tables, root, place, s);
    WalkLeaf(tables, root, place, root, 3, s);
  }

  lemma WalkFlat(tables: Tables, root: nat, flat: Flat, s: nat)
    requires Translates(tables, root, flat) && s < SLOTS
    ensures Walk(tables, root, 3, s).None? <==> s !in flat
  {
    hide Walk;
  }

  lemma WalkVia(tables: Tables, t: nat, level: nat, s: nat)
    requires level > 0
    ensures var e := EntryFor(tables, t, level, s);
            if e.present then (Walk(tables, t, level, s).None? <==> Walk(tables, e.frame, level - 1, s).None?)
                 && Bottom(tables, t, level, s) == Bottom(tables, e.frame, level - 1, s)
            else Walk(tables, t, level, s).None? && Bottom(tables, t, level, s).None?
  {
  }

  lemma EntrySame(tables: Tables, tables': Tables, t: nat, level: nat, s: nat)
    requires t in tables && t in tables' && tables'[t] == tables[t]
    ensures EntryFor(tables', t, level, s) == EntryFor(tables, t, level, s)
  {
  }

  lemma GrownNone(tables: Tables, place: map<nat, Place>, supply: seq<nat>)
    ensures Grown(tables, place, supply, tables, place, supply, [])
  {
  }

  lemma GrownLink(tables: Tables, place: map<nat, Place>, supply: seq<nat>, t: nat, i: nat)
    requires supply != [] && supply[0] !in tables && supply[0] !in place && t in place && IsTable(tables, t)
             && i < ENTRIES
    ensures Grown(tables, place, supply, Link(tables, t, i, supply[0]), PlaceUnder(place, t, i, supply[0]),
              supply[1..], [supply[0]])
  {
    assert supply == [supply[0]] + supply[1..];
  }

  lemma GrownPut(tables: Tables, place: map<nat, Place>, supply: seq<nat>,
                 tables': Tables, place': map<nat, Place>, supply': seq<nat>, made: seq<nat>, t: nat, table: seq<Entry>)
    requires Grown(tables, place, supply, tables', place', supply', made) && t in place' && t in tables'
    ensures Grown(tables, place, supply, tables'[t := table], place', supply', made)
  {
  }

  lemma GrownTwice(t0: Tables, p0: map<nat, Place>, s0: seq<nat>, t1: Tables, p1: map<nat, Place>, s1: seq<nat>,
                   m1: seq<nat>,
                   t2: Tables, p2: map<nat, Place>, s2: seq<nat>, m2: seq<nat>)
    requires Grown(t0, p0, s0, t1, p1, s1, m1) && Grown(t1, p1, s1, t2, p2, s2, m2)
    ensures Grown(t0, p0, s0, t2, p2, s2, m2 + m1)
  {
    assert SetOf(m2 + m1) == SetOf(m1) + SetOf(m2);
  }

  /** The 9-bit fields of a page number are the indices of its slot. */
  lemma Indices(v: nat, k: nat)
    ensures var page, s := v + k, Slot(v, k);
            && Index(s, 3) == page / 0x800_0000 % 0x200 && Index(s, 2) == page / 0x4_0000 % 0x200
            && Index(s, 1) == page / 0x200 % 0x200 && Index(s, 0) == page % 0x200
  {
    var page, s, q := v + k, Slot(v, k), (v + k) / SLOTS;
    assert page == q * SLOTS + s;
    Field3(q, s);
    Field2(q, s);
    Field1(q, s);
    Multiple(q * 0x800_0000, s);
    assert Above(s, 1) == s / 512;
    assert Above(s, 2) == s / 512 / 512;
    assert Above(s, 3) == s / 512 / 512 / 512;
    Halves(s);
  }

  lemma Halves(s: nat)
    ensures s / 512 / 512 == s / 0x4_0000 && s / 512 / 512 / 512 == s / 0x800_0000
  {
  }

  lemma Field3(q: nat, s: nat)
    ensures (q * SLOTS + s) / 0x800_0000 % 0x200 == s / 0x800_0000 % 0x200
  {
    assert (q * SLOTS + s) / 0x800_0000 == q * 0x200 + s / 0x800_0000;
    Multiple(q, s / 0x800_0000);
  }

  lemma Field2(q: nat, s: nat)
    ensures (q * SLOTS + s) / 0x4_0000 % 0x200 == s / 0x4_0000 % 0x200
  {
    assert (q * SLOTS + s) / 0x4_0000 == q * 0x4_0000 + s / 0x4_0000;
    Multiple(q * 0x200, s / 0x4_0000);
  }

  lemma Field1(q: nat, s: nat)
    ensures (q * SLOTS + s) / 0x200 % 0x200 == s / 0x200 % 0x200
  {
    assert (q * SLOTS + s) / 0x200 == q * 0x800_0000 + s / 0x200;
    Multiple(q * 0x4_0000, s / 0x200);
  }

  lemma Multiple(a: nat, b: nat)
    ensures (a * 0x200 + b) % 0x200 == b % 0x200
  {
  }

  function SetOf(xs: seq<nat>): set<nat> {
    set x | x in xs
  }

  /** Exactly the tables made are new, all in the tree, and tables outside it are
      untouched. */
  ghost predicate Grown(tables: Tables, place: map<nat, Place>, supply: seq<nat>,
                        tables': Tables, place': map<nat, Place>, supply': seq<nat>, made: seq<nat>) {
    && multiset(supply) == multiset(made) + multiset(supply')
    && tables'.Keys == tables.Keys + SetOf(made)
    && place'.Keys == place.Keys + SetOf(made)
    && (forall x :: x in made ==> x !in tables)
    && (forall u :: u in place ==> place'[u] == place[u])
    && (forall u :: u in tables && u !in place ==> tables'[u] == tables[u])
  }

  ghost predicate Supply(supply: seq<nat>, tables: Tables) {
    && (forall i :: 0 <= i < |supply| ==> 0 < supply[i] < FRAMES && supply[i] !in tables)
    && (forall i, j :: 0 <= i < j < |supply| ==> supply[i] != supply[j])
  }

  lemma WayIn(tables: Tables, root: nat, place: map<nat, Place>, t: nat, level: nat, s: nat)
    requires Tree(tables, root, place) && OnWay(place, t, level, s)
    ensures t in place && place[t].level == level && IsTable(tables, t)
  {
  }

  lemma LinkOnWay(place: map<nat, Place>, t: nat, i: nat, c: nat, level: nat, s: nat)
    requires OnWay(place, t, level, s) && level > 0 && i == Index(s, level) && c !in place
    ensures OnWay(PlaceUnder(place, t, i, c), c, level - 1, s)
    ensures forall u, l :: OnWay(place, u, l, s) ==> OnWay(PlaceUnder(place, t, i, c), u, l, s)
  {
    assert Above(s, level + 1) == Above(s, level) / ENTRIES;
  }

  lemma LinkFacts(tables: Tables, t: nat, i: nat, c: nat, level: nat, s: nat)
    requires IsTable(tables, t) && i == Index(s, level) && c !in tables
    ensures EntryFor(Link(tables, t, i, c), t, level, s) == Entry(true, c, Open)
  {
  }

  lemma LinkIs(tables: Tables, t: nat, i: nat, c: nat)
    requires IsTable(tables, t) && i < ENTRIES && c !in tables
    ensures var more := tables[c := Zeroed()]; Link(tables, t, i, c) == more[t := more[t][i := Entry(true, c, Open)]]
  {
  }
}
