/** Trees of 512-entry page tables, walked as section 4.5 (4-level paging) of the
    Intel 64 and IA-32 Architectures Software Developer's Manual, volume 3A, says. */
module PageTables {
  import opened Wrappers

  const ENTRIES: nat := 512
  const SLOTS: nat := 0x10_0000_0000        // 36-bit page numbers: four 9-bit indices
  const FRAMES: nat := 0x100_0000_0000      // the 40-bit address field of an entry

  datatype Rights = Rights(write: bool, noExecute: bool, user: bool)
  datatype Entry = Entry(present: bool, frame: nat, rights: Rights)
  datatype Leaf = Leaf(frame: nat, rights: Rights)

  type Tables = map<nat, seq<Entry>>

  /** Where a table stands: level 3 is the root, and `prefix` is what the slots
      below it have in common. */
  datatype Place = Place(level: nat, prefix: nat)

  const Empty: Entry := Entry(false, 0, Rights(false, false, false))
  const Open: Rights := Rights(true, false, true)   // what the mapper gives upper levels

  function Zeroed(): (t: seq<Entry>)
    ensures |t| == ENTRIES && forall i :: 0 <= i < |t| ==> t[i] == Empty
  {
    seq(ENTRIES, _ => Empty)
  }

  /** The slot without its lowest `level` indices. */
  function Above(s: nat, level: nat): nat {
    if level == 0 then s else Above(s, level - 1) / ENTRIES
  }

  function Index(s: nat, level: nat): (i: nat)
    ensures i < ENTRIES
  {
    Above(s, level) % ENTRIES
  }

  function IsTable(tables: Tables, t: nat): bool {
    t in tables && |tables[t]| == ENTRIES
  }

  function EntryFor(tables: Tables, t: nat, level: nat, s: nat): Entry {
    if IsTable(tables, t) then tables[t][Index(s, level)] else Empty
  }

  /** Rights combine along the walk: an upper level can only take away. */
  function Restrict(upper: Rights, leaf: Leaf): Leaf {
    var r := leaf.rights;
    Leaf(leaf.frame, Rights(upper.write && r.write, upper.noExecute || r.noExecute, upper.user && r.user))
  }

  /** The processor's translation of slot s, from table t down. */
  function Walk(tables: Tables, t: nat, level: nat, s: nat): Option<Leaf>
    decreases level
  {
    var e := EntryFor(tables, t, level, s);
    if !e.present then None
    else if level == 0 then Some(Leaf(e.frame, e.rights))
    else match Walk(tables, e.frame, level - 1, s)
         case None => None
         case Some(leaf) => Some(Restrict(e.rights, leaf))
  }

  /** The page table the walk of s arrives at. */
  function Bottom(tables: Tables, t: nat, level: nat, s: nat): Option<nat>
    decreases level
  {
    if level == 0 then (if IsTable(tables, t) then Some(t) else None)
    else var e := EntryFor(tables, t, level, s);
         if e.present then Bottom(tables, e.frame, level - 1, s) else None
  }

  /** An unshared tree: every table has one place, a present entry leads to the table
      whose place is that entry's, and an absent one holds address 0, where there is
      no table. */
  ghost predicate Tree(tables: Tables, root: nat, place: map<nat, Place>) {
    && root in place && place[root] == Place(3, 0) && 0 !in tables
    && (forall t :: t in place ==> IsTable(tables, t) && place[t].level <= 3)
    && (forall t, i :: t in place && 0 <= i < ENTRIES ==> EntryOk(tables, place, t, i))
  }

  ghost predicate EntryOk(tables: Tables, place: map<nat, Place>, t: nat, i: nat)
    requires t in place
  {
    IsTable(tables, t) && i < ENTRIES && place[t].level > 0 ==>
      var e := tables[t][i];
      if e.present then
        e.rights == Open && e.frame in place
        && place[e.frame] == Place(place[t].level - 1, place[t].prefix * ENTRIES + i)
      else e.frame == 0
  }

  /** Table t is on the way of slot s. */
  ghost predicate OnWay(place: map<nat, Place>, t: nat, level: nat, s: nat) {
    t in place && place[t] == Place(level, Above(s, level + 1))
  }

  lemma RootOnWay(tables: Tables, root: nat, place: map<nat, Place>, s: nat)
    requires Tree(tables, root, place) && s < SLOTS
    ensures OnWay(place, root, 3, s)
  {
    assert Above(s, 1) == s / 512;
    assert Above(s, 2) == s / 512 / 512;
    assert Above(s, 3) == s / 512 / 512 / 512;
    assert Above(s, 4) == s / 512 / 512 / 512 / 512;
  }

  /** Following an entry stays on the way. */
  lemma DownOnWay(tables: Tables, root: nat, place: map<nat, Place>, t: nat, level: nat, s: nat)
    requires Tree(tables, root, place) && OnWay(place, t, level, s) && level > 0
    requires EntryFor(tables, t, level, s).present
    ensures EntryFor(tables, t, level, s).rights == Open
            && OnWay(place, EntryFor(tables, t, level, s).frame, level - 1, s)
  {
    assert EntryOk(tables, place, t, Index(s, level));
    assert Above(s, level + 1) == Above(s, level) / ENTRIES;
  }

  /** Following an entry that is not there leads to no table. */
  lemma NowhereDown(tables: Tables, root: nat, place: map<nat, Place>, t: nat, level: nat, s: nat)
    requires Tree(tables, root, place) && OnWay(place, t, level, s) && level > 0
    ensures EntryFor(tables, t, level, s).present <==> EntryFor(tables, t, level, s).frame in tables
  {
    assert EntryOk(tables, place, t, Index(s, level));
  }

  /** Slots whose ways part at table t use different entries of it. */
  lemma SlotOf(s: nat, s': nat)
    requires Above(s, 1) == Above(s', 1) && Index(s, 0) == Index(s', 0)
    ensures s == s'
  {
    assert Above(s, 1) == s / ENTRIES && Above(s', 1) == s' / ENTRIES;
  }

  function Put(tables: Tables, t: nat, i: nat, e: Entry): Tables {
    if IsTable(tables, t) && i < ENTRIES then tables[t := tables[t][i := e]] else tables
  }

  lemma PutEntry(tables: Tables, t: nat, i: nat, e: Entry, u: nat, level: nat, s: nat)
    requires IsTable(tables, t) && i < ENTRIES
    ensures IsTable(Put(tables, t, i, e), u) == IsTable(tables, u)
    ensures EntryFor(Put(tables, t, i, e), u, level, s) ==
            if u == t && Index(s, level) == i then e else EntryFor(tables, u, level, s)
  {
  }

  // -------------------------------------------------------------- leaf entries

  /** Writing the entry of slot s in its page table changes the walk of s alone. */
  lemma {:induction false} PutLeafWalk(tables: Tables, root: nat, place: map<nat, Place>, s: nat, t: nat, e: Entry,
                                       u: nat, level: nat, s': nat)
    requires Tree(tables, root, place) && OnWay(place, t, 0, s) && OnWay(place, u, level, s')
    requires Bottom(tables, u, level, s) == Some(t) || s' != s
    ensures Walk(Put(tables, t, Index(s, 0), e), u, level, s') ==
            if s' != s then Walk(tables, u, level, s') else if e.present then Some(Leaf(e.frame, e.rights)) else None
    ensures Bottom(Put(tables, t, Index(s, 0), e), u, level, s') == Bottom(tables, u, level, s')
    decreases level
  {
    hide Above, Tree;
    TreeTable(tables, root, place, t);
    PutEntry(tables, t, Index(s, 0), e, u, level, s');
    if level == 0 {
      if u == t && Index(s', 0) == Index(s, 0) { SlotOf(s, s'); }
    } else {
      assert u != t;
      if EntryFor(tables, u, level, s').present {
        DownOnWay(tables, root, place, u, level, s');
        PutLeafWalk(tables, root, place, s, t, e, EntryFor(tables, u, level, s').frame, level - 1, s');
      }
    }
  }

  lemma TreeTable(tables: Tables, root: nat, place: map<nat, Place>, t: nat)
    requires Tree(tables, root, place) && t in place
    ensures IsTable(tables, t)
  {
  }

  lemma PutLeafTree(tables: Tables, root: nat, place: map<nat, Place>, t: nat, i: nat, e: Entry)
    requires Tree(tables, root, place) && t in place && place[t].level == 0 && i < ENTRIES
    ensures Tree(Put(tables, t, i, e), root, place)
  {
    var next := Put(tables, t, i, e);
    forall u, j | u in place && 0 <= j < ENTRIES ensures EntryOk(next, place, u, j) {
      assert EntryOk(tables, place, u, j);
    }
  }

  // ------------------------------------------------------------- upper entries

  /** A zeroed table c hung under entry i of t. */
  function Link(tables: Tables, t: nat, i: nat, c: nat): Tables {
    Put(tables[c := Zeroed()], t, i, Entry(true, c, Open))
  }

  function PlaceUnder(place: map<nat, Place>, t: nat, i: nat, c: nat): map<nat, Place>
    requires t in place
  {
    place[c := Place(if place[t].level > 0 then place[t].level - 1 else 0, place[t].prefix * ENTRIES + i)]
  }

  ghost predicate CanLink(tables: Tables, root: nat, place: map<nat, Place>, t: nat, i: nat, c: nat) {
    && Tree(tables, root, place) && t in place && place[t].level > 0 && i < ENTRIES && c !in tables && c != 0
    && IsTable(tables, t) && !tables[t][i].present
  }

  lemma LinkTree(tables: Tables, root: nat, place: map<nat, Place>, t: nat, i: nat, c: nat)
    requires CanLink(tables, root, place, t, i, c)
    ensures c !in place && Tree(Link(tables, t, i, c), root, PlaceUnder(place, t, i, c))
  {
    var next, place' := Link(tables, t, i, c), PlaceUnder(place, t, i, c);
    forall u, j | u in place' && 0 <= j < ENTRIES ensures EntryOk(next, place', u, j) {
      if u != c { assert EntryOk(tables, place, u, j); }
    }
  }

  /** Hanging an empty table changes no walk, and no page table already reached. */
  lemma {:induction false} LinkWalk(tables: Tables, root: nat, place: map<nat, Place>, t: nat, i: nat, c: nat, u: nat,
                                    level: nat, s: nat)
    requires CanLink(tables, root, place, t, i, c) && OnWay(place, u, level, s)
    ensures Walk(Link(tables, t, i, c), u, level, s) == Walk(tables, u, level, s)
    ensures Bottom(tables, u, level, s).Some? ==>
              Bottom(Link(tables, t, i, c), u, level, s) == Bottom(tables, u, level, s)
    decreases level
  {
    hide Above, Tree;
    TreeTable(tables, root, place, t);
    TreeTable(tables, root, place, u);
    var more := tables[c := Zeroed()];
    PutEntry(more, t, i, Entry(true, c, Open), u, level, s);
    assert EntryFor(more, u, level, s) == EntryFor(tables, u, level, s);
    if EntryFor(tables, u, level, s).present {
      if level > 0 {
        DownOnWay(tables, root, place, u, level, s);
        LinkWalk(tables, root, place, t, i, c, EntryFor(tables, u, level, s).frame, level - 1, s);
      }
    } else if u == t && Index(s, level) == i {
      PutEntry(more, t, i, Entry(true, c, Open), c, level - 1, s);
      assert !EntryFor(Link(tables, t, i, c), c, level - 1, s).present;
    }
  }

  // ------------------------------------------------------------- the flat map

  function Get(m: map<nat, Leaf>, s: nat): Option<Leaf> {
    if s in m then Some(m[s]) else None
  }

  /** The tree translates every slot as `flat` says. */
  ghost predicate Translates(tables: Tables, root: nat, flat: map<nat, Leaf>) {
    && (forall s :: s in flat ==> s < SLOTS)
    && forall s :: 0 <= s < SLOTS ==> Walk(tables, root, 3, s) == Get(flat, s)
  }

  lemma PutLeafTranslates(tables: Tables, root: nat, place: map<nat, Place>, flat: map<nat, Leaf>, s: nat, t: nat,
                          e: Entry)
    requires Tree(tables, root, place) && Translates(tables, root, flat) && OnWay(place, t, 0, s) && s < SLOTS
    requires Bottom(tables, root, 3, s) == Some(t)
    ensures Translates(Put(tables, t, Index(s, 0), e), root,
                       if e.present then flat[s := Leaf(e.frame, e.rights)] else flat - {s})
  {
    hide Above, Tree, Walk, Bottom, OnWay;
    forall s' | 0 <= s' < SLOTS
      ensures Walk(Put(tables, t, Index(s, 0), e), root, 3, s') ==
              if s' != s then Get(flat, s') else if e.present then Some(Leaf(e.frame, e.rights)) else None
    {
      RootOnWay(tables, root, place, s');
      PutLeafWalk(tables, root, place, s, t, e, root, 3, s');
    }
  }

  lemma LinkTranslates(tables: Tables, root: nat, place: map<nat, Place>, flat: map<nat, Leaf>, t: nat, i: nat, c: nat)
    requires CanLink(tables, root, place, t, i, c) && Translates(tables, root, flat)
    ensures Translates(Link(tables, t, i, c), root, flat)
  {
    hide Above, Tree, Walk, Bottom;
    forall s | 0 <= s < SLOTS ensures Walk(Link(tables, t, i, c), root, 3, s) == Get(flat, s) {
      RootOnWay(tables, root, place, s);
      LinkWalk(tables, root, place, t, i, c, root, 3, s);
    }
  }

  // A mapped slot has its page table.
  lemma {:induction false} WalkBottom(tables: Tables, t: nat, level: nat, s: nat)
    requires Walk(tables, t, level, s).Some?
    ensures Bottom(tables, t, level, s).Some?
    decreases level
  {
    if level > 0 { WalkBottom(tables, EntryFor(tables, t, level, s).frame, level - 1, s); }
  }

  /** The page of slot s is entry Index(s, 0) of the page table at the bottom. */
  lemma {:induction false} WalkLeaf(tables: Tables, root: nat, place: map<nat, Place>, t: nat, level: nat, s: nat)
    requires Tree(tables, root, place) && OnWay(place, t, level, s) && Bottom(tables, t, level, s).Some?
    ensures var b := Bottom(tables, t, level, s).value;
            OnWay(place, b, 0, s) && IsTable(tables, b)
            && Walk(tables, t, level, s) ==
                 (var e := tables[b][Index(s, 0)]; if e.present then Some(Leaf(e.frame, e.rights)) else None)
    decreases level
  {
    hide Above, Tree;
    if level > 0 {
      DownOnWay(tables, root, place, t, level, s);
      WalkLeaf(tables, root, place, EntryFor(tables, t, level, s).frame, level - 1, s);
    }
  }
}
