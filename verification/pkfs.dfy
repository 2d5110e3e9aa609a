/** PKFS on a disc: which pages belong to which file or directory, and reading a file
    through its chain of data pages. Files and directories share a node layout. */
module Pkfs {
  import opened Wrappers
  import opened PkfsList

  type Owners = map<nat, nat>
  type Chains = map<nat, seq<nat>>

  const ROOT: nat := 64

  predicate InUse(p: Page) {
    match p
    case Node(u, _, _, _, _) => u
    case Data(u, _, _) => u
    case Index(u, _, _) => u
    case _ => false
  }

  function NextOf(p: Page): nat {
    if p.Data? || p.Index? then p.next else 0
  }

  // ------------------------------------------------------------------ ownership

  /** `chain` is what following the links from address `a` visits. */
  predicate Linked(disc: Disc, a: nat, chain: seq<nat>, dir: bool)
    decreases |chain|
  {
    if chain == [] then a == 0
    else && a == chain[0] && 0 < a < |disc|
         && (if dir then IndexOk(disc[a], |disc|) else disc[a].Data?)
         && Linked(disc, NextOf(disc[a]), chain[1..], dir)
  }

  predicate Distinct(chain: seq<nat>) {
    forall i, j :: 0 <= i < j < |chain| ==> chain[i] != chain[j]
  }

  /** The object at `f`: a node and the chain hanging from it, all owned by it. */
  ghost predicate ObjectOk(disc: Disc, owner: Owners, chains: Chains, f: nat)
    requires f in chains
  {
    && f in owner && owner[f] == f && f < |disc| && disc[f].Node?
    && Linked(disc, disc[f].first, chains[f], disc[f].dir) && Distinct(chains[f])
    && (forall p :: p in chains[f] ==> p != f && p in owner && owner[p] == f)
    && (disc[f].parent == 0 || (disc[f].parent in chains && IsDir(disc, disc[f].parent)))
    && chains[f] != []
  }

  ghost predicate PageOk(disc: Disc, owner: Owners, chains: Chains, p: nat)
    requires p in owner
  {
    ROOT < p < |disc| && InUse(disc[p]) && owner[p] in chains && p in PagesOf(chains, owner[p])
  }

  /** Every page owned by a live object is marked in use and lies behind the root,
      the page to be handed out next is owned by none, and each object is whole.
      That no page has two owners is in the type. */
  ghost predicate Inv(disc: Disc, owner: Owners, chains: Chains) {
    && |disc| > ROOT && disc[ROOT].Root? && disc[ROOT].firstFree > ROOT && disc[ROOT].firstFree !in owner
    && (forall p :: p in owner ==> PageOk(disc, owner, chains, p))
    && (forall f :: f in chains ==> ObjectOk(disc, owner, chains, f))
  }

  function PagesOf(chains: Chains, f: nat): set<nat> {
    if f in chains then {f} + set p | p in chains[f] else {}
  }

  /** No page belongs to two live objects, and the next free page to none. */
  lemma NoSharing(disc: Disc, owner: Owners, chains: Chains, f: nat, g: nat)
    requires Inv(disc, owner, chains) && f in chains && g in chains && f != g
    ensures PagesOf(chains, f) !! PagesOf(chains, g) && disc[ROOT].firstFree !in PagesOf(chains, f)
    ensures forall p :: p in PagesOf(chains, f) ==> p < |disc| && InUse(disc[p])
  {
    hide Linked, Distinct, Inv;
    NoSharingSelf(disc, owner, chains, f);
    forall p | p in PagesOf(chains, f) ensures p in owner && owner[p] == f { Belongs(disc, owner, chains, f, p); }
    forall p | p in PagesOf(chains, g) ensures p in owner && owner[p] == g { Belongs(disc, owner, chains, g, p); }
  }

  lemma Belongs(disc: Disc, owner: Owners, chains: Chains, f: nat, p: nat)
    requires Inv(disc, owner, chains) && f in chains && p in PagesOf(chains, f)
    ensures p in owner && owner[p] == f
  {
    hide Linked, Distinct;
    assert ObjectOk(disc, owner, chains, f);
  }

  /** Pages outside a chain may change without touching it. */
  lemma {:induction false} LinkedSame(disc: Disc, disc': Disc, a: nat, chain: seq<nat>, dir: bool)
    requires Linked(disc, a, chain, dir) && |disc'| == |disc|
    requires forall p :: p in chain && p < |disc| ==> disc'[p] == disc[p]
    ensures Linked(disc', a, chain, dir)
    decreases |chain|
  {
    if chain != [] { LinkedSame(disc, disc', NextOf(disc[a]), chain[1..], dir); }
  }

  lemma {:induction false} LinkedAt(disc: Disc, a: nat, chain: seq<nat>, dir: bool, i: nat)
    requires Linked(disc, a, chain, dir) && i < |chain|
    ensures 0 < chain[i] < |disc|
            && (if dir then IndexOk(disc[chain[i]], |disc|) else disc[chain[i]].Data?)
    ensures NextOf(disc[chain[i]]) == if i + 1 < |chain| then chain[i + 1] else 0
    decreases |chain|
  {
    if i > 0 { LinkedAt(disc, NextOf(disc[a]), chain[1..], dir, i - 1); }
  }

  // A page that is rewritten without moving its links.
  lemma {:induction false} LinkedRewrite(disc: Disc, a: nat, chain: seq<nat>, dir: bool, x: nat, page: Page)
    requires Linked(disc, a, chain, dir) && x < |disc|
    requires disc[x].Index? ==> IndexOk(page, |disc|) && page.next == disc[x].next
    requires disc[x].Data? ==> page.Data? && page.next == disc[x].next
    ensures Linked(disc[x := page], a, chain, dir)
    decreases |chain|
  {
    if chain != [] { LinkedRewrite(disc, NextOf(disc[a]), chain[1..], dir, x, page); }
  }

  // --------------------------------------------------------- creating an object

  /** A node and one page hung from it, on two unowned pages, become an object. */
  lemma Adopted(disc: Disc, owner: Owners, chains: Chains, f: nat, d: nat)
    requires Inv(disc, owner, chains) && f !in owner && d !in owner && f != d && ROOT < f < |disc| && ROOT < d < |disc|
    requires disc[f].Node? && disc[f].inUse && disc[f].first == d && disc[f].parent == 0
    requires if disc[f].dir then IndexOk(disc[d], |disc|) else disc[d].Data?
    requires InUse(disc[d]) && NextOf(disc[d]) == 0 && disc[ROOT].firstFree != f && disc[ROOT].firstFree != d
    ensures Inv(disc, owner[f := f][d := f], chains[f := [d]])
  {
    hide ObjectOk, IndexOk, PagesOf;
    var owner', chains' := owner[f := f][d := f], chains[f := [d]];
    forall p | p in owner' ensures PageOk(disc, owner', chains', p) { AdoptedPage(disc, owner, chains, f, d, p); }
    forall g | g in chains' ensures ObjectOk(disc, owner', chains', g) { AdoptedObject(disc, owner, chains, f, d, g); }
  }

  lemma AdoptedPage(disc: Disc, owner: Owners, chains: Chains, f: nat, d: nat, p: nat)
    requires Inv(disc, owner, chains) && f !in owner && d !in owner && ROOT < f < |disc| && ROOT < d < |disc|
    requires InUse(disc[f]) && InUse(disc[d]) && p in owner[f := f][d := f]
    ensures PageOk(disc, owner[f := f][d := f], chains[f := [d]], p)
  {
    hide ObjectOk, InUse;
    NotLive(disc, owner, chains, f);
    if p in owner { assert PageOk(disc, owner, chains, p); }
  }

  lemma AdoptedObject(disc: Disc, owner: Owners, chains: Chains, f: nat, d: nat, g: nat)
    requires Inv(disc, owner, chains) && f !in owner && d !in owner && f != d && ROOT < f < |disc| && ROOT < d < |disc|
    requires disc[f].Node? && disc[f].first == d && disc[f].parent == 0 && NextOf(disc[d]) == 0
    requires if disc[f].dir then IndexOk(disc[d], |disc|) else disc[d].Data?
    requires g in chains[f := [d]]
    ensures ObjectOk(disc, owner[f := f][d := f], chains[f := [d]], g)
  {
    hide Linked, Distinct, IndexOk, PageOk;
    NotLive(disc, owner, chains, f);
    if g == f {
      OneLink(disc, d, disc[f].dir);
    } else {
      assert ObjectOk(disc, owner, chains, g);
      OtherObject(disc, disc, owner, owner[f := f][d := f], chains, chains[f := [d]], g);
    }
  }

  lemma OneLink(disc: Disc, d: nat, dir: bool)
    requires 0 < d < |disc| && NextOf(disc[d]) == 0
    requires if dir then IndexOk(disc[d], |disc|) else disc[d].Data?
    ensures Linked(disc, d, [d], dir) && Distinct([d])
  {
    assert [d][1..] == [];
  }

  /** An object none of whose pages changed is still an object. */
  lemma OtherObject(disc: Disc, disc': Disc, owner: Owners, owner': Owners, chains: Chains, chains': Chains, g: nat)
    requires g in chains && ObjectOk(disc, owner, chains, g) && |disc'| == |disc|
    requires g in chains' && chains'[g] == chains[g]
    requires forall p :: p in owner && owner[p] == g ==> p in owner' && owner'[p] == g
    requires forall p :: p in owner && owner[p] == g && p < |disc| ==> disc'[p] == disc[p]
    requires var d := disc[g].parent; d != 0 ==> d in chains' && disc'[d].Node? && disc'[d].dir
    ensures ObjectOk(disc', owner', chains', g)
  {
    LinkedSame(disc, disc', disc[g].first, chains[g], disc[g].dir);
  }

  // ---------------------------------------------------------- pages not owned

  /** Writing to an unowned page, other than the root, disturbs nothing. */
  lemma UnownedWrite(disc: Disc, owner: Owners, chains: Chains, x: nat, page: Page)
    requires Inv(disc, owner, chains) && x !in owner && x != ROOT && x < |disc|
    ensures Inv(disc[x := page], owner, chains)
  {
    hide ObjectOk;
    var disc' := disc[x := page];
    forall p | p in owner ensures PageOk(disc', owner, chains, p) { assert PageOk(disc, owner, chains, p); }
    forall g | g in chains ensures ObjectOk(disc', owner, chains, g) { ObjectKept(disc, disc', owner, chains, g); }
  }

  /** An object stays whole while the pages objects own stay as they are. */
  lemma ObjectKept(disc: Disc, disc': Disc, owner: Owners, chains: Chains, g: nat)
    requires Inv(disc, owner, chains) && g in chains && |disc'| == |disc|
    requires forall p :: p in owner && p < |disc| ==> disc'[p] == disc[p]
    ensures ObjectOk(disc', owner, chains, g)
  {
    hide Linked, Distinct, PageOk;
    assert ObjectOk(disc, owner, chains, g);
    if disc[g].parent != 0 { assert ObjectOk(disc, owner, chains, disc[g].parent); }
    OtherObject(disc, disc', owner, owner, chains, chains, g);
  }

  lemma RootWrite(disc: Disc, owner: Owners, chains: Chains, free: nat)
    requires Inv(disc, owner, chains) && free > ROOT && free !in owner
    ensures Inv(disc[ROOT := Root(free)], owner, chains)
  {
    hide ObjectOk;
    var disc' := disc[ROOT := Root(free)];
    forall p | p in owner ensures p != ROOT && PageOk(disc', owner, chains, p) {
      assert PageOk(disc, owner, chains, p);
    }
    forall g | g in chains ensures ObjectOk(disc', owner, chains, g) { ObjectKept(disc, disc', owner, chains, g); }
  }

  /** An object that is given up: its pages are nobody's. */
  lemma Disowned(disc: Disc, owner: Owners, chains: Chains, f: nat)
    requires Inv(disc, owner, chains) && f in chains && !disc[f].dir
    ensures Inv(disc, owner - PagesOf(chains, f), chains - {f})
  {
    hide Linked, Distinct, IndexOk;
    var owner', chains' := owner - PagesOf(chains, f), chains - {f};
    assert ObjectOk(disc, owner, chains, f);
    forall p | p in owner' ensures PageOk(disc, owner', chains', p) {
      assert PageOk(disc, owner, chains, p);
    }
    forall g | g in chains' ensures ObjectOk(disc, owner', chains', g) {
      assert ObjectOk(disc, owner, chains, g);
      OtherObject(disc, disc, owner, owner', chains, chains', g);
    }
  }

  /** A page of an object that is rewritten as a page of the same kind, with the same
      links. */
  ghost predicate SameKind(disc: Disc, chains: Chains, x: nat, page: Page)
    requires x < |disc|
  {
    && InUse(page) && (page.Node? <==> disc[x].Node?)
    && (disc[x].Index? ==> IndexOk(page, |disc|) && page.next == disc[x].next)
    && (disc[x].Data? ==> page.Data? && page.next == disc[x].next)
    && (disc[x].Node? ==>
          && page.dir == disc[x].dir && page.first == disc[x].first
          && (page.parent == 0 || (page.parent in chains && IsDir(disc, page.parent))))
  }

  lemma RewrittenObject(disc: Disc, owner: Owners, chains: Chains, x: nat, page: Page, g: nat)
    requires g in chains && ObjectOk(disc, owner, chains, g) && x < |disc| && SameKind(disc, chains, x, page)
    ensures ObjectOk(disc[x := page], owner, chains, g)
  {
    hide Linked, Distinct, IndexOk;
    LinkedRewrite(disc, disc[g].first, chains[g], disc[g].dir, x, page);
  }

  lemma Rewritten(disc: Disc, owner: Owners, chains: Chains, x: nat, page: Page)
    requires Inv(disc, owner, chains) && x in owner && x < |disc| && SameKind(disc, chains, x, page)
    ensures Inv(disc[x := page], owner, chains)
  {
    hide ObjectOk, SameKind, PagesOf;
    var disc' := disc[x := page];
    InUseSame(disc, chains, x, page);
    forall p | p in owner
      ensures PageOk(disc', owner, chains, p) && p != ROOT
    {
      assert PageOk(disc, owner, chains, p);
    }
    forall g | g in chains ensures ObjectOk(disc', owner, chains, g) {
      RewrittenObject(disc, owner, chains, x, page, g);
    }
  }

  lemma InUseSame(disc: Disc, chains: Chains, x: nat, page: Page)
    requires x < |disc| && SameKind(disc, chains, x, page)
    ensures InUse(page)
  {
  }

  /** A node renamed and hung under a directory. */
  lemma NodeWrite(disc: Disc, owner: Owners, chains: Chains, f: nat, name: string, parent: nat)
    requires Inv(disc, owner, chains) && f in chains && parent in chains && disc[parent].Node? && disc[parent].dir
             && disc[f].Node?
    ensures f < |disc| && parent < |disc| && Inv(disc[f := disc[f].(name := name, parent := parent)], owner, chains)
  {
    hide Linked, Distinct;
    assert ObjectOk(disc, owner, chains, f) && ObjectOk(disc, owner, chains, parent);
    assert PageOk(disc, owner, chains, f);
    Rewritten(disc, owner, chains, f, disc[f].(name := name, parent := parent));
  }

  /** A directory's list of children changed. */
  lemma IndexWrite(disc: Disc, owner: Owners, chains: Chains, x: nat, children: seq<nat>)
    requires Inv(disc, owner, chains) && x in owner && x < |disc| && disc[x].Index?
    requires IndexOk(disc[x].(children := children), |disc|)
    ensures Inv(disc[x := disc[x].(children := children)], owner, chains)
  {
    hide Linked, Distinct, IndexOk, ObjectOk;
    assert PageOk(disc, owner, chains, x);
    Rewritten(disc, owner, chains, x, disc[x].(children := children));
  }

  // -------------------------------------------------------------- file contents

  /** The bytes of a chain of data pages, one after the other. */
  function Content(disc: Disc, chain: seq<nat>): seq<Byte> {
    if chain == [] then []
    else (if chain[0] < |disc| && disc[chain[0]].Data? then disc[chain[0]].bytes else []) + Content(disc, chain[1..])
  }

  /** The part of `s` from `offset` on, at most `size` long. */
  function Window(s: seq<Byte>, offset: nat, size: nat): seq<Byte> {
    if offset >= |s| then [] else if size <= |s| - offset then s[offset..offset + size] else s[offset..]
  }

  lemma SnocSlice(s: seq<Byte>, offset: nat, n: nat)
    requires offset + n < |s|
    ensures s[offset..offset + n] + [s[offset + n]] == s[offset..offset + n + 1]
  {
  }

  lemma WindowIs(s: seq<Byte>, offset: nat, size: nat, n: nat)
    requires offset + n <= |s| && n <= size
    ensures s[offset..offset + n] <= Window(s, offset, size)
    ensures n == size || offset + n == |s| ==> s[offset..offset + n] == Window(s, offset, size)
  {
  }

  /** The first page behind `from` that is not marked in use. */
  function Scan(disc: Disc, from: nat): Option<nat>
    decreases if from < |disc| then |disc| - from else 0
  {
    if from + 1 >= |disc| then None
    else if !InUse(disc[from + 1]) then Some(from + 1)
    else Scan(disc, from + 1)
  }

  lemma {:induction false} ScanIs(disc: Disc, from: nat, p: nat)
    requires from < p < |disc| && !InUse(disc[p]) && forall q :: from < q < p ==> InUse(disc[q])
    ensures Scan(disc, from) == Some(p)
    decreases p - from
  {
    if from + 1 < p { ScanIs(disc, from + 1, p); }
  }

  lemma {:induction false} ScanNone(disc: Disc, from: nat)
    ensures Scan(disc, from).None? <==> forall p :: from < p < |disc| ==> InUse(disc[p])
    decreases if from < |disc| then |disc| - from else 0
  {
    if from + 1 < |disc| && InUse(disc[from + 1]) { ScanNone(disc, from + 1); }
  }

  /** A search looks only behind where it starts. */
  lemma {:induction false} ScanSame(disc: Disc, disc': Disc, from: nat)
    requires |disc'| == |disc| && forall p :: from < p < |disc| ==> disc'[p] == disc[p]
    ensures Scan(disc', from) == Scan(disc, from)
    decreases if from < |disc| then |disc| - from else 0
  {
    if from + 1 < |disc| { ScanSame(disc, disc', from + 1); }
  }

  /** Some operation from number m to number n, not counting n, fails. */
  ghost predicate Faulted(faulty: iset<nat>, m: nat, n: nat) {
    exists i :: m <= i < n && i in faulty
  }

  /** Two pages not in use behind the first free one: one to hang from the new node and
      one to be the next first free page. */
  predicate Room(disc: Disc) {
    |disc| > ROOT && disc[ROOT].Root?
    && Scan(disc, disc[ROOT].firstFree).Some?
    && Scan(disc, Scan(disc, disc[ROOT].firstFree).value).Some?
  }

  lemma {:induction false} ScanFacts(disc: Disc, from: nat)
    ensures Scan(disc, from).Some? ==> from < Scan(disc, from).value < |disc| && !InUse(disc[Scan(disc, from).value])
    decreases if from < |disc| then |disc| - from else 0
  {
    if from + 1 < |disc| && InUse(disc[from + 1]) { ScanFacts(disc, from + 1); }
  }

  // ------------------------------------------------------- half-deleted files

  function Unmarked(p: Page): Page {
    if p.Data? then Data(false, p.next, p.bytes) else p
  }

  /** The first k pages of the chain are marked free, and nothing else has changed. */
  ghost predicate FreedOnly(disc: Disc, disc': Disc, chain: seq<nat>, k: nat) {
    && k <= |chain| && |disc'| == |disc|
    && forall p :: 0 <= p < |disc| ==> disc'[p] == if p in chain[..k] then Unmarked(disc[p]) else disc[p]
  }

  lemma NoneFreed(disc: Disc, chain: seq<nat>)
    ensures FreedOnly(disc, disc, chain, 0)
  {
  }

  lemma {:induction false} DataChain(disc: Disc, a: nat, chain: seq<nat>)
    requires Linked(disc, a, chain, false)
    ensures forall p :: p in chain ==> p < |disc| && disc[p].Data?
    decreases |chain|
  {
    if chain != [] {
      DataChain(disc, NextOf(disc[a]), chain[1..]);
      assert forall p :: p in chain ==> p == chain[0] || p in chain[1..];
    }
  }

  lemma FreedFacts(disc: Disc, disc': Disc, chain: seq<nat>, k: nat)
    requires FreedOnly(disc, disc', chain, k)
    ensures |disc'| == |disc| && k <= |chain| && (k == 0 ==> disc' == disc)
    ensures forall p :: 0 <= p < |disc| && p !in chain ==> disc'[p] == disc[p]
    ensures k == |chain| ==> forall p :: p in chain && p < |disc| && disc[p].Data? ==> !InUse(disc'[p])
  {
    assert k == |chain| ==> chain[..k] == chain;
  }

  /** After a deletion broken off with k pages written, the file is still read
      through the same chain from the same node; and its pages can be found by a
      search for free pages exactly when k is not zero. */
  lemma HalfDeleted(disc: Disc, owner: Owners, chains: Chains, f: nat, disc': Disc, k: nat)
    requires Inv(disc, owner, chains) && f in chains && !IsDir(disc, f) && FreedOnly(disc, disc', chains[f], k)
    ensures f < |disc| && disc[f].Node? && disc'[f] == disc[f] && disc'[ROOT] == disc[ROOT]
    ensures Linked(disc', disc'[f].first, chains[f], false) && Content(disc', chains[f]) == Content(disc, chains[f])
    ensures (exists from :: Scan(disc', from).Some? && Scan(disc', from).value in chains[f]) <==> k > 0
  {
    hide Linked, Distinct;
    ObjectFacts(disc, owner, chains, f);
    ChainFacts(disc, owner, chains, f);
    LinkedUnmarked(disc, disc', disc[f].first, chains[f], chains[f], k);
    if from :| Scan(disc', from).Some? && Scan(disc', from).value in chains[f] {
      ScanFacts(disc', from);
      NoSharingSelf(disc, owner, chains, f);
    }
    if k > 0 {
      var p := chains[f][0];
      assert p in chains[f] && p in chains[f][..k];
      LinkedAt(disc, disc[f].first, chains[f], false, 0);
      ScanIs(disc', p - 1, p);
    }
  }

  /** The next file or directory created takes a page of the half-deleted file
      exactly when the first page not in use behind the first free one is among the
      pages of it that were freed. */
  lemma NextCreateShares(disc: Disc, owner: Owners, chains: Chains, f: nat, disc': Disc, k: nat)
    requires Inv(disc, owner, chains) && f in chains && !IsDir(disc, f) && FreedOnly(disc, disc', chains[f], k)
    requires |disc'| > ROOT && disc'[ROOT].Root? && Scan(disc', disc'[ROOT].firstFree).Some?
    ensures var a := disc'[ROOT].firstFree; var d := Scan(disc', a).value;
            (a in PagesOf(chains, f) || d in PagesOf(chains, f)) <==> d in chains[f][..k]
  {
    hide Linked, Distinct;
    HalfDeleted(disc, owner, chains, f, disc', k);
    NoSharingSelf(disc, owner, chains, f);
    ScanFacts(disc', disc'[ROOT].firstFree);
    ChainFacts(disc, owner, chains, f);
  }

  lemma NoSharingSelf(disc: Disc, owner: Owners, chains: Chains, f: nat)
    requires Inv(disc, owner, chains) && f in chains
    ensures disc[ROOT].firstFree !in PagesOf(chains, f)
    ensures forall p :: p in PagesOf(chains, f) ==> p < |disc| && InUse(disc[p])
  {
    hide Linked, Distinct;
    forall p | p in PagesOf(chains, f) ensures p in owner && p < |disc| && InUse(disc[p]) {
      Belongs(disc, owner, chains, f, p);
      assert PageOk(disc, owner, chains, p);
    }
  }

  lemma {:induction false} LinkedUnmarked(disc: Disc, disc': Disc, a: nat, chain: seq<nat>, freed: seq<nat>, k: nat)
    requires Linked(disc, a, chain, false) && FreedOnly(disc, disc', freed, k)
    ensures Linked(disc', a, chain, false) && Content(disc', chain) == Content(disc, chain)
    decreases |chain|
  {
    if chain != [] { LinkedUnmarked(disc, disc', NextOf(disc[a]), chain[1..], freed, k); }
  }

  /** A disc on which this happens: first free page 90, pages 91 to 99 in use, a file
      at 100 with its data at 101, listed by the directory at 70. */
  function Crowded(): (disc: Disc)
    ensures |disc| == 103
  {
    seq(103, i =>
      if i == ROOT then Root(90)
      else if i == 70 then Node(true, true, "d", 0, 71)
      else if i == 71 then Index(true, 0, seq(CHILDREN, j => if j == 0 then 100 else 0))
      else if 91 <= i <= 99 then Data(true, 0, [])
      else if i == 100 then Node(true, false, "f", 70, 101)
      else if i == 101 then Data(true, 0, [1])
      else Blank)
  }

  lemma CrowdedInv()
    ensures Inv(Crowded(), map[70 := 70, 71 := 70, 100 := 100, 101 := 100], map[70 := [71], 100 := [101]])
  {
    var disc, owner, chains := Crowded(), map[70 := 70, 71 := 70, 100 := 100, 101 := 100],
          map[70 := [71], 100 := [101]];
    OneLink(disc, 71, true);
    OneLink(disc, 101, false);
  }

  /** With the deletion of 100 broken off after its one data page, the next file
      created is given that page: the directory still lists a file that now reads
      the new one's bytes. */
  lemma DeleteThenShare()
    ensures var disc' := Crowded()[101 := Data(false, 0, [1])];
            && FreedOnly(Crowded(), disc', [101], 1)
            && disc'[100].first == 101 && 100 in disc'[71].children && Scan(disc', disc'[ROOT].firstFree) == Some(101)
  {
    var disc' := Crowded()[101 := Data(false, 0, [1])];
    assert disc'[71].children[0] == 100 && [101][..1] == [101];
    ScanIs(disc', 90, 101);
  }

  // -------------------------------------------------------- what stays the same

  /** Only these pages may differ. */
  ghost predicate Elsewhere(disc: Disc, disc': Disc, pages: set<nat>) {
    |disc'| == |disc| && forall p :: 0 <= p < |disc| && p !in pages ==> disc'[p] == disc[p]
  }

  function BytesOf(p: Page): seq<Byte> {
    if p.Data? then p.bytes else []
  }

  /** Marks, links and lists may differ, the bytes of files do not. */
  ghost predicate SameBytes(disc: Disc, disc': Disc) {
    |disc'| == |disc| && forall p :: 0 <= p < |disc| ==> BytesOf(disc'[p]) == BytesOf(disc[p])
  }

  lemma {:induction false} ContentKept(disc: Disc, disc': Disc, chain: seq<nat>)
    requires |disc'| == |disc| && forall p :: p in chain && p < |disc| ==> BytesOf(disc'[p]) == BytesOf(disc[p])
    ensures Content(disc', chain) == Content(disc, chain)
  {
    if chain != [] {
      assert forall p :: p in chain[1..] ==> p in chain;
      ContentKept(disc, disc', chain[1..]);
    }
  }

  /** Every file reads as before. */
  ghost predicate SameContents(disc: Disc, disc': Disc, chains: Chains) {
    forall g :: g in chains ==> Content(disc', chains[g]) == Content(disc, chains[g])
  }

  lemma BytesContents(disc: Disc, disc': Disc, chains: Chains)
    requires SameBytes(disc, disc')
    ensures SameContents(disc, disc', chains)
  {
    forall g | g in chains ensures Content(disc', chains[g]) == Content(disc, chains[g]) {
      ContentKept(disc, disc', chains[g]);
    }
  }

  /** Writing to pages that no object owns leaves what every file reads. */
  lemma UnownedContents(disc: Disc, disc': Disc, owner: Owners, chains: Chains, pages: set<nat>)
    requires Inv(disc, owner, chains) && Elsewhere(disc, disc', pages) && forall p :: p in pages ==> p !in owner
    ensures SameContents(disc, disc', chains)
  {
    hide Inv, Content;
    forall g | g in chains ensures Content(disc', chains[g]) == Content(disc, chains[g]) {
      forall p | p in chains[g] && p < |disc| ensures disc'[p] == disc[p] { Belongs(disc, owner, chains, g, p); }
      ContentKept(disc, disc', chains[g]);
    }
  }

  /** The pages create_file and create_dir may write to. */
  function CreatePages(disc: Disc): set<nat> {
    if |disc| <= ROOT || !disc[ROOT].Root? then {}
    else {ROOT, disc[ROOT].firstFree}
         + (if Scan(disc, disc[ROOT].firstFree).Some? then {Scan(disc, disc[ROOT].firstFree).value} else {})
  }

  lemma CreatePagesFree(disc: Disc, owner: Owners, chains: Chains)
    requires Inv(disc, owner, chains)
    ensures forall p :: p in CreatePages(disc) ==> p !in owner
  {
    hide Linked, Distinct, ObjectOk;
    ScanFacts(disc, disc[ROOT].firstFree);
    forall p | p in owner ensures PageOk(disc, owner, chains, p) {}
  }

  class FileSystem {
    var disc: Disc
    var ops: nat                            // disc operations so far
    const faulty: iset<nat>                 // those that fail
    ghost var owner: Owners
    ghost var chains: Chains

    ghost predicate Valid()
      reads this
    {
      Inv(disc, owner, chains)
    }

    /** A disc whose objects are whole, and the operations on it that will fail. */
    constructor (disc: Disc, faulty: iset<nat>, ghost owner: Owners, ghost chains: Chains)
      requires Inv(disc, owner, chains)
      ensures Valid() && this.disc == disc && this.owner == owner && this.chains == chains && this.faulty == faulty
    {
      this.disc, this.faulty, this.ops, this.owner, this.chains := disc, faulty, 0, owner, chains;
    }

    method DiscRead(a: nat) returns (r: Option<Page>)
      modifies this`ops
      ensures r.Some? ==> a < |disc| && r.value == disc[a]
      ensures r.None? ==> a >= |disc| || old(ops) in faulty
      ensures ops == old(ops) + 1
    {
      r := if a < |disc| && ops !in faulty then Some(disc[a]) else None;
      ops := ops + 1;
    }

    method DiscWrite(a: nat, page: Page) returns (ok: bool)
      modifies this`ops, this`disc
      ensures ok ==> a < |old(disc)| && disc == old(disc)[a := page]
      ensures !ok ==> disc == old(disc)
      ensures ok == (a < |old(disc)| && old(ops) !in faulty) && ops == old(ops) + 1
    {
      ok := a < |disc| && ops !in faulty;
      if ok { disc := disc[a := page]; }
      ops := ops + 1;
    }

    /** The first page behind `from` that is not marked in use. */
    method FindFree(from: nat) returns (r: Option<nat>)
      modifies this`ops
      ensures r.Some? ==> r == Scan(disc, from)
      ensures r.None? ==> Scan(disc, from).None? || Faulted(faulty, old(ops), ops)
      ensures ops >= old(ops)
    {
      var node := from;
      while true
        invariant node >= from && ops >= old(ops) && forall p :: from < p <= node && p < |disc| ==> InUse(disc[p])
        decreases |disc| - node
      {
        node := node + 1;
        var page := DiscRead(node);
        if page.None? {
          ScanNone(disc, from);
          return None;
        }
        if !InUse(page.value) {
          ScanIs(disc, from, node);
          return Some(node);
        }
      }
    }

    method ReadRoot() returns (r: Option<nat>)
      requires Valid()
      modifies this`ops
      ensures r.Some? ==> |disc| > ROOT && r.value == disc[ROOT].firstFree && r.value > ROOT && r.value !in owner
      ensures r.None? ==> Faulted(faulty, old(ops), ops)
      ensures ops >= old(ops)
    {
      var root := DiscRead(ROOT);
      if root.None? { return None; }
      return Some(root.value.firstFree);
    }

    /** create_file and create_dir: a new object on two pages that were nobody's. A
        failure on the way, at whatever point, leaves every object whole; without a disc
        error it fails exactly when there is no room. */
    method Create(dir: bool) returns (r: Option<nat>)
      requires Valid()
      modifies this
      ensures Valid()
      ensures r.None? ==> owner == old(owner) && chains == old(chains)
      ensures r.Some? ==>
                r.value == old(disc)[ROOT].firstFree && r.value < |disc| && disc[r.value].Node?
                && disc[r.value].dir == dir
      ensures r.Some? ==> Room(old(disc))
      ensures r.None? ==> !Room(old(disc)) || Faulted(faulty, old(ops), ops)
      ensures r.Some? ==> disc[ROOT] == Root(Scan(old(disc), Scan(old(disc), r.value).value).value)
      ensures r.Some? ==> New(old(owner), old(chains), r.value, Scan(old(disc), r.value).value, owner, chains)
      ensures r.Some? ==> disc[r.value] == Node(true, dir, "", 0, Scan(old(disc), r.value).value)
      ensures Elsewhere(old(disc), disc, CreatePages(old(disc))) && SameContents(old(disc), disc, old(chains))
    {
      hide Linked, Distinct, ObjectOk, PageOk, Inv, SameContents, Scan;
      ghost var pages := CreatePages(disc);
      CreatePagesFree(disc, owner, chains);
      UnownedContents(disc, disc, owner, chains, pages);
      RootFacts(disc, owner, chains);
      var first := ReadRoot();
      if first.None? { return None; }
      var f := first.value;
      var free := FindFree(f);
      if free.None? { return None; }
      var d := free.value;
      ScanFacts(disc, f);
      FreeNotOwned(disc, owner, chains, d);
      NotLive(disc, owner, chains, f);
      ghost var disc0 := disc;
      var ok := WritePair(f, d, dir);
      UnownedContents(disc0, disc, owner, chains, pages);
      if !ok { return None; }
      ScanSame(disc0, disc, d);
      free := FindFree(d);
      if free.None? { return None; }
      ScanFacts(disc, d);
      FreeNotOwned(disc, owner, chains, free.value);
      RootWrite(disc, owner, chains, free.value);
      ok := DiscWrite(ROOT, Root(free.value));
      UnownedContents(disc0, disc, owner, chains, pages);
      if !ok { return None; }
      Adopted(disc, owner, chains, f, d);
      owner, chains := owner[f := f][d := f], chains[f := [d]];
      return Some(f);
    }

    /** The new node and the page hung from it, written to two pages nobody owns. */
    method WritePair(f: nat, d: nat, dir: bool) returns (ok: bool)
      requires Valid() && f !in owner && d !in owner && f != d && f > ROOT && d > ROOT && d < |disc|
      modifies this`disc, this`ops
      ensures Valid() && Elsewhere(old(disc), disc, {f, d})
      ensures ok ==> f < |disc| && disc[f] == Node(true, dir, "", 0, d)
      ensures ok ==> disc[d] == if dir then Index(true, 0, seq(CHILDREN, _ => 0)) else Data(true, 0, [])
      ensures ok ==> dir ==> IndexOk(disc[d], |disc|)
      ensures !ok && f < |disc| ==> Faulted(faulty, old(ops), ops)
      ensures ops >= old(ops)
    {
      hide Linked, Distinct, ObjectOk, PageOk, Inv;
      var node := Node(true, dir, "", 0, d);
      var page := if dir then Index(true, 0, seq(CHILDREN, _ => 0)) else Data(true, 0, []);
      if f < |disc| { UnownedWrite(disc, owner, chains, f, node); }
      ok := DiscWrite(f, node);
      if !ok { return false; }
      UnownedWrite(disc, owner, chains, d, page);
      ok := DiscWrite(d, page);
    }

    /** link_node: the file takes the first empty slot of the directory's first index
        page, which is the one that lookups reach next, so that looking a new name up
        finds it. Without a disc error it fails exactly when that page is full. */
    method Link(d: nat, f: nat, name: string) returns (ok: bool)
      requires Valid() && d in chains && f in chains && IsDir(disc, d)
      modifies this`disc, this`ops
      ensures Valid() && (forall g :: g in chains ==> IsDir(disc, g) == old(IsDir(disc, g)))
      ensures ok ==> f < |disc| && disc[f].Node? && disc[f].parent == d && disc[f].name == name
      ensures var list, list' := FirstIndex(old(disc), chains, d), FirstIndex(disc, chains, d);
              && |list| == CHILDREN
              && (ok ==> exists i :: 0 <= i < CHILDREN && list[i] == 0 && (forall j :: 0 <= j < i ==> list[j] != 0)
                                     && list' == list[i := f] && Shown(list') == Shown(list) + [f])
              && (!ok ==> list' == list && (0 !in list || Faulted(faulty, old(ops), ops)))
      ensures ok && Lookup(old(disc), Seen(Lists(old(disc), chains[d])), name).None? ==>
                Lookup(disc, Seen(Lists(disc, chains[d])), name) == Some(f)
      ensures chains[d] != [] && Elsewhere(old(disc), disc, {f, chains[d][0]}) && SameContents(old(disc), disc, chains)
    {
      hide Linked, Distinct, ObjectOk, PageOk, Inv, SameContents, IndexOk, Shown, Packed;
      BytesSelf(disc);
      BytesContents(disc, disc, chains);
      ObjectFacts(disc, owner, chains, d);
      ObjectFacts(disc, owner, chains, f);
      FirstLink(disc, owner, chains, d);
      IndexFacts(disc[disc[d].first], |disc|);
      var node := DiscRead(d);
      if node.None? { return false; }
      var x := node.value.first;
      var index := DiscRead(x);
      if index.None? { return false; }
      var i := 0;
      while i < CHILDREN
        invariant i <= CHILDREN && Valid() && disc == old(disc) && ops >= old(ops)
        invariant forall j :: 0 <= j < i ==> index.value.children[j] != 0
      {
        if index.value.children[i] == 0 {
          LinkedShown(index.value.children, i, f);
          ok := Attach(d, f, name, x, index.value, i);
          if ok { LinkFound(old(disc), disc, owner, chains, d, f, i, name); }
          assert ok ==> FirstIndex(disc, chains, d) == FirstIndex(old(disc), chains, d)[i := f];
          return ok;
        }
        i := i + 1;
      }
      return false;
    }

    /** The two writes of link_node: the node, then the list. */
    method Attach(d: nat, f: nat, name: string, x: nat, index: Page, i: nat) returns (ok: bool)
      requires Valid() && d in chains && f in chains && IsDir(disc, d)
      requires chains[d] != [] && x == chains[d][0] && x in owner && x < |disc| && index == disc[x] && index.Index?
      requires IndexOk(index, |disc|) && i < CHILDREN && index.children[i] == 0
      requires forall j :: 0 <= j < i ==> index.children[j] != 0
      modifies this`disc, this`ops
      ensures Valid() && (forall g :: g in chains ==> IsDir(disc, g) == old(IsDir(disc, g)))
      ensures ok ==> f < |disc| && disc[f].Node? && disc[f].parent == d && disc[f].name == name
      ensures ok ==> x < |disc| && disc[x] == index.(children := index.children[i := f])
      ensures !ok ==> x < |disc| && disc[x] == index && Faulted(faulty, old(ops), ops)
      ensures Elsewhere(old(disc), disc, {f, x}) && SameContents(old(disc), disc, chains)
    {
      hide Linked, Distinct, ObjectOk, PageOk, Inv, SameContents, SameBytes;
      BytesSelf(disc);
      BytesContents(disc, disc, chains);
      ObjectFacts(disc, owner, chains, d);
      ObjectFacts(disc, owner, chains, f);
      var page := DiscRead(f);
      if page.None? { return false; }
      var node := page.value.(name := name, parent := d);
      NodeWrite(disc, owner, chains, f, name, d);
      ok := DiscWrite(f, node);
      PageBytes(old(disc), f, node);
      BytesContents(old(disc), disc, chains);
      if !ok { return false; }
      var list := index.(children := index.children[i := f]);
      LinkedShown(index.children, i, f);
      assert IndexOk(list, |disc|);
      IndexWrite(disc, owner, chains, x, list.children);
      PageBytes(disc, x, list);
      ghost var disc1 := disc;
      ok := DiscWrite(x, list);
      BytesTwice(old(disc), disc1, disc);
      BytesContents(old(disc), disc, chains);
    }

    /** open_file and open_directory: the first child that the list shows under this name.
        None without a disc error means that no child shown has it. */
    method Open(d: nat, name: string) returns (r: Option<nat>)
      requires Valid() && d in chains && IsDir(disc, d)
      modifies this`ops
      ensures var found := Lookup(disc, Seen(Lists(disc, chains[d])), name);
              (r == found || (r.None? && Faulted(faulty, old(ops), ops)))
    {
      hide Linked, Distinct, ObjectOk, PageOk, Inv, IndexOk, Lookup, Seen;
      var node := DiscRead(d);
      if node.None? { return None; }
      ghost var chain, whole := chains[d], Lookup(disc, Seen(Lists(disc, chains[d])), name);
      ListStart(disc, owner, chains, d);
      var addr := node.value.first;
      ghost var k := 0;
      while true
        invariant k < |chain| && addr == chain[k] && ops >= old(ops)
        invariant Lookup(disc, Seen(Lists(disc, chain[k..])), name) == whole
        decreases |chain| - k
      {
        ListPage(disc, owner, chains, d, k);
        var index := DiscRead(addr);
        if index.None? { return None; }
        ghost var later := Seen(Lists(disc, chain[k + 1..]));
        SeenStep(index.value.children, Lists(disc, chain[k + 1..]));
        assert index.value.children[0..] == index.value.children;
        for i := 0 to CHILDREN
          invariant ops >= old(ops)
          invariant Lookup(disc, From(index.value.children[i..], later), name) == whole
        {
          FromStep(index.value.children, later, i);
          var child := index.value.children[i];
          LookupStep(disc, From(index.value.children[i..], later), name);
          if child == 0 { return None; }
          var page := DiscRead(child);
          if page.None? { return None; }
          if page.value.Node? && page.value.name == name { return Some(child); }
        }
        assert index.value.children[CHILDREN..] == [];
        LookupStep(disc, later, name);
        if index.value.next == 0 { return None; }
        addr := index.value.next;
        k := k + 1;
      }
    }

    /** read_file: the bytes from `offset` on, at most `size` of them, of the chain's
        pages put end to end; a disc error on the way cuts them short. */
    method Read(f: nat, size: nat, offset: nat) returns (bytes: seq<Byte>, ghost fault: bool)
      requires Valid() && f in chains && !IsDir(disc, f)
      modifies this`ops
      ensures !fault ==> bytes == Window(Content(disc, chains[f]), offset, size)
      ensures fault ==> bytes <= Window(Content(disc, chains[f]), offset, size)
      ensures fault ==> Faulted(faulty, old(ops), ops)
    {
      hide Linked, Distinct, ObjectOk, PageOk, Inv, Content;
      ObjectFacts(disc, owner, chains, f);
      var node := DiscRead(f);
      if node.None? { return [], true; }
      ContentAt(disc, owner, chains, f, 0);
      var page := DiscRead(node.value.first);
      if page.None? { return [], true; }
      ghost var i, short;
      var inner;
      page, inner, i, short := Seek(f, page.value, offset);
      if page.None? { return [], !short; }
      bytes, fault := Copy(f, page.value, inner, size, i, offset);
    }

    /** The page and the place in it that `offset` falls on; None past the end
        (`short`) or after a disc error. */
    method Seek(f: nat, start: Page, offset: nat) returns (r: Option<Page>, inner: nat, ghost i: nat, ghost short: bool)
      requires Valid() && f in chains && !IsDir(disc, f) && chains[f] != [] && chains[f][0] < |disc|
               && start == disc[chains[f][0]]
      modifies this`ops
      ensures ops >= old(ops)
      ensures r.Some? ==> At(disc, chains, f, i, r.value, inner, offset)
      ensures r.None? && short ==> offset >= |Content(disc, chains[f])|
      ensures r.None? && !short ==> Faulted(faulty, old(ops), ops)
    {
      hide Linked, Distinct, ObjectOk, PageOk, Inv, Content;
      ghost var chain := chains[f];
      var page := start;
      ContentAt(disc, owner, chains, f, 0);
      inner, i := 0, 0;
      var left: nat := offset;
      while left > 0
        invariant left <= offset && ops >= old(ops) && At(disc, chains, f, i, page, inner, offset - left)
        decreases left, |chain| - i
      {
        ContentAt(disc, owner, chains, f, i);
        if inner < |page.bytes| {
          inner := inner + 1;
          left := left - 1;
        } else {
          if page.next == 0 { return None, inner, i, true; }
          ContentAt(disc, owner, chains, f, i + 1);
          var next := DiscRead(page.next);
          if next.None? { return None, inner, i, false; }
          page := next.value;
          inner := 0;
          i := i + 1;
        }
      }
      return Some(page), inner, i, false;
    }

    /** From there, page by page. */
    method Copy(f: nat, start: Page, from: nat, size: nat, ghost i0: nat, ghost offset: nat)
      returns (bytes: seq<Byte>, ghost fault: bool)
      requires Valid() && f in chains && !IsDir(disc, f) && At(disc, chains, f, i0, start, from, offset)
      modifies this`ops
      ensures !fault ==> bytes == Window(Content(disc, chains[f]), offset, size)
      ensures fault ==> bytes <= Window(Content(disc, chains[f]), offset, size)
      ensures fault ==> Faulted(faulty, old(ops), ops)
    {
      hide Linked, Distinct, ObjectOk, PageOk, Inv, Content;
      ghost var chain, whole, i := chains[f], Content(disc, chains[f]), i0;
      var page: Page, inner: nat := start, from;
      bytes := [];
      var wanted: nat := size;
      ContentAt(disc, owner, chains, f, i);
      while wanted > 0
        invariant At(disc, chains, f, i, page, inner, offset + |bytes|) && offset + |bytes| <= |whole|
        invariant |bytes| + wanted == size && bytes == whole[offset..offset + |bytes|] && ops >= old(ops)
        decreases wanted, |chain| - i
      {
        ContentAt(disc, owner, chains, f, i);
        if inner < |page.bytes| {
          SnocSlice(whole, offset, |bytes|);
          assert page.bytes[inner] == whole[offset + |bytes|];
          bytes := bytes + [page.bytes[inner]];
          inner := inner + 1;
          wanted := wanted - 1;
        } else {
          WindowIs(whole, offset, size, |bytes|);
          if page.next == 0 { return bytes, false; }
          ContentAt(disc, owner, chains, f, i + 1);
          var next := DiscRead(page.next);
          if next.None? { return bytes, true; }
          page := next.value;
          inner := 0;
          i := i + 1;
        }
      }
      WindowIs(whole, offset, size, |bytes|);
      return bytes, false;
    }

    /** delete_file of a linked file: its pages become nobody's and every other object
        keeps its own. It fails only by a disc error. One after `freed` data pages have been written leaves
        the rest of the disc as it was: node, directory (unless it was the last write
        that failed, `struck`) and first free page. With none written the file is
        whole; with one written it can no longer be counted among the objects,
        though its directory still lists it. */
    method Delete(f: nat) returns (ok: bool, ghost freed: nat, ghost struck: bool)
      requires Valid() && f in chains && !IsDir(disc, f) && f < |disc| && disc[f].Node? && disc[f].parent != 0
      modifies this
      ensures Valid() && |disc| == |old(disc)| > ROOT && disc[ROOT].Root?
      ensures freed <= |old(chains)[f]| && old(disc)[f].parent in old(chains)
      ensures freed == 0 ==> !ok && disc == old(disc) && owner == old(owner) && chains == old(chains)
      ensures freed > 0 ==> owner == old(owner) - PagesOf(old(chains), f) && chains == old(chains) - {f}
      ensures ok || struck ==> freed == |old(chains)[f]|
      ensures ok || struck ==> Delisted(old(disc), disc, old(chains)[old(disc)[f].parent], f)
      ensures ok || struck ==> forall p :: p in old(chains)[f] ==> p < |disc| && !InUse(disc[p])
      ensures !ok ==> disc[ROOT] == old(disc)[ROOT] && Faulted(faulty, old(ops), ops)
      ensures !ok && !struck ==> FreedOnly(old(disc), disc, old(chains)[f], freed)
      ensures ok ==> forall p :: p in PagesOf(old(chains), f) ==> disc[ROOT].firstFree <= p
      ensures ok ==> disc[ROOT].firstFree <= old(disc)[ROOT].firstFree
      ensures ok ==> disc[ROOT].firstFree in PagesOf(old(chains), f) + {old(disc)[ROOT].firstFree}
      ensures Elsewhere(old(disc), disc, DeletePages(old(disc), old(chains), f))
      ensures SameContents(old(disc), disc, old(chains))
      ensures disc[f] == old(disc)[f]     // the node is never marked free on the disc
    {
      hide Linked, Distinct, ObjectOk, PageOk, Inv, Delisted, FreedOnly, InUse, SameContents, SameBytes, Elsewhere,
           DeletePages;
      BytesSelf(disc);
      ElsewhereSelf(disc, DeletePages(disc, chains, f));
      BytesContents(disc, disc, chains);
      struck, freed := false, 0;
      ObjectFacts(disc, owner, chains, f);
      ParentFacts(disc, owner, chains, f);
      NoneFreed(disc, chains[f]);
      RootFacts(disc, owner, chains);
      var first := ReadRoot();
      if first.None? { return false, freed, struck; }
      var free := first.value;
      var node := DiscRead(f);
      if node.None? { return false, freed, struck; }
      ChainFacts(disc, owner, chains, f);
      Disowned(disc, owner, chains, f);
      var d := node.value.parent;
      ghost var chain := chains[f];
      Separate(disc, owner, chains, f, d);
      owner, chains := owner - PagesOf(chains, f), chains - {f};
      var gone;
      gone, free, freed := FreeChain(node.value.first, free, chain);
      FreedEffect(old(disc), disc, old(chains), f, node.value.first, freed);
      if !gone {
        if freed == 0 { owner, chains := old(owner), old(chains); }
        return false, freed, struck;
      }
      if f < free { free := f; }
      ok, struck := Erase(d, f, free, chain, old(disc), old(chains));
    }

    /** The last two writes of delete_file: the directory's list, then the root. */
    method Erase(d: nat, f: nat, free: nat, ghost chain: seq<nat>, ghost disc0: Disc, ghost chains0: Chains)
      returns (ok: bool, ghost struck: bool)
      requires Valid() && d in chains && IsDir(disc, d) && free > ROOT && free !in owner && |disc0| == |disc|
      requires f < |disc0| && disc0[f].Node? && disc0[f].parent == d && d in chains0 && chains0[d] == chains[d]
      requires Elsewhere(disc0, disc, DeletePages(disc0, chains0, f)) && SameBytes(disc0, disc)
      requires forall p :: p in chains[d] ==> ROOT < p < |disc| && disc[p] == disc0[p]
      modifies this`disc, this`ops
      ensures Valid() && |disc| == |disc0| > ROOT && disc[ROOT].Root?
      ensures ok ==> struck && disc[ROOT] == Root(free)
      ensures !ok ==> disc[ROOT] == old(disc)[ROOT] && Faulted(faulty, old(ops), ops)
      ensures !struck ==> disc == old(disc)
      ensures struck ==> Delisted(disc0, disc, chains[d], f)
      ensures forall p :: 0 <= p < |disc| && p !in chains[d] && p != ROOT ==> disc[p] == old(disc)[p]
      ensures Elsewhere(disc0, disc, DeletePages(disc0, chains0, f)) && SameContents(disc0, disc, chains0)
    {
      hide Linked, Distinct, ObjectOk, PageOk, Inv, Delisted, InUse, SameContents, SameBytes, Elsewhere, DeletePages;
      ghost var shelf, disc1 := chains[d], disc;
      RootFacts(disc, owner, chains);
      ok := Unlist(d, f);
      struck := ok;
      BytesTwice(disc0, disc1, disc);
      BytesContents(disc0, disc, chains0);
      ShelfElsewhere(disc0, disc1, disc, chains0, f);
      RootFacts(disc, owner, chains);
      if !ok { return; }
      ghost var disc2 := disc;
      RootWrite(disc, owner, chains, free);
      ok := DiscWrite(ROOT, Root(free));
      RootBytes(disc2, free);
      RootElsewhere(disc0, disc2, free, chains0, f);
      BytesTwice(disc0, disc2, disc);
      BytesContents(disc0, disc, chains0);
      DelistedFrame(disc0, disc1, disc2, disc, shelf, f);
    }

    /** The data pages of a deleted file marked free, the lowest kept in mind. */
    method FreeChain(first: nat, free: nat, ghost chain: seq<nat>) returns (ok: bool, free': nat, ghost i: nat)
      requires Valid() && free > ROOT && free !in owner
      requires Linked(disc, first, chain, false) && Distinct(chain)
      requires forall p :: p in chain ==> p > ROOT && p !in owner
      modifies this`disc, this`ops
      ensures Valid() && free' > ROOT && free' !in owner && free' <= free
      ensures free' == free || free' in chain
      ensures FreedOnly(old(disc), disc, chain, i) && (ok <==> i == |chain|)
      ensures ops >= old(ops) && (!ok ==> Faulted(faulty, old(ops), ops))
      ensures ok ==> forall p :: p in chain ==> free' <= p
    {
      hide Linked, Distinct, ObjectOk, PageOk, Inv;
      var addr := first;
      free' := free;
      i := 0;
      WalkStart(disc, first, chain, false);
      forall k | 0 <= k < |chain| ensures chain[k] > ROOT {
        assert chain[k] in chain;
      }
      while addr != 0
        invariant i <= |chain| && addr == (if i < |chain| then chain[i] else 0)
        invariant Valid() && free' > ROOT && free' !in owner && free' <= free && (free' == free || free' in chain)
        invariant forall j :: 0 <= j < i ==> free' <= chain[j]
        invariant FreedOnly(old(disc), disc, chain, i) && ops >= old(ops)
        decreases |chain| - i
      {
        LinkedAt(old(disc), first, chain, false, i);
        Before(chain, i);
        var data := DiscRead(addr);
        if data.None? { return false, free', i; }
        if addr < free' { free' := addr; }
        UnownedWrite(disc, owner, chains, addr, Data(false, data.value.next, data.value.bytes));
        ok := DiscWrite(addr, Data(false, data.value.next, data.value.bytes));
        if !ok { return false, free', i; }
        assert chain[..i + 1] == chain[..i] + [chain[i]];
        addr := data.value.next;
        i := i + 1;
      }
      return true, free', i;
    }

    /** The file struck off its directory's list. */
    method Unlist(d: nat, f: nat) returns (ok: bool)
      requires Valid() && d in chains && IsDir(disc, d)
      modifies this`disc, this`ops
      ensures Valid() && |disc| == |old(disc)|
      ensures forall p :: 0 <= p < |disc| && p !in chains[d] ==> disc[p] == old(disc)[p]
      ensures ok ==> Delisted(old(disc), disc, chains[d], f)
      ensures SameBytes(old(disc), disc)
      ensures !ok ==> disc == old(disc) && Faulted(faulty, old(ops), ops)
      ensures ops >= old(ops)
    {
      hide Linked, Distinct, ObjectOk, PageOk, Inv, IndexOk, Delisted, SameBytes, Struck;
      BytesSelf(disc);
      ObjectFacts(disc, owner, chains, d);
      ChainFacts(disc, owner, chains, d);
      var node := DiscRead(d);
      if node.None? { return false; }
      var addr := node.value.first;
      ghost var chain := chains[d];
      ghost var i := 0;
      WalkStart(disc, addr, chain, true);
      forall k | 0 <= k < |chain| ensures chain[k] > ROOT {
        assert chain[k] in chain;
      }
      while addr != 0
        invariant i <= |chain| && addr == (if i < |chain| then chain[i] else 0) && Valid() && disc == old(disc)
        invariant ops >= old(ops)
        invariant forall k :: 0 <= k < i ==> !Mentions(disc, chain[k], f)
        decreases |chain| - i
      {
        LinkedAt(disc, node.value.first, chain, true, i);
        var index := DiscRead(addr);
        if index.None? { return false; }
        var found, children := Strike(index.value.children, f);
        if found {
          StruckOk(index.value, f, |disc|);
          IndexWrite(disc, owner, chains, addr, children);
          DelistedAt(disc, chain, i, f);
          PageBytes(disc, addr, index.value.(children := children));
          ok := DiscWrite(addr, index.value.(children := children));
          return ok;
        }
        addr := index.value.next;
        i := i + 1;
      }
      DelistedNone(disc, chain, f);
      return true;
    }
  }

  lemma DelistedAt(disc: Disc, chain: seq<nat>, i: nat, f: nat)
    requires Distinct(chain) && i < |chain| && Mentions(disc, chain[i], f)
    requires forall k :: 0 <= k < i ==> !Mentions(disc, chain[k], f)
    ensures var p := chain[i]; Delisted(disc, disc[p := disc[p].(children := Struck(disc[p].children, f))], chain, f)
  {
    hide Struck;
    Apart(chain, i);
    Before(chain, i);
  }

  lemma DelistedNone(disc: Disc, chain: seq<nat>, f: nat)
    requires forall k :: 0 <= k < |chain| ==> !Mentions(disc, chain[k], f)
    ensures Delisted(disc, disc, chain, f)
  {
  }

  /** Entry i dropped, those behind it moved up, the last one zero. */
  method MoveUp(children: seq<nat>, i: nat) returns (r: seq<nat>)
    requires i < |children|
    ensures r == children[..i] + children[i + 1..] + [0]
  {
    r := children;
    for j := i to |children| - 1
      invariant |r| == |children| && r[..i] == children[..i] && r[j..] == children[j..]
      invariant forall k :: i <= k < j ==> r[k] == children[k + 1]
    {
      assert r[j + 1] == r[j..][1] == children[j + 1];
      r := r[j := r[j + 1]];
    }
    r := r[|children| - 1 := 0];
  }

  lemma StruckOk(page: Page, f: nat, size: nat)
    requires IndexOk(page, size)
    ensures IndexOk(page.(children := Struck(page.children, f)), size)
  {
    StruckPacked(page.children, f);
    StruckSize(page.children, f);
    var struck := Struck(page.children, f);
    forall i | 0 <= i < CHILDREN ensures struck[i] < size {
      assert struck[i] in struck;
      if struck[i] != 0 { var j :| 0 <= j < CHILDREN && page.children[j] == struck[i]; }
    }
  }

  predicate Mentions(disc: Disc, p: nat, f: nat) {
    p < |disc| && disc[p].Index? && f in disc[p].children
  }

  /** The first index page of the chain that mentions f has it struck off, and no
      other page of the chain has changed. */
  ghost predicate Delisted(disc: Disc, disc': Disc, chain: seq<nat>, f: nat) {
    && |disc'| == |disc|
    && forall i :: 0 <= i < |chain| && chain[i] < |disc| ==>
         var p := chain[i];
         if Mentions(disc, p, f) && forall k :: 0 <= k < i ==> !Mentions(disc, chain[k], f)
         then disc'[p] == disc[p].(children := Struck(disc[p].children, f))
         else disc'[p] == disc[p]
  }

  /** The first mention of f taken out of a list of children, the rest moved up. */
  method Strike(children: seq<nat>, f: nat) returns (found: bool, r: seq<nat>)
    ensures found <==> f in children
    ensures r == Struck(children, f) && |r| == |children|
  {
    Unstruck(children, f);
    r := children;
    var i := 0;
    while i < |children|
      invariant i <= |children| && f !in children[..i] && r == children
    {
      if children[i] == f {
        r := MoveUp(children, i);
        StruckAt(children, f, i);
        return true, r;
      }
      i := i + 1;
    }
    return false, r;
  }

  /** Byte `inner` of page i of file f is byte `position` of its contents. */
  ghost predicate At(disc: Disc, chains: Chains, f: nat, i: nat, page: Page, inner: nat, position: nat) {
    && f in chains && i < |chains[f]| && chains[f][i] < |disc| && page == disc[chains[f][i]] && page.Data?
    && inner <= |page.bytes| && |Content(disc, chains[f][..i])| + inner == position
  }

  predicate IsDir(disc: Disc, d: nat) {
    d < |disc| && disc[d].Node? && disc[d].dir
  }

  /** f and d, both nobody's before, are all that is new. */
  ghost predicate New(owner: Owners, chains: Chains, f: nat, d: nat, owner': Owners, chains': Chains) {
    && d !in owner && d != f && f !in owner && f !in chains
    && chains' == chains[f := [d]] && owner' == owner[f := f][d := f]
  }

  function FirstIndex(disc: Disc, chains: Chains, d: nat): seq<nat> {
    if d in chains && chains[d] != [] && chains[d][0] < |disc| && disc[chains[d][0]].Index?
    then disc[chains[d][0]].children else []
  }

  lemma ObjectFacts(disc: Disc, owner: Owners, chains: Chains, f: nat)
    requires Inv(disc, owner, chains) && f in chains
    ensures |disc| > ROOT && ROOT < f < |disc| && disc[f].Node? && f in owner && chains[f] != []
    ensures forall p :: p in chains[f] ==> p != f
  {
    assert ObjectOk(disc, owner, chains, f) && PageOk(disc, owner, chains, f);
  }

  lemma Separate(disc: Disc, owner: Owners, chains: Chains, f: nat, d: nat)
    requires Inv(disc, owner, chains) && f in chains && d in chains && IsDir(disc, d) && !IsDir(disc, f)
    ensures forall p :: p in chains[d] ==> ROOT < p < |disc| && p !in chains[f] && p != f
    ensures forall p :: p in chains[f] ==> p < |disc|
  {
    NoSharing(disc, owner, chains, d, f);
    NoSharing(disc, owner, chains, f, d);
    ChainFacts(disc, owner, chains, d);
  }

  /** The pages delete_file may write to. */
  function DeletePages(disc: Disc, chains: Chains, f: nat): set<nat> {
    {ROOT} + (if f in chains then set p | p in chains[f] else {})
    + (if f < |disc| && disc[f].Node? && disc[f].parent in chains then set p | p in chains[disc[f].parent] else {})
  }

  lemma ElsewhereSelf(disc: Disc, pages: set<nat>)
    ensures Elsewhere(disc, disc, pages)
  {
  }

  lemma FreedElsewhere(disc: Disc, disc': Disc, chains: Chains, f: nat, k: nat)
    requires f in chains && FreedOnly(disc, disc', chains[f], k)
    ensures Elsewhere(disc, disc', DeletePages(disc, chains, f))
  {
  }

  lemma FreedEffect(disc: Disc, disc': Disc, chains: Chains, f: nat, a: nat, k: nat)
    requires f in chains && FreedOnly(disc, disc', chains[f], k) && Linked(disc, a, chains[f], false)
    ensures |disc'| == |disc| && k <= |chains[f]| && (k == 0 ==> disc' == disc)
    ensures forall p :: 0 <= p < |disc| && p !in chains[f] ==> disc'[p] == disc[p]
    ensures k == |chains[f]| ==> forall p :: p in chains[f] ==> p < |disc| && !InUse(disc'[p])
    ensures Elsewhere(disc, disc', DeletePages(disc, chains, f)) && SameBytes(disc, disc')
    ensures SameContents(disc, disc', chains)
  {
    hide FreedOnly, DeletePages, Elsewhere, SameBytes, SameContents, InUse, Linked;
    FreedFacts(disc, disc', chains[f], k);
    FreedBytes(disc, disc', chains[f], k);
    BytesContents(disc, disc', chains);
    FreedElsewhere(disc, disc', chains, f, k);
    DataChain(disc, a, chains[f]);
  }

  lemma ShelfElsewhere(disc: Disc, disc1: Disc, disc': Disc, chains: Chains, f: nat)
    requires f < |disc| && disc[f].Node? && disc[f].parent in chains
    requires Elsewhere(disc, disc1, DeletePages(disc, chains, f))
    requires |disc'| == |disc1| && forall p :: 0 <= p < |disc1| && p !in chains[disc[f].parent] ==> disc'[p] == disc1[p]
    ensures Elsewhere(disc, disc', DeletePages(disc, chains, f))
  {
  }

  lemma RootElsewhere(disc: Disc, disc1: Disc, free: nat, chains: Chains, f: nat)
    requires |disc| > ROOT && Elsewhere(disc, disc1, DeletePages(disc, chains, f))
    ensures Elsewhere(disc, disc1, DeletePages(disc, chains, f))
    ensures Elsewhere(disc, disc1[ROOT := Root(free)], DeletePages(disc, chains, f))
  {
  }

  lemma BytesSelf(disc: Disc)
    ensures SameBytes(disc, disc)
  {
  }

  lemma PageBytes(disc: Disc, x: nat, page: Page)
    requires x < |disc| && BytesOf(page) == BytesOf(disc[x])
    ensures SameBytes(disc, disc) && SameBytes(disc, disc[x := page])
  {
  }

  lemma BytesTwice(a: Disc, b: Disc, c: Disc)
    requires SameBytes(a, b) && SameBytes(b, c)
    ensures SameBytes(a, c)
  {
  }

  lemma FreedBytes(disc: Disc, disc': Disc, chain: seq<nat>, k: nat)
    requires FreedOnly(disc, disc', chain, k)
    ensures SameBytes(disc, disc')
  {
  }

  lemma RootBytes(disc: Disc, free: nat)
    requires |disc| > ROOT && disc[ROOT].Root?
    ensures SameBytes(disc, disc) && SameBytes(disc, disc[ROOT := Root(free)])
  {
  }

  lemma DelistedFrame(a: Disc, b: Disc, c: Disc, d: Disc, chain: seq<nat>, f: nat)
    requires Delisted(b, c, chain, f) && |a| == |b| && |c| == |d|
    requires forall p :: p in chain ==> p < |a| && a[p] == b[p] && c[p] == d[p]
    ensures Delisted(a, d, chain, f)
  {
    forall k | 0 <= k < |chain| ensures Mentions(a, chain[k], f) == Mentions(b, chain[k], f) {}
  }

  lemma ParentFacts(disc: Disc, owner: Owners, chains: Chains, f: nat)
    requires Inv(disc, owner, chains) && f in chains && f < |disc| && disc[f].Node? && disc[f].parent != 0
    ensures disc[f].parent in chains && IsDir(disc, disc[f].parent)
    ensures disc[f].parent !in chains[f]
  {
    assert ObjectOk(disc, owner, chains, f) && ObjectOk(disc, owner, chains, disc[f].parent);
  }

  lemma ChainFacts(disc: Disc, owner: Owners, chains: Chains, f: nat)
    requires Inv(disc, owner, chains) && f in chains && f < |disc| && disc[f].Node?
    ensures Linked(disc, disc[f].first, chains[f], disc[f].dir) && Distinct(chains[f])
    ensures forall p :: p in chains[f] ==> p > ROOT && p in owner && p in PagesOf(chains, f)
  {
    assert ObjectOk(disc, owner, chains, f);
    forall p | p in chains[f] ensures p > ROOT { assert PageOk(disc, owner, chains, p); }
  }

  /** The lists on the index pages of a directory. */
  function Lists(disc: Disc, chain: seq<nat>): seq<seq<nat>> {
    if chain == [] then []
    else [if chain[0] < |disc| && disc[chain[0]].Index? then disc[chain[0]].children else []] + Lists(disc, chain[1..])
  }

  lemma {:induction false} ListsSame(disc: Disc, disc': Disc, chain: seq<nat>)
    requires |disc'| == |disc| && forall p :: p in chain && p < |disc| ==> disc'[p] == disc[p]
    ensures Lists(disc', chain) == Lists(disc, chain)
  {
    if chain != [] {
      assert forall p :: p in chain[1..] ==> p in chain;
      ListsSame(disc, disc', chain[1..]);
    }
  }

  /** The index pages behind the first stay as they are when f is linked. */
  lemma LinkLists(disc: Disc, disc': Disc, owner: Owners, chains: Chains, d: nat, f: nat)
    requires Inv(disc, owner, chains) && d in chains && f in chains && IsDir(disc, d)
    requires chains[d] != [] && Elsewhere(disc, disc', {f, chains[d][0]})
    ensures Lists(disc', chains[d][1..]) == Lists(disc, chains[d][1..])
  {
    hide Linked, PageOk;
    assert ObjectOk(disc, owner, chains, d) && ObjectOk(disc, owner, chains, f);
    var chain := chains[d];
    forall p | p in chain[1..] && p < |disc| ensures disc'[p] == disc[p] {
      var i :| 0 <= i < |chain[1..]| && chain[1..][i] == p;
      assert chain[i + 1] == p && chain[0] != chain[i + 1] && p in chain;
    }
    ListsSame(disc, disc', chain[1..]);
  }

  /** A linked file is what lookups of its name find, unless they found another. */
  lemma LinkFound(disc: Disc, disc': Disc, owner: Owners, chains: Chains, d: nat, f: nat, i: nat, name: string)
    requires Inv(disc, owner, chains) && d in chains && f in chains && IsDir(disc, d)
    requires chains[d] != [] && Elsewhere(disc, disc', {f, chains[d][0]}) && Named(disc', f, name)
    requires var x := chains[d][0];
             && x < |disc| && IndexOk(disc[x], |disc|) && i < CHILDREN
             && disc'[x] == disc[x].(children := disc[x].children[i := f])
             && disc[x].children[i] == 0 && forall j :: 0 <= j < i ==> disc[x].children[j] != 0
    ensures Lookup(disc, Seen(Lists(disc, chains[d])), name).None? ==>
              Lookup(disc', Seen(Lists(disc', chains[d])), name) == Some(f)
  {
    hide Inv, Lookup, IndexOk, Seen, Shown;
    ObjectFacts(disc, owner, chains, f);
    LinkLists(disc, disc', owner, chains, d, f);
    IndexFacts(disc[chains[d][0]], |disc|);
    var list, rest := disc[chains[d][0]].children, Lists(disc, chains[d][1..]);
    SeenLinked(list, rest, i, f);
    assert Lists(disc, chains[d]) == [list] + rest && Lists(disc', chains[d]) == [list[i := f]] + rest;
    if Lookup(disc, Shown(list), name).None? { LookupRenamed(disc, disc', Shown(list), f, name); }
  }

  /** What striking a file off does to lookups in the directory: every other child is
      still found exactly when no later page lists any; in a directory of one page, what
      is shown is what was, less the file. */
  lemma DelistedSeen(disc: Disc, disc': Disc, owner: Owners, chains: Chains, d: nat, k: nat, f: nat)
    requires Inv(disc, owner, chains) && d in chains && IsDir(disc, d) && Delisted(disc, disc', chains[d], f) && f != 0
    requires k < |chains[d]| && Mentions(disc, chains[d][k], f)
             && forall j :: 0 <= j < k ==> !Mentions(disc, chains[d][j], f)
    requires Gapless(Lists(disc, chains[d]))
    ensures |Lists(disc, chains[d])| == |chains[d]|
    ensures Gapless(Lists(disc', chains[d])) <==> Entries(Lists(disc, chains[d])[k + 1..]) == []
    ensures |chains[d]| == 1 ==> Seen(Lists(disc', chains[d])) == Less(Seen(Lists(disc, chains[d])), f)
  {
    hide Inv, Gapless, Entries, Delisted, IndexOk, Seen;
    var chain := chains[d];
    IndexChain(disc, owner, chains, d);
    DelistedLists(disc, disc', chain, k, f);
    var lists := Lists(disc, chain);
    assert PackedAll(lists) by {
      forall i | 0 <= i < |lists| ensures Packed(lists[i]) {
        ListsAt(disc, chain, i);
        IndexFacts(disc[chain[i]], |disc|);
      }
    }
    ListsAt(disc, chain, k);
    StruckHides(lists, k, f);
    if |chain| == 1 {
      assert lists == [lists[0]] && lists[0 := Struck(lists[0], f)] == [Struck(lists[0], f)];
      StruckPacked(lists[0], f);
      OnePageSeen(lists[0]);
      OnePageSeen(Struck(lists[0], f));
    }
  }

  lemma IndexChain(disc: Disc, owner: Owners, chains: Chains, d: nat)
    requires Inv(disc, owner, chains) && d in chains && IsDir(disc, d)
    ensures Distinct(chains[d]) && forall i :: 0 <= i < |chains[d]| ==>
              chains[d][i] < |disc| && IndexOk(disc[chains[d][i]], |disc|) && disc[chains[d][i]].Index?
  {
    hide PageOk, IndexOk;
    assert ObjectOk(disc, owner, chains, d);
    forall i | 0 <= i < |chains[d]|
      ensures chains[d][i] < |disc| && IndexOk(disc[chains[d][i]], |disc|) && disc[chains[d][i]].Index?
    {
      LinkedAt(disc, disc[d].first, chains[d], true, i);
      IndexFacts(disc[chains[d][i]], |disc|);
    }
  }

  lemma {:induction false} ListsAt(disc: Disc, chain: seq<nat>, i: nat)
    ensures |Lists(disc, chain)| == |chain|
    ensures i < |chain| && chain[i] < |disc| && disc[chain[i]].Index? ==>
              Lists(disc, chain)[i] == disc[chain[i]].children
  {
    if chain != [] { ListsAt(disc, chain[1..], if i > 0 then i - 1 else 0); }
  }

  lemma DelistedLists(disc: Disc, disc': Disc, chain: seq<nat>, k: nat, f: nat)
    requires Distinct(chain) && Delisted(disc, disc', chain, f) && k < |chain| && Mentions(disc, chain[k], f)
    requires forall j :: 0 <= j < k ==> !Mentions(disc, chain[j], f)
    requires forall i :: 0 <= i < |chain| ==> chain[i] < |disc| && disc[chain[i]].Index?
    ensures |Lists(disc, chain)| == |chain|
    ensures Lists(disc', chain) == Lists(disc, chain)[k := Struck(disc[chain[k]].children, f)]
  {
    var a, b := Lists(disc, chain), Lists(disc', chain);
    ListsAt(disc, chain, k);
    ListsAt(disc', chain, k);
    forall i | 0 <= i < |chain| ensures b[i] == if i == k then Struck(disc[chain[k]].children, f) else a[i] {
      ListsAt(disc, chain, i);
      ListsAt(disc', chain, i);
    }
  }

  lemma ListStart(disc: Disc, owner: Owners, chains: Chains, d: nat)
    requires Inv(disc, owner, chains) && d in chains && IsDir(disc, d)
    ensures chains[d] != [] && disc[d].first == chains[d][0] && chains[d][0..] == chains[d]
  {
    FirstLink(disc, owner, chains, d);
  }

  lemma ListPage(disc: Disc, owner: Owners, chains: Chains, d: nat, k: nat)
    requires Inv(disc, owner, chains) && d in chains && IsDir(disc, d) && k < |chains[d]|
    ensures var p := chains[d][k];
            && p < |disc| && disc[p].Index? && |disc[p].children| == CHILDREN
            && (forall i :: 0 <= i < CHILDREN ==> disc[p].children[i] < |disc|)
            && disc[p].next == (if k + 1 < |chains[d]| then chains[d][k + 1] else 0)
            && (k + 1 < |chains[d]| ==> chains[d][k + 1] != 0)
            && Lists(disc, chains[d][k..]) == [disc[p].children] + Lists(disc, chains[d][k + 1..])
            && (k + 1 == |chains[d]| ==> Lists(disc, chains[d][k + 1..]) == [])
  {
    hide Distinct, PageOk;
    assert ObjectOk(disc, owner, chains, d);
    LinkedAt(disc, disc[d].first, chains[d], true, k);
    if k + 1 < |chains[d]| { LinkedAt(disc, disc[d].first, chains[d], true, k + 1); }
    assert chains[d][k..][1..] == chains[d][k + 1..];
  }

  lemma IndexFacts(page: Page, size: nat)
    requires IndexOk(page, size)
    ensures page.Index? && |page.children| == CHILDREN && Packed(page.children)
    ensures forall i :: 0 <= i < CHILDREN ==> page.children[i] < size
  {
  }

  lemma FirstLink(disc: Disc, owner: Owners, chains: Chains, d: nat)
    requires Inv(disc, owner, chains) && d in chains && IsDir(disc, d)
    ensures chains[d] != [] && disc[d].first == chains[d][0] && disc[d].first in owner
    ensures disc[d].first < |disc| && IndexOk(disc[disc[d].first], |disc|)
  {
    assert ObjectOk(disc, owner, chains, d);
    assert chains[d][0] in chains[d];
  }

  lemma RootFacts(disc: Disc, owner: Owners, chains: Chains)
    requires Inv(disc, owner, chains)
    ensures |disc| > ROOT && disc[ROOT].Root?
  {
  }

  lemma WalkStart(disc: Disc, a: nat, chain: seq<nat>, dir: bool)
    requires Linked(disc, a, chain, dir)
    ensures a == if chain == [] then 0 else chain[0]
  {
  }

  lemma Before(chain: seq<nat>, i: nat)
    requires Distinct(chain) && i < |chain|
    ensures forall j :: 0 <= j < i ==> chain[j] != chain[i]
  {
  }

  lemma Apart(chain: seq<nat>, i: nat)
    requires Distinct(chain) && i < |chain|
    ensures forall j :: i < j < |chain| ==> chain[j] != chain[i]
  {
  }

  lemma {:induction false} ContentConcat(disc: Disc, a: seq<nat>, b: seq<nat>)
    ensures Content(disc, a + b) == Content(disc, a) + Content(disc, b)
  {
    if a == [] {
      assert a + b == b;
    } else {
      assert (a + b)[1..] == a[1..] + b;
      ContentConcat(disc, a[1..], b);
    }
  }

  /** Where the bytes of page i of a file lie in its contents. */
  lemma ContentAt(disc: Disc, owner: Owners, chains: Chains, f: nat, i: nat)
    requires Inv(disc, owner, chains) && f in chains && !IsDir(disc, f)
    ensures f < |disc| && disc[f].Node? && chains[f] != [] && disc[f].first == chains[f][0]
            && Content(disc, chains[f][..0]) == []
    ensures i < |chains[f]| ==>
      var p := chains[f][i]; var whole := Content(disc, chains[f]); var base := |Content(disc, chains[f][..i])|;
      && p < |disc| && disc[p].Data? && base + |disc[p].bytes| <= |whole|
      && (forall k :: 0 <= k < |disc[p].bytes| ==> whole[base + k] == disc[p].bytes[k])
      && |Content(disc, chains[f][..i + 1])| == base + |disc[p].bytes|
      && disc[p].next == (if i + 1 < |chains[f]| then chains[f][i + 1] else 0)
      && (i + 1 < |chains[f]| ==> 0 < chains[f][i + 1] < |disc|)
      && (i + 1 == |chains[f]| ==> |whole| == base + |disc[p].bytes|)
  {
    hide Distinct, PageOk;
    assert ObjectOk(disc, owner, chains, f);
    var chain := chains[f];
    WalkStart(disc, disc[f].first, chain, false);
    if i < |chain| {
      LinkedAt(disc, disc[f].first, chain, false, i);
      if i + 1 < |chain| { LinkedAt(disc, disc[f].first, chain, false, i + 1); }
      OnePage(disc, chain, i);
    }
  }

  lemma OnePage(disc: Disc, chain: seq<nat>, i: nat)
    requires i < |chain| && chain[i] < |disc| && disc[chain[i]].Data?
    ensures var bytes := disc[chain[i]].bytes;
            && Content(disc, chain[..i + 1]) == Content(disc, chain[..i]) + bytes
            && Content(disc, chain) == Content(disc, chain[..i]) + bytes + Content(disc, chain[i + 1..])
            && (i + 1 == |chain| ==> Content(disc, chain[i + 1..]) == [])
  {
    hide Content;
    Halves(chain, i);
    var a, b, c := chain[..i], [chain[i]], chain[i + 1..];
    ContentConcat(disc, a, b);
    ContentConcat(disc, a + b, c);
    OneContent(disc, chain[i]);
  }

  lemma Halves(chain: seq<nat>, i: nat)
    requires i < |chain|
    ensures chain[..i + 1] == chain[..i] + [chain[i]] && chain == chain[..i] + [chain[i]] + chain[i + 1..]
    ensures i + 1 == |chain| ==> chain[i + 1..] == []
  {
  }

  lemma OneContent(disc: Disc, p: nat)
    requires p < |disc| && disc[p].Data?
    ensures Content(disc, [p]) == disc[p].bytes && Content(disc, []) == []
  {
    assert [p][1..] == [];
  }

  lemma FreeNotOwned(disc: Disc, owner: Owners, chains: Chains, p: nat)
    requires Inv(disc, owner, chains) && p < |disc| && !InUse(disc[p])
    ensures p !in owner
  {
    assert forall q :: q in owner ==> PageOk(disc, owner, chains, q);
  }

  lemma NotLive(disc: Disc, owner: Owners, chains: Chains, f: nat)
    requires Inv(disc, owner, chains) && f !in owner
    ensures f !in chains
  {
    assert forall g :: g in chains ==> ObjectOk(disc, owner, chains, g);
  }
}
