/** The pages of PKFS and the list of a directory: pages of children, each read from its
    first slot up to the first that is zero. */
module PkfsList {
  import opened Wrappers

  newtype Byte = x: int | 0 <= x < 256

  datatype Page =
    | Root(firstFree: nat)
    | Node(inUse: bool, dir: bool, name: string, parent: nat, first: nat)
    | Data(inUse: bool, next: nat, bytes: seq<Byte>)
    | Index(inUse: bool, next: nat, children: seq<nat>)
    | Blank

  type Disc = seq<Page>

  const CHILDREN: nat := 60                 // (512 - 2 - 3 * 8) / 8

  // ------------------------------------------------------------ one page of a list

  /** No child stands behind a zero. */
  predicate Packed(children: seq<nat>) {
    forall i, j :: 0 <= i < j < |children| && children[i] == 0 ==> children[j] == 0
  }

  /** An index page of a disc of `size` pages. */
  predicate IndexOk(page: Page, size: nat) {
    && page.Index? && |page.children| == CHILDREN && Packed(page.children)
    && forall i :: 0 <= i < CHILDREN ==> page.children[i] < size
  }

  /** The children that reading from the first slot on shows. */
  function Shown(children: seq<nat>): seq<nat> {
    if children == [] || children[0] == 0 then [] else [children[0]] + Shown(children[1..])
  }

  function NonZero(children: seq<nat>): seq<nat> {
    if children == [] then [] else (if children[0] == 0 then [] else [children[0]]) + NonZero(children[1..])
  }

  lemma {:induction false} AllZero(children: seq<nat>)
    requires forall i :: 0 <= i < |children| ==> children[i] == 0
    ensures NonZero(children) == [] && Shown(children) == []
  {
    if children != [] { AllZero(children[1..]); }
  }

  /** Reading up to the first zero shows every child exactly when the page is packed. */
  lemma {:induction false} PackedShows(children: seq<nat>)
    ensures Shown(children) == NonZero(children) <==> Packed(children)
  {
    if children != [] {
      PackedShows(children[1..]);
      if children[0] != 0 {
        if Packed(children[1..]) { PackedCons(children); }
        if Packed(children) { PackedTail(children); }
        Cancel([children[0]], Shown(children[1..]), NonZero(children[1..]));
      } else if Packed(children) {
        AllZero(children[1..]);
      } else {
        var i, j :| 0 <= i < j < |children| && children[i] == 0 && children[j] != 0;
        HasNonZero(children, j);
      }
    }
  }

  lemma Cancel(a: seq<nat>, b: seq<nat>, c: seq<nat>)
    ensures a + b == a + c <==> b == c
  {
    assert b == (a + b)[|a|..] && c == (a + c)[|a|..];
  }

  lemma PackedTail(children: seq<nat>)
    requires children != [] && Packed(children)
    ensures Packed(children[1..])
  {
    var rest := children[1..];
    forall i, j | 0 <= i < j < |rest| && rest[i] == 0 ensures rest[j] == 0 { assert children[i + 1] == 0; }
  }

  lemma PackedCons(children: seq<nat>)
    requires children != [] && children[0] != 0 && Packed(children[1..])
    ensures Packed(children)
  {
    forall i, j | 0 <= i < j < |children| && children[i] == 0 ensures children[j] == 0 {
      assert children[1..][i - 1] == 0 && children[1..][j - 1] == children[j];
    }
  }

  lemma {:induction false} HasNonZero(children: seq<nat>, j: nat)
    requires j < |children| && children[j] != 0
    ensures NonZero(children) != []
  {
    if j > 0 { HasNonZero(children[1..], j - 1); }
  }

  lemma {:induction false} ShownPrefix(children: seq<nat>, i: nat)
    requires i <= |children| && (forall j :: 0 <= j < i ==> children[j] != 0)
    requires i < |children| ==> children[i] == 0
    ensures Shown(children) == children[..i]
  {
    if i > 0 {
      ShownPrefix(children[1..], i - 1);
      assert children[..i] == [children[0]] + children[1..][..i - 1];
    }
  }

  // ------------------------------------------------------------------- striking off

  /** A list of children without its first mention of f, the rest moved up. */
  function Struck(children: seq<nat>, f: nat): seq<nat> {
    if children == [] then []
    else if children[0] == f then children[1..] + [0]
    else [children[0]] + Struck(children[1..], f)
  }

  lemma {:induction false} StruckAt(children: seq<nat>, f: nat, i: nat)
    requires i < |children| && children[i] == f && f !in children[..i]
    ensures Struck(children, f) == children[..i] + children[i + 1..] + [0]
  {
    if i > 0 {
      assert children[0] in children[..i] && children[1..][..i - 1] == children[..i][1..];
      StruckAt(children[1..], f, i - 1);
      assert children[..i] == [children[0]] + children[1..][..i - 1];
    }
  }

  lemma {:induction false} Unstruck(children: seq<nat>, f: nat)
    ensures f !in children ==> Struck(children, f) == children
  {
    if children != [] { Unstruck(children[1..], f); }
  }

  lemma {:induction false} StruckSize(children: seq<nat>, f: nat)
    ensures |Struck(children, f)| == |children|
    ensures forall x :: x in Struck(children, f) ==> x in children || x == 0
  {
    if children != [] && children[0] != f { StruckSize(children[1..], f); }
  }

  /** The first mention of f taken out of what is shown. */
  function Less(shown: seq<nat>, f: nat): seq<nat> {
    if shown == [] then [] else if shown[0] == f then shown[1..] else [shown[0]] + Less(shown[1..], f)
  }

  /** Striking off keeps a page packed, and takes one child out of what it shows. */
  lemma {:induction false} StruckPacked(children: seq<nat>, f: nat)
    requires Packed(children)
    ensures Packed(Struck(children, f))
    ensures f != 0 ==> Shown(Struck(children, f)) == Less(Shown(children), f)
  {
    if children != [] {
      var rest := children[1..];
      PackedTail(children);
      StruckPacked(rest, f);
      var struck := Struck(children, f);
      if children[0] == f {
        PackedZero(rest);
      } else {
        StruckSize(rest, f);
        assert struck[1..] == Struck(rest, f);
        if children[0] != 0 {
          PackedCons(struck);
        } else {
          assert forall x :: x in rest ==> x == 0;
          assert forall i :: 0 <= i < |struck| ==> struck[i] == 0;
        }
      }
    }
  }

  lemma {:induction false} PackedZero(children: seq<nat>)
    requires Packed(children)
    ensures Packed(children + [0]) && Shown(children + [0]) == Shown(children)
  {
    if children != [] {
      var rest := children[1..];
      assert (children + [0])[1..] == rest + [0];
      PackedTail(children);
      PackedZero(rest);
    }
  }

  // --------------------------------------------------------------------- linking

  /** A child put in the first empty slot of a packed page keeps it packed, and is shown
      after all the others. */
  lemma LinkedShown(children: seq<nat>, i: nat, f: nat)
    requires Packed(children) && i < |children| && children[i] == 0 && f != 0
    requires forall j :: 0 <= j < i ==> children[j] != 0
    ensures Packed(children[i := f]) && Shown(children) == children[..i]
    ensures Shown(children[i := f]) == children[..i] + [f]
  {
    var more := children[i := f];
    assert Packed(more);
    ShownPrefix(children, i);
    ShownPrefix(more, i + 1);
    assert more[..i + 1] == children[..i] + [f];
  }

  /** In a later slot it would not be shown at all. */
  lemma LaterSlotHidden(children: seq<nat>, i: nat, k: nat, f: nat)
    requires Packed(children) && i < k < |children| && children[i] == 0
    requires forall j :: 0 <= j < i ==> children[j] != 0
    ensures Shown(children[k := f]) == Shown(children)
    ensures f != 0 ==> !Packed(children[k := f])
  {
    ShownPrefix(children, i);
    ShownPrefix(children[k := f], i);
    assert children[k := f][..i] == children[..i];
    assert children[k := f][i] == 0 && children[k := f][k] == f;
  }

  // ------------------------------------------------------------ the whole of a list

  /** What open_file, open_directory and the iterator come across: page after page, up to
      the first empty slot of all. */
  function Seen(lists: seq<seq<nat>>): seq<nat> {
    if lists == [] then []
    else if 0 in lists[0] then Shown(lists[0])
    else lists[0] + Seen(lists[1..])
  }

  /** Every child on the list. */
  function Entries(lists: seq<seq<nat>>): seq<nat> {
    if lists == [] then [] else NonZero(lists[0]) + Entries(lists[1..])
  }

  ghost predicate PackedAll(lists: seq<seq<nat>>) {
    forall i :: 0 <= i < |lists| ==> Packed(lists[i])
  }

  lemma {:induction false} ShownFull(children: seq<nat>)
    ensures 0 !in children ==> Shown(children) == children && NonZero(children) == children
  {
    if children != [] { ShownFull(children[1..]); }
  }

  /** No child stands on a page behind one that is not full. */
  predicate Gapless(lists: seq<seq<nat>>) {
    lists != [] ==> (0 in lists[0] ==> Entries(lists[1..]) == []) && Gapless(lists[1..])
  }

  /** Everything listed is found exactly when there is no such gap. */
  lemma {:induction false} SeenAll(lists: seq<seq<nat>>)
    requires PackedAll(lists)
    ensures Seen(lists) == Entries(lists) <==> Gapless(lists)
  {
    if lists != [] {
      var rest := lists[1..];
      assert PackedAll(rest);
      SeenAll(rest);
      PackedShows(lists[0]);
      ShownFull(lists[0]);
      if 0 in lists[0] {
        Cancel(NonZero(lists[0]), [], Entries(rest));
        if Entries(rest) == [] { NoneLater(rest); }
      } else {
        Cancel(lists[0], Seen(rest), Entries(rest));
      }
    }
  }

  lemma {:induction false} NoneLater(lists: seq<seq<nat>>)
    requires Entries(lists) == []
    ensures Gapless(lists)
  {
    if lists != [] { NoneLater(lists[1..]); }
  }

  /** A directory of one page, as all are that this code makes: everything listed is
      found. */
  lemma OnePageSeen(children: seq<nat>)
    ensures Packed(children) ==> Seen([children]) == Entries([children]) == Shown(children) == NonZero(children)
  {
    PackedShows(children);
    ShownFull(children);
    assert Seen([]) == [] && Entries([]) == [];
  }

  /** Striking a child off page k leaves every other one to be found exactly when it
      was the last page with any: the page it is struck off is no longer full, and reading
      stops there. */
  lemma {:induction false} StruckHides(lists: seq<seq<nat>>, k: nat, f: nat)
    requires PackedAll(lists) && Gapless(lists) && k < |lists| && f in lists[k] && f != 0
    ensures Gapless(lists[k := Struck(lists[k], f)]) <==> Entries(lists[k + 1..]) == []
  {
    var less, rest := lists[k := Struck(lists[k], f)], lists[1..];
    if k == 0 {
      StruckZero(lists[0], f);
      assert less[1..] == rest;
    } else {
      assert PackedAll(rest);
      assert less[1..] == rest[k - 1 := Struck(rest[k - 1], f)] && lists[k + 1..] == rest[k..];
      StruckHides(rest, k - 1, f);
      ListedThere(rest, k - 1, f);
    }
  }

  lemma StruckZero(children: seq<nat>, f: nat)
    requires f in children
    ensures 0 in Struck(children, f)
  {
    var i := FirstAt(children, f);
    StruckAt(children, f, i);
    var struck := Struck(children, f);
    assert struck[|struck| - 1] == 0;
  }

  lemma {:induction false} ListedThere(lists: seq<seq<nat>>, k: nat, f: nat)
    requires k < |lists| && f in lists[k] && f != 0
    ensures Entries(lists) != []
  {
    if k == 0 {
      var i := FirstAt(lists[0], f);
      HasNonZero(lists[0], i);
    } else {
      ListedThere(lists[1..], k - 1, f);
    }
  }

  function FirstAt(children: seq<nat>, f: nat): (i: nat)
    requires f in children
    ensures i < |children| && children[i] == f && f !in children[..i]
  {
    if children[0] == f then 0
    else
      var i := FirstAt(children[1..], f);
      assert children[..i + 1] == [children[0]] + children[1..][..i];
      i + 1
  }

  /** What reading on from here comes across, with `later` behind this page. */
  function From(children: seq<nat>, later: seq<nat>): seq<nat> {
    if children == [] then later
    else if children[0] == 0 then []
    else [children[0]] + From(children[1..], later)
  }

  lemma FromStep(children: seq<nat>, later: seq<nat>, i: nat)
    requires i < |children|
    ensures From(children[i..], later) ==
            if children[i] == 0 then [] else [children[i]] + From(children[i + 1..], later)
  {
    assert children[i..][1..] == children[i + 1..];
  }

  lemma {:induction false} FromIs(children: seq<nat>, later: seq<nat>)
    ensures From(children, later) == if 0 in children then Shown(children) else children + later
  {
    if children == [] {
      assert children + later == later;
    } else {
      FromIs(children[1..], later);
      assert children + later == [children[0]] + (children[1..] + later);
    }
  }

  lemma SeenStep(children: seq<nat>, rest: seq<seq<nat>>)
    ensures Seen([children] + rest) == From(children, Seen(rest)) && Seen([]) == []
  {
    FromIs(children, Seen(rest));
  }

  // ----------------------------------------------------------------- looking up

  /** A child linked into the first page of a list is come across after those before it. */
  lemma SeenLinked(children: seq<nat>, rest: seq<seq<nat>>, i: nat, f: nat)
    requires Packed(children) && i < |children| && children[i] == 0 && f != 0
    requires forall j :: 0 <= j < i ==> children[j] != 0
    ensures Seen([children] + rest) == Shown(children)
    ensures Seen([children[i := f]] + rest) ==
            Shown(children) + [f] + if 0 in children[i := f] then [] else Seen(rest)
  {
    LinkedShown(children, i, f);
    FromIs(children, Seen(rest));
    ShownFull(children[i := f]);
    assert children[i] == 0;
  }

  predicate Named(disc: Disc, p: nat, name: string) {
    p < |disc| && disc[p].Node? && disc[p].name == name
  }

  /** The first of these nodes with the name. */
  function Lookup(disc: Disc, nodes: seq<nat>, name: string): Option<nat> {
    if nodes == [] then None
    else if Named(disc, nodes[0], name) then Some(nodes[0])
    else Lookup(disc, nodes[1..], name)
  }

  lemma LookupStep(disc: Disc, nodes: seq<nat>, name: string)
    ensures Lookup(disc, nodes, name) ==
            if nodes == [] then None
            else if Named(disc, nodes[0], name) then Some(nodes[0])
            else Lookup(disc, nodes[1..], name)
  {
  }

  lemma {:induction false} LookupSkip(disc: Disc, nodes: seq<nat>, more: seq<nat>, name: string)
    ensures Lookup(disc, nodes + more, name) ==
            if Lookup(disc, nodes, name).Some? then Lookup(disc, nodes, name) else Lookup(disc, more, name)
  {
    if nodes == [] {
      assert nodes + more == more;
    } else {
      assert (nodes + more)[1..] == nodes[1..] + more;
      LookupSkip(disc, nodes[1..], more, name);
    }
  }

  /** When only f is renamed, and nobody had the new name, looking it up finds f. */
  lemma {:induction false} LookupRenamed(disc: Disc, disc': Disc, nodes: seq<nat>, f: nat, name: string)
    requires Lookup(disc, nodes, name).None? && Named(disc', f, name)
    requires forall p :: p in nodes && p != f ==> (Named(disc', p, name) <==> Named(disc, p, name))
    ensures Lookup(disc', nodes + [f], name) == Some(f)
    ensures forall more :: Lookup(disc', nodes + [f] + more, name) == Some(f)
  {
    if nodes == [] {
      assert [] + [f] == [f];
    } else {
      assert (nodes + [f])[1..] == nodes[1..] + [f];
      LookupRenamed(disc, disc', nodes[1..], f, name);
    }
    forall more ensures Lookup(disc', nodes + [f] + more, name) == Some(f) {
      LookupSkip(disc', nodes + [f], more, name);
    }
  }
}
