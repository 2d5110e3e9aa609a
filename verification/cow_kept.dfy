/** Roots that the kernel keeps a handle on while it lends them: its own image, the
    frame buffer, a segment about to be filled. */
module CowKept {
  import opened Wrappers
  import opened CowState
  import opened CowBase
  import opened CowView
  import opened CowFault
  import opened CowStore
  import Eager

  /** What the pages of a root hold. */
  predicate Holds(mem: map<Frame, Page>, frames: seq<Frame>, pages: seq<Page>) {
    && |pages| == |frames|
    && forall i :: 0 <= i < |frames| ==> frames[i] in mem && pages[i] == mem[frames[i]]
  }

  /** A root may be lent once more as SHARED if it is lent to nobody, or is shared
      memory to all it is lent to and to the new one. */
  predicate MayLend(lends: map<Id, Lend>, r: Id, prot: Prot) {
    forall a :: a in lends && lends[a].lender == r ==> prot.shared && lends[a].prot.shared
  }

  ghost predicate CanKeep(s: State, r: Id, frames: seq<Frame>, init: seq<Page>) {
    FreshId(s, r) && FreshFrames(s, frames) && |frames| == |init|
  }

  ghost predicate IsKept(s: State, r: Id) {
    r in s.roots && r in s.handles && s.handles[r] > 0 && s.roots[r].refs > 0
  }

  ghost predicate CanLendKept(s: State, c: Ctx, v: nat, r: Id, id: Id, pages: seq<Page>) {
    && c in s.lists && c in s.pt && c in s.reserved && IsKept(s, r) && FreshId(s, id)
    && |s.roots[r].frames| > 0 && SpanFree(s.reserved, c, v, |s.roots[r].frames|)
    && Holds(s.mem, s.roots[r].frames, pages)
  }

  /** pman_context_add_shared of a root whose handle stays with the kernel. */
  ghost function LendKept(s: State, c: Ctx, v: nat, prot: Prot, r: Id, id: Id): State
    requires r in s.roots && c in s.lists && c in s.pt && c in s.reserved
  {
    AddLend(s, id, c, Shared, prot, r, v)
  }

  lemma KeepOk(s: State, r: Id, kind: RootKind, frames: seq<Frame>, init: seq<Page>)
    requires Inv(s) && CanKeep(s, r, frames, init)
    ensures Inv(AddRoot(s, r, kind, frames, init)) && Abs(AddRoot(s, r, kind, frames, init)) == Abs(s)
  {
    hide Base, View, ModesOk, StacksOk, FreshFrames, Places, Contents;
    AddRootInvisible(s, r, kind, frames, init);
    AbsSame(s, AddRoot(s, r, kind, frames, init));
  }

  lemma LetGoOk(s: State, r: Id)
    requires Inv(s) && IsKept(s, r)
    ensures Inv(Release(s, r)) && Abs(Release(s, r)) == Abs(s)
  {
    hide Base, View, ModesOk, StacksOk, Release;
    ReleaseInvisible(s, r);
    ReleaseLinks(s, r);
    AbsSame(s, Release(s, r));
  }

  lemma ReleaseLinks(s: State, r: Id)
    requires IsKept(s, r)
    ensures Release(s, r).lends == s.lends && Release(s, r).lists == s.lists && Release(s, r).stacks == s.stacks
  {
    ReleaseIs(s, r);
  }

  /** Lending shows the new process exactly the root's pages and no other process
      anything; the whole invariant stays exactly when the root may be lent so. */
  lemma LendKeptOk(s: State, c: Ctx, v: nat, prot: Prot, r: Id, id: Id, pages: seq<Page>)
    requires Inv(s) && CanLendKept(s, c, v, r, id, pages)
    ensures var t := LendKept(s, c, v, prot, r, id);
            && Base(t) && StacksOk(t.lists, t.stacks) && c in Abs(s)
            && Abs(t) == Abs(s)[c := Abs(s)[c] + Eager.NewCells(v, prot, r, pages)]
    ensures Inv(LendKept(s, c, v, prot, r, id)) <==> MayLend(s.lends, r, prot)
  {
    hide Base, View, ModesOk, StacksOk, LendCells, Eager.NewCells, Entries, Reserve, SpanFree, Holds, MayLend;
    LendKeptViews(s, c, v, prot, r, id, pages);
    ModesLend(s.lends, id, Lend(c, Shared, prot, r, v, |s.roots[r].frames|));
    StacksGrow(s.lists, s.stacks, c, id);
  }

  lemma LendKeptViews(s: State, c: Ctx, v: nat, prot: Prot, r: Id, id: Id, pages: seq<Page>)
    requires Base(s) && CanLendKept(s, c, v, r, id, pages)
    ensures var t := LendKept(s, c, v, prot, r, id);
            && Base(t) && t.pt.Keys == s.pt.Keys
            && View(t, c) == View(s, c) + Eager.NewCells(v, prot, r, pages)
            && forall d :: d in s.pt && d != c ==> View(t, d) == View(s, d)
  {
    hide Base, View, LendCells, Eager.NewCells, Entries, Reserve, SpanFree, Holds;
    ContextFact(s, c);
    AddLendBase(s, id, c, Shared, prot, r, v);
    HoldsCells(s.mem, s.roots[r].frames, pages, Lend(c, Shared, prot, r, v, |s.roots[r].frames|));
    ViewAddLend(s, id, c, Shared, prot, r, v);
    forall d | d in s.pt && d != c ensures View(LendKept(s, c, v, prot, r, id), d) == View(s, d) {
      ViewAddLendOther(s, id, c, Shared, prot, r, v, d);
    }
  }

  lemma HoldsCells(mem: map<Frame, Page>, frames: seq<Frame>, pages: seq<Page>, l: Lend)
    requires Holds(mem, frames, pages) && l.pages == |frames| && l.kind.Shared?
    ensures Filled(mem, frames) && LendCells(mem, frames, l) == Eager.NewCells(l.vpage, l.prot, l.lender, pages)
  {
    var a, b := LendCells(mem, frames, l), Eager.NewCells(l.vpage, l.prot, l.lender, pages);
    assert forall p: nat :: InSpan(l, p) <==> Eager.Pages(l.vpage, |pages|, p);
    assert a.Keys == b.Keys;
  }

  lemma ModesLend(lends: map<Id, Lend>, id: Id, l: Lend)
    requires ModesOk(lends) && id !in lends && l.kind.Shared?
    ensures ModesOk(lends[id := l]) <==> MayLend(lends, l.lender, l.prot)
  {
    var more := lends[id := l];
    if !MayLend(lends, l.lender, l.prot) {
      var a :| a in lends && lends[a].lender == l.lender && !(l.prot.shared && lends[a].prot.shared);
      assert more[a] == lends[a] && more[id] == l && a != id;
    }
  }
}
