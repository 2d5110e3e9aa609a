/** Freeing a process's context: the loop ends, and gives back every count. */
module CowExit {
  import opened CowState
  import opened CowBase
  import opened CowView
  import opened CowSteps
  import opened CowFault
  import opened CowStore

  function Others(lends: map<Id, Lend>, c: Ctx): map<Id, Lend> {
    map id | id in lends && lends[id].ctx != c :: lends[id]
  }

  /** Roots go only when nothing holds them any more; the rest keep their handles. */
  ghost predicate RootsReturned(s: State, t: State) {
    && (forall r :: r in t.roots ==>
          r in s.roots && r in t.handles && r in s.handles && t.handles[r] == s.handles[r]
          && t.roots[r].frames == s.roots[r].frames)
    && (forall r :: r in s.roots && r !in t.roots ==> r in s.handles && s.handles[r] == 0 && LentFrom(t.lends, r) == {})
  }

  lemma DropRoots(s: State, id: Id)
    requires Base(s) && Linked(s, id)
    ensures RootsReturned(s, Drop(s, id))
  {
    hide ListsOk, FramesOk, SlotsOk, NoStraySlots, Without, SpanOf, LendersOk, Filled;
    var r := s.lends[id].lender;
    if s.roots[r].refs == 1 {
      LastLent(s, id);
      CountsDrop(s.roots, s.handles, s.lends, id);
    }
  }

  lemma LastLent(s: State, id: Id)
    requires Base(s) && Linked(s, id) && s.roots[s.lends[id].lender].refs == 1
    ensures s.handles[s.lends[id].lender] == 0
  {
    hide ListsOk, FramesOk, TablesOk, LendersOk, Filled;
    assert id in LentFrom(s.lends, s.lends[id].lender);
  }

  lemma RootsReturnedTrans(s: State, t: State, u: State)
    requires RootsReturned(s, t) && RootsReturned(t, u) && u.lends.Keys <= t.lends.Keys
    requires forall id :: id in u.lends ==> u.lends[id] == t.lends[id]
    ensures RootsReturned(s, u)
  {
    forall r | r in s.roots && r !in u.roots ensures s.handles[r] == 0 && LentFrom(u.lends, r) == {} {
      if r !in t.roots {
        assert LentFrom(u.lends, r) <= LentFrom(t.lends, r);
      }
    }
  }

  ghost predicate Emptied(s: State, t: State, c: Ctx) {
    && Base(t) && ModesOk(t.lends)
    && t.lends == Others(s.lends, c)
    && c in t.lists && t.lists[c] == [] && t.stacks == s.stacks && t.pt.Keys == s.pt.Keys
    && t.lists.Keys == s.lists.Keys && (forall d :: d in s.lists && d != c ==> t.lists[d] == s.lists[d])
    && (forall d :: d in s.pt && d != c ==> View(t, d) == View(s, d))
    && RootsReturned(s, t)
  }

  lemma EmptyList(s: State, c: Ctx)
    requires Base(s) && c in s.lists && s.lists[c] == []
    ensures Others(s.lends, c) == s.lends
  {
    hide FramesOk, TablesOk, CountsOk;
  }

  lemma HeadLinked(s: State, c: Ctx)
    requires Base(s) && c in s.lists && s.lists[c] != []
    ensures Linked(s, s.lists[c][0]) && s.lends[s.lists[c][0]].ctx == c
  {
    hide FramesOk, TablesOk, CountsOk;
    assert s.lists[c][0] in s.lists[c];
    LendFact(s, s.lists[c][0]);
  }

  lemma DropHead(s: State, id: Id, c: Ctx)
    requires Base(s) && ModesOk(s.lends) && Linked(s, id) && s.lends[id].ctx == c
    ensures var t := Drop(s, id);
            && Base(t) && ModesOk(t.lends) && t.pt.Keys == s.pt.Keys && t.stacks == s.stacks
            && t.lists.Keys == s.lists.Keys && (forall d :: d in s.lists && d != c ==> t.lists[d] == s.lists[d])
            && |t.lists[c]| < |s.lists[c]| && t.lends == s.lends - {id}
            && (forall d :: d in s.pt && d != c ==> View(t, d) == View(s, d))
  {
    hide Base, ModesOk, View, Without, SpanOf;
    DropBase(s, id);
    ModesShrink(s.lends, {id});
    ContextFact(s, c);
    LendFact(s, id);
    forall d | d in s.pt && d != c ensures View(Drop(s, id), d) == View(s, d) { ViewDrop(s, id, d); }
  }

  lemma {:induction false} DropAllOk(s: State, c: Ctx)
    requires Base(s) && ModesOk(s.lends) && c in s.lists
    ensures Emptied(s, DropAll(s, c), c)
    decreases |s.lists[c]|
  {
    hide Base, View, ModesOk, Linked, Drop, RootsReturned;
    if s.lists[c] == [] {
      EmptyList(s, c);
      assert RootsReturned(s, s) by { SelfReturned(s); }
    } else {
      HeadLinked(s, c);
      var id := s.lists[c][0];
      var t := Drop(s, id);
      DropHead(s, id, c);
      DropRoots(s, id);
      DropAllOk(t, c);
      assert Others(t.lends, c) == Others(s.lends, c);
      RootsReturnedTrans(s, t, DropAll(t, c));
    }
  }

  lemma SelfReturned(s: State)
    requires Base(s)
    ensures RootsReturned(s, s)
  {
    hide ListsOk, FramesOk, SlotsOk, NoStraySlots;
  }

  lemma ForgetTables(roots: map<Id, Root>, lends: map<Id, Lend>, pt: map<Ctx, map<nat, Pte>>,
                     reserved: map<Ctx, map<nat, Id>>, c: Ctx)
    requires LendersOk(roots, lends) && SlotsOk(roots, lends, pt, reserved) && NoStraySlots(lends, pt, reserved)
    requires forall id :: id in lends ==> lends[id].ctx != c
    ensures SlotsOk(roots, lends, pt - {c}, reserved - {c}) && NoStraySlots(lends, pt - {c}, reserved - {c})
  {
    var pt', res' := pt - {c}, reserved - {c};
    forall id, p | id in lends && InSpan(lends[id], p)
      ensures lends[id].ctx in pt' && lends[id].ctx in res'
      ensures SlotOk(roots[lends[id].lender].frames, id, lends[id], pt'[lends[id].ctx], res'[lends[id].ctx], p)
    {
      assert SlotOk(roots[lends[id].lender].frames, id, lends[id], pt[lends[id].ctx], reserved[lends[id].ctx], p);
    }
  }

  lemma ForgetLists(lends: map<Id, Lend>, lists: map<Ctx, seq<Id>>, c: Ctx)
    requires ListsOk(lends, lists) && forall id :: id in lends ==> lends[id].ctx != c
    ensures ListsOk(lends, lists - {c})
  {
  }

  function Forget(s: State, c: Ctx): State {
    s.(lists := s.lists - {c}, pt := s.pt - {c}, reserved := s.reserved - {c}, stacks := s.stacks - {c})
  }

  lemma ForgetBase(s: State, c: Ctx)
    requires Base(s) && forall id :: id in s.lends ==> s.lends[id].ctx != c
    ensures Base(Forget(s, c))
  {
    hide ListsOk, LendersOk, FramesOk, SlotsOk, NoStraySlots, CountsOk;
    ForgetTables(s.roots, s.lends, s.pt, s.reserved, c);
    ForgetLists(s.lends, s.lists, c);
  }

  lemma ForgetView(s: State, c: Ctx, d: Ctx)
    requires d in s.pt && d != c
    ensures View(Forget(s, c), d) == View(s, d)
  {
    OtherView(s, Forget(s, c), d);
  }

  /** pman_free_context on a process's context: it ends with the context empty
      and gone, every other process's mappings and memory untouched, and each
      root kept exactly while something still holds it. */
  lemma ExitOk(s: State, c: Ctx)
    requires Inv(s) && c in s.lists
    ensures var t := Exit(s, c);
            && Inv(t) && t.pt.Keys == s.pt.Keys - {c} && t.lends == Others(s.lends, c)
            && RootsReturned(s, t)
            && forall d :: d in s.pt && d != c ==> View(t, d) == View(s, d)
  {
    hide Base, View, ModesOk, RootsReturned, DropAll;
    ContextFact(s, c);
    var s0 := s.(stacks := s.stacks[c := []]);
    QuietThreads(s, c);
    DropAllOk(s0, c);
    var s1 := DropAll(s0, c);
    ForgetBase(s1, c);
    var t := Forget(s1, c);
    forall d | d in s1.pt && d != c ensures View(t, d) == View(s1, d) { ForgetView(s1, c, d); }
    assert t == Exit(s, c);
    ContextFact(s1, c);
    ReturnedFrame(s, s0, s1, t);
  }

  lemma ReturnedFrame(s: State, s0: State, s1: State, t: State)
    requires RootsReturned(s0, s1) && s0.roots == s.roots && s0.handles == s.handles
    requires t.roots == s1.roots && t.handles == s1.handles && t.lends == s1.lends
    ensures RootsReturned(s, t)
  {
  }

  lemma QuietThreads(s: State, c: Ctx)
    requires Inv(s) && c in s.lists
    ensures var t := s.(stacks := s.stacks[c := []]); Base(t) && t.pt.Keys == s.pt.Keys
    ensures forall d :: d in s.pt ==> View(s.(stacks := s.stacks[c := []]), d) == View(s, d)
  {
    hide ListsOk, LendersOk, FramesOk, SlotsOk, NoStraySlots, CountsOk, ModesOk, View;
    forall d | d in s.pt ensures View(s.(stacks := s.stacks[c := []]), d) == View(s, d) {
      ViewRecount(s, s.(stacks := s.stacks[c := []]), d);
    }
  }
}
