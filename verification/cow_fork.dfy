/** Fork by borrowing gives the child exactly the parent's memory, and changes
    nothing any process sees. */
module CowFork {
  import opened CowState
  import opened CowBase
  import opened CowView
  import opened CowSteps
  import opened CowFault

  /** The heap's answers to the allocations of one turn of the fork loop. */
  predicate FreshPair(s: State, id: Id, a: Id, b: Id) {
    FreshId(s, a) && FreshAfter(s, id, b) && a != b
  }

  function Window(m: Memory, l: Lend): Memory {
    map p | p in m && InSpan(l, p) :: m[p]
  }

  /** The turn of the loop for `id` can go ahead. */
  ghost predicate Forkable(s: State, c: Ctx, child: Ctx, id: Id) {
    && Linked(s, id) && s.lends[id].ctx == c && c != child && s.lends[id].pages > 0
    && child in s.lists && child in s.pt && child in s.reserved
    && SpanFree(s.reserved, child, s.lends[id].vpage, s.lends[id].pages)
  }

  lemma WindowIsCells(s: State, id: Id)
    requires Base(s) && Linked(s, id)
    ensures var l := s.lends[id];
            LendCells(s.mem, s.roots[l.lender].frames, l) == Window(View(s, l.ctx), l)
  {
    hide Base, View;
    var l := s.lends[id];
    forall p | InSpan(l, p)
      ensures p in View(s, l.ctx) && View(s, l.ctx)[p] == LendCells(s.mem, s.roots[l.lender].frames, l)[p]
    {
      ViewLend(s, id, p);
    }
  }

  /** Lending the root of `id` to the child: the first half of a turn. */
  lemma LendToChild(s: State, c: Ctx, child: Ctx, id: Id, a: Id, kind: LendKind)
    requires Base(s) && Forkable(s, c, child, id) && FreshId(s, a)
    ensures var l := s.lends[id];
            var t := AddLend(s, a, child, kind, l.prot, l.lender, l.vpage);
            && Base(t) && t.pt.Keys == s.pt.Keys
            && View(t, child) == View(s, child) + Window(View(s, c), l)
            && forall d :: d in s.pt && d != child ==> View(t, d) == View(s, d)
  {
    hide Base, View, LendCells, Entries, Reserve, SpanFree, Window;
    var l := s.lends[id];
    var t := AddLend(s, a, child, kind, l.prot, l.lender, l.vpage);
    AddLendBase(s, a, child, kind, l.prot, l.lender, l.vpage);
    ContextFact(s, child);
    ViewAddLend(s, a, child, kind, l.prot, l.lender, l.vpage);
    forall d | d in s.pt && d != child ensures View(t, d) == View(s, d) {
      ViewAddLendOther(s, a, child, kind, l.prot, l.lender, l.vpage, d);
    }
    var frames := s.roots[l.lender].frames;
    SameCells(s.mem, frames, frames, t.lends[a], l);
    WindowIsCells(s, id);
  }

  ghost predicate ForkEffect(s: State, t: State, c: Ctx, child: Ctx, l: Lend) {
    && t.pt.Keys == s.pt.Keys
    && View(t, child) == View(s, child) + Window(View(s, c), l)
    && forall d :: d in s.pt && d != child ==> View(t, d) == View(s, d)
  }

  lemma ForkShared(s: State, c: Ctx, child: Ctx, id: Id, a: Id, b: Id)
    requires Inv(s) && Forkable(s, c, child, id) && FreshPair(s, id, a, b)
    requires s.lends[id].prot.shared
    ensures var t := ForkOne(s, c, child, id, a, b);
            Inv(t) && ForkEffect(s, t, c, child, s.lends[id])
  {
    hide View, Entries, Reserve, SpanFree, Window, Filled;
    hide ListsOk, LendersOk, FramesOk, SlotsOk, NoStraySlots, CountsOk, StacksOk;
    var l := s.lends[id];
    assert l.kind.Shared?;
    LendToChild(s, c, child, id, a, Shared);
    ModesShare(s.lends, id, a, Lend(child, Shared, l.prot, l.lender, l.vpage, l.pages));
    StacksGrow(s.lists, s.stacks, child, a);
  }

  /** The second half of a turn: the parent's mapping becomes a borrow too. */
  lemma BorrowBack(s: State, id: Id, b: Id)
    requires Base(s) && Linked(s, id) && s.lends[id].pages > 0 && FreshAfter(s, id, b)
    requires s.roots[s.lends[id].lender].refs > 1
    ensures var l := s.lends[id];
            var t := Remap(Relend(s, id, b, Borrowed, l.lender), l.ctx, id, b);
            Base(t) && SameViews(s, t)
  {
    hide Base, View, Entries, Reserve, SpanOf, Without;
    var l := s.lends[id];
    RelendBase(s, id, b, Borrowed, l.lender);
    RelendViews(s, id, b, Borrowed, l.lender);
    RemapInvisible(Relend(s, id, b, Borrowed, l.lender), l.ctx, id, b);
  }

  lemma ForkPrivateBase(s: State, c: Ctx, child: Ctx, id: Id, a: Id, b: Id)
    requires Base(s) && Forkable(s, c, child, id) && FreshPair(s, id, a, b)
    requires !s.lends[id].prot.shared
    ensures var t := ForkOne(s, c, child, id, a, b);
            Base(t) && ForkEffect(s, t, c, child, s.lends[id])
  {
    hide Base, View, Entries, Reserve, SpanFree, Window, Filled;
    var l := s.lends[id];
    LendToChild(s, c, child, id, a, Borrowed);
    var s1 := AddLend(s, a, child, Borrowed, l.prot, l.lender, l.vpage);
    BorrowBack(s1, id, b);
  }

  lemma ForkPrivate(s: State, c: Ctx, child: Ctx, id: Id, a: Id, b: Id)
    requires Inv(s) && Forkable(s, c, child, id) && FreshPair(s, id, a, b)
    requires !s.lends[id].prot.shared
    ensures var t := ForkOne(s, c, child, id, a, b);
            Inv(t) && ForkEffect(s, t, c, child, s.lends[id])
  {
    hide View, Entries, Reserve, SpanOf, SpanFree, Window, Filled, Without, RemapAll, ForkEffect;
    hide Base, StacksOk, ModesOk;
    ForkPrivateBase(s, c, child, id, a, b);
    var l := s.lends[id];
    ModesBorrow(s.lends, id, a, Lend(child, Borrowed, l.prot, l.lender, l.vpage, l.pages),
                b, Lend(c, Borrowed, l.prot, l.lender, l.vpage, l.pages));
    StacksGrow(s.lists, s.stacks, child, a);
    var lists1 := s.lists[child := [a] + s.lists[child]];
    StacksReplace(lists1, s.stacks, c, id, b);
    assert ForkOne(s, c, child, id, a, b).lists == lists1[c := [b] + Without(lists1[c], id)];
  }

  lemma ForkOneOk(s: State, c: Ctx, child: Ctx, id: Id, a: Id, b: Id)
    requires Inv(s) && Forkable(s, c, child, id) && FreshPair(s, id, a, b)
    ensures var t := ForkOne(s, c, child, id, a, b);
            Inv(t) && ForkEffect(s, t, c, child, s.lends[id])
    ensures var t := ForkOne(s, c, child, id, a, b);
            forall x :: x in s.lends && x != id ==> x in t.lends && t.lends[x] == s.lends[x]
  {
    hide Inv, ForkEffect, Entries, Reserve, Without, RemapAll;
    if s.lends[id].prot.shared {
      ForkShared(s, c, child, id, a, b);
      SharedNotBorrowed(s, id);
    } else {
      ForkPrivate(s, c, child, id, a, b);
    }
  }

  // ------------------------------------------------------------ the whole loop

  ghost predicate FreshNames(s: State, c: Ctx, child: Ctx, list: seq<Id>, names: seq<(Id, Id)>)
    decreases |list|
  {
    list != [] ==>
      && names != [] && FreshPair(s, list[0], names[0].0, names[0].1)
      && (CanForkOne(s, c, child, list[0], names[0].0) ==>
            FreshNames(ForkOne(s, c, child, list[0], names[0].0, names[0].1), c, child, list[1..], names[1..]))
  }

  /** The parent's pages covered by the mappings of `list`. */
  function Windows(m: Memory, lends: map<Id, Lend>, list: seq<Id>): Memory {
    if list == [] then map[]
    else (if list[0] in lends then Window(m, lends[list[0]]) else map[]) + Windows(m, lends, list[1..])
  }

  lemma {:induction false} WindowsSame(m: Memory, lends: map<Id, Lend>, lends': map<Id, Lend>, list: seq<Id>)
    requires forall i :: 0 <= i < |list| ==> list[i] in lends && list[i] in lends' && lends[list[i]] == lends'[list[i]]
    ensures Windows(m, lends, list) == Windows(m, lends', list)
  {
    if list != [] { WindowsSame(m, lends, lends', list[1..]); }
  }

  lemma {:induction false} WindowsCover(m: Memory, lends: map<Id, Lend>, list: seq<Id>)
    ensures forall p :: p in Windows(m, lends, list) ==> p in m && Windows(m, lends, list)[p] == m[p]
    ensures forall i, p :: 0 <= i < |list| && list[i] in lends && p in m && InSpan(lends[list[i]], p) ==>
              p in Windows(m, lends, list)
  {
    if list != [] {
      WindowsCover(m, lends, list[1..]);
      forall i, p | 0 <= i < |list| && list[i] in lends && p in m && InSpan(lends[list[i]], p)
        ensures p in Windows(m, lends, list)
      {
        if i > 0 { assert list[i] == list[1..][i - 1]; }
      }
    }
  }

  lemma FreeByView(s: State, c: Ctx, v: nat, n: nat)
    requires Base(s) && c in s.pt
    ensures SpanFree(s.reserved, c, v, n) <==> forall p :: v <= p < v + n ==> p !in View(s, c)
  {
    hide Base;
    ContextFact(s, c);
    assert forall p :: p in View(s, c) <==> p in s.reserved[c] by {
      forall p | p in s.reserved[c] ensures p in View(s, c) { MappedFact(s, c, p); }
    }
  }

  lemma Disjoint(s: State, id: Id, x: Id, p: nat)
    requires Base(s) && id in s.lends && x in s.lends && s.lends[id].ctx == s.lends[x].ctx
    requires InSpan(s.lends[id], p) && InSpan(s.lends[x], p)
    ensures id == x
  {
    hide Base;
    SlotFact(s, id, p);
    SlotFact(s, x, p);
  }

  lemma ChildStaysFree(s: State, t: State, c: Ctx, child: Ctx, id: Id, x: Id)
    requires Base(s) && Base(t) && child in s.pt && id in s.lends && ForkEffect(s, t, c, child, s.lends[id])
    requires x in s.lends && x != id && s.lends[id].ctx == s.lends[x].ctx == c
    requires SpanFree(s.reserved, child, s.lends[x].vpage, s.lends[x].pages)
    ensures SpanFree(t.reserved, child, s.lends[x].vpage, s.lends[x].pages)
  {
    hide Base, View, SpanFree;
    var l := s.lends[x];
    FreeByView(s, child, l.vpage, l.pages);
    FreeByView(t, child, l.vpage, l.pages);
    forall p | l.vpage <= p < l.vpage + l.pages ensures p !in View(t, child) {
      if InSpan(s.lends[id], p) { Disjoint(s, id, x, p); }
    }
  }

  ghost predicate Pending(s: State, c: Ctx, child: Ctx, list: seq<Id>) {
    && c != child && child in s.pt && c in s.pt && NoDup(list)
    && forall i :: 0 <= i < |list| ==>
         && list[i] in s.lends && s.lends[list[i]].ctx == c
         && SpanFree(s.reserved, child, s.lends[list[i]].vpage, s.lends[list[i]].pages)
  }

  lemma PendingForkable(s: State, c: Ctx, child: Ctx, list: seq<Id>)
    requires Base(s) && Pending(s, c, child, list) && list != []
    ensures Forkable(s, c, child, list[0]) && c in s.pt && list[0] in s.lends
  {
    hide Base, SpanFree, NoDup;
    LendFact(s, list[0]);
    ContextFact(s, child);
  }

  lemma PendingNext(s: State, t: State, c: Ctx, child: Ctx, list: seq<Id>)
    requires Base(s) && Base(t) && Pending(s, c, child, list) && list != []
    requires ForkEffect(s, t, c, child, s.lends[list[0]])
    requires forall x :: x in s.lends && x != list[0] ==> x in t.lends && t.lends[x] == s.lends[x]
    ensures Pending(t, c, child, list[1..])
  {
    hide Base, View, SpanFree;
    var rest := list[1..];
    forall i | 0 <= i < |rest|
      ensures rest[i] in t.lends && t.lends[rest[i]].ctx == c
      ensures SpanFree(t.reserved, child, t.lends[rest[i]].vpage, t.lends[rest[i]].pages)
    {
      assert rest[i] == list[i + 1] && list[0] != list[i + 1];
      ChildStaysFree(s, t, c, child, list[0], rest[i]);
    }
    assert NoDup(rest) by {
      forall i, j | 0 <= i < j < |rest| ensures rest[i] != rest[j] { assert list[i + 1] != list[j + 1]; }
    }
  }

  lemma {:induction false} ForkAllOk(s: State, c: Ctx, child: Ctx, list: seq<Id>, names: seq<(Id, Id)>)
    requires Inv(s) && Pending(s, c, child, list) && FreshNames(s, c, child, list, names)
    ensures var t := ForkAll(s, c, child, list, names);
            && Inv(t) && t.pt.Keys == s.pt.Keys
            && View(t, child) == View(s, child) + Windows(View(s, c), s.lends, list)
            && forall d :: d in s.pt && d != child ==> View(t, d) == View(s, d)
    decreases |list|
  {
    hide Inv, View, Pending, Window, Windows, FreshId, FreshAfter, ForkOne, Linked, SpanFree, ForkEffect;
    if list != [] {
      InvBase(s);
      PendingForkable(s, c, child, list);
      var id, a, b := list[0], names[0].0, names[0].1;
      assert CanForkOne(s, c, child, id, a);
      var t := ForkOne(s, c, child, id, a, b);
      ForkOneOk(s, c, child, id, a, b);
      InvBase(t);
      PendingNext(s, t, c, child, list);
      ForkAllOk(t, c, child, list[1..], names[1..]);
      ForkCompose(s, t, ForkAll(t, c, child, list[1..], names[1..]), c, child, list);
    } else {
      assert View(s, child) + Windows(View(s, c), s.lends, list) ==
               View(s, child) by { NoWindows(View(s, c), s.lends); }
    }
  }

  lemma InvBase(s: State)
    requires Inv(s)
    ensures Base(s)
  {
  }

  lemma NoWindows(m: Memory, lends: map<Id, Lend>)
    ensures Windows(m, lends, []) == map[]
  {
  }

  /** One turn followed by the rest of the loop. */
  lemma ForkCompose(s: State, t: State, u: State, c: Ctx, child: Ctx, list: seq<Id>)
    requires Pending(s, c, child, list) && list != [] && ForkEffect(s, t, c, child, s.lends[list[0]])
    requires forall x :: x in s.lends && x != list[0] ==> x in t.lends && t.lends[x] == s.lends[x]
    requires u.pt.Keys == t.pt.Keys && View(u, child) == View(t, child) + Windows(View(t, c), t.lends, list[1..])
    requires forall d :: d in t.pt && d != child ==> View(u, d) == View(t, d)
    ensures u.pt.Keys == s.pt.Keys && View(u, child) == View(s, child) + Windows(View(s, c), s.lends, list)
    ensures forall d :: d in s.pt && d != child ==> View(u, d) == View(s, d)
  {
    hide View, Window, SpanFree, NoDup;
    RestSame(s, t, c, child, list);
    var m := View(s, c);
    var w, rest := Window(m, s.lends[list[0]]), Windows(m, s.lends, list[1..]);
    AddAssociates(View(s, child), w, rest);
  }

  lemma AddAssociates(a: Memory, b: Memory, c: Memory)
    ensures (a + b) + c == a + (b + c)
  {
  }

  lemma RestSame(s: State, t: State, c: Ctx, child: Ctx, list: seq<Id>)
    requires Pending(s, c, child, list) && list != []
    requires forall x :: x in s.lends && x != list[0] ==> x in t.lends && t.lends[x] == s.lends[x]
    ensures Windows(View(s, c), t.lends, list[1..]) == Windows(View(s, c), s.lends, list[1..])
  {
    hide View, SpanFree;
    forall i | 0 <= i < |list[1..]| ensures list[1..][i] in s.lends && list[1..][i] != list[0] {
      assert list[1..][i] == list[i + 1];
    }
    WindowsSame(View(s, c), t.lends, s.lends, list[1..]);
  }

  // ------------------------------------------------------------------ the fork

  lemma NewTables(roots: map<Id, Root>, lends: map<Id, Lend>, pt: map<Ctx, map<nat, Pte>>,
                  reserved: map<Ctx, map<nat, Id>>, c: Ctx)
    requires LendersOk(roots, lends) && SlotsOk(roots, lends, pt, reserved) && NoStraySlots(lends, pt, reserved)
    requires c !in pt
    ensures SlotsOk(roots, lends, pt[c := map[]], reserved[c := map[]])
    ensures NoStraySlots(lends, pt[c := map[]], reserved[c := map[]])
  {
    var pt', res' := pt[c := map[]], reserved[c := map[]];
    forall id, p | id in lends && InSpan(lends[id], p)
      ensures lends[id].ctx in pt' && lends[id].ctx in res'
      ensures SlotOk(roots[lends[id].lender].frames, id, lends[id], pt'[lends[id].ctx], res'[lends[id].ctx], p)
    {
      assert SlotOk(roots[lends[id].lender].frames, id, lends[id], pt[lends[id].ctx], reserved[lends[id].ctx], p);
    }
  }

  lemma NewLists(lends: map<Id, Lend>, lists: map<Ctx, seq<Id>>, c: Ctx)
    requires ListsOk(lends, lists) && c !in lists
    ensures ListsOk(lends, lists[c := []])
  {
  }

  lemma NewStacks(lists: map<Ctx, seq<Id>>, stacks: map<Ctx, seq<Id>>, c: Ctx)
    requires StacksOk(lists, stacks) && c !in lists
    ensures StacksOk(lists[c := []], stacks[c := []])
  {
  }

  lemma NewContextBase(s: State, child: Ctx)
    requires Base(s) && child !in s.lists
    ensures Base(NewContext(s, child))
  {
    hide ListsOk, LendersOk, FramesOk, SlotsOk, NoStraySlots, CountsOk;
    NewTables(s.roots, s.lends, s.pt, s.reserved, child);
    NewLists(s.lends, s.lists, child);
  }

  lemma NewContextOk(s: State, child: Ctx)
    requires Inv(s) && child !in s.lists
    ensures var t := NewContext(s, child);
            && Inv(t) && View(t, child) == map[] && t.pt.Keys == s.pt.Keys + {child}
            && forall d :: d in s.pt ==> View(t, d) == View(s, d)
  {
    hide Base, StacksOk, ModesOk;
    ContextFact(s, child);
    NewContextBase(s, child);
    NewStacks(s.lists, s.stacks, child);
    var t := NewContext(s, child);
    forall d | d in s.pt ensures View(t, d) == View(s, d) { OtherView(s, t, d); }
  }

  lemma StartPending(s: State, c: Ctx, child: Ctx)
    requires Base(s) && c in s.lists && child !in s.lists && Base(NewContext(s, child))
    ensures Pending(NewContext(s, child), c, child, s.lists[c])
  {
    hide FramesOk, CountsOk, TablesOk;
  }

  /** Every page of the parent lies in one of its mappings. */
  lemma AllWindows(s: State, c: Ctx)
    requires Base(s) && c in s.lists && c in s.pt
    ensures Windows(View(s, c), s.lends, s.lists[c]) == View(s, c)
  {
    hide Base, Windows, View;
    var m, w := View(s, c), Windows(View(s, c), s.lends, s.lists[c]);
    WindowsCover(m, s.lends, s.lists[c]);
    forall p | p in m ensures p in w {
      ViewMapped(s, c, p);
      var id := s.reserved[c][p];
      var i :| 0 <= i < |s.lists[c]| && s.lists[c][i] == id;
    }
  }

  lemma ViewMapped(s: State, c: Ctx, p: nat)
    requires Base(s) && c in s.lists && c in s.pt && p in View(s, c)
    ensures c in s.reserved && p in s.reserved[c] && s.reserved[c][p] in s.lends
    ensures s.reserved[c][p] in s.lists[c] && InSpan(s.lends[s.reserved[c][p]], p)
  {
    hide Base;
    MappedFact(s, c, p);
    LendFact(s, s.reserved[c][p]);
  }

  // --------------------------------------------------------------- the stacks

  /** The same pages with the same rights. */
  predicate SameSpan(l: Lend, m: Lend) {
    m.vpage == l.vpage && m.pages == l.pages && m.prot == l.prot
  }

  /** Thread i of context c has its stack where it had it, with the same rights. */
  ghost predicate StackKept(s: State, t: State, c: Ctx, i: nat) {
    && c in s.stacks && i < |s.stacks[c]| && s.stacks[c][i] in s.lends && s.lends[s.stacks[c][i]].ctx == c
    && c in t.stacks && i < |t.stacks[c]| && t.stacks[c][i] in t.lends && t.lends[t.stacks[c][i]].ctx == c
    && SameSpan(s.lends[s.stacks[c][i]], t.lends[t.stacks[c][i]])
  }

  /** Every thread keeps its stack, and no thread comes or goes. */
  ghost predicate StacksKept(s: State, t: State) {
    forall c :: c in s.stacks ==>
      && c in t.stacks && |t.stacks[c]| == |s.stacks[c]|
      && forall i :: 0 <= i < |s.stacks[c]| ==> StackKept(s, t, c, i)
  }

  /** The child has a mapping of the same root at the same pages. */
  ghost predicate HasTwin(lends: map<Id, Lend>, child: Ctx, l: Lend) {
    exists a :: a in lends && lends[a].ctx == child && lends[a].lender == l.lender && SameSpan(l, lends[a])
  }

  lemma StackLive(s: State, c: Ctx, i: nat)
    requires Inv(s) && c in s.stacks && i < |s.stacks[c]|
    ensures s.stacks[c][i] in s.lends && s.lends[s.stacks[c][i]].ctx == c
    ensures InSpan(s.lends[s.stacks[c][i]], s.lends[s.stacks[c][i]].vpage)
  {
    hide FramesOk, TablesOk, CountsOk, ModesOk;
    assert s.stacks[c][i] in s.lists[c];
  }

  lemma KeptThrough(s: State, t: State, u: State)
    requires StacksKept(s, t) && StacksKept(t, u)
    ensures StacksKept(s, u)
  {
    forall c, i | c in s.stacks && 0 <= i < |s.stacks[c]| ensures StackKept(s, u, c, i) {
      assert StackKept(s, t, c, i) && StackKept(t, u, c, i);
    }
  }

  lemma ForkOneLends(s: State, c: Ctx, child: Ctx, id: Id, a: Id, b: Id)
    requires CanForkOne(s, c, child, id, a) && (s.lends[id].prot.shared ==> s.lends[id].kind.Shared?)
    ensures var l := s.lends[id]; var t := ForkOne(s, c, child, id, a, b);
            if l.prot.shared then t.lends == s.lends[a := Lend(child, Shared, l.prot, l.lender, l.vpage, l.pages)]
            else t.lends == (s.lends[a := Lend(child, Borrowed, l.prot, l.lender, l.vpage, l.pages)] - {id})
                            [b := Lend(c, Borrowed, l.prot, l.lender, l.vpage, l.pages)]
  {
    hide Entries, Reserve, SpanOf, Without, RemapAll, Filled;
  }

  lemma ForkOneThreads(s: State, c: Ctx, child: Ctx, id: Id, a: Id, b: Id)
    requires CanForkOne(s, c, child, id, a) && (s.lends[id].prot.shared ==> s.lends[id].kind.Shared?)
    ensures ForkOne(s, c, child, id, a, b).stacks ==
            if s.lends[id].prot.shared then s.stacks else s.stacks[c := RemapAll(s.stacks[c], id, b)]
  {
    hide Entries, Reserve, SpanOf, Without, RemapAll, Filled;
  }

  /** One turn: a thread whose stack is borrowed back takes the new mapping. */
  lemma ForkOnePlaces(s: State, c: Ctx, child: Ctx, id: Id, a: Id, b: Id)
    requires Inv(s) && Forkable(s, c, child, id) && FreshPair(s, id, a, b)
    ensures var t := ForkOne(s, c, child, id, a, b);
            StacksKept(s, t) && HasTwin(t.lends, child, s.lends[id])
  {
    hide Inv, Filled, ForkOne;
    SharedNotBorrowed(s, id);
    ForkOneLends(s, c, child, id, a, b);
    ForkOneThreads(s, c, child, id, a, b);
    var t := ForkOne(s, c, child, id, a, b);
    assert t.lends[a].ctx == child && SameSpan(s.lends[id], t.lends[a]);
    forall d, i | d in s.stacks && 0 <= i < |s.stacks[d]| ensures StackKept(s, t, d, i) { StackLive(s, d, i); }
  }

  lemma SharedNotBorrowed(s: State, id: Id)
    requires Inv(s) && id in s.lends
    ensures s.lends[id].prot.shared ==> s.lends[id].kind.Shared?
  {
    hide Base, StacksOk;
  }

  /** The whole loop: every thread keeps its stack, and the child has a mapping for
      each of the parent's. */
  lemma {:induction false} ForkAllPlaces(s: State, c: Ctx, child: Ctx, list: seq<Id>, names: seq<(Id, Id)>)
    requires Inv(s) && Pending(s, c, child, list) && FreshNames(s, c, child, list, names)
    ensures var t := ForkAll(s, c, child, list, names);
            && StacksKept(s, t)
            && (forall x :: x in s.lends && s.lends[x].ctx == child ==> x in t.lends && t.lends[x] == s.lends[x])
            && forall i :: 0 <= i < |list| ==> list[i] in s.lends && HasTwin(t.lends, child, s.lends[list[i]])
    decreases |list|
  {
    hide Inv, View, Pending, FreshId, FreshAfter, ForkOne, Linked, SpanFree, ForkEffect, StacksKept, HasTwin;
    if list != [] {
      InvBase(s);
      PendingForkable(s, c, child, list);
      var id, a, b := list[0], names[0].0, names[0].1;
      assert CanForkOne(s, c, child, id, a);
      var t := ForkOne(s, c, child, id, a, b);
      ForkOneOk(s, c, child, id, a, b);
      ForkOnePlaces(s, c, child, id, a, b);
      InvBase(t);
      PendingNext(s, t, c, child, list);
      ForkAllPlaces(t, c, child, list[1..], names[1..]);
      KeptThrough(s, t, ForkAll(t, c, child, list[1..], names[1..]));
      TwinsStay(s, t, ForkAll(t, c, child, list[1..], names[1..]), c, child, list);
    } else {
      SameKept(s);
    }
  }

  lemma TwinsStay(s: State, t: State, u: State, c: Ctx, child: Ctx, list: seq<Id>)
    requires Pending(s, c, child, list) && list != []
    requires forall x :: x in s.lends && x != list[0] ==> x in t.lends && t.lends[x] == s.lends[x]
    requires forall x :: x in t.lends && t.lends[x].ctx == child ==> x in u.lends && u.lends[x] == t.lends[x]
    requires HasTwin(t.lends, child, s.lends[list[0]])
    requires forall i :: 0 <= i < |list[1..]| ==>
               list[1..][i] in t.lends && HasTwin(u.lends, child, t.lends[list[1..][i]])
    ensures forall x :: x in s.lends && s.lends[x].ctx == child ==> x in u.lends && u.lends[x] == s.lends[x]
    ensures forall i :: 0 <= i < |list| ==> list[i] in s.lends && HasTwin(u.lends, child, s.lends[list[i]])
  {
    hide SpanFree;
    forall i | 0 <= i < |list| ensures list[i] in s.lends && HasTwin(u.lends, child, s.lends[list[i]]) {
      if i > 0 {
        assert list[1..][i - 1] == list[i] && list[0] != list[i];
      } else {
        var a :| a in t.lends && t.lends[a].ctx == child && t.lends[a].lender == s.lends[list[0]].lender
                 && SameSpan(s.lends[list[0]], t.lends[a]);
        assert u.lends[a] == t.lends[a];
      }
    }
  }

  lemma SameKept(s: State)
    requires Inv(s)
    ensures StacksKept(s, s)
  {
    hide Base, ModesOk, StacksOk;
    forall c, i | c in s.stacks && 0 <= i < |s.stacks[c]| ensures StackKept(s, s, c, i) { StackLive(s, c, i); }
  }

  /** The child's thread gets the child's mapping at the parent's stack: the same
      pages, with the same rights. */
  lemma CloneStackOk(s: State, c: Ctx, child: Ctx)
    requires Inv(s) && c in s.pt && child in s.pt && c != child && SameSpanAt(s, c, child)
    ensures var t := CloneStack(s, c, child);
            && Inv(t) && SameViews(s, t) && t.lends == s.lends
            && (forall d :: d in s.stacks && d != child ==> d in t.stacks && t.stacks[d] == s.stacks[d])
            && StackLike(t, c, child)
  {
    hide Base, View, ModesOk;
    ContextFact(s, c);
    ContextFact(s, child);
    var id := s.stacks[c][0];
    StackLive(s, c, 0);
    var a :| a in s.lends && s.lends[a].ctx == child && SameSpan(s.lends[id], s.lends[a]);
    var v := s.lends[id].vpage;
    SlotFact(s, a, v);
    LendFact(s, a);
    var t := CloneStack(s, c, child);
    assert t.stacks == s.stacks[child := [a]];
    CloneBase(s, t);
  }

  /** The parent has a first thread, and the child a mapping where that has its stack. */
  ghost predicate SameSpanAt(s: State, c: Ctx, child: Ctx) {
    && c in s.stacks && s.stacks[c] != [] && s.stacks[c][0] in s.lends
    && exists a :: a in s.lends && s.lends[a].ctx == child && SameSpan(s.lends[s.stacks[c][0]], s.lends[a])
  }

  /** The child has one thread, whose stack is a mapping of the child's at the pages of
      the parent's first stack, with the same rights. */
  ghost predicate StackLike(s: State, c: Ctx, child: Ctx) {
    && c in s.stacks && s.stacks[c] != [] && s.stacks[c][0] in s.lends
    && child in s.stacks && |s.stacks[child]| == 1 && s.stacks[child][0] in s.lends
    && s.lends[s.stacks[child][0]].ctx == child
    && SameSpan(s.lends[s.stacks[c][0]], s.lends[s.stacks[child][0]])
  }

  lemma CloneBase(s: State, t: State)
    requires Base(s) && t == s.(stacks := t.stacks) && t.stacks.Keys == s.stacks.Keys
    ensures Base(t) && SameViews(s, t)
  {
    hide ListsOk, LendersOk, FramesOk, SlotsOk, NoStraySlots, CountsOk, View;
    forall d | d in s.pt ensures View(t, d) == View(s, d) { ViewRecount(s, t, d); }
  }

  /** process_create_fork gives the child the parent's memory page for page,
      leaves every other process's memory alone and keeps the invariant. Every
      thread there was keeps its stack, and the child's one thread gets the child's
      mapping at the place of the parent's first stack. */
  lemma ForkOk(s: State, c: Ctx, child: Ctx, names: seq<(Id, Id)>)
    requires Inv(s) && c in s.lists && child !in s.lists && c in s.stacks && s.stacks[c] != []
    requires FreshNames(NewContext(s, child), c, child, s.lists[c], names)
    ensures var t := Fork(s, c, child, names);
            && Inv(t) && t.pt.Keys == s.pt.Keys + {child}
            && View(t, child) == View(s, c)
            && (forall d :: d in s.pt ==> View(t, d) == View(s, d))
            && StacksKept(s, t) && StackLike(t, c, child)
            && forall i :: 0 <= i < |s.lists[c]| ==>
                 s.lists[c][i] in s.lends && HasTwin(t.lends, child, s.lends[s.lists[c][i]])
  {
    hide Inv, View, Windows, Pending, CloneStack, FreshNames, StacksKept, HasTwin, SameSpanAt, StackLike, ForkAll,
         NewContext;
    ForkLoop(s, c, child, names);
    var s1 := ForkAll(NewContext(s, child), c, child, s.lists[c], names);
    CloneStackOk(s1, c, child);
    KeptByFork(s, s1, CloneStack(s1, c, child), child);
  }

  /** The fork without its last step. */
  lemma ForkLoop(s: State, c: Ctx, child: Ctx, names: seq<(Id, Id)>)
    requires Inv(s) && c in s.lists && child !in s.lists && c in s.stacks && s.stacks[c] != []
    requires FreshNames(NewContext(s, child), c, child, s.lists[c], names)
    ensures var t := ForkAll(NewContext(s, child), c, child, s.lists[c], names);
            && Inv(t) && t.pt.Keys == s.pt.Keys + {child} && c in s.pt && c != child
            && View(t, child) == View(s, c)
            && (forall d :: d in s.pt ==> View(t, d) == View(s, d))
            && StacksKept(NewContext(s, child), t) && SameSpanAt(t, c, child)
            && forall i :: 0 <= i < |s.lists[c]| ==>
                 s.lists[c][i] in s.lends && HasTwin(t.lends, child, s.lends[s.lists[c][i]])
  {
    hide Inv, View, Windows, Pending, FreshNames, StacksKept, HasTwin, SameSpanAt, ForkAll, NewContext;
    LoopStart(s, c, child);
    var s0, list := NewContext(s, child), s.lists[c];
    ForkAllOk(s0, c, child, list, names);
    ForkAllPlaces(s0, c, child, list, names);
    StackTwin(s, ForkAll(s0, c, child, list, names), c, child);
  }

  lemma LoopStart(s: State, c: Ctx, child: Ctx)
    requires Inv(s) && c in s.lists && child !in s.lists
    ensures var t := NewContext(s, child);
            && Inv(t) && t.pt.Keys == s.pt.Keys + {child} && c in s.pt && c != child && child !in s.pt
            && Pending(t, c, child, s.lists[c]) && t.lends == s.lends
            && View(t, child) + Windows(View(t, c), t.lends, s.lists[c]) == View(s, c)
            && forall d :: d in s.pt ==> View(t, d) == View(s, d)
  {
    hide Base, View, StacksOk, ModesOk, Windows, Pending;
    ContextFact(s, c);
    NewContextOk(s, child);
    StartPending(s, c, child);
    AllWindows(NewContext(s, child), c);
    assert map[] + View(s, c) == View(s, c);
  }

  lemma StackTwin(s: State, s1: State, c: Ctx, child: Ctx)
    requires Inv(s) && c in s.lists && c in s.stacks && s.stacks[c] != [] && child !in s.lists
    requires StacksKept(NewContext(s, child), s1)
    requires forall i :: 0 <= i < |s.lists[c]| ==>
               s.lists[c][i] in s.lends && HasTwin(s1.lends, child, s.lends[s.lists[c][i]])
    ensures SameSpanAt(s1, c, child)
  {
    hide Base, ModesOk;
    var id := s.stacks[c][0];
    assert id in s.lists[c];
    var i :| 0 <= i < |s.lists[c]| && s.lists[c][i] == id;
    var s0 := NewContext(s, child);
    assert c != child && s0.stacks[c] == s.stacks[c] && s0.lends == s.lends;
    assert StackKept(s0, s1, c, 0);
    var a :| a in s1.lends && s1.lends[a].ctx == child && SameSpan(s.lends[id], s1.lends[a]);
    var l, m := s.lends[id], s1.lends[s1.stacks[c][0]];
    assert SameSpan(l, m) && SameSpan(l, s1.lends[a]);
    assert SameSpan(m, s1.lends[a]);
  }

  lemma KeptByFork(s: State, s1: State, t: State, child: Ctx)
    requires Inv(s) && child !in s.lists && StacksKept(NewContext(s, child), s1) && t.lends == s1.lends
    requires forall d :: d in s1.stacks && d != child ==> d in t.stacks && t.stacks[d] == s1.stacks[d]
    ensures StacksKept(s, t)
  {
    hide ListsOk, LendersOk, FramesOk, TablesOk, CountsOk, ModesOk, StacksOk;
    forall c | c in s.stacks ensures c in t.stacks && |t.stacks[c]| == |s.stacks[c]| {}
    forall c, i | c in s.stacks && 0 <= i < |s.stacks[c]| ensures StackKept(s, t, c, i) {
      assert StackKept(NewContext(s, child), s1, c, i);
    }
  }
}
