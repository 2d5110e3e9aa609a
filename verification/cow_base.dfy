/** Each primitive of the paging manager keeps the base invariant. */
module CowBase {
  import opened CowState

  // ------------------------------------------------------------------- lists

  lemma {:induction false} WithoutNoDup(q: seq<Id>, id: Id)
    requires NoDup(q)
    ensures NoDup(Without(q, id))
  {
    if q != [] {
      assert NoDup(q[1..]) by {
        forall i, j | 0 <= i < j < |q[1..]| ensures q[1..][i] != q[1..][j] { assert q[i + 1] != q[j + 1]; }
      }
      WithoutNoDup(q[1..], id);
      ConsNoDup(q[0], Without(q[1..], id));
    }
  }

  lemma ConsNoDup(x: Id, q: seq<Id>)
    requires NoDup(q) && x !in q
    ensures NoDup([x] + q)
  {
    forall i, j | 0 <= i < j < |[x] + q| ensures ([x] + q)[i] != ([x] + q)[j] {
      if i > 0 { assert q[i - 1] != q[j - 1]; }
    }
  }

  lemma ListsAdd(lends: map<Id, Lend>, lists: map<Ctx, seq<Id>>, id: Id, l: Lend)
    requires ListsOk(lends, lists) && id !in lends && l.ctx in lists
    ensures ListsOk(lends[id := l], lists[l.ctx := [id] + lists[l.ctx]])
  {
    var q := lists[l.ctx];
    assert forall x :: x in [id] + q <==> x == id || x in q;
    ConsNoDup(id, q);
  }

  lemma ListsDrop(lends: map<Id, Lend>, lists: map<Ctx, seq<Id>>, id: Id)
    requires ListsOk(lends, lists) && id in lends
    ensures var c := lends[id].ctx; ListsOk(lends - {id}, lists[c := Without(lists[c], id)])
  {
    hide NoDup, Without, ListsOk;
    var c, less := lends[id].ctx, lends - {id};
    ListedSomewhere(lends, lists, id);
    var lists' := lists[c := Without(lists[c], id)];
    forall d | d in lists' ensures NoDup(lists'[d]) { DistinctStays(lends, lists, id, d); }
    forall d, x | d in lists' && x in lists'[d] ensures x in less && less[x].ctx == d {
      DistinctStays(lends, lists, id, d);
      ListedStays(lends, lists, id, d, x);
    }
    forall x | x in less ensures less[x].ctx in lists' && x in lists'[less[x].ctx] { StaysListed(lends, lists, id, x); }
    ListsFrom(less, lists');
  }

  lemma ListedSomewhere(lends: map<Id, Lend>, lists: map<Ctx, seq<Id>>, id: Id)
    requires ListsOk(lends, lists) && id in lends
    ensures lends[id].ctx in lists
  {
  }

  lemma ListsFrom(lends: map<Id, Lend>, lists: map<Ctx, seq<Id>>)
    requires forall c :: c in lists ==> NoDup(lists[c])
    requires forall c, id :: c in lists && id in lists[c] ==> id in lends && lends[id].ctx == c
    requires forall id :: id in lends ==> lends[id].ctx in lists && id in lists[lends[id].ctx]
    ensures ListsOk(lends, lists)
  {
    hide NoDup;
  }

  lemma DistinctStays(lends: map<Id, Lend>, lists: map<Ctx, seq<Id>>, id: Id, d: Ctx)
    requires ListsOk(lends, lists) && id in lends && d in lists[lends[id].ctx := Without(lists[lends[id].ctx], id)]
    ensures d in lists && NoDup(lists[lends[id].ctx := Without(lists[lends[id].ctx], id)][d])
  {
    hide NoDup, Without;
    WithoutNoDup(lists[lends[id].ctx], id);
  }

  lemma ListedStays(lends: map<Id, Lend>, lists: map<Ctx, seq<Id>>, id: Id, d: Ctx, x: Id)
    requires ListsOk(lends, lists) && id in lends && d in lists
    requires x in lists[lends[id].ctx := Without(lists[lends[id].ctx], id)][d]
    ensures x in lends - {id} && (lends - {id})[x].ctx == d
  {
    hide NoDup, Without;
    assert x in lists[d];
  }

  lemma StaysListed(lends: map<Id, Lend>, lists: map<Ctx, seq<Id>>, id: Id, x: Id)
    requires ListsOk(lends, lists) && id in lends && x in lends && x != id
    ensures var lists' := lists[lends[id].ctx := Without(lists[lends[id].ctx], id)];
            lends[x].ctx in lists' && x in lists'[lends[x].ctx]
  {
    hide NoDup, Without;
  }

  // ------------------------------------------------------------------ frames

  lemma {:induction false} PlacesFact(r: Id, frames: seq<Frame>)
    ensures forall f :: f in Places(r, frames) <==> f in frames
    ensures NoDup(frames) ==> forall i :: 0 <= i < |frames| ==> Places(r, frames)[frames[i]] == Place(r, i)
    ensures forall f :: f in Places(r, frames) ==> Places(r, frames)[f].root == r
  {
    if frames != [] {
      var n := |frames| - 1;
      PlacesFact(r, frames[..n]);
      assert frames == frames[..n] + [frames[n]];
    }
  }

  lemma {:induction false} ContentsFact(frames: seq<Frame>, init: seq<Page>)
    requires |frames| == |init|
    ensures forall f :: f in Contents(frames, init) <==> f in frames
    ensures NoDup(frames) ==> forall i :: 0 <= i < |frames| ==> Contents(frames, init)[frames[i]] == init[i]
  {
    if frames != [] {
      var n := |frames| - 1;
      ContentsFact(frames[..n], init[..n]);
      assert frames == frames[..n] + [frames[n]];
    }
  }

  lemma FramesAdd(roots: map<Id, Root>, owner: map<Frame, Place>, mem: map<Frame, Page>, r: Id, root: Root,
                  fill: map<Frame, Page>)
    requires FramesOk(roots, owner, mem) && r !in roots && NoDup(root.frames)
    requires forall i :: 0 <= i < |root.frames| ==> root.frames[i] !in owner && root.frames[i] in fill
    ensures FramesOk(roots[r := root], owner + Places(r, root.frames), mem + fill)
  {
    var places := Places(r, root.frames);
    PlacesFact(r, root.frames);
    hide NoDup, Places;
    assert forall i :: 0 <= i < |root.frames| ==> root.frames[i] in places;
    assert forall i :: 0 <= i < |root.frames| ==> FrameAt(owner + places, mem + fill, root.frames[i], r, i);
    assert forall q, i :: q in roots && 0 <= i < |roots[q].frames| ==>
             FrameAt(owner + places, mem + fill, roots[q].frames[i], q, i);
  }

  lemma FramesDrop(roots: map<Id, Root>, owner: map<Frame, Place>, mem: map<Frame, Page>, r: Id)
    requires FramesOk(roots, owner, mem) && r in roots
    ensures FramesOk(roots - {r}, owner - (set f | f in roots[r].frames), mem)
  {
    var gone := set f | f in roots[r].frames;
    forall q, i | q in roots - {r} && 0 <= i < |roots[q].frames|
      ensures FrameAt(owner - gone, mem, roots[q].frames[i], q, i)
    {
      var f := roots[q].frames[i];
      assert FrameAt(owner, mem, f, q, i);
    }
  }

  lemma FramesRecount(roots: map<Id, Root>, owner: map<Frame, Place>, mem: map<Frame, Page>, r: Id, root: Root)
    requires FramesOk(roots, owner, mem) && r in roots && root.frames == roots[r].frames
    ensures FramesOk(roots[r := root], owner, mem)
  {
  }

  // ------------------------------------------------------------------ counts

  lemma CountsLend(roots: map<Id, Root>, handles: map<Id, nat>, lends: map<Id, Lend>, id: Id, l: Lend)
    requires CountsOk(roots, handles, lends) && id !in lends && l.lender in roots
    ensures CountsOk(roots[l.lender := roots[l.lender].(refs := roots[l.lender].refs + 1)], handles, lends[id := l])
  {
    assert LentFrom(lends[id := l], l.lender) == LentFrom(lends, l.lender) + {id};
    assert forall q :: q != l.lender ==> LentFrom(lends[id := l], q) == LentFrom(lends, q);
  }

  lemma CountsDrop(roots: map<Id, Root>, handles: map<Id, nat>, lends: map<Id, Lend>, id: Id)
    requires CountsOk(roots, handles, lends) && id in lends && lends[id].lender in roots
    ensures var r := lends[id].lender;
            if roots[r].refs == 1 then
              CountsOk(roots - {r}, handles - {r}, lends - {id}) && LentFrom(lends - {id}, r) == {}
            else
              CountsOk(roots[r := roots[r].(refs := roots[r].refs - 1)], handles, lends - {id})
  {
    var r := lends[id].lender;
    assert id in LentFrom(lends, r);
    assert LentFrom(lends - {id}, r) == LentFrom(lends, r) - {id};
    assert |LentFrom(lends - {id}, r)| == |LentFrom(lends, r)| - 1;
    assert forall q :: q != r ==> LentFrom(lends - {id}, q) == LentFrom(lends, q);
  }

  lemma CountsRoot(roots: map<Id, Root>, handles: map<Id, nat>, lends: map<Id, Lend>, r: Id, root: Root)
    requires CountsOk(roots, handles, lends) && LendersOk(roots, lends) && r !in roots && root.refs == 1
    ensures CountsOk(roots[r := root], handles[r := 1], lends)
  {
    assert LentFrom(lends, r) == {};
  }

  lemma CountsRelease(roots: map<Id, Root>, handles: map<Id, nat>, lends: map<Id, Lend>, r: Id)
    requires CountsOk(roots, handles, lends) && r in roots && handles[r] > 0
    ensures if roots[r].refs == 1 then
              CountsOk(roots - {r}, handles - {r}, lends) && LentFrom(lends, r) == {}
            else
              CountsOk(roots[r := roots[r].(refs := roots[r].refs - 1)], handles[r := handles[r] - 1], lends)
  {
  }

  lemma CountsAcquire(roots: map<Id, Root>, handles: map<Id, nat>, lends: map<Id, Lend>, r: Id)
    requires CountsOk(roots, handles, lends) && r in roots
    ensures CountsOk(roots[r := roots[r].(refs := roots[r].refs + 1)], handles[r := handles[r] + 1], lends)
  {
  }

  // ------------------------------------------------------------------ tables

  /** Tables depend on the roots only through the frames of the lenders. */
  lemma TablesFrame(roots: map<Id, Root>, roots': map<Id, Root>, lends: map<Id, Lend>,
                    pt: map<Ctx, map<nat, Pte>>, reserved: map<Ctx, map<nat, Id>>)
    requires LendersOk(roots, lends) && TablesOk(roots, lends, pt, reserved)
    requires forall id :: id in lends ==>
      lends[id].lender in roots' && roots'[lends[id].lender].frames == roots[lends[id].lender].frames
    ensures LendersOk(roots', lends) && TablesOk(roots', lends, pt, reserved)
  {
  }

  lemma StraysAdd(lends: map<Id, Lend>, pt: map<Ctx, map<nat, Pte>>, reserved: map<Ctx, map<nat, Id>>,
                  id: Id, l: Lend, frames: seq<Frame>)
    requires NoStraySlots(lends, pt, reserved) && id !in lends && l.ctx in pt && l.pages == |frames|
    ensures NoStraySlots(lends[id := l], pt[l.ctx := pt[l.ctx] + Entries(frames, l)],
              reserved[l.ctx := reserved[l.ctx] + Reserve(l, id)])
  {
    assert Entries(frames, l).Keys == Reserve(l, id).Keys;
  }

  lemma TablesAdd(roots: map<Id, Root>, lends: map<Id, Lend>, pt: map<Ctx, map<nat, Pte>>,
                  reserved: map<Ctx, map<nat, Id>>,
                  id: Id, l: Lend)
    requires LendersOk(roots, lends) && TablesOk(roots, lends, pt, reserved)
    requires id !in lends && l.lender in roots && l.pages == |roots[l.lender].frames| && l.pages > 0
    requires l.ctx in pt && SpanFree(reserved, l.ctx, l.vpage, l.pages)
    ensures LendersOk(roots, lends[id := l])
    ensures TablesOk(roots, lends[id := l],
                     pt[l.ctx := pt[l.ctx] + Entries(roots[l.lender].frames, l)],
                     reserved[l.ctx := reserved[l.ctx] + Reserve(l, id)])
  {
    hide NoStraySlots;
    StraysAdd(lends, pt, reserved, id, l, roots[l.lender].frames);
    var pt' := pt[l.ctx := pt[l.ctx] + Entries(roots[l.lender].frames, l)];
    var res' := reserved[l.ctx := reserved[l.ctx] + Reserve(l, id)];
    var lends' := lends[id := l];
    forall a, p | a in lends' && InSpan(lends'[a], p)
      ensures lends'[a].ctx in pt' && lends'[a].ctx in res'
      ensures SlotOk(roots[lends'[a].lender].frames, a, lends'[a], pt'[lends'[a].ctx], res'[lends'[a].ctx], p)
    {
      if a != id {
        assert SlotOk(roots[lends[a].lender].frames, a, lends[a], pt[lends[a].ctx], reserved[lends[a].ctx], p);
      }
    }
  }

  lemma TablesDrop(roots: map<Id, Root>, lends: map<Id, Lend>, pt: map<Ctx, map<nat, Pte>>,
                   reserved: map<Ctx, map<nat, Id>>, id: Id)
    requires LendersOk(roots, lends) && TablesOk(roots, lends, pt, reserved)
    requires id in lends && lends[id].ctx in pt
    ensures var l := lends[id];
            && LendersOk(roots, lends - {id})
            && TablesOk(roots, lends - {id}, pt[l.ctx := pt[l.ctx] - SpanOf(l)],
                 reserved[l.ctx := reserved[l.ctx] - SpanOf(l)])
  {
    var l := lends[id];
    var pt' := pt[l.ctx := pt[l.ctx] - SpanOf(l)];
    var res' := reserved[l.ctx := reserved[l.ctx] - SpanOf(l)];
    forall a, p | a in lends && a != id && InSpan(lends[a], p)
      ensures SlotOk(roots[lends[a].lender].frames, a, lends[a], pt'[lends[a].ctx], res'[lends[a].ctx], p)
    {
      assert SlotOk(roots[lends[a].lender].frames, a, lends[a], pt[lends[a].ctx], reserved[lends[a].ctx], p);
    }
  }

  lemma TablesAddRoot(roots: map<Id, Root>, lends: map<Id, Lend>, pt: map<Ctx, map<nat, Pte>>,
                      reserved: map<Ctx, map<nat, Id>>,
                      r: Id, root: Root)
    requires LendersOk(roots, lends) && TablesOk(roots, lends, pt, reserved)
    requires r in roots ==> root.frames == roots[r].frames
    ensures LendersOk(roots[r := root], lends) && TablesOk(roots[r := root], lends, pt, reserved)
  {
    TablesFrame(roots, roots[r := root], lends, pt, reserved);
  }

  lemma TablesDropRoot(roots: map<Id, Root>, lends: map<Id, Lend>, pt: map<Ctx, map<nat, Pte>>,
                       reserved: map<Ctx, map<nat, Id>>, r: Id)
    requires LendersOk(roots, lends) && TablesOk(roots, lends, pt, reserved)
    requires LentFrom(lends, r) == {}
    ensures LendersOk(roots - {r}, lends) && TablesOk(roots - {r}, lends, pt, reserved)
  {
    forall id | id in lends ensures lends[id].lender != r {
      assert lends[id].lender == r ==> id in LentFrom(lends, r);
    }
    TablesFrame(roots, roots - {r}, lends, pt, reserved);
  }

  // -------------------------------------------------------- whole operations

  lemma AddRootBase(s: State, r: Id, kind: RootKind, frames: seq<Frame>, init: seq<Page>)
    requires Base(s) && FreshId(s, r) && FreshFrames(s, frames) && |frames| == |init|
    ensures Base(AddRoot(s, r, kind, frames, init))
  {
    hide ListsOk, LendersOk, FramesOk, TablesOk, CountsOk;
    var root := Root(kind, 1, frames);
    ContentsFact(frames, init);
    assert forall i :: 0 <= i < |frames| ==> frames[i] in Contents(frames, init);
    FramesAdd(s.roots, s.owner, s.mem, r, root, Contents(frames, init));
    TablesAddRoot(s.roots, s.lends, s.pt, s.reserved, r, root);
    CountsRoot(s.roots, s.handles, s.lends, r, root);
  }

  lemma AddReferenceBase(s: State, r: Id)
    requires Base(s) && r in s.roots
    ensures Base(AddReference(s, r))
  {
    var root := s.roots[r].(refs := s.roots[r].refs + 1);
    FramesRecount(s.roots, s.owner, s.mem, r, root);
    TablesAddRoot(s.roots, s.lends, s.pt, s.reserved, r, root);
    CountsAcquire(s.roots, s.handles, s.lends, r);
  }

  lemma ReleaseBase(s: State, r: Id)
    requires Base(s) && r in s.roots && s.handles[r] > 0
    ensures Base(Release(s, r))
  {
    hide ListsOk, LendersOk, FramesOk, TablesOk, LentFrom, Release;
    CountsRelease(s.roots, s.handles, s.lends, r);
    ReleaseIs(s, r);
    if s.roots[r].refs == 1 {
      FramesDrop(s.roots, s.owner, s.mem, r);
      TablesDropRoot(s.roots, s.lends, s.pt, s.reserved, r);
    } else {
      var root := s.roots[r].(refs := s.roots[r].refs - 1);
      FramesRecount(s.roots, s.owner, s.mem, r, root);
      TablesAddRoot(s.roots, s.lends, s.pt, s.reserved, r, root);
    }
  }

  lemma ReleaseIs(s: State, r: Id)
    requires r in s.roots && s.roots[r].refs > 0 && r in s.handles && s.handles[r] > 0
    ensures Release(s, r) ==
            if s.roots[r].refs == 1 then
              State(s.roots - {r}, s.lends, s.lists, s.pt, s.reserved, s.owner - (set f | f in s.roots[r].frames),
                s.mem,
                    s.handles - {r}, s.stacks)
            else
              State(s.roots[r := s.roots[r].(refs := s.roots[r].refs - 1)], s.lends, s.lists, s.pt, s.reserved,
                s.owner, s.mem,
                    s.handles[r := s.handles[r] - 1], s.stacks)
  {
    assert s.handles[r := s.handles[r] - 1] - {r} == s.handles - {r};
  }

  ghost predicate CanLend(s: State, id: Id, c: Ctx, r: Id, v: nat) {
    && Base(s) && FreshId(s, id) && r in s.roots && c in s.lists
    && |s.roots[r].frames| > 0 && SpanFree(s.reserved, c, v, |s.roots[r].frames|)
  }

  lemma AddLendBase(s: State, id: Id, c: Ctx, kind: LendKind, prot: Prot, r: Id, v: nat)
    requires CanLend(s, id, c, r, v)
    ensures Base(AddLend(s, id, c, kind, prot, r, v))
  {
    hide ListsOk, FramesOk, TablesOk, CountsOk;
    var l := Lend(c, kind, prot, r, v, |s.roots[r].frames|);
    var root := s.roots[r].(refs := s.roots[r].refs + 1);
    ListsAdd(s.lends, s.lists, id, l);
    FramesRecount(s.roots, s.owner, s.mem, r, root);
    CountsLend(s.roots, s.handles, s.lends, id, l);
    TablesAdd(s.roots, s.lends, s.pt, s.reserved, id, l);
    var t := AddLend(s, id, c, kind, prot, r, v);
    TablesAddRoot(s.roots, t.lends, t.pt, t.reserved, r, root);
  }

  /** What the base invariant gives about one mapping. */
  lemma LendFact(s: State, id: Id)
    requires Base(s) && id in s.lends
    ensures Linked(s, id) && s.lends[id].pages > 0 && id in s.lists[s.lends[id].ctx]
  {
    hide SlotsOk;
    var l := s.lends[id];
    assert forall i :: 0 <= i < l.pages ==> FrameAt(s.owner, s.mem, s.roots[l.lender].frames[i], l.lender, i);
  }

  /** What it gives about one context. */
  lemma ContextFact(s: State, c: Ctx)
    requires Base(s)
    ensures s.lists.Keys == s.pt.Keys == s.reserved.Keys == s.stacks.Keys
    ensures c in s.pt ==> s.pt[c].Keys == s.reserved[c].Keys
  {
  }

  lemma DropBase(s: State, id: Id)
    requires Base(s) && Linked(s, id)
    ensures Base(Drop(s, id))
  {
    hide ListsOk, LendersOk, FramesOk, TablesOk, CountsOk, Without;
    ContextFact(s, s.lends[id].ctx);
    var r := s.lends[id].lender;
    var t := Drop(s, id);
    ListsDrop(s.lends, s.lists, id);
    CountsDrop(s.roots, s.handles, s.lends, id);
    TablesDrop(s.roots, s.lends, s.pt, s.reserved, id);
    if s.roots[r].refs == 1 {
      FramesDrop(s.roots, s.owner, s.mem, r);
      TablesDropRoot(s.roots, t.lends, t.pt, t.reserved, r);
    } else {
      FramesRecount(s.roots, s.owner, s.mem, r, t.roots[r]);
      TablesAddRoot(s.roots, t.lends, t.pt, t.reserved, r, t.roots[r]);
    }
  }
}
