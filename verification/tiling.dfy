/** A stretch of space cut into segments, each in use or free, each preceded by
    `h` units of bookkeeping: heap blocks behind their tags, or page ranges of a
    virtual address space (h = 0). */
module Tiling {
  datatype Seg = Seg(size: nat, used: bool)

  /** A segment in use: where its space begins, and its size. */
  type Span = (nat, nat)

  function Total(segs: seq<Seg>, h: nat): nat {
    if segs == [] then 0 else segs[0].size + h + Total(segs[1..], h)
  }

  /** The spans in use, when the first segment's bookkeeping is at `o`. */
  function Live(segs: seq<Seg>, h: nat, o: nat): set<Span> {
    if segs == [] then {}
    else (if segs[0].used then {(o + h, segs[0].size)} else {}) + Live(segs[1..], h, o + segs[0].size + h)
  }

  function Used(segs: seq<Seg>): nat {
    if segs == [] then 0 else (if segs[0].used then segs[0].size else 0) + Used(segs[1..])
  }

  /** No empty segments, and no two free neighbours. */
  predicate Canonical(segs: seq<Seg>) {
    && (forall i :: 0 <= i < |segs| ==> segs[i].size > 0)
    && (forall i :: 0 <= i < |segs| - 1 ==> segs[i].used || segs[i + 1].used)
  }

  // ---------------------------------------------------------------- structure

  lemma {:induction false} TotalConcat(a: seq<Seg>, b: seq<Seg>, h: nat)
    ensures Total(a + b, h) == Total(a, h) + Total(b, h)
  {
    if a == [] { assert a + b == b; }
    else {
      assert (a + b)[1..] == a[1..] + b;
      TotalConcat(a[1..], b, h);
    }
  }

  lemma {:induction false} LiveConcat(a: seq<Seg>, b: seq<Seg>, h: nat, o: nat)
    ensures Live(a + b, h, o) == Live(a, h, o) + Live(b, h, o + Total(a, h))
  {
    if a == [] { assert a + b == b; }
    else {
      assert (a + b)[1..] == a[1..] + b;
      LiveConcat(a[1..], b, h, o + a[0].size + h);
    }
  }

  lemma {:induction false} UsedConcat(a: seq<Seg>, b: seq<Seg>)
    ensures Used(a + b) == Used(a) + Used(b)
  {
    if a == [] { assert a + b == b; }
    else {
      assert (a + b)[1..] == a[1..] + b;
      UsedConcat(a[1..], b);
    }
  }

  /** Spans in use lie inside the space, behind their bookkeeping. */
  lemma {:induction false} LiveBounds(segs: seq<Seg>, h: nat, o: nat, x: Span)
    requires x in Live(segs, h, o)
    ensures o + h <= x.0 && x.0 + x.1 <= o + Total(segs, h)
  {
    if !(segs[0].used && x == (o + h, segs[0].size)) {
      LiveBounds(segs[1..], h, o + segs[0].size + h, x);
    }
  }

  /** Where segment i begins, bookkeeping included. */
  function Start(segs: seq<Seg>, i: nat, h: nat): nat
    requires i <= |segs|
  {
    Total(segs[..i], h)
  }

  lemma StartNext(segs: seq<Seg>, i: nat, h: nat)
    requires i < |segs|
    ensures Start(segs, i + 1, h) == Start(segs, i, h) + segs[i].size + h
  {
    assert segs[..i + 1] == segs[..i] + [segs[i]];
    TotalConcat(segs[..i], [segs[i]], h);
    assert Total([segs[i]], h) == segs[i].size + h;
  }

  lemma {:induction false} StartMonotone(segs: seq<Seg>, i: nat, j: nat, h: nat)
    requires i < j <= |segs|
    ensures Start(segs, i, h) + segs[i].size + h <= Start(segs, j, h) <= Total(segs, h)
    decreases j - i
  {
    StartNext(segs, i, h);
    if i + 1 < j { StartMonotone(segs, i + 1, j, h); }
    assert segs == segs[..j] + segs[j..];
    TotalConcat(segs[..j], segs[j..], h);
  }

  /** Segments in use are exactly the spans of `Live`. */
  lemma {:induction false} LiveIndex(segs: seq<Seg>, h: nat, o: nat, x: Span)
    ensures x in Live(segs, h, o) <==>
            exists i :: 0 <= i < |segs| && segs[i].used && x == (o + Start(segs, i, h) + h, segs[i].size)
  {
    if segs != [] {
      var o' := o + segs[0].size + h;
      LiveIndex(segs[1..], h, o', x);
      if x in Live(segs[1..], h, o') {
        var j :| 0 <= j < |segs[1..]| && segs[1..][j].used && x == (o' + Start(segs[1..], j, h) + h, segs[1..][j].size);
        StartShift(segs, j, h);
        assert segs[j + 1].used;
      }
      if i :| 0 <= i < |segs| && segs[i].used && x == (o + Start(segs, i, h) + h, segs[i].size) {
        if i > 0 {
          StartShift(segs, i - 1, h);
          assert segs[1..][i - 1].used;
        }
      }
    }
  }

  lemma StartShift(segs: seq<Seg>, j: nat, h: nat)
    requires j < |segs| && |segs| > 0
    ensures Start(segs, j + 1, h) == segs[0].size + h + Start(segs[1..], j, h)
  {
    assert segs[..j + 1][1..] == segs[1..][..j];
  }

  /** Distinct spans in use never overlap, bookkeeping included. */
  lemma {:induction false} LiveDisjoint(segs: seq<Seg>, h: nat, o: nat, x: Span, y: Span)
    requires x in Live(segs, h, o) && y in Live(segs, h, o) && x != y && Canonical(segs)
    ensures x.0 + x.1 + h <= y.0 || y.0 + y.1 + h <= x.0
  {
    var rest, o' := segs[1..], o + segs[0].size + h;
    TailCanonical(segs);
    if x in Live(rest, h, o') && y in Live(rest, h, o') {
      LiveDisjoint(rest, h, o', x, y);
    } else if x in Live(rest, h, o') {
      LiveBounds(rest, h, o', x);
    } else {
      LiveBounds(rest, h, o', y);
    }
  }

  lemma Neighbours(segs: seq<Seg>, i: nat)
    requires Canonical(segs) && i + 1 < |segs|
    ensures segs[i].used || segs[i + 1].used
  {
  }

  lemma CanonicalSizes(segs: seq<Seg>, i: nat)
    requires Canonical(segs) && i < |segs|
    ensures segs[i].size > 0
  {
  }

  lemma Single(g: Seg, h: nat, o: nat)
    ensures Total([g], h) == g.size + h && Used([g]) == (if g.used then g.size else 0)
    ensures Live([g], h, o) == if g.used then {(o + h, g.size)} else {}
  {
  }

  // --------------------------------------------------------------- uniqueness

  lemma TailCanonical(segs: seq<Seg>)
    requires Canonical(segs) && segs != []
    ensures Canonical(segs[1..])
  {
    forall i | 0 <= i < |segs[1..]| - 1 ensures segs[1..][i].used || segs[1..][i + 1].used {
      assert segs[i + 1].used || segs[i + 2].used;
    }
  }

  /** Nothing in use begins before the end of the first segment, except itself. */
  lemma LiveHead(segs: seq<Seg>, h: nat, o: nat, x: Span)
    requires Canonical(segs) && segs != [] && x in Live(segs, h, o)
    ensures (x == (o + h, segs[0].size) && segs[0].used) || x.0 >= o + segs[0].size + 2 * h
  {
    if x in Live(segs[1..], h, o + segs[0].size + h) {
      LiveBounds(segs[1..], h, o + segs[0].size + h, x);
    }
  }

  lemma SameHeadUsed(a: seq<Seg>, b: seq<Seg>, h: nat, o: nat)
    requires Canonical(a) && Canonical(b) && a != [] && b != [] && a[0].used
    requires Live(a, h, o) == Live(b, h, o)
    ensures b[0] == a[0]
  {
    var x := (o + h, a[0].size);
    assert x in Live(b, h, o);
    LiveHead(b, h, o, x);
  }

  lemma HeadFreeNotShorter(a: seq<Seg>, b: seq<Seg>, h: nat, o: nat)
    requires Canonical(a) && Canonical(b) && a != [] && b != [] && !a[0].used && !b[0].used
    requires Live(a, h, o) == Live(b, h, o) && Total(a, h) == Total(b, h)
    ensures a[0].size >= b[0].size
  {
    if |a| > 1 {
      assert a[0].used || a[1].used;
      var o' := o + a[0].size + h;
      var x := (o' + h, a[1].size);
      assert a[1..][0] == a[1];
      assert x in Live(a[1..], h, o') && x in Live(a, h, o);
      LiveHead(b, h, o, x);
    } else {
      assert a[1..] == [];
    }
  }

  /** A layout without empty segments or free neighbours is a function of what is
      in use: whatever the order of allocations and releases that led to it, the
      same spans in use mean the same segments. */
  lemma {:induction false} LayoutUnique(a: seq<Seg>, b: seq<Seg>, h: nat, o: nat)
    requires Canonical(a) && Canonical(b)
    requires Total(a, h) == Total(b, h) && Live(a, h, o) == Live(b, h, o)
    ensures a == b
  {
    if a != [] && b != [] {
      if a[0].used { SameHeadUsed(a, b, h, o); }
      else if b[0].used { SameHeadUsed(b, a, h, o); }
      else {
        HeadFreeNotShorter(a, b, h, o);
        HeadFreeNotShorter(b, a, h, o);
      }
      var o' := o + a[0].size + h;
      TailCanonical(a);
      TailCanonical(b);
      assert Live(a[1..], h, o') == Live(b[1..], h, o') by {
        forall x ensures x in Live(a[1..], h, o') <==> x in Live(b[1..], h, o') {
          if x in Live(a[1..], h, o') { LiveBounds(a[1..], h, o', x); }
          if x in Live(b[1..], h, o') { LiveBounds(b[1..], h, o', x); }
        }
      }
      LayoutUnique(a[1..], b[1..], h, o');
      assert a == [a[0]] + a[1..] && b == [b[0]] + b[1..];
    }
  }

  // ------------------------------------------------------- cutting and joining

  /** Replace segment i by `pieces`. */
  function Splice(segs: seq<Seg>, i: nat, k: nat, pieces: seq<Seg>): seq<Seg>
    requires i <= k <= |segs|
  {
    segs[..i] + pieces + segs[k..]
  }

  lemma SpliceTotal(segs: seq<Seg>, i: nat, k: nat, pieces: seq<Seg>, h: nat, o: nat)
    requires i <= k <= |segs|
    requires Total(pieces, h) == Total(segs[i..k], h)
    ensures Total(Splice(segs, i, k, pieces), h) == Total(segs, h)
    ensures Live(segs, h, o) ==
            Live(segs[..i], h, o) + Live(segs[i..k], h, o + Start(segs, i, h))
              + Live(segs[k..], h, o + Start(segs, k, h))
    ensures Live(Splice(segs, i, k, pieces), h, o) ==
            Live(segs[..i], h, o) + Live(pieces, h, o + Start(segs, i, h)) + Live(segs[k..], h, o + Start(segs, k, h))
    ensures Used(Splice(segs, i, k, pieces)) == Used(segs) - Used(segs[i..k]) + Used(pieces)
  {
    hide Total, Live, Used;
    var a, m, b := segs[..i], segs[i..k], segs[k..];
    SpliceCut(segs, i, k);
    SpliceSums(a, m, b, h, o);
    SpliceSums(a, pieces, b, h, o);
  }

  lemma SpliceCut(segs: seq<Seg>, i: nat, k: nat)
    requires i <= k <= |segs|
    ensures segs == segs[..i] + segs[i..k] + segs[k..] && segs[..k] == segs[..i] + segs[i..k]
  {
  }

  lemma SpliceSums(a: seq<Seg>, m: seq<Seg>, b: seq<Seg>, h: nat, o: nat)
    ensures Total(a + m + b, h) == Total(a, h) + Total(m, h) + Total(b, h)
    ensures Total(a + m, h) == Total(a, h) + Total(m, h)
    ensures Used(a + m + b) == Used(a) + Used(m) + Used(b)
    ensures Live(a + m + b, h, o) ==
            Live(a, h, o) + Live(m, h, o + Total(a, h)) + Live(b, h, o + Total(a, h) + Total(m, h))
  {
    hide Total, Live, Used;
    TotalConcat(a, m, h);
    TotalConcat(a + m, b, h);
    LiveConcat(a, m, h, o);
    LiveConcat(a + m, b, h, o);
    UsedConcat(a, m);
    UsedConcat(a + m, b);
  }

  lemma SpliceCanonical(segs: seq<Seg>, i: nat, k: nat, pieces: seq<Seg>)
    requires i <= k <= |segs| && Canonical(segs) && Canonical(pieces) && pieces != []
    requires i > 0 ==> segs[i - 1].used || pieces[0].used
    requires k < |segs| ==> pieces[|pieces| - 1].used || segs[k].used
    ensures Canonical(Splice(segs, i, k, pieces))
  {
    var r := Splice(segs, i, k, pieces);
    forall j | 0 <= j < |r| - 1 ensures r[j].used || r[j + 1].used {
      if j + 1 < i { assert segs[j].used || segs[j + 1].used; }
      else if i <= j && j + 1 < i + |pieces| { assert pieces[j - i].used || pieces[j - i + 1].used; }
      else if j >= i + |pieces| {
        var d := j - i - |pieces| + k;
        assert segs[d].used || segs[d + 1].used;
      }
    }
  }

  /** A free segment cut in up to three, the middle one put to use. */
  function Pieces(pre: nat, n: nat, post: nat): seq<Seg> {
    (if pre > 0 then [Seg(pre, false)] else []) + [Seg(n, true)] + (if post > 0 then [Seg(post, false)] else [])
  }

  lemma PiecesFacts(pre: nat, n: nat, post: nat, h: nat, o: nat)
    requires n > 0
    ensures Canonical(Pieces(pre, n, post))
    ensures Total(Pieces(pre, n, post), h) ==
            (if pre > 0 then pre + h else 0) + n + h + (if post > 0 then post + h else 0)
    ensures Live(Pieces(pre, n, post), h, o) == {(o + h + (if pre > 0 then pre + h else 0), n)}
    ensures Used(Pieces(pre, n, post)) == n
  {
    var a, b := if pre > 0 then [Seg(pre, false)] else [], if post > 0 then [Seg(post, false)] else [];
    var m := [Seg(n, true)];
    TotalConcat(a, m, h);
    TotalConcat(a + m, b, h);
    LiveConcat(a, m, h, o);
    LiveConcat(a + m, b, h, o);
    UsedConcat(a, m);
    UsedConcat(a + m, b);
  }

  lemma PiecesEnds(pre: nat, n: nat, post: nat)
    ensures Pieces(pre, n, post) != []
  {
  }

  function Carve(segs: seq<Seg>, i: nat, pre: nat, n: nat, post: nat): seq<Seg>
    requires i < |segs|
  {
    Splice(segs, i, i + 1, Pieces(pre, n, post))
  }

  /** Carving a span out of a free segment adds that span and nothing else. */
  lemma CarveOk(segs: seq<Seg>, i: nat, pre: nat, n: nat, post: nat, h: nat, o: nat)
    requires i < |segs| && Canonical(segs) && !segs[i].used && n > 0
    requires segs[i].size == (if pre > 0 then pre + h else 0) + n + (if post > 0 then post + h else 0)
    ensures var r := Carve(segs, i, pre, n, post);
            var x := (o + Start(segs, i, h) + h + (if pre > 0 then pre + h else 0), n);
            && Canonical(r) && Total(r, h) == Total(segs, h)
            && x !in Live(segs, h, o) && Live(r, h, o) == Live(segs, h, o) + {x}
            && Used(r) == Used(segs) + n
  {
    hide Live, Total, Used, Splice, Pieces, Start;
    var pieces := Pieces(pre, n, post);
    PiecesFacts(pre, n, post, h, o + Start(segs, i, h));
    assert segs[i..i + 1] == [segs[i]];
    Single(segs[i], h, o + Start(segs, i, h));
    SpliceTotal(segs, i, i + 1, pieces, h, o);
    StartNext(segs, i, h);
    PiecesEnds(pre, n, post);
    if i > 0 { Neighbours(segs, i - 1); }
    if i + 1 < |segs| { Neighbours(segs, i); }
    SpliceCanonical(segs, i, i + 1, pieces);
    var x := (o + Start(segs, i, h) + h + (if pre > 0 then pre + h else 0), n);
    OutsideNotLive(segs, i, i + 1, h, o, x);
  }

  /** A span inside segments i to k is not in use on either side of them. */
  lemma OutsideNotLive(segs: seq<Seg>, i: nat, k: nat, h: nat, o: nat, x: Span)
    requires i <= k <= |segs| && x.1 > 0
    requires o + Start(segs, i, h) + h <= x.0 && x.0 + x.1 <= o + Start(segs, k, h)
    ensures x !in Live(segs[..i], h, o) && x !in Live(segs[k..], h, o + Start(segs, k, h))
  {
    if x in Live(segs[..i], h, o) { LiveBounds(segs[..i], h, o, x); }
    if x in Live(segs[k..], h, o + Start(segs, k, h)) { LiveBounds(segs[k..], h, o + Start(segs, k, h), x); }
  }

  // The run of segments that becomes one when segment i is given back.
  function Lo(segs: seq<Seg>, i: nat): nat
    requires i < |segs|
  {
    if i > 0 && !segs[i - 1].used then i - 1 else i
  }

  function Hi(segs: seq<Seg>, i: nat): nat
    requires i < |segs|
  {
    if i + 1 < |segs| && !segs[i + 1].used then i + 2 else i + 1
  }

  /** Segment i given back and joined with its free neighbours. */
  function Freed(segs: seq<Seg>, i: nat, h: nat): seq<Seg>
    requires i < |segs|
  {
    var lo, hi := Lo(segs, i), Hi(segs, i);
    var size := segs[i].size + (if lo < i then segs[lo].size + h else 0)
          + (if hi > i + 1 then segs[i + 1].size + h else 0);
    Splice(segs, lo, hi, [Seg(size, false)])
  }

  /** Segment i between an optional free one on each side. */
  lemma RunParts(segs: seq<Seg>, i: nat)
    requires i < |segs|
    ensures var lo, hi := Lo(segs, i), Hi(segs, i);
            && segs[lo..hi] == segs[lo..i] + [segs[i]] + segs[i + 1..hi]
            && segs[lo..i] == (if lo < i then [segs[lo]] else [])
            && segs[i + 1..hi] == (if hi > i + 1 then [segs[i + 1]] else [])
  {
  }

  lemma RunTotal(segs: seq<Seg>, i: nat, h: nat, o: nat)
    requires i < |segs|
    ensures var lo, hi := Lo(segs, i), Hi(segs, i);
            && Total(segs[lo..hi], h) == segs[i].size + h + (if lo < i then segs[lo].size + h else 0)
                                         + (if hi > i + 1 then segs[i + 1].size + h else 0)
            && Live(segs[lo..hi], h, o + Start(segs, lo, h)) ==
               (if segs[i].used then {(o + Start(segs, i, h) + h, segs[i].size)} else {})
            && Used(segs[lo..hi]) == (if segs[i].used then segs[i].size else 0)
  {
    hide Total, Live, Used, Start;
    var lo, hi := Lo(segs, i), Hi(segs, i);
    var a, m, b, at := segs[lo..i], [segs[i]], segs[i + 1..hi], o + Start(segs, lo, h);
    RunParts(segs, i);
    NoSegs(h, at);
    NoSegs(h, at + Total(a, h));
    NoSegs(h, at + Total(a + m, h));
    if lo < i {
      Single(segs[lo], h, at);
      StartNext(segs, lo, h);
    }
    Single(segs[i], h, at + Total(a, h));
    if hi > i + 1 { Single(segs[i + 1], h, at + Total(a + m, h)); }
    TotalConcat(a, m, h);
    TotalConcat(a + m, b, h);
    LiveConcat(a, m, h, at);
    LiveConcat(a + m, b, h, at);
    UsedConcat(a, m);
    UsedConcat(a + m, b);
  }

  lemma NoSegs(h: nat, o: nat)
    ensures Total([], h) == 0 && Live([], h, o) == {} && Used([]) == 0
  {
  }

  lemma FreedCanonical(segs: seq<Seg>, i: nat, h: nat)
    requires i < |segs| && Canonical(segs)
    ensures Canonical(Freed(segs, i, h))
  {
    hide Canonical, Splice;
    var lo, hi := Lo(segs, i), Hi(segs, i);
    var size := segs[i].size + (if lo < i then segs[lo].size + h else 0)
                + (if hi > i + 1 then segs[i + 1].size + h else 0);
    CanonicalSizes(segs, i);
    OneCanonical(Seg(size, false));
    RunEnds(segs, i);
    SpliceCanonical(segs, lo, hi, [Seg(size, false)]);
  }

  lemma OneCanonical(g: Seg)
    requires g.size > 0
    ensures Canonical([g])
  {
  }

  /** The segments on either side of the run are in use. */
  lemma RunEnds(segs: seq<Seg>, i: nat)
    requires i < |segs| && Canonical(segs)
    ensures var lo, hi := Lo(segs, i), Hi(segs, i);
            (lo > 0 ==> segs[lo - 1].used) && (hi < |segs| ==> segs[hi].used)
  {
    hide Canonical;
    var lo, hi := Lo(segs, i), Hi(segs, i);
    if lo > 0 && lo < i { Neighbours(segs, lo - 1); }
    if hi < |segs| && hi > i + 1 { Neighbours(segs, i + 1); }
  }

  /** Giving back segment i removes exactly its span. */
  lemma FreedOk(segs: seq<Seg>, i: nat, h: nat, o: nat)
    requires i < |segs| && Canonical(segs) && segs[i].used
    ensures var r := Freed(segs, i, h);
            var x := (o + Start(segs, i, h) + h, segs[i].size);
            && Canonical(r) && Total(r, h) == Total(segs, h)
            && x in Live(segs, h, o) && Live(r, h, o) == Live(segs, h, o) - {x}
            && Used(r) == Used(segs) - segs[i].size
  {
    hide Live, Total, Used, Splice, Start, Canonical;
    var lo, hi := Lo(segs, i), Hi(segs, i);
    var x := (o + Start(segs, i, h) + h, segs[i].size);
    var size := segs[i].size + (if lo < i then segs[lo].size + h else 0)
          + (if hi > i + 1 then segs[i + 1].size + h else 0);
    RunTotal(segs, i, h, o);
    var piece := [Seg(size, false)];
    Single(piece[0], h, o + Start(segs, lo, h));
    CanonicalSizes(segs, i);
    SpliceTotal(segs, lo, hi, piece, h, o);
    FreedCanonical(segs, i, h);
    if lo < i { StartNext(segs, lo, h); }
    StartNext(segs, i, h);
    if hi > i + 1 { StartNext(segs, i + 1, h); }
    OutsideNotLive(segs, lo, hi, h, o, x);
  }

  // ------------------------------------------------------------ starts of pieces

  /** Splicing pieces of the same total moves nothing outside them. */
  lemma SpliceStarts(segs: seq<Seg>, i: nat, k: nat, pieces: seq<Seg>, h: nat, j: nat)
    requires i <= k <= |segs| && Total(pieces, h) == Total(segs[i..k], h)
    requires j <= i + |pieces| + |segs| - k
    ensures var r := Splice(segs, i, k, pieces);
            && j <= |r|
            && (j <= i ==> Start(r, j, h) == Start(segs, j, h))
            && (i <= j <= i + |pieces| ==> Start(r, j, h) == Start(segs, i, h) + Total(pieces[..j - i], h))
            && (i + |pieces| <= j ==> Start(r, j, h) == Start(segs, j - i - |pieces| + k, h))
  {
    hide Total;
    var r := Splice(segs, i, k, pieces);
    if j <= i {
      assert r[..j] == segs[..j];
      if j == i { assert pieces[..0] == []; NoSegs(h, 0); }
    }
    if i <= j <= i + |pieces| {
      assert r[..j] == segs[..i] + pieces[..j - i];
      TotalConcat(segs[..i], pieces[..j - i], h);
    }
    if i + |pieces| <= j {
      var d := j - i - |pieces|;
      assert r[..j] == segs[..i] + pieces + segs[k..k + d];
      assert segs[..k + d] == segs[..i] + segs[i..k] + segs[k..k + d];
      TotalConcat(segs[..i], pieces, h);
      TotalConcat(segs[..i] + pieces, segs[k..k + d], h);
      TotalConcat(segs[..i], segs[i..k], h);
      TotalConcat(segs[..i] + segs[i..k], segs[k..k + d], h);
    }
  }

  /** A span free of everything in use and inside the space. */
  ghost predicate SpanFree(segs: seq<Seg>, h: nat, p: nat, n: nat) {
    p + n <= Total(segs, h) && forall x :: x in Live(segs, h, 0) ==> x.0 + x.1 <= p || p + n <= x.0
  }

  lemma UsedIsLive(segs: seq<Seg>, i: nat, h: nat)
    requires i < |segs| && segs[i].used
    ensures (Start(segs, i, h) + h, segs[i].size) in Live(segs, h, 0)
  {
    LiveIndex(segs, h, 0, (Start(segs, i, h) + h, segs[i].size));
  }

  /** Without bookkeeping, a span that begins in segment i is free exactly when
      that segment is free and holds all of it. */
  lemma SpanFreeIn(segs: seq<Seg>, i: nat, p: nat, n: nat)
    requires Canonical(segs) && i < |segs| && n > 0
    requires Start(segs, i, 0) <= p < Start(segs, i, 0) + segs[i].size
    ensures SpanFree(segs, 0, p, n) <==> !segs[i].used && p + n <= Start(segs, i, 0) + segs[i].size
  {
    StartNext(segs, i, 0);
    StartMonotone(segs, i, |segs|, 0);
    assert segs[..|segs|] == segs;
    if segs[i].used {
      UsedIsLive(segs, i, 0);
    } else if p + n > Start(segs, i + 1, 0) {
      if i + 1 < |segs| {
        Neighbours(segs, i);
        CanonicalSizes(segs, i + 1);
        UsedIsLive(segs, i + 1, 0);
      }
    } else {
      forall x | x in Live(segs, 0, 0) ensures x.0 + x.1 <= p || p + n <= x.0 {
        LiveIndex(segs, 0, 0, x);
        var j :| 0 <= j < |segs| && segs[j].used && x == (Start(segs, j, 0), segs[j].size);
        if j < i { StartMonotone(segs, j, i, 0); } else { StartMonotone(segs, i, j, 0); }
      }
    }
  }
}
