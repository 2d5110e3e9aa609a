/** One direction of a connected UNIX socket: packets queued at the receiving end,
    readers that sleep on its data_ready event and writers that wake them. Steps are
    atomic from one sleep to the next, since kernel threads run with interrupts off. */
module SocketStream {
  newtype Byte = x: int | 0 <= x < 256

  datatype Packet = Packet(data: seq<Byte>, pos: nat)

  /** `waiters` sleep on data_ready; `woken` have been taken off it by a writer and
      not run yet. `delivered` and `written` are all bytes that went out and in. */
  datatype Stream = Stream(packets: seq<Packet>, signal: bool, waiters: seq<nat>, woken: seq<nat>,
                           delivered: seq<Byte>, written: seq<Byte>)

  const Quiet: Stream := Stream([], false, [], [], [], [])

  function Rest(p: Packet): seq<Byte> {
    if p.pos <= |p.data| then p.data[p.pos..] else []
  }

  function Pending(packets: seq<Packet>): seq<Byte> {
    if packets == [] then [] else Rest(packets[0]) + Pending(packets[1..])
  }

  // ----------------------------------------------------------------- the steps

  /** unix_socket_write of at least one byte */
  function Write(s: Stream, bytes: seq<Byte>): Stream {
    var s' := s.(packets := s.packets + [Packet(bytes, 0)], written := s.written + bytes);
    if s.waiters == [] then s'.(signal := true) else s'.(waiters := s.waiters[1..], woken := s.woken + [s.waiters[0]])
  }

  /** What a read of `size` bytes takes off the first packet. */
  function Taken(p: Packet, size: nat): seq<Byte> {
    if |Rest(p)| > size then Rest(p)[..size] else Rest(p)
  }

  function Shortened(packets: seq<Packet>, size: nat): seq<Packet>
    requires packets != []
  {
    if |Rest(packets[0])| > size then packets[0 := packets[0].(pos := packets[0].pos + size)] else packets[1..]
  }

  /** unix_socket_read by r up to its next sleep or its return. */
  function Read(s: Stream, r: nat, size: nat): Stream {
    if s.packets == [] then s.(signal := false, waiters := s.waiters + [r])
    else s.(packets := Shortened(s.packets, size), delivered := s.delivered + Taken(s.packets[0], size))
  }

  /** A woken reader goes on with its loop. */
  function Resume(s: Stream, i: nat, size: nat): Stream
    requires i < |s.woken|
  {
    Read(s.(woken := s.woken[..i] + s.woken[i + 1..]), s.woken[i], size)
  }

  datatype Label = DoWrite(bytes: seq<Byte>) | DoRead(r: nat, size: nat) | DoResume(i: nat, size: nat)

  /** A write of no bytes would ask the heap for none, which panics. */
  predicate Enabled(s: Stream, l: Label) {
    match l
    case DoWrite(bytes) => bytes != []
    case DoRead(r, size) => true
    case DoResume(i, size) => i < |s.woken|
  }

  function Step(s: Stream, l: Label): Stream
    requires Enabled(s, l)
  {
    match l
    case DoWrite(bytes) => Write(s, bytes)
    case DoRead(r, size) => Read(s, r, size)
    case DoResume(i, size) => Resume(s, i, size)
  }

  ghost predicate IsRun(states: seq<Stream>, labels: seq<Label>) {
    && |states| == |labels| + 1 && states[0] == Quiet
    && forall i :: 0 <= i < |labels| ==> Enabled(states[i], labels[i]) && states[i + 1] == Step(states[i], labels[i])
  }

  // -------------------------------------------------------------- conservation

  /** Nothing lost, nothing repeated, nothing reordered. */
  ghost predicate Conserved(s: Stream) {
    && s.delivered + Pending(s.packets) == s.written
    && Fresh(s.packets)
    && (s.signal ==> s.waiters == [])
  }

  lemma {:induction false} PendingAppend(packets: seq<Packet>, p: Packet)
    ensures Pending(packets + [p]) == Pending(packets) + Rest(p)
  {
    if packets == [] {
      assert [p][1..] == [];
    } else {
      assert (packets + [p])[1..] == packets[1..] + [p];
      PendingAppend(packets[1..], p);
    }
  }

  function Min(a: nat, b: nat): nat { if a < b then a else b }

  /** The bytes a read takes, followed by those still queued, are those that were: as
      many as were asked for, or all that the first packet has left. */
  lemma ReadTakes(packets: seq<Packet>, size: nat)
    requires packets != [] && Fresh(packets)
    ensures Taken(packets[0], size) + Pending(Shortened(packets, size)) == Pending(packets)
    ensures Fresh(Shortened(packets, size))
    ensures |Taken(packets[0], size)| == Min(size, |packets[0].data| - packets[0].pos)
    ensures |Shortened(packets, size)| == |packets| - if |packets[0].data| - packets[0].pos > size then 0 else 1
  {
    hide Rest, Pending;
    SplitRest(packets[0], size);
    FrontPending(packets);
    if |Rest(packets[0])| > size { PartTaken(packets, size); }
  }

  /** Every packet has bytes left. */
  predicate Fresh(packets: seq<Packet>) {
    forall i :: 0 <= i < |packets| ==> packets[i].pos < |packets[i].data|
  }

  lemma FrontPending(packets: seq<Packet>)
    requires packets != []
    ensures Pending(packets) == Rest(packets[0]) + Pending(packets[1..])
  {
  }

  lemma PartTaken(packets: seq<Packet>, size: nat)
    requires packets != [] && packets[0].pos < |packets[0].data| && |Rest(packets[0])| > size
    ensures Taken(packets[0], size) + Pending(Shortened(packets, size)) == Pending(packets)
  {
    hide Rest, Pending;
    var p, tail := packets[0], Pending(packets[1..]);
    var q, less := p.(pos := p.pos + size), Shortened(packets, size);
    SplitRest(p, size);
    FrontPending(packets);
    FrontPending(less);
    assert less[0] == q && less[1..] == packets[1..];
    Regroup(Taken(p, size), Rest(q), tail);
  }

  lemma Regroup(a: seq<Byte>, b: seq<Byte>, c: seq<Byte>)
    ensures a + (b + c) == (a + b) + c
  {
  }

  lemma SplitRest(p: Packet, size: nat)
    requires p.pos < |p.data|
    ensures |Rest(p)| == |p.data| - p.pos
    ensures |Rest(p)| > size ==> Rest(p)[..size] + Rest(p.(pos := p.pos + size)) == Rest(p)
  {
  }

  lemma ReadConserves(s: Stream, r: nat, size: nat)
    requires Conserved(s)
    ensures Conserved(Read(s, r, size))
    ensures s.packets != [] && size > 0 ==> |Read(s, r, size).delivered| > |s.delivered|
  {
    if s.packets != [] {
      ReadTakes(s.packets, size);
      var t := Taken(s.packets[0], size);
      assert s.delivered + t + Pending(Shortened(s.packets, size)) ==
               s.delivered + (t + Pending(Shortened(s.packets, size)));
    }
  }

  lemma StepConserves(s: Stream, l: Label)
    requires Conserved(s) && Enabled(s, l)
    ensures Conserved(Step(s, l))
  {
    match l
    case DoWrite(bytes) =>
      PendingAppend(s.packets, Packet(bytes, 0));
      assert Rest(Packet(bytes, 0)) == bytes;
      assert s.delivered + Pending(s.packets) + bytes == s.delivered + (Pending(s.packets) + bytes);
    case DoRead(r, size) => ReadConserves(s, r, size);
    case DoResume(i, size) => ReadConserves(s.(woken := s.woken[..i] + s.woken[i + 1..]), s.woken[i], size);
  }

  /** Whatever the interleaving and the sizes: the bytes delivered, followed by those
      still queued, are the bytes written. */
  lemma {:induction false} RunConserves(states: seq<Stream>, labels: seq<Label>, n: nat)
    requires IsRun(states, labels) && n < |states|
    ensures Conserved(states[n])
  {
    if n > 0 {
      RunConserves(states, labels, n - 1);
      StepConserves(states[n - 1], labels[n - 1]);
    }
  }

  // ------------------------------------------------------------------ wake-ups

  /** While a reader sleeps there are no more packets than readers on their way. */
  predicate NoLostWakeup(s: Stream) {
    s.waiters != [] ==> |s.packets| <= |s.woken|
  }

  /** A step after which a sleeping reader may be left with data: a woken reader
      that leaves part of a packet behind, with others asleep and nobody else on the
      way for that packet. */
  predicate Strands(s: Stream, l: Label) {
    && l.DoResume? && s.packets != [] && |Rest(s.packets[0])| > l.size
    && s.waiters != [] && |s.packets| >= |s.woken|
  }

  /** One step keeps wake-ups from being lost exactly when it strands nobody. */
  lemma WakeupStep(s: Stream, l: Label)
    requires NoLostWakeup(s) && Enabled(s, l)
    ensures NoLostWakeup(Step(s, l)) <==> !Strands(s, l)
  {
  }

  /** Over a run: no wake-up is lost up to n exactly when no step before n strands
      anybody. */
  lemma {:induction false} RunKeepsWakeups(states: seq<Stream>, labels: seq<Label>, n: nat)
    requires IsRun(states, labels) && n < |states|
    ensures (forall m :: 0 <= m <= n ==> NoLostWakeup(states[m])) <==>
            (forall i :: 0 <= i < n ==> !Strands(states[i], labels[i]))
  {
    hide Step, Enabled, NoLostWakeup, Strands;
    if n == 0 {
      QuietWakes();
    } else {
      RunKeepsWakeups(states, labels, n - 1);
      if NoLostWakeup(states[n - 1]) {
        assert Enabled(states[n - 1], labels[n - 1]) && states[n] == Step(states[n - 1], labels[n - 1]);
        WakeupStep(states[n - 1], labels[n - 1]);
      }
    }
  }

  /** One reader at a time: a read begins only when no other is asleep or woken. */
  predicate OneReader(s: Stream, l: Label) {
    l.DoRead? ==> s.waiters == [] && s.woken == []
  }

  /** With one reader at a time no wake-up is ever lost, whatever it reads. */
  lemma {:induction false} OneReaderWakes(states: seq<Stream>, labels: seq<Label>, n: nat)
    requires IsRun(states, labels) && n < |states|
    requires forall i :: 0 <= i < n ==> OneReader(states[i], labels[i])
    ensures NoLostWakeup(states[n]) && |states[n].waiters| + |states[n].woken| <= 1
  {
    hide Step, NoLostWakeup;
    if n > 0 {
      OneReaderWakes(states, labels, n - 1);
      OneReaderStep(states[n - 1], labels[n - 1]);
    } else {
      QuietWakes();
    }
  }

  lemma QuietWakes()
    ensures NoLostWakeup(Quiet) && |Quiet.waiters| + |Quiet.woken| <= 1
  {
  }

  lemma OneReaderStep(s: Stream, l: Label)
    requires NoLostWakeup(s) && |s.waiters| + |s.woken| <= 1 && Enabled(s, l) && OneReader(s, l)
    ensures NoLostWakeup(Step(s, l)) && |Step(s, l).waiters| + |Step(s, l).woken| <= 1
  {
    hide Shortened, Taken;
  }

  /** With more readers one can be lost: two sleep, a packet of two bytes wakes the
      first, which takes one byte; the second sleeps on beside the other. */
  lemma LostWakeup()
    ensures exists states, labels :: IsRun(states, labels) && |states| == 5 && !NoLostWakeup(states[4])
  {
    var labels := [DoRead(0, 1), DoRead(1, 1), DoWrite([1, 2]), DoResume(0, 1)];
    var s1 := Step(Quiet, labels[0]);
    var s2 := Step(s1, labels[1]);
    var s3 := Step(s2, labels[2]);
    var s4 := Step(s3, labels[3]);
    var states := [Quiet, s1, s2, s3, s4];
    assert s4.waiters == [1] && |s4.packets| == 1 && s4.woken == [];
    assert IsRun(states, labels);
  }

  // ------------------------------------------------------------- who is woken

  /** Who finds nothing queued and goes to sleep. */
  function FallsAsleep(s: Stream, l: Label): seq<nat>
    requires Enabled(s, l)
  {
    if s.packets != [] || l.DoWrite? then [] else if l.DoRead? then [l.r] else [s.woken[l.i]]
  }

  /** Who has joined the readers on their way. */
  function Joined(before: seq<nat>, after: seq<nat>): seq<nat> {
    if |after| > |before| then [after[|after| - 1]] else []
  }

  ghost function Sleepers(states: seq<Stream>, labels: seq<Label>, n: nat): seq<nat>
    requires IsRun(states, labels) && n <= |labels|
  {
    if n == 0 then [] else Sleepers(states, labels, n - 1) + FallsAsleep(states[n - 1], labels[n - 1])
  }

  function Wakened(states: seq<Stream>, n: nat): seq<nat>
    requires n < |states|
  {
    if n == 0 then [] else Wakened(states, n - 1) + Joined(states[n - 1].woken, states[n].woken)
  }

  lemma StepWakes(s: Stream, l: Label)
    requires Conserved(s) && Enabled(s, l)
    ensures var n := Step(s, l); s.waiters + FallsAsleep(s, l) == Joined(s.woken, n.woken) + n.waiters
    ensures l.DoWrite? && s.waiters == [] ==> Step(s, l).signal
  {
    hide Pending, Taken, Shortened, Fresh;
  }

  /** Readers are woken in the order in which they fell asleep: at every point those who
      have gone to sleep are those woken since, in the same order, and after them those
      still asleep. */
  lemma {:induction false} ReadersInOrder(states: seq<Stream>, labels: seq<Label>, n: nat)
    requires IsRun(states, labels) && n <= |labels|
    ensures Sleepers(states, labels, n) == Wakened(states, n) + states[n].waiters
  {
    hide Step, Enabled, FallsAsleep, Joined, Conserved;
    if n > 0 {
      ReadersInOrder(states, labels, n - 1);
      RunConserves(states, labels, n - 1);
      assert Enabled(states[n - 1], labels[n - 1]) && states[n - 1 + 1] == Step(states[n - 1], labels[n - 1]);
      StepWakes(states[n - 1], labels[n - 1]);
      AfterThem(Wakened(states, n - 1), states[n - 1].waiters, FallsAsleep(states[n - 1], labels[n - 1]),
        Joined(states[n - 1].woken, states[n].woken), states[n].waiters);
    }
  }

  lemma AfterThem(a: seq<nat>, b: seq<nat>, c: seq<nat>, d: seq<nat>, e: seq<nat>)
    requires b + c == d + e
    ensures (a + b) + c == (a + d) + e
  {
    assert (a + b) + c == a + (b + c);
  }

  // ------------------------------------------------------------- the real thing

  datatype ReadResult = NoAddress | Asleep | Got(bytes: seq<Byte>)
  datatype WriteResult = NotConnected | EmptyPacket | Wrote(size: nat)

  /** The receiving end. `connected` tells whether paired_socket is set at the end that
      makes the call. */
  class Receiver {
    var packets: seq<Packet>
    var signal: bool
    var waiters: seq<nat>
    var woken: seq<nat>
    ghost var delivered: seq<Byte>
    ghost var written: seq<Byte>

    ghost function Now(): Stream
      reads this
    {
      Stream(packets, signal, waiters, woken, delivered, written)
    }

    constructor ()
      ensures Now() == Quiet && Conserved(Now())
    {
      packets, signal, waiters, woken, delivered, written := [], false, [], [], [], [];
    }

    /** unix_socket_write by the peer: ERROR_NO_ADDR when it is not connected, a panic
        on an empty packet. */
    method Put(connected: bool, bytes: seq<Byte>) returns (r: WriteResult)
      requires Conserved(Now())
      modifies this
      ensures Conserved(Now())
      ensures r == if !connected then NotConnected else if bytes == [] then EmptyPacket else Wrote(|bytes|)
      ensures Now() == if r.Wrote? then Write(old(Now()), bytes) else old(Now())
    {
      if !connected { return NotConnected; }
      if bytes == [] { return EmptyPacket; }
      StepConserves(Now(), DoWrite(bytes));
      packets := packets + [Packet(bytes, 0)];
      written := written + bytes;
      if waiters != [] {
        woken := woken + [waiters[0]];
        waiters := waiters[1..];
      } else {
        signal := true;
      }
      return Wrote(|bytes|);
    }

    /** unix_socket_read by r: ERROR_NO_ADDR when its socket is not connected, asleep
        when nothing is queued, and otherwise exactly the bytes that leave the queue. */
    method Get(connected: bool, r: nat, size: nat) returns (result: ReadResult)
      requires Conserved(Now())
      modifies this
      ensures Conserved(Now()) && (result.NoAddress? <==> !connected)
      ensures !connected ==> Now() == old(Now())
      ensures connected ==> Now() == Read(old(Now()), r, size) && (result.Asleep? <==> old(packets) == [])
      ensures result.Got? ==>
                && old(packets) != [] && old(packets)[0].pos < |old(packets)[0].data|
                && delivered == old(delivered) + result.bytes
                && |result.bytes| == Min(size, |old(packets)[0].data| - old(packets)[0].pos)
    {
      if !connected { return NoAddress; }
      result := Take(r, size);
    }

    /** The loop of unix_socket_read, from the call or from a wake-up. */
    method Take(r: nat, size: nat) returns (result: ReadResult)
      requires Conserved(Now())
      modifies this
      ensures Now() == Read(old(Now()), r, size) && Conserved(Now())
      ensures !result.NoAddress? && (result.Asleep? <==> old(packets) == [])
      ensures result.Got? ==>
                && old(packets) != [] && old(packets)[0].pos < |old(packets)[0].data|
                && delivered == old(delivered) + result.bytes
                && |result.bytes| == Min(size, |old(packets)[0].data| - old(packets)[0].pos)
    {
      hide Rest, Pending, Shortened, Taken;
      ReadConserves(Now(), r, size);
      if packets != [] { ReadTakes(packets, size); }
      while packets == []
        invariant packets == old(packets) && waiters == old(waiters) && woken == old(woken)
        invariant delivered == old(delivered) && written == old(written) && (packets != [] ==> signal == old(signal))
        decreases signal
      {
        if !signal {
          waiters := waiters + [r];
          return Asleep;
        }
        signal := false;
      }
      var bytes := Cut(size);
      return Got(bytes);
    }

    /** The first packet's bytes copied out, the packet cut short or taken off. */
    method Cut(size: nat) returns (bytes: seq<Byte>)
      requires packets != [] && packets[0].pos < |packets[0].data|
      modifies this`packets, this`delivered
      ensures bytes == Taken(old(packets)[0], size) && packets == Shortened(old(packets), size)
      ensures delivered == old(delivered) + bytes
    {
      var packet := packets[0];
      if |packet.data| - packet.pos > size {
        bytes := packet.data[packet.pos..packet.pos + size];
        packets := packets[0 := packet.(pos := packet.pos + size)];
      } else {
        packets := packets[1..];
        bytes := packet.data[packet.pos..];
      }
      delivered := delivered + bytes;
    }

    /** A woken reader runs again. */
    method Wake(i: nat, size: nat) returns (result: ReadResult)
      requires Conserved(Now()) && i < |woken|
      modifies this
      ensures Now() == Resume(old(Now()), i, size) && Conserved(Now())
    {
      var r := woken[i];
      woken := woken[..i] + woken[i + 1..];
      result := Take(r, size);
    }
  }
}
