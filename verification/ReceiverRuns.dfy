/** The receiver on whole runs: what answers each datagram, what ends it, what a datagram is worth. */
module ReceiverRuns {
  import opened Bytes
  import opened RdtSender
  import opened RdtReceiver
  import opened ReliableTransfer

  /** A run goes on from where its first part has stopped. */
  lemma {:induction false} ListenConcat(ses: Settings, r: Receiver, a: seq<Event>, b: seq<Event>)
    ensures var (r1, acks1) := Listen(ses, r, a);
      var (r2, acks2) := Listen(ses, r1, b);
      Listen(ses, r, a + b) == (r2, acks1 + acks2)
    decreases |a|
  {
    var (r1, acks1) := Listen(ses, r, a);
    if IsOver(r) || a == [] {
      assert a == [] ==> a + b == b;
      assert [] + Listen(ses, r, b).1 == Listen(ses, r, b).1;
    } else {
      var (r0, acks0) := React(ses, r, a[0]);
      assert (a + b)[1..] == a[1..] + b;
      ListenConcat(ses, r0, a[1..], b);
      assert acks0 + (Listen(ses, r0, a[1..]).1 + Listen(ses, r1, b).1) == acks1 + Listen(ses, r1, b).1;
    }
  }

  lemma ListenOne(ses: Settings, r: Receiver, e: Event)
    requires !IsOver(r)
    ensures Listen(ses, r, [e]) == React(ses, r, e)
  {
    var (r1, acks) := React(ses, r, e);
    assert Listen(ses, r1, [e][1..]) == (r1, []);
    assert acks + [] == acks;
  }

  /** One more event behind a run that is not over. */
  lemma ListenMore(ses: Settings, r: Receiver, script: seq<Event>, e: Event)
    requires !IsOver(Listen(ses, r, script).0)
    ensures var (r1, acks) := Listen(ses, r, script);
      var (r2, more) := React(ses, r1, e);
      Listen(ses, r, script + [e]) == (r2, acks + more)
  {
    ListenConcat(ses, r, script, [e]);
    ListenOne(ses, Listen(ses, r, script).0, e);
  }

  /** A receiver that has left the receive loop is never back in it. */
  lemma {:induction false} NeverBack(ses: Settings, r: Receiver, script: seq<Event>)
    requires !r.phase.Receiving?
    ensures !Listen(ses, r, script).0.phase.Receiving?
    decreases |script|
  {
    if !IsOver(r) && script != [] {
      NeverBack(ses, React(ses, r, script[0]).0, script[1..]);
    }
  }

  /** The last number acknowledged before packet `i` of a run that began with `expected` packets delivered. */
  function LastAck(expected: nat, acks: seq<nat>, i: nat): int
    requires i <= |acks|
  {
    if i == 0 then expected - 1 else acks[i - 1]
  }

  /**
   * Data packets in any order, repeated or with gaps, met behind packet 0: each of them is answered by
   * exactly one ACK, of the packet itself when it is the next in sequence and else of the last one
   * delivered, again.
   */
  lemma {:induction false} EveryPacketAnswered(ses: Settings, r: Receiver, ps: seq<Packet>)
    requires r.phase.Receiving? && r.expected > 0 && Listen(ses, r, Arrivals(ps)).0.phase.Receiving?
    ensures var (r', acks) := Listen(ses, r, Arrivals(ps));
      && |acks| == |ps| && r'.expected - 1 == LastAck(r.expected, acks, |ps|)
      && forall i :: 0 <= i < |ps| ==>
           var last := LastAck(r.expected, acks, i);
           acks[i] == if ps[i].num == last + 1 then ps[i].num else last
    decreases |ps|
  {
    if ps != [] {
      var front, p := ps[..|ps| - 1], ps[|ps| - 1];
      var (r1, before) := Listen(ses, r, Arrivals(front));
      assert Arrivals(ps) == Arrivals(front) + [Got(Carry(p))];
      ListenConcat(ses, r, Arrivals(front), [Got(Carry(p))]);
      if !r1.phase.Receiving? {
        NeverBack(ses, r1, [Got(Carry(p))]);
      }
      EveryPacketAnswered(ses, r, front);
      ListenOne(ses, r1, Got(Carry(p)));
      var acks := Listen(ses, r, Arrivals(ps)).1;
      var x := if p.num == r1.expected then p.num else r1.expected - 1;
      assert acks == before + [x];
      forall i | 0 <= i < |ps|
        ensures var last := LastAck(r.expected, acks, i);
          acks[i] == if ps[i].num == last + 1 then ps[i].num else last
      {
        assert LastAck(r.expected, acks, i) == LastAck(r.expected, before, i);
        assert i < |front| ==> acks[i] == before[i] && ps[i] == front[i];
      }
    }
  }

  /** The payloads of the packets that come in their turn, when `next` is the first to be taken. */
  function InTurn(next: nat, ps: seq<Packet>): seq<Chunk>
    decreases |ps|
  {
    if ps == [] then []
    else if ps[0].num == next then [ps[0].payload] + InTurn(next + 1, ps[1..])
    else InTurn(next, ps[1..])
  }

  /** Of data packets in any order, those are delivered that come in their turn, each once. */
  lemma {:induction false} DeliversInTurn(ses: Settings, r: Receiver, ps: seq<Packet>)
    requires r.phase.Receiving? && Listen(ses, r, Arrivals(ps)).0.phase.Receiving?
    ensures Listen(ses, r, Arrivals(ps)).0.delivered == r.delivered + InTurn(r.expected, ps)
    decreases |ps|
  {
    if ps == [] {
      assert r.delivered + [] == r.delivered;
    } else {
      var r1 := React(ses, r, Got(Carry(ps[0]))).0;
      assert Arrivals(ps)[1..] == Arrivals(ps[1..]);
      if !r1.phase.Receiving? {
        NeverBack(ses, r1, Arrivals(ps[1..]));
      }
      DeliversInTurn(ses, r1, ps[1..]);
    }
  }

  /** A cancel, a closed socket, the sender's ABORT, or a START of another mode or type. */
  predicate Ends(ses: Settings, e: Event) {
    || e.Cancelled? || e.Closed? || e == Got(Abort)
    || (e.Got? && e.d.Start? && (e.d.mode != ses.mode || e.d.t != ses.t))
  }

  /** Whatever came before, such an event ends the receiver with an error at once: nothing behind it is looked at. */
  lemma EndsAtOnce(ses: Settings, script: seq<Event>, e: Event, tail: seq<Event>)
    requires Listen(ses, BootReceiver(), script).0.phase.Receiving? && Ends(ses, e)
    ensures var (r, acks) := Listen(ses, BootReceiver(), script);
      var (r', acks') := Listen(ses, BootReceiver(), script + [e] + tail);
      r'.phase.Raised? && r'.delivered == r.delivered && acks' == acks
  {
    ListenMore(ses, BootReceiver(), script, e);
    ListenConcat(ses, BootReceiver(), script + [e], tail);
    var acks := Listen(ses, BootReceiver(), script).1;
    assert acks + [] + [] == acks;
  }

  /** A START of the receiver's own mode and type is acknowledged with 0 whenever it comes, and changes nothing. */
  lemma StartAcknowledged(ses: Settings, script: seq<Event>)
    requires Listen(ses, BootReceiver(), script).0.phase.Receiving?
    ensures var (r, acks) := Listen(ses, BootReceiver(), script);
      Listen(ses, BootReceiver(), script + [Got(Start(ses.mode, ses.t))]) ==
        (Receiver(Receiving, r.expected, 0, r.delivered, true), acks + [0])
  {
    ListenMore(ses, BootReceiver(), script, Got(Start(ses.mode, ses.t)));
  }

  /** Behind any datagram, even one that the gates drop, the sender has the full number of timeouts again. */
  lemma DatagramRenews(ses: Settings, script: seq<Event>, e: Event, k: nat)
    requires e.Got? || e.Dropped?
    requires Listen(ses, BootReceiver(), script + [e]).0.phase.Receiving?
    ensures Listen(ses, BootReceiver(), script + [e] + Timeouts(k)).0.phase.Raised? <==> k >= 1 && k >= ses.maxTimeouts
  {
    var r := Listen(ses, BootReceiver(), script).0;
    ListenConcat(ses, BootReceiver(), script, [e]);
    if !r.phase.Receiving? {
      NeverBack(ses, r, [e]);
    }
    ListenOne(ses, r, e);
    var r1 := Listen(ses, BootReceiver(), script + [e]).0;
    assert r1.timeouts == 0;
    ListenConcat(ses, BootReceiver(), script + [e], Timeouts(k));
    ReceiverGivesUp(ses, r1, k);
  }

  /** What a receive of the grace period is answered with. */
  function AgainFor(num: nat, e: Event): seq<nat> {
    if (e.Got? && e.d.Carry? && e.d.p.num == num && e.d.p.fin) || e == Dropped(true) then [num] else []
  }

  /**
   * The FIN packet in its turn is delivered and acknowledged, and acknowledged again for each further copy
   * of it among the next three receives, behind which the receiver has returned; a closed socket ends the wait.
   */
  lemma FinThenThree(ses: Settings, script: seq<Event>, p: Packet, a: Event, b: Event, c: Event)
    requires var r := Listen(ses, BootReceiver(), script).0;
      r.phase.Receiving? && p.num == r.expected && p.fin
    requires forall e :: e in [a, b, c] ==> !e.Cancelled? && !e.Closed?
    ensures var (r, acks) := Listen(ses, BootReceiver(), script);
      var got := r.delivered + [p.payload];
      var fin := script + [Got(Carry(p))];
      && (var (r', acks') := Listen(ses, BootReceiver(), fin + [a, b]);
          r'.phase.Grace? && r'.delivered == got && acks' == acks + [p.num] + AgainFor(p.num, a) + AgainFor(p.num, b))
      && (var (r', acks') := Listen(ses, BootReceiver(), fin + [a, b, c]);
          r'.phase.Returned? && r'.delivered == got
          && acks' == acks + [p.num] + AgainFor(p.num, a) + AgainFor(p.num, b) + AgainFor(p.num, c))
      && (var (r', acks') := Listen(ses, BootReceiver(), fin + [Closed]);
          r'.phase.Returned? && r'.delivered == got && acks' == acks + [p.num])
  {
    var fin := script + [Got(Carry(p))];
    FinTaken(ses, script, p);
    GraceMore(ses, fin, a);
    GraceMore(ses, fin + [a], b);
    assert fin + [a] + [b] == fin + [a, b];
    GraceMore(ses, fin + [a, b], c);
    assert fin + [a, b] + [c] == fin + [a, b, c];
  }

  /** The grace period does not look at a cancel. */
  lemma GraceIgnoresCancel(ses: Settings, script: seq<Event>)
    requires Listen(ses, BootReceiver(), script).0.phase.Grace?
    ensures Listen(ses, BootReceiver(), script + [Event.Cancelled]) == Listen(ses, BootReceiver(), script)
  {
    ListenMore(ses, BootReceiver(), script, Event.Cancelled);
    var acks := Listen(ses, BootReceiver(), script).1;
    assert acks + [] == acks;
  }

  lemma FinTaken(ses: Settings, script: seq<Event>, p: Packet)
    requires var r := Listen(ses, BootReceiver(), script).0;
      r.phase.Receiving? && p.num == r.expected && p.fin
    ensures var (r, acks) := Listen(ses, BootReceiver(), script);
      var (r', acks') := Listen(ses, BootReceiver(), script + [Got(Carry(p))]);
      && r'.phase == Grace(p.num, 3) && r'.delivered == r.delivered + [p.payload] && acks' == acks + [p.num]
      && (var (r'', acks'') := Listen(ses, BootReceiver(), script + [Got(Carry(p))] + [Closed]);
          r''.phase.Returned? && r''.delivered == r'.delivered && acks'' == acks')
  {
    var fin := script + [Got(Carry(p))];
    ListenMore(ses, BootReceiver(), script, Got(Carry(p)));
    ListenMore(ses, BootReceiver(), fin, Closed);
    var acks := Listen(ses, BootReceiver(), fin).1;
    assert acks + [] == acks;
  }

  /** One receive of the grace period. */
  lemma GraceMore(ses: Settings, script: seq<Event>, e: Event)
    requires Listen(ses, BootReceiver(), script).0.phase.Grace? && !e.Cancelled? && !e.Closed?
    ensures var (r, acks) := Listen(ses, BootReceiver(), script);
      var (r', acks') := Listen(ses, BootReceiver(), script + [e]);
      && r'.phase == (if r.phase.left <= 1 then Returned else Grace(r.phase.finNum, r.phase.left - 1))
      && r'.delivered == r.delivered && acks' == acks + AgainFor(r.phase.finNum, e)
  {
    ListenMore(ses, BootReceiver(), script, e);
  }
}
