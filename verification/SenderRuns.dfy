/** The sender on whole runs: where a cancel stops it, how often it tries, what it resends. */
module SenderRuns {
  import opened Bytes
  import opened RdtSender
  import opened SenderBounds
  import opened ReliableTransfer

  predicate IsWaiting(s: Sender) {
    s.phase.AwaitingStart? || s.phase.AwaitingAck?
  }

  /** The first receive of a run. */
  lemma DriveFirst(cfg: Config, s: Sender, first: Input, rest: seq<Input>)
    requires !CancelNow(s, [first]) && !IsDone(Settle(cfg, s).0)
    ensures var (s1, o1) := Settle(cfg, s);
      var (s2, o2) := Hear(cfg, s1, first);
      var (s3, o3) := Drive(cfg, s2, rest);
      Drive(cfg, s, [first] + rest) == (s3, o1 + o2 + o3)
  {
    var script := [first] + rest;
    assert script[0] == first && script[1..] == rest;
  }

  /** A run that waits goes on with the next input; a cancel would be looked at only behind it. */
  lemma {:induction false} DriveSplit(cfg: Config, s: Sender, script: seq<Input>, x: Input, tail: seq<Input>)
    requires IsWaiting(Drive(cfg, s, script).0) && !x.Cancel?
    ensures var (s1, sent) := Drive(cfg, s, script);
      var (s2, o) := Hear(cfg, s1, x);
      var (s3, more) := Drive(cfg, s2, tail);
      Drive(cfg, s, script + [x] + tail) == (s3, sent + o + more)
    decreases |script|
  {
    if script == [] {
      DriveFirst(cfg, s, x, tail);
      assert [] + [x] + tail == [x] + tail;
    } else {
      var first, rest := script[0], script[1..];
      assert script == [first] + rest && script + [x] + tail == [first] + (rest + [x] + tail);
      assert !CancelNow(s, script) && !IsDone(Settle(cfg, s).0);
      DriveFirst(cfg, s, first, rest);
      DriveFirst(cfg, s, first, rest + [x] + tail);
      var s2 := Hear(cfg, Settle(cfg, s).0, first).0;
      DriveSplit(cfg, s2, rest, x, tail);
      Rejoin(Settle(cfg, s).1 + Hear(cfg, Settle(cfg, s).0, first).1, Drive(cfg, s2, rest).1,
             Hear(cfg, Drive(cfg, s2, rest).0, x).1, Drive(cfg, Hear(cfg, Drive(cfg, s2, rest).0, x).0, tail).1);
    }
  }

  lemma Rejoin(a: seq<Forward>, b: seq<Forward>, c: seq<Forward>, d: seq<Forward>)
    ensures a + (b + c + d) == a + b + c + d
  {
  }

  /** The input uses up the last try of a sender that waits. */
  predicate GivesUpOn(cfg: Config, s: Sender, x: Input) {
    || (s.phase.AwaitingStart? && x != Ack(0) && s.phase.attempt >= cfg.retry)
    || (s.phase.AwaitingAck? && x.Timeout? && s.timeouts + 1 >= cfg.retry)
  }

  /** Behind the input everything is sent and acknowledged. */
  predicate FinishesOn(s: Sender, x: Input) {
    && s.phase.AwaitingAck? && s.exhausted
    && forall i :: i in s.window ==> x.Ack? && s.lastAcked < x.k < s.next && i <= x.k
  }

  /** What a sender that waits sends for the input itself. */
  function Resent(s: Sender, x: Input): seq<Forward> {
    if s.phase.AwaitingAck? && x.Timeout? then Carries(InOrder(s.window, 0, s.next)) else []
  }

  /**
   * A cancel behind any input of a sender that waits, in the handshake or in the window loop: it is too late
   * if that input was the last one needed or the last one allowed, and else the sender aborts, having sent
   * nothing behind what the input made it resend.
   */
  lemma CancelStops(cfg: Config, script: seq<Input>, x: Input, tail: seq<Input>)
    requires IsWaiting(Drive(cfg, Boot(cfg), script).0) && !x.Cancel?
    ensures var (s, sent) := Drive(cfg, Boot(cfg), script);
      var (s', sent') := Drive(cfg, Boot(cfg), script + [x, Cancel] + tail);
      if GivesUpOn(cfg, s, x) then s'.phase.Failed? && sent' == sent
      else if FinishesOn(s, x) then s'.phase.Succeeded? && sent' == sent
      else s'.phase.Failed? && sent' == sent + Resent(s, x) + [Abort]
  {
    var (s, sent) := Drive(cfg, Boot(cfg), script);
    BootInv(cfg);
    DriveInv(cfg, Boot(cfg), script);
    DriveSplit(cfg, Boot(cfg), script, x, [Cancel] + tail);
    assert script + [x, Cancel] + tail == script + [x] + ([Cancel] + tail);
    var (s2, o) := Hear(cfg, s, x);
    assert s2.phase.Top? && s2.exhausted && s2.window == map[] <==> FinishesOn(s, x) && !GivesUpOn(cfg, s, x) by {
      Emptied(cfg, s, x);
    }
    if FinishesOn(s, x) && x.Timeout? {
      InOrderEmpty(s.window, 0, s.next);
    }
    CancelLooksAt(cfg, s2, tail);
    assert sent + [] + [] == sent;
  }

  /** An input leaves nothing to do exactly when it finishes the transfer. */
  lemma Emptied(cfg: Config, s: Sender, x: Input)
    requires IsWaiting(s) && SenderInv(cfg, s)
    ensures var s' := Hear(cfg, s, x).0;
      && (s'.phase.Failed? <==> GivesUpOn(cfg, s, x))
      && (s'.phase.Top? && s'.exhausted && s'.window == map[] <==> FinishesOn(s, x) && !GivesUpOn(cfg, s, x))
  {
    var s' := Hear(cfg, s, x).0;
    if s.phase.AwaitingAck? && s'.window == map[] {
      forall i | i in s.window ensures x.Ack? && s.lastAcked < x.k < s.next && i <= x.k {
        assert i !in s'.window;
      }
    }
    if FinishesOn(s, x) {
      assert forall i :: i !in s'.window;
    }
  }

  /** A cancel is the next thing to come, behind an input. */
  lemma CancelLooksAt(cfg: Config, s: Sender, tail: seq<Input>)
    requires s.phase.Failed? || s.phase.Connecting? || s.phase.Top?
    ensures Drive(cfg, s, [Cancel] + tail) ==
      if s.phase.Failed? then (s, [])
      else if s.phase.Top? && s.exhausted && s.window == map[] then (s.(phase := Succeeded), [])
      else (s.(phase := Failed), [Abort])
  {
    if s.phase.Top? && s.exhausted && s.window == map[] {
      SucceedsAtTop(cfg, s);
    }
  }

  /** A cancel before anything else stops the transfer before its START, unless the parameters refuse it anyway. */
  lemma CancelFirst(cfg: Config, tail: seq<Input>)
    requires cfg.window >= 1 && cfg.retry >= 1
    ensures var (s, sent) := Drive(cfg, Boot(cfg), [Cancel] + tail);
      s.phase.Failed? && sent == [Abort]
  {
  }

  function Repeat<T>(x: seq<T>, k: nat): seq<T>
    decreases k
  {
    if k == 0 then [] else Repeat(x, k - 1) + x
  }

  /** Not the ACK of START. */
  predicate OpensNothing(script: seq<Input>) {
    forall i :: 0 <= i < |script| ==> script[i] != Ack(0) && !script[i].Cancel?
  }

  /** The handshake sends START at most `retry` times, once for each receive that brings no ACK of it, and then fails. */
  lemma {:induction false} HandshakeGivesUp(cfg: Config, script: seq<Input>)
    requires cfg.window >= 1 && cfg.retry >= 1 && OpensNothing(script)
    ensures var (s, sent) := Drive(cfg, Boot(cfg), script);
      var start := [Start(cfg.mode, cfg.t)];
      if |script| < cfg.retry then s.phase == AwaitingStart(|script| + 1) && sent == Repeat(start, |script| + 1)
      else s.phase.Failed? && sent == Repeat(start, cfg.retry)
    decreases |script|
  {
    var start := [Start(cfg.mode, cfg.t)];
    if script == [] {
      var waiting := Boot(cfg).(phase := AwaitingStart(1));
      assert Settle(cfg, waiting) == (waiting, []);
      assert start + [] == [] + start;
    } else {
      var m := (if |script| < cfg.retry then |script| else cfg.retry) - 1;
      var front, x, tail := script[..m], script[m], script[m + 1..];
      HandshakeGivesUp(cfg, front);
      assert script == front + [x] + tail;
      DriveSplit(cfg, Boot(cfg), front, x, tail);
      var s2 := Hear(cfg, Drive(cfg, Boot(cfg), front).0, x).0;
      var sent := Drive(cfg, Boot(cfg), front).1;
      assert sent + [] + [] == sent && sent + [] + start == sent + start;
      if s2.phase.Connecting? {
        var waiting := s2.(phase := AwaitingStart(m + 2));
        assert Settle(cfg, waiting) == (waiting, []);
        assert start + [] == start;
      }
    }
  }

  function Expiries(k: nat): seq<Input> {
    seq(k, _ => Timeout)
  }

  /** `k` timeouts have come in a row, and the sender has not given up. */
  ghost predicate HasExpired(cfg: Config, s: Sender, sent: seq<Forward>, s': Sender, sent': seq<Forward>, k: nat) {
    && View(s') == View(s).(timeouts := s.timeouts + k)
    && sent' == sent + Repeat(Carries(InOrder(s.window, 0, s.next)), k)
  }

  lemma RepeatMore<T>(front: seq<T>, x: seq<T>, k: nat)
    requires k > 0
    ensures front + Repeat(x, k - 1) + x == front + Repeat(x, k)
  {
  }

  lemma {:induction false} Expiring(cfg: Config, script: seq<Input>, k: nat)
    requires var s := Drive(cfg, Boot(cfg), script).0;
      s.phase.AwaitingAck? && s.window != map[] && (k == 0 || s.timeouts + k < cfg.retry)
    ensures var (s, sent) := Drive(cfg, Boot(cfg), script);
      var (s', sent') := Drive(cfg, Boot(cfg), script + Expiries(k));
      HasExpired(cfg, s, sent, s', sent', k)
    decreases k
  {
    var (s, sent) := Drive(cfg, Boot(cfg), script);
    if k == 0 {
      assert script + Expiries(0) == script && sent + [] == sent;
    } else {
      Expiring(cfg, script, k - 1);
      var front := script + Expiries(k - 1);
      assert script + Expiries(k) == front + [Timeout] + [];
      AnotherExpiry(cfg, front, []);
      var again := Carries(InOrder(s.window, 0, s.next));
      RepeatMore(sent, again, k);
    }
  }

  /** What a sender that waits would send again. */
  lemma Unacknowledged(cfg: Config, script: seq<Input>)
    requires Drive(cfg, Boot(cfg), script).0.phase.AwaitingAck?
    ensures var s := Drive(cfg, Boot(cfg), script).0;
      && -1 <= s.lastAcked < s.next <= |Packets(cfg.chunks)| && s.timeouts < cfg.retry
      && InOrder(s.window, 0, s.next) == Packets(cfg.chunks)[s.lastAcked + 1..s.next]
  {
    BootInv(cfg);
    DriveInv(cfg, Boot(cfg), script);
    WindowTheorem(cfg, script);
  }

  /**
   * Timeouts in a row: each resends every unacknowledged packet, in sequence, and nothing else, until the
   * retry limit is reached, which fails the sender without a further resend.
   */
  lemma ResendsWindow(cfg: Config, script: seq<Input>, k: nat)
    requires var s := Drive(cfg, Boot(cfg), script).0; s.phase.AwaitingAck? && s.window != map[]
    ensures var (s, sent) := Drive(cfg, Boot(cfg), script);
      var (s', sent') := Drive(cfg, Boot(cfg), script + Expiries(k));
      && -1 <= s.lastAcked < s.next <= |Packets(cfg.chunks)| && s.timeouts < cfg.retry
      && var again := Carries(Packets(cfg.chunks)[s.lastAcked + 1..s.next]);
      if s.timeouts + k < cfg.retry then View(s') == View(s).(timeouts := s.timeouts + k) && sent' == sent + Repeat(again, k)
      else s'.phase.Failed? && sent' == sent + Repeat(again, cfg.retry - 1 - s.timeouts)
  {
    var s := Drive(cfg, Boot(cfg), script).0;
    Unacknowledged(cfg, script);
    if s.timeouts + k < cfg.retry {
      Expiring(cfg, script, k);
    } else {
      ExpiryFails(cfg, script, cfg.retry - 1 - s.timeouts, k);
    }
  }

  lemma ExpiryFails(cfg: Config, script: seq<Input>, m: nat, k: nat)
    requires m < k
    requires var s := Drive(cfg, Boot(cfg), script).0;
      s.phase.AwaitingAck? && s.window != map[] && s.timeouts + m + 1 == cfg.retry
    ensures var (s, sent) := Drive(cfg, Boot(cfg), script);
      var (s', sent') := Drive(cfg, Boot(cfg), script + Expiries(k));
      s'.phase.Failed? && sent' == sent + Repeat(Carries(InOrder(s.window, 0, s.next)), m)
  {
    Expiring(cfg, script, m);
    assert script + Expiries(k) == script + Expiries(m) + [Timeout] + Expiries(k - m - 1);
    AnotherExpiry(cfg, script + Expiries(m), Expiries(k - m - 1));
  }

  /** Behind a resend the window has no room for more, so nothing else is sent. */
  lemma ExpirySettles(cfg: Config, s: Sender)
    requires SenderInv(cfg, s) && s.phase.AwaitingAck? && s.window != map[] && s.timeouts + 1 < cfg.retry
    ensures var s1 := OnTimeout(cfg, s).0;
      Settle(cfg, s1) == (s1.(phase := AwaitingAck), [])
  {
    var s1 := OnTimeout(cfg, s).0;
    var s2, s3 := s1.(phase := Filling), s1.(phase := AwaitingAck);
    var none: seq<Forward> := [];
    IntervalSize(s.window, s.lastAcked, s.next);
    assert Think(cfg, s1) == (s2, none) && Think(cfg, s2) == (s3, none) && Settle(cfg, s3) == (s3, none);
    assert none + none == none;
    assert Settle(cfg, s2) == (s3, none);
  }

  /** One more of the timeouts. */
  lemma AnotherExpiry(cfg: Config, script: seq<Input>, tail: seq<Input>)
    requires var s := Drive(cfg, Boot(cfg), script).0; s.phase.AwaitingAck? && s.window != map[]
    ensures var (s, sent) := Drive(cfg, Boot(cfg), script);
      var (s', sent') := Drive(cfg, Boot(cfg), script + [Timeout] + tail);
      && (s.timeouts + 1 >= cfg.retry ==> s'.phase.Failed? && sent' == sent)
      && (s.timeouts + 1 < cfg.retry && tail == [] ==>
            View(s') == View(s).(timeouts := s.timeouts + 1) && sent' == sent + Carries(InOrder(s.window, 0, s.next)))
  {
    var (s, sent) := Drive(cfg, Boot(cfg), script);
    BootInv(cfg);
    DriveInv(cfg, Boot(cfg), script);
    DriveSplit(cfg, Boot(cfg), script, Timeout, tail);
    assert sent + [] + [] == sent;
    if s.timeouts + 1 < cfg.retry && tail == [] {
      ExpirySettles(cfg, s);
      var again := OnTimeout(cfg, s).1;
      assert sent + again + [] == sent + again;
    }
  }

  function Least(a: int, b: int): int {
    if a < b then a else b
  }

  /** How far a window behind packet `acked` reaches, and how far it is filled: not past a packet that the source raises for. */
  function WindowEnd(cfg: Config, acked: int): int {
    Least(|Packets(cfg.chunks)|, acked + 1 + cfg.window)
  }

  function FilledTo(cfg: Config, acked: int): int {
    if cfg.source.Breaks? then Least(cfg.source.at, WindowEnd(cfg, acked)) else WindowEnd(cfg, acked)
  }

  lemma FillStep(cfg: Config, s: Sender)
    requires SenderInv(cfg, s) && s.phase.Filling? && cfg.window >= 1
    ensures var hi, end := WindowEnd(cfg, s.lastAcked), FilledTo(cfg, s.lastAcked);
      var (s1, o) := Think(cfg, s);
      && s.next <= end <= hi && s1.lastAcked == s.lastAcked && s1.timeouts == s.timeouts
      && (s.next < end ==> s1.phase.Filling? && s1.next == s.next + 1 && o == [Carry(Packets(cfg.chunks)[s.next])])
      && (s.next == end ==> s1.next == end && o == [] && if end < hi then s1.phase.Failed? else s1.phase.AwaitingAck?)
  {
    IntervalSize(s.window, s.lastAcked, s.next);
  }

  /** Filling the window: the packets that there is room for are sent, in sequence. */
  lemma {:induction false} FillsUp(cfg: Config, s: Sender)
    requires SenderInv(cfg, s) && s.phase.Filling? && cfg.window >= 1
    ensures var hi, end := WindowEnd(cfg, s.lastAcked), FilledTo(cfg, s.lastAcked);
      var (s', sent) := Settle(cfg, s);
      && s.next <= end && sent == Carries(Packets(cfg.chunks)[s.next..end])
      && s'.next == end && s'.lastAcked == s.lastAcked && s'.timeouts == s.timeouts
      && if end < hi then s'.phase.Failed? else s'.phase.AwaitingAck?
    decreases |Packets(cfg.chunks)| - s.next
  {
    FillStep(cfg, s);
    var (s1, o) := Think(cfg, s);
    if s1.phase.Filling? {
      ThinkInv(cfg, s);
      FillsUp(cfg, s1);
      CarriesFront(Packets(cfg.chunks), s.next, FilledTo(cfg, s.lastAcked));
    } else {
      assert Settle(cfg, s1) == (s1, []);
    }
  }

  lemma CarriesFront(ps: seq<Packet>, a: nat, b: nat)
    requires a < b <= |ps|
    ensures [Carry(ps[a])] + Carries(ps[a + 1..b]) == Carries(ps[a..b])
  {
  }

  /** At the head of the window loop, with work left: what the next round sends, and where it ends. */
  lemma NextRound(cfg: Config, s: Sender)
    requires SenderInv(cfg, s) && s.phase.Top? && cfg.window >= 1 && !(s.exhausted && s.window == map[])
    ensures var hi, end := WindowEnd(cfg, s.lastAcked), FilledTo(cfg, s.lastAcked);
      var (s', sent) := Drive(cfg, s, []);
      && s.next <= end && sent == Carries(Packets(cfg.chunks)[s.next..end])
      && s'.next == end && s'.lastAcked == s.lastAcked && s'.timeouts == s.timeouts
      && if end < hi then s'.phase.Failed? else s'.phase.AwaitingAck?
  {
    var filling := s.(phase := Filling);
    assert Think(cfg, s) == (filling, []);
    ThinkInv(cfg, s);
    FillsUp(cfg, filling);
    var sent := Settle(cfg, filling).1;
    assert [] + sent == sent;
  }

  /** The ACK of START opens the window: the first packets are sent, as many as it holds. */
  lemma Opens(cfg: Config, script: seq<Input>)
    requires Drive(cfg, Boot(cfg), script).0.phase.AwaitingStart?
    ensures var hi, end := WindowEnd(cfg, -1), FilledTo(cfg, -1);
      var (s', sent') := Drive(cfg, Boot(cfg), script + [Ack(0)]);
      && 0 <= end && sent' == Drive(cfg, Boot(cfg), script).1 + Carries(Packets(cfg.chunks)[..end])
      && s'.next == end && s'.lastAcked == -1 && s'.timeouts == 0
      && if end < hi then s'.phase.Failed? else s'.phase.AwaitingAck?
  {
    var (s, sent) := Drive(cfg, Boot(cfg), script);
    BootInv(cfg);
    DriveInv(cfg, Boot(cfg), script);
    DriveSplit(cfg, Boot(cfg), script, Ack(0), []);
    assert script + [Ack(0)] + [] == script + [Ack(0)] && sent + [] == sent;
    HearInv(cfg, s, Ack(0));
    NextRound(cfg, Hear(cfg, s, Ack(0)).0);
  }

  /**
   * An ACK inside the window slides it behind `k` and lets the packets be sent that there is room for now, each
   * for the first time and in sequence; the ACK of the last packet ends a transfer whose source is known to be over.
   */
  lemma AckSlides(cfg: Config, script: seq<Input>, k: nat)
    requires var s := Drive(cfg, Boot(cfg), script).0; s.phase.AwaitingAck? && s.lastAcked < k < s.next
    ensures var hi, end := WindowEnd(cfg, k), FilledTo(cfg, k);
      var (s, sent) := Drive(cfg, Boot(cfg), script);
      var (s', sent') := Drive(cfg, Boot(cfg), script + [Ack(k)]);
      if s.exhausted && k == |Packets(cfg.chunks)| - 1 then s'.phase.Succeeded? && sent' == sent
      else
        && s.next <= end && sent' == sent + Carries(Packets(cfg.chunks)[s.next..end])
        && s'.next == end && s'.lastAcked == k && s'.timeouts == 0
        && if end < hi then s'.phase.Failed? else s'.phase.AwaitingAck?
  {
    var (s, sent) := Drive(cfg, Boot(cfg), script);
    BootInv(cfg);
    DriveInv(cfg, Boot(cfg), script);
    DriveSplit(cfg, Boot(cfg), script, Ack(k), []);
    assert script + [Ack(k)] + [] == script + [Ack(k)] && sent + [] == sent;
    AckEmpties(cfg, s, k);
    var s1 := Hear(cfg, s, Ack(k)).0;
    if s.exhausted && k == |Packets(cfg.chunks)| - 1 {
      SucceedsAtTop(cfg, s1);
    } else {
      NextRound(cfg, s1);
    }
  }

  lemma AckEmpties(cfg: Config, s: Sender, k: nat)
    requires SenderInv(cfg, s) && s.phase.AwaitingAck? && s.lastAcked < k < s.next
    ensures var (s1, o) := Hear(cfg, s, Ack(k));
      && SenderInv(cfg, s1) && s1.phase.Top? && s1.lastAcked == k && s1.timeouts == 0 && s1.next == s.next && o == []
      && (s1.exhausted && s1.window == map[] <==> s.exhausted && k == |Packets(cfg.chunks)| - 1)
      && cfg.window >= 1
  {
    HearInv(cfg, s, Ack(k));
    var s1 := Hear(cfg, s, Ack(k)).0;
    if k == s.next - 1 {
      assert forall i :: i !in s1.window;
    } else {
      assert k + 1 in s1.window;
    }
  }

  lemma SucceedsAtTop(cfg: Config, s: Sender)
    requires s.phase.Top? && s.exhausted && s.window == map[]
    ensures Drive(cfg, s, []) == (s.(phase := Succeeded), [])
  {
    var done := s.(phase := Succeeded);
    var none: seq<Forward> := [];
    assert Think(cfg, s) == (done, none) && Settle(cfg, done) == (done, none);
    assert none + none == none;
    assert Settle(cfg, s) == (done, none);
  }

  /**
   * Anything else that is heard, noise or an ACK behind or ahead of the window, leaves the window as it was: nothing
   * is sent, and the timeouts counted so far stay counted.
   */
  lemma OthersIgnored(cfg: Config, script: seq<Input>, x: Input)
    requires var s := Drive(cfg, Boot(cfg), script).0;
      && s.phase.AwaitingAck? && s.window != map[] && (x.Noise? || (x.Ack? && !(s.lastAcked < x.k < s.next)))
    ensures var (s, sent) := Drive(cfg, Boot(cfg), script);
      var (s', sent') := Drive(cfg, Boot(cfg), script + [x]);
      View(s') == View(s) && sent' == sent
  {
    var (s, sent) := Drive(cfg, Boot(cfg), script);
    BootInv(cfg);
    DriveInv(cfg, Boot(cfg), script);
    DriveSplit(cfg, Boot(cfg), script, x, []);
    assert script + [x] + [] == script + [x] && sent + [] + [] == sent;
    IgnoredSettles(cfg, s);
  }

  lemma IgnoredSettles(cfg: Config, s: Sender)
    requires SenderInv(cfg, s) && s.phase.AwaitingAck? && s.window != map[]
    ensures Drive(cfg, Ignore(s), []) == (Ignore(s).(phase := AwaitingAck), [])
  {
    var s1 := Ignore(s);
    var s2, s3 := s1.(phase := Filling), s1.(phase := AwaitingAck);
    var none: seq<Forward> := [];
    IntervalSize(s.window, s.lastAcked, s.next);
    assert Think(cfg, s1) == (s2, none) && Think(cfg, s2) == (s3, none) && Settle(cfg, s3) == (s3, none);
    assert none + none == none;
    assert Settle(cfg, s2) == (s3, none);
  }
}
