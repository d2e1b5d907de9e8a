/** What the Go-Back-N step system guarantees, and exactly where a sender's success means delivery. */
module ReliableTransfer {
  import opened Bytes
  import opened RdtSender
  import opened RdtReceiver
  import opened SenderBounds
  import opened GoBackN

  /** The chunks that a transfer is to deliver. */
  function Sent(link: Link): seq<Chunk> {
    Payloads(Packets(link.cfg.chunks))
  }

  /**
   * Go-Back-N safety: in every reachable state the payloads delivered are a prefix of the
   * sender's, and the receiver has returned normally only with all of them.
   */
  lemma DeliverySafety(link: Link, y: System)
    requires Reachable(link, y)
    ensures y.r.delivered <= Sent(link)
    ensures y.r.phase.Grace? || y.r.phase.Returned? ==> y.r.delivered == Sent(link)
    ensures y.r.phase.Returned? ==> Flatten(y.r.delivered) == Flatten(link.cfg.chunks)
  {
    ReachableInv(link, y);
    PacketsCarry(link.cfg.chunks);
    var ps := Packets(link.cfg.chunks);
    assert ps[..|ps|] == ps;
  }

  /**
   * Cumulative ACK soundness: an ACK in flight with a number of at least 1 acknowledges only
   * what was delivered, so a last acknowledged number of at least 1 does too.
   */
  lemma AckSoundness(link: Link, y: System)
    requires Reachable(link, y)
    ensures forall k :: k in y.rev && k >= 1 ==> k < |y.r.delivered|
    ensures y.s.lastAcked >= 1 ==>
      && y.s.lastAcked < |y.r.delivered| && y.s.lastAcked < |Sent(link)|
      && y.r.delivered[..y.s.lastAcked + 1] == Sent(link)[..y.s.lastAcked + 1]
  {
    ReachableInv(link, y);
  }

  /** With two or more packets, a sender's success means that everything was delivered. */
  lemma SuccessDelivers(link: Link, y: System)
    requires Reachable(link, y) && y.s.phase.Succeeded? && |Sent(link)| >= 2
    ensures y.r.delivered == Sent(link)
  {
    ReachableInv(link, y);
    var ps := Packets(link.cfg.chunks);
    assert ps[..|ps|] == ps;
  }

  /** Mode agreement: nothing is delivered or succeeds unless the receiver accepted a START of its own mode and type. */
  lemma ModeAgreement(link: Link, y: System)
    requires Reachable(link, y)
    ensures y.r.delivered != [] ==> y.r.started
    ensures y.s.phase.Succeeded? || y.r.phase.Returned? ==> y.r.started
    ensures y.r.started ==> Agrees(link)
  {
    ReachableInv(link, y);
  }

  /** A run is its first step and a run from there. */
  lemma RunCons(link: Link, y: System, first: Step, rest: seq<Step>)
    ensures IsRun(link, y, [first] + rest) <==> Enabled(y, first) && IsRun(link, Next(link, y, first), rest)
    ensures IsRun(link, y, [first] + rest) ==>
      After(link, y, [first] + rest) == After(link, Next(link, y, first), rest)
  {
    assert ([first] + rest)[1..] == rest;
  }

  lemma {:induction false} RunConcat(link: Link, y: System, a: seq<Step>, b: seq<Step>)
    requires IsRun(link, y, a) && IsRun(link, After(link, y, a), b)
    ensures IsRun(link, y, a + b) && After(link, y, a + b) == After(link, After(link, y, a), b)
    decreases |a|
  {
    if a == [] {
      assert a + b == b;
    } else {
      var first, rest := a[0], a[1..];
      assert a == [first] + rest && a + b == [first] + (rest + b);
      RunCons(link, y, first, rest);
      RunCons(link, y, first, rest + b);
      RunConcat(link, Next(link, y, first), rest, b);
    }
  }

  lemma LeadsRefl(link: Link, y: System)
    ensures Leads(link, y, y)
  {
    assert IsRun(link, y, []) && After(link, y, []) == y;
  }

  lemma LeadsTrans(link: Link, x: System, y: System, z: System)
    requires Leads(link, x, y) && Leads(link, y, z)
    ensures Leads(link, x, z)
  {
    var a :| IsRun(link, x, a) && After(link, x, a) == y;
    var b :| IsRun(link, y, b) && After(link, y, b) == z;
    RunConcat(link, x, a, b);
  }

  lemma LeadsStep(link: Link, x: System, y: System, step: Step)
    requires Leads(link, x, y) && Enabled(y, step)
    ensures Leads(link, x, Next(link, y, step))
  {
    var z := Next(link, y, step);
    assert IsRun(link, z, []) && After(link, z, []) == z;
    RunCons(link, y, step, []);
    assert [step] + [] == [step];
    LeadsTrans(link, x, y, z);
  }

  /** Everything that a transfer needs of its parameters to open and send its first packet. */
  predicate CanSend(link: Link) {
    link.cfg.window >= 1 && link.cfg.retry >= 1 && Agrees(link) && link.cfg.source != Breaks(0)
  }

  /** The handshake has just succeeded, and the ACK of START is still about. */
  predicate IsOpened(link: Link, y: System) {
    && y.s == Boot(link.cfg).(phase := Top, history := y.s.history)
    && y.r.phase.Receiving? && y.r.delivered == [] && y.r.expected == 0 && 0 in y.rev
  }

  /** The handshake can succeed. */
  lemma HandshakeRun(link: Link) returns (y: System)
    requires link.cfg.window >= 1 && link.cfg.retry >= 1 && Agrees(link)
    ensures Reachable(link, y) && IsOpened(link, y)
  {
    var start := Start(link.cfg.mode, link.cfg.t);
    var y0 := Initial(link);
    LeadsRefl(link, y0);
    var y1 := Next(link, y0, Thinks);
    assert start in y1.fwd;
    LeadsStep(link, y0, y0, Thinks);
    var y2 := Next(link, y1, ReceiverMeets(Got(start)));
    LeadsStep(link, y0, y1, ReceiverMeets(Got(start)));
    assert 0 in [0];
    assert 0 in y2.rev;
    y := Next(link, y2, SenderHears(Ack(0)));
    LeadsStep(link, y0, y2, SenderHears(Ack(0)));
  }

  /** The state in which the sender of a one-packet transfer succeeds with nothing delivered. */
  ghost predicate IsFalseSuccess(link: Link, y: System) {
    Reachable(link, y) && y.s.phase.Succeeded? && y.r.delivered == [] != Sent(link)
  }

  /**
   * The counter-run for one packet. START and packet 0 are acknowledged with the same number,
   * so a second copy of START's ACK slides packet 0 out of the window while it is still in flight.
   */
  lemma OnePacketFalseSuccess(link: Link) returns (y: System)
    requires |Sent(link)| == 1 && CanSend(link)
    ensures IsFalseSuccess(link, y)
  {
    var y3 := HandshakeRun(link);
    var y4 := Next(link, y3, Thinks);
    LeadsStep(link, Initial(link), y3, Thinks);
    y := FalseSuccessTail(link, y4);
    LeadsTrans(link, Initial(link), y4, y);
  }

  /** The rest of the counter-run, from an open window and an ACK 0 in flight. */
  lemma FalseSuccessTail(link: Link, x: System) returns (y: System)
    requires |Sent(link)| == 1 && link.cfg.window >= 1 && link.cfg.source != Breaks(0)
    requires x.s == Boot(link.cfg).(phase := Filling, history := x.s.history) && x.r.delivered == [] && 0 in x.rev
    ensures Leads(link, x, y) && y.s.phase.Succeeded? && y.r.delivered == []
  {
    LeadsRefl(link, x);
    var y1 := Next(link, x, Thinks);
    LeadsStep(link, x, x, Thinks);
    assert y1.s.window.Keys == {0};
    assert |y1.s.window| == 1;
    var y2 := Next(link, y1, Thinks);
    LeadsStep(link, x, y1, Thinks);
    var y3 := Next(link, y2, SenderHears(Ack(0)));
    LeadsStep(link, x, y2, SenderHears(Ack(0)));
    assert y3.s.window == map[];
    y := Next(link, y3, Thinks);
    LeadsStep(link, x, y3, Thinks);
    if !y3.s.exhausted {
      var y5 := Next(link, y, Thinks);
      LeadsStep(link, x, y, Thinks);
      var y6 := Next(link, y5, SenderHears(Noise));
      LeadsStep(link, x, y5, SenderHears(Noise));
      y := Next(link, y6, Thinks);
      LeadsStep(link, x, y6, Thinks);
    }
  }

  /** The sender's success can be taken for delivery, whatever the network does. */
  ghost predicate SuccessMeansDelivered(link: Link) {
    forall y :: Reachable(link, y) && y.s.phase.Succeeded? ==> y.r.delivered == Sent(link)
  }

  /**
   * Exactly when success means delivery: with two or more packets, or when the transfer cannot
   * get past its START or send at all.
   */
  lemma SuccessMeansDeliveredIff(link: Link)
    ensures SuccessMeansDelivered(link) <==> |Sent(link)| >= 2 || !CanSend(link)
  {
    forall y | Reachable(link, y) && y.s.phase.Succeeded? && |Sent(link)| >= 2
      ensures y.r.delivered == Sent(link)
    {
      SuccessDelivers(link, y);
    }
    forall y | Reachable(link, y) && y.s.phase.Succeeded?
      ensures CanSend(link)
    {
      ReachableInv(link, y);
      SuccessNeedsSending(link, y);
    }
    if |Sent(link)| == 1 && CanSend(link) {
      var y := OnePacketFalseSuccess(link);
    }
  }

  /** A sender that got anywhere had what it takes. */
  lemma SuccessNeedsSending(link: Link, y: System)
    requires Inv(link, y) && y.s.phase.Succeeded?
    ensures CanSend(link)
  {
  }

  lemma {:induction false} SettleBurst(link: Link, y: System)
    ensures var (s', o) := Settle(link.cfg, y.s);
      Leads(link, y, y.(s := s', fwd := y.fwd + Items(o)))
    decreases !y.s.exhausted,
              if y.s.next <= |Packets(link.cfg.chunks)| then |Packets(link.cfg.chunks)| - y.s.next else 0,
              if IsQuiet(y.s) then 0 else if y.s.phase.Top? then 2 else 1
  {
    var (s', o) := Settle(link.cfg, y.s);
    LeadsRefl(link, y);
    if IsQuiet(y.s) {
      assert y.(s := s', fwd := y.fwd + Items(o)) == y;
    } else {
      var y1 := Next(link, y, Thinks);
      LeadsStep(link, y, y, Thinks);
      SettleBurst(link, y1);
      var (s2, o2) := Settle(link.cfg, y1.s);
      var y2 := y1.(s := s2, fwd := y1.fwd + Items(o2));
      assert y2.fwd == y.fwd + Items(o);
      LeadsTrans(link, y, y1, y2);
    }
  }

  /** Scripts whose datagrams are in flight. */
  ghost predicate AcksInFlight(script: seq<Input>, rev: set<nat>) {
    forall i :: 0 <= i < |script| && script[i].Ack? ==> script[i].k in rev
  }

  lemma HearBurst(link: Link, y: System, input: Input)
    requires y.s.phase.AwaitingStart? || y.s.phase.AwaitingAck?
    requires input.Ack? ==> input.k in y.rev
    ensures var (s', o) := Hear(link.cfg, y.s, input);
      Leads(link, y, y.(s := s', fwd := y.fwd + Items(o)))
  {
    LeadsRefl(link, y);
    // a cancel is not looked at in a receive, so it is as good as noise there
    LeadsStep(link, y, y, SenderHears(if input.Cancel? then Noise else input));
  }

  /** The sender method's run on a script is a run of the system. */
  lemma {:induction false} SenderBurst(link: Link, y: System, script: seq<Input>)
    requires AcksInFlight(script, y.rev)
    ensures var (s', o) := Drive(link.cfg, y.s, script);
      Leads(link, y, y.(s := s', fwd := y.fwd + Items(o)))
    decreases |script|
  {
    if CancelNow(y.s, script) {
      LeadsRefl(link, y);
      LeadsStep(link, y, y, Quits);
    } else {
      SettleBurst(link, y);
      var (s1, o1) := Settle(link.cfg, y.s);
      var y1 := y.(s := s1, fwd := y.fwd + Items(o1));
      if !IsDone(s1) && script != [] {
        assert script[0].Ack? ==> script[0].k in y.rev;
        HearBurst(link, y1, script[0]);
        var (s2, o2) := Hear(link.cfg, s1, script[0]);
        var y2 := y1.(s := s2, fwd := y1.fwd + Items(o2));
        LeadsTrans(link, y, y1, y2);
        SenderBurst(link, y2, script[1..]);
        var (s3, o3) := Drive(link.cfg, s2, script[1..]);
        var y3 := y2.(s := s3, fwd := y2.fwd + Items(o3));
        assert y3.fwd == y.fwd + Items(o1 + o2 + o3);
        LeadsTrans(link, y, y2, y3);
      }
    }
  }

  ghost predicate DataInFlight(script: seq<Event>, fwd: set<Forward>) {
    forall i :: 0 <= i < |script| && script[i].Got? ==> script[i].d in fwd
  }

  /** The receiver method's run on a script is a run of the system. */
  lemma {:induction false} ReceiverBurst(link: Link, y: System, script: seq<Event>)
    requires DataInFlight(script, y.fwd)
    ensures var (r', a) := Listen(link.ses, y.r, script);
      Leads(link, y, y.(r := r', rev := y.rev + Items(a)))
    decreases |script|
  {
    LeadsRefl(link, y);
    if IsOver(y.r) || script == [] {
      var (r', a) := Listen(link.ses, y.r, script);
      assert y.(r := r', rev := y.rev + Items(a)) == y;
    } else {
      var y1 := Next(link, y, ReceiverMeets(script[0]));
      LeadsStep(link, y, y, ReceiverMeets(script[0]));
      ReceiverBurst(link, y1, script[1..]);
      var (r2, a2) := Listen(link.ses, y1.r, script[1..]);
      var y2 := y1.(r := r2, rev := y1.rev + Items(a2));
      assert y2.rev == y.rev + Items(Listen(link.ses, y.r, script).1);
      LeadsTrans(link, y, y1, y2);
    }
  }

  /** Arrivals of a stretch of packets, in order. */
  function Arrivals(ps: seq<Packet>): seq<Event> {
    seq(|ps|, i requires 0 <= i < |ps| => Got(Carry(ps[i])))
  }

  /** The receiver meets packets `a` to below `b` in order, having already delivered up to `a` at least. */
  lemma {:induction false} InOrderArrivals(ses: Settings, r: Receiver, ps: seq<Packet>, a: nat, b: nat)
    requires a < b <= |ps| && r.phase.Receiving? && a <= r.expected <= b && r.expected < |ps|
    requires forall i :: 0 <= i < |ps| ==> ps[i].num == i && (ps[i].fin <==> i == |ps| - 1)
    ensures var (r', acks) := Listen(ses, r, Arrivals(ps[a..b]));
      && r'.expected == b && !r'.phase.Raised?
      && acks != [] && acks[|acks| - 1] == b - 1
    decreases b - a
  {
    var events := Arrivals(ps[a..b]);
    var (r1, a1) := React(ses, r, events[0]);
    assert events[1..] == Arrivals(ps[a + 1..b]);
    if a + 1 < b {
      InOrderArrivals(ses, r1, ps, a + 1, b);
    } else {
      assert Listen(ses, r1, events[1..]) == (r1, []);
    }
  }

  /** The chunk source does not raise before its end. */
  predicate GivesAll(cfg: Config) {
    cfg.source.Breaks? ==> cfg.source.at >= PacketCount(cfg)
  }

  /** The source does not raise while the window behind packet `acked` is filled. */
  predicate FillsWindow(cfg: Config, acked: int) {
    cfg.source.Breaks? ==> cfg.source.at >= PacketCount(cfg) || cfg.source.at > acked + cfg.window
  }

  ghost predicate IsOpen(s: Sender) {
    s.phase.Top? || s.phase.Filling? || s.phase.AwaitingAck? || s.phase.Succeeded?
  }

  lemma {:induction false} SettleOpen(cfg: Config, s: Sender)
    requires SenderInv(cfg, s) && IsOpen(s) && FillsWindow(cfg, s.lastAcked)
    ensures var s' := Settle(cfg, s).0;
      SenderInv(cfg, s') && IsOpen(s') && s'.lastAcked == s.lastAcked && s'.next >= s.next
    decreases !s.exhausted, if s.next <= |Packets(cfg.chunks)| then |Packets(cfg.chunks)| - s.next else 0,
              if IsQuiet(s) then 0 else if s.phase.Top? then 2 else 1
  {
    if !IsQuiet(s) {
      IntervalSize(s.window, s.lastAcked, s.next);
      ThinkInv(cfg, s);
      SettleOpen(cfg, Think(cfg, s).0);
    }
  }

  function AckInputs(acks: seq<nat>): seq<Input> {
    seq(|acks|, i requires 0 <= i < |acks| => Ack(acks[i]))
  }

  /** Hearing only ACKs, one of them for `a`, takes an open sender to `a` at least, and never fails it. */
  lemma {:induction false} HearsAcks(cfg: Config, s: Sender, acks: seq<nat>, a: nat)
    requires SenderInv(cfg, s) && IsOpen(s) && GivesAll(cfg) && a < s.next && (a in acks || s.lastAcked >= a)
    ensures var s' := Drive(cfg, s, AckInputs(acks)).0;
      IsOpen(s') && s'.lastAcked >= a && s'.lastAcked >= s.lastAcked
    decreases |acks|
  {
    SettleOpen(cfg, s);
    var s1 := Settle(cfg, s).0;
    if !IsDone(s1) && acks != [] {
      HearsOne(cfg, s1, acks[0]);
      assert AckInputs(acks)[1..] == AckInputs(acks[1..]);
      HearsAcks(cfg, Hear(cfg, s1, Ack(acks[0])).0, acks[1..], a);
    }
  }

  lemma HearsOne(cfg: Config, s: Sender, k: nat)
    requires SenderInv(cfg, s) && s.phase.AwaitingAck?
    ensures var s' := Hear(cfg, s, Ack(k)).0;
      && SenderInv(cfg, s') && IsOpen(s') && s'.next == s.next
      && s'.lastAcked >= s.lastAcked && (k < s.next ==> s'.lastAcked >= k)
  {
    HearInv(cfg, s, Ack(k));
  }

  /** One lossless round: the window timer runs out, the resent window arrives in order, its ACKs come back in order. */
  function Round(link: Link, s: Sender, r: Receiver): (Sender, Receiver) {
    var s1 := OnTimeout(link.cfg, s).0;
    var (r1, acks) := Listen(link.ses, r, Arrivals(InOrder(s.window, 0, s.next)));
    (Drive(link.cfg, s1, AckInputs(acks)).0, r1)
  }

  /** The round is something the network may do. */
  lemma RoundIsRun(link: Link, y: System)
    requires y.s.phase.AwaitingAck? && y.s.timeouts + 1 < link.cfg.retry
    ensures exists y' :: Leads(link, y, y') && (y'.s, y'.r) == Round(link, y.s, y.r)
  {
    var ps := InOrder(y.s.window, 0, y.s.next);
    LeadsRefl(link, y);
    LeadsStep(link, y, y, SenderHears(Timeout));
    var y1 := Next(link, y, SenderHears(Timeout));
    assert forall i :: 0 <= i < |ps| ==> Carries(ps)[i] == Carry(ps[i]);
    assert DataInFlight(Arrivals(ps), y1.fwd);
    ReceiverBurst(link, y1, Arrivals(ps));
    var (r2, acks) := Listen(link.ses, y.r, Arrivals(ps));
    var y2 := y1.(r := r2, rev := y1.rev + Items(acks));
    LeadsTrans(link, y, y1, y2);
    SenderBurst(link, y2, AckInputs(acks));
    var (s3, o3) := Drive(link.cfg, y1.s, AckInputs(acks));
    var y3 := y2.(s := s3, fwd := y2.fwd + Items(o3));
    LeadsTrans(link, y, y2, y3);
  }

  /** The receiver's half of a round: every packet of the window is taken or re-acknowledged. */
  lemma RoundArrives(ses: Settings, r: Receiver, ps: seq<Packet>, limit: int, s: Sender)
    requires WindowInv(ps, limit, s) && s.lastAcked + 1 < s.next
    requires forall i :: 0 <= i < |ps| ==> ps[i].num == i && (ps[i].fin <==> i == |ps| - 1)
    requires r.phase.Receiving? && s.lastAcked < r.expected <= s.next && r.expected < |ps|
    ensures var (r', acks) := Listen(ses, r, Arrivals(InOrder(s.window, 0, s.next)));
      && r'.expected == s.next && !r'.phase.Raised?
      && acks != [] && acks[|acks| - 1] == s.next - 1
  {
    WindowIsStretch(ps, limit, s, 0, s.next);
    InOrderArrivals(ses, r, ps, s.lastAcked + 1, s.next);
  }

  /** The sender's half of a round. */
  lemma RoundAcks(cfg: Config, s: Sender, acks: seq<nat>)
    requires SenderInv(cfg, s) && s.phase.AwaitingAck? && s.timeouts + 1 < cfg.retry && GivesAll(cfg)
    requires s.next > 0 && acks != [] && acks[|acks| - 1] == s.next - 1
    ensures var s' := Drive(cfg, OnTimeout(cfg, s).0, AckInputs(acks)).0;
      s'.lastAcked >= s.next - 1 && !s'.phase.Failed?
  {
    TimeoutInv(cfg, s);
    HearsAcks(cfg, OnTimeout(cfg, s).0, acks, s.next - 1);
  }

  /**
   * One-round progress: from any reachable state with an unacknowledged delivery outstanding and
   * a retry left, one lossless round acknowledges the whole window, and it is a run of the system.
   */
  lemma OneRoundProgress(link: Link, y: System)
    requires Reachable(link, y)
    requires y.s.phase.AwaitingAck? && y.r.phase.Receiving?
    requires y.s.lastAcked < y.r.expected && y.s.window != map[]
    requires y.s.timeouts + 1 < link.cfg.retry && GivesAll(link.cfg)
    ensures var (s', r') := Round(link, y.s, y.r);
      && s'.lastAcked >= y.s.next - 1 > y.s.lastAcked && !s'.phase.Failed?
      && r'.expected >= y.s.next && !r'.phase.Raised?
      && exists y' :: Leads(link, y, y') && (y'.s, y'.r) == (s', r')
  {
    ReachableInv(link, y);
    RoundIsRun(link, y);
    assert y.s.lastAcked + 1 < y.s.next by {
      var i: nat :| i in y.s.window;
    }
    RoundArrives(link.ses, y.r, Packets(link.cfg.chunks), link.cfg.window, y.s);
    RoundAcks(link.cfg, y.s, Listen(link.ses, y.r, Arrivals(InOrder(y.s.window, 0, y.s.next))).1);
  }

  /** Packets ahead of the expected one are dropped, and nothing acknowledged while nothing was delivered. */
  lemma {:induction false} AheadArrivals(ses: Settings, r: Receiver, ps: seq<Packet>, a: nat, b: nat)
    requires 0 < a <= b <= |ps| && r.phase.Receiving? && r.expected == 0
    requires forall i :: 0 <= i < |ps| ==> ps[i].num == i
    ensures var (r', acks) := Listen(ses, r, Arrivals(ps[a..b]));
      r'.phase.Receiving? && r'.expected == 0 && r'.delivered == r.delivered && acks == []
    decreases b - a
  {
    if a < b {
      var events := Arrivals(ps[a..b]);
      var r1 := React(ses, r, events[0]).0;
      assert events[1..] == Arrivals(ps[a + 1..b]);
      AheadArrivals(ses, r1, ps, a + 1, b);
    }
  }

  /** A stalled transfer: START's second ACK has taken packet 0 out of the window, and it was not delivered. */
  ghost predicate IsStalled(s: Sender, r: Receiver) {
    && s.phase.AwaitingAck? && s.window != map[] && s.lastAcked == 0
    && r.phase.Receiving? && r.expected == 0
  }

  /** A timeout and a settling leave a waiting sender with a non-empty window where it was. */
  lemma TimeoutSettles(cfg: Config, s: Sender)
    requires SenderInv(cfg, s) && s.phase.AwaitingAck? && s.window != map[] && s.timeouts + 1 < cfg.retry
    ensures var s1 := OnTimeout(cfg, s).0;
      Settle(cfg, s1).0 == s1.(phase := AwaitingAck)
  {
    var s1 := OnTimeout(cfg, s).0;
    var s2, s3 := s1.(phase := Filling), s1.(phase := AwaitingAck);
    IntervalSize(s.window, s.lastAcked, s.next);
    assert Think(cfg, s1) == (s2, []) && Think(cfg, s2) == (s3, []);
    assert Settle(cfg, s3) == (s3, []);
    assert Settle(cfg, s2).0 == s3;
  }

  /** A lossless round leaves a stalled transfer stalled, with one retry less. */
  lemma StallKeeps(link: Link, s: Sender, r: Receiver)
    requires SenderInv(link.cfg, s) && IsStalled(s, r) && s.timeouts + 1 < link.cfg.retry
    ensures var (s', r') := Round(link, s, r);
      && SenderInv(link.cfg, s') && IsStalled(s', r')
      && s'.timeouts == s.timeouts + 1 && r'.delivered == r.delivered
  {
    var ps, cfg := Packets(link.cfg.chunks), link.cfg;
    WindowIsStretch(ps, cfg.window, s, 0, s.next);
    AheadArrivals(link.ses, r, ps, 1, s.next);
    TimeoutInv(cfg, s);
    SettleInv(cfg, OnTimeout(cfg, s).0);
    TimeoutSettles(cfg, s);
    assert AckInputs([]) == [];
  }

  /** `k` lossless rounds, one after the other. */
  function Rounds(link: Link, s: Sender, r: Receiver, k: nat): (Sender, Receiver)
    decreases k
  {
    if k == 0 then (s, r)
    else Rounds(link, Round(link, s, r).0, Round(link, s, r).1, k - 1)
  }

  /** Resending never ends a stall: as many lossless rounds as the retry limit leaves, and the transfer fails. */
  lemma {:induction false} StallFails(link: Link, s: Sender, r: Receiver, k: nat)
    requires SenderInv(link.cfg, s) && IsStalled(s, r) && s.timeouts + k + 1 == link.cfg.retry
    ensures var (s', r') := Rounds(link, s, r, k);
      IsStalled(s', r') && r'.delivered == r.delivered && OnTimeout(link.cfg, s').0.phase.Failed?
    decreases k
  {
    if k > 0 {
      StallKeeps(link, s, r);
      StallFails(link, Round(link, s, r).0, Round(link, s, r).1, k - 1);
    }
  }

  /**
   * Exactly when a lossless round helps: it advances the sender if and only if the last packet
   * acknowledged was delivered. Otherwise the transfer is stalled at packet 0, and stays so.
   */
  lemma RoundAdvancesIff(link: Link, y: System)
    requires Reachable(link, y)
    requires y.s.phase.AwaitingAck? && y.r.phase.Receiving? && y.s.window != map[]
    requires y.s.timeouts + 1 < link.cfg.retry && GivesAll(link.cfg)
    ensures var (s', r') := Round(link, y.s, y.r);
      && (s'.lastAcked > y.s.lastAcked <==> y.s.lastAcked < y.r.expected)
      && (y.s.lastAcked >= y.r.expected ==> IsStalled(y.s, y.r) && IsStalled(s', r'))
  {
    ReachableInv(link, y);
    if y.s.lastAcked < y.r.expected {
      OneRoundProgress(link, y);
    } else {
      StallKeeps(link, y.s, y.r);
    }
  }

  lemma LeadsInv(link: Link, y: System, z: System)
    requires Inv(link, y) && Leads(link, y, z)
    ensures Inv(link, z)
  {
    var steps :| IsRun(link, y, steps) && After(link, y, steps) == z;
    RunKeeps(link, y, steps);
  }

  /** An open sender can always go on to where it waits or is done. */
  lemma SettleRun(link: Link, y: System) returns (z: System)
    requires Inv(link, y) && IsOpen(y.s) && FillsWindow(link.cfg, y.s.lastAcked)
    ensures Leads(link, y, z) && Inv(link, z) && z.r == y.r && z.rev == y.rev
    ensures (z.s.phase.AwaitingAck? || z.s.phase.Succeeded?)
    ensures z.s.lastAcked == y.s.lastAcked && z.s.next >= y.s.next
  {
    var (s', o) := Settle(link.cfg, y.s);
    z := y.(s := s', fwd := y.fwd + Items(o));
    SettleBurst(link, y);
    SettleOpen(link.cfg, y.s);
    LeadsInv(link, y, z);
  }

  /** START's second ACK, heard while packet 0 waits for its own. */
  lemma FalseAdvance(link: Link, y: System) returns (z: System)
    requires Inv(link, y) && y.s.phase.AwaitingAck? && y.s.lastAcked == -1 && 0 in y.rev
    ensures Leads(link, y, z) && Inv(link, z) && z.r == y.r
    ensures z.s.phase.Top? && z.s.lastAcked == 0 && z.s.timeouts == 0
  {
    z := Next(link, y, SenderHears(Ack(0)));
    LeadsRefl(link, y);
    LeadsStep(link, y, y, SenderHears(Ack(0)));
    StepKeeps(link, y, SenderHears(Ack(0)));
  }

  /**
   * What stalling takes: two or more packets, and a source that lets the sender fill the window
   * behind packet 0.
   */
  predicate CanStall(link: Link) {
    |Sent(link)| >= 2 && CanSend(link) && FillsWindow(link.cfg, 0)
  }

  /** A second copy of START's ACK stalls the transfer. */
  lemma StallReachable(link: Link) returns (y: System)
    requires CanStall(link)
    ensures Reachable(link, y) && IsStalled(y.s, y.r)
  {
    var y1 := HandshakeRun(link);
    ReachableInv(link, y1);
    var y2 := SettleRun(link, y1);
    NotAllAcked(Packets(link.cfg.chunks), link.cfg, y2.s);
    var y3 := FalseAdvance(link, y2);
    y := SettleRun(link, y3);
    LeadsTrans(link, y1, y2, y3);
    LeadsTrans(link, y1, y3, y);
    LeadsTrans(link, Initial(link), y1, y);
    NotAllAcked(Packets(link.cfg.chunks), link.cfg, y.s);
  }

  lemma StalledCould(link: Link, y: System)
    requires Inv(link, y) && IsStalled(y.s, y.r)
    ensures CanStall(link)
  {
    var i: nat :| i in y.s.window;
  }

  /** Exactly which transfers can stall. */
  lemma StallReachableIff(link: Link)
    ensures (exists y :: Reachable(link, y) && IsStalled(y.s, y.r)) <==> CanStall(link)
  {
    forall y | Reachable(link, y) && IsStalled(y.s, y.r) ensures CanStall(link) {
      ReachableInv(link, y);
      StalledCould(link, y);
    }
    if CanStall(link) {
      var y := StallReachable(link);
    }
  }

  /** Packet 0 was taken for acknowledged, and it was not delivered. */
  ghost predicate IsPastPacketZero(link: Link, y: System) {
    Inv(link, y) && |Sent(link)| >= 2 && y.s.lastAcked == 0 && y.r.expected == 0
  }

  lemma StaysPast(link: Link, y: System, step: Step)
    requires IsPastPacketZero(link, y) && Enabled(y, step)
    requires step != ReceiverMeets(Got(Carry(Packets(link.cfg.chunks)[0])))
    ensures IsPastPacketZero(link, Next(link, y, step))
  {
    StepKeeps(link, y, step);
  }

  /**
   * Only a copy of packet 0 that arrives after all can end a stall: on every run without one the
   * receiver goes on waiting for it, nothing is delivered and the sender does not succeed.
   */
  lemma {:induction false} OnlyPacketZeroEndsStall(link: Link, y: System, steps: seq<Step>)
    requires IsPastPacketZero(link, y) && IsRun(link, y, steps)
    requires ReceiverMeets(Got(Carry(Packets(link.cfg.chunks)[0]))) !in steps
    ensures var z := After(link, y, steps);
      IsPastPacketZero(link, z) && z.r.delivered == [] && !z.s.phase.Succeeded? && !z.r.phase.Returned?
    decreases |steps|
  {
    if steps != [] {
      assert steps[0] in steps;
      StaysPast(link, y, steps[0]);
      OnlyPacketZeroEndsStall(link, Next(link, y, steps[0]), steps[1..]);
    }
  }

  /** A waiting or finished sender with fewer than all packets acknowledged has some in its window. */
  lemma NotAllAcked(ps: seq<Packet>, cfg: Config, s: Sender)
    requires WindowInv(ps, cfg.window, s) && cfg.window >= 1 && s.lastAcked + 1 < |ps|
    requires s.phase.AwaitingAck? || s.phase.Succeeded?
    ensures s.phase.AwaitingAck? && s.lastAcked + 1 < s.next && s.window != map[]
  {
    assert s.lastAcked + 1 in s.window;
  }

  function Timeouts(k: nat): seq<Event> {
    seq(k, _ => TimedOut)
  }

  /** The receiver gives up after exactly `maxTimeouts` timeouts in a row, and not before. */
  lemma {:induction false} ReceiverGivesUp(ses: Settings, r: Receiver, k: nat)
    requires r.phase.Receiving? && (r.timeouts < ses.maxTimeouts || r.timeouts == 0)
    ensures Listen(ses, r, Timeouts(k)).0.phase.Raised? <==> k >= 1 && r.timeouts + k >= ses.maxTimeouts
    ensures Listen(ses, r, Timeouts(k)).0.delivered == r.delivered && Listen(ses, r, Timeouts(k)).1 == []
    decreases k
  {
    if k > 0 {
      var r1 := React(ses, r, TimedOut).0;
      assert Timeouts(k)[1..] == Timeouts(k - 1);
      if r1.phase.Receiving? {
        ReceiverGivesUp(ses, r1, k - 1);
      }
    }
  }

  /**
   * The grace period ends by itself: as many receives as attempts are left end it, whatever they
   * bring, and all that it sends meanwhile are ACKs of the FIN.
   */
  lemma {:induction false} GraceEnds(ses: Settings, r: Receiver, script: seq<Event>)
    requires r.phase.Grace? && r.phase.left >= 1
    requires forall i :: 0 <= i < |script| ==> !script[i].Cancelled?
    ensures var (r', acks) := Listen(ses, r, script);
      && (|script| >= r.phase.left ==> r'.phase.Returned?)
      && r'.delivered == r.delivered && |acks| <= r.phase.left
      && forall i :: 0 <= i < |acks| ==> acks[i] == r.phase.finNum
    decreases |script|
  {
    if script != [] {
      var r1 := React(ses, r, script[0]).0;
      if r1.phase.Grace? {
        GraceEnds(ses, r1, script[1..]);
      }
    }
  }

  ghost predicate IsLive(link: Link, y: System) {
    Inv(link, y) && IsOpen(y.s) && !y.r.phase.Raised? && GivesAll(link.cfg)
  }

  ghost predicate IsComplete(link: Link, y: System) {
    y.s.phase.Succeeded? && y.r.phase.Returned? && y.r.delivered == Sent(link)
  }

  /** The next packet that the receiver lacks arrives. */
  lemma NextArrives(link: Link, y: System) returns (z: System)
    requires IsLive(link, y) && y.r.phase.Receiving? && y.r.expected < y.s.next
    ensures Leads(link, y, z) && IsLive(link, z) && z.s == y.s && z.r.expected == y.r.expected + 1
  {
    var step := ReceiverMeets(Got(Carry(Packets(link.cfg.chunks)[y.r.expected])));
    z := Next(link, y, step);
    LeadsRefl(link, y);
    LeadsStep(link, y, y, step);
    StepKeeps(link, y, step);
  }

  /** The receiver's last acknowledgment arrives. */
  lemma LastAckArrives(link: Link, y: System) returns (z: System)
    requires IsLive(link, y) && y.s.phase.AwaitingAck? && y.s.lastAcked + 1 < y.r.expected
    ensures Leads(link, y, z) && IsLive(link, z) && z.r == y.r && z.s.lastAcked == y.r.expected - 1
  {
    var step := SenderHears(Ack(y.r.expected - 1));
    z := Next(link, y, step);
    LeadsRefl(link, y);
    LeadsStep(link, y, y, step);
    StepKeeps(link, y, step);
  }

  /** With everything acknowledged, any datagram lets a waiting sender succeed. */
  lemma SenderFinishes(link: Link, y: System) returns (z: System)
    requires IsLive(link, y) && y.s.phase.AwaitingAck? && y.s.lastAcked + 1 == |Sent(link)|
    ensures Leads(link, y, z) && IsLive(link, z) && z.r == y.r && z.s.phase.Succeeded?
  {
    var x := Next(link, y, SenderHears(Noise));
    LeadsRefl(link, y);
    LeadsStep(link, y, y, SenderHears(Noise));
    StepKeeps(link, y, SenderHears(Noise));
    assert forall i :: i !in x.s.window;
    assert x.s.window == map[];
    z := Next(link, x, Thinks);
    LeadsStep(link, y, x, Thinks);
    StepKeeps(link, x, Thinks);
  }

  /** The grace period runs out, whatever the sender does. */
  lemma {:induction false} GraceRunsOut(link: Link, y: System) returns (z: System)
    requires IsLive(link, y) && !y.r.phase.Receiving?
    ensures Leads(link, y, z) && IsLive(link, z) && z.s == y.s && z.r.phase.Returned?
    decreases if y.r.phase.Grace? then 1 + y.r.phase.left else 0
  {
    LeadsRefl(link, y);
    z := y;
    if y.r.phase.Grace? {
      var x := Next(link, y, ReceiverMeets(TimedOut));
      LeadsStep(link, y, y, ReceiverMeets(TimedOut));
      StepKeeps(link, y, ReceiverMeets(TimedOut));
      z := GraceRunsOut(link, x);
      LeadsTrans(link, y, x, z);
    }
  }

  /** A sender that has succeeded and a receiver past its FIN: the transfer ends complete. */
  lemma Completes(link: Link, y: System) returns (z: System)
    requires IsLive(link, y) && y.s.phase.Succeeded? && !y.r.phase.Receiving?
    ensures Leads(link, y, z) && IsComplete(link, z)
  {
    z := GraceRunsOut(link, y);
    var ps := Packets(link.cfg.chunks);
    assert ps[..|ps|] == ps;
  }

  /** One step towards completion, from a sender that waits or has succeeded too early. */
  lemma CompletionStep(link: Link, y: System) returns (z: System)
    requires IsLive(link, y) && (y.s.phase.AwaitingAck? || y.s.phase.Succeeded?)
    requires y.r.phase.Receiving? || y.s.lastAcked + 1 < |Sent(link)|
    ensures Leads(link, y, z) && IsLive(link, z) && z.s.lastAcked >= y.s.lastAcked
    ensures z.r.expected > y.r.expected || (z.r.expected == y.r.expected && z.s.lastAcked > y.s.lastAcked)
  {
    if y.r.phase.Receiving? && y.r.expected < y.s.next {
      z := NextArrives(link, y);
    } else {
      z := LastAckArrives(link, y);
    }
  }

  /**
   * A transfer can always still complete: from every live state, a stalled one included, there is a
   * run to the sender's success and the receiver's return, with everything delivered.
   */
  lemma {:induction false} CanComplete(link: Link, y: System) returns (z: System)
    requires IsLive(link, y)
    ensures Leads(link, y, z) && IsComplete(link, z)
    decreases |Sent(link)| - y.r.expected, |Sent(link)| - y.s.lastAcked
  {
    var x := SettleRun(link, y);
    if x.r.phase.Receiving? || x.s.lastAcked + 1 < |Sent(link)| {
      var w := CompletionStep(link, x);
      LeadsTrans(link, y, x, w);
      z := CanComplete(link, w);
      LeadsTrans(link, y, w, z);
    } else if x.s.phase.AwaitingAck? {
      var w := SenderFinishes(link, x);
      z := Completes(link, w);
      LeadsTrans(link, x, w, z);
      LeadsTrans(link, y, x, z);
    } else {
      z := Completes(link, x);
      LeadsTrans(link, y, x, z);
    }
  }

  /** Exactly which transfers have a run that completes. */
  lemma SomeRunCompletesIff(link: Link)
    ensures (exists y :: Reachable(link, y) && IsComplete(link, y)) <==> CanSend(link) && GivesAll(link.cfg)
  {
    forall y | Reachable(link, y) && IsComplete(link, y) ensures CanSend(link) && GivesAll(link.cfg) {
      ReachableInv(link, y);
      SuccessNeedsSending(link, y);
    }
    if CanSend(link) && GivesAll(link.cfg) {
      var y := HandshakeRun(link);
      ReachableInv(link, y);
      var z := CanComplete(link, y);
      LeadsTrans(link, Initial(link), y, z);
    }
  }

  /** The receiver takes the next packet, or its last acknowledgment makes room for it. */
  lemma ArriveStep(link: Link, y: System) returns (z: System)
    requires IsLive(link, y) && y.r.phase.Receiving? && y.s.phase.AwaitingAck? && y.s.lastAcked + 1 < y.s.next
    ensures Leads(link, y, z) && IsLive(link, z) && z.s.lastAcked + 1 < |Sent(link)|
    ensures z.r.expected > y.r.expected || (z.r.expected == y.r.expected && z.s.lastAcked > y.s.lastAcked)
    ensures !z.r.phase.Receiving? ==> z.s == y.s
  {
    if y.r.expected < y.s.next {
      z := NextArrives(link, y);
    } else {
      z := LastAckArrives(link, y);
    }
  }

  /** Everything arrives, and the last packet's acknowledgment has not come back yet. */
  lemma {:induction false} AllArrive(link: Link, y: System) returns (z: System)
    requires IsLive(link, y) && y.r.phase.Receiving? && y.s.lastAcked + 1 < |Sent(link)|
    ensures Leads(link, y, z) && IsLive(link, z) && !z.r.phase.Receiving?
    ensures z.s.phase.AwaitingAck? && z.s.window != map[]
    decreases |Sent(link)| - y.r.expected, |Sent(link)| - y.s.lastAcked
  {
    var x := SettleRun(link, y);
    NotAllAcked(Packets(link.cfg.chunks), link.cfg, x.s);
    z := ArriveStep(link, x);
    LeadsTrans(link, y, x, z);
    if z.r.phase.Receiving? {
      var w := z;
      z := AllArrive(link, w);
      LeadsTrans(link, y, w, z);
    }
  }

  /** The window timer runs out until the retry limit is reached. */
  lemma {:induction false} RetriesRunOut(link: Link, y: System) returns (z: System)
    requires Inv(link, y) && y.s.phase.AwaitingAck? && y.s.window != map[]
    ensures Leads(link, y, z) && z.r == y.r && z.s.phase.Failed? && z.s.timeouts >= link.cfg.retry
    decreases link.cfg.retry - y.s.timeouts
  {
    var x := Next(link, y, SenderHears(Timeout));
    LeadsRefl(link, y);
    LeadsStep(link, y, y, SenderHears(Timeout));
    z := x;
    if y.s.timeouts + 1 < link.cfg.retry {
      var w := TimeoutRun(link, y);
      z := RetriesRunOut(link, w);
      LeadsTrans(link, y, w, z);
    }
  }

  /** One timeout with a retry left: the sender waits again. */
  lemma TimeoutRun(link: Link, y: System) returns (z: System)
    requires Inv(link, y) && y.s.phase.AwaitingAck? && y.s.window != map[] && y.s.timeouts + 1 < link.cfg.retry
    ensures Leads(link, y, z) && Inv(link, z) && z.r == y.r
    ensures z.s.phase.AwaitingAck? && z.s.window == y.s.window && z.s.timeouts == y.s.timeouts + 1
  {
    var x := Next(link, y, SenderHears(Timeout));
    LeadsRefl(link, y);
    LeadsStep(link, y, y, SenderHears(Timeout));
    TimeoutSettles(link.cfg, y.s);
    var (s', o) := Settle(link.cfg, x.s);
    z := x.(s := s', fwd := x.fwd + Items(o));
    SettleBurst(link, x);
    LeadsTrans(link, y, x, z);
    LeadsInv(link, y, z);
  }

  /** The receiver has returned with everything, and the sender has run out of retries. */
  ghost predicate IsFalseFailure(link: Link, y: System) {
    y.r.phase.Returned? && y.r.delivered == Sent(link) && y.s.phase.Failed? && y.s.timeouts >= link.cfg.retry
  }

  /**
   * The counter-run to the converse of delivery: everything arrives, the last acknowledgment is lost, the
   * grace period runs out, and then the window timer does.
   */
  lemma FalseFailure(link: Link) returns (z: System)
    requires CanSend(link) && GivesAll(link.cfg)
    ensures Reachable(link, z) && IsFalseFailure(link, z)
  {
    var y1 := HandshakeRun(link);
    ReachableInv(link, y1);
    var y2 := AllArrive(link, y1);
    var y3 := GraceRunsOut(link, y2);
    z := RetriesRunOut(link, y3);
    LeadsTrans(link, y2, y3, z);
    LeadsTrans(link, y1, y2, z);
    LeadsTrans(link, Initial(link), y1, z);
    var ps := Packets(link.cfg.chunks);
    assert ps[..|ps|] == ps;
  }

  /** A receiver that returned has had the whole of the source sent to it. */
  lemma ReturnNeedsSending(link: Link, y: System)
    requires Inv(link, y) && y.r.phase.Returned?
    ensures CanSend(link) && GivesAll(link.cfg)
  {
  }

  /** Exactly which transfers can fail at the sender, for want of an acknowledgment, though the receiver completed. */
  lemma FalseFailureIff(link: Link)
    ensures (exists y :: Reachable(link, y) && IsFalseFailure(link, y)) <==> CanSend(link) && GivesAll(link.cfg)
  {
    forall y | Reachable(link, y) && IsFalseFailure(link, y) ensures CanSend(link) && GivesAll(link.cfg) {
      ReachableInv(link, y);
      ReturnNeedsSending(link, y);
    }
    if CanSend(link) && GivesAll(link.cfg) {
      var z := FalseFailure(link);
    }
  }
}
