/**
 * Sender, receiver and an adversarial network as one step system. The network is the set of
 * every datagram ever sent: a receive may pick any of them, any number of times, or none.
 */
module GoBackN {
  import opened RdtSender
  import opened RdtReceiver
  import opened SenderBounds

  /** The sender's and the receiver's parameters of one transfer. */
  datatype Link = Link(cfg: Config, ses: Settings)

  datatype System = System(s: Sender, r: Receiver, fwd: set<Forward>, rev: set<nat>)

  datatype Step =
    | Thinks                      // the sender does its next internal step
    | Quits                       // the sender sees a cancel
    | Crashes                     // the sender's socket raises
    | SenderHears(input: Input)   // the sender's receive returns, or times out
    | ReceiverMeets(e: Event)     // the receiver's receive returns, or times out, or it is cancelled

  function Initial(link: Link): System {
    System(Boot(link.cfg), BootReceiver(), {}, {})
  }

  function Items<T(==)>(s: seq<T>): set<T> {
    set x | x in s
  }

  predicate Enabled(y: System, step: Step) {
    match step
    case Thinks => !IsQuiet(y.s)
    case Quits => ChecksCancel(y.s)
    case Crashes => !IsDone(y.s)
    case SenderHears(input) =>
      && (y.s.phase.AwaitingStart? || y.s.phase.AwaitingAck?)
      && !input.Cancel?
      && (input.Ack? ==> input.k in y.rev)
    case ReceiverMeets(e) => !IsOver(y.r) && (e.Got? ==> e.d in y.fwd)
  }

  function Next(link: Link, y: System, step: Step): System
    requires Enabled(y, step)
  {
    match step
    case Thinks =>
      var (s', o) := Think(link.cfg, y.s);
      y.(s := s', fwd := y.fwd + Items(o))
    case Quits =>
      var (s', o) := Quit(y.s);
      y.(s := s', fwd := y.fwd + Items(o))
    case Crashes => y.(s := y.s.(phase := Failed))
    case SenderHears(input) =>
      var (s', o) := Hear(link.cfg, y.s, input);
      y.(s := s', fwd := y.fwd + Items(o))
    case ReceiverMeets(e) =>
      var (r', a) := React(link.ses, y.r, e);
      y.(r := r', rev := y.rev + Items(a))
  }

  predicate IsRun(link: Link, y: System, steps: seq<Step>)
    decreases |steps|
  {
    steps == [] || (Enabled(y, steps[0]) && IsRun(link, Next(link, y, steps[0]), steps[1..]))
  }

  function After(link: Link, y: System, steps: seq<Step>): System
    requires IsRun(link, y, steps)
    decreases |steps|
  {
    if steps == [] then y else After(link, Next(link, y, steps[0]), steps[1..])
  }

  ghost predicate Leads(link: Link, y: System, y': System) {
    exists steps :: IsRun(link, y, steps) && After(link, y, steps) == y'
  }

  ghost predicate Reachable(link: Link, y: System) {
    Leads(link, Initial(link), y)
  }

  predicate Agrees(link: Link) {
    link.cfg.mode == link.ses.mode && link.cfg.t == link.ses.t
  }

  /** What is in flight was sent by this sender, or acknowledges what was delivered. */
  ghost predicate ChannelInv(link: Link, ps: seq<Packet>, y: System) {
    && (forall p :: Carry(p) in y.fwd ==> p.num < y.s.next <= |ps| && p == ps[p.num])
    && (forall mode, t :: Start(mode, t) in y.fwd ==> mode == link.cfg.mode && t == link.cfg.t)
    && (forall k :: k in y.rev ==> k == 0 || k < y.r.expected)
    && (y.rev != {} ==> y.r.started)
  }

  ghost predicate HandshakeOver(s: Sender) {
    s.next > 0 || s.phase.Top? || s.phase.Filling? || s.phase.AwaitingAck? || s.phase.Succeeded?
  }

  /** Receiver against sender: what is delivered, and what the acknowledgments mean. */
  ghost predicate DeliveryInv(link: Link, ps: seq<Packet>, y: System) {
    && (HandshakeOver(y.s) ==> y.r.started)
    && (y.r.started ==> Agrees(link))
    && y.r.expected <= y.s.next <= |ps|
    && y.r.delivered == Payloads(ps[..y.r.expected])
    && (y.r.phase.Grace? ==> y.r.expected == |ps| && y.r.phase.finNum == |ps| - 1)
    && (y.r.phase.Returned? ==> y.r.expected == |ps|)
    && (y.r.phase.Receiving? ==> y.r.expected < |ps|)
    && (y.s.lastAcked >= 1 ==> y.s.lastAcked < y.r.expected)
  }

  /** The network never forgets: every packet sent, and every acknowledgment of a delivery, may still arrive. */
  ghost predicate FlightInv(ps: seq<Packet>, y: System) {
    && (forall i :: 0 <= i < y.s.next && i < |ps| ==> Carry(ps[i]) in y.fwd)
    && (forall k :: 0 <= k < y.r.expected ==> k in y.rev)
  }

  ghost predicate Inv(link: Link, y: System) {
    && SenderInv(link.cfg, y.s)
    && ChannelInv(link, Packets(link.cfg.chunks), y)
    && DeliveryInv(link, Packets(link.cfg.chunks), y)
    && FlightInv(Packets(link.cfg.chunks), y)
  }

  lemma InitialInv(link: Link)
    ensures Inv(link, Initial(link))
  {
    BootInv(link.cfg);
  }

  lemma ThinksKeeps(link: Link, y: System)
    requires Inv(link, y) && Enabled(y, Thinks)
    ensures Inv(link, Next(link, y, Thinks))
  {
    ThinkInv(link.cfg, y.s);
  }

  /** What a timeout resends is what was sent before. */
  lemma ResentIsOld(ps: seq<Packet>, limit: int, s: Sender, p: Packet)
    requires WindowInv(ps, limit, s) && p in InOrder(s.window, 0, s.next)
    requires forall i :: 0 <= i < |ps| ==> ps[i].num == i
    ensures p.num < s.next && p == ps[p.num]
  {
    var i := InOrderMember(s.window, 0, s.next, p);
  }

  lemma TimeoutSends(link: Link, y: System, d: Forward)
    requires SenderInv(link.cfg, y.s) && y.s.phase.AwaitingAck? && d in OnTimeout(link.cfg, y.s).1
    ensures d.Carry? && d.p.num < y.s.next && d.p == Packets(link.cfg.chunks)[d.p.num]
  {
    ResentIsOld(Packets(link.cfg.chunks), link.cfg.window, y.s, d.p);
  }

  lemma TimeoutKeeps(link: Link, y: System)
    requires Inv(link, y) && y.s.phase.AwaitingAck?
    ensures Inv(link, Next(link, y, SenderHears(Timeout)))
  {
    TimeoutInv(link.cfg, y.s);
    forall d | d in OnTimeout(link.cfg, y.s).1
      ensures d.Carry? && d.p.num < y.s.next && d.p == Packets(link.cfg.chunks)[d.p.num]
    {
      TimeoutSends(link, y, d);
    }
  }

  lemma SenderHearsKeeps(link: Link, y: System, input: Input)
    requires Inv(link, y) && Enabled(y, SenderHears(input))
    ensures Inv(link, Next(link, y, SenderHears(input)))
  {
    HearInv(link.cfg, y.s, input);
    if y.s.phase.AwaitingAck? && input.Timeout? {
      TimeoutKeeps(link, y);
    }
  }

  lemma PayloadStep(ps: seq<Packet>, k: nat)
    requires k < |ps|
    ensures Payloads(ps[..k + 1]) == Payloads(ps[..k]) + [ps[k].payload]
  {
  }

  lemma DataKeeps(link: Link, y: System, p: Packet)
    requires Inv(link, y) && y.r.phase.Receiving? && Carry(p) in y.fwd
    ensures Inv(link, Next(link, y, ReceiverMeets(Got(Carry(p)))))
  {
    var ps := Packets(link.cfg.chunks);
    if p.num == y.r.expected {
      PayloadStep(ps, p.num);
    }
  }

  lemma ReceiverMeetsKeeps(link: Link, y: System, e: Event)
    requires Inv(link, y) && Enabled(y, ReceiverMeets(e))
    ensures Inv(link, Next(link, y, ReceiverMeets(e)))
  {
    if y.r.phase.Receiving? && e.Got? && e.d.Carry? {
      DataKeeps(link, y, e.d.p);
    }
  }

  /** Nothing delivered is taken back. */
  lemma DeliveredGrows(link: Link, y: System, step: Step)
    requires Enabled(y, step)
    ensures y.r.delivered <= Next(link, y, step).r.delivered
  {
  }

  lemma StepKeeps(link: Link, y: System, step: Step)
    requires Inv(link, y) && Enabled(y, step)
    ensures Inv(link, Next(link, y, step))
  {
    match step
    case Thinks => ThinksKeeps(link, y);
    case Quits =>
    case Crashes =>
    case SenderHears(input) => SenderHearsKeeps(link, y, input);
    case ReceiverMeets(e) => ReceiverMeetsKeeps(link, y, e);
  }

  lemma {:induction false} RunKeeps(link: Link, y: System, steps: seq<Step>)
    requires Inv(link, y) && IsRun(link, y, steps)
    ensures Inv(link, After(link, y, steps))
    decreases |steps|
  {
    if steps != [] {
      StepKeeps(link, y, steps[0]);
      RunKeeps(link, Next(link, y, steps[0]), steps[1..]);
    }
  }

  lemma ReachableInv(link: Link, y: System)
    requires Reachable(link, y)
    ensures Inv(link, y)
  {
    var steps :| IsRun(link, Initial(link), steps) && After(link, Initial(link), steps) == y;
    InitialInv(link);
    RunKeeps(link, Initial(link), steps);
  }
}
