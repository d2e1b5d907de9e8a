/** What every state of a sender's run keeps, and how much a run can send and hear before it ends. */
module SenderBounds {
  import opened Bytes
  import opened RdtSender

  function PacketCount(cfg: Config): nat {
    |Packets(cfg.chunks)|
  }

  /** The window invariant and the conservation of bytes, for the packets `ps` of a transfer. */
  ghost predicate WindowInv(ps: seq<Packet>, limit: int, s: Sender) {
    && -1 <= s.lastAcked < s.next <= |ps|
    && (forall i: nat :: i in s.window <==> s.lastAcked < i < s.next)
    && (forall i: nat :: s.lastAcked < i < s.next ==> s.window[i] == ps[i])
    && (s.next == 0 || s.next - s.lastAcked - 1 <= limit)
    && s.transferred == Total(ps[..s.lastAcked + 1])
    && (s.exhausted ==> s.next == |ps|)
    && (s.phase.AwaitingAck? ==> s.exhausted || s.next - s.lastAcked - 1 >= limit)
    && (s.phase.Succeeded? ==> s.exhausted && s.lastAcked == |ps| - 1)
  }

  /** Before the handshake is over nothing has been sent but START. */
  ghost predicate HandshakeInv(cfg: Config, s: Sender) {
    && (s.phase.Connecting? ==> s.history.startTries == s.phase.attempt - 1 && 1 <= s.phase.attempt <= cfg.retry)
    && (s.phase.AwaitingStart? ==> s.history.startTries == s.phase.attempt - 1 && 1 <= s.phase.attempt <= cfg.retry)
    && (s.phase.Connecting? || s.phase.AwaitingStart? ==> s.next == 0 && s.timeouts == 0 && !s.exhausted)
    && (s.phase != Failed || s.next > 0 ==> cfg.window >= 1 && cfg.retry >= 1)
    && (s.history.startTries <= if cfg.retry < 0 then 0 else cfg.retry)
  }

  /** `a` times `b`, as repeated addition. */
  function Times(a: nat, b: int): int {
    if a == 0 then 0 else Times(a - 1, b) + b
  }

  lemma {:induction false} TimesIsProduct(a: nat, b: int)
    ensures Times(a, b) == a * b
  {
    if a > 0 {
      TimesIsProduct(a - 1, b);
      assert (a - 1) * b == a * b - b;
    }
  }

  lemma {:induction false} TimesGrows(a: nat, a': nat, b: int)
    requires a < a' && b >= 0
    ensures Times(a', b) >= Times(a, b) + b
  {
    if a + 1 < a' {
      TimesGrows(a, a' - 1, b);
    }
  }

  /** The timeouts that the retry limit allows for `a` acknowledged packets. */
  function Budget(a: nat, retry: int): int {
    Times(a, retry - 1)
  }

  /** Timeouts and resends stay inside what the acknowledged packets have paid for. */
  ghost predicate HistoryInv(cfg: Config, s: Sender) {
    var n, h, acked := PacketCount(cfg), s.history, s.lastAcked + 1;
    && (s.phase.Failed? || s.timeouts < cfg.retry)
    && (cfg.retry < 1 ==> s.timeouts == 0)
    && (cfg.retry >= 1 ==> s.timeouts <= cfg.retry)
    && (acked == n ==> s.timeouts <= 1)
    && (acked == n && s.timeouts == 1 ==> s.exhausted && (s.phase.Top? || IsDone(s)))
    && 0 <= h.advances <= acked
    && h.timeouts <= Budget(acked, cfg.retry) + s.timeouts
    && h.rounds <= Budget(acked, cfg.retry) + RoundsNow(cfg, s)
    && h.resent <= Times(h.rounds, cfg.window)
  }

  /** The rounds resent since the last advance. */
  function RoundsNow(cfg: Config, s: Sender): int {
    if s.lastAcked + 1 == PacketCount(cfg) then 0
    else if s.timeouts >= cfg.retry then cfg.retry - 1
    else s.timeouts
  }

  ghost predicate SenderInv(cfg: Config, s: Sender) {
    && WindowInv(Packets(cfg.chunks), cfg.window, s) && HandshakeInv(cfg, s)
    && (cfg.source.Breaks? ==> s.next <= cfg.source.at)
    && (cfg.window >= 1 && cfg.retry >= 1 ==> HistoryInv(cfg, s))
  }

  /** A map whose keys fill an interval has as many entries as the interval has numbers. */
  lemma {:induction false} IntervalSize(w: map<nat, Packet>, lo: int, hi: nat)
    requires -1 <= lo < hi && forall i: nat :: i in w <==> lo < i < hi
    ensures |w| == hi - lo - 1
    decreases hi - lo
  {
    if lo + 1 < hi {
      var w' := w - {hi - 1};
      assert w'.Keys == w.Keys - {hi - 1};
      if hi - 1 > 0 {
        IntervalSize(w', lo, hi - 1);
      } else {
        assert w.Keys == {0};
      }
    } else {
      assert w.Keys == {};
    }
  }

  /** The window up to `hi` is the stretch of packets behind the last acknowledged one. */
  lemma {:induction false} WindowIsStretch(ps: seq<Packet>, limit: int, s: Sender, lo: nat, hi: nat)
    requires WindowInv(ps, limit, s) && lo <= hi <= s.next && s.lastAcked < hi
    ensures InOrder(s.window, lo, hi) == ps[if lo <= s.lastAcked then s.lastAcked + 1 else lo..hi]
    decreases hi - lo
  {
    if lo < hi {
      WindowIsStretch(ps, limit, s, lo + 1, hi);
    }
  }

  lemma TotalStretch(ps: seq<Packet>, a: nat, b: nat)
    requires a <= b <= |ps|
    ensures Total(ps[..b]) == Total(ps[..a]) + Total(ps[a..b])
  {
    TotalConcat(ps[..a], ps[a..b]);
    assert ps[..a] + ps[a..b] == ps[..b];
  }

  lemma BootInv(cfg: Config)
    ensures SenderInv(cfg, Boot(cfg))
  {
    assert Packets(cfg.chunks)[..0] == [];
  }

  /** Putting the next packet into the window keeps the window invariant. */
  lemma SendWindowInv(ps: seq<Packet>, limit: int, s: Sender)
    requires WindowInv(ps, limit, s) && s.phase.Filling? && |s.window| < limit && s.next < |ps|
    ensures WindowInv(ps, limit, s.(window := s.window[s.next := ps[s.next]], next := s.next + 1))
  {
    IntervalSize(s.window, s.lastAcked, s.next);
  }

  lemma FillInv(cfg: Config, s: Sender)
    requires SenderInv(cfg, s) && s.phase.Filling?
    ensures SenderInv(cfg, Think(cfg, s).0)
  {
    var ps := Packets(cfg.chunks);
    FillWindowInv(ps, cfg, s);
  }

  lemma FillWindowInv(ps: seq<Packet>, cfg: Config, s: Sender)
    requires ps == Packets(cfg.chunks) && WindowInv(ps, cfg.window, s) && s.phase.Filling?
    ensures WindowInv(ps, cfg.window, Think(cfg, s).0)
  {
    IntervalSize(s.window, s.lastAcked, s.next);
    if !s.exhausted && |s.window| < cfg.window && s.next < |ps| {
      SendWindowInv(ps, cfg.window, s);
    }
  }

  lemma ThinkInv(cfg: Config, s: Sender)
    requires SenderInv(cfg, s) && !IsQuiet(s)
    ensures SenderInv(cfg, Think(cfg, s).0)
  {
    if s.phase.Filling? {
      FillInv(cfg, s);
    } else if s.phase.Top? && s.exhausted && s.window == map[] {
      assert s.next - 1 !in s.window;
    }
  }

  /** A step that leaves the window alone keeps its invariant. */
  lemma SameWindow(ps: seq<Packet>, limit: int, s: Sender, s': Sender)
    requires WindowInv(ps, limit, s) && (s'.phase.Top? || s'.phase.Failed?)
    requires s'.window == s.window && s'.next == s.next && s'.lastAcked == s.lastAcked
    requires s'.transferred == s.transferred && s'.exhausted == s.exhausted
    ensures WindowInv(ps, limit, s')
  {
  }

  lemma TimeoutHistory(cfg: Config, s: Sender)
    requires HistoryInv(cfg, s) && cfg.window >= 1 && cfg.retry >= 1 && s.phase.AwaitingAck?
    requires |InOrder(s.window, 0, s.next)| == s.next - s.lastAcked - 1 <= cfg.window
    requires s.lastAcked < s.next <= PacketCount(cfg)
    requires s.lastAcked + 1 == PacketCount(cfg) ==> s.exhausted
    ensures HistoryInv(cfg, OnTimeout(cfg, s).0)
  {
  }

  lemma TimeoutInv(cfg: Config, s: Sender)
    requires SenderInv(cfg, s) && s.phase.AwaitingAck?
    ensures SenderInv(cfg, OnTimeout(cfg, s).0)
  {
    var ps := Packets(cfg.chunks);
    SameWindow(ps, cfg.window, s, OnTimeout(cfg, s).0);
    WindowIsStretch(ps, cfg.window, s, 0, s.next);
    assert |InOrder(s.window, 0, s.next)| == s.next - s.lastAcked - 1;
    if cfg.window >= 1 && cfg.retry >= 1 {
      TimeoutHistory(cfg, s);
    }
  }

  /** The bytes popped are those between the old and the new last acknowledged packet. */
  lemma AdvancedTotal(ps: seq<Packet>, limit: int, s: Sender, k: nat)
    requires WindowInv(ps, limit, s) && Advances(s, k)
    ensures s.transferred + Total(InOrder(s.window, 0, k + 1)) == Total(ps[..k + 1])
  {
    WindowIsStretch(ps, limit, s, 0, k + 1);
    TotalStretch(ps, s.lastAcked + 1, k + 1);
  }

  lemma AdvanceWindowInv(ps: seq<Packet>, limit: int, s: Sender, k: nat)
    requires WindowInv(ps, limit, s) && s.phase.AwaitingAck? && Advances(s, k)
    ensures WindowInv(ps, limit, OnAdvance(s, k))
  {
    AdvancedTotal(ps, limit, s, k);
  }

  lemma AdvanceInv(cfg: Config, s: Sender, k: nat)
    requires SenderInv(cfg, s) && s.phase.AwaitingAck? && Advances(s, k)
    ensures SenderInv(cfg, OnAdvance(s, k))
  {
    AdvanceWindowInv(Packets(cfg.chunks), cfg.window, s, k);
    if cfg.retry >= 1 {
      TimesGrows(s.lastAcked + 1, k + 1, cfg.retry - 1);
    }
  }

  lemma IgnoreInv(cfg: Config, s: Sender)
    requires SenderInv(cfg, s) && s.phase.AwaitingAck?
    ensures SenderInv(cfg, Ignore(s))
  {
  }

  lemma HearInv(cfg: Config, s: Sender, input: Input)
    requires SenderInv(cfg, s) && (s.phase.AwaitingStart? || s.phase.AwaitingAck?)
    ensures SenderInv(cfg, Hear(cfg, s, input).0)
  {
    if s.phase.AwaitingAck? {
      if input.Timeout? {
        TimeoutInv(cfg, s);
      } else if input.Ack? && Advances(s, input.k) {
        AdvanceInv(cfg, s, input.k);
      } else {
        IgnoreInv(cfg, s);
      }
    }
  }

  lemma {:induction false} SettleInv(cfg: Config, s: Sender)
    requires SenderInv(cfg, s)
    ensures SenderInv(cfg, Settle(cfg, s).0)
    decreases !s.exhausted, if s.next <= |Packets(cfg.chunks)| then |Packets(cfg.chunks)| - s.next else 0,
              if IsQuiet(s) then 0 else if s.phase.Top? then 2 else 1
  {
    if !IsQuiet(s) {
      ThinkInv(cfg, s);
      SettleInv(cfg, Think(cfg, s).0);
    }
  }

  /** The invariant holds at every point where a run can stop. */
  lemma {:induction false} DriveInv(cfg: Config, s: Sender, script: seq<Input>)
    requires SenderInv(cfg, s)
    ensures SenderInv(cfg, Drive(cfg, s, script).0)
    decreases |script|
  {
    if !CancelNow(s, script) {
      SettleInv(cfg, s);
      var s1 := Settle(cfg, s).0;
      if !IsDone(s1) && script != [] {
        HearInv(cfg, s1, script[0]);
        DriveInv(cfg, Hear(cfg, s1, script[0]).0, script[1..]);
      }
    }
  }

  /**
   * The window holds exactly the packets behind the last acknowledged one and before the next,
   * at most `window` of them; the bytes counted are those of the acknowledged packets; and a
   * success counts every byte of the source.
   */
  ghost predicate WindowFacts(cfg: Config, s: Sender) {
    && WindowInv(Packets(cfg.chunks), cfg.window, s)
    && |s.window| == s.next - s.lastAcked - 1
    && (cfg.window >= 1 ==> |s.window| <= cfg.window)
    && InOrder(s.window, 0, s.next) == Packets(cfg.chunks)[s.lastAcked + 1..s.next]
    && (s.phase.Succeeded? ==> s.transferred == |Flatten(cfg.chunks)|)
  }

  lemma FactsFromInv(cfg: Config, s: Sender)
    requires SenderInv(cfg, s)
    ensures WindowFacts(cfg, s)
  {
    var ps := Packets(cfg.chunks);
    IntervalSize(s.window, s.lastAcked, s.next);
    WindowIsStretch(ps, cfg.window, s, 0, s.next);
    if s.phase.Succeeded? {
      assert ps[..s.lastAcked + 1] == ps;
      TotalIsLength(ps);
      PacketsCarry(cfg.chunks);
    }
  }

  /** Window invariant and conservation, on every run. */
  lemma WindowTheorem(cfg: Config, script: seq<Input>)
    ensures WindowFacts(cfg, Drive(cfg, Boot(cfg), script).0)
  {
    BootInv(cfg);
    DriveInv(cfg, Boot(cfg), script);
    FactsFromInv(cfg, Drive(cfg, Boot(cfg), script).0);
  }

  /** How many data packets a sequence of sends holds. */
  function CarryCount(sent: seq<Forward>): nat {
    if sent == [] then 0 else (if sent[0].Carry? then 1 else 0) + CarryCount(sent[1..])
  }

  lemma {:induction false} CarryCountConcat(a: seq<Forward>, b: seq<Forward>)
    ensures CarryCount(a + b) == CarryCount(a) + CarryCount(b)
  {
    if a == [] {
      assert a + b == b;
    } else {
      CarryCountConcat(a[1..], b);
      assert (a + b)[1..] == a[1..] + b;
    }
  }

  lemma {:induction false} CarryCountCarries(ps: seq<Packet>)
    ensures CarryCount(Carries(ps)) == |ps|
  {
    if ps != [] {
      CarryCountCarries(ps[1..]);
      assert Carries(ps)[1..] == Carries(ps[1..]);
    }
  }

  /** First sends and resends: what the sends of a stretch of a run add up to. */
  ghost predicate SendsAccounted(s: Sender, s': Sender, sent: seq<Forward>) {
    CarryCount(sent) == (s'.next - s.next) + (s'.history.resent - s.history.resent)
  }

  lemma {:induction false} SettleSends(cfg: Config, s: Sender)
    ensures SendsAccounted(s, Settle(cfg, s).0, Settle(cfg, s).1)
    ensures Settle(cfg, s).0.history == s.history
    decreases !s.exhausted, if s.next <= |Packets(cfg.chunks)| then |Packets(cfg.chunks)| - s.next else 0,
              if IsQuiet(s) then 0 else if s.phase.Top? then 2 else 1
  {
    if !IsQuiet(s) {
      var (s1, o1) := Think(cfg, s);
      SettleSends(cfg, s1);
      CarryCountConcat(o1, Settle(cfg, s1).1);
    }
  }

  function Heard(h: History): nat {
    h.startTries + h.timeouts + h.advances + h.ignored
  }

  lemma HearSends(cfg: Config, s: Sender, input: Input)
    requires s.phase.AwaitingStart? || s.phase.AwaitingAck?
    ensures var (s', o) := Hear(cfg, s, input);
      SendsAccounted(s, s', o) && Heard(s'.history) == Heard(s.history) + 1
  {
    CarryCountCarries(InOrder(s.window, 0, s.next));
  }

  lemma {:induction false} DriveSends(cfg: Config, s: Sender, script: seq<Input>)
    ensures var (s', o) := Drive(cfg, s, script);
      SendsAccounted(s, s', o) && (!IsDone(s') ==> Heard(s'.history) == Heard(s.history) + |script|)
    decreases |script|
  {
    if !CancelNow(s, script) {
      SettleSends(cfg, s);
      var (s1, o1) := Settle(cfg, s);
      if !IsDone(s1) && script != [] {
        HearSends(cfg, s1, script[0]);
        var (s2, o2) := Hear(cfg, s1, script[0]);
        DriveSends(cfg, s2, script[1..]);
        var (s3, o3) := Drive(cfg, s2, script[1..]);
        CarryCountConcat(o1, o2);
        CarryCountConcat(o1 + o2, o3);
      }
    }
  }

  /** The bounds in terms of the counters. */
  lemma CounterBounds(cfg: Config, s: Sender)
    requires SenderInv(cfg, s) && cfg.window >= 1 && cfg.retry >= 1
    ensures var n, budget := PacketCount(cfg), Budget(PacketCount(cfg), cfg.retry);
      && s.next <= n && s.history.advances <= n && s.history.startTries <= cfg.retry
      && s.history.timeouts <= budget + 1
      && 0 <= budget && s.history.resent <= Times(budget, cfg.window)
  {
    var n, acked, h := PacketCount(cfg), s.lastAcked + 1, s.history;
    if acked < n {
      TimesGrows(acked, n, cfg.retry - 1);
    }
    assert h.rounds <= Budget(n, cfg.retry);
    if h.rounds < Budget(n, cfg.retry) {
      TimesGrows(h.rounds, Budget(n, cfg.retry), cfg.window);
    }
  }

  /**
   * A run meets at most budget + 1 timeouts in its window loop and sends at most n + resends data
   * datagrams, for n packets; and if it has not ended after `heard` inputs, all but
   * r + n + budget + 1 of these were ACKs and noise that it ignored, for retry limit r.
   */
  ghost predicate IsBounded(cfg: Config, s: Sender, sent: seq<Forward>, heard: nat, budget: int, resends: int) {
    && s.history.timeouts <= budget + 1
    && CarryCount(sent) <= PacketCount(cfg) + resends
    && (!IsDone(s) ==> heard <= s.history.ignored + cfg.retry + PacketCount(cfg) + budget + 1)
  }

  /** A run's bounds, from what its sends add up to since a start at `s`. */
  lemma BoundsFromSends(cfg: Config, s: Sender, s': Sender, sent: seq<Forward>, heard: nat)
    requires SenderInv(cfg, s') && cfg.window >= 1 && cfg.retry >= 1
    requires s.next == 0 && s.history == History(0, 0, 0, 0, 0, 0)
    requires SendsAccounted(s, s', sent) && (!IsDone(s') ==> Heard(s'.history) == Heard(s.history) + heard)
    ensures var budget := Budget(PacketCount(cfg), cfg.retry);
      0 <= budget && IsBounded(cfg, s', sent, heard, budget, Times(budget, cfg.window))
  {
    CounterBounds(cfg, s');
  }

  /** The bounds of a run, its budgets as repeated addition. */
  lemma RunBudget(cfg: Config, script: seq<Input>)
    requires cfg.window >= 1 && cfg.retry >= 1
    ensures var budget := Budget(PacketCount(cfg), cfg.retry);
      && 0 <= budget
      && IsBounded(cfg, Drive(cfg, Boot(cfg), script).0, Drive(cfg, Boot(cfg), script).1, |script|,
                   budget, Times(budget, cfg.window))
  {
    var s := Boot(cfg);
    BootInv(cfg);
    DriveInv(cfg, s, script);
    DriveSends(cfg, s, script);
    BoundsFromSends(cfg, s, Drive(cfg, s, script).0, Drive(cfg, s, script).1, |script|);
  }

  lemma BudgetIsProduct(cfg: Config)
    requires Budget(PacketCount(cfg), cfg.retry) >= 0
    ensures Budget(PacketCount(cfg), cfg.retry) == PacketCount(cfg) * (cfg.retry - 1)
    ensures Times(Budget(PacketCount(cfg), cfg.retry), cfg.window) == PacketCount(cfg) * (cfg.retry - 1) * cfg.window
  {
    TimesIsProduct(PacketCount(cfg), cfg.retry - 1);
    TimesIsProduct(Budget(PacketCount(cfg), cfg.retry), cfg.window);
  }

  /**
   * Termination and retransmission bound, for every script: with n packets, window w and retry
   * limit r, the budget of timeouts is n*(r-1), and that of resends n*(r-1)*w.
   */
  lemma RunBounds(cfg: Config, script: seq<Input>)
    requires cfg.window >= 1 && cfg.retry >= 1
    ensures IsBounded(cfg, Drive(cfg, Boot(cfg), script).0, Drive(cfg, Boot(cfg), script).1, |script|,
      PacketCount(cfg) * (cfg.retry - 1), PacketCount(cfg) * (cfg.retry - 1) * cfg.window)
  {
    RunBudget(cfg, script);
    BudgetIsProduct(cfg);
  }

  /** A run that cannot start fails without sending anything. */
  lemma RefusedRun(cfg: Config, script: seq<Input>)
    requires cfg.window < 1 || cfg.retry < 1
    ensures Drive(cfg, Boot(cfg), script) == (Boot(cfg), []) && Boot(cfg).phase == Failed
  {
    assert Settle(cfg, Boot(cfg)) == (Boot(cfg), []);
  }

  /**
   * The wait after the last ACK. A source whose end has not been seen when the last packet is
   * acknowledged costs one more receive with an empty window. Whatever it brings, the sender then
   * succeeds, except exactly for a timeout under a retry limit of 1, which fails it.
   */
  lemma LastWait(cfg: Config, s: Sender, input: Input)
    requires SenderInv(cfg, s) && cfg.window >= 1 && cfg.retry >= 1
    requires s.phase.AwaitingAck? && s.lastAcked + 1 == PacketCount(cfg)
    ensures Hear(cfg, s, input).0.phase.Failed? <==> input.Timeout? && cfg.retry == 1
    ensures !Hear(cfg, s, input).0.phase.Failed? ==> Settle(cfg, Hear(cfg, s, input).0).0.phase.Succeeded?
  {
    var s' := Hear(cfg, s, input).0;
    HearInv(cfg, s, input);
    WindowIsStretch(Packets(cfg.chunks), cfg.window, s, 0, s.next);
    if !s'.phase.Failed? {
      assert s'.phase.Top? && s'.exhausted;
      assert s'.window == map[] by {
        assert forall i :: i !in s'.window;
      }
      assert Settle(cfg, Think(cfg, s').0) == (Think(cfg, s').0, []);
    }
  }
}
