/** The Go-Back-N sender: START handshake, bounded window, cumulative ACKs, whole-window resend. */
module RdtSender {
  import opened Bytes
  import opened CompressedMode
  import opened ModeCodec

  /** A numbered data packet; the last one of a transfer carries FIN instead of DATA. */
  datatype Packet = Packet(num: nat, fin: bool, payload: Chunk)

  /** What the sender puts on the forward channel. */
  datatype Forward = Start(mode: Mode, t: Representation) | Carry(p: Packet) | Abort

  /** The chunk source gives all its chunks, or raises when packet `at` is asked for. */
  datatype Source = Whole | Breaks(at: nat)

  datatype Config = Config(chunks: seq<Chunk>, source: Source, window: int, retry: int, mode: Mode, t: Representation)

  /** Chunks marked with whether they are the last; an empty source still gives one empty last chunk. */
  function Marked(chunks: seq<Chunk>): seq<(Chunk, bool)> {
    if chunks == [] then [([], true)] else seq(|chunks|, i requires 0 <= i < |chunks| => (chunks[i], i == |chunks| - 1))
  }

  /** The lookahead generator: a chunk is passed on once it is known whether another follows. */
  method Lookahead(chunks: seq<Chunk>) returns (out: seq<(Chunk, bool)>)
    ensures out == Marked(chunks)
  {
    if chunks == [] {
      return [([], true)];
    }
    var current := chunks[0];
    out := [];
    for k := 1 to |chunks|
      invariant current == chunks[k - 1]
      invariant out == seq(k - 1, i requires 0 <= i < k - 1 => (chunks[i], false))
    {
      out := out + [(current, false)];
      current := chunks[k];
    }
    out := out + [(current, true)];
  }

  /** The packets of a transfer, in sequence. */
  function Packets(chunks: seq<Chunk>): (ps: seq<Packet>)
    ensures |ps| == if chunks == [] then 1 else |chunks|
    ensures forall i :: 0 <= i < |ps| ==> ps[i].num == i && (ps[i].fin <==> i == |ps| - 1)
  {
    var marked := Marked(chunks);
    seq(|marked|, i requires 0 <= i < |marked| => Packet(i, marked[i].1, marked[i].0))
  }

  /** The payload bytes of a run of packets. */
  function Total(ps: seq<Packet>): nat {
    if ps == [] then 0 else |ps[0].payload| + Total(ps[1..])
  }

  function Payloads(ps: seq<Packet>): seq<Chunk> {
    seq(|ps|, i requires 0 <= i < |ps| => ps[i].payload)
  }

  lemma {:induction false} TotalIsLength(ps: seq<Packet>)
    ensures Total(ps) == |Flatten(Payloads(ps))|
  {
    if ps != [] {
      TotalIsLength(ps[1..]);
      assert Payloads(ps)[1..] == Payloads(ps[1..]);
    }
  }

  lemma {:induction false} TotalConcat(a: seq<Packet>, b: seq<Packet>)
    ensures Total(a + b) == Total(a) + Total(b)
  {
    if a == [] {
      assert a + b == b;
    } else {
      TotalConcat(a[1..], b);
      assert (a + b)[1..] == a[1..] + b;
    }
  }

  /** The packets carry the chunks' bytes. */
  lemma PacketsCarry(chunks: seq<Chunk>)
    ensures Flatten(Payloads(Packets(chunks))) == Flatten(chunks)
  {
    if chunks == [] {
      assert Payloads(Packets(chunks)) == [[]];
      assert Flatten([[]]) == [] + Flatten([]);
    } else {
      assert Payloads(Packets(chunks)) == chunks;
    }
  }

  /**
   * A source that raises after giving `given`, the first chunks of `whole`: the lookahead passes on all of
   * them but the last, as packets of the whole transfer, and raises for the packet that it holds back.
   */
  function BreakOf(given: seq<Chunk>): Source {
    Breaks(if given == [] then 0 else |given| - 1)
  }

  lemma GivenArePackets(given: seq<Chunk>, whole: seq<Chunk>)
    requires given <= whole
    ensures BreakOf(given).at < |Packets(whole)|
    ensures forall i :: 0 <= i < BreakOf(given).at ==> Packets(whole)[i] == Packet(i, false, given[i])
  {
  }

  datatype Phase =
    | Connecting(attempt: nat)      // about to send START
    | AwaitingStart(attempt: nat)   // waiting for the ACK of START
    | Top                           // at the head of the window loop
    | Filling                       // sending while the window has room
    | AwaitingAck                   // waiting for a cumulative ACK
    | Succeeded
    | Failed

  /** What the sender may meet at a cancel check or a receive. */
  datatype Input = Cancel | Timeout | Noise | Ack(k: nat)

  /** Counters kept for the bounds only. */
  datatype History = History(startTries: nat, timeouts: nat, rounds: nat, resent: nat, ignored: nat, advances: nat)

  datatype Sender = Sender(
    phase: Phase,
    exhausted: bool,
    window: map<nat, Packet>,
    next: nat,
    lastAcked: int,
    timeouts: nat,
    transferred: nat,
    history: History
  )

  /** The next START attempt, if the retry limit leaves one. */
  function Attempt(cfg: Config, attempt: nat): Phase {
    if attempt > cfg.retry then Failed else Connecting(attempt)
  }

  function Boot(cfg: Config): Sender {
    Sender(if cfg.window < 1 then Failed else Attempt(cfg, 1),
           false, map[], 0, -1, 0, 0, History(0, 0, 0, 0, 0, 0))
  }

  predicate IsQuiet(s: Sender) {
    !s.phase.Connecting? && !s.phase.Top? && !s.phase.Filling?
  }

  predicate IsDone(s: Sender) {
    s.phase.Succeeded? || s.phase.Failed?
  }

  /** The window's packets with numbers from `lo` to below `hi`, in sequence. */
  function InOrder(window: map<nat, Packet>, lo: nat, hi: nat): seq<Packet>
    decreases hi - lo
  {
    if lo >= hi then []
    else (if lo in window then [window[lo]] else []) + InOrder(window, lo + 1, hi)
  }

  function Carries(ps: seq<Packet>): seq<Forward> {
    seq(|ps|, i requires 0 <= i < |ps| => Carry(ps[i]))
  }

  /** One internal step: what the sender does when it is not waiting. */
  function Think(cfg: Config, s: Sender): (Sender, seq<Forward>)
    requires !IsQuiet(s)
  {
    var ps := Packets(cfg.chunks);
    match s.phase
    case Connecting(attempt) => (s.(phase := AwaitingStart(attempt)), [Start(cfg.mode, cfg.t)])
    case Top =>
      (s.(phase := if s.exhausted && s.window == map[] then Succeeded else Filling), [])
    case Filling =>
      if s.exhausted || |s.window| >= cfg.window then
        (s.(phase := AwaitingAck), [])
      else if s.next < |ps| then
        if cfg.source == Breaks(s.next) then
          (s.(phase := Failed), [])
        else
          (s.(window := s.window[s.next := ps[s.next]], next := s.next + 1), [Carry(ps[s.next])])
      else
        (s.(exhausted := true, phase := AwaitingAck), [])
  }

  /** A cancel seen at a check: the sender aborts. */
  function Quit(s: Sender): (Sender, seq<Forward>) {
    (s.(phase := Failed), [Abort])
  }

  /** Where the cancel event is looked at: before each START, and at the loop head unless all is done. */
  predicate ChecksCancel(s: Sender) {
    s.phase.Connecting? || (s.phase.Top? && !(s.exhausted && s.window == map[]))
  }

  /** The window timer ran out. */
  function OnTimeout(cfg: Config, s: Sender): (Sender, seq<Forward>) {
    var again := InOrder(s.window, 0, s.next);
    var h := s.history;
    if s.timeouts + 1 >= cfg.retry then
      (s.(phase := Failed, timeouts := s.timeouts + 1, history := h.(timeouts := h.timeouts + 1)), [])
    else
      (s.(phase := Top, timeouts := s.timeouts + 1,
          history := h.(timeouts := h.timeouts + 1, resent := h.resent + |again|,
                        rounds := h.rounds + if again == [] then 0 else 1)),
       Carries(again))
  }

  predicate Advances(s: Sender, k: nat) {
    s.lastAcked < k < s.next
  }

  /** A cumulative ACK inside the window slides it past `k`. */
  function OnAdvance(s: Sender, k: nat): Sender {
    s.(phase := Top, timeouts := 0, lastAcked := k,
       window := map i | i in s.window && i > k :: s.window[i],
       transferred := s.transferred + Total(InOrder(s.window, 0, k + 1)),
       history := s.history.(advances := s.history.advances + 1))
  }

  function Ignore(s: Sender): Sender {
    s.(phase := Top, history := s.history.(ignored := s.history.ignored + 1))
  }

  /** What one receive does. A cancel is not looked at here, so it counts as nothing heard. */
  function Hear(cfg: Config, s: Sender, input: Input): (Sender, seq<Forward>)
    requires s.phase.AwaitingStart? || s.phase.AwaitingAck?
  {
    match s.phase
    case AwaitingStart(attempt) =>
      var s' := s.(history := s.history.(startTries := s.history.startTries + 1));
      (s'.(phase := if input == Ack(0) then Top else Attempt(cfg, attempt + 1)), [])
    case AwaitingAck =>
      match input
      case Timeout => OnTimeout(cfg, s)
      case Ack(k) => (if Advances(s, k) then OnAdvance(s, k) else Ignore(s), [])
      case _ => (Ignore(s), [])
  }

  /** Internal steps until the sender waits or is done. */
  function Settle(cfg: Config, s: Sender): (r: (Sender, seq<Forward>))
    ensures IsQuiet(r.0)
    decreases !s.exhausted, if s.next <= |Packets(cfg.chunks)| then |Packets(cfg.chunks)| - s.next else 0,
              if IsQuiet(s) then 0 else if s.phase.Top? then 2 else 1
  {
    if IsQuiet(s) then (s, [])
    else
      var (s1, o1) := Think(cfg, s);
      var (s2, o2) := Settle(cfg, s1);
      (s2, o1 + o2)
  }

  /** The sender's whole run on a script of inputs, with what it sends. */
  function Drive(cfg: Config, s: Sender, script: seq<Input>): (Sender, seq<Forward>)
    decreases |script|
  {
    if ChecksCancel(s) && script != [] && script[0].Cancel? then
      Quit(s)
    else
      var (s1, o1) := Settle(cfg, s);
      if IsDone(s1) || script == [] then
        (s1, o1)
      else
        var (s2, o2) := Hear(cfg, s1, script[0]);
        var (s3, o3) := Drive(cfg, s2, script[1..]);
        (s3, o1 + o2 + o3)
  }

  lemma {:induction false} InOrderSplit(w: map<nat, Packet>, lo: nat, mid: nat, hi: nat)
    requires lo <= mid <= hi
    ensures InOrder(w, lo, hi) == InOrder(w, lo, mid) + InOrder(w, mid, hi)
    decreases mid - lo
  {
    if lo < mid {
      InOrderSplit(w, lo + 1, mid, hi);
    }
  }

  lemma {:induction false} InOrderEmpty(w: map<nat, Packet>, lo: nat, hi: nat)
    requires forall i :: lo <= i < hi ==> i !in w
    ensures InOrder(w, lo, hi) == []
    decreases hi - lo
  {
    if lo < hi {
      InOrderEmpty(w, lo + 1, hi);
    }
  }

  lemma {:induction false} InOrderMember(w: map<nat, Packet>, lo: nat, hi: nat, p: Packet) returns (i: nat)
    requires p in InOrder(w, lo, hi)
    ensures lo <= i < hi && i in w && w[i] == p
    decreases hi - lo
  {
    if lo in w && w[lo] == p {
      i := lo;
    } else {
      i := InOrderMember(w, lo + 1, hi, p);
    }
  }

  /** What a caller can see of the sender, without the history counters. */
  datatype Visible = Visible(phase: Phase, exhausted: bool, window: map<nat, Packet>, next: nat,
                             lastAcked: int, timeouts: nat, transferred: nat)

  function View(s: Sender): Visible {
    Visible(s.phase, s.exhausted, s.window, s.next, s.lastAcked, s.timeouts, s.transferred)
  }

  /** The whole run, `sent` being what was sent to get to `s` with `rest` of the script unread. */
  ghost predicate Follows(cfg: Config, script: seq<Input>, sent: seq<Forward>, s: Sender, rest: seq<Input>) {
    var whole, tail := Drive(cfg, Boot(cfg), script), Drive(cfg, s, rest);
    whole.0 == tail.0 && whole.1 == sent + tail.1
  }

  ghost predicate CancelNow(s: Sender, rest: seq<Input>) {
    ChecksCancel(s) && rest != [] && rest[0].Cancel?
  }

  /** No internal step leads to a cancel check, and settling goes through each of them. */
  lemma ThinkSettles(cfg: Config, s: Sender)
    requires !IsQuiet(s)
    ensures var (s1, o1) := Think(cfg, s);
      !ChecksCancel(s1) && Settle(cfg, s) == (Settle(cfg, s1).0, o1 + Settle(cfg, s1).1)
  {
  }

  lemma DriveJoin(cfg: Config, s: Sender, s1: Sender, o1: seq<Forward>, rest: seq<Input>)
    requires !CancelNow(s, rest) && !ChecksCancel(s1)
    requires Settle(cfg, s) == (Settle(cfg, s1).0, o1 + Settle(cfg, s1).1)
    ensures Drive(cfg, s, rest).0 == Drive(cfg, s1, rest).0 && Drive(cfg, s, rest).1 == o1 + Drive(cfg, s1, rest).1
  {
    var (s2, o2) := Settle(cfg, s1);
    if !IsDone(s2) && rest != [] {
      var (s3, o3) := Hear(cfg, s2, rest[0]);
      var (s4, o4) := Drive(cfg, s3, rest[1..]);
      assert o1 + o2 + o3 + o4 == o1 + (o2 + o3 + o4);
    }
  }

  lemma DriveThink(cfg: Config, s: Sender, rest: seq<Input>)
    requires !IsQuiet(s) && !CancelNow(s, rest)
    ensures var (s1, o1) := Think(cfg, s);
      Drive(cfg, s, rest).0 == Drive(cfg, s1, rest).0 && Drive(cfg, s, rest).1 == o1 + Drive(cfg, s1, rest).1
  {
    ThinkSettles(cfg, s);
    DriveJoin(cfg, s, Think(cfg, s).0, Think(cfg, s).1, rest);
  }

  lemma FollowThink(cfg: Config, script: seq<Input>, sent: seq<Forward>, s: Sender, rest: seq<Input>)
    requires Follows(cfg, script, sent, s, rest) && !IsQuiet(s) && !CancelNow(s, rest)
    ensures Follows(cfg, script, sent + Think(cfg, s).1, Think(cfg, s).0, rest)
    ensures Think(cfg, s).1 == [] ==> Follows(cfg, script, sent, Think(cfg, s).0, rest)
  {
    DriveThink(cfg, s, rest);
    var (s1, o1) := Think(cfg, s);
    var tail := Drive(cfg, s1, rest).1;
    assert sent + (o1 + tail) == sent + o1 + tail;
    assert sent + [] == sent;
  }

  lemma FollowHear(cfg: Config, script: seq<Input>, sent: seq<Forward>, s: Sender, rest: seq<Input>)
    requires Follows(cfg, script, sent, s, rest) && IsQuiet(s) && !IsDone(s) && rest != []
    ensures Follows(cfg, script, sent + Hear(cfg, s, rest[0]).1, Hear(cfg, s, rest[0]).0, rest[1..])
    ensures Hear(cfg, s, rest[0]).1 == [] ==> Follows(cfg, script, sent, Hear(cfg, s, rest[0]).0, rest[1..])
  {
    assert sent + [] == sent;
    var (s2, o2) := Hear(cfg, s, rest[0]);
    var tail := Drive(cfg, s2, rest[1..]);
    assert Settle(cfg, s) == (s, []);
    assert Drive(cfg, s, rest) == (tail.0, [] + o2 + tail.1);
    assert sent + ([] + o2 + tail.1) == sent + o2 + tail.1;
  }

  /** A run that has stopped, for want of input or for good. */
  lemma FollowEnd(cfg: Config, script: seq<Input>, sent: seq<Forward>, s: Sender, rest: seq<Input>)
    requires Follows(cfg, script, sent, s, rest) && IsQuiet(s) && (IsDone(s) || rest == [])
    ensures Drive(cfg, Boot(cfg), script) == (s, sent)
  {
    assert Settle(cfg, s) == (s, []);
    assert sent + [] == sent;
  }

  lemma FollowQuit(cfg: Config, script: seq<Input>, sent: seq<Forward>, s: Sender, rest: seq<Input>)
    requires Follows(cfg, script, sent, s, rest) && CancelNow(s, rest)
    ensures Drive(cfg, Boot(cfg), script) == (s.(phase := Failed), sent + [Abort])
  {
  }

  /** The smallest sequence number in the window. */
  method MinKey(w: map<nat, Packet>) returns (m: nat)
    requires w != map[]
    ensures m in w && forall i :: i in w ==> m <= i
  {
    m :| m in w;
    var rest := w.Keys - {m};
    while rest != {}
      invariant m in w && rest <= w.Keys
      invariant forall i :: i in w && i !in rest ==> m <= i
      decreases rest
    {
      var i :| i in rest;
      if i < m {
        m := i;
      }
      rest := rest - {i};
    }
  }

  /** The bytes up to the smallest number left, `m`, when everything below `c` has been popped. */
  lemma PopTotal(window: map<nat, Packet>, c: nat, m: nat)
    requires m in window && c <= m && forall i :: c <= i < m ==> i !in window
    ensures Total(InOrder(window, 0, m + 1)) == Total(InOrder(window, 0, c)) + |window[m].payload|
  {
    InOrderSplit(window, 0, c, m + 1);
    InOrderSplit(window, c, m, m + 1);
    InOrderEmpty(window, c, m);
    assert InOrder(window, m, m + 1) == [window[m]] + InOrder(window, m + 1, m + 1) == [window[m]];
    assert InOrder(window, 0, m + 1) == InOrder(window, 0, c) + [window[m]];
    TotalConcat(InOrder(window, 0, c), [window[m]]);
    assert Total([window[m]]) == |window[m].payload| + Total([]);
  }

  /** Everything up to `k` has been popped once what is left lies above it. */
  lemma SlideDone(window: map<nat, Packet>, window': map<nat, Packet>, c: nat, k: nat)
    requires c <= k + 1 && window' == map i | i in window && i >= c :: window[i]
    requires forall i :: i in window' ==> i > k
    ensures window' == map i | i in window && i > k :: window[i]
    ensures InOrder(window, 0, k + 1) == InOrder(window, 0, c)
  {
    forall i | i in window && i >= c ensures i > k {
      assert i in window';
    }
    InOrderSplit(window, 0, c, k + 1);
    InOrderEmpty(window, c, k + 1);
  }

  /** Pop acknowledged packets off the window, smallest number first, counting their bytes. */
  method Slide(window: map<nat, Packet>, k: nat, transferred: nat) returns (window': map<nat, Packet>, transferred': nat)
    ensures window' == map i | i in window && i > k :: window[i]
    ensures transferred' == transferred + Total(InOrder(window, 0, k + 1))
  {
    window', transferred' := window, transferred;
    ghost var c := 0;
    while window' != map[]
      invariant 0 <= c <= k + 1
      invariant window' == map i | i in window && i >= c :: window[i]
      invariant transferred' == transferred + Total(InOrder(window, 0, c))
      decreases |window'|
    {
      var m := MinKey(window');
      if m > k {
        SlideDone(window, window', c, k);
        return;
      }
      assert forall i :: i in window && i >= c ==> i in window';
      PopTotal(window, c, m);
      transferred' := transferred' + |window'[m].payload|;
      ghost var before := window'.Keys;
      window' := window' - {m};
      assert window'.Keys == before - {m};
      c := m + 1;
    }
    SlideDone(window, window', c, k);
  }

  datatype Handshake = Opened | Blocked | GaveUp | Cancelled

  /** Send START until its ACK arrives, at most `retry` times. */
  method SendStartWithAck(cfg: Config, script: seq<Input>)
    returns (h: Handshake, used: nat, sent: seq<Forward>, phase: Phase, ghost s: Sender)
    requires cfg.window >= 1
    ensures used <= |script|
    ensures h.Opened? ==> s.phase == Top && Follows(cfg, script, sent, s, script[used..])
    ensures s == Boot(cfg).(phase := s.phase, history := s.history) && phase == s.phase
    ensures !h.Opened? ==> Drive(cfg, Boot(cfg), script) == (s, sent)
  {
    used, sent, s := 0, [], Boot(cfg);
    assert script[0..] == script;
    var attempt := 1;
    while attempt <= cfg.retry
      invariant 1 <= attempt && used <= |script|
      invariant s == Boot(cfg).(phase := Attempt(cfg, attempt), history := s.history)
      invariant Follows(cfg, script, sent, s, script[used..])
      decreases cfg.retry - attempt
    {
      if used < |script| && script[used].Cancel? {
        FollowQuit(cfg, script, sent, s, script[used..]);
        s, phase := s.(phase := Failed), Failed;
        return Cancelled, used, sent + [Abort], phase, s;
      }
      FollowThink(cfg, script, sent, s, script[used..]);
      s := Think(cfg, s).0;
      sent := sent + [Start(cfg.mode, cfg.t)];
      if used == |script| {
        FollowEnd(cfg, script, sent, s, script[used..]);
        return Blocked, used, sent, AwaitingStart(attempt), s;
      }
      FollowHear(cfg, script, sent, s, script[used..]);
      assert script[used..][1..] == script[used + 1..];
      s := Hear(cfg, s, script[used]).0;
      used := used + 1;
      if script[used - 1] == Ack(0) {
        return Opened, used, sent, Top, s;
      }
      attempt := attempt + 1;
    }
    FollowEnd(cfg, script, sent, s, script[used..]);
    return GaveUp, used, sent, Failed, s;
  }

  /** Send new packets while the window has room and the source has chunks; a source that raises fails the transfer. */
  method FillWindow(cfg: Config, pending: seq<(Chunk, bool)>, v: Visible,
                    ghost script: seq<Input>, ghost sent: seq<Forward>, ghost s: Sender, ghost rest: seq<Input>)
    returns (v': Visible, more: seq<Forward>, ghost s': Sender)
    requires pending == Marked(cfg.chunks) && View(s) == v && v.phase.Filling?
    requires Follows(cfg, script, sent, s, rest)
    ensures View(s') == v' && (v'.phase.AwaitingAck? || v'.phase.Failed?)
    ensures Follows(cfg, script, sent + more, s', rest)
  {
    var window: map<nat, Packet>, next: nat, exhausted := v.window, v.next, v.exhausted;
    more, s' := [], s;
    assert sent + [] == sent;
    while !exhausted && |window| < cfg.window
      invariant View(s') == v.(phase := s'.phase, window := window, next := next, exhausted := exhausted)
      invariant s'.phase.Filling? || (s'.phase.AwaitingAck? && exhausted)
      invariant Follows(cfg, script, sent + more, s', rest)
      decreases !exhausted, |pending| - next
    {
      FollowThink(cfg, script, sent + more, s', rest);
      if next >= |pending| {
        exhausted := true;
        s' := Think(cfg, s').0;
        break;
      }
      if cfg.source == Breaks(next) {
        s' := Think(cfg, s').0;
        return v.(phase := Failed, window := window, next := next, exhausted := exhausted), more, s';
      }
      var packet := Packet(next, pending[next].1, pending[next].0);
      window := window[next := packet];
      next := next + 1;
      s' := Think(cfg, s').0;
      assert sent + more + [Carry(packet)] == sent + (more + [Carry(packet)]);
      more := more + [Carry(packet)];
    }
    if s'.phase.Filling? {
      FollowThink(cfg, script, sent + more, s', rest);
      s' := Think(cfg, s').0;
    }
    v' := v.(phase := AwaitingAck, window := window, next := next, exhausted := exhausted);
  }

  /** One receive in the window loop: a timeout resends the window, an ACK inside it slides it. */
  method Receive(cfg: Config, v: Visible, script: seq<Input>, used: nat, ghost sent: seq<Forward>, ghost s: Sender)
    returns (v': Visible, more: seq<Forward>, ghost s': Sender)
    requires View(s) == v && v.phase.AwaitingAck? && used < |script|
    requires Follows(cfg, script, sent, s, script[used..])
    ensures View(s') == v' && (v'.phase.Top? || v'.phase.Failed?)
    ensures Follows(cfg, script, sent + more, s', script[used + 1..])
  {
    FollowHear(cfg, script, sent, s, script[used..]);
    assert script[used..][1..] == script[used + 1..];
    s' := Hear(cfg, s, script[used]).0;
    assert sent + [] == sent;
    var input := script[used];
    v', more := v.(phase := Top), [];
    if input.Timeout? {
      v' := v'.(timeouts := v.timeouts + 1);
      if v'.timeouts >= cfg.retry {
        v' := v'.(phase := Failed);
        return;
      }
      // the dictionary is walked in insertion order, which is number order
      more := Carries(InOrder(v.window, 0, v.next));
    } else if input.Ack? && v.lastAcked < input.k < v.next {
      var window, transferred := Slide(v.window, input.k, v.transferred);
      v' := v'.(timeouts := 0, window := window, transferred := transferred, lastAcked := input.k);
    }
  }

  /**
   * The Go-Back-N loop over a script of what it meets: its final state and everything it
   * sends are those of the step functions that the protocol lemmas are about.
   */
  method SendChunks(cfg: Config, script: seq<Input>) returns (final: Visible, sent: seq<Forward>)
    ensures final == View(Drive(cfg, Boot(cfg), script).0) && sent == Drive(cfg, Boot(cfg), script).1
  {
    var v := Visible(Failed, false, map[], 0, -1, 0, 0);
    if cfg.window < 1 {
      FollowEnd(cfg, script, [], Boot(cfg), script);
      return v, [];
    }
    var h, used, o, phase, s := SendStartWithAck(cfg, script);
    v, sent := v.(phase := phase), o;
    if !h.Opened? {
      return v, sent;
    }
    var pending := Lookahead(cfg.chunks);
    while !v.exhausted || v.window != map[]
      invariant used <= |script|
      invariant View(s) == v && v.phase.Top?
      invariant Follows(cfg, script, sent, s, script[used..])
      decreases |script| - used
    {
      if used < |script| && script[used].Cancel? {
        FollowQuit(cfg, script, sent, s, script[used..]);
        return v.(phase := Failed), sent + [Abort];
      }
      FollowThink(cfg, script, sent, s, script[used..]);
      s := Think(cfg, s).0;
      var more;
      v, more, s := FillWindow(cfg, pending, v.(phase := Filling), script, sent, s, script[used..]);
      sent := sent + more;
      if v.phase.Failed? || used == |script| {
        FollowEnd(cfg, script, sent, s, script[used..]);
        return v, sent;
      }
      v, more, s := Receive(cfg, v, script, used, sent, s);
      sent := sent + more;
      used := used + 1;
      if v.phase.Failed? {
        FollowEnd(cfg, script, sent, s, script[used..]);
        return v, sent;
      }
    }
    FollowThink(cfg, script, sent, s, script[used..]);
    s := Think(cfg, s).0;
    FollowEnd(cfg, script, sent, s, script[used..]);
    final := v.(phase := Succeeded);
  }
}
