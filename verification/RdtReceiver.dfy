/** The Go-Back-N receiver: in-order delivery, cumulative ACKs, FIN grace period. */
module RdtReceiver {
  import opened Bytes
  import opened CompressedMode
  import opened ModeCodec
  import opened RdtSender

  const GRACE_ATTEMPTS: nat := 3

  /** The mode and type negotiated for the session, and the limit on consecutive timeouts. */
  datatype Settings = Settings(mode: Mode, t: Representation, maxTimeouts: int)

  /**
   * What the receiver may meet: a cancel seen at the loop head, a timeout, a closed socket, a
   * datagram of the sender's, or one that the gates drop. The grace period does not verify the
   * checksum, so there a damaged datagram may still look like the FIN.
   */
  datatype Event = Cancelled | TimedOut | Closed | Got(d: Forward) | Dropped(finLike: bool)

  datatype RPhase =
    | Receiving
    | Grace(finNum: nat, left: nat)  // FIN delivered; re-ACK it a bounded number of times
    | Returned
    | Raised

  datatype Receiver = Receiver(
    phase: RPhase,
    expected: nat,
    timeouts: nat,
    delivered: seq<Chunk>,
    started: bool               // a START has been accepted; kept for the agreement property only
  )

  function BootReceiver(): Receiver {
    Receiver(Receiving, 0, 0, [], false)
  }

  predicate IsOver(r: Receiver) {
    r.phase.Returned? || r.phase.Raised?
  }

  /** After one grace attempt. */
  function GraceLeft(finNum: nat, left: nat): RPhase {
    if left <= 1 then Returned else Grace(finNum, left - 1)
  }

  /** A data packet that passed the gates. */
  function OnData(r: Receiver, p: Packet): (Receiver, seq<nat>) {
    var r' := r.(timeouts := 0);
    if p.num == r.expected then
      (r'.(expected := r.expected + 1, delivered := r.delivered + [p.payload],
           phase := if p.fin then Grace(p.num, GRACE_ATTEMPTS) else Receiving),
       [p.num])
    else if r.expected > 0 then
      (r', [r.expected - 1])
    else
      (r', [])
  }

  /** One receive: the next state, and the ACK numbers sent. */
  function React(ses: Settings, r: Receiver, e: Event): (Receiver, seq<nat>) {
    match r.phase
    case Receiving =>
      (match e
       case Cancelled => (r.(phase := Raised), [])
       case TimedOut =>
         (r.(timeouts := r.timeouts + 1, phase := if r.timeouts + 1 >= ses.maxTimeouts then Raised else Receiving), [])
       case Closed => (r.(phase := Raised), [])
       case Dropped(_) => (r.(timeouts := 0), [])
       case Got(d) =>
         match d
         case Abort => (r.(timeouts := 0, phase := Raised), [])
         case Start(mode, t) =>
           if mode == ses.mode && t == ses.t then (r.(timeouts := 0, started := true), [0])
           else (r.(timeouts := 0, phase := Raised), [])
         case Carry(p) => OnData(r, p))
    case Grace(finNum, left) =>
      if e.Cancelled? then (r, []) else  // the grace period does not look at the cancel event
      var isFin := match e
        case Got(d) => d.Carry? && d.p.fin && d.p.num == finNum
        case Dropped(finLike) => finLike
        case _ => false;
      (r.(phase := if e.Closed? then Returned else GraceLeft(finNum, left)), if isFin then [finNum] else [])
    case Returned => (r, [])
    case Raised => (r, [])
  }

  /** The receiver's whole run on a script of events, with the ACK numbers it sends. */
  function Listen(ses: Settings, r: Receiver, script: seq<Event>): (Receiver, seq<nat>)
    decreases |script|
  {
    if IsOver(r) || script == [] then (r, [])
    else
      var (r1, a1) := React(ses, r, script[0]);
      var (r2, a2) := Listen(ses, r1, script[1..]);
      (r2, a1 + a2)
  }

  /** The whole run, `acks` having been sent to get to `r` with `rest` of the script unread. */
  ghost predicate Hears(ses: Settings, script: seq<Event>, acks: seq<nat>, r: Receiver, rest: seq<Event>) {
    var whole, tail := Listen(ses, BootReceiver(), script), Listen(ses, r, rest);
    whole.0 == tail.0 && whole.1 == acks + tail.1
  }

  lemma HearStep(ses: Settings, script: seq<Event>, acks: seq<nat>, r: Receiver, rest: seq<Event>)
    requires Hears(ses, script, acks, r, rest) && !IsOver(r) && rest != []
    ensures Hears(ses, script, acks + React(ses, r, rest[0]).1, React(ses, r, rest[0]).0, rest[1..])
  {
    var (r1, a1) := React(ses, r, rest[0]);
    assert acks + (a1 + Listen(ses, r1, rest[1..]).1) == acks + a1 + Listen(ses, r1, rest[1..]).1;
  }

  lemma HearEnd(ses: Settings, script: seq<Event>, acks: seq<nat>, r: Receiver, rest: seq<Event>)
    requires Hears(ses, script, acks, r, rest) && (IsOver(r) || rest == [])
    ensures Listen(ses, BootReceiver(), script) == (r, acks)
  {
    assert acks + [] == acks;
  }

  /** The grace period after FIN: three attempts, each spent on one datagram or timeout. */
  method FinGrace(ses: Settings, script: seq<Event>, used: nat, finNum: nat, ghost acks: seq<nat>, ghost r: Receiver)
    returns (phase: RPhase, more: seq<nat>)
    requires used <= |script| && r.phase == Grace(finNum, GRACE_ATTEMPTS)
    requires Hears(ses, script, acks, r, script[used..])
    ensures Listen(ses, BootReceiver(), script) == (r.(phase := phase), acks + more)
  {
    var i, left := used, GRACE_ATTEMPTS;
    ghost var now := r;
    more := [];
    assert acks + [] == acks;
    while left > 0
      invariant used <= i <= |script| && left <= GRACE_ATTEMPTS
      invariant now == r.(phase := if left > 0 then Grace(finNum, left) else Returned)
      invariant Hears(ses, script, acks + more, now, script[i..])
      decreases |script| - i
    {
      if i == |script| {
        HearEnd(ses, script, acks + more, now, script[i..]);
        return Grace(finNum, left), more;
      }
      HearStep(ses, script, acks + more, now, script[i..]);
      now := React(ses, now, script[i]).0;
      assert script[i..][1..] == script[i + 1..];
      var e := script[i];
      i := i + 1;
      assert acks + more + [] == acks + more;
      if e.Closed? {
        HearEnd(ses, script, acks + more, now, script[i..]);
        return Returned, more;
      }
      if !e.Cancelled? {
        if (e.Got? && e.d.Carry? && e.d.p.num == finNum && e.d.p.fin) || (e.Dropped? && e.finLike) {
          assert acks + more + [finNum] == acks + (more + [finNum]);
          more := more + [finNum];
        }
        left := left - 1;
      }
    }
    HearEnd(ses, script, acks + more, now, script[i..]);
    phase := Returned;
  }

  /** What one turn of the receive loop does: new counters, chunks yielded, ACKs sent. */
  datatype Turn = Turn(phase: RPhase, expected: nat, timeouts: nat, out: seq<Chunk>, acks: seq<nat>)

  /** One turn of the receive loop. */
  method TakeTurn(ses: Settings, e: Event, expected: nat, timeouts: nat, ghost r: Receiver) returns (turn: Turn)
    requires r.phase.Receiving? && r.expected == expected && r.timeouts == timeouts
    ensures var (r', a) := React(ses, r, e);
      r' == Receiver(turn.phase, turn.expected, turn.timeouts, r.delivered + turn.out, r'.started) && a == turn.acks
  {
    assert r.delivered + [] == r.delivered;
    if e.Cancelled? || e.Closed? {
      return Turn(Raised, expected, timeouts, [], []);
    }
    if e.TimedOut? {
      return Turn(if timeouts + 1 >= ses.maxTimeouts then Raised else Receiving, expected, timeouts + 1, [], []);
    }
    if e.Dropped? {
      return Turn(Receiving, expected, 0, [], []);
    }
    match e.d {
      case Abort =>
        return Turn(Raised, expected, 0, [], []);
      case Start(mode, t) =>
        if mode != ses.mode || t != ses.t {
          return Turn(Raised, expected, 0, [], []);
        }
        return Turn(Receiving, expected, 0, [], [0]);
      case Carry(p) =>
        if p.num == expected {
          return Turn(if p.fin then Grace(p.num, GRACE_ATTEMPTS) else Receiving, expected + 1, 0, [p.payload], [p.num]);
        }
        return Turn(Receiving, expected, 0, [], if expected > 0 then [expected - 1] else []);
    }
  }

  /**
   * The receiver generator over a script of events: what it yields, what it acknowledges and
   * how it ends are those of the step function that the protocol lemmas are about.
   */
  method ReceiveChunks(ses: Settings, script: seq<Event>)
    returns (out: seq<Chunk>, acks: seq<nat>, phase: RPhase, expected: nat, timeouts: nat)
    ensures var (r, a) := Listen(ses, BootReceiver(), script);
      a == acks && r == Receiver(phase, expected, timeouts, out, r.started)
  {
    out, acks, phase, expected, timeouts := [], [], Receiving, 0, 0;
    var used := 0;
    ghost var final := BootReceiver();
    assert script[0..] == script;
    assert [] + Listen(ses, final, script).1 == Listen(ses, final, script).1;
    while used < |script| && phase.Receiving?
      invariant used <= |script|
      invariant phase.Receiving? || phase.Raised? || (phase.Grace? && phase.left == GRACE_ATTEMPTS)
      invariant final == Receiver(phase, expected, timeouts, out, final.started)
      invariant Hears(ses, script, acks, final, script[used..])
      decreases |script| - used
    {
      var turn := TakeTurn(ses, script[used], expected, timeouts, final);
      HearStep(ses, script, acks, final, script[used..]);
      assert script[used..][1..] == script[used + 1..];
      final := React(ses, final, script[used]).0;
      used := used + 1;
      phase, expected, timeouts := turn.phase, turn.expected, turn.timeouts;
      out, acks := out + turn.out, acks + turn.acks;
    }
    if phase.Grace? {
      var more;
      phase, more := FinGrace(ses, script, used, phase.finNum, acks, final);
      acks := acks + more;
      return;
    }
    HearEnd(ses, script, acks, final, script[used..]);
  }
}
