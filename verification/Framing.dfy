/** Commands and replies on the control connection, cut out of a byte stream that arrives in any segments. */
module Framing {
  import opened Bytes

  const CR: byte := 13
  const LF: byte := 10
  const CRLF: Chunk := [CR, LF]

  /** Where the first CRLF is, or -1. */
  function FirstCrlf(b: Chunk): (i: int)
    ensures -1 <= i && (i >= 0 ==> i + 2 <= |b|)
  {
    if |b| < 2 then -1
    else if b[0] == CR && b[1] == LF then 0
    else
      var i := FirstCrlf(b[1..]);
      if i < 0 then -1 else i + 1
  }

  predicate CrlfAt(b: Chunk, i: int) {
    0 <= i && i + 2 <= |b| && b[i] == 13 && b[i + 1] == 10
  }

  /** It is a CRLF, none stands before it, and where it is -1 there is none at all. */
  lemma {:induction false} FirstCrlfIsFirst(b: Chunk)
    ensures var i := FirstCrlf(b);
      (i >= 0 ==> CrlfAt(b, i)) && forall j :: CrlfAt(b, j) ==> 0 <= i <= j
  {
    if |b| >= 2 && !CrlfAt(b, 0) {
      FirstCrlfIsFirst(b[1..]);
      forall j | CrlfAt(b, j) ensures 0 <= FirstCrlf(b) <= j {
        assert CrlfAt(b[1..], j - 1);
      }
    }
  }

  /** More bytes behind a CRLF do not move it. */
  lemma {:induction false} CrlfStays(b: Chunk, more: Chunk)
    requires FirstCrlf(b) >= 0
    ensures FirstCrlf(b + more) == FirstCrlf(b)
  {
    if !(b[0] == CR && b[1] == LF) {
      CrlfStays(b[1..], more);
      assert (b + more)[1..] == b[1..] + more;
    }
  }

  /** A line with no CRLF in it ends where its own CRLF is. */
  lemma {:induction false} LineEnds(line: Chunk, more: Chunk)
    requires FirstCrlf(line) < 0
    ensures FirstCrlf(line + CRLF + more) == |line|
  {
    var b := line + CRLF + more;
    if line != [] {
      LineEnds(line[1..], more);
      assert b[1..] == line[1..] + CRLF + more;
      if |line| == 1 {
        assert b[1] == CR;
      }
    }
  }

  /** The CRLF-terminated lines of a stream, in order, without their CRLF. */
  function Lines(b: Chunk): seq<Chunk>
    decreases |b|
  {
    var i := FirstCrlf(b);
    if i < 0 then [] else [b[..i]] + Lines(b[i + 2..])
  }

  function Terminated(lines: seq<Chunk>): Chunk {
    if lines == [] then [] else lines[0] + CRLF + Terminated(lines[1..])
  }

  /** Lines is the inverse of terminating lines with CRLF. */
  lemma {:induction false} LinesRoundTrip(lines: seq<Chunk>, tail: Chunk)
    requires (forall i :: 0 <= i < |lines| ==> FirstCrlf(lines[i]) < 0) && FirstCrlf(tail) < 0
    ensures Lines(Terminated(lines) + tail) == lines
  {
    var b := Terminated(lines) + tail;
    if lines == [] {
      assert b == tail;
    } else {
      var rest := Terminated(lines[1..]) + tail;
      assert b == lines[0] + CRLF + rest;
      LineEnds(lines[0], rest);
      assert b[..|lines[0]|] == lines[0] && b[|lines[0]| + 2..] == rest;
      LinesRoundTrip(lines[1..], tail);
    }
  }

  /**
   * The lines up to the first that ends the session, that one included; `ends` says whether handling
   * a line, the `k`-th of the connection, does.
   */
  function UpToQuit(lines: seq<Chunk>, k: nat, ends: (nat, Chunk) -> bool): seq<Chunk> {
    if lines == [] then []
    else if ends(k, lines[0]) then [lines[0]]
    else [lines[0]] + UpToQuit(lines[1..], k + 1, ends)
  }

  lemma UpToQuitCons(line: Chunk, tail: seq<Chunk>, k: nat, ends: (nat, Chunk) -> bool)
    requires !ends(k, line)
    ensures UpToQuit([line] + tail, k, ends) == [line] + UpToQuit(tail, k + 1, ends)
  {
    assert ([line] + tail)[1..] == tail;
  }

  lemma {:induction false} UpToQuitSplit(done: seq<Chunk>, rest: seq<Chunk>, k: nat, ends: (nat, Chunk) -> bool)
    requires forall i :: 0 <= i < |done| ==> !ends(k + i, done[i])
    ensures UpToQuit(done + rest, k, ends) == done + UpToQuit(rest, k + |done|, ends)
    decreases |done|
  {
    if done == [] {
      assert done + rest == rest;
    } else {
      var tail := done[1..];
      forall i | 0 <= i < |tail| ensures !ends(k + 1 + i, tail[i]) {
        assert !ends(k + (i + 1), done[i + 1]);
      }
      UpToQuitSplit(tail, rest, k + 1, ends);
      assert !ends(k + 0, done[0]);
      UpToQuitCons(done[0], tail + rest, k, ends);
      assert done + rest == [done[0]] + (tail + rest);
      assert [done[0]] + (tail + UpToQuit(rest, k + |done|, ends)) == done + UpToQuit(rest, k + |done|, ends);
    }
  }

  /** The segments received before the connection closes: an empty receive is the end. */
  function Received(segments: seq<Chunk>): Chunk {
    if segments == [] || segments[0] == [] then [] else segments[0] + Received(segments[1..])
  }

  lemma CutBehind(buffer: Chunk, rest: Chunk, k: nat)
    requires k <= |buffer|
    ensures (buffer + rest)[..k] == buffer[..k] && (buffer + rest)[k..] == buffer[k..] + rest
  {
  }

  /** The next line of a buffer, with `rest` still to arrive. */
  lemma NextLine(buffer: Chunk, rest: Chunk)
    requires FirstCrlf(buffer) >= 0
    ensures var i := FirstCrlf(buffer);
      Lines(buffer + rest) == [buffer[..i]] + Lines(buffer[i + 2..] + rest)
  {
    CrlfStays(buffer, rest);
    CutBehind(buffer, rest, FirstCrlf(buffer));
    CutBehind(buffer, rest, FirstCrlf(buffer) + 2);
  }

  /** `handled` are the lines of `all` handled so far, none of which ended the session, and `rest` is still to be cut. */
  ghost predicate Handles(all: Chunk, handled: seq<Chunk>, rest: Chunk, ends: (nat, Chunk) -> bool) {
    Lines(all) == handled + Lines(rest) && forall i :: 0 <= i < |handled| ==> !ends(i, handled[i])
  }

  /** One line more of a sequence of lines. */
  lemma HandleOne(lines: seq<Chunk>, handled: seq<Chunk>, line: Chunk, tail: seq<Chunk>, ends: (nat, Chunk) -> bool)
    requires lines == handled + ([line] + tail)
    requires forall i :: 0 <= i < |handled| ==> !ends(i, handled[i])
    ensures lines == handled + [line] + tail
    ensures ends(|handled|, line) ==> UpToQuit(lines, 0, ends) == handled + [line]
  {
    UpToQuitSplit(handled, [line] + tail, 0, ends);
  }

  lemma HandleLine(all: Chunk, handled: seq<Chunk>, buffer: Chunk, rest: Chunk, ends: (nat, Chunk) -> bool)
    requires FirstCrlf(buffer) >= 0 && Handles(all, handled, buffer + rest, ends)
    ensures var i := FirstCrlf(buffer);
      if ends(|handled|, buffer[..i]) then UpToQuit(Lines(all), 0, ends) == handled + [buffer[..i]]
      else Handles(all, handled + [buffer[..i]], buffer[i + 2..] + rest, ends)
  {
    var i := FirstCrlf(buffer);
    NextLine(buffer, rest);
    HandleOne(Lines(all), handled, buffer[..i], Lines(buffer[i + 2..] + rest), ends);
  }

  lemma HandleStart(all: Chunk, ends: (nat, Chunk) -> bool)
    ensures Handles(all, [], [] + all, ends)
  {
    assert [] + all == all && [] + Lines(all) == Lines(all);
  }

  lemma HandleEnd(all: Chunk, handled: seq<Chunk>, buffer: Chunk, rest: Chunk, ends: (nat, Chunk) -> bool)
    requires FirstCrlf(buffer) < 0 && rest == [] && Handles(all, handled, buffer + rest, ends)
    ensures handled == UpToQuit(Lines(all), 0, ends)
  {
    assert buffer + rest == buffer;
    UpToQuitSplit(handled, [], 0, ends);
    assert handled + [] == handled;
  }

  /** A segment arrives: it moves from what is still to come to the buffer's end. */
  lemma Arrival(segments: seq<Chunk>, k: nat, buffer: Chunk)
    requires k < |segments| && segments[k] != []
    ensures buffer + Received(segments[k..]) == buffer + segments[k] + Received(segments[k + 1..])
  {
    assert segments[k..][1..] == segments[k + 1..];
  }

  class ClientHandler {
    var buffer: Chunk

    constructor ()
      ensures buffer == []
    {
      buffer := [];
    }

    /** Handle every whole line in the buffer, or those up to one that ends the session. */
    method Drain(ends: (nat, Chunk) -> bool, before: seq<Chunk>, ghost all: Chunk, ghost rest: Chunk)
      returns (handled: seq<Chunk>, quit: bool)
      requires Handles(all, before, buffer + rest, ends)
      modifies this
      ensures quit ==> handled == UpToQuit(Lines(all), 0, ends)
      ensures !quit ==> FirstCrlf(buffer) < 0 && Handles(all, handled, buffer + rest, ends)
    {
      handled := before;
      while FirstCrlf(buffer) >= 0
        invariant Handles(all, handled, buffer + rest, ends)
        decreases |buffer|
      {
        HandleLine(all, handled, buffer, rest, ends);
        var i := FirstCrlf(buffer);
        var line := buffer[..i];
        buffer := buffer[i + 2..];
        handled := handled + [line];
        if ends(|handled| - 1, line) {
          return handled, true;
        }
      }
      quit := false;
    }

    /** The server's read loop: the lines it handles, in order. */
    method Run(segments: seq<Chunk>, ends: (nat, Chunk) -> bool) returns (handled: seq<Chunk>)
      requires buffer == []
      modifies this
      ensures handled == UpToQuit(Lines(Received(segments)), 0, ends)
    {
      handled := [];
      var k := 0;
      ghost var all := Received(segments);
      assert segments[0..] == segments;
      HandleStart(all, ends);
      while k < |segments| && segments[k] != []
        invariant k <= |segments| && FirstCrlf(buffer) < 0
        invariant Handles(all, handled, buffer + Received(segments[k..]), ends)
      {
        Arrival(segments, k, buffer);
        buffer := buffer + segments[k];
        k := k + 1;
        var quit;
        handled, quit := Drain(ends, handled, all, Received(segments[k..]));
        if quit {
          return;
        }
      }
      HandleEnd(all, handled, buffer, Received(segments[k..]), ends);
    }
  }

  /** Segmentation does not matter: only the joined stream does. */
  lemma {:induction false} ReceivedJoins(segments: seq<Chunk>)
    requires forall i :: 0 <= i < |segments| ==> segments[i] != []
    ensures Received(segments) == Flatten(segments)
  {
    if segments != [] {
      ReceivedJoins(segments[1..]);
    }
  }

  predicate IsDigit(b: byte) {
    48 <= b <= 57
  }

  /** A line that opens a multi-line reply: three digits and a hyphen. */
  predicate OpensBlock(line: Chunk) {
    |line| >= 4 && IsDigit(line[0]) && IsDigit(line[1]) && IsDigit(line[2]) && line[3] == 45
  }

  /** A line that closes the multi-line reply opened by `first`: the same digits and a space. */
  predicate ClosesBlock(first: Chunk, line: Chunk)
    requires |first| >= 3
  {
    first[..3] + [32] <= line
  }

  datatype MaybeBytes = Closed | Got(bytes: Chunk)

  /** The first line of a stream, with its CRLF, and what is behind it. */
  function LineOf(b: Chunk): (MaybeBytes, Chunk) {
    var i := FirstCrlf(b);
    if i < 0 then (Closed, b) else (Got(b[..i + 2]), b[i + 2..])
  }

  /** Lines already read, put before what the rest of a block gives. */
  function AddLines(lines: Chunk, r: (MaybeBytes, Chunk)): (MaybeBytes, Chunk) {
    (if r.0.Closed? then Closed else Got(lines + r.0.bytes), r.1)
  }

  /** The rest of a multi-line reply, to its closing line. */
  function BlockOf(first: Chunk, b: Chunk): (MaybeBytes, Chunk)
    requires |first| >= 3
    decreases |b|
  {
    var (line, rest) := LineOf(b);
    if line.Closed? then (Closed, rest)
    else if ClosesBlock(first, line.bytes) then (line, rest)
    else
      AddLines(line.bytes, BlockOf(first, rest))
  }

  /** The first reply of a stream, and what is behind it. */
  function ReplyOf(b: Chunk): (MaybeBytes, Chunk) {
    var (first, rest) := LineOf(b);
    if first.Closed? || !OpensBlock(first.bytes) then (first, rest)
    else
      AddLines(first.bytes, BlockOf(first.bytes, rest))
  }

  /** The first line of a buffer, with `rest` still to arrive. */
  lemma TakeLine(buffer: Chunk, rest: Chunk, stream: Chunk)
    requires FirstCrlf(buffer) >= 0 && stream == buffer + rest
    ensures var i := FirstCrlf(buffer);
      && i + 2 <= |stream| && stream[i + 2..] == buffer[i + 2..] + rest
      && LineOf(stream) == (Got(buffer[..i + 2]), stream[i + 2..])
  {
    CrlfStays(buffer, rest);
    CutBehind(buffer, rest, FirstCrlf(buffer) + 2);
  }

  /** A segment is pulled: the unread stream stays the same. */
  lemma Pulled(segments: seq<Chunk>, k: nat, buffer: Chunk)
    requires k < |segments|
    ensures buffer + Flatten(segments[k..]) == buffer + segments[k] + Flatten(segments[k + 1..])
  {
    FlattenSplit(segments, k);
  }

  class ControlConnection {
    const segments: seq<Chunk>
    var next: nat
    var buffer: Chunk
    ghost var stream: Chunk

    constructor (segments: seq<Chunk>)
      requires forall i :: 0 <= i < |segments| ==> segments[i] != []
      ensures Valid() && stream == Flatten(segments)
    {
      this.segments, next, buffer, stream := segments, 0, [], Flatten(segments);
      new;
      assert segments[0..] == segments;
    }

    /** `stream` is what is buffered and what is still to arrive. */
    ghost predicate Valid()
      reads this
    {
      next <= |segments| && stream == buffer + Flatten(segments[next..])
    }

    method RecvLine() returns (line: MaybeBytes)
      requires Valid()
      modifies this
      ensures Valid() && (line, stream) == LineOf(old(stream))
    {
      while FirstCrlf(buffer) < 0
        invariant Valid() && stream == old(stream)
        decreases |segments| - next
      {
        if next == |segments| {
          assert stream == buffer + [] == buffer;
          return Closed;
        }
        Pulled(segments, next, buffer);
        buffer := buffer + segments[next];
        next := next + 1;
      }
      var i := FirstCrlf(buffer);
      TakeLine(buffer, Flatten(segments[next..]), stream);
      line := Got(buffer[..i + 2]);
      buffer := buffer[i + 2..];
      stream := stream[i + 2..];
    }

    /** One reply, multi-line or not; a connection that closes inside it is an error. */
    method RecvReply() returns (reply: MaybeBytes)
      requires Valid()
      modifies this
      ensures Valid() && (reply, stream) == ReplyOf(old(stream))
    {
      var first := RecvLine();
      if first.Closed? || !OpensBlock(first.bytes) {
        return first;
      }
      ghost var whole := ReplyOf(old(stream));
      var lines := first.bytes;
      while true
        invariant Valid()
        invariant whole == AddLines(lines, BlockOf(first.bytes, stream))
        decreases |stream|
      {
        ghost var before := stream;
        var line := RecvLine();
        if line.Closed? {
          return Closed;
        }
        lines := lines + line.bytes;
        if ClosesBlock(first.bytes, line.bytes) {
          break;
        }
        AddLinesTwice(lines[..|lines| - |line.bytes|], line.bytes, BlockOf(first.bytes, stream));
        assert lines[..|lines| - |line.bytes|] + line.bytes == lines;
      }
      reply := Got(lines);
    }
  }

  lemma AddLinesTwice(a: Chunk, b: Chunk, r: (MaybeBytes, Chunk))
    ensures AddLines(a, AddLines(b, r)) == AddLines(a + b, r)
  {
    if r.0.Got? {
      assert a + (b + r.0.bytes) == a + b + r.0.bytes;
    }
  }

  /** A reply as the server composes it, section 4.2 of RFC 959. */
  datatype Reply = Single(line: Chunk) | Block(first: Chunk, middle: seq<Chunk>, last: Chunk)

  /** Three digits, from 0x30 to 0x39, and a hyphen, 0x2D; a block is closed by its digits and a space, 0x20. */
  predicate IsWellFormed(r: Reply) {
    match r
    case Single(line) =>
      FirstCrlf(line) < 0 && !(|line| >= 4 && (forall i :: 0 <= i < 3 ==> 0x30 <= line[i] <= 0x39) && line[3] == 0x2D)
    case Block(first, middle, last) =>
      && FirstCrlf(first) < 0 && |first| >= 4 && (forall i :: 0 <= i < 3 ==> 0x30 <= first[i] <= 0x39) && first[3] == 0x2D
      && (forall i :: 0 <= i < |middle| ==> FirstCrlf(middle[i]) < 0 && !(first[..3] + [0x20] <= middle[i]))
      && FirstCrlf(last) < 0 && first[..3] + [0x20] <= last
  }

  function ReplyBytes(r: Reply): Chunk {
    match r
    case Single(line) => line + CRLF
    case Block(first, middle, last) => first + CRLF + (Terminated(middle) + (last + CRLF))
  }

  lemma LineReads(line: Chunk, more: Chunk)
    requires FirstCrlf(line) < 0
    ensures LineOf(line + CRLF + more) == (Got(line + CRLF), more)
  {
    LineEnds(line, more);
    var b := line + CRLF + more;
    assert b[..|line| + 2] == line + CRLF && b[|line| + 2..] == more;
  }

  /** A line inside a block, and the line that closes it. */
  lemma BlockLine(opening: Chunk, line: Chunk, more: Chunk)
    requires |opening| >= 3 && FirstCrlf(line) < 0
    ensures BlockOf(opening, line + CRLF + more) ==
      if ClosesBlock(opening, line + CRLF) then (Got(line + CRLF), more)
      else AddLines(line + CRLF, BlockOf(opening, more))
  {
    LineReads(line, more);
  }

  lemma {:induction false} BlockReads(opening: Chunk, middle: seq<Chunk>, last: Chunk, more: Chunk)
    requires |opening| >= 3 && FirstCrlf(last) < 0 && ClosesBlock(opening, last + CRLF)
    requires forall i :: 0 <= i < |middle| ==> FirstCrlf(middle[i]) < 0 && !ClosesBlock(opening, middle[i] + CRLF)
    ensures BlockOf(opening, Terminated(middle) + (last + CRLF) + more)
         == (Got(Terminated(middle) + (last + CRLF)), more)
  {
    if middle == [] {
      BlockLine(opening, last, more);
      assert Terminated(middle) + (last + CRLF) == last + CRLF;
    } else {
      var inner := Terminated(middle[1..]) + (last + CRLF);
      assert Terminated(middle) + (last + CRLF) == middle[0] + CRLF + inner;
      assert middle[0] + CRLF + inner + more == middle[0] + CRLF + (inner + more);
      BlockLine(opening, middle[0], inner + more);
      BlockReads(opening, middle[1..], last, more);
    }
  }

  /** A well-formed reply at the front of a stream is read whole, and nothing behind it is touched. */
  lemma ReplyReads(r: Reply, more: Chunk)
    requires IsWellFormed(r)
    ensures ReplyOf(ReplyBytes(r) + more) == (Got(ReplyBytes(r)), more)
  {
    match r
    case Single(line) => LineReads(line, more);
    case Block(first, middle, last) =>
      var tail := Terminated(middle) + (last + CRLF);
      assert ReplyBytes(r) + more == first + CRLF + (tail + more);
      LineReads(first, tail + more);
      assert (first + CRLF)[..3] == first[..3];
      forall i | 0 <= i < |middle| ensures !ClosesBlock(first + CRLF, middle[i] + CRLF) {
        StaysOpen(first, middle[i]);
      }
      assert ClosesBlock(first + CRLF, last + CRLF);
      BlockReads(first + CRLF, middle, last, more);
  }

  /** A line that does not close a block without its CRLF does not with it. */
  lemma StaysOpen(first: Chunk, line: Chunk)
    requires |first| >= 4 && !(first[..3] + [0x20] <= line)
    ensures !ClosesBlock(first + CRLF, line + CRLF)
  {
    var closing, b := first[..3] + [0x20], line + CRLF;
    assert (first + CRLF)[..3] == first[..3] && closing[3] == 0x20;
    assert |line| < 4 && |b| >= 4 ==> b[3] != 0x20;
    assert |line| >= 4 ==> b[..4] == line[..4];
  }

  lemma {:induction false} BlockCut(opening: Chunk, middle: seq<Chunk>, tail: Chunk)
    requires |opening| >= 3 && FirstCrlf(tail) < 0
    requires forall i :: 0 <= i < |middle| ==> FirstCrlf(middle[i]) < 0 && !ClosesBlock(opening, middle[i] + CRLF)
    ensures BlockOf(opening, Terminated(middle) + tail) == (Closed, tail)
  {
    if middle == [] {
      assert Terminated(middle) + tail == tail;
    } else {
      var rest := Terminated(middle[1..]) + tail;
      assert Terminated(middle) + tail == middle[0] + CRLF + rest;
      BlockLine(opening, middle[0], rest);
      BlockCut(opening, middle[1..], tail);
    }
  }

  /** A connection that closes inside a multi-line reply gives no reply, whatever lines of it have come. */
  lemma CutReplyIsError(first: Chunk, middle: seq<Chunk>, tail: Chunk)
    requires FirstCrlf(first) < 0 && |first| >= 4 && (forall i :: 0 <= i < 3 ==> 0x30 <= first[i] <= 0x39) && first[3] == 0x2D
    requires forall i :: 0 <= i < |middle| ==> FirstCrlf(middle[i]) < 0 && !(first[..3] + [0x20] <= middle[i])
    requires FirstCrlf(tail) < 0
    ensures ReplyOf(first + CRLF + (Terminated(middle) + tail)) == (Closed, tail)
  {
    LineReads(first, Terminated(middle) + tail);
    forall i | 0 <= i < |middle| ensures !ClosesBlock(first + CRLF, middle[i] + CRLF) {
      StaysOpen(first, middle[i]);
    }
    BlockCut(first + CRLF, middle, tail);
  }

  function Stream(rs: seq<Reply>): Chunk {
    if rs == [] then [] else ReplyBytes(rs[0]) + Stream(rs[1..])
  }

  /** Reading `n` replies one after the other: those got, and what is left of the stream. */
  function ReadReplies(b: Chunk, n: nat): (seq<MaybeBytes>, Chunk)
    decreases n
  {
    if n == 0 then ([], b)
    else
      var (first, rest) := ReplyOf(b);
      var (others, rest') := ReadReplies(rest, n - 1);
      ([first] + others, rest')
  }

  function AllBytes(rs: seq<Reply>): seq<MaybeBytes> {
    if rs == [] then [] else [Got(ReplyBytes(rs[0]))] + AllBytes(rs[1..])
  }

  /** Repeated reading returns exactly the replies that were sent, and loses no byte behind them. */
  lemma {:induction false} RepliesRoundTrip(rs: seq<Reply>, tail: Chunk)
    requires forall i :: 0 <= i < |rs| ==> IsWellFormed(rs[i])
    ensures ReadReplies(Stream(rs) + tail, |rs|)
         == (AllBytes(rs), tail)
  {
    if rs == [] {
      assert Stream(rs) + tail == tail;
    } else {
      var rest := Stream(rs[1..]) + tail;
      assert Stream(rs) + tail == ReplyBytes(rs[0]) + rest;
      ReplyReads(rs[0], rest);
      RepliesRoundTrip(rs[1..], tail);
    }
  }
}
