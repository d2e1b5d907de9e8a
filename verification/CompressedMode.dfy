/** MODE C: section 3.4.3 of RFC 959, literals, repeated bytes, filler runs and the EOF escape. */
module CompressedMode {
  import opened Bytes
  import opened ChunkFeed

  const MAX_LITERAL: nat := 127
  const MAX_RUN: nat := 63
  const EOF_ESCAPE: Chunk := [0x00, 0x40]

  /** TYPE A or TYPE I. */
  datatype Representation = Ascii | Image

  /** The byte that a filler run stands for. */
  function FillerOf(t: Representation): byte {
    if t.Ascii? then 0x20 else 0x00
  }

  /** One unit of the compressed stream. */
  datatype Primitive =
    | Literal(data: Chunk)
    | Repeated(value: byte, count: nat)
    | Filler(count: nat)

  predicate IsRun(p: Primitive) {
    !p.Literal?
  }

  predicate NoEqualNeighbours(data: Chunk) {
    forall i :: 0 <= i < |data| - 1 ==> data[i] != data[i + 1]
  }

  /** What the wire format can hold. */
  predicate IsWritable(p: Primitive) {
    match p
    case Literal(data) => 1 <= |data| <= 127
    case Repeated(_, count) => 1 <= count <= 63
    case Filler(count) => 1 <= count <= 63
  }

  /** What the encoder may emit: runs are worth their cost, and literals hold nothing a run would save. */
  predicate IsPrimitive(p: Primitive, filler: byte) {
    && IsWritable(p)
    && match p
       case Literal(data) => NoEqualNeighbours(data)
       case Repeated(value, count) => 2 <= count && value != filler
       case Filler(count) => 2 <= count
  }

  predicate ArePrimitives(ps: seq<Primitive>, filler: byte) {
    forall i :: 0 <= i < |ps| ==> IsPrimitive(ps[i], filler)
  }

  function Copies(value: byte, count: nat): (r: Chunk)
    ensures |r| == count && forall i :: 0 <= i < count ==> r[i] == value
  {
    seq(count, i => value)
  }

  /** The bytes that a primitive stands for. */
  function Meaning(p: Primitive, filler: byte): Chunk {
    match p
    case Literal(data) => data
    case Repeated(value, count) => Copies(value, count)
    case Filler(count) => Copies(filler, count)
  }

  /** The bytes that a primitive is written as. */
  function Wire(p: Primitive): Chunk
    requires IsWritable(p)
  {
    match p
    case Literal(data) => [|data|] + data
    case Repeated(value, count) => [0x80 + count, value]
    case Filler(count) => [0xC0 + count]
  }

  function Meanings(ps: seq<Primitive>, filler: byte): Chunk {
    if ps == [] then [] else Meaning(ps[0], filler) + Meanings(ps[1..], filler)
  }

  function Wires(ps: seq<Primitive>, filler: byte): seq<Chunk>
    requires ArePrimitives(ps, filler)
  {
    if ps == [] then [] else [Wire(ps[0])] + Wires(ps[1..], filler)
  }

  lemma {:induction false} AppendWire(ps: seq<Primitive>, p: Primitive, filler: byte)
    requires ArePrimitives(ps, filler) && IsPrimitive(p, filler)
    ensures Wires(ps + [p], filler) == Wires(ps, filler) + [Wire(p)]
  {
    if ps == [] {
      assert ps + [p] == [p];
    } else {
      AppendWire(ps[1..], p, filler);
      assert (ps + [p])[1..] == ps[1..] + [p];
    }
  }

  lemma {:induction false} AppendMeaning(ps: seq<Primitive>, p: Primitive, filler: byte)
    ensures Meanings(ps + [p], filler) == Meanings(ps, filler) + Meaning(p, filler)
  {
    if ps == [] {
      assert ps + [p] == [p];
      assert Meanings([p], filler) == Meaning(p, filler) + Meanings([], filler);
    } else {
      AppendMeaning(ps[1..], p, filler);
      assert (ps + [p])[1..] == ps[1..] + [p];
      Regroup(Meaning(ps[0], filler), Meanings(ps[1..], filler), Meaning(p, filler));
    }
  }

  /**
   * Where a short literal may stand. The encoder stops one early only before two equal
   * bytes, which the next primitive makes a run, or before the very last byte.
   */
  predicate IsSettled(ps: seq<Primitive>, i: nat, rest: Chunk)
    requires i < |ps|
  {
    ps[i].Literal? && |ps[i].data| < 127 ==>
      if i + 1 < |ps| then
        || IsRun(ps[i + 1])
        || (i + 2 == |ps| && ps[i + 1].Literal? && |ps[i + 1].data| == 1 && rest == [])
      else
        |rest| <= 1 || rest[0] == rest[1]
  }

  /** `rest` is the input still to be encoded after `ps`. */
  predicate IsShaped(ps: seq<Primitive>, rest: Chunk) {
    forall i :: 0 <= i < |ps| ==> IsSettled(ps, i, rest)
  }

  /** `out` is what `ps` is written as, before the EOF escape, and `ps` is a shaped writing of `data`. */
  ghost predicate IsWriting(ps: seq<Primitive>, out: seq<Chunk>, data: Chunk, filler: byte) {
    && ArePrimitives(ps, filler)
    && out == Wires(ps, filler) + [EOF_ESCAPE]
    && Meanings(ps, filler) == data
    && IsShaped(ps, [])
  }

  /** `out` is a compressed writing of `data`: the input's chunking decides which one. */
  ghost predicate IsCompressed(out: seq<Chunk>, data: Chunk, filler: byte) {
    exists ps: seq<Primitive> :: IsWriting(ps, out, data, filler)
  }

  /** `k` bytes are those of the first few chunks, whole. */
  ghost predicate IsChunkEnd(chunks: seq<Chunk>, k: int) {
    exists m :: 0 <= m <= |chunks| && k == |Flatten(chunks[..m])|
  }

  /**
   * Where a primitive may end: a literal not before a byte equal to its last one, and a run shorter than
   * 63 not before a further byte of its own, unless a chunk of the input ends there.
   */
  ghost predicate EndsWell(p: Primitive, k: int, chunks: seq<Chunk>, filler: byte) {
    var data := Flatten(chunks);
    0 <= k < |data| ==>
      match p
      case Literal(bytes) => bytes != [] ==> data[k] != bytes[|bytes| - 1]
      case Repeated(value, count) => count < 63 ==> data[k] != value || IsChunkEnd(chunks, k)
      case Filler(count) => count < 63 ==> data[k] != filler || IsChunkEnd(chunks, k)
  }

  /** The primitives are greedy: each goes on as far as the encoder can see. */
  ghost predicate IsGreedy(ps: seq<Primitive>, chunks: seq<Chunk>, filler: byte) {
    forall i :: 0 <= i < |ps| ==> EndsWell(ps[i], |Meanings(ps[..i + 1], filler)|, chunks, filler)
  }

  /** What the encoder writes for an input in these chunks. */
  ghost predicate IsEncoderOutput(out: seq<Chunk>, chunks: seq<Chunk>, filler: byte) {
    exists ps: seq<Primitive> :: IsWriting(ps, out, Flatten(chunks), filler) && IsGreedy(ps, chunks, filler)
  }

  /**
   * Shape before the input's end is known: a short literal stands only before a run, already
   * written or at the front of `rest`.
   */
  predicate IsOpen(ps: seq<Primitive>, rest: Chunk) {
    forall i :: 0 <= i < |ps| ==> IsOpenAt(ps, i, rest)
  }

  predicate IsOpenAt(ps: seq<Primitive>, i: nat, rest: Chunk)
    requires i < |ps|
  {
    ps[i].Literal? && |ps[i].data| < 127 ==>
      if i + 1 < |ps| then IsRun(ps[i + 1]) else |rest| >= 2 && rest[0] == rest[1]
  }

  /**
   * An encoder cut short by its source has written primitives for a front part of the data, and
   * nothing in them depends on where the input would have ended. It keeps back no more than a
   * literal and the two bytes behind it need.
   */
  ghost predicate IsCutShort(out: seq<Chunk>, data: Chunk, filler: byte) {
    exists ps: seq<Primitive>, rest: Chunk ::
      && ArePrimitives(ps, filler) && out == Wires(ps, filler) && data == Meanings(ps, filler) + rest
      && IsOpen(ps, rest) && |rest| <= 128
  }

  /** Lengthen a run of bytes equal to the first one, as far as the buffer and the limit go. */
  method ExtendRun(buffer: Chunk, start: nat) returns (run: nat)
    requires 1 <= start <= |buffer| && start <= MAX_RUN
    requires forall i :: 0 <= i < start ==> buffer[i] == buffer[0]
    ensures start <= run <= |buffer| && run <= MAX_RUN
    ensures forall i :: 0 <= i < run ==> buffer[i] == buffer[0]
    ensures run < MAX_RUN && run < |buffer| ==> buffer[run] != buffer[0]
  {
    run := start;
    while run < MAX_RUN && run < |buffer| && buffer[run] == buffer[0]
      invariant start <= run <= |buffer| && run <= MAX_RUN
      invariant forall i :: 0 <= i < run ==> buffer[i] == buffer[0]
    {
      run := run + 1;
    }
  }

  /** The length of the literal at the front of the buffer: up to the next two equal bytes. */
  method ScanLiteral(buffer: Chunk) returns (count: nat)
    requires |buffer| >= 1 && (|buffer| >= 2 ==> buffer[0] != buffer[1])
    ensures 1 <= count <= MAX_LITERAL && count <= |buffer|
    ensures NoEqualNeighbours(buffer[..count])
    ensures count == MAX_LITERAL || |buffer| - count <= 1 || buffer[count] == buffer[count + 1]
    ensures count < |buffer| ==> buffer[count] != buffer[count - 1]
  {
    count := 1;
    while count < MAX_LITERAL && count + 1 < |buffer|
      invariant 1 <= count <= MAX_LITERAL && count <= |buffer|
      invariant forall i :: 0 <= i < count && i + 1 < |buffer| ==> buffer[i] != buffer[i + 1]
    {
      if buffer[count] == buffer[count + 1] {
        break;
      }
      count := count + 1;
    }
  }

  /** `ps` has been written out, and `rest` is what remains of `data`. */
  ghost predicate IsWritten(ps: seq<Primitive>, out: seq<Chunk>, data: Chunk, rest: Chunk, filler: byte) {
    && ArePrimitives(ps, filler)
    && out == Wires(ps, filler)
    && data == Meanings(ps, filler) + rest
    && IsShaped(ps, rest)
  }

  /** What one turn of the encoder's loop promises about the primitive it takes off the input. */
  ghost predicate IsNext(p: Primitive, rest: Chunk, rest': Chunk, filler: byte) {
    && IsPrimitive(p, filler)
    && rest == Meaning(p, filler) + rest'
    && (|rest| >= 2 && rest[0] == rest[1] ==> IsRun(p))
    && (p.Literal? && |p.data| < MAX_LITERAL ==> |rest'| <= 1 || rest'[0] == rest'[1])
  }

  /** What it promises besides when the source will raise: nothing is taken for the input's end. */
  ghost predicate IsNextOpen(p: Primitive, rest: Chunk, rest': Chunk) {
    && (|rest| >= 2 && rest[0] == rest[1] ==> IsRun(p))
    && (p.Literal? && |p.data| < MAX_LITERAL ==> |rest'| >= 2 && rest'[0] == rest'[1])
  }

  lemma OpenStep(ps: seq<Primitive>, rest: Chunk, p: Primitive, rest': Chunk)
    requires IsOpen(ps, rest) && IsNextOpen(p, rest, rest')
    ensures IsOpen(ps + [p], rest')
  {
    var qs := ps + [p];
    forall i | 0 <= i < |qs| ensures IsOpenAt(qs, i, rest') {
      if i < |ps| {
        assert IsOpenAt(ps, i, rest);
      }
    }
  }

  /**
   * And how far it goes: up to a byte that differs, the longest run or literal there is, or the input's end;
   * for a run also the end of what is buffered.
   */
  ghost predicate IsNextGreedy(p: Primitive, rest': Chunk, drained: bool, filler: byte) {
    rest' != [] ==>
      match p
      case Literal(bytes) => bytes != [] ==> rest'[0] != bytes[|bytes| - 1]
      case Repeated(value, count) => count < 63 ==> rest'[0] != value || drained
      case Filler(count) => count < 63 ==> rest'[0] != filler || drained
  }

  /** Where the buffer is drained a chunk ends. */
  lemma DrainedAtChunkEnd(chunks: seq<Chunk>, next: nat, rest: Chunk)
    requires next <= |chunks| && rest == Flatten(chunks[next..])
    ensures IsChunkEnd(chunks, |Flatten(chunks)| - |rest|)
  {
    FlattenConcat(chunks[..next], chunks[next..]);
    assert chunks[..next] + chunks[next..] == chunks;
  }

  lemma GreedyStep(ps: seq<Primitive>, chunks: seq<Chunk>, rest: Chunk, p: Primitive, rest': Chunk, drained: bool, filler: byte)
    requires Flatten(chunks) == Meanings(ps, filler) + rest && rest == Meaning(p, filler) + rest'
    requires IsGreedy(ps, chunks, filler) && IsNextGreedy(p, rest', drained, filler)
    requires drained ==> IsChunkEnd(chunks, |Flatten(chunks)| - |rest'|)
    ensures IsGreedy(ps + [p], chunks, filler)
  {
    var qs, data := ps + [p], Flatten(chunks);
    AppendMeaning(ps, p, filler);
    Regroup(Meanings(ps, filler), Meaning(p, filler), rest');
    forall i | 0 <= i < |qs| ensures EndsWell(qs[i], |Meanings(qs[..i + 1], filler)|, chunks, filler) {
      if i < |ps| {
        assert qs[..i + 1] == ps[..i + 1];
      } else {
        assert qs[..i + 1] == qs;
        assert data[|data| - |rest'|..] == rest';
      }
    }
  }

  /** Emitting one more primitive keeps the shape. */
  lemma ShapeStep(ps: seq<Primitive>, rest: Chunk, p: Primitive, rest': Chunk, filler: byte)
    requires IsShaped(ps, rest) && IsNext(p, rest, rest', filler)
    ensures IsShaped(ps + [p], rest')
  {
    var qs := ps + [p];
    forall i | 0 <= i < |qs| ensures IsSettled(qs, i, rest') {
      if i < |ps| {
        assert IsSettled(ps, i, rest);
        assert qs[i] == ps[i];
        if i + 1 == |ps| && |rest| <= 1 {
          assert |rest'| == 0;
        }
      }
    }
  }

  lemma WriteStep(ps: seq<Primitive>, out: seq<Chunk>, data: Chunk, rest: Chunk, p: Primitive, rest': Chunk, filler: byte)
    requires IsWritten(ps, out, data, rest, filler) && IsNext(p, rest, rest', filler)
    ensures IsWritten(ps + [p], out + [Wire(p)], data, rest', filler)
  {
    ShapeStep(ps, rest, p, rest', filler);
    AppendWire(ps, p, filler);
    AppendMeaning(ps, p, filler);
    assert Meanings(ps, filler) + (Meaning(p, filler) + rest') == Meanings(ps, filler) + Meaning(p, filler) + rest';
  }

  lemma WriteEnd(ps: seq<Primitive>, out: seq<Chunk>, data: Chunk, rest: Chunk, filler: byte)
    requires IsWritten(ps, out, data, rest, filler)
    ensures IsOpen(ps, rest) && |rest| <= 128 ==> IsCutShort(out, data, filler)
    ensures rest == [] ==> IsWriting(ps, out + [EOF_ESCAPE], data, filler)
  {
    assert rest == [] ==> Meanings(ps, filler) + rest == Meanings(ps, filler);
  }

  /**
   * The compressed encoder. It refills once per run and up to a literal's length plus two,
   * so what it emits depends on the chunking, but it is always a shaped writing of the input, and a
   * greedy one: only the end of a chunk can cut a run short.
   */
  method Encode(chunks: seq<Chunk>, ending: Ending, t: Representation) returns (out: seq<Chunk>, end: End)
    ensures end == if ending.Stops? then Finished else Interrupted
    ensures ending.Stops? ==> IsEncoderOutput(out, chunks, FillerOf(t))
    ensures ending.Raises? ==> IsCutShort(out, Flatten(chunks), FillerOf(t))
  {
    var feed := new Feed(chunks, ending);
    var filler := FillerOf(t);
    out := [];
    ghost var ps: seq<Primitive> := [];
    ghost var data := Flatten(chunks);
    while true
      invariant feed.Valid() && feed.chunks == chunks && feed.ending == ending
      invariant IsWritten(ps, out, data, feed.rest, filler)
      invariant ending.Raises? ==> IsOpen(ps, feed.rest)
      invariant IsGreedy(ps, chunks, filler)
      decreases |feed.rest|
    {
      ghost var rest := feed.rest;
      WriteEnd(ps, out, data, rest, filler);
      var o := feed.Fill(1);
      if o.Raised? {
        return out, Interrupted;
      }
      if o.Exhausted? {
        break;
      }
      var p, raised := NextPrimitive(feed, filler);
      if raised {
        return out, Interrupted;
      }
      WriteStep(ps, out, data, rest, p, feed.rest, filler);
      if ending.Raises? {
        OpenStep(ps, rest, p, feed.rest);
      }
      if feed.buffer == [] {
        DrainedAtChunkEnd(chunks, feed.next, feed.rest);
      }
      GreedyStep(ps, chunks, rest, p, feed.rest, feed.buffer == [], filler);
      ps := ps + [p];
      out := out + [Wire(p)];
    }
    out := out + [EOF_ESCAPE];
    end := Finished;
  }

  /** The run at the front of the buffer, looked for again after one refill if it reached the buffer's end. */
  method MeasureRun(feed: Feed) returns (run: nat, raised: bool)
    requires feed.Valid() && feed.buffer != []
    modifies feed`next, feed`buffer
    ensures feed.Valid() && old(feed.buffer) <= feed.buffer <= feed.rest
    ensures raised ==> feed.ending.Raises?
    ensures !raised ==> 1 <= run <= MAX_RUN && run <= |feed.buffer|
    ensures !raised ==> forall i :: 0 <= i < run ==> feed.rest[i] == feed.rest[0]
    ensures !raised && run == 1 ==> |feed.rest| == 1 || feed.rest[1] != feed.rest[0]
    ensures !raised && run == 1 && feed.ending.Raises? ==> |feed.rest| > 1
    ensures !raised && run < 63 ==> run == |feed.rest| || run == |feed.buffer| || feed.rest[run] != feed.rest[0]
    ensures raised ==> |feed.rest| <= 128
  {
    run := ExtendRun(feed.buffer, 1);
    raised := false;
    if run < MAX_RUN && run == |feed.buffer| {
      var o := feed.Fill(run + 1);
      if o.Raised? {
        return run, true;
      }
      if o.Enough? {
        run := ExtendRun(feed.buffer, run);
      }
    }
    assert feed.buffer <= feed.rest;
    assert forall i :: 0 <= i < |feed.buffer| ==> feed.rest[i] == feed.buffer[i];
  }

  /** The literal scanned off a buffer that holds what is left, or enough of it. */
  lemma LiteralIsNext(buffer: Chunk, rest: Chunk, count: nat, filler: byte)
    requires buffer <= rest && (buffer == rest || |buffer| >= 129) && 1 <= count <= 127 && count <= |buffer|
    requires (|rest| >= 2 ==> rest[0] != rest[1]) && NoEqualNeighbours(buffer[..count])
    requires count == 127 || |buffer| - count <= 1 || buffer[count] == buffer[count + 1]
    requires count < |buffer| ==> buffer[count] != buffer[count - 1]
    ensures var p := Literal(buffer[..count]);
      && IsNext(p, rest, rest[count..], filler)
      && IsNextGreedy(p, rest[count..], buffer[count..] == [], filler)
      && (|buffer| >= 129 ==> IsNextOpen(p, rest, rest[count..]))
  {
    assert rest[..count] == buffer[..count];
    assert forall i :: 0 <= i < |buffer| ==> rest[i] == buffer[i];
  }

  /** The literal at the front of the input, when no run is. */
  method NextLiteral(feed: Feed, filler: byte) returns (p: Primitive, raised: bool)
    requires feed.Valid() && feed.rest != [] && (|feed.rest| >= 2 ==> feed.rest[0] != feed.rest[1])
    modifies feed
    ensures feed.Valid()
    ensures raised ==> feed.ending.Raises?
    ensures !raised ==> IsNext(p, old(feed.rest), feed.rest, filler)
    ensures !raised && feed.ending.Raises? ==> IsNextOpen(p, old(feed.rest), feed.rest)
    ensures !raised ==> IsNextGreedy(p, feed.rest, feed.buffer == [], filler)
    ensures raised ==> |old(feed.rest)| <= 128
  {
    var o := feed.Fill(MAX_LITERAL + 2);
    if o.Raised? {
      return Filler(0), true;
    }
    assert feed.rest[..|feed.buffer|] == feed.buffer;
    var count := ScanLiteral(feed.buffer);
    LiteralIsNext(feed.buffer, feed.rest, count, filler);
    var literal := feed.Take(count);
    return Literal(literal), false;
  }

  /** One turn of the encoder's loop: the run or the literal at the front of the buffer. */
  method NextPrimitive(feed: Feed, filler: byte) returns (p: Primitive, raised: bool)
    requires feed.Valid() && feed.buffer != []
    modifies feed
    ensures feed.Valid()
    ensures raised ==> feed.ending.Raises?
    ensures !raised ==> IsNext(p, old(feed.rest), feed.rest, filler)
    ensures !raised && feed.ending.Raises? ==> IsNextOpen(p, old(feed.rest), feed.rest)
    ensures !raised ==> IsNextGreedy(p, feed.rest, feed.buffer == [], filler)
    ensures raised ==> |old(feed.rest)| <= 128
  {
    var value := feed.buffer[0];
    var run, cut := MeasureRun(feed);
    if cut {
      return Filler(0), true;
    }
    if run >= 2 {
      var taken := feed.Take(run);
      assert taken == Copies(value, run);
      return if value == filler then Filler(run) else Repeated(value, run), false;
    }
    p, raised := NextLiteral(feed, filler);
  }

  /** What was open before stays shaped, whatever bytes come behind. */
  lemma OpenIsShaped(ps: seq<Primitive>, rest: Chunk, more: Chunk)
    requires IsOpen(ps, rest)
    ensures IsShaped(ps, rest + more)
  {
    forall i | 0 <= i < |ps| ensures IsSettled(ps, i, rest + more) {
      assert IsOpenAt(ps, i, rest);
      if |rest| >= 2 {
        assert (rest + more)[0] == rest[0] && (rest + more)[1] == rest[1];
      }
    }
  }

  /** A literal's length at the front of `rest`, with `count` bytes known to be in it. */
  function LiteralLength(rest: Chunk, count: nat): (n: nat)
    requires 1 <= count <= MAX_LITERAL && count <= |rest|
    requires forall i :: 0 <= i < count && i + 1 < |rest| ==> rest[i] != rest[i + 1]
    ensures count <= n <= MAX_LITERAL && n <= |rest| && NoEqualNeighbours(rest[..n])
    ensures n < MAX_LITERAL ==> |rest| - n <= 1 || rest[n] == rest[n + 1]
    decreases |rest| - count
  {
    if count < MAX_LITERAL && count + 1 < |rest| && rest[count] != rest[count + 1] then LiteralLength(rest, count + 1)
    else count
  }

  /** There is always a primitive to go on with. */
  lemma NextExists(rest: Chunk, filler: byte) returns (p: Primitive, rest': Chunk)
    requires rest != []
    ensures IsNext(p, rest, rest', filler) && |rest'| < |rest|
  {
    if |rest| >= 2 && rest[0] == rest[1] {
      p, rest' := if rest[0] == filler then Filler(2) else Repeated(rest[0], 2), rest[2..];
      assert rest == Copies(rest[0], 2) + rest';
    } else {
      var n := LiteralLength(rest, 1);
      p, rest' := Literal(rest[..n]), rest[n..];
    }
  }

  /** What is written and shaped so far can be finished. */
  lemma {:induction false} CanFinish(ps: seq<Primitive>, data: Chunk, rest: Chunk, filler: byte) returns (qs: seq<Primitive>)
    requires ArePrimitives(ps, filler) && IsWritten(ps, Wires(ps, filler), data, rest, filler)
    ensures ArePrimitives(qs, filler) && IsWritten(qs, Wires(qs, filler), data, [], filler) && ps <= qs
    decreases |rest|
  {
    if rest == [] {
      qs := ps;
    } else {
      var p, rest' := NextExists(rest, filler);
      WriteStep(ps, Wires(ps, filler), data, rest, p, rest', filler);
      AppendWire(ps, p, filler);
      qs := CanFinish(ps + [p], data, rest', filler);
    }
  }

  /** What the encoder writes for `n` copies of one byte in one chunk: runs of 63, then what is left over. */
  function UniformWire(value: byte, n: nat, filler: byte): seq<Chunk> {
    if n == 0 then []
    else if n == 1 then [[1, value]]
    else
      var count := if n < 63 then n else 63;
      [if value == filler then [0xC0 + count] else [0x80 + count, value]] + UniformWire(value, n - count, filler)
  }

  lemma EqualBytesAreNeighbours(data: Chunk, value: byte)
    requires |data| >= 2 && forall i :: 0 <= i < |data| ==> data[i] == value
    ensures !NoEqualNeighbours(data)
  {
    assert data[0] == data[1];
  }

  /** Chunk ends of a single chunk are its two ends. */
  lemma SingleChunkEnd(chunk: Chunk, k: int)
    requires IsChunkEnd([chunk], k)
    ensures k == 0 || k == |chunk|
  {
    FlattenOne(chunk);
    assert [chunk][..1] == [chunk] && [chunk][..0] == [];
  }

  /** In one chunk of equal bytes a primitive ends behind 63 of them, or at the end. */
  lemma UniformPrimitive(p: Primitive, value: byte, n: nat, k: nat, filler: byte)
    requires IsPrimitive(p, filler) && k + |Meaning(p, filler)| <= n
    requires forall i :: 0 <= i < |Meaning(p, filler)| ==> Meaning(p, filler)[i] == value
    requires EndsWell(p, k + |Meaning(p, filler)|, [Copies(value, n)], filler)
    ensures k + |Meaning(p, filler)| < n ==> |Meaning(p, filler)| == 63 && IsRun(p)
    ensures |Meaning(p, filler)| <= 63
    ensures Wire(p) == if |Meaning(p, filler)| == 1 then [1, value]
                       else if value == filler then [0xC0 + |Meaning(p, filler)|]
                       else [0x80 + |Meaning(p, filler)|, value]
  {
    var len, end := |Meaning(p, filler)|, k + |Meaning(p, filler)|;
    FlattenOne(Copies(value, n));
    if IsChunkEnd([Copies(value, n)], end) {
      SingleChunkEnd(Copies(value, n), end);
    }
    if p.Literal? {
      if |p.data| >= 2 {
        EqualBytesAreNeighbours(p.data, value);
        assert false;
      }
      assert p.data == [value];
    } else {
      assert Meaning(p, filler)[0] == value;
    }
  }

  /** What the `i`-th primitive of a uniform input stands for is uniform. */
  lemma UniformPart(ps: seq<Primitive>, i: nat, value: byte, n: nat, filler: byte)
    requires i < |ps| && Meanings(ps, filler) == Copies(value, n)
    ensures |Meanings(ps[..i + 1], filler)| == |Meanings(ps[..i], filler)| + |Meaning(ps[i], filler)| <= n
    ensures forall j :: 0 <= j < |Meaning(ps[i], filler)| ==> Meaning(ps[i], filler)[j] == value
  {
    MeaningsSplit(ps, i + 1, filler);
    AppendMeaning(ps[..i], ps[i], filler);
    assert ps[..i] + [ps[i]] == ps[..i + 1];
    var k, part := |Meanings(ps[..i], filler)|, Meaning(ps[i], filler);
    forall j | 0 <= j < |part| ensures part[j] == value {
      assert Meanings(ps, filler)[k + j] == Meanings(ps[..i + 1], filler)[k + j] == part[j];
    }
  }

  /** The primitive stands for bytes of the `left` equal ones that are left, and is written in the only way there is. */
  predicate TakesUniform(p: Primitive, len: nat, value: byte, left: int, filler: byte)
    requires IsWritable(p)
  {
    && 1 <= len <= left && len <= 63 && (len < left ==> len == 63)
    && Wire(p) == (if len == 1 then [1, value] else if value == filler then [0xC0 + len] else [0x80 + len, value])
  }

  lemma UniformAt(ps: seq<Primitive>, i: nat, k: nat, value: byte, n: nat, filler: byte) returns (len: nat)
    requires i < |ps| && ArePrimitives(ps, filler) && Meanings(ps, filler) == Copies(value, n)
    requires IsGreedy(ps, [Copies(value, n)], filler) && k == |Meanings(ps[..i], filler)|
    ensures |Meanings(ps[..i + 1], filler)| == k + len && IsWritable(ps[i]) && TakesUniform(ps[i], len, value, n - k, filler)
    ensures ArePrimitives(ps[i..], filler) && ArePrimitives(ps[i + 1..], filler) && ps[i..] == [ps[i]] + ps[i + 1..]
  {
    var p := ps[i];
    assert IsPrimitive(p, filler);
    UniformPart(ps, i, value, n, filler);
    len := |Meaning(p, filler)|;
    assert EndsWell(p, k + len, [Copies(value, n)], filler);
    UniformPrimitive(p, value, n, k, filler);
  }

  lemma {:induction false} UniformTail(ps: seq<Primitive>, i: nat, k: nat, value: byte, n: nat, filler: byte)
    requires i <= |ps| && ArePrimitives(ps, filler) && Meanings(ps, filler) == Copies(value, n)
    requires IsGreedy(ps, [Copies(value, n)], filler) && k == |Meanings(ps[..i], filler)|
    ensures k <= n && Wires(ps[i..], filler) == UniformWire(value, n - k, filler)
    decreases |ps| - i
  {
    if i == |ps| {
      assert ps[..i] == ps && ps[i..] == [];
    } else {
      var len := UniformAt(ps, i, k, value, n, filler);
      UniformTail(ps, i + 1, k + len, value, n, filler);
      UniformStep(ps[i], ps[i + 1..], ps[i..], len, value, n - k, filler);
    }
  }

  lemma UniformStep(p: Primitive, tail: seq<Primitive>, ps: seq<Primitive>, len: nat, value: byte, left: nat, filler: byte)
    requires ps == [p] + tail && ArePrimitives(ps, filler) && ArePrimitives(tail, filler) && IsWritable(p)
    requires TakesUniform(p, len, value, left, filler) && Wires(tail, filler) == UniformWire(value, left - len, filler)
    ensures Wires(ps, filler) == UniformWire(value, left, filler)
  {
    assert ps[1..] == tail;
  }

  lemma MeaningsSplit(ps: seq<Primitive>, i: nat, filler: byte)
    requires i <= |ps|
    ensures Meanings(ps, filler) == Meanings(ps[..i], filler) + Meanings(ps[i..], filler)
  {
    MeaningsConcat(ps[..i], ps[i..], filler);
    assert ps[..i] + ps[i..] == ps;
  }

  lemma {:induction false} MeaningsConcat(a: seq<Primitive>, b: seq<Primitive>, filler: byte)
    ensures Meanings(a + b, filler) == Meanings(a, filler) + Meanings(b, filler)
  {
    if a == [] {
      assert a + b == b;
    } else {
      MeaningsConcat(a[1..], b, filler);
      assert (a + b)[1..] == a[1..] + b;
      Regroup(Meaning(a[0], filler), Meanings(a[1..], filler), Meanings(b, filler));
    }
  }

  /** Equal bytes in one chunk are written as runs of 63 and one primitive for what is left over, if anything is. */
  lemma UniformInput(out: seq<Chunk>, value: byte, n: nat, filler: byte)
    requires IsEncoderOutput(out, [Copies(value, n)], filler)
    ensures out == UniformWire(value, n, filler) + [[0x00, 0x40]]
  {
    FlattenOne(Copies(value, n));
    var ps: seq<Primitive> :| IsWriting(ps, out, Flatten([Copies(value, n)]), filler) && IsGreedy(ps, [Copies(value, n)], filler);
    assert ps[0..] == ps && ps[..0] == [];
    UniformTail(ps, 0, 0, value, n, filler);
  }

  /** The filler is the space in TYPE A and the zero byte in TYPE I, and no other byte is. */
  lemma FillersByType(out: seq<Chunk>, t: Representation, value: byte, n: nat)
    requires 2 <= n <= 63 && IsEncoderOutput(out, [Copies(value, n)], FillerOf(t))
    ensures out == [if value == (if t.Ascii? then 0x20 else 0x00) then [0xC0 + n] else [0x80 + n, value], [0x00, 0x40]]
  {
    UniformInput(out, value, n, FillerOf(t));
    assert UniformWire(value, 0, FillerOf(t)) == [];
  }

  lemma {:induction false} WiresPrefix(ps: seq<Primitive>, qs: seq<Primitive>, filler: byte)
    requires ps <= qs && ArePrimitives(qs, filler)
    ensures Wires(ps, filler) <= Wires(qs, filler)
  {
    if ps != [] {
      WiresPrefix(ps[1..], qs[1..], filler);
    }
  }

  /** What an encoder has written when its source raises opens some writing of every longer input. */
  lemma CutShortExtends(out: seq<Chunk>, data: Chunk, more: Chunk, filler: byte) returns (whole: seq<Chunk>)
    requires IsCutShort(out, data, filler)
    ensures IsCompressed(whole, data + more, filler) && out <= whole
  {
    var ps: seq<Primitive>, rest: Chunk :|
      && ArePrimitives(ps, filler) && out == Wires(ps, filler) && data == Meanings(ps, filler) + rest
      && IsOpen(ps, rest) && |rest| <= 128;
    OpenIsShaped(ps, rest, more);
    Regroup(Meanings(ps, filler), rest, more);
    var qs := CanFinish(ps, data + more, rest + more, filler);
    WriteEnd(qs, Wires(qs, filler), data + more, [], filler);
    WiresPrefix(ps, qs, filler);
    whole := Wires(qs, filler) + [EOF_ESCAPE];
  }

  /** What the front of a compressed wire string says. */
  datatype Item =
    | Short                        // more bytes are needed, and none are left
    | Invalid                      // a control byte or a count that is refused
    | Skip                         // a control escape without EOF
    | Eof
    | Data(data: Chunk)            // bytes to pass on

  /** One step of the one-shot reading: the first item, and how many bytes it takes. */
  function ReadItem(w: Chunk, filler: byte): (Item, nat)
    requires w != []
  {
    var header := w[0];
    if header < 0x80 then
      if header == 0 then
        if |w| < 2 then (Short, 1)
        else if w[1] == 0 || w[1] % 16 != 0 then (Invalid, 2)
        else if w[1] / 0x40 % 2 == 1 then (Eof, 2)
        else (Skip, 2)
      else if |w| - 1 < header then (Short, 1)
      else (Data(w[1..1 + header]), 1 + header)
    else
      var count := header % 0x40;
      if header >= 0xC0 then
        if count == 0 then (Invalid, 1) else (Data(Copies(filler, count)), 1)
      else if count == 0 then (Invalid, 1)
      else if |w| < 2 then (Short, 1)
      else (Data(Copies(w[1], count)), 2)
  }

  lemma ItemFits(w: Chunk, filler: byte)
    requires w != []
    ensures 1 <= ReadItem(w, filler).1 <= |w|
  {
  }

  /** The one-shot reading of a compressed wire string. */
  function ParseItems(w: Chunk, filler: byte, ending: Ending): Parse
    decreases |w|
  {
    if w == [] then
      Parse([], Starved(ending))
    else
      ItemFits(w, filler);
      var (item, used) := ReadItem(w, filler);
      match item
      case Short => Parse([], Starved(ending))
      case Invalid => Parse([], Malformed)
      case Eof => Parse([], EofVerdict(|w| - used, ending))
      case Skip => ParseItems(w[used..], filler, ending)
      case Data(data) => Prepend(data, ParseItems(w[used..], filler, ending))
  }

  /** Read the item at the front of the buffer, pulling what it needs. */
  method NextItem(feed: Feed, filler: byte) returns (item: Item)
    requires feed.Valid() && feed.buffer != []
    modifies feed
    ensures feed.Valid()
    ensures item == ReadItem(old(feed.rest), filler).0
    ensures !item.Short? ==>
      feed.rest == old(feed.rest)[ReadItem(old(feed.rest), filler).1..]
  {
    ghost var w := feed.rest;
    var head := feed.Take(1);
    var header := head[0];
    if header < 0x80 {
      if header == 0 {
        var o := feed.Fill(1);
        if !o.Enough? {
          return Short;
        }
        var descriptor := feed.Take(1);
        assert descriptor[0] == w[1];
        if descriptor[0] == 0 || descriptor[0] % 16 != 0 {
          return Invalid;
        }
        return if descriptor[0] / 0x40 % 2 == 1 then Eof else Skip;
      }
      var o := feed.Fill(header);
      if !o.Enough? {
        return Short;
      }
      var payload := feed.Take(header);
      assert payload == w[1..1 + header];
      return Data(payload);
    }
    var count := header % 0x40;
    if header >= 0xC0 {
      return if count == 0 then Invalid else Data(Copies(filler, count));
    }
    if count == 0 {
      return Invalid;
    }
    var o := feed.Fill(1);
    if !o.Enough? {
      return Short;
    }
    var value := feed.Take(1);
    assert value[0] == w[1];
    return Data(Copies(value[0], count));
  }

  /** `done` has been read from `total`, and `w` is still to be read. */
  ghost predicate Tracks(total: Chunk, done: Chunk, w: Chunk, filler: byte, ending: Ending) {
    ParseItems(total, filler, ending) == Prepend(done, ParseItems(w, filler, ending))
  }

  /** What the first item of `w` adds to the reading, and whether the reading goes on behind it. */
  lemma TrackItem(total: Chunk, done: Chunk, w: Chunk, filler: byte, ending: Ending)
    requires w != [] && Tracks(total, done, w, filler, ending)
    ensures var (item, used) := ReadItem(w, filler);
      && used <= |w|
      && (item.Short? ==> ParseItems(total, filler, ending) == Parse(done, Starved(ending)))
      && (item.Invalid? ==> ParseItems(total, filler, ending) == Parse(done, Malformed))
      && (item.Eof? ==> ParseItems(total, filler, ending) == Parse(done, EofVerdict(|w| - used, ending)))
      && (item.Skip? ==> Tracks(total, done, w[used..], filler, ending))
      && (item.Data? ==> Tracks(total, done + item.data, w[used..], filler, ending))
  {
    ItemFits(w, filler);
    var (item, used) := ReadItem(w, filler);
    if item.Data? {
      PrependTwice(done, item.data, ParseItems(w[used..], filler, ending));
    }
  }

  /** A reading that runs out of bytes between two items. */
  lemma TrackEnd(total: Chunk, done: Chunk, filler: byte, ending: Ending)
    requires Tracks(total, done, [], filler, ending)
    ensures ParseItems(total, filler, ending) == Parse(done, if ending.Stops? then Malformed else Interrupted)
  {
    assert done + [] == done;
  }

  /** The compressed decoder agrees with the one-shot reading for every chunking of the wire. */
  method Decode(chunks: seq<Chunk>, ending: Ending, t: Representation) returns (out: seq<Chunk>, end: End)
    ensures Parse(Flatten(out), end) == ParseItems(Flatten(chunks), FillerOf(t), ending)
  {
    var feed := new Feed(chunks, ending);
    var filler := FillerOf(t);
    out := [];
    ghost var total := Flatten(chunks);
    while true
      invariant feed.Valid() && feed.ending == ending
      invariant Tracks(total, Flatten(out), feed.rest, filler, ending)
      decreases |feed.rest|
    {
      ghost var w := feed.rest;
      var o := feed.Fill(1);
      if !o.Enough? {
        TrackEnd(total, Flatten(out), filler, ending);
        return out, if o.Exhausted? then Malformed else Interrupted;
      }
      TrackItem(total, Flatten(out), w, filler, ending);
      ItemFits(w, filler);
      var item := NextItem(feed, filler);
      if item.Short? || item.Invalid? {
        return out, if item.Short? then Starved(ending) else Malformed;
      }
      if item.Eof? {
        o := feed.Fill(1);
        return out, if o.Enough? then Malformed else if o.Exhausted? then Finished else Interrupted;
      }
      if item.Data? {
        FlattenSnoc(out, item.data);
        out := out + [item.data];
      }
    }
  }

  /** Reading back one primitive. */
  lemma ReadPrimitive(p: Primitive, rest: Chunk, filler: byte)
    requires IsWritable(p)
    ensures var w := Wire(p) + rest;
      ReadItem(w, filler) == (Data(Meaning(p, filler)), |Wire(p)|)
      && w[|Wire(p)|..] == rest
  {
    var w := Wire(p) + rest;
    match p
    case Literal(data) => assert w[1..1 + |data|] == data;
    case Repeated(value, count) => assert w[0] % 0x40 == count;
    case Filler(count) => assert w[0] % 0x40 == count;
  }

  lemma ParsePrimitive(p: Primitive, rest: Chunk, filler: byte, ending: Ending)
    requires IsWritable(p)
    ensures ParseItems(Wire(p) + rest, filler, ending)
         == Prepend(Meaning(p, filler), ParseItems(rest, filler, ending))
  {
    ReadPrimitive(p, rest, filler);
  }

  lemma {:induction false} ParseWires(ps: seq<Primitive>, tail: Chunk, filler: byte, ending: Ending)
    requires ArePrimitives(ps, filler)
    ensures ParseItems(Flatten(Wires(ps, filler)) + tail, filler, ending)
         == Prepend(Meanings(ps, filler), ParseItems(tail, filler, ending))
  {
    if ps == [] {
      assert Flatten(Wires(ps, filler)) + tail == tail;
    } else {
      var rest := Flatten(Wires(ps[1..], filler)) + tail;
      ParseWires(ps[1..], tail, filler, ending);
      ParsePrimitive(ps[0], rest, filler, ending);
      PrependTwice(Meaning(ps[0], filler), Meanings(ps[1..], filler), ParseItems(tail, filler, ending));
      WiresTail(ps, tail, filler);
    }
  }

  lemma WiresTail(ps: seq<Primitive>, tail: Chunk, filler: byte)
    requires ps != [] && ArePrimitives(ps, filler)
    ensures Flatten(Wires(ps, filler)) + tail == Wire(ps[0]) + (Flatten(Wires(ps[1..], filler)) + tail)
  {
    FlattenCons(Wire(ps[0]), Wires(ps[1..], filler));
  }

  lemma ParseEof(filler: byte)
    ensures ParseItems(EOF_ESCAPE, filler, Stops) == Parse([], Finished)
  {
    assert ReadItem(EOF_ESCAPE, filler) == (Eof, 2);
  }

  /** Compressed round trip: whatever the encoder may have written reads back as the input. */
  lemma CompressedRoundTrip(out: seq<Chunk>, data: Chunk, filler: byte)
    requires IsCompressed(out, data, filler)
    ensures ParseItems(Flatten(out), filler, Stops) == Parse(data, Finished)
  {
    var ps: seq<Primitive> :| IsWriting(ps, out, data, filler);
    FlattenSnoc(Wires(ps, filler), EOF_ESCAPE);
    ParseWires(ps, EOF_ESCAPE, filler, Stops);
    ParseEof(filler);
  }

  /** A shaped writing costs at most a third more than its data, plus a constant. */
  lemma {:induction false} ShapedCost(ps: seq<Primitive>, filler: byte)
    requires ArePrimitives(ps, filler) && IsShaped(ps, [])
    ensures 3 * |Flatten(Wires(ps, filler))| <= 4 * |Meanings(ps, filler)| + 4
  {
    if ps != [] {
      var wires := Wires(ps, filler);
      assert wires[1..] == Wires(ps[1..], filler);
      if ps[0].Literal? && |ps[0].data| < MAX_LITERAL && |ps| > 1 {
        assert IsSettled(ps, 0, []);
        ShapedTail(ps, 2);
        assert ps[1..][1..] == ps[2..];
        assert wires[1..][1..] == Wires(ps[2..], filler);
        ShapedCost(ps[2..], filler);
      } else {
        ShapedTail(ps, 1);
        ShapedCost(ps[1..], filler);
      }
    }
  }

  lemma ShapedTail(ps: seq<Primitive>, k: nat)
    requires IsShaped(ps, []) && k <= |ps|
    ensures IsShaped(ps[k..], [])
  {
    forall i | 0 <= i < |ps[k..]| ensures IsSettled(ps[k..], i, []) {
      assert IsSettled(ps, i + k, []);
    }
  }

  /** The expansion bound, for every input and every chunking of it. */
  lemma ExpansionBound(out: seq<Chunk>, data: Chunk, filler: byte)
    requires IsCompressed(out, data, filler)
    ensures 3 * |Flatten(out)| <= 4 * |data| + 10
  {
    var ps: seq<Primitive> :| IsWriting(ps, out, data, filler);
    FlattenSnoc(Wires(ps, filler), EOF_ESCAPE);
    ShapedCost(ps, filler);
  }

  /** An item that is whole reads the same with bytes behind it. */
  lemma ReadExtended(w: Chunk, extra: Chunk, filler: byte)
    requires w != [] && !ReadItem(w, filler).0.Short?
    ensures ReadItem(w + extra, filler) == ReadItem(w, filler)
  {
    var header := w[0];
    if 0 < header < 0x80 {
      assert (w + extra)[1..1 + header] == w[1..1 + header];
    }
  }

  /** No accepted wire string stays accepted with bytes added: accepted strings are prefix-free. */
  lemma {:induction false} CompressedPrefixFree(w: Chunk, extra: Chunk, filler: byte)
    requires ParseItems(w, filler, Stops).end == Finished && extra != []
    ensures ParseItems(w + extra, filler, Stops).end == Malformed
    ensures ParseItems(w + extra, filler, Stops).data == ParseItems(w, filler, Stops).data
    decreases |w|
  {
    ItemFits(w, filler);
    var (item, used) := ReadItem(w, filler);
    ReadExtended(w, extra, filler);
    assert (w + extra)[used..] == w[used..] + extra;
    if !item.Eof? {
      CompressedPrefixFree(w[used..], extra, filler);
    }
  }

  /** How the source ends changes how the reading ends, not what it passes on. */
  lemma {:induction false} CompressedData(w: Chunk, filler: byte, e: Ending, e': Ending)
    ensures ParseItems(w, filler, e).data == ParseItems(w, filler, e').data
    decreases |w|
  {
    if w != [] {
      ItemFits(w, filler);
      var (item, used) := ReadItem(w, filler);
      if item.Skip? || item.Data? {
        CompressedData(w[used..], filler, e, e');
      }
    }
  }

  /** What is read of a wire string stays read whatever comes behind it. */
  lemma {:induction false} CompressedCausal(w: Chunk, extra: Chunk, filler: byte, ending: Ending)
    ensures ParseItems(w, filler, Raises).data <= ParseItems(w + extra, filler, ending).data
    decreases |w|
  {
    if w != [] && !ReadItem(w, filler).0.Short? {
      ItemFits(w, filler);
      var (item, used) := ReadItem(w, filler);
      ReadExtended(w, extra, filler);
      assert (w + extra)[used..] == w[used..] + extra;
      if item.Skip? || item.Data? {
        CompressedCausal(w[used..], extra, filler, ending);
      }
    }
  }

  /** A source that raises never lets a reading finish. */
  lemma {:induction false} CompressedNeedsStop(w: Chunk, filler: byte)
    ensures !ParseItems(w, filler, Raises).end.Finished?
    decreases |w|
  {
    if w != [] {
      ItemFits(w, filler);
      var (item, used) := ReadItem(w, filler);
      if item.Skip? || item.Data? {
        CompressedNeedsStop(w[used..], filler);
      }
    }
  }

  /** A unit of the wire grammar: a primitive, or a control escape that does not end the file. */
  datatype Unit = Payload(p: Primitive) | Control(descriptor: byte)

  predicate IsControl(descriptor: byte) {
    descriptor != 0 && descriptor % 16 == 0
  }

  predicate IsEofDescriptor(descriptor: byte) {
    IsControl(descriptor) && descriptor / 0x40 % 2 == 1
  }

  predicate IsUnit(u: Unit) {
    match u
    case Payload(p) => IsWritable(p)
    case Control(d) => IsControl(d) && !IsEofDescriptor(d)
  }

  predicate AreUnits(us: seq<Unit>) {
    forall i :: 0 <= i < |us| ==> IsUnit(us[i])
  }

  function BytesOf(u: Unit): Chunk
    requires IsUnit(u)
  {
    match u case Payload(p) => Wire(p) case Control(d) => [0x00, d]
  }

  function MeaningOf(u: Unit, filler: byte): Chunk {
    match u case Payload(p) => Meaning(p, filler) case Control(_) => []
  }

  function UnitBytes(us: seq<Unit>): Chunk
    requires AreUnits(us)
  {
    if us == [] then []
    else BytesOf(us[0]) + UnitBytes(us[1..])
  }

  function UnitMeaning(us: seq<Unit>, filler: byte): Chunk {
    if us == [] then []
    else MeaningOf(us[0], filler) + UnitMeaning(us[1..], filler)
  }

  /** `w` is a sentence of the grammar that stands for `data`. */
  ghost predicate IsSentence(w: Chunk, data: Chunk, filler: byte) {
    exists us, eof ::
      AreUnits(us) && IsEofDescriptor(eof) && w == UnitBytes(us) + [0x00, eof] && data == UnitMeaning(us, filler)
  }

  lemma {:induction false} SentenceParses(us: seq<Unit>, eof: byte, filler: byte)
    requires AreUnits(us) && IsEofDescriptor(eof)
    ensures ParseItems(UnitBytes(us) + [0x00, eof], filler, Stops) == Parse(UnitMeaning(us, filler), Finished)
  {
    var w := UnitBytes(us) + [0x00, eof];
    if us == [] {
      assert w == [0x00, eof];
      assert ReadItem(w, filler) == (Eof, 2);
    } else {
      var rest := UnitBytes(us[1..]) + [0x00, eof];
      SentenceParses(us[1..], eof, filler);
      match us[0]
      case Payload(p) =>
        assert w == Wire(p) + rest;
        ParsePrimitive(p, rest, filler, Stops);
      case Control(d) =>
        assert w == [0x00, d] + rest;
        assert ReadItem(w, filler) == (Skip, 2) && w[2..] == rest;
    }
  }

  /** The unit that an item read off the front of a wire string stands for. */
  function UnitAt(w: Chunk, filler: byte): Unit
    requires w != [] && (ReadItem(w, filler).0.Skip? || ReadItem(w, filler).0.Data?)
  {
    if w[0] == 0 then Control(w[1])
    else if w[0] < 0x80 then Payload(Literal(w[1..1 + w[0]]))
    else if w[0] >= 0xC0 then Payload(Filler(w[0] % 0x40))
    else Payload(Repeated(w[1], w[0] % 0x40))
  }

  lemma ItemIsUnit(w: Chunk, filler: byte)
    requires w != [] && (ReadItem(w, filler).0.Skip? || ReadItem(w, filler).0.Data?)
    ensures var (u, used) := (UnitAt(w, filler), ReadItem(w, filler).1);
      IsUnit(u) && used <= |w| && BytesOf(u) == w[..used]
  {
  }

  lemma ItemMeansUnit(w: Chunk, filler: byte)
    requires w != [] && (ReadItem(w, filler).0.Skip? || ReadItem(w, filler).0.Data?)
    ensures var item := ReadItem(w, filler).0;
      MeaningOf(UnitAt(w, filler), filler) == if item.Skip? then [] else item.data
  {
  }

  lemma ConsUnit(u: Unit, tail: seq<Unit>, filler: byte)
    requires IsUnit(u) && AreUnits(tail)
    ensures AreUnits([u] + tail)
    ensures UnitBytes([u] + tail) == BytesOf(u) + UnitBytes(tail)
    ensures UnitMeaning([u] + tail, filler) == MeaningOf(u, filler) + UnitMeaning(tail, filler)
  {
    assert ([u] + tail)[1..] == tail;
  }

  /** The item at the front of an accepted string: EOF and nothing else, or a unit before an accepted string. */
  lemma AcceptedItem(w: Chunk, filler: byte)
    requires ParseItems(w, filler, Stops).end.Finished?
    ensures w != []
    ensures var (item, used) := ReadItem(w, filler);
      && used <= |w|
      && (if item.Eof? then
            |w| == 2 && w[0] == 0 && IsEofDescriptor(w[1]) && ParseItems(w, filler, Stops).data == []
          else
            && (item.Skip? || item.Data?)
            && ParseItems(w[used..], filler, Stops).end.Finished?
            && ParseItems(w, filler, Stops).data
               == (if item.Skip? then [] else item.data) + ParseItems(w[used..], filler, Stops).data)
  {
    ItemFits(w, filler);
  }

  /** A unit read off the front, and the sentence behind it. */
  lemma SentenceCons(w: Chunk, used: nat, u: Unit, tail: seq<Unit>, eof: byte)
    requires used <= |w| && IsUnit(u) && AreUnits(tail)
    requires BytesOf(u) == w[..used] && w[used..] == UnitBytes(tail) + [0x00, eof]
    ensures AreUnits([u] + tail) && w == UnitBytes([u] + tail) + [0x00, eof]
  {
    ConsUnit(u, tail, 0);
    assert w == w[..used] + w[used..];
    Regroup(BytesOf(u), UnitBytes(tail), [0x00, eof]);
  }

  lemma {:induction false} ParsedIsSentence(w: Chunk, filler: byte) returns (us: seq<Unit>, eof: byte)
    requires ParseItems(w, filler, Stops).end.Finished?
    ensures AreUnits(us) && IsEofDescriptor(eof) && w == UnitBytes(us) + [0x00, eof]
    ensures ParseItems(w, filler, Stops).data == UnitMeaning(us, filler)
    decreases |w|
  {
    AcceptedItem(w, filler);
    var (item, used) := ReadItem(w, filler);
    if item.Eof? {
      us, eof := [], w[1];
      assert w == [] + [0x00, eof];
    } else {
      ItemFits(w, filler);
      var tail: seq<Unit>;
      tail, eof := ParsedIsSentence(w[used..], filler);
      var u := UnitAt(w, filler);
      us := [u] + tail;
      ItemIsUnit(w, filler);
      ItemMeansUnit(w, filler);
      SentenceCons(w, used, u, tail, eof);
      ConsUnit(u, tail, filler);
    }
  }

  /** The decoder accepts exactly the sentences of the grammar, and reads each as what it stands for. */
  lemma AcceptedIffSentence(w: Chunk, data: Chunk, filler: byte)
    ensures ParseItems(w, filler, Stops) == Parse(data, Finished) <==> IsSentence(w, data, filler)
  {
    if ParseItems(w, filler, Stops) == Parse(data, Finished) {
      var us, eof := ParsedIsSentence(w, filler);
    }
    if IsSentence(w, data, filler) {
      var us, eof :|
        AreUnits(us) && IsEofDescriptor(eof) && w == UnitBytes(us) + [0x00, eof] && data == UnitMeaning(us, filler);
      SentenceParses(us, eof, filler);
    }
  }
}
