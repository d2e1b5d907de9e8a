/** MODE B: section 3.4.2 of RFC 959, one descriptor byte and a 16-bit count before each block. */
module BlockMode {
  import opened Bytes
  import opened ChunkFeed

  const HEADER_LEN: nat := 3
  const FLAG_EOF: byte := 0x40
  const MAX_BLOCK: nat := 0xFFFF

  /** The EOF bit of a descriptor byte. */
  predicate HasEof(descriptor: byte) {
    descriptor / 0x40 % 2 == 1
  }

  function Packet(payload: Chunk, eof: bool): Chunk
    requires |payload| <= MAX_BLOCK
  {
    [if eof then FLAG_EOF else 0, |payload| / 256, |payload| % 256] + payload
  }

  /** A 16-bit count, high byte first. */
  function Count16(high: byte, low: byte): nat {
    (high as int) * 256 + low as int
  }

  /** The canonical cutting of a byte string into blocks: it knows nothing of the input's chunks. */
  function Blocks(data: Chunk, blockSize: nat): (blocks: seq<Chunk>)
    requires 1 <= blockSize <= MAX_BLOCK
  {
    if |data| <= blockSize then
      [Packet(data, true)]
    else
      [Packet(data[..blockSize], false)] + Blocks(data[blockSize..], blockSize)
  }

  /** `k` blocks are what n bytes need: one for none, otherwise n over the block size, rounded up. */
  predicate IsBlockCount(k: int, n: nat, blockSize: nat) {
    if n == 0 then k == 1 else (k - 1) * blockSize < n <= k * blockSize
  }

  lemma {:induction false} BlocksCount(data: Chunk, blockSize: nat)
    requires 1 <= blockSize <= MAX_BLOCK
    ensures IsBlockCount(|Blocks(data, blockSize)|, |data|, blockSize)
  {
    if |data| > blockSize {
      BlocksCount(data[blockSize..], blockSize);
      CountStep(|Blocks(data[blockSize..], blockSize)|, |data|, blockSize);
    }
  }

  /** One full block more. */
  lemma CountStep(k: int, n: nat, blockSize: nat)
    requires n > blockSize && IsBlockCount(k, n - blockSize, blockSize)
    ensures IsBlockCount(k + 1, n, blockSize)
  {
    assert (k - 1) * blockSize + blockSize == k * blockSize;
    assert (k + 1) * blockSize == k * blockSize + blockSize;
  }

  /** Block `i` of `n`: full and unmarked, except that the last may be short and carries EOF. */
  predicate IsBlock(block: Chunk, last: bool, blockSize: nat) {
    && 3 <= |block| <= 3 + blockSize
    && block[0] == (if last then 0x40 else 0x00)
    && (!last ==> |block| == 3 + blockSize)
    && (block[1] as int) * 256 + block[2] as int == |block| - 3
  }

  predicate IsBlockSequence(blocks: seq<Chunk>, blockSize: nat) {
    forall i :: 0 <= i < |blocks| ==> IsBlock(blocks[i], i == |blocks| - 1, blockSize)
  }

  /** Shape of the canonical cutting: all blocks but the last are full, and EOF is on the last alone. */
  lemma {:induction false} BlocksShape(data: Chunk, blockSize: nat)
    requires 1 <= blockSize <= MAX_BLOCK
    ensures IsBlockSequence(Blocks(data, blockSize), blockSize)
  {
    if |data| > blockSize {
      var rest := Blocks(data[blockSize..], blockSize);
      BlocksShape(data[blockSize..], blockSize);
      assert IsBlock(Packet(data[..blockSize], false), false, blockSize);
      assert Blocks(data, blockSize) == [Packet(data[..blockSize], false)] + rest;
      assert forall i :: 0 < i < |rest| + 1 ==> ([Packet(data[..blockSize], false)] + rest)[i] == rest[i - 1];
    }
  }

  /** The full blocks of a byte string open the blocks of every longer one. */
  lemma {:induction false} BlocksExtend(data: Chunk, more: Chunk, blockSize: nat)
    requires 1 <= blockSize <= MAX_BLOCK
    ensures Blocks(data, blockSize)[..|Blocks(data, blockSize)| - 1] <= Blocks(data + more, blockSize)
    decreases |data|
  {
    if |data| > blockSize {
      BlocksExtend(data[blockSize..], more, blockSize);
      assert (data + more)[..blockSize] == data[..blockSize];
      assert (data + more)[blockSize..] == data[blockSize..] + more;
    }
  }

  datatype Encoding = InvalidBlockSize | Encoded(blocks: seq<Chunk>, end: End)

  /**
   * The block encoder. Its lookahead holds one byte more than a block, so that the
   * block that turns out to be last can carry EOF.
   */
  method Encode(chunks: seq<Chunk>, ending: Ending, blockSize: int) returns (e: Encoding)
    ensures e.InvalidBlockSize? <==> !(1 <= blockSize <= 0xFFFF)
    ensures e.Encoded? && ending.Stops? ==> e == Encoded(Blocks(Flatten(chunks), blockSize), Finished)
    ensures e.Encoded? && ending.Raises? ==>
      var all := Blocks(Flatten(chunks), blockSize);
      e == Encoded(all[..|all| - 1], Interrupted)
  {
    if blockSize < 1 || blockSize > MAX_BLOCK {
      return InvalidBlockSize;
    }
    var feed := new Feed(chunks, ending);
    var blocks: seq<Chunk> := [];
    while true
      invariant feed.Valid() && feed.chunks == chunks && feed.ending == ending
      invariant Blocks(Flatten(chunks), blockSize) == blocks + Blocks(feed.rest, blockSize)
      decreases |feed.rest|
    {
      var o := feed.Fill(blockSize + 1);
      if !o.Enough? {
        ghost var all := blocks + [Packet(feed.buffer, true)];
        assert all[..|all| - 1] == blocks;
        return if o.Exhausted? then Encoded(blocks + [Packet(feed.buffer, true)], Finished)
               else Encoded(blocks, Interrupted);
      }
      var payload := feed.Take(blockSize);
      blocks := blocks + [Packet(payload, false)];
    }
  }

  /** A header and as many bytes as it counts stand at the front of `w`. */
  predicate HasBlock(w: Chunk) {
    |w| >= HEADER_LEN && |w| - HEADER_LEN >= Count16(w[1], w[2])
  }

  function PayloadOf(w: Chunk): Chunk
    requires HasBlock(w)
  {
    w[HEADER_LEN..HEADER_LEN + Count16(w[1], w[2])]
  }

  function BehindBlock(w: Chunk): (rest: Chunk)
    requires HasBlock(w)
    ensures |rest| < |w|
  {
    w[HEADER_LEN + Count16(w[1], w[2])..]
  }

  /** The one-shot reading of a Block-mode wire string. */
  function ParseBlocks(w: Chunk, ending: Ending): Parse
    decreases |w|
  {
    if !HasBlock(w) then
      Parse([], Starved(ending))
    else if HasEof(w[0]) then
      Parse(PayloadOf(w), EofVerdict(|BehindBlock(w)|, ending))
    else
      Prepend(PayloadOf(w), ParseBlocks(BehindBlock(w), ending))
  }

  predicate EndsEmpty(chunks: seq<Chunk>) {
    chunks != [] && chunks[|chunks| - 1] == []
  }

  /**
   * The reading of a chunked wire. After the EOF block the reader pulls once more and takes
   * any chunk, even an empty one, for trailing data.
   */
  function ParseChunks(chunks: seq<Chunk>, ending: Ending): Parse {
    var p := ParseBlocks(Flatten(chunks), ending);
    if EndsEmpty(chunks) && ParseBlocks(Flatten(chunks), Stops).end.Finished? then
      Parse(p.data, Malformed)
    else
      p
  }

  /** `out` has been read from `chunks`, and `w` is still to be read. */
  ghost predicate Tracks(chunks: seq<Chunk>, out: seq<Chunk>, w: Chunk) {
    forall e :: ParseBlocks(Flatten(chunks), e) == Prepend(Flatten(out), ParseBlocks(w, e))
  }

  lemma TrackStart(chunks: seq<Chunk>)
    ensures Tracks(chunks, [], Flatten(chunks))
  {
  }

  /** One non-final block read off the front of the wire. */
  lemma TrackBlock(chunks: seq<Chunk>, out: seq<Chunk>, w: Chunk)
    requires Tracks(chunks, out, w) && HasBlock(w) && !HasEof(w[0])
    ensures Tracks(chunks, out + [PayloadOf(w)], BehindBlock(w))
  {
    FlattenSnoc(out, PayloadOf(w));
    forall e
      ensures ParseBlocks(Flatten(chunks), e) == Prepend(Flatten(out + [PayloadOf(w)]), ParseBlocks(BehindBlock(w), e))
    {
      PrependTwice(Flatten(out), PayloadOf(w), ParseBlocks(BehindBlock(w), e));
    }
  }

  /** The reading ends with the final block read off the front of the wire. */
  lemma ConcludeEof(chunks: seq<Chunk>, out: seq<Chunk>, w: Chunk, end: End, ending: Ending)
    requires Tracks(chunks, out, w) && HasBlock(w) && HasEof(w[0])
    requires end == if BehindBlock(w) != [] || EndsEmpty(chunks) then Malformed else EofVerdict(0, ending)
    ensures Parse(Flatten(out + [PayloadOf(w)]), end) == ParseChunks(chunks, ending)
  {
    FlattenSnoc(out, PayloadOf(w));
    forall e
      ensures ParseBlocks(Flatten(chunks), e) == Parse(Flatten(out) + PayloadOf(w), EofVerdict(|BehindBlock(w)|, e))
    {
      assert ParseBlocks(w, e) == Parse(PayloadOf(w), EofVerdict(|BehindBlock(w)|, e));
    }
  }

  /** The wire ran out before the next block was whole. */
  lemma ConcludeShort(chunks: seq<Chunk>, out: seq<Chunk>, w: Chunk, ending: Ending)
    requires Tracks(chunks, out, w) && !HasBlock(w)
    ensures Parse(Flatten(out), Starved(ending)) == ParseChunks(chunks, ending)
  {
    assert forall e :: ParseBlocks(w, e) == Parse([], Starved(e));
  }

  datatype BlockRead = NoBlock(end: End) | Block(descriptor: byte, payload: Chunk)

  /** Read one block: its header, then as many bytes as the header counts. */
  method ReadBlock(feed: Feed) returns (r: BlockRead)
    requires feed.Valid() && (feed.next == 0 || feed.chunks[feed.next - 1] != [])
    modifies feed
    ensures feed.Valid()
    ensures var w := old(feed.rest);
      if HasBlock(w) then
        && r == Block(w[0], PayloadOf(w)) && feed.rest == BehindBlock(w)
        && (feed.next == 0 || feed.chunks[feed.next - 1] != [])
      else
        r == NoBlock(Starved(feed.ending))
  {
    ghost var w := feed.rest;
    var o := feed.Fill(HEADER_LEN);
    if !o.Enough? {
      return NoBlock(if o.Exhausted? then Malformed else Interrupted);
    }
    var header := feed.Take(HEADER_LEN);
    var count := Count16(header[1], header[2]);
    o := feed.Fill(count);
    if !o.Enough? {
      return NoBlock(if o.Exhausted? then Malformed else Interrupted);
    }
    var payload := feed.Take(count);
    assert payload == PayloadOf(w) && feed.rest == BehindBlock(w);
    r := Block(header[0], payload);
  }

  /** Behind the EOF block nothing may follow, not even an empty chunk. */
  method CheckNothingFollows(feed: Feed) returns (end: End)
    requires feed.Valid() && (feed.next == 0 || feed.chunks[feed.next - 1] != [])
    ensures feed.rest != [] ==> end == Malformed
    ensures feed.rest == [] ==>
      end == if EndsEmpty(feed.chunks) then Malformed else EofVerdict(0, feed.ending)
  {
    if feed.buffer != [] {
      return Malformed;
    }
    if feed.next == |feed.chunks| {
      return if feed.ending.Stops? then Finished else Interrupted;
    }
    UnreadTail(feed.chunks, feed.next);
    return Malformed;
  }

  /** The block decoder agrees with the one-shot reading for every chunking of the wire. */
  method Decode(chunks: seq<Chunk>, ending: Ending) returns (out: seq<Chunk>, end: End)
    ensures Parse(Flatten(out), end) == ParseChunks(chunks, ending)
  {
    var feed := new Feed(chunks, ending);
    out := [];
    TrackStart(chunks);
    while true
      invariant feed.Valid() && feed.chunks == chunks && feed.ending == ending
      invariant feed.next == 0 || chunks[feed.next - 1] != []
      invariant Tracks(chunks, out, feed.rest)
      decreases |feed.rest|
    {
      ghost var before, w := out, feed.rest;
      var r := ReadBlock(feed);
      if r.NoBlock? {
        ConcludeShort(chunks, before, w, ending);
        return out, r.end;
      }
      out := out + [r.payload];
      if HasEof(r.descriptor) {
        end := CheckNothingFollows(feed);
        ConcludeEof(chunks, before, w, end, ending);
        return;
      }
      TrackBlock(chunks, before, w);
    }
  }

  /** If nothing but empty chunks is left unread, the last chunk of all is empty. */
  lemma {:induction false} UnreadTail(chunks: seq<Chunk>, k: nat)
    requires k < |chunks|
    ensures Flatten(chunks[k..]) == [] ==> chunks[|chunks| - 1] == []
    decreases |chunks| - k
  {
    FlattenSplit(chunks, k);
    if k + 1 < |chunks| {
      UnreadTail(chunks, k + 1);
    }
  }

  /** Reading one block that the encoder wrote. */
  lemma ParsePacket(payload: Chunk, eof: bool, rest: Chunk, ending: Ending)
    requires |payload| <= MAX_BLOCK && (eof ==> rest == [])
    ensures ParseBlocks(Packet(payload, eof) + rest, ending) ==
      if eof then Parse(payload, if ending.Raises? then Interrupted else Finished)
      else Prepend(payload, ParseBlocks(rest, ending))
  {
    var w := Packet(payload, eof) + rest;
    assert Count16(w[1], w[2]) == |payload|;
    assert PayloadOf(w) == payload && BehindBlock(w) == rest;
  }

  /** Block round trip: what the encoder wrote reads back as the input, whatever cut the wire was given. */
  lemma {:induction false} BlockRoundTrip(data: Chunk, blockSize: nat)
    requires 1 <= blockSize <= MAX_BLOCK
    ensures ParseBlocks(Flatten(Blocks(data, blockSize)), Stops) == Parse(data, Finished)
  {
    if |data| <= blockSize {
      ParsePacket(data, true, [], Stops);
      FlattenOne(Packet(data, true));
      assert Packet(data, true) + [] == Packet(data, true);
    } else {
      var head, rest := data[..blockSize], Blocks(data[blockSize..], blockSize);
      BlockRoundTrip(data[blockSize..], blockSize);
      ParsePacket(head, false, Flatten(rest), Stops);
      FlattenCons(Packet(head, false), rest);
      assert head + data[blockSize..] == data;
    }
  }

  /** No accepted wire string stays accepted with bytes added: accepted strings are prefix-free. */
  lemma {:induction false} BlockPrefixFree(w: Chunk, extra: Chunk)
    requires ParseBlocks(w, Stops).end == Finished && extra != []
    ensures ParseBlocks(w + extra, Stops).end == Malformed
    ensures ParseBlocks(w + extra, Stops).data == ParseBlocks(w, Stops).data
    decreases |w|
  {
    assert PayloadOf(w + extra) == PayloadOf(w) && BehindBlock(w + extra) == BehindBlock(w) + extra;
    if !HasEof(w[0]) {
      BlockPrefixFree(BehindBlock(w), extra);
    }
  }

  /** How the source ends changes how the reading ends, not what it passes on. */
  lemma {:induction false} BlockData(w: Chunk, e: Ending, e': Ending)
    ensures ParseBlocks(w, e).data == ParseBlocks(w, e').data
    decreases |w|
  {
    if HasBlock(w) && !HasEof(w[0]) {
      BlockData(BehindBlock(w), e, e');
    }
  }

  /** What is read of a wire string stays read whatever comes behind it. */
  lemma {:induction false} BlockCausal(w: Chunk, extra: Chunk, ending: Ending)
    ensures ParseBlocks(w, Raises).data <= ParseBlocks(w + extra, ending).data
    decreases |w|
  {
    if HasBlock(w) {
      assert PayloadOf(w + extra) == PayloadOf(w) && BehindBlock(w + extra) == BehindBlock(w) + extra;
      if !HasEof(w[0]) {
        BlockCausal(BehindBlock(w), extra, ending);
      }
    }
  }

  /** A source that raises never lets a reading finish. */
  lemma {:induction false} BlockNeedsStop(w: Chunk)
    ensures !ParseBlocks(w, Raises).end.Finished?
    decreases |w|
  {
    if HasBlock(w) && !HasEof(w[0]) {
      BlockNeedsStop(BehindBlock(w));
    }
  }

  /** A block of the wire grammar, with any descriptor byte. */
  datatype WireBlock = WireBlock(descriptor: byte, payload: Chunk)

  /** Blocks that end a file: EOF on the last and on no other. */
  predicate IsFile(bs: seq<WireBlock>) {
    bs != [] && forall i :: 0 <= i < |bs| ==>
      |bs[i].payload| <= 0xFFFF && (bs[i].descriptor / 0x40 % 2 == 1 <==> i == |bs| - 1)
  }

  function BlockBytes(b: WireBlock): Chunk
    requires |b.payload| <= MAX_BLOCK
  {
    [b.descriptor, |b.payload| / 256, |b.payload| % 256] + b.payload
  }

  function FileBytes(bs: seq<WireBlock>): Chunk
    requires forall i :: 0 <= i < |bs| ==> |bs[i].payload| <= MAX_BLOCK
  {
    if bs == [] then [] else BlockBytes(bs[0]) + FileBytes(bs[1..])
  }

  function FileData(bs: seq<WireBlock>): Chunk {
    if bs == [] then [] else bs[0].payload + FileData(bs[1..])
  }

  /** `w` is a sequence of blocks that ends a file and carries `data`. */
  ghost predicate IsSentence(w: Chunk, data: Chunk) {
    exists bs :: IsFile(bs) && w == FileBytes(bs) && data == FileData(bs)
  }

  /** Reading back one block of the grammar. */
  lemma ParseWireBlock(b: WireBlock, rest: Chunk)
    requires |b.payload| <= MAX_BLOCK && (HasEof(b.descriptor) ==> rest == [])
    ensures ParseBlocks(BlockBytes(b) + rest, Stops) ==
      if HasEof(b.descriptor) then Parse(b.payload, Finished) else Prepend(b.payload, ParseBlocks(rest, Stops))
  {
    var w := BlockBytes(b) + rest;
    assert Count16(w[1], w[2]) == |b.payload|;
    assert PayloadOf(w) == b.payload && BehindBlock(w) == rest;
  }

  lemma {:induction false} FileParses(bs: seq<WireBlock>)
    requires IsFile(bs)
    ensures ParseBlocks(FileBytes(bs), Stops) == Parse(FileData(bs), Finished)
  {
    var rest := bs[1..];
    if rest == [] {
      assert HasEof(bs[0].descriptor);
      assert FileBytes(rest) == [] && FileData(rest) == [];
      ParseWireBlock(bs[0], []);
    } else {
      assert !HasEof(bs[0].descriptor);
      FileParses(rest);
      ParseWireBlock(bs[0], FileBytes(rest));
    }
  }

  lemma BlockOff(w: Chunk)
    requires HasBlock(w)
    ensures w == BlockBytes(WireBlock(w[0], PayloadOf(w))) + BehindBlock(w)
  {
    var count := Count16(w[1], w[2]);
    assert [w[0], count / 256, count % 256] == w[..HEADER_LEN];
  }

  lemma {:induction false} ParsedIsFile(w: Chunk) returns (bs: seq<WireBlock>)
    requires ParseBlocks(w, Stops).end.Finished?
    ensures IsFile(bs) && w == FileBytes(bs) && ParseBlocks(w, Stops).data == FileData(bs)
    decreases |w|
  {
    var b := WireBlock(w[0], PayloadOf(w));
    BlockOff(w);
    if HasEof(w[0]) {
      bs := [b];
      assert FileBytes([b][1..]) == [] && FileData([b][1..]) == [];
    } else {
      var tail := ParsedIsFile(BehindBlock(w));
      bs := [b] + tail;
      assert bs[1..] == tail;
    }
  }

  /** The decoder accepts exactly the sequences of blocks that end a file, and reads their payloads. */
  lemma AcceptedIffSentence(w: Chunk, data: Chunk)
    ensures ParseBlocks(w, Stops) == Parse(data, Finished) <==> IsSentence(w, data)
  {
    if ParseBlocks(w, Stops) == Parse(data, Finished) {
      var bs := ParsedIsFile(w);
    }
    if IsSentence(w, data) {
      var bs :| IsFile(bs) && w == FileBytes(bs) && data == FileData(bs);
      FileParses(bs);
    }
  }
}
