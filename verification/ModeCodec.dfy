/** The codec dispatchers: file chunks to wire chunks on the sender, wire chunks to file bytes on the receiver. */
module ModeCodec {
  import opened Bytes
  import opened ChunkFeed
  import BlockMode
  import opened CompressedMode
  import opened FileHandler

  const WIRE_CHUNK_SIZE: nat := 1024

  datatype Mode = ModeS | ModeB | ModeC

  /** The full-size pieces alone: what a re-batcher has passed on when its source raises. */
  function FullPieces(data: Chunk, size: nat): seq<Chunk>
    requires size >= 1
  {
    if |data| < size then [] else [data[..size]] + FullPieces(data[size..], size)
  }

  /** Re-batching: the output's cutting depends only on the joined bytes. */
  method BatchWire(primitives: seq<Chunk>, ending: Ending, size: nat) returns (out: seq<Chunk>)
    requires size >= 1
    ensures out == if ending.Stops? then Rechunk(Flatten(primitives), size) else FullPieces(Flatten(primitives), size)
  {
    var buffer: Chunk := [];
    out := [];
    var k := 0;
    assert buffer + Flatten(primitives[0..]) == Flatten(primitives);
    while k < |primitives|
      invariant k <= |primitives| && |buffer| < size
      invariant IsBatched(Flatten(primitives), out, buffer + Flatten(primitives[k..]), size)
    {
      FlattenSplit(primitives, k);
      ghost var rest := Flatten(primitives[k + 1..]);
      assert buffer + (primitives[k] + rest) == buffer + primitives[k] + rest;
      buffer := buffer + primitives[k];
      while |buffer| >= size
        invariant IsBatched(Flatten(primitives), out, buffer + rest, size)
      {
        BatchStep(Flatten(primitives), out, buffer, rest, size);
        out := out + [buffer[..size]];
        buffer := buffer[size..];
      }
      k := k + 1;
    }
    assert buffer + Flatten(primitives[k..]) == buffer;
    if buffer != [] && ending.Stops? {
      out := out + [buffer];
    }
  }

  /** `out` has been passed on from `total`, and `rest` is still to be cut. */
  ghost predicate IsBatched(total: Chunk, out: seq<Chunk>, rest: Chunk, size: nat)
    requires size >= 1
  {
    && Rechunk(total, size) == out + Rechunk(rest, size)
    && FullPieces(total, size) == out + FullPieces(rest, size)
  }

  lemma BatchStep(total: Chunk, out: seq<Chunk>, buffer: Chunk, rest: Chunk, size: nat)
    requires size >= 1 && |buffer| >= size && IsBatched(total, out, buffer + rest, size)
    ensures IsBatched(total, out + [buffer[..size]], buffer[size..] + rest, size)
  {
    assert (buffer + rest)[..size] == buffer[..size];
    assert (buffer + rest)[size..] == buffer[size..] + rest;
  }

  /** The wire chunks that the sender may emit for these file chunks. */
  ghost predicate IsEncoded(mode: Mode, t: Representation, chunks: seq<Chunk>, wire: seq<Chunk>) {
    match mode
    case ModeS => wire == chunks
    case ModeB =>
      wire == Rechunk(Flatten(BlockMode.Blocks(Flatten(chunks), WIRE_CHUNK_SIZE)), WIRE_CHUNK_SIZE)
    case ModeC =>
      exists out :: IsCompressed(out, Flatten(chunks), FillerOf(t)) && wire == Rechunk(Flatten(out), WIRE_CHUNK_SIZE)
  }

  /** The full pieces of a byte string open the re-cutting of every longer one. */
  lemma {:induction false} PiecesExtend(data: Chunk, more: Chunk, size: nat)
    requires size >= 1
    ensures FullPieces(data, size) <= Rechunk(data + more, size)
    decreases |data|
  {
    if |data| >= size {
      PiecesExtend(data[size..], more, size);
      assert (data + more)[..size] == data[..size];
      assert (data + more)[size..] == data[size..] + more;
    }
  }

  /**
   * The wire chunks emitted before a source raises, having given `chunks`: for every continuation of the
   * source they are the first chunks of a wire that the mode allows.
   */
  ghost predicate IsCutEncoding(mode: Mode, t: Representation, chunks: seq<Chunk>, wire: seq<Chunk>) {
    forall more: seq<Chunk> :: OpensEncoding(mode, t, chunks + more, wire)
  }

  ghost predicate OpensEncoding(mode: Mode, t: Representation, chunks: seq<Chunk>, wire: seq<Chunk>) {
    exists whole :: IsEncoded(mode, t, chunks, whole) && wire <= whole
  }

  /** Full pieces of an opening of the primitives open the whole wire. */
  lemma PiecesOpen(out: seq<Chunk>, whole: seq<Chunk>)
    requires out <= whole
    ensures FullPieces(Flatten(out), WIRE_CHUNK_SIZE) <= Rechunk(Flatten(whole), WIRE_CHUNK_SIZE)
  {
    FlattenPrefix(whole, |out|);
    assert whole[..|out|] == out;
    var a, b := Flatten(out), Flatten(whole);
    assert b == a + b[|a|..];
    PiecesExtend(a, b[|a|..], WIRE_CHUNK_SIZE);
  }

  lemma CutBlocks(t: Representation, chunks: seq<Chunk>, blocks: seq<Chunk>)
    requires var all := BlockMode.Blocks(Flatten(chunks), WIRE_CHUNK_SIZE); blocks == all[..|all| - 1]
    ensures IsCutEncoding(ModeB, t, chunks, FullPieces(Flatten(blocks), WIRE_CHUNK_SIZE))
  {
    forall more: seq<Chunk>
      ensures OpensEncoding(ModeB, t, chunks + more, FullPieces(Flatten(blocks), WIRE_CHUNK_SIZE))
    {
      FlattenConcat(chunks, more);
      BlockMode.BlocksExtend(Flatten(chunks), Flatten(more), WIRE_CHUNK_SIZE);
      var whole := BlockMode.Blocks(Flatten(chunks + more), WIRE_CHUNK_SIZE);
      PiecesOpen(blocks, whole);
      assert IsEncoded(ModeB, t, chunks + more, Rechunk(Flatten(whole), WIRE_CHUNK_SIZE));
    }
  }

  lemma CutCompressed(t: Representation, chunks: seq<Chunk>, out: seq<Chunk>)
    requires IsCutShort(out, Flatten(chunks), FillerOf(t))
    ensures IsCutEncoding(ModeC, t, chunks, FullPieces(Flatten(out), WIRE_CHUNK_SIZE))
  {
    forall more: seq<Chunk>
      ensures OpensEncoding(ModeC, t, chunks + more, FullPieces(Flatten(out), WIRE_CHUNK_SIZE))
    {
      FlattenConcat(chunks, more);
      var whole := CutShortExtends(out, Flatten(chunks), Flatten(more), FillerOf(t));
      PiecesOpen(out, whole);
      assert IsEncoded(ModeC, t, chunks + more, Rechunk(Flatten(whole), WIRE_CHUNK_SIZE));
    }
  }

  lemma CutStream(t: Representation, chunks: seq<Chunk>)
    ensures IsCutEncoding(ModeS, t, chunks, chunks)
  {
    forall more: seq<Chunk> ensures OpensEncoding(ModeS, t, chunks + more, chunks) {
      assert IsEncoded(ModeS, t, chunks + more, chunks + more);
    }
  }

  /** The wire chunks that the sender does emit for these file chunks: in Compressed mode its encoder's own. */
  ghost predicate IsSent(mode: Mode, t: Representation, chunks: seq<Chunk>, wire: seq<Chunk>) {
    match mode
    case ModeS => wire == chunks
    case ModeB => wire == Rechunk(Flatten(BlockMode.Blocks(Flatten(chunks), 1024)), 1024)
    case ModeC => exists out :: IsEncoderOutput(out, chunks, FillerOf(t)) && wire == Rechunk(Flatten(out), 1024)
  }

  /** And those emitted when the source raises. */
  ghost predicate IsSentBeforeRaise(mode: Mode, t: Representation, chunks: seq<Chunk>, wire: seq<Chunk>) {
    match mode
    case ModeS => wire == chunks
    case ModeB =>
      var all := BlockMode.Blocks(Flatten(chunks), 1024);
      wire == FullPieces(Flatten(all[..|all| - 1]), 1024)
    case ModeC => exists out :: IsCutShort(out, Flatten(chunks), FillerOf(t)) && wire == FullPieces(Flatten(out), 1024)
  }

  method EncodeChunks(chunks: seq<Chunk>, ending: Ending, mode: Mode, t: Representation)
    returns (wire: seq<Chunk>, end: End)
    ensures end == if ending.Stops? then Finished else Interrupted
    ensures ending.Stops? ==> IsSent(mode, t, chunks, wire) && IsEncoded(mode, t, chunks, wire)
    ensures ending.Raises? ==> IsSentBeforeRaise(mode, t, chunks, wire) && IsCutEncoding(mode, t, chunks, wire)
  {
    end := if ending.Stops? then Finished else Interrupted;
    match mode
    case ModeS =>
      wire := chunks;
      CutStream(t, chunks);
    case ModeB =>
      var e := BlockMode.Encode(chunks, ending, WIRE_CHUNK_SIZE);
      wire := BatchWire(e.blocks, ending, WIRE_CHUNK_SIZE);
      if ending.Raises? {
        CutBlocks(t, chunks, e.blocks);
      }
    case ModeC =>
      var out, _ := CompressedMode.Encode(chunks, ending, t);
      wire := BatchWire(out, ending, WIRE_CHUNK_SIZE);
      if ending.Raises? {
        CutCompressed(t, chunks, out);
      }
  }

  /** The reading of delivered wire chunks in a mode. */
  function ParseMode(mode: Mode, t: Representation, chunks: seq<Chunk>, ending: Ending): Parse {
    match mode
    case ModeS => Parse(Flatten(chunks), if ending.Stops? then Finished else Interrupted)
    case ModeB => BlockMode.ParseChunks(chunks, ending)
    case ModeC => ParseItems(Flatten(chunks), FillerOf(t), ending)
  }

  method DecodeChunks(chunks: seq<Chunk>, ending: Ending, mode: Mode, t: Representation)
    returns (out: seq<Chunk>, end: End)
    ensures Parse(Flatten(out), end) == ParseMode(mode, t, chunks, ending)
  {
    match mode
    case ModeS =>
      out, end := chunks, if ending.Stops? then Finished else Interrupted;
    case ModeB =>
      out, end := BlockMode.Decode(chunks, ending);
    case ModeC =>
      out, end := CompressedMode.Decode(chunks, ending, t);
  }

  /**
   * Mode round trip: for every file, every chunking of it, every wire the encoder may emit and
   * every re-chunking of that wire, decoding with the same mode and type gives the file back,
   * except exactly when Block mode is handed an empty last chunk.
   */
  lemma ModeRoundTrip(mode: Mode, t: Representation, chunks: seq<Chunk>, wire: seq<Chunk>, delivered: seq<Chunk>)
    requires IsEncoded(mode, t, chunks, wire)
    requires Flatten(delivered) == Flatten(wire)
    ensures ParseMode(mode, t, delivered, Stops) == Parse(Flatten(chunks), Finished)
      <==> !(mode.ModeB? && BlockMode.EndsEmpty(delivered))
  {
    match mode
    case ModeS =>
    case ModeB =>
      BlockMode.BlockRoundTrip(Flatten(chunks), WIRE_CHUNK_SIZE);
      RechunkShape(Flatten(BlockMode.Blocks(Flatten(chunks), WIRE_CHUNK_SIZE)), WIRE_CHUNK_SIZE);
    case ModeC =>
      var out :| IsCompressed(out, Flatten(chunks), FillerOf(t)) && wire == Rechunk(Flatten(out), WIRE_CHUNK_SIZE);
      RechunkShape(Flatten(out), WIRE_CHUNK_SIZE);
      CompressedRoundTrip(out, Flatten(chunks), FillerOf(t));
  }

  /** No proper prefix and no proper extension of an accepted framed wire is accepted. */
  lemma FramedPrefixFree(mode: Mode, t: Representation, a: seq<Chunk>, b: seq<Chunk>)
    requires !mode.ModeS?
    requires ParseMode(mode, t, a, Stops).end.Finished? && ParseMode(mode, t, b, Stops).end.Finished?
    requires Flatten(a) <= Flatten(b)
    ensures Flatten(a) == Flatten(b)
  {
    var w, extra := Flatten(a), Flatten(b)[|Flatten(a)|..];
    assert Flatten(b) == w + extra;
    if extra != [] {
      if mode.ModeB? {
        BlockMode.BlockPrefixFree(w, extra);
      } else {
        CompressedPrefixFree(w, extra, FillerOf(t));
      }
    }
  }

  /**
   * A decoder does not take back: what it has passed on when `chunks` are all that it could pull
   * is a prefix of what it passes on in the end, whatever comes behind them and however that ends.
   */
  lemma ModeCausal(mode: Mode, t: Representation, chunks: seq<Chunk>, whole: seq<Chunk>, ending: Ending)
    requires chunks <= whole
    ensures ParseMode(mode, t, chunks, Raises).data <= ParseMode(mode, t, whole, ending).data
  {
    FlattenPrefix(whole, |chunks|);
    assert whole[..|chunks|] == chunks;
    var w, extra := Flatten(chunks), Flatten(whole)[|Flatten(chunks)|..];
    assert Flatten(whole) == w + extra;
    match mode
    case ModeS =>
    case ModeB => BlockMode.BlockCausal(w, extra, ending);
    case ModeC => CompressedCausal(w, extra, FillerOf(t), ending);
  }

  lemma ModeData(mode: Mode, t: Representation, chunks: seq<Chunk>, e: Ending, e': Ending)
    ensures ParseMode(mode, t, chunks, e).data == ParseMode(mode, t, chunks, e').data
  {
    BlockMode.BlockData(Flatten(chunks), e, e');
    CompressedData(Flatten(chunks), FillerOf(t), e, e');
  }

  /** A decoder finishes only if its source stopped of its own accord. */
  lemma FinishNeedsStop(mode: Mode, t: Representation, chunks: seq<Chunk>, ending: Ending)
    requires ParseMode(mode, t, chunks, ending).end.Finished?
    ensures ending.Stops?
  {
    if ending.Raises? {
      BlockMode.BlockNeedsStop(Flatten(chunks));
      CompressedNeedsStop(Flatten(chunks), FillerOf(t));
    }
  }

  /** Every wire chunk of a file read in pieces of 1024 bytes fits a datagram, and none is empty. */
  lemma WireChunksFit(mode: Mode, t: Representation, content: Chunk, wire: seq<Chunk>)
    requires IsEncoded(mode, t, FilePieces(content, WIRE_CHUNK_SIZE), wire)
    ensures forall i :: 0 <= i < |wire| ==> 1 <= |wire[i]| <= 1024
    ensures !mode.ModeS? ==> wire != []
    ensures wire == [] ==> content == []
  {
    RechunkShape(content, WIRE_CHUNK_SIZE);
    match mode
    case ModeS =>
    case ModeB =>
      var blocks := BlockMode.Blocks(Flatten(FilePieces(content, WIRE_CHUNK_SIZE)), WIRE_CHUNK_SIZE);
      RechunkShape(Flatten(blocks), WIRE_CHUNK_SIZE);
      assert Flatten(blocks) == blocks[0] + Flatten(blocks[1..]);
    case ModeC =>
      var out :| IsCompressed(out, Flatten(FilePieces(content, WIRE_CHUNK_SIZE)), FillerOf(t))
        && wire == Rechunk(Flatten(out), WIRE_CHUNK_SIZE);
      RechunkShape(Flatten(out), WIRE_CHUNK_SIZE);
      CompressedRoundTrip(out, Flatten(FilePieces(content, WIRE_CHUNK_SIZE)), FillerOf(t));
  }
}
