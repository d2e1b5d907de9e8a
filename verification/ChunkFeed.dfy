/** The chunk iterator and byte buffer that each codec generator closes over. */
module ChunkFeed {
  import opened Bytes

  /** How the upstream iterator ends: it stops, or it raises (a failed transport). */
  datatype Ending = Stops | Raises

  datatype Filled = Enough | Exhausted | Raised

  /** How a codec generator ends. */
  datatype End = Finished | Malformed | Interrupted

  /** The end of a reader that needed bytes which never came. */
  function Starved(ending: Ending): End {
    if ending.Stops? then Malformed else Interrupted
  }

  /** What reading a whole wire string gives: the bytes passed on, and how the reader ends. */
  datatype Parse = Parse(data: Chunk, end: End)

  function Prepend(head: Chunk, p: Parse): Parse {
    Parse(head + p.data, p.end)
  }

  lemma PrependTwice(a: Chunk, b: Chunk, p: Parse)
    ensures Prepend(a, Prepend(b, p)) == Prepend(a + b, p)
  {
    assert a + (b + p.data) == a + b + p.data;
  }

  /** The end of a reader that met its EOF mark with `extra` bytes behind it. */
  function EofVerdict(extra: int, ending: Ending): End {
    if extra > 0 then Malformed else if ending.Raises? then Interrupted else Finished
  }

  class Feed {
    const chunks: seq<Chunk>
    const ending: Ending
    var next: nat
    var buffer: Chunk
    /** Everything not consumed yet: the buffer, then the chunks not pulled. */
    ghost var rest: Chunk

    constructor (chunks: seq<Chunk>, ending: Ending)
      ensures this.chunks == chunks && this.ending == ending
      ensures next == 0 && buffer == []
      ensures Valid() && rest == Flatten(chunks)
    {
      this.chunks, this.ending, next, buffer, rest := chunks, ending, 0, [], Flatten(chunks);
      new;
      assert chunks[0..] == chunks;
    }

    ghost predicate Valid()
      reads this
    {
      next <= |chunks| && rest == buffer + Flatten(chunks[next..])
    }

    /** Pull chunks until the buffer holds `needed` bytes, and no further. */
    method Fill(needed: nat) returns (o: Filled)
      requires Valid()
      modifies this`next, this`buffer
      ensures Valid() && old(buffer) <= buffer <= rest && old(next) <= next
      ensures o.Enough? <==> |rest| >= needed
      ensures o.Enough? ==> |buffer| >= needed
      ensures o.Enough? ==> next == old(next) || chunks[next - 1] != []
      ensures !o.Enough? ==> next == |chunks| && buffer == rest
      ensures !o.Enough? ==> o == (if ending.Stops? then Exhausted else Raised)
      ensures |old(buffer)| >= needed ==> next == old(next) && buffer == old(buffer)
    {
      while |buffer| < needed
        invariant Valid() && old(buffer) <= buffer && old(next) <= next
        invariant |buffer| >= needed ==> next == old(next) || chunks[next - 1] != []
        invariant |old(buffer)| >= needed ==> next == old(next) && buffer == old(buffer)
        decreases |chunks| - next
      {
        if next == |chunks| {
          assert chunks[next..] == [];
          return if ending.Stops? then Exhausted else Raised;
        }
        FlattenSplit(chunks, next);
        buffer := buffer + chunks[next];
        next := next + 1;
      }
      o := Enough;
    }

    /** Remove and return the first `count` buffered bytes. */
    method Take(count: nat) returns (head: Chunk)
      requires Valid() && count <= |buffer|
      modifies this`buffer, this`rest
      ensures Valid() && head == old(buffer)[..count] && buffer == old(buffer)[count..]
      ensures head == old(rest)[..count] && rest == old(rest)[count..] && old(rest) == head + rest
    {
      head := buffer[..count];
      buffer := buffer[count..];
      rest := rest[count..];
    }
  }
}
