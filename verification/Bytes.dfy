/** Byte strings, and the joining of chunk sequences that every streaming part is judged by. */
module Bytes {

  type byte = x: int | 0 <= x < 256

  type Chunk = seq<byte>

  /** The byte string that a sequence of chunks carries. */
  function Flatten(chunks: seq<Chunk>): Chunk {
    if chunks == [] then [] else chunks[0] + Flatten(chunks[1..])
  }

  lemma FlattenOne(x: Chunk)
    ensures Flatten([x]) == x
  {
    assert Flatten([x]) == x + Flatten([]);
  }

  lemma FlattenCons(x: Chunk, rest: seq<Chunk>)
    ensures Flatten([x] + rest) == x + Flatten(rest)
  {
    assert ([x] + rest)[1..] == rest;
  }

  lemma Regroup(a: Chunk, b: Chunk, c: Chunk)
    ensures a + (b + c) == a + b + c
  {
  }

  lemma {:induction false} FlattenConcat(a: seq<Chunk>, b: seq<Chunk>)
    ensures Flatten(a + b) == Flatten(a) + Flatten(b)
  {
    if a == [] {
      assert a + b == b;
    } else {
      FlattenConcat(a[1..], b);
      FlattenCons(a[0], a[1..] + b);
      assert a + b == [a[0]] + (a[1..] + b);
      Regroup(a[0], Flatten(a[1..]), Flatten(b));
    }
  }

  lemma FlattenSnoc(a: seq<Chunk>, x: Chunk)
    ensures Flatten(a + [x]) == Flatten(a) + x
  {
    FlattenConcat(a, [x]);
    FlattenOne(x);
  }

  /** Pulling one more chunk moves it from the unread part to the read part. */
  lemma FlattenSplit(chunks: seq<Chunk>, k: nat)
    requires k < |chunks|
    ensures Flatten(chunks[k..]) == chunks[k] + Flatten(chunks[k + 1..])
  {
    assert chunks[k..][1..] == chunks[k + 1..];
  }

  /** A prefix of the chunks carries a prefix of the bytes. */
  lemma FlattenPrefix(chunks: seq<Chunk>, k: nat)
    requires k <= |chunks|
    ensures Flatten(chunks[..k]) <= Flatten(chunks)
  {
    FlattenConcat(chunks[..k], chunks[k..]);
    assert chunks[..k] + chunks[k..] == chunks;
  }

  /** Fixed-size re-cutting: full pieces, then a shorter non-empty remainder if one is left. */
  function Rechunk(data: Chunk, size: nat): (pieces: seq<Chunk>)
    requires size >= 1
  {
    if |data| < size then
      if data == [] then [] else [data]
    else
      [data[..size]] + Rechunk(data[size..], size)
  }

  lemma {:induction false} RechunkShape(data: Chunk, size: nat)
    requires size >= 1
    ensures Flatten(Rechunk(data, size)) == data
    ensures forall i :: 0 <= i < |Rechunk(data, size)| ==> 1 <= |Rechunk(data, size)[i]| <= size
    ensures forall i :: 0 <= i < |Rechunk(data, size)| - 1 ==> |Rechunk(data, size)[i]| == size
  {
    if |data| >= size {
      RechunkShape(data[size..], size);
      var rest := Rechunk(data[size..], size);
      assert Rechunk(data, size)[1..] == rest;
      assert data[..size] + data[size..] == data;
    } else if data != [] {
      assert Rechunk(data, size) == [data];
      FlattenOne(data);
    }
  }
}
