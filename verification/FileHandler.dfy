/** Reading a local file in pieces. */
module FileHandler {
  import opened Bytes

  datatype Reading = NotFound | Pieces(chunks: seq<Chunk>)

  datatype MaybeFile = Missing | File(content: Chunk)

  /** What reading a file in pieces yields; as in Python, size 0 reads nothing and a negative size reads all. */
  function FilePieces(content: Chunk, size: int): seq<Chunk> {
    if size == 0 || content == [] then []
    else if size < 0 then [content]
    else Rechunk(content, size)
  }

  /** One `read(size)` with `rest` left in the file. */
  function ReadSome(rest: Chunk, size: int): Chunk {
    if size < 0 || |rest| <= size then rest else rest[..size]
  }

  /** One more piece off the front of the file. */
  lemma PieceStep(rest: Chunk, size: int)
    requires ReadSome(rest, size) != []
    ensures var piece := ReadSome(rest, size);
      FilePieces(rest, size) == [piece] + FilePieces(rest[|piece|..], size)
  {
    var piece := ReadSome(rest, size);
    if size >= 1 && |rest| <= size {
      assert rest[|piece|..] == [] && rest[..|rest|] == rest;
      assert Rechunk(rest, size) == [rest];
    }
  }

  method ReadFileChunks(file: MaybeFile, size: int) returns (r: Reading)
    ensures r == match file case Missing => NotFound case File(content) => Pieces(FilePieces(content, size))
  {
    if file.Missing? {
      return NotFound;
    }
    var rest, out: seq<Chunk> := file.content, [];
    while true
      invariant FilePieces(file.content, size) == out + FilePieces(rest, size)
      decreases |rest|
    {
      var piece := ReadSome(rest, size);
      if piece == [] {
        break;
      }
      PieceStep(rest, size);
      out := out + [piece];
      rest := rest[|piece|..];
    }
    r := Pieces(out);
  }

  /** Pieces of at least one byte carry the whole file. */
  lemma FilePiecesJoin(content: Chunk, size: int)
    requires size != 0
    ensures Flatten(FilePieces(content, size)) == content
  {
    if size >= 1 {
      RechunkShape(content, size);
    } else if content != [] {
      FlattenOne(content);
    }
  }
}
