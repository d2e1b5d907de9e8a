/** One upload: write a temporary file, then put it in the target's place in one step. */
module AtomicUpload {
  import opened Bytes
  import opened PathLocks

  /** What kind of error a file operation fails with: the replies differ. */
  datatype ErrorKind = BadValue | PathProblem | OtherError

  datatype Cause = NoParent | IsDirectory | Cancelled | SourceRaised | IoError(kind: ErrorKind)

  datatype Outcome = Committed(written: nat) | Failed(cause: Cause)

  /** When something goes wrong: never, or from the n-th occasion (counted from 0) on. */
  datatype Moment = Never | From(n: nat)

  /** When file operations fail, and with what kind of error. */
  datatype Fault = Fault(at: Moment, kind: ErrorKind)

  /** Each failure has its reason. */
  predicate IsBlamed(c: Cause, sourceRaises: bool, cancel: Moment, fault: Fault) {
    match c
    case Cancelled => cancel.From?
    case IoError(kind) => fault.at.From? && kind == fault.kind
    case SourceRaised => sourceRaises
    case _ => false
  }

  predicate Strikes(m: Moment, occasion: nat) {
    m.From? && m.n <= occasion
  }

  /** What an upload of `payload` leaves in the target. */
  function Stored(files: map<Key, Chunk>, path: Key, append: bool, payload: Chunk): Chunk {
    (if append && path in files then files[path] else []) + payload
  }

  class FilesystemService {
    var files: map<Key, Chunk>
    var temps: map<Key, Chunk>
    const directories: set<Key>

    constructor (files: map<Key, Chunk>, directories: set<Key>)
      ensures this.files == files && temps == map[] && this.directories == directories
    {
      this.files, this.temps, this.directories := files, map[], directories;
    }

    /** Remove the temporary file, if it is still there. */
    method Discard(temp: Key)
      modifies this`temps
      ensures temps == old(temps) - {temp}
    {
      temps := temps - {temp};
    }

    /** The number of file operations of a complete upload: make, copy if appending, writes, sync, replace. */
    function Operations(path: Key, chunks: seq<Chunk>, append: bool): nat
      reads this`files
    {
      3 + |chunks| + if append && path in files then 1 else 0
    }

    /**
     * The write loop: the cancel event is checked before each chunk, and the write after the
     * `prior` operations already done may fail.
     */
    method WriteAll(temp: Key, chunks: seq<Chunk>, cancel: Moment, fault: Fault, prior: nat) returns (o: Outcome)
      requires temp in temps
      modifies this`temps
      ensures temp in temps && temps - {temp} == old(temps) - {temp}
      ensures o.Committed? <==>
        (chunks != [] ==> !Strikes(cancel, |chunks| - 1) && !Strikes(fault.at, prior + |chunks| - 1))
      ensures o.Committed? ==> o.written == |Flatten(chunks)| && temps[temp] == old(temps)[temp] + Flatten(chunks)
      ensures o.Failed? ==> IsBlamed(o.cause, false, cancel, fault)
    {
      var written := 0;
      assert old(temps)[temp] + Flatten(chunks[..0]) == old(temps)[temp];
      for k := 0 to |chunks|
        invariant temp in temps && temps - {temp} == old(temps) - {temp}
        invariant temps[temp] == old(temps)[temp] + Flatten(chunks[..k]) && written == |Flatten(chunks[..k])|
        invariant k > 0 ==> !Strikes(cancel, k - 1) && !Strikes(fault.at, prior + k - 1)
      {
        if Strikes(cancel, k) {
          return Failed(Cancelled);
        }
        if Strikes(fault.at, prior + k) {
          return Failed(IoError(fault.kind));
        }
        FlattenSnoc(chunks[..k], chunks[k]);
        assert chunks[..k + 1] == chunks[..k] + [chunks[k]];
        temps := temps[temp := temps[temp] + chunks[k]];
        written := written + |chunks[k]|;
      }
      assert chunks[..|chunks|] == chunks;
      o := Committed(written);
    }

    /** Fill the temporary file: the old content first if appending, then the chunks. */
    method Fill(path: Key, chunks: seq<Chunk>, sourceRaises: bool, append: bool,
                cancel: Moment, fault: Fault, temp: Key)
      returns (o: Outcome)
      requires temp in temps && temps[temp] == []
      modifies this`temps
      ensures temp in temps && temps - {temp} == old(temps) - {temp}
      ensures o.Committed? ==> o.written == |Flatten(chunks)|
      ensures o.Committed? ==>
        temps[temp] == (if append && path in files then files[path] + Flatten(chunks) else Flatten(chunks))
      ensures o.Committed? <==>
        && !sourceRaises && !Strikes(cancel, |chunks|)
        && !Strikes(fault.at, Operations(path, chunks, append) - 2)
      ensures o.Failed? ==> IsBlamed(o.cause, sourceRaises, cancel, fault)
    {
      var done := 1;
      if append && path in files {
        if Strikes(fault.at, done) {
          return Failed(IoError(fault.kind));
        }
        temps := temps[temp := files[path]];
        done := 2;
      }
      o := WriteAll(temp, chunks, cancel, fault, done);
      if o.Committed? {
        if sourceRaises {
          return Failed(SourceRaised);
        }
        if Strikes(cancel, |chunks|) {
          return Failed(Cancelled);
        }
        if Strikes(fault.at, done + |chunks|) {
          return Failed(IoError(fault.kind));
        }
      }
    }

    /**
     * Store or append `chunks` at `path`, under the path's lock. The chunk source may raise at
     * its end, the cancel event may be found set at any check, and any file operation may fail;
     * the upload commits exactly when none of that happens, and otherwise leaves no trace.
     */
    method Upload(path: Key, parent: Key, chunks: seq<Chunk>, sourceRaises: bool, append: bool,
                  cancel: Moment, fault: Fault, temp: Key)
      returns (o: Outcome)
      requires temp !in temps
      modifies this
      ensures temps == old(temps)
      ensures o.Committed? <==>
        && parent in directories && path !in directories && !sourceRaises
        && !Strikes(cancel, |chunks|) && !Strikes(fault.at, old(Operations(path, chunks, append)) - 1)
      ensures o.Committed? ==> o.written == |Flatten(chunks)|
      ensures o.Committed? ==>
        if append && path in old(files) then files == old(files)[path := old(files)[path] + Flatten(chunks)]
        else files == old(files)[path := Flatten(chunks)]
      ensures o.Failed? ==> files == old(files)
      ensures o == Failed(NoParent) <==> parent !in directories
      ensures o == Failed(IsDirectory) <==> parent in directories && path in directories
      ensures o.Failed? && parent in directories && path !in directories ==>
        IsBlamed(o.cause, sourceRaises, cancel, fault)
    {
      if parent !in directories {
        return Failed(NoParent);
      }
      if path in directories {
        return Failed(IsDirectory);
      }
      if Strikes(fault.at, 0) {
        return Failed(IoError(fault.kind));
      }
      temps := temps[temp := []];
      var operations := Operations(path, chunks, append);
      o := Fill(path, chunks, sourceRaises, append, cancel, fault, temp);
      if o.Committed? && Strikes(fault.at, operations - 1) {
        o := Failed(IoError(fault.kind));
      }
      if o.Failed? {
        Discard(temp);
        return;
      }
      files := files[path := temps[temp]];
      temps := temps - {temp};
    }
  }
}
