/** The client's download: receive, decode, and put the file in place in one step. */
module Download {
  import opened Bytes
  import opened ChunkFeed
  import opened PathLocks
  import opened ModeCodec
  import opened RdtReceiver
  import opened AtomicUpload
  import TransferManager
  import EndToEnd
  import GoBackN

  class LocalFiles {
    var files: map<Key, Chunk>
    var temps: map<Key, Chunk>

    constructor (files: map<Key, Chunk>)
      ensures this.files == files && temps == map[]
    {
      this.files, temps := files, map[];
    }

    /** The write loop: the write after the `prior` operations already done may fail. */
    method WriteAll(temp: Key, chunks: seq<Chunk>, fault: Fault, prior: nat) returns (ok: bool, written: nat)
      requires temp in temps
      modifies this`temps
      ensures temp in temps && temps - {temp} == old(temps) - {temp}
      ensures ok <==> (chunks != [] ==> !Strikes(fault.at, prior + |chunks| - 1))
      ensures ok ==> written == |Flatten(chunks)| && temps[temp] == old(temps)[temp] + Flatten(chunks)
    {
      written := 0;
      for k := 0 to |chunks|
        invariant temp in temps && temps - {temp} == old(temps) - {temp}
        invariant temps[temp] == old(temps)[temp] + Flatten(chunks[..k]) && written == |Flatten(chunks[..k])|
        invariant k > 0 ==> !Strikes(fault.at, prior + k - 1)
      {
        if Strikes(fault.at, prior + k) {
          return false, written;
        }
        FlattenSnoc(chunks[..k], chunks[k]);
        assert chunks[..k + 1] == chunks[..k] + [chunks[k]];
        temps := temps[temp := temps[temp] + chunks[k]];
        written := written + |chunks[k]|;
      }
      assert chunks[..|chunks|] == chunks;
      ok := true;
    }

    /**
     * The atomic write of a download. Its operations are making the directory, making the
     * temporary file, one write for each chunk, the sync and the replacement; it commits exactly when
     * none of them fails and the source does not raise, and otherwise leaves no trace.
     */
    method WriteAtomic(path: Key, chunks: seq<Chunk>, sourceRaises: bool, fault: Fault, temp: Key)
      returns (o: Outcome)
      requires temp !in temps
      modifies this
      ensures temps == old(temps)
      ensures o.Committed? <==> !sourceRaises && !Strikes(fault.at, |chunks| + 3)
      ensures o.Committed? ==> o.written == |Flatten(chunks)| && files == old(files)[path := Flatten(chunks)]
      ensures o.Failed? ==> files == old(files) && IsBlamed(o.cause, sourceRaises, Never, fault)
    {
      if Strikes(fault.at, 1) {
        return Failed(IoError(fault.kind));
      }
      temps := temps[temp := []];
      var ok, written := WriteAll(temp, chunks, fault, 2);
      if !ok || sourceRaises || Strikes(fault.at, |chunks| + 3) {
        temps := temps - {temp};
        return Failed(if ok && sourceRaises then SourceRaised else IoError(fault.kind));
      }
      assert [] + Flatten(chunks) == Flatten(chunks);
      files := files[path := temps[temp]];
      temps := temps - {temp};
      o := Committed(written);
    }
  }

  datatype Receipt = Running | Ended(ok: bool)

  /**
   * Receive a file: it is replaced by what was decoded, or left as it was. A malformed wire or a failed
   * file operation ends it at once, whatever the receiver has still to come.
   */
  method ReceiveFile(local: LocalFiles, ses: Settings, script: seq<Event>, path: Key, fault: Fault, temp: Key)
    returns (r: Receipt)
    requires temp !in local.temps
    modifies local
    ensures r.Ended? ==> local.temps == old(local.temps)
    ensures r.Running? ==> TransferManager.IsWaiting(ses, script)
    ensures r == Ended(true) ==>
      && Listen(ses, BootReceiver(), script).0.phase.Returned?
      && TransferManager.Decoded(ses, script).end.Finished?
      && local.files == old(local.files)[path := TransferManager.Decoded(ses, script).data]
    ensures r != Ended(true) ==> local.files == old(local.files)
    ensures fault.at.Never? ==>
      r == if TransferManager.IsWaiting(ses, script) then Running
           else Ended(TransferManager.Decoded(ses, script).end.Finished?)
  {
    var chunks, _, phase, _, _ := ReceiveChunks(ses, script);
    var ending := if phase.Returned? then Stops else Raises;
    var decoded, end := DecodeChunks(chunks, ending, ses.mode, ses.t);
    assert Parse(Flatten(decoded), end) == TransferManager.Decoded(ses, script);
    if end.Finished? {
      FinishNeedsStop(ses.mode, ses.t, chunks, ending);
    }
    // a receiver that is not over has nothing more to give yet, and the loop stands still there
    var waits := !phase.Returned? && !phase.Raised? && end.Interrupted?;
    var o := local.WriteAtomic(path, decoded, !end.Finished?, fault, temp);
    r := if waits && o == Failed(SourceRaised) then Running else Ended(o.Committed?);
  }

  /**
   * Whatever a receiver that returned has met, decoding what it delivered finishes and gives
   * exactly the file that the other side read.
   */
  lemma DownloadIsExact(tr: EndToEnd.Transfer, y: GoBackN.System, script: seq<Event>)
    requires EndToEnd.IsHonest(tr) && GoBackN.Reachable(tr.link, y)
    requires y.r == Listen(tr.link.ses, BootReceiver(), script).0 && y.r.phase.Returned?
    ensures TransferManager.Decoded(tr.link.ses, script) == Parse(tr.content, Finished)
  {
    GoBackN.ReachableInv(tr.link, y);
    EndToEnd.ReturnedDecodes(tr, y);
  }

  /**
   * A download over a link whose far end is honest, on a script that brings the receiver where it is in
   * some run of the system: success puts exactly the far end's file in place, anything else leaves the
   * old file, and a receiver that returned fails only for a file operation.
   */
  method DownloadFile(local: LocalFiles, ghost tr: EndToEnd.Transfer, ghost y: GoBackN.System,
                      ses: Settings, script: seq<Event>, path: Key, fault: Fault, temp: Key)
    returns (r: Receipt)
    requires temp !in local.temps
    requires EndToEnd.IsHonest(tr) && tr.link.ses == ses && GoBackN.Reachable(tr.link, y)
    requires y.r == Listen(ses, BootReceiver(), script).0
    modifies local
    ensures r == Ended(true) ==> local.files == old(local.files)[path := tr.content]
    ensures r != Ended(true) ==> local.files == old(local.files)
    ensures y.r.phase.Returned? && fault.at.Never? ==> r == Ended(true)
  {
    if y.r.phase.Returned? {
      DownloadIsExact(tr, y, script);
    }
    r := ReceiveFile(local, ses, script, path, fault, temp);
  }
}
