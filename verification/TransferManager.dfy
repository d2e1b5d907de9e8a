/** The server's upload path: receive, decode, commit, and the reply that goes back. */
module TransferManager {
  import opened Bytes
  import opened PathLocks
  import opened ChunkFeed
  import opened ModeCodec
  import opened RdtReceiver
  import opened AtomicUpload

  datatype TransferResult = TransferResult(success: bool, replyCode: nat, bytes: nat) | StillReceiving

  /** The reply for a failed upload. */
  function ReplyFor(c: Cause): nat {
    match c
    case NoParent => 550
    case IsDirectory => 550
    case Cancelled => 426
    case SourceRaised => 426
    case IoError(kind) => match kind case BadValue => 501 case PathProblem => 550 case OtherError => 451
  }

  /** How the receiver generator has ended. */
  function EndingOf(phase: RPhase): Ending {
    if phase.Returned? then Stops else Raises
  }

  /** What the receiver's run on a script gives the decoder to read. */
  function Decoded(ses: Settings, script: seq<Event>): Parse {
    var r := Listen(ses, BootReceiver(), script).0;
    ParseMode(ses.mode, ses.t, r.delivered, EndingOf(r.phase))
  }

  /** The target is one that an upload may have. */
  predicate IsPossible(directories: set<Key>, path: Key, parent: Key) {
    parent in directories && path !in directories
  }

  /** The write loop waits for the next datagram: the receiver is not over, and the wire is not refused so far. */
  predicate IsWaiting(ses: Settings, script: seq<Event>) {
    !IsOver(Listen(ses, BootReceiver(), script).0) && Decoded(ses, script).end.Interrupted?
  }

  /**
   * STOR and APPE. An upload succeeds only if the receiver returned and the decoder finished, and
   * then the target holds the decoded bytes; otherwise no file is touched. An impossible target, a
   * malformed wire, a cancel or a failed file operation ends it at once, whatever the receiver has still to come.
   */
  method Receive(service: FilesystemService, ses: Settings, script: seq<Event>, path: Key, parent: Key, append: bool,
                 cancel: Moment, fault: Fault, temp: Key)
    returns (result: TransferResult)
    requires temp !in service.temps
    modifies service
    ensures result.TransferResult? ==> service.temps == old(service.temps)
    ensures result.StillReceiving? ==> IsWaiting(ses, script) && IsPossible(service.directories, path, parent)
    ensures result.TransferResult? && result.success ==>
      && Listen(ses, BootReceiver(), script).0.phase.Returned?
      && Decoded(ses, script).end.Finished?
      && service.files == old(service.files)[path :=
           if append && path in old(service.files) then old(service.files)[path] + Decoded(ses, script).data
           else Decoded(ses, script).data]
      && result == TransferResult(true, 226, |Decoded(ses, script).data|)
    ensures result.StillReceiving? || !result.success ==> service.files == old(service.files)
    ensures !IsPossible(service.directories, path, parent) ==> result == TransferResult(false, 550, 0)
    ensures cancel.Never? && fault.at.Never? && IsPossible(service.directories, path, parent) ==>
      match Decoded(ses, script).end
      case Finished => result.TransferResult? && result.success
      case Malformed => result == TransferResult(false, 426, 0)
      case Interrupted => result == if IsWaiting(ses, script) then StillReceiving else TransferResult(false, 426, 0)
    ensures (cancel.Never? && IsPossible(service.directories, path, parent)
             && Decoded(ses, script).end.Finished? && result.TransferResult? && !result.success) ==>
      result == TransferResult(false, if fault.kind.BadValue? then 501 else if fault.kind.PathProblem? then 550 else 451, 0)
    ensures (fault.at.Never? && IsPossible(service.directories, path, parent) && result.TransferResult? && !result.success) ==>
      result == TransferResult(false, 426, 0)
  {
    var chunks, _, phase, _, _ := ReceiveChunks(ses, script);
    var ending := if phase.Returned? then Stops else Raises;
    var decoded, end := DecodeChunks(chunks, ending, ses.mode, ses.t);
    assert Parse(Flatten(decoded), end) == Decoded(ses, script);
    if end.Finished? {
      FinishNeedsStop(ses.mode, ses.t, chunks, ending);
    }
    // a receiver that is not over has nothing more to give yet, and the loop stands still there
    var waits := !phase.Returned? && !phase.Raised? && end.Interrupted?;
    var o := service.Upload(path, parent, decoded, !end.Finished?, append, cancel, fault, temp);
    if waits && o == Failed(SourceRaised) {
      return StillReceiving;
    }
    result := match o
      case Committed(written) => TransferResult(true, 226, written)
      case Failed(cause) => TransferResult(false, ReplyFor(cause), 0);
  }
}
