/** The whole of an upload: file, encoder, Go-Back-N over any network, decoder, atomic commit under locks. */
module EndToEnd {
  import opened Bytes
  import opened ChunkFeed
  import opened PathLocks
  import opened FileHandler
  import opened ModeCodec
  import opened AtomicUpload
  import R = RdtSender
  import G = GoBackN
  import T = ReliableTransfer
  import U = UploadSystem
  import L = LockSystem
  import V = RdtReceiver
  import M = TransferManager

  /** One client's upload: what it sends, over which link, and what it asked the server for (STOU: in which directory). */
  datatype Transfer = Transfer(op: U.Op, path: Key, content: Chunk, link: G.Link)

  /** The sender's chunks are an encoding of the file read in pieces, in the sender's mode and type. */
  ghost predicate IsHonest(tr: Transfer) {
    IsEncoded(tr.link.cfg.mode, tr.link.cfg.t, FilePieces(tr.content, WIRE_CHUNK_SIZE), tr.link.cfg.chunks)
  }

  /** All clients' networks, and the server's uploads. Thread t serves transfer t. */
  datatype World = World(nets: seq<G.System>, up: U.World)

  datatype Step = Net(net: G.Step) | Up(up: U.Step)

  function Initial(trs: seq<Transfer>, files: map<Key, Chunk>): World {
    World(seq(|trs|, i requires 0 <= i < |trs| => G.Initial(trs[i].link)), U.Initial(files, |trs|))
  }

  /** What the decoder has passed on by now: all that the chunks delivered so far give. */
  function DecodedSoFar(tr: Transfer, net: G.System): Chunk {
    ParseMode(tr.link.ses.mode, tr.link.ses.t, net.r.delivered, Raises).data
  }

  /** The write loop writes what the decoder has passed on, in order, and may lag behind it. */
  predicate MayWrite(tr: Transfer, net: G.System, job: U.Job, chunk: Chunk) {
    job.written + chunk <= DecodedSoFar(tr, net)
  }

  /**
   * The write loop is over: the receiver has ended, one way or the other, the decoder has ended on
   * that without an error, and everything that it passed on is written.
   */
  predicate MayCommit(tr: Transfer, net: G.System, job: U.Job) {
    && (net.r.phase.Returned? || net.r.phase.Raised?)
    && var p := ParseMode(tr.link.ses.mode, tr.link.ses.t, net.r.delivered, M.EndingOf(net.r.phase));
       p.end.Finished? && job.written == p.data
  }

  ghost predicate Enabled(trs: seq<Transfer>, w: World, t: nat, step: Step) {
    && t < |trs| && t < |w.nets| && t < |w.up.jobs|
    && match step
       case Net(n) => G.Enabled(w.nets[t], n)
       case Up(u) =>
         && U.Enabled(w.up, t, u)
         && (u.Start? ==> u.op == trs[t].op && u.path == trs[t].path)
         && (u.Write? ==> MayWrite(trs[t], w.nets[t], w.up.jobs[t], u.chunk))
         && (u.Replace? ==> MayCommit(trs[t], w.nets[t], w.up.jobs[t]))
  }

  ghost function Next(trs: seq<Transfer>, w: World, t: nat, step: Step): World
    requires Enabled(trs, w, t, step)
  {
    match step
    case Net(n) => w.(nets := w.nets[t := G.Next(trs[t].link, w.nets[t], n)])
    case Up(u) => w.(up := U.Next(w.up, t, u))
  }

  datatype Move = Move(t: nat, step: Step)

  ghost predicate IsRun(trs: seq<Transfer>, w: World, moves: seq<Move>)
    decreases |moves|
  {
    moves == [] ||
    (Enabled(trs, w, moves[0].t, moves[0].step) && IsRun(trs, Next(trs, w, moves[0].t, moves[0].step), moves[1..]))
  }

  ghost function After(trs: seq<Transfer>, w: World, moves: seq<Move>): World
    requires IsRun(trs, w, moves)
    decreases |moves|
  {
    if moves == [] then w else After(trs, Next(trs, w, moves[0].t, moves[0].step), moves[1..])
  }

  ghost predicate Reachable(trs: seq<Transfer>, files: map<Key, Chunk>, w: World) {
    exists moves :: IsRun(trs, Initial(trs, files), moves) && After(trs, Initial(trs, files), moves) == w
  }

  /** The transfer can bring its file across: see `SomeRunCompletesIff`. */
  predicate CanComplete(tr: Transfer) {
    T.CanSend(tr.link) && T.GivesAll(tr.link.cfg)
  }

  /**
   * A commit stores the bytes of its client's file, for the operation and at the target that the client
   * asked for; for STOU, in the directory asked for and over no file that was there to begin with.
   */
  predicate IsTrueCommit(trs: seq<Transfer>, files: map<Key, Chunk>, c: U.Commit) {
    && c.tid < |trs|
    && c.op == trs[c.tid].op && c.payload == trs[c.tid].content
    && (if c.op.Stou? then L.IsIn(trs[c.tid].path, c.path) && c.path !in files else c.path == trs[c.tid].path)
    && CanComplete(trs[c.tid])
  }

  /** No two STOUs commit under one name, and what STOU replaces is a STOR's or an APPE's. */
  ghost predicate IsUnique(files: map<Key, Chunk>, log: seq<U.Commit>, i: nat)
    requires i < |log|
  {
    log[i].op.Stou? ==>
      && (forall k :: 0 <= k < |log| && k != i && log[k].path == log[i].path ==> !log[k].op.Stou?)
      && (log[i].path in U.Replay(files, log[..i]) ==>
            exists k :: 0 <= k < i && log[k].path == log[i].path && !log[k].op.Stou?)
  }

  /** A started upload does what its client asked for. */
  predicate JobMatches(tr: Transfer, j: U.Job) {
    j.stage.Idle? || (j.op == tr.op && j.asked == tr.path)
  }

  /** What an upload has written, its client's decoder has passed on. */
  predicate WrittenInv(tr: Transfer, net: G.System, j: U.Job) {
    j.written <= DecodedSoFar(tr, net)
  }

  ghost predicate Inv(trs: seq<Transfer>, files: map<Key, Chunk>, w: World) {
    && |w.nets| == |trs| == |w.up.jobs|
    && U.Inv(files, w.up)
    && (forall t {:trigger G.Inv(trs[t].link, w.nets[t])} :: 0 <= t < |trs| ==> G.Inv(trs[t].link, w.nets[t]))
    && (forall t {:trigger JobMatches(trs[t], w.up.jobs[t])} :: 0 <= t < |trs| ==> JobMatches(trs[t], w.up.jobs[t]))
    && (forall t {:trigger WrittenInv(trs[t], w.nets[t], w.up.jobs[t])} :: 0 <= t < |trs| ==>
          WrittenInv(trs[t], w.nets[t], w.up.jobs[t]))
    && (forall i :: 0 <= i < |w.up.log| ==> IsTrueCommit(trs, files, w.up.log[i]))
  }

  lemma InitialInv(trs: seq<Transfer>, files: map<Key, Chunk>)
    ensures Inv(trs, files, Initial(trs, files))
  {
    U.InitialInv(files, |trs|);
    forall t | 0 <= t < |trs| ensures G.Inv(trs[t].link, Initial(trs, files).nets[t]) {
      G.InitialInv(trs[t].link);
    }
  }

  /** All of an honest transfer's payloads together decode to the file, under the agreed mode and type. */
  lemma SentDecodes(tr: Transfer)
    requires IsHonest(tr) && G.Agrees(tr.link)
    ensures ParseMode(tr.link.ses.mode, tr.link.ses.t, T.Sent(tr.link), Stops) == Parse(tr.content, Finished)
  {
    var cfg := tr.link.cfg;
    R.PacketsCarry(cfg.chunks);
    ModeRoundTrip(cfg.mode, cfg.t, FilePieces(tr.content, WIRE_CHUNK_SIZE), cfg.chunks, T.Sent(tr.link));
    FilePiecesJoin(tr.content, WIRE_CHUNK_SIZE);
    WireChunksFit(cfg.mode, cfg.t, tr.content, cfg.chunks);
    if cfg.mode.ModeB? {
      assert T.Sent(tr.link) == cfg.chunks;
    }
  }

  /** A receiver that returned has delivered what decodes, without fail, to the file. */
  lemma ReturnedDecodes(tr: Transfer, net: G.System)
    requires IsHonest(tr) && G.Inv(tr.link, net) && net.r.phase.Returned?
    ensures ParseMode(tr.link.ses.mode, tr.link.ses.t, net.r.delivered, Stops) == Parse(tr.content, Finished)
  {
    SentDecodes(tr);
    var ps := R.Packets(tr.link.cfg.chunks);
    assert ps[..|ps|] == ps;
  }

  ghost predicate AllHonest(trs: seq<Transfer>) {
    forall i {:trigger IsHonest(trs[i])} :: 0 <= i < |trs| ==> IsHonest(trs[i]) && (trs[i].op.Stou? ==> L.IsResolved(trs[i].path))
  }

  /** At any time, what the decoder has passed on is a prefix of the client's file. */
  lemma SoFarIsPrefix(tr: Transfer, net: G.System)
    requires IsHonest(tr) && G.Inv(tr.link, net)
    ensures DecodedSoFar(tr, net) <= tr.content
  {
    if net.r.delivered != [] {
      SentDecodes(tr);
      ModeCausal(tr.link.ses.mode, tr.link.ses.t, net.r.delivered, T.Sent(tr.link), Stops);
    }
  }

  /** A write loop that is over has seen the receiver return, and has written the client's file. */
  lemma CommitCarriesFile(tr: Transfer, net: G.System, job: U.Job)
    requires IsHonest(tr) && G.Inv(tr.link, net) && MayCommit(tr, net, job)
    ensures net.r.phase.Returned? && CanComplete(tr) && job.written == tr.content
  {
    FinishNeedsStop(tr.link.ses.mode, tr.link.ses.t, net.r.delivered, M.EndingOf(net.r.phase));
    ReturnedDecodes(tr, net);
    T.ReturnNeedsSending(tr.link, net);
  }

  /** A commit that its client's write loop allows is its client's file, at the place asked for. */
  lemma CommitIsTrue(trs: seq<Transfer>, files: map<Key, Chunk>, t: nat, net: G.System, job: U.Job)
    requires t < |trs| && IsHonest(trs[t]) && G.Inv(trs[t].link, net) && MayCommit(trs[t], net, job)
    requires !job.stage.Idle? && JobMatches(trs[t], job) && U.IsPlaced(files, job)
    ensures job.written == trs[t].content
    ensures IsTrueCommit(trs, files, U.Commit(t, job.op, job.path, job.written))
  {
    CommitCarriesFile(trs[t], net, job);
  }

  /** What the invariant says of one client. */
  lemma ClientFacts(trs: seq<Transfer>, files: map<Key, Chunk>, w: World, t: nat)
    requires Inv(trs, files, w) && t < |trs|
    ensures t < |w.nets| && t < |w.up.jobs| && t < |w.up.locks.threads|
    ensures G.Inv(trs[t].link, w.nets[t]) && JobMatches(trs[t], w.up.jobs[t])
    ensures WrittenInv(trs[t], w.nets[t], w.up.jobs[t])
    ensures U.HasTemp(w.up.jobs[t]) ==> U.IsPlaced(files, w.up.jobs[t])
  {
    assert U.PlaceInv(files, w.up, t);
  }

  lemma ReplaceMeans(trs: seq<Transfer>, w: World, t: nat)
    requires Enabled(trs, w, t, Up(U.Replace))
    ensures w.up.jobs[t].stage.Writing? && MayCommit(trs[t], w.nets[t], w.up.jobs[t])
  {
  }

  lemma ReplaceIsTrue(trs: seq<Transfer>, files: map<Key, Chunk>, w: World, t: nat)
    requires AllHonest(trs) && Inv(trs, files, w) && Enabled(trs, w, t, Up(U.Replace))
    ensures w.up.jobs[t].written == trs[t].content
    ensures IsTrueCommit(trs, files, U.Commit(t, w.up.jobs[t].op, w.up.jobs[t].path, w.up.jobs[t].written))
  {
    ClientFacts(trs, files, w, t);
    ReplaceMeans(trs, w, t);
    CommitIsTrue(trs, files, t, w.nets[t], w.up.jobs[t]);
  }

  lemma LogKeeps(trs: seq<Transfer>, files: map<Key, Chunk>, w: U.World, t: nat)
    requires t < |trs| && U.Enabled(w, t, U.Replace)
    requires IsTrueCommit(trs, files, U.Commit(t, w.jobs[t].op, w.jobs[t].path, w.jobs[t].written))
    requires forall i :: 0 <= i < |w.log| ==> IsTrueCommit(trs, files, w.log[i])
    ensures var log := U.Next(w, t, U.Replace).log; forall i :: 0 <= i < |log| ==> IsTrueCommit(trs, files, log[i])
  {
  }

  lemma JobsKeep(trs: seq<Transfer>, w: World, t: nat, u: U.Step)
    requires |w.nets| == |trs| == |w.up.jobs| && Enabled(trs, w, t, Up(u))
    requires forall i :: 0 <= i < |trs| ==> JobMatches(trs[i], w.up.jobs[i])
    requires forall i :: 0 <= i < |trs| ==> WrittenInv(trs[i], w.nets[i], w.up.jobs[i])
    ensures var jobs := U.Next(w.up, t, u).jobs;
      |jobs| == |trs|
      && forall i :: 0 <= i < |trs| ==> JobMatches(trs[i], jobs[i]) && WrittenInv(trs[i], w.nets[i], jobs[i])
  {
    assert JobMatches(trs[t], w.up.jobs[t]) && WrittenInv(trs[t], w.nets[t], w.up.jobs[t]);
  }

  lemma UpKeeps(trs: seq<Transfer>, files: map<Key, Chunk>, w: World, t: nat, step: Step)
    requires AllHonest(trs) && Inv(trs, files, w) && step.Up? && Enabled(trs, w, t, step)
    ensures Inv(trs, files, Next(trs, w, t, step))
  {
    var u := step.up;
    U.StepKeeps(files, w.up, t, u);
    JobsKeep(trs, w, t, u);
    if u.Replace? {
      ReplaceIsTrue(trs, files, w, t);
      LogKeeps(trs, files, w.up, t);
    }
  }

  /** More chunks delivered leave what was passed on as it was. */
  lemma NetWritten(tr: Transfer, net: G.System, n: G.Step, j: U.Job)
    requires G.Enabled(net, n) && WrittenInv(tr, net, j)
    ensures WrittenInv(tr, G.Next(tr.link, net, n), j)
  {
    var net' := G.Next(tr.link, net, n);
    G.DeliveredGrows(tr.link, net, n);
    ModeCausal(tr.link.ses.mode, tr.link.ses.t, net.r.delivered, net'.r.delivered, Raises);
  }

  lemma NetKeeps(trs: seq<Transfer>, files: map<Key, Chunk>, w: World, t: nat, n: G.Step)
    requires Inv(trs, files, w) && Enabled(trs, w, t, Net(n))
    ensures Inv(trs, files, Next(trs, w, t, Net(n)))
  {
    G.StepKeeps(trs[t].link, w.nets[t], n);
    NetWritten(trs[t], w.nets[t], n, w.up.jobs[t]);
  }

  lemma StepKeeps(trs: seq<Transfer>, files: map<Key, Chunk>, w: World, t: nat, step: Step)
    requires AllHonest(trs) && Inv(trs, files, w) && Enabled(trs, w, t, step)
    ensures Inv(trs, files, Next(trs, w, t, step))
  {
    match step
    case Net(n) => NetKeeps(trs, files, w, t, n);
    case Up(u) => UpKeeps(trs, files, w, t, step);
  }

  lemma {:induction false} RunKeeps(trs: seq<Transfer>, files: map<Key, Chunk>, w: World, moves: seq<Move>)
    requires AllHonest(trs) && Inv(trs, files, w) && IsRun(trs, w, moves)
    ensures Inv(trs, files, After(trs, w, moves))
    decreases |moves|
  {
    if moves != [] {
      StepKeeps(trs, files, w, moves[0].t, moves[0].step);
      RunKeeps(trs, files, Next(trs, w, moves[0].t, moves[0].step), moves[1..]);
    }
  }

  lemma ReachableInv(trs: seq<Transfer>, files: map<Key, Chunk>, w: World)
    requires AllHonest(trs) && Reachable(trs, files, w)
    ensures Inv(trs, files, w)
  {
    var moves :| IsRun(trs, Initial(trs, files), moves) && After(trs, Initial(trs, files), moves) == w;
    InitialInv(trs, files);
    RunKeeps(trs, files, Initial(trs, files), moves);
  }

  /**
   * End to end. For any clients, files, modes, types and targets, and any behaviour of their
   * networks, the scheduler and the cancels and failures of the server, in every reachable state
   * the server's files are the old ones with the committed uploads applied in commit order, each
   * with exactly its client's file where the client asked for it; what no upload has committed to is as
   * it was; no two STOUs store under one name, and what one replaces is a STOR's or an APPE's; and a
   * transfer with differing mode or type, or whose source raises, has committed nothing.
   */
  lemma UploadsAreExact(trs: seq<Transfer>, files: map<Key, Chunk>, w: World)
    requires AllHonest(trs)
    requires Reachable(trs, files, w)
    ensures w.up.files == U.Replay(files, w.up.log)
    ensures forall i :: 0 <= i < |w.up.log| ==> IsTrueCommit(trs, files, w.up.log[i])
    ensures forall i :: 0 <= i < |w.up.log| ==> IsUnique(files, w.up.log, i)
    ensures forall i, j :: 0 <= i < |w.up.log| && 0 <= j < |w.up.log| && w.up.log[i].tid == w.up.log[j].tid ==> i == j
    ensures forall path :: (forall i :: 0 <= i < |w.up.log| ==> w.up.log[i].path != path) ==>
      ((path in w.up.files <==> path in files) && (path in files ==> w.up.files[path] == files[path]))
  {
    ReachableInv(trs, files, w);
    forall i | 0 <= i < |w.up.log| ensures IsUnique(files, w.up.log, i) {
      CommitIsUnique(trs, files, w, i);
    }
    forall path | forall i :: 0 <= i < |w.up.log| ==> w.up.log[i].path != path
      ensures (path in w.up.files <==> path in files) && (path in files ==> w.up.files[path] == files[path])
    {
      U.ReplayUntouched(files, w.up.log, path);
    }
  }

  lemma CommitIsUnique(trs: seq<Transfer>, files: map<Key, Chunk>, w: World, i: nat)
    requires Inv(trs, files, w) && i < |w.up.log|
    ensures IsUnique(files, w.up.log, i)
  {
    assert IsTrueCommit(trs, files, w.up.log[i]);
    if w.up.log[i].op.Stou? {
      forall k | 0 <= k < |w.up.log| && k != i && w.up.log[k].path == w.up.log[i].path ensures !w.up.log[k].op.Stou? {
        U.NoTwoStou(files, w.up, i, k);
      }
      if forall k :: 0 <= k < i ==> w.up.log[k].path != w.up.log[i].path {
        U.ReplayUntouched(files, w.up.log[..i], w.up.log[i].path);
      }
    }
  }

  /**
   * Before the commit. In every reachable state what a running upload has written is a prefix of its
   * client's file, and its temporary file holds just that, behind the target's content for APPE.
   */
  lemma RunningIsPrefix(trs: seq<Transfer>, files: map<Key, Chunk>, w: World, t: nat)
    requires AllHonest(trs) && Reachable(trs, files, w) && t < |trs|
    ensures t < |w.up.jobs| && w.up.jobs[t].written <= trs[t].content
    ensures w.up.jobs[t].stage.Writing? ==>
      var j := w.up.jobs[t];
      j.stage.temp in w.up.temps
      && w.up.temps[j.stage.temp] ==
           if trs[t].op.Appe? && j.path in w.up.files then w.up.files[j.path] + j.written else j.written
  {
    ReachableInv(trs, files, w);
    assert IsHonest(trs[t]) && JobMatches(trs[t], w.up.jobs[t]) && WrittenInv(trs[t], w.nets[t], w.up.jobs[t]);
    SoFarIsPrefix(trs[t], w.nets[t]);
    assert U.JobInv(w.up, t);
  }

  /**
   * One step of one upload: the commit puts the client's file in the target (behind the target's
   * old content for APPE), and no other step changes any file.
   */
  lemma CommitIsExact(trs: seq<Transfer>, files: map<Key, Chunk>, w: World, t: nat, step: Step)
    requires AllHonest(trs)
    requires Reachable(trs, files, w) && Enabled(trs, w, t, step)
    ensures var w', path := Next(trs, w, t, step), w.up.jobs[t].path;
      w'.up.files ==
        if !(step.Up? && step.up.Replace?) then w.up.files
        else if trs[t].op.Appe? && path in w.up.files then w.up.files[path := w.up.files[path] + trs[t].content]
        else w.up.files[path := trs[t].content]
    ensures step.Up? && step.up.Replace? ==>
      IsTrueCommit(trs, files, U.Commit(t, trs[t].op, w.up.jobs[t].path, trs[t].content))
  {
    ReachableInv(trs, files, w);
    if step.Up? {
      U.StepEffect(files, w.up, t, step.up);
      if step.up.Replace? {
        ReplaceIsTrue(trs, files, w, t);
      }
    }
  }

  /** The bytes of the client's file that an upload has not written yet. */
  function Rest(tr: Transfer, job: U.Job): Chunk {
    if |job.written| <= |tr.content| then tr.content[|job.written|..] else []
  }

  lemma RestIsDecoded(tr: Transfer, net: G.System, j: U.Job, j': U.Job)
    requires IsHonest(tr) && G.Inv(tr.link, net) && net.r.phase.Returned? && j.written <= tr.content
    requires j'.written == j.written + Rest(tr, j)
    ensures MayWrite(tr, net, j, Rest(tr, j)) && MayCommit(tr, net, j')
  {
    ReturnedDecodes(tr, net);
    ModeData(tr.link.ses.mode, tr.link.ses.t, net.r.delivered, Raises, Stops);
    assert j.written + Rest(tr, j) == tr.content;
  }

  lemma WriteThenReplace(trs: seq<Transfer>, w: World, t: nat, chunk: Chunk)
    requires t < |trs| && t < |w.nets| && t < |w.up.jobs| && t < |w.up.locks.threads|
    requires w.up.jobs[t].stage.Writing? && MayWrite(trs[t], w.nets[t], w.up.jobs[t], chunk)
    requires MayCommit(trs[t], w.nets[t], w.up.jobs[t].(written := w.up.jobs[t].written + chunk))
    ensures Enabled(trs, w, t, Up(U.Write(chunk)))
    ensures Enabled(trs, Next(trs, w, t, Up(U.Write(chunk))), t, Up(U.Replace))
  {
  }

  /**
   * A received file can always be committed: once the receiver has returned, an upload that is writing
   * can write the rest of the file, and after that it can commit.
   */
  lemma ReturnedCanCommit(trs: seq<Transfer>, files: map<Key, Chunk>, w: World, t: nat)
    requires AllHonest(trs) && Inv(trs, files, w) && t < |trs|
    requires w.nets[t].r.phase.Returned? && w.up.jobs[t].stage.Writing?
    ensures var write := Up(U.Write(Rest(trs[t], w.up.jobs[t])));
      Enabled(trs, w, t, write) && Enabled(trs, Next(trs, w, t, write), t, Up(U.Replace))
  {
    ClientFacts(trs, files, w, t);
    var j := w.up.jobs[t];
    SoFarIsPrefix(trs[t], w.nets[t]);
    RestIsDecoded(trs[t], w.nets[t], j, j.(written := j.written + Rest(trs[t], j)));
    WriteThenReplace(trs, w, t, Rest(trs[t], j));
  }

  /**
   * The server's method is a run of the system: where `Receive`, on a script that brought the receiver
   * where it is, stores the decoded bytes, an upload about to write can write these and commit them,
   * with the same effect on the files.
   */
  lemma ReceiveIsRun(trs: seq<Transfer>, files: map<Key, Chunk>, w: World, t: nat, script: seq<V.Event>)
    requires Inv(trs, files, w) && t < |trs| && w.up.jobs[t].stage.Writing? && w.up.jobs[t].written == []
    requires w.nets[t].r == V.Listen(trs[t].link.ses, V.BootReceiver(), script).0
    requires V.IsOver(w.nets[t].r) && M.Decoded(trs[t].link.ses, script).end.Finished?
    ensures var data, path := M.Decoded(trs[t].link.ses, script).data, w.up.jobs[t].path;
      var write := Up(U.Write(data));
      && Enabled(trs, w, t, write)
      && (var w' := Next(trs, w, t, write);
          && Enabled(trs, w', t, Up(U.Replace))
          && Next(trs, w', t, Up(U.Replace)).up.files
             == if trs[t].op.Appe? && path in w.up.files then w.up.files[path := w.up.files[path] + data]
                else w.up.files[path := data])
  {
    ModeData(trs[t].link.ses.mode, trs[t].link.ses.t, w.nets[t].r.delivered, Raises, M.EndingOf(w.nets[t].r.phase));
    var data := M.Decoded(trs[t].link.ses, script).data;
    assert [] + data == data;
    assert U.JobInv(w.up, t) && JobMatches(trs[t], w.up.jobs[t]);
    U.StepKeeps(files, w.up, t, U.Write(data));
    U.StepEffect(files, U.Next(w.up, t, U.Write(data)), t, U.Replace);
  }
}
