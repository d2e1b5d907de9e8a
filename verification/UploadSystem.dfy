/** Any number of concurrent uploads over the path locks, each able to fail or be cancelled at any point. */
module UploadSystem {
  import opened Bytes
  import opened PathLocks
  import L = LockSystem
  import opened AtomicUpload

  datatype Op = Stor | Appe | Stou

  /** Where an upload is. A name for the temporary file is held from Opened to Failing. */
  datatype Stage =
    | Idle
    | Waiting               // getting its lock, or in the body with nothing done yet
    | Named                 // STOU has picked an unused name, and is getting that name's lock or has it
    | Opened(temp: nat)     // temporary file made
    | Writing(temp: nat)    // old content copied if appending; chunks being written
    | Failing(temp: nat)    // failed or cancelled, temporary file not removed yet
    | Done(ok: bool)

  /**
   * The upload of one thread: what it has been asked to do and where (the target, or for STOU its
   * directory), the path that it stores at, and the chunk bytes it has written.
   */
  datatype Job = Job(op: Op, asked: Key, path: Key, stage: Stage, written: Chunk)

  datatype Commit = Commit(tid: nat, op: Op, path: Key, payload: Chunk)

  datatype World = World(
    locks: L.State,
    files: map<Key, Chunk>,
    temps: map<nat, Chunk>,
    jobs: seq<Job>,
    log: seq<Commit>        // the commits so far, kept for the theorems
  )

  datatype Step =
    | Start(op: Op, path: Key, a: L.Action)   // STOR and APPE lock the target, STOU its directory
    | Pick(path: Key)                         // STOU finds a name in its directory unused
    | Nest(a: L.Action)                       // and then locks it too
    | Locking(a: L.Action)
    | GiveUp                                  // fails before a temporary file exists
    | Open(temp: nat)
    | Copy
    | Write(chunk: Chunk)
    | Fail
    | Cleanup
    | Replace

  function Initial(files: map<Key, Chunk>, threads: nat): World {
    World(L.Initial(threads), files, map[], seq(threads, _ => Job(Stor, "", "", Idle, [])), [])
  }

  predicate HasTemp(j: Job) {
    j.stage.Opened? || j.stage.Writing? || j.stage.Failing?
  }

  /** The thread is in the body of the acquisition of its target. */
  predicate InBody(st: L.Stack, path: Key) {
    st != [] && L.TopOf(st).stage.Inside? && L.TopOf(st).keys == [path]
  }

  ghost predicate Enabled(w: World, t: nat, step: Step) {
    && t < |w.jobs| && t < |w.locks.threads|
    && var j, st := w.jobs[t], w.locks.threads[t];
       match step
       case Start(op, path, a) =>
         && (op.Stou? ==> L.IsResolved(path))
         && j.stage.Idle? && st == [] && a.Begin? && a.keys == [path] && L.Enabled(w.locks, t, a)
       case Pick(path) =>
         && j.op.Stou? && j.stage.Waiting? && |st| == 1 && InBody(st, j.asked)
         && L.IsIn(j.asked, path) && path !in w.files
       case Nest(a) =>
         j.stage.Named? && |st| == 1 && a.Begin? && a.keys == [j.path] && L.Enabled(w.locks, t, a)
       case Locking(a) =>
         && L.Enabled(w.locks, t, a) && !a.Begin?
         && (a.Leave? ==> j.stage.Done?)
       case GiveUp => (j.stage.Waiting? || j.stage.Named?) && st != [] && L.TopOf(st).stage.Inside?
       case Open(temp) =>
         && (if j.op.Stou? then j.stage.Named? && |st| == 2 else j.stage.Waiting?)
         && InBody(st, j.path) && temp !in w.temps
       case Copy => j.stage.Opened?
       case Write(_) => j.stage.Writing?
       case Fail => j.stage.Opened? || j.stage.Writing?
       case Cleanup => j.stage.Failing?
       case Replace => j.stage.Writing?
  }

  function Content(w: World, temp: nat): Chunk {
    if temp in w.temps then w.temps[temp] else []
  }

  ghost function Next(w: World, t: nat, step: Step): World
    requires Enabled(w, t, step)
  {
    var j := w.jobs[t];
    match step
    case Start(op, path, a) =>
      w.(locks := L.Next(w.locks, t, a), jobs := w.jobs[t := Job(op, path, path, Waiting, [])])
    case Pick(path) => w.(jobs := w.jobs[t := j.(stage := Named, path := path)])
    case Nest(a) => w.(locks := L.Next(w.locks, t, a))
    case Locking(a) => w.(locks := L.Next(w.locks, t, a))
    case GiveUp => w.(jobs := w.jobs[t := j.(stage := Done(false))])
    case Open(temp) =>
      w.(temps := w.temps[temp := []], jobs := w.jobs[t := j.(stage := Opened(temp), written := [])])
    case Copy =>
      w.(temps := w.temps[j.stage.temp := Stored(w.files, j.path, j.op.Appe?, [])],
         jobs := w.jobs[t := j.(stage := Writing(j.stage.temp))])
    case Write(chunk) =>
      w.(temps := w.temps[j.stage.temp := Content(w, j.stage.temp) + chunk],
         jobs := w.jobs[t := j.(written := j.written + chunk)])
    case Fail => w.(jobs := w.jobs[t := j.(stage := Failing(j.stage.temp))])
    case Cleanup =>
      w.(temps := w.temps - {j.stage.temp}, jobs := w.jobs[t := j.(stage := Done(false))])
    case Replace =>
      w.(files := w.files[j.path := Content(w, j.stage.temp)],
         temps := w.temps - {j.stage.temp},
         jobs := w.jobs[t := j.(stage := Done(true))],
         log := w.log + [Commit(t, j.op, j.path, j.written)])
  }

  /** The files after a sequence of commits, one after the other. */
  function Replay(files: map<Key, Chunk>, log: seq<Commit>): map<Key, Chunk> {
    if log == [] then files
    else
      var before, c := Replay(files, log[..|log| - 1]), log[|log| - 1];
      before[c.path := Stored(before, c.path, c.op.Appe?, c.payload)]
  }

  lemma ReplaySnoc(files: map<Key, Chunk>, log: seq<Commit>, c: Commit)
    ensures Replay(files, log + [c])
         == Replay(files, log)[c.path := Stored(Replay(files, log), c.path, c.op.Appe?, c.payload)]
  {
    assert (log + [c])[..|log|] == log;
  }

  /** What a temporary file holds while its upload is writing. */
  ghost predicate JobInv(w: World, t: nat)
    requires t < |w.jobs| && t < |w.locks.threads|
  {
    var j, st := w.jobs[t], w.locks.threads[t];
    && (j.stage.Idle? ==> st == [])
    && (HasTemp(j) ==> InBody(st, j.path) && j.stage.temp in w.temps)
    && (j.stage.Opened? ==> j.written == [])
    && (j.stage.Writing? ==> w.temps[j.stage.temp] == Stored(w.files, j.path, j.op.Appe?, j.written))
  }

  /**
   * An upload stores where it was asked to: at the target, or for STOU in the directory and over no
   * file that was there to begin with.
   */
  predicate IsPlaced(files: map<Key, Chunk>, j: Job) {
    if j.op.Stou? then L.IsIn(j.asked, j.path) && j.path !in files else j.path == j.asked
  }

  /** The thread is in the body of the acquisition of its directory, and perhaps in a further one. */
  predicate InDirectory(st: L.Stack, directory: Key) {
    st != [] && st[0].stage.Inside? && st[0].keys == [directory]
  }

  /** STOU has picked a name and is not done with it. */
  predicate IsPicked(j: Job) {
    j.op.Stou? && (j.stage.Named? || HasTemp(j))
  }

  /** Where a job stores, and what it has of its locks. */
  ghost predicate PlaceInv(files: map<Key, Chunk>, w: World, t: nat)
    requires t < |w.jobs| && t < |w.locks.threads|
  {
    var j, st := w.jobs[t], w.locks.threads[t];
    && (!j.stage.Idle? && j.op.Stou? ==> L.IsResolved(j.asked))
    && (j.stage.Waiting? ==>
          |st| == 1 && L.TopOf(st).keys == [j.path] && !L.TopOf(st).stage.Releasing? && j.path == j.asked)
    && (j.stage.Named? ==>
          && j.op.Stou? && |st| <= 2
          && (|st| == 2 ==> L.TopOf(st).keys == [j.path] && !L.TopOf(st).stage.Releasing?))
    && (IsPicked(j) ==> InDirectory(st, j.asked))
    && (j.stage.Named? || HasTemp(j) || j.stage == Done(true) ==> IsPlaced(files, j))
  }

  /** STOU has picked a name, and is at work under it or has committed under it. */
  predicate HasName(j: Job) {
    IsPicked(j) || (j.op.Stou? && j.stage == Done(true))
  }

  predicate SharesName(w: World, t: int, u: int) {
    && 0 <= t < |w.jobs| && 0 <= u < |w.jobs|
    && HasName(w.jobs[t]) && HasName(w.jobs[u]) && w.jobs[t].path == w.jobs[u].path
  }

  /** No two STOUs have the same name. */
  ghost predicate NamesInv(w: World) {
    forall t, u :: SharesName(w, t, u) ==> t == u
  }

  predicate OwnsTemp(w: World, t: int, n: nat) {
    0 <= t < |w.jobs| && HasTemp(w.jobs[t]) && w.jobs[t].stage.temp == n
  }

  /** The temporary files are those of the uploads that have one, each its own. */
  ghost predicate TempInv(w: World) {
    && (forall t, t', n :: OwnsTemp(w, t, n) && OwnsTemp(w, t', n) ==> t == t')
    && (forall n :: n in w.temps ==> exists t :: OwnsTemp(w, t, n))
  }

  /** Entry `i` of the log is the finished upload of its thread. */
  predicate EntryInv(w: World, i: nat)
    requires i < |w.log|
  {
    var c := w.log[i];
    c.tid < |w.jobs| && w.jobs[c.tid].stage == Done(true)
    && c == Commit(c.tid, w.jobs[c.tid].op, w.jobs[c.tid].path, w.jobs[c.tid].written)
  }

  predicate IsLogged(w: World, t: nat) {
    exists i :: 0 <= i < |w.log| && w.log[i].tid == t
  }

  /** The log has each successful upload once, and no other. */
  ghost predicate LogInv(w: World) {
    && (forall i :: 0 <= i < |w.log| ==> EntryInv(w, i))
    && (forall i, i' :: 0 <= i < |w.log| && 0 <= i' < |w.log| && w.log[i].tid == w.log[i'].tid ==> i == i')
    && (forall t :: 0 <= t < |w.jobs| && w.jobs[t].stage == Done(true) ==> IsLogged(w, t))
  }

  ghost predicate CoreInv(files: map<Key, Chunk>, w: World) {
    && L.Inv(w.locks) && |w.jobs| == |w.locks.threads|
    && (forall t :: 0 <= t < |w.jobs| ==> JobInv(w, t))
    && TempInv(w) && LogInv(w)
    && w.files == Replay(files, w.log)
  }

  ghost predicate Inv(files: map<Key, Chunk>, w: World) {
    CoreInv(files, w) && NamesInv(w) && forall t :: 0 <= t < |w.jobs| ==> PlaceInv(files, w, t)
  }

  lemma InitialInv(files: map<Key, Chunk>, threads: nat)
    ensures Inv(files, Initial(files, threads))
  {
    L.InitialInv(threads);
  }

  /** A thread in the body of its target's acquisition has the target's key. */
  lemma BodyHasKey(st: L.Stack, path: Key)
    requires InBody(st, path) && |L.TopOf(st).locks| == 1
    ensures L.HasKey(st, path)
  {
    assert L.Holds(st, |st| - 1, 0) && st[|st| - 1].keys[0] == path;
  }

  /** No two uploads are in the body for the same target. */
  lemma OneInBody(w: World, t: nat, t': nat, path: Key)
    requires L.Inv(w.locks) && t < |w.locks.threads| && t' < |w.locks.threads|
    requires InBody(w.locks.threads[t], path) && InBody(w.locks.threads[t'], path)
    ensures t == t'
  {
    var st, st' := w.locks.threads[t], w.locks.threads[t'];
    assert L.FrameInv(w.locks.table, st[|st| - 1]) && L.FrameInv(w.locks.table, st'[|st'| - 1]);
    BodyHasKey(st, path);
    BodyHasKey(st', path);
    L.MutualExclusion(w.locks, t, t', path);
  }

  predicate MovesLocks(step: Step) {
    step.Start? || step.Nest? || step.Locking?
  }

  function LockAction(step: Step): L.Action
    requires MovesLocks(step)
  {
    match step case Start(_, _, a) => a case Nest(a) => a case Locking(a) => a
  }

  /** A job that a step neither changes nor writes for keeps what it has. */
  lemma BystanderKeeps(w: World, w': World, u: nat)
    requires u < |w.jobs| && u < |w.locks.threads| && u < |w'.jobs| && u < |w'.locks.threads|
    requires JobInv(w, u) && w'.jobs[u] == w.jobs[u] && w'.locks.threads[u] == w.locks.threads[u]
    requires w'.files == w.files
    requires HasTemp(w.jobs[u]) ==>
      var n := w.jobs[u].stage.temp; n in w'.temps && (n in w.temps ==> w'.temps[n] == w.temps[n])
    ensures JobInv(w', u)
  {
  }

  /** A job that moves locks has no temporary file. */
  lemma LockingJob(w: World, t: nat, step: Step)
    requires Enabled(w, t, step) && MovesLocks(step) && JobInv(w, t)
    ensures !HasTemp(w.jobs[t]) && !HasTemp(Next(w, t, step).jobs[t])
    ensures JobInv(Next(w, t, step), t)
  {
  }

  lemma OthersThreads(y: L.State, t: nat, a: L.Action)
    requires L.Enabled(y, t, a)
    ensures var y' := L.Next(y, t, a);
      |y'.threads| == |y.threads| && forall u :: 0 <= u < |y.threads| && u != t ==> y'.threads[u] == y.threads[u]
  {
  }

  /** Steps that move locks touch no file, and leave every job with a temporary file in its body. */
  lemma LockingKeeps(files: map<Key, Chunk>, w: World, t: nat, step: Step)
    requires CoreInv(files, w) && Enabled(w, t, step) && MovesLocks(step)
    ensures CoreInv(files, Next(w, t, step))
  {
    var w' := Next(w, t, step);
    L.StepKeeps(w.locks, t, LockAction(step));
    LockingJob(w, t, step);
    OthersThreads(w.locks, t, LockAction(step));
    forall u | 0 <= u < |w'.jobs| ensures JobInv(w', u) {
      if u != t {
        BystanderKeeps(w, w', u);
      }
    }
    SameTemps(w, w');
    SameLog(w, w');
  }

  lemma SameTemps(w: World, w': World)
    requires TempInv(w) && w'.temps == w.temps
    requires forall t, n :: OwnsTemp(w', t, n) <==> OwnsTemp(w, t, n)
    ensures TempInv(w')
  {
    forall n | n in w'.temps ensures exists t :: OwnsTemp(w', t, n) {
      var t :| OwnsTemp(w, t, n);
      assert OwnsTemp(w', t, n);
    }
  }

  /** Steps that neither commit nor touch a finished job keep the log. */
  lemma SameLog(w: World, w': World)
    requires LogInv(w) && w'.log == w.log && |w'.jobs| == |w.jobs|
    requires forall t :: 0 <= t < |w.jobs| ==> (w'.jobs[t].stage == Done(true) <==> w.jobs[t].stage == Done(true))
    requires forall t :: 0 <= t < |w.jobs| && w.jobs[t].stage == Done(true) ==> w'.jobs[t] == w.jobs[t]
    ensures LogInv(w')
  {
    forall i | 0 <= i < |w'.log| ensures EntryInv(w', i) {
      assert EntryInv(w, i);
    }
    forall t | 0 <= t < |w'.jobs| && w'.jobs[t].stage == Done(true) ensures IsLogged(w', t) {
      assert IsLogged(w, t);
    }
  }

  /** Steps of one job alone: picking a name, and failing with or without a temporary file. */
  lemma FailingKeeps(files: map<Key, Chunk>, w: World, t: nat, step: Step)
    requires CoreInv(files, w) && Enabled(w, t, step) && (step.Fail? || step.GiveUp? || step.Pick?)
    ensures CoreInv(files, Next(w, t, step))
  {
    var w' := Next(w, t, step);
    forall u | 0 <= u < |w'.jobs| ensures JobInv(w', u) {
      assert JobInv(w, u);
    }
    SameTemps(w, w');
    SameLog(w, w');
  }

  /** Changing the content of one temporary file, its owner's name for it staying. */
  lemma RewriteTemp(w: World, w': World, t: nat)
    requires TempInv(w) && t < |w.jobs| && HasTemp(w.jobs[t]) && |w'.jobs| == |w.jobs|
    requires w'.temps.Keys == w.temps.Keys
    requires forall u, n :: OwnsTemp(w', u, n) <==> OwnsTemp(w, u, n)
    ensures TempInv(w')
    ensures forall u :: 0 <= u < |w.jobs| && u != t && HasTemp(w.jobs[u]) ==>
      w.jobs[u].stage.temp != w.jobs[t].stage.temp
  {
    assert OwnsTemp(w, t, w.jobs[t].stage.temp);
    forall u | 0 <= u < |w.jobs| && u != t && HasTemp(w.jobs[u])
      ensures w.jobs[u].stage.temp != w.jobs[t].stage.temp
    {
      assert OwnsTemp(w, u, w.jobs[u].stage.temp);
    }
    forall n | n in w'.temps ensures exists u :: OwnsTemp(w', u, n) {
      assert n in w.temps;
      var u :| OwnsTemp(w, u, n);
      assert OwnsTemp(w', u, n);
    }
  }

  /** A chunk more at the end of what an upload stores. */
  lemma StoredSnoc(files: map<Key, Chunk>, path: Key, append: bool, written: Chunk, chunk: Chunk)
    ensures Stored(files, path, append, written) + chunk == Stored(files, path, append, written + chunk)
  {
  }

  lemma WriterKeeps(w: World, t: nat, step: Step)
    requires Enabled(w, t, step) && (step.Copy? || step.Write?) && JobInv(w, t)
    ensures JobInv(Next(w, t, step), t)
  {
    if step.Write? {
      var j := w.jobs[t];
      StoredSnoc(w.files, j.path, j.op.Appe?, j.written, step.chunk);
    }
  }

  /** Writing to one's own temporary file keeps everyone else's. */
  lemma WritingKeeps(files: map<Key, Chunk>, w: World, t: nat, step: Step)
    requires CoreInv(files, w) && Enabled(w, t, step) && (step.Copy? || step.Write?)
    ensures CoreInv(files, Next(w, t, step))
  {
    var w' := Next(w, t, step);
    assert JobInv(w, t);
    RewriteTemp(w, w', t);
    forall u | 0 <= u < |w'.jobs| ensures JobInv(w', u) {
      if u == t {
        WriterKeeps(w, t, step);
      } else {
        assert JobInv(w, u);
        BystanderKeeps(w, w', u);
      }
    }
    SameLog(w, w');
  }

  lemma OpenKeeps(files: map<Key, Chunk>, w: World, t: nat, temp: nat)
    requires CoreInv(files, w) && Enabled(w, t, Open(temp))
    ensures CoreInv(files, Next(w, t, Open(temp)))
  {
    var w' := Next(w, t, Open(temp));
    forall u | 0 <= u < |w'.jobs| ensures JobInv(w', u) {
      assert JobInv(w, u);
    }
    assert OwnsTemp(w', t, temp);
    forall u, n | OwnsTemp(w', u, n) && u != t ensures OwnsTemp(w, u, n) && n != temp {
      assert JobInv(w, u);
    }
    forall n | n in w'.temps ensures exists u :: OwnsTemp(w', u, n) {
      if n != temp {
        var u :| OwnsTemp(w, u, n);
        assert OwnsTemp(w', u, n);
      }
    }
    SameLog(w, w');
  }

  /** Removing or renaming one's own temporary file keeps everyone else's. */
  lemma DropTemp(w: World, w': World, t: nat)
    requires TempInv(w) && t < |w.jobs| && HasTemp(w.jobs[t]) && |w'.jobs| == |w.jobs|
    requires w'.temps == w.temps - {w.jobs[t].stage.temp}
    requires !HasTemp(w'.jobs[t]) && forall u :: 0 <= u < |w.jobs| && u != t ==> w'.jobs[u] == w.jobs[u]
    ensures TempInv(w')
    ensures forall u :: 0 <= u < |w.jobs| && u != t && HasTemp(w.jobs[u]) ==>
      w.jobs[u].stage.temp != w.jobs[t].stage.temp
  {
    var gone := w.jobs[t].stage.temp;
    assert OwnsTemp(w, t, gone);
    forall u | 0 <= u < |w.jobs| && u != t && HasTemp(w.jobs[u]) ensures w.jobs[u].stage.temp != gone {
      assert OwnsTemp(w, u, w.jobs[u].stage.temp);
    }
    forall n | n in w'.temps ensures exists u :: OwnsTemp(w', u, n) {
      var u :| OwnsTemp(w, u, n);
      assert OwnsTemp(w', u, n);
    }
    assert forall u, n :: OwnsTemp(w', u, n) ==> OwnsTemp(w, u, n);
  }

  lemma CleanupKeeps(files: map<Key, Chunk>, w: World, t: nat)
    requires CoreInv(files, w) && Enabled(w, t, Cleanup)
    ensures CoreInv(files, Next(w, t, Cleanup))
  {
    var w' := Next(w, t, Cleanup);
    DropTemp(w, w', t);
    forall u | 0 <= u < |w'.jobs| ensures JobInv(w', u) {
      assert JobInv(w, u);
    }
    SameLog(w, w');
  }

  lemma ReplaceLog(w: World, t: nat)
    requires LogInv(w) && Enabled(w, t, Replace)
    ensures LogInv(Next(w, t, Replace))
  {
    var w' := Next(w, t, Replace);
    forall i | 0 <= i < |w'.log| ensures EntryInv(w', i) && (i < |w.log| ==> w'.log[i].tid != t) {
      if i < |w.log| {
        assert EntryInv(w, i);
      }
    }
    forall u | 0 <= u < |w'.jobs| && w'.jobs[u].stage == Done(true) ensures IsLogged(w', u) {
      if u == t {
        assert w'.log[|w.log|].tid == t;
      } else {
        assert IsLogged(w, u);
        var i :| 0 <= i < |w.log| && w.log[i].tid == u;
        assert w'.log[i].tid == u;
      }
    }
  }

  lemma ReplaceKeeps(files: map<Key, Chunk>, w: World, t: nat)
    requires CoreInv(files, w) && Enabled(w, t, Replace)
    ensures CoreInv(files, Next(w, t, Replace))
  {
    var w', j := Next(w, t, Replace), w.jobs[t];
    DropTemp(w, w', t);
    ReplaceLog(w, t);
    ReplaySnoc(files, w.log, Commit(t, j.op, j.path, j.written));
    assert JobInv(w, t);
    forall u | 0 <= u < |w'.jobs| ensures JobInv(w', u) {
      assert JobInv(w, u);
      if u != t && w.jobs[u].stage.Writing? && w.jobs[u].path == j.path {
        OneInBody(w, t, u, j.path);
      }
    }
  }

  /** Commits only add files. */
  lemma {:induction false} ReplayAdds(files: map<Key, Chunk>, log: seq<Commit>)
    ensures files.Keys <= Replay(files, log).Keys
  {
    if log != [] {
      ReplayAdds(files, log[..|log| - 1]);
    }
  }

  /** The name that STOU picks is in its directory, and no file's to begin with. */
  lemma PickPlaces(files: map<Key, Chunk>, w: World, t: nat, step: Step)
    requires Inv(files, w) && Enabled(w, t, step) && step.Pick?
    ensures PlaceInv(files, Next(w, t, step), t)
  {
    assert PlaceInv(files, w, t);
    ReplayAdds(files, w.log);
  }

  /** Registering keys and giving registrations back. */
  lemma RegisteringPlaces(files: map<Key, Chunk>, w: World, t: nat, step: Step)
    requires Enabled(w, t, step) && MovesLocks(step) && PlaceInv(files, w, t) && JobInv(w, t)
    requires L.StackInv(w.locks.threads[t]) && (LockAction(step).Begin? || LockAction(step).Finish?)
    ensures PlaceInv(files, Next(w, t, step), t)
  {
  }

  /** Taking locks, entering and leaving a body, and giving locks back. */
  lemma LockingPlaces(files: map<Key, Chunk>, w: World, t: nat, step: Step)
    requires Enabled(w, t, step) && MovesLocks(step) && PlaceInv(files, w, t) && JobInv(w, t)
    requires L.StackInv(w.locks.threads[t]) && !LockAction(step).Begin? && !LockAction(step).Finish?
    ensures PlaceInv(files, Next(w, t, step), t)
  {
  }

  /** Steps that leave the locks alone. */
  lemma WorkingPlaces(files: map<Key, Chunk>, w: World, t: nat, step: Step)
    requires Enabled(w, t, step) && !MovesLocks(step) && !step.Pick? && PlaceInv(files, w, t) && JobInv(w, t)
    ensures PlaceInv(files, Next(w, t, step), t)
  {
  }

  lemma OwnPlace(files: map<Key, Chunk>, w: World, t: nat, step: Step)
    requires Inv(files, w) && Enabled(w, t, step)
    ensures PlaceInv(files, Next(w, t, step), t)
  {
    assert PlaceInv(files, w, t) && JobInv(w, t) && L.StackInv(w.locks.threads[t]);
    if step.Pick? {
      PickPlaces(files, w, t, step);
    } else if !MovesLocks(step) {
      WorkingPlaces(files, w, t, step);
    } else if LockAction(step).Begin? || LockAction(step).Finish? {
      RegisteringPlaces(files, w, t, step);
    } else {
      LockingPlaces(files, w, t, step);
    }
  }

  lemma PlacesKeep(files: map<Key, Chunk>, w: World, t: nat, step: Step)
    requires Inv(files, w) && Enabled(w, t, step)
    ensures var w' := Next(w, t, step);
      |w'.jobs| == |w'.locks.threads| && forall u :: 0 <= u < |w'.jobs| ==> PlaceInv(files, w', u)
  {
    var w' := Next(w, t, step);
    OwnPlace(files, w, t, step);
    if MovesLocks(step) {
      OthersThreads(w.locks, t, LockAction(step));
    }
    forall u | 0 <= u < |w'.jobs| ensures PlaceInv(files, w', u) {
      if u != t {
        assert PlaceInv(files, w, u);
        assert w'.jobs[u] == w.jobs[u] && w'.locks.threads[u] == w.locks.threads[u];
      }
    }
  }

  lemma {:induction false} ReplayHas(files: map<Key, Chunk>, log: seq<Commit>, i: nat)
    requires i < |log|
    ensures log[i].path in Replay(files, log)
  {
    if i < |log| - 1 {
      ReplayHas(files, log[..|log| - 1], i);
    }
  }

  /** What was committed is there. */
  lemma DoneIsThere(files: map<Key, Chunk>, w: World, u: nat)
    requires CoreInv(files, w) && u < |w.jobs| && w.jobs[u].stage == Done(true)
    ensures w.jobs[u].path in w.files
  {
    assert IsLogged(w, u);
    var i :| 0 <= i < |w.log| && w.log[i].tid == u;
    assert EntryInv(w, i);
    ReplayHas(files, w.log, i);
  }

  /** A thread in the body of its directory's acquisition has the directory's key. */
  lemma DirectoryKey(w: World, t: nat, directory: Key)
    requires L.Inv(w.locks) && t < |w.locks.threads| && InDirectory(w.locks.threads[t], directory)
    ensures L.HasKey(w.locks.threads[t], directory)
  {
    assert L.FrameInv(w.locks.table, w.locks.threads[t][0]);
    assert L.Holds(w.locks.threads[t], 0, 0) && w.locks.threads[t][0].keys[0] == directory;
  }

  /**
   * A name found unused is no other STOU's: a committed one's is a file by now, and one still at work
   * under that name would hold the lock of the same directory.
   */
  lemma NewName(files: map<Key, Chunk>, w: World, t: nat, u: nat, path: Key)
    requires Inv(files, w) && Enabled(w, t, Pick(path)) && u < |w.jobs| && u != t && HasName(w.jobs[u])
    ensures w.jobs[u].path != path
  {
    if w.jobs[u].path == path {
      assert PlaceInv(files, w, u);
      if w.jobs[u].stage == Done(true) {
        DoneIsThere(files, w, u);
      } else {
        assert IsPlaced(files, w.jobs[u]) && L.IsIn(w.jobs[t].asked, path);
        L.SameParent(w.jobs[t].asked, w.jobs[u].asked, path);
        DirectoryKey(w, t, w.jobs[t].asked);
        DirectoryKey(w, u, w.jobs[t].asked);
        L.MutualExclusion(w.locks, t, u, w.jobs[t].asked);
      }
      assert false;
    }
  }

  lemma NamesKeep(files: map<Key, Chunk>, w: World, t: nat, step: Step)
    requires Inv(files, w) && Enabled(w, t, step)
    ensures NamesInv(Next(w, t, step))
  {
    var w' := Next(w, t, step);
    forall u, v | SharesName(w', u, v) ensures u == v {
      if step.Pick? && u != v && u == t {
        NewName(files, w, t, v, step.path);
      } else if step.Pick? && u != v && v == t {
        NewName(files, w, t, u, step.path);
      } else if !step.Pick? || (u != t && v != t) {
        SameNames(w, t, step, u);
        SameNames(w, t, step, v);
        assert SharesName(w, u, v);
      }
    }
  }

  /** No other step gives a job a name or changes it. */
  lemma SameNames(w: World, t: nat, step: Step, u: nat)
    requires Enabled(w, t, step) && u < |w.jobs| && HasName(Next(w, t, step).jobs[u]) && (step.Pick? ==> u != t)
    ensures HasName(w.jobs[u]) && Next(w, t, step).jobs[u].path == w.jobs[u].path
  {
  }

  lemma StepKeeps(files: map<Key, Chunk>, w: World, t: nat, step: Step)
    requires Inv(files, w) && Enabled(w, t, step)
    ensures Inv(files, Next(w, t, step))
  {
    NamesKeep(files, w, t, step);
    PlacesKeep(files, w, t, step);
    match step
    case Start(_, _, _) => LockingKeeps(files, w, t, step);
    case Pick(_) => FailingKeeps(files, w, t, step);
    case Nest(_) => LockingKeeps(files, w, t, step);
    case Locking(_) => LockingKeeps(files, w, t, step);
    case GiveUp => FailingKeeps(files, w, t, step);
    case Open(temp) => OpenKeeps(files, w, t, temp);
    case Copy => WritingKeeps(files, w, t, step);
    case Write(_) => WritingKeeps(files, w, t, step);
    case Fail => FailingKeeps(files, w, t, step);
    case Cleanup => CleanupKeeps(files, w, t);
    case Replace => ReplaceKeeps(files, w, t);
  }

  datatype Move = Move(t: nat, step: Step)

  ghost predicate IsRun(w: World, moves: seq<Move>)
    decreases |moves|
  {
    moves == [] ||
    (Enabled(w, moves[0].t, moves[0].step) && IsRun(Next(w, moves[0].t, moves[0].step), moves[1..]))
  }

  ghost function After(w: World, moves: seq<Move>): World
    requires IsRun(w, moves)
    decreases |moves|
  {
    if moves == [] then w else After(Next(w, moves[0].t, moves[0].step), moves[1..])
  }

  ghost predicate Reachable(files: map<Key, Chunk>, threads: nat, w: World) {
    exists moves :: IsRun(Initial(files, threads), moves) && After(Initial(files, threads), moves) == w
  }

  lemma {:induction false} RunKeeps(files: map<Key, Chunk>, w: World, moves: seq<Move>)
    requires Inv(files, w) && IsRun(w, moves)
    ensures Inv(files, After(w, moves))
    decreases |moves|
  {
    if moves != [] {
      StepKeeps(files, w, moves[0].t, moves[0].step);
      RunKeeps(files, Next(w, moves[0].t, moves[0].step), moves[1..]);
    }
  }

  lemma ReachableInv(files: map<Key, Chunk>, threads: nat, w: World)
    requires Reachable(files, threads, w)
    ensures Inv(files, w)
  {
    var moves :| IsRun(Initial(files, threads), moves) && After(Initial(files, threads), moves) == w;
    InitialInv(files, threads);
    RunKeeps(files, Initial(files, threads), moves);
  }

  /** A path that no commit names still has what it had. */
  lemma {:induction false} ReplayUntouched(files: map<Key, Chunk>, log: seq<Commit>, path: Key)
    requires forall i :: 0 <= i < |log| ==> log[i].path != path
    ensures path in Replay(files, log) <==> path in files
    ensures path in files ==> Replay(files, log)[path] == files[path]
  {
    if log != [] {
      ReplayUntouched(files, log[..|log| - 1], path);
    }
  }

  /**
   * Upload linearisation. In every reachable state, whatever the interleaving and whichever
   * uploads failed, the files are those of running the successful uploads one after the other in
   * commit order, each with all its bytes; a path with no commit has its old content; and every
   * temporary file belongs to an upload that has not finished.
   */
  lemma Linearisation(files: map<Key, Chunk>, threads: nat, w: World)
    requires Reachable(files, threads, w)
    ensures w.files == Replay(files, w.log)
    ensures forall t :: 0 <= t < |w.jobs| && w.jobs[t].stage == Done(true) ==> IsLogged(w, t)
    ensures forall i :: 0 <= i < |w.log| ==> EntryInv(w, i)
    ensures forall i, j :: 0 <= i < |w.log| && 0 <= j < |w.log| && w.log[i].tid == w.log[j].tid ==> i == j
    ensures forall path :: (forall i :: 0 <= i < |w.log| ==> w.log[i].path != path) ==>
      ((path in w.files <==> path in files) && (path in files ==> w.files[path] == files[path]))
    ensures forall n :: n in w.temps ==> exists t :: OwnsTemp(w, t, n) && !w.jobs[t].stage.Done?
  {
    ReachableInv(files, threads, w);
    forall path | forall i :: 0 <= i < |w.log| ==> w.log[i].path != path
      ensures (path in w.files <==> path in files) && (path in files ==> w.files[path] == files[path])
    {
      ReplayUntouched(files, w.log, path);
    }
    forall n | n in w.temps ensures exists t :: OwnsTemp(w, t, n) && !w.jobs[t].stage.Done? {
      var t :| OwnsTemp(w, t, n);
    }
  }

  /**
   * What STOU promises of commit `i`: its path is in the directory asked for, it was no file's to begin
   * with, and no other STOU commits under it. So if the commit replaces a file, that is one that a
   * STOR or APPE committed there.
   */
  ghost predicate IsUnique(files: map<Key, Chunk>, w: World, i: nat)
    requires i < |w.log|
  {
    var c := w.log[i];
    && c.tid < |w.jobs| && L.IsIn(w.jobs[c.tid].asked, c.path) && c.path !in files
    && (forall k :: 0 <= k < |w.log| && k != i && w.log[k].path == c.path ==> !w.log[k].op.Stou?)
    && (c.path in Replay(files, w.log[..i]) ==>
          exists k :: 0 <= k < i && w.log[k].path == c.path && !w.log[k].op.Stou?)
  }

  lemma NoTwoStou(files: map<Key, Chunk>, w: World, i: nat, k: nat)
    requires Inv(files, w) && i < |w.log| && k < |w.log| && k != i && w.log[k].path == w.log[i].path
    requires w.log[i].op.Stou?
    ensures !w.log[k].op.Stou?
  {
    assert EntryInv(w, i) && EntryInv(w, k);
    if w.log[k].op.Stou? {
      assert SharesName(w, w.log[i].tid, w.log[k].tid);
    }
  }

  lemma StouIsUnique(files: map<Key, Chunk>, threads: nat, w: World, i: nat)
    requires Reachable(files, threads, w) && i < |w.log| && w.log[i].op.Stou?
    ensures IsUnique(files, w, i)
  {
    ReachableInv(files, threads, w);
    var c := w.log[i];
    assert EntryInv(w, i);
    assert PlaceInv(files, w, c.tid);
    forall k | 0 <= k < |w.log| && k != i && w.log[k].path == c.path ensures !w.log[k].op.Stou? {
      NoTwoStou(files, w, i, k);
    }
    if forall k :: 0 <= k < i ==> w.log[k].path != c.path {
      ReplayUntouched(files, w.log[..i], c.path);
    }
  }

  /** Only the replacing step changes a file, and only its own target. */
  lemma StepEffect(files: map<Key, Chunk>, w: World, t: nat, step: Step)
    requires Inv(files, w) && Enabled(w, t, step)
    ensures var w', j := Next(w, t, step), w.jobs[t];
      w'.files ==
        if !step.Replace? then w.files
        else if j.op.Appe? && j.path in w.files then w.files[j.path := w.files[j.path] + j.written]
        else w.files[j.path := j.written]
  {
    assert JobInv(w, t);
    assert [] + w.jobs[t].written == w.jobs[t].written;
  }

  /** What the last commit of a replay does: APPE adds to what is there by then, STOR and STOU replace it. */
  lemma ReplayLast(files: map<Key, Chunk>, log: seq<Commit>)
    requires log != []
    ensures var before, c := Replay(files, log[..|log| - 1]), log[|log| - 1];
      Replay(files, log) ==
        if c.op.Appe? && c.path in before then before[c.path := before[c.path] + c.payload]
        else before[c.path := c.payload]
  {
    assert [] + log[|log| - 1].payload == log[|log| - 1].payload;
  }

  /**
   * A running upload can be cancelled or fail at any point before its commit: it then cleans up, and
   * leaves no file changed and no temporary file of its own.
   */
  lemma CanFail(files: map<Key, Chunk>, threads: nat, w: World, t: nat)
    requires Reachable(files, threads, w) && t < |w.jobs| && (w.jobs[t].stage.Opened? || w.jobs[t].stage.Writing?)
    ensures Enabled(w, t, Fail) && Enabled(Next(w, t, Fail), t, Cleanup)
    ensures var w' := Next(Next(w, t, Fail), t, Cleanup);
      && w'.files == w.files && w'.log == w.log && w'.locks == w.locks
      && w'.temps == w.temps - {w.jobs[t].stage.temp}
      && w'.jobs == w.jobs[t := w.jobs[t].(stage := Done(false))]
  {
    ReachableInv(files, threads, w);
    assert JobInv(w, t);
  }

  /**
   * An upload that holds its lock and has no temporary file yet can fail too, as it does on a target that is
   * a directory or in none: nothing is changed but that it has failed.
   */
  lemma CanGiveUp(w: World, t: nat)
    requires t < |w.jobs| && t < |w.locks.threads| && (w.jobs[t].stage.Waiting? || w.jobs[t].stage.Named?)
    requires w.locks.threads[t] != [] && L.TopOf(w.locks.threads[t]).stage.Inside?
    ensures Enabled(w, t, GiveUp) && Next(w, t, GiveUp) == w.(jobs := w.jobs[t := w.jobs[t].(stage := Done(false))])
  {
  }

  lemma {:induction false} AboveAll(s: set<nat>) returns (n: nat)
    ensures forall k :: k in s ==> k < n
    decreases |s|
  {
    if s == {} {
      n := 0;
    } else {
      var k :| k in s;
      var m := AboveAll(s - {k});
      n := if m <= k then k + 1 else m;
      forall i | i in s ensures i < n {
        assert i == k || i in s - {k};
      }
    }
  }

  /** There is always an unused name for a temporary file. */
  lemma FreshTemp(temps: map<nat, Chunk>) returns (n: nat)
    ensures n !in temps
  {
    n := AboveAll(temps.Keys);
  }

  /** There is always an unused name in a directory. */
  lemma FreshName(directory: Key, files: map<Key, Chunk>) returns (name: Key)
    requires L.IsResolved(directory)
    ensures L.IsIn(directory, name) && name !in files
  {
    var lengths := set k | k in files :: |k|;
    var n := AboveAll(lengths);
    var lead, rest := L.Lead(directory), seq(n + 1, _ => 'x');
    name := lead + rest;
    assert name[..|lead|] == lead && name[|lead|..] == rest;
    forall k | k in files ensures k != name {
      assert |k| in lengths;
    }
  }

  /** STOU in its directory's lock can pick a name. */
  lemma CanPick(files: map<Key, Chunk>, w: World, t: nat) returns (step: Step)
    requires Inv(files, w) && t < |w.jobs| && w.jobs[t].stage.Waiting? && w.jobs[t].op.Stou?
    requires w.locks.threads[t] != [] && L.TopOf(w.locks.threads[t]).stage.Inside?
    ensures step.Pick? && Enabled(w, t, step)
  {
    assert PlaceInv(files, w, t);
    var name := FreshName(w.jobs[t].asked, w.files);
    step := Pick(name);
  }

  /** STOU that has picked a name can lock it. */
  lemma CanNest(files: map<Key, Chunk>, w: World, t: nat) returns (step: Step)
    requires Inv(files, w) && t < |w.jobs| && w.jobs[t].stage.Named? && |w.locks.threads[t]| == 1
    ensures step.Nest? && Enabled(w, t, step)
  {
    assert PlaceInv(files, w, t);
    var name := w.jobs[t].path;
    CanRegister(w.locks.table, name);
    var table := RegisterOne(w.locks.table, name);
    step := Nest(L.Begin([name], [table.entries[name].lock], table));
  }

  /** An upload in the body of an acquisition, not failed, can go on towards its commit. */
  lemma BodyGoesOn(files: map<Key, Chunk>, w: World, t: nat) returns (step: Step)
    requires Inv(files, w) && t < |w.jobs| && !w.jobs[t].stage.Done?
    requires w.locks.threads[t] != [] && L.TopOf(w.locks.threads[t]).stage.Inside?
    ensures Enabled(w, t, step)
    ensures step.Pick? || step.Nest? || step.Open? || step.Copy? || step.Replace? || step.Cleanup?
  {
    assert JobInv(w, t) && PlaceInv(files, w, t);
    assert L.StackInv(w.locks.threads[t]);
    match w.jobs[t].stage
    case Waiting =>
      if w.jobs[t].op.Stou? {
        step := CanPick(files, w, t);
      } else {
        var n := FreshTemp(w.temps);
        step := Open(n);
      }
    case Named =>
      if |w.locks.threads[t]| == 1 {
        step := CanNest(files, w, t);
      } else {
        var n := FreshTemp(w.temps);
        step := Open(n);
      }
    case Opened(_) => step := Copy;
    case Writing(_) => step := Replace;
    case Failing(_) => step := Cleanup;
    case Idle => step := Copy;
  }

  /**
   * While any upload has locks or waits for them, some upload can go on with what it has to do:
   * neither by starting another one, nor by failing, nor by writing ever more.
   */
  lemma UploadsProgress(files: map<Key, Chunk>, threads: nat, w: World, t: nat)
    requires Reachable(files, threads, w) && t < |w.locks.threads| && w.locks.threads[t] != []
    ensures exists u, step: Step ::
      !step.Start? && !step.GiveUp? && !step.Fail? && !step.Write? && Enabled(w, u, step)
  {
    ReachableInv(files, threads, w);
    var u := L.SomeThreadSteps(w.locks, t);
    var a: L.Action :| !a.Begin? && L.Enabled(w.locks, u, a);
    if !a.Leave? || w.jobs[u].stage.Done? {
      assert Enabled(w, u, Locking(a));
    } else {
      var step := BodyGoesOn(files, w, u);
    }
  }
}
