/** Which clients' uploads can commit, and which can replace another's: runs of the whole, client by client. */
module ClientRuns {
  import opened Bytes
  import opened PathLocks
  import R = UploadRuns
  import opened EndToEnd

  ghost predicate Leads(trs: seq<Transfer>, w: World, w': World) {
    exists moves :: RunsTo(trs, w, moves, w')
  }

  lemma LeadsRefl(trs: seq<Transfer>, w: World)
    ensures Leads(trs, w, w)
  {
    assert RunsTo(trs, w, [], w);
  }

  /** A run is its first step and a run from there. */
  lemma RunCons(trs: seq<Transfer>, w: World, first: Move, rest: seq<Move>)
    ensures IsRun(trs, w, [first] + rest) <==>
      Enabled(trs, w, first.t, first.step) && IsRun(trs, Next(trs, w, first.t, first.step), rest)
    ensures IsRun(trs, w, [first] + rest) ==>
      After(trs, w, [first] + rest) == After(trs, Next(trs, w, first.t, first.step), rest)
  {
    assert ([first] + rest)[1..] == rest;
  }

  /** `z` is where the moves lead. */
  ghost predicate RunsTo(trs: seq<Transfer>, w: World, moves: seq<Move>, z: World) {
    IsRun(trs, w, moves) && After(trs, w, moves) == z
  }

  lemma RunsCons(trs: seq<Transfer>, w: World, first: Move, rest: seq<Move>, z: World)
    ensures RunsTo(trs, w, [first] + rest, z) <==>
      Enabled(trs, w, first.t, first.step) && RunsTo(trs, Next(trs, w, first.t, first.step), rest, z)
  {
    RunCons(trs, w, first, rest);
  }

  lemma {:induction false} RunConcat(trs: seq<Transfer>, w: World, a: seq<Move>, y: World, b: seq<Move>, z: World)
    requires RunsTo(trs, w, a, y) && RunsTo(trs, y, b, z)
    ensures RunsTo(trs, w, a + b, z)
    decreases |a|, 1
  {
    if a == [] {
      assert a + b == b;
    } else {
      ConcatStep(trs, w, a[0], a[1..], y, b, z);
      assert a == [a[0]] + a[1..] && a + b == [a[0]] + (a[1..] + b);
    }
  }

  lemma {:induction false} ConcatStep(trs: seq<Transfer>, w: World, first: Move, rest: seq<Move>, y: World,
                                      b: seq<Move>, z: World)
    requires RunsTo(trs, w, [first] + rest, y) && RunsTo(trs, y, b, z)
    ensures RunsTo(trs, w, [first] + (rest + b), z)
    decreases |rest| + 1, 0
  {
    RunsCons(trs, w, first, rest, y);
    RunConcat(trs, Next(trs, w, first.t, first.step), rest, y, b, z);
    RunsCons(trs, w, first, rest + b, z);
  }

  lemma LeadsTrans(trs: seq<Transfer>, x: World, y: World, z: World)
    requires Leads(trs, x, y) && Leads(trs, y, z)
    ensures Leads(trs, x, z)
  {
    var a :| RunsTo(trs, x, a, y);
    var b :| RunsTo(trs, y, b, z);
    RunConcat(trs, x, a, y, b, z);
  }

  lemma OneStep(trs: seq<Transfer>, w: World, t: nat, step: Step)
    requires Enabled(trs, w, t, step)
    ensures Leads(trs, w, Next(trs, w, t, step))
  {
    var z := Next(trs, w, t, step);
    assert RunsTo(trs, z, [], z);
    RunsCons(trs, w, Move(t, step), [], z);
  }

  lemma LeadsInv(trs: seq<Transfer>, files: map<Key, Chunk>, w: World, w': World)
    requires AllHonest(trs) && Inv(trs, files, w) && Leads(trs, w, w')
    ensures Inv(trs, files, w')
  {
    var moves :| RunsTo(trs, w, moves, w');
    RunKeeps(trs, files, w, moves);
  }

  lemma LeadsReach(trs: seq<Transfer>, files: map<Key, Chunk>, w: World)
    requires Leads(trs, Initial(trs, files), w)
    ensures Reachable(trs, files, w)
  {
    var moves :| RunsTo(trs, Initial(trs, files), moves, w);
  }

  /** A client's network can do in the world what it can do by itself. */
  lemma {:induction false} NetSteps(trs: seq<Transfer>, w: World, t: nat, steps: seq<G.Step>)
    requires t < |trs| && t < |w.nets| && t < |w.up.jobs| && G.IsRun(trs[t].link, w.nets[t], steps)
    ensures Leads(trs, w, w.(nets := w.nets[t := G.After(trs[t].link, w.nets[t], steps)]))
    decreases |steps|
  {
    if steps == [] {
      LeadsRefl(trs, w);
      assert w.nets[t := w.nets[t]] == w.nets;
    } else {
      OneStep(trs, w, t, Net(steps[0]));
      var w1 := Next(trs, w, t, Net(steps[0]));
      NetSteps(trs, w1, t, steps[1..]);
      var y := G.After(trs[t].link, w1.nets[t], steps[1..]);
      assert w1.nets[t := y] == w.nets[t := y];
      LeadsTrans(trs, w, w1, w.(nets := w.nets[t := y]));
    }
  }

  /** A thread can do in the world the plain steps that it can do by itself. */
  lemma {:induction false} GoSteps(trs: seq<Transfer>, w: World, t: nat, steps: seq<U.Step>)
    requires t < |trs| && t < |w.nets| && R.IsGo(w.up, t, steps)
    ensures Leads(trs, w, w.(up := R.Gone(w.up, t, steps)))
    decreases |steps|
  {
    if steps == [] {
      LeadsRefl(trs, w);
    } else {
      OneStep(trs, w, t, Up(steps[0]));
      var w1 := Next(trs, w, t, Up(steps[0]));
      GoSteps(trs, w1, t, steps[1..]);
      LeadsTrans(trs, w, w1, w.(up := R.Gone(w.up, t, steps)));
    }
  }

  lemma Lift(trs: seq<Transfer>, files: map<Key, Chunk>, w: World, t: nat, up: U.World)
    requires AllHonest(trs) && Inv(trs, files, w) && t < |trs| && R.Goes(w.up, t, up)
    ensures Leads(trs, w, w.(up := up)) && Inv(trs, files, w.(up := up))
  {
    var steps :| R.IsGo(w.up, t, steps) && R.Gone(w.up, t, steps) == up;
    GoSteps(trs, w, t, steps);
    LeadsInv(trs, files, w, w.(up := up));
  }

  /** The whole of a client's file can come across. */
  lemma Receives(trs: seq<Transfer>, files: map<Key, Chunk>, w: World, t: nat) returns (w': World)
    requires AllHonest(trs) && Inv(trs, files, w) && t < |trs|
    requires CanComplete(trs[t]) && w.nets[t] == G.Initial(trs[t].link)
    ensures Leads(trs, w, w') && Inv(trs, files, w')
    ensures w' == w.(nets := w.nets[t := w'.nets[t]]) && w'.nets[t].r.phase.Returned?
  {
    T.SomeRunCompletesIff(trs[t].link);
    var y :| G.Reachable(trs[t].link, y) && T.IsComplete(trs[t].link, y);
    var steps :| G.IsRun(trs[t].link, w.nets[t], steps) && G.After(trs[t].link, w.nets[t], steps) == y;
    NetSteps(trs, w, t, steps);
    w' := w.(nets := w.nets[t := y]);
    LeadsInv(trs, files, w, w');
  }

  /** What a client has received can be written to the last byte. */
  lemma WritesAll(trs: seq<Transfer>, files: map<Key, Chunk>, w: World, t: nat) returns (w': World)
    requires AllHonest(trs) && Inv(trs, files, w) && t < |trs|
    requires w.nets[t].r.phase.Returned? && w.up.jobs[t].stage.Writing?
    ensures Leads(trs, w, w') && Inv(trs, files, w') && Enabled(trs, w', t, Up(U.Replace))
    ensures w'.nets == w.nets && w'.up.locks == w.up.locks && w'.up.files == w.up.files && w'.up.log == w.up.log
    ensures w'.up.jobs == w.up.jobs[t := w.up.jobs[t].(written := w'.up.jobs[t].written)]
  {
    var write := Up(U.Write(Rest(trs[t], w.up.jobs[t])));
    ReturnedCanCommit(trs, files, w, t);
    OneStep(trs, w, t, write);
    w' := Next(trs, w, t, write);
    LeadsInv(trs, files, w, w');
  }

  /** What is written can be committed. */
  lemma CommitsNow(trs: seq<Transfer>, files: map<Key, Chunk>, w: World, t: nat) returns (w': World)
    requires AllHonest(trs) && Inv(trs, files, w) && Enabled(trs, w, t, Up(U.Replace))
    ensures Leads(trs, w, w') && Inv(trs, files, w') && w'.nets == w.nets && w'.up.locks == w.up.locks
    ensures w'.up.jobs == w.up.jobs[t := w.up.jobs[t].(stage := U.Done(true))]
    ensures U.IsLogged(w'.up, t) && w.up.jobs[t].path in w'.up.files
  {
    OneStep(trs, w, t, Up(U.Replace));
    w' := Next(trs, w, t, Up(U.Replace));
    LeadsInv(trs, files, w, w');
    AfterReplace(w.up, t);
  }

  lemma AfterReplace(up: U.World, t: nat)
    requires U.Enabled(up, t, U.Replace)
    ensures var up', j := U.Next(up, t, U.Replace), up.jobs[t];
      && up'.locks == up.locks && up'.jobs == up.jobs[t := j.(stage := U.Done(true))]
      && U.IsLogged(up', t) && j.path in up'.files
  {
    assert U.Next(up, t, U.Replace).log[|up.log|].tid == t;
  }

  predicate IsIdle(w: World, t: nat) {
    t < |w.up.jobs| && t < |w.up.locks.threads| && w.up.jobs[t].stage.Idle? && w.up.locks.threads[t] == []
  }

  /** A client's upload can start and enter the body of its first lock, if nobody has that. */
  lemma Opens(trs: seq<Transfer>, files: map<Key, Chunk>, w: World, t: nat) returns (w': World)
    requires AllHonest(trs) && Inv(trs, files, w) && t < |trs| && IsIdle(w, t) && R.IsFree(w.up, trs[t].path)
    ensures Leads(trs, w, w') && Inv(trs, files, w')
    ensures w'.nets == w.nets && w'.up == w.up.(locks := w'.up.locks, jobs := w'.up.jobs)
    ensures w'.up.jobs == w.up.jobs[t := U.Job(trs[t].op, trs[t].path, trs[t].path, U.Waiting, [])]
    ensures w'.up.locks.threads == w.up.locks.threads[t := w'.up.locks.threads[t]]
    ensures |w'.up.locks.threads[t]| == 1 && U.InBody(w'.up.locks.threads[t], trs[t].path)
  {
    assert IsHonest(trs[t]);
    var step := R.Starts(files, w.up, t, trs[t].op, trs[t].path);
    OneStep(trs, w, t, Up(step));
    var w1 := Next(trs, w, t, Up(step));
    LeadsInv(trs, files, w, w1);
    R.AcquiringHasNone(w1.up.locks.threads[t], trs[t].path);
    R.Enters(files, w1.up, t, trs[t].path);
    w' := w1.(up := w1.up.(locks := R.Entered(w1.up.locks, t)));
    Lift(trs, files, w1, t, w'.up);
    LeadsTrans(trs, w, w1, w');
  }

  /** An upload in the body of its target's lock can begin to write. */
  lemma Begins(trs: seq<Transfer>, files: map<Key, Chunk>, w: World, t: nat) returns (w': World)
    requires AllHonest(trs) && Inv(trs, files, w) && t < |trs|
    requires U.InBody(w.up.locks.threads[t], w.up.jobs[t].path)
    requires if w.up.jobs[t].op.Stou? then w.up.jobs[t].stage.Named? && |w.up.locks.threads[t]| == 2
             else w.up.jobs[t].stage.Waiting?
    ensures Leads(trs, w, w') && Inv(trs, files, w') && w'.up.jobs[t].stage.Writing?
    ensures w'.nets == w.nets && w'.up.locks == w.up.locks && w'.up.files == w.up.files && w'.up.log == w.up.log
    ensures w'.up.jobs == w.up.jobs[t := w'.up.jobs[t]]
    ensures w'.up.jobs[t].op == w.up.jobs[t].op && w'.up.jobs[t].path == w.up.jobs[t].path
  {
    var n := R.Begins(files, w.up, t);
    w' := w.(up := R.Begun(w.up, t, n));
    Lift(trs, files, w, t, w'.up);
  }

  /** A client that has received its file, in the body of its target's lock: it can write all of it. */
  lemma BeginsAndWrites(trs: seq<Transfer>, files: map<Key, Chunk>, w: World, t: nat) returns (w': World)
    requires AllHonest(trs) && Inv(trs, files, w) && t < |trs| && w.nets[t].r.phase.Returned?
    requires U.InBody(w.up.locks.threads[t], w.up.jobs[t].path)
    requires if w.up.jobs[t].op.Stou? then w.up.jobs[t].stage.Named? && |w.up.locks.threads[t]| == 2
             else w.up.jobs[t].stage.Waiting?
    ensures Leads(trs, w, w') && Inv(trs, files, w') && Enabled(trs, w', t, Up(U.Replace))
    ensures w'.nets == w.nets && w'.up.locks == w.up.locks && w'.up.files == w.up.files && w'.up.log == w.up.log
    ensures w'.up.jobs == w.up.jobs[t := w'.up.jobs[t]]
    ensures w'.up.jobs[t].op == w.up.jobs[t].op && w'.up.jobs[t].path == w.up.jobs[t].path
  {
    var w1 := Begins(trs, files, w, t);
    w' := WritesAll(trs, files, w1, t);
    LeadsTrans(trs, w, w1, w');
  }

  /** And commit it. */
  lemma BodyCommits(trs: seq<Transfer>, files: map<Key, Chunk>, w: World, t: nat) returns (w': World)
    requires AllHonest(trs) && Inv(trs, files, w) && t < |trs| && w.nets[t].r.phase.Returned?
    requires U.InBody(w.up.locks.threads[t], w.up.jobs[t].path)
    requires if w.up.jobs[t].op.Stou? then w.up.jobs[t].stage.Named? && |w.up.locks.threads[t]| == 2
             else w.up.jobs[t].stage.Waiting?
    ensures Leads(trs, w, w') && Inv(trs, files, w') && w'.nets == w.nets && w'.up.locks == w.up.locks
    ensures w.up.jobs[t].path in w'.up.files && U.IsLogged(w'.up, t)
    ensures w'.up.jobs == w.up.jobs[t := w'.up.jobs[t]]
    ensures w'.up.jobs[t].stage == U.Done(true) && w'.up.jobs[t].path == w.up.jobs[t].path
  {
    var w1 := BeginsAndWrites(trs, files, w, t);
    w' := CommitsNow(trs, files, w1, t);
    LeadsTrans(trs, w, w1, w');
  }

  /** A STOR or APPE that has received its file can be committed, if nobody has its target's lock. */
  lemma CommitsInside(trs: seq<Transfer>, files: map<Key, Chunk>, w: World, t: nat) returns (w': World)
    requires AllHonest(trs) && Inv(trs, files, w) && t < |trs| && w.nets[t].r.phase.Returned?
    requires !trs[t].op.Stou? && IsIdle(w, t) && R.IsFree(w.up, trs[t].path)
    ensures Leads(trs, w, w') && Inv(trs, files, w') && w'.nets == w.nets
    ensures trs[t].path in w'.up.files && U.IsLogged(w'.up, t)
    ensures w'.up.jobs == w.up.jobs[t := w'.up.jobs[t]]
    ensures w'.up.jobs[t].stage == U.Done(true) && w'.up.jobs[t].path == trs[t].path
    ensures w'.up.locks.threads == w.up.locks.threads[t := w'.up.locks.threads[t]]
    ensures |w'.up.locks.threads[t]| == 1 && U.InBody(w'.up.locks.threads[t], trs[t].path)
  {
    var w1 := Opens(trs, files, w, t);
    w' := BodyCommits(trs, files, w1, t);
    LeadsTrans(trs, w, w1, w');
  }

  /** And carried through to its end. */
  lemma Stores(trs: seq<Transfer>, files: map<Key, Chunk>, w: World, t: nat) returns (w': World)
    requires AllHonest(trs) && Inv(trs, files, w) && t < |trs| && w.nets[t].r.phase.Returned?
    requires !trs[t].op.Stou? && IsIdle(w, t) && R.IsFree(w.up, trs[t].path)
    ensures Leads(trs, w, w') && Inv(trs, files, w') && w'.nets == w.nets
    ensures trs[t].path in w'.up.files && U.IsLogged(w'.up, t)
    ensures w'.up.jobs == w.up.jobs[t := w'.up.jobs[t]]
    ensures w'.up.locks.threads == w.up.locks.threads
  {
    var w1 := CommitsInside(trs, files, w, t);
    var up := Frees(trs, files, w1, t);
    w' := w1.(up := up);
    Lift(trs, files, w1, t, up);
    LeadsTrans(trs, w, w1, w');
    assert w'.up.locks.threads == w.up.locks.threads;
  }

  /** A finished upload leaves its innermost lock. */
  lemma Frees(trs: seq<Transfer>, files: map<Key, Chunk>, w: World, t: nat) returns (up: U.World)
    requires Inv(trs, files, w) && t < |trs| && w.up.jobs[t].stage == U.Done(true)
    requires |w.up.locks.threads[t]| == 1 && U.InBody(w.up.locks.threads[t], w.up.jobs[t].path)
    ensures R.Goes(w.up, t, up) && up == w.up.(locks := up.locks)
    ensures up.locks.threads == w.up.locks.threads[t := []]
  {
    assert L.FrameInv(w.up.locks.table, w.up.locks.threads[t][0]);
    up := R.Leaves(files, w.up, t);
  }

  /** A STOU can pick any unused name in its directory, if nobody has the directory's lock. */
  lemma Picks(trs: seq<Transfer>, files: map<Key, Chunk>, w: World, t: nat, name: Key) returns (w': World)
    requires AllHonest(trs) && Inv(trs, files, w) && t < |trs| && trs[t].op.Stou? && IsIdle(w, t)
    requires R.IsFree(w.up, trs[t].path) && L.IsIn(trs[t].path, name) && name !in w.up.files
    ensures Leads(trs, w, w') && Inv(trs, files, w')
    ensures w'.nets == w.nets && w'.up.files == w.up.files && w'.up.log == w.up.log
    ensures w'.up.jobs == w.up.jobs[t := U.Job(U.Stou, trs[t].path, name, U.Named, [])]
    ensures w'.up.locks.threads == w.up.locks.threads[t := w'.up.locks.threads[t]]
    ensures |w'.up.locks.threads[t]| == 1 && U.InBody(w'.up.locks.threads[t], trs[t].path)
  {
    var w1 := Opens(trs, files, w, t);
    R.GoRefl(w1.up, t);
    R.GoStep(w1.up, t, w1.up, U.Pick(name));
    w' := w1.(up := U.Next(w1.up, t, U.Pick(name)));
    Lift(trs, files, w1, t, w'.up);
    LeadsTrans(trs, w, w1, w');
  }

  /** A thread in the body of one acquisition of one key has no other key. */
  lemma HasNoOther(st: L.Stack, key: Key, other: Key)
    requires |st| == 1 && U.InBody(st, key) && other != key
    ensures !L.HasKey(st, other)
  {
  }

  /** A STOU that has picked its name can come to the point of committing, if nobody has the name's lock. */
  lemma StouWrites(trs: seq<Transfer>, files: map<Key, Chunk>, w: World, t: nat) returns (w': World)
    requires AllHonest(trs) && Inv(trs, files, w) && t < |trs| && w.nets[t].r.phase.Returned?
    requires w.up.jobs[t].stage.Named? && |w.up.locks.threads[t]| == 1 && R.IsFree(w.up, w.up.jobs[t].path)
    ensures Leads(trs, w, w') && Inv(trs, files, w') && Enabled(trs, w', t, Up(U.Replace))
    ensures w'.up.files == w.up.files && w'.up.jobs[t].path == w.up.jobs[t].path
  {
    var name := w.up.jobs[t].path;
    assert U.PlaceInv(files, w.up, t);
    L.InIsBelow(w.up.jobs[t].asked, name);
    var up1 := R.Nests(files, w.up, t);
    Lift(trs, files, w, t, up1);
    R.AcquiringHasNone(up1.locks.threads[t], name);
    R.Enters(files, up1, t, name);
    var w1 := w.(up := up1);
    var w2 := w1.(up := up1.(locks := R.Entered(up1.locks, t)));
    Lift(trs, files, w1, t, w2.up);
    LeadsTrans(trs, w, w1, w2);
    w' := BeginsAndWrites(trs, files, w2, t);
    LeadsTrans(trs, w, w2, w');
  }

  /** At the start every client is idle, and nobody has any key. */
  lemma StartsFree(trs: seq<Transfer>, files: map<Key, Chunk>, key: Key)
    ensures R.IsFree(Initial(trs, files).up, key)
  {
  }

  /** A client that can bring its file across can commit it. */
  lemma ReachesCommit(trs: seq<Transfer>, files: map<Key, Chunk>, t: nat) returns (w: World)
    requires AllHonest(trs) && t < |trs| && CanComplete(trs[t])
    ensures Leads(trs, Initial(trs, files), w) && U.IsLogged(w.up, t)
  {
    var w0 := Initial(trs, files);
    InitialInv(trs, files);
    var w1 := Receives(trs, files, w0, t);
    StartsFree(trs, files, trs[t].path);
    if !trs[t].op.Stou? {
      w := Stores(trs, files, w1, t);
      LeadsTrans(trs, w0, w1, w);
    } else {
      assert IsHonest(trs[t]);
      var name := U.FreshName(trs[t].path, files);
      L.InIsBelow(trs[t].path, name);
      var w2 := Picks(trs, files, w1, t, name);
      HasNoOther(w2.up.locks.threads[t], trs[t].path, name);
      var w3 := StouWrites(trs, files, w2, t);
      w := CommitsNow(trs, files, w3, t);
      LeadsTrans(trs, w0, w1, w2);
      LeadsTrans(trs, w0, w2, w3);
      LeadsTrans(trs, w0, w3, w);
    }
  }

  /** Some run of the whole has a commit of client `t`. */
  ghost predicate MayCommitAtAll(trs: seq<Transfer>, files: map<Key, Chunk>, t: nat) {
    exists w :: Reachable(trs, files, w) && U.IsLogged(w.up, t)
  }

  /**
   * Exactly which clients can store their files, whatever they and the others ask for: those whose
   * transfer can bring the file across.
   */
  lemma CommitsIff(trs: seq<Transfer>, files: map<Key, Chunk>, t: nat)
    requires AllHonest(trs) && t < |trs|
    ensures MayCommitAtAll(trs, files, t) <==> CanComplete(trs[t])
  {
    forall w | Reachable(trs, files, w) && U.IsLogged(w.up, t) ensures CanComplete(trs[t]) {
      ReachableInv(trs, files, w);
      var i :| 0 <= i < |w.up.log| && w.up.log[i].tid == t;
      assert IsTrueCommit(trs, files, w.up.log[i]);
    }
    if CanComplete(trs[t]) {
      var w := ReachesCommit(trs, files, t);
      LeadsReach(trs, files, w);
    }
  }

  /** In some run of the whole, client `t` is about to replace a file. */
  ghost predicate MayReplace(trs: seq<Transfer>, files: map<Key, Chunk>, t: nat) {
    exists w :: Reachable(trs, files, w) && IsReplacing(trs, w, t)
  }

  ghost predicate IsReplacing(trs: seq<Transfer>, w: World, t: nat) {
    Enabled(trs, w, t, Up(U.Replace)) && w.up.jobs[t].path in w.up.files
  }

  /** Another client can store a new file in `directory`, under a name of its own. */
  predicate StoresInto(tr: Transfer, directory: Key, files: map<Key, Chunk>) {
    !tr.op.Stou? && L.IsIn(directory, tr.path) && tr.path !in files && CanComplete(tr)
  }

  predicate HasRival(trs: seq<Transfer>, files: map<Key, Chunk>, t: nat)
    requires t < |trs|
  {
    exists u :: 0 <= u < |trs| && StoresInto(trs[u], trs[t].path, files)
  }

  /**
   * The counter-run. STOU finds its name unused before it locks it; in between a rival stores its file
   * there; and STOU replaces that.
   */
  lemma ReachesReplace(trs: seq<Transfer>, files: map<Key, Chunk>, t: nat, u: nat) returns (w: World)
    requires AllHonest(trs) && t < |trs| && u < |trs| && trs[t].op.Stou?
    requires CanComplete(trs[t]) && StoresInto(trs[u], trs[t].path, files)
    ensures Leads(trs, Initial(trs, files), w) && IsReplacing(trs, w, t)
  {
    var w0, name := Initial(trs, files), trs[u].path;
    InitialInv(trs, files);
    var w1 := Receives(trs, files, w0, t);
    var w2 := Receives(trs, files, w1, u);
    StartsFree(trs, files, trs[t].path);
    StartsFree(trs, files, name);
    L.InIsBelow(trs[t].path, name);
    var w3 := Picks(trs, files, w2, t, name);
    HasNoOther(w3.up.locks.threads[t], trs[t].path, name);
    var w4 := Stores(trs, files, w3, u);
    w := StouWrites(trs, files, w4, t);
    LeadsTrans(trs, w0, w1, w2);
    LeadsTrans(trs, w0, w2, w3);
    LeadsTrans(trs, w0, w3, w4);
    LeadsTrans(trs, w0, w4, w);
  }

  /** What a STOU is about to replace, a rival has stored. */
  lemma ReplacedIsRivals(trs: seq<Transfer>, files: map<Key, Chunk>, w: World, t: nat)
    requires AllHonest(trs) && Inv(trs, files, w) && t < |trs| && trs[t].op.Stou? && IsReplacing(trs, w, t)
    ensures CanComplete(trs[t]) && HasRival(trs, files, t)
  {
    ClientFacts(trs, files, w, t);
    ReplaceMeans(trs, w, t);
    var path := w.up.jobs[t].path;
    ReplaceIsTrue(trs, files, w, t);
    if forall k :: 0 <= k < |w.up.log| ==> w.up.log[k].path != path {
      U.ReplayUntouched(files, w.up.log, path);
      assert false;
    }
    var k :| 0 <= k < |w.up.log| && w.up.log[k].path == path;
    assert IsTrueCommit(trs, files, w.up.log[k]);
    NotStous(files, w.up, t, k);
    assert StoresInto(trs[w.up.log[k].tid], trs[t].path, files);
  }

  /** What is committed under the name of a STOU at work is no STOU's. */
  lemma NotStous(files: map<Key, Chunk>, up: U.World, t: nat, k: nat)
    requires U.Inv(files, up) && t < |up.jobs| && U.IsPicked(up.jobs[t])
    requires k < |up.log| && up.log[k].path == up.jobs[t].path
    ensures !up.log[k].op.Stou?
  {
    assert U.EntryInv(up, k);
    if up.log[k].op.Stou? {
      assert U.SharesName(up, t, up.log[k].tid);
    }
  }

  /**
   * Exactly when a STOU can replace a file: when it can complete, and some other client that can complete
   * asks for STOR or APPE in the same directory, at a path where no file was to begin with.
   */
  lemma StouReplacesIff(trs: seq<Transfer>, files: map<Key, Chunk>, t: nat)
    requires AllHonest(trs) && t < |trs| && trs[t].op.Stou?
    ensures MayReplace(trs, files, t) <==> CanComplete(trs[t]) && HasRival(trs, files, t)
  {
    forall w | Reachable(trs, files, w) && IsReplacing(trs, w, t)
      ensures CanComplete(trs[t]) && HasRival(trs, files, t)
    {
      ReachableInv(trs, files, w);
      ReplacedIsRivals(trs, files, w, t);
    }
    if CanComplete(trs[t]) && HasRival(trs, files, t) {
      var u: nat :| u < |trs| && StoresInto(trs[u], trs[t].path, files);
      var w := ReachesReplace(trs, files, t, u);
      LeadsReach(trs, files, w);
    }
  }
}
