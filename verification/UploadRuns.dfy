/** What one thread can do by itself, put together from whole acquisitions and the steps around a commit. */
module UploadRuns {
  import opened Bytes
  import opened PathLocks
  import opened AtomicUpload
  import opened UploadSystem

  /** A step that starts no upload, writes nothing and commits nothing. */
  predicate IsPlain(step: Step) {
    !step.Start? && !step.Write? && !step.Replace?
  }

  ghost predicate IsGo(w: World, t: nat, steps: seq<Step>)
    decreases |steps|
  {
    steps == [] || (IsPlain(steps[0]) && Enabled(w, t, steps[0]) && IsGo(Next(w, t, steps[0]), t, steps[1..]))
  }

  ghost function Gone(w: World, t: nat, steps: seq<Step>): World
    requires IsGo(w, t, steps)
    decreases |steps|
  {
    if steps == [] then w else Gone(Next(w, t, steps[0]), t, steps[1..])
  }

  /** Thread `t` can go from `w` to `w'` by plain steps. */
  ghost predicate Goes(w: World, t: nat, w': World) {
    exists steps :: IsGo(w, t, steps) && Gone(w, t, steps) == w'
  }

  lemma GoRefl(w: World, t: nat)
    ensures Goes(w, t, w)
  {
    assert IsGo(w, t, []) && Gone(w, t, []) == w;
  }

  lemma {:induction false} GoSnoc(w: World, t: nat, steps: seq<Step>, last: Step)
    requires IsGo(w, t, steps) && IsPlain(last) && Enabled(Gone(w, t, steps), t, last)
    ensures IsGo(w, t, steps + [last]) && Gone(w, t, steps + [last]) == Next(Gone(w, t, steps), t, last)
    decreases |steps|
  {
    if steps == [] {
      assert steps + [last] == [last] && [last][1..] == [];
    } else {
      GoSnoc(Next(w, t, steps[0]), t, steps[1..], last);
      assert (steps + [last])[1..] == steps[1..] + [last];
    }
  }

  lemma GoStep(w: World, t: nat, x: World, step: Step)
    requires Goes(w, t, x) && IsPlain(step) && Enabled(x, t, step)
    ensures Goes(w, t, Next(x, t, step))
  {
    var steps :| IsGo(w, t, steps) && Gone(w, t, steps) == x;
    GoSnoc(w, t, steps, step);
  }

  lemma {:induction false} GoInv(files: map<Key, Chunk>, w: World, t: nat, steps: seq<Step>)
    requires Inv(files, w) && IsGo(w, t, steps)
    ensures Inv(files, Gone(w, t, steps))
    decreases |steps|
  {
    if steps != [] {
      StepKeeps(files, w, t, steps[0]);
      GoInv(files, Next(w, t, steps[0]), t, steps[1..]);
    }
  }

  lemma GoesInv(files: map<Key, Chunk>, w: World, t: nat, w': World)
    requires Inv(files, w) && Goes(w, t, w')
    ensures Inv(files, w')
  {
    var steps :| IsGo(w, t, steps) && Gone(w, t, steps) == w';
    GoInv(files, w, t, steps);
  }

  /** A thread that has registered one key, innermost, and taken nothing of it yet. */
  predicate IsAcquiring(w: World, t: nat, key: Key) {
    && t < |w.jobs| && t < |w.locks.threads| && w.locks.threads[t] != []
    && var f := L.TopOf(w.locks.threads[t]);
       f.keys == [key] && |f.locks| == 1 && f.stage == L.Acquiring(0)
  }

  /** No thread has the key. */
  ghost predicate IsFree(w: World, key: Key) {
    forall u :: 0 <= u < |w.locks.threads| ==> !L.HasKey(w.locks.threads[u], key)
  }

  /** The lock of a key that no thread has is not owned. */
  lemma FreeLock(files: map<Key, Chunk>, w: World, t: nat, key: Key)
    requires Inv(files, w) && IsAcquiring(w, t, key) && IsFree(w, key)
    ensures L.TopOf(w.locks.threads[t]).locks[0] !in w.locks.owner
  {
    var top := |w.locks.threads[t]| - 1;
    var l := w.locks.threads[t][top].locks[0];
    if l in w.locks.owner {
      var u := w.locks.owner[l].tid;
      var i, j :| L.HeldBy(w.locks, u, i, j, l);
      assert L.FrameInv(w.locks.table, w.locks.threads[u][i]);
      L.SameLockSameKey(w.locks, u, i, j, t, top, 0);
      assert L.Holds(w.locks.threads[u], i, j) && w.locks.threads[u][i].keys[j] == key;
      assert L.HasKey(w.locks.threads[u], key);
      assert false;
    }
  }

  /** The locks after thread `t` has taken the one lock of its top frame and entered the body. */
  function Entered(y: L.State, t: nat): L.State
    requires t < |y.threads| && y.threads[t] != [] && |L.TopOf(y.threads[t]).locks| == 1
  {
    var st := y.threads[t];
    y.(owner := y.owner[L.TopOf(st).locks[0] := L.Hold(t, 1)],
       threads := y.threads[t := L.WithTop(st, L.TopOf(st).(stage := L.Inside))])
  }

  /** A free lock is taken, and the body entered. */
  lemma Enters(files: map<Key, Chunk>, w: World, t: nat, key: Key)
    requires Inv(files, w) && IsAcquiring(w, t, key) && IsFree(w, key)
    ensures Goes(w, t, w.(locks := Entered(w.locks, t))) && Inv(files, w.(locks := Entered(w.locks, t)))
  {
    FreeLock(files, w, t, key);
    GoRefl(w, t);
    GoStep(w, t, w, Locking(L.Take));
    var w1 := Next(w, t, Locking(L.Take));
    GoStep(w, t, w1, Locking(L.Enter));
    var w2, st := Next(w1, t, Locking(L.Enter)), w.locks.threads[t];
    assert L.WithTop(L.WithTop(st, L.TopOf(w1.locks.threads[t])), L.TopOf(w2.locks.threads[t]))
        == L.WithTop(st, L.TopOf(w2.locks.threads[t]));
    assert w2 == w.(locks := Entered(w.locks, t));
    GoesInv(files, w, t, w2);
  }

  /** A thread that is in no acquisition can start an upload and register its first key. */
  lemma Starts(files: map<Key, Chunk>, w: World, t: nat, op: Op, path: Key) returns (step: Step)
    requires Inv(files, w) && t < |w.jobs| && w.jobs[t].stage.Idle? && w.locks.threads[t] == []
    requires op.Stou? ==> L.IsResolved(path)
    ensures step.Start? && step.op == op && step.path == path && Enabled(w, t, step)
    ensures var w' := Next(w, t, step);
      && Inv(files, w') && IsAcquiring(w', t, path) && |w'.locks.threads[t]| == 1
      && w' == w.(locks := w'.locks, jobs := w.jobs[t := Job(op, path, path, Waiting, [])])
      && w'.locks.threads == w.locks.threads[t := w'.locks.threads[t]]
  {
    CanRegister(w.locks.table, path);
    var table := RegisterOne(w.locks.table, path);
    step := Start(op, path, L.Begin([path], [table.entries[path].lock], table));
    StepKeeps(files, w, t, step);
  }

  /** A thread that has registered a key and holds nothing does not have that key. */
  lemma AcquiringHasNone(st: L.Stack, key: Key)
    requires st != [] && L.TopOf(st).stage == L.Acquiring(0)
    requires |st| == 1 || (|st| == 2 && st[0].keys != [key] && |st[0].keys| == 1)
    ensures !L.HasKey(st, key)
  {
  }

  /** STOU that has picked a name can register it. */
  lemma Nests(files: map<Key, Chunk>, w: World, t: nat) returns (w': World)
    requires Inv(files, w) && t < |w.jobs| && w.jobs[t].stage.Named? && |w.locks.threads[t]| == 1
    ensures Goes(w, t, w') && Inv(files, w') && IsAcquiring(w', t, w.jobs[t].path)
    ensures w' == w.(locks := w'.locks)
    ensures w'.locks.threads == w.locks.threads[t := w.locks.threads[t] + [L.TopOf(w'.locks.threads[t])]]
  {
    var step := CanNest(files, w, t);
    GoRefl(w, t);
    GoStep(w, t, w, step);
    w' := Next(w, t, step);
    GoesInv(files, w, t, w');
  }

  /** The second of two updates in one place is what counts. */
  lemma UpdateTwice(temps: map<nat, Chunk>, n: nat, a: Chunk, b: Chunk, jobs: seq<Job>, t: nat, i: Job, j: Job)
    requires t < |jobs|
    ensures temps[n := a][n := b] == temps[n := b] && jobs[t := i][t := j] == jobs[t := j]
  {
  }

  /** A world in which thread `t` has made temporary file `n` and is about to write. */
  function Begun(w: World, t: nat, n: nat): World
    requires t < |w.jobs|
  {
    var j := w.jobs[t];
    w.(temps := w.temps[n := Stored(w.files, j.path, j.op.Appe?, [])],
       jobs := w.jobs[t := j.(stage := Writing(n), written := [])])
  }

  /** An upload in the body of its target's lock can begin to write. */
  lemma Begins(files: map<Key, Chunk>, w: World, t: nat) returns (n: nat)
    requires Inv(files, w) && t < |w.jobs| && t < |w.locks.threads| && InBody(w.locks.threads[t], w.jobs[t].path)
    requires if w.jobs[t].op.Stou? then w.jobs[t].stage.Named? && |w.locks.threads[t]| == 2
             else w.jobs[t].stage.Waiting?
    ensures n !in w.temps && Goes(w, t, Begun(w, t, n)) && Inv(files, Begun(w, t, n))
  {
    n := FreshTemp(w.temps);
    GoRefl(w, t);
    GoStep(w, t, w, Open(n));
    CopyAfter(w, t, n);
    GoStep(w, t, Next(w, t, Open(n)), Copy);
    GoesInv(files, w, t, Begun(w, t, n));
  }

  lemma CopyAfter(w: World, t: nat, n: nat)
    requires Enabled(w, t, Open(n))
    ensures Enabled(Next(w, t, Open(n)), t, Copy) && Next(Next(w, t, Open(n)), t, Copy) == Begun(w, t, n)
  {
    var j := w.jobs[t];
    UpdateTwice(w.temps, n, [], Stored(w.files, j.path, j.op.Appe?, []), w.jobs, t,
                j.(stage := Opened(n), written := []), j.(stage := Writing(n), written := []));
  }

  /** A thread in the body of an acquisition of one lock owns that lock, once. */
  lemma OwnsInside(files: map<Key, Chunk>, w: World, t: nat)
    requires Inv(files, w) && t < |w.locks.threads| && w.locks.threads[t] != []
    requires L.TopOf(w.locks.threads[t]).stage.Inside? && |L.TopOf(w.locks.threads[t]).locks| == 1
    ensures var l := L.TopOf(w.locks.threads[t]).locks[0]; l in w.locks.owner && w.locks.owner[l] == L.Hold(t, 1)
  {
    var top := |w.locks.threads[t]| - 1;
    assert L.FrameInv(w.locks.table, w.locks.threads[t][top]);
    assert L.HeldBy(w.locks, t, top, 0, w.locks.threads[t][top].locks[0]);
  }

  /** The locks after the stage of thread `t`'s top frame has become `stage`, with `owner` owning. */
  function Staged(y: L.State, t: nat, stage: L.Stage, owner: map<Lock, L.Hold>): L.State
    requires t < |y.threads| && y.threads[t] != []
  {
    var st := y.threads[t];
    y.(owner := owner, threads := y.threads[t := L.WithTop(st, L.TopOf(st).(stage := stage))])
  }

  /** A finished upload is in the body of its innermost acquisition, of one lock. */
  predicate MayLeave(w: World, t: nat) {
    && t < |w.jobs| && t < |w.locks.threads| && w.jobs[t].stage.Done? && w.locks.threads[t] != []
    && L.TopOf(w.locks.threads[t]).stage.Inside? && |L.TopOf(w.locks.threads[t]).locks| == 1
  }

  /** It gives the lock back. */
  lemma GivesBack(files: map<Key, Chunk>, w: World, t: nat)
    requires Inv(files, w) && MayLeave(w, t)
    ensures var owner := w.locks.owner - {L.TopOf(w.locks.threads[t]).locks[0]};
      var w' := w.(locks := Staged(w.locks, t, L.Releasing(0), owner));
      Goes(w, t, w') && Inv(files, w')
  {
    var st, f := w.locks.threads[t], L.TopOf(w.locks.threads[t]);
    GoRefl(w, t);
    GoStep(w, t, w, Locking(L.Leave));
    OwnsInside(files, w, t);
    var w1 := w.(locks := Staged(w.locks, t, L.Releasing(1), w.locks.owner));
    GoStep(w, t, w1, Locking(L.Release));
    assert L.WithTop(L.WithTop(st, f.(stage := L.Releasing(1))), f.(stage := L.Releasing(0)))
        == L.WithTop(st, f.(stage := L.Releasing(0)));
    GoesInv(files, w, t, Next(w1, t, Locking(L.Release)));
  }

  /** And then its registration: a finished upload can leave its innermost acquisition. */
  lemma Leaves(files: map<Key, Chunk>, w: World, t: nat) returns (w': World)
    requires Inv(files, w) && MayLeave(w, t)
    ensures Goes(w, t, w') && Inv(files, w') && w' == w.(locks := w'.locks)
    ensures w'.locks.threads == w.locks.threads[t := w.locks.threads[t][..|w.locks.threads[t]| - 1]]
  {
    var st, f := w.locks.threads[t], L.TopOf(w.locks.threads[t]);
    GivesBack(files, w, t);
    var x := w.(locks := Staged(w.locks, t, L.Releasing(0), w.locks.owner - {f.locks[0]}));
    assert L.FrameInv(x.locks.table, L.TopOf(x.locks.threads[t]));
    var table := L.CanUnregister(x.locks.table, f.keys, |f.keys|);
    assert f.keys[..|f.keys|] == f.keys;
    GoStep(w, t, x, Locking(L.Finish(table)));
    w' := Next(x, t, Locking(L.Finish(table)));
    GoesInv(files, w, t, w');
    assert L.WithTop(st, f.(stage := L.Releasing(0)))[..|st| - 1] == st[..|st| - 1];
  }
}
