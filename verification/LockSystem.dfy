/** Any number of threads acquiring and releasing path locks through the registry, step by step. */
module LockSystem {
  import opened PathLocks

  /** How far a thread is with one `acquire`: taking locks in order, in the body, giving them back in reverse. */
  datatype Stage = Acquiring(got: nat) | Inside | Releasing(left: nat)

  datatype Frame = Frame(keys: seq<Key>, locks: seq<Lock>, stage: Stage)

  /** The acquisitions a thread is in, innermost last. */
  type Stack = seq<Frame>

  /** A re-entrant lock's owner and depth. */
  datatype Hold = Hold(tid: nat, depth: nat)

  datatype State = State(table: Table, owner: map<Lock, Hold>, threads: seq<Stack>)

  datatype Action =
    | Begin(keys: seq<Key>, locks: seq<Lock>, table: Table)
    | Take
    | Enter
    | Leave
    | Release
    | Finish(table: Table)

  function Initial(threads: nat): State {
    State(Table(map[], 0), map[], seq(threads, _ => []))
  }

  const SEPARATOR: char := '/'

  /** What resolving a directory gives: the root, or a path that does not end with a separator. */
  predicate IsResolved(directory: Key) {
    directory == [SEPARATOR] || (directory != [] && directory[|directory| - 1] != SEPARATOR)
  }

  /** What the paths in a directory start with. */
  function Lead(directory: Key): Key {
    if directory == [SEPARATOR] then directory else directory + [SEPARATOR]
  }

  /** `child` is the join of a resolved directory and a file name, which holds no separator. */
  predicate IsIn(directory: Key, child: Key) {
    && IsResolved(directory)
    && |Lead(directory)| < |child| && child[..|Lead(directory)|] == Lead(directory)
    && SEPARATOR !in child[|Lead(directory)|..]
  }

  /** A directory's path is a proper prefix of the paths in it. */
  lemma InIsBelow(directory: Key, child: Key)
    requires IsIn(directory, child)
    ensures |directory| < |child| && child[..|directory|] == directory
  {
    assert child[..|directory|] == child[..|Lead(directory)|][..|directory|];
  }

  /** Nothing is in two directories. */
  lemma SameParent(a: Key, b: Key, child: Key)
    requires IsIn(a, child) && IsIn(b, child)
    ensures a == b
  {
    LeadFits(a, b, child);
    LeadFits(b, a, child);
    assert Lead(a) == Lead(b);
    if a != [SEPARATOR] && b != [SEPARATOR] {
      assert a == Lead(a)[..|a|] && b == Lead(b)[..|b|];
    }
  }

  lemma LeadFits(a: Key, b: Key, child: Key)
    requires IsIn(a, child) && IsIn(b, child)
    ensures |Lead(a)| <= |Lead(b)|
  {
    var last := |Lead(a)| - 1;
    assert child[last] == child[..|Lead(a)|][last] == SEPARATOR;
    forall i | |Lead(b)| <= i < |child| ensures child[i] != SEPARATOR {
      assert child[i] == child[|Lead(b)|..][i - |Lead(b)|];
    }
  }

  /** Acquisitions nest only where a unique name is stored: a path in its directory. */
  predicate MayBegin(st: Stack, keys: seq<Key>) {
    && Ascending(keys)
    && (st == [] ||
        (|st| == 1 && st[0].stage.Inside? && |st[0].keys| == 1 && |keys| == 1 && IsIn(st[0].keys[0], keys[0])))
  }

  function TopOf(st: Stack): Frame
    requires st != []
  {
    st[|st| - 1]
  }

  function WithTop(st: Stack, f: Frame): Stack
    requires st != []
  {
    st[|st| - 1 := f]
  }

  /** How many of its locks a frame has in hand. */
  function HeldCount(f: Frame): nat {
    match f.stage
    case Acquiring(got) => got
    case Inside => |f.keys|
    case Releasing(left) => left
  }

  ghost predicate Enabled(y: State, t: nat, a: Action) {
    && t < |y.threads|
    && var st := y.threads[t];
       match a
       case Begin(keys, locks, table) => MayBegin(st, keys) && Registers(y.table, table, keys, locks)
       case Take =>
         && st != [] && TopOf(st).stage.Acquiring? && TopOf(st).stage.got < |TopOf(st).locks|
         && (var l := TopOf(st).locks[TopOf(st).stage.got]; l !in y.owner || y.owner[l].tid == t)
       case Enter => st != [] && TopOf(st).stage == Acquiring(|TopOf(st).locks|)
       case Leave => st != [] && TopOf(st).stage.Inside?
       case Release =>
         && st != [] && TopOf(st).stage.Releasing? && 0 < TopOf(st).stage.left <= |TopOf(st).locks|
         && TopOf(st).locks[TopOf(st).stage.left - 1] in y.owner
       case Finish(table) => st != [] && TopOf(st).stage == Releasing(0) && Unregisters(y.table, table, TopOf(st).keys)
  }

  /** Taking a lock, again if it is already this thread's. */
  function Grab(owner: map<Lock, Hold>, l: Lock, t: nat): map<Lock, Hold> {
    owner[l := Hold(t, if l in owner then owner[l].depth + 1 else 1)]
  }

  /** Giving a lock back once. */
  function Drop(owner: map<Lock, Hold>, l: Lock): map<Lock, Hold>
    requires l in owner
  {
    if owner[l].depth <= 1 then owner - {l} else owner[l := Hold(owner[l].tid, owner[l].depth - 1)]
  }

  /** What a step needs in order to make sense, enabled or not. */
  predicate Applies(y: State, t: nat, a: Action) {
    && t < |y.threads|
    && var st := y.threads[t];
       match a
       case Begin(_, _, _) => true
       case Take => st != [] && TopOf(st).stage.Acquiring? && TopOf(st).stage.got < |TopOf(st).locks|
       case Release =>
         && st != [] && TopOf(st).stage.Releasing? && 0 < TopOf(st).stage.left <= |TopOf(st).locks|
         && TopOf(st).locks[TopOf(st).stage.left - 1] in y.owner
       case _ => st != []
  }

  function Next(y: State, t: nat, a: Action): State
    requires Applies(y, t, a)
  {
    var st := y.threads[t];
    match a
    case Begin(keys, locks, table) =>
      y.(table := table, threads := y.threads[t := st + [Frame(keys, locks, Acquiring(0))]])
    case Take =>
      var f := TopOf(st);
      y.(owner := Grab(y.owner, f.locks[f.stage.got], t),
         threads := y.threads[t := WithTop(st, f.(stage := Acquiring(f.stage.got + 1)))])
    case Enter =>
      y.(threads := y.threads[t := WithTop(st, TopOf(st).(stage := Inside))])
    case Leave =>
      y.(threads := y.threads[t := WithTop(st, TopOf(st).(stage := Releasing(|TopOf(st).locks|)))])
    case Release =>
      var f := TopOf(st);
      y.(owner := Drop(y.owner, f.locks[f.stage.left - 1]),
         threads := y.threads[t := WithTop(st, f.(stage := Releasing(f.stage.left - 1)))])
    case Finish(table) =>
      y.(table := table, threads := y.threads[t := st[..|st| - 1]])
  }

  /** The live registrations of a key: one for each acquisition that names it. */
  function CountStack(st: Stack, key: Key): nat {
    if st == [] then 0 else (if key in st[0].keys then 1 else 0) + CountStack(st[1..], key)
  }

  function Count(threads: seq<Stack>, key: Key): nat {
    if threads == [] then 0 else CountStack(threads[0], key) + Count(threads[1..], key)
  }

  /** Thread `st` has the lock of key `j` of its frame `i` in hand. */
  predicate Holds(st: Stack, i: int, j: int) {
    0 <= i < |st| && 0 <= j < HeldCount(st[i]) && j < |st[i].locks|
  }

  /** A frame's locks are those that the table has for its keys. */
  ghost predicate FrameInv(table: Table, f: Frame) {
    && Ascending(f.keys) && |f.locks| == |f.keys| && HeldCount(f) <= |f.keys|
    && forall j :: 0 <= j < |f.keys| ==> f.keys[j] in table.entries && table.entries[f.keys[j]].lock == f.locks[j]
  }

  ghost predicate StackInv(st: Stack) {
    && |st| <= 2
    && (|st| == 2 ==>
          st[0].stage.Inside? && |st[0].keys| == 1 && |st[1].keys| == 1 && IsIn(st[0].keys[0], st[1].keys[0]))
  }

  /** Thread `t` has lock `l` in hand, as lock `j` of its frame `i`. */
  predicate HeldBy(y: State, t: int, i: int, j: int, l: Lock) {
    0 <= t < |y.threads| && Holds(y.threads[t], i, j) && y.threads[t][i].locks[j] == l
  }

  /** The locks in hand are exactly the owned ones, each held once. */
  ghost predicate OwnerInv(y: State) {
    && (forall t, i, j, l :: HeldBy(y, t, i, j, l) ==> l in y.owner && y.owner[l] == Hold(t, 1))
    && (forall l :: l in y.owner ==> exists i, j :: HeldBy(y, y.owner[l].tid, i, j, l))
  }

  ghost predicate ShapeInv(y: State) {
    && TableInv(y.table)
    && (forall t :: 0 <= t < |y.threads| ==> StackInv(y.threads[t]))
    && (forall t, i :: 0 <= t < |y.threads| && 0 <= i < |y.threads[t]| ==> FrameInv(y.table, y.threads[t][i]))
  }

  /** Each entry's user count is the number of live registrations for its key. */
  ghost predicate CountInv(y: State) {
    forall k :: Users(y.table, k) == Count(y.threads, k)
  }

  ghost predicate Inv(y: State) {
    ShapeInv(y) && OwnerInv(y) && CountInv(y)
  }

  lemma {:induction false} CountUpdate(threads: seq<Stack>, t: nat, st: Stack, key: Key)
    requires t < |threads|
    ensures Count(threads[t := st], key) == Count(threads, key) - CountStack(threads[t], key) + CountStack(st, key)
  {
    if t > 0 {
      CountUpdate(threads[1..], t - 1, st, key);
      assert threads[t := st][1..] == threads[1..][t - 1 := st];
    } else {
      assert threads[t := st][1..] == threads[1..];
    }
  }

  lemma {:induction false} CountAtLeast(threads: seq<Stack>, t: nat, key: Key)
    requires t < |threads|
    ensures Count(threads, key) >= CountStack(threads[t], key)
  {
    if t > 0 {
      CountAtLeast(threads[1..], t - 1, key);
    }
  }

  lemma {:induction false} CountStackSnoc(st: Stack, f: Frame, key: Key)
    ensures CountStack(st + [f], key) == CountStack(st, key) + if key in f.keys then 1 else 0
  {
    if st == [] {
      assert CountStack([f], key) == (if key in f.keys then 1 else 0) + CountStack([], key);
      assert st + [f] == [f];
    } else {
      CountStackSnoc(st[1..], f, key);
      assert (st + [f])[1..] == st[1..] + [f];
    }
  }

  lemma {:induction false} CountStackMember(st: Stack, i: nat, key: Key)
    requires i < |st| && key in st[i].keys
    ensures CountStack(st, key) >= 1
  {
    if i > 0 {
      CountStackMember(st[1..], i - 1, key);
    }
  }

  /** Changing only the stage of the top frame registers nothing. */
  lemma CountSameKeys(st: Stack, f: Frame, key: Key)
    requires st != [] && f.keys == TopOf(st).keys
    ensures CountStack(WithTop(st, f), key) == CountStack(st, key)
  {
    var below := st[..|st| - 1];
    assert st == below + [TopOf(st)] && WithTop(st, f) == below + [f];
    CountStackSnoc(below, TopOf(st), key);
    CountStackSnoc(below, f, key);
  }

  lemma InitialInv(threads: nat)
    ensures Inv(Initial(threads))
  {
    forall k ensures Count(Initial(threads).threads, k) == 0 {
      CountEmpty(Initial(threads).threads, k);
    }
  }

  lemma {:induction false} CountEmpty(threads: seq<Stack>, key: Key)
    requires forall t :: 0 <= t < |threads| ==> threads[t] == []
    ensures Count(threads, key) == 0
  {
    if threads != [] {
      CountEmpty(threads[1..], key);
    }
  }

  /** A key that some frame names is in the table with the frame's lock: sharing is by key. */
  lemma SameLockSameKey(y: State, t: nat, i: nat, j: nat, t': nat, i': nat, j': nat)
    requires ShapeInv(y)
    requires t < |y.threads| && i < |y.threads[t]| && j < |y.threads[t][i].keys|
    requires t' < |y.threads| && i' < |y.threads[t']| && j' < |y.threads[t'][i'].keys|
    ensures y.threads[t][i].locks[j] == y.threads[t'][i'].locks[j']
       <==> y.threads[t][i].keys[j] == y.threads[t'][i'].keys[j']
  {
    assert FrameInv(y.table, y.threads[t][i]) && FrameInv(y.table, y.threads[t'][i']);
  }

  /** One thread never names a key twice. */
  lemma NoRepeat(y: State, t: nat, i: nat, j: nat, i': nat, j': nat)
    requires ShapeInv(y) && t < |y.threads|
    requires i < |y.threads[t]| && j < |y.threads[t][i].keys|
    requires i' < |y.threads[t]| && j' < |y.threads[t][i'].keys|
    requires y.threads[t][i].keys[j] == y.threads[t][i'].keys[j']
    ensures i == i' && j == j'
  {
    assert FrameInv(y.table, y.threads[t][i]) && StackInv(y.threads[t]);
    if i == i' {
      AscendingDistinct(y.threads[t][i].keys, j, j');
    }
  }

  lemma BeginShape(y: State, t: nat, a: Action)
    requires ShapeInv(y) && a.Begin? && Enabled(y, t, a)
    ensures ShapeInv(Next(y, t, a))
  {
    var y' := Next(y, t, a);
    forall u, i | 0 <= u < |y'.threads| && 0 <= i < |y'.threads[u]|
      ensures FrameInv(y'.table, y'.threads[u][i])
    {
      if u != t || i < |y.threads[t]| {
        assert FrameInv(y.table, y.threads[u][i]);
      }
    }
  }

  /** Steps that put no lock in hand and take none out keep the ownership. */
  lemma SameHolds(y: State, y': State)
    requires OwnerInv(y) && y'.owner == y.owner
    requires forall t, i, j, l :: HeldBy(y', t, i, j, l) <==> HeldBy(y, t, i, j, l)
    ensures OwnerInv(y')
  {
    forall l | l in y'.owner ensures exists i, j :: HeldBy(y', y'.owner[l].tid, i, j, l) {
      var i, j :| HeldBy(y, y.owner[l].tid, i, j, l);
      assert HeldBy(y', y'.owner[l].tid, i, j, l);
    }
  }

  lemma BeginCount(y: State, t: nat, a: Action)
    requires CountInv(y) && a.Begin? && Enabled(y, t, a)
    ensures CountInv(Next(y, t, a))
  {
    var y' := Next(y, t, a);
    forall k ensures Users(y'.table, k) == Count(y'.threads, k) {
      CountUpdate(y.threads, t, y'.threads[t], k);
      CountStackSnoc(y.threads[t], TopOf(y'.threads[t]), k);
    }
  }

  lemma BeginKeeps(y: State, t: nat, a: Action)
    requires Inv(y) && a.Begin? && Enabled(y, t, a)
    ensures Inv(Next(y, t, a))
  {
    BeginShape(y, t, a);
    BeginCount(y, t, a);
    SameHolds(y, Next(y, t, a));
  }

  /** A step that only moves the top frame's stage on keeps the shape and the counts. */
  lemma StageKeeps(y: State, y': State, t: nat, f: Frame)
    requires ShapeInv(y) && CountInv(y) && t < |y.threads| && y.threads[t] != []
    requires f.keys == TopOf(y.threads[t]).keys && f.locks == TopOf(y.threads[t]).locks
    requires HeldCount(f) <= |f.keys|
    requires y'.table == y.table && y'.threads == y.threads[t := WithTop(y.threads[t], f)]
    ensures ShapeInv(y') && CountInv(y')
  {
    forall u, i | 0 <= u < |y'.threads| && 0 <= i < |y'.threads[u]|
      ensures FrameInv(y'.table, y'.threads[u][i])
    {
      assert FrameInv(y.table, y.threads[u][i]);
    }
    forall u | 0 <= u < |y'.threads| ensures StackInv(y'.threads[u]) {
      assert StackInv(y.threads[u]);
    }
    forall k ensures Users(y'.table, k) == Count(y'.threads, k) {
      CountUpdate(y.threads, t, y'.threads[t], k);
      CountSameKeys(y.threads[t], f, k);
    }
  }

  /** What is in hand after the top frame's stage has moved on. */
  lemma StageHolds(y: State, y': State, t: nat, f: Frame)
    requires t < |y.threads| && y.threads[t] != []
    requires f.keys == TopOf(y.threads[t]).keys && f.locks == TopOf(y.threads[t]).locks
    requires y'.threads == y.threads[t := WithTop(y.threads[t], f)]
    ensures var top := |y.threads[t]| - 1;
      forall u, i, j, l :: HeldBy(y', u, i, j, l) <==>
        if u == t && i == top then 0 <= j < HeldCount(f) && j < |f.locks| && f.locks[j] == l
        else HeldBy(y, u, i, j, l)
  {
  }

  /** One thread has a lock in hand at one place only. */
  lemma HeldOnce(y: State, t: nat, i: nat, j: nat, i': nat, j': nat, l: Lock)
    requires ShapeInv(y) && t < |y.threads|
    requires i < |y.threads[t]| && j < |y.threads[t][i].locks| && y.threads[t][i].locks[j] == l
    requires i' < |y.threads[t]| && j' < |y.threads[t][i'].locks| && y.threads[t][i'].locks[j'] == l
    ensures i == i' && j == j'
  {
    assert FrameInv(y.table, y.threads[t][i]) && FrameInv(y.table, y.threads[t][i']);
    SameLockSameKey(y, t, i, j, t, i', j');
    NoRepeat(y, t, i, j, i', j');
  }

  /** The lock a thread is about to take is not in its hands already. */
  lemma TakesFreeLock(y: State, t: nat)
    requires Inv(y) && Enabled(y, t, Take)
    ensures TopOf(y.threads[t]).locks[TopOf(y.threads[t]).stage.got] !in y.owner
  {
    var st := y.threads[t];
    var top := |st| - 1;
    var l := st[top].locks[st[top].stage.got];
    if l in y.owner {
      var i, j :| HeldBy(y, y.owner[l].tid, i, j, l);
      HeldOnce(y, t, i, j, top, st[top].stage.got, l);
    }
  }

  /** Taking a free lock as lock `j` of frame `i`. */
  lemma OwnerGrab(y: State, y': State, t: nat, i: nat, j: nat, l: Lock)
    requires OwnerInv(y) && l !in y.owner && y'.owner == Grab(y.owner, l, t)
    requires forall u, p, q, m: Lock ::
      HeldBy(y', u, p, q, m) <==> HeldBy(y, u, p, q, m) || (u == t && p == i && q == j && m == l)
    ensures OwnerInv(y')
  {
    forall m | m in y'.owner ensures exists p, q :: HeldBy(y', y'.owner[m].tid, p, q, m) {
      if m == l {
        assert HeldBy(y', t, i, j, l);
      } else {
        var p, q :| HeldBy(y, y.owner[m].tid, p, q, m);
        assert HeldBy(y', y'.owner[m].tid, p, q, m);
      }
    }
  }

  /** What is in hand in `y'` is what is in hand in `y`, but for lock `j` of frame `i` of thread `t`. */
  ghost predicate HoldsBut(y: State, y': State, t: nat, i: nat, j: nat, l: Lock) {
    forall u, p, q, m: Lock ::
      HeldBy(y', u, p, q, m) <==> HeldBy(y, u, p, q, m) && !(u == t && p == i && q == j && m == l)
  }

  ghost predicate HeldOnlyAt(y: State, t: nat, i: nat, j: nat, l: Lock) {
    HeldBy(y, t, i, j, l) && forall p, q :: HeldBy(y, t, p, q, l) ==> p == i && q == j
  }

  /** Giving back lock `j` of frame `i`. */
  lemma OwnerDrop(y: State, y': State, t: nat, i: nat, j: nat, l: Lock)
    requires OwnerInv(y) && y'.owner == y.owner - {l}
    requires HoldsBut(y, y', t, i, j, l) && HeldOnlyAt(y, t, i, j, l)
    ensures OwnerInv(y')
  {
    forall m | m in y'.owner ensures exists p, q :: HeldBy(y', y'.owner[m].tid, p, q, m) {
      var p, q :| HeldBy(y, y.owner[m].tid, p, q, m);
      assert HeldBy(y', y'.owner[m].tid, p, q, m);
    }
  }

  lemma TakeKeeps(y: State, t: nat)
    requires Inv(y) && Enabled(y, t, Take)
    ensures Inv(Next(y, t, Take))
  {
    var st, y' := y.threads[t], Next(y, t, Take);
    var top, f := |st| - 1, TopOf(y'.threads[t]);
    assert FrameInv(y.table, st[top]);
    TakesFreeLock(y, t);
    StageKeeps(y, y', t, f);
    StageHolds(y, y', t, f);
    OwnerGrab(y, y', t, top, st[top].stage.got, st[top].locks[st[top].stage.got]);
  }

  /** The lock being given back is in hand there, and nowhere else. */
  lemma ReleasesHeldLock(y: State, t: nat)
    requires ShapeInv(y) && OwnerInv(y) && Enabled(y, t, Release)
    ensures var top := |y.threads[t]| - 1;
      var last := y.threads[t][top].stage.left - 1;
      var l := y.threads[t][top].locks[last];
      HeldOnlyAt(y, t, top, last, l) && l in y.owner && y.owner[l] == Hold(t, 1)
  {
    var top := |y.threads[t]| - 1;
    var last := y.threads[t][top].stage.left - 1;
    var l := y.threads[t][top].locks[last];
    assert HeldBy(y, t, top, last, l);
    forall p, q | HeldBy(y, t, p, q, l) ensures p == top && q == last {
      HeldOnce(y, t, p, q, top, last, l);
    }
  }

  /** What is in hand after a release. */
  lemma ReleaseHolds(y: State, t: nat)
    requires Enabled(y, t, Release) && FrameInv(y.table, TopOf(y.threads[t]))
    ensures var top := |y.threads[t]| - 1;
      var last := y.threads[t][top].stage.left - 1;
      var l := y.threads[t][top].locks[last];
      HoldsBut(y, Next(y, t, Release), t, top, last, l)
  {
    var y' := Next(y, t, Release);
    StageHolds(y, y', t, TopOf(y'.threads[t]));
  }

  lemma ReleaseOwner(y: State, t: nat)
    requires ShapeInv(y) && OwnerInv(y) && Enabled(y, t, Release)
    ensures OwnerInv(Next(y, t, Release))
  {
    var top := |y.threads[t]| - 1;
    var last := y.threads[t][top].stage.left - 1;
    assert FrameInv(y.table, y.threads[t][top]);
    ReleasesHeldLock(y, t);
    ReleaseHolds(y, t);
    OwnerDrop(y, Next(y, t, Release), t, top, last, y.threads[t][top].locks[last]);
  }

  lemma ReleaseKeeps(y: State, t: nat)
    requires Inv(y) && Enabled(y, t, Release)
    ensures Inv(Next(y, t, Release))
  {
    var y' := Next(y, t, Release);
    assert FrameInv(y.table, TopOf(y.threads[t]));
    StageKeeps(y, y', t, TopOf(y'.threads[t]));
    ReleaseOwner(y, t);
  }

  lemma EnterLeaveKeeps(y: State, t: nat, a: Action)
    requires Inv(y) && (a.Enter? || a.Leave?) && Enabled(y, t, a)
    ensures Inv(Next(y, t, a))
  {
    var y' := Next(y, t, a);
    assert FrameInv(y.table, TopOf(y.threads[t]));
    StageKeeps(y, y', t, TopOf(y'.threads[t]));
    StageHolds(y, y', t, TopOf(y'.threads[t]));
    SameHolds(y, y');
  }

  lemma FinishCount(y: State, t: nat, a: Action)
    requires CountInv(y) && a.Finish? && Enabled(y, t, a)
    ensures CountInv(Next(y, t, a))
  {
    var st, y' := y.threads[t], Next(y, t, a);
    assert st == y'.threads[t] + [TopOf(st)];
    forall k ensures Users(y'.table, k) == Count(y'.threads, k) {
      CountUpdate(y.threads, t, y'.threads[t], k);
      CountStackSnoc(y'.threads[t], TopOf(st), k);
    }
  }

  /** A key that another acquisition still names stays in the table, with its lock. */
  lemma FinishFrame(y: State, y': State, u: nat, i: nat)
    requires CountInv(y') && u < |y'.threads| && i < |y'.threads[u]|
    requires FrameInv(y.table, y'.threads[u][i])
    requires forall k :: k in y.table.entries && k in y'.table.entries ==>
      y'.table.entries[k].lock == y.table.entries[k].lock
    ensures FrameInv(y'.table, y'.threads[u][i])
  {
    var f := y'.threads[u][i];
    forall j | 0 <= j < |f.keys| ensures f.keys[j] in y'.table.entries {
      CountStackMember(y'.threads[u], i, f.keys[j]);
      CountAtLeast(y'.threads, u, f.keys[j]);
      assert Users(y'.table, f.keys[j]) >= 1;
    }
  }

  lemma FinishShape(y: State, t: nat, a: Action)
    requires Inv(y) && a.Finish? && Enabled(y, t, a)
    ensures ShapeInv(Next(y, t, a)) && CountInv(Next(y, t, a))
  {
    var st, y' := y.threads[t], Next(y, t, a);
    FinishCount(y, t, a);
    forall u, i | 0 <= u < |y'.threads| && 0 <= i < |y'.threads[u]|
      ensures FrameInv(y'.table, y'.threads[u][i])
    {
      assert y'.threads[u][i] == y.threads[u][i];
      FinishFrame(y, y', u, i);
    }
    forall u | 0 <= u < |y'.threads| ensures StackInv(y'.threads[u]) {
      assert StackInv(y.threads[u]);
    }
  }

  /** The frame that goes has nothing in hand. */
  lemma FinishHolds(y: State, t: nat, a: Action)
    requires a.Finish? && Enabled(y, t, a)
    ensures forall u, i, j, l :: HeldBy(Next(y, t, a), u, i, j, l) <==> HeldBy(y, u, i, j, l)
  {
  }

  lemma FinishKeeps(y: State, t: nat, a: Action)
    requires Inv(y) && a.Finish? && Enabled(y, t, a)
    ensures Inv(Next(y, t, a))
  {
    FinishShape(y, t, a);
    FinishHolds(y, t, a);
    SameHolds(y, Next(y, t, a));
  }

  lemma StepKeeps(y: State, t: nat, a: Action)
    requires Inv(y) && Enabled(y, t, a)
    ensures Inv(Next(y, t, a))
  {
    match a
    case Begin(_, _, _) => BeginKeeps(y, t, a);
    case Take => TakeKeeps(y, t);
    case Enter => EnterLeaveKeeps(y, t, a);
    case Leave => EnterLeaveKeeps(y, t, a);
    case Release => ReleaseKeeps(y, t);
    case Finish(_) => FinishKeeps(y, t, a);
  }

  /** One step of one thread. */
  datatype Move = Move(t: nat, a: Action)

  ghost predicate IsRun(y: State, moves: seq<Move>)
    decreases |moves|
  {
    moves == [] ||
    (Enabled(y, moves[0].t, moves[0].a) && IsRun(Next(y, moves[0].t, moves[0].a), moves[1..]))
  }

  ghost function After(y: State, moves: seq<Move>): State
    requires IsRun(y, moves)
    decreases |moves|
  {
    if moves == [] then y else After(Next(y, moves[0].t, moves[0].a), moves[1..])
  }

  ghost predicate Reachable(threads: nat, y: State) {
    exists moves :: IsRun(Initial(threads), moves) && After(Initial(threads), moves) == y
  }

  lemma {:induction false} RunKeeps(y: State, moves: seq<Move>)
    requires Inv(y) && IsRun(y, moves)
    ensures Inv(After(y, moves))
    decreases |moves|
  {
    if moves != [] {
      StepKeeps(y, moves[0].t, moves[0].a);
      RunKeeps(Next(y, moves[0].t, moves[0].a), moves[1..]);
    }
  }

  lemma ReachableInv(threads: nat, y: State)
    requires Reachable(threads, y)
    ensures Inv(y)
  {
    var moves :| IsRun(Initial(threads), moves) && After(Initial(threads), moves) == y;
    InitialInv(threads);
    RunKeeps(Initial(threads), moves);
  }

  /** A thread is in the body of an acquisition of `key`, or holds its lock on the way in or out. */
  predicate HasKey(st: Stack, key: Key) {
    exists i, j :: 0 <= i < |st| && 0 <= j < |st[i].keys| && Holds(st, i, j) && st[i].keys[j] == key
  }

  /** Mutual exclusion: no two threads have the same key, although its entry may have come and gone. */
  lemma MutualExclusion(y: State, t: nat, t': nat, key: Key)
    requires Inv(y) && t < |y.threads| && t' < |y.threads|
    requires HasKey(y.threads[t], key) && HasKey(y.threads[t'], key)
    ensures t == t'
  {
    var i, j :| 0 <= i < |y.threads[t]| && 0 <= j < |y.threads[t][i].keys|
      && Holds(y.threads[t], i, j) && y.threads[t][i].keys[j] == key;
    var i', j' :| 0 <= i' < |y.threads[t']| && 0 <= j' < |y.threads[t'][i'].keys|
      && Holds(y.threads[t'], i', j') && y.threads[t'][i'].keys[j'] == key;
    SameLockSameKey(y, t, i, j, t', i', j');
    var l := y.threads[t][i].locks[j];
    assert HeldBy(y, t, i, j, l) && HeldBy(y, t', i', j', l);
  }

  /** The lock registry is correct in every reachable state. */
  lemma RegistryCorrect(threads: nat, y: State)
    requires Reachable(threads, y)
    // a key has an entry exactly while it has registrations, and the entry counts them
    ensures forall k :: k in y.table.entries <==> Count(y.threads, k) > 0
    ensures forall k :: k in y.table.entries ==> y.table.entries[k].users == Count(y.threads, k)
    // all users of a key share one lock object, and different keys have different ones
    ensures forall t, i, j, t', i', j' ::
      && 0 <= t < |y.threads| && 0 <= i < |y.threads[t]| && 0 <= j < |y.threads[t][i].keys|
      && 0 <= t' < |y.threads| && 0 <= i' < |y.threads[t']| && 0 <= j' < |y.threads[t'][i'].keys|
      && j < |y.threads[t][i].locks| && j' < |y.threads[t'][i'].locks|
      ==> (y.threads[t][i].keys[j] == y.threads[t'][i'].keys[j']
           <==> y.threads[t][i].locks[j] == y.threads[t'][i'].locks[j'])
    // no two threads are inside the same key
    ensures forall t, t', k ::
      (0 <= t < |y.threads| && 0 <= t' < |y.threads| && HasKey(y.threads[t], k) && HasKey(y.threads[t'], k)) ==> t == t'
    // and when every thread is done, the table is empty and no lock is held
    ensures (forall t :: 0 <= t < |y.threads| ==> y.threads[t] == []) ==> y.table.entries == map[] && y.owner == map[]
  {
    ReachableInv(threads, y);
    forall k ensures k in y.table.entries <==> Count(y.threads, k) > 0 {
      assert Users(y.table, k) == Count(y.threads, k);
    }
    forall k | k in y.table.entries ensures y.table.entries[k].users == Count(y.threads, k) {
      assert Users(y.table, k) == Count(y.threads, k);
    }
    forall t, i, j, t', i', j' |
      && 0 <= t < |y.threads| && 0 <= i < |y.threads[t]| && 0 <= j < |y.threads[t][i].keys|
      && 0 <= t' < |y.threads| && 0 <= i' < |y.threads[t']| && 0 <= j' < |y.threads[t'][i'].keys|
      && j < |y.threads[t][i].locks| && j' < |y.threads[t'][i'].locks|
      ensures y.threads[t][i].keys[j] == y.threads[t'][i'].keys[j']
         <==> y.threads[t][i].locks[j] == y.threads[t'][i'].locks[j']
    {
      SameLockSameKey(y, t, i, j, t', i', j');
    }
    forall t, t', k | 0 <= t < |y.threads| && 0 <= t' < |y.threads|
      && HasKey(y.threads[t], k) && HasKey(y.threads[t'], k) ensures t == t'
    {
      MutualExclusion(y, t, t', k);
    }
    if forall t :: 0 <= t < |y.threads| ==> y.threads[t] == [] {
      IdleIsEmpty(y);
    }
  }

  lemma IdleIsEmpty(y: State)
    requires Inv(y) && forall t :: 0 <= t < |y.threads| ==> y.threads[t] == []
    ensures y.table.entries == map[] && y.owner == map[]
  {
    forall k ensures k !in y.table.entries {
      CountEmpty(y.threads, k);
      assert Users(y.table, k) == 0;
    }
    forall l ensures l !in y.owner {
      assert forall t, i, j :: !HeldBy(y, t, i, j, l);
    }
  }

  /** A table with the registrations of `keys` given back exists whenever they are there to give. */
  lemma {:induction false} CanUnregister(table: Table, keys: seq<Key>, i: nat) returns (table': Table)
    requires TableInv(table) && Ascending(keys) && i <= |keys|
    requires forall j :: 0 <= j < |keys| ==> keys[j] in table.entries
    ensures Unregisters(table, table', keys[..i])
    ensures forall j :: i <= j < |keys| ==> keys[j] in table'.entries
  {
    table' := table;
    if i > 0 {
      table' := CanUnregister(table, keys, i - 1);
      forall j | 0 <= j < |keys| && j != i - 1 ensures keys[j] != keys[i - 1] {
        LessIrreflexive(keys[i - 1]);
      }
      UnregisterStep(table, table', keys, i - 1);
      table' := UnregisterOne(table', keys[i - 1]);
    }
  }

  /** Thread `t` waits for a lock that another thread has. */
  predicate Blocked(y: State, t: nat) {
    && t < |y.threads| && y.threads[t] != []
    && var f := TopOf(y.threads[t]);
       && f.stage.Acquiring? && f.stage.got < |f.locks| && f.stage.got < |f.keys|
       && f.locks[f.stage.got] in y.owner && y.owner[f.locks[f.stage.got]].tid != t
  }

  /** Thread `t` is in some acquisition and can go on with it. */
  ghost predicate CanStep(y: State, t: nat) {
    t < |y.threads| && y.threads[t] != [] && exists a: Action :: !a.Begin? && Enabled(y, t, a)
  }

  /** The key a blocked thread waits for. */
  function Awaited(y: State, t: nat): Key
    requires Blocked(y, t)
  {
    var f := TopOf(y.threads[t]);
    f.keys[f.stage.got]
  }

  lemma StepOrBlocked(y: State, t: nat)
    requires Inv(y) && t < |y.threads| && y.threads[t] != []
    ensures CanStep(y, t) || Blocked(y, t)
  {
    var st := y.threads[t];
    var f := TopOf(st);
    assert FrameInv(y.table, f);
    match f.stage
    case Acquiring(got) =>
      if got == |f.locks| {
        assert Enabled(y, t, Enter);
      } else if !Blocked(y, t) {
        assert Enabled(y, t, Take);
      }
    case Inside => assert Enabled(y, t, Leave);
    case Releasing(left) =>
      if left > 0 {
        assert HeldBy(y, t, |st| - 1, left - 1, f.locks[left - 1]);
        assert Enabled(y, t, Release);
      } else {
        var table := CanUnregister(y.table, f.keys, |f.keys|);
        assert f.keys[..|f.keys|] == f.keys;
        assert Enabled(y, t, Finish(table));
      }
  }

  /** What a blocked thread waits for comes after everything it has. */
  lemma AwaitsAscending(y: State, t: nat, key: Key)
    requires Inv(y) && Blocked(y, t) && HasKey(y.threads[t], key)
    ensures Less(key, Awaited(y, t))
  {
    var st := y.threads[t];
    var i, j :| 0 <= i < |st| && 0 <= j < |st[i].keys| && Holds(st, i, j) && st[i].keys[j] == key;
    assert StackInv(st) && FrameInv(y.table, st[i]) && FrameInv(y.table, TopOf(st));
    if i < |st| - 1 {
      var child := st[1].keys[0];
      InIsBelow(key, child);
      PrefixIsLess(key, child[|key|..]);
      assert key + child[|key|..] == child;
    }
  }

  /** The owner of the lock that a blocked thread waits for has that key. */
  lemma OwnerHasAwaited(y: State, t: nat) returns (u: nat)
    requires Inv(y) && Blocked(y, t)
    ensures u < |y.threads| && HasKey(y.threads[u], Awaited(y, t))
  {
    var f := TopOf(y.threads[t]);
    var l := f.locks[f.stage.got];
    u := y.owner[l].tid;
    var i, j :| HeldBy(y, u, i, j, l);
    assert FrameInv(y.table, y.threads[u][i]);
    SameLockSameKey(y, u, i, j, t, |y.threads[t]| - 1, f.stage.got);
    assert Holds(y.threads[u], i, j) && y.threads[u][i].keys[j] == Awaited(y, t);
  }

  /** Follow the chain of waits upwards: the awaited keys ascend, so it ends at a thread that can step. */
  lemma {:induction false} ChainEnds(y: State, t: nat, above: set<Key>) returns (u: nat)
    requires Inv(y) && Blocked(y, t)
    requires above == set k | k in y.table.entries && Less(Awaited(y, t), k)
    ensures CanStep(y, u)
    decreases above
  {
    u := OwnerHasAwaited(y, t);
    StepOrBlocked(y, u);
    if !CanStep(y, u) {
      var lower, higher := Awaited(y, t), Awaited(y, u);
      AwaitsAscending(y, u, lower);
      var above' := set k | k in y.table.entries && Less(higher, k);
      assert above' < above by {
        forall k | k in above' ensures k in above {
          LessTransitive(lower, higher, k);
        }
        assert FrameInv(y.table, TopOf(y.threads[u]));
        LessIrreflexive(higher);
        assert higher in above && higher !in above';
      }
      u := ChainEnds(y, u, above');
    }
  }

  lemma SomeThreadSteps(y: State, t: nat) returns (u: nat)
    requires Inv(y) && t < |y.threads| && y.threads[t] != []
    ensures CanStep(y, u)
  {
    u := t;
    StepOrBlocked(y, t);
    if !CanStep(y, t) {
      u := ChainEnds(y, t, set k | k in y.table.entries && Less(Awaited(y, t), k));
    }
  }

  /** Deadlock freedom: while any thread is in an acquisition, some thread in one can go on. */
  lemma DeadlockFree(threads: nat, y: State, t: nat)
    requires Reachable(threads, y) && t < |y.threads| && y.threads[t] != []
    ensures exists u :: CanStep(y, u)
  {
    ReachableInv(threads, y);
    var u := SomeThreadSteps(y, t);
  }
}
