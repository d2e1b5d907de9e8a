/** The per-path lock registry: a table of reference-counted locks whose entries come and go. */
module PathLocks {

  /** A resolved path, and the key it is locked under. */
  type Key = string

  /** The identity of a lock object. */
  type Lock = nat

  /** Code-point order, as `sorted` uses it. */
  predicate Less(a: Key, b: Key) {
    b != [] && (a == [] || a[0] < b[0] || (a[0] == b[0] && Less(a[1..], b[1..])))
  }

  lemma {:induction false} LessIrreflexive(a: Key)
    ensures !Less(a, a)
  {
    if a != [] {
      LessIrreflexive(a[1..]);
    }
  }

  lemma {:induction false} LessTransitive(a: Key, b: Key, c: Key)
    requires Less(a, b) && Less(b, c)
    ensures Less(a, c)
  {
    if a != [] && a[0] == b[0] && b[0] == c[0] {
      LessTransitive(a[1..], b[1..], c[1..]);
    }
  }

  /** A path comes before every path below it. */
  lemma {:induction false} PrefixIsLess(a: Key, tail: Key)
    requires tail != []
    ensures Less(a, a + tail)
  {
    if a == [] {
      assert a + tail == tail;
    } else {
      PrefixIsLess(a[1..], tail);
      assert (a + tail)[1..] == a[1..] + tail;
    }
  }

  /** Keys in the order in which their locks are taken: ascending, so without repetition. */
  predicate Ascending(keys: seq<Key>) {
    forall i, j :: 0 <= i < j < |keys| ==> Less(keys[i], keys[j])
  }

  lemma {:induction false} LessTotal(a: Key, b: Key)
    ensures Less(a, b) || a == b || Less(b, a)
  {
    if a != [] && b != [] && a[0] == b[0] {
      LessTotal(a[1..], b[1..]);
    }
  }

  /** A key put in its place, unless it is there. */
  function Insert(key: Key, keys: seq<Key>): seq<Key> {
    if keys == [] then [key]
    else if key == keys[0] then keys
    else if Less(key, keys[0]) then [key] + keys
    else [keys[0]] + Insert(key, keys[1..])
  }

  lemma {:induction false} InsertPlaces(key: Key, keys: seq<Key>)
    requires Ascending(keys)
    ensures Ascending(Insert(key, keys))
    ensures forall k :: k in Insert(key, keys) <==> k == key || k in keys
  {
    if keys == [] || key == keys[0] {
    } else if Less(key, keys[0]) {
      forall j | 0 <= j < |keys| ensures Less(key, keys[j]) {
        if j > 0 {
          LessTransitive(key, keys[0], keys[j]);
        }
      }
    } else {
      LessTotal(key, keys[0]);
      InsertPlaces(key, keys[1..]);
      var rest := Insert(key, keys[1..]);
      forall j | 0 <= j < |rest| ensures Less(keys[0], rest[j]) {
        assert rest[j] in rest;
      }
    }
  }

  /** The keys of an acquisition: those of its paths, sorted and without repetition. */
  function KeysOf(paths: seq<Key>): seq<Key> {
    if paths == [] then [] else Insert(paths[0], KeysOf(paths[1..]))
  }

  lemma {:induction false} KeysAscend(paths: seq<Key>)
    ensures Ascending(KeysOf(paths))
    ensures forall k :: k in KeysOf(paths) <==> k in paths
  {
    if paths != [] {
      KeysAscend(paths[1..]);
      InsertPlaces(paths[0], KeysOf(paths[1..]));
    }
  }

  lemma AscendingDistinct(keys: seq<Key>, i: nat, j: nat)
    requires Ascending(keys) && i < |keys| && j < |keys| && keys[i] == keys[j]
    ensures i == j
  {
    LessIrreflexive(keys[i]);
  }

  datatype Entry = Entry(lock: Lock, users: nat)

  /** The registry's dictionary, and a supply of locks not made yet. */
  datatype Table = Table(entries: map<Key, Entry>, supply: Lock)

  function Users(t: Table, key: Key): nat {
    if key in t.entries then t.entries[key].users else 0
  }

  function RegisterOne(t: Table, key: Key): Table {
    if key in t.entries then
      t.(entries := t.entries[key := Entry(t.entries[key].lock, t.entries[key].users + 1)])
    else
      Table(t.entries[key := Entry(t.supply, 1)], t.supply + 1)
  }

  function UnregisterOne(t: Table, key: Key): Table
    requires key in t.entries && t.entries[key].users > 0
  {
    if t.entries[key].users == 1 then t.(entries := t.entries - {key})
    else t.(entries := t.entries[key := Entry(t.entries[key].lock, t.entries[key].users - 1)])
  }

  /** Entries are in use, and no two of them share a lock. */
  ghost predicate TableInv(t: Table) {
    && (forall k :: k in t.entries ==> t.entries[k].users > 0 && t.entries[k].lock < t.supply)
    && (forall k, k' :: k in t.entries && k' in t.entries && k != k' ==> t.entries[k].lock != t.entries[k'].lock)
  }

  /** `t'` has the locks of `t`, and the users of `t` shifted by `delta` on `keys`. */
  ghost predicate Shifted(t: Table, t': Table, keys: seq<Key>, delta: int) {
    && t.supply <= t'.supply
    && (forall k :: k in t.entries && k in t'.entries ==> t'.entries[k].lock == t.entries[k].lock)
    && (forall k :: Users(t', k) == Users(t, k) + if k in keys then delta else 0)
  }

  /** What registering an ascending list of keys does, and the locks it hands out. */
  ghost predicate Registers(t: Table, t': Table, keys: seq<Key>, locks: seq<Lock>) {
    && TableInv(t')
    && Shifted(t, t', keys, 1)
    && t.entries.Keys <= t'.entries.Keys
    && (forall k :: k in t'.entries && k !in t.entries ==> t'.entries[k].lock >= t.supply)
    && |locks| == |keys|
    && forall i :: 0 <= i < |keys| ==> keys[i] in t'.entries && t'.entries[keys[i]].lock == locks[i]
  }

  /** What giving the registrations back does. */
  ghost predicate Unregisters(t: Table, t': Table, keys: seq<Key>) {
    TableInv(t') && Shifted(t, t', keys, -1) && t'.entries.Keys <= t.entries.Keys
  }

  class PathLockRegistry {
    var table: Table

    constructor ()
      ensures table == Table(map[], 0) && TableInv(table)
    {
      table := Table(map[], 0);
    }

    /** The guarded first half of `acquire`: one registration per key. */
    method Register(paths: seq<Key>) returns (keys: seq<Key>, locks: seq<Lock>)
      requires TableInv(table)
      modifies this
      ensures keys == KeysOf(paths) && Registers(old(table), table, keys, locks)
    {
      keys, locks := KeysOf(paths), [];
      KeysAscend(paths);
      for i := 0 to |keys|
        invariant Registers(old(table), table, keys[..i], locks)
      {
        var key := keys[i];
        ghost var before := table;
        table := RegisterOne(table, key);
        locks := locks + [table.entries[key].lock];
        forall j | 0 <= j < i ensures keys[j] != key {
          LessIrreflexive(key);
        }
        RegisterStep(old(table), before, keys, i, locks[..i]);
      }
      assert keys[..|keys|] == keys;
    }

    /** The guarded second half: the entry of a key goes with its last user. */
    method Unregister(keys: seq<Key>)
      requires TableInv(table) && Ascending(keys)
      requires forall k :: k in keys ==> k in table.entries
      modifies this
      ensures Unregisters(old(table), table, keys)
    {
      for i := 0 to |keys|
        invariant Unregisters(old(table), table, keys[..i])
        invariant forall j :: i <= j < |keys| ==> keys[j] in table.entries
      {
        var key := keys[i];
        forall j | 0 <= j < |keys| && j != i ensures keys[j] != key {
          LessIrreflexive(key);
        }
        ghost var before := table;
        table := UnregisterOne(table, key);
        UnregisterStep(old(table), before, keys, i);
      }
      assert keys[..|keys|] == keys;
    }
  }

  lemma ShiftStep(t0: Table, t: Table, t': Table, keys: seq<Key>, i: nat, delta: int)
    requires i < |keys| && Shifted(t0, t, keys[..i], delta) && t.supply <= t'.supply
    requires forall j :: 0 <= j < i ==> keys[j] != keys[i]
    requires forall k :: Users(t', k) == Users(t, k) + if k == keys[i] then delta else 0
    requires forall k :: k in t0.entries && k in t'.entries ==> t'.entries[k].lock == t0.entries[k].lock
    ensures Shifted(t0, t', keys[..i + 1], delta)
  {
    assert keys[..i + 1] == keys[..i] + [keys[i]];
    assert keys[i] !in keys[..i];
  }

  lemma RegisterStep(t0: Table, t: Table, keys: seq<Key>, i: nat, locks: seq<Lock>)
    requires i < |keys| && Registers(t0, t, keys[..i], locks)
    requires forall j :: 0 <= j < i ==> keys[j] != keys[i]
    ensures var t' := RegisterOne(t, keys[i]);
      Registers(t0, t', keys[..i + 1], locks + [t'.entries[keys[i]].lock])
  {
    var t' := RegisterOne(t, keys[i]);
    ShiftStep(t0, t, t', keys, i, 1);
    forall j | 0 <= j < i + 1
      ensures keys[j] in t'.entries && t'.entries[keys[j]].lock == (locks + [t'.entries[keys[i]].lock])[j]
    {
      if j < i {
        assert keys[..i][j] in t.entries;
      }
    }
  }

  /** A key can always be registered. */
  lemma CanRegister(t: Table, key: Key)
    requires TableInv(t)
    ensures var t' := RegisterOne(t, key);
      Ascending([key]) && Registers(t, t', [key], [t'.entries[key].lock])
  {
    assert [key][..0] == [] && [key][..1] == [key];
    assert [] + [RegisterOne(t, key).entries[key].lock] == [RegisterOne(t, key).entries[key].lock];
    RegisterStep(t, t, [key], 0, []);
  }

  lemma UnregisterStep(t0: Table, t: Table, keys: seq<Key>, i: nat)
    requires i < |keys| && Unregisters(t0, t, keys[..i]) && keys[i] in t.entries && t.entries[keys[i]].users > 0
    requires forall j :: 0 <= j < i ==> keys[j] != keys[i]
    ensures Unregisters(t0, UnregisterOne(t, keys[i]), keys[..i + 1])
  {
    ShiftStep(t0, t, UnregisterOne(t, keys[i]), keys, i, -1);
  }
}
