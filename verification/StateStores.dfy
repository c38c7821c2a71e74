// src/pyvider/state_stores/{base,memory,filesystem}.py: the two backends and their agreement.
// One call at a time; what several processes do to one lock file at once is LeaseProtocol.
module StoreCalls {
  import opened Options
  import opened Texts
  import opened StateLocks

  // What tempfile.mkstemp puts between directory and suffix: tmp and eight of a-z, 0-9 and _.
  predicate IsStem(s: Text) {
    |s| == 11 && s[..3] == [116, 109, 112] &&
    forall i :: 3 <= i < 11 ==> 97 <= s[i] <= 122 || 48 <= s[i] <= 57 || s[i] == 95
  }

  const STEM: Stem := [116, 109, 112, 97, 97, 97, 97, 97, 97, 97, 97]

  type Stem = s: Text | IsStem(s) witness [116, 109, 112, 97, 97, 97, 97, 97, 97, 97, 97]

  datatype Op =
    | Read(t: Text, id: Text)
    | Write(t: Text, id: Text, payload: seq<Byte>, tempStem: Stem)
    | TornWrite(t: Text, id: Text, partial: seq<Byte>, tempStem: Stem)  // the process dies before the rename
    | Delete(t: Text, id: Text)
    | List(t: Text)
    | Lock(t: Text, id: Text, operation: Text, holder: Text, ttl: real, now: real, lockId: Text)
    | Unlock(t: Text, id: Text, lockId: Text)
    | GetLock(t: Text, id: Text, now: real)

  datatype Answer =
    | Silence
    | StateBytes(payload: Option<seq<Byte>>)
    | Ids(ids: set<Text>)
    | Acquired(lock: StateLock)
    | Conflict(existing: StateLock)
    | Released(ok: bool)
    | Current(lease: Option<StateLock>)
    | Failed  // an OSError, or the StateStoreError it is wrapped in

  function Lookup<K, V>(m: map<K, V>, k: K): Option<V> {
    if k in m then Some(m[k]) else None
  }
}

module MemoryStore {
  import opened Options
  import opened Texts
  import opened StateLocks
  import opened StoreCalls

  type Key = (Text, Text)

  datatype Mem = Mem(data: map<Key, seq<Byte>>, locks: map<Key, StateLock>)

  function ListOf(m: Mem, t: Text): set<Text> {
    set k | k in m.data && k.0 == t :: k.1
  }

  // The whole store after a call, and the call's answer.
  function MemApply(m: Mem, op: Op): (Mem, Answer) {
    match op
    case Read(t, id) => (m, StateBytes(Lookup(m.data, (t, id))))
    case Write(t, id, payload, _) => (m.(data := m.data[(t, id) := payload]), Silence)
    case TornWrite(_, _, _, _) => (m, Silence)
    case Delete(t, id) => (m.(data := m.data - {(t, id)}), Silence)
    case List(t) => (m, Ids(ListOf(m, t)))
    case Lock(t, id, operation, holder, ttl, now, lockId) =>
      var found := Lookup(m.locks, (t, id));
      if found.Some? && !found.value.IsExpired(now) then (m, Conflict(found.value))
      else
        var lock := NewLock(lockId, t, id, operation, holder, now, ttl);
        (m.(locks := m.locks[(t, id) := lock]), Acquired(lock))
    case Unlock(t, id, lockId) =>
      var found := Lookup(m.locks, (t, id));
      if found.None? || found.value.lockId != lockId then (m, Released(false))
      else (m.(locks := m.locks - {(t, id)}), Released(true))
    case GetLock(t, id, now) =>
      var found := Lookup(m.locks, (t, id));
      (m, Current(if found.None? || found.value.IsExpired(now) then None else found))
  }

  class InMemoryStateStore {
    var data: map<Key, seq<Byte>>
    var locks: map<Key, StateLock>

    ghost function Contents(): Mem
      reads this
    {
      Mem(data, locks)
    }

    constructor ()
      ensures Contents() == Mem(map[], map[])
    {
      data, locks := map[], map[];
    }

    method ReadState(t: Text, id: Text) returns (r: Option<seq<Byte>>)
      ensures StateBytes(r) == MemApply(Contents(), Read(t, id)).1
    {
      if (t, id) in data { return Some(data[(t, id)]); }
      return None;
    }

    method WriteState(t: Text, id: Text, payload: seq<Byte>)
      modifies this
      ensures forall stem :: Contents() == MemApply(old(Contents()), Write(t, id, payload, stem)).0
    {
      data := data[(t, id) := payload];
    }

    method DeleteState(t: Text, id: Text)
      modifies this
      ensures Contents() == MemApply(old(Contents()), Delete(t, id)).0
    {
      data := data - {(t, id)};
    }

    method ListStates(t: Text) returns (ids: seq<Text>)
      ensures Ids(set x | x in ids) == MemApply(Contents(), List(t)).1
      ensures forall i, j :: 0 <= i < j < |ids| ==> ids[i] != ids[j]
    {
      ids := [];
      var keys := data.Keys;
      while keys != {}
        invariant keys <= data.Keys
        invariant forall x :: x in ids <==> (t, x) in data && (t, x) !in keys
        invariant forall i, j :: 0 <= i < j < |ids| ==> ids[i] != ids[j]
        decreases |keys|
      {
        var k :| k in keys;
        keys := keys - {k};
        if k.0 == t {
          assert k == (t, k.1);
          ids := ids + [k.1];
        }
      }
      assert forall x :: x in ids <==> x in ListOf(Contents(), t) by {
        forall x ensures x in ids <==> x in ListOf(Contents(), t) {
          if x in ids { assert (t, x) in data; }
        }
      }
    }

    method LockState(t: Text, id: Text, operation: Text, holder: Text, ttl: real, now: real, lockId: Text)
      returns (r: Answer)
      modifies this
      ensures (Contents(), r) == MemApply(old(Contents()), Lock(t, id, operation, holder, ttl, now, lockId))
    {
      if (t, id) in locks && !locks[(t, id)].IsExpired(now) {
        return Conflict(locks[(t, id)]);
      }
      var lock := NewLock(lockId, t, id, operation, holder, now, ttl);
      locks := locks[(t, id) := lock];
      return Acquired(lock);
    }

    method UnlockState(t: Text, id: Text, lockId: Text) returns (ok: bool)
      modifies this
      ensures (Contents(), Released(ok)) == MemApply(old(Contents()), Unlock(t, id, lockId))
    {
      if (t, id) !in locks || locks[(t, id)].lockId != lockId {
        return false;
      }
      locks := locks - {(t, id)};
      return true;
    }

    method GetLock(t: Text, id: Text, now: real) returns (r: Option<StateLock>)
      ensures Current(r) == MemApply(Contents(), StoreCalls.GetLock(t, id, now)).1
    {
      if (t, id) !in locks || locks[(t, id)].IsExpired(now) {
        return None;
      }
      return Some(locks[(t, id)]);
    }
  }
}

module FileStore {
  import opened Options
  import opened Texts
  import opened StateLocks
  import opened StoreCalls
  import opened Segments

  const STATE_SUFFIX: Text := [46, 116, 102, 115, 116, 97, 116, 101]  // .tfstate
  const LOCK_SUFFIX: Text := [46, 116, 102, 108, 111, 99, 107]        // .tflock
  const TEMP_SUFFIX: Text := [46, 116, 109, 112]                      // .tmp

  // A file, by its directory under the root and its name there. The directory of the empty type name is
  // the root itself, where the directories of the other types are.
  datatype Path = Path(dir: Text, name: Text)

  datatype Content =
    | Payload(bytes: seq<Byte>)
    | Record(fields: map<string, Json>)   // JSON text of an object
    | Blank
    | Unreadable

  datatype Tree = Tree(dirs: set<Text>, files: map<Path, Content>)

  function StatePath(t: Text, id: Text): Path {
    Path(Encode(t), Encode(id) + STATE_SUFFIX)
  }

  function LockPath(t: Text, id: Text): Path {
    Path(Encode(t), Encode(id) + LOCK_SUFFIX)
  }

  function TempPath(t: Text, stem: Text): Path {
    Path(Encode(t), stem + TEMP_SUFFIX)
  }

  predicate EndsWith(s: Text, suffix: Text) {
    |s| >= |suffix| && s[|s| - |suffix|..] == suffix
  }

  predicate IsStateFile(p: Path) {
    EndsWith(p.name, STATE_SUFFIX)
  }

  function IdOf(p: Path): Text
    requires IsStateFile(p)
  {
    Decode(p.name[..|p.name| - |STATE_SUFFIX|])
  }

  // _read_lease: blank, unparsable and id-less records are no lease.
  function ReadLease(c: Content): Option<StateLock> {
    if c.Record? && "lock_id" in c.fields then FromDict(c.fields) else None
  }

  function LeaseAt(files: map<Path, Content>, p: Path): Option<StateLock> {
    if p in files then ReadLease(files[p]) else None
  }

  function StateFiles(tree: Tree, t: Text): set<Path> {
    set p | p in tree.files && p.dir == Encode(t) && IsStateFile(p)
  }

  function ListOf(tree: Tree, t: Text): set<Text> {
    if Encode(t) !in tree.dirs then {} else set p | p in StateFiles(tree, t) :: IdOf(p)
  }

  // exclusive_file_mutex makes the directory and the lock file.
  function OpenLock(tree: Tree, t: Text, id: Text): Tree {
    var p := LockPath(t, id);
    Tree(tree.dirs + {p.dir}, if p in tree.files then tree.files else tree.files[p := Blank])
  }

  // A file stands where the directory of the type belongs.
  predicate NoDirectory(tree: Tree, t: Text) {
    Encode(t) != [] && Path([], Encode(t)) in tree.files
  }

  // The directory of a type stands where the file belongs.
  predicate IsDirectory(tree: Tree, p: Path) {
    p.dir == [] && p.name in tree.dirs
  }

  predicate Hindered(tree: Tree, op: Op) {
    match op
    case Read(t, id) => NoDirectory(tree, t) || IsDirectory(tree, StatePath(t, id))
    case Write(t, id, _, _) => NoDirectory(tree, t) || IsDirectory(tree, StatePath(t, id))
    case TornWrite(t, _, _, _) => NoDirectory(tree, t)
    case Delete(t, id) => NoDirectory(tree, t) || IsDirectory(tree, StatePath(t, id))
    case List(_) => false
    case Lock(t, id, _, _, _, _, _) => NoDirectory(tree, t) || IsDirectory(tree, LockPath(t, id))
    case Unlock(t, id, _) => NoDirectory(tree, t) || IsDirectory(tree, LockPath(t, id))
    case GetLock(t, id, _) => !NoDirectory(tree, t) && IsDirectory(tree, LockPath(t, id))
  }

  function FsApply(tree: Tree, op: Op): (Tree, Answer) {
    if Hindered(tree, op) then (tree, Failed) else Unhindered(tree, op)
  }

  function Unhindered(tree: Tree, op: Op): (Tree, Answer) {
    match op
    case Read(t, id) =>
      var p := StatePath(t, id);
      (tree, StateBytes(if p in tree.files && tree.files[p].Payload? then Some(tree.files[p].bytes) else None))
    case Write(t, id, payload, stem) =>
      (Tree(tree.dirs + {Encode(t)}, (tree.files - {TempPath(t, stem)})[StatePath(t, id) := Payload(payload)]), Silence)
    case TornWrite(t, id, partial, stem) =>
      (Tree(tree.dirs + {Encode(t)}, tree.files[TempPath(t, stem) := Payload(partial)]), Silence)
    case Delete(t, id) => (tree.(files := tree.files - {StatePath(t, id)}), Silence)
    case List(t) => (tree, Ids(ListOf(tree, t)))
    case Lock(t, id, operation, holder, ttl, now, lockId) =>
      var tr := OpenLock(tree, t, id);
      var p := LockPath(t, id);
      var found := LeaseAt(tr.files, p);
      if found.Some? && !found.value.IsExpired(now) then (tr, Conflict(found.value))
      else
        var lock := NewLock(lockId, t, id, operation, holder, now, ttl);
        (tr.(files := tr.files[p := Record(lock.ToDict())]), Acquired(lock))
    case Unlock(t, id, lockId) =>
      var tr := OpenLock(tree, t, id);
      var p := LockPath(t, id);
      var found := LeaseAt(tr.files, p);
      if found.None? || found.value.lockId != lockId then (tr, Released(false))
      else (tr.(files := tr.files[p := Blank]), Released(true))
    case GetLock(t, id, now) =>
      var p := LockPath(t, id);
      if p !in tree.files then (tree, Current(None))
      else
        var tr := OpenLock(tree, t, id);
        var found := LeaseAt(tr.files, p);
        (tr, Current(if found.None? || found.value.IsExpired(now) then None else found))
  }

  class FileSystemStateStore {
    var dirs: set<Text>
    var files: map<Path, Content>

    ghost function Contents(): Tree
      reads this
    {
      Tree(dirs, files)
    }

    constructor ()
      ensures Contents() == Tree({}, map[])
    {
      dirs, files := {}, map[];
    }

    method ReadState(t: Text, id: Text) returns (r: Answer)
      ensures r == FsApply(Contents(), Read(t, id)).1
    {
      var p := StatePath(t, id);
      if NoDirectory(Tree(dirs, files), t) || IsDirectory(Tree(dirs, files), p) { return Failed; }
      if p in files && files[p].Payload? { return StateBytes(Some(files[p].bytes)); }
      return StateBytes(None);
    }

    // Write beside the target, then rename over it.
    method WriteState(t: Text, id: Text, payload: seq<Byte>, tempStem: Stem) returns (r: Answer)
      requires TempPath(t, tempStem) !in files
      modifies this
      ensures (Contents(), r) == FsApply(old(Contents()), Write(t, id, payload, tempStem))
    {
      var target, temp := StatePath(t, id), TempPath(t, tempStem);
      SuffixesDiffer(Encode(id), tempStem);
      if NoDirectory(Tree(dirs, files), t) { return Failed; }
      ghost var given := files;
      files := files[temp := Payload([])];
      files := files[temp := Payload(payload)];
      var moved := files[temp];
      files := files - {temp};
      assert files == given == given - {temp};
      if IsDirectory(Tree(dirs, files), target) { return Failed; }
      dirs := dirs + {target.dir};
      files := files[target := moved];
      return Silence;
    }

    method DeleteState(t: Text, id: Text) returns (r: Answer)
      modifies this
      ensures (Contents(), r) == FsApply(old(Contents()), Delete(t, id))
    {
      var p := StatePath(t, id);
      if NoDirectory(Tree(dirs, files), t) || IsDirectory(Tree(dirs, files), p) { return Failed; }
      files := files - {p};
      return Silence;
    }

    // One answer per state file, in whatever order the directory is read.
    method ListStates(t: Text) returns (ids: seq<Text>)
      ensures Ids(set x | x in ids) == FsApply(Contents(), List(t)).1
      ensures Encode(t) in dirs ==> |ids| == |StateFiles(Contents(), t)|
    {
      ids := [];
      if Encode(t) !in dirs { return; }
      var entries := files.Keys;
      ghost var done: set<Path> := {};
      while entries != {}
        invariant entries <= files.Keys
        invariant done == set p | p in StateFiles(Contents(), t) && p !in entries
        invariant |ids| == |done| && Elements(ids) == IdsOf(done)
        decreases |entries|
      {
        var p :| p in entries;
        entries := entries - {p};
        if p.dir == Encode(t) && IsStateFile(p) {
          OneMoreId(ids, done, p);
          ids := ids + [IdOf(p)];
          done := done + {p};
        }
      }
      assert done == StateFiles(Contents(), t);
    }

    method OpenLockFile(t: Text, id: Text) returns (made: bool)
      modifies this
      ensures made <==> !old(NoDirectory(Contents(), t) || IsDirectory(Contents(), LockPath(t, id)))
      ensures Contents() == if made then OpenLock(old(Contents()), t, id) else old(Contents())
    {
      var p := LockPath(t, id);
      if NoDirectory(Tree(dirs, files), t) || IsDirectory(Tree(dirs, files), p) { return false; }
      made := true;
      dirs := dirs + {p.dir};
      if p !in files { files := files[p := Blank]; }
    }

    // Truncate, then write the record if there is one.
    method WriteLease(p: Path, lock: Option<StateLock>)
      requires p in files
      modifies this
      ensures dirs == old(dirs)
      ensures files == old(files)[p := if lock.Some? then Record(lock.value.ToDict()) else Blank]
    {
      files := files[p := Blank];
      if lock.Some? { files := files[p := Record(lock.value.ToDict())]; }
    }

    method LockState(t: Text, id: Text, operation: Text, holder: Text, ttl: real, now: real, lockId: Text)
      returns (r: Answer)
      modifies this
      ensures (Contents(), r) == FsApply(old(Contents()), Lock(t, id, operation, holder, ttl, now, lockId))
    {
      var made := OpenLockFile(t, id);
      if !made { return Failed; }
      var p := LockPath(t, id);
      var existing := ReadLease(files[p]);
      if existing.Some? && !existing.value.IsExpired(now) {
        return Conflict(existing.value);
      }
      var lock := NewLock(lockId, t, id, operation, holder, now, ttl);
      WriteLease(p, Some(lock));
      return Acquired(lock);
    }

    method UnlockState(t: Text, id: Text, lockId: Text) returns (r: Answer)
      modifies this
      ensures (Contents(), r) == FsApply(old(Contents()), Unlock(t, id, lockId))
    {
      var made := OpenLockFile(t, id);
      if !made { return Failed; }
      var p := LockPath(t, id);
      var existing := ReadLease(files[p]);
      if existing.None? || existing.value.lockId != lockId {
        return Released(false);
      }
      WriteLease(p, None);
      return Released(true);
    }

    // Nothing is made for a state that was never locked. The clock is read last.
    method GetLock(t: Text, id: Text, now: real) returns (r: Answer)
      requires NoDirectory(Contents(), t) ==> LockPath(t, id) !in files
      modifies this
      ensures (Contents(), r) == FsApply(old(Contents()), StoreCalls.GetLock(t, id, now))
    {
      var p := LockPath(t, id);
      if NoDirectory(Tree(dirs, files), t) { return Current(None); }
      if p !in files && !IsDirectory(Tree(dirs, files), p) { return Current(None); }
      var made := OpenLockFile(t, id);
      if !made { return Failed; }
      var existing := ReadLease(files[p]);
      if existing.None? || existing.value.IsExpired(now) { return Current(None); }
      return Current(existing);
    }
  }

  ghost function Elements(ids: seq<Text>): set<Text> {
    set x | x in ids
  }

  ghost function IdsOf(ps: set<Path>): set<Text>
    requires forall p :: p in ps ==> IsStateFile(p)
  {
    set p | p in ps :: IdOf(p)
  }

  lemma OneMoreId(ids: seq<Text>, ps: set<Path>, p: Path)
    requires (forall q :: q in ps ==> IsStateFile(q)) && IsStateFile(p) && Elements(ids) == IdsOf(ps)
    ensures Elements(ids + [IdOf(p)]) == IdsOf(ps + {p})
  {
    assert Elements(ids + [IdOf(p)]) == Elements(ids) + {IdOf(p)};
    IdsOfAdd(ps, p);
  }

  lemma {:induction false} NewId(ps: set<Path>, p: Path)
    requires IsStateFile(p) && forall q :: q in ps ==> IsStateFile(q) && IdOf(q) != IdOf(p)
    ensures |IdsOf(ps + {p})| == |IdsOf(ps)| + 1
  {
    IdsOfAdd(ps, p);
    assert IdOf(p) !in IdsOf(ps);
  }

  lemma IdsOfAdd(ps: set<Path>, p: Path)
    requires (forall q :: q in ps ==> IsStateFile(q)) && IsStateFile(p)
    ensures IdsOf(ps + {p}) == IdsOf(ps) + {IdOf(p)}
  {
  }

  // No state file name is a lock file name or a temporary name.
  lemma SuffixesDiffer(a: Text, b: Text)
    ensures a + STATE_SUFFIX != b + LOCK_SUFFIX
    ensures a + STATE_SUFFIX != b + TEMP_SUFFIX
    ensures a + LOCK_SUFFIX != b + TEMP_SUFFIX
    ensures !EndsWith(a + LOCK_SUFFIX, STATE_SUFFIX) && !EndsWith(a + TEMP_SUFFIX, STATE_SUFFIX)
  {
    var s, l, m := a + STATE_SUFFIX, b + LOCK_SUFFIX, b + TEMP_SUFFIX;
    assert s[|s| - 1] == 101 && l[|l| - 1] == 107 && m[|m| - 1] == 112;
    var l', m' := a + LOCK_SUFFIX, a + TEMP_SUFFIX;
    assert l'[|l'| - 1] == 107 && m'[|m'| - 1] == 112;
  }
}

module StoreEquivalence {
  import opened Options
  import opened Texts
  import opened StateLocks
  import opened StoreCalls
  import opened Segments
  import F = FileStore
  import M = MemoryStore

  // ------------------------------------------------------------------ paths never alias

  lemma SuffixCancels(a: Text, b: Text, suffix: Text)
    requires a + suffix == b + suffix
    ensures a == b
  {
    assert |a| == |b|;
    assert a == (a + suffix)[..|a|];
    assert b == (b + suffix)[..|b|];
  }

  // Two states share neither a state file nor a lock file, and no state file is a lock file.
  lemma PathsDiffer(t: Text, id: Text, t': Text, id': Text)
    ensures F.StatePath(t, id) == F.StatePath(t', id') ==> t == t' && id == id'
    ensures F.LockPath(t, id) == F.LockPath(t', id') ==> t == t' && id == id'
    ensures F.StatePath(t, id) != F.LockPath(t', id')
    ensures F.StatePath(t, id) != F.TempPath(t', id')
    ensures F.LockPath(t, id) != F.TempPath(t', id')
  {
    F.SuffixesDiffer(Encode(id), Encode(id'));
    F.SuffixesDiffer(Encode(id), id');
    if F.StatePath(t, id) == F.StatePath(t', id') {
      SuffixCancels(Encode(id), Encode(id'), F.STATE_SUFFIX);
      EncodeInjective(id, id');
      EncodeInjective(t, t');
    }
    if F.LockPath(t, id) == F.LockPath(t', id') {
      SuffixCancels(Encode(id), Encode(id'), F.LOCK_SUFFIX);
      EncodeInjective(id, id');
      EncodeInjective(t, t');
    }
  }

  lemma IdOfStatePath(t: Text, id: Text)
    ensures F.IsStateFile(F.StatePath(t, id)) && F.IdOf(F.StatePath(t, id)) == id
  {
    var p := F.StatePath(t, id);
    assert p.name[|p.name| - |F.STATE_SUFFIX|..] == F.STATE_SUFFIX;
    assert p.name[..|p.name| - |F.STATE_SUFFIX|] == Encode(id);
    EncodeRoundTrip(id);
  }

  // ------------------------------------------------------------------ the simulation relation

  ghost predicate StatesAgree(tree: F.Tree, m: M.Mem) {
    forall t: Text, id: Text ::
      Lookup(tree.files, F.StatePath(t, id))
        == if (t, id) in m.data then Some(F.Payload(m.data[(t, id)])) else None
  }

  ghost predicate LocksAgree(tree: F.Tree, m: M.Mem) {
    forall t: Text, id: Text :: F.LeaseAt(tree.files, F.LockPath(t, id)) == Lookup(m.locks, (t, id))
  }

  ghost predicate Known(p: F.Path) {
    (exists t: Text, id: Text :: p == F.StatePath(t, id) || p == F.LockPath(t, id)) ||
    (exists t: Text, stem: Stem :: p == F.TempPath(t, stem))
  }

  ghost predicate TreeTidy(tree: F.Tree) {
    forall p :: p in tree.files ==> p.dir in tree.dirs && Known(p)
  }

  ghost predicate Agrees(tree: F.Tree, m: M.Mem) {
    StatesAgree(tree, m) && LocksAgree(tree, m) && TreeTidy(tree)
  }

  lemma StateFileIsStatePath(p: F.Path) returns (t: Text, id: Text)
    requires Known(p) && F.IsStateFile(p)
    ensures p == F.StatePath(t, id)
  {
    if t', id' :| p == F.StatePath(t', id') {
      t, id := t', id';
    } else if t', id' :| p == F.LockPath(t', id') {
      F.SuffixesDiffer(Encode(id'), []);
      assert false;
    } else {
      var t', stem: Stem :| p == F.TempPath(t', stem);
      F.SuffixesDiffer(stem, []);
      assert false;
    }
  }

  lemma {:induction false} ListsAgree(tree: F.Tree, m: M.Mem, t: Text)
    requires Agrees(tree, m)
    ensures F.ListOf(tree, t) == M.ListOf(m, t)
  {
    forall id ensures id in F.ListOf(tree, t) <==> id in M.ListOf(m, t) {
      IdOfStatePath(t, id);
      if (t, id) in m.data {
        assert Lookup(tree.files, F.StatePath(t, id)).Some?;
        assert F.StatePath(t, id) in F.StateFiles(tree, t);
        assert (t, id) in m.data && (t, id).0 == t && (t, id).1 == id;
      }
      if id in F.ListOf(tree, t) {
        var p :| p in F.StateFiles(tree, t) && F.IdOf(p) == id;
        var t', id' := StateFileIsStatePath(p);
        IdOfStatePath(t', id');
        EncodeInjective(t, t');
        assert Lookup(tree.files, F.StatePath(t, id)).Some?;
      }
      if id in M.ListOf(m, t) {
        var k :| k in m.data && k.0 == t && k.1 == id;
        assert k == (t, id);
      }
    }
  }

  // ------------------------------------------------------------------ one call

  lemma {:induction false} WriteSeen(tree: F.Tree, m: M.Mem, op: Op, t: Text, id: Text)
    requires StatesAgree(tree, m) && (op.Write? || op.TornWrite? || op.Delete?)
    ensures Lookup(F.Unhindered(tree, op).0.files, F.StatePath(t, id)) ==
      if (t, id) in M.MemApply(m, op).0.data then Some(F.Payload(M.MemApply(m, op).0.data[(t, id)])) else None
  {
    PathsDiffer(t, id, op.t, op.id);
    if !op.Delete? { PathsDiffer(t, id, op.t, op.tempStem); }
    assert Lookup(tree.files, F.StatePath(t, id)) == if (t, id) in m.data then Some(F.Payload(m.data[(t, id)]))
      else None;
  }

  lemma {:induction false} WriteSparesLocks(tree: F.Tree, m: M.Mem, op: Op, t: Text, id: Text)
    requires LocksAgree(tree, m) && (op.Write? || op.TornWrite? || op.Delete?)
    ensures F.LeaseAt(F.Unhindered(tree, op).0.files, F.LockPath(t, id)) == Lookup(M.MemApply(m, op).0.locks, (t, id))
  {
    PathsDiffer(op.t, op.id, t, id);
    if !op.Delete? { PathsDiffer(t, id, op.t, op.tempStem); }
    assert F.LeaseAt(tree.files, F.LockPath(t, id)) == Lookup(m.locks, (t, id));
  }

  lemma {:induction false} WritesAgree(tree: F.Tree, m: M.Mem, op: Op)
    requires Agrees(tree, m) && (op.Write? || op.TornWrite? || op.Delete?)
    ensures Agrees(F.Unhindered(tree, op).0, M.MemApply(m, op).0)
  {
    var tree', m' := F.Unhindered(tree, op).0, M.MemApply(m, op).0;
    forall t: Text, id: Text
      ensures Lookup(tree'.files, F.StatePath(t, id))
        == if (t, id) in m'.data then Some(F.Payload(m'.data[(t, id)])) else None
      ensures F.LeaseAt(tree'.files, F.LockPath(t, id)) == Lookup(m'.locks, (t, id))
    {
      WriteSeen(tree, m, op, t, id);
      WriteSparesLocks(tree, m, op, t, id);
    }
    forall p | p in tree'.files ensures p.dir in tree'.dirs && Known(p) {
      if p in tree.files { assert Known(p); }
    }
  }

  lemma {:induction false} OpenLockAgrees(tree: F.Tree, m: M.Mem, t: Text, id: Text)
    requires Agrees(tree, m)
    ensures Agrees(F.OpenLock(tree, t, id), m)
  {
    var tree' := F.OpenLock(tree, t, id);
    forall t': Text, id': Text
      ensures Lookup(tree'.files, F.StatePath(t', id')) == Lookup(tree.files, F.StatePath(t', id'))
      ensures F.LeaseAt(tree'.files, F.LockPath(t', id')) == F.LeaseAt(tree.files, F.LockPath(t', id'))
    {
      PathsDiffer(t', id', t, id);
    }
    forall p | p in tree'.files ensures p.dir in tree'.dirs && Known(p) {
      if p in tree.files { assert Known(p); }
    }
  }

  // Where rewriting one lock file shows.
  lemma {:induction false} RewriteSeen(files: map<F.Path, F.Content>, t: Text, id: Text, c: F.Content, t': Text,
                                       id': Text)
    ensures var files' := files[F.LockPath(t, id) := c];
      Lookup(files', F.StatePath(t', id')) == Lookup(files, F.StatePath(t', id')) &&
      F.LeaseAt(files', F.LockPath(t', id')) ==
        if (t', id') == (t, id) then F.ReadLease(c) else F.LeaseAt(files, F.LockPath(t', id'))
  {
    PathsDiffer(t', id', t, id);
  }

  lemma {:induction false} RewriteAgrees(tree: F.Tree, m: M.Mem, t: Text, id: Text, lease: Option<StateLock>)
    requires Agrees(tree, m) && F.LockPath(t, id) in tree.files
    ensures Agrees(
      tree.(files := tree.files[F.LockPath(t, id) := if lease.Some? then F.Record(lease.value.ToDict()) else F.Blank]),
      m.(locks := if lease.Some? then m.locks[(t, id) := lease.value] else m.locks - {(t, id)}))
  {
    var c := if lease.Some? then F.Record(lease.value.ToDict()) else F.Blank;
    if lease.Some? { DictRoundTrip(lease.value); }
    var tree' := tree.(files := tree.files[F.LockPath(t, id) := c]);
    RewriteLocks(tree, m, t, id, c, lease);
    forall t': Text, id': Text
      ensures Lookup(tree'.files, F.StatePath(t', id')) == Lookup(tree.files, F.StatePath(t', id'))
    {
      RewriteSeen(tree.files, t, id, c, t', id');
    }
    forall q | q in tree'.files ensures q.dir in tree'.dirs && Known(q) { assert q in tree.files; }
  }

  lemma {:induction false} RewriteLocks(tree: F.Tree, m: M.Mem, t: Text, id: Text, c: F.Content,
                                        lease: Option<StateLock>)
    requires LocksAgree(tree, m) && F.ReadLease(c) == lease
    ensures LocksAgree(tree.(files := tree.files[F.LockPath(t, id) := c]),
      m.(locks := if lease.Some? then m.locks[(t, id) := lease.value] else m.locks - {(t, id)}))
  {
    forall t': Text, id': Text
      ensures F.LeaseAt(tree.files[F.LockPath(t, id) := c], F.LockPath(t', id')) ==
        if (t', id') == (t, id) then lease else Lookup(m.locks, (t', id'))
    {
      RewriteSeen(tree.files, t, id, c, t', id');
    }
  }

  lemma {:induction false} LockCallsAgree(tree: F.Tree, m: M.Mem, op: Op)
    requires Agrees(tree, m) && (op.Lock? || op.Unlock? || op.GetLock?)
    ensures Agrees(F.Unhindered(tree, op).0, M.MemApply(m, op).0)
    ensures F.Unhindered(tree, op).1 == M.MemApply(m, op).1
  {
    OpenLockAgrees(tree, m, op.t, op.id);
    var tree' := F.OpenLock(tree, op.t, op.id);
    var found := F.LeaseAt(tree'.files, F.LockPath(op.t, op.id));
    assert found == Lookup(m.locks, (op.t, op.id));
    assert F.LeaseAt(tree.files, F.LockPath(op.t, op.id)) == found;
    if op.Lock? && !(found.Some? && !found.value.IsExpired(op.now)) {
      RewriteAgrees(tree', m, op.t, op.id,
        Some(NewLock(op.lockId, op.t, op.id, op.operation, op.holder, op.now, op.ttl)));
    } else if op.Unlock? && found.Some? && found.value.lockId == op.lockId {
      RewriteAgrees(tree', m, op.t, op.id, None);
    }
  }

  // Every call answers the same on stores that agree, and leaves them agreeing.
  lemma {:induction false} CallAgrees(tree: F.Tree, m: M.Mem, op: Op)
    requires Agrees(tree, m)
    ensures Agrees(F.Unhindered(tree, op).0, M.MemApply(m, op).0)
    ensures F.Unhindered(tree, op).1 == M.MemApply(m, op).1
  {
    match op
    case Read(t, id) =>
      assert Lookup(tree.files, F.StatePath(t, id))
        == if (t, id) in m.data then Some(F.Payload(m.data[(t, id)])) else None;
    case List(t) => ListsAgree(tree, m, t);
    case Lock(_, _, _, _, _, _, _) => LockCallsAgree(tree, m, op);
    case Unlock(_, _, _) => LockCallsAgree(tree, m, op);
    case GetLock(_, _, _) => LockCallsAgree(tree, m, op);
    case _ => WritesAgree(tree, m, op);
  }

  // ------------------------------------------------------------------ whole traces

  function FsAnswers(tree: F.Tree, ops: seq<Op>): seq<Answer>
    decreases |ops|
  {
    if ops == [] then []
    else [F.FsApply(tree, ops[0]).1] + FsAnswers(F.FsApply(tree, ops[0]).0, ops[1..])
  }

  function MemAnswers(m: M.Mem, ops: seq<Op>): seq<Answer>
    decreases |ops|
  {
    if ops == [] then []
    else [M.MemApply(m, ops[0]).1] + MemAnswers(M.MemApply(m, ops[0]).0, ops[1..])
  }

  // The calls are about these types only.
  ghost predicate Over(ops: seq<Op>, types: set<Text>) {
    forall i :: 0 <= i < |ops| ==> ops[i].t in types
  }

  ghost predicate FileName(name: Text) {
    (exists id: Text :: name == Encode(id) + F.STATE_SUFFIX || name == Encode(id) + F.LOCK_SUFFIX) ||
    (exists stem: Stem :: name == stem + F.TEMP_SUFFIX)
  }

  // The files of the empty type name lie among the directories of the others, and one of these has the
  // name of such a file.
  ghost predicate Collide(types: set<Text>) {
    [] in types && exists t :: t in types && FileName(Encode(t))
  }

  ghost predicate DirsOf(tree: F.Tree, types: set<Text>) {
    forall d :: d in tree.dirs ==> exists t :: t in types && d == Encode(t)
  }

  lemma EmptyEncoding(t: Text)
    ensures Encode(t) == [] <==> t == []
  {
    EncodeConfined(t);
  }

  lemma {:induction false} FileAtRoot(tree: F.Tree, types: set<Text>, p: F.Path)
    requires TreeTidy(tree) && DirsOf(tree, types) && p in tree.files && p.dir == []
    ensures [] in types && FileName(p.name)
  {
    var t :| t in types && p.dir == Encode(t);
    EmptyEncoding(t);
    KnownIsFileName(p);
  }

  lemma {:induction false} KnownIsFileName(p: F.Path)
    requires Known(p)
    ensures FileName(p.name)
  {
    if t, id :| p == F.StatePath(t, id) {
      assert p.name == Encode(id) + F.STATE_SUFFIX;
    } else if t, id :| p == F.LockPath(t, id) {
      assert p.name == Encode(id) + F.LOCK_SUFFIX;
    } else {
      var t, stem: Stem :| p == F.TempPath(t, stem);
      assert p.name == stem + F.TEMP_SUFFIX;
    }
  }

  lemma {:induction false} DirectoryAtRoot(tree: F.Tree, types: set<Text>, name: Text)
    requires DirsOf(tree, types) && name in tree.dirs && FileName(name) && [] in types
    ensures Collide(types)
  {
    var t :| t in types && name == Encode(t);
  }

  lemma {:induction false} NoFileForDirectory(tree: F.Tree, types: set<Text>, t: Text)
    requires TreeTidy(tree) && DirsOf(tree, types) && !Collide(types) && t in types
    ensures !F.NoDirectory(tree, t)
  {
    if F.NoDirectory(tree, t) { FileAtRoot(tree, types, F.Path([], Encode(t))); }
  }

  lemma {:induction false} NoDirectoryForFile(tree: F.Tree, types: set<Text>, p: F.Path, t: Text)
    requires DirsOf(tree, types) && !Collide(types) && t in types && p.dir == Encode(t) && FileName(p.name)
    ensures !F.IsDirectory(tree, p)
  {
    EmptyEncoding(t);
    if F.IsDirectory(tree, p) { DirectoryAtRoot(tree, types, p.name); }
  }

  lemma {:induction false} NothingHinders(tree: F.Tree, types: set<Text>, op: Op)
    requires TreeTidy(tree) && DirsOf(tree, types) && !Collide(types) && op.t in types
    ensures !F.Hindered(tree, op) && DirsOf(F.FsApply(tree, op).0, types)
  {
    NoFileForDirectory(tree, types, op.t);
    if !op.List? {
      NoDirectoryForFile(tree, types, F.StatePath(op.t, op.id), op.t);
      NoDirectoryForFile(tree, types, F.LockPath(op.t, op.id), op.t);
    }
  }

  lemma {:induction false} AnswersAgree(tree: F.Tree, m: M.Mem, ops: seq<Op>, types: set<Text>)
    requires Agrees(tree, m) && DirsOf(tree, types) && Over(ops, types) && !Collide(types)
    ensures FsAnswers(tree, ops) == MemAnswers(m, ops)
    decreases |ops|
  {
    if ops != [] {
      assert ops[0].t in types;
      NothingHinders(tree, types, ops[0]);
      CallAgrees(tree, m, ops[0]);
      AnswersAgree(F.FsApply(tree, ops[0]).0, M.MemApply(m, ops[0]).0, ops[1..], types);
    }
  }

  // From empty stores the two backends give the same answers to every sequence of calls about types that
  // do not collide, writes that die before their rename included.
  lemma TraceEquivalent(ops: seq<Op>, types: set<Text>)
    requires Over(ops, types) && !Collide(types)
    ensures FsAnswers(F.Tree({}, map[]), ops) == MemAnswers(M.Mem(map[], map[]), ops)
  {
    AnswersAgree(F.Tree({}, map[]), M.Mem(map[], map[]), ops, types);
  }

  ghost predicate Equivalent(types: set<Text>) {
    forall ops :: Over(ops, types) ==> FsAnswers(F.Tree({}, map[]), ops) == MemAnswers(M.Mem(map[], map[]), ops)
  }

  // Which is exactly as far as it goes; types without the empty name never collide.
  lemma {:induction false} EquivalentExactlyWithoutCollision(types: set<Text>)
    ensures Equivalent(types) <==> !Collide(types)
    ensures [] !in types ==> Equivalent(types)
  {
    if Collide(types) {
      var t :| t in types && FileName(Encode(t));
      var ops := CollidingCalls(t);
      assert Over(ops, types);
    } else {
      forall ops | Over(ops, types) ensures FsAnswers(F.Tree({}, map[]), ops) == MemAnswers(M.Mem(map[], map[]), ops) {
        TraceEquivalent(ops, types);
      }
    }
  }

  // A call of the empty type leaves a file where the directory of t belongs, and then t cannot be
  // written to.
  lemma {:induction false} CollidingCalls(t: Text) returns (ops: seq<Op>)
    requires FileName(Encode(t))
    ensures |ops| == 2 && ops[0].t == [] && ops[1].t == t
    ensures FsAnswers(F.Tree({}, map[]), ops) != MemAnswers(M.Mem(map[], map[]), ops)
  {
    var first := CollidingCall(t);
    ops := [first, Write(t, [], [], STEM)];
    SecondFails(F.FsApply(F.Tree({}, map[]), first).0, M.MemApply(M.Mem(map[], map[]), first).0, first, t);
  }

  lemma {:induction false} CollidingCall(t: Text) returns (op: Op)
    requires FileName(Encode(t))
    ensures op.t == [] && Encode(t) != [] && F.Path([], Encode(t)) in F.FsApply(F.Tree({}, map[]), op).0.files
  {
    EmptyEncoding([]);
    if id :| Encode(t) == Encode(id) + F.STATE_SUFFIX {
      op := Write([], id, [], STEM);
      assert F.StatePath([], id) == F.Path([], Encode(t));
    } else if id :| Encode(t) == Encode(id) + F.LOCK_SUFFIX {
      op := Lock([], id, [], [], 0.0, 0.0, []);
      assert F.LockPath([], id) == F.Path([], Encode(t));
    } else {
      var stem: Stem :| Encode(t) == stem + F.TEMP_SUFFIX;
      op := TornWrite([], [], [], stem);
      assert F.TempPath([], stem) == F.Path([], Encode(t));
    }
  }

  // The empty name and "a.tfstate" are two such types.
  lemma {:induction false} EmptyTypeCollides()
    ensures Collide({[], [97] + F.STATE_SUFFIX})
  {
    var t: Text := [97] + F.STATE_SUFFIX;
    EncodePlainName([97]);
    EncodePlainName(t);
    assert Encode(t) == Encode([97]) + F.STATE_SUFFIX;
    assert FileName(Encode(t));
  }

  lemma {:induction false} SecondFails(tree: F.Tree, m: M.Mem, first: Op, t: Text)
    requires tree == F.FsApply(F.Tree({}, map[]), first).0 && m == M.MemApply(M.Mem(map[], map[]), first).0
    requires F.Path([], Encode(t)) in tree.files && Encode(t) != []
    ensures FsAnswers(F.Tree({}, map[]), [first, Write(t, [], [], STEM)]) !=
      MemAnswers(M.Mem(map[], map[]), [first, Write(t, [], [], STEM)])
  {
    var ops := [first, Write(t, [], [], STEM)];
    assert ops[1..] == [Write(t, [], [], STEM)] && ops[1..][0] == Write(t, [], [], STEM);
    assert FsAnswers(tree, ops[1..])[0] == Failed;
    assert MemAnswers(m, ops[1..])[0] == Silence;
    assert FsAnswers(F.Tree({}, map[]), ops)[1] == Failed;
    assert MemAnswers(M.Mem(map[], map[]), ops)[1] == Silence;
  }

  // No name is a file and a directory at once, and every file lies in a directory.
  ghost predicate TreeSound(tree: F.Tree) {
    forall p :: p in tree.files ==> p.dir in tree.dirs && p.name != [] && !F.IsDirectory(tree, p)
  }

  // Every call keeps it so, whatever the types are called: one that would not fails and changes nothing.
  // (mkstemp picks a name nothing has.)
  lemma {:induction false} CallKeepsTreeSound(tree: F.Tree, op: Op)
    requires TreeSound(tree) && (op.TornWrite? ==> !F.IsDirectory(tree, F.TempPath(op.t, op.tempStem)))
    ensures TreeSound(F.FsApply(tree, op).0)
    ensures F.FsApply(tree, op).1 == Failed ==> F.FsApply(tree, op).0 == tree
  {
    if !F.Hindered(tree, op) && !op.Read? && !op.List? {
      var tree' := F.FsApply(tree, op).0;
      forall p | p in tree'.files ensures p.dir in tree'.dirs && p.name != [] && !F.IsDirectory(tree', p) {
        FileStaysFile(tree, op, p);
      }
    }
  }

  lemma {:induction false} FileStaysFile(tree: F.Tree, op: Op, p: F.Path)
    requires TreeSound(tree) && (op.TornWrite? ==> !F.IsDirectory(tree, F.TempPath(op.t, op.tempStem)))
    requires !F.Hindered(tree, op) && !op.Read? && !op.List? && p in F.Unhindered(tree, op).0.files
    ensures var tree' := F.Unhindered(tree, op).0; p.dir in tree'.dirs && p.name != [] && !F.IsDirectory(tree', p)
  {
    if p in tree.files {
      assert p.dir == [] && p.name == Encode(op.t) ==> F.NoDirectory(tree, op.t);
    }
  }

  lemma {:induction false} IdTellsFile(tree: F.Tree, t: Text, p: F.Path, q: F.Path)
    requires TreeTidy(tree) && p in F.StateFiles(tree, t) && q in F.StateFiles(tree, t)
    ensures F.IdOf(p) == F.IdOf(q) <==> p == q
  {
    var t0, id0 := StateFileIsStatePath(p);
    IdOfStatePath(t0, id0);
    var t1, id1 := StateFileIsStatePath(q);
    IdOfStatePath(t1, id1);
  }

  // The file backend lists each stored id once: no two state files of a directory decode alike.
  lemma {:induction false} ListedOnce(tree: F.Tree, t: Text, some: set<F.Path>)
    requires TreeTidy(tree) && some <= F.StateFiles(tree, t)
    ensures |F.IdsOf(some)| == |some|
    decreases |some|
  {
    if some != {} {
      var p :| p in some;
      var rest := some - {p};
      ListedOnce(tree, t, rest);
      forall q | q in rest ensures F.IdOf(q) != F.IdOf(p) { IdTellsFile(tree, t, p, q); }
      F.NewId(rest, p);
      assert some == rest + {p};
    }
  }
}
