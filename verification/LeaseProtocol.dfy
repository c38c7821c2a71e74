// src/pyvider/state_stores/_filelock.py (the fcntl path) and the leases filesystem.py builds on it,
// as one state machine: threads of several processes, one shared clock, the per-process thread
// mutexes, the kernel's record locks and the lock files.
module LeaseProtocol {
  import opened Options
  import opened StateLocks
  import opened Texts

  type FileId = nat

  // Record locks belong to the process, so a thread carries the process it runs in.
  datatype Tid = Tid(proc: nat, n: nat)

  // What a lock file holds. A write cut short leaves text that does not parse.
  datatype Record = Empty | Garbled | Lease(lock: StateLock)

  datatype Request =
    | LockState(typeName: Text, stateId: Text, operation: Text, holder: Text, ttl: real)
    | UnlockState(lockId: Text)
    | GetLock

  datatype Outcome =
    | Granted(lock: StateLock)
    | Conflict(existing: StateLock)
    | Unlocked
    | NotHeld
    | Found(lease: Option<StateLock>)
    | Failed

  // What a file object still has to write: its buffer survives a flush that raises, and close tries
  // again. Rest is what is left after part of a record reached the file.
  datatype Buffer = Nothing | Whole(lock: StateLock) | Rest(lock: StateLock)

  // Where a thread is inside one call on one lock file. A thread without a phase is idle.
  datatype Phase =
    | Waiting(file: FileId, req: Request, now: real)                       // clock read, no mutex yet
    | InMutex(file: FileId, req: Request, now: real)                       // thread mutex held, file closed
    | Opened(file: FileId, req: Request, now: real)                        // file open, record lock not taken
    | Locked(file: FileId, req: Request, now: real)                        // in the with-block
    | Checked(file: FileId, req: Request, now: real, found: Option<StateLock>)
    | Truncated(file: FileId, pending: Option<StateLock>)                  // record erased, nothing written yet
    | Buffered(file: FileId, lock: StateLock, torn: bool)                  // record handed to the file object
    | Flushed(file: FileId, pending: Option<StateLock>)                    // record complete on disk
    | Leaving(file: FileId, outcome: Outcome, buffer: Buffer)              // record lock still held
    | Closing(file: FileId, outcome: Outcome, buffer: Buffer)              // file still open
    | Closed(file: FileId, outcome: Outcome)                               // thread mutex still held

  datatype State = State(
    clock: real,
    threadMutex: map<(nat, FileId), Tid>,
    recordLock: map<FileId, nat>,
    record: map<FileId, Record>,
    phase: map<Tid, Phase>,
    usedIds: set<Text>,
    granted: set<(FileId, StateLock)>,   // written in full and not released since
    history: set<(FileId, StateLock)>)   // everything ever written in full

  datatype Action =
    | Tick(elapsed: real)
    | Call(t: Tid, file: FileId, req: Request)
    | TakeMutex(t: Tid)
    | MutexTimeout(t: Tid)
    | OpenFile(t: Tid)
    | OpenFails(t: Tid)
    | LockFile(t: Tid)
    | LockFileFails(t: Tid)
    | ReadLease(t: Tid)
    | Refuse(t: Tid)
    | Truncate(t: Tid, id: Text)
    | FillBuffer(t: Tid)
    | TearWrite(t: Tid)
    | Write(t: Tid)
    | FlushFails(t: Tid)
    | Finish(t: Tid)
    | SectionFails(t: Tid)
    | UnlockFile(t: Tid)
    | CloseFile(t: Tid, left: Record)
    | ReleaseMutex(t: Tid)
    | Crash(proc: nat)

  predicate HoldsMutex(p: Phase) {
    !p.Waiting?
  }

  // In the with-block of exclusive_file_mutex, or on the way out with the record lock still held.
  predicate Inside(p: Phase) {
    p.Locked? || p.Checked? || p.Truncated? || p.Buffered? || p.Flushed? || p.Leaving?
  }

  // _read_lease: nothing, and anything that does not parse, is no lease.
  function LeaseOf(record: map<FileId, Record>, f: FileId): Option<StateLock> {
    if f in record && record[f].Lease? then Some(record[f].lock) else None
  }

  function RecordAt(s: State, f: FileId): Record {
    if f in s.record then s.record[f] else Empty
  }

  // What closing may leave of a record: nothing buffered, or a flush that fails again, changes nothing.
  // Otherwise the bytes land on whatever the file holds by then. They replace a record that is not
  // longer and leave the tail of one that is; a cut-off flush can mix two records into any third.
  predicate MayLeave(buffer: Buffer, found: Record, left: Record) {
    left == found ||
    match buffer
    case Nothing => false
    case Whole(lock) => left == Lease(lock) || left == Garbled || found.Lease?
    case Rest(_) => true
  }

  // Whether the section goes on to rewrite the record after reading it.
  predicate Proceeds(req: Request, now: real, found: Option<StateLock>) {
    match req
    case LockState(_, _, _, _, _) => found.None? || found.value.IsExpired(now)
    case UnlockState(id) => found.Some? && found.value.lockId == id
    case GetLock => false
  }

  function RefusalOf(req: Request, found: Option<StateLock>): Outcome {
    match req
    case LockState(_, _, _, _, _) => if found.Some? then Conflict(found.value) else Failed
    case UnlockState(_) => NotHeld
    case GetLock => Found(found)
  }

  function At(s: State, t: Tid, p: Phase): State {
    s.(phase := s.phase[t := p])
  }

  // unlock, or close of any descriptor, drops whatever lock the process has on the file.
  function DropRecordLock(locks: map<FileId, nat>, f: FileId, proc: nat): map<FileId, nat> {
    if f in locks && locks[f] == proc then locks - {f} else locks
  }

  // One step, or None where the step is not enabled. With `threads` false the in-process mutex is
  // skipped, which is the design the source argues against.
  function Apply(s: State, a: Action, threads: bool): Option<State> {
    match a
    case Tick(d) => if d >= 0.0 then Some(s.(clock := s.clock + d)) else None
    case Call(t, f, req) => if t in s.phase then None else Some(At(s, t, Waiting(f, req, s.clock)))
    case Crash(p) => Some(s.(
      threadMutex := map k | k in s.threadMutex && k.0 != p :: s.threadMutex[k],
      recordLock := map f | f in s.recordLock && s.recordLock[f] != p :: s.recordLock[f],
      phase := map t | t in s.phase && t.proc != p :: s.phase[t]))
    case _ => if a.t !in s.phase then None else ThreadStep(s, a, s.phase[a.t], threads)
  }

  function ThreadStep(s: State, a: Action, p: Phase, threads: bool): Option<State>
    requires !a.Tick? && !a.Call? && !a.Crash? && a.t in s.phase && s.phase[a.t] == p
  {
    var t := a.t;
    var f := p.file;
    match a
    case TakeMutex(_) =>
      if p.Waiting? && (!threads || (t.proc, f) !in s.threadMutex)
      then Some(At(s, t, InMutex(f, p.req, p.now)).(threadMutex := s.threadMutex[(t.proc, f) := t]))
      else None
    case MutexTimeout(_) => if p.Waiting? then Some(s.(phase := s.phase - {t})) else None
    case OpenFile(_) =>
      if p.InMutex?
      then Some(At(s, t, Opened(f, p.req, p.now)).(record := if f in s.record then s.record else s.record[f := Empty]))
      else None
    case OpenFails(_) => if p.InMutex? then Some(At(s, t, Closed(f, Failed))) else None
    case LockFile(_) =>
      // A second lock by the owning process succeeds.
      if p.Opened? && (f !in s.recordLock || s.recordLock[f] == t.proc)
      then Some(At(s, t, Locked(f, p.req, p.now)).(recordLock := s.recordLock[f := t.proc]))
      else None
    case LockFileFails(_) => if p.Opened? then Some(At(s, t, Closing(f, Failed, Nothing))) else None
    case ReadLease(_) =>
      if p.Locked? then Some(At(s, t, Checked(f, p.req, p.now, LeaseOf(s.record, f)))) else None
    case Refuse(_) =>
      if p.Checked? && !Proceeds(p.req, p.now, p.found)
      then Some(At(s, t, Leaving(f, RefusalOf(p.req, p.found), Nothing))) else None
    case Truncate(_, id) =>
      if !p.Checked? || !Proceeds(p.req, p.now, p.found) then None
      else if p.req.UnlockState? then
        Some(At(s, t, Truncated(f, None)).(record := s.record[f := Empty], granted := s.granted - {(f, p.found.value)}))
      else if id in s.usedIds then None
      else
        var lock := NewLock(id, p.req.typeName, p.req.stateId, p.req.operation, p.req.holder, p.now, p.req.ttl);
        Some(At(s, t, Truncated(f, Some(lock))).(record := s.record[f := Empty], usedIds := s.usedIds + {id}))
    case FillBuffer(_) =>
      if p.Truncated? && p.pending.Some? then Some(At(s, t, Buffered(f, p.pending.value, false))) else None
    case TearWrite(_) =>
      if p.Buffered? then Some(At(s, t, Buffered(f, p.lock, true)).(record := s.record[f := Garbled])) else None
    case Write(_) =>
      if p.Truncated? && p.pending.None? then Some(At(s, t, Flushed(f, None)))
      else if p.Buffered? then
        Some(At(s, t, Flushed(f, Some(p.lock))).(
          record := s.record[f := Lease(p.lock)],
          granted := s.granted + {(f, p.lock)},
          history := s.history + {(f, p.lock)}))
      else None
    case FlushFails(_) =>
      if p.Buffered? then Some(At(s, t, Leaving(f, Failed, if p.torn then Rest(p.lock) else Whole(p.lock)))) else None
    case Finish(_) =>
      if p.Flushed?
      then Some(At(s, t, Leaving(f, if p.pending.Some? then Granted(p.pending.value) else Unlocked, Nothing))) else None
    case SectionFails(_) =>
      if Inside(p) && !p.Leaving? && !p.Buffered? then Some(At(s, t, Leaving(f, Failed, Nothing))) else None
    case UnlockFile(_) =>
      if p.Leaving?
      then Some(At(s, t, Closing(f, p.outcome, p.buffer)).(recordLock := DropRecordLock(s.recordLock, f, t.proc)))
      else None
    case CloseFile(_, left) =>
      if p.Closing? && MayLeave(p.buffer, RecordAt(s, f), left)
      then Some(At(s, t, Closed(f, p.outcome)).(
        recordLock := DropRecordLock(s.recordLock, f, t.proc),
        record := if left == RecordAt(s, f) then s.record else s.record[f := left]))
      else None
    case ReleaseMutex(_) =>
      if p.Closed?
      then Some(s.(phase := s.phase - {t}, threadMutex := s.threadMutex - {(t.proc, f)})) else None
  }

  function Init(clock: real): State {
    State(clock, map[], map[], map[], map[], {}, {}, {})
  }

  // A run is a list of steps, in any interleaving; None if some step was not enabled.
  function Run(s: State, actions: seq<Action>, threads: bool): (r: Option<State>)
    decreases |actions|
  {
    if actions == [] then Some(s)
    else
      var next := Apply(s, actions[0], threads);
      if next.None? then None else Run(next.value, actions[1..], threads)
  }

  // Every state some run reaches from a non-negative clock.
  ghost predicate Reachable(s: State) {
    exists clock: real, actions: seq<Action> :: clock >= 0.0 && Run(Init(clock), actions, true) == Some(s)
  }

  // A close that flushes what a failed flush left behind, the record lock being gone by then.
  predicate LateWrite(s: State, a: Action) {
    a.CloseFile? && a.t in s.phase && s.phase[a.t].Closing? && a.left != RecordAt(s, s.phase[a.t].file)
  }

  predicate NoLateWrite(s: State, actions: seq<Action>)
    decreases |actions|
  {
    actions == [] ||
    (Apply(s, actions[0], true).Some? ==>
       !LateWrite(s, actions[0]) && NoLateWrite(Apply(s, actions[0], true).value, actions[1..]))
  }

  // Every state a run without late writes reaches.
  ghost predicate CleanlyReachable(s: State) {
    exists clock: real, actions: seq<Action> ::
      clock >= 0.0 && Run(Init(clock), actions, true) == Some(s) && NoLateWrite(Init(clock), actions)
  }

  // ------------------------------------------------------------------ invariants

  ghost predicate MutexInv(s: State) {
    forall t :: t in s.phase && HoldsMutex(s.phase[t]) ==>
      (t.proc, s.phase[t].file) in s.threadMutex && s.threadMutex[(t.proc, s.phase[t].file)] == t
  }

  ghost predicate RecordLockInv(s: State) {
    forall t :: t in s.phase && Inside(s.phase[t]) ==>
      s.phase[t].file in s.recordLock && s.recordLock[s.phase[t].file] == t.proc
  }

  // No mutex outlives the call that took it...
  ghost predicate MutexHeld(s: State) {
    forall k :: k in s.threadMutex ==>
      (var h := s.threadMutex[k]; h in s.phase && (h.proc, s.phase[h].file) == k && HoldsMutex(s.phase[h]))
  }

  // ...and no record lock the section it guards.
  ghost predicate InsideOf(s: State, f: FileId, t: Tid) {
    t in s.phase && s.phase[t].file == f && Inside(s.phase[t]) && f in s.recordLock && s.recordLock[f] == t.proc
  }

  ghost predicate RecordLockHeld(s: State) {
    forall f :: f in s.recordLock ==> exists t :: InsideOf(s, f, t)
  }

  // What every step keeps.
  ghost predicate LockInv(s: State) {
    MutexInv(s) && RecordLockInv(s) && MutexHeld(s) && RecordLockHeld(s)
  }

  ghost predicate AllLapsed(s: State, f: FileId) {
    forall g: StateLock :: (f, g) in s.granted ==> g.IsExpired(s.clock)
  }

  // A live grant is what its file records...
  ghost predicate LiveRecorded(s: State) {
    forall f: FileId, g: StateLock :: (f, g) in s.granted && !g.IsExpired(s.clock) ==>
      f in s.record && s.record[f] == Lease(g)
  }

  // ...and what a file records was granted.
  ghost predicate RecordedGranted(s: State) {
    forall f :: f in s.record && s.record[f].Lease? ==> (f, s.record[f].lock) in s.granted
  }

  ghost predicate RecordInv(s: State) {
    LiveRecorded(s) && RecordedGranted(s)
  }

  ghost predicate PhaseInv(s: State, t: Tid, p: Phase) {
    match p
    case Waiting(_, _, now) => 0.0 <= now <= s.clock
    case InMutex(_, _, now) => 0.0 <= now <= s.clock
    case Opened(f, _, now) => 0.0 <= now <= s.clock
    case Locked(f, _, now) => 0.0 <= now <= s.clock
    case Checked(f, _, now, found) => 0.0 <= now <= s.clock && found == LeaseOf(s.record, f)
    case Truncated(f, pending) => AllLapsed(s, f)
    case Buffered(f, lock, torn) => AllLapsed(s, f)
    case Flushed(f, pending) => pending.Some? ==> f in s.record && s.record[f] == Lease(pending.value)
    case _ => true
  }

  ghost predicate PhasesInv(s: State) {
    s.clock >= 0.0 && forall t :: t in s.phase ==> PhaseInv(s, t, s.phase[t])
  }

  // Lock ids are never shared, between leases written and leases about to be.
  ghost predicate Pending(s: State, t: Tid, l: StateLock) {
    t in s.phase &&
    ((s.phase[t].Truncated? && s.phase[t].pending == Some(l)) || (s.phase[t].Buffered? && s.phase[t].lock == l))
  }

  ghost predicate IdsInv(s: State) {
    && s.granted <= s.history
    && (forall f: FileId, l: StateLock :: (f, l) in s.history ==> l.lockId in s.usedIds)
    && (forall f: FileId, l: StateLock, f': FileId, l': StateLock ::
          (f, l) in s.history && (f', l') in s.history && l.lockId == l'.lockId ==> f == f' && l == l')
    && (forall t, l :: Pending(s, t, l) ==> l.lockId in s.usedIds)
    && (forall t, l, f': FileId, l': StateLock :: Pending(s, t, l) && (f', l') in s.history ==> l.lockId != l'.lockId)
    && (forall t, l, t', l' :: Pending(s, t, l) && Pending(s, t', l') && t != t' ==> l.lockId != l'.lockId)
  }

  // What every step but a late write keeps.
  ghost predicate Inv(s: State) {
    LockInv(s) && RecordInv(s) && PhasesInv(s) && IdsInv(s)
  }

  lemma InsideIsExclusive(s: State, t: Tid, t': Tid)
    requires MutexInv(s) && RecordLockInv(s)
    requires t in s.phase && t' in s.phase && Inside(s.phase[t]) && Inside(s.phase[t'])
    requires s.phase[t].file == s.phase[t'].file
    ensures t == t'
  {
  }

  predicate IsThreadStep(a: Action) {
    !a.Tick? && !a.Call? && !a.Crash?
  }

  // A thread step touches one thread's phase and one file.
  lemma {:induction false} StepFrame(s: State, a: Action, s': State)
    requires IsThreadStep(a) && Apply(s, a, true) == Some(s')
    ensures a.t in s.phase && s'.clock == s.clock
    ensures forall t :: t != a.t ==> (t in s'.phase <==> t in s.phase)
    ensures forall t :: t != a.t && t in s.phase ==> s'.phase[t] == s.phase[t]
    ensures a.t in s'.phase ==> s'.phase[a.t].file == s.phase[a.t].file && HoldsMutex(s'.phase[a.t])
    ensures forall g :: g != s.phase[a.t].file ==> (g in s'.record <==> g in s.record)
    ensures forall g :: g != s.phase[a.t].file && g in s.record ==> s'.record[g] == s.record[g]
    ensures forall g :: g != s.phase[a.t].file ==> (g in s'.recordLock <==> g in s.recordLock)
    ensures forall g :: g != s.phase[a.t].file && g in s.recordLock ==> s'.recordLock[g] == s.recordLock[g]
  {
    PhaseFrame(s, a, s');
    FilesFrame(s, a, s');
  }

  lemma {:induction false} PhaseFrame(s: State, a: Action, s': State)
    requires IsThreadStep(a) && Apply(s, a, true) == Some(s')
    ensures a.t in s.phase && s'.clock == s.clock
    ensures forall t :: t != a.t ==> (t in s'.phase <==> t in s.phase)
    ensures forall t :: t != a.t && t in s.phase ==> s'.phase[t] == s.phase[t]
    ensures a.t in s'.phase ==> s'.phase[a.t].file == s.phase[a.t].file && HoldsMutex(s'.phase[a.t])
  {
  }

  lemma {:induction false} FilesFrame(s: State, a: Action, s': State)
    requires IsThreadStep(a) && Apply(s, a, true) == Some(s')
    ensures forall g :: g != s.phase[a.t].file ==> (g in s'.record <==> g in s.record)
    ensures forall g :: g != s.phase[a.t].file && g in s.record ==> s'.record[g] == s.record[g]
    ensures forall g :: g != s.phase[a.t].file ==> (g in s'.recordLock <==> g in s.recordLock)
    ensures forall g :: g != s.phase[a.t].file && g in s.recordLock ==> s'.recordLock[g] == s.recordLock[g]
  {
  }

  lemma {:induction false} MutexPreserved(s: State, a: Action, s': State)
    requires MutexInv(s) && Apply(s, a, true) == Some(s')
    ensures MutexInv(s')
  {
    if IsThreadStep(a) {
      StepFrame(s, a, s');
      forall t | t in s'.phase && HoldsMutex(s'.phase[t])
        ensures (t.proc, s'.phase[t].file) in s'.threadMutex && s'.threadMutex[(t.proc, s'.phase[t].file)] == t
      {
        if t != a.t {
          OtherMutexPreserved(s, a, s', t);
        } else {
          OwnMutexPreserved(s, a, s');
        }
      }
    }
  }

  lemma {:induction false} OtherMutexPreserved(s: State, a: Action, s': State, t: Tid)
    requires MutexInv(s) && IsThreadStep(a) && Apply(s, a, true) == Some(s')
    requires t != a.t && t in s.phase && HoldsMutex(s.phase[t]) && a.t in s.phase
    ensures (t.proc, s.phase[t].file) in s'.threadMutex && s'.threadMutex[(t.proc, s.phase[t].file)] == t
  {
    assert (t.proc, s.phase[t].file) in s.threadMutex;
    if (t.proc, s.phase[t].file) == (a.t.proc, s.phase[a.t].file) {
      assert !HoldsMutex(s.phase[a.t]);
    }
  }

  lemma {:induction false} OwnMutexPreserved(s: State, a: Action, s': State)
    requires MutexInv(s) && IsThreadStep(a) && Apply(s, a, true) == Some(s')
    requires a.t in s.phase && a.t in s'.phase && HoldsMutex(s'.phase[a.t])
    ensures var f := s'.phase[a.t].file; (a.t.proc, f) in s'.threadMutex && s'.threadMutex[(a.t.proc, f)] == a.t
  {
    if HoldsMutex(s.phase[a.t]) { assert (a.t.proc, s.phase[a.t].file) in s.threadMutex; }
  }

  lemma {:induction false} RecordLockPreserved(s: State, a: Action, s': State)
    requires MutexInv(s) && RecordLockInv(s) && Apply(s, a, true) == Some(s')
    ensures RecordLockInv(s')
  {
    if IsThreadStep(a) {
      StepFrame(s, a, s');
      forall t | t in s'.phase && Inside(s'.phase[t])
        ensures s'.phase[t].file in s'.recordLock && s'.recordLock[s'.phase[t].file] == t.proc
      {
        if t != a.t {
          OtherRecordLockPreserved(s, a, s', t);
        } else {
          OwnRecordLockPreserved(s, a, s');
        }
      }
    }
  }

  lemma {:induction false} OwnRecordLockPreserved(s: State, a: Action, s': State)
    requires RecordLockInv(s) && IsThreadStep(a) && Apply(s, a, true) == Some(s')
    requires a.t in s.phase && a.t in s'.phase && Inside(s'.phase[a.t])
    ensures var f := s'.phase[a.t].file; f in s'.recordLock && s'.recordLock[f] == a.t.proc
  {
  }

  lemma {:induction false} OtherRecordLockPreserved(s: State, a: Action, s': State, t: Tid)
    requires MutexInv(s) && RecordLockInv(s) && IsThreadStep(a) && Apply(s, a, true) == Some(s')
    requires t != a.t && a.t in s.phase && t in s.phase && Inside(s.phase[t])
    ensures s.phase[t].file in s'.recordLock && s'.recordLock[s.phase[t].file] == t.proc
  {
    if s.phase[t].file == s.phase[a.t].file && HoldsMutex(s.phase[a.t]) {
      // Both would hold one process's mutex on one file.
      assert t.proc != a.t.proc;
    }
  }

  // A thread's hold on its mutex ends with its call.
  lemma {:induction false} MutexHeldPreserved(s: State, a: Action, s': State)
    requires MutexHeld(s) && Apply(s, a, true) == Some(s')
    ensures MutexHeld(s')
  {
    if IsThreadStep(a) {
      StepFrame(s, a, s');
      forall k | k in s'.threadMutex ensures HeldBy(s', k) { MutexStillHeld(s, a, s', k); }
    }
  }

  ghost predicate HeldBy(s: State, k: (nat, FileId))
    requires k in s.threadMutex
  {
    var h := s.threadMutex[k];
    h in s.phase && (h.proc, s.phase[h].file) == k && HoldsMutex(s.phase[h])
  }

  lemma {:induction false} MutexStillHeld(s: State, a: Action, s': State, k: (nat, FileId))
    requires MutexHeld(s) && IsThreadStep(a) && Apply(s, a, true) == Some(s') && k in s'.threadMutex
    ensures HeldBy(s', k)
  {
    StepFrame(s, a, s');
    if k in s.threadMutex && s.threadMutex[k] != a.t {
      assert HeldBy(s, k);
      OtherMutexKept(s, a, s', k);
    } else if k in s.threadMutex {
      assert HeldBy(s, k);
      OwnMutexKept(s, a, s', k);
    }
  }

  lemma {:induction false} OtherMutexKept(s: State, a: Action, s': State, k: (nat, FileId))
    requires IsThreadStep(a) && Apply(s, a, true) == Some(s') && k in s.threadMutex && k in s'.threadMutex
    requires s.threadMutex[k] != a.t
    ensures s'.threadMutex[k] == s.threadMutex[k]
  {
  }

  lemma {:induction false} OwnMutexKept(s: State, a: Action, s': State, k: (nat, FileId))
    requires IsThreadStep(a) && Apply(s, a, true) == Some(s') && k in s.threadMutex && k in s'.threadMutex
    requires s.threadMutex[k] == a.t && HeldBy(s, k)
    ensures s'.threadMutex[k] == a.t && a.t in s'.phase
  {
  }

  lemma {:induction false} RecordLockHeldPreserved(s: State, a: Action, s': State)
    requires RecordLockHeld(s) && Apply(s, a, true) == Some(s')
    ensures RecordLockHeld(s')
  {
    forall f | f in s'.recordLock ensures exists t :: InsideOf(s', f, t) {
      if IsThreadStep(a) && a.LockFile? && f == s.phase[a.t].file {
        assert InsideOf(s', f, a.t);
      } else {
        var t :| InsideOf(s, f, t);
        StillInside(s, a, s', f, t);
      }
    }
  }

  lemma {:induction false} StillInside(s: State, a: Action, s': State, f: FileId, t: Tid)
    requires Apply(s, a, true) == Some(s') && InsideOf(s, f, t) && f in s'.recordLock
    requires a.LockFile? ==> s.phase[a.t].file != f
    ensures InsideOf(s', f, t)
  {
    if IsThreadStep(a) {
      StepFrame(s, a, s');
      StillLocked(s, a, s', f);
      if t == a.t { StaysInside(s, a, s'); }
    }
  }

  lemma {:induction false} StillLocked(s: State, a: Action, s': State, f: FileId)
    requires IsThreadStep(a) && Apply(s, a, true) == Some(s') && f in s.recordLock && f in s'.recordLock
    requires a.LockFile? ==> s.phase[a.t].file != f
    ensures s'.recordLock[f] == s.recordLock[f]
  {
  }

  lemma {:induction false} StaysInside(s: State, a: Action, s': State)
    requires IsThreadStep(a) && Apply(s, a, true) == Some(s') && InsideOf(s, s.phase[a.t].file, a.t)
    requires s.phase[a.t].file in s'.recordLock
    ensures a.t in s'.phase && Inside(s'.phase[a.t])
  {
  }

  // Only a thread inside its section rewrites a record, and there only it; but for late writes.
  lemma {:induction false} RecordKept(s: State, a: Action, s': State, t: Tid)
    requires MutexInv(s) && RecordLockInv(s) && IsThreadStep(a) && Apply(s, a, true) == Some(s') && !LateWrite(s, a)
    requires t in s.phase && Inside(s.phase[t]) && t != a.t
    ensures LeaseOf(s'.record, s.phase[t].file) == LeaseOf(s.record, s.phase[t].file)
    ensures s.phase[t].file in s.record ==>
              s.phase[t].file in s'.record && s'.record[s.phase[t].file] == s.record[s.phase[t].file]
    ensures forall g: StateLock :: (s.phase[t].file, g) in s'.granted ==> (s.phase[t].file, g) in s.granted
  {
    StepFrame(s, a, s');
    if s.phase[t].file == s.phase[a.t].file {
      if Inside(s.phase[a.t]) { InsideIsExclusive(s, t, a.t); }
      OutsideWritesNothing(s, a, s');
    } else {
      OtherRecordPreserved(s, a, s', s.phase[t].file);
    }
  }

  lemma {:induction false} OutsideWritesNothing(s: State, a: Action, s': State)
    requires IsThreadStep(a) && Apply(s, a, true) == Some(s') && !LateWrite(s, a) && !Inside(s.phase[a.t])
    ensures s'.granted == s.granted && LeaseOf(s'.record, s.phase[a.t].file) == LeaseOf(s.record, s.phase[a.t].file)
    ensures s.phase[a.t].file in s.record ==> s'.record == s.record
  {
  }

  // Deciding to rewrite the record means no live grant stands on it: the stale clock reading only
  // makes the decision more cautious.
  lemma {:induction false} ProceedsMeansLapsed(s: State, t: Tid, g: StateLock)
    requires RecordInv(s) && PhasesInv(s) && t in s.phase && s.phase[t].Checked?
    requires Proceeds(s.phase[t].req, s.phase[t].now, s.phase[t].found)
    requires (s.phase[t].file, g) in s.granted && !g.IsExpired(s.clock)
    ensures s.phase[t].req.UnlockState? && s.phase[t].found == Some(g)
  {
    assert PhaseInv(s, t, s.phase[t]);
  }

  lemma {:induction false} RecordPreserved(s: State, a: Action, s': State)
    requires Inv(s) && Apply(s, a, true) == Some(s') && !LateWrite(s, a)
    ensures RecordInv(s')
  {
    LiveRecordsPreserved(s, a, s');
    forall f | f in s'.record && s'.record[f].Lease? ensures (f, s'.record[f].lock) in s'.granted {
      RecordedIsGranted(s, a, s', f);
    }
  }

  lemma {:induction false} LiveRecordsPreserved(s: State, a: Action, s': State)
    requires RecordInv(s) && PhasesInv(s) && Apply(s, a, true) == Some(s') && !LateWrite(s, a)
    ensures LiveRecorded(s')
  {
    forall f: FileId, g: StateLock | (f, g) in s'.granted && !g.IsExpired(s'.clock)
      ensures f in s'.record && s'.record[f] == Lease(g)
    {
      if IsThreadStep(a) {
        if a.t in s.phase && f == s.phase[a.t].file {
          OwnRecordPreserved(s, a, s', g);
        } else {
          OtherRecordPreserved(s, a, s', f);
        }
      } else {
        assert (f, g) in s.granted && !g.IsExpired(s.clock);
      }
    }
  }

  lemma {:induction false} OtherRecordPreserved(s: State, a: Action, s': State, f: FileId)
    requires IsThreadStep(a) && Apply(s, a, true) == Some(s')
    requires a.t in s.phase ==> f != s.phase[a.t].file
    ensures forall g: StateLock :: (f, g) in s'.granted <==> (f, g) in s.granted
    ensures (f in s.record <==> f in s'.record) && (f in s.record ==> s'.record[f] == s.record[f])
  {
    StepFrame(s, a, s');
  }

  lemma {:induction false} RecordedIsGranted(s: State, a: Action, s': State, f: FileId)
    requires RecordedGranted(s) && Apply(s, a, true) == Some(s') && !LateWrite(s, a)
    requires f in s'.record && s'.record[f].Lease?
    ensures (f, s'.record[f].lock) in s'.granted
  {
    if IsThreadStep(a) {
      if f != s.phase[a.t].file {
        OtherRecordPreserved(s, a, s', f);
      } else if !a.Write? {
        OwnRecordUnwritten(s, a, s');
      }
    }
  }

  lemma {:induction false} OwnRecordUnwritten(s: State, a: Action, s': State)
    requires IsThreadStep(a) && !a.Write? && Apply(s, a, true) == Some(s') && !LateWrite(s, a)
    requires s.phase[a.t].file in s'.record && s'.record[s.phase[a.t].file].Lease?
    ensures s.phase[a.t].file in s.record && s'.record[s.phase[a.t].file] == s.record[s.phase[a.t].file]
    ensures !a.Truncate? && s'.granted == s.granted
  {
  }

  // The record of the file the step is about.
  lemma {:induction false} OwnRecordPreserved(s: State, a: Action, s': State, g: StateLock)
    requires RecordInv(s) && PhasesInv(s) && IsThreadStep(a) && Apply(s, a, true) == Some(s') && !LateWrite(s, a)
    requires a.t in s.phase && (s.phase[a.t].file, g) in s'.granted && !g.IsExpired(s'.clock)
    ensures s.phase[a.t].file in s'.record && s'.record[s.phase[a.t].file] == Lease(g)
  {
    var p := s.phase[a.t];
    assert PhaseInv(s, a.t, p);
    match a
    case Truncate(_, _) =>
      ProceedsMeansLapsed(s, a.t, g);
      assert false;
    case Write(_) =>
      if p.Buffered? && p.lock != g { assert false; }
    case TearWrite(_) => assert false;
    case _ =>
  }

  lemma {:induction false} PhasesPreserved(s: State, a: Action, s': State)
    requires Inv(s) && Apply(s, a, true) == Some(s') && !LateWrite(s, a)
    ensures PhasesInv(s')
  {
    forall t | t in s'.phase
      ensures PhaseInv(s', t, s'.phase[t])
    {
      if IsThreadStep(a) {
        if t == a.t {
          OwnPhasePreserved(s, a, s');
        } else {
          OtherPhasePreserved(s, a, s', t);
        }
      } else if t in s.phase {
        assert PhaseInv(s, t, s.phase[t]);
      }
    }
  }

  lemma {:induction false} OtherPhasePreserved(s: State, a: Action, s': State, t: Tid)
    requires Inv(s) && IsThreadStep(a) && Apply(s, a, true) == Some(s') && t in s'.phase && t != a.t && !LateWrite(s, a)
    ensures PhaseInv(s', t, s'.phase[t])
  {
    StepFrame(s, a, s');
    assert PhaseInv(s, t, s.phase[t]);
    if Inside(s.phase[t]) { RecordKept(s, a, s', t); }
  }

  lemma {:induction false} OwnPhasePreserved(s: State, a: Action, s': State)
    requires Inv(s) && IsThreadStep(a) && Apply(s, a, true) == Some(s') && a.t in s'.phase && !LateWrite(s, a)
    ensures PhaseInv(s', a.t, s'.phase[a.t])
  {
    if a.Truncate? {
      TruncatesOnlyLapsed(s, a, s');
    } else if a.FillBuffer? || a.TearWrite? {
      assert PhaseInv(s, a.t, s.phase[a.t]);
    } else {
      OtherStepPhase(s, a, s');
    }
  }

  lemma {:induction false} OtherStepPhase(s: State, a: Action, s': State)
    requires PhasesInv(s) && IsThreadStep(a) && Apply(s, a, true) == Some(s') && a.t in s'.phase
    requires !a.Truncate? && !a.FillBuffer? && !a.TearWrite?
    ensures PhaseInv(s', a.t, s'.phase[a.t])
  {
    assert PhaseInv(s, a.t, s.phase[a.t]);
  }

  lemma {:induction false} TruncatesOnlyLapsed(s: State, a: Action, s': State)
    requires RecordInv(s) && PhasesInv(s) && a.Truncate? && Apply(s, a, true) == Some(s')
    ensures AllLapsed(s', s.phase[a.t].file)
  {
    forall g: StateLock | (s.phase[a.t].file, g) in s'.granted ensures g.IsExpired(s'.clock) {
      if !g.IsExpired(s.clock) { ProceedsMeansLapsed(s, a.t, g); }
    }
  }

  lemma PendingStep(s: State, a: Action, s': State, t: Tid, l: StateLock)
    requires Apply(s, a, true) == Some(s') && Pending(s', t, l)
    ensures Pending(s, t, l) ||
      (a.Truncate? && a.t == t && l.lockId == a.id && a.id !in s.usedIds && a.id in s'.usedIds)
    ensures a.Write? ==> t != a.t
  {
    if IsThreadStep(a) { StepFrame(s, a, s'); }
  }

  lemma HistoryStep(s: State, a: Action, s': State)
    requires Apply(s, a, true) == Some(s')
    ensures s.usedIds <= s'.usedIds
    ensures s.granted <= s.history ==> s'.granted <= s'.history
    ensures s'.history == s.history ||
            (a.Write? && a.t in s.phase && s.phase[a.t].Buffered?
             && s'.history == s.history + {(s.phase[a.t].file, s.phase[a.t].lock)})
  {
  }

  lemma IdsPreserved(s: State, a: Action, s': State)
    requires IdsInv(s) && Apply(s, a, true) == Some(s')
    ensures IdsInv(s')
  {
    HistoryStep(s, a, s');
    if s'.history != s.history {
      assert Pending(s, a.t, s.phase[a.t].lock);
    }
    forall t, l | Pending(s', t, l)
      ensures l.lockId in s'.usedIds
      ensures forall f': FileId, l': StateLock :: (f', l') in s'.history ==> l.lockId != l'.lockId
    {
      PendingStep(s, a, s', t, l);
    }
    forall t, l, t', l' | Pending(s', t, l) && Pending(s', t', l') && t != t'
      ensures l.lockId != l'.lockId
    {
      PendingStep(s, a, s', t, l);
      PendingStep(s, a, s', t', l');
    }
  }

  lemma {:induction false} StepLockInv(s: State, a: Action, s': State)
    requires LockInv(s) && Apply(s, a, true) == Some(s')
    ensures LockInv(s')
  {
    MutexPreserved(s, a, s');
    RecordLockPreserved(s, a, s');
    MutexHeldPreserved(s, a, s');
    RecordLockHeldPreserved(s, a, s');
  }

  lemma {:induction false} StepInv(s: State, a: Action, s': State)
    requires Inv(s) && Apply(s, a, true) == Some(s') && !LateWrite(s, a)
    ensures Inv(s')
  {
    StepLockInv(s, a, s');
    RecordPreserved(s, a, s');
    PhasesPreserved(s, a, s');
    IdsPreserved(s, a, s');
  }

  lemma {:induction false} RunLockInv(s: State, actions: seq<Action>)
    requires LockInv(s)
    ensures Run(s, actions, true).Some? ==> LockInv(Run(s, actions, true).value)
    decreases |actions|
  {
    if actions != [] {
      var next := Apply(s, actions[0], true);
      if next.Some? {
        StepLockInv(s, actions[0], next.value);
        RunLockInv(next.value, actions[1..]);
      }
    }
  }

  lemma {:induction false} RunInv(s: State, actions: seq<Action>)
    requires Inv(s) && NoLateWrite(s, actions)
    ensures Run(s, actions, true).Some? ==> Inv(Run(s, actions, true).value)
    decreases |actions|
  {
    if actions != [] {
      var next := Apply(s, actions[0], true);
      if next.Some? {
        StepInv(s, actions[0], next.value);
        RunInv(next.value, actions[1..]);
      }
    }
  }

  lemma ReachableLockInv(s: State)
    requires Reachable(s)
    ensures LockInv(s)
  {
    var clock: real, actions: seq<Action> :| clock >= 0.0 && Run(Init(clock), actions, true) == Some(s);
    RunLockInv(Init(clock), actions);
  }

  lemma CleanlyReachableInv(s: State)
    requires CleanlyReachable(s)
    ensures Inv(s)
  {
    var clock: real, actions: seq<Action> :|
      clock >= 0.0 && Run(Init(clock), actions, true) == Some(s) && NoLateWrite(Init(clock), actions);
    RunInv(Init(clock), actions);
  }

  // ------------------------------------------------------------------ what every run keeps

  // At most one thread, of any process, is inside exclusive_file_mutex on a file.
  lemma MutualExclusion(s: State, t: Tid, t': Tid)
    requires Reachable(s)
    requires t in s.phase && t' in s.phase && s.phase[t].file == s.phase[t'].file
    requires Inside(s.phase[t]) && Inside(s.phase[t'])
    ensures t == t'
  {
    ReachableLockInv(s);
    InsideIsExclusive(s, t, t');
  }

  // ------------------------------------------------------------------ what every run without late writes keeps

  predicate LiveGrant(s: State, f: FileId, g: StateLock) {
    (f, g) in s.granted && !g.IsExpired(s.clock)
  }

  // No two leases on one file are ever granted, unreleased and unexpired together.
  lemma OneLiveLease(s: State, f: FileId, g: StateLock, g': StateLock)
    requires CleanlyReachable(s) && LiveGrant(s, f, g) && LiveGrant(s, f, g')
    ensures g == g'
  {
    CleanlyReachableInv(s);
  }

  // The step at which an unlock carrying g's id erases the record of file f.
  ghost predicate Releases(s: State, a: Action, f: FileId, g: StateLock) {
    a.Truncate? && a.t in s.phase && s.phase[a.t].file == f && s.phase[a.t].Checked?
    && s.phase[a.t].req == UnlockState(g.lockId)
  }

  // A step that is not the release of a live lease leaves it recorded exactly when it is no late write
  // to its file.
  lemma {:induction false} StepKeepsLiveLease(s: State, a: Action, s': State, f: FileId, g: StateLock)
    requires Inv(s) && Apply(s, a, true) == Some(s')
    requires (f, g) in s.granted && !g.IsExpired(s'.clock) && !Releases(s, a, f, g)
    ensures (f, g) in s'.granted
    ensures LeaseOf(s'.record, f) == Some(g) <==> !(LateWrite(s, a) && s.phase[a.t].file == f)
  {
    if LateWrite(s, a) {
      LateWriteEffect(s, a, s', f, g);
    } else {
      StepInv(s, a, s');
      GrantStays(s, a, s', f, g);
    }
  }

  lemma {:induction false} LateWriteEffect(s: State, a: Action, s': State, f: FileId, g: StateLock)
    requires RecordInv(s) && Apply(s, a, true) == Some(s') && LateWrite(s, a) && LiveGrant(s, f, g)
    ensures LiveGrant(s', f, g)
    ensures LeaseOf(s'.record, f) == Some(g) <==> s.phase[a.t].file != f
  {
    assert f in s.record && s.record[f] == Lease(g);
    if s.phase[a.t].file != f { StepFrame(s, a, s'); }
  }

  lemma {:induction false} GrantStays(s: State, a: Action, s': State, f: FileId, g: StateLock)
    requires RecordInv(s) && PhasesInv(s) && Apply(s, a, true) == Some(s')
    requires (f, g) in s.granted && !g.IsExpired(s'.clock) && !Releases(s, a, f, g)
    ensures (f, g) in s'.granted
  {
    assert !g.IsExpired(s.clock);
    if a.Truncate? && s.phase[a.t].file == f { ProceedsMeansLapsed(s, a.t, g); }
  }

  ghost predicate NeverReleased(s: State, actions: seq<Action>, f: FileId, g: StateLock)
    decreases |actions|
  {
    actions == [] ||
    (!Releases(s, actions[0], f, g) &&
     (Apply(s, actions[0], true).Some? ==> NeverReleased(Apply(s, actions[0], true).value, actions[1..], f, g)))
  }

  lemma {:induction false} ClockIsMonotone(s: State, actions: seq<Action>)
    ensures Run(s, actions, true).Some? ==> s.clock <= Run(s, actions, true).value.clock
    decreases |actions|
  {
    if actions != [] && Apply(s, actions[0], true).Some? {
      ClockIsMonotone(Apply(s, actions[0], true).value, actions[1..]);
    }
  }

  // Across any run -- crashes at any step included -- a grant nobody releases stays recorded until
  // the clock passes its expiry; a grant without an expiry stays for good.
  lemma {:induction false} LiveLeaseIsKept(s: State, actions: seq<Action>, s': State, f: FileId, g: StateLock)
    requires Inv(s) && Run(s, actions, true) == Some(s')
    requires (f, g) in s.granted && !g.IsExpired(s'.clock)
    requires NeverReleased(s, actions, f, g) && NoLateWrite(s, actions)
    ensures (f, g) in s'.granted && LeaseOf(s'.record, f) == Some(g)
    decreases |actions|
  {
    if actions != [] {
      var next := Apply(s, actions[0], true).value;
      ClockIsMonotone(next, actions[1..]);
      StepInv(s, actions[0], next);
      StepKeepsLiveLease(s, actions[0], next, f, g);
      LiveLeaseIsKept(next, actions[1..], s', f, g);
    }
  }

  // The id of an earlier grant never releases a later one: its unlock is refused.
  lemma StaleUnlockIsRefused(s: State, t: Tid, f: FileId, stale: StateLock, f': FileId, live: StateLock)
    requires CleanlyReachable(s)
    requires (f', stale) in s.history && (f, live) in s.granted && !live.IsExpired(s.clock)
    requires (f', stale) != (f, live)
    requires t in s.phase && s.phase[t].Checked? && s.phase[t].file == f
    requires s.phase[t].req == UnlockState(stale.lockId)
    ensures forall id :: Apply(s, Truncate(t, id), true) == None
    ensures Apply(s, Refuse(t), true) == Some(At(s, t, Leaving(f, NotHeld, Nothing)))
  {
    CleanlyReachableInv(s);
    assert PhaseInv(s, t, s.phase[t]);
    assert s.phase[t].found == Some(live);
  }
}
