// Runs of the lease protocol: what whole calls do, that a lapsed lease can always be taken over, what a
// failed flush leads to, and why the thread mutex is needed.
module LeaseRuns {
  import opened Options
  import opened StateLocks
  import opened Texts
  import opened LeaseProtocol

  // ------------------------------------------------------------------ runs, piece by piece

  lemma RunCons(s: State, a: Action, rest: seq<Action>, threads: bool)
    ensures Run(s, [a] + rest, threads)
         == if Apply(s, a, threads).None? then None else Run(Apply(s, a, threads).value, rest, threads)
  {
    assert ([a] + rest)[1..] == rest;
  }

  lemma {:induction false} RunAppend(s: State, first: seq<Action>, rest: seq<Action>, threads: bool)
    ensures Run(s, first + rest, threads)
         == if Run(s, first, threads).None? then None else Run(Run(s, first, threads).value, rest, threads)
    decreases |first|
  {
    if first == [] {
      assert first + rest == rest;
    } else {
      assert first + rest == [first[0]] + (first[1..] + rest);
      RunCons(s, first[0], first[1..] + rest, threads);
      if Apply(s, first[0], threads).Some? {
        RunAppend(Apply(s, first[0], threads).value, first[1..], rest, threads);
      }
    }
  }

  function Enter(t: Tid, f: FileId, req: Request): seq<Action> {
    [Call(t, f, req), TakeMutex(t), OpenFile(t), LockFile(t), ReadLease(t)]
  }

  // Closing leaves the record it finds.
  function Leave(t: Tid, found: Record): seq<Action> {
    [UnlockFile(t), CloseFile(t, found), ReleaseMutex(t)]
  }

  function Rewrite(t: Tid, id: Text): seq<Action> {
    [Truncate(t, id), FillBuffer(t)] + [Write(t), Finish(t)]
  }

  function GrantedCall(s: State, t: Tid, f: FileId, req: Request, id: Text): seq<Action>
    requires req.LockState?
  {
    Enter(t, f, req) + (Rewrite(t, id) + Leave(t, Lease(Lock(s, req, id))))
  }

  function RefusedCall(s: State, t: Tid, f: FileId, req: Request): seq<Action> {
    Enter(t, f, req) + ([Refuse(t)] + Leave(t, RecordAt(s, f)))
  }

  predicate Unobstructed(s: State, t: Tid, f: FileId, threads: bool) {
    t !in s.phase && (threads ==> (t.proc, f) !in s.threadMutex) && (f in s.recordLock ==> s.recordLock[f] == t.proc)
  }

  lemma CallAndTakeMutex(s: State, t: Tid, f: FileId, req: Request, threads: bool) returns (r: State)
    requires Unobstructed(s, t, f, threads)
    ensures Run(s, [Call(t, f, req), TakeMutex(t)], threads) == Some(r)
    ensures r == s.(threadMutex := s.threadMutex[(t.proc, f) := t], phase := s.phase[t := InMutex(f, req, s.clock)])
  {
    var s1 := At(s, t, Waiting(f, req, s.clock));
    r := s.(threadMutex := s.threadMutex[(t.proc, f) := t], phase := s.phase[t := InMutex(f, req, s.clock)]);
    assert s1.phase[t := InMutex(f, req, s.clock)] == r.phase;
    RunPair(s, Call(t, f, req), s1, TakeMutex(t), r, threads);
  }

  lemma RunPair(s: State, a: Action, s1: State, b: Action, s2: State, threads: bool)
    requires Apply(s, a, threads) == Some(s1) && Apply(s1, b, threads) == Some(s2)
    ensures Run(s, [a, b], threads) == Some(s2)
  {
    assert [a, b] == [a] + [b];
    RunCons(s, a, [b], threads);
    RunOne(s1, b, s2, threads);
  }

  lemma RunOne(s: State, a: Action, s1: State, threads: bool)
    requires Apply(s, a, threads) == Some(s1)
    ensures Run(s, [a], threads) == Some(s1)
  {
    assert [a] == [a] + [];
    RunCons(s, a, [], threads);
  }

  lemma OpenAndLock(s: State, t: Tid, f: FileId, req: Request, now: real, threads: bool) returns (r: State)
    requires t in s.phase && s.phase[t] == InMutex(f, req, now)
    requires f in s.recordLock ==> s.recordLock[f] == t.proc
    ensures Run(s, [OpenFile(t), LockFile(t)], threads) == Some(r)
    ensures r == s.(
      recordLock := s.recordLock[f := t.proc],
      record := if f in s.record then s.record else s.record[f := Empty],
      phase := s.phase[t := Locked(f, req, now)])
  {
    var record := if f in s.record then s.record else s.record[f := Empty];
    var s1 := At(s, t, Opened(f, req, now)).(record := record);
    r := s.(recordLock := s.recordLock[f := t.proc], record := record, phase := s.phase[t := Locked(f, req, now)]);
    assert s1.phase[t := Locked(f, req, now)] == r.phase;
    RunPair(s, OpenFile(t), s1, LockFile(t), r, threads);
  }

  function Entered(s: State, t: Tid, f: FileId, req: Request): State {
    s.(threadMutex := s.threadMutex[(t.proc, f) := t],
       recordLock := s.recordLock[f := t.proc],
       record := if f in s.record then s.record else s.record[f := Empty],
       phase := s.phase[t := Checked(f, req, s.clock, LeaseOf(s.record, f))])
  }

  lemma EntersSection(s: State, t: Tid, f: FileId, req: Request, threads: bool) returns (r: State)
    requires Unobstructed(s, t, f, threads)
    ensures Run(s, [Call(t, f, req), TakeMutex(t)] + [OpenFile(t), LockFile(t)], threads) == Some(r)
    ensures r == Entered(s, t, f, req).(phase := s.phase[t := Locked(f, req, s.clock)])
  {
    var s1 := CallAndTakeMutex(s, t, f, req, threads);
    r := OpenAndLock(s1, t, f, req, s.clock, threads);
    assert s1.phase[t := Locked(f, req, s.clock)] == s.phase[t := Locked(f, req, s.clock)];
    RunThen(s, [Call(t, f, req), TakeMutex(t)], s1, [OpenFile(t), LockFile(t)], r, threads);
  }

  lemma RunThen(s: State, first: seq<Action>, s1: State, rest: seq<Action>, s2: State, threads: bool)
    requires Run(s, first, threads) == Some(s1) && Run(s1, rest, threads) == Some(s2)
    ensures Run(s, first + rest, threads) == Some(s2)
  {
    RunAppend(s, first, rest, threads);
  }

  lemma EnterRuns(s: State, t: Tid, f: FileId, req: Request, threads: bool)
    requires Unobstructed(s, t, f, threads)
    ensures Run(s, Enter(t, f, req), threads) == Some(Entered(s, t, f, req))
  {
    var s1 := EntersSection(s, t, f, req, threads);
    var s2 := Entered(s, t, f, req);
    assert s1.phase[t := Checked(f, req, s.clock, LeaseOf(s.record, f))] == s2.phase;
    RunOne(s1, ReadLease(t), s2, threads);
    RunThen(s, [Call(t, f, req), TakeMutex(t)] + [OpenFile(t), LockFile(t)], s1, [ReadLease(t)], s2, threads);
    assert Enter(t, f, req) == [Call(t, f, req), TakeMutex(t)] + [OpenFile(t), LockFile(t)] + [ReadLease(t)];
  }

  function Left(s: State, t: Tid): State
    requires t in s.phase
  {
    s.(recordLock := DropRecordLock(s.recordLock, s.phase[t].file, t.proc),
       threadMutex := s.threadMutex - {(t.proc, s.phase[t].file)},
       phase := s.phase - {t})
  }

  lemma {:induction false} LeaveRuns(s: State, t: Tid)
    requires t in s.phase && s.phase[t].Leaving?
    ensures Run(s, Leave(t, RecordAt(s, s.phase[t].file)), true) == Some(Left(s, t))
  {
    var f, o, b := s.phase[t].file, s.phase[t].outcome, s.phase[t].buffer;
    var s1 := At(s, t, Closing(f, o, b)).(recordLock := DropRecordLock(s.recordLock, f, t.proc));
    RunOne(s, UnlockFile(t), s1, true);
    ClosingRuns(s1, t);
    assert s1.phase - {t} == s.phase - {t};
    assert DropRecordLock(s1.recordLock, f, t.proc) == s1.recordLock;
    RunThen(s, [UnlockFile(t)], s1, [CloseFile(t, RecordAt(s, f)), ReleaseMutex(t)], Left(s, t), true);
    assert Leave(t, RecordAt(s, f)) == [UnlockFile(t)] + [CloseFile(t, RecordAt(s, f)), ReleaseMutex(t)];
  }

  lemma {:induction false} ClosingRuns(s: State, t: Tid)
    requires t in s.phase && s.phase[t].Closing?
    ensures Run(s, [CloseFile(t, RecordAt(s, s.phase[t].file)), ReleaseMutex(t)], true) == Some(Left(s, t))
  {
    var f, o := s.phase[t].file, s.phase[t].outcome;
    var s1 := At(s, t, Closed(f, o)).(recordLock := DropRecordLock(s.recordLock, f, t.proc));
    assert s1.phase - {t} == s.phase - {t};
    RunPair(s, CloseFile(t, RecordAt(s, f)), s1, ReleaseMutex(t), Left(s, t), true);
  }

  // The run makes the call answer o and ends in r: o is what the thread has in hand when it gives up the
  // mutex, its last step.
  ghost predicate Answers(s: State, t: Tid, f: FileId, actions: seq<Action>, o: Outcome, r: State) {
    actions != [] && actions[|actions| - 1] == ReleaseMutex(t) && Run(s, actions, true) == Some(r) &&
    var q := Run(s, actions[..|actions| - 1], true);
    q.Some? && t in q.value.phase && q.value.phase[t] == Closed(f, o)
  }

  lemma {:induction false} ClosedWith(s: State, t: Tid) returns (r: State)
    requires t in s.phase && s.phase[t].Leaving?
    ensures Run(s, [UnlockFile(t), CloseFile(t, RecordAt(s, s.phase[t].file))], true) == Some(r)
    ensures t in r.phase && r.phase[t] == Closed(s.phase[t].file, s.phase[t].outcome)
  {
    var f, o, b := s.phase[t].file, s.phase[t].outcome, s.phase[t].buffer;
    var s1 := At(s, t, Closing(f, o, b)).(recordLock := DropRecordLock(s.recordLock, f, t.proc));
    r := At(s1, t, Closed(f, o)).(recordLock := DropRecordLock(s1.recordLock, f, t.proc));
    RunPair(s, UnlockFile(t), s1, CloseFile(t, RecordAt(s, f)), r, true);
  }

  lemma {:induction false} Answered(s: State, t: Tid, enter: seq<Action>, s1: State, middle: seq<Action>, s2: State)
    requires Run(s, enter, true) == Some(s1) && Run(s1, middle, true) == Some(s2)
    requires t in s2.phase && s2.phase[t].Leaving?
    ensures Answers(s, t, s2.phase[t].file, enter + (middle + Leave(t, RecordAt(s2, s2.phase[t].file))),
      s2.phase[t].outcome, Left(s2, t))
  {
    var found := RecordAt(s2, s2.phase[t].file);
    var actions := enter + (middle + Leave(t, found));
    LeaveRuns(s2, t);
    RunThen(s1, middle, s2, Leave(t, found), Left(s2, t), true);
    RunThen(s, enter, s1, middle + Leave(t, found), Left(s2, t), true);
    var q := ClosedWith(s2, t);
    RunThen(s1, middle, s2, [UnlockFile(t), CloseFile(t, found)], q, true);
    RunThen(s, enter, s1, middle + [UnlockFile(t), CloseFile(t, found)], q, true);
    assert actions[..|actions| - 1] == enter + (middle + [UnlockFile(t), CloseFile(t, found)]);
  }

  predicate Free(s: State, f: FileId) {
    LeaseOf(s.record, f).None? || LeaseOf(s.record, f).value.IsExpired(s.clock)
  }

  function Lock(s: State, req: Request, id: Text): StateLock
    requires req.LockState?
  {
    NewLock(id, req.typeName, req.stateId, req.operation, req.holder, s.clock, req.ttl)
  }

  // The state after a grant, its thread gone again.
  function Granting(s: State, t: Tid, f: FileId, lock: StateLock): State {
    s.(record := s.record[f := Lease(lock)],
       usedIds := s.usedIds + {lock.lockId},
       granted := s.granted + {(f, lock)},
       history := s.history + {(f, lock)})
  }

  lemma {:induction false} WriteRuns(s: State, t: Tid, f: FileId, req: Request, lock: StateLock, threads: bool)
    returns (r: State)
    requires t in s.phase && s.phase[t].Checked? && s.phase[t].file == f && s.phase[t].req == req && req.LockState?
    requires Proceeds(req, s.phase[t].now, s.phase[t].found) && lock.lockId !in s.usedIds
    requires lock ==
      NewLock(lock.lockId, req.typeName, req.stateId, req.operation, req.holder, s.phase[t].now, req.ttl)
    ensures Run(s, Rewrite(t, lock.lockId), threads) == Some(r)
    ensures r == Granting(s, t, f, lock).(phase := s.phase[t := Leaving(f, Granted(lock), Nothing)])
  {
    var s1 := BufferRuns(s, t, f, req, lock, threads);
    r := Granting(s, t, f, lock).(phase := s.phase[t := Leaving(f, Granted(lock), Nothing)]);
    FlushRuns(s1, t, f, lock, threads);
    assert s1.phase[t := Leaving(f, Granted(lock), Nothing)] == r.phase;
    assert s1.record[f := Lease(lock)] == r.record;
    RunThen(s, [Truncate(t, lock.lockId), FillBuffer(t)], s1, [Write(t), Finish(t)], r, threads);
  }

  lemma {:induction false} FlushRuns(s: State, t: Tid, f: FileId, lock: StateLock, threads: bool)
    requires t in s.phase && s.phase[t] == Buffered(f, lock, false)
    ensures Run(s, [Write(t), Finish(t)], threads) == Some(s.(
      phase := s.phase[t := Leaving(f, Granted(lock), Nothing)],
      record := s.record[f := Lease(lock)],
      granted := s.granted + {(f, lock)},
      history := s.history + {(f, lock)}))
  {
    var s1 := Apply(s, Write(t), threads).value;
    var r := At(s1, t, Leaving(f, Granted(lock), Nothing));
    assert s1.phase[t := Leaving(f, Granted(lock), Nothing)] == s.phase[t := Leaving(f, Granted(lock), Nothing)];
    RunPair(s, Write(t), s1, Finish(t), r, threads);
  }

  lemma {:induction false} BufferRuns(s: State, t: Tid, f: FileId, req: Request, lock: StateLock, threads: bool)
    returns (r: State)
    requires t in s.phase && s.phase[t].Checked? && s.phase[t].file == f && s.phase[t].req == req && req.LockState?
    requires Proceeds(req, s.phase[t].now, s.phase[t].found) && lock.lockId !in s.usedIds
    requires lock ==
      NewLock(lock.lockId, req.typeName, req.stateId, req.operation, req.holder, s.phase[t].now, req.ttl)
    ensures Run(s, [Truncate(t, lock.lockId), FillBuffer(t)], threads) == Some(r)
    ensures r == s.(phase := s.phase[t := Buffered(f, lock, false)], record := s.record[f := Empty],
      usedIds := s.usedIds + {lock.lockId})
  {
    var s1 := At(s, t, Truncated(f, Some(lock))).(record := s.record[f := Empty], usedIds := s.usedIds + {lock.lockId});
    r := s1.(phase := s.phase[t := Buffered(f, lock, false)]);
    assert s1.phase[t := Buffered(f, lock, false)] == r.phase;
    RunPair(s, Truncate(t, lock.lockId), s1, FillBuffer(t), r, threads);
  }

  // Afterwards the caller holds nothing but its lease.
  function AfterGrant(s: State, t: Tid, f: FileId, lock: StateLock): State {
    Granting(s, t, f, lock).(recordLock := s.recordLock - {f})
  }

  lemma {:induction false} FreeIsGranted(s: State, t: Tid, f: FileId, req: Request, id: Text)
    requires Unobstructed(s, t, f, true) && req.LockState? && id !in s.usedIds && Free(s, f)
    ensures Answers(s, t, f, GrantedCall(s, t, f, req, id), Granted(Lock(s, req, id)),
      AfterGrant(s, t, f, Lock(s, req, id)))
  {
    EnterRuns(s, t, f, req, true);
    var lock := Lock(s, req, id);
    var s1 := Entered(s, t, f, req);
    var s2 := WriteRuns(s1, t, f, req, lock, true);
    LeftAfterGrant(s, t, f, req, lock, s2);
    Answered(s, t, Enter(t, f, req), s1, Rewrite(t, id), s2);
  }

  lemma {:induction false} LeftAfterGrant(s: State, t: Tid, f: FileId, req: Request, lock: StateLock, s2: State)
    requires Unobstructed(s, t, f, true)
    requires s2 == Granting(Entered(s, t, f, req), t, f, lock).(
      phase := Entered(s, t, f, req).phase[t := Leaving(f, Granted(lock), Nothing)])
    ensures Left(s2, t) == AfterGrant(s, t, f, lock)
  {
    assert s2.phase - {t} == s.phase;
    assert s2.threadMutex - {(t.proc, f)} == s.threadMutex;
    assert DropRecordLock(s2.recordLock, f, t.proc) == s.recordLock - {f};
    assert s2.record == s.record[f := Lease(lock)];
  }

  // Afterwards nothing is held and the record is as it was, in a file that may be new.
  function AfterRefusal(s: State, f: FileId): State {
    s.(recordLock := s.recordLock - {f}, record := if f in s.record then s.record else s.record[f := Empty])
  }

  lemma {:induction false} RefusedCallRuns(s: State, t: Tid, f: FileId, req: Request)
    requires Unobstructed(s, t, f, true) && !Proceeds(req, s.clock, LeaseOf(s.record, f))
    ensures Answers(s, t, f, RefusedCall(s, t, f, req), RefusalOf(req, LeaseOf(s.record, f)), AfterRefusal(s, f))
  {
    EnterRuns(s, t, f, req, true);
    var s1 := Entered(s, t, f, req);
    var s2 := At(s1, t, Leaving(f, RefusalOf(req, LeaseOf(s.record, f)), Nothing));
    RunOne(s1, Refuse(t), s2, true);
    LeftAfterRefusal(s, t, f, req, s2);
    Answered(s, t, Enter(t, f, req), s1, [Refuse(t)], s2);
  }

  lemma {:induction false} LeftAfterRefusal(s: State, t: Tid, f: FileId, req: Request, s2: State)
    requires Unobstructed(s, t, f, true)
    requires s2 == At(Entered(s, t, f, req), t, Leaving(f, RefusalOf(req, LeaseOf(s.record, f)), Nothing))
    ensures Left(s2, t) == AfterRefusal(s, f)
  {
    assert s2.phase - {t} == s.phase;
    assert s2.threadMutex - {(t.proc, f)} == s.threadMutex;
    assert DropRecordLock(s2.recordLock, f, t.proc) == s.recordLock - {f};
  }

  lemma {:induction false} ProceedingIsNotRefused(s: State, t: Tid, f: FileId, req: Request)
    requires Unobstructed(s, t, f, true) && Proceeds(req, s.clock, LeaseOf(s.record, f))
    ensures Run(s, RefusedCall(s, t, f, req), true).None?
  {
    EnterRuns(s, t, f, req, true);
    RunAppend(s, Enter(t, f, req), [Refuse(t)] + Leave(t, RecordAt(s, f)), true);
    NoRefusal(Entered(s, t, f, req), t);
    RunCons(Entered(s, t, f, req), Refuse(t), Leave(t, RecordAt(s, f)), true);
  }

  lemma {:induction false} NoRefusal(s: State, t: Tid)
    requires t in s.phase && s.phase[t].Checked? && Proceeds(s.phase[t].req, s.phase[t].now, s.phase[t].found)
    ensures Apply(s, Refuse(t), true) == None
  {
  }

  lemma {:induction false} HeldIsNotGranted(s: State, t: Tid, f: FileId, req: Request, id: Text)
    requires Unobstructed(s, t, f, true) && req.LockState? && !Free(s, f)
    ensures Run(s, GrantedCall(s, t, f, req, id), true).None?
  {
    EnterRuns(s, t, f, req, true);
    var rest := [FillBuffer(t), Write(t), Finish(t)] + Leave(t, Lease(Lock(s, req, id)));
    assert Rewrite(t, id) + Leave(t, Lease(Lock(s, req, id))) == [Truncate(t, id)] + rest;
    RunAppend(s, Enter(t, f, req), [Truncate(t, id)] + rest, true);
    NoTruncate(Entered(s, t, f, req), t, id);
    RunCons(Entered(s, t, f, req), Truncate(t, id), rest, true);
  }

  lemma {:induction false} NoTruncate(s: State, t: Tid, id: Text)
    requires t in s.phase && s.phase[t].Checked? && !Proceeds(s.phase[t].req, s.phase[t].now, s.phase[t].found)
    ensures Apply(s, Truncate(t, id), true) == None
  {
  }

  // An unobstructed lock_state is granted exactly when the file records no lease that is live at the
  // clock it read; otherwise it reports that lease. Either way it leaves nothing held.
  lemma {:induction false} LockStateDecides(s: State, t: Tid, f: FileId, req: Request, id: Text)
    requires Unobstructed(s, t, f, true) && req.LockState? && id !in s.usedIds
    ensures Free(s, f) <==> Run(s, GrantedCall(s, t, f, req, id), true).Some?
    ensures !Free(s, f) <==> Run(s, RefusedCall(s, t, f, req), true).Some?
    ensures Free(s, f) ==>
      Answers(s, t, f, GrantedCall(s, t, f, req, id), Granted(Lock(s, req, id)), AfterGrant(s, t, f, Lock(s, req, id)))
    ensures !Free(s, f) ==>
      Answers(s, t, f, RefusedCall(s, t, f, req), Conflict(LeaseOf(s.record, f).value),
        s.(recordLock := s.recordLock - {f}))
  {
    if Free(s, f) {
      ProceedingIsNotRefused(s, t, f, req);
      FreeIsGranted(s, t, f, req, id);
    } else {
      HeldIsNotGranted(s, t, f, req, id);
      RefusedCallRuns(s, t, f, req);
    }
  }

  function UnlockedCall(t: Tid, f: FileId, lockId: Text): seq<Action> {
    Enter(t, f, UnlockState(lockId)) + ([Truncate(t, []), Write(t), Finish(t)] + Leave(t, Empty))
  }

  // The lease is released, and nothing is held.
  function AfterUnlock(s: State, f: FileId, lease: StateLock): State {
    s.(record := s.record[f := Empty], granted := s.granted - {(f, lease)}, recordLock := s.recordLock - {f})
  }

  // An unobstructed unlock_state releases the recorded lease exactly when it is the one with that id, live
  // or lapsed; otherwise it answers that the lease is not held, and the record stays. Either way it leaves
  // nothing held.
  lemma {:induction false} UnlockDecides(s: State, t: Tid, f: FileId, lockId: Text)
    requires Unobstructed(s, t, f, true)
    ensures var lease := LeaseOf(s.record, f);
      if lease.Some? && lease.value.lockId == lockId then
        Answers(s, t, f, UnlockedCall(t, f, lockId), Unlocked, AfterUnlock(s, f, lease.value)) &&
        Run(s, RefusedCall(s, t, f, UnlockState(lockId)), true).None?
      else
        Answers(s, t, f, RefusedCall(s, t, f, UnlockState(lockId)), NotHeld, AfterRefusal(s, f)) &&
        Run(s, UnlockedCall(t, f, lockId), true).None?
  {
    var lease, req := LeaseOf(s.record, f), UnlockState(lockId);
    if lease.Some? && lease.value.lockId == lockId {
      HolderUnlocks(s, t, f, lockId);
      ProceedingIsNotRefused(s, t, f, req);
    } else {
      RefusedCallRuns(s, t, f, req);
      EnterRuns(s, t, f, req, true);
      var rest := [Write(t), Finish(t)] + Leave(t, Empty);
      assert [Truncate(t, []), Write(t), Finish(t)] + Leave(t, Empty) == [Truncate(t, [])] + rest;
      RunAppend(s, Enter(t, f, req), [Truncate(t, [])] + rest, true);
      NoTruncate(Entered(s, t, f, req), t, []);
      RunCons(Entered(s, t, f, req), Truncate(t, []), rest, true);
    }
  }

  lemma {:induction false} HolderUnlocks(s: State, t: Tid, f: FileId, lockId: Text)
    requires Unobstructed(s, t, f, true) && LeaseOf(s.record, f).Some? && LeaseOf(s.record, f).value.lockId == lockId
    ensures Answers(s, t, f, UnlockedCall(t, f, lockId), Unlocked, AfterUnlock(s, f, LeaseOf(s.record, f).value))
  {
    var lease, req := LeaseOf(s.record, f).value, UnlockState(lockId);
    EnterRuns(s, t, f, req, true);
    var s1 := Entered(s, t, f, req);
    var s2 := ErasureRuns(s1, t, f, lease);
    LeftAfterUnlock(s, t, f, req, lease, s2);
    Answered(s, t, Enter(t, f, req), s1, [Truncate(t, []), Write(t), Finish(t)], s2);
  }

  lemma {:induction false} ErasureRuns(s: State, t: Tid, f: FileId, lease: StateLock) returns (r: State)
    requires t in s.phase && s.phase[t].Checked? && s.phase[t].file == f && s.phase[t].found == Some(lease)
    requires s.phase[t].req == UnlockState(lease.lockId)
    ensures Run(s, [Truncate(t, []), Write(t), Finish(t)], true) == Some(r)
    ensures r == s.(record := s.record[f := Empty], granted := s.granted - {(f, lease)},
      phase := s.phase[t := Leaving(f, Unlocked, Nothing)])
  {
    var s1 := At(s, t, Truncated(f, None)).(record := s.record[f := Empty], granted := s.granted - {(f, lease)});
    var s2 := At(s1, t, Flushed(f, None));
    r := At(s2, t, Leaving(f, Unlocked, Nothing));
    assert r.phase == s.phase[t := Leaving(f, Unlocked, Nothing)];
    RunPair(s1, Write(t), s2, Finish(t), r, true);
    assert [Truncate(t, []), Write(t), Finish(t)] == [Truncate(t, [])] + [Write(t), Finish(t)];
    RunCons(s, Truncate(t, []), [Write(t), Finish(t)], true);
  }

  lemma {:induction false} LeftAfterUnlock(s: State, t: Tid, f: FileId, req: Request, lease: StateLock, s2: State)
    requires Unobstructed(s, t, f, true) && LeaseOf(s.record, f) == Some(lease)
    requires var e := Entered(s, t, f, req);
      s2 == e.(record := e.record[f := Empty], granted := e.granted - {(f, lease)},
        phase := e.phase[t := Leaving(f, Unlocked, Nothing)])
    ensures Left(s2, t) == AfterUnlock(s, f, lease) && RecordAt(s2, f) == Empty
  {
    assert s2.phase - {t} == s.phase;
    assert s2.threadMutex - {(t.proc, f)} == s.threadMutex;
    assert DropRecordLock(s2.recordLock, f, t.proc) == s.recordLock - {f};
  }

  // An unobstructed get_lock answers with what is recorded and changes nothing.
  lemma {:induction false} GetLockReports(s: State, t: Tid, f: FileId)
    requires Unobstructed(s, t, f, true)
    ensures Answers(s, t, f, RefusedCall(s, t, f, GetLock), Found(LeaseOf(s.record, f)), AfterRefusal(s, f))
  {
    RefusedCallRuns(s, t, f, GetLock);
  }

  // ------------------------------------------------------------------ what may go wrong

  // A thread that waits for the mutex can give up; a record being written can be cut short and its flush
  // fail, which leaves the rest of it to be flushed on closing; and that may mix it with what the file holds.
  lemma {:induction false} FailuresCanHappen(s: State, t: Tid)
    requires t in s.phase
    ensures s.phase[t].Waiting? ==> Apply(s, MutexTimeout(t), true) == Some(s.(phase := s.phase - {t}))
    ensures s.phase[t].Buffered? ==>
      (var r := Apply(s, TearWrite(t), true);
       r.Some? && RecordAt(r.value, s.phase[t].file) == Garbled &&
       Apply(r.value, FlushFails(t), true) ==
         Some(At(r.value, t, Leaving(s.phase[t].file, Failed, Rest(s.phase[t].lock)))))
    ensures s.phase[t].Buffered? && !s.phase[t].torn ==>
      Apply(s, FlushFails(t), true) == Some(At(s, t, Leaving(s.phase[t].file, Failed, Whole(s.phase[t].lock))))
    ensures s.phase[t].Closing? && s.phase[t].buffer.Whole? ==>
      Apply(s, CloseFile(t, Lease(s.phase[t].buffer.lock)), true).Some? &&
      Apply(s, CloseFile(t, Garbled), true).Some?
    ensures s.phase[t].Closing? && s.phase[t].buffer.Rest? ==>
      forall left :: Apply(s, CloseFile(t, left), true).Some?
  {
  }

  // ------------------------------------------------------------------ a lapsed lease is reclaimable

  // The rest of a call that goes wrong from here on, its last flush included.
  function Abandon(s: State, t: Tid): seq<Action>
    requires t in s.phase && HoldsMutex(s.phase[t])
  {
    var found := RecordAt(s, s.phase[t].file);
    match s.phase[t]
    case InMutex(_, _, _) => [OpenFails(t), ReleaseMutex(t)]
    case Opened(_, _, _) => [LockFileFails(t)] + [CloseFile(t, found), ReleaseMutex(t)]
    case Buffered(_, _, _) => [FlushFails(t)] + Leave(t, found)
    case Leaving(_, _, _) => Leave(t, found)
    case Closing(_, _, _) => [CloseFile(t, found), ReleaseMutex(t)]
    case Closed(_, _) => [ReleaseMutex(t)]
    case _ => [SectionFails(t)] + Leave(t, found)
  }

  lemma {:induction false} AbandonRuns(s: State, t: Tid)
    requires LockInv(s) && t in s.phase && HoldsMutex(s.phase[t])
    ensures Run(s, Abandon(s, t), true) == Some(Left(s, t)) && Crashless(Abandon(s, t)) && LockInv(Left(s, t))
  {
    if Inside(s.phase[t]) {
      AbandonInside(s, t);
    } else {
      NotItsRecordLock(s, t);
      AbandonOutside(s, t);
    }
    AbandonCrashless(s, t);
    RunLockInv(s, Abandon(s, t));
  }

  lemma {:induction false} AbandonCrashless(s: State, t: Tid)
    requires t in s.phase && HoldsMutex(s.phase[t])
    ensures Crashless(Abandon(s, t))
  {
  }

  lemma {:induction false} NotItsRecordLock(s: State, t: Tid)
    requires LockInv(s) && t in s.phase && HoldsMutex(s.phase[t]) && !Inside(s.phase[t])
    ensures DropRecordLock(s.recordLock, s.phase[t].file, t.proc) == s.recordLock
  {
    forall u | InsideOf(s, s.phase[t].file, u) ensures u.proc != t.proc { OneMutexHolder(s, t, u); }
  }

  lemma OneMutexHolder(s: State, t: Tid, u: Tid)
    requires MutexInv(s) && t in s.phase && u in s.phase && s.phase[t].file == s.phase[u].file
    requires HoldsMutex(s.phase[t]) && HoldsMutex(s.phase[u])
    ensures t.proc == u.proc <==> t == u
  {
  }

  lemma {:induction false} AbandonInside(s: State, t: Tid)
    requires t in s.phase && Inside(s.phase[t])
    ensures Run(s, Abandon(s, t), true) == Some(Left(s, t))
  {
    var p := s.phase[t];
    if p.Leaving? {
      LeaveRuns(s, t);
    } else {
      var b := if !p.Buffered? then Nothing else if p.torn then Rest(p.lock) else Whole(p.lock);
      var a := if p.Buffered? then FlushFails(t) else SectionFails(t);
      var s1 := At(s, t, Leaving(p.file, Failed, b));
      RunOne(s, a, s1, true);
      LeaveRuns(s1, t);
      assert s1.phase - {t} == s.phase - {t};
      RunThen(s, [a], s1, Leave(t, RecordAt(s, p.file)), Left(s, t), true);
    }
  }

  lemma {:induction false} AbandonOutside(s: State, t: Tid)
    requires t in s.phase && HoldsMutex(s.phase[t]) && !Inside(s.phase[t])
    requires DropRecordLock(s.recordLock, s.phase[t].file, t.proc) == s.recordLock
    ensures Run(s, Abandon(s, t), true) == Some(Left(s, t))
  {
    var p := s.phase[t];
    match p
    case InMutex(f, _, _) =>
      var s1 := At(s, t, Closed(f, Failed));
      assert s1.phase - {t} == s.phase - {t};
      RunPair(s, OpenFails(t), s1, ReleaseMutex(t), Left(s, t), true);
    case Opened(f, _, _) =>
      var s1 := At(s, t, Closing(f, Failed, Nothing));
      RunOne(s, LockFileFails(t), s1, true);
      ClosingRuns(s1, t);
      assert s1.phase - {t} == s.phase - {t};
      RunThen(s, [LockFileFails(t)], s1, [CloseFile(t, RecordAt(s, f)), ReleaseMutex(t)], Left(s, t), true);
    case Closing(_, _, _) => ClosingRuns(s, t);
    case Closed(_, _) => RunOne(s, ReleaseMutex(t), Left(s, t), true);
  }

  ghost predicate Crashless(actions: seq<Action>) {
    forall i :: 0 <= i < |actions| ==> !actions[i].Crash?
  }

  // Whoever is inside leaves.
  lemma {:induction false} SectionEnds(s: State, f: FileId) returns (actions: seq<Action>, r: State)
    requires LockInv(s)
    ensures Crashless(actions) && Run(s, actions, true) == Some(r) && LockInv(r) && f !in r.recordLock
    ensures r.clock == s.clock && r.record == s.record && r.usedIds == s.usedIds && r.phase.Keys <= s.phase.Keys
    ensures forall k :: k in r.threadMutex ==> k in s.threadMutex
  {
    if f in s.recordLock {
      var u :| InsideOf(s, f, u);
      AbandonRuns(s, u);
      actions, r := Abandon(s, u), Left(s, u);
    } else {
      actions, r := [], s;
    }
  }

  // Whoever of the process is in a call on the file ends it.
  lemma {:induction false} CallEnds(s: State, f: FileId, proc: nat) returns (actions: seq<Action>, r: State)
    requires LockInv(s) && f !in s.recordLock
    ensures Crashless(actions) && Run(s, actions, true) == Some(r) && f !in r.recordLock && (proc, f) !in r.threadMutex
    ensures r.clock == s.clock && r.record == s.record && r.usedIds == s.usedIds && r.phase.Keys <= s.phase.Keys
  {
    if (proc, f) in s.threadMutex {
      var u := s.threadMutex[(proc, f)];
      AbandonRuns(s, u);
      actions, r := Abandon(s, u), Left(s, u);
    } else {
      actions, r := [], s;
    }
  }

  lemma {:induction false} CrashlessTogether(a: seq<Action>, b: seq<Action>)
    ensures Crashless(a + b) <==> Crashless(a) && Crashless(b)
  {
    if Crashless(a + b) {
      forall i | 0 <= i < |a| ensures !a[i].Crash? { assert (a + b)[i] == a[i]; }
      forall i | 0 <= i < |b| ensures !b[i].Crash? { assert (a + b)[|a| + i] == b[i]; }
    }
  }

  // Both obstacles gone, whoever they were.
  lemma {:induction false} WayCleared(s: State, f: FileId, t: Tid) returns (actions: seq<Action>, r: State)
    requires LockInv(s) && t !in s.phase
    ensures Crashless(actions) && Run(s, actions, true) == Some(r) && Unobstructed(r, t, f, true)
    ensures r.clock == s.clock && r.record == s.record && r.usedIds == s.usedIds
  {
    var a, s1 := SectionEnds(s, f);
    var b, s2 := CallEnds(s1, f, t.proc);
    RunThen(s, a, s1, b, s2, true);
    CrashlessTogether(a, b);
    actions, r := a + b, s2;
  }

  // A lock_state of t that succeeds, without a crash, no earlier than the given time.
  ghost predicate TakesOver(s: State, actions: seq<Action>, r: State, t: Tid, f: FileId, from: real, req: Request,
                            id: Text)
    requires req.LockState?
  {
    Crashless(actions) && Run(s, actions, true) == Some(r) && r.clock == (if s.clock < from then from else s.clock) &&
    LeaseOf(r.record, f) == Some(Lock(r, req, id)) && (f, Lock(r, req, id)) in r.granted
  }

  // From every state the protocol can reach, failed flushes and crashes behind it included, an idle
  // thread of any process can take over a lease with an expiry once the clock passes it, and nobody has
  // to die for that: neither a mutex nor a record lock is ever leaked.
  lemma {:induction false} LapsedLeaseIsReclaimed(s: State, t: Tid, f: FileId, lease: StateLock, req: Request, id: Text)
    requires Reachable(s) && LeaseOf(s.record, f) == Some(lease) && lease.expiresAt > 0.0
    requires t !in s.phase && req.LockState? && id !in s.usedIds
    ensures exists actions, r :: TakesOver(s, actions, r, t, f, lease.expiresAt, req, id)
  {
    var d := if s.clock < lease.expiresAt then lease.expiresAt - s.clock else 0.0;
    var s1 := s.(clock := s.clock + d);
    ReachableLockInv(s);
    StepLockInv(s, Tick(d), s1);
    RunOne(s, Tick(d), s1, true);
    var clearing, s2 := WayCleared(s1, f, t);
    FreeIsGranted(s2, t, f, req, id);
    var taking, r := GrantedCall(s2, t, f, req, id), AfterGrant(s2, t, f, Lock(s2, req, id));
    RunThen(s1, clearing, s2, taking, r, true);
    RunThen(s, [Tick(d)], s1, clearing + taking, r, true);
    CrashlessTogether(clearing, taking);
    CrashlessTogether([Tick(d)], clearing + taking);
    GrantIsCrashless(s2, t, f, req, id);
    assert TakesOver(s, [Tick(d)] + (clearing + taking), r, t, f, lease.expiresAt, req, id);
  }

  lemma {:induction false} GrantIsCrashless(s: State, t: Tid, f: FileId, req: Request, id: Text)
    requires req.LockState?
    ensures Crashless(GrantedCall(s, t, f, req, id))
  {
  }

  // ------------------------------------------------------------------ and calls under way may finish first

  predicate Orderly(a: Action) {
    !a.Crash? && !a.MutexTimeout? && !a.OpenFails? && !a.LockFileFails? && !a.SectionFails? && !a.FlushFails?
  }

  ghost predicate AllOrderly(actions: seq<Action>) {
    forall i :: 0 <= i < |actions| ==> Orderly(actions[i])
  }

  // What a thread past its mutex does next when nothing goes wrong.
  function NextStep(s: State, t: Tid, id: Text): Action
    requires t in s.phase && HoldsMutex(s.phase[t])
  {
    match s.phase[t]
    case InMutex(_, _, _) => OpenFile(t)
    case Opened(_, _, _) => LockFile(t)
    case Locked(_, _, _) => ReadLease(t)
    case Checked(_, req, now, found) => if Proceeds(req, now, found) then Truncate(t, id) else Refuse(t)
    case Truncated(_, pending) => if pending.Some? then FillBuffer(t) else Write(t)
    case Buffered(_, _, _) => Write(t)
    case Flushed(_, _) => Finish(t)
    case Leaving(_, _, _) => UnlockFile(t)
    case Closing(f, _, _) => CloseFile(t, RecordAt(s, f))
    case Closed(_, _) => ReleaseMutex(t)
  }

  function StepsLeft(p: Phase): nat {
    match p
    case Waiting(_, _, _) => 11
    case InMutex(_, _, _) => 10
    case Opened(_, _, _) => 9
    case Locked(_, _, _) => 8
    case Checked(_, _, _, _) => 7
    case Truncated(_, _) => 6
    case Buffered(_, _, _) => 5
    case Flushed(_, _) => 4
    case Leaving(_, _, _) => 3
    case Closing(_, _, _) => 2
    case Closed(_, _) => 1
  }

  // f still records what it did, or nothing, or a lease somebody was granted.
  ghost predicate Fair(s: State, f: FileId, found: Record) {
    RecordAt(s, f) == found || !RecordAt(s, f).Lease? || (f, RecordAt(s, f).lock) in s.granted
  }

  // Nobody else is inside.
  ghost predicate InTheClear(s: State, t: Tid) {
    t in s.phase && HoldsMutex(s.phase[t]) &&
    (s.phase[t].file in s.recordLock ==> s.recordLock[s.phase[t].file] == t.proc)
  }

  lemma {:induction false} NextStepEnabled(s: State, t: Tid, id: Text)
    requires InTheClear(s, t) && id !in s.usedIds
    ensures Orderly(NextStep(s, t, id)) && Apply(s, NextStep(s, t, id), true).Some?
  {
  }

  lemma {:induction false} NextStepPhase(s: State, t: Tid, id: Text, r: State)
    requires InTheClear(s, t) && Apply(s, NextStep(s, t, id), true) == Some(r)
    ensures r.clock == s.clock
    ensures s.phase[t].Closed? ==> r.phase == s.phase - {t}
    ensures !s.phase[t].Closed? ==> t in r.phase && r.phase == s.phase[t := r.phase[t]]
    ensures !s.phase[t].Closed? ==> HoldsMutex(r.phase[t]) && r.phase[t].file == s.phase[t].file
    ensures !s.phase[t].Closed? ==> StepsLeft(r.phase[t]) < StepsLeft(s.phase[t])
  {
    PhaseFrame(s, NextStep(s, t, id), r);
    NextStepOwn(s, t, id, r);
    if s.phase[t].Closed? {
      assert r.phase == s.phase - {t};
    } else {
      assert r.phase == s.phase[t := r.phase[t]];
    }
  }

  lemma {:induction false} NextStepOwn(s: State, t: Tid, id: Text, r: State)
    requires InTheClear(s, t) && Apply(s, NextStep(s, t, id), true) == Some(r)
    ensures t in r.phase <==> !s.phase[t].Closed?
    ensures t in r.phase ==> StepsLeft(r.phase[t]) < StepsLeft(s.phase[t])
  {
    if StepsLeft(s.phase[t]) > 6 {
      NextStepIn(s, t, id, r);
    } else if StepsLeft(s.phase[t]) > 3 {
      NextStepWriting(s, t, id, r);
    } else {
      NextStepOut(s, t, id, r);
    }
  }

  lemma {:induction false} NextStepIn(s: State, t: Tid, id: Text, r: State)
    requires InTheClear(s, t) && Apply(s, NextStep(s, t, id), true) == Some(r) && StepsLeft(s.phase[t]) > 6
    ensures t in r.phase && StepsLeft(r.phase[t]) < StepsLeft(s.phase[t])
  {
  }

  lemma {:induction false} NextStepWriting(s: State, t: Tid, id: Text, r: State)
    requires InTheClear(s, t) && Apply(s, NextStep(s, t, id), true) == Some(r) && 3 < StepsLeft(s.phase[t]) <= 6
    ensures t in r.phase && StepsLeft(r.phase[t]) < StepsLeft(s.phase[t])
  {
  }

  lemma {:induction false} NextStepOut(s: State, t: Tid, id: Text, r: State)
    requires InTheClear(s, t) && Apply(s, NextStep(s, t, id), true) == Some(r) && StepsLeft(s.phase[t]) <= 3
    ensures t in r.phase <==> !s.phase[t].Closed?
    ensures t in r.phase ==> StepsLeft(r.phase[t]) < StepsLeft(s.phase[t])
  {
  }

  lemma {:induction false} NextStepLock(s: State, t: Tid, id: Text, r: State)
    requires InTheClear(s, t) && Apply(s, NextStep(s, t, id), true) == Some(r)
    ensures s.phase[t].file in r.recordLock ==> r.recordLock[s.phase[t].file] == t.proc
  {
  }

  lemma {:induction false} NextStepRecord(s: State, t: Tid, id: Text, r: State, found: Record)
    requires InTheClear(s, t) && Apply(s, NextStep(s, t, id), true) == Some(r) && Fair(s, s.phase[t].file, found)
    ensures Fair(r, s.phase[t].file, found)
  {
  }

  // The call has ended, nobody else moved.
  ghost predicate Ended(s: State, r: State, t: Tid, f: FileId, found: Record) {
    LockInv(r) && r.phase == s.phase - {t} && r.clock == s.clock && Fair(r, f, found) &&
    (f in r.recordLock ==> r.recordLock[f] == t.proc)
  }

  ghost predicate OneStepOn(s: State, r: State, t: Tid, found: Record)
    requires InTheClear(s, t)
  {
    if s.phase[t].Closed? then Ended(s, r, t, s.phase[t].file, found)
    else
      LockInv(r) && InTheClear(r, t) && r.phase == s.phase[t := r.phase[t]] && r.clock == s.clock &&
      r.phase[t].file == s.phase[t].file && Fair(r, s.phase[t].file, found) &&
      StepsLeft(r.phase[t]) < StepsLeft(s.phase[t])
  }

  lemma {:induction false} NextStepTaken(s: State, t: Tid, id: Text, found: Record) returns (r: State)
    requires LockInv(s) && InTheClear(s, t) && Fair(s, s.phase[t].file, found) && id !in s.usedIds
    ensures Orderly(NextStep(s, t, id)) && Run(s, [NextStep(s, t, id)], true) == Some(r) && OneStepOn(s, r, t, found)
  {
    NextStepEnabled(s, t, id);
    r := Apply(s, NextStep(s, t, id), true).value;
    RunOne(s, NextStep(s, t, id), r, true);
    NextStepPhase(s, t, id, r);
    NextStepLock(s, t, id, r);
    NextStepRecord(s, t, id, r, found);
    StepLockInv(s, NextStep(s, t, id), r);
  }

  lemma {:induction false} EndedSince(s: State, s1: State, r: State, t: Tid, found: Record)
    requires InTheClear(s, t) && !s.phase[t].Closed? && OneStepOn(s, s1, t, found)
    requires Ended(s1, r, t, s1.phase[t].file, found)
    ensures Ended(s, r, t, s.phase[t].file, found)
  {
    assert s1.phase - {t} == s.phase - {t};
  }

  // A call that nobody stands in the way of ends, without any step of it failing.
  lemma {:induction false} Completes(s: State, t: Tid, found: Record) returns (actions: seq<Action>, r: State)
    requires LockInv(s) && InTheClear(s, t) && Fair(s, s.phase[t].file, found)
    ensures AllOrderly(actions) && Run(s, actions, true) == Some(r) && Ended(s, r, t, s.phase[t].file, found)
    decreases StepsLeft(s.phase[t])
  {
    var id := NewId(s.usedIds);
    var s1 := NextStepTaken(s, t, id, found);
    actions := [NextStep(s, t, id)];
    if s.phase[t].Closed? {
      r := s1;
    } else {
      var rest;
      rest, r := Completes(s1, t, found);
      EndedSince(s, s1, r, t, found);
      OneThenRest(s, NextStep(s, t, id), s1, rest, r);
      actions := actions + rest;
    }
  }

  lemma {:induction false} OneThenRest(s: State, a: Action, s1: State, rest: seq<Action>, r: State)
    requires Orderly(a) && Run(s, [a], true) == Some(s1) && AllOrderly(rest) && Run(s1, rest, true) == Some(r)
    ensures AllOrderly([a] + rest) && Run(s, [a] + rest, true) == Some(r)
  {
    RunThen(s, [a], s1, rest, r, true);
    OrderlyTogether([a], rest);
  }

  // The call inside, and a call of the same process, finish as they would...
  lemma {:induction false} CallsFinish(s: State, f: FileId, proc: nat) returns (actions: seq<Action>, r: State)
    requires LockInv(s)
    ensures AllOrderly(actions) && Run(s, actions, true) == Some(r) && LockInv(r) && Fair(r, f, RecordAt(s, f))
    ensures f !in r.recordLock && (proc, f) !in r.threadMutex && r.clock == s.clock && r.phase.Keys <= s.phase.Keys
  {
    var found := RecordAt(s, f);
    var first, s1 := InsideFinishes(s, f, found);
    if (proc, f) in s1.threadMutex {
      var u := s1.threadMutex[(proc, f)];
      assert HeldBy(s1, (proc, f));
      var second;
      second, r := Completes(s1, u, found);
      actions := first + second;
      RunThen(s, first, s1, second, r, true);
      NoneLeft(s1, r, u, f, found);
    } else {
      actions, r := first, s1;
    }
  }

  lemma {:induction false} InsideFinishes(s: State, f: FileId, found: Record) returns (actions: seq<Action>, r: State)
    requires LockInv(s) && Fair(s, f, found)
    ensures AllOrderly(actions) && Run(s, actions, true) == Some(r) && LockInv(r) && Fair(r, f, found)
    ensures f !in r.recordLock && r.clock == s.clock && r.phase.Keys <= s.phase.Keys
  {
    if f in s.recordLock {
      var u :| InsideOf(s, f, u);
      actions, r := Completes(s, u, found);
      NoneLeft(s, r, u, f, found);
    } else {
      actions, r := [], s;
    }
  }

  // ...leaving neither lock behind.
  lemma {:induction false} NoneLeft(s: State, r: State, u: Tid, f: FileId, found: Record)
    requires LockInv(s) && u in s.phase && HoldsMutex(s.phase[u]) && s.phase[u].file == f && Ended(s, r, u, f, found)
    ensures f !in r.recordLock && (u.proc, f) !in r.threadMutex
  {
    forall v ensures !InsideOf(r, f, v) {
      if InsideOf(r, f, v) { OneMutexHolder(s, u, v); }
    }
    if (u.proc, f) in r.threadMutex {
      var v := r.threadMutex[(u.proc, f)];
      assert HeldBy(r, (u.proc, f));
      OneMutexHolder(s, u, v);
    }
  }

  // A live lease stands on the file, the caller's or that of a call that got there first.
  ghost predicate TakenInOrder(s: State, actions: seq<Action>, r: State, f: FileId, from: real) {
    AllOrderly(actions) && Run(s, actions, true) == Some(r) && r.clock == (if s.clock < from then from else s.clock) &&
    exists g :: LeaseOf(r.record, f) == Some(g) && LiveGrant(r, f, g)
  }

  // Without anything failing, too, a lapsed lease gives way: the calls under way finish, and then the file
  // has a live lease, of one of them or of the thread that asks.
  lemma {:induction false} LapsedLeaseGivesWay(s: State, t: Tid, f: FileId, lease: StateLock, req: Request)
    requires Reachable(s) && LeaseOf(s.record, f) == Some(lease) && lease.expiresAt > 0.0
    requires t !in s.phase && req.LockState?
    ensures exists actions, r :: TakenInOrder(s, actions, r, f, lease.expiresAt)
  {
    var d := if s.clock < lease.expiresAt then lease.expiresAt - s.clock else 0.0;
    var s1 := s.(clock := s.clock + d);
    ReachableLockInv(s);
    StepLockInv(s, Tick(d), s1);
    RunOne(s, Tick(d), s1, true);
    var finishing, s2 := CallsFinish(s1, f, t.proc);
    var asking, r := AsksLast(s2, t, f, req);
    RunThen(s1, finishing, s2, asking, r, true);
    RunThen(s, [Tick(d)], s1, finishing + asking, r, true);
    OrderlyTogether(finishing, asking);
    OrderlyTogether([Tick(d)], finishing + asking);
    assert TakenInOrder(s, [Tick(d)] + (finishing + asking), r, f, lease.expiresAt);
  }

  lemma {:induction false} OrderlyTogether(a: seq<Action>, b: seq<Action>)
    requires AllOrderly(a) && AllOrderly(b)
    ensures AllOrderly(a + b)
  {
  }

  // The thread asks where nobody is ahead of it.
  lemma {:induction false} AsksLast(s: State, t: Tid, f: FileId, req: Request) returns (actions: seq<Action>, r: State)
    requires Unobstructed(s, t, f, true) && req.LockState?
    requires !Free(s, f) ==> LiveGrant(s, f, LeaseOf(s.record, f).value)
    ensures AllOrderly(actions) && Run(s, actions, true) == Some(r) && r.clock == s.clock
    ensures exists g :: LeaseOf(r.record, f) == Some(g) && LiveGrant(r, f, g)
  {
    if Free(s, f) {
      var id := NewId(s.usedIds);
      FreeIsGranted(s, t, f, req, id);
      actions, r := GrantedCall(s, t, f, req, id), AfterGrant(s, t, f, Lock(s, req, id));
      assert LeaseOf(r.record, f) == Some(Lock(s, req, id)) && LiveGrant(r, f, Lock(s, req, id));
    } else {
      actions, r := [], s;
      assert LeaseOf(r.record, f) == Some(LeaseOf(s.record, f).value);
    }
  }

  // ------------------------------------------------------------------ what a failed flush leads to

  // On its way out with bytes still in its file object's buffer.
  predicate Unflushed(s: State, t: Tid) {
    t in s.phase && (s.phase[t].Leaving? || s.phase[t].Closing?) && !s.phase[t].buffer.Nothing?
  }

  ghost predicate NothingUnflushed(s: State) {
    forall t :: !Unflushed(s, t)
  }

  ghost predicate NoFailedFlush(actions: seq<Action>) {
    forall i :: 0 <= i < |actions| ==> !actions[i].FlushFails?
  }

  lemma {:induction false} FlushedStep(s: State, a: Action, s': State)
    requires NothingUnflushed(s) && !a.FlushFails? && Apply(s, a, true) == Some(s')
    ensures NothingUnflushed(s') && !LateWrite(s, a)
  {
    assert a.CloseFile? ==> !Unflushed(s, a.t);
    forall t ensures !Unflushed(s', t) { FlushedStepOf(s, a, s', t); }
  }

  lemma {:induction false} FlushedStepOf(s: State, a: Action, s': State, t: Tid)
    requires !Unflushed(s, t) && !a.FlushFails? && Apply(s, a, true) == Some(s')
    ensures !Unflushed(s', t)
  {
    if IsThreadStep(a) { StepFrame(s, a, s'); }
  }

  // A late write needs a failed flush before it.
  lemma {:induction false} FlushedRunsAreClean(s: State, actions: seq<Action>)
    requires NothingUnflushed(s) && NoFailedFlush(actions)
    ensures NoLateWrite(s, actions) && (Run(s, actions, true).Some? ==> NothingUnflushed(Run(s, actions, true).value))
    decreases |actions|
  {
    if actions != [] {
      var next := Apply(s, actions[0], true);
      if next.Some? {
        FlushedStep(s, actions[0], next.value);
        FlushedRunsAreClean(next.value, actions[1..]);
      }
    }
  }

  // No continuation, crashes included, in which every flush succeeds has two live leases on one file.
  ghost predicate Sound(s: State) {
    forall actions, s', f, g, g' ::
      NoFailedFlush(actions) && Run(s, actions, true) == Some(s') && LiveGrant(s', f, g) && LiveGrant(s', f, g') ==>
        g == g'
  }

  lemma {:induction false} FlushlessTogether(a: seq<Action>, b: seq<Action>)
    requires NoFailedFlush(a) && NoFailedFlush(b)
    ensures NoFailedFlush(a + b)
  {
  }

  lemma {:induction false} ProcessesBelow(ts: set<Tid>) returns (n: nat)
    ensures forall t :: t in ts ==> t.proc < n
    decreases |ts|
  {
    n := 0;
    if ts != {} {
      var t :| t in ts;
      n := ProcessesBelow(ts - {t});
      n := if t.proc < n then n else t.proc + 1;
    }
  }

  // There is always room for one more process...
  lemma {:induction false} NewProcess(s: State, f: FileId) returns (u: Tid)
    requires MutexHeld(s) && f !in s.recordLock
    ensures Unobstructed(s, u, f, true) && forall t :: t in s.phase ==> t.proc != u.proc
  {
    var n := ProcessesBelow(s.phase.Keys);
    u := Tid(n, 0);
    forall k | k in s.threadMutex ensures k.0 != u.proc { assert HeldBy(s, k); }
  }

  lemma {:induction false} TextsBelow(ids: set<Text>) returns (n: nat)
    ensures forall id :: id in ids ==> |id| < n
    decreases |ids|
  {
    n := 0;
    if ids != {} {
      var id :| id in ids;
      n := TextsBelow(ids - {id});
      n := if |id| < n then n else |id| + 1;
    }
  }

  // ...and one more lease id.
  lemma {:induction false} NewId(ids: set<Text>) returns (id: Text)
    ensures id !in ids
  {
    var n := TextsBelow(ids);
    id := seq(n, _ => 0);
  }

  const NO_EXPIRY: Request := LockState([], [], [], [], 0.0)

  // A lease that never expires is live from its grant on.
  lemma {:induction false} GrantIsLive(s: State, u: Tid, f: FileId, id: Text)
    requires Unobstructed(s, u, f, true) && id !in s.usedIds && Free(s, f)
    ensures var g := Lock(s, NO_EXPIRY, id); var r := AfterGrant(s, u, f, g);
      Run(s, GrantedCall(s, u, f, NO_EXPIRY, id), true) == Some(r) &&
        NoFailedFlush(GrantedCall(s, u, f, NO_EXPIRY, id)) &&
      LiveGrant(r, f, g) && r.phase == s.phase && r.threadMutex == s.threadMutex && f !in r.recordLock
  {
    FreeIsGranted(s, u, f, NO_EXPIRY, id);
  }

  // The file's record lock is free, if need be because the process that had it died.
  lemma {:induction false} LockFileFreed(s: State, t: Tid) returns (actions: seq<Action>, r: State)
    requires Inv(s) && t in s.phase && s.phase[t].Closing?
    ensures NoFailedFlush(actions) && Run(s, actions, true) == Some(r) && Inv(r)
    ensures s.phase[t].file !in r.recordLock && t in r.phase && r.phase[t] == s.phase[t]
  {
    var f := s.phase[t].file;
    if f in s.recordLock {
      var u :| InsideOf(s, f, u);
      OneMutexHolder(s, t, u);
      actions := [Crash(u.proc)];
      r := ProcessDies(s, u.proc);
      CrashSpares(s, u.proc, t);
    } else {
      actions, r := [], s;
    }
  }

  lemma {:induction false} ProcessDies(s: State, proc: nat) returns (r: State)
    requires Inv(s)
    ensures Run(s, [Crash(proc)], true) == Some(r) && Apply(s, Crash(proc), true) == Some(r) && Inv(r)
  {
    r := Apply(s, Crash(proc), true).value;
    RunOne(s, Crash(proc), r, true);
    StepInv(s, Crash(proc), r);
  }

  lemma {:induction false} CrashSpares(s: State, proc: nat, t: Tid)
    requires t in s.phase && t.proc != proc
    ensures var r := Apply(s, Crash(proc), true).value;
      t in r.phase && r.phase[t] == s.phase[t] &&
      forall f :: f in s.recordLock && s.recordLock[f] == proc ==> f !in r.recordLock
  {
  }

  // Someone has a live lease, if need be because somebody new asked for one.
  lemma {:induction false} SomeoneHolds(s: State, u: Tid, f: FileId)
    returns (actions: seq<Action>, r: State, g: StateLock)
    requires Inv(s) && Unobstructed(s, u, f, true) && f !in s.recordLock
    ensures NoFailedFlush(actions) && Run(s, actions, true) == Some(r) && LiveGrant(r, f, g)
    ensures RecordAt(r, f) == Lease(g)
    ensures r.phase == s.phase && r.threadMutex == s.threadMutex && f !in r.recordLock
    ensures IdsInv(r)
  {
    if Free(s, f) {
      var id := NewId(s.usedIds);
      GrantIsLive(s, u, f, id);
      g := Lock(s, NO_EXPIRY, id);
      actions, r := GrantedCall(s, u, f, NO_EXPIRY, id), AfterGrant(s, u, f, g);
      GrantKeepsIds(s, u, f, g);
    } else {
      g := LeaseOf(s.record, f).value;
      actions, r := [], s;
    }
  }

  lemma {:induction false} GrantKeepsIds(s: State, u: Tid, f: FileId, g: StateLock)
    requires IdsInv(s) && g.lockId !in s.usedIds
    ensures IdsInv(AfterGrant(s, u, f, g))
  {
    var r := AfterGrant(s, u, f, g);
    assert forall t, l :: Pending(r, t, l) ==> Pending(s, t, l);
  }

  // The late flush mangles the live lease, and the next caller is granted another.
  lemma {:induction false} LateFlushMangles(s: State, t: Tid, u: Tid, g: StateLock)
    returns (actions: seq<Action>, r: State, g': StateLock)
    requires t in s.phase && s.phase[t].Closing? && Unflushed(s, t) && LiveGrant(s, s.phase[t].file, g) && IdsInv(s)
    requires RecordAt(s, s.phase[t].file) == Lease(g)
    requires Unobstructed(s, u, s.phase[t].file, true) && s.phase[t].file !in s.recordLock && u != t
    ensures NoFailedFlush(actions) && Run(s, actions, true) == Some(r)
    ensures LiveGrant(r, s.phase[t].file, g) && LiveGrant(r, s.phase[t].file, g') && g != g'
  {
    var f, o := s.phase[t].file, s.phase[t].outcome;
    var s1 := At(s, t, Closed(f, o)).(record := s.record[f := Garbled]);
    assert DropRecordLock(s.recordLock, f, t.proc) == s.recordLock;
    RunOne(s, CloseFile(t, Garbled), s1, true);
    var id := NewId(s1.usedIds);
    GrantIsLive(s1, u, f, id);
    g' := Lock(s1, NO_EXPIRY, id);
    var taking := GrantedCall(s1, u, f, NO_EXPIRY, id);
    actions, r := [CloseFile(t, Garbled)] + taking, AfterGrant(s1, u, f, g');
    RunThen(s, [CloseFile(t, Garbled)], s1, taking, r, true);
    FlushlessTogether([CloseFile(t, Garbled)], taking);
  }

  lemma {:induction false} UnflushedIsUnsound(s: State, t: Tid)
    returns (actions: seq<Action>, r: State, g: StateLock, g': StateLock)
    requires Inv(s) && Unflushed(s, t)
    ensures NoFailedFlush(actions) && Run(s, actions, true) == Some(r)
    ensures LiveGrant(r, s.phase[t].file, g) && LiveGrant(r, s.phase[t].file, g') && g != g'
  {
    if s.phase[t].Leaving? {
      var s1 := UnlockedInv(s, t);
      var rest;
      rest, r, g, g' := ClosingIsUnsound(s1, t);
      actions := [UnlockFile(t)] + rest;
      RunThen(s, [UnlockFile(t)], s1, rest, r, true);
      FlushlessTogether([UnlockFile(t)], rest);
    } else {
      actions, r, g, g' := ClosingIsUnsound(s, t);
    }
  }

  lemma {:induction false} UnlockedInv(s: State, t: Tid) returns (r: State)
    requires Inv(s) && Unflushed(s, t) && s.phase[t].Leaving?
    ensures Run(s, [UnlockFile(t)], true) == Some(r) && Inv(r)
    ensures Unflushed(r, t) && r.phase[t].Closing? && r.phase[t].file == s.phase[t].file
  {
    r := Apply(s, UnlockFile(t), true).value;
    StepInv(s, UnlockFile(t), r);
    RunOne(s, UnlockFile(t), r, true);
  }

  lemma {:induction false} ClosingIsUnsound(s: State, t: Tid)
    returns (actions: seq<Action>, r: State, g: StateLock, g': StateLock)
    requires Inv(s) && Unflushed(s, t) && s.phase[t].Closing?
    ensures NoFailedFlush(actions) && Run(s, actions, true) == Some(r)
    ensures LiveGrant(r, s.phase[t].file, g) && LiveGrant(r, s.phase[t].file, g') && g != g'
  {
    var f := s.phase[t].file;
    var freeing, s1 := LockFileFreed(s, t);
    var u := NewProcess(s1, f);
    var holding, s2;
    holding, s2, g := SomeoneHolds(s1, u, f);
    var mangling;
    mangling, r, g' := LateFlushMangles(s2, t, u, g);
    actions := freeing + (holding + mangling);
    RunThen(s1, holding, s2, mangling, r, true);
    RunThen(s, freeing, s1, holding + mangling, r, true);
    FlushlessTogether(holding, mangling);
    FlushlessTogether(freeing, holding + mangling);
  }

  // The exact condition: with every flush to come succeeding, two leases on one file can become live
  // together if and only if some thread is on its way out with a record it failed to flush.
  lemma {:induction false} SoundExactlyWhenFlushed(s: State)
    requires CleanlyReachable(s)
    ensures Sound(s) <==> NothingUnflushed(s)
  {
    CleanlyReachableInv(s);
    if NothingUnflushed(s) {
      forall actions, s', f, g, g' |
        NoFailedFlush(actions) && Run(s, actions, true) == Some(s') && LiveGrant(s', f, g) && LiveGrant(s', f, g')
        ensures g == g'
      {
        FlushedRunsAreClean(s, actions);
        RunInv(s, actions);
      }
    } else {
      var t :| Unflushed(s, t);
      var actions, r, g, g' := UnflushedIsUnsound(s, t);
      assert LiveGrant(r, s.phase[t].file, g) && LiveGrant(r, s.phase[t].file, g');
    }
  }

  // Runs in which every flush of a record succeeds are clean, so everything above holds of them.
  lemma {:induction false} FlushedRunsReachCleanly(clock: real, actions: seq<Action>, s: State)
    requires clock >= 0.0 && NoFailedFlush(actions) && Run(Init(clock), actions, true) == Some(s)
    ensures CleanlyReachable(s) && Sound(s)
  {
    FlushedRunsAreClean(Init(clock), actions);
    SoundExactlyWhenFlushed(s);
  }

  // One lock_state whose flush fails is enough, from the empty store on.
  lemma {:induction false} FailedFlushGrantsTwice(clock: real, f: FileId)
    requires clock >= 0.0
    ensures exists before: seq<Action>, after: seq<Action>, t: Tid, s: State, g: StateLock, g': StateLock ::
      NoFailedFlush(before) && NoFailedFlush(after) &&
        Run(Init(clock), before + [FlushFails(t)] + after, true) == Some(s) &&
      LiveGrant(s, f, g) && LiveGrant(s, f, g') && g != g'
  {
    var t := Tid(0, 0);
    var before, s1 := FirstFlushFails(clock, t, f);
    var after, s, g, g' := UnflushedIsUnsound(s1, t);
    RunThen(Init(clock), before + [FlushFails(t)], s1, after, s, true);
    assert LiveGrant(s, f, g) && LiveGrant(s, f, g');
  }

  lemma {:induction false} FirstFlushFails(clock: real, t: Tid, f: FileId) returns (before: seq<Action>, s: State)
    requires clock >= 0.0
    ensures NoFailedFlush(before) && Run(Init(clock), before + [FlushFails(t)], true) == Some(s)
    ensures Inv(s) && Unflushed(s, t) && s.phase[t].file == f
  {
    var s1;
    before, s1 := FirstCallBuffers(clock, t, f);
    s := At(s1, t, Leaving(f, Failed, if s1.phase[t].torn then Rest(s1.phase[t].lock) else Whole(s1.phase[t].lock)));
    RunOne(s1, FlushFails(t), s, true);
    StepInv(s1, FlushFails(t), s);
    RunThen(Init(clock), before, s1, [FlushFails(t)], s, true);
  }

  lemma {:induction false} FirstCallBuffers(clock: real, t: Tid, f: FileId) returns (actions: seq<Action>, s: State)
    requires clock >= 0.0
    ensures NoFailedFlush(actions) && Run(Init(clock), actions, true) == Some(s) && Inv(s)
    ensures t in s.phase && s.phase[t].Buffered? && s.phase[t].file == f
  {
    EnterRuns(Init(clock), t, f, NO_EXPIRY, true);
    var s1 := Entered(Init(clock), t, f, NO_EXPIRY);
    s := BufferRuns(s1, t, f, NO_EXPIRY, Lock(s1, NO_EXPIRY, []), true);
    actions := Enter(t, f, NO_EXPIRY) + [Truncate(t, []), FillBuffer(t)];
    RunThen(Init(clock), Enter(t, f, NO_EXPIRY), s1, [Truncate(t, []), FillBuffer(t)], s, true);
    FlushedRunKeepsInv(clock, actions);
  }

  lemma {:induction false} FlushedRunKeepsInv(clock: real, actions: seq<Action>)
    requires clock >= 0.0 && NoFailedFlush(actions)
    ensures Run(Init(clock), actions, true).Some? ==> Inv(Run(Init(clock), actions, true).value)
  {
    FlushedRunsAreClean(Init(clock), actions);
    RunInv(Init(clock), actions);
  }

  // ------------------------------------------------------------------ why the thread mutex is needed

  // Without the in-process mutex two threads of one process both enter, because the second record
  // lock of a process succeeds, and both are granted a live lease.
  lemma RecordLocksAloneAreNotEnough(clock: real, f: FileId)
    requires clock >= 0.0
    ensures exists actions: seq<Action>, s: State, g: StateLock, g': StateLock ::
      Run(Init(clock), actions, false) == Some(s) && g != g' &&
      (f, g) in s.granted && !g.IsExpired(s.clock) && (f, g') in s.granted && !g'.IsExpired(s.clock)
  {
    var t, u := Tid(0, 0), Tid(0, 1);
    var req := LockState([], [], [], [], 1.0);
    var g := NewLock([1], [], [], [], [], clock, 1.0);
    var g' := NewLock([2], [], [], [], [], clock, 1.0);
    var both := BothEnter(clock, f, t, u, req);
    var s := BothWrite(both, f, t, u, req, g, g');
    var acts := Enter(t, f, req) + Enter(u, f, req);
    RunThen(Init(clock), acts, both, Rewrite(t, [1]) + Rewrite(u, [2]), s, false);
    assert Run(Init(clock), acts + (Rewrite(t, [1]) + Rewrite(u, [2])), false) == Some(s);
  }

  lemma BothEnter(clock: real, f: FileId, t: Tid, u: Tid, req: Request) returns (both: State)
    requires t.proc == u.proc && t != u
    ensures Run(Init(clock), Enter(t, f, req) + Enter(u, f, req), false) == Some(both)
    ensures both.clock == clock && both.granted == {} && both.usedIds == {}
    ensures both.phase == map[t := Checked(f, req, clock, None), u := Checked(f, req, clock, None)]
  {
    var start := Init(clock);
    EnterRuns(start, t, f, req, false);
    var s1 := Entered(start, t, f, req);
    EnterRuns(s1, u, f, req, false);
    both := Entered(s1, u, f, req);
    RunThen(start, Enter(t, f, req), s1, Enter(u, f, req), both, false);
  }

  lemma BothWrite(s: State, f: FileId, t: Tid, u: Tid, req: Request, g: StateLock, g': StateLock) returns (r: State)
    requires t != u && req.LockState?
    requires s.phase == map[t := Checked(f, req, s.clock, None), u := Checked(f, req, s.clock, None)]
    requires s.granted == {} && s.usedIds == {}
    requires g == Lock(s, req, [1]) && g' == Lock(s, req, [2])
    ensures Run(s, Rewrite(t, [1]) + Rewrite(u, [2]), false) == Some(r)
    ensures r.clock == s.clock && r.granted == {(f, g), (f, g')}
  {
    var s1 := WriteRuns(s, t, f, req, g, false);
    r := WriteRuns(s1, u, f, req, g', false);
    RunThen(s, Rewrite(t, [1]), s1, Rewrite(u, [2]), r, false);
  }
}
