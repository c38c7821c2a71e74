// What a client of a state store may rely on, told by calls and answers alone, and that both backends
// in src/pyvider/state_stores/{memory,filesystem}.py keep to it.
module StoreHistory {
  import opened Options
  import opened Texts
  import opened StateLocks
  import opened StoreCalls
  import M = MemoryStore
  import F = FileStore
  import opened StoreEquivalence

  // The payload of the last write among the first n calls, unless deleted since.
  ghost function Stored(ops: seq<Op>, n: nat, t: Text, id: Text): Option<seq<Byte>>
    requires n <= |ops|
  {
    if n == 0 then None
    else
      match ops[n - 1]
      case Write(t', id', payload, _) => if (t', id') == (t, id) then Some(payload) else Stored(ops, n - 1, t, id)
      case Delete(t', id') => if (t', id') == (t, id) then None else Stored(ops, n - 1, t, id)
      case _ => Stored(ops, n - 1, t, id)
  }

  // The lease last granted among the first n calls, unless released since.
  ghost function Holder(ops: seq<Op>, answers: seq<Answer>, n: nat, t: Text, id: Text): Option<StateLock>
    requires n <= |ops| == |answers|
  {
    if n == 0 then None
    else if ops[n - 1].Lock? && (ops[n - 1].t, ops[n - 1].id) == (t, id) &&
      answers[n - 1].Acquired? then Some(answers[n - 1].lock)
    else if ops[n - 1].Unlock? && (ops[n - 1].t, ops[n - 1].id) == (t, id) && answers[n - 1] == Released(true) then None
    else Holder(ops, answers, n - 1, t, id)
  }

  // The answer to call i, given what was called and answered before.
  ghost predicate RightAnswer(ops: seq<Op>, answers: seq<Answer>, i: nat)
    requires i < |ops| == |answers|
  {
    match ops[i]
    case Read(t, id) => answers[i] == StateBytes(Stored(ops, i, t, id))
    case List(t) => answers[i].Ids? && forall id :: id in answers[i].ids <==> Stored(ops, i, t, id).Some?
    case Lock(t, id, operation, holder, ttl, now, lockId) =>
      var held := Holder(ops, answers, i, t, id);
      if held.Some? && !held.value.IsExpired(now) then answers[i] == Conflict(held.value)
      else answers[i] == Acquired(NewLock(lockId, t, id, operation, holder, now, ttl))
    case Unlock(t, id, lockId) =>
      var held := Holder(ops, answers, i, t, id);
      answers[i] == Released(held.Some? && held.value.lockId == lockId)
    case GetLock(t, id, now) =>
      var held := Holder(ops, answers, i, t, id);
      answers[i] == Current(if held.Some? && !held.value.IsExpired(now) then held else None)
    case _ => answers[i] == Silence
  }

  ghost predicate FollowsHistory(ops: seq<Op>, answers: seq<Answer>) {
    |answers| == |ops| && forall i :: 0 <= i < |ops| ==> RightAnswer(ops, answers, i)
  }

  function MemAt(m: M.Mem, ops: seq<Op>, n: nat): M.Mem
    requires n <= |ops|
  {
    if n == 0 then m else M.MemApply(MemAt(m, ops, n - 1), ops[n - 1]).0
  }

  lemma {:induction false} MemAtTail(m: M.Mem, ops: seq<Op>, n: nat)
    requires 0 < n <= |ops|
    ensures MemAt(m, ops, n) == MemAt(M.MemApply(m, ops[0]).0, ops[1..], n - 1)
    decreases n
  {
    if n > 1 { MemAtTail(m, ops, n - 1); }
  }

  lemma {:induction false} AnswerAt(m: M.Mem, ops: seq<Op>, i: nat)
    requires i < |ops|
    ensures |MemAnswers(m, ops)| == |ops| && MemAnswers(m, ops)[i] == M.MemApply(MemAt(m, ops, i), ops[i]).1
    decreases |ops|
  {
    var m' := M.MemApply(m, ops[0]).0;
    if i > 0 {
      AnswerAt(m', ops[1..], i - 1);
      MemAtTail(m, ops, i);
    } else if |ops| > 1 {
      AnswerAt(m', ops[1..], 0);
    }
  }

  // The dictionaries hold what the history says.
  lemma {:induction false} StateIsHistory(ops: seq<Op>, n: nat, t: Text, id: Text)
    requires n <= |ops|
    ensures var m := MemAt(M.Mem(map[], map[]), ops, n);
      Lookup(m.data, (t, id)) == Stored(ops, n, t, id) &&
      |MemAnswers(M.Mem(map[], map[]), ops)| == |ops| &&
      Lookup(m.locks, (t, id)) == Holder(ops, MemAnswers(M.Mem(map[], map[]), ops), n, t, id)
    decreases n
  {
    if ops != [] { AnswerAt(M.Mem(map[], map[]), ops, 0); }
    if n > 0 {
      StateIsHistory(ops, n - 1, t, id);
      AnswerAt(M.Mem(map[], map[]), ops, n - 1);
      StepIsHistory(MemAt(M.Mem(map[], map[]), ops, n - 1), ops[n - 1], t, id);
    }
  }

  // What one call changes under one name.
  lemma {:induction false} StepIsHistory(m: M.Mem, op: Op, t: Text, id: Text)
    ensures var (m', a) := M.MemApply(m, op);
      Lookup(m'.data, (t, id)) ==
        (if op.Write? && (op.t, op.id) == (t, id) then Some(op.payload)
         else if op.Delete? && (op.t, op.id) == (t, id) then None
         else Lookup(m.data, (t, id))) &&
      Lookup(m'.locks, (t, id)) ==
        (if op.Lock? && (op.t, op.id) == (t, id) && a.Acquired? then Some(a.lock)
         else if op.Unlock? && (op.t, op.id) == (t, id) && a == Released(true) then None
         else Lookup(m.locks, (t, id)))
  {
  }

  lemma {:induction false} MemoryFollowsHistory(ops: seq<Op>)
    ensures FollowsHistory(ops, MemAnswers(M.Mem(map[], map[]), ops))
  {
    var answers := MemAnswers(M.Mem(map[], map[]), ops);
    if ops != [] { AnswerAt(M.Mem(map[], map[]), ops, 0); }
    forall i | 0 <= i < |ops| ensures RightAnswer(ops, answers, i) {
      var m := MemAt(M.Mem(map[], map[]), ops, i);
      AnswerAt(M.Mem(map[], map[]), ops, i);
      if ops[i].List? {
        forall id ensures id in M.ListOf(m, ops[i].t) <==> Stored(ops, i, ops[i].t, id).Some? {
          StateIsHistory(ops, i, ops[i].t, id);
          ListedWhenStored(m, ops[i].t, id);
        }
      } else {
        StateIsHistory(ops, i, ops[i].t, ops[i].id);
      }
    }
  }

  lemma ListedWhenStored(m: M.Mem, t: Text, id: Text)
    ensures id in M.ListOf(m, t) <==> (t, id) in m.data
  {
    if (t, id) in m.data { assert (t, id).0 == t && (t, id).1 == id; }
  }

  // Reads return the last write, lists what is stored, and a lock is granted exactly when no lease granted
  // before is both unreleased and unexpired: the same for states in files.
  lemma FilesFollowHistory(ops: seq<Op>, types: set<Text>)
    requires Over(ops, types) && !Collide(types)
    ensures FollowsHistory(ops, FsAnswers(F.Tree({}, map[]), ops))
  {
    MemoryFollowsHistory(ops);
    TraceEquivalent(ops, types);
  }
}
