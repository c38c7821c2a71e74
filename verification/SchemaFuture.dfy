// src/pyvider/protocols/tfprotov6/handlers/get_provider_schema.py:314-372: one schema computation shared
// by all callers, as an interleaving of callers, cancellations and the computing task. Everything
// between two awaits of the event loop is one step.
module SchemaFuture {
  import opened Options

  type CallerId = nat
  type FutureId = nat

  // A computed response either has an ERROR diagnostic or has not.
  datatype Outcome = Response(schema: int, hasErrors: bool) | Exception(error: int)

  // Cancelled is reachable only when callers are not shielded.
  datatype Future = Pending | Done(outcome: Outcome) | CancelledFuture

  datatype Caller = Arrived | Waiting(f: FutureId) | Answered(from: FutureId, outcome: Outcome) | Gone

  datatype State = State(
    futures: seq<Future>,
    current: Option<FutureId>,  // _schema_future
    running: set<FutureId>,     // tasks inside _compute_schema_once
    callers: map<CallerId, Caller>)

  datatype Action =
    | Arrive(c: CallerId)
    | Enter(c: CallerId)                     // the block under _cache_lock
    | Finish(f: FutureId, outcome: Outcome)  // _set_future_result, once the computation ends
    | Deliver(c: CallerId)
    | Cancel(c: CallerId)

  const INIT := State([], None, {}, map[])

  predicate Cacheable(o: Outcome) {
    o.Response? && !o.hasErrors
  }

  // A step that is not enabled changes nothing. shielded is what asyncio.shield provides.
  function Apply(s: State, a: Action, shielded: bool): State {
    match a
    case Arrive(c) => if c in s.callers then s else s.(callers := s.callers[c := Arrived])
    case Enter(c) =>
      if c !in s.callers || !s.callers[c].Arrived? then s
      else if s.current.Some? then s.(callers := s.callers[c := Waiting(s.current.value)])
      else
        var f := |s.futures|;
        State(s.futures + [Pending], Some(f), s.running + {f}, s.callers[c := Waiting(f)])
    case Finish(f, outcome) =>
      if f !in s.running || f >= |s.futures| then s
      else if s.futures[f].CancelledFuture? then s.(running := s.running - {f})  // InvalidStateError, twice
      else
        s.(futures := s.futures[f := Done(outcome)],
           running := s.running - {f},
           current := if Cacheable(outcome) then s.current else None)
    case Deliver(c) =>
      if c in s.callers && s.callers[c].Waiting? && s.callers[c].f < |s.futures| then
        (match s.futures[s.callers[c].f]
         case Done(o) => s.(callers := s.callers[c := Answered(s.callers[c].f, o)])
         case CancelledFuture => s.(callers := s.callers[c := Gone])
         case Pending => s)
      else s
    case Cancel(c) =>
      if c !in s.callers || s.callers[c].Answered? then s
      else
        var f := s.callers[c];
        s.(callers := s.callers[c := Gone],
           futures := if !shielded && f.Waiting? && f.f < |s.futures| && s.futures[f.f].Pending?
                      then s.futures[f.f := CancelledFuture] else s.futures)
  }

  function Run(s: State, actions: seq<Action>, shielded: bool): State
    decreases |actions|
  {
    if actions == [] then s else Run(Apply(s, actions[0], shielded), actions[1..], shielded)
  }

  // ------------------------------------------------------------------ what every step keeps

  ghost predicate Inv(s: State) {
    && (forall f: nat :: f in s.running <==> f < |s.futures| && s.futures[f].Pending?)
    && (forall f :: f in s.running ==> s.current == Some(f))
    && (s.current.Some? ==>
         (s.current.value < |s.futures| &&
          (s.futures[s.current.value].Pending? ||
           (s.futures[s.current.value].Done? && Cacheable(s.futures[s.current.value].outcome)))))
    && (forall f :: 0 <= f < |s.futures| ==> !s.futures[f].CancelledFuture?)
    && (forall f :: 0 <= f < |s.futures| && s.futures[f].Done? && Cacheable(s.futures[f].outcome) ==>
      s.current == Some(f))
    && (forall c :: c in s.callers && s.callers[c].Waiting? ==> s.callers[c].f < |s.futures|)
    && (forall c :: c in s.callers && s.callers[c].Answered? ==>
         s.callers[c].from < |s.futures| && s.futures[s.callers[c].from] == Done(s.callers[c].outcome))
  }

  lemma StepInv(s: State, a: Action)
    requires Inv(s)
    ensures Inv(Apply(s, a, true))
  {
  }

  lemma {:induction false} RunInv(s: State, actions: seq<Action>)
    requires Inv(s)
    ensures Inv(Run(s, actions, true))
    decreases |actions|
  {
    if actions != [] {
      StepInv(s, actions[0]);
      RunInv(Apply(s, actions[0], true), actions[1..]);
    }
  }

  // At most one computation is ever in flight, and it is the one every new caller joins.
  lemma OneComputation(actions: seq<Action>, f: FutureId, g: FutureId)
    requires f in Run(INIT, actions, true).running && g in Run(INIT, actions, true).running
    ensures f == g && Run(INIT, actions, true).current == Some(f)
  {
    RunInv(INIT, actions);
  }

  // No caller is left waiting on a future nothing will complete.
  lemma WaitersAreServed(actions: seq<Action>, c: CallerId)
    requires var s := Run(INIT, actions, true); c in s.callers && s.callers[c].Waiting?
    ensures var s := Run(INIT, actions, true);
      s.callers[c].f in s.running || (s.callers[c].f < |s.futures| && s.futures[s.callers[c].f].Done?)
  {
    RunInv(INIT, actions);
  }

  // ------------------------------------------------------------------ completed results

  predicate Completed(s: State, f: FutureId) {
    f < |s.futures| && s.futures[f].Done?
  }

  lemma {:induction false} CompletedStays(s: State, actions: seq<Action>, f: FutureId)
    requires Inv(s) && Completed(s, f)
    ensures var t := Run(s, actions, true);
      Completed(t, f) && t.futures[f] == s.futures[f] &&
      (s.current != Some(f) ==> t.current != Some(f))
    decreases |actions|
  {
    if actions != [] {
      StepInv(s, actions[0]);
      CompletedStays(Apply(s, actions[0], true), actions[1..], f);
    }
  }

  predicate NotEntered(s: State, c: CallerId) {
    c !in s.callers || s.callers[c].Arrived?
  }

  // The caller has nothing to do with f.
  predicate Unrelated(s: State, c: CallerId, f: FutureId) {
    c in s.callers ==>
      (s.callers[c].Waiting? ==> s.callers[c].f != f) && (s.callers[c].Answered? ==> s.callers[c].from != f)
  }

  lemma {:induction false} UnrelatedStays(s: State, actions: seq<Action>, c: CallerId, f: FutureId)
    requires Inv(s) && Completed(s, f) && s.current != Some(f) && Unrelated(s, c, f)
    ensures Unrelated(Run(s, actions, true), c, f)
    decreases |actions|
  {
    if actions != [] {
      StepInv(s, actions[0]);
      CompletedStays(s, [actions[0]], f);
      assert Run(s, [actions[0]], true) == Apply(s, actions[0], true) by { assert [actions[0]][1..] == []; }
      UnrelatedStays(Apply(s, actions[0], true), actions[1..], c, f);
    }
  }

  // A result with an error diagnostic, or an exception, is never served to a caller that had not joined
  // when it completed.
  lemma FailureIsNotCached(before: seq<Action>, after: seq<Action>, f: FutureId, c: CallerId)
    requires var s := Run(INIT, before, true);
      Completed(s, f) && (s.futures[f].outcome.Exception? || s.futures[f].outcome.hasErrors) && NotEntered(s, c)
    ensures Unrelated(Run(Run(INIT, before, true), after, true), c, f)
  {
    RunInv(INIT, before);
    UnrelatedStays(Run(INIT, before, true), after, c, f);
  }

  // Only results of the computation f concern the caller.
  predicate ServedBy(s: State, c: CallerId, f: FutureId, o: Outcome) {
    c in s.callers ==>
      match s.callers[c]
      case Arrived => true
      case Gone => true
      case Waiting(g) => g == f
      case Answered(g, o') => g == f && o' == o
  }

  lemma {:induction false} ServedByStays(s: State, actions: seq<Action>, c: CallerId, f: FutureId)
    requires Inv(s) && Completed(s, f) && s.current == Some(f) && ServedBy(s, c, f, s.futures[f].outcome)
    ensures var t := Run(s, actions, true);
      ServedBy(t, c, f, s.futures[f].outcome) && t.current == Some(f) && t.futures == s.futures && t.running == {}
    decreases |actions|
  {
    if actions != [] {
      StepInv(s, actions[0]);
      ServedByStays(Apply(s, actions[0], true), actions[1..], c, f);
    }
  }

  // A successful result is what every later caller gets, for as long as the process runs, and nothing is
  // ever computed again.
  lemma SuccessIsServedForever(before: seq<Action>, after: seq<Action>, f: FutureId, c: CallerId)
    requires var s := Run(INIT, before, true);
      Completed(s, f) && s.futures[f].outcome.Response? && !s.futures[f].outcome.hasErrors && NotEntered(s, c)
    ensures var s := Run(INIT, before, true);
      var t := Run(s, after, true);
      ServedBy(t, c, f, s.futures[f].outcome) && t.futures == s.futures && t.running == {}
  {
    RunInv(INIT, before);
    ServedByStays(Run(INIT, before, true), after, c, f);
  }

  // ------------------------------------------------------------------ where answers come from

  lemma {:induction false} RunSteps(s: State, first: seq<Action>, rest: seq<Action>, shielded: bool)
    ensures Run(s, first + rest, shielded) == Run(Run(s, first, shielded), rest, shielded)
    decreases |first|
  {
    if first == [] {
      assert first + rest == rest;
    } else {
      assert (first + rest)[1..] == first[1..] + rest;
      RunSteps(Apply(s, first[0], shielded), first[1..], rest, shielded);
    }
  }

  lemma {:induction false} LastStep(s: State, actions: seq<Action>, shielded: bool)
    requires actions != []
    ensures Run(s, actions, shielded) ==
      Apply(Run(s, actions[..|actions| - 1], shielded), actions[|actions| - 1], shielded)
  {
    var n := |actions| - 1;
    assert actions == actions[..n] + [actions[n]];
    RunSteps(s, actions[..n], [actions[n]], shielded);
    assert [actions[n]][1..] == [];
  }

  // The i-th step is the end of computation f, still in flight, with this outcome.
  ghost predicate FinishedAt(actions: seq<Action>, i: nat, f: FutureId, o: Outcome) {
    i < |actions| && actions[i] == Finish(f, o) && f in Run(INIT, actions[..i], true).running
  }

  // A future holds what its computation ended with...
  lemma {:induction false} HeldWasFinished(actions: seq<Action>, f: FutureId) returns (i: nat)
    requires Completed(Run(INIT, actions, true), f)
    ensures FinishedAt(actions, i, f, Run(INIT, actions, true).futures[f].outcome)
    decreases |actions|
  {
    if actions != [] {
      var n := |actions| - 1;
      var s := Run(INIT, actions[..n], true);
      LastStep(INIT, actions, true);
      if Completed(s, f) {
        i := HeldWasFinished(actions[..n], f);
        RunInv(INIT, actions[..n]);
        assert actions[..n][..i] == actions[..i];
      } else {
        i := n;
      }
    }
  }

  // ...so whatever a caller is answered is what a computation ended with.
  lemma {:induction false} AnswersWereComputed(actions: seq<Action>, c: CallerId) returns (i: nat)
    requires var s := Run(INIT, actions, true); c in s.callers && s.callers[c].Answered?
    ensures var a := Run(INIT, actions, true).callers[c]; FinishedAt(actions, i, a.from, a.outcome)
  {
    RunInv(INIT, actions);
    i := HeldWasFinished(actions, Run(INIT, actions, true).callers[c].from);
  }

  // Whenever a caller arrives it can be answered: at once with the kept result, or else with the outcome
  // of the computation it joins or starts, whatever that is.
  lemma {:induction false} ArrivalIsAnswered(actions: seq<Action>, c: CallerId, o: Outcome)
    requires c !in Run(INIT, actions, true).callers
    ensures var s := Run(INIT, actions, true);
      if s.current.Some? && Completed(s, s.current.value) then
        var t := Run(s, [Arrive(c), Enter(c), Deliver(c)], true);
        c in t.callers && t.callers[c] == Answered(s.current.value, s.futures[s.current.value].outcome)
      else
        var f := if s.current.Some? then s.current.value else |s.futures|;
        var t := Run(s, [Arrive(c), Enter(c), Finish(f, o), Deliver(c)], true);
        c in t.callers && t.callers[c] == Answered(f, o)
  {
    RunInv(INIT, actions);
    var s := Run(INIT, actions, true);
    var s1 := Apply(s, Arrive(c), true);
    var s2 := Apply(s1, Enter(c), true);
    assert s2.callers[c].Waiting?;
    var f := s2.callers[c].f;
    RunFew(s, Arrive(c), Enter(c), Finish(f, o), Deliver(c));
  }

  lemma {:induction false} RunFew(s: State, a: Action, b: Action, c: Action, d: Action)
    ensures Run(s, [a, b, c, d], true) == Apply(Apply(Apply(Apply(s, a, true), b, true), c, true), d, true)
    ensures Run(s, [a, b, d], true) == Apply(Apply(Apply(s, a, true), b, true), d, true)
  {
    assert [a, b, c, d] == [a] + ([b] + ([c] + [d])) && [a, b, d] == [a] + ([b] + [d]);
    var s1 := Apply(s, a, true);
    var s2 := Apply(s1, b, true);
    var s3 := Apply(s2, c, true);
    RunFirst(s, a, [b] + ([c] + [d]));
    RunFirst(s1, b, [c] + [d]);
    RunFirst(s2, c, [d]);
    RunFirst(s3, d, []);
    RunFirst(s, a, [b] + [d]);
    RunFirst(s1, b, [d]);
    RunFirst(s2, d, []);
    assert [d] == [d] + [];
  }

  lemma {:induction false} RunFirst(s: State, a: Action, rest: seq<Action>)
    ensures Run(s, [a] + rest, true) == Run(Apply(s, a, true), rest, true)
  {
    assert ([a] + rest)[1..] == rest;
  }

  // ------------------------------------------------------------------ cancelling

  // Everything but one caller's own fate.
  predicate SameButFor(s: State, t: State, c: CallerId) {
    s.futures == t.futures && s.current == t.current && s.running == t.running &&
    c in s.callers && c in t.callers && !s.callers[c].Arrived? && !t.callers[c].Arrived? &&
    s.callers[c := Gone] == t.callers[c := Gone]
  }

  lemma SameStep(s: State, t: State, c: CallerId, a: Action)
    requires SameButFor(s, t, c)
    ensures SameButFor(Apply(s, a, true), Apply(t, a, true), c)
  {
    forall d | d != c
      ensures (d in s.callers <==> d in t.callers) && (d in s.callers ==> s.callers[d] == t.callers[d])
    {
      assert s.callers[c := Gone].Keys == t.callers[c := Gone].Keys;
      assert d in s.callers ==> s.callers[c := Gone][d] == s.callers[d];
      assert d in t.callers ==> t.callers[c := Gone][d] == t.callers[d];
    }
    var x, y := Apply(s, a, true), Apply(t, a, true);
    assert x.callers[c := Gone] == y.callers[c := Gone];
  }

  lemma {:induction false} SameRun(s: State, t: State, c: CallerId, actions: seq<Action>)
    requires SameButFor(s, t, c)
    ensures SameButFor(Run(s, actions, true), Run(t, actions, true), c)
    decreases |actions|
  {
    if actions != [] {
      SameStep(s, t, c, actions[0]);
      SameRun(Apply(s, actions[0], true), Apply(t, actions[0], true), c, actions[1..]);
    }
  }

  lemma {:induction false} GoneStays(s: State, c: CallerId, actions: seq<Action>)
    requires c in s.callers && s.callers[c].Gone?
    ensures var t := Run(s, actions, true); c in t.callers && t.callers[c].Gone?
    decreases |actions|
  {
    if actions != [] { GoneStays(Apply(s, actions[0], true), c, actions[1..]); }
  }

  // A cancelled caller is never answered. For the rest, whether a waiting caller is cancelled or not makes
  // no difference to the shared result, nor to what any other caller gets, in any continuation.
  lemma CancellationIsInvisible(s: State, c: CallerId, actions: seq<Action>)
    requires c in s.callers && s.callers[c].Waiting?
    ensures SameButFor(Run(Apply(s, Cancel(c), true), actions, true), Run(s, actions, true), c)
    ensures Run(Apply(s, Cancel(c), true), actions, true).callers[c].Gone?
  {
    GoneStays(Apply(s, Cancel(c), true), c, actions);
    assert Apply(s, Cancel(c), true).callers[c := Gone] == s.callers[c := Gone];
    SameRun(Apply(s, Cancel(c), true), s, c, actions);
  }

  // Without the shield one cancelled caller leaves the process unable to serve its schema: no later
  // caller, in any continuation, is ever answered.
  lemma {:induction false} StuckForever(s: State, actions: seq<Action>, c: CallerId)
    requires s.current.Some? && s.current.value < |s.futures| && s.futures[s.current.value].CancelledFuture?
    requires forall f :: f in s.running ==> f == s.current.value
    requires c in s.callers ==> !s.callers[c].Answered? && (s.callers[c].Waiting? ==> s.callers[c].f == s.current.value)
    ensures var t := Run(s, actions, false); c in t.callers ==> !t.callers[c].Answered?
    decreases |actions|
  {
    if actions != [] { StuckForever(Apply(s, actions[0], false), actions[1..], c); }
  }

  lemma UnshieldedCancelPoisons(d: CallerId, c: CallerId, actions: seq<Action>)
    requires c != d
    ensures var s := Apply(Apply(Apply(INIT, Arrive(d), false), Enter(d), false), Cancel(d), false);
      var t := Run(s, actions, false);
      c in t.callers ==> !t.callers[c].Answered?
  {
    StuckForever(Apply(Apply(Apply(INIT, Arrive(d), false), Enter(d), false), Cancel(d), false), actions, c);
  }
}
