// src/pyvider/functions/adapters.py:108-202 and src/pyvider/protocols/tfprotov6/handlers/call_function.py:
// how a Python signature is advertised to Terraform, and how the arguments Terraform sends reach it.
module FunctionArgs {
  import opened Options
  import opened CtyValues

  datatype Param = Param(name: string, hasDefault: bool)

  // Positional parameters, then perhaps *args.
  datatype Signature = Signature(plain: seq<Param>, varArgs: Option<string>)

  // Python's own rules for a signature.
  ghost predicate ValidSignature(sig: Signature) {
    && (forall i, j :: 0 <= i < j < |sig.plain| ==> sig.plain[i].name != sig.plain[j].name)
    && (sig.varArgs.Some? ==> forall i :: 0 <= i < |sig.plain| ==> sig.plain[i].name != sig.varArgs.value)
    && TrailingDefaults(sig.plain)
  }

  predicate TrailingDefaults(plain: seq<Param>) {
    forall i, j :: 0 <= i < j < |plain| && plain[i].hasDefault ==> plain[j].hasDefault
  }

  // ------------------------------------------------------------------ what is advertised

  datatype Advertised = Advertised(parameters: seq<string>, variadic: Option<string>)

  function Names(plain: seq<Param>): seq<string> {
    seq(|plain|, i requires 0 <= i < |plain| => plain[i].name)
  }

  // Terraform's one variadic slot holds *args, or else the one parameter with a default.
  predicate OneOptional(sig: Signature) {
    sig.varArgs.None? && sig.plain != [] && sig.plain[|sig.plain| - 1].hasDefault &&
    (|sig.plain| > 1 ==> !sig.plain[|sig.plain| - 2].hasDefault)
  }

  function Advertise(sig: Signature): Advertised {
    if OneOptional(sig) then
      var n := |sig.plain| - 1;
      Advertised(Names(sig.plain[..n]), Some(sig.plain[n].name))
    else Advertised(Names(sig.plain), sig.varArgs)
  }

  method DefaultsFillTheVariadicSlot(sig: Signature) returns (fills: bool)
    requires ValidSignature(sig)
    ensures (exists i :: 0 <= i < |sig.plain| && sig.plain[i].hasDefault) ==> fills == OneOptional(sig)
  {
    var defaulted: seq<string> := [];
    for i := 0 to |sig.plain|
      invariant |defaulted| > 0 <==> exists x :: 0 <= x < i && sig.plain[x].hasDefault
      invariant |defaulted| > 1 <==> i > 1 && sig.plain[i - 2].hasDefault
    {
      if sig.plain[i].hasDefault { defaulted := defaulted + [sig.plain[i].name]; }
    }
    if sig.varArgs.Some? { return false; }
    if |defaulted| > 1 { return false; }
    return true;
  }

  method ExtractParametersMeta(sig: Signature) returns (meta: Advertised)
    requires ValidSignature(sig)
    ensures meta == Advertise(sig)
  {
    var parameters: seq<string>, variadic: Option<string> := [], None;
    var fills := DefaultsFillTheVariadicSlot(sig);
    for i := 0 to |sig.plain|
      invariant OneOptional(sig) && i == |sig.plain| ==>
        parameters == Names(sig.plain[..i - 1]) && variadic == Some(sig.plain[i - 1].name)
      invariant !(OneOptional(sig) && i == |sig.plain|) ==> parameters == Names(sig.plain[..i]) && variadic == None
    {
      ghost var last := OneOptional(sig) && i + 1 == |sig.plain|;
      assert last <==> sig.plain[i].hasDefault && fills;
      assert !last ==> Names(sig.plain[..i + 1]) == Names(sig.plain[..i]) + [sig.plain[i].name];
      if sig.plain[i].hasDefault && fills {
        variadic := Some(sig.plain[i].name);
      } else {
        parameters := parameters + [sig.plain[i].name];
      }
    }
    assert sig.plain[..|sig.plain|] == sig.plain;
    if sig.varArgs.Some? { variadic := sig.varArgs; }
    return Advertised(parameters, variadic);
  }

  // The wire order is the signature's order, whichever parameter took the variadic slot.
  lemma WireOrderIsSignatureOrder(sig: Signature)
    ensures var w := Advertise(sig);
      w.parameters + (if w.variadic.Some? then [w.variadic.value] else []) ==
      Names(sig.plain) + (if sig.varArgs.Some? then [sig.varArgs.value] else [])
  {
    if OneOptional(sig) {
      var n := |sig.plain| - 1;
      assert Names(sig.plain) == Names(sig.plain[..n]) + [sig.plain[n].name];
    }
  }

  // ------------------------------------------------------------------ from the wire to the call

  datatype Bound = One(n: Native) | Many(ns: seq<Native>)

  datatype Problem = WrongCount | TooMany

  datatype Processed = Kwargs(kwargs: map<string, Bound>) | HasUnknown | Refused(problem: Problem)

  datatype Outcome = Call(positional: seq<Native>) | UnknownResult | Error(problem: Problem)

  // A null sent for a parameter with a default means the default.
  predicate Dropped(plain: seq<Param>, vals: seq<Native>, i: nat) {
    i < |vals| && i < |plain| && plain[i].hasDefault && vals[i].NNone?
  }

  // The positional arguments the call is made with.
  function Delivered(plain: seq<Param>, vals: seq<Native>): seq<Native> {
    if vals == [] || plain == [] then vals
    else (if plain[0].hasDefault && vals[0].NNone? then [] else [vals[0]]) + Delivered(plain[1..], vals[1..])
  }

  function Natives(args: seq<Value>): seq<Native> {
    seq(|args|, i requires 0 <= i < |args| => ToNative(args[i]))
  }

  predicate AllKnown(args: seq<Value>) {
    forall i :: 0 <= i < |args| ==> WhollyKnown(args[i])
  }

  predicate RightCount(sig: Signature, n: nat) {
    var w := Advertise(sig);
    if w.variadic.Some? then n >= |w.parameters| else n == |w.parameters|
  }

  function Dispatched(sig: Signature, args: seq<Value>): Outcome {
    if !RightCount(sig, |args|) then Error(WrongCount)
    else if !AllKnown(args) then UnknownResult
    else if sig.varArgs.None? && |args| > |sig.plain| then Error(TooMany)
    else Call(Delivered(sig.plain, Natives(args)))
  }

  // One parameter, and only one, has a default, and there is no *args.
  ghost predicate SingleDefault(sig: Signature) {
    sig.varArgs.None? && exists i :: OnlyDefault(sig.plain, i)
  }

  ghost predicate OnlyDefault(plain: seq<Param>, i: int) {
    0 <= i < |plain| && plain[i].hasDefault && forall j :: 0 <= j < |plain| && j != i ==> !plain[j].hasDefault
  }

  lemma {:induction false} OneOptionalIsSingleDefault(sig: Signature)
    requires ValidSignature(sig)
    ensures OneOptional(sig) <==> SingleDefault(sig)
  {
    var n := |sig.plain|;
    if OneOptional(sig) { assert OnlyDefault(sig.plain, n - 1); }
    if i :| OnlyDefault(sig.plain, i) { assert i == n - 1; }
  }

  // Told by the signature alone: *args takes any number of arguments more; of parameters with defaults a
  // single one may be left out, several may not. A call with a right number of arguments is not made if an
  // argument is not wholly known, or if there is one too many.
  lemma {:induction false} CallsMade(sig: Signature, args: seq<Value>)
    requires ValidSignature(sig)
    ensures var n, least := |args|, if SingleDefault(sig) then |sig.plain| - 1 else |sig.plain|;
      var right := if sig.varArgs.Some? || SingleDefault(sig) then n >= least else n == least;
      var known := forall i :: 0 <= i < n ==> WhollyKnown(args[i]);
      var tooMany := SingleDefault(sig) && n > |sig.plain|;
      (Dispatched(sig, args) == Error(WrongCount) <==> !right) &&
      (Dispatched(sig, args) == UnknownResult <==> right && !known) &&
      (Dispatched(sig, args) == Error(TooMany) <==> right && known && tooMany) &&
      (Dispatched(sig, args).Call? <==> right && known && !tooMany)
  {
    OneOptionalIsSingleDefault(sig);
  }

  // _bind_variadic_arguments
  method BindVariadicArguments(kwargs: map<string, Bound>, sig: Signature, name: string, extra: seq<Native>)
    returns (r: Processed)
    requires ValidSignature(sig) && extra != [] && Advertise(sig).variadic == Some(name)
    ensures r == BoundVariadic(kwargs, sig, extra)
  {
    if sig.varArgs == Some(name) { return Kwargs(kwargs[name := Many(extra)]); }
    if |extra| == 1 && extra[0].NNone? { return Kwargs(kwargs); }
    if |extra| > 1 { return Refused(TooMany); }
    return Kwargs(kwargs[name := One(extra[0])]);
  }

  function BoundVariadic(kwargs: map<string, Bound>, sig: Signature, extra: seq<Native>): Processed
    requires extra != [] && Advertise(sig).variadic.Some?
  {
    if sig.varArgs.Some? then Kwargs(kwargs[sig.varArgs.value := Many(extra)])
    else if |extra| > 1 then Refused(TooMany)
    else if extra[0].NNone? then Kwargs(kwargs)
    else Kwargs(kwargs[sig.plain[|sig.plain| - 1].name := One(extra[0])])
  }

  // What each of the first n parameters is bound to.
  ghost predicate KwargsFor(kwargs: map<string, Bound>, sig: Signature, vals: seq<Native>, n: nat) {
    && n <= |sig.plain|
    && (forall i :: 0 <= i < |sig.plain| ==>
          ((sig.plain[i].name in kwargs <==> i < n && i < |vals| && !Dropped(sig.plain, vals, i)) &&
           (sig.plain[i].name in kwargs ==> kwargs[sig.plain[i].name] == One(vals[i]))))
    && (sig.varArgs.Some? ==>
          ((sig.varArgs.value in kwargs <==> n == |sig.plain| && |vals| > n) &&
           (sig.varArgs.value in kwargs ==> kwargs[sig.varArgs.value] == Many(vals[n..]))))
  }

  // _process_function_arguments
  method ProcessFunctionArguments(args: seq<Value>, w: Advertised, sig: Signature) returns (r: Processed)
    requires ValidSignature(sig) && w == Advertise(sig) && RightCount(sig, |args|)
    ensures r.HasUnknown? <==> !AllKnown(args)
    ensures r.Refused? <==> AllKnown(args) && sig.varArgs.None? && |args| > |sig.plain|
    ensures r.Refused? ==> r.problem == TooMany
    ensures r.Kwargs? ==> KwargsFor(r.kwargs, sig, Natives(args), |sig.plain|)
  {
    var kwargs: map<string, Bound> := map[];
    ghost var vals := Natives(args);
    for i := 0 to |w.parameters|
      invariant AllKnown(args[..i])
      invariant forall x :: 0 <= x < |sig.plain| ==>
        ((sig.plain[x].name in kwargs <==> x < i && !Dropped(sig.plain, vals, x)) &&
         (sig.plain[x].name in kwargs ==> kwargs[sig.plain[x].name] == One(vals[x])))
      invariant sig.varArgs.Some? ==> sig.varArgs.value !in kwargs
    {
      if !WhollyKnown(args[i]) { return HasUnknown; }
      var native := ToNative(args[i]);
      assert w.parameters[i] == sig.plain[i].name;
      if sig.plain[i].hasDefault && native.NNone? { continue; }
      kwargs := kwargs[w.parameters[i] := One(native)];
    }
    if w.variadic.None? || |args| <= |w.parameters| {
      assert args[..|w.parameters|] == args;
      return Kwargs(kwargs);
    }
    var extra: seq<Native> := [];
    for i := |w.parameters| to |args|
      invariant AllKnown(args[..i])
      invariant extra == vals[|w.parameters|..i]
    {
      if !WhollyKnown(args[i]) { return HasUnknown; }
      extra := extra + [ToNative(args[i])];
    }
    assert args[..|args|] == args && vals[|w.parameters|..|args|] == vals[|w.parameters|..];
    r := BindVariadicArguments(kwargs, sig, w.variadic.value, extra);
  }

  // _build_function_arguments
  method BuildFunctionArguments(sig: Signature, kwargs: map<string, Bound>, ghost vals: seq<Native>)
    returns (all: seq<Native>)
    requires ValidSignature(sig) && KwargsFor(kwargs, sig, vals, |sig.plain|)
    requires sig.varArgs.Some? || |vals| <= |sig.plain|
    ensures all == Delivered(sig.plain, vals)
  {
    all := PositionalArguments(sig, kwargs, vals);
    DeliveredRest(sig, kwargs, vals);
    if sig.varArgs.Some? && sig.varArgs.value in kwargs { all := all + kwargs[sig.varArgs.value].ns; }
  }

  // Regular parameters, in signature order.
  method PositionalArguments(sig: Signature, kwargs: map<string, Bound>, ghost vals: seq<Native>)
    returns (all: seq<Native>)
    requires KwargsFor(kwargs, sig, vals, |sig.plain|)
    ensures all + StillDelivered(sig.plain, vals, |sig.plain|) == Delivered(sig.plain, vals)
  {
    all := [];
    assert sig.plain[0..] == sig.plain && vals[0..] == vals;
    for i := 0 to |sig.plain|
      invariant all + StillDelivered(sig.plain, vals, i) == Delivered(sig.plain, vals)
    {
      var name := sig.plain[i].name;
      ghost var before, after := StillDelivered(sig.plain, vals, i), StillDelivered(sig.plain, vals, i + 1);
      DeliveredStep(sig, kwargs, vals, i);
      assert before == (if name in kwargs then [kwargs[name].n] else []) + after;
      if name in kwargs {
        Reassociate(all, [kwargs[name].n], after);
        all := all + [kwargs[name].n];
      } else {
        assert before == after;
      }
    }
  }

  lemma Reassociate(x: seq<Native>, y: seq<Native>, z: seq<Native>)
    ensures (x + y) + z == x + (y + z)
  {
  }

  function Least(a: nat, b: nat): nat {
    if a < b then a else b
  }

  ghost function StillDelivered(plain: seq<Param>, vals: seq<Native>, i: nat): seq<Native>
    requires i <= |plain|
  {
    Delivered(plain[i..], vals[Least(i, |vals|)..])
  }

  lemma {:induction false} DeliveredStep(sig: Signature, kwargs: map<string, Bound>, vals: seq<Native>, i: nat)
    requires KwargsFor(kwargs, sig, vals, |sig.plain|) && i < |sig.plain|
    ensures sig.plain[i].name in kwargs ==> kwargs[sig.plain[i].name].One?
    ensures StillDelivered(sig.plain, vals, i) ==
      (if sig.plain[i].name in kwargs then [kwargs[sig.plain[i].name].n] else []) +
        StillDelivered(sig.plain, vals, i + 1)
  {
    assert sig.plain[i..][1..] == sig.plain[i + 1..];
    if i < |vals| {
      assert vals[i..][1..] == vals[i + 1..];
    }
  }

  lemma {:induction false} DeliveredRest(sig: Signature, kwargs: map<string, Bound>, vals: seq<Native>)
    requires KwargsFor(kwargs, sig, vals, |sig.plain|) && (sig.varArgs.Some? || |vals| <= |sig.plain|)
    ensures sig.varArgs.Some? && sig.varArgs.value in kwargs ==> kwargs[sig.varArgs.value].Many?
    ensures StillDelivered(sig.plain, vals, |sig.plain|) ==
      if sig.varArgs.Some? && sig.varArgs.value in kwargs then kwargs[sig.varArgs.value].ns else []
  {
  }

  // CallFunction, up to the call itself
  method CallFunction(sig: Signature, args: seq<Value>) returns (r: Outcome)
    requires ValidSignature(sig)
    ensures r == Dispatched(sig, args)
  {
    var w := ExtractParametersMeta(sig);
    if w.variadic.Some? {
      if |args| < |w.parameters| { return Error(WrongCount); }
    } else if |args| != |w.parameters| {
      return Error(WrongCount);
    }
    var processed := ProcessFunctionArguments(args, w, sig);
    if processed.HasUnknown? { return UnknownResult; }
    if processed.Refused? { return Error(processed.problem); }
    var all := BuildFunctionArguments(sig, processed.kwargs, Natives(args));
    return Call(all);
  }

  // ------------------------------------------------------------------ which parameter gets which argument

  datatype Slot = Given(n: Native) | Default

  datatype Frame = Frame(slots: seq<Slot>, rest: seq<Native>)

  // Python binding positional arguments; None for a TypeError.
  function PyBind(plain: seq<Param>, varArgs: bool, all: seq<Native>): Option<Frame> {
    if plain == [] then (if all == [] || varArgs then Some(Frame([], all)) else None)
    else if all == [] then
      (var f := PyBind(plain[1..], varArgs, []);
       if plain[0].hasDefault && f.Some? then Some(Frame([Default] + f.value.slots, f.value.rest)) else None)
    else
      (var f := PyBind(plain[1..], varArgs, all[1..]);
       if f.Some? then Some(Frame([Given(all[0])] + f.value.slots, f.value.rest)) else None)
  }

  // What the configuration means: argument i is parameter i's, and a null left to a default is the default.
  function Intended(plain: seq<Param>, vals: seq<Native>): Frame {
    Frame(seq(|plain|, i requires 0 <= i < |plain| =>
            if i >= |vals| || (plain[i].hasDefault && vals[i].NNone?) then Default else Given(vals[i])),
          if |vals| > |plain| then vals[|plain|..] else [])
  }

  // No argument follows one that was dropped.
  ghost predicate NothingAfterDropped(plain: seq<Param>, vals: seq<Native>) {
    forall i, j :: 0 <= i < j < |vals| && Dropped(plain, vals, i) ==> Dropped(plain, vals, j)
  }

  // Enough arguments for the parameters without defaults, and no more than there is room for.
  predicate Fits(plain: seq<Param>, varArgs: bool, n: nat) {
    (forall i :: 0 <= i < |plain| && i >= n ==> plain[i].hasDefault) && (varArgs || n <= |plain|)
  }

  lemma IntendedTail(plain: seq<Param>, vals: seq<Native>)
    requires plain != []
    ensures var tail := Intended(plain[1..], if vals == [] then [] else vals[1..]);
      Intended(plain, vals).rest == tail.rest &&
      Intended(plain, vals).slots ==
        [if vals == [] || (plain[0].hasDefault && vals[0].NNone?) then Default else Given(vals[0])] + tail.slots
  {
  }

  lemma {:induction false} NoneSent(plain: seq<Param>, varArgs: bool)
    requires forall i :: 0 <= i < |plain| ==> plain[i].hasDefault
    ensures PyBind(plain, varArgs, []) == Some(Intended(plain, []))
    decreases |plain|
  {
    if plain != [] {
      NoneSent(plain[1..], varArgs);
      IntendedTail(plain, []);
    } else {
      assert Intended(plain, []).slots == [];
    }
  }

  lemma {:induction false} AllDropped(plain: seq<Param>, vals: seq<Native>)
    requires forall i :: 0 <= i < |vals| ==> Dropped(plain, vals, i)
    ensures Delivered(plain, vals) == [] && Intended(plain, vals) == Intended(plain, [])
    decreases |vals|
  {
    if vals != [] {
      assert Dropped(plain, vals, 0);
      forall i | 0 <= i < |vals[1..]| ensures Dropped(plain[1..], vals[1..], i) { assert Dropped(plain, vals, i + 1); }
      AllDropped(plain[1..], vals[1..]);
      IntendedTail(plain, vals);
      IntendedTail(plain, []);
    }
  }

  lemma {:induction false} SomethingDelivered(plain: seq<Param>, vals: seq<Native>, j: nat)
    requires j < |vals| && !Dropped(plain, vals, j)
    ensures Delivered(plain, vals) != []
    decreases |vals|
  {
    if plain != [] && j > 0 {
      assert !Dropped(plain[1..], vals[1..], j - 1);
      SomethingDelivered(plain[1..], vals[1..], j - 1);
    }
  }

  // Every argument reaches its own parameter exactly when no argument follows a dropped one.
  lemma {:induction false} BoundAsIntended(plain: seq<Param>, varArgs: bool, vals: seq<Native>)
    requires TrailingDefaults(plain) && Fits(plain, varArgs, |vals|)
    ensures PyBind(plain, varArgs, Delivered(plain, vals)) == Some(Intended(plain, vals)) <==>
      NothingAfterDropped(plain, vals)
    decreases |plain|
  {
    if plain != [] && vals == [] {
      NoneSent(plain, varArgs);
    } else if plain != [] && Dropped(plain, vals, 0) {
      IntendedTail(plain, vals);
      if j :| 0 <= j < |vals| && !Dropped(plain, vals, j) {
        SomethingDelivered(plain, vals, j);
        var f := PyBind(plain, varArgs, Delivered(plain, vals));
        assert f.Some? ==> f.value.slots[0].Given?;
      } else {
        AllDropped(plain, vals);
        NoneSent(plain, varArgs);
      }
    } else if plain != [] {
      BoundAsIntended(plain[1..], varArgs, vals[1..]);
      ShiftDropped(plain, vals);
      FirstIsGiven(plain, varArgs, vals);
    } else {
      assert vals[0..] == vals && Intended(plain, vals) == Frame([], vals);
    }
  }

  lemma {:induction false} FirstIsGiven(plain: seq<Param>, varArgs: bool, vals: seq<Native>)
    requires plain != [] && vals != [] && !Dropped(plain, vals, 0)
    ensures PyBind(plain, varArgs, Delivered(plain, vals)) == Some(Intended(plain, vals)) <==>
      PyBind(plain[1..], varArgs, Delivered(plain[1..], vals[1..])) == Some(Intended(plain[1..], vals[1..]))
  {
    IntendedTail(plain, vals);
    var f, g := PyBind(plain, varArgs, Delivered(plain, vals)),
      PyBind(plain[1..], varArgs, Delivered(plain[1..], vals[1..]));
    assert Delivered(plain, vals)[1..] == Delivered(plain[1..], vals[1..]);
    assert f.Some? <==> g.Some?;
    if f.Some? { assert f.value.slots[1..] == g.value.slots; }
    assert Intended(plain, vals).slots[1..] == Intended(plain[1..], vals[1..]).slots;
  }

  lemma ShiftDropped(plain: seq<Param>, vals: seq<Native>)
    requires plain != [] && vals != [] && !Dropped(plain, vals, 0)
    ensures NothingAfterDropped(plain, vals) <==> NothingAfterDropped(plain[1..], vals[1..])
  {
    forall i | 0 <= i < |vals[1..]| ensures Dropped(plain[1..], vals[1..], i) == Dropped(plain, vals, i + 1) {}
    if NothingAfterDropped(plain[1..], vals[1..]) {
      forall i, j | 0 <= i < j < |vals| && Dropped(plain, vals, i) ensures Dropped(plain, vals, j) {
        assert Dropped(plain[1..], vals[1..], i - 1);
        assert Dropped(plain[1..], vals[1..], j - 1);
      }
    }
    if NothingAfterDropped(plain, vals) {
      forall i, j | 0 <= i < j < |vals[1..]| && Dropped(plain[1..], vals[1..], i)
        ensures Dropped(plain[1..], vals[1..], j)
      {
        assert Dropped(plain, vals, i + 1);
      }
    }
  }

  // A call that is made delivers every argument to the parameter it was written for, and defaults to the
  // rest, exactly when no null standing for a default comes before an argument that is delivered.
  lemma CallBindsAsIntended(sig: Signature, args: seq<Value>)
    requires ValidSignature(sig) && Dispatched(sig, args).Call?
    ensures PyBind(sig.plain, sig.varArgs.Some?, Dispatched(sig, args).positional) ==
      Some(Intended(sig.plain, Natives(args)))
      <==> NothingAfterDropped(sig.plain, Natives(args))
  {
    BoundAsIntended(sig.plain, sig.varArgs.Some?, Natives(args));
  }

  // A function with at most one optional argument therefore always gets its arguments right.
  lemma OneOptionalIsSafe(sig: Signature, args: seq<Value>)
    requires ValidSignature(sig) && OneOptional(sig) && Dispatched(sig, args).Call?
    ensures PyBind(sig.plain, false, Dispatched(sig, args).positional) == Some(Intended(sig.plain, Natives(args)))
  {
    BoundAsIntended(sig.plain, false, Natives(args));
    assert forall i :: Dropped(sig.plain, Natives(args), i) ==> i == |sig.plain| - 1;
  }

  // f(a, b=1, c=2) called as f("x", null, 7) is run with b = 7.
  lemma {:induction false} NullBeforeLaterArgumentShifts()
    ensures var sig := Signature([Param("a", false), Param("b", true), Param("c", true)], None);
      var args := [Value(TPrim(KStr), Leaf(PStr("x")), {}), Value(TPrim(KNum), Null, {}),
        Value(TPrim(KNum), Leaf(PNum(7.0)), {})];
      ValidSignature(sig) &&
      Dispatched(sig, args) == Call([NPrim(PStr("x")), NPrim(PNum(7.0))]) &&
      PyBind(sig.plain, false, [NPrim(PStr("x")), NPrim(PNum(7.0))]) ==
        Some(Frame([Given(NPrim(PStr("x"))), Given(NPrim(PNum(7.0))), Default], [])) &&
      Intended(sig.plain, Natives(args)).slots == [Given(NPrim(PStr("x"))), Default, Given(NPrim(PNum(7.0)))]
  {
    var a, b, c := Param("a", false), Param("b", true), Param("c", true);
    var x, s := NPrim(PStr("x")), NPrim(PNum(7.0));
    var args := [Value(TPrim(KStr), Leaf(PStr("x")), {}), Value(TPrim(KNum), Null, {}),
      Value(TPrim(KNum), Leaf(PNum(7.0)), {})];
    assert Natives(args) == [x, NNone, s];
    assert [a, b, c][1..] == [b, c] && [b, c][1..] == [c] && [c][1..] == [];
    assert [x, NNone, s][1..] == [NNone, s] && [NNone, s][1..] == [s] && [s][1..] == [] && [x, s][1..] == [s];
    assert Delivered([c], [s]) == [s];
    assert Delivered([b, c], [NNone, s]) == [s];
    NoneSent([c], false);
    assert Intended([c], []).slots == [Default];
    assert PyBind([c], false, []) == Some(Frame([Default], []));
    assert PyBind([b, c], false, [s]) == Some(Frame([Given(s)] + [Default], []));
    assert [Given(x)] + ([Given(s)] + [Default]) == [Given(x), Given(s), Default];
  }
}
