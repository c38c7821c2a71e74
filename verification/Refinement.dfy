// src/pyvider/protocols/tfprotov6/handlers/utils.py:325-485: is the applied state a refinement of the
// planned one? The diagnostic text is not modelled, only the verdict.
module Refinement {
  import opened Options
  import opened CtyValues

  function Refines(plan: Value, result: Value): bool
    decreases plan
  {
    if plan.ty != result.ty then false
    // An unknown may become anything of its type, null included; asked first, in this order.
    else if plan.body.Unknown? then true
    else if result.body.Unknown? then false
    else if plan.body.Null? then true
    else if result.body.Null? then false
    else
      match plan.ty
      case TObj(_) => KeyedRefines(plan, result)
      case TMap(_) => KeyedRefines(plan, result)
      case TList(_) => OrderedRefines(plan, result)
      case TTuple(_) => OrderedRefines(plan, result)
      case TSet(_) =>
        plan.body.Elems? && result.body.Elems? &&
        ((exists i :: 0 <= i < |plan.body.elems| && plan.body.elems[i].body.Unknown?) || Unmark(plan) == Unmark(result))
      case TPrim(_) => Unmark(plan) == Unmark(result)
  }

  predicate KeyedRefines(plan: Value, result: Value)
    decreases plan, 0
  {
    plan.body.Fields? && result.body.Fields? && plan.body.fields.Keys == result.body.fields.Keys &&
    forall k :: k in plan.body.fields ==> Refines(plan.body.fields[k], result.body.fields[k])
  }

  predicate OrderedRefines(plan: Value, result: Value)
    decreases plan, 0
  {
    plan.body.Elems? && result.body.Elems? && |plan.body.elems| == |result.body.elems| &&
    forall i :: 0 <= i < |plan.body.elems| ==> Refines(plan.body.elems[i], result.body.elems[i])
  }

  // ------------------------------------------------------------------ position by position

  // The way down from a value. A set's elements have no positions: they are their own identity.
  datatype Step = Key(name: string) | Index(i: nat)

  function At(v: Value, path: seq<Step>): Option<Value> {
    if path == [] then Some(v)
    else
      match path[0]
      case Key(k) =>
        if v.body.Fields? && k in v.body.fields then At(v.body.fields[k], path[1..]) else None
      case Index(i) =>
        if v.body.Elems? && !v.ty.TSet? && i < |v.body.elems| then At(v.body.elems[i], path[1..]) else None
  }

  // At one position: an unknown may become anything of its type, what is known never becomes unknown, a
  // null may become a value, and a value keeps its shape.
  ghost predicate PassesHere(x: Value, y: Value) {
    x.ty == y.ty &&
    (!x.body.Unknown? ==> !y.body.Unknown?) &&
    (!x.body.Unknown? && !x.body.Null? ==> !y.body.Null? && SameShape(x, y))
  }

  ghost predicate SameShape(x: Value, y: Value) {
    match x.body
    case Fields(fs) => y.body.Fields? && y.body.fields.Keys == fs.Keys
    case Elems(es) =>
      y.body.Elems? &&
      if x.ty.TSet? then Unmark(x) == Unmark(y) || exists i :: 0 <= i < |es| && es[i].body.Unknown?
      else |y.body.elems| == |es|
    case _ => Unmark(x) == Unmark(y)
  }

  ghost predicate PassesAt(plan: Value, result: Value, path: seq<Step>) {
    At(plan, path).Some? ==> At(result, path).Some? && PassesHere(At(plan, path).value, At(result, path).value)
  }

  lemma {:induction false} PassesHereFirst(plan: Value, result: Value)
    requires WF(plan) && Refines(plan, result)
    ensures PassesHere(plan, result)
  {
  }

  lemma {:induction false} PassesBelow(plan: Value, result: Value, path: seq<Step>)
    requires WF(plan) && Refines(plan, result)
    ensures PassesAt(plan, result, path)
    decreases |path|
  {
    PassesHereFirst(plan, result);
    if path != [] && At(plan, path).Some? {
      match path[0]
      case Key(k) => PassesBelow(plan.body.fields[k], result.body.fields[k], path[1..]);
      case Index(i) => PassesBelow(plan.body.elems[i], result.body.elems[i], path[1..]);
    }
  }

  lemma {:induction false} PassesInChild(plan: Value, result: Value, step: Step, x: Value, y: Value)
    requires forall path :: PassesAt(plan, result, path)
    requires At(plan, [step]) == Some(x) && At(result, [step]) == Some(y)
    ensures forall path :: PassesAt(x, y, path)
  {
    forall path ensures PassesAt(x, y, path) {
      assert ([step] + path)[1..] == path;
      assert At(plan, [step] + path) == At(x, path) && At(result, [step] + path) == At(y, path);
      assert PassesAt(plan, result, [step] + path);
    }
  }

  lemma {:induction false} AtKey(v: Value, k: string)
    requires v.body.Fields? && k in v.body.fields
    ensures At(v, [Key(k)]) == Some(v.body.fields[k])
  {
    assert [Key(k)][1..] == [];
  }

  lemma {:induction false} AtIndex(v: Value, i: nat)
    requires v.body.Elems? && !v.ty.TSet? && i < |v.body.elems|
    ensures At(v, [Index(i)]) == Some(v.body.elems[i])
  {
    assert [Index(i)][1..] == [];
  }

  lemma {:induction false} RefinesWhenPassing(plan: Value, result: Value)
    requires WF(plan) && forall path :: PassesAt(plan, result, path)
    ensures Refines(plan, result)
    decreases plan
  {
    assert PassesAt(plan, result, []);
    match plan.body
    case Fields(fs) =>
      forall k | k in fs ensures k in result.body.fields && Refines(fs[k], result.body.fields[k]) {
        assert PassesAt(plan, result, [Key(k)]);
        AtKey(plan, k);
        AtKey(result, k);
        PassesInChild(plan, result, Key(k), fs[k], result.body.fields[k]);
        RefinesWhenPassing(fs[k], result.body.fields[k]);
      }
    case Elems(es) =>
      if !plan.ty.TSet? {
        forall i | 0 <= i < |es| ensures Refines(es[i], result.body.elems[i]) {
          AtIndex(plan, i);
          AtIndex(result, i);
          PassesInChild(plan, result, Index(i), es[i], result.body.elems[i]);
          RefinesWhenPassing(es[i], result.body.elems[i]);
        }
      }
    case _ =>
  }

  // The verdict is what is to be checked at each position, no more and no less.
  lemma RefinesExactly(plan: Value, result: Value)
    requires WF(plan)
    ensures Refines(plan, result) <==> forall path :: PassesAt(plan, result, path)
  {
    if Refines(plan, result) {
      forall path ensures PassesAt(plan, result, path) { PassesBelow(plan, result, path); }
    } else if forall path :: PassesAt(plan, result, path) {
      RefinesWhenPassing(plan, result);
    }
  }

  // What the plan knows does not become unknown; a null accepts exactly what is known of its type.
  lemma KnownStaysKnown(plan: Value, result: Value)
    ensures Refines(plan, result) && !plan.body.Unknown? ==> !result.body.Unknown?
    ensures plan.body.Null? ==> (Refines(plan, result) <==> result.ty == plan.ty && !result.body.Unknown?)
    ensures plan.body.Unknown? ==> (Refines(plan, result) <==> result.ty == plan.ty)
  {
  }

  // ------------------------------------------------------------------ a preorder

  lemma {:induction false} Reflexive(v: Value)
    requires WF(v)
    ensures Refines(v, v)
    decreases v
  {
    match v.body
    case Elems(es) => forall i | 0 <= i < |es| ensures Refines(es[i], es[i]) { Reflexive(es[i]); }
    case Fields(fs) => forall k | k in fs ensures Refines(fs[k], fs[k]) { Reflexive(fs[k]); }
    case _ =>
  }

  // A null plan may become a value, so chains through null are part of this.
  lemma {:induction false} Transitive(a: Value, b: Value, c: Value)
    requires Refines(a, b) && Refines(b, c)
    ensures Refines(a, c)
    decreases a
  {
    if a.body.Unknown? || a.body.Null? {
    } else if a.ty.TObj? || a.ty.TMap? {
      forall k | k in a.body.fields ensures Refines(a.body.fields[k], c.body.fields[k]) {
        Transitive(a.body.fields[k], b.body.fields[k], c.body.fields[k]);
      }
    } else if a.ty.TList? || a.ty.TTuple? {
      forall i | 0 <= i < |a.body.elems| ensures Refines(a.body.elems[i], c.body.elems[i]) {
        Transitive(a.body.elems[i], b.body.elems[i], c.body.elems[i]);
      }
    } else if a.ty.TSet? {
      if Unmark(a) == Unmark(b) { UnknownElementsSurviveUnmark(a, b); }
    }
  }

  lemma UnknownElementsSurviveUnmark(a: Value, b: Value)
    requires a.body.Elems? && b.body.Elems? && Unmark(a) == Unmark(b)
    ensures |a.body.elems| == |b.body.elems|
    ensures forall i :: 0 <= i < |a.body.elems| ==> (a.body.elems[i].body.Unknown? <==> b.body.elems[i].body.Unknown?)
  {
    var x, y := Unmark(a).body.elems, Unmark(b).body.elems;
    forall i | 0 <= i < |a.body.elems|
      ensures a.body.elems[i].body.Unknown? <==> b.body.elems[i].body.Unknown?
    {
      assert x[i] == Unmark(a.body.elems[i]) && y[i] == Unmark(b.body.elems[i]);
    }
  }

  // ------------------------------------------------------------------ marks do not matter

  lemma {:induction false} MarksIgnored(plan: Value, result: Value)
    ensures Refines(Unmark(plan), Unmark(result)) == Refines(plan, result)
    decreases plan
  {
    var p, r := Unmark(plan), Unmark(result);
    UnmarkIdempotent(plan);
    UnmarkIdempotent(result);
    if plan.ty == result.ty && plan.body.Fields? && result.body.Fields? {
      forall k | k in plan.body.fields && k in result.body.fields
        ensures Refines(p.body.fields[k], r.body.fields[k]) == Refines(plan.body.fields[k], result.body.fields[k])
      {
        MarksIgnored(plan.body.fields[k], result.body.fields[k]);
      }
      assert p.body.fields.Keys == plan.body.fields.Keys && r.body.fields.Keys == result.body.fields.Keys;
      if KeyedRefines(plan, result) {
        forall k | k in p.body.fields ensures Refines(p.body.fields[k], r.body.fields[k]) {
          assert Refines(plan.body.fields[k], result.body.fields[k]);
        }
      }
      if KeyedRefines(p, r) {
        forall k | k in plan.body.fields ensures Refines(plan.body.fields[k], result.body.fields[k]) {
          assert Refines(p.body.fields[k], r.body.fields[k]);
        }
      }
    } else if plan.ty == result.ty && plan.body.Elems? && result.body.Elems? {
      forall i | 0 <= i < |plan.body.elems| && i < |result.body.elems|
        ensures Refines(p.body.elems[i], r.body.elems[i]) == Refines(plan.body.elems[i], result.body.elems[i])
      {
        MarksIgnored(plan.body.elems[i], result.body.elems[i]);
      }
      assert OrderedRefines(p, r) == OrderedRefines(plan, result);
      UnmarkIdempotent(plan);
      UnknownElementsSurviveUnmark(p, plan);
    }
  }

  // Adding or removing marks anywhere, on either side, never changes the verdict.
  lemma VerdictIgnoresMarks(plan: Value, result: Value, plan': Value, result': Value)
    requires Unmark(plan) == Unmark(plan') && Unmark(result) == Unmark(result')
    ensures Refines(plan, result) == Refines(plan', result')
  {
    MarksIgnored(plan, result);
    MarksIgnored(plan', result');
  }

  lemma SameUpToMarksRefines(plan: Value, result: Value)
    requires WF(plan) && Unmark(plan) == Unmark(result)
    ensures Refines(plan, result)
  {
    Reflexive(plan);
    VerdictIgnoresMarks(plan, plan, plan, result);
  }

  // ------------------------------------------------------------------ what a fully known plan accepts

  lemma {:induction false} KnownAcceptsOnlyItself(plan: Value, result: Value)
    requires WF(plan) && WhollyKnown(plan) && NoNulls(plan)
    ensures Refines(plan, result) <==> Unmark(plan) == Unmark(result)
    decreases plan
  {
    if Unmark(plan) == Unmark(result) { SameUpToMarksRefines(plan, result); }
    if Refines(plan, result) {
      match plan.body
      case Fields(fs) =>
        assert KeyedRefines(plan, result);
        forall k | k in fs ensures Unmark(fs[k]) == Unmark(result.body.fields[k]) {
          KnownAcceptsOnlyItself(fs[k], result.body.fields[k]);
        }
        assert Unmark(plan).body.fields == Unmark(result).body.fields;
      case Elems(es) =>
        if !plan.ty.TSet? {
          assert OrderedRefines(plan, result);
          forall i | 0 <= i < |es| ensures Unmark(es[i]) == Unmark(result.body.elems[i]) {
            KnownAcceptsOnlyItself(es[i], result.body.elems[i]);
          }
          assert Unmark(plan).body.elems == Unmark(result).body.elems;
        }
      case _ =>
    }
  }

  // ------------------------------------------------------------------ does it accept every resolution?

  // r is plan with each unknown replaced by some known value of its type. Elements of a set that is
  // not wholly known may move or collapse when they resolve.
  ghost predicate Resolves(plan: Value, r: Value)
    decreases plan
  {
    plan.ty == r.ty &&
    match plan.body
    case Unknown => WF(r) && WhollyKnown(r)
    case Null => r.body.Null?
    case Leaf(p) => r.body == plan.body
    case Fields(fs) => r.body.Fields? && r.body.fields.Keys == fs.Keys && forall k :: k in fs ==>
      Resolves(fs[k], r.body.fields[k])
    case Elems(es) =>
      r.body.Elems? &&
      if !plan.ty.TSet? then
        |r.body.elems| == |es| && forall i :: 0 <= i < |es| ==> Resolves(es[i], r.body.elems[i])
      else if WhollyKnown(plan) then Unmark(plan) == Unmark(r)
      else
        (forall i :: 0 <= i < |es| ==> exists j :: 0 <= j < |r.body.elems| && Resolves(es[i], r.body.elems[j])) &&
        (forall j :: 0 <= j < |r.body.elems| ==> exists i :: 0 <= i < |es| && Resolves(es[i], r.body.elems[j]))
  }

  predicate PartlyUnknown(e: Value) {
    !e.body.Unknown? && !WhollyKnown(e)
  }

  // Somewhere in the plan, a set with no unknown element but with a partly unknown one.
  predicate HidesUnknownInSet(plan: Value) {
    match plan.body
    case Fields(fs) => exists k :: k in fs && HidesUnknownInSet(fs[k])
    case Elems(es) =>
      if plan.ty.TSet? then
        (forall i :: 0 <= i < |es| ==> !es[i].body.Unknown?) && exists i :: 0 <= i < |es| && PartlyUnknown(es[i])
      else exists i :: 0 <= i < |es| && HidesUnknownInSet(es[i])
    case _ => false
  }

  lemma {:induction false} ResolutionAccepted(plan: Value, r: Value)
    requires WF(plan) && !HidesUnknownInSet(plan) && Resolves(plan, r)
    ensures Refines(plan, r)
    decreases plan
  {
    match plan.body
    case Fields(fs) =>
      forall k | k in fs ensures Refines(fs[k], r.body.fields[k]) { ResolutionAccepted(fs[k], r.body.fields[k]); }
      assert KeyedRefines(plan, r);
    case Elems(es) =>
      if plan.ty.TSet? {
        assert WhollyKnown(plan) ==> Unmark(plan) == Unmark(r);
        SetResolutionAccepted(plan, r);
      } else {
        forall i | 0 <= i < |es| ensures Refines(es[i], r.body.elems[i]) { ResolutionAccepted(es[i], r.body.elems[i]); }
        assert OrderedRefines(plan, r);
      }
    case _ =>
  }

  lemma SetResolutionAccepted(plan: Value, r: Value)
    requires plan.body.Elems? && plan.ty.TSet? && !HidesUnknownInSet(plan)
    requires plan.ty == r.ty && r.body.Elems? && (WhollyKnown(plan) ==> Unmark(plan) == Unmark(r))
    ensures Refines(plan, r)
  {
    var es := plan.body.elems;
    if forall i :: 0 <= i < |es| ==> !es[i].body.Unknown? {
      assert forall i :: 0 <= i < |es| ==> !PartlyUnknown(es[i]);
      assert WhollyKnown(plan);
    }
  }

  // Resolving every unknown to null is one resolution...
  lemma {:induction false} SettleResolves(plan: Value)
    requires WF(plan)
    ensures Resolves(plan, Settle(plan))
    decreases plan
  {
    match plan.body
    case Fields(fs) =>
      forall k | k in fs ensures Resolves(fs[k], Settle(fs[k])) { SettleResolves(fs[k]); }
    case Elems(es) =>
      var ss := Settle(plan).body.elems;
      forall i | 0 <= i < |es| ensures Resolves(es[i], ss[i]) { SettleResolves(es[i]); }
      SettleSame(plan);
    case _ =>
  }

  // ...and a plan hiding an unknown in a set refuses it.
  lemma {:induction false} SettleRefused(plan: Value)
    requires WF(plan) && HidesUnknownInSet(plan)
    ensures !Refines(plan, Settle(plan))
    decreases plan
  {
    match plan.body
    case Fields(fs) =>
      var k :| k in fs && HidesUnknownInSet(fs[k]);
      SettleRefused(fs[k]);
      assert Settle(plan).body.fields[k] == Settle(fs[k]);
    case Elems(es) =>
      if plan.ty.TSet? {
        assert !WhollyKnown(plan);
        SettleSame(plan);
      } else {
        var i :| 0 <= i < |es| && HidesUnknownInSet(es[i]);
        SettleRefused(es[i]);
        assert Settle(plan).body.elems[i] == Settle(es[i]);
      }
  }

  // A plan accepts every value its unknowns can resolve to exactly when no set in it hides a partly
  // unknown element among elements that are all known at their own level. The code looks only at the
  // elements themselves, so such a set is compared whole and its resolution is called a change.
  lemma AcceptsEveryResolution(plan: Value)
    requires WF(plan)
    ensures (forall r :: Resolves(plan, r) ==> Refines(plan, r)) <==> !HidesUnknownInSet(plan)
  {
    if HidesUnknownInSet(plan) {
      SettleResolves(plan);
      SettleRefused(plan);
    } else {
      forall r | Resolves(plan, r) ensures Refines(plan, r) { ResolutionAccepted(plan, r); }
    }
  }

  // Apply hooks that return the planned state as it was decoded, unknowns gone to None, pass exactly then.
  lemma SettledPlanAccepted(plan: Value)
    requires WF(plan)
    ensures Refines(plan, Settle(plan)) <==> !HidesUnknownInSet(plan)
  {
    if HidesUnknownInSet(plan) {
      SettleRefused(plan);
    } else {
      SettleResolves(plan);
      ResolutionAccepted(plan, Settle(plan));
    }
  }

  // A set block whose one object has a member known only after apply is such a plan: it refuses the
  // object even with that member null.
  lemma {:induction false} SetOfHalfKnownObjectRefused()
    ensures var str := TPrim(KStr);
      var t := TObj(map["id" := str]);
      var pe, re := Value(t, Fields(map["id" := Value(str, Unknown, {})]), {}),
                    Value(t, Fields(map["id" := Value(str, Null, {})]), {});
      var plan, applied := Value(TSet(t), Elems([pe]), {}), Value(TSet(t), Elems([re]), {});
      Resolves(plan, applied) && !Refines(plan, applied)
  {
    var str := TPrim(KStr);
    var u, k := Value(str, Unknown, {}), Value(str, Null, {});
    var t := TObj(map["id" := str]);
    var pe, re := Value(t, Fields(map["id" := u]), {}), Value(t, Fields(map["id" := k]), {});
    assert pe.body.fields["id"] == u;
    assert Settle(u) == k;
    assert Settle(pe).body.fields == map["id" := k];
    assert !WhollyKnown(u) && !WhollyKnown(pe) && PartlyUnknown(pe);
    SetOfOneRefused(Value(TSet(t), Elems([pe]), {}), pe);
  }

  lemma {:induction false} SetOfOneRefused(plan: Value, e: Value)
    requires WF(plan) && plan.ty.TSet? && plan.body == Elems([e]) && PartlyUnknown(e)
    ensures Resolves(plan, plan.(body := Elems([Settle(e)]))) && !Refines(plan, plan.(body := Elems([Settle(e)])))
  {
    OneHides(plan, [e]);
    assert Settle(plan).body.elems == [Settle(e)];
    SettleResolves(plan);
    SettleRefused(plan);
  }

  lemma {:induction false} OneHides(plan: Value, es: seq<Value>)
    requires plan.ty.TSet? && plan.body == Elems(es) && |es| == 1 && PartlyUnknown(es[0])
    ensures HidesUnknownInSet(plan)
  {
  }
}
