// Creating a resource: Terraform proposes the configuration as it was written, the handler reads it with
// defaults resolved (src/pyvider/protocols/tfprotov6/handlers/plan_resource_change.py:95-126).
module Creation {
  import opened Options
  import opened CtyValues
  import opened Schema
  import opened Defaults
  import opened DefaultsMerge
  import opened PlanApply
  import opened Lifecycle
  import opened SetPairing
  import opened Flattening

  // No declared default has an unknown in it.
  ghost predicate KnownDefaults(b: Block)
    decreases b
  {
    && (forall i :: 0 <= i < |b.attributes| ==> KnownDefault(b.attributes[i]))
    && (forall j :: 0 <= j < |b.blockTypes| ==> KnownDefaults(b.blockTypes[j].block))
  }

  ghost predicate KnownDefault(a: Attribute)
    decreases a
  {
    (a.default.Some? && Validate(a.ty, a.default.value).Some? ==>
      WhollyKnown(Validate(a.ty, a.default.value).value)) &&
    (a.objectType.Some? ==> KnownDefaults(a.objectType.value))
  }

  // Then resolving brings in no unknown.
  lemma {:induction false} ResolveKnown(v: Value, b: Block)
    requires KnownDefaults(b) && WhollyKnown(v)
    ensures WhollyKnown(ResolveBlock(v, b))
    decreases b, 1
  {
    if v.body.Fields? {
      var rs := ResolveBlock(v, b).body.fields;
      forall k | k in rs ensures WhollyKnown(rs[k]) {
        ResolvedEntries(v, b, k);
        EntryKnown(Get(v.body.fields, k), b, k);
      }
    }
  }

  ghost predicate KnownIfThere(c: Option<Value>) {
    c.Some? ==> WhollyKnown(c.value)
  }

  lemma {:induction false} EntryKnown(c: Option<Value>, b: Block, k: string)
    requires KnownDefaults(b) && KnownIfThere(c)
    ensures KnownIfThere(ResolveEntry(c, b, k))
    decreases b, 0
  {
    var i, j := AttrIndex(b.attributes, k), BlockIndex(b.blockTypes, k);
    if i >= 0 { AttributeKnown(c, b.attributes[i]); } else if j >= 0 { NestedKnown(c, b.blockTypes[j]); }
  }

  lemma {:induction false} AttributeKnown(c: Option<Value>, a: Attribute)
    requires KnownDefault(a) && KnownIfThere(c)
    ensures KnownIfThere(ResolveAttribute(c, a))
    decreases a
  {
    var r := if DefaultValue(a).Some? && IsNull(c) then DefaultValue(a) else c;
    if a.objectType.Some? && r.Some? { ResolveKnown(r.value, a.objectType.value); }
  }

  lemma {:induction false} NestedKnown(c: Option<Value>, n: NestedBlock)
    requires KnownDefaults(n.block) && KnownIfThere(c)
    ensures KnownIfThere(ResolveNested(c, n))
    decreases n
  {
    if Resolvable(c) {
      var v := c.value;
      match n.nesting
      case SINGLE => ResolveKnown(v, n.block);
      case GROUP => ResolveKnown(v, n.block);
      case MAP =>
        if v.body.Fields? {
          forall k | k in v.body.fields
            ensures WhollyKnown(ResolveBlock(v.body.fields[k], n.block))
          {
            ResolveKnown(v.body.fields[k], n.block);
          }
        }
      case _ =>
        if v.body.Elems? {
          forall i | 0 <= i < |v.body.elems|
            ensures WhollyKnown(ResolveBlock(v.body.elems[i], n.block))
          {
            ResolveKnown(v.body.elems[i], n.block);
          }
        }
    }
  }

  // What Terraform proposes then has the effective configuration's values wherever no default is put in.
  lemma {:induction false} ResolvedIsProposed(v: Value, raw: Value, b: Block)
    requires ValidBlock(b) && KnownDefaults(b) && WF(raw) && raw.ty == BlockType(b) && Unmark(v) == Unmark(raw)
    ensures Proposes(v, ResolveBlock(raw, b), b)
    decreases b, 1
  {
    UnmarkedAlike(v, raw);
    if raw.body.Fields? {
      var c := ResolveBlock(raw, b);
      UnmarkedFields(v);
      UnmarkedFields(raw);
      ResolveWF(raw, b);
      EntryTyped(raw, b, "");
      EntryTyped(c, b, "");
      forall k | k in c.body.fields ensures ProposesEntry(v.body.fields[k], c.body.fields[k], b, k) {
        ResolvedEntries(raw, b, k);
        EntryTyped(raw, b, k);
        assert Unmark(v).body.fields[k] == Unmark(v.body.fields[k]);
        assert Unmark(raw).body.fields[k] == Unmark(raw.body.fields[k]);
        EntryProposed(v.body.fields[k], raw.body.fields[k], b, k);
      }
    }
  }

  lemma {:induction false} EntryProposed(v: Value, raw: Value, b: Block, k: string)
    requires ValidBlock(b) && KnownDefaults(b) && k in Names(b)
    requires WF(raw) && raw.ty == FieldType(b, k) && Unmark(v) == Unmark(raw)
    ensures ResolveEntry(Some(raw), b, k).Some? && ProposesEntry(v, ResolveEntry(Some(raw), b, k).value, b, k)
    decreases b, 0
  {
    var i, j := AttrIndex(b.attributes, k), BlockIndex(b.blockTypes, k);
    if i >= 0 { AttributeProposed(v, raw, b.attributes[i]); } else { NestedProposed(v, raw, b.blockTypes[j]); }
  }

  lemma {:induction false} AttributeProposed(v: Value, raw: Value, a: Attribute)
    requires ValidMember(a) && KnownDefault(a) && WF(raw) && raw.ty == a.ty && Unmark(v) == Unmark(raw)
    ensures ResolveAttribute(Some(raw), a).Some? && ProposesAttribute(v, ResolveAttribute(Some(raw), a).value, a)
    decreases a
  {
    if !a.writeOnly {
      if raw.body.Null? && DefaultValue(a).Some? {
        AttributeKnown(Some(raw), a);
      } else if a.objectType.Some? {
        ResolvedIsProposed(v, raw, a.objectType.value);
      }
    }
  }

  lemma {:induction false} NestedProposed(v: Value, raw: Value, n: NestedBlock)
    requires ValidBlock(n.block) && KnownDefaults(n.block)
    requires WF(raw) && raw.ty == NestedType(n) && Unmark(v) == Unmark(raw)
    ensures ResolveNested(Some(raw), n).Some? && ProposesNested(v, ResolveNested(Some(raw), n).value, n)
    decreases n
  {
    UnmarkedAlike(v, raw);
    if n.nesting.SINGLE? || n.nesting.GROUP? {
      ResolvedIsProposed(v, raw, n.block);
    } else if n.nesting.MAP? && raw.body.Fields? {
      UnmarkedFields(v);
      UnmarkedFields(raw);
      forall k | k in raw.body.fields
        ensures k in v.body.fields
        ensures Proposes(v.body.fields[k], ResolveBlock(raw.body.fields[k], n.block), n.block)
      {
        assert Unmark(v).body.fields[k] == Unmark(v.body.fields[k]);
        assert Unmark(raw).body.fields[k] == Unmark(raw.body.fields[k]);
        ResolvedIsProposed(v.body.fields[k], raw.body.fields[k], n.block);
      }
    } else if !n.nesting.MAP? && raw.body.Elems? {
      ItemsProposed(v, raw, n);
    }
  }

  lemma {:induction false} ItemsProposed(v: Value, raw: Value, n: NestedBlock)
    requires ValidBlock(n.block) && KnownDefaults(n.block)
    requires WF(raw) && raw.ty == NestedType(n) && Unmark(v) == Unmark(raw)
    requires (n.nesting.LIST? || n.nesting.SET?) && raw.body.Elems?
    ensures ProposesNested(v, ResolveNested(Some(raw), n).value, n)
    decreases n, 0
  {
    assert v.body.Elems?;
    var vs, rs := v.body.elems, raw.body.elems;
    assert |Unmark(v).body.elems| == |vs| && |Unmark(raw).body.elems| == |rs|;
    forall i | 0 <= i < |rs| ensures i < |vs| && Proposes(vs[i], ResolveBlock(rs[i], n.block), n.block) {
      assert Unmark(v).body.elems[i] == Unmark(vs[i]);
      assert Unmark(raw).body.elems[i] == Unmark(rs[i]);
      ResolvedIsProposed(vs[i], rs[i], n.block);
    }
  }

  // So a create plans each attribute and block that is configured, or has a default, as the effective
  // configuration has it exactly when no default flattens an unknown below and no set element goes astray.
  lemma {:induction false} CreateFollowsConfiguration(m: map<string, Native>, proposed: Value, raw: Value, b: Block,
                                                      k: string)
    requires ValidBlock(b) && KnownDefaults(b) && WF(proposed) && WF(raw) && proposed.ty == raw.ty == BlockType(b)
    requires proposed.body.Fields? && raw.body.Fields? && Unmark(proposed) == Unmark(raw) && k in Names(b)
    requires forall k :: Find(m, k) == DefaultEntry(proposed, ResolveBlock(raw, b), b, k)
    requires Planned(m, Some(ResolveBlock(raw, b)), b).Some?
    requires AttrIndex(b.attributes, k) >= 0 ==>
      !WriteOnly(b, k) && !IsNull(Get(ResolveBlock(raw, b).body.fields, k))
    ensures var planned, c := Planned(m, Some(ResolveBlock(raw, b)), b).value, ResolveBlock(raw, b);
      planned.body.Fields? && k in planned.body.fields && k in c.body.fields && k in proposed.body.fields &&
      (Unmark(planned.body.fields[k]) == Unmark(c.body.fields[k]) <==>
       KeptEntry(proposed.body.fields[k], c.body.fields[k], b, k))
  {
    var c := ResolveBlock(raw, b);
    ResolveWF(raw, b);
    ResolvedIsProposed(proposed, raw, b);
    EntryTyped(c, b, k);
    EntryTyped(proposed, b, k);
    PlannedFollowsConfiguration(m, proposed, c, b, k);
    FollowsWhereProposed(proposed.body.fields[k], c.body.fields[k], b, k);
  }
}
