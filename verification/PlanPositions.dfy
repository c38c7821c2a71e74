// What is planned, refused and accepted attribute by attribute and position by position:
// src/pyvider/protocols/tfprotov6/handlers/{plan_resource_change.py:189-249,utils.py:325-485}.
module PlanPositions {
  import opened Options
  import opened CtyValues
  import opened Schema
  import opened Defaults
  import opened DefaultsMerge
  import opened Refinement
  import opened PlanApply
  import Required

  // ------------------------------------------------------------------ refused plans

  // A plan is refused exactly when, filled, it has a required attribute that is not write-only present and
  // null somewhere, or does not validate.
  lemma {:induction false} RefusedExactly(p: map<string, Native>, cfg: Option<Value>, b: Block, m: map<string, Native>)
    requires ValidBlock(b) && FilledIn(MergeBlock(NDict(p), cfg, b).entries, m, b)
    ensures Planned(p, cfg, b).None? <==>
      Required.MissingRequired(b, NDict(m), true) || Validate(BlockType(b), NDict(m)).None?
    ensures Planned(p, cfg, b).Some? ==> Planned(p, cfg, b) == Validate(BlockType(b), NDict(m))
  {
    var merged := MergeBlock(NDict(p), cfg, b).entries;
    FillFills(merged, b);
    forall k ensures Find(m, k) == Find(Fill(merged, b), k) { FilledAlike(merged, m, Fill(merged, b), b, k); }
    SameEntries(m, Fill(merged, b));
  }

  lemma {:induction false} FilledAlike(given: map<string, Native>, m: map<string, Native>, m': map<string, Native>,
                                       b: Block, k: string)
    requires FilledIn(given, m, b) && FilledIn(given, m', b)
    ensures Find(m, k) == Find(m', k)
  {
    var i := AttrIndex(b.attributes, k);
    if i >= 0 { assert b.attributes[i].name == k; }
  }

  // In particular one whose hook set a required attribute to None.
  lemma {:induction false} NullRequiredIsRefused(p: map<string, Native>, cfg: Option<Value>, b: Block, i: nat)
    requires ValidBlock(b) && i < |b.attributes| && b.attributes[i].required && !b.attributes[i].writeOnly
    requires b.attributes[i].name in p && p[b.attributes[i].name] == NNone
    ensures Planned(p, cfg, b).None?
  {
    var a := b.attributes[i];
    var merged := MergeBlock(NDict(p), cfg, b).entries;
    assert ValidMember(a);
    DeclaredDefaults(a);
    if Mergeable(cfg) { ConfigurationWins(NDict(p), cfg, b, i); }
    FilledAt(merged, b, i);
    MissingAt(b, Fill(merged, b), i);
  }

  lemma {:induction false} MissingAt(b: Block, m: map<string, Native>, i: nat)
    requires i < |b.attributes| && b.attributes[i].required && !b.attributes[i].writeOnly
    requires Find(m, b.attributes[i].name) == Some(NNone)
    ensures Required.MissingRequired(b, NDict(m), true)
  {
    assert Required.MissingMember(b, m, i, true);
    assert Required.MissingFrom(b, m, 0, true);
  }

  // ------------------------------------------------------------------ where no default is put in

  // An attribute that is write-only, not configured, configured with an unknown, or has neither a default
  // nor members, is planned as the hook left it, or unknown.
  lemma {:induction false} HookIsPlanned(p: map<string, Native>, cfg: Value, b: Block, i: nat)
    requires ValidBlock(b) && WF(cfg) && cfg.ty == BlockType(b) && cfg.body.Fields? && i < |b.attributes|
    requires var a := b.attributes[i]; var c := Get(cfg.body.fields, a.name);
      a.writeOnly || c.None? || c.value.body.Null? || c.value.body.Unknown? ||
      (a.default.None? && a.objectType.None?)
    requires Planned(p, Some(cfg), b).Some?
    ensures var a, planned := b.attributes[i], Planned(p, Some(cfg), b).value;
      planned.body.Fields? && a.name in planned.body.fields &&
      if a.computed && !a.required && (a.name !in p || p[a.name].NNone?)
      then planned.body.fields[a.name] == Value(a.ty, Unknown, {})
      else Validate(a.ty, if a.name in p then p[a.name] else NNone) == Some(planned.body.fields[a.name])
  {
    EntryPlanned(p, cfg, b, i);
    ConfigurationWins(NDict(p), Some(cfg), b, i);
  }

  // The planned value of an attribute, from its merged entry.
  lemma {:induction false} EntryPlanned(p: map<string, Native>, cfg: Value, b: Block, i: nat)
    requires ValidBlock(b) && cfg.body.Fields? && i < |b.attributes| && Planned(p, Some(cfg), b).Some?
    ensures var a, planned := b.attributes[i], Planned(p, Some(cfg), b).value;
      var e := Find(MergeBlock(NDict(p), Some(cfg), b).entries, a.name);
      planned.ty == BlockType(b) && BlockType(b).TObj? && planned.body.Fields? && a.name in planned.body.fields &&
      if a.computed && !a.required && OrNone(e).NNone?
      then planned.body.fields[a.name] == Value(a.ty, Unknown, {})
      else Validate(a.ty, OrNone(e)) == Some(planned.body.fields[a.name])
  {
    var m := MergeBlock(NDict(p), Some(cfg), b).entries;
    FilledAt(m, b, i);
    ValidatedBlock(Fill(m, b), b);
    AttributeNamed(b, i);
    UnknownValidates(b.attributes[i].ty);
  }

  lemma {:induction false} UnknownValidates(ty: Type)
    ensures Validate(ty, NCty(Value(ty, Unknown, {}))) == Some(Value(ty, Unknown, {}))
  {
  }

  // ------------------------------------------------------------------ what is known never becomes unknown

  // An attribute the hook left null, and that is not the provider's to compute, is planned null, and what
  // passes there are exactly the values of its type that are not unknown.
  lemma {:induction false} NullPositionAccepts(p: map<string, Native>, cfg: Value, s: Value, b: Block, i: nat)
    requires ValidBlock(b) && WF(cfg) && cfg.ty == BlockType(b) && cfg.body.Fields? && i < |b.attributes|
    requires var a := b.attributes[i]; !(a.computed && !a.required) && (a.name !in p || p[a.name].NNone?)
    requires Planned(p, Some(cfg), b).Some?
    ensures var k, planned := b.attributes[i].name, Planned(p, Some(cfg), b).value;
      planned.body.Fields? && k in planned.body.fields && planned.body.fields[k] == Value(b.attributes[i].ty, Null, {})
    ensures var a := b.attributes[i];
      StateHonoursAt(Find(p, a.name), Get(cfg.body.fields, a.name), s, b, a.name, false) <==>
      s.ty == a.ty && !s.body.Unknown?
  {
    var a := b.attributes[i];
    assert ValidMember(a);
    DeclaredDefaults(a);
    EntryPlanned(p, cfg, b, i);
    ConfigurationWins(NDict(p), Some(cfg), b, i);
    PositionAccepts(p, cfg, s, b, i);
    KnownStaysKnown(Value(a.ty, Null, {}), s);
  }

  // What passes at an attribute is what its planned value refines to.
  lemma {:induction false} PositionAccepts(p: map<string, Native>, cfg: Value, s: Value, b: Block, i: nat)
    requires ValidBlock(b) && WF(cfg) && cfg.ty == BlockType(b) && cfg.body.Fields? && i < |b.attributes|
    requires Planned(p, Some(cfg), b).Some?
    ensures var k, planned := b.attributes[i].name, Planned(p, Some(cfg), b).value;
      planned.body.Fields? && k in planned.body.fields &&
      (StateHonoursAt(Find(p, k), Get(cfg.body.fields, k), s, b, k, false) <==> Refines(planned.body.fields[k], s))
  {
    var k := b.attributes[i].name;
    var m := MergeBlock(NDict(p), Some(cfg), b).entries;
    ValidatedBlock(Fill(m, b), b);
    MergedEntries(NDict(p), Some(cfg), b, k);
    FilledEntries(m, b, k);
    AttributeNamed(b, i);
    EntryTyped(cfg, b, k);
    FilledEntryAgrees(Find(p, k), Get(cfg.body.fields, k), s, b, k);
  }

  // At any depth, a position of the planned state that is not unknown is there in every new state that
  // passes, and is not unknown in it.
  lemma {:induction false} PlannedStaysKnown(p: map<string, Native>, cfg: Value, s: Value, b: Block, path: seq<Step>)
    requires ValidBlock(b) && WFNative(NDict(p)) && WF(cfg) && cfg.ty == BlockType(b) && cfg.body.Fields?
    requires Planned(p, Some(cfg), b).Some? && StateHonours(p, cfg, s, b, false)
    ensures var x, y := At(Planned(p, Some(cfg), b).value, path), At(s, path);
      x.Some? ==> y.Some? && x.value.ty == y.value.ty && (!x.value.body.Unknown? ==> !y.value.body.Unknown?)
  {
    AcceptedExactly(p, cfg, s, b);
    PlannedWF(p, cfg, b);
    PassesBelow(Planned(p, Some(cfg), b).value, s, path);
  }

  // Altogether, a new state passes exactly when it passes at every position of the planned state.
  lemma {:induction false} AcceptedByPosition(p: map<string, Native>, cfg: Value, s: Value, b: Block)
    requires ValidBlock(b) && WFNative(NDict(p)) && WF(cfg) && cfg.ty == BlockType(b) && cfg.body.Fields?
    requires Planned(p, Some(cfg), b).Some?
    ensures StateHonours(p, cfg, s, b, false) <==> forall path :: PassesAt(Planned(p, Some(cfg), b).value, s, path)
  {
    AcceptedExactly(p, cfg, s, b);
    PlannedWF(p, cfg, b);
    RefinesExactly(Planned(p, Some(cfg), b).value, s);
  }

  lemma {:induction false} PlannedWF(p: map<string, Native>, cfg: Value, b: Block)
    requires ValidBlock(b) && WFNative(NDict(p)) && WF(cfg) && cfg.ty == BlockType(b) && cfg.body.Fields?
    requires Planned(p, Some(cfg), b).Some?
    ensures WF(Planned(p, Some(cfg), b).value)
  {
    var m := MergeBlock(NDict(p), Some(cfg), b);
    MergedWF(NDict(p), Some(cfg), b);
    forall k | k in Fill(m.entries, b) ensures WFNative(Fill(m.entries, b)[k]) { FilledEntries(m.entries, b, k); }
    ValidateWF(BlockType(b), NDict(Fill(m.entries, b)));
  }

  // ------------------------------------------------------------------ merging keeps plans well formed

  ghost predicate WFIfThere(p: Option<Native>) {
    p.Some? ==> WFNative(p.value)
  }


  lemma {:induction false} ToNativeWF(v: Value)
    ensures WFNative(ToNative(v))
    decreases v
  {
    match v.body
    case Elems(es) => forall i | 0 <= i < |es| ensures WFNative(ToNative(es[i])) { ToNativeWF(es[i]); }
    case Fields(fs) => forall k | k in fs ensures WFNative(ToNative(fs[k])) { ToNativeWF(fs[k]); }
    case _ =>
  }

  lemma {:induction false} MergedWF(p: Native, cfg: Option<Value>, b: Block)
    requires WFNative(p)
    ensures WFNative(MergeBlock(p, cfg, b))
    decreases b, 1
  {
    if p.NDict? && Mergeable(cfg) {
      var m := MergeBlock(p, cfg, b).entries;
      forall k | k in m ensures WFNative(m[k]) {
        MergedEntries(p, cfg, b, k);
        MergedEntryWF(Find(p.entries, k), Get(cfg.value.body.fields, k), b, k);
      }
    }
  }

  lemma {:induction false} MergedEntryWF(p: Option<Native>, cfg: Option<Value>, b: Block, k: string)
    requires WFIfThere(p)
    ensures WFIfThere(MergeEntry(p, cfg, b, k))
    decreases b, 0
  {
    var i, j := AttrIndex(b.attributes, k), BlockIndex(b.blockTypes, k);
    if i >= 0 {
      MergedAttributeWF(p, cfg, b.attributes[i]);
    } else if j >= 0 && p.Some? {
      MergedNestedWF(p.value, cfg, b.blockTypes[j]);
    }
  }

  lemma {:induction false} MergedAttributeWF(p: Option<Native>, cfg: Option<Value>, a: Attribute)
    requires WFIfThere(p)
    ensures WFIfThere(MergeAttribute(p, cfg, a))
    decreases a
  {
    if Supplies(cfg, a) {
      ToNativeWF(cfg.value);
    } else if Corrects(cfg, a) && p.Some? {
      MergedWF(p.value, cfg, a.objectType.value);
    }
  }

  lemma {:induction false} MergedNestedWF(p: Native, cfg: Option<Value>, n: NestedBlock)
    requires WFNative(p)
    ensures WFNative(MergeNested(p, cfg, n))
    decreases n
  {
    if Resolvable(cfg) {
      match n.nesting
      case SINGLE => MergedWF(p, cfg, n.block);
      case GROUP => MergedWF(p, cfg, n.block);
      case MAP =>
        if p.NDict? && cfg.value.body.Fields? {
          forall k | k in p.entries ensures WFNative(MergeNested(p, cfg, n).entries[k]) {
            MergedWF(p.entries[k], Get(cfg.value.body.fields, k), n.block);
          }
        }
      case _ =>
        if Items(p) && cfg.value.body.Elems? {
          forall i | 0 <= i < |p.items| ensures WFNative(MergeNested(p, cfg, n).items[i]) {
            MergedWF(p.items[i], Origin(p.items, cfg.value.body.elems, n, i), n.block);
          }
        }
    }
  }
}
