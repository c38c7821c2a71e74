// Where the plan of the default hooks departs from the configuration it was made from:
// src/pyvider/resources/base.py:446-520 followed by src/pyvider/schema/defaults.py:95-315.
module Flattening {
  import opened Options
  import opened CtyValues
  import opened Schema
  import opened Defaults
  import opened DefaultsMerge
  import opened PlanApply
  import opened Lifecycle
  import opened SetPairing

  // ------------------------------------------------------------------ what merging makes of a value

  // Merging cfg into the plan made of v gives s, up to marks: a default's configuration with its unknowns
  // null wherever it supplies a value, and v everywhere else.
  ghost predicate Gives(v: Value, cfg: Option<Value>, s: Value, b: Block)
    decreases b, 1
  {
    if !v.body.Fields? || !Mergeable(cfg) then Unmark(v) == Unmark(s)
    else
      s.body.Fields? && s.body.fields.Keys == v.body.fields.Keys &&
      forall k :: k in v.body.fields ==>
        GivesEntry(v.body.fields[k], Get(cfg.value.body.fields, k), s.body.fields[k], b, k)
  }

  ghost predicate GivesEntry(v: Value, cfg: Option<Value>, s: Value, b: Block, k: string)
    decreases b, 0
  {
    var i, j := AttrIndex(b.attributes, k), BlockIndex(b.blockTypes, k);
    if i >= 0 then GivesAttribute(v, cfg, s, b.attributes[i]) else j >= 0 ==> GivesNested(v, cfg, s, b.blockTypes[j])
  }

  ghost predicate GivesAttribute(v: Value, cfg: Option<Value>, s: Value, a: Attribute)
    decreases a
  {
    if Supplies(cfg, a) then Unmark(Settle(cfg.value)) == Unmark(s)
    else if Corrects(cfg, a) then Gives(v, cfg, s, a.objectType.value)
    else Unmark(v) == Unmark(s)
  }

  ghost predicate GivesNested(v: Value, cfg: Option<Value>, s: Value, n: NestedBlock)
    decreases n
  {
    if !Resolvable(cfg) then Unmark(v) == Unmark(s)
    else if n.nesting.SINGLE? || n.nesting.GROUP? then Gives(v, cfg, s, n.block)
    else if n.nesting.MAP? && v.body.Fields? && cfg.value.body.Fields? then
      s.body.Fields? && s.body.fields.Keys == v.body.fields.Keys &&
      forall k :: k in v.body.fields ==>
        Gives(v.body.fields[k], Get(cfg.value.body.fields, k), s.body.fields[k], n.block)
    else if !n.nesting.MAP? && v.body.Elems? && cfg.value.body.Elems? then
      s.body.Elems? && |s.body.elems| == |v.body.elems| &&
      forall i :: 0 <= i < |v.body.elems| ==>
        Gives(v.body.elems[i], Governing(v.body.elems, cfg.value.body.elems, n, i), s.body.elems[i], n.block)
    else Unmark(v) == Unmark(s)
  }

  // n is the plan of s, but for marks.
  ghost predicate Denotes(n: Native, s: Value) {
    Validate(s.ty, n).Some? && Unmark(Validate(s.ty, n).value) == Unmark(s)
  }

  lemma {:induction false} FieldsDenote(v: Value, m: map<string, Native>, s: Value)
    requires WF(v) && v.body.Fields? && m.Keys == v.body.fields.Keys && s.ty == v.ty && WF(s)
    requires forall k :: k in m ==> Validate(v.body.fields[k].ty, m[k]).Some?
    ensures Validate(v.ty, NDict(m)).Some?
    ensures Denotes(NDict(m), s) <==>
      s.body.Fields? && s.body.fields.Keys == m.Keys && forall k :: k in m ==> Denotes(m[k], s.body.fields[k])
  {
    var r := Validate(v.ty, NDict(m));
    assert forall k :: k in m ==> Entry(m, k) == m[k];
    assert r.Some? && r.value.body.Fields? && r.value.body.fields.Keys == m.Keys;
    forall k | k in m ensures r.value.body.fields[k] == Validate(v.body.fields[k].ty, m[k]).value {}
    if s.body.Fields? && s.body.fields.Keys == m.Keys {
      forall k | k in m ensures s.body.fields[k].ty == v.body.fields[k].ty {}
    }
    SameFields(r.value, s);
  }

  lemma {:induction false} ItemsDenote(t: Type, p: Native, s: Value)
    requires WF(s) && (s.ty == TList(t) || s.ty == TSet(t)) && Items(p)
    requires forall i :: 0 <= i < |p.items| ==> Validate(t, p.items[i]).Some?
    ensures Validate(s.ty, p).Some?
    ensures Denotes(p, s) <==>
      s.body.Elems? && |s.body.elems| == |p.items| &&
      forall i :: 0 <= i < |p.items| ==> Denotes(p.items[i], s.body.elems[i])
  {
    assert ValidateItems(s.ty, p.items).Some?;
    ValidatedItems(p, t, s.ty);
    SameElems(Validate(s.ty, p).value, s);
  }

  lemma {:induction false} BlockFollows(v: Value, cfg: Option<Value>, s: Value, b: Block)
    requires ValidBlock(b) && WF(v) && v.ty == BlockType(b) && WF(s) && s.ty == v.ty && TypedAs(cfg, BlockType(b))
    ensures Validate(BlockType(b), MergeBlock(Preserve(v), cfg, b)).Some?
    ensures Denotes(MergeBlock(Preserve(v), cfg, b), s) <==> Gives(v, cfg, s, b)
    decreases b, 1
  {
    if v.body.Fields? && Mergeable(cfg) {
      MembersFollow(v, cfg, s, b);
    } else {
      PreserveRoundTrip(v);
    }
  }

  lemma {:induction false} MembersFollow(v: Value, cfg: Option<Value>, s: Value, b: Block)
    requires ValidBlock(b) && WF(v) && v.ty == BlockType(b) && WF(s) && s.ty == v.ty && TypedAs(cfg, BlockType(b))
    requires v.body.Fields? && Mergeable(cfg)
    ensures Validate(BlockType(b), MergeBlock(Preserve(v), cfg, b)).Some?
    ensures Denotes(MergeBlock(Preserve(v), cfg, b), s) <==> Gives(v, cfg, s, b)
    decreases b, 0, 1
  {
    var m := MergeBlock(Preserve(v), cfg, b).entries;
    PreservedMembers(v);
    EntryTyped(v, b, "");
    forall k | k in v.body.fields
      ensures Find(m, k) == MergeEntry(Some(Preserve(v.body.fields[k])), Get(cfg.value.body.fields, k), b, k)
      ensures Find(m, k).Some? && Validate(v.body.fields[k].ty, m[k]).Some?
      ensures s.body.Fields? && k in s.body.fields ==>
        (Denotes(m[k], s.body.fields[k]) <==>
         GivesEntry(v.body.fields[k], Get(cfg.value.body.fields, k), s.body.fields[k], b, k))
    {
      MergedEntries(Preserve(v), cfg, b, k);
      EntryTyped(v, b, k);
      EntryTyped(cfg.value, b, k);
      var w := v.body.fields[k];
      if s.body.Fields? { EntryTyped(s, b, k); w := s.body.fields[k]; }
      EntryFollows(v.body.fields[k], Get(cfg.value.body.fields, k), w, b, k);
    }
    forall k | k in m ensures k in v.body.fields { MergedEntries(Preserve(v), cfg, b, k); }
    FieldsDenote(v, m, s);
  }

  lemma {:induction false} EntryFollows(v: Value, cfg: Option<Value>, s: Value, b: Block, k: string)
    requires ValidBlock(b) && k in Names(b) && WF(v) && v.ty == FieldType(b, k) && WF(s) && s.ty == v.ty
    requires TypedAs(cfg, FieldType(b, k))
    ensures MergeEntry(Some(Preserve(v)), cfg, b, k).Some?
    ensures Validate(v.ty, MergeEntry(Some(Preserve(v)), cfg, b, k).value).Some?
    ensures Denotes(MergeEntry(Some(Preserve(v)), cfg, b, k).value, s) <==> GivesEntry(v, cfg, s, b, k)
    decreases b, 0, 0
  {
    var i, j := AttrIndex(b.attributes, k), BlockIndex(b.blockTypes, k);
    if i >= 0 { AttributeFollows(v, cfg, s, b.attributes[i]); } else { NestedFollows(v, cfg, s, b.blockTypes[j]); }
  }

  lemma {:induction false} AttributeFollows(v: Value, cfg: Option<Value>, s: Value, a: Attribute)
    requires ValidMember(a) && WF(v) && v.ty == a.ty && WF(s) && s.ty == a.ty && TypedAs(cfg, a.ty)
    ensures MergeAttribute(Some(Preserve(v)), cfg, a).Some?
    ensures Validate(v.ty, MergeAttribute(Some(Preserve(v)), cfg, a).value).Some?
    ensures Denotes(MergeAttribute(Some(Preserve(v)), cfg, a).value, s) <==> GivesAttribute(v, cfg, s, a)
    decreases a
  {
    if Supplies(cfg, a) {
      NativeRoundTrip(cfg.value);
      UnmarkIdempotent(Settle(cfg.value));
    } else if Corrects(cfg, a) {
      BlockFollows(v, cfg, s, a.objectType.value);
    } else {
      PreserveRoundTrip(v);
    }
  }

  lemma {:induction false} NestedFollows(v: Value, cfg: Option<Value>, s: Value, n: NestedBlock)
    requires ValidBlock(n.block) && WF(v) && v.ty == NestedType(n) && WF(s) && s.ty == v.ty
    requires TypedAs(cfg, NestedType(n))
    ensures Validate(v.ty, MergeNested(Preserve(v), cfg, n)).Some?
    ensures Denotes(MergeNested(Preserve(v), cfg, n), s) <==> GivesNested(v, cfg, s, n)
    decreases n
  {
    if Resolvable(cfg) && (n.nesting.SINGLE? || n.nesting.GROUP?) {
      BlockFollows(v, cfg, s, n.block);
    } else if Resolvable(cfg) && n.nesting.MAP? && v.body.Fields? && cfg.value.body.Fields? {
      KeyedFollows(v, cfg.value, s, n);
    } else if Resolvable(cfg) && !n.nesting.MAP? && v.body.Elems? && cfg.value.body.Elems? {
      ItemsFollow(v, cfg.value, s, n);
    } else {
      PreserveRoundTrip(v);
      PreservedShape(v);
    }
  }

  lemma {:induction false} KeyedFollows(v: Value, cfg: Value, s: Value, n: NestedBlock)
    requires ValidBlock(n.block) && WF(v) && v.ty == NestedType(n) && WF(s) && s.ty == v.ty
    requires TypedAs(Some(cfg), NestedType(n)) && n.nesting.MAP? && v.body.Fields? && cfg.body.Fields?
    ensures Validate(v.ty, MergeNested(Preserve(v), Some(cfg), n)).Some?
    ensures Denotes(MergeNested(Preserve(v), Some(cfg), n), s) <==> GivesNested(v, Some(cfg), s, n)
    decreases n, 0
  {
    PreservedMembers(v);
    var m := MergeNested(Preserve(v), Some(cfg), n).entries;
    forall k | k in m
      ensures Validate(v.body.fields[k].ty, m[k]).Some?
      ensures s.body.Fields? && k in s.body.fields ==>
        (Denotes(m[k], s.body.fields[k]) <==>
         Gives(v.body.fields[k], Get(cfg.body.fields, k), s.body.fields[k], n.block))
    {
      assert m[k] == MergeBlock(Preserve(v.body.fields[k]), Get(cfg.body.fields, k), n.block);
      var w := if s.body.Fields? && k in s.body.fields then s.body.fields[k] else v.body.fields[k];
      BlockFollows(v.body.fields[k], Get(cfg.body.fields, k), w, n.block);
    }
    FieldsDenote(v, m, s);
  }

  lemma {:induction false} ItemsFollow(v: Value, cfg: Value, s: Value, n: NestedBlock)
    requires ValidBlock(n.block) && WF(v) && v.ty == NestedType(n) && WF(s) && s.ty == v.ty
    requires TypedAs(Some(cfg), NestedType(n))
    requires (n.nesting.LIST? || n.nesting.SET?) && v.body.Elems? && cfg.body.Elems?
    ensures Validate(v.ty, MergeNested(Preserve(v), Some(cfg), n)).Some?
    ensures Denotes(MergeNested(Preserve(v), Some(cfg), n), s) <==> GivesNested(v, Some(cfg), s, n)
    decreases n, 0
  {
    PreservedShape(v);
    var es, p := v.body.elems, MergeNested(Preserve(v), Some(cfg), n);
    forall i | 0 <= i < |es|
      ensures Validate(BlockType(n.block), p.items[i]).Some?
      ensures s.body.Elems? && i < |s.body.elems| ==>
        (Denotes(p.items[i], s.body.elems[i]) <==>
         Gives(es[i], Governing(es, cfg.body.elems, n, i), s.body.elems[i], n.block))
    {
      OriginGoverns(es, cfg.body.elems, n, i);
      var o := Governing(es, cfg.body.elems, n, i);
      assert p.items[i] == MergeBlock(Preserve(es[i]), o, n.block);
      var w := if s.body.Elems? && i < |s.body.elems| then s.body.elems[i] else es[i];
      BlockFollows(es[i], o, w, n.block);
    }
    ItemsDenote(BlockType(n.block), p, s);
  }

  // ------------------------------------------------------------------ does the default plan follow the configuration?

  // Whether the planned state has the configuration's value c under k, v being the proposal's. A write-only
  // attribute, and one neither of them has, is planned null, or unknown if the provider may compute it. What
  // only the configuration has is copied from there, where only a known value survives.
  ghost predicate FollowsAt(v: Value, c: Value, b: Block, k: string) {
    var i := AttrIndex(b.attributes, k);
    if i >= 0 && (b.attributes[i].writeOnly || (v.body.Null? && c.body.Null?)) then
      if b.attributes[i].computed && !b.attributes[i].required then c.body.Unknown? else c.body.Null?
    else if v.body.Null? then c.body.Unknown? || WhollyKnown(c)
    else GivesEntry(v, Some(c), c, b, k)
  }

  // With the default hooks, attribute by attribute and block by block, whatever Terraform proposed, the
  // planned state has the configuration's value exactly there.
  lemma {:induction false} PlannedFollowsConfiguration(m: map<string, Native>, proposed: Value, cfg: Value, b: Block,
                                                       k: string)
    requires ValidBlock(b) && WF(proposed) && WF(cfg) && proposed.ty == cfg.ty == BlockType(b) && k in Names(b)
    requires proposed.body.Fields? && cfg.body.Fields?
    requires forall k :: Find(m, k) == DefaultEntry(proposed, cfg, b, k)
    requires Planned(m, Some(cfg), b).Some?
    ensures var planned := Planned(m, Some(cfg), b).value;
      planned.body.Fields? && k in planned.body.fields && k in cfg.body.fields && k in proposed.body.fields &&
      (Unmark(planned.body.fields[k]) == Unmark(cfg.body.fields[k]) <==>
       FollowsAt(proposed.body.fields[k], cfg.body.fields[k], b, k))
  {
    EntryTyped(proposed, b, k);
    EntryTyped(cfg, b, k);
    PlannedAsConfigured(m, cfg, b, k);
    DefaultEntryFollows(proposed.body.fields[k], cfg.body.fields[k], b, k);
  }

  lemma {:induction false} DefaultEntryFollows(v: Value, c: Value, b: Block, k: string)
    requires ValidBlock(b) && k in Names(b) && WF(v) && WF(c) && v.ty == FieldType(b, k) && c.ty == FieldType(b, k)
    ensures ConfiguredAt(BaseEntry(Some(Preserve(v)), Some(c), b, k), c, b, k) <==> FollowsAt(v, c, b, k)
  {
    PreserveSomething(v);
    var i := AttrIndex(b.attributes, k);
    if i >= 0 && (b.attributes[i].writeOnly || (v.body.Null? && c.body.Null?)) {
      AbsentFollows(v, c, b, k);
    } else if !v.body.Null? {
      assert BaseEntry(Some(Preserve(v)), Some(c), b, k) == Some(Preserve(v));
      EntryFollows(v, Some(c), c, b, k);
      EntryAgrees(Some(Preserve(v)), Some(c), c, b, k, true);
    } else {
      CopiedFollows(v, c, b, k);
    }
  }

  lemma {:induction false} AbsentFollows(v: Value, c: Value, b: Block, k: string)
    requires ValidBlock(b) && AttrIndex(b.attributes, k) >= 0 && k in Names(b) && c.ty == FieldType(b, k)
    requires WriteOnly(b, k) || (v.body.Null? && c.body.Null?)
    ensures ConfiguredAt(BaseEntry(Some(Preserve(v)), Some(c), b, k), c, b, k) <==> FollowsAt(v, c, b, k)
  {
    assert BaseEntry(Some(Preserve(v)), Some(c), b, k) == Some(NNone);
    KeptAsPlanned(NNone, c, b, k);
  }

  // No default governs an entry the configuration leaves null or unknown, or a write-only one.
  lemma {:induction false} KeptAsPlanned(p: Native, c: Value, b: Block, k: string)
    requires ValidBlock(b) && k in Names(b) && Validate(FieldType(b, k), p).Some?
    requires WriteOnly(b, k) || !Resolvable(Some(c))
    ensures HonoursEntry(Some(p), Some(c), c, b, k, true, false) <==>
      Unmark(Validate(FieldType(b, k), p).value) == Unmark(c)
  {
    var i, j := AttrIndex(b.attributes, k), BlockIndex(b.blockTypes, k);
    if i >= 0 {
      assert FieldType(b, k) == b.attributes[i].ty;
      assert !Supplies(Some(c), b.attributes[i]) && !Corrects(Some(c), b.attributes[i]);
    } else {
      assert FieldType(b, k) == NestedType(b.blockTypes[j]);
    }
  }

  lemma {:induction false} CopiedFollows(v: Value, c: Value, b: Block, k: string)
    requires ValidBlock(b) && k in Names(b) && WF(c) && c.ty == FieldType(b, k)
    requires v.body.Null? && !WriteOnly(b, k) && (AttrIndex(b.attributes, k) >= 0 ==> !c.body.Null?)
    ensures ConfiguredAt(BaseEntry(Some(Preserve(v)), Some(c), b, k), c, b, k) <==>
      c.body.Unknown? || WhollyKnown(c)
  {
    var p := BaseEntry(Some(Preserve(v)), Some(c), b, k);
    if c.body.Null? || c.body.Unknown? {
      assert p == Some(if c.body.Null? then NNone else NCty(c));
      KeptAsPlanned(p.value, c, b, k);
    } else {
      assert p == Some(ToNative(c));
      ToNativeSomething(c);
      OwnEntryIsKept(c, b, k);
      NativeRoundTrip(c);
      NativeRoundTripExact(c);
      UnmarkIdempotent(c);
      UnmarkIdempotent(Settle(c));
      SettleSame(c);
      EntryAgrees(p, Some(c), c, b, k, true);
    }
  }

  // ------------------------------------------------------------------ what Terraform proposes

  // The proposal has the configuration's values, but for what the configuration has from defaults: there
  // it may hold null, the prior value or anything else.
  ghost predicate Proposes(v: Value, c: Value, b: Block)
    decreases b, 1
  {
    if v.body.Fields? && c.body.Fields? then
      v.body.fields.Keys == c.body.fields.Keys &&
      forall k :: k in c.body.fields ==> ProposesEntry(v.body.fields[k], c.body.fields[k], b, k)
    else Unmark(v) == Unmark(c)
  }

  ghost predicate ProposesEntry(v: Value, c: Value, b: Block, k: string)
    decreases b, 0
  {
    var i, j := AttrIndex(b.attributes, k), BlockIndex(b.blockTypes, k);
    if i >= 0 then ProposesAttribute(v, c, b.attributes[i]) else j >= 0 ==> ProposesNested(v, c, b.blockTypes[j])
  }

  ghost predicate ProposesAttribute(v: Value, c: Value, a: Attribute)
    decreases a
  {
    Supplies(Some(c), a) ||
    if Corrects(Some(c), a) then Proposes(v, c, a.objectType.value) else Unmark(v) == Unmark(c)
  }

  ghost predicate ProposesNested(v: Value, c: Value, n: NestedBlock)
    decreases n
  {
    if n.nesting.SINGLE? || n.nesting.GROUP? then Proposes(v, c, n.block)
    else if n.nesting.MAP? && v.body.Fields? && c.body.Fields? then
      v.body.fields.Keys == c.body.fields.Keys &&
      forall k :: k in c.body.fields ==> Proposes(v.body.fields[k], c.body.fields[k], n.block)
    else if !n.nesting.MAP? && v.body.Elems? && c.body.Elems? then
      |v.body.elems| == |c.body.elems| &&
      forall i :: 0 <= i < |c.body.elems| ==> Proposes(v.body.elems[i], c.body.elems[i], n.block)
    else Unmark(v) == Unmark(c)
  }

  // What the configuration supplies is wholly known; and an element of a set of two or more either finds
  // its own configuration, and the same holds inside it, or has its configuration's value all the same.
  ghost predicate Kept(v: Value, c: Value, b: Block)
    decreases b, 1
  {
    v.body.Fields? && c.body.Fields? ==>
    forall k :: k in v.body.fields && k in c.body.fields ==> KeptEntry(v.body.fields[k], c.body.fields[k], b, k)
  }

  ghost predicate KeptEntry(v: Value, c: Value, b: Block, k: string)
    decreases b, 0
  {
    var i, j := AttrIndex(b.attributes, k), BlockIndex(b.blockTypes, k);
    if i >= 0 then KeptAttribute(v, c, b.attributes[i]) else j >= 0 ==> KeptNested(v, c, b.blockTypes[j])
  }

  ghost predicate KeptAttribute(v: Value, c: Value, a: Attribute)
    decreases a
  {
    if Supplies(Some(c), a) then WhollyKnown(c) else Corrects(Some(c), a) ==> Kept(v, c, a.objectType.value)
  }

  ghost predicate KeptNested(v: Value, c: Value, n: NestedBlock)
    decreases n
  {
    match n.nesting
    case SINGLE => Kept(v, c, n.block)
    case GROUP => Kept(v, c, n.block)
    case MAP =>
      v.body.Fields? && c.body.Fields? ==>
      forall k :: k in v.body.fields && k in c.body.fields ==> Kept(v.body.fields[k], c.body.fields[k], n.block)
    case _ =>
      v.body.Elems? && c.body.Elems? && |v.body.elems| == |c.body.elems| ==>
      forall i :: 0 <= i < |c.body.elems| ==>
        if GoesAstray(v.body.elems, c.body.elems, n, i)
        then Gives(v.body.elems[i], Governing(v.body.elems, c.body.elems, n, i), c.body.elems[i], n.block)
        else Kept(v.body.elems[i], c.body.elems[i], n.block)
  }

  ghost predicate GoesAstray(vs: seq<Value>, cs: seq<Value>, n: NestedBlock, i: nat)
    requires |vs| == |cs| && i < |vs|
  {
    n.nesting.SET? && |vs| > 1 && !FindsItsOwn(vs, cs, n.block, i)
  }

  // Of such a proposal, merging the configuration makes the configuration exactly when that is so.
  lemma {:induction false} GivenWhenKept(v: Value, c: Value, b: Block)
    requires ValidBlock(b) && WF(c) && c.ty == BlockType(b) && Proposes(v, c, b)
    ensures Gives(v, Some(c), c, b) <==> Kept(v, c, b)
    decreases b, 1
  {
    if v.body.Fields? && c.body.Fields? {
      forall k | k in c.body.fields
        ensures GivesEntry(v.body.fields[k], Get(c.body.fields, k), c.body.fields[k], b, k) <==>
          KeptEntry(v.body.fields[k], c.body.fields[k], b, k)
      {
        EntryTyped(c, b, k);
        EntryGivenWhenKept(v.body.fields[k], c.body.fields[k], b, k);
      }
    }
  }

  lemma {:induction false} EntryGivenWhenKept(v: Value, c: Value, b: Block, k: string)
    requires ValidBlock(b) && k in Names(b) && WF(c) && c.ty == FieldType(b, k) && ProposesEntry(v, c, b, k)
    ensures GivesEntry(v, Some(c), c, b, k) <==> KeptEntry(v, c, b, k)
    decreases b, 0
  {
    var i, j := AttrIndex(b.attributes, k), BlockIndex(b.blockTypes, k);
    if i < 0 {
      NestedGivenWhenKept(v, c, b.blockTypes[j]);
    } else if Supplies(Some(c), b.attributes[i]) {
      SettleSame(c);
    } else if Corrects(Some(c), b.attributes[i]) {
      GivenWhenKept(v, c, b.attributes[i].objectType.value);
    }
  }

  lemma {:induction false} NestedGivenWhenKept(v: Value, c: Value, n: NestedBlock)
    requires ValidBlock(n.block) && WF(c) && c.ty == NestedType(n) && ProposesNested(v, c, n)
    ensures GivesNested(v, Some(c), c, n) <==> KeptNested(v, c, n)
    decreases n
  {
    if n.nesting.SINGLE? || n.nesting.GROUP? {
      GivenWhenKept(v, c, n.block);
    } else if n.nesting.MAP? && v.body.Fields? && c.body.Fields? {
      forall k | k in c.body.fields
        ensures Gives(v.body.fields[k], Get(c.body.fields, k), c.body.fields[k], n.block) <==>
          Kept(v.body.fields[k], c.body.fields[k], n.block)
      {
        GivenWhenKept(v.body.fields[k], c.body.fields[k], n.block);
      }
    } else if !n.nesting.MAP? && v.body.Elems? && c.body.Elems? {
      ItemsGivenWhenKept(v.body.elems, c.body.elems, n);
    }
  }

  lemma {:induction false} ItemsGivenWhenKept(vs: seq<Value>, cs: seq<Value>, n: NestedBlock)
    requires ValidBlock(n.block) && (n.nesting.LIST? || n.nesting.SET?) && |vs| == |cs|
    requires forall i :: 0 <= i < |cs| ==>
      WF(cs[i]) && cs[i].ty == BlockType(n.block) && Proposes(vs[i], cs[i], n.block)
    ensures forall i :: 0 <= i < |cs| && !GoesAstray(vs, cs, n, i) ==>
      (Gives(vs[i], Governing(vs, cs, n, i), cs[i], n.block) <==> Kept(vs[i], cs[i], n.block))
    decreases n, 0
  {
    forall i | 0 <= i < |cs| ensures FromConfiguration(vs[i], cs[i], n.block) {
      ProposedFromConfiguration(vs[i], cs[i], n.block);
    }
    forall i | 0 <= i < |cs| && !GoesAstray(vs, cs, n, i)
      ensures Gives(vs[i], Governing(vs, cs, n, i), cs[i], n.block) <==> Kept(vs[i], cs[i], n.block)
    {
      if n.nesting.SET? && |vs| > 1 { IsolatedWhenItsOwn(vs, cs, n.block, i); }
      assert Governing(vs, cs, n, i) == Some(cs[i]);
      GivenWhenKept(vs[i], cs[i], n.block);
    }
  }

  lemma {:induction false} ProposedFromConfiguration(v: Value, c: Value, b: Block)
    requires ValidBlock(b) && WF(c) && c.ty == BlockType(b) && Proposes(v, c, b)
    ensures FromConfiguration(v, c, b)
    decreases b
  {
    if v.body.Fields? && c.body.Fields? {
      forall i | 0 <= i < |b.attributes|
        ensures MemberFromConfiguration(Get(v.body.fields, b.attributes[i].name),
          Get(c.body.fields, b.attributes[i].name), b.attributes[i])
      {
        MemberTyped(c, b, i);
        var k := b.attributes[i].name;
        assert AttrIndex(b.attributes, k) == i && ProposesEntry(v.body.fields[k], c.body.fields[k], b, k);
        ProposedMember(v.body.fields[k], c.body.fields[k], b.attributes[i]);
      }
    }
  }

  lemma {:induction false} ProposedMember(v: Value, c: Value, a: Attribute)
    requires ValidMember(a) && WF(c) && c.ty == a.ty && ProposesAttribute(v, c, a)
    ensures MemberFromConfiguration(Some(v), Some(c), a)
    decreases a
  {
    if a.objectType.Some? && !a.writeOnly && a.default.None? {
      if Corrects(Some(c), a) {
        ProposedFromConfiguration(v, c, a.objectType.value);
      } else {
        assert !c.body.Fields?;
      }
    }
  }

  // So, where Terraform proposes what is configured and the configuration has something to follow, the plan
  // follows it exactly when no default flattens an unknown and no set element goes astray.
  lemma {:induction false} FollowsWhereProposed(v: Value, c: Value, b: Block, k: string)
    requires ValidBlock(b) && k in Names(b) && WF(c) && c.ty == FieldType(b, k) && ProposesEntry(v, c, b, k)
    requires AttrIndex(b.attributes, k) >= 0 ==> !WriteOnly(b, k) && !c.body.Null?
    ensures FollowsAt(v, c, b, k) <==> KeptEntry(v, c, b, k)
  {
    EntryGivenWhenKept(v, c, b, k);
    if v.body.Null? {
      NullIsProposed(v, c, b, k);
      var i, j := AttrIndex(b.attributes, k), BlockIndex(b.blockTypes, k);
      assert if i >= 0 then KeptAttribute(v, c, b.attributes[i]) == WhollyKnown(c)
        else KeptNested(v, c, b.blockTypes[j]);
    }
  }

  // A null is proposed only where a default is supplied, or where nothing is configured.
  lemma {:induction false} NullIsProposed(v: Value, c: Value, b: Block, k: string)
    requires k in Names(b) && ProposesEntry(v, c, b, k) && v.body.Null?
    ensures var i := AttrIndex(b.attributes, k);
      c.body.Null? || (i >= 0 && Supplies(Some(c), b.attributes[i]))
  {
    var i, j := AttrIndex(b.attributes, k), BlockIndex(b.blockTypes, k);
    assert Unmark(v) == Unmark(c) ==> c.body.Null?;
    if i < 0 {
      assert ProposesNested(v, c, b.blockTypes[j]);
    } else {
      var a := b.attributes[i];
      assert a.objectType.Some? ==> (Proposes(v, c, a.objectType.value) <==> Unmark(v) == Unmark(c));
      assert ProposesAttribute(v, c, a);
    }
  }

  // ------------------------------------------------------------------ which configurations are flattened

  // Where no set has two elements to pair, the configuration alone tells: somewhere in it an attribute
  // that has a default and no members of its own is known, but not throughout.
  ghost predicate Flattens(c: Value, b: Block)
    decreases b, 1
  {
    c.body.Fields? && exists k :: k in c.body.fields && FlattensEntry(c.body.fields[k], b, k)
  }

  ghost predicate FlattensEntry(c: Value, b: Block, k: string)
    decreases b, 0
  {
    var i, j := AttrIndex(b.attributes, k), BlockIndex(b.blockTypes, k);
    if i >= 0 then FlattensAttribute(c, b.attributes[i]) else j >= 0 && FlattensNested(c, b.blockTypes[j])
  }

  ghost predicate FlattensAttribute(c: Value, a: Attribute)
    decreases a
  {
    !a.writeOnly && Resolvable(Some(c)) && !WhollyKnown(c) &&
    if a.objectType.Some? then Flattens(c, a.objectType.value) else a.default.Some?
  }

  ghost predicate FlattensNested(c: Value, n: NestedBlock)
    decreases n
  {
    match n.nesting
    case SINGLE => Flattens(c, n.block)
    case GROUP => Flattens(c, n.block)
    case MAP => c.body.Fields? && exists k :: k in c.body.fields && Flattens(c.body.fields[k], n.block)
    case _ => c.body.Elems? && exists i :: 0 <= i < |c.body.elems| && Flattens(c.body.elems[i], n.block)
  }

  // No set block in the configuration has more than one element.
  ghost predicate NoPairing(c: Value, b: Block)
    decreases b, 1
  {
    c.body.Fields? ==> forall k :: k in c.body.fields ==> NoPairingAt(c.body.fields[k], b, k)
  }

  ghost predicate NoPairingAt(c: Value, b: Block, k: string)
    decreases b, 0
  {
    var i, j := AttrIndex(b.attributes, k), BlockIndex(b.blockTypes, k);
    if i >= 0 then b.attributes[i].objectType.Some? ==> NoPairing(c, b.attributes[i].objectType.value)
    else j >= 0 ==> NoPairingIn(c, b.blockTypes[j])
  }

  ghost predicate NoPairingIn(c: Value, n: NestedBlock)
    decreases n
  {
    match n.nesting
    case SINGLE => NoPairing(c, n.block)
    case GROUP => NoPairing(c, n.block)
    case MAP => c.body.Fields? ==> forall k :: k in c.body.fields ==> NoPairing(c.body.fields[k], n.block)
    case _ => c.body.Elems? ==>
      ((|c.body.elems| <= 1 || !n.nesting.SET?) &&
       forall i :: 0 <= i < |c.body.elems| ==> NoPairing(c.body.elems[i], n.block))
  }

  // What is wholly known is never flattened.
  lemma {:induction false} KnownIsNotFlattened(c: Value, b: Block)
    requires WhollyKnown(c)
    ensures !Flattens(c, b)
    decreases b, 1
  {
    if c.body.Fields? {
      forall k | k in c.body.fields ensures !FlattensEntry(c.body.fields[k], b, k) {
        var i, j := AttrIndex(b.attributes, k), BlockIndex(b.blockTypes, k);
        if i < 0 && j >= 0 { KnownNestedIsNotFlattened(c.body.fields[k], b.blockTypes[j]); }
      }
    }
  }

  lemma {:induction false} KnownNestedIsNotFlattened(c: Value, n: NestedBlock)
    requires WhollyKnown(c)
    ensures !FlattensNested(c, n)
    decreases n
  {
    match n.nesting
    case SINGLE => KnownIsNotFlattened(c, n.block);
    case GROUP => KnownIsNotFlattened(c, n.block);
    case MAP =>
      if c.body.Fields? {
        forall k | k in c.body.fields
          ensures !Flattens(c.body.fields[k], n.block)
        {
          KnownIsNotFlattened(c.body.fields[k], n.block);
        }
      }
    case _ =>
      if c.body.Elems? {
        forall i | 0 <= i < |c.body.elems|
          ensures !Flattens(c.body.elems[i], n.block)
        {
          KnownIsNotFlattened(c.body.elems[i], n.block);
        }
      }
  }

  // With no set to pair, the configuration alone decides.
  lemma {:induction false} KeptUnlessFlattened(v: Value, c: Value, b: Block)
    requires ValidBlock(b) && Proposes(v, c, b) && NoPairing(c, b)
    ensures Kept(v, c, b) <==> !Flattens(c, b)
    decreases b, 1
  {
    if c.body.Fields? && v.body.Fields? {
      forall k | k in c.body.fields
        ensures KeptEntry(v.body.fields[k], c.body.fields[k], b, k) <==> !FlattensEntry(c.body.fields[k], b, k)
      {
        EntryKeptUnlessFlattened(v.body.fields[k], c.body.fields[k], b, k);
      }
    } else {
      UnmarkedAlike(v, c);
    }
  }

  lemma {:induction false} EntryKeptUnlessFlattened(v: Value, c: Value, b: Block, k: string)
    requires ValidBlock(b) && ProposesEntry(v, c, b, k) && NoPairingAt(c, b, k)
    ensures KeptEntry(v, c, b, k) <==> !FlattensEntry(c, b, k)
    decreases b, 0
  {
    var i, j := AttrIndex(b.attributes, k), BlockIndex(b.blockTypes, k);
    if i >= 0 && Corrects(Some(c), b.attributes[i]) {
      var o := b.attributes[i].objectType.value;
      KeptUnlessFlattened(v, c, o);
      if WhollyKnown(c) { KnownIsNotFlattened(c, o); }
    } else if i < 0 && j >= 0 {
      NestedKeptUnlessFlattened(v, c, b.blockTypes[j]);
    }
  }

  lemma {:induction false} NestedKeptUnlessFlattened(v: Value, c: Value, n: NestedBlock)
    requires ValidBlock(n.block) && ProposesNested(v, c, n) && NoPairingIn(c, n)
    ensures KeptNested(v, c, n) <==> !FlattensNested(c, n)
    decreases n
  {
    match n.nesting
    case SINGLE => KeptUnlessFlattened(v, c, n.block);
    case GROUP => KeptUnlessFlattened(v, c, n.block);
    case MAP =>
      if c.body.Fields? && v.body.Fields? {
        forall k | k in c.body.fields
          ensures Kept(v.body.fields[k], c.body.fields[k], n.block) <==> !Flattens(c.body.fields[k], n.block)
        {
          KeptUnlessFlattened(v.body.fields[k], c.body.fields[k], n.block);
        }
      } else {
        UnmarkedAlike(v, c);
      }
    case _ =>
      if c.body.Elems? && v.body.Elems? {
        forall i | 0 <= i < |c.body.elems|
          ensures Kept(v.body.elems[i], c.body.elems[i], n.block) <==> !Flattens(c.body.elems[i], n.block)
        {
          KeptUnlessFlattened(v.body.elems[i], c.body.elems[i], n.block);
        }
      } else {
        UnmarkedAlike(v, c);
        assert v.body.Elems? == c.body.Elems?;
      }
  }

  // A configuration known throughout, without such sets, is therefore planned as it is.
  lemma KnownIsKept(v: Value, c: Value, b: Block)
    requires ValidBlock(b) && Proposes(v, c, b) && NoPairing(c, b) && WhollyKnown(c)
    ensures Kept(v, c, b)
  {
    KnownIsNotFlattened(c, b);
    KeptUnlessFlattened(v, c, b);
  }
}
