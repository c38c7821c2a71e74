// src/pyvider/protocols/tfprotov6/handlers/plan_resource_change.py:189-249 and 414-445, with
// handlers/apply_resource_change.py:221-255: what happens to a plan once the resource has returned it,
// and which new states the apply step then accepts.
module PlanApply {
  import opened Options
  import opened CtyValues
  import opened Schema
  import opened Defaults
  import opened DefaultsMerge
  import opened Refinement
  import Required

  // ------------------------------------------------------------------ known after apply

  // A computed attribute nobody set.
  predicate LeftOpen(a: Attribute, current: Option<Native>) {
    a.computed && !a.required && OrNone(current).NNone?
  }

  function FillEntry(current: Option<Native>, b: Block, k: string): Option<Native> {
    var i := AttrIndex(b.attributes, k);
    if i >= 0 && LeftOpen(b.attributes[i], current) then Some(NCty(Value(FieldType(b, k), Unknown, {}))) else current
  }

  function Fill(m: map<string, Native>, b: Block): map<string, Native> {
    map k | k in m.Keys + Names(b) && FillEntry(Find(m, k), b, k).Some? :: FillEntry(Find(m, k), b, k).value
  }

  lemma FilledEntries(m: map<string, Native>, b: Block, k: string)
    ensures Find(Fill(m, b), k) == FillEntry(Find(m, k), b, k)
  {
  }

  // A plan that leaves a required attribute null, or that does not validate, is refused: None.
  ghost function Checked(m: map<string, Native>, b: Block): Option<Value> {
    if Required.MissingRequired(b, NDict(m), true) then None else Validate(BlockType(b), NDict(m))
  }

  // m is given with the computed attributes that are not required and nobody set made unknown.
  ghost predicate FilledIn(given: map<string, Native>, m: map<string, Native>, b: Block) {
    && (forall i :: 0 <= i < |b.attributes| ==> var a := b.attributes[i];
          Find(m, a.name) ==
          if a.computed && !a.required && (a.name !in given || given[a.name].NNone?)
          then Some(NCty(Value(a.ty, Unknown, {}))) else Find(given, a.name))
    && (forall k :: AttrIndex(b.attributes, k) < 0 ==> Find(m, k) == Find(given, k))
  }

  lemma {:induction false} FillFills(m: map<string, Native>, b: Block)
    requires DistinctNames(b)
    ensures FilledIn(m, Fill(m, b), b)
  {
    forall i | 0 <= i < |b.attributes|
      ensures var a := b.attributes[i];
        Find(Fill(m, b), a.name) ==
        if a.computed && !a.required && OrNone(Find(m, a.name)).NNone? then Some(NCty(Value(a.ty, Unknown, {})))
        else Find(m, a.name)
    {
      FilledAt(m, b, i);
    }
  }

  lemma {:induction false} FilledAt(m: map<string, Native>, b: Block, i: nat)
    requires DistinctNames(b) && i < |b.attributes|
    ensures var a := b.attributes[i];
      Find(Fill(m, b), a.name) ==
      if a.computed && !a.required && OrNone(Find(m, a.name)).NNone? then Some(NCty(Value(a.ty, Unknown, {})))
      else Find(m, a.name)
  {
    FilledEntries(m, b, b.attributes[i].name);
    AttributeNamed(b, i);
  }

  // _handle_planned_state_dict: the loop, the required-attribute check and validation.
  method HandlePlannedState(plan: PlanDict, b: Block, order: Required.KeyOrder) returns (planned: Option<Value>)
    requires ValidBlock(b) && Required.Enumerates(order)
    modifies plan
    ensures plan.entries == Fill(old(plan.entries), b)
    ensures planned == Checked(plan.entries, b)
    ensures FilledIn(old(plan.entries), plan.entries, b)
    ensures planned.Some? <==>
      !Required.MissingRequired(b, NDict(plan.entries), true) && Validate(BlockType(b), NDict(plan.entries)).Some?
    ensures planned.Some? ==> planned == Validate(BlockType(b), NDict(plan.entries))
  {
    ghost var given := plan.entries;
    for i := 0 to |b.attributes|
      invariant forall k :: (Find(plan.entries, k) ==
        if 0 <= AttrIndex(b.attributes, k) < i then FillEntry(Find(given, k), b, k) else Find(given, k))
    {
      var a := b.attributes[i];
      assert AttrIndex(b.attributes, a.name) == i;
      if !a.computed || a.required { continue; }
      if a.name in plan.entries && !plan.entries[a.name].NNone? { continue; }
      plan.entries := plan.entries[a.name := NCty(Value(FieldType(b, a.name), Unknown, {}))];
    }
    forall k ensures Find(plan.entries, k) == Find(Fill(given, b), k) { FilledEntries(given, b, k); }
    SameEntries(plan.entries, Fill(given, b));
    FillFills(given, b);
    var raised := Required.CheckRequiredAttributes(b, NDict(plan.entries), [], Required.Mode(true, order));
    Required.VerdictIgnoresOrder(b, NDict(plan.entries), [], Required.Mode(true, order));
    if raised.Some? { return None; }
    planned := Validate(BlockType(b), NDict(plan.entries));
  }

  // The plan Terraform is sent, None when it is refused.
  ghost function Planned(p: map<string, Native>, cfg: Option<Value>, b: Block): Option<Value> {
    Checked(Fill(MergeBlock(NDict(p), cfg, b).entries, b), b)
  }

  // _finalize_planned_state
  method FinalizePlannedState(plan: PlanDict, cfg: Option<Value>, b: Block, order: Required.KeyOrder)
    returns (planned: Option<Value>)
    requires ValidBlock(b) && Required.Enumerates(order)
    modifies plan
    ensures planned == Planned(old(plan.entries), cfg, b)
    ensures FilledIn(MergeBlock(NDict(old(plan.entries)), cfg, b).entries, plan.entries, b)
    ensures planned.Some? <==>
      !Required.MissingRequired(b, NDict(plan.entries), true) && Validate(BlockType(b), NDict(plan.entries)).Some?
    ensures planned.Some? ==> planned == Validate(BlockType(b), NDict(plan.entries))
  {
    MergeSchemaDefaultsIntoPlan(plan, cfg, b);
    planned := HandlePlannedState(plan, b, order);
  }

  // ------------------------------------------------------------------ unknowns flattened by a default

  predicate UnknownInSet(v: Value) {
    match v.body
    case Fields(fs) => exists k :: k in fs && UnknownInSet(fs[k])
    case Elems(es) => if v.ty.TSet? then !WhollyKnown(v) else exists i :: 0 <= i < |es| && UnknownInSet(es[i])
    case _ => false
  }

  lemma {:induction false} FlattenedAccepts(c: Value, s: Value)
    requires WF(c) && !UnknownInSet(c) && Resolves(c, s)
    ensures Refines(Settle(c), s)
    decreases c
  {
    match c.body
    case Fields(fs) =>
      var m := Settle(c).body.fields;
      forall k | k in m ensures Refines(m[k], s.body.fields[k]) { FlattenedAccepts(fs[k], s.body.fields[k]); }
      assert KeyedRefines(Settle(c), s);
    case Elems(es) =>
      if c.ty.TSet? {
        SettleSame(c);
        SettleKnown(c);
        SameUpToMarksRefines(Settle(c), s);
      } else {
        var xs := Settle(c).body.elems;
        forall i | 0 <= i < |xs| ensures Refines(xs[i], s.body.elems[i]) { FlattenedAccepts(es[i], s.body.elems[i]); }
        assert OrderedRefines(Settle(c), s);
      }
    case Unknown => assert Settle(c).body.Null?;
    case _ =>
  }

  // Some known value of a type, other than null.
  function Sample(ty: Type): (v: Value)
    ensures v.ty == ty && !v.body.Null? && !v.body.Unknown?
  {
    match ty
    case TPrim(KBool) => Value(ty, Leaf(PBool(false)), {})
    case TPrim(KNum) => Value(ty, Leaf(PNum(0.0)), {})
    case TPrim(KStr) => Value(ty, Leaf(PStr("")), {})
    case TTuple(ts) => Value(ty, Elems(seq(|ts|, i requires 0 <= i < |ts| => Sample(ts[i]))), {})
    case TObj(ts) => Value(ty, Fields(map k | k in ts :: Sample(ts[k])), {})
    case TMap(_) => Value(ty, Fields(map[]), {})
    case _ => Value(ty, Elems([]), {})
  }

  lemma {:induction false} SampleKnown(ty: Type)
    ensures WF(Sample(ty)) && WhollyKnown(Sample(ty))
    decreases ty
  {
    match ty
    case TTuple(ts) => forall i | 0 <= i < |ts| ensures WF(Sample(ts[i])) &&
      WhollyKnown(Sample(ts[i])) { SampleKnown(ts[i]); }
    case TObj(ts) => forall k | k in ts ensures WF(Sample(ts[k])) && WhollyKnown(Sample(ts[k])) { SampleKnown(ts[k]); }
    case _ =>
  }

  // Every unknown resolved to something other than null.
  function SampleAll(v: Value): Value {
    match v.body
    case Unknown => Sample(v.ty)
    case Elems(es) => v.(body := Elems(seq(|es|, i requires 0 <= i < |es| => SampleAll(es[i]))))
    case Fields(fs) => v.(body := Fields(map k | k in fs :: SampleAll(fs[k])))
    case _ => v
  }

  lemma {:induction false} SampleDiffers(v: Value)
    ensures Unmark(Settle(v)) == Unmark(SampleAll(v)) <==> WhollyKnown(v)
    decreases v
  {
    match v.body
    case Elems(es) =>
      forall i | 0 <= i < |es| ensures Unmark(Settle(es[i])) == Unmark(SampleAll(es[i])) <==> WhollyKnown(es[i]) {
        SampleDiffers(es[i]);
      }
      var x, y := Unmark(Settle(v)).body.elems, Unmark(SampleAll(v)).body.elems;
      assert forall i :: 0 <= i < |es| ==> x[i] == Unmark(Settle(es[i])) && y[i] == Unmark(SampleAll(es[i]));
      assert x == y <==> forall i :: 0 <= i < |es| ==> x[i] == y[i];
    case Fields(fs) =>
      forall k | k in fs ensures Unmark(Settle(fs[k])) == Unmark(SampleAll(fs[k])) <==> WhollyKnown(fs[k]) {
        SampleDiffers(fs[k]);
      }
      var x, y := Unmark(Settle(v)).body.fields, Unmark(SampleAll(v)).body.fields;
      assert x.Keys == fs.Keys == y.Keys;
      assert forall k :: k in fs ==> x[k] == Unmark(Settle(fs[k])) && y[k] == Unmark(SampleAll(fs[k]));
      assert x == y <==> forall k :: k in fs ==> x[k] == y[k];
    case Unknown => assert Unmark(Sample(v.ty)).body.Null? == Sample(v.ty).body.Null?;
    case _ =>
  }

  lemma {:induction false} SampleResolves(v: Value)
    requires WF(v)
    ensures Resolves(v, SampleAll(v))
    decreases v
  {
    match v.body
    case Unknown => SampleKnown(v.ty);
    case Fields(fs) =>
      forall k | k in fs ensures Resolves(fs[k], SampleAll(fs[k])) { SampleResolves(fs[k]); }
    case Elems(es) =>
      var ss := SampleAll(v).body.elems;
      forall i | 0 <= i < |es| ensures Resolves(es[i], ss[i]) { SampleResolves(es[i]); }
      SampleDiffers(v);
      SettleSame(v);
    case _ =>
  }

  lemma {:induction false} SampleRefused(c: Value)
    requires WF(c) && UnknownInSet(c)
    ensures !Refines(Settle(c), SampleAll(c))
    decreases c
  {
    match c.body
    case Fields(fs) =>
      var k :| k in fs && UnknownInSet(fs[k]);
      SampleRefused(fs[k]);
      assert Settle(c).body.fields[k] == Settle(fs[k]) && SampleAll(c).body.fields[k] == SampleAll(fs[k]);
    case Elems(es) =>
      if c.ty.TSet? {
        SampleDiffers(c);
        NothingUnknown(Settle(c)) by { SettleKnown(c); }
      } else {
        var i :| 0 <= i < |es| && UnknownInSet(es[i]);
        SampleRefused(es[i]);
        assert Settle(c).body.elems[i] == Settle(es[i]) && SampleAll(c).body.elems[i] == SampleAll(es[i]);
      }
  }

  lemma NothingUnknown(v: Value)
    requires WhollyKnown(v) && v.body.Elems?
    ensures forall i :: 0 <= i < |v.body.elems| ==> !v.body.elems[i].body.Unknown?
  {
  }

  // A defaulted attribute is planned as the native form of its configuration, every unknown in it
  // flattened to null. What the configuration resolves to is nevertheless always accepted, exactly when
  // no set in it holds an unknown.
  lemma FlatteningIsHarmless(c: Value)
    requires WF(c)
    ensures Validate(c.ty, ToNative(c)).Some?
    ensures (forall s :: Resolves(c, s) ==> Refines(Validate(c.ty, ToNative(c)).value, s)) <==> !UnknownInSet(c)
  {
    NativeRoundTrip(c);
    if UnknownInSet(c) {
      SampleResolves(c);
      SampleRefused(c);
      UnmarkIdempotent(Settle(c));
      VerdictIgnoresMarks(Unmark(Settle(c)), SampleAll(c), Settle(c), SampleAll(c));
    } else {
      forall s | Resolves(c, s) ensures Refines(Unmark(Settle(c)), s) {
        FlattenedAccepts(c, s);
        UnmarkIdempotent(Settle(c));
        VerdictIgnoresMarks(Unmark(Settle(c)), s, Settle(c), s);
      }
    }
  }

  // ------------------------------------------------------------------ what a new state may hold, position by position

  // In a set, elements are their own identity: there only the planned value itself will do.
  ghost predicate Agree(planned: Value, s: Value, exact: bool) {
    if exact then Unmark(planned) == Unmark(s) else Refines(planned, s)
  }

  // Two readings of "s holds this": strictly, the value with its unknowns resolved; or whatever the
  // refinement check lets pass for it, which is anything of the type for a null.
  ghost predicate Follows(planned: Value, s: Value, exact: bool, strict: bool) {
    if !strict then Agree(planned, s, exact)
    else if exact then Unmark(planned) == Unmark(s)
    else Resolves(planned, s) && !HidesUnknownInSet(planned)
  }

  // s keeps what the plan says, where no default governs it.
  ghost predicate Keeps(p: Native, ty: Type, s: Value, exact: bool, strict: bool) {
    Validate(ty, p).Some? ==> Follows(Validate(ty, p).value, s, exact, strict)
  }

  // s carries the configuration's value, where a default governs it.
  ghost predicate Carries(c: Value, s: Value, exact: bool, strict: bool) {
    if !strict then Agree(Unmark(Settle(c)), s, exact)
    else if exact then WhollyKnown(c) && Unmark(c) == Unmark(s)
    else Resolves(c, s) && !UnknownInSet(c)
  }

  ghost predicate Honours(p: Native, cfg: Option<Value>, s: Value, b: Block, exact: bool, strict: bool)
    decreases b, 1
  {
    if !p.NDict? || !Mergeable(cfg) then Keeps(p, BlockType(b), s, exact, strict)
    else
      s.ty == BlockType(b) && s.body.Fields? && s.body.fields.Keys == Names(b) &&
      forall k :: k in s.body.fields ==>
        HonoursEntry(Find(p.entries, k), Get(cfg.value.body.fields, k), s.body.fields[k], b, k, exact, strict)
  }

  ghost predicate HonoursEntry(p: Option<Native>, cfg: Option<Value>, s: Value, b: Block, k: string, exact: bool,
                               strict: bool)
    decreases b, 0
  {
    var i, j := AttrIndex(b.attributes, k), BlockIndex(b.blockTypes, k);
    if i >= 0 then HonoursAttribute(p, cfg, s, b.attributes[i], exact, strict)
    else j >= 0 ==> HonoursNested(p, cfg, s, b.blockTypes[j], exact, strict)
  }

  ghost predicate HonoursAttribute(p: Option<Native>, cfg: Option<Value>, s: Value, a: Attribute, exact: bool,
                                   strict: bool)
    decreases a
  {
    if Supplies(cfg, a) then Carries(cfg.value, s, exact, strict)
    else if Corrects(cfg, a) && p.Some? then Honours(p.value, cfg, s, a.objectType.value, exact, strict)
    else Keeps(OrNone(p), a.ty, s, exact, strict)
  }

  ghost predicate HonoursNested(p: Option<Native>, cfg: Option<Value>, s: Value, n: NestedBlock, exact: bool,
                                strict: bool)
    decreases n
  {
    if !Resolvable(cfg) || p.None? then Keeps(OrNone(p), NestedType(n), s, exact, strict)
    else if n.nesting.SINGLE? || n.nesting.GROUP? then Honours(p.value, cfg, s, n.block, exact, strict)
    else if n.nesting.MAP? && p.value.NDict? && cfg.value.body.Fields? then
      s.ty == NestedType(n) && s.body.Fields? && s.body.fields.Keys == p.value.entries.Keys &&
      forall k :: k in s.body.fields ==>
        Honours(p.value.entries[k], Get(cfg.value.body.fields, k), s.body.fields[k], n.block, exact, strict)
    else if !n.nesting.MAP? && Items(p.value) && cfg.value.body.Elems? then
      s.ty == NestedType(n) && s.body.Elems? &&
      ((!strict && !exact && n.nesting.SET? && HasUnknownItem(p.value.items)) ||
       (|s.body.elems| == |p.value.items| &&
        forall i :: 0 <= i < |s.body.elems| ==>
          Honours(p.value.items[i], Origin(p.value.items, cfg.value.body.elems, n, i), s.body.elems[i], n.block,
                  exact || n.nesting.SET?, strict)))
    else Keeps(p.value, NestedType(n), s, exact, strict)
  }

  // A set with an element not known yet can become any set.
  predicate HasUnknownItem(items: seq<Native>) {
    exists i :: 0 <= i < |items| && items[i].NCty? && items[i].v.body.Unknown?
  }

  // The whole new state: any value of the type where the provider was left to compute one.
  ghost predicate StateHonours(p: map<string, Native>, cfg: Value, s: Value, b: Block, strict: bool)
    requires cfg.body.Fields?
  {
    s.ty == BlockType(b) && s.body.Fields? && s.body.fields.Keys == Names(b) &&
    forall k :: k in s.body.fields ==>
      StateHonoursAt(Find(p, k), Get(cfg.body.fields, k), s.body.fields[k], b, k, strict)
  }

  ghost predicate StateHonoursAt(p: Option<Native>, cfg: Option<Value>, s: Value, b: Block, k: string, strict: bool) {
    var i := AttrIndex(b.attributes, k);
    if i >= 0 && LeftOpen(b.attributes[i], p) && !Supplies(cfg, b.attributes[i]) then s.ty == b.attributes[i].ty
    else HonoursEntry(p, cfg, s, b, k, false, strict)
  }

  // ------------------------------------------------------------------ the strict reading implies the other

  ghost predicate TypedAs(cfg: Option<Value>, ty: Type) {
    cfg.Some? ==> WF(cfg.value) && cfg.value.ty == ty
  }

  lemma KeepsWeakens(p: Native, ty: Type, s: Value, exact: bool)
    requires WFNative(p) && Keeps(p, ty, s, exact, true)
    ensures Keeps(p, ty, s, exact, false)
  {
    if Validate(ty, p).Some? && !exact {
      ValidateWF(ty, p);
      ResolutionAccepted(Validate(ty, p).value, s);
    }
  }

  lemma CarriesWeakens(c: Value, s: Value, exact: bool)
    requires WF(c) && Carries(c, s, exact, true)
    ensures Carries(c, s, exact, false)
  {
    NativeRoundTrip(c);
    if exact {
      SettleSame(c);
      UnmarkIdempotent(c);
    } else {
      FlatteningIsHarmless(c);
    }
  }

  lemma {:induction false} Weakens(p: Native, cfg: Option<Value>, s: Value, b: Block, exact: bool)
    requires WFNative(p) && TypedAs(cfg, BlockType(b)) && ValidBlock(b) && Honours(p, cfg, s, b, exact, true)
    ensures Honours(p, cfg, s, b, exact, false)
    decreases b, 1
  {
    if !p.NDict? || !Mergeable(cfg) {
      KeepsWeakens(p, BlockType(b), s, exact);
    } else {
      var fs := cfg.value.body.fields;
      forall k | k in s.body.fields
        ensures HonoursEntry(Find(p.entries, k), Get(fs, k), s.body.fields[k], b, k, exact, false)
      {
        EntryTyped(cfg.value, b, k);
        EntryWeakens(Find(p.entries, k), Get(fs, k), s.body.fields[k], b, k, exact);
      }
    }
  }

  lemma {:induction false} EntryWeakens(p: Option<Native>, cfg: Option<Value>, s: Value, b: Block, k: string,
                                        exact: bool)
    requires WFNative(OrNone(p)) && ValidBlock(b) && k in Names(b) && TypedAs(cfg, FieldType(b, k))
    requires HonoursEntry(p, cfg, s, b, k, exact, true)
    ensures HonoursEntry(p, cfg, s, b, k, exact, false)
    decreases b, 0
  {
    var i, j := AttrIndex(b.attributes, k), BlockIndex(b.blockTypes, k);
    if i >= 0 {
      AttributeWeakens(p, cfg, s, b.attributes[i], exact);
    } else {
      NestedWeakens(p, cfg, s, b.blockTypes[j], exact);
    }
  }

  lemma {:induction false} AttributeWeakens(p: Option<Native>, cfg: Option<Value>, s: Value, a: Attribute, exact: bool)
    requires WFNative(OrNone(p)) && TypedAs(cfg, a.ty) && ValidMember(a) && HonoursAttribute(p, cfg, s, a, exact, true)
    ensures HonoursAttribute(p, cfg, s, a, exact, false)
    decreases a
  {
    if Supplies(cfg, a) {
      CarriesWeakens(cfg.value, s, exact);
    } else if Corrects(cfg, a) && p.Some? {
      Weakens(p.value, cfg, s, a.objectType.value, exact);
    } else {
      KeepsWeakens(OrNone(p), a.ty, s, exact);
    }
  }

  lemma {:induction false} NestedWeakens(p: Option<Native>, cfg: Option<Value>, s: Value, n: NestedBlock, exact: bool)
    requires WFNative(OrNone(p)) && TypedAs(cfg, NestedType(n)) && ValidBlock(n.block)
    requires HonoursNested(p, cfg, s, n, exact, true)
    ensures HonoursNested(p, cfg, s, n, exact, false)
    decreases n
  {
    if !Resolvable(cfg) || p.None? {
      KeepsWeakens(OrNone(p), NestedType(n), s, exact);
    } else if n.nesting.SINGLE? || n.nesting.GROUP? {
      Weakens(p.value, cfg, s, n.block, exact);
    } else if n.nesting.MAP? && p.value.NDict? && cfg.value.body.Fields? {
      forall k | k in s.body.fields
        ensures Honours(p.value.entries[k], Get(cfg.value.body.fields, k), s.body.fields[k], n.block, exact, false)
      {
        Weakens(p.value.entries[k], Get(cfg.value.body.fields, k), s.body.fields[k], n.block, exact);
      }
    } else if !n.nesting.MAP? && Items(p.value) && cfg.value.body.Elems? {
      forall i | 0 <= i < |s.body.elems|
        ensures Honours(p.value.items[i], Origin(p.value.items, cfg.value.body.elems, n, i), s.body.elems[i], n.block,
                        exact || n.nesting.SET?, false)
      {
        Weakens(p.value.items[i], Origin(p.value.items, cfg.value.body.elems, n, i), s.body.elems[i], n.block,
                exact || n.nesting.SET?);
      }
    } else {
      KeepsWeakens(p.value, NestedType(n), s, exact);
    }
  }

  // ------------------------------------------------------------------ and the other is exactly what is accepted

  lemma {:induction false} FieldsAgree(planned: Value, s: Value, exact: bool)
    requires (planned.ty.TObj? || planned.ty.TMap?) && planned.body.Fields?
    ensures Agree(planned, s, exact) <==>
      planned.ty == s.ty && s.body.Fields? && s.body.fields.Keys == planned.body.fields.Keys &&
      forall k :: k in s.body.fields ==> Agree(planned.body.fields[k], s.body.fields[k], exact)
  {
    if exact { SameFields(planned, s); } else { RefinedFields(planned, s); }
  }

  lemma {:induction false} RefinedFields(planned: Value, s: Value)
    requires (planned.ty.TObj? || planned.ty.TMap?) && planned.body.Fields?
    ensures Refines(planned, s) <==>
      planned.ty == s.ty && s.body.Fields? && s.body.fields.Keys == planned.body.fields.Keys &&
      forall k :: k in s.body.fields ==> Refines(planned.body.fields[k], s.body.fields[k])
  {
    if planned.ty == s.ty && s.body.Fields? {
      assert Refines(planned, s) <==> KeyedRefines(planned, s);
    }
  }

  lemma {:induction false} SameFields(v: Value, w: Value)
    requires v.body.Fields?
    ensures Unmark(v) == Unmark(w) <==>
      v.ty == w.ty && w.body.Fields? && w.body.fields.Keys == v.body.fields.Keys &&
      forall k :: k in w.body.fields ==> Unmark(v.body.fields[k]) == Unmark(w.body.fields[k])
  {
    var x, y := Unmark(v), Unmark(w);
    assert x.ty == v.ty && x.marks == {} && x.body.Fields? && x.body.fields.Keys == v.body.fields.Keys;
    if w.body.Fields? {
      assert y.ty == w.ty && y.marks == {} && y.body.Fields? && y.body.fields.Keys == w.body.fields.Keys;
      assert x.body.fields == y.body.fields <==>
        x.body.fields.Keys == y.body.fields.Keys && forall k :: k in y.body.fields ==>
          x.body.fields[k] == y.body.fields[k];
    } else {
      assert !y.body.Fields?;
    }
  }

  lemma {:induction false} ElemsAgree(planned: Value, s: Value, exact: bool)
    requires (planned.ty.TList? || (planned.ty.TSet? && exact)) && planned.body.Elems?
    ensures Agree(planned, s, exact) <==>
      planned.ty == s.ty && s.body.Elems? && |s.body.elems| == |planned.body.elems| &&
      forall i :: 0 <= i < |s.body.elems| ==> Agree(planned.body.elems[i], s.body.elems[i], exact)
  {
    if exact { SameElems(planned, s); } else { RefinedElems(planned, s); }
  }

  lemma {:induction false} RefinedElems(planned: Value, s: Value)
    requires planned.ty.TList? && planned.body.Elems?
    ensures Refines(planned, s) <==>
      planned.ty == s.ty && s.body.Elems? && |s.body.elems| == |planned.body.elems| &&
      forall i :: 0 <= i < |s.body.elems| ==> Refines(planned.body.elems[i], s.body.elems[i])
  {
    if planned.ty == s.ty && s.body.Elems? {
      assert Refines(planned, s) <==> OrderedRefines(planned, s);
    }
  }

  lemma {:induction false} SameElems(v: Value, w: Value)
    requires v.body.Elems?
    ensures Unmark(v) == Unmark(w) <==>
      v.ty == w.ty && w.body.Elems? && |w.body.elems| == |v.body.elems| &&
      forall i :: 0 <= i < |w.body.elems| ==> Unmark(v.body.elems[i]) == Unmark(w.body.elems[i])
  {
    var x, y := Unmark(v), Unmark(w);
    assert x.ty == v.ty && x.marks == {} && x.body.Elems? && |x.body.elems| == |v.body.elems|;
    if w.body.Elems? {
      assert y.ty == w.ty && y.marks == {} && y.body.Elems? && |y.body.elems| == |w.body.elems|;
      assert forall i :: 0 <= i < |v.body.elems| ==> x.body.elems[i] == Unmark(v.body.elems[i]);
      assert forall i :: 0 <= i < |w.body.elems| ==> y.body.elems[i] == Unmark(w.body.elems[i]);
      assert x.body.elems == y.body.elems <==>
        |x.body.elems| == |y.body.elems| && forall i :: 0 <= i < |y.body.elems| ==> x.body.elems[i] == y.body.elems[i];
    } else {
      assert !y.body.Elems?;
    }
  }

  lemma {:induction false} BlockAgrees(p: Native, cfg: Option<Value>, s: Value, b: Block, exact: bool)
    requires ValidBlock(b) && TypedAs(cfg, BlockType(b)) && Validate(BlockType(b), MergeBlock(p, cfg, b)).Some?
    ensures Agree(Validate(BlockType(b), MergeBlock(p, cfg, b)).value, s, exact) <==>
      Honours(p, cfg, s, b, exact, false)
    decreases b, 1
  {
    if p.NDict? && Mergeable(cfg) {
      var m := MergeBlock(p, cfg, b).entries;
      var planned := Validate(BlockType(b), NDict(m)).value;
      ValidatedBlock(m, b);
      FieldsAgree(planned, s, exact);
      if s.body.Fields? {
        forall k | k in Names(b) && k in s.body.fields
          ensures Agree(planned.body.fields[k], s.body.fields[k], exact) <==>
            HonoursEntry(Find(p.entries, k), Get(cfg.value.body.fields, k), s.body.fields[k], b, k, exact, false)
        {
          MergedEntries(p, cfg, b, k);
          EntryTyped(cfg.value, b, k);
          EntryAgrees(Find(p.entries, k), Get(cfg.value.body.fields, k), s.body.fields[k], b, k, exact);
        }
      }
    }
  }

  lemma {:induction false} EntryAgrees(p: Option<Native>, cfg: Option<Value>, s: Value, b: Block, k: string,
                                       exact: bool)
    requires ValidBlock(b) && k in Names(b) && TypedAs(cfg, FieldType(b, k))
    requires Validate(FieldType(b, k), OrNone(MergeEntry(p, cfg, b, k))).Some?
    ensures Agree(Validate(FieldType(b, k), OrNone(MergeEntry(p, cfg, b, k))).value, s, exact) <==>
      HonoursEntry(p, cfg, s, b, k, exact, false)
    decreases b, 0
  {
    var i, j := AttrIndex(b.attributes, k), BlockIndex(b.blockTypes, k);
    if i >= 0 {
      AttributeAgrees(p, cfg, s, b.attributes[i], exact);
    } else {
      NestedAgrees(p, cfg, s, b.blockTypes[j], exact);
    }
  }

  lemma {:induction false} AttributeAgrees(p: Option<Native>, cfg: Option<Value>, s: Value, a: Attribute, exact: bool)
    requires ValidMember(a) && TypedAs(cfg, a.ty) && Validate(a.ty, OrNone(MergeAttribute(p, cfg, a))).Some?
    ensures Agree(Validate(a.ty, OrNone(MergeAttribute(p, cfg, a))).value, s, exact) <==>
      HonoursAttribute(p, cfg, s, a, exact, false)
    decreases a
  {
    if Supplies(cfg, a) {
      NativeRoundTrip(cfg.value);
    } else if Corrects(cfg, a) && p.Some? {
      BlockAgrees(p.value, cfg, s, a.objectType.value, exact);
    }
  }

  lemma {:induction false} NestedAgrees(p: Option<Native>, cfg: Option<Value>, s: Value, n: NestedBlock, exact: bool)
    requires ValidBlock(n.block) && TypedAs(cfg, NestedType(n))
    requires Validate(NestedType(n), if p.Some? then MergeNested(p.value, cfg, n) else NNone).Some?
    ensures Agree(Validate(NestedType(n), if p.Some? then MergeNested(p.value, cfg, n) else NNone).value, s, exact) <==>
      HonoursNested(p, cfg, s, n, exact, false)
    decreases n
  {
    if Resolvable(cfg) && p.Some? {
      if n.nesting.SINGLE? || n.nesting.GROUP? {
        BlockAgrees(p.value, cfg, s, n.block, exact);
      } else if n.nesting.MAP? && p.value.NDict? && cfg.value.body.Fields? {
        KeyedAgrees(p.value, cfg.value, s, n, exact);
      } else if !n.nesting.MAP? && Items(p.value) && cfg.value.body.Elems? {
        ItemsAgree(p.value, cfg.value, s, n, exact);
      }
    }
  }

  lemma {:induction false} KeyedAgrees(p: Native, cfg: Value, s: Value, n: NestedBlock, exact: bool)
    requires ValidBlock(n.block) && TypedAs(Some(cfg), NestedType(n))
    requires n.nesting.MAP? && p.NDict? && cfg.body.Fields?
    requires Validate(NestedType(n), MergeNested(p, Some(cfg), n)).Some?
    ensures Agree(Validate(NestedType(n), MergeNested(p, Some(cfg), n)).value, s, exact) <==>
      HonoursNested(Some(p), Some(cfg), s, n, exact, false)
    decreases n, 0
  {
    var planned := Validate(NestedType(n), MergeNested(p, Some(cfg), n)).value;
    FieldsAgree(planned, s, exact);
    if s.body.Fields? {
      forall k | k in s.body.fields && k in p.entries
        ensures Agree(planned.body.fields[k], s.body.fields[k], exact) <==>
          Honours(p.entries[k], Get(cfg.body.fields, k), s.body.fields[k], n.block, exact, false)
      {
        assert MergeNested(p, Some(cfg), n).entries[k] == MergeBlock(p.entries[k], Get(cfg.body.fields, k), n.block);
        BlockAgrees(p.entries[k], Get(cfg.body.fields, k), s.body.fields[k], n.block, exact);
      }
    }
  }

  lemma {:induction false} ItemsAgree(p: Native, cfg: Value, s: Value, n: NestedBlock, exact: bool)
    requires ValidBlock(n.block) && TypedAs(Some(cfg), NestedType(n))
    requires (n.nesting.LIST? || n.nesting.SET?) && Items(p) && cfg.body.Elems?
    requires Validate(NestedType(n), MergeNested(p, Some(cfg), n)).Some?
    ensures Agree(Validate(NestedType(n), MergeNested(p, Some(cfg), n)).value, s, exact) <==>
      HonoursNested(Some(p), Some(cfg), s, n, exact, false)
    decreases n, 0
  {
    var merged := MergeNested(p, Some(cfg), n);
    var planned := Validate(NestedType(n), merged).value;
    var inSet := exact || n.nesting.SET?;
    ValidatedItems(merged, BlockType(n.block), NestedType(n));
    ElemsAgree(planned, s, inSet);
    if s.body.Elems? {
      forall i | 0 <= i < |s.body.elems| && i < |p.items|
        ensures Agree(planned.body.elems[i], s.body.elems[i], inSet) <==>
          Honours(p.items[i], Origin(p.items, cfg.body.elems, n, i), s.body.elems[i], n.block, inSet, false)
      {
        var o := Origin(p.items, cfg.body.elems, n, i);
        assert TypedAs(o, BlockType(n.block));
        assert merged.items[i] == MergeBlock(p.items[i], o, n.block);
        BlockAgrees(p.items[i], o, s.body.elems[i], n.block, inSet);
      }
    }
    if n.nesting.SET? && !exact { SetAgrees(p, merged, planned, cfg, s, n); }
  }

  // Outside any other set, a set is compared whole unless an element of it is unknown.
  lemma {:induction false} SetAgrees(p: Native, merged: Native, planned: Value, cfg: Value, s: Value, n: NestedBlock)
    requires n.nesting.SET? && Items(p) && cfg.body.Elems? && merged == MergeNested(p, Some(cfg), n)
    requires Validate(NestedType(n), merged) == Some(planned)
    ensures Refines(planned, s) <==>
      s.ty == NestedType(n) && s.body.Elems? && (HasUnknownItem(p.items) || Unmark(planned) == Unmark(s))
  {
    ValidatedItems(merged, BlockType(n.block), NestedType(n));
    forall i | 0 <= i < |p.items|
      ensures planned.body.elems[i].body.Unknown? <==> p.items[i].NCty? && p.items[i].v.body.Unknown?
    {
      assert merged.items[i] == MergeBlock(p.items[i], Origin(p.items, cfg.body.elems, n, i), n.block);
      UnknownStays(p.items[i], Origin(p.items, cfg.body.elems, n, i), n.block);
    }
    assert HasUnknownItem(p.items) <==>
      exists i :: 0 <= i < |planned.body.elems| && planned.body.elems[i].body.Unknown?;
    if Unmark(planned) == Unmark(s) { assert s.ty == planned.ty; }
  }

  lemma {:induction false} UnknownStays(p: Native, cfg: Option<Value>, b: Block)
    requires Validate(BlockType(b), MergeBlock(p, cfg, b)).Some?
    ensures Validate(BlockType(b), MergeBlock(p, cfg, b)).value.body.Unknown? <==> p.NCty? && p.v.body.Unknown?
  {
    assert p.NDict? ==> MergeBlock(p, cfg, b).NDict?;
  }

  lemma {:induction false} ValidatedBlock(m: map<string, Native>, b: Block)
    requires Validate(BlockType(b), NDict(m)).Some?
    ensures var v := Validate(BlockType(b), NDict(m)).value;
      v.ty == BlockType(b) && BlockType(b).TObj? && v.body.Fields? && v.body.fields.Keys == Names(b) &&
      forall k :: k in Names(b) ==> Validate(FieldType(b, k), OrNone(Find(m, k))) == Some(v.body.fields[k])
  {
    assert BlockType(b).attrs.Keys == Names(b);
    forall k | k in Names(b) ensures BlockType(b).attrs[k] == FieldType(b, k) && Entry(m, k) == OrNone(Find(m, k)) {
    }
  }

  lemma {:induction false} ValidatedItems(p: Native, t: Type, ty: Type)
    requires Items(p) && (ty == TList(t) || ty == TSet(t)) && Validate(ty, p).Some?
    ensures var v := Validate(ty, p).value;
      v.ty == ty && v.body.Elems? && |v.body.elems| == |p.items| &&
      forall i :: 0 <= i < |p.items| ==> Validate(t, p.items[i]) == Some(v.body.elems[i])
  {
  }

  // End to end, exactly: whatever plan the resource returns, once defaults are merged into it and what was
  // left open is unknown, the refinement check of the apply step passes precisely the new states that, at
  // each position, hold what is acceptable for the configuration's value where a default governs, for
  // the plan's value where none does, and anything where the provider was left to compute a value.
  lemma {:induction false} AcceptedExactly(p: map<string, Native>, cfg: Value, s: Value, b: Block)
    requires ValidBlock(b) && WF(cfg) && cfg.ty == BlockType(b) && cfg.body.Fields?
    requires Planned(p, Some(cfg), b).Some?
    ensures Refines(Planned(p, Some(cfg), b).value, s) <==> StateHonours(p, cfg, s, b, false)
  {
    var m := MergeBlock(NDict(p), Some(cfg), b).entries;
    var planned := Planned(p, Some(cfg), b).value;
    ValidatedBlock(Fill(m, b), b);
    FieldsAgree(planned, s, false);
    if s.body.Fields? {
      forall k | k in Names(b) && k in s.body.fields
        ensures Agree(planned.body.fields[k], s.body.fields[k], false) <==>
          StateHonoursAt(Find(p, k), Get(cfg.body.fields, k), s.body.fields[k], b, k, false)
      {
        MergedEntries(NDict(p), Some(cfg), b, k);
        FilledEntries(m, b, k);
        EntryTyped(cfg, b, k);
        FilledEntryAgrees(Find(p, k), Get(cfg.body.fields, k), s.body.fields[k], b, k);
      }
    }
  }

  lemma {:induction false} FilledEntryAgrees(p: Option<Native>, cfg: Option<Value>, s: Value, b: Block, k: string)
    requires ValidBlock(b) && k in Names(b) && TypedAs(cfg, FieldType(b, k))
    requires Validate(FieldType(b, k), OrNone(FillEntry(MergeEntry(p, cfg, b, k), b, k))).Some?
    ensures Agree(Validate(FieldType(b, k), OrNone(FillEntry(MergeEntry(p, cfg, b, k), b, k))).value, s, false) <==>
      StateHonoursAt(p, cfg, s, b, k, false)
  {
    var i := AttrIndex(b.attributes, k);
    var e := MergeEntry(p, cfg, b, k);
    if i >= 0 { OpenStaysOpen(p, cfg, b.attributes[i]); }
    if i >= 0 && LeftOpen(b.attributes[i], e) {
      assert FillEntry(e, b, k) == Some(NCty(Value(FieldType(b, k), Unknown, {})));
      assert FieldType(b, k) == b.attributes[i].ty;
    } else {
      assert FillEntry(e, b, k) == e;
      EntryAgrees(p, cfg, s, b, k, false);
    }
  }

  // So a new state that, read strictly, has the configuration's values where defaults govern, any value
  // where the provider was left to compute one, and the plan's values everywhere else always passes.
  lemma {:induction false} PlanAndApplyAgree(p: map<string, Native>, cfg: Value, s: Value, b: Block)
    requires ValidBlock(b) && WFNative(NDict(p)) && WF(cfg) && cfg.ty == BlockType(b) && cfg.body.Fields?
    requires StateHonours(p, cfg, s, b, true)
    ensures Planned(p, Some(cfg), b).Some? ==> Refines(Planned(p, Some(cfg), b).value, s)
  {
    if Planned(p, Some(cfg), b).Some? {
      forall k | k in s.body.fields
        ensures StateHonoursAt(Find(p, k), Get(cfg.body.fields, k), s.body.fields[k], b, k, false)
      {
        EntryTyped(cfg, b, k);
        assert StateHonoursAt(Find(p, k), Get(cfg.body.fields, k), s.body.fields[k], b, k, true);
        if HonoursEntry(Find(p, k), Get(cfg.body.fields, k), s.body.fields[k], b, k, false, true) {
          EntryWeakens(Find(p, k), Get(cfg.body.fields, k), s.body.fields[k], b, k, false);
        }
      }
      AcceptedExactly(p, cfg, s, b);
    }
  }

  // The merge leaves an attribute open exactly when the plan did and no default supplies it.
  lemma OpenStaysOpen(p: Option<Native>, cfg: Option<Value>, a: Attribute)
    ensures LeftOpen(a, MergeAttribute(p, cfg, a)) <==> LeftOpen(a, p) && !Supplies(cfg, a)
  {
    if Supplies(cfg, a) { ToNativeSomething(cfg.value); }
  }

  // Whatever the hook or the prior state said, an attribute with a default that is configured, be it with
  // another value, is planned as it is configured.
  lemma {:induction false} SuppliedIsPlanned(p: map<string, Native>, cfg: Value, b: Block, i: nat)
    requires ValidBlock(b) && WF(cfg) && cfg.ty == BlockType(b) && cfg.body.Fields? && i < |b.attributes|
    requires var a := b.attributes[i]; var c := Get(cfg.body.fields, a.name);
      !a.writeOnly && a.default.Some? && c.Some? && !c.value.body.Null? && !c.value.body.Unknown? &&
      (a.objectType.Some? ==> WhollyKnown(c.value))
    requires Planned(p, Some(cfg), b).Some?
    ensures var k, planned := b.attributes[i].name, Planned(p, Some(cfg), b).value;
      planned.ty.TObj? && planned.body.Fields? && k in planned.body.fields && k in cfg.body.fields &&
      Validate(b.attributes[i].ty, ToNative(cfg.body.fields[k])) == Some(planned.body.fields[k]) &&
      (WhollyKnown(cfg.body.fields[k]) ==> planned.body.fields[k] == Unmark(cfg.body.fields[k]))
  {
    var a := b.attributes[i];
    var k, c := a.name, cfg.body.fields[a.name];
    var m := MergeBlock(NDict(p), Some(cfg), b).entries;
    ValidatedBlock(Fill(m, b), b);
    MergedEntries(NDict(p), Some(cfg), b, k);
    FilledEntries(m, b, k);
    AttributeNamed(b, i);
    OpenStaysOpen(Find(p, k), Some(c), a);
    NativeRoundTripExact(c);
  }

  lemma {:induction false} AttributeNamed(b: Block, i: nat)
    requires DistinctNames(b) && i < |b.attributes|
    ensures var k := b.attributes[i].name;
      AttrIndex(b.attributes, k) == i && k in Names(b) && FieldType(b, k) == b.attributes[i].ty
  {
  }

  // And conversely, there no other value passes. A new state that kept the prior value of an omitted
  // attribute, say, is refused.
  lemma DefaultsBindApply(p: map<string, Native>, cfg: Value, s: Value, b: Block, i: nat)
    requires ValidBlock(b) && WF(cfg) && cfg.ty == BlockType(b) && cfg.body.Fields? && i < |b.attributes|
    requires var a := b.attributes[i]; var c := Get(cfg.body.fields, a.name);
      !a.writeOnly && a.default.Some? && c.Some? && WhollyKnown(c.value) && NoNulls(c.value)
    requires Planned(p, Some(cfg), b).Some? && Refines(Planned(p, Some(cfg), b).value, s)
    ensures var k := b.attributes[i].name;
      s.body.Fields? && k in s.body.fields && Unmark(s.body.fields[k]) == Unmark(cfg.body.fields[k])
  {
    var k := b.attributes[i].name;
    var planned, c := Planned(p, Some(cfg), b).value, cfg.body.fields[k];
    SuppliedIsPlanned(p, cfg, b, i);
    assert KeyedRefines(planned, s);
    KnownBinds(planned.body.fields[k], c, s.body.fields[k]);
  }

  lemma KnownBinds(planned: Value, c: Value, s: Value)
    requires WF(c) && WhollyKnown(c) && NoNulls(c) && planned == Unmark(c) && Refines(planned, s)
    ensures Unmark(s) == Unmark(c)
  {
    UnmarkIdempotent(c);
    VerdictIgnoresMarks(planned, s, c, s);
    KnownAcceptsOnlyItself(c, s);
  }

  // ------------------------------------------------------------------ where the plan has the configuration's value

  // Entry k of a plan the resource returned, after defaults are merged into it and what was left open is
  // unknown, against the configuration's value c.
  ghost predicate ConfiguredAt(p: Option<Native>, c: Value, b: Block, k: string) {
    var i := AttrIndex(b.attributes, k);
    if i >= 0 && LeftOpen(b.attributes[i], p) && !Supplies(Some(c), b.attributes[i]) then c.body.Unknown?
    else HonoursEntry(p, Some(c), c, b, k, true, false)
  }

  // Whatever plan the resource returns and whatever it was proposed, the planned state has, up to marks,
  // the configuration's value exactly there.
  lemma {:induction false} PlannedAsConfigured(p: map<string, Native>, cfg: Value, b: Block, k: string)
    requires ValidBlock(b) && WF(cfg) && cfg.ty == BlockType(b) && cfg.body.Fields? && k in Names(b)
    requires Planned(p, Some(cfg), b).Some?
    ensures var planned := Planned(p, Some(cfg), b).value;
      planned.body.Fields? && k in planned.body.fields && k in cfg.body.fields &&
      (Unmark(planned.body.fields[k]) == Unmark(cfg.body.fields[k]) <==>
       ConfiguredAt(Find(p, k), cfg.body.fields[k], b, k))
  {
    var m := MergeBlock(NDict(p), Some(cfg), b).entries;
    ValidatedBlock(Fill(m, b), b);
    MergedEntries(NDict(p), Some(cfg), b, k);
    FilledEntries(m, b, k);
    EntryTyped(cfg, b, k);
    EntryAsConfigured(Find(p, k), cfg.body.fields[k], b, k);
  }

  lemma {:induction false} EntryAsConfigured(p: Option<Native>, c: Value, b: Block, k: string)
    requires ValidBlock(b) && k in Names(b) && WF(c) && c.ty == FieldType(b, k)
    requires Validate(FieldType(b, k), OrNone(FillEntry(MergeEntry(p, Some(c), b, k), b, k))).Some?
    ensures Unmark(Validate(FieldType(b, k), OrNone(FillEntry(MergeEntry(p, Some(c), b, k), b, k))).value) == Unmark(c)
      <==> ConfiguredAt(p, c, b, k)
  {
    var i := AttrIndex(b.attributes, k);
    var e := MergeEntry(p, Some(c), b, k);
    if i >= 0 { OpenStaysOpen(p, Some(c), b.attributes[i]); }
    if i >= 0 && LeftOpen(b.attributes[i], e) {
      assert FillEntry(e, b, k) == Some(NCty(Value(FieldType(b, k), Unknown, {})));
    } else {
      assert FillEntry(e, b, k) == e;
      EntryAgrees(p, Some(c), c, b, k, true);
    }
  }

  // ------------------------------------------------------------------ and leaves nothing to change

  // Entry k was left for the provider to compute.
  predicate Computes(m: map<string, Native>, b: Block, k: string) {
    AttrIndex(b.attributes, k) >= 0 && LeftOpen(b.attributes[AttrIndex(b.attributes, k)], Find(m, k))
  }

  // state holds what was planned, with values for the attributes that were unknown, none of them
  // configured.
  ghost predicate Completes(state: map<string, Native>, merged: map<string, Native>, cfg: Value, b: Block)
    requires cfg.body.Fields?
  {
    forall k :: if Computes(merged, b, k)
      then !OrNone(Find(state, k)).NNone? && !Resolvable(Get(cfg.body.fields, k))
      else Find(state, k) == Find(merged, k)
  }

  // Planning again from that state, under the same configuration, plans the state itself: no default is
  // put in twice, and nothing becomes unknown again.
  lemma {:induction false} SecondPlanIsTheState(p: map<string, Native>, state: map<string, Native>, cfg: Value,
                                                b: Block)
    requires ValidBlock(b) && cfg.body.Fields?
    requires Completes(state, MergeBlock(NDict(p), Some(cfg), b).entries, cfg, b)
    ensures Planned(state, Some(cfg), b) == Checked(state, b)
  {
    var merged := MergeBlock(NDict(p), Some(cfg), b).entries;
    var again := MergeBlock(NDict(state), Some(cfg), b).entries;
    MergeIdempotent(NDict(p), Some(cfg), b);
    forall k ensures Find(again, k) == Find(state, k) {
      MergedEntries(NDict(p), Some(cfg), b, k);
      MergedEntries(NDict(merged), Some(cfg), b, k);
      MergedEntries(NDict(state), Some(cfg), b, k);
    }
    SameEntries(again, state);
    forall k ensures Find(Fill(state, b), k) == Find(state, k) { FilledEntries(state, b, k); }
    SameEntries(Fill(state, b), state);
  }
}
