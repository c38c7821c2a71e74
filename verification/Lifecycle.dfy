// src/pyvider/resources/base.py:35-55, 167-399, 446-566, handlers/utils.py:676-725 and the
// _create_resource_context of the plan and apply handlers: from cty values to the instances a resource
// works with, and which of create, update and delete a request becomes.
module Lifecycle {
  import opened Options
  import opened CtyValues
  import opened Schema
  import opened Defaults
  import opened DefaultsMerge
  import opened PlanApply

  // ------------------------------------------------------------------ decoding into attrs classes

  // What a field's annotation resolves to.
  datatype PyType =
    | PyAny
    | PyList(elem: PyType)
    | PyDict(elem: PyType)
    | PyClass(cls: AttrsClass)
    | PyOptional(inner: PyType)

  datatype Field = Field(name: string, ty: PyType, hasDefault: bool, init: bool)

  datatype AttrsClass = AttrsClass(fields: seq<Field>)

  // Payload is what a cty value holds, handed over undecoded.
  datatype Py =
    | PyNone
    | Payload(body: Body)
    | Sequence(items: seq<Py>)
    | Mapping(entries: map<string, Py>)
    | Instance(cls: AttrsClass, kwargs: map<string, Py>)

  function Target(t: PyType): PyType {
    if t.PyOptional? then t.inner else t
  }

  predicate Mandatory(f: Field) {
    f.init && !f.hasDefault
  }

  function FieldNamed(cls: AttrsClass, name: string): Option<Field> {
    FieldAmong(cls.fields, name)
  }

  function FieldAmong(fields: seq<Field>, name: string): (r: Option<Field>)
    ensures r.Some? ==> r.value in fields && r.value.name == name
    ensures r.None? ==> forall i :: 0 <= i < |fields| ==> fields[i].name != name
  {
    if fields == [] then None
    else if fields[0].name == name then Some(fields[0])
    else FieldAmong(fields[1..], name)
  }

  ghost predicate DistinctFields(cls: AttrsClass) {
    forall i, j :: 0 <= i < j < |cls.fields| ==> cls.fields[i].name != cls.fields[j].name
  }

  // A null configuration attribute leaves the keyword out, so that the class default applies.
  predicate Passed(f: Option<Field>, v: Value, defaults: bool) {
    f.Some? && f.value.init && !(defaults && v.body.Null? && f.value.hasDefault)
  }

  // from_cty; an unknown at any level decodes to None on its own.
  function Decode(v: Value, t: PyType, defaults: bool): Py
    decreases v, 1
  {
    match v.body
    case Null => PyNone
    case Unknown => PyNone
    case Leaf(_) => if Target(t).PyClass? then PyNone else Payload(v.body)
    case Elems(es) =>
      if Target(t).PyList? then Sequence(seq(|es|, i requires 0 <= i < |es| => Decode(es[i], Target(t).elem, defaults)))
      else if Target(t).PyClass? then PyNone
      else Payload(v.body)
    case Fields(fs) =>
      if Target(t).PyDict? then Mapping(map k | k in fs :: Decode(fs[k], Target(t).elem, defaults))
      else if Target(t).PyClass? then
        var kwargs := Kwargs(v, Target(t).cls, defaults);
        if Lacks(Target(t).cls, kwargs.Keys) then PyNone  // "missing required argument"
        else Instance(Target(t).cls, kwargs)
      else Payload(v.body)
  }

  function Kwargs(v: Value, cls: AttrsClass, defaults: bool): map<string, Py>
    requires v.body.Fields?
    decreases v, 0
  {
    map k | k in v.body.fields && Passed(FieldNamed(cls, k), v.body.fields[k], defaults)
        :: Decode(v.body.fields[k], FieldNamed(cls, k).value.ty, defaults)
  }

  predicate Lacks(cls: AttrsClass, names: set<string>) {
    exists i :: 0 <= i < |cls.fields| && Mandatory(cls.fields[i]) && cls.fields[i].name !in names
  }

  // cty_to_attrs_instance
  function ToInstance(v: Option<Value>, cls: Option<AttrsClass>, allowUnknown: bool, defaults: bool): Py {
    if cls.None? then PyNone
    else if !allowUnknown && v.Some? && !WhollyKnown(v.value) then PyNone
    else if v.None? then PyNone
    else Decode(v.value, PyClass(cls.value), defaults)
  }

  ghost predicate MandatoryAreDeclared(cls: AttrsClass, names: set<string>) {
    forall i :: 0 <= i < |cls.fields| && Mandatory(cls.fields[i]) ==> cls.fields[i].name in names
  }

  // Whether a known, non-null object decodes to an instance depends on the class and the schema alone:
  // not on which of its attributes are unknown or null, at any depth.
  lemma {:induction false} DecodesByNamesAlone(v: Value, cls: AttrsClass, defaults: bool)
    requires DistinctFields(cls) && v.body.Fields?
    ensures Decode(v, PyClass(cls), defaults) != PyNone <==> MandatoryAreDeclared(cls, v.body.fields.Keys)
  {
    forall i | 0 <= i < |cls.fields| && Mandatory(cls.fields[i])
      ensures cls.fields[i].name in Kwargs(v, cls, defaults) <==> cls.fields[i].name in v.body.fields
    {
      MandatoryIsPassed(v, cls, defaults, i);
    }
    assert Lacks(cls, Kwargs(v, cls, defaults).Keys) <==> Lacks(cls, v.body.fields.Keys);
    assert Lacks(cls, v.body.fields.Keys) <==> !MandatoryAreDeclared(cls, v.body.fields.Keys);
  }

  lemma MandatoryIsPassed(v: Value, cls: AttrsClass, defaults: bool, i: nat)
    requires DistinctFields(cls) && v.body.Fields? && i < |cls.fields| && Mandatory(cls.fields[i])
    ensures cls.fields[i].name in Kwargs(v, cls, defaults) <==> cls.fields[i].name in v.body.fields
  {
    NamedField(cls.fields, i);
  }

  lemma {:induction false} NamedField(fields: seq<Field>, i: nat)
    requires forall x, y :: 0 <= x < y < |fields| ==> fields[x].name != fields[y].name
    requires i < |fields|
    ensures FieldAmong(fields, fields[i].name) == Some(fields[i])
    decreases i
  {
    if i > 0 {
      assert fields[0].name != fields[i].name;
      NamedField(fields[1..], i - 1);
    }
  }

  // What a decoded instance is given: every member the class knows and initialises, except a null one of a
  // configuration that the class has a default for, each decoded as its annotation says.
  lemma {:induction false} DecodedMembers(v: Value, cls: AttrsClass, defaults: bool, i: nat)
    requires DistinctFields(cls) && v.body.Fields? && i < |cls.fields|
    requires Decode(v, PyClass(cls), defaults).Instance?
    ensures var d, f := Decode(v, PyClass(cls), defaults), cls.fields[i];
      d.cls == cls && d.kwargs.Keys <= v.body.fields.Keys &&
      (f.name in d.kwargs <==>
       f.name in v.body.fields && f.init && !(defaults && f.hasDefault && v.body.fields[f.name].body.Null?)) &&
      (f.name in d.kwargs ==> d.kwargs[f.name] == Decode(v.body.fields[f.name], f.ty, defaults))
  {
    NamedField(cls.fields, i);
  }

  // The annotation fits the value: sequences are lists, and a class knows and initialises every member.
  ghost predicate Annotates(t: PyType, v: Value)
    decreases v
  {
    match v.body
    case Leaf(_) => !Target(t).PyClass?
    case Elems(es) =>
      Target(t).PyList? && !v.ty.TTuple? && forall i :: 0 <= i < |es| ==> Annotates(Target(t).elem, es[i])
    case Fields(fs) =>
      if Target(t).PyClass? then
        var cls := Target(t).cls;
        DistinctFields(cls) && MandatoryAreDeclared(cls, fs.Keys) &&
        forall k :: k in fs ==>
          FieldNamed(cls, k).Some? && FieldNamed(cls, k).value.init && Annotates(FieldNamed(cls, k).value.ty, fs[k])
      else Target(t).PyDict? && forall k :: k in fs ==> Annotates(Target(t).elem, fs[k])
    case _ => true
  }

  // Decoded data as plain data again.
  function Plain(py: Py): Native {
    match py
    case PyNone => NNone
    case Payload(body) => ToNative(Value(TPrim(KStr), body, {}))
    case Sequence(items) => NList(seq(|items|, i requires 0 <= i < |items| => Plain(items[i])))
    case Mapping(entries) => NDict(map k | k in entries :: Plain(entries[k]))
    case Instance(_, kwargs) => NDict(map k | k in kwargs :: Plain(kwargs[k]))
  }

  // A state decodes to exactly its native form, unknowns None, at every depth.
  lemma {:induction false} DecodedIsNative(v: Value, t: PyType)
    requires Annotates(t, v)
    ensures Plain(Decode(v, t, false)) == ToNative(v)
    decreases v
  {
    match v.body
    case Elems(es) =>
      forall i | 0 <= i < |es| ensures Plain(Decode(es[i], Target(t).elem, false)) == ToNative(es[i]) {
        DecodedIsNative(es[i], Target(t).elem);
      }
      assert Plain(Decode(v, t, false)).items == ToNative(v).items;
    case Fields(fs) =>
      if Target(t).PyDict? {
        forall k | k in fs ensures Plain(Decode(fs[k], Target(t).elem, false)) == ToNative(fs[k]) {
          DecodedIsNative(fs[k], Target(t).elem);
        }
        assert Plain(Decode(v, t, false)).entries == ToNative(v).entries;
      } else {
        InstanceIsNative(v, t);
      }
    case _ =>
  }

  lemma {:induction false} InstanceIsNative(v: Value, t: PyType)
    requires Annotates(t, v) && v.body.Fields? && Target(t).PyClass?
    ensures Plain(Decode(v, t, false)) == ToNative(v)
    decreases v, 0
  {
    var fs, cls := v.body.fields, Target(t).cls;
    var kwargs := Kwargs(v, cls, false);
    forall i | 0 <= i < |cls.fields| && Mandatory(cls.fields[i]) ensures cls.fields[i].name in kwargs {
      MandatoryIsPassed(v, cls, false, i);
    }
    assert !Lacks(cls, kwargs.Keys);
    assert Decode(v, t, false) == Instance(cls, kwargs);
    forall k | k in fs ensures k in kwargs && Plain(kwargs[k]) == ToNative(fs[k]) {
      DecodedIsNative(fs[k], FieldNamed(cls, k).value.ty);
    }
    assert Plain(Decode(v, t, false)).entries == ToNative(v).entries;
  }

  // ------------------------------------------------------------------ create, update or delete

  datatype Branch = DeleteBranch | CreateBranch | UpdateBranch

  function PlanBranch(config: Option<Value>, prior: Option<Value>, proposed: Option<Value>,
                      configClass: Option<AttrsClass>, stateClass: Option<AttrsClass>): Branch
  {
    if ToInstance(config, configClass, false, true).PyNone? && ToInstance(proposed, stateClass, true, false).PyNone?
    then DeleteBranch
    else if ToInstance(prior, stateClass, false, false).PyNone? then CreateBranch
    else UpdateBranch
  }

  function ApplyBranch(prior: Option<Value>, planned: Option<Value>, stateClass: Option<AttrsClass>): Branch {
    if ToInstance(planned, stateClass, true, false).PyNone? then DeleteBranch
    else if ToInstance(prior, stateClass, false, false).PyNone? then CreateBranch
    else UpdateBranch
  }

  // A request's value comes to an instance: it is an object with a member for every field the class insists
  // on, and nothing in it is unknown where that matters.
  ghost predicate Readable(v: Option<Value>, cls: Option<AttrsClass>, unknownsCount: bool) {
    cls.Some? && v.Some? && v.value.body.Fields? && MandatoryAreDeclared(cls.value, v.value.body.fields.Keys) &&
    (unknownsCount ==> WhollyKnown(v.value))
  }

  lemma {:induction false} InstanceWhenReadable(v: Option<Value>, cls: Option<AttrsClass>, allowUnknown: bool,
                                                defaults: bool)
    requires cls.Some? ==> DistinctFields(cls.value)
    ensures ToInstance(v, cls, allowUnknown, defaults) != PyNone <==> Readable(v, cls, !allowUnknown)
  {
    if cls.Some? && v.Some? && v.value.body.Fields? { DecodesByNamesAlone(v.value, cls.value, defaults); }
  }

  // Planning is a delete when neither the configuration nor the proposal is an object, else a create when
  // there is no prior one, else an update. A configuration or a prior state with an unknown counts as none.
  lemma {:induction false} PlanBranches(config: Option<Value>, prior: Option<Value>, proposed: Option<Value>,
                                        configClass: Option<AttrsClass>, cls: Option<AttrsClass>)
    requires (configClass.Some? ==> DistinctFields(configClass.value)) && (cls.Some? ==> DistinctFields(cls.value))
    ensures var branch := PlanBranch(config, prior, proposed, configClass, cls);
      var wanted := Readable(config, configClass, true) || Readable(proposed, cls, false);
      (branch.DeleteBranch? <==> !wanted) &&
      (branch.CreateBranch? <==> wanted && !Readable(prior, cls, true)) &&
      (branch.UpdateBranch? <==> wanted && Readable(prior, cls, true))
  {
    InstanceWhenReadable(config, configClass, false, true);
    InstanceWhenReadable(proposed, cls, true, false);
    InstanceWhenReadable(prior, cls, false, false);
  }

  lemma {:induction false} ApplyBranches(prior: Option<Value>, planned: Option<Value>, cls: Option<AttrsClass>)
    requires cls.Some? ==> DistinctFields(cls.value)
    ensures var branch := ApplyBranch(prior, planned, cls);
      (branch.DeleteBranch? <==> !Readable(planned, cls, false)) &&
      (branch.CreateBranch? <==> Readable(planned, cls, false) && !Readable(prior, cls, true)) &&
      (branch.UpdateBranch? <==> Readable(planned, cls, false) && Readable(prior, cls, true))
  {
    InstanceWhenReadable(planned, cls, true, false);
    InstanceWhenReadable(prior, cls, false, false);
  }

  ghost predicate Object(v: Option<Value>, b: Block) {
    v.Some? && WF(v.value) && v.value.ty == BlockType(b)
  }

  // Applying becomes a delete exactly when there is no planned object, provided every field the state
  // class insists on is in the schema: unknowns in the planned state make no difference.
  lemma ApplyDeletesOnlyAbsence(prior: Option<Value>, planned: Option<Value>, cls: AttrsClass, b: Block)
    requires DistinctFields(cls) && MandatoryAreDeclared(cls, Names(b)) && Object(planned, b)
    ensures ApplyBranch(prior, planned, Some(cls)).DeleteBranch? <==> !planned.value.body.Fields?
  {
    if planned.value.body.Fields? {
      assert planned.value.body.fields.Keys == Names(b);
      DecodesByNamesAlone(planned.value, cls, false);
    }
  }

  lemma PlanNeverDeletesAnObject(config: Option<Value>, prior: Option<Value>, proposed: Option<Value>,
                                 configClass: Option<AttrsClass>, cls: AttrsClass, b: Block)
    requires DistinctFields(cls) && MandatoryAreDeclared(cls, Names(b)) && Object(proposed, b)
    requires proposed.value.body.Fields?
    ensures !PlanBranch(config, prior, proposed, configClass, Some(cls)).DeleteBranch?
  {
    assert proposed.value.body.fields.Keys == Names(b);
    DecodesByNamesAlone(proposed.value, cls, false);
  }

  // A state class that insists on a field the schema lacks turns every planned object into a delete.
  lemma UndeclaredMandatoryFieldDeletes(prior: Option<Value>, planned: Option<Value>, cls: AttrsClass, b: Block)
    requires DistinctFields(cls) && !MandatoryAreDeclared(cls, Names(b)) && Object(planned, b)
    ensures ApplyBranch(prior, planned, Some(cls)).DeleteBranch?
  {
    if planned.value.body.Fields? {
      assert planned.value.body.fields.Keys == Names(b);
      DecodesByNamesAlone(planned.value, cls, false);
    }
  }

  // ------------------------------------------------------------------ the plan a resource starts from

  // _cty_to_native_preserving_unknown
  function Preserve(v: Value): Native {
    match v.body
    case Unknown => NCty(v)
    case Null => NNone
    case Leaf(p) => NPrim(p)
    case Elems(es) =>
      if WhollyKnown(v) then ToNative(v)
      else
        var items := seq(|es|, i requires 0 <= i < |es| => Preserve(es[i]));
        if v.ty.TTuple? then NTuple(items) else NList(items)
    case Fields(fs) =>
      if WhollyKnown(v) then ToNative(v) else NDict(map k | k in fs :: Preserve(fs[k]))
  }

  // Unlike cty_to_native it loses nothing but marks: the value comes back whole, unknowns included.
  lemma {:induction false} PreserveRoundTrip(v: Value)
    requires WF(v)
    ensures Validate(v.ty, Preserve(v)).Some? && Unmark(Validate(v.ty, Preserve(v)).value) == Unmark(v)
    decreases v
  {
    if WhollyKnown(v) {
      NativeRoundTripExact(v);
      UnmarkIdempotent(v);
    } else {
      match v.body
      case Elems(es) =>
        forall i | 0 <= i < |es|
          ensures Validate(es[i].ty, Preserve(es[i])).Some?
          ensures Unmark(Validate(es[i].ty, Preserve(es[i])).value) == Unmark(es[i])
        {
          PreserveRoundTrip(es[i]);
        }
        var items := seq(|es|, i requires 0 <= i < |es| => Preserve(es[i]));
        assert ValidateItems(v.ty, items).Some?;
        assert Unmark(ValidateItems(v.ty, items).value).body.elems == Unmark(v).body.elems;
      case Fields(fs) =>
        forall k | k in fs
          ensures Validate(fs[k].ty, Preserve(fs[k])).Some?
          ensures Unmark(Validate(fs[k].ty, Preserve(fs[k])).value) == Unmark(fs[k])
        {
          PreserveRoundTrip(fs[k]);
        }
        PreservedFields(v);
      case _ =>
    }
  }

  lemma {:induction false} PreservedFields(v: Value)
    requires WF(v) && v.body.Fields? && !WhollyKnown(v)
    requires forall k :: k in v.body.fields ==>
      Validate(v.body.fields[k].ty, Preserve(v.body.fields[k])).Some? &&
      Unmark(Validate(v.body.fields[k].ty, Preserve(v.body.fields[k])).value) == Unmark(v.body.fields[k])
    ensures Validate(v.ty, Preserve(v)).Some? && Unmark(Validate(v.ty, Preserve(v)).value) == Unmark(v)
  {
    var m := Preserve(v).entries;
    assert m.Keys == v.body.fields.Keys;
    MembersValidate(v, m);
  }

  lemma {:induction false} MembersValidate(v: Value, m: map<string, Native>)
    requires WF(v) && v.body.Fields? && m.Keys == v.body.fields.Keys
    requires forall k :: k in m ==>
      Validate(v.body.fields[k].ty, m[k]).Some? &&
        Unmark(Validate(v.body.fields[k].ty, m[k]).value) == Unmark(v.body.fields[k])
    ensures Validate(v.ty, NDict(m)).Some? && Unmark(Validate(v.ty, NDict(m)).value) == Unmark(v)
  {
    var r := Validate(v.ty, NDict(m));
    assert forall k :: k in m ==> Entry(m, k) == m[k];
    assert r.Some? && r.value.body.Fields? && r.value.body.fields.Keys == m.Keys;
    forall k | k in m ensures r.value.body.fields[k] == Validate(v.body.fields[k].ty, m[k]).value {}
    SameFields(r.value, v);
  }

  lemma UnmarkedFields(v: Value)
    requires v.body.Fields?
    ensures var u := Unmark(v);
      u.ty == v.ty && u.marks == {} && u.body.Fields? && u.body.fields.Keys == v.body.fields.Keys &&
      forall k :: k in v.body.fields ==> u.body.fields[k] == Unmark(v.body.fields[k])
  {
  }

  predicate WriteOnly(b: Block, k: string) {
    AttrIndex(b.attributes, k) >= 0 && b.attributes[AttrIndex(b.attributes, k)].writeOnly
  }

  // Where the plan says nothing, the configuration speaks.
  function CopyEntry(current: Option<Native>, cfg: Option<Value>): Option<Native> {
    if !OrNone(current).NNone? || IsNull(cfg) then current
    else if cfg.value.body.Unknown? then Some(NCty(cfg.value))
    else Some(ToNative(cfg.value))
  }

  function BaseEntry(current: Option<Native>, cfg: Option<Value>, b: Block, k: string): Option<Native> {
    if WriteOnly(b, k) then Some(NNone) else CopyEntry(current, cfg)
  }

  // _copy_config_into_plan
  method CopyConfigIntoPlan(plan: PlanDict, fs: map<string, Value>, b: Block)
    modifies plan
    ensures forall k :: (Find(plan.entries, k) ==
      if WriteOnly(b, k) then old(Find(plan.entries, k)) else CopyEntry(old(Find(plan.entries, k)), Get(fs, k)))
  {
    ghost var given := plan.entries;
    var left := fs.Keys;
    while left != {}
      invariant left <= fs.Keys
      invariant forall k :: (Find(plan.entries, k) ==
        if WriteOnly(b, k) || k in left then Find(given, k) else CopyEntry(Find(given, k), Get(fs, k)))
      decreases |left|
    {
      var k :| k in left;
      left := left - {k};
      if WriteOnly(b, k) { continue; }
      if k in plan.entries && !plan.entries[k].NNone? { continue; }
      if fs[k].body.Null? { continue; }
      if !fs[k].body.Unknown? {
        plan.entries := plan.entries[k := ToNative(fs[k])];
      } else {
        plan.entries := plan.entries[k := NCty(fs[k])];
      }
    }
  }

  // _merge_config_into_plan
  method MergeConfigIntoPlan(plan: PlanDict, cfg: Option<Value>, b: Block)
    requires DistinctNames(b)
    modifies plan
    ensures forall k :: (Find(plan.entries, k) ==
      BaseEntry(old(Find(plan.entries, k)), if Mergeable(cfg) then Get(cfg.value.body.fields, k) else None, b, k))
  {
    ghost var given := plan.entries;
    for i := 0 to |b.attributes|
      invariant forall k :: (Find(plan.entries, k) ==
        if 0 <= AttrIndex(b.attributes, k) < i && WriteOnly(b, k) then Some(NNone) else Find(given, k))
    {
      assert AttrIndex(b.attributes, b.attributes[i].name) == i;
      if b.attributes[i].writeOnly { plan.entries := plan.entries[b.attributes[i].name := NNone]; }
    }
    if !Mergeable(cfg) { return; }
    CopyConfigIntoPlan(plan, cfg.value.body.fields, b);
  }

  // BaseResource.plan with the default hooks, for a request that is not a delete.
  method DefaultPlan(proposed: Value, cfg: Value, b: Block) returns (plan: PlanDict)
    requires DistinctNames(b) && proposed.body.Fields? && cfg.body.Fields?
    ensures fresh(plan)
    ensures forall k :: (Find(plan.entries, k) == DefaultEntry(proposed, cfg, b, k))
  {
    var fs := proposed.body.fields;
    var base := map k | k in fs :: Preserve(fs[k]);
    plan := new PlanDict(base);
    assert forall k :: Find(base, k) == if k in fs then Some(Preserve(fs[k])) else None;
    MergeConfigIntoPlan(plan, Some(cfg), b);
  }

  function DefaultEntry(proposed: Value, cfg: Value, b: Block, k: string): Option<Native>
    requires proposed.body.Fields? && cfg.body.Fields?
  {
    BaseEntry(if k in proposed.body.fields then Some(Preserve(proposed.body.fields[k]))
      else None, Get(cfg.body.fields, k), b, k)
  }
}
