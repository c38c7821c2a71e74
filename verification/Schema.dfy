// src/pyvider/schema/types/{attribute,blocks,object}.py: the schema tree, and the rules an attribute
// is checked and normalised by when it is declared.
module Schema {
  import opened Options
  import opened CtyValues

  datatype Attribute = Attribute(
    name: string,
    ty: Type,
    required: bool,
    optional: bool,
    computed: bool,
    writeOnly: bool,
    requiresReplace: bool,
    default: Option<Native>,
    objectType: Option<Block>)

  datatype Nesting = SINGLE | GROUP | LIST | SET | MAP

  datatype NestedBlock = NestedBlock(typeName: string, block: Block, nesting: Nesting)

  datatype Block = Block(attributes: seq<Attribute>, blockTypes: seq<NestedBlock>)

  datatype Rule =
    | RequiredAndComputed
    | NoFlag
    | ReplaceOnComputedOnly
    | ReplaceOnWriteOnly
    | ReplaceInsideObject
    | DefaultOnComputedOnly
    | DefaultOnRequired
    | DefaultOnWriteOnly
    | DefaultOfWrongType

  datatype Declared = Accepted(a: Attribute) | Rejected(rule: Rule)

  predicate ReplaceInside(a: Attribute) {
    a.objectType.Some? &&
    exists i :: 0 <= i < |a.objectType.value.attributes| && a.objectType.value.attributes[i].requiresReplace
  }

  predicate DefaultFits(a: Attribute) {
    a.default.Some? ==> Validate(a.ty, a.default.value).Some?
  }

  // What the declaration rules promise, stated without their order: an attribute is accepted exactly
  // when it asks for none of the combinations Terraform cannot express...
  predicate Expressible(a: Attribute) {
    && !(a.required && a.computed)
    && (a.requiresReplace ==> !a.writeOnly && (a.required || a.optional || !a.computed))
    && !ReplaceInside(a)
    && (a.default.Some? ==> !a.required && !a.writeOnly && (a.optional || !a.computed) && DefaultFits(a))
  }

  // ...and then is exactly one of required and optional unless the provider alone computes it, with a
  // default making it optional and computed.
  function Settled(a: Attribute): Attribute {
    a.(optional := !a.required && (a.optional || !a.computed),
       computed := a.computed || a.default.Some?)
  }

  function Declare(a: Attribute): Declared {
    if Expressible(a) then Accepted(Settled(a)) else Rejected(FirstBroken(a))
  }

  // The rule whose message the author sees: the first broken one in the fixed order of checks.
  function FirstBroken(a: Attribute): Rule
    requires !Expressible(a)
  {
    if a.required && a.computed then RequiredAndComputed
    else if a.requiresReplace && a.computed && !a.required && !a.optional then ReplaceOnComputedOnly
    else if a.requiresReplace && a.writeOnly then ReplaceOnWriteOnly
    else if ReplaceInside(a) then ReplaceInsideObject
    else if a.computed && !a.optional && !a.required then DefaultOnComputedOnly
    else if a.required then DefaultOnRequired
    else if a.writeOnly then DefaultOnWriteOnly
    else DefaultOfWrongType
  }

  // PvsAttribute while __attrs_post_init__ still writes its flags.
  class AttributeDeclaration {
    const given: Attribute
    var required: bool
    var optional: bool
    var computed: bool

    constructor (a: Attribute)
      ensures given == a && required == a.required && optional == a.optional && computed == a.computed
    {
      given := a;
      required, optional, computed := a.required, a.optional, a.computed;
    }

    method PostInit() returns (broken: Option<Rule>)
      requires required == given.required && optional == given.optional && computed == given.computed
      modifies this
      ensures Declare(given) == if broken.None?
        then Accepted(given.(required := required, optional := optional, computed := computed))
        else Rejected(broken.value)
    {
      // _normalize_flags
      var isReq, isOpt, isComp := required, optional, computed;
      if !isReq && !isOpt && !isComp {
        optional := true;
        isOpt := true;
      }
      if isReq && isOpt { optional := false; }
      // _validate_flag_combinations
      if isReq && isComp { return Some(RequiredAndComputed); }
      if !required && !optional && !computed { return Some(NoFlag); }
      // _validate_requires_replace
      if given.requiresReplace && computed && !required && !optional { return Some(ReplaceOnComputedOnly); }
      if given.requiresReplace && given.writeOnly { return Some(ReplaceOnWriteOnly); }
      if ReplaceInside(given) { return Some(ReplaceInsideObject); }
      // _apply_default_rules
      if given.default.None? { return None; }
      if isComp && !isOpt && !isReq { return Some(DefaultOnComputedOnly); }
      if isReq { return Some(DefaultOnRequired); }
      if given.writeOnly { return Some(DefaultOnWriteOnly); }
      if Validate(given.ty, given.default.value).None? { return Some(DefaultOfWrongType); }
      computed := true;
      return None;
    }
  }

  // An attribute as declaration leaves it.
  ghost predicate ValidAttribute(a: Attribute) {
    exists raw :: Declare(raw) == Accepted(a)
  }

  // Rule by rule: what is refused, and what becomes of the flags otherwise.
  lemma {:induction false} DeclaredExactly(raw: Attribute)
    ensures var computedOnly := raw.computed && !raw.required && !raw.optional;
      var inside := raw.objectType.Some? &&
        exists i :: 0 <= i < |raw.objectType.value.attributes| && raw.objectType.value.attributes[i].requiresReplace;
      Declare(raw).Rejected? <==>
        (raw.required && raw.computed) || (raw.requiresReplace && (computedOnly || raw.writeOnly)) || inside ||
        (raw.default.Some? &&
         (computedOnly || raw.required || raw.writeOnly || Validate(raw.ty, raw.default.value).None?))
    ensures Declare(raw).Accepted? ==>
      Declare(raw).a == raw.(
        optional := !raw.required && !(raw.computed && !raw.optional),
        computed := raw.computed || raw.default.Some?)
  {
  }

  // What the default-resolving code may rely on.
  lemma DeclaredDefaults(a: Attribute)
    requires ValidAttribute(a)
    ensures a.default.Some? ==>
      a.optional && a.computed && !a.required && !a.writeOnly && Validate(a.ty, a.default.value).Some?
    ensures !(a.required && (a.optional || a.computed)) && (a.required || a.optional || a.computed)
  {
    var raw :| Declare(raw) == Accepted(a);
  }

  // Declaring an accepted attribute again changes nothing.
  lemma DeclareIdempotent(a: Attribute)
    requires ValidAttribute(a)
    ensures Declare(a) == Accepted(a)
  {
    var raw :| Declare(raw) == Accepted(a);
    assert a.objectType == raw.objectType;
    assert ReplaceInside(a) == ReplaceInside(raw);
  }

  // ------------------------------------------------------------------ the schema tree

  // Where a name stands among the attributes, and among the block types; -1 for nowhere.
  function AttrIndex(attributes: seq<Attribute>, k: string): (i: int)
    ensures -1 <= i < |attributes|
    ensures i >= 0 ==> attributes[i].name == k
    ensures i < 0 ==> forall j :: 0 <= j < |attributes| ==> attributes[j].name != k
  {
    if attributes == [] then -1
    else
      var last := |attributes| - 1;
      if attributes[last].name == k then last else AttrIndex(attributes[..last], k)
  }

  function BlockIndex(blockTypes: seq<NestedBlock>, k: string): (i: int)
    ensures -1 <= i < |blockTypes|
    ensures i >= 0 ==> blockTypes[i].typeName == k
    ensures i < 0 ==> forall j :: 0 <= j < |blockTypes| ==> blockTypes[j].typeName != k
  {
    if blockTypes == [] then -1
    else
      var last := |blockTypes| - 1;
      if blockTypes[last].typeName == k then last else BlockIndex(blockTypes[..last], k)
  }

  function Names(b: Block): set<string> {
    (set i | 0 <= i < |b.attributes| :: b.attributes[i].name) +
    (set i | 0 <= i < |b.blockTypes| :: b.blockTypes[i].typeName)
  }

  function NestedType(n: NestedBlock): Type
    decreases n, 0
  {
    var t := BlockType(n.block);
    match n.nesting
    case LIST => TList(t)
    case SET => TSet(t)
    case MAP => TMap(t)
    case _ => t
  }

  function FieldType(b: Block, k: string): Type
    requires k in Names(b)
    decreases b, 0
  {
    var j := BlockIndex(b.blockTypes, k);
    if j >= 0 then NestedType(b.blockTypes[j]) else b.attributes[AttrIndex(b.attributes, k)].ty
  }

  // to_cty_type
  function BlockType(b: Block): Type
    decreases b, 1
  {
    TObj(map k | k in Names(b) :: FieldType(b, k))
  }

  ghost predicate SoundDefault(a: Attribute) {
    a.default.Some? ==>
      (WFNative(a.default.value) &&
       (var v := Validate(a.ty, a.default.value); v.Some? && !v.value.body.Null?))
  }

  // No two attributes or blocks of one level share a name. Python's dict gives this for attributes;
  // for block types Terraform's own schema rules do.
  ghost predicate DistinctNames(b: Block) {
    && (forall i, j :: 0 <= i < j < |b.attributes| ==> b.attributes[i].name != b.attributes[j].name)
    && (forall i, j :: 0 <= i < j < |b.blockTypes| ==> b.blockTypes[i].typeName != b.blockTypes[j].typeName)
    && (forall i, j :: 0 <= i < |b.attributes| && 0 <= j < |b.blockTypes| ==>
      b.attributes[i].name != b.blockTypes[j].typeName)
  }

  // A schema tree of declared attributes, where an object-typed attribute has its object's type. A
  // default of None is no default, so a default validates to something other than null.
  ghost predicate ValidBlock(b: Block)
    decreases b
  {
    && DistinctNames(b)
    && (forall i :: 0 <= i < |b.attributes| ==> ValidMember(b.attributes[i]))
    && (forall j :: 0 <= j < |b.blockTypes| ==> ValidBlock(b.blockTypes[j].block))
  }

  ghost predicate ValidMember(a: Attribute)
    decreases a
  {
    ValidAttribute(a) && SoundDefault(a) &&
    (a.objectType.Some? ==> (ValidBlock(a.objectType.value) && a.ty == BlockType(a.objectType.value)))
  }
}
