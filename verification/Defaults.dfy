// src/pyvider/schema/defaults.py:33-92 and 318-350: resolving schema defaults into a configuration.
module Defaults {
  import opened Options
  import opened CtyValues
  import opened Schema

  function Get(m: map<string, Value>, k: string): Option<Value> {
    if k in m then Some(m[k]) else None
  }

  // An attribute that is not there counts as null.
  predicate IsNull(v: Option<Value>) {
    v.None? || v.value.body.Null?
  }

  predicate Resolvable(v: Option<Value>) {
    v.Some? && !v.value.body.Null? && !v.value.body.Unknown?
  }

  // attribute.type.validate(attribute.default), which declaration has already tried.
  function DefaultValue(a: Attribute): Option<Value> {
    if a.default.None? then None else Validate(a.ty, a.default.value)
  }

  function ResolveBlock(v: Value, b: Block): Value
    decreases b, 1
  {
    if !v.body.Fields? then v
    else
      var fs := v.body.fields;
      v.(body := Fields(map k | k in fs.Keys + Names(b) && ResolveEntry(Get(fs, k), b, k).Some?
                            :: ResolveEntry(Get(fs, k), b, k).value))
  }

  function ResolveEntry(current: Option<Value>, b: Block, k: string): Option<Value>
    decreases b, 0
  {
    var i, j := AttrIndex(b.attributes, k), BlockIndex(b.blockTypes, k);
    if i >= 0 then ResolveAttribute(current, b.attributes[i])
    else if j >= 0 then ResolveNested(current, b.blockTypes[j])
    else current
  }

  function ResolveAttribute(current: Option<Value>, a: Attribute): Option<Value>
    decreases a
  {
    if a.writeOnly then current
    else
      var resolved := if DefaultValue(a).Some? && IsNull(current) then DefaultValue(a) else current;
      if a.objectType.Some? && resolved.Some? then Some(ResolveBlock(resolved.value, a.objectType.value)) else resolved
  }

  function ResolveNested(current: Option<Value>, n: NestedBlock): Option<Value>
    decreases n
  {
    if !Resolvable(current) then current
    else
      var v := current.value;
      match n.nesting
      case SINGLE => Some(ResolveBlock(v, n.block))
      case GROUP => Some(ResolveBlock(v, n.block))
      case MAP =>
        if v.body.Fields?
        then Some(v.(body := Fields(map k | k in v.body.fields :: ResolveBlock(v.body.fields[k], n.block))))
        else current
      case _ =>
        if v.body.Elems?
        then Some(v.(body := Elems(seq(|v.body.elems|, i requires 0 <= i < |v.body.elems| =>
          ResolveBlock(v.body.elems[i], n.block)))))
        else current
  }

  // ------------------------------------------------------------------ resolving twice is resolving once

  lemma {:induction false} ResolveIdempotent(v: Value, b: Block)
    ensures ResolveBlock(ResolveBlock(v, b), b) == ResolveBlock(v, b)
    decreases b, 1
  {
    if v.body.Fields? {
      var fs := v.body.fields;
      var r := ResolveBlock(v, b).body.fields;
      forall k ensures ResolveEntry(ResolveEntry(Get(fs, k), b, k), b, k) == ResolveEntry(Get(fs, k), b, k) {
        EntryIdempotent(Get(fs, k), b, k);
      }
      forall k | k !in fs.Keys + Names(b) ensures ResolveEntry(Get(fs, k), b, k).None? {}
      assert ResolveBlock(ResolveBlock(v, b), b).body.fields == r;
    }
  }

  lemma {:induction false} EntryIdempotent(current: Option<Value>, b: Block, k: string)
    ensures ResolveEntry(ResolveEntry(current, b, k), b, k) == ResolveEntry(current, b, k)
    decreases b, 0
  {
    var i, j := AttrIndex(b.attributes, k), BlockIndex(b.blockTypes, k);
    if i >= 0 {
      var a := b.attributes[i];
      var r := if DefaultValue(a).Some? && IsNull(current) then DefaultValue(a) else current;
      if a.objectType.Some? && r.Some? { ResolveIdempotent(r.value, a.objectType.value); }
    } else if j >= 0 && Resolvable(current) {
      NestedIdempotent(current, b.blockTypes[j]);
    }
  }

  lemma {:induction false} NestedIdempotent(current: Option<Value>, n: NestedBlock)
    requires Resolvable(current)
    ensures ResolveNested(ResolveNested(current, n), n) == ResolveNested(current, n)
    decreases n
  {
    var v := current.value;
    if n.nesting.SINGLE? || n.nesting.GROUP? {
      ResolveIdempotent(v, n.block);
    } else if n.nesting.MAP? && v.body.Fields? {
      var r := ResolveNested(current, n).value.body.fields;
      forall k | k in r ensures ResolveBlock(r[k], n.block) == r[k] { ResolveIdempotent(v.body.fields[k], n.block); }
      assert ResolveNested(ResolveNested(current, n), n).value.body.fields == r;
    } else if (n.nesting.LIST? || n.nesting.SET?) && v.body.Elems? {
      var r := ResolveNested(current, n).value.body.elems;
      forall i | 0 <= i < |r|
        ensures ResolveBlock(r[i], n.block) == r[i]
      {
        ResolveIdempotent(v.body.elems[i], n.block);
      }
      assert ResolveNested(ResolveNested(current, n), n).value.body.elems == r;
    }
  }

  // ------------------------------------------------------------------ what resolving means

  // No defaulted attribute is null or missing, anywhere reachable through known objects and blocks
  // without passing a write-only attribute.
  ghost predicate NoDefaultLeftNull(v: Value, b: Block)
    decreases b
  {
    v.body.Fields? ==>
      ((forall i :: 0 <= i < |b.attributes| ==>
        AttributeComplete(Get(v.body.fields, b.attributes[i].name), b.attributes[i])) &&
       (forall j :: 0 <= j < |b.blockTypes| ==>
         NestedComplete(Get(v.body.fields, b.blockTypes[j].typeName), b.blockTypes[j])))
  }

  ghost predicate AttributeComplete(current: Option<Value>, a: Attribute)
    decreases a
  {
    a.writeOnly ||
    ((a.default.Some? ==> current.Some? && !current.value.body.Null?) &&
     (a.objectType.Some? && current.Some? ==> NoDefaultLeftNull(current.value, a.objectType.value)))
  }

  ghost predicate NestedComplete(current: Option<Value>, n: NestedBlock)
    decreases n
  {
    current.Some? ==>
      match n.nesting
      case SINGLE => NoDefaultLeftNull(current.value, n.block)
      case GROUP => NoDefaultLeftNull(current.value, n.block)
      case MAP => current.value.body.Fields? ==>
        forall k :: k in current.value.body.fields ==> NoDefaultLeftNull(current.value.body.fields[k], n.block)
      case _ => current.value.body.Elems? ==>
        forall i :: 0 <= i < |current.value.body.elems| ==> NoDefaultLeftNull(current.value.body.elems[i], n.block)
  }

  // r is v with some null defaulted attributes given their default, and nothing else different:
  // unknowns, explicit values, marks, types, element counts and all that a write-only attribute holds
  // are v's.
  ghost predicate OnlyFills(v: Value, r: Value, b: Block)
    decreases b, 0
  {
    v.ty == r.ty && v.marks == r.marks &&
    if !v.body.Fields? then r == v
    else
      r.body.Fields? &&
      (forall k :: k !in Names(b) ==> Get(r.body.fields, k) == Get(v.body.fields, k)) &&
      (forall i :: 0 <= i < |b.attributes| ==>
         AttributeFilled(Get(v.body.fields, b.attributes[i].name), Get(r.body.fields, b.attributes[i].name),
           b.attributes[i])) &&
      (forall j :: 0 <= j < |b.blockTypes| ==>
         NestedFilled(Get(v.body.fields, b.blockTypes[j].typeName), Get(r.body.fields, b.blockTypes[j].typeName),
           b.blockTypes[j]))
  }

  ghost predicate AttributeFilled(v: Option<Value>, r: Option<Value>, a: Attribute)
    decreases a, 1
  {
    if a.writeOnly then r == v
    else
      SameButMembers(v, r, a) ||
      (a.default.Some? && (v.None? || v.value.body.Null?) && Validate(a.ty, a.default.value).Some? &&
       SameButMembers(Validate(a.ty, a.default.value), r, a))
  }

  ghost predicate SameButMembers(v: Option<Value>, r: Option<Value>, a: Attribute)
    decreases a, 0
  {
    if a.objectType.Some? && v.Some? then r.Some? && OnlyFills(v.value, r.value, a.objectType.value) else r == v
  }

  ghost predicate NestedFilled(v: Option<Value>, r: Option<Value>, n: NestedBlock)
    decreases n
  {
    if v.None? then r.None?
    else if r.None? then false
    else if n.nesting.SINGLE? || n.nesting.GROUP? then OnlyFills(v.value, r.value, n.block)
    else
      v.value.ty == r.value.ty && v.value.marks == r.value.marks &&
      if n.nesting.MAP? && v.value.body.Fields? then
        r.value.body.Fields? && r.value.body.fields.Keys == v.value.body.fields.Keys &&
        forall k :: k in v.value.body.fields ==> OnlyFills(v.value.body.fields[k], r.value.body.fields[k], n.block)
      else if !n.nesting.MAP? && v.value.body.Elems? then
        r.value.body.Elems? && |r.value.body.elems| == |v.value.body.elems| &&
        forall i :: 0 <= i < |v.value.body.elems| ==> OnlyFills(v.value.body.elems[i], r.value.body.elems[i], n.block)
      else r == v
  }

  // Where entry k of a valid block is resolved.
  lemma EntryResolves(current: Option<Value>, b: Block)
    requires DistinctNames(b)
    ensures forall i :: 0 <= i < |b.attributes| ==>
      AttrIndex(b.attributes, b.attributes[i].name) == i &&
      ResolveEntry(current, b, b.attributes[i].name) == ResolveAttribute(current, b.attributes[i])
    ensures forall j :: 0 <= j < |b.blockTypes| ==>
      AttrIndex(b.attributes, b.blockTypes[j].typeName) < 0 &&
        BlockIndex(b.blockTypes, b.blockTypes[j].typeName) == j &&
      ResolveEntry(current, b, b.blockTypes[j].typeName) == ResolveNested(current, b.blockTypes[j])
  {
  }

  // The resolved object holds, under every key, what that entry resolves to.
  lemma ResolvedEntries(v: Value, b: Block, k: string)
    requires v.body.Fields?
    ensures Get(ResolveBlock(v, b).body.fields, k) == ResolveEntry(Get(v.body.fields, k), b, k)
  {
  }

  lemma {:induction false} Filled(v: Value, b: Block)
    requires ValidBlock(b)
    ensures OnlyFills(v, ResolveBlock(v, b), b) && NoDefaultLeftNull(ResolveBlock(v, b), b)
    decreases b
  {
    if v.body.Fields? {
      var fs, rs := v.body.fields, ResolveBlock(v, b).body.fields;
      forall k ensures Get(rs, k) == ResolveEntry(Get(fs, k), b, k) { ResolvedEntries(v, b, k); }
      forall i | 0 <= i < |b.attributes|
        ensures AttributeFilled(Get(fs, b.attributes[i].name), Get(rs, b.attributes[i].name), b.attributes[i])
        ensures AttributeComplete(Get(rs, b.attributes[i].name), b.attributes[i])
      {
        var c := Get(fs, b.attributes[i].name);
        EntryResolves(c, b);
        FilledAttribute(c, b.attributes[i]);
      }
      forall j | 0 <= j < |b.blockTypes|
        ensures NestedFilled(Get(fs, b.blockTypes[j].typeName), Get(rs, b.blockTypes[j].typeName), b.blockTypes[j])
        ensures NestedComplete(Get(rs, b.blockTypes[j].typeName), b.blockTypes[j])
      {
        var c := Get(fs, b.blockTypes[j].typeName);
        EntryResolves(c, b);
        FilledNested(c, b.blockTypes[j]);
      }
    }
  }

  lemma {:induction false} FilledAttribute(c: Option<Value>, a: Attribute)
    requires ValidMember(a)
    ensures AttributeFilled(c, ResolveAttribute(c, a), a) && AttributeComplete(ResolveAttribute(c, a), a)
    decreases a
  {
    var r := if DefaultValue(a).Some? && IsNull(c) then DefaultValue(a) else c;
    if a.objectType.Some? && r.Some? { Filled(r.value, a.objectType.value); }
  }

  lemma {:induction false} FilledNested(c: Option<Value>, n: NestedBlock)
    requires ValidBlock(n.block)
    ensures NestedFilled(c, ResolveNested(c, n), n) && NestedComplete(ResolveNested(c, n), n)
    decreases n
  {
    if Resolvable(c) {
      var v := c.value;
      match n.nesting
      case SINGLE => Filled(v, n.block);
      case GROUP => Filled(v, n.block);
      case MAP =>
        if v.body.Fields? {
          forall k | k in v.body.fields
            ensures OnlyFills(v.body.fields[k], ResolveBlock(v.body.fields[k], n.block), n.block)
            ensures NoDefaultLeftNull(ResolveBlock(v.body.fields[k], n.block), n.block)
          {
            Filled(v.body.fields[k], n.block);
          }
        }
      case _ =>
        if v.body.Elems? {
          forall i | 0 <= i < |v.body.elems|
            ensures OnlyFills(v.body.elems[i], ResolveBlock(v.body.elems[i], n.block), n.block)
            ensures NoDefaultLeftNull(ResolveBlock(v.body.elems[i], n.block), n.block)
          {
            Filled(v.body.elems[i], n.block);
          }
        }
    }
  }

  // ------------------------------------------------------------------ and nothing else is the resolution

  lemma {:induction false} Unique(v: Value, r: Value, b: Block)
    requires ValidBlock(b) && OnlyFills(v, r, b) && NoDefaultLeftNull(r, b)
    ensures r == ResolveBlock(v, b)
    decreases b
  {
    if v.body.Fields? {
      var fs, rs := v.body.fields, r.body.fields;
      forall k ensures Get(rs, k) == ResolveEntry(Get(fs, k), b, k) {
        var i, j := AttrIndex(b.attributes, k), BlockIndex(b.blockTypes, k);
        if i >= 0 {
          UniqueAttribute(Get(fs, k), Get(rs, k), b.attributes[i]);
        } else if j >= 0 {
          UniqueNested(Get(fs, k), Get(rs, k), b.blockTypes[j]);
        }
      }
      ResolvedAlike(v, r, b);
    }
  }

  lemma ResolvedAlike(v: Value, r: Value, b: Block)
    requires v.body.Fields? && r.body.Fields? && v.ty == r.ty && v.marks == r.marks
    requires forall k :: Get(r.body.fields, k) == ResolveEntry(Get(v.body.fields, k), b, k)
    ensures r == ResolveBlock(v, b)
  {
    var rs, xs := r.body.fields, ResolveBlock(v, b).body.fields;
    forall k ensures Get(xs, k) == Get(rs, k) { ResolvedEntries(v, b, k); }
    forall k ensures (k in xs <==> k in rs) && (k in xs ==> xs[k] == rs[k]) { assert Get(xs, k) == Get(rs, k); }
    assert xs == rs;
  }

  lemma NullHasNoMembers(c: Option<Value>, r: Option<Value>, a: Attribute)
    requires IsNull(c)
    ensures SameButMembers(c, r, a) <==> r == c
  {
    if c.Some? && r.Some? && a.objectType.Some? {
      assert OnlyFills(c.value, r.value, a.objectType.value) <==> c.value == r.value;
    }
  }

  lemma {:induction false} UniqueAttribute(c: Option<Value>, r: Option<Value>, a: Attribute)
    requires ValidMember(a) && AttributeFilled(c, r, a) && AttributeComplete(r, a)
    ensures r == ResolveAttribute(c, a)
    decreases a
  {
    if !a.writeOnly {
      var d := if DefaultValue(a).Some? && IsNull(c) then DefaultValue(a) else c;
      if IsNull(c) { NullHasNoMembers(c, r, a); }
      assert SameButMembers(d, r, a);
      if a.objectType.Some? && d.Some? { Unique(d.value, r.value, a.objectType.value); }
    }
  }

  lemma {:induction false} UniqueNested(c: Option<Value>, r: Option<Value>, n: NestedBlock)
    requires ValidBlock(n.block) && NestedFilled(c, r, n) && NestedComplete(r, n)
    ensures r == ResolveNested(c, n)
    decreases n
  {
    if c.Some? {
      var v := c.value;
      match n.nesting
      case SINGLE => Unique(v, r.value, n.block);
      case GROUP => Unique(v, r.value, n.block);
      case MAP =>
        if v.body.Fields? {
          forall k | k in v.body.fields ensures r.value.body.fields[k] == ResolveBlock(v.body.fields[k], n.block) {
            Unique(v.body.fields[k], r.value.body.fields[k], n.block);
          }
          assert r.value.body.fields == ResolveNested(c, n).value.body.fields;
        }
      case _ =>
        if v.body.Elems? {
          forall i | 0 <= i < |v.body.elems| ensures r.value.body.elems[i] == ResolveBlock(v.body.elems[i], n.block) {
            Unique(v.body.elems[i], r.value.body.elems[i], n.block);
          }
          assert r.value.body.elems == ResolveNested(c, n).value.body.elems;
        }
    }
  }

  // Resolving is the one way to leave no default null while filling in nothing but defaults.
  lemma ResolveCharacterized(v: Value, r: Value, b: Block)
    requires ValidBlock(b)
    ensures r == ResolveBlock(v, b) <==> OnlyFills(v, r, b) && NoDefaultLeftNull(r, b)
  {
    Filled(v, b);
    if OnlyFills(v, r, b) && NoDefaultLeftNull(r, b) { Unique(v, r, b); }
  }

  // r is what the configured value of an attribute comes to: an omitted one is what its declared default
  // validates to, any other stays, and in an object only null defaults of its own are filled.
  ghost predicate EffectiveValue(given: Option<Value>, r: Option<Value>, a: Attribute) {
    if a.writeOnly then r == given
    else if a.default.Some? && (given.None? || given.value.body.Null?) then
      Validate(a.ty, a.default.value).Some? && FilledOnly(Validate(a.ty, a.default.value), r, a)
    else FilledOnly(given, r, a)
  }

  ghost predicate FilledOnly(v: Option<Value>, r: Option<Value>, a: Attribute) {
    if a.objectType.None? || v.None? then r == v
    else
      r.Some? && OnlyFills(v.value, r.value, a.objectType.value) && NoDefaultLeftNull(r.value, a.objectType.value)
  }

  lemma {:induction false} AttributeResolvesTo(v: Value, b: Block, i: nat)
    requires ValidBlock(b) && v.body.Fields? && i < |b.attributes|
    ensures ResolveBlock(v, b).body.Fields?
    ensures var k := b.attributes[i].name;
      EffectiveValue(Get(v.body.fields, k), Get(ResolveBlock(v, b).body.fields, k), b.attributes[i])
  {
    var k := b.attributes[i].name;
    ResolvedEntries(v, b, k);
    EntryResolves(Get(v.body.fields, k), b);
    EffectiveAttribute(Get(v.body.fields, k), b.attributes[i]);
  }

  lemma {:induction false} EffectiveAttribute(given: Option<Value>, a: Attribute)
    requires ValidMember(a)
    ensures EffectiveValue(given, ResolveAttribute(given, a), a)
  {
    var d := if a.default.Some? && IsNull(given) then Validate(a.ty, a.default.value) else given;
    if a.objectType.Some? && d.Some? { Filled(d.value, a.objectType.value); }
  }

  // ------------------------------------------------------------------ types

  // Members of a well-formed object have the types the schema gives them.
  lemma {:induction false} MemberTyped(v: Value, b: Block, i: nat)
    requires ValidBlock(b) && WF(v) && v.ty == BlockType(b) && v.body.Fields? && i < |b.attributes|
    ensures var k := b.attributes[i].name;
      k in v.body.fields && WF(v.body.fields[k]) && v.body.fields[k].ty == b.attributes[i].ty
  {
    var k := b.attributes[i].name;
    assert AttrIndex(b.attributes, k) == i && k in Names(b);
    assert v.ty.attrs[k] == FieldType(b, k) == b.attributes[i].ty;
  }

  lemma {:induction false} EntryTyped(v: Value, b: Block, k: string)
    requires WF(v) && v.ty == BlockType(b) && v.body.Fields?
    ensures v.body.fields.Keys == Names(b)
    ensures k in Names(b) ==> WF(v.body.fields[k]) && v.body.fields[k].ty == FieldType(b, k)
  {
    assert v.ty.attrs.Keys == Names(b);
  }

  lemma {:induction false} ObjectWF(v: Value, b: Block)
    requires v.ty == BlockType(b) && v.body.Fields? && v.body.fields.Keys == Names(b)
    requires forall k :: k in Names(b) ==> WF(v.body.fields[k]) && v.body.fields[k].ty == FieldType(b, k)
    ensures WF(v)
  {
    assert v.ty.attrs.Keys == Names(b);
  }

  lemma {:induction false} EntryWF(c: Value, b: Block, k: string)
    requires ValidBlock(b) && k in Names(b) && WF(c) && c.ty == FieldType(b, k)
    ensures var r := ResolveEntry(Some(c), b, k); r.Some? && WF(r.value) && r.value.ty == FieldType(b, k)
    decreases b, 0
  {
    var i, j := AttrIndex(b.attributes, k), BlockIndex(b.blockTypes, k);
    if i >= 0 { AttributeWF(c, b.attributes[i]); } else { NestedWF(c, b.blockTypes[j]); }
  }

  lemma {:induction false} ResolveWF(v: Value, b: Block)
    requires ValidBlock(b) && WF(v) && v.ty == BlockType(b)
    ensures WF(ResolveBlock(v, b)) && ResolveBlock(v, b).ty == BlockType(b)
    decreases b, 1
  {
    if v.body.Fields? {
      var fs, rs := v.body.fields, ResolveBlock(v, b).body.fields;
      forall k | k in Names(b) ensures k in rs && WF(rs[k]) && rs[k].ty == FieldType(b, k) {
        ResolvedEntries(v, b, k);
        EntryTyped(v, b, k);
        EntryWF(fs[k], b, k);
      }
      EntryTyped(v, b, "");
      assert rs.Keys == Names(b);
      ObjectWF(ResolveBlock(v, b), b);
    }
  }

  lemma {:induction false} AttributeWF(c: Value, a: Attribute)
    requires ValidMember(a) && WF(c) && c.ty == a.ty
    ensures var r := ResolveAttribute(Some(c), a); r.Some? && WF(r.value) && r.value.ty == a.ty
    decreases a
  {
    if a.default.Some? { ValidateWF(a.ty, a.default.value); }
    var r := if DefaultValue(a).Some? && IsNull(Some(c)) then DefaultValue(a) else Some(c);
    if a.objectType.Some? { ResolveWF(r.value, a.objectType.value); }
  }

  lemma {:induction false} NestedWF(c: Value, n: NestedBlock)
    requires ValidBlock(n.block) && WF(c) && c.ty == NestedType(n)
    ensures var r := ResolveNested(Some(c), n); r.Some? && WF(r.value) && r.value.ty == NestedType(n)
    decreases n
  {
    match n.nesting
    case SINGLE => ResolveWF(c, n.block);
    case GROUP => ResolveWF(c, n.block);
    case MAP =>
      if c.body.Fields? {
        forall k | k in c.body.fields
          ensures WF(ResolveBlock(c.body.fields[k], n.block))
          ensures ResolveBlock(c.body.fields[k], n.block).ty == BlockType(n.block)
        {
          ResolveWF(c.body.fields[k], n.block);
        }
      }
    case _ =>
      if c.body.Elems? {
        forall i | 0 <= i < |c.body.elems|
          ensures WF(ResolveBlock(c.body.elems[i], n.block))
          ensures ResolveBlock(c.body.elems[i], n.block).ty == BlockType(n.block)
        {
          ResolveWF(c.body.elems[i], n.block);
        }
      }
  }
}
