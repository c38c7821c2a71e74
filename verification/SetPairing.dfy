// Which configuration a planned set element is merged with, told from the proposal and the configuration:
// src/pyvider/schema/defaults.py:233-294 on the plan of src/pyvider/resources/base.py:381-399.
module SetPairing {
  import opened Options
  import opened CtyValues
  import opened Schema
  import opened Defaults
  import opened DefaultsMerge
  import opened PlanApply
  import opened Lifecycle

  // ------------------------------------------------------------------ the plan made of a value

  function PreservedItems(es: seq<Value>): seq<Native> {
    seq(|es|, i requires 0 <= i < |es| => Preserve(es[i]))
  }

  // Only a known list is planned as a sequence, and only a known map or object as a dict. Tuples stay tuples.
  lemma {:induction false} PreservedShape(v: Value)
    requires WF(v)
    ensures (Preserve(v).NDict? <==> v.body.Fields?) && (Items(Preserve(v)) <==> v.body.Elems?)
    ensures v.body.Elems? ==> Preserve(v).items == PreservedItems(v.body.elems)
    ensures (Preserve(v).NTuple? <==> v.body.Elems? && v.ty.TTuple?)
    ensures (ToNative(v).NTuple? <==> v.body.Elems? && v.ty.TTuple?)
  {
    if v.body.Elems? && WhollyKnown(v) {
      forall i | 0 <= i < |v.body.elems| ensures Preserve(v.body.elems[i]) == ToNative(v.body.elems[i]) {
        PreserveIsNative(v.body.elems[i], v.body.elems[i]);
      }
    }
  }

  lemma PreservedMembers(v: Value)
    requires v.body.Fields?
    ensures Preserve(v).NDict? && Preserve(v).entries.Keys == v.body.fields.Keys
    ensures forall k :: k in v.body.fields ==> Preserve(v).entries[k] == Preserve(v.body.fields[k])
  {
    forall k | k in v.body.fields && WhollyKnown(v) ensures Preserve(v.body.fields[k]) == ToNative(v.body.fields[k]) {
      PreserveIsNative(v.body.fields[k], v.body.fields[k]);
    }
  }

  lemma PreserveSomething(v: Value)
    ensures Preserve(v).NNone? <==> v.body.Null?
  {
  }

  // A planned value equals a configuration's native form only if nothing in it is unknown.
  lemma {:induction false} PreserveIsNative(v: Value, c: Value)
    ensures Preserve(v) == ToNative(c) <==> Carried(v, c)
    decreases v
  {
    if !WhollyKnown(v) && Preserve(v) == ToNative(c) {
      match v.body
      case Elems(es) =>
        var i :| 0 <= i < |es| && !WhollyKnown(es[i]);
        assert Preserve(v).items[i] == Preserve(es[i]);
        assert c.body.Elems? && ToNative(c).items[i] == ToNative(c.body.elems[i]);
        PreserveIsNative(es[i], c.body.elems[i]);
      case Fields(fs) =>
        var k :| k in fs && !WhollyKnown(fs[k]);
        assert Preserve(v).entries[k] == Preserve(fs[k]);
        assert c.body.Fields?;
        assert ToNative(c).entries.Keys == c.body.fields.Keys && k in ToNative(c).entries;
        assert ToNative(c).entries[k] == ToNative(c.body.fields[k]);
        PreserveIsNative(fs[k], c.body.fields[k]);
      case _ =>
    }
  }

  // ------------------------------------------------------------------ matching, on values

  // The plan of v is what the comparison makes of c: the plan keeps an unknown, the comparison flattens
  // those of c to null.
  ghost predicate Carried(v: Value, c: Value) {
    WhollyKnown(v) && ToNative(v) == ToNative(c)
  }

  ghost predicate Compatible(v: Value, c: Value, b: Block)
    decreases b
  {
    v.body.Fields? && c.body.Fields? &&
    forall i :: 0 <= i < |b.attributes| ==>
      CompatibleAt(Get(v.body.fields, b.attributes[i].name), Get(c.body.fields, b.attributes[i].name), b.attributes[i])
  }

  ghost predicate CompatibleAt(v: Option<Value>, c: Option<Value>, a: Attribute)
    decreases a
  {
    a.writeOnly || c.None? || c.value.body.Null? || c.value.body.Unknown? ||
    if a.default.Some? then a.objectType.Some? || InPlace(v, c.value, a.default.value)
    else v.Some? && if a.objectType.Some? then Compatible(v.value, c.value, a.objectType.value)
                    else Carried(v.value, c.value)
  }

  // A defaulted attribute that is still null in the plan counts as the default.
  ghost predicate InPlace(v: Option<Value>, c: Value, default: Native) {
    if v.None? || v.value.body.Null? then ToNative(c) == default else Carried(v.value, c)
  }

  lemma {:induction false} MatchesWhenCompatible(v: Value, c: Value, b: Block)
    ensures SetElementsMatch(Preserve(v), c, b) <==> Compatible(v, c, b)
    decreases b
  {
    assert Preserve(v).NDict? <==> v.body.Fields?;
    if v.body.Fields? && c.body.Fields? {
      PreservedMembers(v);
      forall i | 0 <= i < |b.attributes|
        ensures var k := b.attributes[i].name;
          MemberMatches(Entry(Preserve(v).entries, k), Get(c.body.fields, k), b.attributes[i]) <==>
          CompatibleAt(Get(v.body.fields, k), Get(c.body.fields, k), b.attributes[i])
      {
        var k := b.attributes[i].name;
        MemberMatchesWhenCompatible(Get(v.body.fields, k), Get(c.body.fields, k), b.attributes[i]);
      }
    }
  }

  // What the plan holds for a member, None standing for an absent one.
  function MemberPlan(v: Option<Value>): Native {
    if v.Some? then Preserve(v.value) else NNone
  }

  lemma {:induction false} MemberMatchesWhenCompatible(v: Option<Value>, c: Option<Value>, a: Attribute)
    ensures MemberMatches(MemberPlan(v), c, a) <==> CompatibleAt(v, c, a)
    decreases a
  {
    if Resolvable(c) {
      ToNativeSomething(c.value);
      if v.Some? {
        PreserveSomething(v.value);
        PreserveIsNative(v.value, c.value);
        if a.objectType.Some? { MatchesWhenCompatible(v.value, c.value, a.objectType.value); }
      } else if a.objectType.Some? {
        assert !SetElementsMatch(NNone, c.value, a.objectType.value);
      }
    }
  }

  ghost predicate Isolated(vs: seq<Value>, cs: seq<Value>, b: Block, i: int, j: int) {
    && 0 <= i < |vs| && 0 <= j < |cs| && Compatible(vs[i], cs[j], b)
    && (forall j' :: 0 <= j' < |cs| && Compatible(vs[i], cs[j'], b) ==> j' == j)
    && (forall i' :: 0 <= i' < |vs| && Compatible(vs[i'], cs[j], b) ==> i' == i)
  }

  // The configuration element i of a list or set is merged with, if any.
  ghost function Governing(vs: seq<Value>, cs: seq<Value>, n: NestedBlock, i: nat): (c: Option<Value>)
    ensures c.Some? ==> c.value in cs
  {
    if n.nesting.SET? && |vs| > 1 then
      if exists j :: Isolated(vs, cs, n.block, i, j) then
        var j :| Isolated(vs, cs, n.block, i, j);
        Some(cs[j])
      else None
    else if i < |cs| then Some(cs[i])
    else None
  }

  lemma PairedWhenIsolated(vs: seq<Value>, cs: seq<Value>, b: Block, i: int, j: int)
    ensures Paired(PreservedItems(vs), cs, b, i, j) <==> Isolated(vs, cs, b, i, j)
  {
    forall x, y | 0 <= x < |vs| && 0 <= y < |cs|
      ensures SetElementsMatch(PreservedItems(vs)[x], cs[y], b) <==> Compatible(vs[x], cs[y], b)
    {
      MatchesWhenCompatible(vs[x], cs[y], b);
    }
  }

  lemma OriginGoverns(vs: seq<Value>, cs: seq<Value>, n: NestedBlock, i: nat)
    requires i < |vs|
    ensures Origin(PreservedItems(vs), cs, n, i) == Governing(vs, cs, n, i)
  {
    forall j ensures Paired(PreservedItems(vs), cs, n.block, i, j) <==> Isolated(vs, cs, n.block, i, j) {
      PairedWhenIsolated(vs, cs, n.block, i, j);
    }
  }

  // ------------------------------------------------------------------ from an element to its configuration

  // v agrees with its configuration c in every compared attribute that has no default: what Terraform
  // proposes for the element c configures.
  ghost predicate FromConfiguration(v: Value, c: Value, b: Block)
    decreases b
  {
    if v.body.Fields? && c.body.Fields? then
      forall i :: 0 <= i < |b.attributes| ==> MemberFromConfiguration(Get(v.body.fields, b.attributes[i].name),
        Get(c.body.fields, b.attributes[i].name), b.attributes[i])
    else Unmark(v) == Unmark(c)
  }

  ghost predicate MemberFromConfiguration(v: Option<Value>, c: Option<Value>, a: Attribute)
    decreases a
  {
    v.Some? && c.Some? &&
    (a.writeOnly || a.default.Some? ||
     if a.objectType.Some? then FromConfiguration(v.value, c.value, a.objectType.value)
     else Unmark(v.value) == Unmark(c.value))
  }

  // Two configurations the comparison does not tell apart by an attribute without a default. What d leaves
  // null is a wildcard.
  ghost predicate Alike(c: Value, d: Value, b: Block)
    decreases b
  {
    c.body.Fields? && d.body.Fields? &&
    forall i :: 0 <= i < |b.attributes| ==>
      MembersAlike(Get(c.body.fields, b.attributes[i].name), Get(d.body.fields, b.attributes[i].name), b.attributes[i])
  }

  ghost predicate MembersAlike(c: Option<Value>, d: Option<Value>, a: Attribute)
    decreases a
  {
    a.writeOnly || a.default.Some? || !Resolvable(d) ||
    (c.Some? && if a.objectType.Some? then Alike(c.value, d.value, a.objectType.value) else Carried(c.value, d.value))
  }

  // The planned values of the defaulted attributes, where they count: null and d's the default, or d's.
  ghost predicate DefaultsInPlace(v: Value, d: Value, b: Block)
    decreases b
  {
    v.body.Fields? && d.body.Fields? ==>
    forall i :: 0 <= i < |b.attributes| ==> MemberInPlace(Get(v.body.fields, b.attributes[i].name),
      Get(d.body.fields, b.attributes[i].name), b.attributes[i])
  }

  ghost predicate MemberInPlace(v: Option<Value>, d: Option<Value>, a: Attribute)
    decreases a
  {
    a.writeOnly || !Resolvable(d) ||
    if a.default.Some? then a.objectType.Some? || InPlace(v, d.value, a.default.value)
    else a.objectType.Some? && v.Some? ==> DefaultsInPlace(v.value, d.value, a.objectType.value)
  }

  // The configuration of an element may be taken for d.
  ghost predicate Fits(v: Value, c: Value, d: Value, b: Block) {
    Alike(c, d, b) && DefaultsInPlace(v, d, b)
  }

  lemma {:induction false} UnmarkedAlike(v: Value, c: Value)
    requires Unmark(v) == Unmark(c)
    ensures ToNative(v) == ToNative(c) && (WhollyKnown(v) <==> WhollyKnown(c)) && v.body.Fields? == c.body.Fields?
    decreases v
  {
    match v.body
    case Elems(es) =>
      var x, y := Unmark(v).body.elems, Unmark(c).body.elems;
      assert |x| == |es| && |y| == |c.body.elems|;
      forall i | 0 <= i < |es|
        ensures ToNative(es[i]) == ToNative(c.body.elems[i]) && (WhollyKnown(es[i]) <==> WhollyKnown(c.body.elems[i]))
      {
        assert x[i] == Unmark(es[i]) && y[i] == Unmark(c.body.elems[i]);
        UnmarkedAlike(es[i], c.body.elems[i]);
      }
      assert ToNative(v).items == ToNative(c).items;
    case Fields(fs) =>
      UnmarkedFields(v);
      UnmarkedFields(c);
      assert fs.Keys == c.body.fields.Keys;
      forall k | k in fs
        ensures ToNative(fs[k]) == ToNative(c.body.fields[k])
        ensures WhollyKnown(fs[k]) <==> WhollyKnown(c.body.fields[k])
      {
        assert Unmark(v).body.fields[k] == Unmark(fs[k]) && Unmark(c).body.fields[k] == Unmark(c.body.fields[k]);
        UnmarkedAlike(fs[k], c.body.fields[k]);
      }
      assert ToNative(v).entries == ToNative(c).entries;
    case _ =>
  }

  lemma {:induction false} CompatibleWhenFits(v: Value, c: Value, d: Value, b: Block)
    requires FromConfiguration(v, c, b)
    ensures Compatible(v, d, b) <==> Fits(v, c, d, b)
    decreases b
  {
    if !v.body.Fields? || !c.body.Fields? {
      UnmarkedAlike(v, c);
    } else if d.body.Fields? {
      forall i | 0 <= i < |b.attributes|
        ensures var k, a := b.attributes[i].name, b.attributes[i];
          CompatibleAt(Get(v.body.fields, k), Get(d.body.fields, k), a) <==>
          MembersAlike(Get(c.body.fields, k), Get(d.body.fields, k), a) &&
          MemberInPlace(Get(v.body.fields, k), Get(d.body.fields, k), a)
      {
        var k := b.attributes[i].name;
        MemberCompatibleWhenFits(Get(v.body.fields, k), Get(c.body.fields, k), Get(d.body.fields, k), b.attributes[i]);
      }
    }
  }

  lemma {:induction false} MemberCompatibleWhenFits(v: Option<Value>, c: Option<Value>, d: Option<Value>, a: Attribute)
    requires MemberFromConfiguration(v, c, a)
    ensures CompatibleAt(v, d, a) <==> MembersAlike(c, d, a) && MemberInPlace(v, d, a)
    decreases a
  {
    if !a.writeOnly && a.default.None? && Resolvable(d) {
      if a.objectType.Some? {
        CompatibleWhenFits(v.value, c.value, d.value, a.objectType.value);
      } else {
        UnmarkedAlike(v.value, c.value);
      }
    }
  }

  // An attribute compared by its configured value that is known at its own level but not throughout.
  ghost predicate HidesUnknownMember(c: Value, b: Block)
    decreases b
  {
    c.body.Fields? &&
    exists i :: 0 <= i < |b.attributes| && HidesUnknown(Get(c.body.fields, b.attributes[i].name), b.attributes[i])
  }

  ghost predicate HidesUnknown(c: Option<Value>, a: Attribute)
    decreases a
  {
    !a.writeOnly && a.default.None? && Resolvable(c) &&
    if a.objectType.Some? then HidesUnknownMember(c.value, a.objectType.value) else !WhollyKnown(c.value)
  }

  lemma {:induction false} AlikeItself(c: Value, b: Block)
    requires ValidBlock(b) && WF(c) && c.ty == BlockType(b)
    ensures Alike(c, c, b) <==> c.body.Fields? && !HidesUnknownMember(c, b)
    decreases b
  {
    forall i | 0 <= i < |b.attributes| && c.body.Fields?
      ensures var k, a := b.attributes[i].name, b.attributes[i];
        MembersAlike(Get(c.body.fields, k), Get(c.body.fields, k), a) <==> !HidesUnknown(Get(c.body.fields, k), a)
    {
      MemberTyped(c, b, i);
      var m := c.body.fields[b.attributes[i].name];
      if Resolvable(Some(m)) && b.attributes[i].objectType.Some? {
        AlikeItself(m, b.attributes[i].objectType.value);
      }
    }
  }

  // A planned element matches its own configuration exactly when that hides no unknown and its defaulted
  // attributes are in place.
  lemma {:induction false} MatchesOwnConfiguration(v: Value, c: Value, b: Block)
    requires ValidBlock(b) && WF(c) && c.ty == BlockType(b) && FromConfiguration(v, c, b)
    ensures SetElementsMatch(Preserve(v), c, b) <==>
      c.body.Fields? && !HidesUnknownMember(c, b) && DefaultsInPlace(v, c, b)
  {
    MatchesWhenCompatible(v, c, b);
    CompatibleWhenFits(v, c, c, b);
    AlikeItself(c, b);
  }

  // Every element stands for the configuration in its place.
  ghost predicate AllFromConfiguration(vs: seq<Value>, cs: seq<Value>, b: Block) {
    |vs| == |cs| && forall i :: 0 <= i < |vs| ==> FromConfiguration(vs[i], cs[i], b)
  }

  ghost predicate FindsItsOwn(vs: seq<Value>, cs: seq<Value>, b: Block, i: nat)
    requires |vs| == |cs| && i < |vs|
  {
    && cs[i].body.Fields? && !HidesUnknownMember(cs[i], b) && DefaultsInPlace(vs[i], cs[i], b)
    && (forall j :: 0 <= j < |cs| && j != i ==> !Fits(vs[i], cs[i], cs[j], b))
    && (forall j :: 0 <= j < |cs| && j != i ==> !Fits(vs[j], cs[j], cs[i], b))
  }

  // In a set of two elements or more, an element is merged with its own configuration exactly when that
  // hides no unknown, its defaulted attributes are in place, it could not be taken for an element with
  // another configuration, and no other element could be taken for it.
  lemma {:induction false} MergedWithItsOwn(vs: seq<Value>, cs: seq<Value>, n: NestedBlock, i: nat)
    requires ValidBlock(n.block) && AllFromConfiguration(vs, cs, n.block) && i < |vs|
    requires forall j :: 0 <= j < |cs| ==> WF(cs[j]) && cs[j].ty == BlockType(n.block)
    requires n.nesting.SET? && |vs| > 1
    ensures Origin(PreservedItems(vs), cs, n, i) == Some(cs[i]) <==> FindsItsOwn(vs, cs, n.block, i)
  {
    OriginGoverns(vs, cs, n, i);
    IsolatedWhenItsOwn(vs, cs, n.block, i);
    if Governing(vs, cs, n, i) == Some(cs[i]) {
      var j :| Isolated(vs, cs, n.block, i, j) && cs[j] == cs[i];
      assert Compatible(vs[i], cs[i], n.block);
    }
  }

  lemma {:induction false} IsolatedWhenItsOwn(vs: seq<Value>, cs: seq<Value>, b: Block, i: nat)
    requires ValidBlock(b) && AllFromConfiguration(vs, cs, b) && i < |vs|
    requires forall j :: 0 <= j < |cs| ==> WF(cs[j]) && cs[j].ty == BlockType(b)
    ensures Isolated(vs, cs, b, i, i) <==> FindsItsOwn(vs, cs, b, i)
  {
    AlikeItself(cs[i], b);
    forall x, y | 0 <= x < |vs| && 0 <= y < |cs|
      ensures Compatible(vs[x], cs[y], b) <==> Fits(vs[x], cs[x], cs[y], b)
    {
      CompatibleWhenFits(vs[x], cs[x], cs[y], b);
    }
  }
}
