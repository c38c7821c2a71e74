// The required-attribute rule told on values: src/pyvider/schema/required.py:40-131 reaches them as the cty
// values of a configuration and as the plain data of a plan.
module RequiredValues {
  import opened Options
  import opened CtyValues
  import opened Schema
  import L = Lifecycle
  import SetPairing
  import opened Required

  // Somewhere in v a required attribute is null; in a state write-only ones may be.
  ghost predicate NullRequired(v: Value, b: Block, isState: bool)
    decreases b, 1
  {
    v.body.Fields? && exists x: nat :: x < Count(b) && NullMember(v, b, x, isState)
  }

  ghost predicate NullMember(v: Value, b: Block, x: nat, isState: bool)
    requires v.body.Fields? && x < Count(b)
    decreases b, 0
  {
    if x < |b.attributes| then
      var a := b.attributes[x];
      a.name in v.body.fields && NullInAttribute(v.body.fields[a.name], a, isState)
    else
      var n := b.blockTypes[x - |b.attributes|];
      n.typeName in v.body.fields && NullInBlock(v.body.fields[n.typeName], n, isState)
  }

  ghost predicate NullInAttribute(v: Value, a: Attribute, isState: bool)
    decreases a
  {
    if v.body.Null? then a.required && !(isState && a.writeOnly)
    else a.objectType.Some? && NullRequired(v, a.objectType.value, isState)
  }

  ghost predicate NullInBlock(v: Value, n: NestedBlock, isState: bool)
    decreases n
  {
    match n.nesting
    case SINGLE => NullRequired(v, n.block, isState)
    case GROUP => NullRequired(v, n.block, isState)
    case MAP => v.body.Fields? && exists k :: k in v.body.fields && NullRequired(v.body.fields[k], n.block, isState)
    case _ => v.body.Elems? && exists i :: 0 <= i < |v.body.elems| && NullRequired(v.body.elems[i], n.block, isState)
  }

  // The two forms in which the check meets a value.
  ghost predicate Shows(n: Native, v: Value) {
    n == NCty(v) || n == L.Preserve(v)
  }

  lemma {:induction false} ShownShape(n: Native, v: Value)
    requires WF(v) && Shows(n, v)
    ensures Required.Null(n) <==> v.body.Null?
    ensures Mapping(n).Some? <==> v.body.Fields?
    ensures v.body.Fields? ==> Mapping(n).value.Keys == v.body.fields.Keys
    ensures v.body.Fields? ==>
      forall k :: k in v.body.fields ==> Shows(Mapping(n).value[k], v.body.fields[k])
    ensures !v.body.Elems? ==> Sequence(n) == []
    ensures v.body.Elems? ==> |Sequence(n)| == |v.body.elems|
    ensures v.body.Elems? ==>
      forall i :: 0 <= i < |v.body.elems| ==> Shows(Sequence(n)[i], v.body.elems[i])
  {
    SetPairing.PreserveSomething(v);
    SetPairing.PreservedShape(v);
    if v.body.Fields? { SetPairing.PreservedMembers(v); }
  }

  // Either way the check raises exactly for such a value.
  lemma {:induction false} RaisesForValues(b: Block, v: Value, path: Path, mode: Mode)
    requires WF(v) && Enumerates(mode.order)
    ensures CheckRequiredAttributes(b, NCty(v), path, mode).Some? <==> NullRequired(v, b, mode.isState)
    ensures CheckRequiredAttributes(b, L.Preserve(v), path, mode).Some? <==> NullRequired(v, b, mode.isState)
  {
    VerdictIgnoresOrder(b, NCty(v), path, mode);
    VerdictIgnoresOrder(b, L.Preserve(v), path, mode);
    MissingInShown(b, NCty(v), v, mode.isState);
    MissingInShown(b, L.Preserve(v), v, mode.isState);
  }

  lemma {:induction false} MissingInShown(b: Block, n: Native, v: Value, isState: bool)
    requires WF(v) && Shows(n, v)
    ensures MissingRequired(b, n, isState) <==> NullRequired(v, b, isState)
    decreases b, 1
  {
    ShownShape(n, v);
    if v.body.Fields? {
      var m := Mapping(n).value;
      forall x: nat | x < Count(b) ensures MissingMember(b, m, x, isState) <==> NullMember(v, b, x, isState) {
        MemberShown(b, m, v, x, isState);
      }
      SomeMember(b, m, v, isState);
    }
  }

  lemma {:induction false} SomeMember(b: Block, m: map<string, Native>, v: Value, isState: bool)
    requires v.body.Fields?
    requires forall x: nat :: x < Count(b) ==> (MissingMember(b, m, x, isState) <==> NullMember(v, b, x, isState))
    ensures MissingFrom(b, m, 0, isState) <==> NullRequired(v, b, isState)
  {
    if x: nat :| x < Count(b) && NullMember(v, b, x, isState) { assert 0 <= x && MissingMember(b, m, x, isState); }
  }

  lemma {:induction false} MemberShown(b: Block, m: map<string, Native>, v: Value, x: nat, isState: bool)
    requires WF(v) && v.body.Fields? && m.Keys == v.body.fields.Keys && x < Count(b)
    requires forall k :: k in m ==> Shows(m[k], v.body.fields[k])
    ensures MissingMember(b, m, x, isState) <==> NullMember(v, b, x, isState)
    decreases b, 0
  {
    var k := MemberName(b, x);
    if k in m {
      if x < |b.attributes| {
        AttributeShown(b.attributes[x], m[k], v.body.fields[k], isState);
      } else {
        BlockShown(b.blockTypes[x - |b.attributes|], m[k], v.body.fields[k], isState);
      }
    }
  }

  lemma {:induction false} AttributeShown(a: Attribute, n: Native, v: Value, isState: bool)
    requires WF(v) && Shows(n, v)
    ensures MissingInAttribute(a, n, isState) <==> NullInAttribute(v, a, isState)
    decreases a
  {
    ShownShape(n, v);
    if a.objectType.Some? { MissingInShown(a.objectType.value, n, v, isState); }
  }

  lemma {:induction false} BlockShown(b: NestedBlock, n: Native, v: Value, isState: bool)
    requires WF(v) && Shows(n, v)
    ensures MissingInBlock(b, n, isState) <==> NullInBlock(v, b, isState)
    decreases b
  {
    ShownShape(n, v);
    if b.nesting.SINGLE? || b.nesting.GROUP? {
      MissingInShown(b.block, n, v, isState);
    } else if b.nesting.MAP? && v.body.Fields? {
      forall k | k in v.body.fields
        ensures MissingRequired(b.block, Mapping(n).value[k], isState) <==>
          NullRequired(v.body.fields[k], b.block, isState)
      {
        MissingInShown(b.block, Mapping(n).value[k], v.body.fields[k], isState);
      }
    } else if !b.nesting.MAP? && v.body.Elems? {
      forall i | 0 <= i < |v.body.elems|
        ensures MissingRequired(b.block, Sequence(n)[i], isState) <==> NullRequired(v.body.elems[i], b.block, isState)
      {
        MissingInShown(b.block, Sequence(n)[i], v.body.elems[i], isState);
      }
    }
  }
}
