// src/pyvider/schema/defaults.py:95-315: bringing a plan into agreement with the effective
// configuration wherever the schema declares a default.
module DefaultsMerge {
  import opened Options
  import opened CtyValues
  import opened Schema
  import opened Defaults

  function Find(m: map<string, Native>, k: string): Option<Native> {
    if k in m then Some(m[k]) else None
  }

  predicate Items(p: Native) {
    p.NList? || p.NTuple?
  }

  function SameKind(p: Native, items: seq<Native>): Native
    requires Items(p)
  {
    if p.NList? then NList(items) else NTuple(items)
  }

  // A configured block with members to take values from.
  predicate Mergeable(cfg: Option<Value>) {
    cfg.Some? && cfg.value.body.Fields?
  }

  // ------------------------------------------------------------------ pairing set elements

  // _set_elements_match
  predicate SetElementsMatch(p: Native, c: Value, b: Block)
    decreases b
  {
    p.NDict? && c.body.Fields? &&
    forall i :: 0 <= i < |b.attributes| ==>
      MemberMatches(Entry(p.entries, b.attributes[i].name), Get(c.body.fields, b.attributes[i].name), b.attributes[i])
  }

  predicate MemberMatches(planned: Native, configured: Option<Value>, a: Attribute)
    decreases a, 1
  {
    a.writeOnly || !Resolvable(configured) || AttributeMatches(planned, configured.value, a)
  }

  predicate AttributeMatches(planned: Native, configured: Value, a: Attribute)
    decreases a, 0
  {
    if a.default.Some? then
      a.objectType.Some? ||
      (if planned.NNone? then ToNative(configured) == a.default.value else planned == ToNative(configured))
    else if a.objectType.Some? then SetElementsMatch(planned, configured, a.objectType.value)
    else planned == ToNative(configured)
  }

  // An isolated edge of the match graph: neither end matches anything else.
  ghost predicate Paired(ps: seq<Native>, cs: seq<Value>, b: Block, i: int, j: int) {
    && 0 <= i < |ps| && 0 <= j < |cs| && SetElementsMatch(ps[i], cs[j], b)
    && (forall j' :: 0 <= j' < |cs| && SetElementsMatch(ps[i], cs[j'], b) ==> j' == j)
    && (forall i' :: 0 <= i' < |ps| && SetElementsMatch(ps[i'], cs[j], b) ==> i' == i)
  }

  ghost function Partner(ps: seq<Native>, cs: seq<Value>, b: Block, i: int): (c: Option<Value>)
    ensures forall j :: Paired(ps, cs, b, i, j) ==> c == Some(cs[j])
    ensures c.Some? ==> exists j :: Paired(ps, cs, b, i, j)
  {
    if exists j :: Paired(ps, cs, b, i, j) then
      var j :| Paired(ps, cs, b, i, j);
      Some(cs[j])
    else None
  }

  // ------------------------------------------------------------------ what the merge computes

  ghost function MergeBlock(p: Native, cfg: Option<Value>, b: Block): Native
    decreases b, 1
  {
    if !p.NDict? || !Mergeable(cfg) then p
    else NDict(map k | k in p.entries.Keys + Names(b) &&
      MergeEntry(Find(p.entries, k), Get(cfg.value.body.fields, k), b, k).Some?
                   :: MergeEntry(Find(p.entries, k), Get(cfg.value.body.fields, k), b, k).value)
  }

  ghost function MergeEntry(current: Option<Native>, cfg: Option<Value>, b: Block, k: string): Option<Native>
    decreases b, 0
  {
    var i, j := AttrIndex(b.attributes, k), BlockIndex(b.blockTypes, k);
    if i >= 0 then MergeAttribute(current, cfg, b.attributes[i])
    else if j >= 0 && current.Some? then Some(MergeNested(current.value, cfg, b.blockTypes[j]))
    else current
  }

  // The effective configuration supplies the whole attribute.
  predicate Supplies(cfg: Option<Value>, a: Attribute) {
    !a.writeOnly && a.default.Some? && Resolvable(cfg) && (a.objectType.Some? ==> WhollyKnown(cfg.value))
  }

  // It corrects defaults among the members of an object-typed attribute, the object itself being planned.
  predicate Corrects(cfg: Option<Value>, a: Attribute) {
    !a.writeOnly && a.objectType.Some? && Resolvable(cfg) && !Supplies(cfg, a)
  }

  ghost function MergeAttribute(current: Option<Native>, cfg: Option<Value>, a: Attribute): Option<Native>
    decreases a
  {
    if Supplies(cfg, a) then Some(ToNative(cfg.value))
    else if Corrects(cfg, a) && current.Some? then Some(MergeBlock(current.value, cfg, a.objectType.value))
    else current
  }

  // A set of more than one element is paired by value; anything else in order.
  predicate ByValue(n: NestedBlock, items: seq<Native>) {
    n.nesting.SET? && |items| > 1
  }

  ghost function MergeNested(p: Native, cfg: Option<Value>, n: NestedBlock): Native
    decreases n
  {
    if !Resolvable(cfg) then p
    else
      match n.nesting
      case SINGLE => MergeBlock(p, cfg, n.block)
      case GROUP => MergeBlock(p, cfg, n.block)
      case MAP =>
        if p.NDict? && cfg.value.body.Fields?
        then NDict(map k | k in p.entries :: MergeBlock(p.entries[k], Get(cfg.value.body.fields, k), n.block))
        else p
      case _ =>
        if Items(p) && cfg.value.body.Elems?
        then SameKind(p, seq(|p.items|, i requires 0 <= i < |p.items| =>
          MergeBlock(p.items[i], Origin(p.items, cfg.value.body.elems, n, i), n.block)))
        else p
  }

  // The configuration a planned list or set element came from, if that can be told.
  ghost function Origin(items: seq<Native>, cs: seq<Value>, n: NestedBlock, i: nat): Option<Value> {
    if ByValue(n, items) then Partner(items, cs, n.block, i)
    else if i < |cs| then Some(cs[i])
    else None
  }

  lemma MergedEntries(p: Native, cfg: Option<Value>, b: Block, k: string)
    requires p.NDict? && Mergeable(cfg)
    ensures Find(MergeBlock(p, cfg, b).entries, k) ==
      MergeEntry(Find(p.entries, k), Get(cfg.value.body.fields, k), b, k)
  {
  }

  lemma SameEntries(m: map<string, Native>, m': map<string, Native>)
    requires forall k :: Find(m, k) == Find(m', k)
    ensures m == m'
  {
    forall k ensures (k in m <==> k in m') && (k in m ==> m[k] == m'[k]) { assert Find(m, k) == Find(m', k); }
  }

  // Which branch entry k of a block takes.
  lemma EntryIs(current: Option<Native>, cfg: Option<Value>, b: Block)
    requires DistinctNames(b)
    ensures forall i :: 0 <= i < |b.attributes| ==>
      MergeEntry(current, cfg, b, b.attributes[i].name) == MergeAttribute(current, cfg, b.attributes[i])
    ensures forall j :: 0 <= j < |b.blockTypes| ==>
      MergeEntry(current, cfg, b, b.blockTypes[j].typeName) ==
      if current.Some? then Some(MergeNested(current.value, cfg, b.blockTypes[j])) else None
  {
  }

  // What is planned for an attribute, p before the merge and r after it, c being configured. A value that
  // is neither null nor unknown always wins over the plan where the attribute has a default, the declared
  // default or not; of a partly unknown object, and one without a default, only the members are corrected.
  ghost predicate EntryMerged(p: Option<Native>, c: Option<Value>, r: Option<Native>, a: Attribute) {
    if a.writeOnly || c.None? || c.value.body.Null? || c.value.body.Unknown? then r == p
    else if a.objectType.None? then r == if a.default.Some? then Some(ToNative(c.value)) else p
    else if a.default.Some? && WhollyKnown(c.value) then r == Some(ToNative(c.value))
    else r == if p.Some? then Some(MergeBlock(p.value, c, a.objectType.value)) else None
  }

  lemma {:induction false} ConfigurationWins(p: Native, cfg: Option<Value>, b: Block, i: nat)
    requires DistinctNames(b) && p.NDict? && cfg.Some? && cfg.value.body.Fields? && i < |b.attributes|
    ensures MergeBlock(p, cfg, b).NDict?
    ensures var k := b.attributes[i].name;
      EntryMerged(Find(p.entries, k), Get(cfg.value.body.fields, k), Find(MergeBlock(p, cfg, b).entries, k),
        b.attributes[i])
  {
    var k := b.attributes[i].name;
    MergedEntries(p, cfg, b, k);
    EntryIs(Find(p.entries, k), Get(cfg.value.body.fields, k), b);
  }

  // ------------------------------------------------------------------ a merged element keeps its edges

  lemma ToNativeSomething(v: Value)
    requires !v.body.Null? && !v.body.Unknown?
    ensures !ToNative(v).NNone?
  {
  }

  lemma DefaultSomething(a: Attribute)
    requires SoundDefault(a) && a.default.Some?
    ensures !a.default.value.NNone?
  {
  }

  // Merging an element with a configuration it matches changes none of its edges: not to that
  // configuration, and not to any other.
  lemma {:induction false} EdgesKept(p: Native, c: Value, c': Value, b: Block)
    requires ValidBlock(b) && SetElementsMatch(p, c, b)
    ensures SetElementsMatch(MergeBlock(p, Some(c), b), c', b) == SetElementsMatch(p, c', b)
    decreases b
  {
    if c'.body.Fields? {
      var m := MergeBlock(p, Some(c), b).entries;
      forall i | 0 <= i < |b.attributes|
        ensures MemberMatches(Entry(m, b.attributes[i].name), Get(c'.body.fields, b.attributes[i].name),
          b.attributes[i])
             == MemberMatches(Entry(p.entries, b.attributes[i].name), Get(c'.body.fields, b.attributes[i].name),
               b.attributes[i])
      {
        var k := b.attributes[i].name;
        MergedEntries(p, Some(c), b, k);
        EntryIs(Find(p.entries, k), Get(c.body.fields, k), b);
        MemberEdgesKept(Find(p.entries, k), Get(c.body.fields, k), Get(c'.body.fields, k), b.attributes[i]);
      }
    }
  }

  function OrNone(o: Option<Native>): Native {
    if o.Some? then o.value else NNone
  }

  lemma {:induction false} MemberEdgesKept(current: Option<Native>, c: Option<Value>, c': Option<Value>, a: Attribute)
    requires ValidMember(a) && MemberMatches(OrNone(current), c, a)
    ensures MemberMatches(OrNone(MergeAttribute(current, c, a)), c', a) == MemberMatches(OrNone(current), c', a)
    decreases a
  {
    if Supplies(c, a) {
      if a.objectType.None? {
        ToNativeSomething(c.value);
        DefaultSomething(a);
      }
    } else if Corrects(c, a) && current.Some? && a.default.None? && Resolvable(c') {
      EdgesKept(current.value, c.value, c'.value, a.objectType.value);
    }
  }

  // So the whole match graph of a set is the same before and after the merge.
  lemma GraphKept(ps: seq<Native>, cs: seq<Value>, n: NestedBlock, rs: seq<Native>)
    requires ValidBlock(n.block) && |rs| == |ps|
    requires forall i :: 0 <= i < |ps| ==> rs[i] == MergeBlock(ps[i], Partner(ps, cs, n.block, i), n.block)
    ensures SameGraph(ps, rs, cs, n.block)
    ensures forall i, j :: Paired(rs, cs, n.block, i, j) == Paired(ps, cs, n.block, i, j)
  {
    forall i, j | 0 <= i < |ps| && 0 <= j < |cs|
      ensures SetElementsMatch(rs[i], cs[j], n.block) == SetElementsMatch(ps[i], cs[j], n.block)
    {
      var c := Partner(ps, cs, n.block, i);
      if c.Some? {
        var k :| Paired(ps, cs, n.block, i, k);
        EdgesKept(ps[i], cs[k], cs[j], n.block);
      }
    }
    SameGraphSamePairs(ps, rs, cs, n.block);
  }

  ghost predicate SameGraph(ps: seq<Native>, qs: seq<Native>, cs: seq<Value>, b: Block) {
    |ps| == |qs| &&
    forall i, j :: 0 <= i < |ps| && 0 <= j < |cs| ==>
      SetElementsMatch(ps[i], cs[j], b) == SetElementsMatch(qs[i], cs[j], b)
  }

  lemma SameGraphSamePairs(ps: seq<Native>, qs: seq<Native>, cs: seq<Value>, b: Block)
    requires SameGraph(ps, qs, cs, b)
    ensures forall i, j :: Paired(ps, cs, b, i, j) == Paired(qs, cs, b, i, j)
    ensures forall i :: 0 <= i < |ps| ==> Partner(ps, cs, b, i) == Partner(qs, cs, b, i)
  {
    forall i, j ensures Paired(ps, cs, b, i, j) == Paired(qs, cs, b, i, j) {
      if Paired(ps, cs, b, i, j) { assert Paired(qs, cs, b, i, j); }
      if Paired(qs, cs, b, i, j) { assert Paired(ps, cs, b, i, j); }
    }
  }

  // ------------------------------------------------------------------ merging twice is merging once

  lemma {:induction false} MergeIdempotent(p: Native, cfg: Option<Value>, b: Block)
    requires ValidBlock(b)
    ensures MergeBlock(MergeBlock(p, cfg, b), cfg, b) == MergeBlock(p, cfg, b)
    decreases b
  {
    if p.NDict? && Mergeable(cfg) {
      var fs := cfg.value.body.fields;
      var q := MergeBlock(p, cfg, b);
      forall k ensures Find(MergeBlock(q, cfg, b).entries, k) == Find(q.entries, k) {
        MergedEntries(p, cfg, b, k);
        MergedEntries(q, cfg, b, k);
        var i, j := AttrIndex(b.attributes, k), BlockIndex(b.blockTypes, k);
        if i >= 0 {
          AttributeIdempotent(Find(p.entries, k), Get(fs, k), b.attributes[i]);
        } else if j >= 0 && k in p.entries {
          NestedIdempotent(p.entries[k], Get(fs, k), b.blockTypes[j]);
        }
      }
      SameEntries(MergeBlock(q, cfg, b).entries, q.entries);
    }
  }

  lemma {:induction false} AttributeIdempotent(current: Option<Native>, cfg: Option<Value>, a: Attribute)
    requires ValidMember(a)
    ensures MergeAttribute(MergeAttribute(current, cfg, a), cfg, a) == MergeAttribute(current, cfg, a)
    decreases a
  {
    if Corrects(cfg, a) && current.Some? { MergeIdempotent(current.value, cfg, a.objectType.value); }
  }

  lemma {:induction false} NestedIdempotent(p: Native, cfg: Option<Value>, n: NestedBlock)
    requires ValidBlock(n.block)
    ensures MergeNested(MergeNested(p, cfg, n), cfg, n) == MergeNested(p, cfg, n)
    decreases n
  {
    if Resolvable(cfg) {
      var q := MergeNested(p, cfg, n);
      match n.nesting
      case SINGLE => MergeIdempotent(p, cfg, n.block);
      case GROUP => MergeIdempotent(p, cfg, n.block);
      case MAP =>
        if p.NDict? && cfg.value.body.Fields? {
          forall k | k in p.entries
            ensures MergeBlock(q.entries[k], Get(cfg.value.body.fields, k), n.block) == q.entries[k]
          {
            MergeIdempotent(p.entries[k], Get(cfg.value.body.fields, k), n.block);
          }
          assert MergeNested(q, cfg, n).entries == q.entries;
        }
      case _ =>
        if Items(p) && cfg.value.body.Elems? {
          SameOrigins(p, cfg, n);
          forall i | 0 <= i < |p.items|
            ensures MergeBlock(q.items[i], Origin(p.items, cfg.value.body.elems, n, i), n.block) == q.items[i]
          {
            MergeIdempotent(p.items[i], Origin(p.items, cfg.value.body.elems, n, i), n.block);
          }
          assert MergeNested(q, cfg, n).items == q.items;
        }
    }
  }

  // A merged list or set has every element paired with the configuration it was paired with before.
  lemma SameOrigins(p: Native, cfg: Option<Value>, n: NestedBlock)
    requires ValidBlock(n.block) && (n.nesting.LIST? || n.nesting.SET?)
    requires Resolvable(cfg) && Items(p) && cfg.value.body.Elems?
    ensures Items(MergeNested(p, cfg, n)) && |MergeNested(p, cfg, n).items| == |p.items|
    ensures forall i :: 0 <= i < |p.items| ==>
      Origin(MergeNested(p, cfg, n).items, cfg.value.body.elems, n, i) == Origin(p.items, cfg.value.body.elems, n, i)
    ensures ByValue(n, p.items) ==> SameGraph(p.items, MergeNested(p, cfg, n).items, cfg.value.body.elems, n.block)
  {
    var q, cs := MergeNested(p, cfg, n), cfg.value.body.elems;
    if ByValue(n, p.items) {
      GraphKept(p.items, cs, n, q.items);
      SameGraphSamePairs(p.items, q.items, cs, n.block);
    }
  }

  // ------------------------------------------------------------------ what the merge does not depend on

  // Two plans that differ at most where the configuration supplies a default's value. For a set paired
  // by value they must also match the same configurations, element by element.
  ghost predicate AgreeOff(p: Native, q: Native, cfg: Option<Value>, b: Block)
    decreases b
  {
    if !p.NDict? || !q.NDict? || !Mergeable(cfg) then p == q
    else
      var fs := cfg.value.body.fields;
      (forall k :: k !in Names(b) ==> Find(p.entries, k) == Find(q.entries, k)) &&
      (forall i :: 0 <= i < |b.attributes| ==> var k := b.attributes[i].name;
         AttributesAgreeOff(Find(p.entries, k), Find(q.entries, k), Get(fs, k), b.attributes[i])) &&
      (forall j :: 0 <= j < |b.blockTypes| ==> var k := b.blockTypes[j].typeName;
         NestedAgreeOff(Find(p.entries, k), Find(q.entries, k), Get(fs, k), b.blockTypes[j]))
  }

  ghost predicate AttributesAgreeOff(p: Option<Native>, q: Option<Native>, cfg: Option<Value>, a: Attribute)
    decreases a
  {
    if Supplies(cfg, a) then true
    else if Corrects(cfg, a) && p.Some? && q.Some? then AgreeOff(p.value, q.value, cfg, a.objectType.value)
    else p == q
  }

  ghost predicate NestedAgreeOff(p: Option<Native>, q: Option<Native>, cfg: Option<Value>, n: NestedBlock)
    decreases n
  {
    if !Resolvable(cfg) || p.None? || q.None? then p == q
    else if n.nesting.SINGLE? || n.nesting.GROUP? then AgreeOff(p.value, q.value, cfg, n.block)
    else if n.nesting.MAP? && cfg.value.body.Fields? && p.value.NDict? && q.value.NDict? then
      p.value.entries.Keys == q.value.entries.Keys &&
      forall k :: k in p.value.entries ==>
        AgreeOff(p.value.entries[k], q.value.entries[k], Get(cfg.value.body.fields, k), n.block)
    else if !n.nesting.MAP? && cfg.value.body.Elems? && Items(p.value) && Items(q.value) then
      var cs := cfg.value.body.elems;
      p.value.NList? == q.value.NList? && |p.value.items| == |q.value.items| &&
      (ByValue(n, p.value.items) ==> SameGraph(p.value.items, q.value.items, cs, n.block)) &&
      forall i :: 0 <= i < |p.value.items| ==>
        AgreeOff(p.value.items[i], q.value.items[i], Origin(p.value.items, cs, n, i), n.block)
    else p == q
  }

  // Those are exactly the plans that merge to the same plan: prior state left at a position the default
  // governs has no influence, and everything else has.
  lemma {:induction false} NonInterference(p: Native, q: Native, cfg: Option<Value>, b: Block)
    requires ValidBlock(b)
    ensures MergeBlock(p, cfg, b) == MergeBlock(q, cfg, b) <==> AgreeOff(p, q, cfg, b)
    decreases b
  {
    if p.NDict? && q.NDict? && Mergeable(cfg) {
      var fs := cfg.value.body.fields;
      forall i | 0 <= i < |b.attributes|
        ensures var k := b.attributes[i].name;
          MergeEntry(Find(p.entries, k), Get(fs, k), b, k) == MergeEntry(Find(q.entries, k), Get(fs, k), b, k) <==>
          AttributesAgreeOff(Find(p.entries, k), Find(q.entries, k), Get(fs, k), b.attributes[i])
      {
        var k := b.attributes[i].name;
        EntryIs(Find(p.entries, k), Get(fs, k), b);
        EntryIs(Find(q.entries, k), Get(fs, k), b);
        AttributeNonInterference(Find(p.entries, k), Find(q.entries, k), Get(fs, k), b.attributes[i]);
      }
      forall j | 0 <= j < |b.blockTypes|
        ensures var k := b.blockTypes[j].typeName;
          MergeEntry(Find(p.entries, k), Get(fs, k), b, k) == MergeEntry(Find(q.entries, k), Get(fs, k), b, k) <==>
          NestedAgreeOff(Find(p.entries, k), Find(q.entries, k), Get(fs, k), b.blockTypes[j])
      {
        var k := b.blockTypes[j].typeName;
        EntryIs(Find(p.entries, k), Get(fs, k), b);
        EntryIs(Find(q.entries, k), Get(fs, k), b);
        NestedNonInterference(Find(p.entries, k), Find(q.entries, k), Get(fs, k), b.blockTypes[j]);
      }
      SameMerge(p, q, cfg, b);
      AgreeByEntry(p, q, cfg, b);
    }
  }

  lemma {:induction false} SameMerge(p: Native, q: Native, cfg: Option<Value>, b: Block)
    requires p.NDict? && q.NDict? && Mergeable(cfg)
    ensures MergeBlock(p, cfg, b) == MergeBlock(q, cfg, b) <==> EntriesMergeAlike(p, q, cfg, b)
  {
    var x, y := MergeBlock(p, cfg, b), MergeBlock(q, cfg, b);
    forall k
      ensures Find(x.entries, k) == MergeEntry(Find(p.entries, k), Get(cfg.value.body.fields, k), b, k)
      ensures Find(y.entries, k) == MergeEntry(Find(q.entries, k), Get(cfg.value.body.fields, k), b, k)
    {
      MergedEntries(p, cfg, b, k);
      MergedEntries(q, cfg, b, k);
    }
    if EntriesMergeAlike(p, q, cfg, b) { SameEntries(x.entries, y.entries); }
    if x == y {
      forall k
        ensures MergeEntry(Find(p.entries, k), Get(cfg.value.body.fields, k), b, k) ==
                MergeEntry(Find(q.entries, k), Get(cfg.value.body.fields, k), b, k)
      {
        assert Find(x.entries, k) == Find(y.entries, k);
      }
    }
  }

  ghost predicate EntriesMergeAlike(p: Native, q: Native, cfg: Option<Value>, b: Block)
    requires p.NDict? && q.NDict? && Mergeable(cfg)
  {
    forall k :: MergeEntry(Find(p.entries, k), Get(cfg.value.body.fields, k), b, k) ==
                MergeEntry(Find(q.entries, k), Get(cfg.value.body.fields, k), b, k)
  }

  lemma {:induction false} AgreeByEntry(p: Native, q: Native, cfg: Option<Value>, b: Block)
    requires p.NDict? && q.NDict? && Mergeable(cfg)
    requires forall i :: 0 <= i < |b.attributes| ==> var k := b.attributes[i].name; var fs := cfg.value.body.fields;
      (MergeEntry(Find(p.entries, k), Get(fs, k), b, k) == MergeEntry(Find(q.entries, k), Get(fs, k), b, k) <==>
       AttributesAgreeOff(Find(p.entries, k), Find(q.entries, k), Get(fs, k), b.attributes[i]))
    requires forall j :: 0 <= j < |b.blockTypes| ==> var k := b.blockTypes[j].typeName; var fs := cfg.value.body.fields;
      (MergeEntry(Find(p.entries, k), Get(fs, k), b, k) == MergeEntry(Find(q.entries, k), Get(fs, k), b, k) <==>
       NestedAgreeOff(Find(p.entries, k), Find(q.entries, k), Get(fs, k), b.blockTypes[j]))
    ensures EntriesMergeAlike(p, q, cfg, b) <==> AgreeOff(p, q, cfg, b)
  {
    var fs := cfg.value.body.fields;
    forall k | k !in Names(b)
      ensures MergeEntry(Find(p.entries, k), Get(fs, k), b, k) == Find(p.entries, k)
      ensures MergeEntry(Find(q.entries, k), Get(fs, k), b, k) == Find(q.entries, k)
    {
    }
    if AgreeOff(p, q, cfg, b) {
      forall k
        ensures MergeEntry(Find(p.entries, k), Get(fs, k), b, k) == MergeEntry(Find(q.entries, k), Get(fs, k), b, k)
      {
        var i, j := AttrIndex(b.attributes, k), BlockIndex(b.blockTypes, k);
        assert i >= 0 ==> b.attributes[i].name == k;
        assert j >= 0 ==> b.blockTypes[j].typeName == k;
      }
    }
  }

  lemma {:induction false} AttributeNonInterference(p: Option<Native>, q: Option<Native>, cfg: Option<Value>,
                                                    a: Attribute)
    requires ValidMember(a)
    ensures MergeAttribute(p, cfg, a) == MergeAttribute(q, cfg, a) <==> AttributesAgreeOff(p, q, cfg, a)
    decreases a
  {
    if Corrects(cfg, a) && p.Some? && q.Some? { NonInterference(p.value, q.value, cfg, a.objectType.value); }
  }

  lemma {:induction false} NestedNonInterference(p: Option<Native>, q: Option<Native>, cfg: Option<Value>,
                                                 n: NestedBlock)
    requires ValidBlock(n.block)
    ensures ((if p.Some? then Some(MergeNested(p.value, cfg, n)) else None) ==
             (if q.Some? then Some(MergeNested(q.value, cfg, n)) else None)) <==> NestedAgreeOff(p, q, cfg, n)
    decreases n
  {
    if Resolvable(cfg) && p.Some? && q.Some? {
      match n.nesting
      case SINGLE => NonInterference(p.value, q.value, cfg, n.block);
      case GROUP => NonInterference(p.value, q.value, cfg, n.block);
      case MAP =>
        if p.value.NDict? && q.value.NDict? && cfg.value.body.Fields? {
          forall k | k in p.value.entries && k in q.value.entries
            ensures MergeBlock(p.value.entries[k], Get(cfg.value.body.fields, k), n.block) ==
                    MergeBlock(q.value.entries[k], Get(cfg.value.body.fields, k), n.block) <==>
                    AgreeOff(p.value.entries[k], q.value.entries[k], Get(cfg.value.body.fields, k), n.block)
          {
            NonInterference(p.value.entries[k], q.value.entries[k], Get(cfg.value.body.fields, k), n.block);
          }
          KeyedNonInterference(p.value, q.value, cfg, n);
        }
      case _ =>
        if Items(p.value) && Items(q.value) && cfg.value.body.Elems? {
          ItemsNonInterference(p.value, q.value, cfg, n);
        }
    }
  }

  lemma {:induction false} KeyedNonInterference(p: Native, q: Native, cfg: Option<Value>, n: NestedBlock)
    requires n.nesting.MAP? && p.NDict? && q.NDict? && Resolvable(cfg) && cfg.value.body.Fields?
    requires forall k :: k in p.entries && k in q.entries ==>
      (MergeBlock(p.entries[k], Get(cfg.value.body.fields, k), n.block) ==
       MergeBlock(q.entries[k], Get(cfg.value.body.fields, k), n.block) <==>
       AgreeOff(p.entries[k], q.entries[k], Get(cfg.value.body.fields, k), n.block))
    ensures MergeNested(p, cfg, n) == MergeNested(q, cfg, n) <==> NestedAgreeOff(Some(p), Some(q), cfg, n)
  {
    var x, y := MergeNested(p, cfg, n).entries, MergeNested(q, cfg, n).entries;
    assert x.Keys == p.entries.Keys && y.Keys == q.entries.Keys;
    if NestedAgreeOff(Some(p), Some(q), cfg, n) { assert x == y; }
    if x == y {
      forall k | k in p.entries ensures AgreeOff(p.entries[k], q.entries[k], Get(cfg.value.body.fields, k), n.block) {
        assert x[k] == y[k];
      }
    }
  }

  lemma {:induction false} ItemsNonInterference(p: Native, q: Native, cfg: Option<Value>, n: NestedBlock)
    requires ValidBlock(n.block) && (n.nesting.LIST? || n.nesting.SET?)
    requires Items(p) && Items(q) && Resolvable(cfg) && cfg.value.body.Elems?
    ensures MergeNested(p, cfg, n) == MergeNested(q, cfg, n) <==> NestedAgreeOff(Some(p), Some(q), cfg, n)
    decreases n, 0
  {
    var x, y := MergeNested(p, cfg, n), MergeNested(q, cfg, n);
    var cs := cfg.value.body.elems;
    if p.NList? == q.NList? && |p.items| == |q.items| {
      if x == y { SameMergeSameOrigins(p, q, cfg, n); }
      if ByValue(n, p.items) && SameGraph(p.items, q.items, cs, n.block) {
        SameGraphSamePairs(p.items, q.items, cs, n.block);
      }
      if ByValue(n, p.items) ==> SameGraph(p.items, q.items, cs, n.block) {
        forall i | 0 <= i < |p.items|
          ensures Origin(p.items, cs, n, i) == Origin(q.items, cs, n, i)
          ensures x.items[i] == y.items[i] <==> AgreeOff(p.items[i], q.items[i], Origin(p.items, cs, n, i), n.block)
        {
          NonInterference(p.items[i], q.items[i], Origin(p.items, cs, n, i), n.block);
        }
        assert x == y <==> forall i :: 0 <= i < |p.items| ==> x.items[i] == y.items[i];
      }
    }
  }

  lemma SameMergeSameOrigins(p: Native, q: Native, cfg: Option<Value>, n: NestedBlock)
    requires ValidBlock(n.block) && (n.nesting.LIST? || n.nesting.SET?)
    requires Items(p) && Items(q) && Resolvable(cfg) && cfg.value.body.Elems?
    requires MergeNested(p, cfg, n) == MergeNested(q, cfg, n)
    ensures ByValue(n, p.items) ==> SameGraph(p.items, q.items, cfg.value.body.elems, n.block)
  {
    SameOrigins(p, cfg, n);
    SameOrigins(q, cfg, n);
  }

  // Merging leaves every position no default governs as it was.
  lemma MergeTouchesOnlyDefaults(p: Native, cfg: Option<Value>, b: Block)
    requires ValidBlock(b)
    ensures AgreeOff(p, MergeBlock(p, cfg, b), cfg, b)
  {
    MergeIdempotent(p, cfg, b);
    NonInterference(p, MergeBlock(p, cfg, b), cfg, b);
  }

  // ------------------------------------------------------------------ a plan that already agrees

  lemma {:induction false} MatchesItself(v: Value, b: Block)
    requires ValidBlock(b) && WF(v) && v.ty == BlockType(b) && v.body.Fields?
    ensures SetElementsMatch(ToNative(v), v, b)
    decreases b
  {
    forall i | 0 <= i < |b.attributes|
      ensures MemberMatches(Entry(ToNative(v).entries, b.attributes[i].name), Get(v.body.fields, b.attributes[i].name),
        b.attributes[i])
    {
      MemberTyped(v, b, i);
      MemberMatchesItself(v.body.fields[b.attributes[i].name], b.attributes[i]);
    }
  }

  lemma {:induction false} MemberMatchesItself(c: Value, a: Attribute)
    requires ValidMember(a) && WF(c) && c.ty == a.ty
    ensures MemberMatches(ToNative(c), Some(c), a)
    decreases a
  {
    if Resolvable(Some(c)) {
      ToNativeSomething(c);
      if a.objectType.Some? { MatchesItself(c, a.objectType.value); }
    }
  }

  // A plan that is the effective configuration is left as it is.
  lemma {:induction false} OwnConfigurationIsKept(v: Value, b: Block)
    requires ValidBlock(b) && WF(v) && v.ty == BlockType(b)
    ensures MergeBlock(ToNative(v), Some(v), b) == ToNative(v)
    decreases b, 1
  {
    if v.body.Fields? {
      var p := ToNative(v);
      forall k ensures Find(MergeBlock(p, Some(v), b).entries, k) == Find(p.entries, k) {
        MergedEntries(p, Some(v), b, k);
        if k in Names(b) {
          assert v.body.fields[k].ty == FieldType(b, k);
          OwnEntryIsKept(v.body.fields[k], b, k);
        }
      }
      SameEntries(MergeBlock(p, Some(v), b).entries, p.entries);
    }
  }

  lemma {:induction false} OwnEntryIsKept(c: Value, b: Block, k: string)
    requires ValidBlock(b) && k in Names(b) && WF(c) && c.ty == FieldType(b, k)
    ensures MergeEntry(Some(ToNative(c)), Some(c), b, k) == Some(ToNative(c))
    decreases b, 0
  {
    var i, j := AttrIndex(b.attributes, k), BlockIndex(b.blockTypes, k);
    if i >= 0 {
      if Corrects(Some(c), b.attributes[i]) { OwnConfigurationIsKept(c, b.attributes[i].objectType.value); }
    } else {
      OwnNestedIsKept(c, b.blockTypes[j]);
    }
  }

  lemma {:induction false} OwnNestedIsKept(v: Value, n: NestedBlock)
    requires ValidBlock(n.block) && WF(v) && v.ty == NestedType(n)
    ensures MergeNested(ToNative(v), Some(v), n) == ToNative(v)
    decreases n
  {
    match n.nesting
    case SINGLE => OwnConfigurationIsKept(v, n.block);
    case GROUP => OwnConfigurationIsKept(v, n.block);
    case MAP =>
      if v.body.Fields? {
        forall k | k in v.body.fields
          ensures MergeBlock(ToNative(v.body.fields[k]), Some(v.body.fields[k]), n.block) == ToNative(v.body.fields[k])
        {
          OwnConfigurationIsKept(v.body.fields[k], n.block);
        }
        assert MergeNested(ToNative(v), Some(v), n).entries == ToNative(v).entries;
      }
    case _ =>
      if v.body.Elems? {
        var p, cs := ToNative(v), v.body.elems;
        forall i | 0 <= i < |cs| ensures MergeBlock(p.items[i], Origin(p.items, cs, n, i), n.block) == p.items[i] {
          OwnConfigurationIsKept(cs[i], n.block);
          OwnOrigin(v, n, i);
        }
        assert MergeNested(p, Some(v), n).items == p.items;
      }
  }

  lemma OwnOrigin(v: Value, n: NestedBlock, i: nat)
    requires ValidBlock(n.block) && WF(v) && v.ty == NestedType(n) && v.body.Elems? && i < |v.body.elems|
    ensures ToNative(v).NList? && |ToNative(v).items| == |v.body.elems|
    ensures var o := Origin(ToNative(v).items, v.body.elems, n, i); o.None? || o == Some(v.body.elems[i])
  {
    var ps, cs := ToNative(v).items, v.body.elems;
    if ByValue(n, ps) {
      assert ps[i] == ToNative(cs[i]) && WF(cs[i]) && cs[i].ty == BlockType(n.block);
      if cs[i].body.Fields? {
        MatchesItself(cs[i], n.block);
        forall j | Paired(ps, cs, n.block, i, j) ensures j == i {}
      } else {
        assert !ps[i].NDict?;
      }
    }
  }

  // ------------------------------------------------------------------ set pairing

  // No configuration is used twice, and no element is paired twice.
  lemma PairingIsInjective(ps: seq<Native>, cs: seq<Value>, b: Block, i: int, j: int, i': int, j': int)
    requires Paired(ps, cs, b, i, j) && Paired(ps, cs, b, i', j')
    ensures i == i' <==> j == j'
  {
  }

  ghost predicate Permutes(pi: seq<nat>, n: nat) {
    |pi| == n && (forall i :: 0 <= i < n ==> pi[i] < n) && (forall k :: 0 <= k < n ==> k in pi) &&
    (forall i, i' :: 0 <= i < i' < n ==> pi[i] != pi[i'])
  }

  function Permuted<T>(xs: seq<T>, pi: seq<nat>): seq<T>
    requires |pi| == |xs| && forall i :: 0 <= i < |pi| ==> pi[i] < |xs|
  {
    seq(|xs|, i requires 0 <= i < |xs| => xs[pi[i]])
  }

  // In whatever order the plan and the configuration list a set's elements, each planned element comes
  // out the same.
  lemma PairingIgnoresOrder(ps: seq<Native>, cs: seq<Value>, b: Block, pi: seq<nat>, sigma: seq<nat>)
    requires Permutes(pi, |ps|) && Permutes(sigma, |cs|)
    ensures forall i :: 0 <= i < |ps| ==>
      Partner(Permuted(ps, pi), Permuted(cs, sigma), b, i) == Partner(ps, cs, b, pi[i])
  {
    var ps', cs' := Permuted(ps, pi), Permuted(cs, sigma);
    forall i | 0 <= i < |ps| ensures Partner(ps', cs', b, i) == Partner(ps, cs, b, pi[i]) {
      if j :| Paired(ps', cs', b, i, j) {
        PairedMoves(ps, cs, b, pi, sigma, i, j);
      } else if k :| Paired(ps, cs, b, pi[i], k) {
        assert k in sigma;
        var j :| 0 <= j < |cs| && sigma[j] == k;
        PairedMoves(ps, cs, b, pi, sigma, i, j);
      }
    }
  }

  lemma PairedMoves(ps: seq<Native>, cs: seq<Value>, b: Block, pi: seq<nat>, sigma: seq<nat>, i: nat, j: nat)
    requires Permutes(pi, |ps|) && Permutes(sigma, |cs|) && i < |ps| && j < |cs|
    ensures Paired(Permuted(ps, pi), Permuted(cs, sigma), b, i, j) == Paired(ps, cs, b, pi[i], sigma[j])
  {
    var ps', cs' := Permuted(ps, pi), Permuted(cs, sigma);
    if Paired(ps', cs', b, i, j) {
      forall k | 0 <= k < |cs| && SetElementsMatch(ps[pi[i]], cs[k], b) ensures k == sigma[j] {
        assert k in sigma;
        var j' :| 0 <= j' < |cs| && sigma[j'] == k;
        assert SetElementsMatch(ps'[i], cs'[j'], b);
      }
      forall k | 0 <= k < |ps| && SetElementsMatch(ps[k], cs[sigma[j]], b) ensures k == pi[i] {
        assert k in pi;
        var i' :| 0 <= i' < |ps| && pi[i'] == k;
        assert SetElementsMatch(ps'[i'], cs'[j], b);
      }
    }
    if Paired(ps, cs, b, pi[i], sigma[j]) {
      forall j' | 0 <= j' < |cs| && SetElementsMatch(ps'[i], cs'[j'], b) ensures j' == j {
        assert SetElementsMatch(ps[pi[i]], cs[sigma[j']], b);
      }
      forall i' | 0 <= i' < |ps| && SetElementsMatch(ps'[i'], cs'[j], b) ensures i' == i {
        assert SetElementsMatch(ps[pi[i']], cs[sigma[j]], b);
      }
    }
  }

  lemma SetMergeIgnoresOrder(p: Native, cfg: Value, n: NestedBlock, pi: seq<nat>, sigma: seq<nat>)
    requires n.nesting.SET? && Items(p) && |p.items| > 1 && cfg.body.Elems?
    requires Permutes(pi, |p.items|) && Permutes(sigma, |cfg.body.elems|)
    ensures
      MergeNested(SameKind(p, Permuted(p.items, pi)), Some(cfg.(body := Elems(Permuted(cfg.body.elems, sigma)))), n)
      == SameKind(p, Permuted(MergeNested(p, Some(cfg), n).items, pi))
  {
    PairingIgnoresOrder(p.items, cfg.body.elems, n.block, pi, sigma);
    var permuted := cfg.(body := Elems(Permuted(cfg.body.elems, sigma)));
    var x := MergeNested(SameKind(p, Permuted(p.items, pi)), Some(permuted), n);
    var y := Permuted(MergeNested(p, Some(cfg), n).items, pi);
    assert forall i :: 0 <= i < |y| ==> x.items[i] == y[i];
    assert x.items == y;
  }

  // The pairs one round finds among what is still unmatched.
  predicate UniqueAmong(ps: seq<Native>, cs: seq<Value>, b: Block, plans: set<nat>, configs: set<nat>, i: nat, j: nat)
    requires (forall x :: x in plans ==> x < |ps|) && (forall y :: y in configs ==> y < |cs|)
  {
    && i in plans && j in configs && SetElementsMatch(ps[i], cs[j], b)
    && (forall j' :: j' in configs && SetElementsMatch(ps[i], cs[j'], b) ==> j' == j)
    && (forall i' :: i' in plans && SetElementsMatch(ps[i'], cs[j], b) ==> i' == i)
  }

  // What is unmatched when the isolated edges so far removed are those whose plan is not in plans.
  ghost predicate RemovedArePaired(ps: seq<Native>, cs: seq<Value>, b: Block, plans: set<nat>, configs: set<nat>) {
    && (forall x :: x in plans ==> x < |ps|) && (forall y :: y in configs ==> y < |cs|)
    && (forall i :: 0 <= i < |ps| && i !in plans ==> exists j :: j !in configs && Paired(ps, cs, b, i, j))
    && (forall j :: 0 <= j < |cs| && j !in configs ==> exists i :: i !in plans && Paired(ps, cs, b, i, j))
  }

  // Removing isolated edges isolates no other edge: what a later round would call unique was an
  // isolated edge of the whole graph from the start.
  lemma UniqueIsIsolated(ps: seq<Native>, cs: seq<Value>, b: Block, plans: set<nat>, configs: set<nat>, i: nat, j: nat)
    requires RemovedArePaired(ps, cs, b, plans, configs)
    ensures UniqueAmong(ps, cs, b, plans, configs, i, j) <==> i in plans && Paired(ps, cs, b, i, j)
  {
    if UniqueAmong(ps, cs, b, plans, configs, i, j) {
      forall j' | 0 <= j' < |cs| && SetElementsMatch(ps[i], cs[j'], b) ensures j' == j {
        RemovedWithPartner(ps, cs, b, plans, configs, i, j');
      }
      forall i' | 0 <= i' < |ps| && SetElementsMatch(ps[i'], cs[j], b) ensures i' == i {
        RemovedWithPartner(ps, cs, b, plans, configs, i', j);
      }
    }
    if i in plans && Paired(ps, cs, b, i, j) { RemovedWithPartner(ps, cs, b, plans, configs, i, j); }
  }

  // Matching ends are both removed or both not.
  lemma RemovedWithPartner(ps: seq<Native>, cs: seq<Value>, b: Block, plans: set<nat>, configs: set<nat>, i: nat,
                           j: nat)
    requires RemovedArePaired(ps, cs, b, plans, configs)
    requires i < |ps| && j < |cs| && SetElementsMatch(ps[i], cs[j], b)
    ensures i in plans <==> j in configs
  {
    if i !in plans { var j' :| j' !in configs && Paired(ps, cs, b, i, j'); }
    if j !in configs { var i' :| i' !in plans && Paired(ps, cs, b, i', j); }
  }

  // So the second round finds nothing.
  lemma SecondRoundIsEmpty(ps: seq<Native>, cs: seq<Value>, b: Block, plans: set<nat>, configs: set<nat>, i: nat,
                           j: nat)
    requires RemovedArePaired(ps, cs, b, plans, configs)
    requires forall x, y :: 0 <= x < |ps| && Paired(ps, cs, b, x, y) ==> x !in plans
    ensures !UniqueAmong(ps, cs, b, plans, configs, i, j)
  {
    UniqueIsIsolated(ps, cs, b, plans, configs, i, j);
  }

  // ------------------------------------------------------------------ the code that merges

  // The dict a block's plan is copied into while its members are corrected.
  class PlanDict {
    var entries: map<string, Native>

    constructor (m: map<string, Native>)
      ensures entries == m
    {
      entries := m;
    }

    // _merge_attribute_default
    method MergeAttributeDefault(name: string, a: Attribute, resolved: Option<Value>)
      requires ValidMember(a)
      modifies this
      ensures forall k :: (Find(entries, k) ==
        if k == name then MergeAttribute(old(Find(entries, k)), resolved, a) else old(Find(entries, k)))
      ensures EntryMerged(old(Find(entries, name)), resolved, Find(entries, name), a)
      decreases a
    {
      if a.writeOnly { return; }
      if resolved.Some? && resolved.value.body.Unknown? { return; }
      if a.objectType.Some? && !IsNull(resolved) {
        if a.default.Some? && WhollyKnown(resolved.value) {
          entries := entries[name := ToNative(resolved.value)];
          return;
        }
        if name in entries && entries[name].NDict? {
          var corrected := MergeBlockIntoPlan(entries[name], resolved, a.objectType.value);
          entries := entries[name := corrected];
        }
        return;
      }
      if a.default.None? || IsNull(resolved) { return; }
      entries := entries[name := ToNative(resolved.value)];
    }
  }

  // _merge_block_into_plan
  method MergeBlockIntoPlan(p: Native, cfg: Option<Value>, b: Block) returns (r: Native)
    requires ValidBlock(b)
    ensures r == MergeBlock(p, cfg, b)
    decreases b, 1
  {
    if !p.NDict? { return p; }
    if !Resolvable(cfg) { return p; }
    if !cfg.value.body.Fields? { return p; }
    var fs := cfg.value.body.fields;
    var merged := new PlanDict(p.entries);
    for i := 0 to |b.attributes|
      invariant fresh(merged) && MergedTo(merged.entries, p.entries, fs, b, i, 0)
    {
      ghost var before := merged.entries;
      merged.MergeAttributeDefault(b.attributes[i].name, b.attributes[i], Get(fs, b.attributes[i].name));
      AttributeMerged(before, merged.entries, p.entries, fs, b, i);
    }
    for j := 0 to |b.blockTypes|
      invariant fresh(merged) && MergedTo(merged.entries, p.entries, fs, b, |b.attributes|, j)
    {
      var n := b.blockTypes[j];
      ghost var before := merged.entries;
      if n.typeName in merged.entries {
        var corrected := MergeNestedIntoPlan(merged.entries[n.typeName], Get(fs, n.typeName), n);
        merged.entries := merged.entries[n.typeName := corrected];
      }
      NestedMerged(before, merged.entries, p.entries, fs, b, j);
    }
    AllMerged(merged.entries, p, cfg, b);
    return NDict(merged.entries);
  }

  // The first i attributes and first j blocks are merged.
  ghost predicate MergedTo(m: map<string, Native>, given: map<string, Native>, fs: map<string, Value>, b: Block,
                           i: nat, j: nat) {
    forall k :: Find(m, k) ==
      if 0 <= AttrIndex(b.attributes, k) < i || (AttrIndex(b.attributes, k) < 0 && 0 <= BlockIndex(b.blockTypes, k) < j)
      then MergeEntry(Find(given, k), Get(fs, k), b, k) else Find(given, k)
  }

  lemma {:induction false} AttributeMerged(m: map<string, Native>, m': map<string, Native>,
                                           given: map<string, Native>, fs: map<string, Value>, b: Block, i: nat)
    requires DistinctNames(b) && i < |b.attributes| && MergedTo(m, given, fs, b, i, 0)
    requires forall k :: (Find(m', k) ==
      if k == b.attributes[i].name then MergeAttribute(Find(m, k), Get(fs, k), b.attributes[i]) else Find(m, k))
    ensures MergedTo(m', given, fs, b, i + 1, 0)
  {
    var name := b.attributes[i].name;
    EntryIs(Find(given, name), Get(fs, name), b);
    assert AttrIndex(b.attributes, name) == i;
  }

  lemma {:induction false} NestedMerged(m: map<string, Native>, m': map<string, Native>, given: map<string, Native>,
                                        fs: map<string, Value>, b: Block, j: nat)
    requires DistinctNames(b) && j < |b.blockTypes| && MergedTo(m, given, fs, b, |b.attributes|, j)
    requires var n := b.blockTypes[j]; (m' ==
      if n.typeName in m then m[n.typeName := MergeNested(m[n.typeName], Get(fs, n.typeName), n)] else m)
    ensures MergedTo(m', given, fs, b, |b.attributes|, j + 1)
  {
    var name := b.blockTypes[j].typeName;
    EntryIs(Find(given, name), Get(fs, name), b);
    assert BlockIndex(b.blockTypes, name) == j && AttrIndex(b.attributes, name) < 0;
    assert Find(m, name) == Find(given, name);
  }

  lemma {:induction false} AllMerged(m: map<string, Native>, p: Native, cfg: Option<Value>, b: Block)
    requires p.NDict? && Mergeable(cfg)
    requires MergedTo(m, p.entries, cfg.value.body.fields, b, |b.attributes|, |b.blockTypes|)
    ensures NDict(m) == MergeBlock(p, cfg, b)
  {
    forall k ensures Find(m, k) == Find(MergeBlock(p, cfg, b).entries, k) { MergedEntries(p, cfg, b, k); }
    SameEntries(m, MergeBlock(p, cfg, b).entries);
  }

  // _merge_nested_into_plan
  method MergeNestedIntoPlan(p: Native, cfg: Option<Value>, n: NestedBlock) returns (r: Native)
    requires ValidBlock(n.block)
    ensures r == MergeNested(p, cfg, n)
    decreases n
  {
    if !Resolvable(cfg) { return p; }
    if n.nesting.SINGLE? || n.nesting.GROUP? {
      r := MergeBlockIntoPlan(p, cfg, n.block);
      return;
    }
    if n.nesting.MAP? {
      if !p.NDict? || !cfg.value.body.Fields? { return p; }
      r := MergeByKey(p, cfg.value, n);
      return;
    }
    if !Items(p) || !cfg.value.body.Elems? { return p; }
    var cs := cfg.value.body.elems;
    if n.nesting.SET? && |p.items| > 1 {
      var paired := MergeSetIntoPlan(p.items, cs, n);
      assert paired == MergeNested(p, cfg, n).items;
      return SameKind(p, paired);
    }
    var merged := p.items;
    for i := 0 to if |p.items| < |cs| then |p.items| else |cs|
      invariant |merged| == |p.items|
      invariant forall x :: 0 <= x < i ==> merged[x] == MergeBlock(p.items[x], Some(cs[x]), n.block)
      invariant forall x :: i <= x < |merged| ==> merged[x] == p.items[x]
    {
      var element := MergeBlockIntoPlan(p.items[i], Some(cs[i]), n.block);
      merged := merged[i := element];
    }
    assert merged == MergeNested(p, cfg, n).items;
    return SameKind(p, merged);
  }

  method MergeByKey(p: Native, cfg: Value, n: NestedBlock) returns (r: Native)
    requires ValidBlock(n.block) && n.nesting.MAP? && p.NDict? && cfg.body.Fields?
    ensures r == MergeNested(p, Some(cfg), n)
    decreases n, 0
  {
    var merged: map<string, Native> := map[];
    var left := p.entries.Keys;
    while left != {}
      invariant left <= p.entries.Keys && merged.Keys == p.entries.Keys - left
      invariant forall k :: k in merged ==> merged[k] == MergeBlock(p.entries[k], Get(cfg.body.fields, k), n.block)
      decreases |left|
    {
      var k :| k in left;
      var element := MergeBlockIntoPlan(p.entries[k], Get(cfg.body.fields, k), n.block);
      merged := merged[k := element];
      left := left - {k};
    }
    assert merged == MergeNested(p, Some(cfg), n).entries;
    return NDict(merged);
  }

  // _merge_set_into_plan
  method MergeSetIntoPlan(ps: seq<Native>, cs: seq<Value>, n: NestedBlock) returns (merged: seq<Native>)
    requires ValidBlock(n.block)
    ensures |merged| == |ps|
    ensures forall i :: 0 <= i < |ps| ==> merged[i] == MergeBlock(ps[i], Partner(ps, cs, n.block, i), n.block)
    decreases n, 0
  {
    merged := ps;
    var plans, configs := Indices(|ps|), Indices(|cs|);
    while plans != {}
      invariant MergedButFor(ps, cs, n.block, plans, configs, merged)
      decreases |plans|
    {
      var left := UniquePairs(plans, configs, Candidates(ps, cs, n.block, plans, configs));
      PairsAreIsolated(ps, cs, n.block, plans, configs);
      if left == {} { break; }
      ghost var before, found := plans, left;
      while left != {}
        invariant MergedButFor(ps, cs, n.block, plans, configs, merged)
        invariant plans <= before && (left < found ==> plans < before) && left <= found
        invariant forall x :: x in left ==> x.0 in plans && Paired(ps, cs, n.block, x.0, x.1)
        decreases |left|
      {
        var pair :| pair in left;
        var element := MergeBlockIntoPlan(ps[pair.0], Some(cs[pair.1]), n.block);
        RemovePair(ps, cs, n.block, plans, configs, merged, pair.0, pair.1);
        merged := merged[pair.0 := element];
        plans := plans - {pair.0};
        configs := configs - {pair.1};
        left := left - {pair};
      }
      SmallerSet(plans, before);
    }
    RestIsUnpaired(ps, cs, n.block, plans, configs);
  }

  // All plan elements outside plans are merged with their partners, all in it are as they came.
  ghost predicate MergedButFor(ps: seq<Native>, cs: seq<Value>, b: Block, plans: set<nat>, configs: set<nat>,
                               merged: seq<Native>) {
    RemovedArePaired(ps, cs, b, plans, configs) && |merged| == |ps| &&
    forall i :: 0 <= i < |ps| ==> merged[i] == if i in plans then ps[i] else MergeBlock(ps[i], Partner(ps, cs, b, i), b)
  }

  lemma RestIsUnpaired(ps: seq<Native>, cs: seq<Value>, b: Block, plans: set<nat>, configs: set<nat>)
    requires RemovedArePaired(ps, cs, b, plans, configs)
    requires UniquePairs(plans, configs, Candidates(ps, cs, b, plans, configs)) == {} || plans == {}
    ensures forall i :: i in plans ==> Partner(ps, cs, b, i).None?
  {
    PairsAreIsolated(ps, cs, b, plans, configs);
    var found := UniquePairs(plans, configs, Candidates(ps, cs, b, plans, configs));
    forall i, j | i in plans ensures !Paired(ps, cs, b, i, j) {
      if 0 <= j { assert (i, j) in found <==> Paired(ps, cs, b, i, j); }
    }
  }

  function Indices(n: nat): (s: set<nat>)
    ensures forall i: nat :: i in s <==> i < n
  {
    if n == 0 then {} else Indices(n - 1) + {n - 1}
  }

  function Candidates(ps: seq<Native>, cs: seq<Value>, b: Block, plans: set<nat>, configs: set<nat>): map<nat, set<nat>>
    requires (forall x :: x in plans ==> x < |ps|) && (forall y :: y in configs ==> y < |cs|)
  {
    map i | i in plans :: set j | j in configs && SetElementsMatch(ps[i], cs[j], b)
  }

  // A plan with one candidate that is no other plan's candidate.
  function UniquePairs(plans: set<nat>, configs: set<nat>, candidates: map<nat, set<nat>>): set<(nat, nat)>
    requires candidates.Keys == plans
  {
    set i, j | i in plans && j in configs && candidates[i] == {j} &&
      (set x | x in plans && j in candidates[x]) == {i} :: (i, j)
  }

  lemma PairsAreIsolated(ps: seq<Native>, cs: seq<Value>, b: Block, plans: set<nat>, configs: set<nat>)
    requires RemovedArePaired(ps, cs, b, plans, configs)
    ensures forall i: nat, j: nat :: (i, j) in UniquePairs(plans, configs, Candidates(ps, cs, b, plans, configs)) <==>
      i in plans && Paired(ps, cs, b, i, j)
  {
    var candidates := Candidates(ps, cs, b, plans, configs);
    forall i: nat, j: nat
      ensures (i, j) in UniquePairs(plans, configs, candidates) <==> i in plans && Paired(ps, cs, b, i, j)
    {
      UniqueIsIsolated(ps, cs, b, plans, configs, i, j);
      if i in plans && j in configs {
        var rivals := set x | x in plans && j in candidates[x];
        if UniqueAmong(ps, cs, b, plans, configs, i, j) {
          assert candidates[i] == {j};
          assert rivals == {i};
        }
        if candidates[i] == {j} && rivals == {i} {
          assert j in candidates[i];
          forall j' | j' in configs && SetElementsMatch(ps[i], cs[j'], b)
            ensures j' == j
          {
            assert j' in candidates[i];
          }
          forall i' | i' in plans && SetElementsMatch(ps[i'], cs[j], b) ensures i' == i { assert i' in rivals; }
        }
      }
    }
  }

  lemma RemovePair(ps: seq<Native>, cs: seq<Value>, b: Block, plans: set<nat>, configs: set<nat>, merged: seq<Native>,
                   i: nat, j: nat)
    requires MergedButFor(ps, cs, b, plans, configs, merged) && i in plans && Paired(ps, cs, b, i, j)
    ensures MergedButFor(ps, cs, b, plans - {i}, configs - {j}, merged[i := MergeBlock(ps[i], Some(cs[j]), b)])
  {
    assert Partner(ps, cs, b, i) == Some(cs[j]);
  }

  lemma SmallerSet(a: set<nat>, b: set<nat>)
    requires a < b
    ensures |a| < |b|
  {
    assert b == a + (b - a);
    assert |b - a| != 0;
  }

  // merge_schema_defaults_into_plan
  method MergeSchemaDefaultsIntoPlan(plan: PlanDict, cfg: Option<Value>, b: Block)
    requires ValidBlock(b)
    modifies plan
    ensures NDict(plan.entries) == MergeBlock(NDict(old(plan.entries)), cfg, b)
  {
    var merged := MergeBlockIntoPlan(NDict(plan.entries), cfg, b);
    assert Mergeable(cfg) ==> plan.entries.Keys <= merged.entries.Keys by {
      KeysKept(NDict(plan.entries), cfg, b);
    }
    plan.entries := plan.entries + merged.entries;
    assert plan.entries == merged.entries;
  }

  lemma KeysKept(p: Native, cfg: Option<Value>, b: Block)
    requires p.NDict?
    ensures MergeBlock(p, cfg, b).NDict? && p.entries.Keys <= MergeBlock(p, cfg, b).entries.Keys
  {
    if Mergeable(cfg) {
      forall k | k in p.entries ensures k in MergeBlock(p, cfg, b).entries { MergedEntries(p, cfg, b, k); }
    }
  }
}
