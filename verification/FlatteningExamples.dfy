// Configurations on which the default plan goes astray: one attribute, one member of an object, and two
// set blocks of two elements.
module FlatteningExamples {
  import opened Options
  import opened CtyValues
  import opened Schema
  import opened Defaults
  import opened DefaultsMerge
  import opened Lifecycle
  import opened SetPairing
  import opened Flattening

  const STR := TPrim(KStr)
  const STRS := TList(STR)

  function Text(s: string): Value {
    Value(STR, Leaf(PStr(s)), {})
  }

  const UNKNOWN := Value(STR, Unknown, {})

  // A list of one string not known yet, and a list of one null.
  const PENDING := Value(STRS, Elems([UNKNOWN]), {})
  const HOLLOW := Value(STRS, Elems([Value(STR, Null, {})]), {})

  function Optional(name: string, ty: Type): Attribute {
    Attribute(name, ty, false, true, false, false, false, None, None)
  }

  function Defaulted(name: string, ty: Type, default: Native, objectType: Option<Block>): Attribute {
    Attribute(name, ty, false, true, true, false, false, Some(default), objectType)
  }

  const TAGS := Defaulted("tags", STRS, NList([]), None)
  const SPEC := Block([TAGS], [])

  lemma {:induction false} SingleAttribute(a: Attribute)
    ensures AttrIndex([a], a.name) == 0 && Names(Block([a], [])) == {a.name}
    ensures forall k :: AttrIndex([a], k) == (if k == a.name then 0 else -1)
    ensures BlockType(Block([a], [])) == TObj(map[a.name := a.ty])
  {
    assert [a][..0] == [];
    var b := Block([a], []);
    assert b.attributes[0] == a;
    assert Names(b) == {a.name};
    assert BlockType(b).attrs == map[a.name := a.ty];
  }

  lemma {:induction false} DeclaredIsValid(a: Attribute)
    requires Declare(a) == Accepted(a)
    ensures ValidAttribute(a)
  {
  }

  lemma {:induction false} TagsIsValid()
    ensures ValidMember(TAGS)
  {
    assert Validate(STRS, NList([])) == Some(Value(STRS, Elems([]), {})) by {
      assert Validate(STRS, NList([])).value.body.elems == [];
    }
    DeclaredIsValid(TAGS);
  }

  // tags = [unknown] is planned as [null].
  lemma {:induction false} DefaultedListIsFlattened()
    ensures ValidMember(TAGS) && FlattensAttribute(PENDING, TAGS)
    ensures MergeAttribute(Some(Preserve(PENDING)), Some(PENDING), TAGS) == Some(NList([NNone]))
    ensures !Denotes(NList([NNone]), PENDING)
  {
    TagsIsValid();
    PendingIsHollow();
    assert WF(PENDING);
    AttributeFollows(PENDING, Some(PENDING), PENDING, TAGS);
    SettleSame(PENDING);
  }

  lemma {:induction false} PendingIsHollow()
    ensures !WhollyKnown(PENDING) && WhollyKnown(HOLLOW)
    ensures ToNative(PENDING) == NList([NNone]) == ToNative(HOLLOW)
    ensures Preserve(PENDING) == NList([NCty(UNKNOWN)]) && Preserve(HOLLOW) == NList([NNone])
  {
    assert PENDING.body.elems[0] == UNKNOWN;
    assert ToNative(PENDING).items == [NNone] == ToNative(HOLLOW).items;
    assert !WhollyKnown(PENDING.body.elems[0]) && !WhollyKnown(PENDING);
    assert Preserve(PENDING) == NList(PreservedItems(PENDING.body.elems));
    assert PreservedItems(PENDING.body.elems) == [NCty(UNKNOWN)];
  }

  // An object with no default of its own is planned otherwise through such a member.
  lemma {:induction false} MemberIsFlattened()
    ensures var a := Attribute("spec", BlockType(SPEC), false, true, false, false, false, None, Some(SPEC));
      var c := Value(BlockType(SPEC), Fields(map["tags" := PENDING]), {});
      !Supplies(Some(c), a) && !GivesAttribute(c, Some(c), c, a) &&
      MergeAttribute(Some(Preserve(c)), Some(c), a) == Some(NDict(map["tags" := NList([NNone])]))
  {
    var a := Attribute("spec", BlockType(SPEC), false, true, false, false, false, None, Some(SPEC));
    var c := Value(BlockType(SPEC), Fields(map["tags" := PENDING]), {});
    SingleAttribute(TAGS);
    DefaultedListIsFlattened();
    SettleSame(PENDING);
    assert c.body.fields["tags"] == PENDING;
    assert !WhollyKnown(c);
    assert !GivesEntry(PENDING, Some(PENDING), PENDING, SPEC, "tags");
    PreservedMembers(c);
    var m := MergeBlock(Preserve(c), Some(c), SPEC).entries;
    forall k
      ensures Find(m, k) == Find(map["tags" := NList([NNone])], k)
    {
      MergedEntries(Preserve(c), Some(c), SPEC, k);
    }
    DefaultsMerge.SameEntries(m, map["tags" := NList([NNone])]);
  }

  // ------------------------------------------------------------------ two rules of a set block

  const NOTES := Optional("notes", STRS)
  const HOSTS := Optional("hosts", STRS)
  const LEVEL := Attribute("level", STR, false, true, false, false, false, None, None)
  const OPTIONS := Block([LEVEL], [])
  const OPTS := Defaulted("opts", BlockType(OPTIONS), NDict(map["level" := NPrim(PStr("low"))]), Some(OPTIONS))
  const RULE := Block([NOTES, HOSTS, OPTS], [])
  const RULES := NestedBlock("rule", RULE, SET)

  function Opts(level: string): Value {
    Value(BlockType(OPTIONS), Fields(map["level" := Text(level)]), {})
  }

  function Rule(notes: Value, hosts: Value, opts: Value): Value {
    Value(BlockType(RULE), Fields(map["notes" := notes, "hosts" := hosts, "opts" := opts]), {})
  }

  // The first rule waits for a host and asks for level high; the second waits for a note, names no hosts
  // and leaves opts out, so that its effective level is the default, low.
  const FIRST := Rule(HOLLOW, PENDING, Opts("high"))
  const SECOND := Rule(PENDING, Value(STRS, Null, {}), Opts("low"))

  // Terraform proposes the first as it is and the second with the level it had before.
  const PRIOR := Rule(PENDING, Value(STRS, Null, {}), Opts("old"))

  function PlannedRule(notes: Native, hosts: Native, level: string): Native {
    NDict(map["notes" := NList([notes]), "hosts" := hosts, "opts" := NDict(map["level" := NPrim(PStr(level))])])
  }

  function PlannedFirst(level: string): Native {
    PlannedRule(NNone, NList([NCty(UNKNOWN)]), level)
  }

  const PLANNED_SECOND := PlannedRule(NCty(UNKNOWN), NNone, "old")

  lemma {:induction false} LevelNative(level: string)
    ensures ToNative(Opts(level)) == NDict(map["level" := NPrim(PStr(level))]) == Preserve(Opts(level))
    ensures WhollyKnown(Opts(level)) && Resolvable(Some(Opts(level)))
  {
    var o := Opts(level);
    assert o.body.fields["level"] == Text(level);
    assert ToNative(o).entries == map["level" := NPrim(PStr(level))];
  }

  lemma {:induction false} RuleMembers(notes: Value, hosts: Value, opts: Value)
    ensures var r := Rule(notes, hosts, opts);
      r.body.Fields? && Get(r.body.fields, "notes") == Some(notes) && Get(r.body.fields, "hosts") == Some(hosts) &&
      Get(r.body.fields, "opts") == Some(opts)
  {
  }

  // The schema is one the declaration rules accept.
  lemma {:induction false} RuleIsValid()
    ensures ValidBlock(RULE)
  {
    OptionsAreValid();
    DeclaredIsValid(NOTES);
    DeclaredIsValid(HOSTS);
    OptsIsValid();
    assert RULE.attributes[0] == NOTES && RULE.attributes[1] == HOSTS && RULE.attributes[2] == OPTS;
    assert |RULE.attributes| == 3 && |RULE.blockTypes| == 0;
    assert NOTES.name[0] == 'n' && HOSTS.name[0] == 'h' && OPTS.name[0] == 'o';
  }

  lemma {:induction false} OptionsAreValid()
    ensures ValidBlock(OPTIONS) && BlockType(OPTIONS) == TObj(map["level" := STR])
  {
    SingleAttribute(LEVEL);
    DeclaredIsValid(LEVEL);
    assert OPTIONS.attributes[0] == LEVEL && |OPTIONS.attributes| == 1 && |OPTIONS.blockTypes| == 0;
  }

  lemma {:induction false} OptsIsValid()
    ensures ValidMember(OPTS)
  {
    OptionsAreValid();
    var low := map["level" := NPrim(PStr("low"))];
    var v := Validate(TObj(map["level" := STR]), NDict(low));
    assert Entry(low, "level") == NPrim(PStr("low"));
    assert Validate(STR, NPrim(PStr("low"))).Some?;
    assert map["level" := STR]["level"] == STR && low.Keys <= map["level" := STR].Keys;
    assert v.Some? && v.value.body.Fields?;
    assert OPTIONS.attributes[0] == LEVEL && !LEVEL.requiresReplace;
    assert !ReplaceInside(OPTS);
    DeclaredIsValid(OPTS);
    assert WFNative(OPTS.default.value);
  }

  // Terraform's proposal, as the resource's plan starts from it.
  lemma {:induction false} RulesArePlanned()
    ensures Preserve(FIRST) == PlannedFirst("high") && Preserve(PRIOR) == PLANNED_SECOND
  {
    PendingIsHollow();
    LevelNative("high");
    LevelNative("old");
    RulePlanned(HOLLOW, PENDING, Opts("high"));
    RulePlanned(PENDING, Value(STRS, Null, {}), Opts("old"));
  }

  lemma {:induction false} RulePlanned(notes: Value, hosts: Value, opts: Value)
    ensures Preserve(Rule(notes, hosts, opts)) ==
      NDict(map["notes" := Preserve(notes), "hosts" := Preserve(hosts), "opts" := Preserve(opts)])
  {
    RuleMembers(notes, hosts, opts);
    PreservedMembers(Rule(notes, hosts, opts));
    assert Preserve(Rule(notes, hosts, opts)).entries ==
      map["notes" := Preserve(notes), "hosts" := Preserve(hosts), "opts" := Preserve(opts)];
  }

  // Which attributes of a rule are compared, and how.
  lemma {:induction false} RulesMatch(p: Native, notes: Value, hosts: Value, opts: Value)
    requires p.NDict?
    ensures SetElementsMatch(p, Rule(notes, hosts, opts), RULE) <==>
      (Resolvable(Some(notes)) ==> Entry(p.entries, "notes") == ToNative(notes)) &&
      (Resolvable(Some(hosts)) ==> Entry(p.entries, "hosts") == ToNative(hosts))
  {
    RuleMembers(notes, hosts, opts);
    var c := Rule(notes, hosts, opts);
    assert RULE.attributes[0] == NOTES && RULE.attributes[1] == HOSTS && RULE.attributes[2] == OPTS;
    assert |RULE.attributes| == 3;
    assert MemberMatches(Entry(p.entries, "opts"), Get(c.body.fields, "opts"), OPTS);
  }

  lemma {:induction false} OnlyFirstMatchesSecond()
    ensures !SetElementsMatch(PlannedFirst("high"), FIRST, RULE) && SetElementsMatch(PlannedFirst("high"), SECOND, RULE)
    ensures !SetElementsMatch(PLANNED_SECOND, FIRST, RULE) && !SetElementsMatch(PLANNED_SECOND, SECOND, RULE)
  {
    PendingIsHollow();
    assert NCty(UNKNOWN) != NNone;
    assert [NCty(UNKNOWN)][0] != [NNone][0];
    RulesMatch(PlannedFirst("high"), HOLLOW, PENDING, Opts("high"));
    RulesMatch(PlannedFirst("high"), PENDING, Value(STRS, Null, {}), Opts("low"));
    RulesMatch(PLANNED_SECOND, HOLLOW, PENDING, Opts("high"));
    RulesMatch(PLANNED_SECOND, PENDING, Value(STRS, Null, {}), Opts("low"));
  }

  lemma {:induction false} RuleIndex(k: string)
    ensures AttrIndex(RULE.attributes, k) ==
      if k == "opts" then 2 else if k == "hosts" then 1 else if k == "notes" then 0 else -1
  {
    var i := AttrIndex(RULE.attributes, k);
    assert |RULE.attributes| == 3;
    assert RULE.attributes[0].name == "notes" && RULE.attributes[1].name == "hosts" &&
      RULE.attributes[2].name == "opts";
    assert "notes"[0] != "hosts"[0] && "notes"[0] != "opts"[0] && "hosts"[0] != "opts"[0];
  }

  // The first rule is given the level of the second rule's configuration.
  lemma {:induction false} FirstTakesSecond()
    ensures MergeBlock(PlannedFirst("high"), Some(SECOND), RULE) == PlannedFirst("low")
  {
    LevelNative("low");
    RuleMembers(PENDING, Value(STRS, Null, {}), Opts("low"));
    var m := MergeBlock(PlannedFirst("high"), Some(SECOND), RULE).entries;
    forall k ensures Find(m, k) == Find(PlannedFirst("low").entries, k) {
      MergedEntries(PlannedFirst("high"), Some(SECOND), RULE, k);
      RuleIndex(k);
    }
    DefaultsMerge.SameEntries(m, PlannedFirst("low").entries);
  }

  // Merging gives the first rule the other's level, low for high, and leaves the second rule its old one,
  // for which the configuration has low.
  lemma {:induction false} RulesGoAstray(cfg: Value)
    requires cfg.body == Elems([FIRST, SECOND])
    ensures ValidBlock(RULE)
    ensures MergeNested(NList([Preserve(FIRST), Preserve(PRIOR)]), Some(cfg), RULES) ==
      NList([PlannedFirst("low"), PLANNED_SECOND])
  {
    RuleIsValid();
    RulesArePlanned();
    FirstTakesSecond();
    var ps := [PlannedFirst("high"), PLANNED_SECOND];
    RulesPair(ps, [FIRST, SECOND]);
    TwoMerged(ps, cfg, RULES, PlannedFirst("low"), PLANNED_SECOND);
  }

  lemma {:induction false} TwoMerged(ps: seq<Native>, cfg: Value, n: NestedBlock, x: Native, y: Native)
    requires n.nesting.SET? && |ps| == 2 && cfg.body.Elems?
    requires x == MergeBlock(ps[0], Partner(ps, cfg.body.elems, n.block, 0), n.block)
    requires y == MergeBlock(ps[1], Partner(ps, cfg.body.elems, n.block, 1), n.block)
    ensures MergeNested(NList(ps), Some(cfg), n) == NList([x, y])
  {
    assert MergeNested(NList(ps), Some(cfg), n).items == [x, y];
  }

  lemma {:induction false} RulesPair(ps: seq<Native>, cs: seq<Value>)
    requires ps == [PlannedFirst("high"), PLANNED_SECOND] && cs == [FIRST, SECOND]
    ensures Partner(ps, cs, RULE, 0) == Some(SECOND) && Partner(ps, cs, RULE, 1) == None
  {
    OnlyFirstMatchesSecond();
    assert ps[0] == PlannedFirst("high") && ps[1] == PLANNED_SECOND && cs[0] == FIRST && cs[1] == SECOND;
    assert !SetElementsMatch(ps[0], cs[0], RULE) && SetElementsMatch(ps[0], cs[1], RULE);
    assert !SetElementsMatch(ps[1], cs[0], RULE) && !SetElementsMatch(ps[1], cs[1], RULE);
    assert Paired(ps, cs, RULE, 0, 1);
  }

  // ------------------------------------------------------------------ two peers with nothing unknown

  const LOW := NPrim(PStr("low"))
  const NAME := Optional("name", STR)
  const GRADE := Defaulted("level", STR, LOW, None)
  const PEER := Block([NAME, GRADE], [])
  const PEERS := NestedBlock("peer", PEER, SET)
  const NOTHING := Value(STR, Null, {})

  function Peer(name: Value, level: Value): Value {
    Value(BlockType(PEER), Fields(map["name" := name, "level" := level]), {})
  }

  // One peer has a name and the other has none; both leave level out, so that it is low.
  const NAMED := Peer(Text("a"), NOTHING)
  const NAMELESS := Peer(NOTHING, NOTHING)
  const NAMED_LOW := Peer(Text("a"), Text("low"))
  const NAMELESS_LOW := Peer(NOTHING, Text("low"))

  lemma {:induction false} PeerIsValid()
    ensures ValidBlock(PEER)
  {
    DeclaredIsValid(NAME);
    assert Validate(STR, LOW) == Some(Text("low"));
    DeclaredIsValid(GRADE);
    assert PEER.attributes[0] == NAME && PEER.attributes[1] == GRADE;
    assert |PEER.attributes| == 2 && |PEER.blockTypes| == 0;
    assert NAME.name[0] == 'n' && GRADE.name[0] == 'l';
  }

  lemma {:induction false} PeerMembers(name: Value, level: Value)
    ensures Peer(name, level).body.Fields? && Peer(name, level).body.fields.Keys == {"name", "level"}
    ensures Get(Peer(name, level).body.fields, "name") == Some(name)
    ensures Get(Peer(name, level).body.fields, "level") == Some(level)
    ensures WhollyKnown(Peer(name, level)) <==> WhollyKnown(name) && WhollyKnown(level)
  {
    assert "name"[0] != "level"[0];
    var fs := Peer(name, level).body.fields;
    assert fs["name"] == name && fs["level"] == level;
    assert fs.Keys == {"name", "level"};
  }

  lemma {:induction false} PeersCompatible(name: Value, level: Value, name': Value, level': Value)
    ensures Compatible(Peer(name, level), Peer(name', level'), PEER) <==>
      (Resolvable(Some(name')) ==> Carried(name, name')) &&
      (Resolvable(Some(level')) ==> InPlace(Some(level), level', LOW))
    ensures FromConfiguration(Peer(name, level), Peer(name', level'), PEER) <==> Unmark(name) == Unmark(name')
    ensures HidesUnknownMember(Peer(name, level), PEER) <==> Resolvable(Some(name)) && !WhollyKnown(name)
  {
    PeerMembers(name, level);
    PeerMembers(name', level');
    assert PEER.attributes[0] == NAME && PEER.attributes[1] == GRADE && |PEER.attributes| == 2;
    assert CompatibleAt(Some(name), Some(name'), NAME) <==> (Resolvable(Some(name')) ==> Carried(name, name'));
    assert HidesUnknown(Some(name), PEER.attributes[0]) <==> Resolvable(Some(name)) && !WhollyKnown(name);
  }

  // The peer with a name could be either.
  lemma {:induction false} NamedIsEither()
    ensures Compatible(NAMED, NAMED_LOW, PEER) && Compatible(NAMED, NAMELESS_LOW, PEER)
    ensures FromConfiguration(NAMED, NAMED_LOW, PEER)
  {
    PeersCompatible(Text("a"), NOTHING, Text("a"), Text("low"));
    PeersCompatible(Text("a"), NOTHING, NOTHING, Text("low"));
  }

  // The other could only be itself.
  lemma {:induction false} NamelessIsItself()
    ensures !Compatible(NAMELESS, NAMED_LOW, PEER) && Compatible(NAMELESS, NAMELESS_LOW, PEER)
    ensures FromConfiguration(NAMELESS, NAMELESS_LOW, PEER)
  {
    PeersCompatible(NOTHING, NOTHING, Text("a"), Text("low"));
    PeersCompatible(NOTHING, NOTHING, NOTHING, Text("low"));
  }

  lemma {:induction false} PeersAreKnown()
    ensures WhollyKnown(NAMED_LOW) && WhollyKnown(NAMELESS_LOW)
    ensures !HidesUnknownMember(NAMED_LOW, PEER) && !HidesUnknownMember(NAMELESS_LOW, PEER)
  {
    PeersCompatible(Text("a"), Text("low"), NOTHING, NOTHING);
    PeersCompatible(NOTHING, Text("low"), NOTHING, NOTHING);
    PeerMembers(Text("a"), Text("low"));
    PeerMembers(NOTHING, Text("low"));
  }

  lemma {:induction false} LevelsDiffer()
    ensures Unmark(NAMED) != Unmark(NAMED_LOW)
  {
    PeerMembers(Text("a"), NOTHING);
    PeerMembers(Text("a"), Text("low"));
    UnmarkedFields(NAMED);
    UnmarkedFields(NAMED_LOW);
    assert Unmark(NAMED).body.fields["level"] == NOTHING != Text("low") == Unmark(NAMED_LOW).body.fields["level"];
  }

  // The first of two elements could be either, the second only itself: no match is unique, so that neither
  // is merged with anything.
  ghost predicate Ambiguous(vs: seq<Value>, cs: seq<Value>, b: Block) {
    |vs| == 2 && AllFromConfiguration(vs, cs, b) && Compatible(vs[0], cs[0], b) && Compatible(vs[0], cs[1], b) &&
    !Compatible(vs[1], cs[0], b) && Compatible(vs[1], cs[1], b)
  }

  lemma {:induction false} AmbiguousAreUnpaired(vs: seq<Value>, cfg: Value, n: NestedBlock)
    requires n.nesting.SET? && cfg.body.Elems? && Ambiguous(vs, cfg.body.elems, n.block)
    ensures !FindsItsOwn(vs, cfg.body.elems, n.block, 0) && !FindsItsOwn(vs, cfg.body.elems, n.block, 1)
    ensures MergeNested(NList(PreservedItems(vs)), Some(cfg), n) == NList(PreservedItems(vs))
    ensures Governing(vs, cfg.body.elems, n, 0) == None
  {
    var ps, cs := PreservedItems(vs), cfg.body.elems;
    CompatibleWhenFits(vs[0], cs[0], cs[1], n.block);
    forall i, j ensures !Isolated(vs, cs, n.block, i, j) {}
    forall i | 0 <= i < |ps| ensures MergeBlock(ps[i], Origin(ps, cs, n, i), n.block) == ps[i] {
      OriginGoverns(vs, cs, n, i);
    }
    assert MergeNested(NList(ps), Some(cfg), n).items == ps;
  }

  lemma {:induction false} PeersAreAmbiguous(vs: seq<Value>, cs: seq<Value>)
    requires vs == [NAMED, NAMELESS] && cs == [NAMED_LOW, NAMELESS_LOW]
    ensures Ambiguous(vs, cs, PEER)
  {
    NamedIsEither();
    NamelessIsItself();
    assert vs[0] == NAMED && vs[1] == NAMELESS && cs[0] == NAMED_LOW && cs[1] == NAMELESS_LOW;
  }

  // Nothing is unknown anywhere, and yet both peers keep a null level where the configuration has low.
  lemma {:induction false} KnownPeersGoAstray(proposed: Value, cfg: Value)
    requires proposed.body == Elems([NAMED, NAMELESS]) && cfg.body == Elems([NAMED_LOW, NAMELESS_LOW])
    ensures ValidBlock(PEER) && AllFromConfiguration(proposed.body.elems, cfg.body.elems, PEER)
    ensures WhollyKnown(cfg) && !HidesUnknownMember(NAMED_LOW, PEER) && !HidesUnknownMember(NAMELESS_LOW, PEER)
    ensures forall i :: 0 <= i < 2 ==> !FindsItsOwn(proposed.body.elems, cfg.body.elems, PEER, i)
    ensures MergeNested(NList([Preserve(NAMED), Preserve(NAMELESS)]), Some(cfg), PEERS) ==
      NList([Preserve(NAMED), Preserve(NAMELESS)])
    ensures !GivesNested(proposed, Some(cfg), cfg, PEERS)
  {
    PeerIsValid();
    PeersAreKnown();
    PeersAreAmbiguous(proposed.body.elems, cfg.body.elems);
    TwoKnown(NAMED_LOW, NAMELESS_LOW, cfg);
    LevelsDiffer();
    TwoUnmerged(NAMED, NAMELESS, proposed, cfg, PEERS);
  }

  lemma {:induction false} TwoKnown(x: Value, y: Value, c: Value)
    requires c.body == Elems([x, y]) && WhollyKnown(x) && WhollyKnown(y)
    ensures WhollyKnown(c)
  {
  }

  lemma {:induction false} TwoUnmerged(x: Value, y: Value, v: Value, c: Value, n: NestedBlock)
    requires n.nesting.SET? && v.body == Elems([x, y]) && c.body.Elems? && Ambiguous([x, y], c.body.elems, n.block)
    requires Unmark(x) != Unmark(c.body.elems[0])
    ensures forall i :: 0 <= i < 2 ==> !FindsItsOwn(v.body.elems, c.body.elems, n.block, i)
    ensures MergeNested(NList([Preserve(x), Preserve(y)]), Some(c), n) == NList([Preserve(x), Preserve(y)])
    ensures !GivesNested(v, Some(c), c, n)
  {
    AmbiguousAreUnpaired([x, y], c, n);
    assert PreservedItems([x, y]) == [Preserve(x), Preserve(y)];
    assert !Gives(v.body.elems[0], None, c.body.elems[0], n.block);
  }
}
