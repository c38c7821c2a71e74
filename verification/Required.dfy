// src/pyvider/schema/required.py:40-131: no required attribute may be present and null.
module Required {
  import opened Options
  import opened CtyValues
  import opened Schema

  datatype Step = Child(name: string) | AtIndex(i: nat) | AtKey(key: string)

  type Path = seq<Step>

  // The order in which a mapping with these keys is iterated.
  type KeyOrder = set<string> -> seq<string>

  ghost predicate Enumerates(order: KeyOrder) {
    forall keys: set<string> :: SameKeys(order, keys)
  }

  ghost predicate SameKeys(order: KeyOrder, keys: set<string>) {
    forall k :: k in keys <==> k in order(keys)
  }

  // _is_null and _payload: plain Python and cty values both reach the walk.
  predicate Null(n: Native) {
    n.NNone? || (n.NCty? && n.v.body.Null?)
  }

  function Mapping(n: Native): Option<map<string, Native>> {
    match n
    case NDict(m) => Some(m)
    case NCty(v) => if v.body.Fields? then Some(map k | k in v.body.fields :: NCty(v.body.fields[k])) else None
    case _ => None
  }

  function Sequence(n: Native): seq<Native> {
    match n
    case NList(items) => items
    case NTuple(items) => items
    case NCty(v) => if v.body.Elems? then
      seq(|v.body.elems|, i requires 0 <= i < |v.body.elems| => NCty(v.body.elems[i])) else []
    case _ => []
  }

  // The elements of a block's value, in the order they are visited. A single block is its own element.
  function Elements(n: NestedBlock, v: Native, order: KeyOrder): seq<Native> {
    match n.nesting
    case LIST => Sequence(v)
    case SET => Sequence(v)
    case MAP =>
      if Mapping(v).None? then []
      else
        var m := Mapping(v).value;
        var keys := order(m.Keys);
        seq(|keys|, i requires 0 <= i < |keys| => if keys[i] in m then m[keys[i]] else NNone)
    case _ => [v]
  }

  // The step that names an element: a set element has none.
  function ElementPath(n: NestedBlock, v: Native, i: nat, order: KeyOrder): Path {
    match n.nesting
    case LIST => [AtIndex(i)]
    case MAP =>
      if Mapping(v).Some? && i < |order(Mapping(v).value.Keys)| then [AtKey(order(Mapping(v).value.Keys)[i])] else []
    case _ => []
  }

  // ------------------------------------------------------------------ the walk

  datatype Mode = Mode(isState: bool, order: KeyOrder)

  function Count(b: Block): nat {
    |b.attributes| + |b.blockTypes|
  }

  function MemberName(b: Block, x: nat): string
    requires x < Count(b)
  {
    if x < |b.attributes| then b.attributes[x].name else b.blockTypes[x - |b.attributes|].typeName
  }

  predicate MustBeSet(a: Attribute, mode: Mode) {
    a.required && !(mode.isState && a.writeOnly)
  }

  // check_required_attributes: the path of the error raised, None when nothing is.
  function CheckRequiredAttributes(b: Block, config: Native, path: Path, mode: Mode): Option<Path>
    decreases b, 2
  {
    if Mapping(config).None? then None else WalkFrom(b, Mapping(config).value, 0, path, mode)
  }

  // The attributes, then the blocks, from the x-th on.
  function WalkFrom(b: Block, m: map<string, Native>, x: nat, path: Path, mode: Mode): Option<Path>
    decreases b, 1, Count(b) - x
  {
    if x >= Count(b) then None
    else
      var here := WalkMember(b, m, x, path, mode);
      if here.Some? then here else WalkFrom(b, m, x + 1, path, mode)
  }

  function WalkMember(b: Block, m: map<string, Native>, x: nat, path: Path, mode: Mode): Option<Path>
    requires x < Count(b)
    decreases b, 0
  {
    var name := MemberName(b, x);
    if name !in m then None
    else if x < |b.attributes| then WalkAttribute(b.attributes[x], m[name], path + [Child(name)], mode)
    else WalkBlock(b.blockTypes[x - |b.attributes|], m[name], path + [Child(name)], mode)
  }

  // _check_attribute
  function WalkAttribute(a: Attribute, v: Native, path: Path, mode: Mode): Option<Path>
    decreases a
  {
    if MustBeSet(a, mode) && Null(v) then Some(path)
    else if a.objectType.Some? && !Null(v) then CheckRequiredAttributes(a.objectType.value, v, path, mode)
    else None
  }

  // _check_block
  function WalkBlock(n: NestedBlock, v: Native, path: Path, mode: Mode): Option<Path>
    decreases n, 1
  {
    if Null(v) then None
    else
      match n.nesting
      case LIST => WalkIndexed(n, Sequence(v), 0, path, mode)
      case MAP =>
        if Mapping(v).None? then None
        else WalkKeyed(n, Mapping(v).value, mode.order(Mapping(v).value.Keys), 0, path, mode)
      case SET => WalkSet(n, Sequence(v), 0, path, mode)
      case _ => CheckRequiredAttributes(n.block, v, path, mode)
  }

  // _check_indexed
  function WalkIndexed(n: NestedBlock, items: seq<Native>, i: nat, path: Path, mode: Mode): Option<Path>
    decreases n, 0, |items| - i
  {
    if i >= |items| then None
    else
      var here := CheckRequiredAttributes(n.block, items[i], path + [AtIndex(i)], mode);
      if here.Some? then here else WalkIndexed(n, items, i + 1, path, mode)
  }

  // _check_keyed
  function WalkKeyed(n: NestedBlock, m: map<string, Native>, keys: seq<string>, i: nat, path: Path,
    mode: Mode): Option<Path>
    decreases n, 0, |keys| - i
  {
    if i >= |keys| then None
    else
      var here := CheckRequiredAttributes(n.block, Entry(m, keys[i]), path + [AtKey(keys[i])], mode);
      if here.Some? then here else WalkKeyed(n, m, keys, i + 1, path, mode)
  }

  // A set element has no step of its own.
  function WalkSet(n: NestedBlock, items: seq<Native>, i: nat, path: Path, mode: Mode): Option<Path>
    decreases n, 0, |items| - i
  {
    if i >= |items| then None
    else
      var here := CheckRequiredAttributes(n.block, items[i], path, mode);
      if here.Some? then here else WalkSet(n, items, i + 1, path, mode)
  }

  // ------------------------------------------------------------------ positions

  // A position is the list of choices on the way down: which member of a block in declaration order,
  // attributes before blocks, then which element of that block.
  type Position = seq<nat>

  // The position of the first null found.
  function Check(b: Block, n: Native, mode: Mode): Option<Position>
    decreases b, 2
  {
    if Mapping(n).None? then None else CheckFrom(b, Mapping(n).value, 0, mode)
  }

  function CheckFrom(b: Block, m: map<string, Native>, x: nat, mode: Mode): Option<Position>
    decreases b, 1, Count(b) - x
  {
    if x >= Count(b) then None
    else
      var here := CheckMember(b, m, x, mode);
      if here.Some? then Some([x] + here.value) else CheckFrom(b, m, x + 1, mode)
  }

  function CheckMember(b: Block, m: map<string, Native>, x: nat, mode: Mode): Option<Position>
    requires x < Count(b)
    decreases b, 0
  {
    if MemberName(b, x) !in m then None
    else if x < |b.attributes| then CheckAttribute(b.attributes[x], m[MemberName(b, x)], mode)
    else CheckBlock(b.blockTypes[x - |b.attributes|], m[MemberName(b, x)], mode)
  }

  function CheckAttribute(a: Attribute, v: Native, mode: Mode): Option<Position>
    decreases a
  {
    if MustBeSet(a, mode) && Null(v) then Some([])
    else if a.objectType.Some? && !Null(v) then Check(a.objectType.value, v, mode)
    else None
  }

  function CheckBlock(n: NestedBlock, v: Native, mode: Mode): Option<Position>
    decreases n, 1
  {
    if Null(v) then None else CheckElements(n, Elements(n, v, mode.order), 0, mode)
  }

  function CheckElements(n: NestedBlock, items: seq<Native>, i: nat, mode: Mode): Option<Position>
    decreases n, 0, |items| - i
  {
    if i >= |items| then None
    else
      var here := Check(n.block, items[i], mode);
      if here.Some? then Some([i] + here.value) else CheckElements(n, items, i + 1, mode)
  }

  // Names for a position's choices.
  function PathOf(b: Block, n: Native, pos: Position, mode: Mode): Path
    decreases b, 1
  {
    if pos == [] || pos[0] >= Count(b) || Mapping(n).None? then []
    else PathOfMember(b, Mapping(n).value, pos[0], pos[1..], mode)
  }

  function PathOfMember(b: Block, m: map<string, Native>, x: nat, pos: Position, mode: Mode): Path
    requires x < Count(b)
    decreases b, 0
  {
    var name := MemberName(b, x);
    [Child(name)] +
    if name !in m then []
    else if x < |b.attributes| then PathInAttribute(b.attributes[x], m[name], pos, mode)
    else PathOfElement(b.blockTypes[x - |b.attributes|], m[name], pos, mode)
  }

  function PathInAttribute(a: Attribute, v: Native, pos: Position, mode: Mode): Path
    decreases a
  {
    if a.objectType.Some? then PathOf(a.objectType.value, v, pos, mode) else []
  }

  function PathOfElement(n: NestedBlock, v: Native, pos: Position, mode: Mode): Path
    decreases n
  {
    var items := Elements(n, v, mode.order);
    if pos == [] || pos[0] >= |items| then []
    else ElementPath(n, v, pos[0], mode.order) + PathOf(n.block, items[pos[0]], pos[1..], mode)
  }

  // ------------------------------------------------------------------ the walk reports the first position's path

  lemma {:induction false} WalkReports(b: Block, n: Native, path: Path, mode: Mode)
    ensures CheckRequiredAttributes(b, n, path, mode) ==
      if Check(b, n, mode).None? then None else Some(path + PathOf(b, n, Check(b, n, mode).value, mode))
    decreases b, 2
  {
    if Mapping(n).Some? { MembersReport(b, Mapping(n).value, 0, path, mode); }
  }

  lemma {:induction false} MembersReport(b: Block, m: map<string, Native>, x: nat, path: Path, mode: Mode)
    ensures WalkFrom(b, m, x, path, mode) ==
      (var found := CheckFrom(b, m, x, mode);
       if found.None? then None
       else if found.value == [] || found.value[0] >= Count(b) then Some(path)
       else Some(path + PathOfMember(b, m, found.value[0], found.value[1..], mode)))
    ensures CheckFrom(b, m, x, mode).Some? ==>
      CheckFrom(b, m, x, mode).value != [] && CheckFrom(b, m, x, mode).value[0] < Count(b)
    decreases b, 1, Count(b) - x
  {
    if x < Count(b) {
      MemberReports(b, m, x, path, mode);
      MembersReport(b, m, x + 1, path, mode);
      var here, found := CheckMember(b, m, x, mode), CheckFrom(b, m, x, mode);
      if here.Some? { assert found.value[0] == x && found.value[1..] == here.value; }
    }
  }

  lemma {:induction false} MemberReports(b: Block, m: map<string, Native>, x: nat, path: Path, mode: Mode)
    requires x < Count(b)
    ensures WalkMember(b, m, x, path, mode) ==
      if CheckMember(b, m, x, mode).None? then None
      else Some(path + PathOfMember(b, m, x, CheckMember(b, m, x, mode).value, mode))
    decreases b, 0
  {
    var name := MemberName(b, x);
    if name in m {
      if x < |b.attributes| {
        var a := b.attributes[x];
        AttributeReports(a, m[name], path + [Child(name)], mode);
        var found := CheckAttribute(a, m[name], mode);
        if found.Some? { Joined(path, Child(name), PathInAttribute(a, m[name], found.value, mode)); }
      } else {
        var n := b.blockTypes[x - |b.attributes|];
        BlockReports(n, m[name], path + [Child(name)], mode);
        var found := CheckBlock(n, m[name], mode);
        if found.Some? { Joined(path, Child(name), PathOfElement(n, m[name], found.value, mode)); }
      }
    }
  }

  lemma {:induction false} AttributeReports(a: Attribute, v: Native, path: Path, mode: Mode)
    ensures WalkAttribute(a, v, path, mode) ==
      if CheckAttribute(a, v, mode).None? then None
      else Some(path + PathInAttribute(a, v, CheckAttribute(a, v, mode).value, mode))
    decreases a
  {
    if MustBeSet(a, mode) && Null(v) {
      assert PathInAttribute(a, v, [], mode) == [] && path + [] == path;
    } else if a.objectType.Some? {
      WalkReports(a.objectType.value, v, path, mode);
    }
  }

  lemma {:induction false} BlockReports(n: NestedBlock, v: Native, path: Path, mode: Mode)
    ensures WalkBlock(n, v, path, mode) ==
      if CheckBlock(n, v, mode).None? then None
        else Some(path + PathOfElement(n, v, CheckBlock(n, v, mode).value, mode))
    decreases n, 1
  {
    if !Null(v) {
      var items := Elements(n, v, mode.order);
      match n.nesting
      case LIST => IndexedReport(n, v, 0, path, mode);
      case MAP => if Mapping(v).Some? { KeyedReport(n, v, 0, path, mode); }
      case SET => SetReports(n, v, 0, path, mode);
      case _ =>
        WalkReports(n.block, v, path, mode);
        assert items == [v] && items[0] == v;
        var here := Check(n.block, v, mode);
        assert CheckElements(n, items, 1, mode).None?;
        if here.Some? {
          assert ([0] + here.value)[1..] == here.value;
          assert ElementPath(n, v, 0, mode.order) + PathOf(n.block, v, here.value, mode) ==
            PathOf(n.block, v, here.value, mode);
        }
    }
  }

  lemma {:induction false} IndexedReport(n: NestedBlock, v: Native, i: nat, path: Path, mode: Mode)
    requires n.nesting.LIST?
    ensures var found := CheckElements(n, Sequence(v), i, mode);
      WalkIndexed(n, Sequence(v), i, path, mode) ==
        if found.None? then None else Some(path + PathOfElement(n, v, found.value, mode))
    decreases n, 0, |Sequence(v)| - i
  {
    var items := Sequence(v);
    if i < |items| {
      WalkReports(n.block, items[i], path + [AtIndex(i)], mode);
      IndexedReport(n, v, i + 1, path, mode);
      var here := Check(n.block, items[i], mode);
      if here.Some? {
        assert ([i] + here.value)[0] == i && ([i] + here.value)[1..] == here.value;
        Joined(path, AtIndex(i), PathOf(n.block, items[i], here.value, mode));
      }
    }
  }

  lemma {:induction false} KeyedReport(n: NestedBlock, v: Native, i: nat, path: Path, mode: Mode)
    requires n.nesting.MAP? && Mapping(v).Some?
    ensures var m := Mapping(v).value;
      var found := CheckElements(n, Elements(n, v, mode.order), i, mode);
      WalkKeyed(n, m, mode.order(m.Keys), i, path, mode) ==
        if found.None? then None else Some(path + PathOfElement(n, v, found.value, mode))
    decreases n, 0, |mode.order(Mapping(v).value.Keys)| - i
  {
    var m, items := Mapping(v).value, Elements(n, v, mode.order);
    var keys := mode.order(m.Keys);
    if i < |keys| {
      WalkReports(n.block, items[i], path + [AtKey(keys[i])], mode);
      KeyedReport(n, v, i + 1, path, mode);
      var here := Check(n.block, items[i], mode);
      if here.Some? {
        assert ([i] + here.value)[0] == i && ([i] + here.value)[1..] == here.value;
        Joined(path, AtKey(keys[i]), PathOf(n.block, items[i], here.value, mode));
      }
    }
  }

  lemma {:induction false} SetReports(n: NestedBlock, v: Native, i: nat, path: Path, mode: Mode)
    requires n.nesting.SET?
    ensures var found := CheckElements(n, Sequence(v), i, mode);
      WalkSet(n, Sequence(v), i, path, mode) ==
        if found.None? then None else Some(path + PathOfElement(n, v, found.value, mode))
    decreases n, 0, |Sequence(v)| - i
  {
    var items := Sequence(v);
    if i < |items| {
      WalkReports(n.block, items[i], path, mode);
      SetReports(n, v, i + 1, path, mode);
      var here := Check(n.block, items[i], mode);
      if here.Some? {
        assert ([i] + here.value)[0] == i && ([i] + here.value)[1..] == here.value;
        var rest := PathOf(n.block, items[i], here.value, mode);
        assert ElementPath(n, v, i, mode.order) + rest == rest;
      }
    }
  }

  lemma Joined(path: Path, step: Step, rest: Path)
    ensures (path + [step]) + rest == path + ([step] + rest)
  {
  }

  // ------------------------------------------------------------------ the rule

  // At this position a required attribute is present and null.
  ghost predicate Broken(b: Block, n: Native, pos: Position, mode: Mode)
    decreases b, 1
  {
    Mapping(n).Some? && pos != [] && pos[0] < Count(b) && BrokenMember(b, Mapping(n).value, pos[0], pos[1..], mode)
  }

  ghost predicate BrokenMember(b: Block, m: map<string, Native>, x: nat, pos: Position, mode: Mode)
    requires x < Count(b)
    decreases b, 0
  {
    MemberName(b, x) in m &&
    if x < |b.attributes| then BrokenAttribute(b.attributes[x], m[MemberName(b, x)], pos, mode)
    else BrokenBlock(b.blockTypes[x - |b.attributes|], m[MemberName(b, x)], pos, mode)
  }

  ghost predicate BrokenAttribute(a: Attribute, v: Native, pos: Position, mode: Mode)
    decreases a
  {
    if Null(v) then MustBeSet(a, mode) && pos == []
    else a.objectType.Some? && Broken(a.objectType.value, v, pos, mode)
  }

  ghost predicate BrokenBlock(n: NestedBlock, v: Native, pos: Position, mode: Mode)
    decreases n
  {
    var items := Elements(n, v, mode.order);
    !Null(v) && pos != [] && pos[0] < |items| && Broken(n.block, items[pos[0]], pos[1..], mode)
  }

  // No later in declaration order.
  predicate NotAfter(p: Position, q: Position) {
    p == [] || (q != [] && (p[0] < q[0] || (p[0] == q[0] && NotAfter(p[1..], q[1..]))))
  }

  lemma {:induction false} BlockFirst(b: Block, n: Native, mode: Mode)
    ensures Check(b, n, mode).Some? ==> Broken(b, n, Check(b, n, mode).value, mode)
    ensures forall q :: Broken(b, n, q, mode) ==> Check(b, n, mode).Some? && NotAfter(Check(b, n, mode).value, q)
    decreases b, 2
  {
    if Mapping(n).Some? {
      MembersFirst(b, Mapping(n).value, 0, mode);
    }
  }

  lemma {:induction false} MembersFirst(b: Block, m: map<string, Native>, x: nat, mode: Mode)
    ensures var r := CheckFrom(b, m, x, mode);
      r.Some? ==> r.value != [] && x <= r.value[0] < Count(b) && BrokenMember(b, m, r.value[0], r.value[1..], mode)
    ensures forall q: Position :: q != [] && x <= q[0] < Count(b) && BrokenMember(b, m, q[0], q[1..], mode) ==>
      CheckFrom(b, m, x, mode).Some? && NotAfter(CheckFrom(b, m, x, mode).value, q)
    decreases b, 1, Count(b) - x
  {
    if x < Count(b) {
      MemberFirst(b, m, x, mode);
      MembersFirst(b, m, x + 1, mode);
      var here, r := CheckMember(b, m, x, mode), CheckFrom(b, m, x, mode);
      if here.Some? { assert r.value[1..] == here.value; }
      forall q: Position | q != [] && x <= q[0] < Count(b) && BrokenMember(b, m, q[0], q[1..], mode)
        ensures r.Some? && NotAfter(r.value, q)
      {
        assert q[0] == x ==> here.Some? && NotAfter(here.value, q[1..]);
      }
    }
  }

  lemma {:induction false} MemberFirst(b: Block, m: map<string, Native>, x: nat, mode: Mode)
    requires x < Count(b)
    ensures CheckMember(b, m, x, mode).Some? ==> BrokenMember(b, m, x, CheckMember(b, m, x, mode).value, mode)
    ensures forall q :: BrokenMember(b, m, x, q, mode) ==>
      CheckMember(b, m, x, mode).Some? && NotAfter(CheckMember(b, m, x, mode).value, q)
    decreases b, 0
  {
    if MemberName(b, x) in m {
      if x < |b.attributes| {
        AttributeFirst(b.attributes[x], m[MemberName(b, x)], mode);
      } else {
        var nested := b.blockTypes[x - |b.attributes|];
        ElementsFirst(nested, Elements(nested, m[MemberName(b, x)], mode.order), 0, mode);
      }
    }
  }

  lemma {:induction false} AttributeFirst(a: Attribute, v: Native, mode: Mode)
    ensures CheckAttribute(a, v, mode).Some? ==> BrokenAttribute(a, v, CheckAttribute(a, v, mode).value, mode)
    ensures forall q :: BrokenAttribute(a, v, q, mode) ==>
      CheckAttribute(a, v, mode).Some? && NotAfter(CheckAttribute(a, v, mode).value, q)
    decreases a
  {
    if a.objectType.Some? { BlockFirst(a.objectType.value, v, mode); }
  }

  lemma {:induction false} ElementsFirst(n: NestedBlock, items: seq<Native>, i: nat, mode: Mode)
    ensures var r := CheckElements(n, items, i, mode);
      r.Some? ==> r.value != [] && i <= r.value[0] < |items| && Broken(n.block, items[r.value[0]], r.value[1..], mode)
    ensures forall q: Position :: q != [] && i <= q[0] < |items| && Broken(n.block, items[q[0]], q[1..], mode) ==>
      CheckElements(n, items, i, mode).Some? && NotAfter(CheckElements(n, items, i, mode).value, q)
    decreases n, 0, |items| - i
  {
    if i < |items| {
      BlockFirst(n.block, items[i], mode);
      ElementsFirst(n, items, i + 1, mode);
      var here, r := Check(n.block, items[i], mode), CheckElements(n, items, i, mode);
      if here.Some? { assert r.value[1..] == here.value; }
      forall q: Position | q != [] && i <= q[0] < |items| && Broken(n.block, items[q[0]], q[1..], mode)
        ensures r.Some? && NotAfter(r.value, q)
      {
        assert q[0] == i ==> here.Some? && NotAfter(here.value, q[1..]);
      }
    }
  }

  // An error is raised exactly when some reachable required attribute is present and null, and it names
  // the first such attribute in declaration order.
  lemma RaisesForTheFirst(b: Block, config: Native, path: Path, mode: Mode)
    ensures CheckRequiredAttributes(b, config, path, mode).Some? <==>
      (exists pos: Position :: Broken(b, config, pos, mode))
    ensures CheckRequiredAttributes(b, config, path, mode).Some? ==>
      exists pos :: Broken(b, config, pos, mode) && NoneBefore(b, config, pos, mode) &&
                    CheckRequiredAttributes(b, config, path, mode).value == path + PathOf(b, config, pos, mode)
  {
    BlockFirst(b, config, mode);
    WalkReports(b, config, path, mode);
    var found := Check(b, config, mode);
    if found.Some? {
      assert NoneBefore(b, config, found.value, mode);
      assert exists q: Position :: Broken(b, config, q, mode);
    } else {
      forall pos: Position ensures !Broken(b, config, pos, mode) {}
    }
  }

  ghost predicate NoneBefore(b: Block, n: Native, pos: Position, mode: Mode) {
    forall q :: Broken(b, n, q, mode) ==> NotAfter(pos, q)
  }

  // There is one first position, so the error is determined.
  lemma {:induction false} NotAfterEither(p: Position, q: Position)
    requires NotAfter(p, q) && NotAfter(q, p)
    ensures p == q
    decreases |p|
  {
    if p != [] { NotAfterEither(p[1..], q[1..]); }
  }

  // As long as mappings are iterated in full, in whatever order, every entry of a map block is visited
  // and is named by its key.
  lemma EveryEntryIsVisited(n: NestedBlock, v: Native, k: string, order: KeyOrder)
    requires Enumerates(order) && n.nesting.MAP? && Mapping(v).Some? && k in Mapping(v).value
    ensures exists i :: 0 <= i < |Elements(n, v, order)| && ElementPath(n, v, i, order) == [AtKey(k)] &&
                        Elements(n, v, order)[i] == Mapping(v).value[k]
  {
    var keys := order(Mapping(v).value.Keys);
    assert SameKeys(order, Mapping(v).value.Keys);
    assert k in keys;
    var i :| 0 <= i < |keys| && keys[i] == k;
    assert ElementPath(n, v, i, order) == [AtKey(k)];
  }

  // ------------------------------------------------------------------ the rule without positions

  // Somewhere below, a required attribute is present and null.
  ghost predicate MissingRequired(b: Block, n: Native, isState: bool)
    decreases b, 2, 0
  {
    Mapping(n).Some? && MissingFrom(b, Mapping(n).value, 0, isState)
  }

  ghost predicate MissingFrom(b: Block, m: map<string, Native>, x: nat, isState: bool)
    decreases b, 1, 0
  {
    exists y: nat :: x <= y < Count(b) && MissingMember(b, m, y, isState)
  }

  lemma {:induction false} MissingHereOrLater(b: Block, m: map<string, Native>, x: nat, isState: bool)
    requires x < Count(b)
    ensures MissingFrom(b, m, x, isState) <==> MissingMember(b, m, x, isState) || MissingFrom(b, m, x + 1, isState)
  {
    if y: nat :| x + 1 <= y < Count(b) && MissingMember(b, m, y, isState) { assert x <= y; }
  }

  ghost predicate MissingMember(b: Block, m: map<string, Native>, x: nat, isState: bool)
    requires x < Count(b)
    decreases b, 0, 0
  {
    MemberName(b, x) in m &&
    if x < |b.attributes| then MissingInAttribute(b.attributes[x], m[MemberName(b, x)], isState)
    else MissingInBlock(b.blockTypes[x - |b.attributes|], m[MemberName(b, x)], isState)
  }

  ghost predicate MissingInAttribute(a: Attribute, v: Native, isState: bool)
    decreases a
  {
    if Null(v) then a.required && !(isState && a.writeOnly)
    else a.objectType.Some? && MissingRequired(a.objectType.value, v, isState)
  }

  ghost predicate MissingInBlock(n: NestedBlock, v: Native, isState: bool)
    decreases n
  {
    !Null(v) &&
    match n.nesting
    case MAP =>
      Mapping(v).Some? && exists k :: k in Mapping(v).value && MissingRequired(n.block, Mapping(v).value[k], isState)
    case LIST => exists i :: 0 <= i < |Sequence(v)| && MissingRequired(n.block, Sequence(v)[i], isState)
    case SET => exists i :: 0 <= i < |Sequence(v)| && MissingRequired(n.block, Sequence(v)[i], isState)
    case _ => MissingRequired(n.block, v, isState)
  }

  lemma {:induction false} FoundWhenMissing(b: Block, n: Native, mode: Mode)
    requires Enumerates(mode.order)
    ensures Check(b, n, mode).Some? <==> MissingRequired(b, n, mode.isState)
    decreases b, 2
  {
    if Mapping(n).Some? { FoundFrom(b, Mapping(n).value, 0, mode); }
  }

  lemma {:induction false} FoundFrom(b: Block, m: map<string, Native>, x: nat, mode: Mode)
    requires Enumerates(mode.order)
    ensures CheckFrom(b, m, x, mode).Some? <==> MissingFrom(b, m, x, mode.isState)
    decreases b, 1, Count(b) - x
  {
    if x < Count(b) {
      FoundFrom(b, m, x + 1, mode);
      MissingHereOrLater(b, m, x, mode.isState);
      if MemberName(b, x) in m {
        if x < |b.attributes| {
          FoundInAttribute(b.attributes[x], m[MemberName(b, x)], mode);
        } else {
          FoundInBlock(b.blockTypes[x - |b.attributes|], m[MemberName(b, x)], mode);
        }
      }
      assert CheckMember(b, m, x, mode).Some? <==> MissingMember(b, m, x, mode.isState);
    }
  }

  lemma {:induction false} FoundInAttribute(a: Attribute, v: Native, mode: Mode)
    requires Enumerates(mode.order)
    ensures CheckAttribute(a, v, mode).Some? <==> MissingInAttribute(a, v, mode.isState)
    decreases a
  {
    if a.objectType.Some? { FoundWhenMissing(a.objectType.value, v, mode); }
  }

  lemma {:induction false} FoundInBlock(n: NestedBlock, v: Native, mode: Mode)
    requires Enumerates(mode.order)
    ensures CheckBlock(n, v, mode).Some? <==> MissingInBlock(n, v, mode.isState)
    decreases n, 1
  {
    if !Null(v) {
      var items := Elements(n, v, mode.order);
      FoundAmong(n, items, 0, mode);
      match n.nesting
      case MAP => if Mapping(v).Some? { EntriesAreElements(n, v, mode); }
      case LIST =>
      case SET =>
      case _ => assert items == [v] && items[0] == v;
    }
  }

  lemma {:induction false} FoundAmong(n: NestedBlock, items: seq<Native>, i: nat, mode: Mode)
    requires Enumerates(mode.order)
    ensures CheckElements(n, items, i, mode).Some? <==>
      exists j :: i <= j < |items| && MissingRequired(n.block, items[j], mode.isState)
    decreases n, 0, |items| - i
  {
    if i < |items| {
      FoundWhenMissing(n.block, items[i], mode);
      FoundAmong(n, items, i + 1, mode);
    }
  }

  lemma {:induction false} EntriesAreElements(n: NestedBlock, v: Native, mode: Mode)
    requires Enumerates(mode.order) && n.nesting.MAP? && Mapping(v).Some?
    ensures var m, items := Mapping(v).value, Elements(n, v, mode.order);
      (exists k :: k in m && MissingRequired(n.block, m[k], mode.isState)) <==>
      exists j :: 0 <= j < |items| && MissingRequired(n.block, items[j], mode.isState)
  {
    var m, items := Mapping(v).value, Elements(n, v, mode.order);
    var keys := mode.order(m.Keys);
    assert SameKeys(mode.order, m.Keys);
    forall j | 0 <= j < |items| ensures keys[j] in m && items[j] == m[keys[j]] { assert keys[j] in keys; }
    if k :| k in m && MissingRequired(n.block, m[k], mode.isState) {
      assert k in keys;
      var j :| 0 <= j < |keys| && keys[j] == k;
      assert MissingRequired(n.block, items[j], mode.isState);
    }
  }

  // Whether an error is raised does not depend on the order mappings are iterated in.
  lemma {:induction false} VerdictIgnoresOrder(b: Block, n: Native, path: Path, mode: Mode)
    requires Enumerates(mode.order)
    ensures CheckRequiredAttributes(b, n, path, mode).Some? <==> MissingRequired(b, n, mode.isState)
  {
    WalkReports(b, n, path, mode);
    FoundWhenMissing(b, n, mode);
  }
}
