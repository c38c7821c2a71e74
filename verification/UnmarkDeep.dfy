// src/pyvider/conversion/marshaler.py:111-194: removing marks from a shared object graph without
// recursion. Objects are ids; the graph says what each holds; results are new objects.
module UnmarkDeep {
  type Id = nat

  datatype Kind = ListKind | TupleKind | SetKind | FrozenSetKind

  datatype Payload =
    | Scalar(v: int)
    | Dict(entries: seq<(string, Id)>)
    | Items(kind: Kind, items: seq<Id>)
    | Inner(node: Id)                    // a CtyValue directly inside a CtyValue

  // A CtyValue, with whatever of it is neither payload nor marks, or a raw Python object.
  datatype Node = Cty(header: int, payload: Payload, marks: set<string>) | Raw(payload: Payload)

  type Graph = map<Id, Node>

  function Seconds(entries: seq<(string, Id)>): seq<Id> {
    seq(|entries|, i requires 0 <= i < |entries| => entries[i].1)
  }

  // _children_to_unmark
  function Children(n: Node): seq<Id> {
    match n.payload
    case Dict(entries) => Seconds(entries)
    case Items(_, items) => items
    case Inner(node) => [node]
    case Scalar(_) => []
  }

  predicate Closed(g: Graph) {
    forall id :: id in g ==>
      !(g[id].Raw? && g[id].payload.Inner?) && forall c :: c in Children(g[id]) ==> c in g
  }

  function Get(done: map<Id, Id>, id: Id): Id {
    if id in done then done[id] else id
  }

  function MapPayload(p: Payload, done: map<Id, Id>): Payload {
    match p
    case Dict(entries) => Dict(seq(|entries|, i requires 0 <= i < |entries| => (entries[i].0, Get(done, entries[i].1))))
    case Items(kind, items) => Items(kind, seq(|items|, i requires 0 <= i < |items| => Get(done, items[i])))
    case Inner(node) => Inner(Get(done, node))
    case Scalar(v) => p
  }

  // The node with its children replaced by their results and its own marks gone.
  function Image(n: Node, done: map<Id, Id>): Node {
    match n
    case Cty(header, payload, _) => Cty(header, MapPayload(payload, done), {})
    case Raw(payload) => Raw(MapPayload(payload, done))
  }

  // Whether _rebuild_unmarked hands back the very same object.
  predicate KeepsIdentity(n: Node, done: map<Id, Id>) {
    match n.payload
    case Scalar(_) => n.Raw? || n.marks == {}
    case Inner(node) => n.Cty? && n.marks == {} && Get(done, node) == node
    case _ => false
  }

  datatype Entry = Visit(id: Id) | PostProcess

  function Visits(ids: seq<Id>): seq<Entry> {
    seq(|ids|, i requires 0 <= i < |ids| => Visit(ids[i]))
  }

  // ------------------------------------------------------------------ trees: what a graph means

  datatype Tree = TCty(header: int, body: TreeBody, marks: set<string>) | TRaw(body: TreeBody)

  datatype TreeBody =
    | TScalar(v: int)
    | TDict(entries: seq<(string, Tree)>)
    | TItems(kind: Kind, items: seq<Tree>)
    | TSet(kind: Kind, elements: set<Tree>)
    | TInner(inner: Tree)

  // A rank that falls along every edge: the graph has no cycle.
  ghost predicate Ranked(g: Graph, rank: map<Id, nat>) {
    Closed(g) && (forall id :: id in g ==> id in rank) &&
    forall id, c :: id in g && c in Children(g[id]) ==> rank[c] < rank[id]
  }

  ghost function TreeOf(g: Graph, rank: map<Id, nat>, id: Id): Tree
    requires Ranked(g, rank) && id in g
    decreases rank[id], 2
  {
    match g[id]
    case Cty(header, payload, marks) => TCty(header, BodyOf(g, rank, id), marks)
    case Raw(payload) => TRaw(BodyOf(g, rank, id))
  }

  ghost function BodyOf(g: Graph, rank: map<Id, nat>, id: Id): TreeBody
    requires Ranked(g, rank) && id in g
    decreases rank[id], 1
  {
    match g[id].payload
    case Scalar(v) => TScalar(v)
    case Dict(entries) =>
      assert forall i :: 0 <= i < |entries| ==> entries[i].1 == Children(g[id])[i];
      TDict(seq(|entries|, i requires 0 <= i < |entries| => (entries[i].0, TreeOf(g, rank, entries[i].1))))
    case Items(kind, items) =>
      if kind.SetKind? || kind.FrozenSetKind?
      then TSet(kind, ItemTrees(g, rank, items, rank[id]))
      else TItems(kind, seq(|items|, i requires 0 <= i < |items| => TreeOf(g, rank, items[i])))
    case Inner(node) => TInner(TreeOf(g, rank, node))
  }

  ghost function ItemTrees(g: Graph, rank: map<Id, nat>, items: seq<Id>, bound: nat): set<Tree>
    requires Ranked(g, rank) && forall x :: x in items ==> x in g && rank[x] < bound
    decreases bound, 0
  {
    set x | x in items :: TreeOf(g, rank, x)
  }

  // The recursive unmark the stack version replaces.
  ghost function Unmark(t: Tree): Tree {
    match t
    case TCty(header, body, _) => TCty(header, UnmarkBody(body), {})
    case TRaw(body) => TRaw(UnmarkBody(body))
  }

  ghost function UnmarkBody(b: TreeBody): TreeBody {
    match b
    case TScalar(v) => b
    case TDict(entries) => TDict(seq(|entries|, i requires 0 <= i < |entries| => (entries[i].0, Unmark(entries[i].1))))
    case TItems(kind, items) => TItems(kind, seq(|items|, i requires 0 <= i < |items| => Unmark(items[i])))
    case TSet(kind, elements) => TSet(kind, set x | x in elements :: Unmark(x))
    case TInner(inner) => TInner(Unmark(inner))
  }

  // ------------------------------------------------------------------ invariants of the walk

  predicate Bounded(g: Graph, next: Id) {
    forall id :: id in g ==> id < next
  }

  ghost predicate Extends(g: Graph, h: Graph) {
    forall id :: id in g ==> id in h && h[id] == g[id]
  }

  predicate MarkerAt(stack: seq<Entry>, k: int) {
    0 < k < |stack| && stack[k].PostProcess? && stack[k - 1].Visit?
  }

  // Every marker sits on the node it finishes, and those nodes are the ones in progress.
  ghost predicate StackOk(g: Graph, stack: seq<Entry>, processing: set<Id>) {
    && (forall k {:trigger stack[k].Visit?} :: 0 <= k < |stack| && stack[k].Visit? ==> stack[k].id in g)
    && (forall k {:trigger stack[k].PostProcess?} :: 0 <= k < |stack| && stack[k].PostProcess? ==> MarkerAt(stack, k))
    && (forall k {:trigger MarkerAt(stack, k)} :: MarkerAt(stack, k) ==> stack[k - 1].id in processing)
    && (forall id :: id in processing ==> id in g && exists k :: MarkerAt(stack, k) && stack[k - 1].id == id)
    && (forall k, k' :: MarkerAt(stack, k) && MarkerAt(stack, k') && k < k' ==> stack[k - 1] != stack[k' - 1])
  }

  ghost predicate Awaited(stack: seq<Entry>, k: int, c: Id, done: map<Id, Id>) {
    c in done || exists j :: 0 <= k < j < |stack| && stack[j] == Visit(c)
  }

  // A node in progress has each child finished or still above it.
  ghost predicate ChildrenAwaited(g: Graph, stack: seq<Entry>, done: map<Id, Id>) {
    forall k, c :: MarkerAt(stack, k) && stack[k - 1].id in g && c in Children(g[stack[k - 1].id]) ==>
      Awaited(stack, k, c, done)
  }

  // Without cycles, everything above a marker ranks below its node.
  ghost predicate Descending(rank: map<Id, nat>, stack: seq<Entry>) {
    forall k, j :: MarkerAt(stack, k) && k < j < |stack| && stack[j].Visit? ==>
      stack[j].id in rank && stack[k - 1].id in rank && rank[stack[j].id] < rank[stack[k - 1].id]
  }

  // Each finished node has all its children finished, and its result is its image under the results.
  ghost predicate Copied(g: Graph, h: Graph, done: map<Id, Id>) {
    forall id :: id in done ==>
      id in g && done[id] in h && h[done[id]] == Image(g[id], done) &&
      forall c :: c in Children(g[id]) ==> c in done
  }

  ghost predicate RankedCopy(g: Graph, rank: map<Id, nat>, h: Graph, hrank: map<Id, nat>, done: map<Id, Id>) {
    && Ranked(h, hrank)
    && (forall id :: id in g ==> id in rank && id in hrank && hrank[id] == rank[id])
    && (forall id :: id in done ==> id in rank && done[id] in hrank && hrank[done[id]] == rank[id])
  }

  ghost predicate ReachedIn(g: Graph, root: Id, id: Id, n: nat)
    decreases n
  {
    if n == 0 then id == root
    else exists p :: p in g && ReachedIn(g, root, p, n - 1) && id in Children(g[p])
  }

  ghost predicate Reachable(g: Graph, root: Id, id: Id) {
    exists n: nat :: ReachedIn(g, root, id, n)
  }

  lemma ChildReachable(g: Graph, root: Id, p: Id, c: Id)
    requires p in g && Reachable(g, root, p) && c in Children(g[p])
    ensures Reachable(g, root, c)
  {
    var n: nat :| ReachedIn(g, root, p, n);
    assert ReachedIn(g, root, c, n + 1);
  }

  lemma ImageStable(n: Node, done: map<Id, Id>, id: Id, r: Id)
    requires id !in done && forall c :: c in Children(n) ==> c in done
    ensures Image(n, done[id := r]) == Image(n, done)
  {
    match n.payload
    case Dict(entries) =>
      forall i | 0 <= i < |entries| ensures Get(done[id := r], entries[i].1) == Get(done, entries[i].1) {
        assert Children(n)[i] == entries[i].1;
      }
      assert MapPayload(n.payload, done[id := r]).entries == MapPayload(n.payload, done).entries;
    case Items(_, items) =>
      forall i | 0 <= i < |items| ensures Get(done[id := r], items[i]) == Get(done, items[i]) {
        assert items[i] in Children(n);
      }
      assert MapPayload(n.payload, done[id := r]).items == MapPayload(n.payload, done).items;
    case Inner(node) => assert Children(n)[0] == node;
    case Scalar(_) =>
  }

  lemma ImageChildren(n: Node, done: map<Id, Id>)
    ensures |Children(Image(n, done))| == |Children(n)|
    ensures forall i :: 0 <= i < |Children(n)| ==> Children(Image(n, done))[i] == Get(done, Children(n)[i])
  {
  }

  lemma KeptIsImage(n: Node, done: map<Id, Id>)
    requires KeepsIdentity(n, done)
    ensures Image(n, done) == n
  {
  }

  // Without cycles a popped node is never already in progress.
  lemma TopNotInProgress(g: Graph, rank: map<Id, nat>, stack: seq<Entry>, processing: set<Id>)
    requires stack != [] && stack[|stack| - 1].Visit?
    requires StackOk(g, stack, processing) && Descending(rank, stack)
    ensures stack[|stack| - 1].id !in processing
  {
  }

  // _rebuild_unmarked: the same object, or a new one holding the children's results.
  method RebuildUnmarked(heap: Graph, next: Id, id: Id, done: map<Id, Id>) returns (heap': Graph, next': Id, r: Id)
    requires id in heap && Bounded(heap, next)
    ensures Bounded(heap', next') && Extends(heap, heap')
    ensures r in heap' && heap'[r] == Image(heap[id], done)
    ensures heap'.Keys == heap.Keys + {r} && (r == id || r == next)
  {
    if KeepsIdentity(heap[id], done) {
      KeptIsImage(heap[id], done);
      return heap, next, id;
    }
    return heap[next := Image(heap[id], done)], next + 1, next;
  }

  // What one finished node adds to the results.
  lemma {:induction false} CopiedStep(g: Graph, h: Graph, h': Graph, done: map<Id, Id>, id: Id, r: Id)
    requires Copied(g, h, done) && Extends(h, h') && id !in done && id in g
    requires forall c :: c in Children(g[id]) ==> c in done
    requires r in h' && h'[r] == Image(g[id], done)
    ensures Copied(g, h', done[id := r])
  {
    forall x | x in done[id := r] ensures h'[done[id := r][x]] == Image(g[x], done[id := r]) {
      ImageStable(g[x], done, id, r);
    }
  }

  ghost predicate ReadyToFinish(g: Graph, rank: map<Id, nat>, h: Graph, hrank: map<Id, nat>, done: map<Id, Id>,
                                id: Id) {
    && Ranked(g, rank) && Extends(g, h) && RankedCopy(g, rank, h, hrank, done)
    && id in g && id !in done && (forall c :: c in Children(g[id]) ==> c in done)
    && (forall x :: x in done ==> x in g && done[x] in h)
  }

  lemma NewNodeEdge(g: Graph, rank: map<Id, nat>, h: Graph, hrank: map<Id, nat>, done: map<Id, Id>, id: Id, c: Id)
    requires ReadyToFinish(g, rank, h, hrank, done, id) && c in Children(Image(g[id], done))
    ensures c in h && hrank[c] < rank[id]
  {
    ImageChildren(g[id], done);
    var i :| 0 <= i < |Children(Image(g[id], done))| && Children(Image(g[id], done))[i] == c;
    var child := Children(g[id])[i];
    assert child in Children(g[id]);
    assert rank[child] < rank[id];
  }

  lemma ResultIsNew(g: Graph, rank: map<Id, nat>, h: Graph, hrank: map<Id, nat>, done: map<Id, Id>, id: Id, r: Id,
                    x: Id)
    requires ReadyToFinish(g, rank, h, hrank, done, id) && (r == id || r !in h) && x in h
    ensures x in hrank && hrank[r := rank[id]][x] == hrank[x]
  {
  }

  lemma {:induction false} RankedAdd(g: Graph, rank: map<Id, nat>, h: Graph, hrank: map<Id, nat>, h': Graph,
                                     done: map<Id, Id>, id: Id, r: Id)
    requires ReadyToFinish(g, rank, h, hrank, done, id) && Extends(h, h')
    requires h'.Keys == h.Keys + {r} && h'[r] == Image(g[id], done) && (r == id || r !in h)
    ensures Ranked(h', hrank[r := rank[id]])
  {
    var hrank' := hrank[r := rank[id]];
    forall x | x in h'
      ensures x in hrank' && !(h'[x].Raw? && h'[x].payload.Inner?)
      ensures forall c :: c in Children(h'[x]) ==> c in h' && hrank'[c] < hrank'[x]
    {
      if x != r {
        assert h'[x] == h[x];
        ResultIsNew(g, rank, h, hrank, done, id, r, x);
      }
      forall c | c in Children(h'[x]) ensures c in h' && hrank'[c] < hrank'[x] {
        if x == r { NewNodeEdge(g, rank, h, hrank, done, id, c); }
        ResultIsNew(g, rank, h, hrank, done, id, r, c);
      }
    }
  }

  lemma {:induction false} RankedStep(g: Graph, rank: map<Id, nat>, h: Graph, hrank: map<Id, nat>, h': Graph,
                                      done: map<Id, Id>, id: Id, r: Id)
    requires ReadyToFinish(g, rank, h, hrank, done, id) && Extends(h, h')
    requires h'.Keys == h.Keys + {r} && h'[r] == Image(g[id], done) && (r == id || r !in h)
    ensures RankedCopy(g, rank, h', hrank[r := rank[id]], done[id := r])
  {
    RankedAdd(g, rank, h, hrank, h', done, id, r);
    RanksCopied(g, rank, h, hrank, done, id, r);
  }

  // Ranks carry over from a graph to the copies of its nodes.
  ghost predicate RanksCarry(g: Graph, rank: map<Id, nat>, h: Graph, hrank: map<Id, nat>, done: map<Id, Id>) {
    && (forall x :: x in g ==> x in h && x in rank && x in hrank && hrank[x] == rank[x])
    && (forall x :: x in done ==> x in rank && done[x] in h && done[x] in hrank && hrank[done[x]] == rank[x])
  }

  lemma {:induction false} RanksCopied(g: Graph, rank: map<Id, nat>, h: Graph, hrank: map<Id, nat>, done: map<Id, Id>,
                                       id: Id, r: Id)
    requires RanksCarry(g, rank, h, hrank, done) && id in g && (r == id || r !in h)
    ensures var hrank' := hrank[r := rank[id]];
      (forall x :: x in g ==> x in rank && x in hrank' && hrank'[x] == rank[x]) &&
      (forall x :: x in done[id := r] ==>
         x in rank && done[id := r][x] in hrank' && hrank'[done[id := r][x]] == rank[x])
  {
  }

  // ------------------------------------------------------------------ the three stack moves

  lemma AwaitedOnPrefix(g: Graph, stack: seq<Entry>, m: nat, done: map<Id, Id>, done': map<Id, Id>)
    requires m <= |stack| && ChildrenAwaited(g, stack, done)
    requires forall id :: id in done ==> id in done'
    requires forall j :: m <= j < |stack| && stack[j].Visit? ==> stack[j].id in done'
    ensures ChildrenAwaited(g, stack[..m], done')
  {
    var rest := stack[..m];
    forall k, c | MarkerAt(rest, k) && rest[k - 1].id in g && c in Children(g[rest[k - 1].id])
      ensures Awaited(rest, k, c, done')
    {
      assert MarkerAt(stack, k) && Awaited(stack, k, c, done);
      if c !in done' {
        var j :| 0 <= k < j < |stack| && stack[j] == Visit(c);
        assert rest[j] == Visit(c);
      }
    }
  }

  lemma DescendingOnPrefix(rank: map<Id, nat>, stack: seq<Entry>, m: nat)
    requires m <= |stack| && Descending(rank, stack)
    ensures Descending(rank, stack[..m])
  {
    assert forall k :: MarkerAt(stack[..m], k) ==> MarkerAt(stack, k);
  }

  lemma {:induction false} DropTop(g: Graph, stack: seq<Entry>, processing: set<Id>)
    requires stack != [] && stack[|stack| - 1].Visit? && StackOk(g, stack, processing)
    ensures StackOk(g, stack[..|stack| - 1], processing)
  {
    MarkersStay(g, stack, processing);
  }

  lemma {:induction false} MarkersStay(g: Graph, stack: seq<Entry>, processing: set<Id>)
    requires stack != [] && stack[|stack| - 1].Visit? && StackOk(g, stack, processing)
    ensures var rest := stack[..|stack| - 1];
      (forall k :: MarkerAt(stack, k) <==> MarkerAt(rest, k)) &&
      forall id :: id in processing ==> exists k :: MarkerAt(rest, k) && rest[k - 1].id == id
  {
    var rest := stack[..|stack| - 1];
    forall id | id in processing ensures exists k :: MarkerAt(rest, k) && rest[k - 1].id == id {
      var k :| MarkerAt(stack, k) && stack[k - 1].id == id;
      assert MarkerAt(rest, k);
    }
  }

  lemma {:induction false} DropMarker(g: Graph, stack: seq<Entry>, processing: set<Id>)
    requires stack != [] && stack[|stack| - 1].PostProcess? && StackOk(g, stack, processing)
    ensures |stack| >= 2 && stack[|stack| - 2].Visit? && stack[|stack| - 2].id in processing
    ensures StackOk(g, stack[..|stack| - 2], processing - {stack[|stack| - 2].id})
  {
    var n := |stack|;
    assert MarkerAt(stack, n - 1);
    var rest, id := stack[..n - 2], stack[n - 2].id;
    assert forall k :: MarkerAt(rest, k) ==> MarkerAt(stack, k);
    forall k | 0 <= k < |rest| && rest[k].PostProcess?
      ensures MarkerAt(rest, k) && rest[k - 1].id in processing - {id}
    {
      assert MarkerAt(stack, k);
    }
    forall x | x in processing - {id} ensures exists k :: MarkerAt(rest, k) && rest[k - 1].id == x {
      var k :| MarkerAt(stack, k) && stack[k - 1].id == x;
      assert k != n - 1 && k != n - 2;
      assert MarkerAt(rest, k);
    }
  }

  lemma ChildrenFinished(g: Graph, stack: seq<Entry>, done: map<Id, Id>)
    requires |stack| >= 2 && MarkerAt(stack, |stack| - 1) && stack[|stack| - 2].id in g
    requires ChildrenAwaited(g, stack, done)
    ensures forall c :: c in Children(g[stack[|stack| - 2].id]) ==> c in done
  {
    forall c | c in Children(g[stack[|stack| - 2].id]) ensures c in done {
      assert Awaited(stack, |stack| - 1, c, done);
    }
  }

  function Pushed(rest: seq<Entry>, id: Id, children: seq<Id>): seq<Entry> {
    rest + [Visit(id), PostProcess] + Visits(children)
  }

  lemma PushNode(g: Graph, rest: seq<Entry>, id: Id, processing: set<Id>)
    requires id in g && id !in processing && Closed(g) && StackOk(g, rest, processing)
    ensures StackOk(g, Pushed(rest, id, Children(g[id])), processing + {id})
  {
    var stack := Pushed(rest, id, Children(g[id]));
    var n := |rest|;
    forall k | MarkerAt(stack, k) ensures (k < n && MarkerAt(rest, k)) || k == n + 1 {
    }
    forall k | 0 <= k < |stack| && stack[k].Visit? ensures stack[k].id in g {
      if k >= n + 2 { assert stack[k].id == Children(g[id])[k - n - 2]; }
    }
    forall x | x in processing + {id} ensures x in g && exists k :: MarkerAt(stack, k) && stack[k - 1].id == x {
      if x == id {
        assert MarkerAt(stack, n + 1);
      } else {
        var k :| MarkerAt(rest, k) && rest[k - 1].id == x;
        assert MarkerAt(stack, k);
      }
    }
  }

  lemma PushAwaits(g: Graph, rest: seq<Entry>, id: Id, done: map<Id, Id>)
    requires id in g && Closed(g) && ChildrenAwaited(g, rest + [Visit(id)], done)
    ensures ChildrenAwaited(g, Pushed(rest, id, Children(g[id])), done)
  {
    var before, stack := rest + [Visit(id)], Pushed(rest, id, Children(g[id]));
    var n := |rest|;
    forall k, c | MarkerAt(stack, k) && stack[k - 1].id in g && c in Children(g[stack[k - 1].id])
      ensures Awaited(stack, k, c, done)
    {
      if k == n + 1 {
        var i :| 0 <= i < |Children(g[id])| && Children(g[id])[i] == c;
        assert stack[n + 2 + i] == Visit(c);
      } else {
        assert k < n && MarkerAt(before, k);
        assert Awaited(before, k, c, done);
        if c !in done {
          var j :| 0 <= k < j < |before| && before[j] == Visit(c);
          assert stack[j] == Visit(c);
        }
      }
    }
  }

  lemma PushDescends(g: Graph, rank: map<Id, nat>, rest: seq<Entry>, id: Id)
    requires id in g && Ranked(g, rank) && Descending(rank, rest + [Visit(id)])
    ensures Descending(rank, Pushed(rest, id, Children(g[id])))
  {
    var before, stack := rest + [Visit(id)], Pushed(rest, id, Children(g[id]));
    var n := |rest|;
    forall k, j | MarkerAt(stack, k) && k < j < |stack| && stack[j].Visit?
      ensures stack[j].id in rank && stack[k - 1].id in rank && rank[stack[j].id] < rank[stack[k - 1].id]
    {
      if j >= n + 2 {
        var c := Children(g[id])[j - n - 2];
        assert stack[j] == Visit(c) && c in Children(g[id]) && rank[c] < rank[id];
      }
      if k != n + 1 {
        assert k < n && MarkerAt(before, k) && before[k - 1] == stack[k - 1] && before[n] == Visit(id);
        assert rank[id] < rank[stack[k - 1].id];
        if j <= n { assert before[j] == stack[j]; }
      }
    }
  }

  // ------------------------------------------------------------------ the copy means the recursive unmark

  lemma {:induction false} CopyIsUnmarked(g: Graph, rank: map<Id, nat>, h: Graph, hrank: map<Id, nat>,
                                          done: map<Id, Id>, id: Id)
    requires Ranked(g, rank) && Copied(g, h, done) && RankedCopy(g, rank, h, hrank, done) && id in done
    ensures TreeOf(h, hrank, done[id]) == Unmark(TreeOf(g, rank, id))
    decreases rank[id]
  {
    var n := g[id];
    forall c | c in Children(n) ensures c in done && TreeOf(h, hrank, done[c]) == Unmark(TreeOf(g, rank, c)) {
      CopyIsUnmarked(g, rank, h, hrank, done, c);
    }
    BodyIsUnmarked(g, rank, h, hrank, done, id);
  }

  ghost predicate ChildrenUnmarked(g: Graph, rank: map<Id, nat>, h: Graph, hrank: map<Id, nat>, done: map<Id, Id>,
                                   id: Id)
    requires Ranked(g, rank) && Copied(g, h, done) && Ranked(h, hrank) && id in done
  {
    forall c :: c in Children(g[id]) ==> c in done && TreeOf(h, hrank, done[c]) == Unmark(TreeOf(g, rank, c))
  }

  lemma {:induction false} BodyIsUnmarked(g: Graph, rank: map<Id, nat>, h: Graph, hrank: map<Id, nat>,
                                          done: map<Id, Id>, id: Id)
    requires Ranked(g, rank) && Copied(g, h, done) && Ranked(h, hrank) && id in done
    requires ChildrenUnmarked(g, rank, h, hrank, done, id)
    ensures BodyOf(h, hrank, done[id]) == UnmarkBody(BodyOf(g, rank, id))
  {
    match g[id].payload
    case Scalar(_) =>
    case Inner(node) => assert Children(g[id])[0] == node;
    case Dict(_) => DictIsUnmarked(g, rank, h, hrank, done, id);
    case Items(_, _) => ItemsAreUnmarked(g, rank, h, hrank, done, id);
  }

  lemma {:induction false} DictIsUnmarked(g: Graph, rank: map<Id, nat>, h: Graph, hrank: map<Id, nat>,
                                          done: map<Id, Id>, id: Id)
    requires Ranked(g, rank) && Copied(g, h, done) && Ranked(h, hrank) && id in done && g[id].payload.Dict?
    requires ChildrenUnmarked(g, rank, h, hrank, done, id)
    ensures BodyOf(h, hrank, done[id]) == UnmarkBody(BodyOf(g, rank, id))
  {
    var entries, copied := g[id].payload.entries, h[done[id]].payload.entries;
    forall i | 0 <= i < |entries|
      ensures copied[i].0 == entries[i].0 && copied[i].1 in h
      ensures TreeOf(h, hrank, copied[i].1) == Unmark(TreeOf(g, rank, entries[i].1))
    {
      assert Children(g[id])[i] == entries[i].1;
    }
    assert BodyOf(h, hrank, done[id]).entries == UnmarkBody(BodyOf(g, rank, id)).entries;
  }

  lemma {:induction false} ItemUnmarked(g: Graph, rank: map<Id, nat>, h: Graph, hrank: map<Id, nat>,
                                        done: map<Id, Id>, id: Id, i: nat)
    requires Ranked(g, rank) && Copied(g, h, done) && Ranked(h, hrank) && id in done && g[id].payload.Items?
    requires ChildrenUnmarked(g, rank, h, hrank, done, id) && i < |g[id].payload.items|
    ensures h[done[id]].payload.Items? && |h[done[id]].payload.items| == |g[id].payload.items|
    ensures var c, c' := g[id].payload.items[i], h[done[id]].payload.items[i];
      c in g && c' in h && TreeOf(h, hrank, c') == Unmark(TreeOf(g, rank, c))
  {
    assert Children(g[id])[i] == g[id].payload.items[i];
  }

  lemma {:induction false} ItemsAreUnmarked(g: Graph, rank: map<Id, nat>, h: Graph, hrank: map<Id, nat>,
                                            done: map<Id, Id>, id: Id)
    requires Ranked(g, rank) && Copied(g, h, done) && Ranked(h, hrank) && id in done && g[id].payload.Items?
    requires ChildrenUnmarked(g, rank, h, hrank, done, id)
    ensures BodyOf(h, hrank, done[id]) == UnmarkBody(BodyOf(g, rank, id))
  {
    var kind, items, copied := g[id].payload.kind, g[id].payload.items, h[done[id]].payload.items;
    if kind.SetKind? || kind.FrozenSetKind? {
      SetIsUnmarked(g, rank, h, hrank, done, id);
    } else {
      forall i | 0 <= i < |items|
        ensures items[i] in g && copied[i] in h && TreeOf(h, hrank, copied[i]) == Unmark(TreeOf(g, rank, items[i]))
      {
        ItemUnmarked(g, rank, h, hrank, done, id, i);
      }
      assert BodyOf(h, hrank, done[id]).items == UnmarkBody(BodyOf(g, rank, id)).items;
    }
  }

  lemma {:induction false} SetIsUnmarked(g: Graph, rank: map<Id, nat>, h: Graph, hrank: map<Id, nat>,
                                         done: map<Id, Id>, id: Id)
    requires Ranked(g, rank) && Copied(g, h, done) && Ranked(h, hrank) && id in done && g[id].payload.Items?
    requires g[id].payload.kind.SetKind? || g[id].payload.kind.FrozenSetKind?
    requires ChildrenUnmarked(g, rank, h, hrank, done, id)
    ensures BodyOf(h, hrank, done[id]) == UnmarkBody(BodyOf(g, rank, id))
  {
    var items, copied := g[id].payload.items, h[done[id]].payload.items;
    ItemUnmarkedKinds(g, h, done, id);
    var trees := ItemTrees(g, rank, items, rank[id]);
    var left := ItemTrees(h, hrank, copied, hrank[done[id]]);
    forall y | y in left ensures IsUnmarkOf(y, trees) {
      SetInto(g, rank, h, hrank, done, id, y);
    }
    SetOnto(g, rank, h, hrank, done, id);
    SetImage(trees, left);
  }

  lemma ItemUnmarkedKinds(g: Graph, h: Graph, done: map<Id, Id>, id: Id)
    requires Copied(g, h, done) && id in done && g[id].payload.Items?
    ensures h[done[id]].payload.Items? && h[done[id]].payload.kind == g[id].payload.kind
  {
  }

  lemma {:induction false} SetImage(trees: set<Tree>, left: set<Tree>)
    requires forall y :: y in left ==> IsUnmarkOf(y, trees)
    requires forall x :: x in trees ==> Unmark(x) in left
    ensures left == set x | x in trees :: Unmark(x)
  {
  }

  lemma ItemTreeIndex(g: Graph, rank: map<Id, nat>, items: seq<Id>, bound: nat, y: Tree) returns (i: nat)
    requires Ranked(g, rank) && (forall x :: x in items ==> x in g && rank[x] < bound)
    requires y in ItemTrees(g, rank, items, bound)
    ensures i < |items| && items[i] in items && y == TreeOf(g, rank, items[i])
  {
    var c :| c in items && y == TreeOf(g, rank, c);
    i :| i < |items| && items[i] == c;
  }

  ghost predicate IsUnmarkOf(y: Tree, trees: set<Tree>) {
    exists x :: x in trees && y == Unmark(x)
  }

  lemma {:induction false} SetInto(g: Graph, rank: map<Id, nat>, h: Graph, hrank: map<Id, nat>, done: map<Id, Id>,
                                   id: Id, y: Tree)
    requires Ranked(g, rank) && Copied(g, h, done) && Ranked(h, hrank) && id in done && g[id].payload.Items?
    requires ChildrenUnmarked(g, rank, h, hrank, done, id)
    requires y in ItemTrees(h, hrank, h[done[id]].payload.items, hrank[done[id]])
    ensures IsUnmarkOf(y, ItemTrees(g, rank, g[id].payload.items, rank[id]))
  {
    var i := ItemTreeIndex(h, hrank, h[done[id]].payload.items, hrank[done[id]], y);
    assert i < |g[id].payload.items|;
    ItemUnmarked(g, rank, h, hrank, done, id, i);
    assert TreeOf(g, rank, g[id].payload.items[i]) in ItemTrees(g, rank, g[id].payload.items, rank[id]);
  }

  lemma {:induction false} SetOnto(g: Graph, rank: map<Id, nat>, h: Graph, hrank: map<Id, nat>, done: map<Id, Id>,
                                   id: Id)
    requires Ranked(g, rank) && Copied(g, h, done) && Ranked(h, hrank) && id in done && g[id].payload.Items?
    requires ChildrenUnmarked(g, rank, h, hrank, done, id)
    ensures forall x :: x in ItemTrees(g, rank, g[id].payload.items, rank[id]) ==>
              Unmark(x) in ItemTrees(h, hrank, h[done[id]].payload.items, hrank[done[id]])
  {
    var items, copied := g[id].payload.items, h[done[id]].payload.items;
    forall x | x in ItemTrees(g, rank, items, rank[id])
      ensures Unmark(x) in ItemTrees(h, hrank, copied, hrank[done[id]])
    {
      var c :| c in items && x == TreeOf(g, rank, c);
      var i: nat :| i < |items| && items[i] == c;
      ItemUnmarked(g, rank, h, hrank, done, id, i);
      assert copied[i] in copied;
    }
  }

  ghost predicate NoMarks(t: Tree) {
    (t.TCty? ==> t.marks == {}) && NoMarksInside(t.body)
  }

  ghost predicate NoMarksInside(b: TreeBody) {
    match b
    case TScalar(_) => true
    case TDict(entries) => forall i :: 0 <= i < |entries| ==> NoMarks(entries[i].1)
    case TItems(_, items) => forall i :: 0 <= i < |items| ==> NoMarks(items[i])
    case TSet(_, elements) => forall x :: x in elements ==> NoMarks(x)
    case TInner(inner) => NoMarks(inner)
  }

  // Unmarking leaves no mark at any depth and changes nothing but marks: it is the identity exactly
  // on the values that have none.
  lemma {:induction false} UnmarkRemovesOnlyMarks(t: Tree)
    ensures NoMarks(Unmark(t))
    ensures NoMarks(t) <==> Unmark(t) == t
    decreases t
  {
    match t.body
    case TScalar(_) =>
    case TInner(inner) => UnmarkRemovesOnlyMarks(inner);
    case TDict(entries) =>
      forall i | 0 <= i < |entries|
        ensures NoMarks(Unmark(entries[i].1)) && (NoMarks(entries[i].1) <==> Unmark(entries[i].1) == entries[i].1)
      {
        UnmarkRemovesOnlyMarks(entries[i].1);
      }
      var u := UnmarkBody(t.body).entries;
      assert u == entries <==> forall i :: 0 <= i < |entries| ==> u[i].1 == entries[i].1;
    case TItems(_, items) =>
      forall i | 0 <= i < |items|
        ensures NoMarks(Unmark(items[i])) && (NoMarks(items[i]) <==> Unmark(items[i]) == items[i])
      {
        UnmarkRemovesOnlyMarks(items[i]);
      }
      var u := UnmarkBody(t.body).items;
      assert u == items <==> forall i :: 0 <= i < |items| ==> u[i] == items[i];
    case TSet(_, elements) =>
      forall x | x in elements ensures NoMarks(Unmark(x)) && (NoMarks(x) <==> Unmark(x) == x) {
        UnmarkRemovesOnlyMarks(x);
      }
      var u := UnmarkBody(t.body).elements;
      if NoMarksInside(t.body) {
        assert u == elements;
      }
  }

  // ------------------------------------------------------------------ the walk

  ghost predicate Distinct(ids: seq<Id>) {
    forall i, j :: 0 <= i < j < |ids| ==> ids[i] != ids[j]
  }

  // Nodes neither finished nor in progress.
  ghost function Open(g: Graph, done: map<Id, Id>, processing: set<Id>): set<Id> {
    g.Keys - done.Keys - processing
  }

  // Everything the loop keeps; the last line only where the graph has no cycle.
  ghost predicate WalkInv(g: Graph, root: Id, heap: Graph, stack: seq<Entry>, processing: set<Id>, done: map<Id, Id>,
                          rebuilt: seq<Id>, rank: map<Id, nat>, hrank: map<Id, nat>)
  {
    && HeapInv(g, heap, done, rebuilt)
    && StackOk(g, stack, processing) && done.Keys !! processing
    && ReachInv(g, root, stack, done)
    && (Ranked(g, rank) ==> AcyclicInv(g, heap, stack, done, rank, hrank))
  }

  ghost predicate HeapInv(g: Graph, heap: Graph, done: map<Id, Id>, rebuilt: seq<Id>) {
    && Extends(g, heap) && |heap| <= |g| + |rebuilt| && Distinct(rebuilt)
    && (forall id :: id in rebuilt <==> id in done)
    && (forall id :: id in done ==> id in g && done[id] in heap)
  }

  ghost predicate ReachInv(g: Graph, root: Id, stack: seq<Entry>, done: map<Id, Id>) {
    && (forall k :: 0 <= k < |stack| && stack[k].Visit? ==> Reachable(g, root, stack[k].id))
    && (forall id :: id in done ==> Reachable(g, root, id))
    && (root in done || Visit(root) in stack)
  }

  ghost predicate AcyclicInv(g: Graph, heap: Graph, stack: seq<Entry>, done: map<Id, Id>, rank: map<Id, nat>,
                             hrank: map<Id, nat>) {
    && ChildrenAwaited(g, stack, done) && Descending(rank, stack)
    && Copied(g, heap, done) && RankedCopy(g, rank, heap, hrank, done)
  }

  // The pop of a node that is finished or in progress.
  lemma {:induction false} SkipKeeps(g: Graph, root: Id, heap: Graph, stack: seq<Entry>, processing: set<Id>,
                                     done: map<Id, Id>, rebuilt: seq<Id>, rank: map<Id, nat>, hrank: map<Id, nat>)
    requires Closed(g) && WalkInv(g, root, heap, stack, processing, done, rebuilt, rank, hrank)
    requires stack != [] && stack[|stack| - 1].Visit?
    requires stack[|stack| - 1].id in done || stack[|stack| - 1].id in processing
    ensures WalkInv(g, root, heap, stack[..|stack| - 1], processing, done, rebuilt, rank, hrank)
  {
    DropTop(g, stack, processing);
    if Ranked(g, rank) { SkipKeepsAcyclic(g, heap, stack, processing, done, rank, hrank); }
    var m := |stack| - 1;
    forall j | m <= j < |stack|
      ensures stack[j].Visit? && (stack[j].id in done || stack[j].id in processing)
    {
      assert j == m;
    }
    RootStays(g, root, stack, m, done, done, processing);
  }

  lemma {:induction false} SkipKeepsAcyclic(g: Graph, heap: Graph, stack: seq<Entry>, processing: set<Id>,
                                            done: map<Id, Id>, rank: map<Id, nat>, hrank: map<Id, nat>)
    requires StackOk(g, stack, processing) && AcyclicInv(g, heap, stack, done, rank, hrank)
    requires stack != [] && stack[|stack| - 1].Visit?
    requires stack[|stack| - 1].id in done || stack[|stack| - 1].id in processing
    ensures AcyclicInv(g, heap, stack[..|stack| - 1], done, rank, hrank)
  {
    TopNotInProgress(g, rank, stack, processing);
    AwaitedOnPrefix(g, stack, |stack| - 1, done, done);
    DescendingOnPrefix(rank, stack, |stack| - 1);
  }

  lemma {:induction false} RootStays(g: Graph, root: Id, stack: seq<Entry>, m: nat, done: map<Id, Id>,
                                     done': map<Id, Id>, processing: set<Id>)
    requires m <= |stack| && ReachInv(g, root, stack, done) && StackOk(g, stack[..m], processing)
    requires forall id :: id in done ==> id in done'
    requires forall id :: id in done' ==> Reachable(g, root, id)
    requires forall j :: m <= j < |stack| && stack[j].Visit? ==> stack[j].id in done' || stack[j].id in processing
    ensures ReachInv(g, root, stack[..m], done')
  {
    var rest := stack[..m];
    if root !in done' {
      var j :| 0 <= j < |stack| && stack[j] == Visit(root);
      if j < m {
        assert rest[j] == Visit(root);
      } else {
        var k :| MarkerAt(rest, k) && rest[k - 1].id == root;
        assert rest[k - 1] == Visit(root);
      }
    }
  }

  // Finishing a node pops its entry, and its marker if it had one.
  lemma {:induction false} FinishKeeps(g: Graph, root: Id, heap: Graph, stack: seq<Entry>, m: nat,
                                       processing: set<Id>, processing': set<Id>, done: map<Id, Id>, rebuilt: seq<Id>,
                                       rank: map<Id, nat>, hrank: map<Id, nat>, id: Id, heap': Graph,
                                       done': map<Id, Id>, hrank': map<Id, nat>)
    requires Closed(g) && WalkInv(g, root, heap, stack, processing, done, rebuilt, rank, hrank)
    requires m < |stack| && stack[m] == Visit(id) && forall j :: m < j < |stack| ==> stack[j].PostProcess?
    requires StackOk(g, stack[..m], processing') && processing' == processing - {id} && id !in done
    requires Extends(heap, heap') && |heap'| <= |heap| + 1
    requires done'.Keys == done.Keys + {id} && forall x :: x in done' ==> done'[x] in heap'
    requires Ranked(g, rank) ==> Copied(g, heap', done') && RankedCopy(g, rank, heap', hrank', done')
    ensures WalkInv(g, root, heap', stack[..m], processing', done', rebuilt + [id], rank, hrank')
  {
    FinishHeap(g, heap, done, rebuilt, id, heap', done');
    FinishReaches(g, root, stack, m, done, processing', id, done');
    if Ranked(g, rank) { FinishAcyclic(g, heap, stack, m, done, rank, hrank, id, heap', done', hrank'); }
  }

  lemma {:induction false} FinishHeap(g: Graph, heap: Graph, done: map<Id, Id>, rebuilt: seq<Id>, id: Id,
                                      heap': Graph, done': map<Id, Id>)
    requires HeapInv(g, heap, done, rebuilt) && id in g && id !in done
    requires Extends(heap, heap') && |heap'| <= |heap| + 1
    requires done'.Keys == done.Keys + {id} && forall x :: x in done' ==> done'[x] in heap'
    ensures HeapInv(g, heap', done', rebuilt + [id])
  {
  }

  lemma {:induction false} FinishReaches(g: Graph, root: Id, stack: seq<Entry>, m: nat, done: map<Id, Id>,
                                         processing': set<Id>, id: Id, done': map<Id, Id>)
    requires ReachInv(g, root, stack, done) && m < |stack| && StackOk(g, stack[..m], processing')
    requires stack[m] == Visit(id) && forall j :: m < j < |stack| ==> stack[j].PostProcess?
    requires done'.Keys == done.Keys + {id}
    ensures ReachInv(g, root, stack[..m], done')
  {
    assert Reachable(g, root, stack[m].id);
    RootStays(g, root, stack, m, done, done', processing');
  }

  lemma {:induction false} FinishAcyclic(g: Graph, heap: Graph, stack: seq<Entry>, m: nat, done: map<Id, Id>,
                                         rank: map<Id, nat>, hrank: map<Id, nat>, id: Id, heap': Graph,
                                         done': map<Id, Id>, hrank': map<Id, nat>)
    requires AcyclicInv(g, heap, stack, done, rank, hrank)
    requires m < |stack| && stack[m] == Visit(id) && forall j :: m < j < |stack| ==> stack[j].PostProcess?
    requires done'.Keys == done.Keys + {id}
    requires Copied(g, heap', done') && RankedCopy(g, rank, heap', hrank', done')
    ensures AcyclicInv(g, heap', stack[..m], done', rank, hrank')
  {
    AwaitedOnPrefix(g, stack, m, done, done');
    DescendingOnPrefix(rank, stack, m);
  }

  lemma {:induction false} PushKeeps(g: Graph, root: Id, heap: Graph, stack: seq<Entry>, processing: set<Id>,
                                     done: map<Id, Id>, rebuilt: seq<Id>, rank: map<Id, nat>, hrank: map<Id, nat>,
                                     id: Id)
    requires Closed(g) && WalkInv(g, root, heap, stack, processing, done, rebuilt, rank, hrank)
    requires stack != [] && stack[|stack| - 1] == Visit(id) && id !in done && id !in processing
    ensures WalkInv(g, root, heap, Pushed(stack[..|stack| - 1], id, Children(g[id])), processing +
      {id}, done, rebuilt, rank, hrank)
  {
    var rest := stack[..|stack| - 1];
    assert stack == rest + [Visit(id)];
    DropTop(g, stack, processing);
    PushNode(g, rest, id, processing);
    if Ranked(g, rank) {
      PushAwaits(g, rest, id, done);
      PushDescends(g, rank, rest, id);
    }
    PushReaches(g, root, stack, done, id);
  }

  lemma PushReaches(g: Graph, root: Id, stack: seq<Entry>, done: map<Id, Id>, id: Id)
    requires id in g && ReachInv(g, root, stack, done) && stack != [] && stack[|stack| - 1] == Visit(id)
    ensures ReachInv(g, root, Pushed(stack[..|stack| - 1], id, Children(g[id])), done)
  {
    var n := |stack| - 1;
    var pushed := Pushed(stack[..n], id, Children(g[id]));
    assert Reachable(g, root, stack[n].id);
    forall k | 0 <= k < |pushed| && pushed[k].Visit? ensures Reachable(g, root, pushed[k].id) {
      if k < n {
        assert pushed[k] == stack[k];
      } else if k >= n + 2 {
        assert pushed[k].id == Children(g[id])[k - n - 2];
        ChildReachable(g, root, id, pushed[k].id);
      }
    }
    if root !in done {
      var j :| 0 <= j < |stack| && stack[j] == Visit(root);
      assert pushed[j] == Visit(root);
    }
  }

  // Terminates on every finite graph, cycles included. Each node is rebuilt at most once and only
  // nodes under the root are; without cycles every node under the root is, and the result means the
  // recursive unmark of the root. The original objects stay as they were.
  method UnmarkDeep(g: Graph, root: Id, next0: Id, ghost rank: map<Id, nat>)
    returns (heap: Graph, r: Id, ghost hrank: map<Id, nat>, ghost rebuilt: seq<Id>)
    requires Closed(g) && root in g && Bounded(g, next0)
    ensures Extends(g, heap) && r in heap && |heap| <= |g| + |rebuilt|
    ensures Distinct(rebuilt) && forall id :: id in rebuilt ==> Reachable(g, root, id)
    ensures Ranked(g, rank) ==> forall id :: Reachable(g, root, id) ==> id in rebuilt
    ensures Ranked(g, rank) ==> Ranked(heap, hrank) && TreeOf(heap, hrank, r) == Unmark(TreeOf(g, rank, root))
  {
    heap, hrank, rebuilt := g, rank, [];
    var next := next0;
    var done: map<Id, Id> := map[];
    var processing: set<Id> := {};
    var stack := [Visit(root)];
    assert ReachedIn(g, root, root, 0);
    while stack != []
      invariant WalkInv(g, root, heap, stack, processing, done, rebuilt, rank, hrank) && Bounded(heap, next)
      decreases Open(g, done, processing), |stack|
    {
      if stack[|stack| - 1].PostProcess? {
        heap, next, stack, processing, done, hrank, rebuilt :=
          FinishMarked(g, root, heap, next, stack, processing, done, rebuilt, rank, hrank);
        continue;
      }
      var id := stack[|stack| - 1].id;
      if id in done || id in processing {
        SkipKeeps(g, root, heap, stack, processing, done, rebuilt, rank, hrank);
        stack := stack[..|stack| - 1];
        continue;
      }
      var children := Children(g[id]);
      if children == [] {
        heap, next, stack, done, hrank, rebuilt :=
          FinishLeaf(g, root, heap, next, stack, processing, done, rebuilt, rank, hrank);
        continue;
      }
      PushKeeps(g, root, heap, stack, processing, done, rebuilt, rank, hrank, id);
      processing := processing + {id};
      stack := Pushed(stack[..|stack| - 1], id, children);
    }
    r := done[root];
    WalkEnds(g, root, heap, processing, done, rebuilt, rank, hrank);
  }

  lemma Moved(all: set<Id>, done: set<Id>, processing: set<Id>, id: Id)
    requires id in processing
    ensures all - (done + {id}) - (processing - {id}) == all - done - processing
  {
  }

  lemma Shrunk(all: set<Id>, done: set<Id>, processing: set<Id>, id: Id)
    requires id in all && id !in done && id !in processing
    ensures all - (done + {id}) - processing < all - done - processing
  {
    assert id in all - done - processing && id !in all - (done + {id}) - processing;
  }

  method FinishAt(g: Graph, ghost root: Id, heap: Graph, next: Id, stack: seq<Entry>, m: nat,
                  ghost processing: set<Id>, ghost processing': set<Id>, done: map<Id, Id>, ghost rebuilt: seq<Id>,
                  ghost rank: map<Id, nat>, ghost hrank: map<Id, nat>, id: Id)
    returns (heap': Graph, next': Id, stack': seq<Entry>, done': map<Id, Id>, ghost hrank': map<Id, nat>,
             ghost rebuilt': seq<Id>)
    requires Closed(g) && WalkInv(g, root, heap, stack, processing, done, rebuilt, rank, hrank) && Bounded(heap, next)
    requires m < |stack| && stack[m] == Visit(id) && forall j :: m < j < |stack| ==> stack[j].PostProcess?
    requires StackOk(g, stack[..m], processing') && processing' == processing - {id} && id in g && id !in done
    requires Ranked(g, rank) ==> forall c :: c in Children(g[id]) ==> c in done
    ensures WalkInv(g, root, heap', stack', processing', done', rebuilt', rank, hrank') && Bounded(heap', next')
    ensures done'.Keys == done.Keys + {id} && stack' == stack[..m]
    ensures id in processing ==> Open(g, done', processing') == Open(g, done, processing)
    ensures id !in processing ==> Open(g, done', processing') < Open(g, done, processing)
  {
    if id in processing { Moved(g.Keys, done.Keys, processing, id); }
      else { Shrunk(g.Keys, done.Keys, processing, id); }
    stack', rebuilt' := stack[..m], rebuilt + [id];
    heap', next', done', hrank' := Finish(g, heap, next, id, done, rank, hrank);
    FinishKeeps(g, root, heap, stack, m, processing, processing', done, rebuilt, rank, hrank, id, heap', done', hrank');
  }

  // Every child of the popped node has a result.
  method FinishMarked(g: Graph, ghost root: Id, heap: Graph, next: Id, stack: seq<Entry>, processing: set<Id>,
                      done: map<Id, Id>, ghost rebuilt: seq<Id>, ghost rank: map<Id, nat>, ghost hrank: map<Id, nat>)
    returns (heap': Graph, next': Id, stack': seq<Entry>, processing': set<Id>, done': map<Id, Id>,
             ghost hrank': map<Id, nat>, ghost rebuilt': seq<Id>)
    requires Closed(g) && WalkInv(g, root, heap, stack, processing, done, rebuilt, rank, hrank) && Bounded(heap, next)
    requires stack != [] && stack[|stack| - 1].PostProcess?
    ensures WalkInv(g, root, heap', stack', processing', done', rebuilt', rank, hrank') && Bounded(heap', next')
    ensures |stack'| < |stack| && Open(g, done', processing') == Open(g, done, processing)
  {
    MarkerReady(g, root, heap, stack, processing, done, rebuilt, rank, hrank);
    var original := stack[|stack| - 2].id;
    processing' := processing - {original};
    heap', next', stack', done', hrank', rebuilt' :=
      FinishAt(g, root, heap, next, stack, |stack| - 2, processing, processing', done, rebuilt, rank, hrank, original);
  }

  method FinishLeaf(g: Graph, ghost root: Id, heap: Graph, next: Id, stack: seq<Entry>, ghost processing: set<Id>,
                    done: map<Id, Id>, ghost rebuilt: seq<Id>, ghost rank: map<Id, nat>, ghost hrank: map<Id, nat>)
    returns (heap': Graph, next': Id, stack': seq<Entry>, done': map<Id, Id>, ghost hrank': map<Id, nat>,
             ghost rebuilt': seq<Id>)
    requires Closed(g) && WalkInv(g, root, heap, stack, processing, done, rebuilt, rank, hrank) && Bounded(heap, next)
    requires stack != [] && stack[|stack| - 1].Visit? && stack[|stack| - 1].id in g
    requires var id := stack[|stack| - 1].id; id !in done && id !in processing && Children(g[id]) == []
    ensures WalkInv(g, root, heap', stack', processing, done', rebuilt', rank, hrank') && Bounded(heap', next')
    ensures Open(g, done', processing) < Open(g, done, processing)
  {
    var id := stack[|stack| - 1].id;
    DropTop(g, stack, processing);
    assert processing == processing - {id};
    heap', next', stack', done', hrank', rebuilt' :=
      FinishAt(g, root, heap, next, stack, |stack| - 1, processing, processing, done, rebuilt, rank, hrank, id);
  }

  lemma WalkEnds(g: Graph, root: Id, heap: Graph, processing: set<Id>, done: map<Id, Id>, rebuilt: seq<Id>,
                 rank: map<Id, nat>, hrank: map<Id, nat>)
    requires root in g && WalkInv(g, root, heap, [], processing, done, rebuilt, rank, hrank)
    ensures root in done && forall id :: id in rebuilt ==> Reachable(g, root, id)
    ensures Ranked(g, rank) ==> forall id :: Reachable(g, root, id) ==> id in rebuilt
    ensures Ranked(g, rank) ==>
      Ranked(heap, hrank) && TreeOf(heap, hrank, done[root]) == Unmark(TreeOf(g, rank, root))
  {
    if Ranked(g, rank) {
      CopyIsUnmarked(g, rank, heap, hrank, done, root);
      forall id | Reachable(g, root, id) ensures id in rebuilt {
        var n: nat :| ReachedIn(g, root, id, n);
        ReachedIsDone(g, heap, done, root, id, n);
      }
    }
  }

  // A marker on top stands on a node in progress whose children are finished.
  lemma {:induction false} MarkerReady(g: Graph, root: Id, heap: Graph, stack: seq<Entry>, processing: set<Id>,
                                       done: map<Id, Id>, rebuilt: seq<Id>, rank: map<Id, nat>, hrank: map<Id, nat>)
    requires WalkInv(g, root, heap, stack, processing, done, rebuilt, rank, hrank)
    requires stack != [] && stack[|stack| - 1].PostProcess?
    ensures |stack| >= 2 && stack[|stack| - 2].Visit?
    ensures var id := stack[|stack| - 2].id;
      id in processing && id in g && id !in done && StackOk(g, stack[..|stack| - 2], processing - {id})
    ensures stack[|stack| - 2] == Visit(stack[|stack| - 2].id)
    ensures forall j :: |stack| - 2 < j < |stack| ==> stack[j].PostProcess?
    ensures Ranked(g, rank) ==> forall c :: c in Children(g[stack[|stack| - 2].id]) ==> c in done
  {
    assert StackOk(g, stack, processing);
    DropMarker(g, stack, processing);
    assert MarkerAt(stack, |stack| - 1);
    if Ranked(g, rank) { ChildrenFinished(g, stack, done); }
  }

  method Finish(g: Graph, heap: Graph, next: Id, id: Id, done: map<Id, Id>, ghost rank: map<Id, nat>,
                ghost hrank: map<Id, nat>)
    returns (heap': Graph, next': Id, done': map<Id, Id>, ghost hrank': map<Id, nat>)
    requires id in g && id !in done && Extends(g, heap) && Bounded(heap, next)
    requires forall x :: x in done ==> x in g && done[x] in heap
    requires Ranked(g, rank) ==> Copied(g, heap, done) && RankedCopy(g, rank, heap, hrank, done)
    requires Ranked(g, rank) ==> forall c :: c in Children(g[id]) ==> c in done
    ensures Extends(g, heap') && Extends(heap, heap') && Bounded(heap', next') && |heap'| <= |heap| + 1
    ensures done'.Keys == done.Keys + {id} && forall x :: x in done' ==> done'[x] in heap'
    ensures Ranked(g, rank) ==> Copied(g, heap', done') && RankedCopy(g, rank, heap', hrank', done')
  {
    var r;
    heap', next', r := RebuildUnmarked(heap, next, id, done);
    done' := done[id := r];
    hrank' := hrank;
    CardinalityOfExtension(heap, heap', r);
    if Ranked(g, rank) {
      CopiedStep(g, heap, heap', done, id, r);
      RankedStep(g, rank, heap, hrank, heap', done, id, r);
      hrank' := hrank[r := rank[id]];
    }
  }

  lemma CardinalityOfExtension(h: Graph, h': Graph, r: Id)
    requires h'.Keys == h.Keys + {r}
    ensures |h'| <= |h| + 1
  {
    assert |h'| == |h'.Keys| && |h| == |h.Keys|;
    if r in h { assert h'.Keys == h.Keys; }
  }

  lemma {:induction false} ReachedIsDone(g: Graph, h: Graph, done: map<Id, Id>, root: Id, id: Id, n: nat)
    requires Copied(g, h, done) && root in done && ReachedIn(g, root, id, n)
    ensures id in done
    decreases n
  {
    if n > 0 {
      var p :| p in g && ReachedIn(g, root, p, n - 1) && id in Children(g[p]);
      ReachedIsDone(g, h, done, root, p, n - 1);
    }
  }
}
