// src/pyvider/handler.py:99-123, 426-568 and src/pyvider/state_stores/manager.py:82-92, 185-195:
// states cross the wire in chunks, in both directions.
module Streaming {
  import opened Options
  import opened Texts
  import opened StoreCalls
  import opened MemoryStore

  const DEFAULT_CHUNK_SIZE := 8 * 1024 * 1024
  const MAX_CHUNK_SIZE := 128 * 1024 * 1024

  // end is the index of the last byte, not one past it.
  datatype Range = Range(start: nat, end: nat)

  datatype ReadChunk = ReadChunk(bytes: seq<Byte>, totalLength: nat, range: Range, failed: bool)

  datatype Meta = Meta(typeName: Text, stateId: Text)

  datatype WriteChunk = WriteChunk(meta: Option<Meta>, bytes: seq<Byte>, totalLength: nat)

  datatype Outcome = Written | MissingMeta | TruncatedStream(declared: nat, received: nat) | NotPersisted

  function NormalizeChunkSize(n: int): (size: nat)
    ensures 1 <= size <= MAX_CHUNK_SIZE
    ensures 1 <= n <= MAX_CHUNK_SIZE ==> size == n
    ensures n > MAX_CHUNK_SIZE ==> size == MAX_CHUNK_SIZE
    ensures n <= 0 ==> size == 8 * 1024 * 1024
  {
    if n <= 0 then DEFAULT_CHUNK_SIZE else if n < MAX_CHUNK_SIZE then n else MAX_CHUNK_SIZE
  }

  // ------------------------------------------------------------------ what a read sends

  function ChunkAt(state: seq<Byte>, size: nat, start: nat): ReadChunk
    requires start < |state| && size > 0
  {
    var end := if start + size < |state| then start + size else |state|;
    ReadChunk(state[start..end], |state|, Range(start, end - 1), false)
  }

  function ChunksFrom(state: seq<Byte>, size: nat, start: nat): seq<ReadChunk>
    requires size > 0
    decreases |state| - start
  {
    if start >= |state| then [] else [ChunkAt(state, size, start)] + ChunksFrom(state, size, start + size)
  }

  // A missing state reads as an empty one; both are one chunk that still carries a range.
  function Sent(state: seq<Byte>, size: nat): seq<ReadChunk>
    requires size > 0
  {
    if state == [] then [ReadChunk([], 0, Range(0, 0), false)] else ChunksFrom(state, size, 0)
  }

  function ReadBytes(chunks: seq<ReadChunk>): seq<Byte> {
    if chunks == [] then [] else chunks[0].bytes + ReadBytes(chunks[1..])
  }

  // How Terraform Core reads the ranges: contiguous from the given start, each exactly as long as its
  // chunk, and only the last reaching the declared total.
  ghost predicate Tiles(chunks: seq<ReadChunk>, from: nat, total: nat) {
    if chunks == [] then from >= total
    else
      var c := chunks[0];
      && c.range.start == from && c.range.end + 1 == from + |c.bytes| && c.bytes != []
      && c.totalLength == total && !c.failed
      && (c.range.end >= total - 1 <==> chunks[1..] == [])
      && c.range.end < total
      && Tiles(chunks[1..], c.range.end + 1, total)
  }

  lemma {:induction false} ChunksTile(state: seq<Byte>, size: nat, start: nat)
    requires size > 0
    ensures Tiles(ChunksFrom(state, size, start), start, |state|)
    ensures ReadBytes(ChunksFrom(state, size, start)) == if start >= |state| then [] else state[start..]
    ensures forall i :: 0 <= i < |ChunksFrom(state, size, start)| ==> |ChunksFrom(state, size, start)[i].bytes| <= size
    decreases |state| - start
  {
    if start < |state| {
      ChunksTile(state, size, start + size);
      var rest := ChunksFrom(state, size, start + size);
      assert ChunksFrom(state, size, start)[1..] == rest;
      if start + size < |state| {
        assert state[start..] == state[start..start + size] + state[start + size..];
      } else {
        assert rest == [];
      }
    }
  }

  predicate Blank(c: ReadChunk) {
    c.bytes == [] && c.totalLength == 0 && c.range == Range(0, 0) && !c.failed
  }

  // Whatever chunk size was negotiated, what is sent tiles the state and joins to it. An empty state is one
  // chunk without bytes, which does not report a failure.
  lemma SentTiles(state: seq<Byte>, size: nat)
    requires size > 0
    ensures state == [] ==> |Sent(state, size)| == 1 && Blank(Sent(state, size)[0])
    ensures state != [] ==> Tiles(Sent(state, size), 0, |state|) 
    ensures ReadBytes(Sent(state, size)) == state
    ensures state != [] ==> forall i :: 0 <= i < |Sent(state, size)| ==> 1 <= |Sent(state, size)[i].bytes| <= size
  {
    if state == [] { return; }
    ChunksTile(state, size, 0);
    TilesNonEmpty(Sent(state, size), 0, |state|);
    assert state[0..] == state;
  }

  lemma {:induction false} TilesNonEmpty(chunks: seq<ReadChunk>, from: nat, total: nat)
    requires Tiles(chunks, from, total)
    ensures forall i :: 0 <= i < |chunks| ==> chunks[i].bytes != [] && chunks[i].totalLength == total
  {
    if chunks != [] {
      TilesNonEmpty(chunks[1..], chunks[0].range.end + 1, total);
      forall i | 0 <= i < |chunks| ensures chunks[i].bytes != [] && chunks[i].totalLength == total {
        assert i > 0 ==> chunks[i] == chunks[1..][i - 1];
      }
    }
  }

  // Nothing else joins to the state and tiles it with chunks of exactly the negotiated size but the last.
  lemma {:induction false} TilingIsUnique(state: seq<Byte>, size: nat, start: nat, chunks: seq<ReadChunk>)
    requires size > 0 && start <= |state| && Tiles(chunks, start, |state|) && ReadBytes(chunks) == state[start..]
    requires forall i :: 0 <= i < |chunks| ==>
      |chunks[i].bytes| <= size && (i < |chunks| - 1 ==> |chunks[i].bytes| == size)
    ensures chunks == ChunksFrom(state, size, start)
    decreases |chunks|
  {
    if chunks != [] {
      var c, next := chunks[0], chunks[0].range.end + 1;
      assert state[start..][..|c.bytes|] == c.bytes;
      assert c.bytes == state[start..next];
      assert ReadBytes(chunks[1..]) == state[start..][|c.bytes|..] == state[next..];
      if chunks[1..] == [] {
        assert chunks == [c];
      } else {
        forall i | 0 <= i < |chunks[1..]|
          ensures |chunks[1..][i].bytes| <= size && (i < |chunks[1..]| - 1 ==> |chunks[1..][i].bytes| == size)
        {
          assert chunks[1..][i] == chunks[i + 1];
        }
        TilingIsUnique(state, size, next, chunks[1..]);
        assert chunks == [c] + chunks[1..];
      }
    }
  }

  // ------------------------------------------------------------------ what a written stream amounts to

  function WrittenBytes(chunks: seq<WriteChunk>): seq<Byte> {
    if chunks == [] then [] else WrittenBytes(chunks[..|chunks| - 1]) + chunks[|chunks| - 1].bytes
  }

  // The last metadata sent, and the last length declared.
  function SentMeta(chunks: seq<WriteChunk>): Meta {
    if chunks == [] then Meta([], [])
    else if chunks[|chunks| - 1].meta.Some? then chunks[|chunks| - 1].meta.value
    else SentMeta(chunks[..|chunks| - 1])
  }

  function DeclaredLength(chunks: seq<WriteChunk>): nat {
    if chunks == [] then 0
    else if chunks[|chunks| - 1].totalLength != 0 then chunks[|chunks| - 1].totalLength
    else DeclaredLength(chunks[..|chunks| - 1])
  }

  // Chunk i is the last one with metadata; or the last one that declares a length.
  ghost predicate LastWithMeta(stream: seq<WriteChunk>, i: int) {
    0 <= i < |stream| && stream[i].meta.Some? && forall j :: i < j < |stream| ==> stream[j].meta.None?
  }

  ghost predicate LastWithLength(stream: seq<WriteChunk>, i: int) {
    0 <= i < |stream| && stream[i].totalLength != 0 && forall j :: i < j < |stream| ==> stream[j].totalLength == 0
  }

  // Their metadata and length count, blank metadata and no length where there are none.
  ghost predicate LastWins(stream: seq<WriteChunk>, meta: Meta, declared: nat) {
    && (forall i :: LastWithMeta(stream, i) ==> meta == stream[i].meta.value)
    && ((forall i :: 0 <= i < |stream| ==> stream[i].meta.None?) ==> meta == Meta([], []))
    && (forall i :: LastWithLength(stream, i) ==> declared == stream[i].totalLength)
    && ((forall i :: 0 <= i < |stream| ==> stream[i].totalLength == 0) ==> declared == 0)
  }

  lemma {:induction false} LastMetaCounts(stream: seq<WriteChunk>)
    ensures forall i :: LastWithMeta(stream, i) ==> SentMeta(stream) == stream[i].meta.value
    ensures (forall i :: 0 <= i < |stream| ==> stream[i].meta.None?) ==> SentMeta(stream) == Meta([], [])
    decreases |stream|
  {
    if stream != [] {
      var n := |stream| - 1;
      var init := stream[..n];
      LastMetaCounts(init);
      forall i | LastWithMeta(stream, i) ensures SentMeta(stream) == stream[i].meta.value {
        if i < n { assert stream[n].meta.None? && LastWithMeta(init, i); }
      }
    }
  }

  lemma {:induction false} LastLengthCounts(stream: seq<WriteChunk>)
    ensures forall i :: LastWithLength(stream, i) ==> DeclaredLength(stream) == stream[i].totalLength
    ensures (forall i :: 0 <= i < |stream| ==> stream[i].totalLength == 0) ==> DeclaredLength(stream) == 0
    decreases |stream|
  {
    if stream != [] {
      var n := |stream| - 1;
      var init := stream[..n];
      LastLengthCounts(init);
      forall i | LastWithLength(stream, i) ensures DeclaredLength(stream) == stream[i].totalLength {
        if i < n { assert stream[n].totalLength == 0 && LastWithLength(init, i); }
      }
    }
  }

  // _drain_state_stream
  method DrainStateStream(stream: seq<WriteChunk>) returns (meta: Meta, state: seq<Byte>, declared: nat)
    ensures meta == SentMeta(stream) && state == WrittenBytes(stream) && declared == DeclaredLength(stream)
    ensures LastWins(stream, meta, declared)
  {
    meta, state, declared := Meta([], []), [], 0;
    for i := 0 to |stream|
      invariant meta == SentMeta(stream[..i]) && state == WrittenBytes(stream[..i])
      invariant declared == DeclaredLength(stream[..i])
    {
      assert stream[..i + 1][..i] == stream[..i];
      if stream[i].meta.Some? { meta := stream[i].meta.value; }
      if stream[i].bytes != [] { state := state + stream[i].bytes; }
      if stream[i].totalLength != 0 { declared := stream[i].totalLength; }
    }
    assert stream[..|stream|] == stream;
    LastCounts(stream);
  }

  lemma {:induction false} LastCounts(stream: seq<WriteChunk>)
    ensures LastWins(stream, SentMeta(stream), DeclaredLength(stream))
  {
    LastMetaCounts(stream);
    LastLengthCounts(stream);
  }

  predicate Whole(stream: seq<WriteChunk>) {
    DeclaredLength(stream) == 0 || DeclaredLength(stream) == |WrittenBytes(stream)|
  }

  predicate Addressed(stream: seq<WriteChunk>) {
    SentMeta(stream).typeName != [] && SentMeta(stream).stateId != []
  }

  // The outcome of a write, and the store after it.
  function WriteResult(m: Mem, stream: seq<WriteChunk>, broken: bool): (Mem, Outcome) {
    if !Addressed(stream) then (m, MissingMeta)
    else if !Whole(stream) then (m, TruncatedStream(DeclaredLength(stream), |WrittenBytes(stream)|))
    else if broken then (m, NotPersisted)
    else (m.(data := m.data[(SentMeta(stream).typeName, SentMeta(stream).stateId) := WrittenBytes(stream)]), Written)
  }

  // The loop that yields one chunk after another.
  method Chunked(state: seq<Byte>, size: nat) returns (chunks: seq<ReadChunk>)
    requires state != [] && size > 0
    ensures chunks == Sent(state, size)
  {
    chunks := [];
    var start := 0;
    while start < |state|
      invariant chunks + ChunksFrom(state, size, start) == ChunksFrom(state, size, 0)
      decreases |state| - start
    {
      var end := if start + size < |state| then start + size else |state|;
      chunks := chunks + [ReadChunk(state[start..end], |state|, Range(start, end - 1), false)];
      start := start + size;
    }
  }

  // The handlers over one backend and the chunk sizes negotiated so far; broken stands for a backend
  // that raises.
  class StateService {
    const store: InMemoryStateStore
    var chunkSizes: map<Text, nat>

    ghost predicate Valid()
      reads this
    {
      forall t :: t in chunkSizes ==> 1 <= chunkSizes[t] <= MAX_CHUNK_SIZE
    }

    ghost function Size(t: Text): (size: nat)
      requires Valid()
      reads this
      ensures 1 <= size <= MAX_CHUNK_SIZE
    {
      if t in chunkSizes then chunkSizes[t] else DEFAULT_CHUNK_SIZE
    }

    constructor (s: InMemoryStateStore)
      ensures Valid() && store == s && chunkSizes == map[]
    {
      store := s;
      chunkSizes := map[];
    }

    method SetChunkSize(t: Text, n: int) returns (size: nat)
      requires Valid()
      modifies this
      ensures Valid() && size == NormalizeChunkSize(n) == Size(t)
      ensures forall u :: u != t ==> Size(u) == old(Size(u))
    {
      size := NormalizeChunkSize(n);
      chunkSizes := chunkSizes[t := size];
    }

    method ReadStateBytes(t: Text, id: Text, broken: bool) returns (chunks: seq<ReadChunk>)
      requires Valid()
      ensures broken ==> chunks == [ReadChunk([], 0, Range(0, 0), true)]
      ensures !broken ==>
        chunks == Sent(if (t, id) in store.data then store.data[(t, id)] else [], Size(t))
    {
      if broken { return [ReadChunk([], 0, Range(0, 0), true)]; }
      var found := store.ReadState(t, id);
      var state := if found.Some? then found.value else [];
      var size := if t in chunkSizes then chunkSizes[t] else DEFAULT_CHUNK_SIZE;
      size := if size > 1 then size else 1;
      if state == [] { return [ReadChunk([], 0, Range(0, 0), false)]; }
      chunks := Chunked(state, size);
    }

    method WriteStateBytes(stream: seq<WriteChunk>, broken: bool) returns (r: Outcome)
      modifies store
      ensures (store.Contents(), r) == WriteResult(old(store.Contents()), stream, broken)
      ensures r.MissingMeta? <==> SentMeta(stream).typeName == [] || SentMeta(stream).stateId == []
      ensures r.TruncatedStream? <==>
        !r.MissingMeta? && DeclaredLength(stream) != 0 && DeclaredLength(stream) != |WrittenBytes(stream)|
      ensures r.TruncatedStream? ==> r == TruncatedStream(DeclaredLength(stream), |WrittenBytes(stream)|)
      ensures r.NotPersisted? <==> !r.MissingMeta? && !r.TruncatedStream? && broken
      ensures r.Written? ==>
        store.data == old(store.data)[(SentMeta(stream).typeName, SentMeta(stream).stateId) := WrittenBytes(stream)]
      ensures !r.Written? ==> store.Contents() == old(store.Contents())
    {
      var meta, state, declared := DrainStateStream(stream);
      if meta.typeName == [] || meta.stateId == [] { return MissingMeta; }
      if declared != 0 && declared != |state| { return TruncatedStream(declared, |state|); }
      if broken { return NotPersisted; }
      store.WriteState(meta.typeName, meta.stateId, state);
      assert store.Contents() == MemApply(old(store.Contents()), Write(meta.typeName, meta.stateId, state, STEM)).0;
      return Written;
    }
  }

  // ------------------------------------------------------------------ reading and writing back

  // What was read, sent back the way Core does: the address on the first chunk only.
  function SentBack(chunks: seq<ReadChunk>, meta: Meta): seq<WriteChunk> {
    seq(|chunks|, i requires 0 <= i < |chunks| =>
      WriteChunk(if i == 0 then Some(meta) else None, chunks[i].bytes, chunks[i].totalLength))
  }

  lemma {:induction false} SentBackAmounts(chunks: seq<ReadChunk>, meta: Meta, total: nat)
    requires chunks != [] && forall i :: 0 <= i < |chunks| ==> chunks[i].totalLength == total
    ensures SentMeta(SentBack(chunks, meta)) == meta
    ensures DeclaredLength(SentBack(chunks, meta)) == total
    ensures WrittenBytes(SentBack(chunks, meta)) == ReadBytes(chunks)
    decreases |chunks|
  {
    var w, n := SentBack(chunks, meta), |chunks| - 1;
    assert w[..n] == SentBack(chunks[..n], meta);
    ReadBytesAppend(chunks[..n], chunks[n]);
    assert chunks[..n] + [chunks[n]] == chunks;
    if n > 0 {
      SentBackAmounts(chunks[..n], meta, total);
    } else {
      assert chunks[..0] == [];
    }
  }

  lemma {:induction false} ReadBytesAppend(chunks: seq<ReadChunk>, c: ReadChunk)
    ensures ReadBytes(chunks + [c]) == ReadBytes(chunks) + c.bytes
  {
    if chunks != [] {
      ReadBytesAppend(chunks[1..], c);
      assert (chunks + [c])[1..] == chunks[1..] + [c];
    } else {
      assert ([c])[1..] == [];
    }
  }

  // Every state survives being read and written back, at every chunk size, empty states included.
  lemma ReadWriteRoundTrip(m: Mem, state: seq<Byte>, size: nat, meta: Meta)
    requires size > 0 && meta.typeName != [] && meta.stateId != []
    ensures WriteResult(m, SentBack(Sent(state, size), meta), false) ==
      (m.(data := m.data[(meta.typeName, meta.stateId) := state]), Written)
  {
    if state != [] {
      SentTiles(state, size);
      TilesNonEmpty(Sent(state, size), 0, |state|);
    }
    SentBackAmounts(Sent(state, size), meta, |state|);
  }

  // Of a state sent back, no stream with chunks missing is stored: not one that ends early, and not one
  // that lost chunks from its middle.
  lemma {:induction false} LostChunksAreNoticed(m: Mem, state: seq<Byte>, size: nat, meta: Meta, i: nat, j: nat)
    requires state != [] && size > 0
    requires 0 < i < j <= |Sent(state, size)|
    ensures var w := SentBack(Sent(state, size), meta);
      WriteResult(m, w[..i] + w[j..], false).0 == m && !Whole(w[..i] + w[j..])
  {
    var chunks := Sent(state, size);
    var w := SentBack(chunks, meta);
    SentTiles(state, size);
    TilesNonEmpty(chunks, 0, |state|);
    var kept := chunks[..i] + chunks[j..];
    SentBackKept(chunks, meta, i, j);
    SentBackAmounts(kept, meta, |state|);
    FewerBytes(chunks, i, j);
  }

  lemma SentBackKept(chunks: seq<ReadChunk>, meta: Meta, i: nat, j: nat)
    requires 0 < i <= j <= |chunks|
    ensures SentBack(chunks, meta)[..i] + SentBack(chunks, meta)[j..] == SentBack(chunks[..i] + chunks[j..], meta)
  {
  }

  lemma {:induction false} FewerBytes(chunks: seq<ReadChunk>, i: nat, j: nat)
    requires i < j <= |chunks| && chunks[i].bytes != []
    ensures |ReadBytes(chunks[..i] + chunks[j..])| < |ReadBytes(chunks)|
  {
    var a, b, c := chunks[..i], chunks[i..j], chunks[j..];
    JoinedLength(a, c);
    JoinedLength(a + b, c);
    JoinedLength(a, b);
    assert (a + b) + c == chunks;
    assert b[0] == chunks[i];
    assert |ReadBytes(b)| >= |b[0].bytes|;
  }

  lemma JoinedLength(a: seq<ReadChunk>, b: seq<ReadChunk>)
    ensures |ReadBytes(a + b)| == |ReadBytes(a)| + |ReadBytes(b)|
  {
    ReadBytesSplit(a, b);
  }

  lemma Reassociate(x: seq<Byte>, y: seq<Byte>, z: seq<Byte>)
    ensures (x + y) + z == x + (y + z)
  {
  }

  lemma {:induction false} ReadBytesSplit(a: seq<ReadChunk>, b: seq<ReadChunk>)
    ensures ReadBytes(a + b) == ReadBytes(a) + ReadBytes(b)
  {
    if a == [] {
      assert a + b == b;
    } else {
      ReadBytesSplit(a[1..], b);
      var whole := a + b;
      assert whole[0] == a[0] && whole[1..] == a[1..] + b;
      Reassociate(a[0].bytes, ReadBytes(a[1..]), ReadBytes(b));
    }
  }
}
