/** A transform that cuts a stream of data into chunks bounded by item count and size. */
module Chunkers {

  type Data = seq<bv8>

  datatype Chunk = Chunk(items: seq<Data>, isFinal: bool)

  datatype Limits = Limits(items: int, bytes: int) {
    /** The condition under which a buffer is emitted. */
    predicate Reached(items: seq<Data>) {
      |items| >= this.items || Bytes(items) >= bytes
    }
  }

  function Bytes(items: seq<Data>): nat {
    if items == [] then 0 else Bytes(items[..|items| - 1]) + |items[|items| - 1]|
  }

  /** The size of some items is that of all of them together. */
  lemma {:induction false} BytesAreSum(a: seq<Data>, b: seq<Data>, data: Data)
    ensures Bytes([]) == 0 && Bytes([data]) == |data| && Bytes(a + b) == Bytes(a) + Bytes(b)
  {
    assert [data][..0] == [];
    if b == [] {
      assert a + b == a;
    } else {
      BytesAreSum(a, b[..|b| - 1], data);
      assert (a + b)[..|a + b| - 1] == a + b[..|b| - 1];
    }
  }

  /** The value of a chunker; `chunks` are the calls of its callback. */
  datatype State = State(items: seq<Data>, chunkBytes: nat, chunks: seq<Chunk>) {
    function FinishChunkIfReady(limits: Limits, isFinal: bool): State {
      if isFinal || |items| >= limits.items || chunkBytes >= limits.bytes
      then State([], 0, chunks + [Chunk(items, isFinal)])
      else this
    }

    function Transform(limits: Limits, data: Data): State {
      State(items + [data], chunkBytes + |data|, chunks).FinishChunkIfReady(limits, false)
    }
  }

  const EMPTY: State := State([], 0, [])

  class Chunker {
    const limits: Limits
    var items: seq<Data>
    var chunkBytes: nat
    var chunks: seq<Chunk>

    ghost function View(): State
      reads this
    {
      State(items, chunkBytes, chunks)
    }

    constructor (limits: Limits)
      ensures this.limits == limits && View() == EMPTY
    {
      this.limits := limits;
      items, chunkBytes, chunks := [], 0, [];
    }

    method FinishChunkIfReady(isFinal: bool)
      modifies this
      ensures View() == old(View()).FinishChunkIfReady(limits, isFinal)
    {
      if isFinal || |items| >= limits.items || chunkBytes >= limits.bytes {
        chunks := chunks + [Chunk(items, isFinal)];
        items := [];
        chunkBytes := 0;
      }
    }

    method Transform(data: Data)
      modifies this
      ensures View() == old(View()).Transform(limits, data)
    {
      items := items + [data];
      chunkBytes := chunkBytes + |data|;
      FinishChunkIfReady(false);
    }
  }

  function TransformAll(s: State, limits: Limits, input: seq<Data>): State
    decreases |input|
  {
    if input == [] then s else TransformAll(s.Transform(limits, input[0]), limits, input[1..])
  }

  /** All callback calls for a whole input stream. */
  function ChunksOf(limits: Limits, input: seq<Data>): seq<Chunk> {
    TransformAll(EMPTY, limits, input).FinishChunkIfReady(limits, true).chunks
  }

  ghost function Concat(chunks: seq<Chunk>): seq<Data> {
    if chunks == [] then [] else Concat(chunks[..|chunks| - 1]) + chunks[|chunks| - 1].items
  }

  /** No nonempty prefix of `items`, up to length `n`, reaches a limit. */
  ghost predicate Below(limits: Limits, items: seq<Data>, n: int) {
    forall k | 0 < k <= n && k <= |items| :: !limits.Reached(items[..k])
  }

  /** A chunk that was cut at the first moment a limit was reached. */
  ghost predicate Tight(limits: Limits, chunk: Chunk) {
    !chunk.isFinal && chunk.items != [] && limits.Reached(chunk.items) && Below(limits, chunk.items, |chunk.items| - 1)
  }

  /** A bounded partition: tight chunks, then one final chunk below the limits. */
  ghost predicate IsChunking(limits: Limits, input: seq<Data>, chunks: seq<Chunk>) {
    && chunks != []
    && Concat(chunks) == input
    && (forall i | 0 <= i < |chunks| - 1 :: Tight(limits, chunks[i]))
    && var last := chunks[|chunks| - 1];
    last.isFinal && Below(limits, last.items, |last.items|)
  }

  ghost predicate Inv(s: State, limits: Limits, input: seq<Data>) {
    && Concat(s.chunks) + s.items == input
    && s.chunkBytes == Bytes(s.items)
    && (forall i | 0 <= i < |s.chunks| :: Tight(limits, s.chunks[i]))
    && Below(limits, s.items, |s.items|)
  }

  /** One more item: the shorter prefixes are those of before. */
  lemma BelowMore(limits: Limits, items: seq<Data>, data: Data)
    requires Below(limits, items, |items|)
    ensures Bytes(items + [data]) == Bytes(items) + |data|
    ensures Below(limits, items + [data], |items|)
    ensures !limits.Reached(items + [data]) ==> Below(limits, items + [data], |items| + 1)
  {
    var more := items + [data];
    assert more[..|more| - 1] == items && more[..|more|] == more;
    forall k | 0 < k <= |items| ensures !limits.Reached(more[..k]) {
      assert more[..k] == items[..k];
    }
  }

  lemma ConcatMore(chunks: seq<Chunk>, chunk: Chunk)
    ensures Concat(chunks + [chunk]) == Concat(chunks) + chunk.items
  {
    assert (chunks + [chunk])[..|chunks|] == chunks;
  }

  lemma TransformKeeps(s: State, limits: Limits, input: seq<Data>, data: Data)
    requires Inv(s, limits, input)
    ensures Inv(s.Transform(limits, data), limits, input + [data])
  {
    hide Bytes, Below, Concat;
    var items := s.items + [data];
    BelowMore(limits, s.items, data);
    assert Concat(s.chunks) + items == input + [data];
    if limits.Reached(items) {
      ConcatMore(s.chunks, Chunk(items, false));
      EmptyIsBelow(limits);
    }
  }

  lemma EmptyIsBelow(limits: Limits)
    ensures Bytes([]) == 0 && Below(limits, [], 0)
  {
  }

  lemma {:induction false} TransformAllKeeps(s: State, limits: Limits, input: seq<Data>, more: seq<Data>)
    requires Inv(s, limits, input)
    ensures Inv(TransformAll(s, limits, more), limits, input + more)
    decreases |more|
  {
    if more == [] {
      assert input + more == input;
    } else {
      TransformKeeps(s, limits, input, more[0]);
      TransformAllKeeps(s.Transform(limits, more[0]), limits, input + [more[0]], more[1..]);
      assert input + more == (input + [more[0]]) + more[1..];
    }
  }

  /**
   The chunks concatenate to the input; exactly the last one is final; every other
   chunk reaches a limit, and nothing shorter would have.
   */
  lemma ChunksPartition(limits: Limits, input: seq<Data>)
    ensures IsChunking(limits, input, ChunksOf(limits, input))
  {
    TransformAllKeeps(EMPTY, limits, [], input);
    assert [] + input == input;
    var s := TransformAll(EMPTY, limits, input);
    var chunks := ChunksOf(limits, input);
    assert chunks[..|chunks| - 1] == s.chunks;
  }

  /** In terms of the limits: a chunk but the last reaches one of them, and nothing shorter reaches any. */
  lemma ChunksAreBounded(limits: Limits, input: seq<Data>, i: nat)
    requires i < |ChunksOf(limits, input)|
    ensures var chunk := ChunksOf(limits, input)[i];
      && (!chunk.isFinal ==> |chunk.items| >= limits.items || Bytes(chunk.items) >= limits.bytes)
      && (forall k | 0 < k < |chunk.items| :: k < limits.items && Bytes(chunk.items[..k]) < limits.bytes)
      && (chunk.isFinal && chunk.items != [] ==> |chunk.items| < limits.items && Bytes(chunk.items) < limits.bytes)
  {
    ChunksPartition(limits, input);
    var chunks := ChunksOf(limits, input);
    var items := chunks[i].items;
    assert Below(limits, items, if i == |chunks| - 1 then |items| else |items| - 1);
    forall k | 0 < k < |items| ensures k < limits.items && Bytes(items[..k]) < limits.bytes {
      assert !limits.Reached(items[..k]);
    }
    assert items[..|items|] == items;
  }

  lemma {:induction false} ConcatSplit(chunks: seq<Chunk>)
    requires chunks != []
    ensures Concat(chunks) == chunks[0].items + Concat(chunks[1..])
  {
    var n := |chunks|;
    if n > 1 {
      ConcatSplit(chunks[..n - 1]);
      assert chunks[..n - 1][1..] == chunks[1..][..n - 2];
    } else {
      assert chunks[..0] == [] && chunks[1..] == [];
      assert Concat([]) == [];
    }
  }

  /** The partition is the only one with these properties. */
  lemma {:induction false} ChunkingUnique(limits: Limits, input: seq<Data>, a: seq<Chunk>, b: seq<Chunk>)
    requires IsChunking(limits, input, a) && IsChunking(limits, input, b)
    ensures a == b
    decreases |a|
  {
    ConcatSplit(a);
    ConcatSplit(b);
    FirstChunk(limits, input, a, b);
    FirstChunk(limits, input, b, a);
    assert a[0].items == input[..|a[0].items|] && b[0].items == input[..|b[0].items|];
    if |a| == 1 {
      assert a[1..] == [] && Concat([]) == [];
    } else {
      var rest := input[|a[0].items|..];
      assert Concat(a[1..]) == rest;
      assert Concat(b[1..]) == rest;
      ChunkingUnique(limits, rest, a[1..], b[1..]);
    }
  }

  /** The first chunk of `a` is no longer than that of `b`, and final only if it is. */
  lemma FirstChunk(limits: Limits, input: seq<Data>, a: seq<Chunk>, b: seq<Chunk>)
    requires IsChunking(limits, input, a) && IsChunking(limits, input, b)
    ensures |a[0].items| <= |b[0].items|
    ensures |a| == 1 <==> |b| == 1
  {
    ConcatSplit(a);
    ConcatSplit(b);
    var m, n := |a[0].items|, |b[0].items|;
    assert a[0].items == input[..m] && b[0].items == input[..n];
    assert n <= m ==> input[..m][..n] == input[..n];
    assert m <= n ==> input[..n][..m] == input[..m];
    assert Concat([]) == [];
    assert |a| == 1 ==> a[1..] == [] && m == |input|;
    assert |b| == 1 ==> b[1..] == [] && n == |input|;
  }
}
