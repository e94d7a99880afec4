/** A lossless, ordered channel that carries a sequence of references in chunks. */
module Links {
  import opened MessageRefs

  datatype Chunk = Chunk(refs: seq<MessageRef>, isFinal: bool)

  /** Chunks in flight, the number of references received, and whether the final chunk was. */
  datatype Link = Link(queue: seq<Chunk>, got: nat, gotFinal: bool) {
    function Send(refs: seq<MessageRef>, isFinal: bool): Link {
      this.(queue := queue + [Chunk(refs, isFinal)])
    }

    function Receive(): Link
      requires queue != []
    {
      Link(queue[1..], got + |queue[0].refs|, gotFinal || queue[0].isFinal)
    }
  }

  const IDLE: Link := Link([], 0, false)

  ghost function Flatten(queue: seq<Chunk>): seq<MessageRef> {
    if queue == [] then [] else queue[0].refs + Flatten(queue[1..])
  }

  lemma {:induction false} FlattenAppend(queue: seq<Chunk>, c: Chunk)
    ensures Flatten(queue + [c]) == Flatten(queue) + c.refs
  {
    if queue == [] {
      assert queue + [c] == [c];
      assert Flatten([c]) == c.refs + Flatten([]);
    } else {
      FlattenAppend(queue[1..], c);
      assert (queue + [c])[1..] == queue[1..] + [c];
    }
  }

  /** `sent` references of `source` were put into the link, `got` of them were received. */
  ghost predicate Inv(l: Link, source: seq<MessageRef>, sent: nat, finalSent: bool) {
    && l.got <= sent <= |source|
    && Flatten(l.queue) == source[l.got..sent]
    && (forall i | 0 <= i < |l.queue| && l.queue[i].isFinal :: i == |l.queue| - 1)
    && (finalSent <==> l.gotFinal || (l.queue != [] && l.queue[|l.queue| - 1].isFinal))
    && (l.gotFinal ==> l.queue == [])
  }

  lemma SendKeeps(l: Link, source: seq<MessageRef>, sent: nat, count: nat, isFinal: bool)
    requires Inv(l, source, sent, false) && sent + count <= |source|
    ensures Inv(l.Send(source[sent..sent + count], isFinal), source, sent + count, isFinal)
  {
    FlattenAppend(l.queue, Chunk(source[sent..sent + count], isFinal));
  }

  lemma ReceiveKeeps(l: Link, source: seq<MessageRef>, sent: nat, finalSent: bool)
    requires Inv(l, source, sent, finalSent) && l.queue != []
    ensures !l.gotFinal
    ensures Inv(l.Receive(), source, sent, finalSent)
    ensures l.queue[0].refs == source[l.got..l.Receive().got]
    ensures source[..l.got] + l.queue[0].refs == source[..l.Receive().got]
  {
    var n := |l.queue[0].refs|;
    assert Flatten(l.queue)[..n] == l.queue[0].refs;
    assert Flatten(l.queue)[n..] == Flatten(l.queue[1..]);
  }

  lemma SourceGrows(l: Link, source: seq<MessageRef>, more: seq<MessageRef>, sent: nat, finalSent: bool)
    requires Inv(l, source, sent, finalSent)
    ensures Inv(l, source + more, sent, finalSent)
  {
  }

  lemma Drained(l: Link, source: seq<MessageRef>, sent: nat, finalSent: bool)
    requires Inv(l, source, sent, finalSent) && l.queue == []
    ensures l.got == sent && l.gotFinal == finalSent
  {
  }
}
