/** The buckets in memory: finding one for a timestamp, counting into it, storing and evicting it. */
module BucketManagers {
  import opened MessageRefs
  import opened StreamData
  import opened BucketTables
  import opened Buckets
  import opened BucketProgress

  /** The buckets of a stream part, and the least timestamp that has none. */
  datatype PartState = PartState(heap: seq<Bucket>, minTimestamp: Option<int>)

  ghost function Views(heap: seq<Bucket>): (views: seq<Value>)
    reads heap
    ensures |views| == |heap|
    ensures forall i | 0 <= i < |heap| :: views[i] == heap[i].View()
  {
    seq(|heap|, i requires 0 <= i < |heap| reads heap => heap[i].View())
  }

  /** The state of a stream part once `timestamp` is pending, too. */
  function Waiting(streamParts: map<StreamPart, PartState>, part: StreamPart, timestamp: int): PartState {
    if part !in streamParts then PartState([], Some(timestamp))
    else
      var stream := streamParts[part];
      if stream.minTimestamp.Some? && stream.minTimestamp.value < timestamp then stream
      else stream.(minTimestamp := Some(timestamp))
  }

  /** The stream parts after some timestamps of `part` in a row found no bucket. */
  function AllWaiting(streamParts: map<StreamPart, PartState>, part: StreamPart,
                      timestamps: seq<int>): map<StreamPart, PartState> {
    if timestamps == [] then streamParts
    else
      var before := AllWaiting(streamParts, part, timestamps[..|timestamps| - 1]);
      before[part := Waiting(before, part, timestamps[|timestamps| - 1])]
  }

  /** The timestamp kept is the least of those that found no bucket since none was pending. */
  lemma {:induction false} LeastIsPending(streamParts: map<StreamPart, PartState>, part: StreamPart,
                                          timestamps: seq<int>)
    requires timestamps != []
    requires part in streamParts ==> streamParts[part].minTimestamp == None
    ensures var after := AllWaiting(streamParts, part, timestamps);
      && part in after && after[part].minTimestamp.Some?
      && after[part].minTimestamp.value in timestamps
      && (forall t | t in timestamps :: after[part].minTimestamp.value <= t)
      && (forall p | p in streamParts && p != part :: p in after && after[p] == streamParts[p])
  {
    var n := |timestamps| - 1;
    if n > 0 {
      LeastIsPending(streamParts, part, timestamps[..n]);
    }
    assert timestamps == timestamps[..n] + [timestamps[n]];
  }

  /** The bucket objects have the given values. */
  ghost predicate Shows(objects: map<BucketId, Bucket>, views: map<BucketId, Value>)
    reads set i | i in objects :: objects[i]
  {
    forall i | i in objects :: i in views && objects[i].id == i && objects[i].View() == views[i]
  }

  /**
   A round on `objects` with values `before` has come to `buckets` with values
   `views`, but for the fulfilled upserts in `rest`.
   */
  ghost predicate SettledTo(objects: map<BucketId, Bucket>, before: map<BucketId, Value>, fulfilled: map<BucketId, nat>,
                            expired: set<BucketId>, rest: set<BucketId>,
                            buckets: map<BucketId, Bucket>, views: map<BucketId, Value>) {
    && (forall i | i in buckets :: i in objects && buckets[i] == objects[i])
    && (forall i | i in objects :: i in before && i in views)
    && (forall i | i in objects :: views[i] == if i in rest then before[i] else Ended(i, before[i], fulfilled))
    && (forall i | i in objects ::
          i in buckets <==> (i in fulfilled && i !in rest ==> !Leaves(i, before[i], fulfilled, expired)))
  }

  lemma NothingSettled(objects: map<BucketId, Bucket>, before: map<BucketId, Value>, fulfilled: map<BucketId, nat>,
                       expired: set<BucketId>)
    requires Shows(objects, before) && fulfilled.Keys <= objects.Keys
    ensures SettledTo(objects, before, fulfilled, expired, fulfilled.Keys, objects, before)
  {
  }

  lemma SettleMore(objects: map<BucketId, Bucket>, before: map<BucketId, Value>, fulfilled: map<BucketId, nat>,
                   expired: set<BucketId>, rest: set<BucketId>,
                   buckets: map<BucketId, Bucket>, views: map<BucketId, Value>, id: BucketId)
    requires SettledTo(objects, before, fulfilled, expired, rest, buckets, views)
    requires fulfilled.Keys <= objects.Keys && rest <= fulfilled.Keys && id in rest
    ensures id in buckets && id in objects && id in views && buckets[id] == objects[id]
    ensures var v := views[id].Settled(fulfilled[id]);
      SettledTo(objects, before, fulfilled, expired, rest - {id},
                if v.stored && id in expired then buckets - {id} else buckets, views[id := v])
  {
  }

  /** Once all upserts are settled, the sweep leaves the buckets that are not stored, or are alive both times. */
  lemma RoundEnds(objects: map<BucketId, Bucket>, before: map<BucketId, Value>, fulfilled: map<BucketId, nat>,
                  expired: set<BucketId>, settled: map<BucketId, Bucket>, views: map<BucketId, Value>,
                  swept: set<BucketId>, buckets: map<BucketId, Bucket>)
    requires SettledTo(objects, before, fulfilled, expired, {}, settled, views) && fulfilled.Keys <= objects.Keys
    requires forall i :: i in buckets <==> i in settled && !(i in views && views[i].stored && i in swept)
    ensures forall i | i in objects :: i in before && i in views && views[i] == Ended(i, before[i], fulfilled)
    ensures forall i :: i in buckets <==>
      i in objects && i in before && !Leaves(i, before[i], fulfilled, fulfilled.Keys * expired + swept)
    ensures forall i | i in settled :: i in objects && settled[i] == objects[i]
  {
    hide Value.Settled;
  }

  lemma RoundKeepsObjects(objects: map<BucketId, Bucket>, before: map<BucketId, Value>, fulfilled: map<BucketId, nat>,
                          expired: set<BucketId>, settled: map<BucketId, Bucket>, views: map<BucketId, Value>)
    requires SettledTo(objects, before, fulfilled, expired, {}, settled, views)
    ensures forall i | i in settled :: i in objects && settled[i] == objects[i]
  {
  }

  /** A heap holds buckets of its stream part, each once, the latest first. */
  ghost predicate HeapOf(part: StreamPart, heap: seq<Bucket>, buckets: map<BucketId, Bucket>) {
    && IsBucketHeap(heap)
    && Distinct(heap)
    && (forall b | b in heap :: b.part == part && b.id in buckets && buckets[b.id] == b)
  }

  ghost predicate InItsHeap(streamParts: map<StreamPart, PartState>, b: Bucket) {
    b.part in streamParts && b in streamParts[b.part].heap
  }

  /** The buckets in memory are those of the heaps. */
  ghost predicate Registered(streamParts: map<StreamPart, PartState>, buckets: map<BucketId, Bucket>, opts: Options) {
    && (forall i | i in buckets :: buckets[i].id == i && buckets[i].opts == opts && InItsHeap(streamParts, buckets[i]))
    && (forall p | p in streamParts :: HeapOf(p, streamParts[p].heap, buckets))
  }

  /** A stream part waits, and keeps its buckets. */
  lemma WaitingKeeps(streamParts: map<StreamPart, PartState>, buckets: map<BucketId, Bucket>, opts: Options,
                     part: StreamPart, timestamp: int)
    requires Registered(streamParts, buckets, opts)
    ensures Registered(streamParts[part := Waiting(streamParts, part, timestamp)], buckets, opts)
  {
  }

  predicate IsBucketHeap(heap: seq<Bucket>) {
    forall b | b in heap :: b.dateCreate <= heap[0].dateCreate
  }

  ghost predicate Distinct(heap: seq<Bucket>) {
    forall i, j | 0 <= i < j < |heap| :: heap[i] != heap[j]
  }

  /** `result` holds `b` and what `heap` held. */
  ghost predicate Added(heap: seq<Bucket>, b: Bucket, result: seq<Bucket>) {
    && |result| == |heap| + 1 && b in result
    && (forall c | c in heap :: c in result) && (forall c | c in result :: c in heap || c == b)
  }

  /** Only that the head is the latest, and what is in it, is known of a heap. */
  method HeapPush(heap: seq<Bucket>, b: Bucket) returns (result: seq<Bucket>)
    requires IsBucketHeap(heap) && Distinct(heap) && b !in heap
    ensures IsBucketHeap(result) && Distinct(result) && Added(heap, b, result)
  {
    if heap == [] || heap[0].dateCreate < b.dateCreate {
      result := [b] + heap;
    } else {
      result := heap + [b];
    }
  }

  lemma ViewsMembers(heap: seq<Bucket>)
    ensures forall b | b in heap :: b.View() in Views(heap)
    ensures forall v | v in Views(heap) :: exists b :: b in heap && b.View() == v
  {
    forall b | b in heap ensures b.View() in Views(heap) {
      var i :| 0 <= i < |heap| && heap[i] == b;
      assert Views(heap)[i] == b.View();
    }
    forall v | v in Views(heap) ensures exists b :: b in heap && b.View() == v {
      var i :| 0 <= i < |heap| && Views(heap)[i] == v;
      assert heap[i] in heap;
    }
  }

  lemma AddedShows(heap: seq<Bucket>, b: Bucket, result: seq<Bucket>)
    requires IsBucketHeap(result) && Added(heap, b, result)
    ensures Pushed(Views(heap), b.View(), Views(result))
  {
    ViewsMembers(heap);
    ViewsMembers(result);
    hide Views;
    assert result[0].View() == Views(result)[0];
  }

  lemma LoadingKeeps(streamParts: map<StreamPart, PartState>, buckets: map<BucketId, Bucket>, opts: Options,
                     b: Bucket, heap: seq<Bucket>, minTimestamp: Option<int>)
    requires Registered(streamParts, buckets, opts)
    requires b.part in streamParts && b.id !in buckets && b.opts == opts
    requires IsBucketHeap(heap) && Distinct(heap) && Added(streamParts[b.part].heap, b, heap)
    ensures Registered(streamParts[b.part := PartState(heap, minTimestamp)], buckets[b.id := b], opts)
  {
  }

  method Without(heap: seq<Bucket>, b: Bucket) returns (result: seq<Bucket>)
    requires IsBucketHeap(heap) && Distinct(heap)
    ensures IsBucketHeap(result) && Distinct(result)
    ensures b !in result && (forall c | c in heap && c != b :: c in result) && (forall c | c in result :: c in heap)
  {
    result := [];
    var i := 0;
    while i < |heap|
      invariant 0 <= i <= |heap|
      invariant IsBucketHeap(result) && Distinct(result)
      invariant b !in result && (forall k | 0 <= k < i && heap[k] != b :: heap[k] in result)
      invariant forall c | c in result :: c in heap[..i]
    {
      if heap[i] != b {
        result := HeapPush(result, heap[i]);
      }
      i := i + 1;
    }
  }

  lemma RemovingKeeps(streamParts: map<StreamPart, PartState>, buckets: map<BucketId, Bucket>, opts: Options,
                      bucketId: BucketId, heap: seq<Bucket>)
    requires Registered(streamParts, buckets, opts) && bucketId in buckets
    requires var b := buckets[bucketId];
      && b.part in streamParts && IsBucketHeap(heap) && Distinct(heap)
      && b !in heap && (forall c | c in streamParts[b.part].heap && c != b :: c in heap)
      && (forall c | c in heap :: c in streamParts[b.part].heap)
    ensures var b := buckets[bucketId];
      Registered(streamParts[b.part := streamParts[b.part].(heap := heap)], buckets - {bucketId}, opts)
  {
  }

  /** What the two looks at the bucket table of a stream part can find, and the id made for a new bucket. */
  datatype Round = Round(first: seq<BucketRow>, second: seq<BucketRow>, newId: BucketId)

  ghost predicate IsRound(round: Round) {
    && IsTable(round.first) && IsTable(round.second) && round.newId != ""
    && forall r | r in round.first || r in round.second :: r.id != ""
  }

  /** No id made for a new bucket is that of another bucket. */
  ghost predicate AllNew(rounds: map<StreamPart, Round>) {
    && (forall p, q, r | p in rounds && q in rounds && (r in rounds[p].first || r in rounds[p].second) ::
          r.id != rounds[q].newId)
    && (forall p, q | p in rounds && q in rounds && p != q :: rounds[p].newId != rounds[q].newId)
  }

  ghost predicate NotYetIn(rest: set<StreamPart>, rounds: map<StreamPart, Round>, ids: set<BucketId>) {
    forall p | p in rest && p in rounds :: rounds[p].newId !in ids
  }

  /** The buckets a pass brings into memory. */
  ghost predicate Brought(round: Round, before: set<BucketId>, after: set<BucketId>) {
    forall i | i in after ::
      i in before || i == round.newId || exists r :: (r in round.first || r in round.second) && r.id == i
  }

  lemma StaysNew(rounds: map<StreamPart, Round>, part: StreamPart, rest: set<StreamPart>, before: set<BucketId>,
                 after: set<BucketId>)
    requires AllNew(rounds) && part in rounds && Brought(rounds[part], before, after) && NotYetIn(rest, rounds, before)
    ensures NotYetIn(rest - {part}, rounds, after)
  {
  }

  lemma RoundIsNew(part: StreamPart, rest: set<StreamPart>, rounds: map<StreamPart, Round>, ids: set<BucketId>)
    requires AllNew(rounds) && NotYetIn(rest, rounds, ids) && part in rounds && part in rest
    ensures rounds[part].newId !in ids
    ensures forall r | r in rounds[part].first || r in rounds[part].second :: r.id != rounds[part].newId
  {
  }

  lemma BroughtNothing(round: Round, ids: set<BucketId>)
    ensures Brought(round, ids, ids)
  {
  }

  /** A pass that began with `heap` and `ids` in memory ends as its two looks and its insertion leave it. */
  ghost predicate Passed(heap: seq<Value>, ids: set<BucketId>, part: StreamPart, round: Round, minTimestamp: int,
                         opts: Options, after: seq<Value>) {
    exists p, q, r :: Passes(heap, ids, part, round, minTimestamp, opts, p, q, r) && r.heap == after
  }

  ghost predicate Passes(heap: seq<Value>, ids: set<BucketId>, part: StreamPart, round: Round, minTimestamp: int,
                         opts: Options, p: Pass, q: Pass, r: Pass) {
    && LatestChecked(Start(heap, ids, opts), part, round.first, opts, p)
    && PastChecked(p, part, round.second, minTimestamp, opts, q)
    && Inserted(q, part, minTimestamp, round.newId, r)
  }

  /** If the table stays as it is meanwhile, a pass serves its pending timestamp unless that is missed. */
  ghost predicate Served(heap: seq<Value>, ids: set<BucketId>, round: Round, minTimestamp: int, opts: Options,
                         after: seq<Value>) {
    round.first == round.second && NoBucketAt(heap, round.first, minTimestamp) ==>
      (BucketProgress.FindBucketId(after, minTimestamp, opts).Some?
       <==> !Missed(heap, ids, round.first, minTimestamp, opts))
  }

  lemma PassedServes(heap: seq<Value>, ids: set<BucketId>, part: StreamPart, round: Round, minTimestamp: int,
                     opts: Options, p: Pass, q: Pass, r: Pass)
    requires opts.Valid() && IsHeap(heap) && IsRound(round)
    requires LatestChecked(Start(heap, ids, opts), part, round.first, opts, p)
    requires PastChecked(p, part, round.second, minTimestamp, opts, q)
    requires Inserted(q, part, minTimestamp, round.newId, r)
    ensures Passed(heap, ids, part, round, minTimestamp, opts, r.heap)
    ensures Served(heap, ids, round, minTimestamp, opts, r.heap)
    ensures Brought(round, ids, r.ids)
  {
    hide LatestChecked, PastChecked, IsTable, NoBucketAt, Missed, BucketProgress.FindBucketId;
    assert Passes(heap, ids, part, round, minTimestamp, opts, p, q, r);
    LoadsFromTable(heap, ids, part, round.first, round.second, minTimestamp, opts, p, q);
    if round.first == round.second && NoBucketAt(heap, round.first, minTimestamp) {
      PassServesIff(heap, ids, part, round.first, minTimestamp, round.newId, opts, p, q, r);
    }
  }

  /**
   How far a round over all stream parts has come: what they and the ids in memory
   were before it, the ids in memory when each pass began, and the heaps since.
   */
  datatype Progress = Progress(
    parts: map<StreamPart, PartState>,
    was: map<StreamPart, seq<Value>>,
    before: set<BucketId>,
    ids: map<StreamPart, set<BucketId>>,
    heaps: map<StreamPart, seq<Value>>)
  {
    function Extended(part: StreamPart, now: set<BucketId>, heap: seq<Value>): Progress {
      this.(ids := ids[part := now], heaps := heaps[part := heap])
    }
  }

  /** The pass over a stream part with a pending timestamp ended as it should, with `after` in memory now. */
  ghost predicate HadPass(g: Progress, part: StreamPart, rounds: map<StreamPart, Round>, opts: Options,
                          after: set<BucketId>)
    requires part in g.parts && g.parts[part].minTimestamp.Some?
  {
    && part in g.was && part in g.ids && part in rounds && part in g.heaps && g.before <= g.ids[part] <= after
    && var minTimestamp := g.parts[part].minTimestamp.value;
    && Passed(g.was[part], g.ids[part], part, rounds[part], minTimestamp, opts, g.heaps[part])
    && Served(g.was[part], g.ids[part], rounds[part], minTimestamp, opts, g.heaps[part])
  }

  /** All stream parts with a pending timestamp, but for those in `rest`, have had their pass. */
  ghost predicate PassedBut(rest: set<StreamPart>, g: Progress, rounds: map<StreamPart, Round>, opts: Options,
                            after: set<BucketId>) {
    forall p | p in g.parts && p !in rest && g.parts[p].minTimestamp.Some? :: HadPass(g, p, rounds, opts, after)
  }

  lemma NonePassed(g: Progress, rounds: map<StreamPart, Round>, opts: Options)
    ensures PassedBut(g.parts.Keys, g, rounds, opts, g.before)
  {
  }

  lemma AllPassed(g: Progress, rounds: map<StreamPart, Round>, opts: Options, after: set<BucketId>)
    requires PassedBut({}, g, rounds, opts, after)
    ensures forall p | p in g.parts && g.parts[p].minTimestamp.Some? ::
      && p in g.was && p in g.ids && p in rounds && p in g.heaps && g.before <= g.ids[p] <= after
      && var minTimestamp := g.parts[p].minTimestamp.value;
      && Passed(g.was[p], g.ids[p], p, rounds[p], minTimestamp, opts, g.heaps[p])
      && Served(g.was[p], g.ids[p], rounds[p], minTimestamp, opts, g.heaps[p])
  {
  }

  lemma OneMorePassed(rest: set<StreamPart>, g: Progress, rounds: map<StreamPart, Round>, opts: Options,
                      now: set<BucketId>, after: set<BucketId>, part: StreamPart, heap: seq<Value>)
    requires PassedBut(rest, g, rounds, opts, now) && g.before <= now <= after
    requires part in g.parts && part in rest && part in g.was && part in rounds
    requires g.parts[part].minTimestamp.Some? ==>
      var minTimestamp := g.parts[part].minTimestamp.value;
      && Passed(g.was[part], now, part, rounds[part], minTimestamp, opts, heap)
      && Served(g.was[part], now, rounds[part], minTimestamp, opts, heap)
    ensures var h := g.Extended(part, now, heap);
      && PassedBut(rest - {part}, h, rounds, opts, after)
      && h.parts == g.parts && h.was == g.was && h.before == g.before && h.heaps == g.heaps[part := heap]
  {
    hide Passed, Served;
  }

  class BucketManager {
    const opts: Options
    var streamParts: map<StreamPart, PartState>
    var buckets: map<BucketId, Bucket>

    ghost predicate Valid()
      reads this
    {
      opts.Valid() && Registered(streamParts, buckets, opts)
    }

    constructor (opts: Options)
      requires opts.Valid()
      ensures Valid() && buckets == map[] && streamParts == map[]
    {
      this.opts, streamParts, buckets := opts, map[], map[];
    }

    /** The search among the buckets of a stream part, with the latest one first. */
    method FindBucketId(part: StreamPart, timestamp: int) returns (bucketId: Option<BucketId>)
      requires Valid() && part in streamParts
      ensures bucketId == BucketProgress.FindBucketId(Views(streamParts[part].heap), timestamp, opts)
      ensures bucketId.Some? ==> bucketId.value in buckets
      ensures var heap := streamParts[part].heap;
        heap != [] && heap[0].dateCreate <= timestamp ==>
          bucketId == if 100 * heap[0].size < 70 * opts.maxSize && 100 * heap[0].records < 70 * opts.maxRecordCount
                      then Some(heap[0].id) else None
    {
      var heap := streamParts[part].heap;
      bucketId := None;
      if heap != [] {
        var latestBucket := heap[0];
        var almostFull := latestBucket.IsAlmostFull();
        if !almostFull && latestBucket.dateCreate <= timestamp {
          bucketId := Some(latestBucket.id);
        } else if latestBucket.dateCreate > timestamp {
          var i := 1;
          while i < |heap|
            invariant 1 <= i <= |heap|
            invariant FirstNotAfter(Views(heap)[1..], timestamp) == FirstNotAfter(Views(heap)[i..], timestamp)
          {
            if heap[i].dateCreate <= timestamp {
              bucketId := Some(heap[i].id);
              return;
            }
            i := i + 1;
          }
        }
      }
    }

    /** A timestamp without a bucket is pending: the least pending one of a stream part is kept. */
    method GetBucketId(part: StreamPart, timestamp: int) returns (bucketId: Option<BucketId>)
      requires Valid()
      modifies this`streamParts
      ensures Valid()
      ensures bucketId == if part in old(streamParts)
        then BucketProgress.FindBucketId(Views(old(streamParts)[part].heap), timestamp, opts) else None
      ensures bucketId.Some? ==> bucketId.value in buckets && streamParts == old(streamParts)
      ensures bucketId.None? ==> streamParts == old(streamParts)[part := Waiting(old(streamParts), part, timestamp)]
    {
      hide Views, BucketProgress.FindBucketId, Registered;
      WaitingKeeps(streamParts, buckets, opts, part, timestamp);
      bucketId := None;
      if part in streamParts {
        bucketId := FindBucketId(part, timestamp);
        if bucketId.None? {
          streamParts := streamParts[part := Waiting(streamParts, part, timestamp)];
        }
      } else {
        streamParts := streamParts[part := PartState([], Some(timestamp))];
      }
    }

    /** Buckets that were not in memory before stay alive for the keep-alive time from `now` on. */
    twostate predicate NewAreAlive(now: int)
      reads this, set i | i in buckets :: buckets[i]
    {
      forall i | i in buckets && i !in old(buckets) :: buckets[i].AliveUntil(now + 1000 * opts.keepAliveSeconds)
    }

    /** A bucket enters memory: one found in the table, or a new one. */
    method Load(part: StreamPart, row: BucketRow, now: int)
      requires Valid() && part in streamParts && row.id !in buckets && row.id != "" && part.streamId != ""
      modifies this
      ensures Valid() && streamParts.Keys == old(streamParts.Keys) && streamParts[part].minTimestamp == None
      ensures NewAreAlive(now)
      ensures Pushed(old(Views(streamParts[part].heap)), Loaded(part, row), Views(streamParts[part].heap))
      ensures buckets.Keys == old(buckets.Keys) + {row.id}
      ensures forall i | i in old(buckets) :: buckets[i] == old(buckets)[i]
      ensures forall p | p in old(streamParts) && p != part :: streamParts[p] == old(streamParts)[p]
    {
      hide Registered, Added, Pushed, Views;
      HeapFacts(part);
      var b := new Bucket(part, row, opts, now);
      var heap := HeapPush(streamParts[part].heap, b);
      AddedShows(streamParts[part].heap, b, heap);
      LoadingKeeps(streamParts, buckets, opts, b, heap, None);
      streamParts := streamParts[part := PartState(heap, None)];
      buckets := buckets[b.id := b];
    }

    lemma HeapFacts(part: StreamPart)
      requires Valid() && part in streamParts
      ensures IsBucketHeap(streamParts[part].heap) && Distinct(streamParts[part].heap)
      ensures forall b | b in streamParts[part].heap :: b.id in buckets
      ensures forall b | b in streamParts[part].heap :: b.opts == opts
    {
    }

    lemma HeapShows(part: StreamPart)
      requires Valid() && part in streamParts
      ensures IsHeap(Views(streamParts[part].heap))
    {
    }

    /** How far a pass over `part` has come. */
    ghost function PassOf(part: StreamPart, insertNewBucket: bool): Pass
      requires part in streamParts
      reads this, streamParts[part].heap
    {
      Pass(Views(streamParts[part].heap), buckets.Keys, insertNewBucket)
    }

    /** What the other stream parts had, and the buckets in memory, stays. */
    twostate predicate OnlyAdds(part: StreamPart)
      reads this
    {
      && streamParts.Keys == old(streamParts.Keys)
      && (forall p | p in old(streamParts) && p != part :: streamParts[p] == old(streamParts)[p])
      && (if buckets.Keys == old(buckets.Keys) then streamParts == old(streamParts)
          else part in streamParts && streamParts[part].minTimestamp == None)
      && old(buckets.Keys) <= buckets.Keys && (forall i | i in old(buckets) :: buckets[i] == old(buckets)[i])
    }

    method CheckFoundBuckets(part: StreamPart, foundBuckets: seq<BucketRow>, insert: bool, now: int)
      returns (insertNewBucket: bool)
      requires Valid() && part in streamParts && part.streamId != "" && forall r | r in foundBuckets :: r.id != ""
      modifies this
      ensures Valid() && OnlyAdds(part) && NewAreAlive(now)
      ensures CheckFound(old(PassOf(part, insert)), part, foundBuckets, PassOf(part, insertNewBucket))
    {
      hide Registered, Pushed, Views;
      insertNewBucket := insert;
      if foundBuckets != [] && foundBuckets[0].id !in buckets {
        Load(part, foundBuckets[0], now);
      } else {
        insertNewBucket := true;
      }
    }

    /** The first look: only without a latest bucket in memory, or with one that is almost full. */
    method CheckLatest(part: StreamPart, table: seq<BucketRow>, now: int) returns (insertNewBucket: bool)
      requires Valid() && part in streamParts && part.streamId != ""
      requires IsTable(table) && forall r | r in table :: r.id != ""
      modifies this
      ensures Valid() && OnlyAdds(part) && NewAreAlive(now)
      ensures LatestChecked(Start(old(Views(streamParts[part].heap)), old(buckets.Keys), opts), part, table, opts,
                            PassOf(part, insertNewBucket))
    {
      hide Registered, CheckFound, IsTable;
      HeapFacts(part);
      var heap := streamParts[part].heap;
      insertNewBucket := heap != [] && heap[0].IsAlmostFull();
      if heap == [] || insertNewBucket {
        LastBucketsIn(table, None);
        insertNewBucket := CheckFoundBuckets(part, LastBuckets(table, None), insertNewBucket, now);
      }
    }

    /** The second look: only if no bucket in memory serves the pending timestamp. */
    method CheckPast(part: StreamPart, table: seq<BucketRow>, minTimestamp: int, insert: bool, now: int)
      returns (insertNewBucket: bool)
      requires Valid() && part in streamParts && part.streamId != ""
      requires IsTable(table) && forall r | r in table :: r.id != ""
      modifies this
      ensures Valid() && OnlyAdds(part) && NewAreAlive(now)
      ensures PastChecked(old(PassOf(part, insert)), part, table, minTimestamp, opts, PassOf(part, insertNewBucket))
    {
      hide Registered, CheckFound, Views, BucketProgress.FindBucketId, IsTable;
      insertNewBucket := insert;
      if !insertNewBucket {
        var bucketId := FindBucketId(part, minTimestamp);
        if bucketId.None? {
          LastBucketsIn(table, Some(minTimestamp));
          insertNewBucket := CheckFoundBuckets(part, LastBuckets(table, Some(minTimestamp)), insertNewBucket, now);
        }
      }
    }

    /**
     One pass over a stream part with a pending timestamp. The looks at the bucket
     table are two reads, between which it may change.
     */
    method CheckStreamPart(part: StreamPart, round: Round, now: int)
      requires Valid() && part in streamParts && part.streamId != "" && streamParts[part].minTimestamp.Some?
      requires IsRound(round) && round.newId !in buckets
      requires forall r | r in round.first || r in round.second :: r.id != round.newId
      modifies this
      ensures Valid() && OnlyAdds(part) && NewAreAlive(now)
      ensures Passed(old(Views(streamParts[part].heap)), old(buckets.Keys), part, round,
                     old(streamParts)[part].minTimestamp.value, opts, Views(streamParts[part].heap))
      ensures Brought(round, old(buckets.Keys), buckets.Keys)
      ensures Served(old(Views(streamParts[part].heap)), old(buckets.Keys), round,
                     old(streamParts)[part].minTimestamp.value, opts, Views(streamParts[part].heap))
    {
      hide Registered, Pushed, Views, BucketProgress.FindBucketId, IsTable, LatestChecked, PastChecked;
      hide Passed, Served, Brought;
      HeapShows(part);
      ghost var heap, ids := Views(streamParts[part].heap), buckets.Keys;
      var minTimestamp := streamParts[part].minTimestamp.value;
      var insertNewBucket := CheckLatest(part, round.first, now);
      ghost var p := PassOf(part, insertNewBucket);
      insertNewBucket := CheckPast(part, round.second, minTimestamp, insertNewBucket, now);
      ghost var q := PassOf(part, insertNewBucket);
      LoadsFromTable(heap, ids, part, round.first, round.second, minTimestamp, opts, p, q);
      if insertNewBucket {
        Load(part, BucketRow(round.newId, minTimestamp, 0, 0), now);
      }
      PassedServes(heap, ids, part, round, minTimestamp, opts, p, q, PassOf(part, q.insertNewBucket));
    }

    twostate lemma OthersStay(part: StreamPart)
      requires OnlyAdds(part)
      ensures streamParts.Keys == old(streamParts.Keys) && old(buckets.Keys) <= buckets.Keys
      ensures forall p | p in old(streamParts) && p != part :: streamParts[p] == old(streamParts)[p]
    {
    }

    /** One stream part of a round over all of them. */
    method CheckNext(part: StreamPart, rounds: map<StreamPart, Round>, time: int, ghost rest: set<StreamPart>,
                     ghost g: Progress)
      returns (ghost h: Progress)
      requires Valid() && part in rest && part in streamParts
      requires streamParts.Keys == g.parts.Keys == g.heaps.Keys && g.before <= buckets.Keys
      requires forall p | p in streamParts :: Views(streamParts[p].heap) == g.heaps[p]
      requires g.parts[part] == streamParts[part] && part in g.was && g.heaps[part] == g.was[part]
      requires part in rounds && IsRound(rounds[part]) && part.streamId != ""
      requires AllNew(rounds) && NotYetIn(rest, rounds, buckets.Keys) && PassedBut(rest, g, rounds, opts, buckets.Keys)
      modifies this
      ensures Valid() && streamParts.Keys == old(streamParts.Keys) && old(buckets.Keys) <= buckets.Keys
      ensures h == g.Extended(part, old(buckets.Keys), Views(streamParts[part].heap))
      ensures h.parts == g.parts && h.was == g.was && h.before == g.before && h.heaps.Keys == g.heaps.Keys
      ensures forall p | p in g.heaps && p != part :: h.heaps[p] == g.heaps[p]
      ensures forall p | p in streamParts :: Views(streamParts[p].heap) == h.heaps[p]
      ensures forall p | p in streamParts && p != part :: streamParts[p] == old(streamParts)[p]
      ensures old(streamParts)[part].minTimestamp == None ==> streamParts[part] == old(streamParts)[part]
      ensures NotYetIn(rest - {part}, rounds, buckets.Keys)
      ensures PassedBut(rest - {part}, h, rounds, opts, buckets.Keys)
    {
      hide *;
      ghost var now := buckets.Keys;
      if streamParts[part].minTimestamp.Some? {
        RoundIsNew(part, rest, rounds, now);
        CheckStreamPart(part, rounds[part], time);
        OthersStay(part);
      } else {
        BroughtNothing(rounds[part], now);
      }
      StaysNew(rounds, part, rest, now, buckets.Keys);
      h := g.Extended(part, now, Views(streamParts[part].heap));
      OneMorePassed(rest, g, rounds, opts, now, buckets.Keys, part, Views(streamParts[part].heap));
    }

    /**
     All stream parts in turn: each one with a pending timestamp gets a pass. The
     ghost result has the ids in memory when the pass over a stream part began.
     */
    method CheckFullBuckets(rounds: map<StreamPart, Round>, time: int)
      returns (ghost ids: map<StreamPart, set<BucketId>>)
      requires Valid() && AllNew(rounds) && NotYetIn(streamParts.Keys, rounds, buckets.Keys)
      requires forall p | p in streamParts :: p.streamId != "" && p in rounds && IsRound(rounds[p])
      modifies this
      ensures Valid() && streamParts.Keys == old(streamParts.Keys)
      ensures forall p | p in old(streamParts) && old(streamParts)[p].minTimestamp == None ::
        streamParts[p] == old(streamParts)[p]
      ensures forall p | p in old(streamParts) && old(streamParts)[p].minTimestamp.Some? ::
        && p in ids && old(buckets.Keys) <= ids[p] <= buckets.Keys
        && var heap, minTimestamp := old(Views(streamParts[p].heap)), old(streamParts)[p].minTimestamp.value;
        && Passed(heap, ids[p], p, rounds[p], minTimestamp, opts, Views(streamParts[p].heap))
        && Served(heap, ids[p], rounds[p], minTimestamp, opts, Views(streamParts[p].heap))
    {
      hide *;
      ghost var was := map p | p in streamParts :: Views(streamParts[p].heap);
      ghost var g := Progress(streamParts, was, buckets.Keys, map[], was);
      var rest := streamParts.Keys;
      NonePassed(g, rounds, opts);
      while rest != {}
        invariant Valid() && rest <= streamParts.Keys && NotYetIn(rest, rounds, buckets.Keys)
        invariant streamParts.Keys == g.parts.Keys == g.heaps.Keys && g.before <= buckets.Keys
        invariant forall p | p in streamParts :: Views(streamParts[p].heap) == g.heaps[p]
        invariant g.parts == old(streamParts) && g.was == was && g.before == old(buckets.Keys)
        invariant forall p | p in rest :: streamParts[p] == g.parts[p] && g.heaps[p] == was[p]
        invariant forall p | p in g.parts && g.parts[p].minTimestamp == None :: streamParts[p] == g.parts[p]
        invariant PassedBut(rest, g, rounds, opts, buckets.Keys)
        decreases rest
      {
        var part :| part in rest;
        g := CheckNext(part, rounds, time, rest, g);
        rest := rest - {part};
      }
      AllPassed(g, rounds, opts, buckets.Keys);
      ids := g.ids;
    }

    /** A bucket that is not in memory is not incremented. */
    method IncrementBucket(bucketId: BucketId, size: nat, now: int)
      requires Valid()
      modifies if bucketId in buckets then {buckets[bucketId]} else {}
      ensures Valid()
      ensures bucketId in buckets ==> buckets[bucketId].View() == old(buckets[bucketId].View()).Incremented(size)
      ensures bucketId in buckets ==> buckets[bucketId].AliveUntil(now + 1000 * buckets[bucketId].opts.keepAliveSeconds)
    {
      if bucketId in buckets {
        buckets[bucketId].IncrementBucket(size, now);
      }
    }

    /** The timestamps that wait for a bucket go on to wait. */
    twostate predicate PendingStays()
      reads this
    {
      && streamParts.Keys == old(streamParts.Keys)
      && forall p | p in streamParts :: streamParts[p].minTimestamp == old(streamParts)[p].minTimestamp
    }

    /** A bucket leaves memory, and its heap is built anew without it. */
    method RemoveBucket(bucketId: BucketId)
      requires Valid() && bucketId in buckets
      modifies this`streamParts, this`buckets
      ensures Valid() && buckets == old(buckets) - {bucketId} && PendingStays()
    {
      hide Registered, Distinct, IsBucketHeap;
      var removed := buckets[bucketId];
      RegisteredFacts(bucketId);
      HeapFacts(removed.part);
      var stream := streamParts[removed.part];
      var heap := Without(stream.heap, removed);
      RemovingKeeps(streamParts, buckets, opts, bucketId, heap);
      buckets := buckets - {bucketId};
      streamParts := streamParts[removed.part := stream.(heap := heap)];
    }

    lemma RegisteredFacts(bucketId: BucketId)
      requires Valid() && bucketId in buckets
      ensures InItsHeap(streamParts, buckets[bucketId]) && buckets[bucketId].id == bucketId
    {
    }

    /** The start of a round: the rows to be upserted, one for each bucket that is not stored. */
    method BeginRound() returns (upserts: map<BucketId, BucketRow>)
      requires Valid()
      ensures forall i :: i in upserts <==> i in buckets && !buckets[i].View().stored
      ensures forall i | i in upserts :: upserts[i] == buckets[i].View().Row()
    {
      hide Registered;
      upserts := map[];
      var rest := buckets.Keys;
      while rest != {}
        invariant rest <= buckets.Keys
        invariant forall i :: i in upserts <==> i in buckets.Keys - rest && !buckets[i].View().stored
        invariant forall i | i in upserts :: upserts[i] == buckets[i].View().Row()
        decreases |rest|
      {
        var i :| i in rest;
        if !buckets[i].stored {
          upserts := upserts[i := BucketRow(buckets[i].id, buckets[i].dateCreate, buckets[i].size, buckets[i].records)];
        }
        rest := rest - {i};
      }
    }

    ghost function Objects(): set<Bucket>
      reads this
    {
      set i | i in buckets :: buckets[i]
    }

    /** The buckets that are no longer alive at the time their clock shows. */
    ghost function Expired(clock: BucketId -> int): set<BucketId>
      reads this, Objects()
    {
      set i | i in buckets && !buckets[i].IsAlive(clock(i))
    }

    /**
     The end of a round. `fulfilled` has the upserts that succeeded, with the
     number of records each carried. The clocks show when it is read whether a
     bucket is alive, at its upsert and in the sweep.
     */
    method EndRound(fulfilled: map<BucketId, nat>, settleClock: BucketId -> int, sweepClock: BucketId -> int)
      requires Valid() && fulfilled.Keys <= buckets.Keys
      modifies this`streamParts, this`buckets, Objects()`stored
      ensures Valid() && PendingStays()
      ensures var expired := old(fulfilled.Keys * Expired(settleClock) + Expired(sweepClock));
        forall i :: i in buckets <==> i in old(buckets) && !Leaves(i, old(buckets[i].View()), fulfilled, expired)
      ensures forall i | i in old(buckets) :: old(buckets)[i].View() == Ended(i, old(buckets[i].View()), fulfilled)
      ensures forall i | i in buckets :: buckets[i] == old(buckets)[i]
    {
      hide Registered, SettledTo, Ended, Leaves;
      Ids();
      ghost var objects, expired, swept := buckets, Expired(settleClock), Expired(sweepClock);
      ghost var before := map i | i in buckets :: buckets[i].View();
      ghost var views := SettleRound(fulfilled, settleClock, before);
      ghost var settled := buckets;
      RoundKeepsObjects(objects, before, fulfilled, expired, settled, views);
      Sweep(sweepClock, swept);
      RoundEnds(objects, before, fulfilled, expired, settled, views, swept, buckets);
    }

    /** A bucket is stored if its upsert carried all its records; then it leaves memory unless it is alive. */
    method SettleBucket(storedBucket: Bucket, records: nat, now: int,
                        ghost objects: map<BucketId, Bucket>, ghost views: map<BucketId, Value>)
      requires Valid() && storedBucket.id in buckets && buckets[storedBucket.id] == storedBucket
      requires storedBucket.id in objects && objects[storedBucket.id] == storedBucket && Shows(objects, views)
      modifies this`streamParts, this`buckets, storedBucket`stored
      ensures var id := storedBucket.id; var settled := views[id].Settled(records);
        && Valid() && Shows(objects, views[id := settled]) && PendingStays()
        && buckets == if settled.stored && !storedBucket.IsAlive(now) then old(buckets) - {id} else old(buckets)
    {
      hide Registered;
      if storedBucket.records == records {
        storedBucket.SetStored();
      }
      if !storedBucket.IsAlive(now) && storedBucket.stored {
        RemoveBucket(storedBucket.id);
      }
    }

    method SettleRound(fulfilled: map<BucketId, nat>, clock: BucketId -> int, ghost before: map<BucketId, Value>)
      returns (ghost views: map<BucketId, Value>)
      requires Valid() && fulfilled.Keys <= buckets.Keys && Shows(buckets, before)
      modifies this`streamParts, this`buckets, Objects()`stored
      ensures Valid() && Shows(old(buckets), views) && PendingStays()
      ensures SettledTo(old(buckets), before, fulfilled, old(Expired(clock)), {}, buckets, views)
    {
      hide Registered, Shows, SettledTo, Ended, Leaves, Value.Settled;
      ghost var objects, expired := buckets, Expired(clock);
      views := before;
      var rest := fulfilled.Keys;
      NothingSettled(buckets, before, fulfilled, expired);
      while rest != {}
        invariant Valid() && rest <= fulfilled.Keys && Shows(objects, views) && PendingStays()
        invariant SettledTo(objects, before, fulfilled, expired, rest, buckets, views)
        decreases |rest|
      {
        var id :| id in rest;
        SettleMore(objects, before, fulfilled, expired, rest, buckets, views, id);
        RegisteredFacts(id);
        SettleBucket(buckets[id], fulfilled[id], clock(id), objects, views);
        views := views[id := views[id].Settled(fulfilled[id])];
        rest := rest - {id};
      }
    }

    lemma Ids()
      requires Valid()
      ensures forall i | i in buckets :: buckets[i].id == i
    {
    }

    /** All buckets that are stored and no longer alive leave memory. */
    method Sweep(clock: BucketId -> int, ghost expired: set<BucketId>)
      requires Valid() && forall i | i in buckets :: i in expired <==> !buckets[i].IsAlive(clock(i))
      modifies this`streamParts, this`buckets
      ensures Valid() && PendingStays()
      ensures forall i :: i in buckets <==>
        i in old(buckets) && !(old(buckets[i].View()).stored && i in expired)
      ensures forall i | i in buckets :: buckets[i] == old(buckets)[i]
    {
      hide Registered;
      var rest := buckets.Keys;
      while rest != {}
        invariant Valid() && rest <= old(buckets).Keys && PendingStays()
        invariant forall i | i in buckets :: i in old(buckets) && buckets[i] == old(buckets)[i]
        invariant forall i | i in old(buckets) ::
          i in buckets <==> (i in rest || !(old(buckets[i].View()).stored && i in expired))
        decreases |rest|
      {
        var id :| id in rest;
        if buckets[id].stored && !buckets[id].IsAlive(clock(id)) {
          RemoveBucket(id);
        }
        rest := rest - {id};
      }
    }
  }
}
