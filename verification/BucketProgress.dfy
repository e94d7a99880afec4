/** One pass of `checkFullBuckets` over a stream part, on values, and when it serves the pending timestamp. */
module BucketProgress {
  import opened MessageRefs
  import opened StreamData
  import opened BucketTables
  import opened Buckets

  /** A heap shows its latest bucket first, and the rest in any order. */
  predicate IsHeap(heap: seq<Value>) {
    forall b | b in heap :: b.dateCreate <= heap[0].dateCreate
  }

  ghost predicate Pushed(heap: seq<Value>, b: Value, result: seq<Value>) {
    IsHeap(result) && |result| == |heap| + 1 && forall c :: c in result <==> c in heap || c == b
  }

  function FirstNotAfter(buckets: seq<Value>, timestamp: int): Option<BucketId> {
    if buckets == [] then None
    else if buckets[0].dateCreate <= timestamp then Some(buckets[0].id)
    else FirstNotAfter(buckets[1..], timestamp)
  }

  function FindBucketId(heap: seq<Value>, timestamp: int, opts: Options): Option<BucketId> {
    if heap == [] then None
    else if !heap[0].IsAlmostFull(opts) && heap[0].dateCreate <= timestamp then Some(heap[0].id)
    else if heap[0].dateCreate > timestamp then FirstNotAfter(heap[1..], timestamp)
    else None
  }

  /** How far a pass has come: the heap, the ids of all buckets in memory, and whether to insert a new one. */
  datatype Pass = Pass(heap: seq<Value>, ids: set<BucketId>, insertNewBucket: bool)

  /** A bucket found in the table is loaded, unless it is in memory already. */
  ghost predicate CheckFound(p: Pass, part: StreamPart, found: seq<BucketRow>, q: Pass) {
    if found != [] && found[0].id !in p.ids then
      && Pushed(p.heap, Loaded(part, found[0]), q.heap)
      && q.ids == p.ids + {found[0].id} && q.insertNewBucket == p.insertNewBucket
    else q == p.(insertNewBucket := true)
  }

  predicate NeedsLatest(heap: seq<Value>, opts: Options) {
    heap == [] || heap[0].IsAlmostFull(opts)
  }

  function Start(heap: seq<Value>, ids: set<BucketId>, opts: Options): Pass {
    Pass(heap, ids, heap != [] && heap[0].IsAlmostFull(opts))
  }

  /** The first look at the table: for the latest bucket, if memory has none to use. */
  ghost predicate LatestChecked(p: Pass, part: StreamPart, table: seq<BucketRow>, opts: Options, q: Pass) {
    if NeedsLatest(p.heap, opts) then CheckFound(p, part, LastBuckets(table, None), q) else q == p
  }

  /** The second look: for a bucket not after the pending timestamp. */
  ghost predicate PastChecked(p: Pass, part: StreamPart, table: seq<BucketRow>, timestamp: int, opts: Options,
                              q: Pass) {
    if !p.insertNewBucket && FindBucketId(p.heap, timestamp, opts).None?
    then CheckFound(p, part, LastBuckets(table, Some(timestamp)), q) else q == p
  }

  /** At last, a new bucket is created at the pending timestamp. */
  ghost predicate Inserted(p: Pass, part: StreamPart, timestamp: int, newId: BucketId, q: Pass) {
    if p.insertNewBucket then
      && Pushed(p.heap, Loaded(part, BucketRow(newId, timestamp, 0, 0)), q.heap)
      && q.ids == p.ids + {newId} && q.insertNewBucket
    else q == p
  }

  // ----- what finding a bucket depends on -----

  predicate Serves(heap: seq<Value>, timestamp: int, opts: Options)
    requires heap != []
  {
    if heap[0].dateCreate <= timestamp then !heap[0].IsAlmostFull(opts)
    else exists b :: b in heap && b.dateCreate <= timestamp
  }

  lemma {:induction false} FirstNotAfterFinds(buckets: seq<Value>, timestamp: int)
    ensures FirstNotAfter(buckets, timestamp).Some? <==> exists b :: b in buckets && b.dateCreate <= timestamp
    ensures FirstNotAfter(buckets, timestamp).Some? ==>
      exists b :: b in buckets && b.dateCreate <= timestamp && Some(b.id) == FirstNotAfter(buckets, timestamp)
  {
    if buckets != [] {
      FirstNotAfterFinds(buckets[1..], timestamp);
      assert forall b :: b in buckets <==> b == buckets[0] || b in buckets[1..];
    }
  }

  /** Whether a bucket is found does not depend on the order behind the head of the heap. */
  lemma FindsIffServes(heap: seq<Value>, timestamp: int, opts: Options)
    requires heap != []
    ensures FindBucketId(heap, timestamp, opts).Some? <==> Serves(heap, timestamp, opts)
  {
    FirstNotAfterFinds(heap[1..], timestamp);
    assert forall b :: b in heap <==> b == heap[0] || b in heap[1..];
  }

  /** For a current timestamp only the latest bucket is used, and only below 70 percent of both limits. */
  lemma LatestIsUsedIff(heap: seq<Value>, timestamp: int, opts: Options)
    requires heap != [] && heap[0].dateCreate <= timestamp
    ensures FindBucketId(heap, timestamp, opts)
         == if 100 * heap[0].size < 70 * opts.maxSize && 100 * heap[0].records < 70 * opts.maxRecordCount
            then Some(heap[0].id) else None
  {
  }

  /** A bucket found is in the heap and not after the timestamp. */
  lemma FoundIsNotAfter(heap: seq<Value>, timestamp: int, opts: Options)
    requires FindBucketId(heap, timestamp, opts).Some?
    ensures exists b :: b in heap && b.dateCreate <= timestamp && Some(b.id) == FindBucketId(heap, timestamp, opts)
  {
    FirstNotAfterFinds(heap[1..], timestamp);
    assert forall b :: b in heap <==> b == heap[0] || b in heap[1..];
  }

  /** No bucket of the heap that is not after the timestamp is later than the one found. */
  predicate FindsLatest(heap: seq<Value>, timestamp: int, opts: Options) {
    forall b | b in heap && Some(b.id) == FindBucketId(heap, timestamp, opts) ::
      forall c | c in heap && c.dateCreate <= timestamp :: c.dateCreate <= b.dateCreate
  }

  ghost predicate DistinctIds(heap: seq<Value>) {
    forall b, c | b in heap && c in heap && b.id == c.id :: b == c
  }

  /** The buckets not after the timestamp all have one date. */
  predicate OneDate(heap: seq<Value>, timestamp: int) {
    forall b, c | b in heap && c in heap && b.dateCreate <= timestamp && c.dateCreate <= timestamp ::
      b.dateCreate == c.dateCreate
  }

  ghost predicate DistinctDates(heap: seq<Value>) {
    forall i, j | 0 <= i < j < |heap| :: heap[i].dateCreate != heap[j].dateCreate
  }

  /** The same buckets in another order. */
  ghost predicate Reordered(heap: seq<Value>, h: seq<Value>) {
    multiset(h) == multiset(heap)
  }

  /** A heap as an array: no bucket is later than the one above it. */
  predicate IsBinaryHeap(heap: seq<Value>) {
    forall i, j | 0 <= i < j < |heap| && (j == 2 * i + 1 || j == 2 * i + 2) :: heap[j].dateCreate <= heap[i].dateCreate
  }

  lemma {:induction false} HeadIsLatest(heap: seq<Value>, i: nat)
    requires IsBinaryHeap(heap) && i < |heap|
    ensures heap[i].dateCreate <= heap[0].dateCreate
  {
    if i > 0 {
      var above := (i - 1) / 2;
      HeadIsLatest(heap, above);
      assert heap[i].dateCreate <= heap[above].dateCreate;
    }
  }

  lemma BinaryHeapIsHeap(heap: seq<Value>)
    requires IsBinaryHeap(heap)
    ensures IsHeap(heap)
  {
    forall b | b in heap ensures b.dateCreate <= heap[0].dateCreate {
      var i :| 0 <= i < |heap| && heap[i] == b;
      HeadIsLatest(heap, i);
    }
  }

  lemma ReorderedMembers(heap: seq<Value>, h: seq<Value>)
    requires Reordered(heap, h)
    ensures |h| == |heap| && forall b :: b in h <==> b in heap
  {
    assert |multiset(h)| == |multiset(heap)|;
    forall b ensures b in h <==> b in heap {
      assert b in h <==> b in multiset(h);
      assert b in heap <==> b in multiset(heap);
    }
  }

  /** Any order will do from the date of the latest bucket on, or if those not after the timestamp have one date. */
  lemma AnyOrderFindsLatest(heap: seq<Value>, h: seq<Value>, timestamp: int, opts: Options)
    requires IsHeap(heap) && DistinctIds(heap) && heap != [] && Reordered(heap, h) && IsHeap(h)
    requires heap[0].dateCreate <= timestamp || OneDate(heap, timestamp)
    ensures FindsLatest(h, timestamp, opts)
  {
    ReorderedMembers(heap, h);
    FirstNotAfterFinds(h[1..], timestamp);
    assert forall b :: b in h <==> b == h[0] || b in h[1..];
    assert heap[0] in h && h[0] in heap;
  }

  /** Sorted from the latest to the oldest. */
  ghost predicate Descending(s: seq<Value>) {
    forall i, j | 0 <= i < j < |s| :: s[i].dateCreate > s[j].dateCreate
  }

  lemma {:induction false} Sorted(heap: seq<Value>) returns (s: seq<Value>)
    requires DistinctDates(heap)
    ensures Reordered(heap, s) && Descending(s)
  {
    if heap == [] {
      s := [];
    } else {
      var rest := Sorted(heap[1..]);
      ReorderedMembers(heap[1..], rest);
      forall i | 0 <= i < |rest| ensures rest[i].dateCreate != heap[0].dateCreate {
        assert rest[i] in heap[1..];
      }
      s := SortedWith(rest, heap[0]);
      assert heap == [heap[0]] + heap[1..];
    }
  }

  /** The buckets with `b` in place `k`. */
  function With(s: seq<Value>, k: nat, b: Value): (t: seq<Value>)
    requires k <= |s|
    ensures |t| == |s| + 1 && t[k] == b
    ensures (forall i | 0 <= i < k :: t[i] == s[i]) && forall i | k < i < |t| :: t[i] == s[i - 1]
    ensures multiset(t) == multiset(s) + multiset{b}
  {
    assert s == s[..k] + s[k..];
    s[..k] + [b] + s[k..]
  }

  lemma SortedWith(s: seq<Value>, b: Value) returns (t: seq<Value>)
    requires Descending(s) && forall i | 0 <= i < |s| :: s[i].dateCreate != b.dateCreate
    ensures multiset(t) == multiset(s) + multiset{b} && Descending(t)
  {
    var k := FirstNotAfterIndex(s, b.dateCreate);
    hide With;
    t := With(s, k, b);
  }

  lemma {:induction false} FirstNotAfterIndex(s: seq<Value>, timestamp: int) returns (k: nat)
    ensures k <= |s| && (forall j | 0 <= j < k :: s[j].dateCreate > timestamp)
    ensures k < |s| ==> s[k].dateCreate <= timestamp
  {
    if s == [] || s[0].dateCreate <= timestamp {
      k := 0;
    } else {
      k := FirstNotAfterIndex(s[1..], timestamp);
      k := k + 1;
    }
  }

  lemma {:induction false} FirstNotAfterAt(buckets: seq<Value>, timestamp: int, k: nat)
    requires k < |buckets| && buckets[k].dateCreate <= timestamp
    requires forall j | 0 <= j < k :: buckets[j].dateCreate > timestamp
    ensures FirstNotAfter(buckets, timestamp) == Some(buckets[k].id)
  {
    if k > 0 {
      FirstNotAfterAt(buckets[1..], timestamp, k - 1);
    }
  }

  /** The first bucket of a sorted heap that is not after the timestamp, and the next one, swapped. */
  function Swapped(s: seq<Value>, p: nat): (h: seq<Value>)
    requires p + 1 < |s|
    ensures Reordered(s, h)
  {
    s[p := s[p + 1]][p + 1 := s[p]]
  }

  lemma SwappedIsHeap(s: seq<Value>, p: nat)
    requires Descending(s) && 0 < p && p + 1 < |s|
    ensures IsBinaryHeap(Swapped(s, p))
  {
  }

  lemma SwappedHidesLatest(s: seq<Value>, p: nat, timestamp: int, opts: Options)
    requires Descending(s) && DistinctIds(s) && 0 < p && p + 1 < |s| && s[p].dateCreate <= timestamp
    requires forall j | 0 <= j < p :: s[j].dateCreate > timestamp
    ensures !FindsLatest(Swapped(s, p), timestamp, opts)
  {
    var h := Swapped(s, p);
    assert h[p] == s[p + 1] && h[p + 1] == s[p] && h[0] == s[0];
    assert h[1..][p - 1] == h[p];
    FirstNotAfterAt(h[1..], timestamp, p - 1);
    assert FindBucketId(h, timestamp, opts) == Some(h[p].id);
    assert h[p] in h && h[p + 1] in h;
  }

  /** With two buckets of different dates not after a past timestamp, some heap does not find the latest of them. */
  lemma SomeHeapFindsOlder(heap: seq<Value>, timestamp: int, opts: Options) returns (h: seq<Value>)
    requires IsHeap(heap) && DistinctIds(heap) && DistinctDates(heap) && heap != []
    requires heap[0].dateCreate > timestamp && !OneDate(heap, timestamp)
    ensures Reordered(heap, h) && IsBinaryHeap(h) && !FindsLatest(h, timestamp, opts)
  {
    hide IsBinaryHeap, FindsLatest, Swapped, IsHeap, DistinctDates;
    var s := Sorted(heap);
    ReorderedMembers(heap, s);
    var p := FirstNotAfterIndex(s, timestamp);
    assert heap[0] in s;
    TwoNotAfter(s, p, timestamp);
    SwappedIsHeap(s, p);
    SwappedHidesLatest(s, p, timestamp, opts);
    h := Swapped(s, p);
  }

  lemma TwoNotAfter(s: seq<Value>, p: nat, timestamp: int)
    requires Descending(s) && !OneDate(s, timestamp) && exists b :: b in s && b.dateCreate > timestamp
    requires p <= |s| && forall j | 0 <= j < p :: s[j].dateCreate > timestamp
    requires p < |s| ==> s[p].dateCreate <= timestamp
    ensures 0 < p && p + 1 < |s|
  {
    var b, c :| b in s && c in s && b.dateCreate <= timestamp && c.dateCreate <= timestamp
      && b.dateCreate != c.dateCreate;
    var i, j :| 0 <= i < |s| && 0 <= j < |s| && s[i] == b && s[j] == c;
    var d :| d in s && d.dateCreate > timestamp;
    var k :| 0 <= k < |s| && s[k] == d;
  }

  /**
   Of buckets with different dates: every heap finds the latest one not after the
   timestamp, if and only if the latest of all is not after it or at most one is.
   */
  lemma FindsLatestIff(heap: seq<Value>, timestamp: int, opts: Options)
    requires IsHeap(heap) && DistinctIds(heap) && DistinctDates(heap) && heap != []
    ensures (forall h | Reordered(heap, h) && IsBinaryHeap(h) :: FindsLatest(h, timestamp, opts))
      <==> (heap[0].dateCreate <= timestamp || OneDate(heap, timestamp))
  {
    if heap[0].dateCreate <= timestamp || OneDate(heap, timestamp) {
      forall h | Reordered(heap, h) && IsBinaryHeap(h) ensures FindsLatest(h, timestamp, opts) {
        BinaryHeapIsHeap(h);
        AnyOrderFindsLatest(heap, h, timestamp, opts);
      }
    } else {
      var h := SomeHeapFindsOlder(heap, timestamp, opts);
    }
  }

  /** With a shared date it may do so otherwise, too: of dates 9, 5, 5 and 1, the last cannot be above another one. */
  lemma SharedDateShieldsLatest(h: seq<Value>, k: nat, opts: Options)
    requires |h| == 4 && 0 < k < 4 && DistinctIds(h) && IsBinaryHeap(h)
    requires h[0].dateCreate == 9 && h[k].dateCreate == 1
    requires forall i | 0 < i < 4 && i != k :: h[i].dateCreate == 5
    ensures FindsLatest(h, 6, opts) && !OneDate(h, 6)
  {
    assert h[1].dateCreate >= h[3].dateCreate;
    assert h[1..][0] == h[1] && h[1] in h && h[2] in h && h[3] in h;
  }

  /** From the date of the latest bucket on, and with two buckets at most, the latest one is found. */
  lemma CurrentIsLatest(heap: seq<Value>, timestamp: int, opts: Options)
    requires IsHeap(heap) && DistinctIds(heap) && heap != []
    requires heap[0].dateCreate <= timestamp || |heap| <= 2
    ensures FindsLatest(heap, timestamp, opts)
  {
    assert forall b :: b in heap <==> b == heap[0] || (|heap| > 1 && b in heap[1..]);
    assert |heap| == 2 ==> heap[1..] == [heap[1]];
    AnyOrderFindsLatest(heap, heap, timestamp, opts);
  }

  /** For a past timestamp it depends on the order of the heap: with buckets of dates 9, 1 and 5, 6 goes to date 1. */
  lemma PastNeedNotBeLatest(part: StreamPart, opts: Options)
    ensures var heap := [Loaded(part, BucketRow("a", 9, 0, 0)), Loaded(part, BucketRow("b", 1, 0, 0)),
                         Loaded(part, BucketRow("c", 5, 0, 0))];
      IsHeap(heap) && DistinctIds(heap) && FindBucketId(heap, 6, opts) == Some("b") && !FindsLatest(heap, 6, opts)
  {
  }

  lemma PushedHead(heap: seq<Value>, b: Value, result: seq<Value>)
    requires Pushed(heap, b, result)
    ensures result != [] && result[0].dateCreate >= b.dateCreate
  {
  }

  /** No bucket of the stream part, in memory or in the table, was created at the pending timestamp. */
  predicate NoBucketAt(heap: seq<Value>, table: seq<BucketRow>, timestamp: int) {
    (forall b | b in heap :: b.dateCreate != timestamp) && (forall r | r in table :: r.dateCreate != timestamp)
  }

  /**
   The one case in which a pass leaves the timestamp without a bucket: it is 0,
   which the second look at the table takes for no timestamp at all.
   */
  predicate Missed(heap: seq<Value>, ids: set<BucketId>, table: seq<BucketRow>, timestamp: int, opts: Options) {
    && timestamp == 0
    && heap != [] && !heap[0].IsAlmostFull(opts) && (forall b | b in heap :: b.dateCreate > 0)
    && table != [] && table[0].id !in ids && table[0].dateCreate > 0
  }

  lemma NewBucketServes(p: Pass, part: StreamPart, timestamp: int, newId: BucketId, opts: Options, q: Pass)
    requires opts.Valid() && p.insertNewBucket && Inserted(p, part, timestamp, newId, q)
    requires forall b | b in p.heap :: b.dateCreate != timestamp
    ensures FindBucketId(q.heap, timestamp, opts).Some?
  {
    var b := Loaded(part, BucketRow(newId, timestamp, 0, 0));
    PushedHead(p.heap, b, q.heap);
    FindsIffServes(q.heap, timestamp, opts);
  }

  lemma LastBucketsIn(table: seq<BucketRow>, timestamp: Option<int>)
    requires IsTable(table)
    ensures LastBuckets(table, timestamp) != [] ==>
      |LastBuckets(table, timestamp)| == 1 && LastBuckets(table, timestamp)[0] in table
    ensures timestamp.Some? && timestamp.value != 0 && LastBuckets(table, timestamp) != [] ==>
      LastBuckets(table, timestamp)[0].dateCreate <= timestamp.value
    ensures forall r | r in table && (timestamp.Some? && timestamp.value != 0 ==> r.dateCreate <= timestamp.value) ::
      LastBuckets(table, timestamp) != [] && r.dateCreate <= LastBuckets(table, timestamp)[0].dateCreate
  {
    BetweenMembers(table, None, timestamp);
    BetweenIsTable(table, None, timestamp);
  }

  /** The looks at the table load rows they find there only. */
  lemma LoadsFromTable(heap: seq<Value>, ids: set<BucketId>, part: StreamPart, first: seq<BucketRow>,
                       second: seq<BucketRow>, timestamp: int, opts: Options, p: Pass, q: Pass)
    requires IsTable(first) && IsTable(second)
    requires LatestChecked(Start(heap, ids, opts), part, first, opts, p)
    requires PastChecked(p, part, second, timestamp, opts, q)
    ensures forall i | i in q.ids :: i in ids || exists r :: (r in first || r in second) && r.id == i
  {
    LastBucketsIn(first, None);
    LastBucketsIn(second, Some(timestamp));
  }

  /** After the first look, a heap with nothing to insert has its latest bucket from memory, or the one of the table. */
  lemma AfterLatest(heap: seq<Value>, ids: set<BucketId>, part: StreamPart, table: seq<BucketRow>, opts: Options,
                    p: Pass)
    requires LatestChecked(Start(heap, ids, opts), part, table, opts, p)
    ensures forall b | b in p.heap :: b in heap || (table != [] && b == Loaded(part, table[0]))
    ensures !p.insertNewBucket ==>
      || (p == Start(heap, ids, opts) && heap != [] && !heap[0].IsAlmostFull(opts))
      || (heap == [] && table != [] && p.heap != [] && p.heap[0] == Loaded(part, table[0]) && table[0].id in p.ids)
  {
    if NeedsLatest(heap, opts) && table != [] && table[0].id !in ids {
      PushedHead(heap, Loaded(part, table[0]), p.heap);
      assert p.heap[0] in p.heap;
    }
  }

  /** The first look loads the latest bucket of the table exactly if memory has none below 70 percent of both limits. */
  lemma LatestIsLoadedIff(heap: seq<Value>, ids: set<BucketId>, part: StreamPart, table: seq<BucketRow>, opts: Options,
                          p: Pass)
    requires LatestChecked(Start(heap, ids, opts), part, table, opts, p)
    ensures p.ids == ids + if table != [] && (heap == [] || 100 * heap[0].size >= 70 * opts.maxSize
                                              || 100 * heap[0].records >= 70 * opts.maxRecordCount)
                           then {table[0].id} else {}
  {
  }

  /** The second look loads a bucket only if it can serve, but for timestamp 0. */
  lemma PastServes(heap: seq<Value>, ids: set<BucketId>, part: StreamPart, table: seq<BucketRow>, timestamp: int,
                   opts: Options, p: Pass, q: Pass)
    requires IsTable(table) && NoBucketAt(heap, table, timestamp)
    requires LatestChecked(Start(heap, ids, opts), part, table, opts, p)
    requires PastChecked(p, part, table, timestamp, opts, q)
    requires !q.insertNewBucket
    ensures FindBucketId(q.heap, timestamp, opts).Some? <==> !Missed(heap, ids, table, timestamp, opts)
  {
    AfterLatest(heap, ids, part, table, opts, p);
    FindsIffServes(p.heap, timestamp, opts);
    var found := LastBuckets(table, Some(timestamp));
    LastBucketsIn(table, Some(timestamp));
    if FindBucketId(p.heap, timestamp, opts).None? {
      assert found != [] && found[0].id !in p.ids;
      PushedHead(p.heap, Loaded(part, found[0]), q.heap);
      FindsIffServes(q.heap, timestamp, opts);
      assert Loaded(part, found[0]) in q.heap;
      assert heap != [] ==> heap[0] in q.heap;
    }
  }

  /**
   A pass over a stream part leaves its pending timestamp with a bucket, whatever
   is in memory and in the table, but for exactly one case.
   */
  lemma PassServesIff(heap: seq<Value>, ids: set<BucketId>, part: StreamPart, table: seq<BucketRow>, timestamp: int,
                      newId: BucketId, opts: Options, p: Pass, q: Pass, r: Pass)
    requires opts.Valid() && IsHeap(heap) && IsTable(table) && NoBucketAt(heap, table, timestamp)
    requires LatestChecked(Start(heap, ids, opts), part, table, opts, p)
    requires PastChecked(p, part, table, timestamp, opts, q)
    requires Inserted(q, part, timestamp, newId, r)
    ensures FindBucketId(r.heap, timestamp, opts).Some? <==> !Missed(heap, ids, table, timestamp, opts)
  {
    if !q.insertNewBucket {
      PastServes(heap, ids, part, table, timestamp, opts, p, q);
    } else {
      AfterLatest(heap, ids, part, table, opts, p);
      LastBucketsIn(table, Some(timestamp));
      NewBucketServes(q, part, timestamp, newId, opts, r);
      if p.heap != [] {
        FindsIffServes(p.heap, timestamp, opts);
      }
    }
  }

  /** A missed timestamp is served by the next pass over the same table. */
  lemma MissedOnlyOnce(heap: seq<Value>, ids: set<BucketId>, part: StreamPart, table: seq<BucketRow>,
                       newId: BucketId, opts: Options, p: Pass, q: Pass, r: Pass)
    requires Missed(heap, ids, table, 0, opts)
    requires LatestChecked(Start(heap, ids, opts), part, table, opts, p)
    requires PastChecked(p, part, table, 0, opts, q)
    requires Inserted(q, part, 0, newId, r)
    ensures !Missed(r.heap, r.ids, table, 0, opts)
  {
    FindsIffServes(heap, 0, opts);
  }

  /**
   The case in which a pass does not serve: memory has a bucket of date 5, the
   table one of date 7, and a message of timestamp 0 waits.
   */
  lemma TimestampZeroIsMissed(opts: Options)
    requires opts.Valid()
    ensures var part, b, row := StreamPart("s", 0), BucketRow("a", 5, 0, 0), BucketRow("b", 7, 0, 0);
      var heap, table := [Loaded(part, b)], [row, b];
      exists p, q, r ::
        && LatestChecked(Start(heap, {"a"}, opts), part, table, opts, p)
        && PastChecked(p, part, table, 0, opts, q)
        && Inserted(q, part, 0, "c", r)
        && FindBucketId(r.heap, 0, opts).None?
  {
    var part, b, row := StreamPart("s", 0), BucketRow("a", 5, 0, 0), BucketRow("b", 7, 0, 0);
    var heap, table := [Loaded(part, b)], [row, b];
    var p := Start(heap, {"a"}, opts);
    var q := Pass([Loaded(part, row), Loaded(part, b)], {"a", "b"}, false);
    assert FirstNotAfter([Loaded(part, b)], 0) == None;
    assert q.heap[1..] == [Loaded(part, b)];
    assert LatestChecked(p, part, table, opts, p);
    assert Pushed(p.heap, Loaded(part, row), q.heap);
    assert PastChecked(p, part, table, 0, opts, q);
    assert Inserted(q, part, 0, "c", q);
  }

  // ---------- When a pass creates a second bucket at a date ----------

  /** A row of the table whose id is in memory has its bucket in the heap. */
  predicate Coherent(heap: seq<Value>, ids: set<BucketId>, table: seq<BucketRow>) {
    forall r | r in table && r.id in ids :: exists b :: b in heap && b.id == r.id && b.dateCreate == r.dateCreate
  }

  /**
   The cases in which a pass creates a bucket at the date of another one: the
   bucket it would use is almost full, or the timestamp is 0 and the second look
   at the table finds a bucket that is in memory already.
   */
  predicate Duplicates(heap: seq<Value>, ids: set<BucketId>, part: StreamPart, table: seq<BucketRow>, timestamp: int,
                       opts: Options) {
    if heap != [] then
      || heap[0].IsAlmostFull(opts)
      || (timestamp == 0 && (forall b | b in heap :: b.dateCreate > 0) && table != [] && table[0].id in ids)
    else
      && table != []
      && (if table[0].dateCreate == timestamp then Loaded(part, table[0]).IsAlmostFull(opts) else timestamp == 0)
  }

  /** In memory only: what the two looks come to when the latest bucket of memory can be used. */
  lemma DuplicatesFromMemory(heap: seq<Value>, ids: set<BucketId>, part: StreamPart, table: seq<BucketRow>,
                             timestamp: int,
                             opts: Options, q: Pass)
    requires IsHeap(heap) && IsTable(table) && Coherent(heap, ids, table) && !NoBucketAt(heap, table, timestamp)
    requires heap != [] && !heap[0].IsAlmostFull(opts)
    requires PastChecked(Start(heap, ids, opts), part, table, timestamp, opts, q)
    ensures q.insertNewBucket <==> Duplicates(heap, ids, part, table, timestamp, opts)
  {
    FindsIffServes(heap, timestamp, opts);
    LastBucketsIn(table, Some(timestamp));
    assert heap[0] in heap;
  }

  /** From the table only: memory has no bucket of the stream part. */
  lemma DuplicatesFromTable(ids: set<BucketId>, part: StreamPart, table: seq<BucketRow>, timestamp: int, opts: Options,
                            p: Pass, q: Pass)
    requires IsTable(table) && Coherent([], ids, table) && !NoBucketAt([], table, timestamp)
    requires LatestChecked(Start([], ids, opts), part, table, opts, p)
    requires PastChecked(p, part, table, timestamp, opts, q)
    ensures q.insertNewBucket <==> Duplicates([], ids, part, table, timestamp, opts)
  {
    LastBucketsIn(table, None);
    LastBucketsIn(table, Some(timestamp));
    assert table[0] in table && table[0].id !in ids;
    PushedHead([], Loaded(part, table[0]), p.heap);
    assert p.heap[0] in p.heap;
    assert p.heap == [Loaded(part, table[0])];
    FindsIffServes(p.heap, timestamp, opts);
  }

  /**
   With a bucket of the stream part at the pending timestamp already, a pass
   creates another one at that date if and only if it is a duplicating case.
   */
  lemma PassDuplicatesIff(heap: seq<Value>, ids: set<BucketId>, part: StreamPart, table: seq<BucketRow>, timestamp: int,
                          opts: Options, p: Pass, q: Pass)
    requires IsHeap(heap) && IsTable(table) && Coherent(heap, ids, table) && !NoBucketAt(heap, table, timestamp)
    requires LatestChecked(Start(heap, ids, opts), part, table, opts, p)
    requires PastChecked(p, part, table, timestamp, opts, q)
    ensures q.insertNewBucket <==> Duplicates(heap, ids, part, table, timestamp, opts)
  {
    if heap == [] {
      DuplicatesFromTable(ids, part, table, timestamp, opts, p, q);
    } else if !heap[0].IsAlmostFull(opts) {
      DuplicatesFromMemory(heap, ids, part, table, timestamp, opts, q);
    }
  }
}
