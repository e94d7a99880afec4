/** The bucket table of one stream part as an index from timestamps to buckets. */
module BucketIndex {
  import opened MessageRefs
  import opened StreamData
  import opened BucketTables
  import opened RangeQueries

  datatype Result = Buckets(buckets: seq<BucketRow>) | TypeError

  /** The latest bucket not after `fromTimestamp`. */
  function ExplicitFirst(table: seq<BucketRow>, fromTimestamp: int): seq<BucketRow> {
    First(Between(table, None, Some(fromTimestamp)))
  }

  function Rest(table: seq<BucketRow>, fromTimestamp: Option<int>, toTimestamp: Option<int>): Result {
    if fromTimestamp.None? && toTimestamp.None? then TypeError
    else Buckets(Between(table, fromTimestamp, toTimestamp))
  }

  function GetBucketsByTimestamp(table: seq<BucketRow>, fromTimestamp: Option<int>, toTimestamp: Option<int>): Result {
    var rest := Rest(table, fromTimestamp, toTimestamp);
    if fromTimestamp.Some? && rest.Buckets? then Buckets(rest.buckets + ExplicitFirst(table, fromTimestamp.value))
    else rest
  }

  function BucketsToIds(buckets: seq<BucketRow>): (ids: seq<BucketId>)
    ensures |ids| == |buckets|
    ensures forall i | 0 <= i < |ids| :: ids[i] == buckets[i].id
  {
    seq(|buckets|, i requires 0 <= i < |buckets| => buckets[i].id)
  }

  /** `b` is the latest bucket of the table that is not after `timestamp`. */
  ghost predicate IsLatestAt(table: seq<BucketRow>, timestamp: int, b: BucketRow) {
    && b in table && b.dateCreate <= timestamp
    && forall c | c in table && c.dateCreate <= timestamp :: c.dateCreate <= b.dateCreate
  }

  /** Every row sits in the bucket that was the latest at its timestamp. */
  ghost predicate Placed(table: seq<BucketRow>, rows: seq<Row>) {
    forall r | r in rows :: exists b :: IsLatestAt(table, r.ref.timestamp, b) && b.id == r.bucketId
  }

  lemma SameBucket(table: seq<BucketRow>, b: BucketRow, c: BucketRow)
    requires IsTable(table) && b in table && c in table && b.dateCreate == c.dateCreate
    ensures b == c
  {
  }

  lemma FirstIsLatest(table: seq<BucketRow>, timestamp: int)
    requires IsTable(table)
    ensures forall b :: b in ExplicitFirst(table, timestamp) <==> IsLatestAt(table, timestamp, b)
  {
    var found := Between(table, None, Some(timestamp));
    BetweenMembers(table, None, Some(timestamp));
    BetweenIsTable(table, None, Some(timestamp));
    forall b ensures b in ExplicitFirst(table, timestamp) <==> IsLatestAt(table, timestamp, b) {
      if IsLatestAt(table, timestamp, b) {
        assert b in found;
        assert found[0] in found;
        var i :| 0 <= i < |found| && found[i] == b;
        SameBucket(table, b, found[0]);
      }
      if b in ExplicitFirst(table, timestamp) {
        assert b == found[0];
        forall c | c in table && c.dateCreate <= timestamp ensures c.dateCreate <= b.dateCreate {
          assert c in found;
        }
      }
    }
  }

  /**
   With both ends given, in order, the index returns exactly the buckets that are
   the latest at some timestamp of the range, each once.
   */
  lemma IndexIsExact(table: seq<BucketRow>, fromTimestamp: int, toTimestamp: int)
    requires IsTable(table) && fromTimestamp <= toTimestamp
    ensures var result := GetBucketsByTimestamp(table, Some(fromTimestamp), Some(toTimestamp));
      && result.Buckets?
      && IsTable(result.buckets)
      && (forall b :: b in result.buckets <==>
            exists t :: fromTimestamp <= t <= toTimestamp && IsLatestAt(table, t, b))
  {
    var rest, first := Between(table, Some(fromTimestamp), Some(toTimestamp)), ExplicitFirst(table, fromTimestamp);
    var buckets := rest + first;
    BetweenMembers(table, Some(fromTimestamp), Some(toTimestamp));
    BetweenIsTable(table, Some(fromTimestamp), Some(toTimestamp));
    FirstIsLatest(table, fromTimestamp);
    RestAndFirstIsTable(table, rest, first, fromTimestamp);
    forall b
      ensures b in buckets <==> exists t :: fromTimestamp <= t <= toTimestamp && IsLatestAt(table, t, b)
    {
      IndexMember(table, fromTimestamp, toTimestamp, b);
    }
  }

  /** A timestamp in a range of which either end may be open. */
  predicate InRange(t: int, fromTimestamp: Option<int>, toTimestamp: Option<int>) {
    (fromTimestamp.Some? ==> fromTimestamp.value <= t) && (toTimestamp.Some? ==> t <= toTimestamp.value)
  }

  /** The bucket is the latest at some timestamp of the range. */
  ghost predicate IsLatestWithin(table: seq<BucketRow>, fromTimestamp: Option<int>, toTimestamp: Option<int>,
                                 b: BucketRow) {
    exists t :: InRange(t, fromTimestamp, toTimestamp) && IsLatestAt(table, t, b)
  }

  /**
   The same with either end open: only without both is the call an error. With the
   ends out of order, the bucket of the first one is returned.
   */
  lemma OpenIndexIsExact(table: seq<BucketRow>, fromTimestamp: Option<int>, toTimestamp: Option<int>)
    requires IsTable(table)
    ensures var result := GetBucketsByTimestamp(table, fromTimestamp, toTimestamp);
      && (result.TypeError? <==> fromTimestamp.None? && toTimestamp.None?)
      && (result.Buckets? ==> IsTable(result.buckets) && forall b :: b in result.buckets <==>
            if fromTimestamp.Some? && toTimestamp.Some? && fromTimestamp.value > toTimestamp.value
            then IsLatestAt(table, fromTimestamp.value, b)
            else IsLatestWithin(table, fromTimestamp, toTimestamp, b))
  {
    hide Between, IsTable, IsLatestAt;
    if fromTimestamp.Some? {
      var rest := Between(table, fromTimestamp, toTimestamp);
      var first := ExplicitFirst(table, fromTimestamp.value);
      BetweenMembers(table, fromTimestamp, toTimestamp);
      BetweenIsTable(table, fromTimestamp, toTimestamp);
      FirstIsLatest(table, fromTimestamp.value);
      forall b | b in first ensures b in table && b.dateCreate <= fromTimestamp.value {
        LatestIsNotAfter(table, fromTimestamp.value, b);
      }
      RestAndFirstIsTable(table, rest, first, fromTimestamp.value);
      forall b ensures b in rest + first <==>
        if toTimestamp.Some? && fromTimestamp.value > toTimestamp.value then IsLatestAt(table, fromTimestamp.value, b)
        else IsLatestWithin(table, fromTimestamp, toTimestamp, b)
      {
        FromMember(table, fromTimestamp.value, toTimestamp, b);
      }
    } else if toTimestamp.Some? {
      BetweenMembers(table, None, toTimestamp);
      BetweenIsTable(table, None, toTimestamp);
      forall b ensures b in Between(table, None, toTimestamp) <==> IsLatestWithin(table, None, toTimestamp, b) {
        ToMember(table, toTimestamp.value, b);
      }
    }
  }

  lemma LatestIsNotAfter(table: seq<BucketRow>, timestamp: int, b: BucketRow)
    requires IsLatestAt(table, timestamp, b)
    ensures b in table && b.dateCreate <= timestamp
  {
  }

  lemma FromMember(table: seq<BucketRow>, fromTimestamp: int, toTimestamp: Option<int>, b: BucketRow)
    ensures (b in table && IsBetween(b, Some(fromTimestamp), toTimestamp)) || IsLatestAt(table, fromTimestamp, b) <==>
      if toTimestamp.Some? && fromTimestamp > toTimestamp.value then IsLatestAt(table, fromTimestamp, b)
      else IsLatestWithin(table, Some(fromTimestamp), toTimestamp, b)
  {
    if b in table && IsBetween(b, Some(fromTimestamp), toTimestamp) {
      assert IsLatestAt(table, b.dateCreate, b) && InRange(b.dateCreate, Some(fromTimestamp), toTimestamp);
    } else if toTimestamp.Some? ==> fromTimestamp <= toTimestamp.value {
      assert InRange(fromTimestamp, Some(fromTimestamp), toTimestamp);
    }
  }

  lemma ToMember(table: seq<BucketRow>, toTimestamp: int, b: BucketRow)
    ensures b in table && IsBetween(b, None, Some(toTimestamp)) <==>
      IsLatestWithin(table, None, Some(toTimestamp), b)
  {
    if b in table && IsBetween(b, None, Some(toTimestamp)) {
      assert IsLatestAt(table, b.dateCreate, b) && InRange(b.dateCreate, None, Some(toTimestamp));
    }
  }

  lemma RestAndFirstIsTable(table: seq<BucketRow>, rest: seq<BucketRow>, first: seq<BucketRow>, fromTimestamp: int)
    requires IsTable(table) && IsTable(rest) && |first| <= 1
    requires forall b | b in rest :: b in table && b.dateCreate > fromTimestamp
    requires forall b | b in first :: b in table && b.dateCreate <= fromTimestamp
    ensures IsTable(rest + first)
  {
    var buckets := rest + first;
    assert first != [] ==> first[0] in first;
    forall i, j | 0 <= i < j < |buckets|
      ensures buckets[i].dateCreate > buckets[j].dateCreate && buckets[i].id != buckets[j].id
    {
      if j == |rest| {
        assert rest[i] in rest && buckets[j] == first[0];
        OtherDateOtherId(table, rest[i], first[0]);
      }
    }
  }

  lemma OtherDateOtherId(table: seq<BucketRow>, b: BucketRow, c: BucketRow)
    requires IsTable(table) && b in table && c in table && b.dateCreate != c.dateCreate
    ensures b.id != c.id
  {
  }

  lemma IndexMember(table: seq<BucketRow>, fromTimestamp: int, toTimestamp: int, b: BucketRow)
    requires IsTable(table) && fromTimestamp <= toTimestamp
    ensures b in Between(table, Some(fromTimestamp), Some(toTimestamp)) + ExplicitFirst(table, fromTimestamp)
      <==> exists t :: fromTimestamp <= t <= toTimestamp && IsLatestAt(table, t, b)
  {
    BetweenMembers(table, Some(fromTimestamp), Some(toTimestamp));
    FirstIsLatest(table, fromTimestamp);
    if b in Between(table, Some(fromTimestamp), Some(toTimestamp)) {
      assert IsLatestAt(table, b.dateCreate, b);
    }
  }

  lemma PlacedIn(table: seq<BucketRow>, rows: seq<Row>, r: Row) returns (b: BucketRow)
    requires Placed(table, rows) && r in rows
    ensures IsLatestAt(table, r.ref.timestamp, b) && b.id == r.bucketId
  {
    b :| IsLatestAt(table, r.ref.timestamp, b) && b.id == r.bucketId;
  }

  /** The index is duplicate-free and holds every properly placed row of the interval. */
  lemma IndexCovers(table: seq<BucketRow>, rows: seq<Row>, a: RangeArgs)
    requires IsTable(table) && Placed(table, rows) && a.fromTimestamp <= a.toTimestamp
    ensures var result := GetBucketsByTimestamp(table, Some(a.fromTimestamp), Some(a.toTimestamp));
      && result.Buckets?
      && DistinctIds(BucketsToIds(result.buckets))
      && Covers(BucketsToIds(result.buckets), rows, a)
  {
    hide Placed, IsTable, IsLatestAt, GetBucketsByTimestamp, DistinctIds;
    IndexIsExact(table, a.fromTimestamp, a.toTimestamp);
    var buckets := GetBucketsByTimestamp(table, Some(a.fromTimestamp), Some(a.toTimestamp)).buckets;
    BucketIdsDiffer(buckets);
    forall r | r in rows && a.fromTimestamp <= r.ref.timestamp <= a.toTimestamp
      ensures r.bucketId in BucketsToIds(buckets)
    {
      var b := PlacedIn(table, rows, r);
      IdIsListed(buckets, b);
    }
  }

  lemma IdIsListed(buckets: seq<BucketRow>, b: BucketRow)
    requires b in buckets
    ensures b.id in BucketsToIds(buckets)
  {
    var i :| 0 <= i < |buckets| && buckets[i] == b;
    assert BucketsToIds(buckets)[i] == b.id;
  }

  /** The range of all references at one timestamp. */
  function AllAt(timestamp: int): RangeArgs {
    RangeArgs(timestamp, MIN_SEQUENCE_NUMBER_VALUE, timestamp, MAX_SEQUENCE_NUMBER_VALUE, None, None)
  }

  /** The buckets looked up for a range hold its rows. */
  ghost predicate IndexedCovers(table: seq<BucketRow>, rows: seq<Row>, a: RangeArgs) {
    var result := GetBucketsByTimestamp(table, Some(a.fromTimestamp), Some(a.toTimestamp));
    result.Buckets? && Covers(BucketsToIds(result.buckets), rows, a)
  }

  /** At one timestamp, the index returns the latest bucket only. */
  lemma CoveredIsPlaced(table: seq<BucketRow>, rows: seq<Row>, r: Row)
    requires IsTable(table) && r in rows && IndexedCovers(table, rows, AllAt(r.ref.timestamp))
    ensures exists b :: IsLatestAt(table, r.ref.timestamp, b) && b.id == r.bucketId
  {
    var t := r.ref.timestamp;
    IndexIsExact(table, t, t);
    var buckets := GetBucketsByTimestamp(table, Some(t), Some(t)).buckets;
    var i :| 0 <= i < |buckets| && BucketsToIds(buckets)[i] == r.bucketId;
    assert buckets[i] in buckets;
  }

  /** The buckets that the index returns hold all rows of every range, if and only if each row is properly placed. */
  lemma IndexCoversIff(table: seq<BucketRow>, rows: seq<Row>)
    requires IsTable(table)
    ensures (forall a: RangeArgs | a.fromTimestamp <= a.toTimestamp :: IndexedCovers(table, rows, a))
      <==> Placed(table, rows)
  {
    if Placed(table, rows) {
      forall a: RangeArgs | a.fromTimestamp <= a.toTimestamp ensures IndexedCovers(table, rows, a) {
        IndexCovers(table, rows, a);
      }
    }
    if forall a: RangeArgs | a.fromTimestamp <= a.toTimestamp :: IndexedCovers(table, rows, a) {
      forall r | r in rows ensures exists b :: IsLatestAt(table, r.ref.timestamp, b) && b.id == r.bucketId {
        CoveredIsPlaced(table, rows, r);
      }
    }
  }

  // ---------- The order in which the buckets are read ----------

  /** Rows placed in the latest bucket of their timestamp are in one bucket for each reference. */
  lemma PlacedOneBucket(table: seq<BucketRow>, rows: seq<Row>)
    requires IsTable(table) && Placed(table, rows)
    ensures OneBucketPerRef(rows)
  {
    forall x, y | x in rows && y in rows && x.ref == y.ref ensures x.bucketId == y.bucketId {
      var b :| IsLatestAt(table, x.ref.timestamp, b) && b.id == x.bucketId;
      var c :| IsLatestAt(table, y.ref.timestamp, c) && c.id == y.bucketId;
      SameBucket(table, b, c);
    }
  }

  /** Later buckets hold later timestamps. */
  lemma PlacedInOrder(table: seq<BucketRow>, rows: seq<Row>, b: BucketRow, c: BucketRow, x: Row, y: Row)
    requires IsTable(table) && Placed(table, rows) && x in rows && y in rows
    requires b in table && c in table && b.dateCreate < c.dateCreate && x.bucketId == b.id && y.bucketId == c.id
    ensures x.ref.timestamp < y.ref.timestamp
  {
    var d :| IsLatestAt(table, x.ref.timestamp, d) && d.id == x.bucketId;
    var e :| IsLatestAt(table, y.ref.timestamp, e) && e.id == y.bucketId;
    assert d == b && e == c by {
      SameIdSameBucket(table, d, b);
      SameIdSameBucket(table, e, c);
    }
  }

  lemma SameIdSameBucket(table: seq<BucketRow>, b: BucketRow, c: BucketRow)
    requires IsTable(table) && b in table && c in table && b.id == c.id
    ensures b == c
  {
  }

  function Reversed(ids: seq<BucketId>): (r: seq<BucketId>)
    ensures |r| == |ids|
    ensures forall i | 0 <= i < |ids| :: r[i] == ids[|ids| - 1 - i]
  {
    seq(|ids|, i requires 0 <= i < |ids| => ids[|ids| - 1 - i])
  }

  /** Read oldest bucket first, any rows chosen come in order. */
  lemma OldestFirst(table: seq<BucketRow>, rows: seq<Row>, buckets: seq<BucketRow>, chosen: set<Row>)
    requires IsTable(table) && Placed(table, rows) && IsTable(buckets) && forall b | b in buckets :: b in table
    ensures InOrder(rows, Reversed(BucketsToIds(buckets)), chosen)
  {
    hide Placed, IsTable;
    var ids := Reversed(BucketsToIds(buckets));
    forall i, j, x, y | 0 <= i < j < |ids| && x in rows && x in chosen && y in rows && y in chosen
      && x.bucketId == ids[i] && y.bucketId == ids[j] ensures x.ref.Before(y.ref)
    {
      var b, c := OlderAndNewer(buckets, i, j);
      PlacedInOrder(table, rows, b, c, x, y);
    }
  }

  /** Two buckets in reverse order. */
  lemma OlderAndNewer(buckets: seq<BucketRow>, i: nat, j: nat) returns (b: BucketRow, c: BucketRow)
    requires IsTable(buckets) && i < j < |buckets|
    ensures b in buckets && c in buckets && b.dateCreate < c.dateCreate
    ensures var ids := Reversed(BucketsToIds(buckets)); ids[i] == b.id && ids[j] == c.id
  {
    b, c := buckets[|buckets| - 1 - i], buckets[|buckets| - 1 - j];
  }

  /** All rows that a statement selects are in one bucket. */
  ghost predicate OneBucketEach(rows: seq<Row>, a: RangeArgs) {
    forall slice, x, y | slice in CassandraSlices(a) && x in Chosen(rows, a, slice) && y in Chosen(rows, a, slice) ::
      x.bucketId == y.bucketId
  }

  /** Newest first, as the index lists them, the buckets are in order only if each statement needs one of them. */
  lemma NewestFirstIff(table: seq<BucketRow>, rows: seq<Row>, a: RangeArgs, buckets: seq<BucketRow>)
    requires IsTable(table) && Placed(table, rows) && IsTable(buckets) && forall b | b in buckets :: b in table
    requires Covers(BucketsToIds(buckets), rows, a) && a.fromTimestamp <= a.toTimestamp
    ensures AllInOrder(rows, BucketsToIds(buckets), a) <==> OneBucketEach(rows, a)
  {
    hide Placed, IsTable;
    var ids := BucketsToIds(buckets);
    BucketIdsDiffer(buckets);
    if AllInOrder(rows, ids, a) {
      forall slice, x, y | slice in CassandraSlices(a) && x in Chosen(rows, a, slice) && y in Chosen(rows, a, slice)
        ensures x.bucketId == y.bucketId
      {
        assert x.bucketId in ids && y.bucketId in ids;
        SameBucketIfInOrder(table, rows, buckets, Chosen(rows, a, slice), x, y);
      }
    }
  }

  lemma BucketIdsDiffer(buckets: seq<BucketRow>)
    requires IsTable(buckets)
    ensures DistinctIds(BucketsToIds(buckets))
  {
  }

  lemma SameBucketIfInOrder(table: seq<BucketRow>, rows: seq<Row>, buckets: seq<BucketRow>, chosen: set<Row>, x: Row,
                            y: Row)
    requires IsTable(table) && Placed(table, rows) && IsTable(buckets) && forall b | b in buckets :: b in table
    requires InOrder(rows, BucketsToIds(buckets), chosen) && x in rows && x in chosen && y in rows && y in chosen
    requires x.bucketId in BucketsToIds(buckets) && y.bucketId in BucketsToIds(buckets)
    ensures x.bucketId == y.bucketId
  {
    hide Placed;
    var ids := BucketsToIds(buckets);
    var i :| 0 <= i < |ids| && ids[i] == x.bucketId;
    var j :| 0 <= j < |ids| && ids[j] == y.bucketId;
    assert buckets[i] in buckets && buckets[j] in buckets;
    if i < j {
      PlacedInOrder(table, rows, buckets[j], buckets[i], y, x);
    } else if j < i {
      PlacedInOrder(table, rows, buckets[i], buckets[j], x, y);
    }
  }

  /**
   A request through the index: if the buckets that the adapter looks up are read
   oldest first, it delivers the first `limit` rows of the lexicographic interval.
   */
  lemma IndexedRequestDeliversWanted(table: seq<BucketRow>, rows: seq<Row>, a: RangeArgs, limit: Option<nat>)
    requires IsTable(table) && Placed(table, rows)
    requires Ordered(rows) && RowsInBounds(rows) && a.fromTimestamp <= a.toTimestamp
    ensures var result := GetBucketsByTimestamp(table, Some(a.fromTimestamp), Some(a.toTimestamp));
      && result.Buckets?
      && var ids := Reversed(BucketsToIds(result.buckets));
      && RequestCassandra(rows, ids, a, limit) == Limit(Wanted(rows, a), Effective(limit))
      && RequestCassandra(rows, ids, a, limit) == RequestSQLite(rows, a, limit)
  {
    var buckets := IndexFacts(table, rows, a);
    forall slice | slice in CassandraSlices(a)
      ensures InOrder(rows, Reversed(BucketsToIds(buckets)), Chosen(rows, a, slice))
    {
      OldestFirst(table, rows, buckets, Chosen(rows, a, slice));
    }
    ReversedKeeps(BucketsToIds(buckets), rows, a);
    RequestDeliversWanted(rows, Reversed(BucketsToIds(buckets)), a, limit);
  }

  /**
   Read in the order in which they are listed, newest first, the request agrees
   with SQLite for every limit if and only if each statement needs one bucket.
   */
  lemma NewestFirstAgreesIff(table: seq<BucketRow>, rows: seq<Row>, a: RangeArgs)
    requires IsTable(table) && Placed(table, rows)
    requires Ordered(rows) && RowsInBounds(rows) && a.fromTimestamp <= a.toTimestamp
    ensures var result := GetBucketsByTimestamp(table, Some(a.fromTimestamp), Some(a.toTimestamp));
      && result.Buckets?
      && var ids := BucketsToIds(result.buckets);
      (forall limit :: RequestCassandra(rows, ids, a, limit) == RequestSQLite(rows, a, limit))
      <==> OneBucketEach(rows, a)
  {
    var buckets := IndexFacts(table, rows, a);
    PlacedOneBucket(table, rows);
    NewestFirstIff(table, rows, a, buckets);
    RequestsAgreeIff(rows, BucketsToIds(buckets), a);
  }

  lemma IndexFacts(table: seq<BucketRow>, rows: seq<Row>, a: RangeArgs) returns (buckets: seq<BucketRow>)
    requires IsTable(table) && Placed(table, rows) && a.fromTimestamp <= a.toTimestamp
    ensures GetBucketsByTimestamp(table, Some(a.fromTimestamp), Some(a.toTimestamp)) == Buckets(buckets)
    ensures IsTable(buckets) && DistinctIds(BucketsToIds(buckets)) && Covers(BucketsToIds(buckets), rows, a)
    ensures forall b | b in buckets :: b in table
  {
    IndexIsExact(table, a.fromTimestamp, a.toTimestamp);
    IndexCovers(table, rows, a);
    buckets := GetBucketsByTimestamp(table, Some(a.fromTimestamp), Some(a.toTimestamp)).buckets;
  }

  lemma ReversedKeeps(ids: seq<BucketId>, rows: seq<Row>, a: RangeArgs)
    requires DistinctIds(ids) && Covers(ids, rows, a)
    ensures DistinctIds(Reversed(ids)) && Covers(Reversed(ids), rows, a)
  {
    forall r | r in rows && a.fromTimestamp <= r.ref.timestamp <= a.toTimestamp ensures r.bucketId in Reversed(ids) {
      var i :| 0 <= i < |ids| && ids[i] == r.bucketId;
      assert Reversed(ids)[|ids| - 1 - i] == r.bucketId;
    }
  }
}
