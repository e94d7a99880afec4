/** Queries for the last (or first) rows of a stream part, which scan buckets until they hold enough. */
module TakeQueries {
  import opened MessageRefs
  import opened StreamData

  const MAX_RESEND_LAST := 10000

  /** The low 32 bits of a count, as a signed number. */
  function Low(n: nat): (low: int)
    ensures low <= n
  {
    var m := n % 0x1_0000_0000;
    if m >= 0x8000_0000 then m - 0x1_0000_0000 else m
  }

  /** Below 2^31 that is the count itself, and at 2^32 it starts anew. */
  lemma LowIsSigned(n: nat)
    ensures n < 0x8000_0000 ==> Low(n) == n
    ensures 0x8000_0000 <= n < 0x1_0000_0000 ==> Low(n) == n - 0x1_0000_0000
    ensures Low(n + 0x1_0000_0000) == Low(n)
  {
  }

  function Min(a: nat, b: nat): nat {
    if a < b then a else b
  }

  function Abs(n: int): nat {
    if n < 0 then -n else n
  }

  function InBuckets(rows: seq<Row>, ids: seq<BucketId>): set<Row> {
    set r | r in rows && r.bucketId in ids
  }

  /** The answer to a COUNT over some buckets. */
  function Count(rows: seq<Row>, ids: seq<BucketId>): nat {
    |Filter(rows, InBuckets(rows, ids))|
  }

  function Reverse(rows: seq<Row>): seq<Row> {
    if rows == [] then [] else Reverse(rows[1..]) + [rows[0]]
  }

  /** The ids on the first `n` pages. */
  function IdsOn(pages: seq<seq<BucketId>>, n: nat): seq<BucketId>
    requires n <= |pages|
  {
    if n == 0 then [] else IdsOn(pages, n - 1) + pages[n - 1]
  }

  /** A result fetched one row at a time; at most the last page is empty. */
  ghost predicate FetchedOneByOne(pages: seq<seq<BucketId>>) {
    && pages != []
    && (forall i | 0 <= i < |pages| - 1 :: |pages[i]| == 1)
    && |pages[|pages| - 1]| <= 1
  }

  ghost predicate Distinct(ids: seq<BucketId>) {
    forall i, j | 0 <= i < j < |ids| :: ids[i] != ids[j]
  }

  /** The bucket query returns the table's ids, newest bucket first. */
  ghost predicate IsBucketListing(pages: seq<seq<BucketId>>) {
    FetchedOneByOne(pages) && Distinct(IdsOn(pages, |pages|))
  }

  /** The rows of the scanned buckets in query order, limited, then put in ascending order. */
  function MakeTakeQuery(rows: seq<Row>, bucketIds: seq<BucketId>, isFirst: bool, limit: nat): seq<Row> {
    var found := Filter(rows, InBuckets(rows, bucketIds));
    if isFirst then Limit(found, Some(limit)) else Reverse(Limit(Reverse(found), Some(limit)))
  }

  /** How many pages a scan reads that is at page `k` with `total` rows counted before. */
  function PagesRead(rows: seq<Row>, pages: seq<seq<BucketId>>, limit: nat, k: nat, total: int): (n: nat)
    requires k < |pages| && IdsOn(pages, k + 1) != []
    ensures k < n <= |pages|
    decreases |pages| - k
  {
    var ids := IdsOn(pages, k + 1);
    var counted := total + Low(Count(rows, [ids[|ids| - 1]]));
    if k + 1 < |pages| && counted < limit && counted < MAX_RESEND_LAST then
      PagesRead(rows, pages, limit, k + 1, counted)
    else k + 1
  }

  /** The buckets that the scan for `limit` rows collects. */
  function Scanned(rows: seq<Row>, pages: seq<seq<BucketId>>, limit: nat): seq<BucketId>
    requires pages != []
  {
    if pages[0] == [] then []
    else
      assert IdsOn(pages, 1) == IdsOn(pages, 0) + pages[0];
      IdsOn(pages, PagesRead(rows, pages, limit, 0, 0))
  }

  lemma NoPages(pages: seq<seq<BucketId>>)
    ensures IdsOn(pages, 0) == []
  {
  }

  lemma NextPage(pages: seq<seq<BucketId>>, k: nat)
    requires k < |pages|
    ensures IdsOn(pages, k + 1) == IdsOn(pages, k) + pages[k]
    ensures k + 1 < |pages| ==> IdsOn(pages, k + 2) == IdsOn(pages, k + 1) + pages[k + 1]
  {
  }

  lemma PagesReadFrom(rows: seq<Row>, pages: seq<seq<BucketId>>, limit: nat, k: nat, total: int)
    requires k < |pages|
    ensures var ids := IdsOn(pages, k + 1); ids != [] ==>
      var counted := total + Low(Count(rows, [ids[|ids| - 1]]));
      PagesRead(rows, pages, limit, k, total)
      == if k + 1 < |pages| && counted < limit && counted < MAX_RESEND_LAST
         then NextPage(pages, k); PagesRead(rows, pages, limit, k + 1, counted) else k + 1
  {
  }

  lemma ScannedIs(rows: seq<Row>, pages: seq<seq<BucketId>>, limit: nat)
    requires pages != []
    ensures pages[0] == [] ==> Scanned(rows, pages, limit) == []
    ensures pages[0] != [] ==> IdsOn(pages, 1) == pages[0]
    ensures pages[0] != [] ==> Scanned(rows, pages, limit) == IdsOn(pages, PagesRead(rows, pages, limit, 0, 0))
  {
  }

  /** What Cassandra returns for a count of either sign. */
  function CassandraTake(rows: seq<Row>, pages: seq<seq<BucketId>>, requestCount: int): seq<Row>
    requires pages != []
  {
    var limit := Min(Abs(requestCount), MAX_RESEND_LAST);
    MakeTakeQuery(rows, Scanned(rows, pages, limit), requestCount > 0, limit)
  }

  /** The scan page by page, as the callbacks of the paged bucket query do it. */
  method QueryTake(rows: seq<Row>, pages: seq<seq<BucketId>>, requestCount: int) returns (result: seq<Row>)
    requires FetchedOneByOne(pages)
    ensures result == CassandraTake(rows, pages, requestCount)
  {
    hide Count, MakeTakeQuery, PagesRead, IdsOn, Low;
    NoPages(pages);
    ScannedIs(rows, pages, Min(Abs(requestCount), MAX_RESEND_LAST));
    var limit := Min(Abs(requestCount), MAX_RESEND_LAST);
    var total: int := 0;
    var bucketId: Option<BucketId> := None;
    var bucketIds: seq<BucketId> := [];
    var page: nat := 0;
    while true
      invariant page < |pages|
      invariant bucketIds == IdsOn(pages, page)
      invariant bucketId == if bucketIds == [] then None else Some(bucketIds[|bucketIds| - 1])
      invariant page > 0 ==> bucketIds != [] && pages[0] != []
      invariant page == 0 ==> total == 0
      invariant pages[0] != [] ==> IdsOn(pages, page + 1) != []
      invariant pages[0] != [] ==> PagesRead(rows, pages, limit, 0, 0) == PagesRead(rows, pages, limit, page, total)
      decreases |pages| - page
    {
      NextPage(pages, page);
      PagesReadFrom(rows, pages, limit, page, total);
      if |pages[page]| == 1 {
        bucketId := Some(pages[page][0]);
        bucketIds := bucketIds + pages[page];
      }
      assert pages[page] == [] ==> bucketIds + [] == bucketIds;
      assert bucketIds == IdsOn(pages, page + 1);
      if bucketId.None? {
        NothingFound(rows, requestCount > 0, limit);
        return [];
      }
      total := total + Low(Count(rows, [bucketId.value]));
      if page + 1 < |pages| && total < limit && total < MAX_RESEND_LAST {
        page := page + 1;
      } else {
        return MakeTakeQuery(rows, bucketIds, requestCount > 0, limit);
      }
    }
  }

  lemma NothingFound(rows: seq<Row>, isFirst: bool, limit: nat)
    ensures MakeTakeQuery(rows, [], isFirst, limit) == []
  {
    assert InBuckets(rows, []) == {};
    FilterNone(rows, {});
  }

  // ---------- The last rows ----------

  /** Every row is in a listed bucket, and newer buckets hold later references. */
  ghost predicate Layered(rows: seq<Row>, ids: seq<BucketId>) {
    && Ordered(rows)
    && (forall r | r in rows :: r.bucketId in ids)
    && (forall x, y, i, j | x in rows && y in rows && 0 <= i < j < |ids|
                            && x.bucketId == ids[i] && y.bucketId == ids[j] ::
          y.ref.Before(x.ref))
  }

  function LastRows(rows: seq<Row>, n: nat): seq<Row> {
    if n < |rows| then rows[|rows| - n..] else rows
  }

  lemma {:induction false} ReverseLast(rows: seq<Row>)
    requires rows != []
    ensures Reverse(rows) == [rows[|rows| - 1]] + Reverse(rows[..|rows| - 1])
  {
    if |rows| == 1 {
      assert rows[1..] == [] && rows[..0] == [];
    } else {
      ReverseLast(rows[1..]);
      assert rows[1..][..|rows| - 2] == rows[..|rows| - 1][1..];
    }
  }

  lemma {:induction false} ReverseLength(rows: seq<Row>)
    ensures |Reverse(rows)| == |rows|
  {
    if rows != [] {
      ReverseLength(rows[1..]);
    }
  }

  lemma {:induction false} ReverseTwice(rows: seq<Row>)
    ensures Reverse(Reverse(rows)) == rows
  {
    if rows != [] {
      ReverseTwice(rows[1..]);
      var r := Reverse(rows[1..]);
      ReverseLast(r + [rows[0]]);
      assert (r + [rows[0]])[..|r|] == r;
    }
  }

  lemma {:induction false} ReversedPrefix(rows: seq<Row>, n: nat)
    requires n <= |rows|
    ensures |Reverse(rows)| == |rows|
    ensures Reverse(rows)[..n] == Reverse(rows[|rows| - n..])
    decreases n
  {
    ReverseLength(rows);
    if n > 0 {
      var init := rows[..|rows| - 1];
      ReverseLast(rows);
      ReversedPrefix(init, n - 1);
      var tail := rows[|rows| - n..];
      ReverseLast(tail);
      assert tail[..n - 1] == init[|init| - (n - 1)..];
    }
  }

  /** Reversing a limited descending result gives the last rows in ascending order. */
  lemma DescendingLimit(rows: seq<Row>, n: nat)
    ensures Reverse(Limit(Reverse(rows), Some(n))) == LastRows(rows, n)
  {
    ReverseLength(rows);
    if n < |rows| {
      ReversedPrefix(rows, n);
      ReverseTwice(rows[|rows| - n..]);
    } else {
      ReverseTwice(rows);
    }
  }

  /** `found` is the end of `rows`, and nothing before it is in the buckets `ids`. */
  ghost predicate IsEndOf(found: seq<Row>, rows: seq<Row>, ids: seq<BucketId>) {
    exists older :: older + found == rows && forall r | r in older :: r.bucketId !in ids
  }

  lemma NewestAreEarlier(rows: seq<Row>, ids: seq<BucketId>, m: nat, x: Row, y: Row)
    requires Layered(rows, ids) && m <= |ids| && x in rows && y in rows
    requires x.bucketId in ids[m..] && y.bucketId in ids[..m]
    ensures x.ref.Before(y.ref)
  {
  }

  /** The rows of the newest buckets are the end of the row list. */
  lemma NewestAreEnd(rows: seq<Row>, ids: seq<BucketId>, m: nat)
    requires Layered(rows, ids) && m <= |ids|
    ensures IsEndOf(Filter(rows, InBuckets(rows, ids[..m])), rows, ids[..m])
  {
    var q, p := InBuckets(rows, ids[..m]), InBuckets(rows, ids[m..]) - InBuckets(rows, ids[..m]);
    assert ids == ids[..m] + ids[m..];
    forall x, y | x in p && y in q ensures x.ref.Before(y.ref) {
      NewestAreEarlier(rows, ids, m, x, y);
    }
    FilterSplit(rows, p, q);
    FilterAll(rows, p + q);
    FilterMembers(rows, p);
    assert Filter(rows, p) + Filter(rows, q) == rows;
  }

  lemma {:induction false} FilterDisjoint(rows: seq<Row>, p: set<Row>, q: set<Row>)
    requires p !! q
    ensures |Filter(rows, p + q)| == |Filter(rows, p)| + |Filter(rows, q)|
  {
    if rows != [] {
      FilterDisjoint(rows[1..], p, q);
    }
  }

  /** Scanning one more bucket adds what the scan counts for it. */
  lemma CountAppend(rows: seq<Row>, ids: seq<BucketId>, id: BucketId)
    requires id !in ids
    ensures Count(rows, ids + [id]) == Count(rows, ids) + Count(rows, [id])
  {
    assert InBuckets(rows, ids + [id]) == InBuckets(rows, ids) + InBuckets(rows, [id]);
    FilterDisjoint(rows, InBuckets(rows, ids), InBuckets(rows, [id]));
  }

  lemma {:induction false} IdsOnLength(pages: seq<seq<BucketId>>, n: nat)
    requires FetchedOneByOne(pages) && n < |pages|
    ensures |IdsOn(pages, n)| == n
  {
    if n > 0 {
      IdsOnLength(pages, n - 1);
    }
  }

  lemma {:induction false} IdsOnPrefix(pages: seq<seq<BucketId>>, m: nat, n: nat)
    requires m <= n <= |pages|
    ensures IdsOn(pages, m) <= IdsOn(pages, n)
    decreases n
  {
    if m < n {
      IdsOnPrefix(pages, m, n - 1);
    }
  }

  /** All pages but the last hold one new id. */
  lemma PageAddsBucket(pages: seq<seq<BucketId>>, k: nat)
    requires IsBucketListing(pages) && k + 1 < |pages|
    ensures IdsOn(pages, k + 1) == IdsOn(pages, k) + [pages[k][0]]
    ensures pages[k][0] !in IdsOn(pages, k)
  {
    var before, all := IdsOn(pages, k), IdsOn(pages, |pages|);
    assert pages[k] == [pages[k][0]];
    IdsOnLength(pages, k);
    IdsOnPrefix(pages, k + 1, |pages|);
    var ids := IdsOn(pages, k + 1);
    forall i | 0 <= i < k ensures before[i] != pages[k][0] {
      assert all[i] == ids[i] == before[i] && all[k] == ids[k];
    }
  }

  /** A scan stops only when it has read all pages or the buckets read hold enough rows. */
  lemma {:induction false} ScanStops(rows: seq<Row>, pages: seq<seq<BucketId>>, limit: nat, k: nat, total: int)
    requires IsBucketListing(pages) && k < |pages| && limit <= MAX_RESEND_LAST
    requires IdsOn(pages, k + 1) != []
    requires total <= Count(rows, IdsOn(pages, k))
    ensures var n := PagesRead(rows, pages, limit, k, total);
      n == |pages| || Count(rows, IdsOn(pages, n)) >= limit
    decreases |pages| - k
  {
    hide Count, IdsOn;
    if k + 1 < |pages| {
      PageAddsBucket(pages, k);
      var ids := IdsOn(pages, k + 1);
      CountAppend(rows, IdsOn(pages, k), pages[k][0]);
      var counted := total + Low(Count(rows, [ids[|ids| - 1]]));
      if counted < limit && counted < MAX_RESEND_LAST {
        IdsOnPrefix(pages, k + 1, k + 2);
        ScanStops(rows, pages, limit, k + 1, counted);
      }
    }
  }

  lemma NoBucketsNoRows(rows: seq<Row>, pages: seq<seq<BucketId>>)
    requires IsBucketListing(pages) && Layered(rows, IdsOn(pages, |pages|)) && pages[0] == []
    ensures rows == []
  {
    assert forall i | 0 <= i < |rows| :: rows[i] in rows;
    assert |pages| == 1;
    assert IdsOn(pages, 1) == IdsOn(pages, 0) + pages[0];
  }

  /** The scanned buckets hold the end of the row list: all of it, or at least `limit` rows. */
  lemma ScannedSuffices(rows: seq<Row>, pages: seq<seq<BucketId>>, limit: nat)
    requires IsBucketListing(pages) && Layered(rows, IdsOn(pages, |pages|)) && limit <= MAX_RESEND_LAST
    ensures var found := Filter(rows, InBuckets(rows, Scanned(rows, pages, limit)));
      && (found == rows || |found| >= limit)
      && IsEndOf(found, rows, Scanned(rows, pages, limit))
  {
    var all, ids := IdsOn(pages, |pages|), Scanned(rows, pages, limit);
    if pages[0] == [] {
      NoBucketsNoRows(rows, pages);
      assert [] + Filter(rows, InBuckets(rows, ids)) == rows;
    } else {
      var n := ScanReads(rows, pages, limit);
      IdsOnPrefix(pages, n, |pages|);
      assert ids == all[..|ids|];
      NewestAreEnd(rows, all, |ids|);
      if n == |pages| {
        FilterAll(rows, InBuckets(rows, ids));
      }
    }
  }

  lemma ScanReads(rows: seq<Row>, pages: seq<seq<BucketId>>, limit: nat) returns (n: nat)
    requires IsBucketListing(pages) && pages[0] != [] && limit <= MAX_RESEND_LAST
    ensures n <= |pages| && Scanned(rows, pages, limit) == IdsOn(pages, n)
    ensures n == |pages| || Count(rows, IdsOn(pages, n)) >= limit
  {
    hide Count, IdsOn, Low, Scanned;
    NoPages(pages);
    ScannedIs(rows, pages, limit);
    n := PagesRead(rows, pages, limit, 0, 0);
    ScanStops(rows, pages, limit, 0, 0);
  }

  lemma EndHasLastRows(found: seq<Row>, rows: seq<Row>, older: seq<Row>, limit: nat)
    requires older + found == rows && (found == rows || |found| >= limit)
    ensures LastRows(found, limit) == LastRows(rows, limit)
  {
  }

  lemma LastOfScanned(rows: seq<Row>, pages: seq<seq<BucketId>>, limit: nat)
    requires IsBucketListing(pages) && Layered(rows, IdsOn(pages, |pages|)) && limit <= MAX_RESEND_LAST
    ensures MakeTakeQuery(rows, Scanned(rows, pages, limit), false, limit) == LastRows(rows, limit)
  {
    hide Filter, InBuckets, Layered, IdsOn, Scanned, Reverse, Limit, LastRows;
    ScannedSuffices(rows, pages, limit);
    var found := Filter(rows, InBuckets(rows, Scanned(rows, pages, limit)));
    DescendingLimit(found, limit);
    var older: seq<Row> :| older + found == rows && forall r | r in older :: r.bucketId !in Scanned(rows, pages, limit);
    EndHasLastRows(found, rows, older, limit);
  }

  /**
   Stopping early is sound: `queryLast` returns, in ascending order, exactly the
   last `min(count, 10000)` rows of the stream part, or all if there are fewer.
   */
  lemma QueryLastIsExact(rows: seq<Row>, pages: seq<seq<BucketId>>, count: nat)
    requires IsBucketListing(pages) && Layered(rows, IdsOn(pages, |pages|))
    ensures CassandraTake(rows, pages, -(count as int)) == LastRows(rows, if count < 10000 then count else 10000)
  {
    hide Scanned, MakeTakeQuery, Layered, IdsOn, LastRows;
    LastOfScanned(rows, pages, Min(count, MAX_RESEND_LAST));
  }

  /** What the SQLite database returns for a count of either sign. */
  function SQLiteTake(rows: seq<Row>, requestCount: int): seq<Row> {
    if requestCount > 0 then Limit(rows, Some(Abs(requestCount)))
    else Reverse(Limit(Reverse(rows), Some(Abs(requestCount))))
  }

  /** For a positive count SQLite returns the first rows, ... */
  lemma SQLiteFirstRows(rows: seq<Row>, count: int)
    requires count > 0
    ensures SQLiteTake(rows, count) <= rows
    ensures |SQLiteTake(rows, count)| == if count < |rows| then count else |rows|
  {
  }

  /** ... and else the last ones, both in ascending order. */
  lemma SQLiteLastRows(rows: seq<Row>, count: nat)
    ensures SQLiteTake(rows, -(count as int)) == if count < |rows| then rows[|rows| - count..] else rows
  {
    DescendingLimit(rows, count);
  }

  /** On the last rows the two databases agree, but for the cap that only Cassandra puts on the count. */
  lemma LastRowsAgreeIff(rows: seq<Row>, pages: seq<seq<BucketId>>, count: nat)
    requires IsBucketListing(pages) && Layered(rows, IdsOn(pages, |pages|))
    ensures CassandraTake(rows, pages, -(count as int)) == SQLiteTake(rows, -(count as int))
      <==> count <= 10000 || |rows| <= 10000
  {
    QueryLastIsExact(rows, pages, count);
    DescendingLimit(rows, count);
  }

  /** `queryFirst` scans the newest buckets too, so it is right exactly when the scan reached every row. */
  lemma FirstIffAllScanned(rows: seq<Row>, pages: seq<seq<BucketId>>, count: nat)
    requires IsBucketListing(pages) && Layered(rows, IdsOn(pages, |pages|)) && count > 0
    ensures var limit := Min(count, MAX_RESEND_LAST); var ids := Scanned(rows, pages, limit);
      (MakeTakeQuery(rows, ids, true, limit) == Limit(rows, Some(limit)))
      <==> (forall r | r in rows :: r.bucketId in ids)
  {
    var limit := Min(count, MAX_RESEND_LAST);
    var ids := Scanned(rows, pages, limit);
    if forall r | r in rows :: r.bucketId in ids {
      FilterAll(rows, InBuckets(rows, ids));
    } else {
      ScannedSuffices(rows, pages, limit);
      FirstRowMissed(rows, ids, limit);
    }
  }

  lemma FirstRowMissed(rows: seq<Row>, ids: seq<BucketId>, limit: nat)
    requires IsEndOf(Filter(rows, InBuckets(rows, ids)), rows, ids) && limit > 0
    requires exists r | r in rows :: r.bucketId !in ids
    ensures Limit(Filter(rows, InBuckets(rows, ids)), Some(limit)) != Limit(rows, Some(limit))
  {
    var found := Filter(rows, InBuckets(rows, ids));
    FilterMembers(rows, InBuckets(rows, ids));
    var older: seq<Row> :| older + found == rows && forall r | r in older :: r.bucketId !in ids;
    assert older != [];
    assert rows[0] == older[0] && older[0] in older;
    assert found != [] ==> found[0] in found;
  }

  // ---------- When the first rows are right ----------

  function NotIn(rows: seq<Row>, id: BucketId): set<Row> {
    set r | r in rows && r.bucketId != id
  }

  /** How many rows are not in the bucket of the first one. */
  function Outside(rows: seq<Row>): nat
    requires rows != []
  {
    |Filter(rows, NotIn(rows, rows[0].bucketId))|
  }

  lemma {:induction false} FilterMonotone(rows: seq<Row>, p: set<Row>, q: set<Row>)
    requires forall r | r in rows && r in p :: r in q
    ensures |Filter(rows, p)| <= |Filter(rows, q)| <= |rows|
  {
    if rows != [] {
      FilterMonotone(rows[1..], p, q);
    }
  }

  /** What a scan counts for some buckets. */
  function Counted(rows: seq<Row>, ids: seq<BucketId>): int {
    if ids == [] then 0 else Counted(rows, ids[..|ids| - 1]) + Low(Count(rows, [ids[|ids| - 1]]))
  }

  lemma OneMoreCounted(rows: seq<Row>, ids: seq<BucketId>, id: BucketId)
    ensures Counted(rows, ids + [id]) == Counted(rows, ids) + Low(Count(rows, [id]))
  {
    assert (ids + [id])[..|ids|] == ids;
  }

  /** A scan reads on while it has counted less than the limit, and only then. */
  lemma {:induction false} ScanCounts(rows: seq<Row>, pages: seq<seq<BucketId>>, limit: nat, k: nat, total: int, m: nat)
    requires IsBucketListing(pages) && k < |pages| && limit <= MAX_RESEND_LAST
    requires IdsOn(pages, k + 1) != [] && total == Counted(rows, IdsOn(pages, k))
    ensures var n := PagesRead(rows, pages, limit, k, total);
      && (k < m < n ==> Counted(rows, IdsOn(pages, m)) < limit)
      && (n < |pages| ==> Counted(rows, IdsOn(pages, n)) >= limit)
    decreases |pages| - k
  {
    hide Count, IdsOn, Low, Counted;
    if k + 1 < |pages| {
      PageAddsBucket(pages, k);
      OneMoreCounted(rows, IdsOn(pages, k), pages[k][0]);
      var ids := IdsOn(pages, k + 1);
      var counted := total + Low(Count(rows, [ids[|ids| - 1]]));
      assert counted == Counted(rows, ids);
      if counted < limit && counted < MAX_RESEND_LAST {
        IdsOnPrefix(pages, k + 1, k + 2);
        ScanCounts(rows, pages, limit, k + 1, counted, m);
      }
    }
  }

  /** The buckets newer than that of the first row never count up to the limit. */
  predicate ScanGoesOn(rows: seq<Row>, ids: seq<BucketId>, limit: nat)
    requires rows != []
  {
    forall m | 0 < m < |ids| && rows[0].bucketId !in ids[..m] :: Counted(rows, ids[..m]) < limit
  }

  /** The bucket of the first row is the oldest that holds rows. */
  lemma FirstBucketIsOldest(rows: seq<Row>, ids: seq<BucketId>, j: nat, r: Row)
    requires Layered(rows, ids) && r in rows && j < |ids| && ids[j] == rows[0].bucketId && r.bucketId != ids[j]
    ensures r.bucketId in ids[..j]
  {
  }

  /** The ids on the first pages are the first ids of all. */
  lemma PagesArePrefix(pages: seq<seq<BucketId>>, m: nat)
    requires FetchedOneByOne(pages) && m < |pages|
    ensures var all := IdsOn(pages, |pages|); m <= |all| <= |pages| && IdsOn(pages, m) == all[..m]
  {
    IdsOnBound(pages, |pages|);
    IdsOnLength(pages, m);
    IdsOnPrefix(pages, m, |pages|);
  }

  /** A scan that does not reach a listed bucket stopped before it, at the limit. */
  lemma ScanStopsBefore(rows: seq<Row>, pages: seq<seq<BucketId>>, limit: nat, id: BucketId) returns (m: nat)
    requires IsBucketListing(pages) && pages[0] != [] && limit <= MAX_RESEND_LAST
    requires id in IdsOn(pages, |pages|) && id !in Scanned(rows, pages, limit)
    ensures var all := IdsOn(pages, |pages|);
      0 < m < |all| && id !in all[..m] && Counted(rows, all[..m]) >= limit
  {
    hide Count, Counted, IdsOn, Low, Scanned;
    NoPages(pages);
    NothingCounted(rows);
    ScannedIs(rows, pages, limit);
    m := PagesRead(rows, pages, limit, 0, 0);
    ScanCounts(rows, pages, limit, 0, 0, m);
    assert m < |pages|;
    PagesArePrefix(pages, m);
  }

  /** If the scan stops short of some row, it stopped before the first row's bucket, at the limit. */
  lemma ShortScan(rows: seq<Row>, pages: seq<seq<BucketId>>, limit: nat)
    requires IsBucketListing(pages) && Layered(rows, IdsOn(pages, |pages|)) && rows != [] && limit <= MAX_RESEND_LAST
    requires exists r | r in rows :: r.bucketId !in Scanned(rows, pages, limit)
    ensures !ScanGoesOn(rows, IdsOn(pages, |pages|), limit)
  {
    FirstIsMissed(rows, pages, limit);
    if pages[0] == [] {
      NoBucketsNoRows(rows, pages);
    } else {
      hide Counted, Layered, IdsOn, Scanned, FetchedOneByOne, Distinct;
      FirstIsListed(rows, IdsOn(pages, |pages|));
      var m := ScanStopsBefore(rows, pages, limit, rows[0].bucketId);
    }
  }

  /** The bucket of the first row is listed, ... */
  lemma FirstIsListed(rows: seq<Row>, ids: seq<BucketId>)
    requires Layered(rows, ids) && rows != []
    ensures rows[0].bucketId in ids
  {
    assert rows[0] in rows;
  }

  /** ... and not scanned if any bucket with rows is not. */
  lemma FirstIsMissed(rows: seq<Row>, pages: seq<seq<BucketId>>, limit: nat)
    requires IsBucketListing(pages) && Layered(rows, IdsOn(pages, |pages|)) && rows != [] && limit <= MAX_RESEND_LAST
    requires exists r | r in rows :: r.bucketId !in Scanned(rows, pages, limit)
    ensures rows[0].bucketId !in Scanned(rows, pages, limit)
  {
    var ids := Scanned(rows, pages, limit);
    var found := Filter(rows, InBuckets(rows, ids));
    ScannedSuffices(rows, pages, limit);
    FilterMembers(rows, InBuckets(rows, ids));
    var older: seq<Row> :| older + found == rows && forall r | r in older :: r.bucketId !in ids;
    assert older != [];
    assert rows[0] == older[0] && older[0] in older;
  }

  lemma NothingCounted(rows: seq<Row>)
    ensures Counted(rows, []) == 0
  {
  }

  /** A scan that reaches the first row's bucket counted too few rows before it. */
  lemma FullScan(rows: seq<Row>, pages: seq<seq<BucketId>>, limit: nat)
    requires IsBucketListing(pages) && Layered(rows, IdsOn(pages, |pages|)) && rows != [] && limit <= MAX_RESEND_LAST
    requires rows[0].bucketId in Scanned(rows, pages, limit)
    ensures ScanGoesOn(rows, IdsOn(pages, |pages|), limit)
  {
    var all := IdsOn(pages, |pages|);
    forall m | 0 < m < |all| && rows[0].bucketId !in all[..m] ensures Counted(rows, all[..m]) < limit {
      ScanPasses(rows, pages, limit, m);
    }
  }

  lemma ScanPasses(rows: seq<Row>, pages: seq<seq<BucketId>>, limit: nat, m: nat)
    requires IsBucketListing(pages) && rows != [] && limit <= MAX_RESEND_LAST
    requires rows[0].bucketId in Scanned(rows, pages, limit)
    requires var all := IdsOn(pages, |pages|); 0 < m < |all| && rows[0].bucketId !in all[..m]
    ensures Counted(rows, IdsOn(pages, |pages|)[..m]) < limit
  {
    hide Count, Counted, IdsOn, Low;
    NoPages(pages);
    NothingCounted(rows);
    ScannedIs(rows, pages, limit);
    var all, n := IdsOn(pages, |pages|), PagesRead(rows, pages, limit, 0, 0);
    IdsOnPrefix(pages, n, |pages|);
    IdsOnBound(pages, n);
    ShorterPrefix(IdsOn(pages, n), all, m, rows[0].bucketId);
    PagesArePrefix(pages, m);
    ScanCounts(rows, pages, limit, 0, 0, m);
  }

  lemma ShorterPrefix(ids: seq<BucketId>, all: seq<BucketId>, m: nat, id: BucketId)
    requires ids <= all && id in ids && m <= |all| && id !in all[..m]
    ensures m < |ids|
  {
    var j :| 0 <= j < |ids| && ids[j] == id;
    assert forall k | 0 <= k < m :: all[k] in all[..m];
    assert all[j] == id;
  }

  lemma IdsOnBound(pages: seq<seq<BucketId>>, n: nat)
    requires FetchedOneByOne(pages) && n <= |pages|
    ensures |IdsOn(pages, n)| <= n
  {
  }

  /**
   `queryFirst` returns the first rows exactly when the buckets newer than that of
   the first row never count up to the limit.
   */
  lemma QueryFirstIff(rows: seq<Row>, pages: seq<seq<BucketId>>, count: nat)
    requires IsBucketListing(pages) && Layered(rows, IdsOn(pages, |pages|)) && count > 0
    ensures var limit := if count < 10000 then count else 10000;
      (CassandraTake(rows, pages, count) == if limit < |rows| then rows[..limit] else rows)
      <==> (rows == [] || ScanGoesOn(rows, IdsOn(pages, |pages|), limit))
  {
    var limit := Min(count, MAX_RESEND_LAST);
    FirstIffAllScanned(rows, pages, count);
    if rows != [] {
      assert rows[0] in rows;
      if forall r | r in rows :: r.bucketId in Scanned(rows, pages, limit) {
        FullScan(rows, pages, limit);
      } else {
        ShortScan(rows, pages, limit);
      }
    }
  }

  /** So on the first rows the databases agree exactly then, and if the cap of Cassandra does not matter. */
  lemma FirstRowsAgreeIff(rows: seq<Row>, pages: seq<seq<BucketId>>, count: nat)
    requires IsBucketListing(pages) && Layered(rows, IdsOn(pages, |pages|)) && count > 0
    ensures CassandraTake(rows, pages, count) == SQLiteTake(rows, count)
      <==> rows == [] || (ScanGoesOn(rows, IdsOn(pages, |pages|), Min(count, 10000))
                          && (count <= 10000 || |rows| <= 10000))
  {
    hide Scanned, ScanGoesOn, Layered, InBuckets, Filter;
    QueryFirstIff(rows, pages, count);
  }

  // ---------- The same told from the rows, where no count overflows ----------

  lemma CountIsLow(rows: seq<Row>, id: BucketId)
    requires |rows| < 0x8000_0000
    ensures Low(Count(rows, [id])) == Count(rows, [id])
  {
    FilterMonotone(rows, InBuckets(rows, [id]), InBuckets(rows, [id]));
  }

  lemma {:induction false} CountedIsCount(rows: seq<Row>, ids: seq<BucketId>)
    requires |rows| < 0x8000_0000 && Distinct(ids)
    ensures Counted(rows, ids) == Count(rows, ids)
  {
    hide Low, Count;
    if ids == [] {
      NoIds(rows);
    } else {
      var rest, id := ids[..|ids| - 1], ids[|ids| - 1];
      assert ids == rest + [id];
      CountedIsCount(rows, rest);
      CountIsLow(rows, id);
      CountAppend(rows, rest, id);
    }
  }

  lemma NoIds(rows: seq<Row>)
    ensures Count(rows, []) == 0
  {
    FilterNone(rows, InBuckets(rows, []));
  }

  lemma OthersAreNewer(rows: seq<Row>, ids: seq<BucketId>, j: nat)
    requires Layered(rows, ids) && rows != [] && j < |ids| && ids[j] == rows[0].bucketId
    ensures Outside(rows) <= Count(rows, ids[..j])
  {
    hide Layered, Filter;
    forall r | r in NotIn(rows, rows[0].bucketId) ensures r in InBuckets(rows, ids[..j]) {
      FirstBucketIsOldest(rows, ids, j, r);
    }
    FilterMonotone(rows, NotIn(rows, rows[0].bucketId), InBuckets(rows, ids[..j]));
  }

  lemma NewerAreOthers(rows: seq<Row>, ids: seq<BucketId>)
    requires rows != [] && rows[0].bucketId !in ids
    ensures Count(rows, ids) <= Outside(rows)
  {
    FilterMonotone(rows, InBuckets(rows, ids), NotIn(rows, rows[0].bucketId));
  }

  /** Below 2^31 rows, `queryFirst` is right exactly if fewer than the limit are outside the first one's bucket. */
  lemma QueryFirstOutside(rows: seq<Row>, ids: seq<BucketId>, limit: nat)
    requires Layered(rows, ids) && Distinct(ids) && rows != [] && limit > 0 && |rows| < 0x8000_0000
    ensures ScanGoesOn(rows, ids, limit) <==> Outside(rows) < limit
  {
    hide Layered, Count, Counted, Outside;
    FirstIsListed(rows, ids);
    var j :| 0 <= j < |ids| && ids[j] == rows[0].bucketId;
    OthersAreNewer(rows, ids, j);
    assert ids[..0] == [];
    NoIds(rows);
    CountedIsCount(rows, ids[..j]);
    forall m | 0 < m < |ids| && rows[0].bucketId !in ids[..m]
      ensures Counted(rows, ids[..m]) == Count(rows, ids[..m]) <= Outside(rows)
    {
      CountedIsCount(rows, ids[..m]);
      NewerAreOthers(rows, ids[..m]);
    }
  }

  const EARLIER: Row := Row(MessageRef(1, 0), "p", "c", "b1")
  const LATER: Row := Row(MessageRef(2, 0), "p", "c", "b2")
  const TWO_PAGES: seq<seq<BucketId>> := [["b2"], ["b1"]]

  lemma TwoPages()
    ensures IdsOn(TWO_PAGES, 1) == ["b2"] && IdsOn(TWO_PAGES, 2) == ["b2", "b1"]
    ensures IsBucketListing(TWO_PAGES) && Layered([EARLIER, LATER], IdsOn(TWO_PAGES, 2))
  {
    assert IdsOn(TWO_PAGES, 1) == IdsOn(TWO_PAGES, 0) + ["b2"];
    assert IdsOn(TWO_PAGES, 2) == IdsOn(TWO_PAGES, 1) + ["b1"];
    hide IdsOn;
  }

  lemma InNewestBucket()
    ensures Filter([EARLIER, LATER], InBuckets([EARLIER, LATER], ["b2"])) == [LATER]
  {
    assert InBuckets([EARLIER, LATER], ["b2"]) == {LATER};
    assert [EARLIER, LATER][1..] == [LATER] && [LATER][1..] == [];
    assert Filter([LATER], {LATER}) == [LATER] + Filter([], {LATER});
  }

  /** Two buckets with one row each: asked for the first row, the query returns the last. */
  lemma QueryFirstReturnsNewest()
    ensures IsBucketListing(TWO_PAGES) && Layered([EARLIER, LATER], IdsOn(TWO_PAGES, 2))
    ensures CassandraTake([EARLIER, LATER], TWO_PAGES, 1) == [LATER]
  {
    hide Filter, InBuckets, IdsOn;
    TwoPages();
    InNewestBucket();
    assert PagesRead([EARLIER, LATER], TWO_PAGES, 1, 0, 0) == 1;
  }
}
