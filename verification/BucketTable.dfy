/** The bucket table of one stream part. */
module BucketTables {
  import opened MessageRefs
  import opened StreamData

  datatype BucketRow = BucketRow(id: BucketId, dateCreate: int, size: nat, records: nat)

  /** The table is clustered by `dateCreate`, newest first; ids are unique. */
  ghost predicate IsTable(table: seq<BucketRow>) {
    && (forall i, j | 0 <= i < j < |table| :: table[i].dateCreate > table[j].dateCreate)
    && (forall i, j | 0 <= i < j < |table| :: table[i].id != table[j].id)
  }

  /** Created after `after` (if given) and not after `upTo` (if given). */
  predicate IsBetween(b: BucketRow, after: Option<int>, upTo: Option<int>) {
    && (after.Some? ==> after.value < b.dateCreate)
    && (upTo.Some? ==> b.dateCreate <= upTo.value)
  }

  function Between(table: seq<BucketRow>, after: Option<int>, upTo: Option<int>): seq<BucketRow> {
    if table == [] then []
    else (if IsBetween(table[0], after, upTo) then [table[0]] else []) + Between(table[1..], after, upTo)
  }

  function First(buckets: seq<BucketRow>): seq<BucketRow> {
    if buckets == [] then [] else [buckets[0]]
  }

  /** The latest bucket; with a timestamp other than 0, the latest bucket not after it. */
  function LastBuckets(table: seq<BucketRow>, timestamp: Option<int>): seq<BucketRow> {
    if timestamp.Some? && timestamp.value != 0 then First(Between(table, None, timestamp)) else First(table)
  }

  lemma {:induction false} BetweenMembers(table: seq<BucketRow>, after: Option<int>, upTo: Option<int>)
    ensures forall b :: b in Between(table, after, upTo) <==> b in table && IsBetween(b, after, upTo)
  {
    if table != [] {
      BetweenMembers(table[1..], after, upTo);
      assert forall b :: b in table <==> b == table[0] || b in table[1..];
    }
  }

  lemma ConsIsTable(b: BucketRow, tail: seq<BucketRow>)
    requires IsTable(tail)
    requires forall c | c in tail :: b.dateCreate > c.dateCreate && b.id != c.id
    ensures IsTable([b] + tail)
  {
  }

  lemma TailIsTable(table: seq<BucketRow>)
    requires IsTable(table) && table != []
    ensures IsTable(table[1..])
    ensures forall c | c in table[1..] :: table[0].dateCreate > c.dateCreate && table[0].id != c.id
  {
  }

  lemma {:induction false} BetweenIsTable(table: seq<BucketRow>, after: Option<int>, upTo: Option<int>)
    requires IsTable(table)
    ensures IsTable(Between(table, after, upTo))
  {
    if table != [] {
      TailIsTable(table);
      BetweenIsTable(table[1..], after, upTo);
      BetweenMembers(table[1..], after, upTo);
      ConsIsTable(table[0], Between(table[1..], after, upTo));
      assert [] + Between(table[1..], after, upTo) == Between(table[1..], after, upTo);
    }
  }
}
