/** Range queries: the three-slice plan of Cassandra, the single condition of SQLite, and the limit. */
module RangeQueries {
  import opened MessageRefs
  import opened StreamData

  datatype RangeArgs = RangeArgs(
    fromTimestamp: int,
    fromSequenceNo: int,
    toTimestamp: int,
    toSequenceNo: int,
    publisherId: Option<string>,
    msgChainId: Option<string>)
  {
    /** The lexicographic interval that the arguments describe. */
    predicate InInterval(ref: MessageRef) {
      && MessageRef(fromTimestamp, fromSequenceNo).AtMost(ref)
      && ref.AtMost(MessageRef(toTimestamp, toSequenceNo))
    }

    /** The optional conditions; an empty string counts as absent. */
    predicate MatchesIds(row: Row) {
      && (publisherId.Some? && publisherId.value != "" ==> row.publisherId == publisherId.value)
      && (msgChainId.Some? && msgChainId.value != "" ==> row.msgChainId == msgChainId.value)
    }

    predicate AllSequenceNumbers() {
      fromSequenceNo == MIN_SEQUENCE_NUMBER_VALUE && toSequenceNo == MAX_SEQUENCE_NUMBER_VALUE
    }
  }

  /** The temporal condition of one Cassandra statement. */
  datatype Slice =
    | Timestamps(from: int, to: int)
    | OneTimestamp(ts: int, fromSeq: int, toSeq: int)
    | FirstTimestamp(ts: int, fromSeq: int)
    | StrictlyBetween(from: int, to: int)
    | LastTimestamp(ts: int, toSeq: int)
  {
    predicate Selects(ref: MessageRef) {
      match this
      case Timestamps(from, to) => from <= ref.timestamp <= to
      case OneTimestamp(ts, fromSeq, toSeq) => ref.timestamp == ts && fromSeq <= ref.sequenceNumber <= toSeq
      case FirstTimestamp(ts, fromSeq) => ref.timestamp == ts && ref.sequenceNumber >= fromSeq
      case StrictlyBetween(from, to) => from < ref.timestamp < to
      case LastTimestamp(ts, toSeq) => ref.timestamp == ts && ref.sequenceNumber <= toSeq
    }
  }

  function CassandraSlices(a: RangeArgs): seq<Slice> {
    if a.AllSequenceNumbers() then [Timestamps(a.fromTimestamp, a.toTimestamp)]
    else if a.fromTimestamp == a.toTimestamp then [OneTimestamp(a.fromTimestamp, a.fromSequenceNo, a.toSequenceNo)]
    else [
      FirstTimestamp(a.fromTimestamp, a.fromSequenceNo),
      StrictlyBetween(a.fromTimestamp, a.toTimestamp),
      LastTimestamp(a.toTimestamp, a.toSequenceNo)
    ]
  }

  /** The temporal condition of the SQLite statement. */
  predicate SQLiteCondition(a: RangeArgs, ref: MessageRef) {
    if a.AllSequenceNumbers() then a.fromTimestamp <= ref.timestamp <= a.toTimestamp
    else if a.fromTimestamp == a.toTimestamp then
      ref.timestamp == a.fromTimestamp && a.fromSequenceNo <= ref.sequenceNumber <= a.toSequenceNo
    else
      || (ref.timestamp == a.fromTimestamp && ref.sequenceNumber >= a.fromSequenceNo)
      || (a.fromTimestamp < ref.timestamp && ref.timestamp < a.toTimestamp)
      || (ref.timestamp == a.toTimestamp && ref.sequenceNumber <= a.toSequenceNo)
  }

  /** A limit of 0 counts as absent. */
  function Effective(limit: Option<nat>): Option<nat> {
    if limit == Some(0) then None else limit
  }

  /** The rows that one statement selects. */
  function Chosen(rows: seq<Row>, a: RangeArgs, slice: Slice): set<Row> {
    set r | r in rows && slice.Selects(r.ref) && a.MatchesIds(r)
  }

  function Within(chosen: set<Row>, bucketIds: seq<BucketId>): set<Row> {
    set r | r in chosen && r.bucketId in bucketIds
  }

  /** Rows bucket by bucket: a statement over several buckets reads one after the other, each in order of references. */
  function PerBucket(rows: seq<Row>, bucketIds: seq<BucketId>, chosen: set<Row>): seq<Row> {
    if bucketIds == [] then []
    else Filter(rows, Within(chosen, [bucketIds[0]])) + PerBucket(rows, bucketIds[1..], chosen)
  }

  /** The result of one statement; `bucketIds` are in the order in which the database reads the buckets. */
  function SliceResult(rows: seq<Row>, bucketIds: seq<BucketId>, a: RangeArgs, slice: Slice,
                       limit: Option<nat>): seq<Row> {
    Limit(PerBucket(rows, bucketIds, Chosen(rows, a, slice)), Effective(limit))
  }

  /** The results of the statements, one after the other. */
  function SliceResults(rows: seq<Row>, bucketIds: seq<BucketId>, a: RangeArgs, slices: seq<Slice>,
                        limit: Option<nat>): seq<Row> {
    if slices == [] then []
    else SliceResult(rows, bucketIds, a, slices[0], limit) + SliceResults(rows, bucketIds, a, slices[1..], limit)
  }

  function CassandraQueryRange(rows: seq<Row>, bucketIds: seq<BucketId>, a: RangeArgs, limit: Option<nat>): seq<Row> {
    if bucketIds == [] then [] else SliceResults(rows, bucketIds, a, CassandraSlices(a), limit)
  }

  function SQLiteQueryRange(rows: seq<Row>, a: RangeArgs, limit: Option<nat>): seq<Row> {
    Limit(Filter(rows, set r | r in rows && SQLiteCondition(a, r.ref) && a.MatchesIds(r)), Effective(limit))
  }

  // ---------- The limit on the merged stream ----------

  /** The value of a limiting transform: its limit (None is Infinity) and what it let through. */
  datatype LimitState = LimitState(messageLimit: Option<nat>, messageCount: nat, output: seq<Row>, ended: bool) {
    function Transform(message: Row): LimitState {
      if messageLimit.None? || messageCount < messageLimit.value
      then this.(output := output + [message], messageCount := messageCount + 1)
      else this.(ended := true)
    }
  }

  class MessageLimitTransform {
    const messageLimit: Option<nat>
    var messageCount: nat
    var output: seq<Row>
    var ended: bool

    ghost function View(): LimitState
      reads this
    {
      LimitState(messageLimit, messageCount, output, ended)
    }

    constructor (messageLimit: Option<nat>)
      ensures View() == LimitState(messageLimit, 0, [], false)
    {
      this.messageLimit := messageLimit;
      messageCount, output, ended := 0, [], false;
    }

    method Transform(message: Row)
      modifies this
      ensures View() == old(View()).Transform(message)
    {
      if messageLimit.None? || messageCount < messageLimit.value {
        output := output + [message];
        messageCount := messageCount + 1;
      } else {
        ended := true;
      }
    }
  }

  function TransformAll(s: LimitState, messages: seq<Row>): LimitState
    decreases |messages|
  {
    if messages == [] then s else TransformAll(s.Transform(messages[0]), messages[1..])
  }

  function LimitMessages(messages: seq<Row>, limit: Option<nat>): seq<Row> {
    TransformAll(LimitState(Effective(limit), 0, [], false), messages).output
  }

  lemma {:induction false} TransformAllOutput(s: LimitState, messages: seq<Row>)
    requires s.messageCount == |s.output|
    requires s.messageLimit.Some? ==> s.messageCount <= s.messageLimit.value
    ensures TransformAll(s, messages).output == Limit(s.output + messages, s.messageLimit)
    ensures TransformAll(s, messages).ended <==>
      s.ended || (s.messageLimit.Some? && s.messageLimit.value < |s.output + messages|)
    decreases |messages|
  {
    if messages == [] {
      assert s.output + messages == s.output;
    } else {
      var t := s.Transform(messages[0]);
      assert TransformAll(s, messages) == TransformAll(t, messages[1..]);
      hide TransformAll;
      TransformAllOutput(t, messages[1..]);
      if s.messageLimit == Some(s.messageCount) {
        assert Limit(s.output + messages, s.messageLimit) == s.output;
      } else {
        assert (s.output + [messages[0]]) + messages[1..] == s.output + messages;
      }
    }
  }

  /** `requestRange` and `requestFrom` over either database. */
  function RequestCassandra(rows: seq<Row>, bucketIds: seq<BucketId>, a: RangeArgs, limit: Option<nat>): seq<Row> {
    LimitMessages(CassandraQueryRange(rows, bucketIds, a, limit), limit)
  }

  function RequestSQLite(rows: seq<Row>, a: RangeArgs, limit: Option<nat>): seq<Row> {
    LimitMessages(SQLiteQueryRange(rows, a, limit), limit)
  }

  // ---------- What the plans select ----------

  predicate InBounds(ref: MessageRef) {
    0 <= ref.sequenceNumber <= 2147483647
  }

  predicate SomeSliceSelects(a: RangeArgs, ref: MessageRef) {
    exists slice | slice in CassandraSlices(a) :: slice.Selects(ref)
  }

  /** The single condition of SQLite and the slices of Cassandra select the same references. */
  lemma SlicesAgreeWithSQLite(a: RangeArgs, ref: MessageRef)
    ensures SomeSliceSelects(a, ref) <==> SQLiteCondition(a, ref)
  {
    var slices := CassandraSlices(a);
    if !a.AllSequenceNumbers() && a.fromTimestamp != a.toTimestamp {
      assert slices[0] in slices && slices[1] in slices && slices[2] in slices;
    } else {
      assert slices[0] in slices;
    }
  }

  ghost predicate SelectsInterval(a: RangeArgs) {
    forall ref: MessageRef | InBounds(ref) :: SQLiteCondition(a, ref) <==> a.InInterval(ref)
  }

  /**
   The condition is the lexicographic interval for all rows with legal sequence
   numbers exactly when the timestamps are in order, or no slice touches a
   boundary timestamp.
   */
  lemma SelectsIntervalIff(a: RangeArgs)
    ensures SelectsInterval(a) <==>
      || a.fromTimestamp <= a.toTimestamp
      || (a.fromSequenceNo == 0 && a.toSequenceNo == 2147483647)
      || (a.fromSequenceNo > 2147483647 && a.toSequenceNo < 0)
  {
    var first := MessageRef(a.fromTimestamp, if a.fromSequenceNo < 0 then 0 else a.fromSequenceNo);
    var last := MessageRef(a.toTimestamp,
                           if a.toSequenceNo > MAX_SEQUENCE_NUMBER_VALUE then MAX_SEQUENCE_NUMBER_VALUE
                           else a.toSequenceNo);
    if SelectsInterval(a) && a.fromTimestamp > a.toTimestamp && !a.AllSequenceNumbers() {
      assert InBounds(first) ==> (SQLiteCondition(a, first) <==> a.InInterval(first));
      assert InBounds(last) ==> (SQLiteCondition(a, last) <==> a.InInterval(last));
    }
  }

  /** The rows that a range request is meant to deliver. */
  function Wanted(rows: seq<Row>, a: RangeArgs): seq<Row> {
    Filter(rows, set r | r in rows && a.InInterval(r.ref) && a.MatchesIds(r))
  }

  ghost predicate RowsInBounds(rows: seq<Row>) {
    forall r | r in rows :: InBounds(r.ref)
  }

  /** The buckets queried hold every row whose timestamp is in the range. */
  ghost predicate Covers(bucketIds: seq<BucketId>, rows: seq<Row>, a: RangeArgs) {
    forall r | r in rows && a.fromTimestamp <= r.ref.timestamp <= a.toTimestamp :: r.bucketId in bucketIds
  }

  ghost predicate DistinctIds(bucketIds: seq<BucketId>) {
    forall i, j | 0 <= i < j < |bucketIds| :: bucketIds[i] != bucketIds[j]
  }

  /** Of the chosen rows, those in a bucket read earlier come before those in a bucket read later. */
  ghost predicate InOrder(rows: seq<Row>, bucketIds: seq<BucketId>, chosen: set<Row>) {
    forall i, j, x, y | 0 <= i < j < |bucketIds| && x in rows && x in chosen && y in rows && y in chosen
      && x.bucketId == bucketIds[i] && y.bucketId == bucketIds[j] :: x.ref.Before(y.ref)
  }

  /** This holds for every statement of the plan. */
  ghost predicate AllInOrder(rows: seq<Row>, bucketIds: seq<BucketId>, a: RangeArgs) {
    forall slice | slice in CassandraSlices(a) :: InOrder(rows, bucketIds, Chosen(rows, a, slice))
  }

  /** Rows with one reference are in one bucket. */
  ghost predicate OneBucketPerRef(rows: seq<Row>) {
    forall x, y | x in rows && y in rows && x.ref == y.ref :: x.bucketId == y.bucketId
  }

  lemma {:induction false} FilterOrdered(rows: seq<Row>, chosen: set<Row>)
    requires Ordered(rows)
    ensures Ordered(Filter(rows, chosen))
  {
    if rows != [] {
      var rest := rows[1..];
      assert forall i | 0 <= i < |rest| :: rest[i] == rows[i + 1];
      FilterOrdered(rest, chosen);
      FilterMembers(rest, chosen);
      FilterCons(rows, chosen);
      var found := Filter(rest, chosen);
      forall i | 0 <= i < |found| ensures rows[0].ref.AtMost(found[i].ref) {
        assert found[i] in found;
        var k :| 0 <= k < |rest| && rest[k] == found[i];
      }
    }
  }

  /** Buckets read in order of their rows give the rows in order. */
  lemma {:induction false} PerBucketInOrder(rows: seq<Row>, bucketIds: seq<BucketId>, chosen: set<Row>)
    requires Ordered(rows) && DistinctIds(bucketIds) && InOrder(rows, bucketIds, chosen)
    requires forall r | r in chosen :: r in rows
    ensures PerBucket(rows, bucketIds, chosen) == Filter(rows, Within(chosen, bucketIds))
  {
    hide Filter;
    if bucketIds == [] {
      FilterNone(rows, Within(chosen, []));
    } else {
      var rest := bucketIds[1..];
      var p, q := Within(chosen, [bucketIds[0]]), Within(chosen, rest);
      TailInOrder(rows, bucketIds, chosen);
      PerBucketInOrder(rows, rest, chosen);
      FilterSplit(rows, p, q);
      assert p + q == Within(chosen, bucketIds);
    }
  }

  lemma TailInOrder(rows: seq<Row>, bucketIds: seq<BucketId>, chosen: set<Row>)
    requires DistinctIds(bucketIds) && InOrder(rows, bucketIds, chosen) && bucketIds != []
    requires forall r | r in chosen :: r in rows
    ensures DistinctIds(bucketIds[1..]) && InOrder(rows, bucketIds[1..], chosen)
    ensures forall x, y | x in Within(chosen, [bucketIds[0]]) && y in Within(chosen, bucketIds[1..]) ::
      x.ref.Before(y.ref)
  {
    var rest := bucketIds[1..];
    assert forall i | 0 <= i < |rest| :: rest[i] == bucketIds[i + 1];
    forall x, y | x in Within(chosen, [bucketIds[0]]) && y in Within(chosen, rest) ensures x.ref.Before(y.ref) {
      var j :| 0 <= j < |rest| && rest[j] == y.bucketId;
      assert bucketIds[j + 1] == y.bucketId;
    }
  }

  lemma {:induction false} PerBucketMembers(rows: seq<Row>, bucketIds: seq<BucketId>, chosen: set<Row>)
    ensures forall r :: r in PerBucket(rows, bucketIds, chosen) <==> r in rows && r in chosen && r.bucketId in bucketIds
  {
    if bucketIds != [] {
      FilterMembers(rows, Within(chosen, [bucketIds[0]]));
      PerBucketMembers(rows, bucketIds[1..], chosen);
    }
  }

  lemma {:induction false} SliceResultsMembers(rows: seq<Row>, bucketIds: seq<BucketId>, a: RangeArgs,
                                               slices: seq<Slice>)
    ensures forall r :: r in SliceResults(rows, bucketIds, a, slices, None) <==>
      r in rows && r.bucketId in bucketIds && a.MatchesIds(r) && exists slice | slice in slices :: slice.Selects(r.ref)
  {
    if slices != [] {
      PerBucketMembers(rows, bucketIds, Chosen(rows, a, slices[0]));
      SliceResultsMembers(rows, bucketIds, a, slices[1..]);
      assert forall slice :: slice in slices <==> slice == slices[0] || slice in slices[1..];
    }
  }

  /** How often a row is in a result: as often as it is stored, or not at all. */
  ghost predicate Occurs(rows: seq<Row>, result: seq<Row>, r: Row, isIn: bool) {
    multiset(result)[r] == if isIn then multiset(rows)[r] else 0
  }

  lemma {:induction false} FilterOccurs(rows: seq<Row>, chosen: set<Row>, r: Row)
    ensures Occurs(rows, Filter(rows, chosen), r, r in chosen)
  {
    if rows != [] {
      FilterOccurs(rows[1..], chosen, r);
      assert rows == [rows[0]] + rows[1..];
    }
  }

  lemma {:induction false} PerBucketOccurs(rows: seq<Row>, bucketIds: seq<BucketId>, chosen: set<Row>, r: Row)
    requires DistinctIds(bucketIds)
    ensures Occurs(rows, PerBucket(rows, bucketIds, chosen), r, r in chosen && r.bucketId in bucketIds)
  {
    if bucketIds != [] {
      var rest := bucketIds[1..];
      assert forall i | 0 <= i < |rest| :: rest[i] == bucketIds[i + 1];
      FilterOccurs(rows, Within(chosen, [bucketIds[0]]), r);
      PerBucketOccurs(rows, rest, chosen, r);
    }
  }

  /** The slices of a plan do not overlap. */
  ghost predicate Disjoint(slices: seq<Slice>, ref: MessageRef) {
    forall i, j | 0 <= i < j < |slices| :: !(slices[i].Selects(ref) && slices[j].Selects(ref))
  }

  lemma {:induction false} SliceResultsOccur(rows: seq<Row>, bucketIds: seq<BucketId>, a: RangeArgs,
                                             slices: seq<Slice>, r: Row)
    requires DistinctIds(bucketIds) && Disjoint(slices, r.ref) && r in rows
    ensures Occurs(rows, SliceResults(rows, bucketIds, a, slices, None), r,
                   r.bucketId in bucketIds && a.MatchesIds(r) && exists slice | slice in slices :: slice.Selects(r.ref))
  {
    hide PerBucket, DistinctIds;
    if slices != [] {
      var rest := slices[1..];
      assert forall i | 0 <= i < |rest| :: rest[i] == slices[i + 1];
      PerBucketOccurs(rows, bucketIds, Chosen(rows, a, slices[0]), r);
      SliceResultsOccur(rows, bucketIds, a, rest, r);
      assert forall slice :: slice in slices <==> slice == slices[0] || slice in rest;
    }
  }

  lemma WantedOccurs(rows: seq<Row>, bucketIds: seq<BucketId>, a: RangeArgs, r: Row)
    requires RowsInBounds(rows) && Covers(bucketIds, rows, a) && a.fromTimestamp <= a.toTimestamp
    requires DistinctIds(bucketIds)
    requires r in CassandraQueryRange(rows, bucketIds, a, None) <==> r in Wanted(rows, a)
    ensures multiset(CassandraQueryRange(rows, bucketIds, a, None))[r] == multiset(Wanted(rows, a))[r]
  {
    hide DistinctIds, SliceResults, Filter, Covers, RowsInBounds;
    var result, wanted := CassandraQueryRange(rows, bucketIds, a, None), Wanted(rows, a);
    FilterMembers(rows, set r | r in rows && a.InInterval(r.ref) && a.MatchesIds(r));
    if r in wanted {
      FilterOccurs(rows, (set x | x in rows && a.InInterval(x.ref) && a.MatchesIds(x)), r);
      SliceResultsOccur(rows, bucketIds, a, CassandraSlices(a), r);
      assert r in multiset(result);
    } else {
      assert r !in multiset(result) && r !in multiset(wanted);
    }
  }

  /** In whichever order the buckets are read, the plan returns the wanted rows, each as often, and no others. */
  lemma PlanReturnsWantedRows(rows: seq<Row>, bucketIds: seq<BucketId>, a: RangeArgs)
    requires RowsInBounds(rows) && Covers(bucketIds, rows, a) && a.fromTimestamp <= a.toTimestamp
    ensures forall r :: r in CassandraQueryRange(rows, bucketIds, a, None) <==> r in Wanted(rows, a)
    ensures DistinctIds(bucketIds) ==>
      multiset(CassandraQueryRange(rows, bucketIds, a, None)) == multiset(Wanted(rows, a))
  {
    hide DistinctIds;
    SliceResultsMembers(rows, bucketIds, a, CassandraSlices(a));
    FilterMembers(rows, set r | r in rows && a.InInterval(r.ref) && a.MatchesIds(r));
    SelectsIntervalIff(a);
    forall r | r in rows ensures SomeSliceSelects(a, r.ref) <==> a.InInterval(r.ref) {
      SlicesAgreeWithSQLite(a, r.ref);
    }
    if DistinctIds(bucketIds) {
      forall r ensures multiset(CassandraQueryRange(rows, bucketIds, a, None))[r] == multiset(Wanted(rows, a))[r] {
        WantedOccurs(rows, bucketIds, a, r);
      }
    }
  }

  lemma OrderedParts(a: seq<Row>, b: seq<Row>)
    requires Ordered(a + b)
    ensures Ordered(a) && Ordered(b)
    ensures forall x, y | x in a && y in b :: x.ref.AtMost(y.ref)
  {
    assert forall i | 0 <= i < |a| :: (a + b)[i] == a[i];
    assert forall i | 0 <= i < |b| :: (a + b)[|a| + i] == b[i];
  }

  /** Rows that come out in order were read in order. */
  lemma {:induction false} OrderedWasInOrder(rows: seq<Row>, bucketIds: seq<BucketId>, chosen: set<Row>)
    requires DistinctIds(bucketIds) && OneBucketPerRef(rows) && Ordered(PerBucket(rows, bucketIds, chosen))
    ensures InOrder(rows, bucketIds, chosen)
  {
    if bucketIds != [] {
      var rest, first := bucketIds[1..], Within(chosen, [bucketIds[0]]);
      assert forall i | 0 <= i < |rest| :: rest[i] == bucketIds[i + 1];
      OrderedParts(Filter(rows, first), PerBucket(rows, rest, chosen));
      OrderedWasInOrder(rows, rest, chosen);
      FilterMembers(rows, first);
      PerBucketMembers(rows, rest, chosen);
      forall i, j, x, y | 0 <= i < j < |bucketIds| && x in rows && x in chosen && y in rows && y in chosen
        && x.bucketId == bucketIds[i] && y.bucketId == bucketIds[j] ensures x.ref.Before(y.ref)
      {
        assert y.bucketId == rest[j - 1];
        if i > 0 {
          assert x.bucketId == rest[i - 1];
        }
      }
    }
  }

  lemma SliceIgnoresBuckets(rows: seq<Row>, bucketIds: seq<BucketId>, a: RangeArgs, slice: Slice)
    requires Ordered(rows) && Covers(bucketIds, rows, a) && DistinctIds(bucketIds)
    requires InOrder(rows, bucketIds, Chosen(rows, a, slice))
    requires forall r | r in rows && slice.Selects(r.ref) :: a.fromTimestamp <= r.ref.timestamp <= a.toTimestamp
    ensures SliceResult(rows, bucketIds, a, slice, None) == Filter(rows, Chosen(rows, a, slice))
  {
    PerBucketInOrder(rows, bucketIds, Chosen(rows, a, slice));
    assert Chosen(rows, a, slice) == Within(Chosen(rows, a, slice), bucketIds);
  }

  /** Three ordered slices concatenate to the interval. */
  lemma ThreeSlicesConcatenate(rows: seq<Row>, a: RangeArgs)
    requires Ordered(rows) && RowsInBounds(rows) && a.fromTimestamp < a.toTimestamp && !a.AllSequenceNumbers()
    ensures var s := CassandraSlices(a);
      Filter(rows, Chosen(rows, a, s[0])) + (Filter(rows, Chosen(rows, a, s[1])) + Filter(rows, Chosen(rows, a, s[2])))
        == Wanted(rows, a)
  {
    var s := CassandraSlices(a);
    var c0, c1, c2 := Chosen(rows, a, s[0]), Chosen(rows, a, s[1]), Chosen(rows, a, s[2]);
    FilterSplit(rows, c1, c2);
    FilterSplit(rows, c0, c1 + c2);
    assert c0 + (c1 + c2) == set r | r in rows && a.InInterval(r.ref) && a.MatchesIds(r);
  }

  /** If its buckets are read in order, the plan returns the wanted rows in order. */
  lemma PlanReturnsWanted(rows: seq<Row>, bucketIds: seq<BucketId>, a: RangeArgs)
    requires Ordered(rows) && RowsInBounds(rows) && Covers(bucketIds, rows, a) && DistinctIds(bucketIds)
    requires a.fromTimestamp <= a.toTimestamp && AllInOrder(rows, bucketIds, a)
    ensures CassandraQueryRange(rows, bucketIds, a, None) == Wanted(rows, a)
  {
    hide InOrder, Filter, PerBucket;
    var slices := CassandraSlices(a);
    forall k | 0 <= k < |slices|
      ensures SliceResult(rows, bucketIds, a, slices[k], None) == Filter(rows, Chosen(rows, a, slices[k]))
    {
      assert slices[k] in slices;
      SliceIgnoresBuckets(rows, bucketIds, a, slices[k]);
    }
    if bucketIds == [] {
      FilterNone(rows, set r | r in rows && a.InInterval(r.ref) && a.MatchesIds(r));
    } else if |slices| == 1 {
      assert SliceResults(rows, bucketIds, a, slices[1..], None) == [];
      assert Chosen(rows, a, slices[0]) == set r | r in rows && a.InInterval(r.ref) && a.MatchesIds(r);
    } else {
      ThreeSlicesConcatenate(rows, a);
      ThreeResults(rows, bucketIds, a, slices);
    }
  }

  lemma {:induction false} SlicesOrdered(rows: seq<Row>, bucketIds: seq<BucketId>, a: RangeArgs, slices: seq<Slice>)
    requires DistinctIds(bucketIds) && OneBucketPerRef(rows)
    requires Ordered(SliceResults(rows, bucketIds, a, slices, None))
    ensures forall slice | slice in slices :: InOrder(rows, bucketIds, Chosen(rows, a, slice))
  {
    if slices != [] {
      OrderedParts(SliceResult(rows, bucketIds, a, slices[0], None),
                   SliceResults(rows, bucketIds, a, slices[1..], None));
      OrderedWasInOrder(rows, bucketIds, Chosen(rows, a, slices[0]));
      SlicesOrdered(rows, bucketIds, a, slices[1..]);
      assert forall slice :: slice in slices <==> slice == slices[0] || slice in slices[1..];
    }
  }

  /** A plan that returns the wanted rows read its buckets in order. */
  lemma WantedWasInOrder(rows: seq<Row>, bucketIds: seq<BucketId>, a: RangeArgs)
    requires Ordered(rows) && OneBucketPerRef(rows) && DistinctIds(bucketIds)
    requires CassandraQueryRange(rows, bucketIds, a, None) == Wanted(rows, a)
    ensures AllInOrder(rows, bucketIds, a)
  {
    FilterOrdered(rows, set r | r in rows && a.InInterval(r.ref) && a.MatchesIds(r));
    if bucketIds != [] {
      SlicesOrdered(rows, bucketIds, a, CassandraSlices(a));
    }
  }

  lemma ThreeResults(rows: seq<Row>, bucketIds: seq<BucketId>, a: RangeArgs, slices: seq<Slice>)
    requires |slices| == 3
    ensures SliceResults(rows, bucketIds, a, slices, None)
         == SliceResult(rows, bucketIds, a, slices[0], None)
          + (SliceResult(rows, bucketIds, a, slices[1], None) + SliceResult(rows, bucketIds, a, slices[2], None))
  {
    assert slices[1..][1..] == slices[2..] && slices[2..][1..] == [];
    assert SliceResults(rows, bucketIds, a, slices[2..], None)
        == SliceResult(rows, bucketIds, a, slices[2], None) + SliceResults(rows, bucketIds, a, [], None);
  }

  // ---------- Pushing the limit down ----------

  lemma LimitConcat(x: seq<Row>, y: seq<Row>, y': seq<Row>, limit: Option<nat>)
    requires Limit(y, limit) == Limit(y', limit)
    ensures Limit(Limit(x, limit) + y, limit) == Limit(x + y', limit)
  {
  }

  /** Limiting every statement and then the merged stream is limiting the whole. */
  lemma {:induction false} LimitPushdown(rows: seq<Row>, bucketIds: seq<BucketId>, a: RangeArgs, slices: seq<Slice>,
                                         limit: Option<nat>)
    ensures Limit(SliceResults(rows, bucketIds, a, slices, limit), Effective(limit))
         == Limit(SliceResults(rows, bucketIds, a, slices, None), Effective(limit))
  {
    if slices != [] {
      LimitPushdown(rows, bucketIds, a, slices[1..], limit);
      LimitConcat(SliceResult(rows, bucketIds, a, slices[0], None),
        SliceResults(rows, bucketIds, a, slices[1..], limit),
        SliceResults(rows, bucketIds, a, slices[1..], None), Effective(limit));
    }
  }

  lemma LimitTwice(x: seq<Row>, limit: Option<nat>)
    ensures Limit(Limit(x, limit), limit) == Limit(x, limit)
  {
  }

  lemma LimitMessagesIsLimit(messages: seq<Row>, limit: Option<nat>)
    ensures LimitMessages(messages, limit) == Limit(messages, Effective(limit))
    ensures IsFirst(LimitMessages(messages, limit), messages, limit)
  {
    TransformAllOutput(LimitState(Effective(limit), 0, [], false), messages);
    assert [] + messages == messages;
  }

  /** The rows wanted: of the interval, and of the publisher and the chain if one is given. */
  lemma WantedMembers(rows: seq<Row>, a: RangeArgs, r: Row)
    ensures r in Wanted(rows, a) <==>
      && r in rows
      && MessageRef(a.fromTimestamp, a.fromSequenceNo).AtMost(r.ref)
      && r.ref.AtMost(MessageRef(a.toTimestamp, a.toSequenceNo))
      && (a.publisherId == None || a.publisherId == Some("") || a.publisherId == Some(r.publisherId))
      && (a.msgChainId == None || a.msgChainId == Some("") || a.msgChainId == Some(r.msgChainId))
  {
    FilterMembers(rows, set x | x in rows && a.InInterval(x.ref) && a.MatchesIds(x));
  }

  /** Whatever a database holds and however it is read, a request delivers no more rows than its limit. */
  lemma RequestIsBounded(rows: seq<Row>, bucketIds: seq<BucketId>, a: RangeArgs, n: nat)
    requires n > 0
    ensures |RequestSQLite(rows, a, Some(n))| <= n && |RequestCassandra(rows, bucketIds, a, Some(n))| <= n
  {
    LimitMessagesIsLimit(SQLiteQueryRange(rows, a, Some(n)), Some(n));
    LimitMessagesIsLimit(CassandraQueryRange(rows, bucketIds, a, Some(n)), Some(n));
  }

  /** So does each statement of the plan: the limit is pushed down to the database. */
  lemma StatementIsBounded(rows: seq<Row>, bucketIds: seq<BucketId>, a: RangeArgs, slice: Slice, n: nat)
    requires n > 0
    ensures SliceResult(rows, bucketIds, a, slice, Some(n)) <= SliceResult(rows, bucketIds, a, slice, None)
    ensures |SliceResult(rows, bucketIds, a, slice, Some(n))| <= n
    ensures SQLiteQueryRange(rows, a, Some(n)) <= SQLiteQueryRange(rows, a, None)
    ensures |SQLiteQueryRange(rows, a, Some(n))| <= n
  {
  }

  /** `result` is the first rows of `wanted`: as many as the limit says, and all without a limit or with limit 0. */
  ghost predicate IsFirst(result: seq<Row>, wanted: seq<Row>, limit: Option<nat>) {
    && result <= wanted
    && |result| == match limit
                   case None => |wanted|
                   case Some(n) => if 0 < n < |wanted| then n else |wanted|
  }

  lemma LimitIsFirst(wanted: seq<Row>, limit: Option<nat>)
    ensures IsFirst(Limit(wanted, Effective(limit)), wanted, limit)
  {
  }

  /** From SQLite, a range request delivers the first `limit` rows of the lexicographic interval. */
  lemma SQLiteDeliversWanted(rows: seq<Row>, a: RangeArgs, limit: Option<nat>)
    requires RowsInBounds(rows) && a.fromTimestamp <= a.toTimestamp
    ensures RequestSQLite(rows, a, limit) == Limit(Wanted(rows, a), Effective(limit))
    ensures IsFirst(RequestSQLite(rows, a, limit), Wanted(rows, a), limit)
  {
    LimitIsFirst(Wanted(rows, a), limit);
    LimitMessagesIsLimit(SQLiteQueryRange(rows, a, limit), limit);
    SelectsIntervalIff(a);
    assert (set r | r in rows && SQLiteCondition(a, r.ref) && a.MatchesIds(r))
        == set r | r in rows && a.InInterval(r.ref) && a.MatchesIds(r);
    LimitTwice(Wanted(rows, a), Effective(limit));
  }

  /** So it does from Cassandra, if the buckets are read in order of their rows. */
  lemma RequestDeliversWanted(rows: seq<Row>, bucketIds: seq<BucketId>, a: RangeArgs, limit: Option<nat>)
    requires Ordered(rows) && RowsInBounds(rows) && Covers(bucketIds, rows, a) && DistinctIds(bucketIds)
    requires a.fromTimestamp <= a.toTimestamp && AllInOrder(rows, bucketIds, a)
    ensures RequestCassandra(rows, bucketIds, a, limit) == Limit(Wanted(rows, a), Effective(limit))
    ensures IsFirst(RequestCassandra(rows, bucketIds, a, limit), Wanted(rows, a), limit)
    ensures RequestCassandra(rows, bucketIds, a, limit) == RequestSQLite(rows, a, limit)
  {
    LimitMessagesIsLimit(CassandraQueryRange(rows, bucketIds, a, limit), limit);
    LimitPushdown(rows, bucketIds, a, CassandraSlices(a), limit);
    PlanReturnsWanted(rows, bucketIds, a);
    SQLiteDeliversWanted(rows, a, limit);
  }

  /** The two databases answer every limit alike if and only if Cassandra reads the buckets in order of their rows. */
  lemma RequestsAgreeIff(rows: seq<Row>, bucketIds: seq<BucketId>, a: RangeArgs)
    requires Ordered(rows) && RowsInBounds(rows) && OneBucketPerRef(rows)
    requires Covers(bucketIds, rows, a) && DistinctIds(bucketIds) && a.fromTimestamp <= a.toTimestamp
    ensures (forall limit :: RequestCassandra(rows, bucketIds, a, limit) == RequestSQLite(rows, a, limit))
      <==> AllInOrder(rows, bucketIds, a)
  {
    hide AllInOrder, CassandraQueryRange, RequestSQLite;
    if AllInOrder(rows, bucketIds, a) {
      forall limit: Option<nat> ensures RequestCassandra(rows, bucketIds, a, limit) == RequestSQLite(rows, a, limit) {
        RequestDeliversWanted(rows, bucketIds, a, limit);
      }
    } else if RequestCassandra(rows, bucketIds, a, None) == RequestSQLite(rows, a, None) {
      LimitMessagesIsLimit(CassandraQueryRange(rows, bucketIds, a, None), None);
      SQLiteDeliversWanted(rows, a, None);
      WantedWasInOrder(rows, bucketIds, a);
    }
  }
}
