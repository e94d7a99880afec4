/** The stored rows of one stream part, and the queries a database answers about them. */
module StreamData {
  import opened MessageRefs

  type BucketId = string

  const MIN_SEQUENCE_NUMBER_VALUE := 0
  const MAX_SEQUENCE_NUMBER_VALUE := 2147483647

  /** Publisher and chain tell apart rows with one reference. */
  datatype Row = Row(ref: MessageRef, publisherId: string, msgChainId: string, bucketId: BucketId)

  /** Rows in the order in which a query returns them. */
  ghost predicate Ordered(rows: seq<Row>) {
    forall i, j | 0 <= i < j < |rows| :: rows[i].ref.AtMost(rows[j].ref)
  }

  /** The rows that belong to `chosen`, in order. */
  function Filter(rows: seq<Row>, chosen: set<Row>): seq<Row> {
    if rows == [] then [] else (if rows[0] in chosen then [rows[0]] else []) + Filter(rows[1..], chosen)
  }

  /** A LIMIT clause; without a limit everything is returned. */
  function Limit(rows: seq<Row>, limit: Option<nat>): seq<Row> {
    if limit.Some? && limit.value < |rows| then rows[..limit.value] else rows
  }

  lemma {:induction false} FilterMembers(rows: seq<Row>, chosen: set<Row>)
    ensures forall r :: r in Filter(rows, chosen) <==> r in rows && r in chosen
  {
    if rows != [] {
      FilterMembers(rows[1..], chosen);
      assert forall r :: r in rows <==> r == rows[0] || r in rows[1..];
    }
  }

  lemma {:induction false} FilterNone(rows: seq<Row>, chosen: set<Row>)
    requires forall r | r in rows :: r !in chosen
    ensures Filter(rows, chosen) == []
  {
    if rows != [] {
      assert rows[0] in rows;
      assert forall r | r in rows[1..] :: r in rows;
      FilterNone(rows[1..], chosen);
    }
  }

  lemma {:induction false} FilterAll(rows: seq<Row>, chosen: set<Row>)
    requires forall r | r in rows :: r in chosen
    ensures Filter(rows, chosen) == rows
  {
    if rows != [] {
      assert rows[0] in rows;
      assert forall r | r in rows[1..] :: r in rows;
      FilterAll(rows[1..], chosen);
    }
  }

  lemma FilterCons(rows: seq<Row>, chosen: set<Row>)
    requires rows != []
    ensures Filter(rows, chosen) == (if rows[0] in chosen then [rows[0]] else []) + Filter(rows[1..], chosen)
  {
  }

  /** If all of `p` precedes all of `q`, the two results concatenate. */
  lemma {:induction false} FilterSplit(rows: seq<Row>, p: set<Row>, q: set<Row>)
    requires Ordered(rows)
    requires forall x, y | x in p && y in q :: x.ref.Before(y.ref)
    ensures Filter(rows, p) + Filter(rows, q) == Filter(rows, p + q)
  {
    hide Filter;
    if rows == [] {
      FilterNone(rows, p);
      FilterNone(rows, q);
      FilterNone(rows, p + q);
    } else {
      var rest := rows[1..];
      FilterSplit(rest, p, q);
      FilterCons(rows, p);
      FilterCons(rows, q);
      FilterCons(rows, p + q);
      if rows[0] in q {
        forall r | r in rest ensures r !in p {
          var i :| 0 <= i < |rest| && rest[i] == r;
          assert rows[0].ref.AtMost(rows[i + 1].ref);
        }
        FilterNone(rest, p);
      }
    }
  }
}
