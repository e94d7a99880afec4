/** A bucket: the counters of the rows of one stream part that were stored from one date on. */
module Buckets {
  import opened StreamData
  import opened BucketTables

  datatype StreamPart = StreamPart(streamId: string, partition: nat)

  datatype Options = Options(maxSize: int, maxRecordCount: int, keepAliveSeconds: int) {
    /** What the constructor of a bucket demands; it throws otherwise. */
    predicate Valid() {
      maxSize > 0 && maxRecordCount > 0 && keepAliveSeconds > 0
    }
  }

  const ALMOST_FULL_DEDUCTION := 30

  datatype Value = Value(id: BucketId, part: StreamPart, dateCreate: int, size: nat, records: nat, stored: bool) {
    predicate CheckSize(opts: Options, percentDeduction: int) {
      || 100 * size >= opts.maxSize * (100 - percentDeduction)
      || 100 * records >= opts.maxRecordCount * (100 - percentDeduction)
    }

    predicate IsAlmostFull(opts: Options) {
      CheckSize(opts, ALMOST_FULL_DEDUCTION)
    }

    function Incremented(recordSize: nat): Value {
      this.(size := size + recordSize, records := records + 1, stored := false)
    }

    /** An upsert that carried `captured` records succeeded. */
    function Settled(captured: nat): Value {
      if records == captured then this.(stored := true) else this
    }

    function Row(): BucketRow {
      BucketRow(id, dateCreate, size, records)
    }
  }

  /** A bucket made from a row of the table, or a new one with empty counters. */
  function Loaded(part: StreamPart, row: BucketRow): Value {
    Value(row.id, part, row.dateCreate, row.size, row.records, false)
  }

  /** Bucket `i` after a round whose fulfilled upserts carried the given numbers of records. */
  function Ended(i: BucketId, v: Value, fulfilled: map<BucketId, nat>): Value {
    if i in fulfilled then v.Settled(fulfilled[i]) else v
  }

  predicate Leaves(i: BucketId, v: Value, fulfilled: map<BucketId, nat>, expired: set<BucketId>) {
    Ended(i, v, fulfilled).stored && i in expired
  }

  class Bucket {
    const id: BucketId
    const part: StreamPart
    const dateCreate: int
    const opts: Options
    var size: nat
    var records: nat
    var stored: bool
    /** The time, in milliseconds, up to which the bucket is alive. */
    var ttl: int

    ghost function View(): (v: Value)
      reads this
      ensures v.id == id && v.part == part && v.dateCreate == dateCreate && v.stored == stored
    {
      Value(id, part, dateCreate, size, records, stored)
    }

    constructor (part: StreamPart, row: BucketRow, opts: Options, now: int)
      requires opts.Valid() && row.id != "" && part.streamId != ""
      ensures View() == Loaded(part, row) && this.opts == opts && AliveUntil(now + 1000 * opts.keepAliveSeconds)
      ensures id == row.id && this.part == part && dateCreate == row.dateCreate
    {
      this.id, this.part, this.dateCreate, this.opts := row.id, part, row.dateCreate, opts;
      size, records, stored := row.size, row.records, false;
      ttl := now + 1000 * opts.keepAliveSeconds;
    }

    predicate IsAlive(now: int)
      reads this
    {
      ttl >= now
    }

    /** The bucket is alive at a time if and only if that is not after `last`. */
    ghost predicate AliveUntil(last: int)
      reads this
    {
      forall now :: IsAlive(now) <==> now <= last
    }

    method SetStored()
      modifies this`stored
      ensures View() == old(View()).(stored := true)
    {
      stored := true;
    }

    predicate IsAlmostFull()
      reads this
      ensures IsAlmostFull() == View().IsAlmostFull(opts)
    {
      || 100 * size >= opts.maxSize * (100 - ALMOST_FULL_DEDUCTION)
      || 100 * records >= opts.maxRecordCount * (100 - ALMOST_FULL_DEDUCTION)
    }

    method IncrementBucket(recordSize: nat, now: int)
      modifies this
      ensures View() == old(View()).Incremented(recordSize) && AliveUntil(now + 1000 * opts.keepAliveSeconds)
    {
      size := size + recordSize;
      records := records + 1;
      stored := false;
      ttl := now + 1000 * opts.keepAliveSeconds;
    }
  }
}
