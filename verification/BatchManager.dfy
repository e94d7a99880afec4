/** The manager that collects records per bucket into batches and inserts them with retries. */
module BatchManagers {
  import opened Batches

  /**
   The value of a manager. `made` holds every batch it ever made, at its id;
   `batches` is the open batch of each bucket, `pendingBatches` the batches
   waiting to be inserted. The rest is what has happened so far: the calls of
   `store`, the ones whose records were inserted or dropped, and the tokens of
   those whose callback was called.
   */
  datatype State = State(
    made: seq<Value>,
    batches: map<BucketId, BatchId>,
    pendingBatches: set<BatchId>,
    stored: seq<Entry>,
    inserted: seq<Entry>,
    dropped: seq<Entry>,
    called: seq<nat>)
  {
    predicate Shape() {
      (forall b | b in batches :: batches[b] < |made|) && (forall i | i in pendingBatches :: i < |made|)
    }

    /** The open batch of a bucket locks. */
    function Locked(bucketId: BucketId): State
      requires bucketId in batches && batches[bucketId] < |made|
    {
      var id := batches[bucketId];
      this.(made := made[id := made[id].Lock()])
    }

    /** A locked batch moves to the pending ones. */
    function Moved(bucketId: BucketId): State
      requires bucketId in batches
    {
      this.(pendingBatches := pendingBatches + {batches[bucketId]}, batches := batches - {bucketId})
    }

    function Scheduled(id: BatchId, opts: Options): State
      requires id < |made|
    {
      this.(made := made[id := made[id].ScheduleInsert(opts)])
    }

    function LockBatch(bucketId: BucketId, opts: Options): State
      requires bucketId in batches && batches[bucketId] < |made|
    {
      Locked(bucketId).Moved(bucketId).Scheduled(batches[bucketId], opts)
    }

    function Opened(bucketId: BucketId): State {
      this.(made := made + [Fresh(|made|, bucketId)], batches := batches[bucketId := |made|])
    }

    function Pushed(e: Entry): State
      requires e.bucketId in batches && batches[e.bucketId] < |made|
    {
      var id := batches[e.bucketId];
      this.(made := made[id := made[id].Push(e)], stored := stored + [e])
    }

    predicate OpenFull(bucketId: BucketId, opts: Options)
      requires Shape()
    {
      bucketId in batches && made[batches[bucketId]].IsFull(opts)
    }

    function Store(e: Entry, opts: Options): State
      requires Shape()
    {
      var s := if OpenFull(e.bucketId, opts) then LockBatch(e.bucketId, opts) else this;
      var t := if e.bucketId in s.batches then s else s.Opened(e.bucketId);
      t.Pushed(e)
    }

    function BeginInsert(id: BatchId, opts: Options): State
      requires id < |made| && made[id].timer.InsertTimer?
    {
      this.(made := made[id := made[id].BeginInsert(opts)])
    }

    /** The database answers the request of a batch. */
    function Answered(id: BatchId): State
      requires id < |made|
    {
      this.(made := made[id := made[id].Answered()])
    }

    /** The records of a batch are in the database: its callbacks are called. */
    function Inserted(id: BatchId, records: seq<Entry>): State
      requires id < |made|
    {
      this.(called := called + made[id].doneCbs, inserted := inserted + records,
            made := made[id := made[id].Done()])
    }

    function Dropped(id: BatchId): State
      requires id < |made|
    {
      this.(dropped := dropped + made[id].records)
    }

    /** A batch is done with. */
    function Deleted(id: BatchId): State
      requires id < |made|
    {
      this.(made := made[id := made[id].Cleared()], pendingBatches := pendingBatches - {id})
    }

    function InsertSucceeds(id: BatchId): State
      requires id < |made| && made[id].request.InFlight?
    {
      Answered(id).Inserted(id, made[id].request.records).Deleted(id)
    }

    function InsertFails(id: BatchId, opts: Options): State
      requires id < |made|
    {
      var s := Answered(id);
      if made[id].ReachedMaxRetries(opts) then s.Dropped(id).Deleted(id) else s.Scheduled(id, opts)
    }
  }

  const INITIAL: State := State([], map[], {}, [], [], [], [])

  class BatchManager {
    const opts: Options
    var batches: map<BucketId, Batch>
    var pendingBatches: map<BatchId, Batch>
    var nextId: BatchId
    /** Every batch made so far, at its id. */
    ghost var made: seq<Batch>
    /** The manager's value, with everything that has happened so far. */
    ghost var value: State

    /** The batches registered are batches made, and are registered as the value says. */
    ghost predicate Registered()
      reads this
    {
      && nextId == |made| == |value.made| && value.Shape()
      && (forall i | 0 <= i < |made| :: made[i].id == i && made[i].opts == opts)
      && (forall b :: b in batches <==> b in value.batches)
      && (forall b | b in batches :: batches[b] == made[value.batches[b]])
      && (forall i :: i in pendingBatches <==> i in value.pendingBatches)
      && (forall i | i in pendingBatches :: pendingBatches[i] == made[i])
    }

    /** The batches made hold what the value says. */
    ghost predicate Valid()
      reads this, made
    {
      && opts.Valid() && Registered()
      && forall i | 0 <= i < |made| :: made[i].View() == value.made[i]
    }

    constructor (opts: Options)
      requires opts.Valid()
      ensures Valid() && this.opts == opts && value == INITIAL
    {
      this.opts := opts;
      batches, pendingBatches, nextId := map[], map[], 0;
      made, value := [], INITIAL;
    }

    method ScheduleInsert(id: BatchId)
      requires Valid() && id in pendingBatches
      modifies this`value, made
      ensures Valid() && value == old(value).Scheduled(id, opts)
    {
      hide Batch.View, Value.ScheduleInsert;
      pendingBatches[id].ScheduleInsert();
      value := value.Scheduled(id, opts);
    }

    method Move(bucketId: BucketId)
      requires Valid() && bucketId in batches
      modifies this`batches, this`pendingBatches, this`value
      ensures Valid() && value == old(value).Moved(bucketId)
      ensures batches == old(batches) - {bucketId}
      ensures pendingBatches == old(pendingBatches)[old(batches)[bucketId].id := old(batches)[bucketId]]
      ensures old(batches)[bucketId].id == old(value).batches[bucketId]
    {
      hide Batch.View;
      var batch := batches[bucketId];
      pendingBatches := pendingBatches[batch.id := batch];
      batches := batches - {bucketId};
      value := value.Moved(bucketId);
    }

    method MoveFullBatch(bucketId: BucketId)
      requires Valid() && bucketId in batches
      modifies this`batches, this`pendingBatches, this`value, made
      ensures Valid() && value == old(value).Moved(bucketId).Scheduled(old(value).batches[bucketId], opts)
      ensures bucketId !in batches
    {
      hide Batch.View, State.Scheduled;
      var batch := batches[bucketId];
      Move(bucketId);
      ScheduleInsert(batch.id);
    }

    /** An open batch locks, because it is full or its timer fires: it moves to the pending ones. */
    method LockBatch(bucketId: BucketId)
      requires Valid() && bucketId in batches
      modifies this`batches, this`pendingBatches, this`value, made
      ensures Valid() && value == old(value).LockBatch(bucketId, opts)
      ensures bucketId !in batches
    {
      hide Batch.View, Value.Lock, State.Moved, State.Scheduled;
      var batch := batches[bucketId];
      batch.Lock();
      value := value.Locked(bucketId);
      MoveFullBatch(bucketId);
    }

    method Register(newBatch: Batch)
      requires Valid() && newBatch.bucketId !in batches && newBatch.opts == opts
      requires newBatch.View() == Fresh(nextId, newBatch.bucketId)
      modifies this`batches, this`nextId, this`made, this`value
      ensures Valid() && value == old(value).Opened(newBatch.bucketId)
      ensures newBatch.bucketId in batches && made == old(made) + [newBatch]
    {
      hide Batch.View;
      nextId, made, batches := nextId + 1, made + [newBatch], batches[newBatch.bucketId := newBatch];
      value := value.Opened(newBatch.bucketId);
    }

    method OpenBatch(bucketId: BucketId)
      requires Valid() && bucketId !in batches && bucketId != ""
      modifies this`batches, this`nextId, this`made, this`value
      ensures Valid() && value == old(value).Opened(bucketId)
      ensures bucketId in batches && |made| > 0 && made == old(made) + [made[|made| - 1]] && fresh(made[|made| - 1])
    {
      hide Batch.View, Registered, Fresh, State.Opened;
      var newBatch := new Batch(nextId, bucketId, opts);
      assert Valid();
      Register(newBatch);
    }

    method PushRecord(record: Entry)
      requires Valid() && record.bucketId in batches
      modifies this`value, made
      ensures Valid() && value == old(value).Pushed(record)
    {
      hide Batch.View, Value.Push;
      batches[record.bucketId].Push(record);
      value := value.Pushed(record);
    }

    method OpenIsFull(bucketId: BucketId) returns (full: bool)
      requires Valid()
      ensures value.Shape() && full == value.OpenFull(bucketId, opts)
      ensures bucketId in batches <==> bucketId in value.batches
    {
      full := bucketId in batches && batches[bucketId].IsFull();
    }

    method Store(record: Entry)
      requires Valid() && record.bucketId != ""
      modifies this, made
      ensures Valid() && value == old(value).Store(record, opts)
    {
      hide Valid, Registered, State.Opened, State.Pushed;
      var bucketId := record.bucketId;
      var isFull := OpenIsFull(bucketId);
      if isFull {
        LockBatch(bucketId);
      }
      if bucketId !in batches {
        OpenBatch(bucketId);
      }
      PushRecord(record);
    }

    /** The insert timer of a pending batch fires: its records are sent to the database. */
    method BeginInsert(batchId: BatchId)
      requires Valid() && batchId in pendingBatches && pendingBatches[batchId].timer.InsertTimer?
      modifies this`value, made
      ensures Valid() && value == old(value).BeginInsert(batchId, opts)
    {
      hide Batch.View, Value.BeginInsert;
      pendingBatches[batchId].BeginInsert();
      value := value.BeginInsert(batchId, opts);
    }

    method Delete(batchId: BatchId)
      requires Valid() && batchId in pendingBatches
      modifies this`value, this`pendingBatches, made
      ensures Valid() && value == old(value).Deleted(batchId)
    {
      hide Batch.View, Value.Cleared;
      pendingBatches[batchId].Clear();
      pendingBatches := pendingBatches - {batchId};
      value := value.Deleted(batchId);
    }

    /** The database answers: the records that the request carried. */
    method Answer(batchId: BatchId) returns (records: seq<Entry>)
      requires Valid() && batchId in pendingBatches && pendingBatches[batchId].request.InFlight?
      modifies this`value, made
      ensures Valid() && value == old(value).Answered(batchId)
      ensures records == old(pendingBatches[batchId].request.records) == old(value).made[batchId].request.records
      ensures batchId < |old(value).made| && value.made[batchId] == pendingBatches[batchId].View()
    {
      hide Batch.View;
      records := pendingBatches[batchId].request.records;
      pendingBatches[batchId].Answered();
      value := value.Answered(batchId);
    }

    method Done(batchId: BatchId, records: seq<Entry>)
      requires Valid() && batchId in pendingBatches
      modifies this`value, made
      ensures Valid() && value == old(value).Inserted(batchId, records)
    {
      hide Batch.View, Value.Done;
      var called := pendingBatches[batchId].Done();
      value := value.Inserted(batchId, records);
    }

    /** Notes that the records of a batch are given up. */
    ghost method Drop(batchId: BatchId)
      requires Valid() && batchId in pendingBatches
      modifies this`value
      ensures Valid() && value == old(value).Dropped(batchId)
    {
      hide Batch.View;
      value := value.Dropped(batchId);
    }

    /** The request of a pending batch succeeds. */
    method InsertSucceeds(batchId: BatchId)
      requires Valid() && batchId in pendingBatches && pendingBatches[batchId].request.InFlight?
      modifies this`value, this`pendingBatches, made
      ensures Valid() && value == old(value).InsertSucceeds(batchId)
    {
      hide Registered, Value.Answered, State.Inserted, State.Deleted;
      var records := Answer(batchId);
      Done(batchId, records);
      Delete(batchId);
    }

    /** The request of a pending batch fails. */
    method InsertFails(batchId: BatchId)
      requires Valid() && batchId in pendingBatches && pendingBatches[batchId].request.InFlight?
      modifies this`value, this`pendingBatches, made
      ensures Valid() && value == old(value).InsertFails(batchId, opts)
    {
      hide Registered, State.Scheduled, State.Dropped, State.Deleted;
      var _ := Answer(batchId);
      if pendingBatches[batchId].retries == opts.maxRetries {
        Drop(batchId);
        Delete(batchId);
        return;
      }
      ScheduleInsert(batchId);
    }
  }
}
