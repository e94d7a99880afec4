/** A batch of records: it is filled, locked, and inserted with a limited number of attempts. */
module Batches {
  import StreamData

  type BucketId = StreamData.BucketId
  type BatchId = nat

  /**
   One call of `store`: `token` numbers the calls, `bucketId` and `size` are the
   record's, and `hasCallback` says whether a callback was given.
   */
  datatype Entry = Entry(token: nat, bucketId: BucketId, size: nat, hasCallback: bool)

  datatype Options = Options(maxSize: int, maxRecordCount: int, closeTimeout: int, maxRetries: int) {
    /** What the constructor of a batch demands; it throws otherwise. */
    predicate Valid() {
      maxSize > 0 && maxRecordCount > 0 && closeTimeout > 0 && maxRetries > 0
    }
  }

  const DEFAULT_OPTIONS: Options := Options(8000 * 300, 8000, 1000, 1000)

  datatype Phase = Opened | Locked | Pending | Inserted

  /** The timeout a batch has set, if any. */
  datatype Timer = NoTimer | LockTimer | InsertTimer(delay: int)

  /** A request to the database, with the records it carries. */
  datatype Request = Idle | InFlight(records: seq<Entry>)

  /**
   The value of a batch. `attempts` and `waited` record the insertions begun and
   the delays that passed before them.
   */
  datatype Value = Value(
    id: BatchId,
    bucketId: BucketId,
    records: seq<Entry>,
    size: nat,
    retries: nat,
    phase: Phase,
    timer: Timer,
    doneCbs: seq<nat>,
    request: Request,
    attempts: nat,
    waited: int)
  {
    predicate IsFull(opts: Options) {
      size >= opts.maxSize || |records| >= opts.maxRecordCount
    }

    predicate ReachedMaxRetries(opts: Options) {
      retries == opts.maxRetries
    }

    function Push(e: Entry): Value {
      this.(records := records + [e], size := size + e.size,
            doneCbs := if e.hasCallback then doneCbs + [e.token] else doneCbs)
    }

    function Lock(): Value {
      this.(timer := NoTimer, phase := Locked)
    }

    function ScheduleInsert(opts: Options): Value {
      this.(timer := InsertTimer(opts.closeTimeout * retries))
    }

    /** The insert timer fires, and the manager sends the records. */
    function BeginInsert(opts: Options): Value
      requires timer.InsertTimer?
    {
      this.(retries := if retries < opts.maxRetries then retries + 1 else retries, phase := Pending,
            timer := NoTimer, request := InFlight(records), attempts := attempts + 1, waited := waited + timer.delay)
    }

    /** The database answers the request. */
    function Answered(): Value {
      this.(request := Idle)
    }

    function Done(): Value {
      this.(doneCbs := [])
    }

    function Cleared(): Value {
      this.(timer := NoTimer, records := [], phase := Inserted)
    }
  }

  function Fresh(id: BatchId, bucketId: BucketId): Value {
    Value(id, bucketId, [], 0, 0, Opened, LockTimer, [], Idle, 0, 0)
  }

  class Batch {
    const id: BatchId
    const bucketId: BucketId
    const opts: Options
    var records: seq<Entry>
    var size: nat
    var retries: nat
    var phase: Phase
    var timer: Timer
    var doneCbs: seq<nat>
    var request: Request
    ghost var attempts: nat
    ghost var waited: int

    ghost function View(): (v: Value)
      reads this
      ensures v.id == id && v.bucketId == bucketId && v.records == records && v.timer == timer && v.request == request
      ensures v.retries == retries
    {
      Value(id, bucketId, records, size, retries, phase, timer, doneCbs, request, attempts, waited)
    }

    constructor (id: BatchId, bucketId: BucketId, opts: Options)
      requires opts.Valid() && bucketId != ""
      ensures View() == Fresh(id, bucketId) && this.bucketId == bucketId && this.opts == opts
    {
      this.id, this.bucketId, this.opts := id, bucketId, opts;
      records, size, retries, phase, timer := [], 0, 0, Opened, LockTimer;
      doneCbs, request, attempts, waited := [], Idle, 0, 0;
    }

    function IsFull(): (full: bool)
      reads this
      ensures full == View().IsFull(opts)
    {
      size >= opts.maxSize || |records| >= opts.maxRecordCount
    }

    method Push(record: Entry)
      modifies this
      ensures View() == old(View()).Push(record)
    {
      records := records + [record];
      size := size + record.size;
      if record.hasCallback {
        doneCbs := doneCbs + [record.token];
      }
    }

    method Lock()
      modifies this
      ensures View() == old(View()).Lock() && timer == NoTimer && phase == Locked && records == old(records)
    {
      timer := NoTimer;
      phase := Locked;
    }

    method ScheduleInsert()
      modifies this
      ensures View() == old(View()).ScheduleInsert(opts)
    {
      timer := InsertTimer(opts.closeTimeout * retries);
    }

    method BeginInsert()
      requires timer.InsertTimer?
      modifies this
      ensures View() == old(View()).BeginInsert(opts)
    {
      waited := waited + timer.delay;
      attempts := attempts + 1;
      timer := NoTimer;
      if retries < opts.maxRetries {
        retries := retries + 1;
      }
      phase := Pending;
      request := InFlight(records);
    }

    method Answered()
      modifies this
      ensures View() == old(View()).Answered()
    {
      request := Idle;
    }

    /** Calls the callbacks, in the order in which they were given. */
    method Done() returns (called: seq<nat>)
      modifies this
      ensures called == old(doneCbs) && doneCbs == []
      ensures View() == old(View()).Done()
    {
      called := [];
      var i := 0;
      while i < |doneCbs|
        invariant 0 <= i <= |doneCbs| && called == doneCbs[..i]
      {
        called := called + [doneCbs[i]];
        i := i + 1;
      }
      doneCbs := [];
    }

    method Clear()
      modifies this
      ensures View() == old(View()).Cleared()
      ensures records == [] && timer == NoTimer && size == old(size) && doneCbs == old(doneCbs)
    {
      timer := NoTimer;
      records := [];
      phase := Inserted;
    }
  }
}
