/** What every run of the batch manager keeps: no record is lost, doubled or retried for ever. */
module BatchRuns {
  import opened MessageRefs
  import opened Batches
  import opened BatchManagers

  /** What can happen to the manager; the database answers, and timers fire, in any order. */
  datatype Step =
    | Store(bucketId: BucketId, size: nat, hasCallback: bool)
    | LockTimerFires(bucketId: BucketId)
    | InsertTimerFires(id: BatchId)
    | RequestSucceeds(id: BatchId)
    | RequestFails(id: BatchId)
  {
    predicate Concerns(i: BatchId) {
      (InsertTimerFires? || RequestSucceeds? || RequestFails?) && id == i
    }
  }

  predicate Enabled(s: State, step: Step) {
    match step
    case Store(_, _, _) => s.Shape()
    case LockTimerFires(b) => b in s.batches && s.batches[b] < |s.made| && s.made[s.batches[b]].timer == LockTimer
    case InsertTimerFires(i) => i in s.pendingBatches && i < |s.made| && s.made[i].timer.InsertTimer?
    case RequestSucceeds(i) => i in s.pendingBatches && i < |s.made| && s.made[i].request.InFlight?
    case RequestFails(i) => i in s.pendingBatches && i < |s.made| && s.made[i].request.InFlight?
  }

  function Next(s: State, step: Step, opts: Options): State
    requires Enabled(s, step)
  {
    match step
    case Store(b, size, hasCallback) => s.Store(Entry(|s.stored|, b, size, hasCallback), opts)
    case LockTimerFires(b) => s.LockBatch(b, opts)
    case InsertTimerFires(i) => s.BeginInsert(i, opts)
    case RequestSucceeds(i) => s.InsertSucceeds(i)
    case RequestFails(i) => s.InsertFails(i, opts)
  }

  predicate Legal(s: State, steps: seq<Step>, opts: Options)
    decreases |steps|
  {
    steps == [] || (Enabled(s, steps[0]) && Legal(Next(s, steps[0], opts), steps[1..], opts))
  }

  function Run(s: State, steps: seq<Step>, opts: Options): State
    requires Legal(s, steps, opts)
    decreases |steps|
  {
    if steps == [] then s else Run(Next(s, steps[0], opts), steps[1..], opts)
  }

  // ----- what a batch keeps -----

  function Total(records: seq<Entry>): nat {
    if records == [] then 0 else Total(records[..|records| - 1]) + records[|records| - 1].size
  }

  /** The callbacks given with some records, in order. */
  function Callbacks(records: seq<Entry>): seq<nat> {
    if records == [] then []
    else
      var r := records[|records| - 1];
      Callbacks(records[..|records| - 1]) + if r.hasCallback then [r.token] else []
  }

  /** The delays before the first `n` attempts. */
  function Waits(closeTimeout: int, n: nat): int {
    if n == 0 then 0 else Waits(closeTimeout, n - 1) + closeTimeout * (n - 1)
  }

  /** What a batch collected: records of its bucket, no more than fill it, and their callbacks. */
  predicate Collected(v: Value, opts: Options) {
    && v.records != []
    && (forall r | r in v.records :: r.bucketId == v.bucketId)
    && v.size == Total(v.records)
    && v.doneCbs == Callbacks(v.records)
    && |v.records| <= opts.maxRecordCount
    && v.size - v.records[|v.records| - 1].size < opts.maxSize
  }

  predicate Tried(v: Value, opts: Options) {
    && v.attempts == v.retries <= opts.maxRetries
    && v.waited == Waits(opts.closeTimeout, v.attempts)
  }

  predicate IsOpen(v: Value, opts: Options) {
    v.phase.Opened? && v.timer == LockTimer && v.request == Idle && v.retries == 0 && Collected(v, opts)
  }

  predicate IsScheduled(v: Value, opts: Options) {
    v.timer == InsertTimer(opts.closeTimeout * v.retries) && v.request == Idle && v.retries < opts.maxRetries
  }

  predicate IsInserting(v: Value) {
    v.timer == NoTimer && v.request == InFlight(v.records) && v.retries > 0 && v.phase.Pending?
  }

  predicate IsPending(v: Value, opts: Options) {
    !v.phase.Opened? && (IsScheduled(v, opts) || IsInserting(v)) && Collected(v, opts)
  }

  predicate IsDone(v: Value) {
    v.phase.Inserted? && v.timer == NoTimer && v.request == Idle && v.records == []
  }

  predicate BatchInv(s: State, i: BatchId, opts: Options)
    requires i < |s.made|
  {
    var v := s.made[i];
    && v.id == i && Tried(v, opts)
    && (if v.bucketId in s.batches && s.batches[v.bucketId] == i then IsOpen(v, opts) && i !in s.pendingBatches
        else if i in s.pendingBatches then IsPending(v, opts)
        else IsDone(v))
  }

  /** How often the batches hold a record. */
  function Held(made: seq<Value>, r: Entry): nat {
    if made == [] then 0 else Held(made[..|made| - 1], r) + multiset(made[|made| - 1].records)[r]
  }

  /** A record stored is in exactly one place, and once: in one batch, inserted, or dropped. */
  predicate Conserved(s: State, r: Entry) {
    multiset(s.inserted)[r] + multiset(s.dropped)[r] + Held(s.made, r) == if r in s.stored then 1 else 0
  }

  ghost predicate Inv(s: State, opts: Options) {
    && opts.Valid() && s.Shape()
    && (forall b | b in s.batches :: s.made[s.batches[b]].bucketId == b)
    && (forall i | 0 <= i < |s.made| :: BatchInv(s, i, opts))
    && (forall k | 0 <= k < |s.stored| :: s.stored[k].token == k)
    && (forall r :: Conserved(s, r))
    && s.called == Callbacks(s.inserted)
  }

  // ----- lemmas about the summaries -----

  lemma {:induction false} HeldUpdate(made: seq<Value>, i: nat, v: Value, r: Entry)
    requires i < |made|
    ensures Held(made[i := v], r) + multiset(made[i].records)[r] == Held(made, r) + multiset(v.records)[r]
  {
    var last := |made| - 1;
    if i == last {
      assert made[i := v][..last] == made[..last];
    } else {
      HeldUpdate(made[..last], i, v, r);
      assert made[i := v][..last] == made[..last][i := v];
    }
  }

  lemma {:induction false} CallbacksConcat(a: seq<Entry>, b: seq<Entry>)
    ensures Callbacks(a + b) == Callbacks(a) + Callbacks(b)
  {
    if b == [] {
      assert a + b == a;
    } else {
      CallbacksConcat(a, b[..|b| - 1]);
      assert (a + b)[..|a + b| - 1] == a + b[..|b| - 1];
    }
  }

  /** Twice the waits are `closeTimeout * n * (n - 1)`. */
  lemma {:induction false} WaitsClosed(closeTimeout: int, n: nat)
    ensures 2 * Waits(closeTimeout, n) == closeTimeout * n * (n - 1)
  {
    if n > 0 {
      WaitsClosed(closeTimeout, n - 1);
      assert closeTimeout * (n - 1) * (n - 2) + 2 * (closeTimeout * (n - 1)) == closeTimeout * n * (n - 1);
    }
  }

  // ----- every step keeps the invariant -----

  lemma PushKeepsCollected(v: Value, e: Entry, opts: Options)
    requires e.bucketId == v.bucketId && opts.Valid()
    requires (v.records == [] && v.size == 0 && v.doneCbs == []) || (Collected(v, opts) && !v.IsFull(opts))
    ensures Collected(v.Push(e), opts)
  {
  }

  lemma LockValue(v: Value, opts: Options)
    requires opts.Valid() && Tried(v, opts) && IsOpen(v, opts)
    ensures Tried(v.Lock().ScheduleInsert(opts), opts) && IsPending(v.Lock().ScheduleInsert(opts), opts)
  {
  }

  lemma BeginValue(v: Value, opts: Options)
    requires opts.Valid() && Tried(v, opts) && IsPending(v, opts) && v.timer.InsertTimer?
    ensures Tried(v.BeginInsert(opts), opts) && IsPending(v.BeginInsert(opts), opts)
    ensures v.BeginInsert(opts).request == InFlight(v.records)
  {
  }

  lemma RetryValue(v: Value, opts: Options)
    requires opts.Valid() && Tried(v, opts) && IsPending(v, opts) && v.request.InFlight? && v.retries != opts.maxRetries
    ensures Tried(v.Answered().ScheduleInsert(opts), opts) && IsPending(v.Answered().ScheduleInsert(opts), opts)
  {
  }

  /** Batch `id` changes; every other one stays what it was. */
  lemma ReplaceKeeps(s: State, t: State, id: BatchId, opts: Options)
    requires Inv(s, opts) && id < |s.made| == |t.made| && t.made == s.made[id := t.made[id]]
    requires t.batches == s.batches || t.batches == s.batches - {s.made[id].bucketId}
    requires t.batches == s.batches || (s.made[id].bucketId in s.batches && s.batches[s.made[id].bucketId] == id)
    requires t.pendingBatches - {id} == s.pendingBatches - {id}
    requires t.made[id].bucketId == s.made[id].bucketId
    requires BatchInv(t, id, opts)
    ensures t.Shape()
    ensures forall b | b in t.batches :: t.made[t.batches[b]].bucketId == b
    ensures forall i | 0 <= i < |t.made| :: BatchInv(t, i, opts)
    ensures forall r ::
      Held(t.made, r) + multiset(s.made[id].records)[r] == Held(s.made, r) + multiset(t.made[id].records)[r]
  {
    hide IsOpen, IsPending, IsDone, Tried, Held;
    forall r
      ensures Held(t.made, r) + multiset(s.made[id].records)[r] == Held(s.made, r) + multiset(t.made[id].records)[r]
    {
      HeldUpdate(s.made, id, t.made[id], r);
    }
    forall i | i in t.pendingBatches && i != id ensures i < |t.made| {
      assert i in s.pendingBatches - {id};
    }
    forall i | 0 <= i < |t.made| && i != id ensures BatchInv(t, i, opts) {
      assert BatchInv(s, i, opts);
      assert i in t.pendingBatches - {id} <==> i in s.pendingBatches - {id};
    }
  }

  lemma LockKeeps(s: State, b: BucketId, opts: Options)
    requires Inv(s, opts) && b in s.batches
    ensures Inv(s.LockBatch(b, opts), opts)
    ensures s.LockBatch(b, opts).stored == s.stored && b !in s.LockBatch(b, opts).batches
  {
    hide IsOpen, IsPending, IsDone, Tried, Held, Callbacks;
    var t := s.LockBatch(b, opts);
    var id := s.batches[b];
    assert BatchInv(s, id, opts);
    LockValue(s.made[id], opts);
    assert t.made == s.made[id := s.made[id].Lock().ScheduleInsert(opts)];
    ReplaceKeeps(s, t, id, opts);
    forall r ensures Conserved(t, r) {
      assert Conserved(s, r);
    }
  }

  lemma PushKeeps(s: State, e: Entry, opts: Options)
    requires Inv(s, opts) && e.token == |s.stored| && e.bucketId in s.batches && !s.OpenFull(e.bucketId, opts)
    ensures Inv(s.Pushed(e), opts)
  {
    hide Collected, IsPending, IsDone, Held, Callbacks;
    var id := s.batches[e.bucketId];
    var t := s.Pushed(e);
    assert BatchInv(s, id, opts);
    PushKeepsCollected(s.made[id], e, opts);
    ReplaceKeeps(s, t, id, opts);
    forall r ensures Conserved(t, r) {
      assert Conserved(s, r);
    }
  }

  lemma OpenKeeps(s: State, e: Entry, opts: Options)
    requires Inv(s, opts) && e.token == |s.stored| && e.bucketId !in s.batches
    ensures Inv(s.Opened(e.bucketId).Pushed(e), opts)
  {
    hide IsPending, IsDone, Callbacks, Collected;
    var id := |s.made|;
    var t := s.Opened(e.bucketId).Pushed(e);
    var v := Fresh(id, e.bucketId).Push(e);
    assert t.made == s.made + [v];
    assert t.made[..id] == s.made;
    assert v.records == [e];
    PushKeepsCollected(Fresh(id, e.bucketId), e, opts);
    forall i | 0 <= i < |t.made| ensures BatchInv(t, i, opts) {
      assert i < id ==> BatchInv(s, i, opts);
    }
    forall r ensures Conserved(t, r) {
      assert Conserved(s, r);
    }
  }

  lemma StoreKeeps(s: State, e: Entry, opts: Options)
    requires Inv(s, opts) && s.Shape() && e.token == |s.stored|
    ensures Inv(s.Store(e, opts), opts)
  {
    hide Inv;
    var t := if s.OpenFull(e.bucketId, opts) then s.LockBatch(e.bucketId, opts) else s;
    if s.OpenFull(e.bucketId, opts) {
      LockKeeps(s, e.bucketId, opts);
    }
    if e.bucketId in t.batches {
      PushKeeps(t, e, opts);
    } else {
      OpenKeeps(t, e, opts);
    }
  }

  lemma BeginKeeps(s: State, i: BatchId, opts: Options)
    requires Inv(s, opts) && Enabled(s, InsertTimerFires(i))
    ensures Inv(s.BeginInsert(i, opts), opts)
  {
    hide IsOpen, Tried, Held, Callbacks;
    assert BatchInv(s, i, opts);
    BeginValue(s.made[i], opts);
    ReplaceKeeps(s, s.BeginInsert(i, opts), i, opts);
    forall r ensures Conserved(s.BeginInsert(i, opts), r) {
      assert Conserved(s, r);
    }
  }

  /** Deleting a batch whose request is answered takes its records out of the batches. */
  lemma DeleteKeeps(s: State, t: State, i: BatchId, opts: Options)
    requires Inv(s, opts) && i in s.pendingBatches && i < |s.made| == |t.made|
    requires t.made == s.made[i := t.made[i]] && IsDone(t.made[i]) && t.made[i].id == i && Tried(t.made[i], opts)
    requires t.made[i].bucketId == s.made[i].bucketId
    requires t.batches == s.batches && t.pendingBatches == s.pendingBatches - {i} && t.stored == s.stored
    requires (t.inserted == s.inserted + s.made[i].records && t.dropped == s.dropped)
          || (t.inserted == s.inserted && t.dropped == s.dropped + s.made[i].records)
    requires t.called == Callbacks(t.inserted)
    ensures Inv(t, opts)
  {
    hide IsOpen, Tried, Held, Callbacks;
    assert BatchInv(s, i, opts);
    ReplaceKeeps(s, t, i, opts);
    forall r ensures Conserved(t, r) {
      assert Conserved(s, r);
    }
  }

  lemma SucceedKeeps(s: State, i: BatchId, opts: Options)
    requires Inv(s, opts) && Enabled(s, RequestSucceeds(i))
    ensures Inv(s.InsertSucceeds(i), opts)
  {
    hide IsOpen, Held, Callbacks;
    assert BatchInv(s, i, opts);
    CallbacksConcat(s.inserted, s.made[i].records);
    DeleteKeeps(s, s.InsertSucceeds(i), i, opts);
  }

  lemma FailKeeps(s: State, i: BatchId, opts: Options)
    requires Inv(s, opts) && Enabled(s, RequestFails(i))
    ensures Inv(s.InsertFails(i, opts), opts)
  {
    hide IsOpen, Held, Callbacks;
    var t := s.InsertFails(i, opts);
    assert BatchInv(s, i, opts);
    if s.made[i].ReachedMaxRetries(opts) {
      DeleteKeeps(s, t, i, opts);
    } else {
      RetryValue(s.made[i], opts);
      assert t.made == s.made[i := s.made[i].Answered().ScheduleInsert(opts)];
      ReplaceKeeps(s, t, i, opts);
      forall r ensures Conserved(t, r) {
        assert Conserved(s, r);
      }
    }
  }

  lemma StepKeeps(s: State, step: Step, opts: Options)
    requires Inv(s, opts) && Enabled(s, step)
    ensures Inv(Next(s, step, opts), opts)
  {
    hide Inv;
    match step
    case Store(b, size, hasCallback) => StoreKeeps(s, Entry(|s.stored|, b, size, hasCallback), opts);
    case LockTimerFires(b) => LockKeeps(s, b, opts);
    case InsertTimerFires(i) => BeginKeeps(s, i, opts);
    case RequestSucceeds(i) => SucceedKeeps(s, i, opts);
    case RequestFails(i) => FailKeeps(s, i, opts);
  }

  lemma {:induction false} RunKeeps(s: State, steps: seq<Step>, opts: Options)
    requires Inv(s, opts) && Legal(s, steps, opts)
    ensures Inv(Run(s, steps, opts), opts)
    decreases |steps|
  {
    hide Inv;
    if steps != [] {
      StepKeeps(s, steps[0], opts);
      RunKeeps(Next(s, steps[0], opts), steps[1..], opts);
    }
  }

  // ----- conservation of records -----

  /** A batch that still holds a record, and where that batch is. */
  predicate HoldsOpen(s: State, i: BatchId, r: Entry) {
    i < |s.made| && r in s.made[i].records && r.bucketId in s.batches && s.batches[r.bucketId] == i
  }

  predicate HoldsPending(s: State, i: BatchId, r: Entry) {
    i < |s.made| && r in s.made[i].records && i in s.pendingBatches && s.made[i].bucketId == r.bucketId
  }

  ghost predicate InOpenBatch(s: State, r: Entry) {
    exists i :: HoldsOpen(s, i, r)
  }

  ghost predicate InPendingBatch(s: State, r: Entry) {
    exists i :: HoldsPending(s, i, r)
  }

  lemma {:induction false} HeldMember(made: seq<Value>, r: Entry, i: nat)
    requires i < |made| && r in made[i].records
    ensures Held(made, r) >= 1
  {
    if i < |made| - 1 {
      HeldMember(made[..|made| - 1], r, i);
    }
  }

  lemma {:induction false} HeldTwice(made: seq<Value>, r: Entry, i: nat, j: nat)
    requires i < j < |made| && r in made[i].records && r in made[j].records
    ensures Held(made, r) >= 2
  {
    if j == |made| - 1 {
      HeldMember(made[..j], r, i);
    } else {
      HeldTwice(made[..|made| - 1], r, i, j);
    }
  }

  lemma {:induction false} HeldSomewhere(made: seq<Value>, r: Entry) returns (i: nat)
    requires Held(made, r) > 0
    ensures i < |made| && r in made[i].records
  {
    i := |made| - 1;
    if r !in made[i].records {
      i := HeldSomewhere(made[..i], r);
    }
  }

  /** A batch that holds a record is the open batch of its bucket, or a pending batch. */
  lemma HolderIsAlive(s: State, i: BatchId, r: Entry, opts: Options)
    requires Inv(s, opts) && i < |s.made| && r in s.made[i].records
    ensures HoldsOpen(s, i, r) != HoldsPending(s, i, r)
  {
    assert BatchInv(s, i, opts);
  }

  /** No record is lost or doubled: at any time each record stored is in exactly one place. */
  lemma RecordsConserved(steps: seq<Step>, opts: Options, r: Entry)
    requires opts.Valid() && Legal(INITIAL, steps, opts)
    ensures var s := Run(INITIAL, steps, opts);
      && (r in s.stored ==>
           One(InOpenBatch(s, r)) + One(InPendingBatch(s, r)) + One(r in s.inserted) + One(r in s.dropped) == 1)
      && multiset(s.inserted)[r] <= 1 && multiset(s.dropped)[r] <= 1
      && (forall i, j | 0 <= i < |s.made| && 0 <= j < |s.made| && r in s.made[i].records && r in s.made[j].records ::
            i == j)
  {
    var s := Run(INITIAL, steps, opts);
    RunKeeps(INITIAL, steps, opts);
    assert Conserved(s, r);
    forall i, j | 0 <= i < j < |s.made| ensures r !in s.made[i].records || r !in s.made[j].records {
      if r in s.made[i].records && r in s.made[j].records {
        HeldTwice(s.made, r, i, j);
      }
    }
    if Held(s.made, r) > 0 {
      var i := HeldSomewhere(s.made, r);
      HolderIsAlive(s, i, r, opts);
    }
    forall i | 0 <= i < |s.made| && r in s.made[i].records ensures Held(s.made, r) > 0 {
      HeldMember(s.made, r, i);
    }
  }

  /** The calls of `store` in a run, numbered from `token`. */
  function Calls(steps: seq<Step>, token: nat): seq<Entry> {
    if steps == [] then []
    else if steps[0].Store? then
      [Entry(token, steps[0].bucketId, steps[0].size, steps[0].hasCallback)] + Calls(steps[1..], token + 1)
    else Calls(steps[1..], token)
  }

  lemma StepLogs(s: State, step: Step, opts: Options)
    requires Enabled(s, step)
    ensures Next(s, step, opts).stored
         == s.stored + if step.Store? then [Entry(|s.stored|, step.bucketId, step.size, step.hasCallback)] else []
  {
  }

  /** `stored` is every call of `store`, so conservation speaks of all of them. */
  lemma {:induction false} EveryCallIsStored(s: State, steps: seq<Step>, opts: Options)
    requires Legal(s, steps, opts)
    ensures Run(s, steps, opts).stored == s.stored + Calls(steps, |s.stored|)
    decreases |steps|
  {
    hide Enabled, Next;
    if steps != [] {
      StepLogs(s, steps[0], opts);
      EveryCallIsStored(Next(s, steps[0], opts), steps[1..], opts);
    }
  }

  // ----- callbacks -----

  lemma {:induction false} CallbacksMembers(records: seq<Entry>, t: nat)
    ensures t in Callbacks(records) <==> exists r :: r in records && r.hasCallback && r.token == t
  {
    if records != [] {
      var front, last := records[..|records| - 1], records[|records| - 1];
      CallbacksMembers(front, t);
      assert records == front + [last];
    }
  }

  predicate DistinctTokens(records: seq<Entry>) {
    forall i, j | 0 <= i < j < |records| :: records[i].token != records[j].token
  }

  lemma {:induction false} CallbacksDistinct(records: seq<Entry>)
    requires DistinctTokens(records)
    ensures forall i, j | 0 <= i < j < |Callbacks(records)| :: Callbacks(records)[i] != Callbacks(records)[j]
  {
    if records != [] {
      var front, last := records[..|records| - 1], records[|records| - 1];
      CallbacksDistinct(front);
      CallbacksMembers(front, last.token);
    }
  }

  lemma InsertedDistinct(s: State, opts: Options)
    requires Inv(s, opts)
    ensures DistinctTokens(s.inserted)
    ensures forall r | r in s.inserted :: r in s.stored
  {
    forall r | r in s.inserted ensures r in s.stored {
      assert Conserved(s, r);
    }
    forall i, j | 0 <= i < j < |s.inserted| ensures s.inserted[i].token != s.inserted[j].token {
      var r := s.inserted[i];
      assert Conserved(s, r);
      assert s.inserted == s.inserted[..j] + s.inserted[j..];
      assert r == s.inserted[..j][i] && r in multiset(s.inserted[..j]);
      assert s.inserted[j..][0] in multiset(s.inserted[j..]);
      assert s.inserted[j] in s.stored;
    }
  }

  /** A callback is called at most once, and exactly for the records inserted that came with one. */
  lemma CallbacksOnceWhenInserted(steps: seq<Step>, opts: Options)
    requires opts.Valid() && Legal(INITIAL, steps, opts)
    ensures var s := Run(INITIAL, steps, opts);
      && (forall i, j | 0 <= i < j < |s.called| :: s.called[i] != s.called[j])
      && (forall k | 0 <= k < |s.stored| :: k in s.called <==> s.stored[k] in s.inserted && s.stored[k].hasCallback)
  {
    var s := Run(INITIAL, steps, opts);
    RunKeeps(INITIAL, steps, opts);
    InsertedDistinct(s, opts);
    CallbacksDistinct(s.inserted);
    forall k | 0 <= k < |s.stored|
      ensures k in s.called <==> s.stored[k] in s.inserted && s.stored[k].hasCallback
    {
      CallbacksMembers(s.inserted, k);
    }
  }

  // ----- in flight, no batch changes -----

  /** A batch whose request is in flight carries its records, and nothing but the answer touches it. */
  lemma InFlightIsFrozen(s: State, step: Step, i: BatchId, opts: Options)
    requires Inv(s, opts) && Enabled(s, step) && i < |s.made| && s.made[i].request.InFlight?
    ensures i in s.pendingBatches && s.made[i].request.records == s.made[i].records
    ensures step == RequestSucceeds(i) || step == RequestFails(i) || Next(s, step, opts).made[i] == s.made[i]
  {
    hide Collected, Tried, Held, Callbacks;
    assert BatchInv(s, i, opts);
    match step
    case Store(b, _, _) =>
      assert b in s.batches ==> s.batches[b] != i;
    case LockTimerFires(b) =>
      assert BatchInv(s, s.batches[b], opts);
    case _ =>
  }

  // ----- retries -----

  /** A batch that waits for its insertion has a step: its timer fires, or its request is answered. */
  lemma PendingHasStep(s: State, i: BatchId, opts: Options)
    requires Inv(s, opts) && i in s.pendingBatches
    ensures Enabled(s, InsertTimerFires(i)) != (Enabled(s, RequestSucceeds(i)) && Enabled(s, RequestFails(i)))
  {
    hide Collected, Tried;
    assert BatchInv(s, i, opts);
  }

  /** How many steps of its own a batch can still take at most. */
  function Remaining(s: State, i: BatchId, opts: Options): int {
    if i >= |s.made| || (i !in s.pendingBatches && !s.made[i].phase.Inserted?) then 2 * opts.maxRetries
    else if i !in s.pendingBatches then 0
    else 2 * (opts.maxRetries - s.made[i].retries) + One(s.made[i].request.InFlight?)
  }

  lemma RemainingBounds(s: State, i: BatchId, opts: Options)
    requires Inv(s, opts)
    ensures 0 <= Remaining(s, i, opts) <= 2 * opts.maxRetries
  {
    if i < |s.made| {
      assert BatchInv(s, i, opts);
    }
  }

  lemma StoreKeepsRemaining(s: State, e: Entry, i: BatchId, opts: Options)
    requires Inv(s, opts) && s.Shape()
    ensures Remaining(s.Store(e, opts), i, opts) <= Remaining(s, i, opts)
  {
    hide Collected, Conserved, Callbacks, Tried, Value.IsFull;
    if i < |s.made| {
      assert BatchInv(s, i, opts);
    }
    if e.bucketId in s.batches {
      assert BatchInv(s, s.batches[e.bucketId], opts);
    }
  }

  lemma RemainingDecreases(s: State, step: Step, i: BatchId, opts: Options)
    requires Inv(s, opts) && Enabled(s, step)
    ensures Remaining(Next(s, step, opts), i, opts) + One(step.Concerns(i)) <= Remaining(s, i, opts)
  {
    hide Collected, Conserved, Callbacks, Waits, State.Store;
    RemainingBounds(s, i, opts);
    if i < |s.made| {
      assert BatchInv(s, i, opts);
    }
    match step
    case Store(b, size, hasCallback) =>
      StoreKeepsRemaining(s, Entry(|s.stored|, b, size, hasCallback), i, opts);
    case LockTimerFires(b) =>
      assert BatchInv(s, s.batches[b], opts);
    case _ =>
  }

  function Concerning(steps: seq<Step>, i: BatchId): nat {
    if steps == [] then 0 else One(steps[0].Concerns(i)) + Concerning(steps[1..], i)
  }

  lemma {:induction false} RunTerminates(s: State, steps: seq<Step>, i: BatchId, opts: Options)
    requires Inv(s, opts) && Legal(s, steps, opts)
    ensures Concerning(steps, i) + Remaining(Run(s, steps, opts), i, opts) <= Remaining(s, i, opts)
    decreases |steps|
  {
    hide Inv, Remaining;
    if steps != [] {
      StepKeeps(s, steps[0], opts);
      RemainingDecreases(s, steps[0], i, opts);
      RunTerminates(Next(s, steps[0], opts), steps[1..], i, opts);
    }
  }

  /** A batch that has taken all the steps it can is done with. */
  lemma NothingRemains(s: State, i: BatchId, opts: Options)
    requires Inv(s, opts) && Remaining(s, i, opts) == 0
    ensures i < |s.made| && IsDone(s.made[i]) && i !in s.pendingBatches
  {
    hide Collected, Conserved, Callbacks;
    if i < |s.made| {
      assert BatchInv(s, i, opts);
    }
  }

  /** A record leaves its batch only to be inserted or dropped, and stays there. */
  predicate Follows(s: State, t: State, i: BatchId) {
    && s.inserted <= t.inserted && s.dropped <= t.dropped
    && |s.made| <= |t.made|
    && (i < |s.made| ==>
          forall r | r in s.made[i].records :: r in t.made[i].records || r in t.inserted || r in t.dropped)
  }

  lemma StepFollows(s: State, step: Step, i: BatchId, opts: Options)
    requires Inv(s, opts) && Enabled(s, step)
    ensures Follows(s, Next(s, step, opts), i)
  {
    hide Collected, Conserved, Callbacks, Tried, Value.IsFull;
    if i < |s.made| {
      assert BatchInv(s, i, opts);
    }
  }

  lemma {:induction false} RunFollows(s: State, steps: seq<Step>, i: BatchId, opts: Options)
    requires Inv(s, opts) && Legal(s, steps, opts)
    ensures Follows(s, Run(s, steps, opts), i)
    decreases |steps|
  {
    hide Inv, Next, Enabled;
    if steps != [] {
      StepKeeps(s, steps[0], opts);
      StepFollows(s, steps[0], i, opts);
      RunFollows(Next(s, steps[0], opts), steps[1..], i, opts);
    }
  }

  /**
   In every run, a batch takes at most `2 * maxRetries` steps of its own. A batch
   that has taken them all is done with, and every record it held at any time
   before is inserted or dropped.
   */
  lemma InsertionTerminates(before: seq<Step>, after: seq<Step>, i: BatchId, opts: Options)
    requires opts.Valid() && Legal(INITIAL, before, opts) && Legal(Run(INITIAL, before, opts), after, opts)
    ensures Concerning(before, i) + Concerning(after, i) <= 2 * opts.maxRetries
    ensures var s := Run(INITIAL, before, opts); var t := Run(s, after, opts);
      Concerning(before, i) + Concerning(after, i) == 2 * opts.maxRetries ==>
        && i < |t.made| && IsDone(t.made[i]) && i !in t.pendingBatches
        && (i < |s.made| ==> forall r | r in s.made[i].records :: r in t.inserted || r in t.dropped)
  {
    hide Inv, IsDone;
    var s := Run(INITIAL, before, opts);
    var t := Run(s, after, opts);
    InitialInv(opts);
    RunKeeps(INITIAL, before, opts);
    RunKeeps(s, after, opts);
    RunTerminates(INITIAL, before, i, opts);
    RunTerminates(s, after, i, opts);
    RunFollows(s, after, i, opts);
    RemainingBounds(t, i, opts);
    if Remaining(t, i, opts) == 0 {
      NothingRemains(t, i, opts);
      DoneIsEmpty(t.made[i]);
    }
  }

  lemma InitialInv(opts: Options)
    requires opts.Valid()
    ensures Inv(INITIAL, opts)
  {
  }

  lemma DoneIsEmpty(v: Value)
    requires IsDone(v)
    ensures v.records == []
  {
  }

  lemma WaitsMonotonic(closeTimeout: int, m: nat, n: nat)
    requires m <= n && closeTimeout > 0
    ensures Waits(closeTimeout, m) <= Waits(closeTimeout, n)
    decreases n
  {
  }

  /** At most `maxRetries` attempts, and waits of at most `closeTimeout * maxRetries * (maxRetries - 1) / 2` in all. */
  lemma RetriesAreBounded(steps: seq<Step>, i: BatchId, opts: Options)
    requires opts.Valid() && Legal(INITIAL, steps, opts) && i < |Run(INITIAL, steps, opts).made|
    ensures var v := Run(INITIAL, steps, opts).made[i];
      && v.attempts <= opts.maxRetries
      && 2 * v.waited == opts.closeTimeout * v.attempts * (v.attempts - 1)
      && 2 * v.waited <= opts.closeTimeout * opts.maxRetries * (opts.maxRetries - 1)
  {
    var s := Run(INITIAL, steps, opts);
    RunKeeps(INITIAL, steps, opts);
    assert BatchInv(s, i, opts);
    WaitsMonotonic(opts.closeTimeout, s.made[i].attempts, opts.maxRetries);
    WaitsClosed(opts.closeTimeout, s.made[i].attempts);
    WaitsClosed(opts.closeTimeout, opts.maxRetries);
  }

  /** Records are dropped exactly when the last of `maxRetries` attempts fails, and then the bound is met. */
  lemma DropsAfterAllAttempts(s: State, i: BatchId, opts: Options)
    requires Inv(s, opts) && Enabled(s, RequestFails(i))
    ensures var t := Next(s, RequestFails(i), opts);
      && (s.made[i].attempts == opts.maxRetries ==>
            t.dropped == s.dropped + s.made[i].records && i !in t.pendingBatches)
      && (s.made[i].attempts != opts.maxRetries ==> t.dropped == s.dropped && t.made[i].records == s.made[i].records
                                                    && Enabled(t, InsertTimerFires(i)))
      && (i !in t.pendingBatches ==>
            2 * s.made[i].waited == opts.closeTimeout * opts.maxRetries * (opts.maxRetries - 1))
  {
    assert BatchInv(s, i, opts);
    WaitsClosed(opts.closeTimeout, s.made[i].attempts);
  }

  const SIXTEEN_MINUTES := 16 * 60 * 1000

  /** With the default options the waits before a drop come to 138 hours, not to about 16 minutes. */
  lemma DefaultWaits(s: State, i: BatchId)
    requires Inv(s, DEFAULT_OPTIONS) && Enabled(s, RequestFails(i))
    requires i !in Next(s, RequestFails(i), DEFAULT_OPTIONS).pendingBatches
    ensures s.made[i].waited == 499_500_000 > 500 * SIXTEEN_MINUTES
  {
    DropsAfterAllAttempts(s, i, DEFAULT_OPTIONS);
  }

  /**
   A record joins the open batch of its bucket exactly while that has room: fewer
   than `maxRecordCount` records of less than `maxSize` in all. Otherwise it is the
   first record of a new batch.
   */
  lemma StoreFillsBatch(s: State, e: Entry, opts: Options)
    requires Inv(s, opts)
    ensures var t := s.Store(e, opts); var b := e.bucketId;
      && b in t.batches && t.batches[b] < |t.made|
      && if b in s.batches && |s.made[s.batches[b]].records| < opts.maxRecordCount
            && Total(s.made[s.batches[b]].records) < opts.maxSize
         then t.batches[b] == s.batches[b] && t.made[t.batches[b]].records == s.made[s.batches[b]].records + [e]
         else t.batches[b] == |s.made| && t.made[t.batches[b]].records == [e]
  {
    if e.bucketId in s.batches {
      assert BatchInv(s, s.batches[e.bucketId], opts);
    }
  }

  /** A full batch that a record arrives for is pending from then on, with its records. */
  lemma StoreLocksFullBatch(s: State, e: Entry, opts: Options)
    requires Inv(s, opts) && e.bucketId in s.batches && s.Store(e, opts).batches[e.bucketId] != s.batches[e.bucketId]
    ensures var i := s.batches[e.bucketId]; var t := s.Store(e, opts);
      i in t.pendingBatches && t.made[i].records == s.made[i].records && Enabled(t, InsertTimerFires(i))
  {
    assert BatchInv(s, s.batches[e.bucketId], opts);
  }

  /** By default a batch has room for 8000 records and 2.4 million bytes. */
  lemma DefaultRoom(s: State, e: Entry)
    requires Inv(s, DEFAULT_OPTIONS) && e.bucketId in s.batches
    ensures var v := s.made[s.batches[e.bucketId]];
      s.Store(e, DEFAULT_OPTIONS).batches[e.bucketId] == s.batches[e.bucketId]
      <==> |v.records| < 8000 && Total(v.records) < 2_400_000
  {
    StoreFillsBatch(s, e, DEFAULT_OPTIONS);
  }

  /** Not even a timer that fires once more counts a retry too many. */
  lemma RetriesAreCapped(v: Value, opts: Options)
    requires v.timer.InsertTimer? && v.retries <= opts.maxRetries
    ensures v.BeginInsert(opts).retries <= opts.maxRetries
    ensures v.retries < opts.maxRetries ==> v.BeginInsert(opts).retries > v.retries
  {
  }

  /** No batch holds more than `maxRecordCount` records, nor more than `maxSize` before its last one. */
  lemma BatchesAreBounded(steps: seq<Step>, i: BatchId, opts: Options)
    requires opts.Valid() && Legal(INITIAL, steps, opts) && i < |Run(INITIAL, steps, opts).made|
    ensures var v := Run(INITIAL, steps, opts).made[i];
      && |v.records| <= opts.maxRecordCount
      && (v.records != [] ==> Total(v.records[..|v.records| - 1]) < opts.maxSize)
  {
    RunKeeps(INITIAL, steps, opts);
    assert BatchInv(Run(INITIAL, steps, opts), i, opts);
  }
}
