/** The buckets in memory as a write-back cache of the bucket table. */
module BucketCaches {
  import opened MessageRefs
  import opened StreamData
  import opened BucketTables
  import opened Buckets
  import opened BucketProgress

  /** The key of a row of the bucket table. */
  datatype Slot = Slot(part: StreamPart, dateCreate: int)

  /** An upsert under way: the row it carries, and whether the table has it already. */
  datatype Upsert = Upsert(row: BucketRow, landed: bool)

  /**
   `round` holds the upserts of the round under way, if one is. `slots` has the
   slot of every bucket ever made, and `increments` every increment applied.
   */
  datatype Cache = Cache(
    mem: map<BucketId, Value>,
    table: map<Slot, BucketRow>,
    storing: bool,
    round: map<BucketId, Upsert>,
    slots: map<BucketId, Slot>,
    increments: seq<(BucketId, nat)>)

  const EMPTY: Cache := Cache(map[], map[], false, map[], map[], [])

  function SlotOf(v: Value): Slot {
    Slot(v.part, v.dateCreate)
  }

  datatype Step =
    | Create(id: BucketId, part: StreamPart, dateCreate: int)
    | Increment(id: BucketId, size: nat)
    | BeginRound
    | Land(id: BucketId)
    | EndRound(fulfilled: set<BucketId>, expired: set<BucketId>)
    | Reload(slot: Slot)

  /** Ids of new buckets are unique; an upsert reported as fulfilled has landed, a failed one may have. */
  predicate Enabled(c: Cache, step: Step) {
    match step
    case Create(id, _, _) => id !in c.slots
    case Increment(_, _) => true
    case BeginRound => !c.storing
    case Land(id) => c.storing && id in c.round && id in c.slots
    case EndRound(fulfilled, _) => c.storing && forall id | id in fulfilled :: id in c.round && c.round[id].landed
    case Reload(slot) => slot in c.table && c.table[slot].id !in c.mem
  }

  function Next(c: Cache, step: Step): Cache
    requires Enabled(c, step)
  {
    match step
    case Create(id, part, dateCreate) =>
      c.(mem := c.mem[id := Loaded(part, BucketRow(id, dateCreate, 0, 0))],
         slots := c.slots[id := Slot(part, dateCreate)])
    case Increment(id, size) =>
      // a bucket that is not in memory is not incremented
      if id in c.mem then c.(mem := c.mem[id := c.mem[id].Incremented(size)], increments := c.increments + [(id, size)])
      else c
    case BeginRound =>
      c.(storing := true, round := map id | id in c.mem && !c.mem[id].stored :: Upsert(c.mem[id].Row(), false))
    case Land(id) =>
      c.(table := c.table[c.slots[id] := c.round[id].row], round := c.round[id := c.round[id].(landed := true)])
    case EndRound(fulfilled, expired) =>
      var records := map id | id in c.round && id in fulfilled :: c.round[id].row.records;
      c.(mem := map id | id in c.mem && !Leaves(id, c.mem[id], records, expired) :: Ended(id, c.mem[id], records),
         storing := false, round := map[])
    case Reload(slot) =>
      var row := c.table[slot];
      c.(mem := c.mem[row.id := Loaded(slot.part, row)])
  }

  /** No two buckets of a stream part get the same creation date. */
  predicate NewSlot(c: Cache, step: Step) {
    step.Create? ==> Slot(step.part, step.dateCreate) !in c.slots.Values
  }

  predicate Legal(c: Cache, steps: seq<Step>)
    decreases |steps|
  {
    steps == [] || (Enabled(c, steps[0]) && Legal(Next(c, steps[0]), steps[1..]))
  }

  predicate NewSlots(c: Cache, steps: seq<Step>)
    requires Legal(c, steps)
    decreases |steps|
  {
    steps == [] || (NewSlot(c, steps[0]) && NewSlots(Next(c, steps[0]), steps[1..]))
  }

  function Run(c: Cache, steps: seq<Step>): Cache
    requires Legal(c, steps)
    decreases |steps|
  {
    if steps == [] then c else Run(Next(c, steps[0]), steps[1..])
  }

  /** What the increments applied to a bucket come to. */
  function Sum(increments: seq<(BucketId, nat)>, id: BucketId): nat {
    if increments == [] then 0
    else
      var last := increments[|increments| - 1];
      Sum(increments[..|increments| - 1], id) + if last.0 == id then last.1 else 0
  }

  function Count(increments: seq<(BucketId, nat)>, id: BucketId): nat {
    if increments == [] then 0
    else Count(increments[..|increments| - 1], id) + if increments[|increments| - 1].0 == id then 1 else 0
  }

  /** The row a bucket should have: the sums of its increments. */
  function Due(c: Cache, id: BucketId): BucketRow
    requires id in c.slots
  {
    BucketRow(id, c.slots[id].dateCreate, Sum(c.increments, id), Count(c.increments, id))
  }

  predicate InMemory(c: Cache, id: BucketId)
    requires id in c.slots
  {
    id in c.mem && SlotOf(c.mem[id]) == c.slots[id] && c.mem[id].Row() == Due(c, id)
  }

  predicate InTable(c: Cache, id: BucketId)
    requires id in c.slots
  {
    c.slots[id] in c.table && c.table[c.slots[id]] == Due(c, id)
  }

  /** An upsert carries past counters: if the number of records is the same, so is the size. */
  predicate InRound(c: Cache, id: BucketId)
    requires id in c.slots && id in c.round
  {
    var u := c.round[id];
    && id in c.mem && !c.mem[id].stored
    && u.row.id == id && u.row.dateCreate == c.mem[id].dateCreate && u.row.records <= c.mem[id].records
    && (u.row.records == c.mem[id].records ==> u.row.size == c.mem[id].size)
    && (u.landed ==> c.slots[id] in c.table && c.table[c.slots[id]] == u.row)
  }

  predicate BucketInv(c: Cache, id: BucketId)
    requires id in c.slots
  {
    && (if id in c.mem then InMemory(c, id) else InTable(c, id))
    && (id in c.mem && c.mem[id].stored ==> InTable(c, id))
    && (id in c.round ==> InRound(c, id))
  }

  /** What relates the parts of a cache, whatever the counters are. */
  ghost predicate Shape(c: Cache) {
    && c.mem.Keys <= c.slots.Keys && c.round.Keys <= c.slots.Keys
    && (forall i, j | i in c.slots && j in c.slots && i != j :: c.slots[i] != c.slots[j])
    && (forall s | s in c.table :: c.table[s].id in c.slots && c.slots[c.table[s].id] == s)
    && (!c.storing ==> c.round == map[])
    && (forall k | 0 <= k < |c.increments| :: c.increments[k].0 in c.slots)
  }

  ghost predicate Inv(c: Cache) {
    Shape(c) && forall id | id in c.slots :: BucketInv(c, id)
  }

  lemma {:induction false} NothingDue(increments: seq<(BucketId, nat)>, id: BucketId)
    requires forall k | 0 <= k < |increments| :: increments[k].0 != id
    ensures Sum(increments, id) == 0 && Count(increments, id) == 0
  {
    if increments != [] {
      NothingDue(increments[..|increments| - 1], id);
    }
  }

  lemma OneMore(increments: seq<(BucketId, nat)>, id: BucketId, size: nat, other: BucketId)
    ensures Sum(increments + [(id, size)], other) == Sum(increments, other) + if id == other then size else 0
    ensures Count(increments + [(id, size)], other) == Count(increments, other) + if id == other then 1 else 0
  {
  }

  lemma StepKeepsShape(c: Cache, step: Step)
    requires Inv(c) && Enabled(c, step) && NewSlot(c, step)
    ensures Shape(Next(c, step))
  {
    hide InMemory, InTable;
    match step
    case Create(_, part, dateCreate) =>
      forall i | i in c.slots ensures c.slots[i] != Slot(part, dateCreate) {
        assert c.slots[i] in c.slots.Values;
      }
    case Increment(id, _) =>
    case BeginRound =>
    case Land(id) =>
      assert BucketInv(c, id);
    case EndRound(_, _) =>
    case Reload(_) =>
  }

  lemma CreateKeeps(c: Cache, step: Step, id: BucketId)
    requires Inv(c) && step.Create? && Enabled(c, step) && id in Next(c, step).slots
    ensures BucketInv(Next(c, step), id)
  {
    if id == step.id {
      NothingDue(c.increments, id);
      assert id !in c.round;
    } else {
      assert BucketInv(c, id);
    }
  }

  lemma IncrementKeeps(c: Cache, step: Step, id: BucketId)
    requires Inv(c) && step.Increment? && id in c.slots
    ensures BucketInv(Next(c, step), id)
  {
    hide Sum, Count;
    assert BucketInv(c, id);
    OneMore(c.increments, step.id, step.size, id);
  }

  lemma BeginKeeps(c: Cache, id: BucketId)
    requires Inv(c) && Enabled(c, BeginRound) && id in c.slots
    ensures BucketInv(Next(c, BeginRound), id)
  {
  }

  lemma LandKeeps(c: Cache, step: Step, id: BucketId)
    requires Inv(c) && step.Land? && Enabled(c, step) && id in c.slots
    ensures BucketInv(Next(c, step), id)
  {
  }

  lemma EndKeeps(c: Cache, step: Step, id: BucketId)
    requires Inv(c) && step.EndRound? && Enabled(c, step) && id in c.slots
    ensures BucketInv(Next(c, step), id)
  {
  }

  lemma ReloadKeeps(c: Cache, step: Step, id: BucketId)
    requires Inv(c) && step.Reload? && Enabled(c, step) && id in c.slots
    ensures BucketInv(Next(c, step), id)
  {
  }

  lemma StepKeeps(c: Cache, step: Step)
    requires Inv(c) && Enabled(c, step) && NewSlot(c, step)
    ensures Inv(Next(c, step))
  {
    hide Shape, BucketInv;
    StepKeepsShape(c, step);
    forall id | id in Next(c, step).slots ensures BucketInv(Next(c, step), id) {
      match step
      case Create(_, _, _) => CreateKeeps(c, step, id);
      case Increment(_, _) => IncrementKeeps(c, step, id);
      case BeginRound => BeginKeeps(c, id);
      case Land(_) => LandKeeps(c, step, id);
      case EndRound(_, _) => EndKeeps(c, step, id);
      case Reload(_) => ReloadKeeps(c, step, id);
    }
  }

  lemma {:induction false} RunKeeps(c: Cache, steps: seq<Step>)
    requires Inv(c) && Legal(c, steps) && NewSlots(c, steps)
    ensures Inv(Run(c, steps))
    decreases |steps|
  {
    hide Inv, Next;
    if steps != [] {
      StepKeeps(c, steps[0]);
      RunKeeps(Next(c, steps[0]), steps[1..]);
    }
  }

  /** The counters of a bucket, in memory or else in the table, are the sums of its increments. */
  predicate Counted(c: Cache, id: BucketId)
    requires id in c.slots
  {
    && (id in c.mem ==> c.mem[id].Row() == Due(c, id))
    && (id !in c.mem ==> c.slots[id] in c.table && c.table[c.slots[id]] == Due(c, id))
  }

  /**
   Where the counters of a bucket are, in memory or else in the table, they are
   the sums of the increments applied to it; a stored bucket is in the table as it is in memory.
   */
  lemma CountersAreSums(steps: seq<Step>, id: BucketId)
    requires Legal(EMPTY, steps) && NewSlots(EMPTY, steps) && id in Run(EMPTY, steps).slots
    ensures var c := Run(EMPTY, steps);
      && Counted(c, id)
      && (id in c.mem && c.mem[id].stored ==> c.slots[id] in c.table && c.table[c.slots[id]] == c.mem[id].Row())
  {
    RunKeeps(EMPTY, steps);
    assert BucketInv(Run(EMPTY, steps), id);
  }

  /** Only the end of a round takes a bucket out of memory, and only when the table has its counters. */
  lemma EvictedOnlyWhenWritten(steps: seq<Step>, step: Step, id: BucketId)
    requires Legal(EMPTY, steps) && NewSlots(EMPTY, steps)
    requires var c := Run(EMPTY, steps); Enabled(c, step) && id in c.mem && id !in Next(c, step).mem
    ensures var c := Run(EMPTY, steps);
      && step.EndRound? && id in step.expired
      && SlotOf(c.mem[id]) in c.table && c.table[SlotOf(c.mem[id])] == c.mem[id].Row()
  {
    var c := Run(EMPTY, steps);
    RunKeeps(EMPTY, steps);
    assert BucketInv(c, id);
  }

  /** Every record counted before a bucket was evicted counts again once it is reloaded. */
  lemma ReloadContinuesCount(steps: seq<Step>, slot: Slot, size: nat)
    requires Legal(EMPTY, steps) && NewSlots(EMPTY, steps) && Enabled(Run(EMPTY, steps), Reload(slot))
    ensures var c := Run(EMPTY, steps);
      var id := c.table[slot].id;
      var d := Next(Next(c, Reload(slot)), Increment(id, size));
      && id in d.mem && d.mem[id].records == Count(c.increments, id) + 1
      && d.mem[id].size == Sum(c.increments, id) + size
  {
    var c := Run(EMPTY, steps);
    RunKeeps(EMPTY, steps);
    assert BucketInv(c, c.table[slot].id);
  }

  // ---------- Passes over a stream part as steps ----------

  lemma NoSteps(c: Cache)
    ensures Legal(c, []) && Run(c, []) == c && NewSlots(c, [])
  {
  }

  /** `heap` holds the buckets that memory has of a stream part. */
  ghost predicate MemoryOf(c: Cache, part: StreamPart, heap: seq<Value>) {
    && (forall i | i in c.mem && c.mem[i].part == part :: c.mem[i] in heap)
    && (forall v | v in heap :: v.part == part && v.id in c.mem && c.mem[v.id] == v)
  }

  /** `table` holds the rows that the table has of a stream part, newest first. */
  ghost predicate TableOf(c: Cache, part: StreamPart, table: seq<BucketRow>) {
    && IsTable(table)
    && (forall s | s in c.table && s.part == part :: c.table[s] in table)
    && (forall r | r in table :: Slot(part, r.dateCreate) in c.table && c.table[Slot(part, r.dateCreate)] == r)
  }

  lemma CacheIsCoherent(c: Cache, part: StreamPart, heap: seq<Value>, table: seq<BucketRow>)
    requires Inv(c) && MemoryOf(c, part, heap) && TableOf(c, part, table)
    ensures Coherent(heap, c.mem.Keys, table)
  {
    forall r | r in table && r.id in c.mem
      ensures exists b :: b in heap && b.id == r.id && b.dateCreate == r.dateCreate
    {
      assert BucketInv(c, r.id);
      assert c.slots[c.table[Slot(part, r.dateCreate)].id] == Slot(part, r.dateCreate);
      assert c.mem[r.id] in heap;
    }
  }

  /** A date is new exactly when neither memory nor the table has a bucket of that date. */
  lemma NewSlotIff(c: Cache, part: StreamPart, heap: seq<Value>, table: seq<BucketRow>, timestamp: int)
    requires Inv(c) && MemoryOf(c, part, heap) && TableOf(c, part, table)
    ensures Slot(part, timestamp) !in c.slots.Values <==> NoBucketAt(heap, table, timestamp)
  {
    var slot := Slot(part, timestamp);
    if slot in c.slots.Values {
      var i :| i in c.slots && c.slots[i] == slot;
      assert BucketInv(c, i);
      assert i in c.mem ==> c.mem[i] in heap;
      assert i !in c.mem ==> c.table[slot] in table;
    }
    forall b | b in heap && b.dateCreate == timestamp ensures slot in c.slots.Values {
      assert BucketInv(c, b.id);
      assert c.slots[b.id] == slot;
    }
    forall r | r in table && r.dateCreate == timestamp ensures slot in c.slots.Values {
      assert c.slots[c.table[slot].id] == slot;
    }
  }

  lemma {:induction false} RunAppend(c: Cache, a: seq<Step>, b: seq<Step>)
    requires Legal(c, a) && Legal(Run(c, a), b)
    ensures Legal(c, a + b) && Run(c, a + b) == Run(Run(c, a), b)
    ensures NewSlots(c, a + b) <==> NewSlots(c, a) && NewSlots(Run(c, a), b)
    decreases |a|
  {
    if a == [] {
      assert a + b == b;
    } else {
      RunAppend(Next(c, a[0]), a[1..], b);
      assert (a + b)[1..] == a[1..] + b;
    }
  }

  /** What loading changes: memory gets more, everything else stays. */
  predicate OnlyLoads(c: Cache, d: Cache) {
    && d == c.(mem := d.mem) && c.mem.Keys <= d.mem.Keys
    && forall i | i in c.mem :: d.mem[i] == c.mem[i]
  }

  /** A look at the table is at most one reload. */
  lemma LookIsRun(c: Cache, part: StreamPart, table: seq<BucketRow>, p: Pass, found: seq<BucketRow>, q: Pass)
    returns (steps: seq<Step>)
    requires Inv(c) && MemoryOf(c, part, p.heap) && TableOf(c, part, table) && p.ids == c.mem.Keys
    requires (found != [] ==> found[0] in table) && CheckFound(p, part, found, q)
    ensures Legal(c, steps) && NewSlots(c, steps)
    ensures var d := Run(c, steps); Inv(d) && OnlyLoads(c, d) && MemoryOf(d, part, q.heap) && q.ids == d.mem.Keys
  {
    hide Inv;
    if found != [] && found[0].id !in p.ids {
      var step := Reload(Slot(part, found[0].dateCreate));
      steps := [step];
      StepKeeps(c, step);
      var d := Next(c, step);
      assert steps[1..] == [];
      assert Run(c, steps) == d;
      assert forall b :: b in q.heap <==> b in p.heap || b == Loaded(part, found[0]);
    } else {
      steps := [];
    }
  }

  /** The two looks at the table are a run that loads buckets only. */
  lemma LooksAreRun(c: Cache, heap: seq<Value>, part: StreamPart, table: seq<BucketRow>, timestamp: int,
                    opts: Options, p: Pass, q: Pass) returns (steps: seq<Step>)
    requires Inv(c) && MemoryOf(c, part, heap) && TableOf(c, part, table)
    requires LatestChecked(Start(heap, c.mem.Keys, opts), part, table, opts, p)
    requires PastChecked(p, part, table, timestamp, opts, q)
    ensures Legal(c, steps) && NewSlots(c, steps)
    ensures var d := Run(c, steps); Inv(d) && OnlyLoads(c, d) && MemoryOf(d, part, q.heap) && q.ids == d.mem.Keys
  {
    hide Inv, MemoryOf, CheckFound, FindBucketId, Legal, NewSlots, Run, IsTable;
    var a, b: seq<Step> := [], [];
    NoSteps(c);
    LastBucketsIn(table, None);
    LastBucketsIn(table, Some(timestamp));
    if NeedsLatest(heap, opts) {
      a := LookIsRun(c, part, table, Start(heap, c.mem.Keys, opts), LastBuckets(table, None), p);
    }
    var d := Run(c, a);
    NoSteps(d);
    if !p.insertNewBucket && FindBucketId(p.heap, timestamp, opts).None? {
      b := LookIsRun(d, part, table, p, LastBuckets(table, Some(timestamp)), q);
    }
    RunAppend(c, a, b);
    steps := a + b;
  }

  /**
   A pass over a stream part is a run of the cache: up to two reloads, and a new
   bucket if one is inserted. It keeps the dates of buckets distinct if and only
   if none has the pending timestamp, or it is no duplicating case.
   */
  lemma PassIsRun(c: Cache, heap: seq<Value>, part: StreamPart, table: seq<BucketRow>, timestamp: int,
                  newId: BucketId, opts: Options, p: Pass, q: Pass, r: Pass) returns (steps: seq<Step>)
    requires Inv(c) && MemoryOf(c, part, heap) && TableOf(c, part, table) && IsHeap(heap) && newId !in c.slots
    requires LatestChecked(Start(heap, c.mem.Keys, opts), part, table, opts, p)
    requires PastChecked(p, part, table, timestamp, opts, q) && Inserted(q, part, timestamp, newId, r)
    ensures Legal(c, steps)
    ensures var d := Run(c, steps);
      && MemoryOf(d, part, r.heap) && r.ids == d.mem.Keys && d.table == c.table && d.increments == c.increments
      && forall i | i in c.mem :: i in d.mem && d.mem[i] == c.mem[i]
    ensures NewSlots(c, steps)
      <==> NoBucketAt(heap, table, timestamp) || !Duplicates(heap, c.mem.Keys, part, table, timestamp, opts)
  {
    hide Inv, MemoryOf, NoBucketAt, Duplicates, Coherent, LatestChecked, PastChecked, Pushed;
    hide Legal, NewSlots, Run, IsTable;
    var looks := LooksAreRun(c, heap, part, table, timestamp, opts, p, q);
    NewSlotIff(c, part, heap, table, timestamp);
    CacheIsCoherent(c, part, heap, table);
    if !NoBucketAt(heap, table, timestamp) {
      PassDuplicatesIff(heap, c.mem.Keys, part, table, timestamp, opts, p, q);
    }
    steps := looks;
    if q.insertNewBucket {
      var e := Run(c, looks);
      MemoryIsKnown(e);
      CreateIsRun(e, part, timestamp, newId, q, r);
      RunAppend(c, looks, [Create(newId, part, timestamp)]);
      steps := looks + [Create(newId, part, timestamp)];
    }
  }

  lemma MemoryIsKnown(c: Cache)
    requires Inv(c)
    ensures c.mem.Keys <= c.slots.Keys
  {
  }

  lemma CreateIsRun(c: Cache, part: StreamPart, timestamp: int, newId: BucketId, q: Pass, r: Pass)
    requires MemoryOf(c, part, q.heap) && q.ids == c.mem.Keys && newId !in c.slots && c.mem.Keys <= c.slots.Keys
    requires q.insertNewBucket && Inserted(q, part, timestamp, newId, r)
    ensures var step := Create(newId, part, timestamp);
      && Legal(c, [step]) && Run(c, [step]) == Next(c, step)
      && (NewSlots(c, [step]) <==> Slot(part, timestamp) !in c.slots.Values)
      && MemoryOf(Next(c, step), part, r.heap) && r.ids == Next(c, step).mem.Keys
  {
    var step := Create(newId, part, timestamp);
    assert [step][1..] == [];
    NoSteps(Next(c, step));
    assert forall b :: b in r.heap <==> b in q.heap || b == Loaded(part, BucketRow(newId, timestamp, 0, 0));
  }

  lemma RunFrom(c: Cache, steps: seq<Step>, k: nat)
    requires k < |steps| && Enabled(c, steps[k]) && Legal(Next(c, steps[k]), steps[k + 1..])
    ensures Legal(c, steps[k..]) && Run(c, steps[k..]) == Run(Next(c, steps[k]), steps[k + 1..])
    ensures NewSlots(c, steps[k..]) == (NewSlot(c, steps[k]) && NewSlots(Next(c, steps[k]), steps[k + 1..]))
  {
  }

  /** Some pass over memory and table as they are creates this bucket, for a timestamp that finds none. */
  ghost predicate ByPass(c: Cache, step: Step, opts: Options)
    requires step.Create?
  {
    exists heap, table, p, q, r ::
      && MemoryOf(c, step.part, heap) && TableOf(c, step.part, table) && IsHeap(heap)
      && FindBucketId(heap, step.dateCreate, opts).None?
      && LatestChecked(Start(heap, c.mem.Keys, opts), step.part, table, opts, p)
      && PastChecked(p, step.part, table, step.dateCreate, opts, q)
      && q.ids == c.mem.Keys && q.insertNewBucket && Inserted(q, step.part, step.dateCreate, step.id, r)
  }

  /** A bucket that is full after one record, and one created at its date. */
  const ONE_RECORD: Options := Options(100, 1, 60)

  function SharingRun(part: StreamPart): seq<Step> {
    [Create("a", part, 7), Increment("a", 5), Create("b", part, 7),
     BeginRound, Land("a"), Land("b"), EndRound({"a", "b"}, {"a", "b"})]
  }

  /** The states of that run. */
  function SharingState(part: StreamPart, k: nat): Cache {
    var slot := Slot(part, 7);
    var a, b := map["a" := slot], map["a" := slot, "b" := slot];
    var v := Value("a", part, 7, 5, 1, false);
    var w := Value("b", part, 7, 0, 0, false);
    match k
    case 0 => EMPTY
    case 1 => Cache(map["a" := v.(size := 0, records := 0)], map[], false, map[], a, [])
    case 2 => Cache(map["a" := v], map[], false, map[], a, [("a", 5)])
    case 3 => Cache(map["a" := v, "b" := w], map[], false, map[], b, [("a", 5)])
    case 4 => Sharing(part, map[], false, false)
    case 5 => Sharing(part, map[slot := v.Row()], true, false)
    case 6 => Sharing(part, map[slot := w.Row()], true, true)
    case _ => Cache(map[], map[slot := w.Row()], false, map[], b, [("a", 5)])
  }

  /** During its round. */
  function Sharing(part: StreamPart, table: map<Slot, BucketRow>, aLanded: bool, bLanded: bool): Cache {
    var slot := Slot(part, 7);
    var v := Value("a", part, 7, 5, 1, false);
    var w := Value("b", part, 7, 0, 0, false);
    Cache(map["a" := v, "b" := w], table, true,
          map["a" := Upsert(v.Row(), aLanded), "b" := Upsert(w.Row(), bLanded)],
          map["a" := slot, "b" := slot], [("a", 5)])
  }

  lemma SharingStepBefore(part: StreamPart, k: nat)
    requires k < 4
    ensures Enabled(SharingState(part, k), SharingRun(part)[k])
    ensures Next(SharingState(part, k), SharingRun(part)[k]) == SharingState(part, k + 1)
  {
  }

  lemma SharingStepInRound(part: StreamPart, k: nat)
    requires 4 <= k < 7
    ensures Enabled(SharingState(part, k), SharingRun(part)[k])
    ensures Next(SharingState(part, k), SharingRun(part)[k]) == SharingState(part, k + 1)
  {
  }

  lemma SharingStep(part: StreamPart, k: nat)
    requires k < 7
    ensures Enabled(SharingState(part, k), SharingRun(part)[k])
    ensures Next(SharingState(part, k), SharingRun(part)[k]) == SharingState(part, k + 1)
  {
    hide Enabled, Next, SharingState;
    if k < 4 {
      SharingStepBefore(part, k);
    } else {
      SharingStepInRound(part, k);
    }
  }

  lemma SlotTaken(part: StreamPart)
    ensures !NewSlot(SharingState(part, 2), SharingRun(part)[2])
  {
    assert SharingState(part, 2).slots["a"] == Slot(part, 7);
  }

  lemma {:induction false} SharingSteps(part: StreamPart, k: nat)
    requires k <= 7
    ensures Legal(SharingState(part, k), SharingRun(part)[k..])
    ensures Run(SharingState(part, k), SharingRun(part)[k..]) == SharingState(part, 7)
    ensures k <= 2 ==> !NewSlots(SharingState(part, k), SharingRun(part)[k..])
    decreases 7 - k
  {
    hide Next, Enabled, SharingState;
    var steps := SharingRun(part);
    if k == 7 {
      assert steps[7..] == [];
      NoSteps(SharingState(part, 7));
    } else {
      SharingStep(part, k);
      SharingSteps(part, k + 1);
      if k == 2 {
        SlotTaken(part);
      }
      RunFrom(SharingState(part, k), steps, k);
    }
  }

  /** The first bucket is created by a pass over an empty memory, ... */
  lemma FirstByPass(part: StreamPart)
    ensures ByPass(SharingState(part, 0), SharingRun(part)[0], ONE_RECORD)
  {
    var a := Loaded(part, BucketRow("a", 7, 0, 0));
    var c, q := SharingState(part, 0), Pass([], {}, true);
    assert MemoryOf(c, part, []) && TableOf(c, part, []) && c.mem.Keys == {};
    assert LatestChecked(Start([], c.mem.Keys, ONE_RECORD), part, [], ONE_RECORD, q);
    assert PastChecked(q, part, [], 7, ONE_RECORD, q);
    assert Inserted(q, part, 7, "a", Pass([a], {"a"}, true));
  }

  /** ... and the second one by a pass that finds the first one full. */
  lemma SecondByPass(part: StreamPart)
    ensures ByPass(SharingState(part, 2), SharingRun(part)[2], ONE_RECORD)
  {
    var v, b := Value("a", part, 7, 5, 1, false), Loaded(part, BucketRow("b", 7, 0, 0));
    var c, q := SharingState(part, 2), Pass([v], {"a"}, true);
    assert MemoryOf(c, part, [v]) && TableOf(c, part, []) && c.mem.Keys == {"a"};
    assert LatestChecked(Start([v], c.mem.Keys, ONE_RECORD), part, [], ONE_RECORD, q);
    assert PastChecked(q, part, [], 7, ONE_RECORD, q);
    assert Inserted(q, part, 7, "b", Pass([v, b], {"a", "b"}, true));
  }

  /** Two buckets that passes create at one date share a row, and the counters of one of them are lost. */
  lemma SharedDateLosesCounters(part: StreamPart)
    ensures ByPass(Run(EMPTY, []), SharingRun(part)[0], ONE_RECORD)
    ensures Legal(EMPTY, SharingRun(part)[..2])
    ensures ByPass(Run(EMPTY, SharingRun(part)[..2]), SharingRun(part)[2], ONE_RECORD)
    ensures Legal(EMPTY, SharingRun(part)) && !NewSlots(EMPTY, SharingRun(part))
    ensures var c := Run(EMPTY, SharingRun(part));
      && "a" in c.slots && "a" !in c.mem && c.slots["a"] in c.table && c.table[c.slots["a"]].id == "b"
      && Due(c, "a").records == 1
  {
    hide Legal, NewSlots, Run, ByPass;
    var steps := SharingRun(part);
    assert steps[0..] == steps;
    SharingSteps(part, 0);
    FirstByPass(part);
    SecondByPass(part);
    NoSteps(EMPTY);
    NoSteps(SharingState(part, 2));
    SharingStep(part, 0);
    SharingStep(part, 1);
    var first := steps[..2];
    assert first[2..] == [] && first[0..] == first;
    RunFrom(SharingState(part, 1), first, 1);
    RunFrom(EMPTY, first, 0);
  }
}
