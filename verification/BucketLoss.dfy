/** Buckets of one creation date share a row of the table: exactly then counters can be lost. */
module BucketLosses {
  import opened MessageRefs
  import opened StreamData
  import opened BucketTables
  import opened Buckets
  import opened BucketProgress
  import opened BucketCaches

  ghost predicate Kept(c: Cache) {
    forall id | id in c.slots :: Counted(c, id)
  }

  predicate NoCreate(steps: seq<Step>) {
    forall step | step in steps :: !step.Create?
  }

  ghost predicate DistinctSlots(c: Cache) {
    forall i, j | i in c.slots && j in c.slots && i != j :: c.slots[i] != c.slots[j]
  }

  // ---------- Distinct dates keep the counters ----------

  lemma {:induction false} SlotsStay(c: Cache, steps: seq<Step>)
    requires Legal(c, steps)
    ensures forall i | i in c.slots :: i in Run(c, steps).slots && Run(c, steps).slots[i] == c.slots[i]
    decreases |steps|
  {
    if steps != [] {
      SlotsStay(Next(c, steps[0]), steps[1..]);
    }
  }

  /** If dates are distinct at the end of a run, no step of it used a date twice. */
  lemma {:induction false} DistinctWereNew(c: Cache, steps: seq<Step>)
    requires Legal(c, steps) && DistinctSlots(Run(c, steps))
    ensures NewSlots(c, steps)
    decreases |steps|
  {
    if steps != [] {
      var step, d := steps[0], Next(c, steps[0]);
      DistinctWereNew(d, steps[1..]);
      SlotsStay(d, steps[1..]);
      forall j | step.Create? && j in c.slots ensures c.slots[j] != Slot(step.part, step.dateCreate) {
        assert d.slots[j] == c.slots[j] && d.slots[step.id] == Slot(step.part, step.dateCreate);
      }
    }
  }

  lemma {:induction false} NoCreateIsNew(c: Cache, steps: seq<Step>)
    requires Legal(c, steps) && NoCreate(steps)
    ensures NewSlots(c, steps)
    decreases |steps|
  {
    if steps != [] {
      assert steps[0] in steps;
      NoCreateIsNew(Next(c, steps[0]), steps[1..]);
    }
  }

  lemma InvIsKept(c: Cache)
    requires Inv(c)
    ensures Kept(c)
  {
    forall id | id in c.slots ensures Counted(c, id) {
      assert BucketInv(c, id);
    }
  }

  // ---------- Shared dates ----------

  /** What holds of every run, however dates are shared. */
  ghost predicate InPlace(c: Cache) {
    && c.mem.Keys <= c.slots.Keys && c.round.Keys <= c.slots.Keys
    && (forall i | i in c.mem :: c.mem[i].id == i && SlotOf(c.mem[i]) == c.slots[i])
    && (forall i | i in c.round :: c.round[i].row.id == i && c.round[i].row.dateCreate == c.slots[i].dateCreate)
    && (forall s | s in c.table ::
          c.table[s].id in c.slots && c.slots[c.table[s].id] == s && c.table[s].dateCreate == s.dateCreate)
  }

  lemma StepKeepsPlaces(c: Cache, step: Step)
    requires InPlace(c) && Enabled(c, step)
    ensures InPlace(Next(c, step))
  {
    match step
    case Create(_, _, _) =>
    case Increment(_, _) =>
    case BeginRound =>
    case Land(_) =>
    case EndRound(_, _) =>
    case Reload(_) =>
  }

  lemma {:induction false} RunKeepsPlaces(c: Cache, steps: seq<Step>)
    requires InPlace(c) && Legal(c, steps)
    ensures InPlace(Run(c, steps))
    decreases |steps|
  {
    hide InPlace, Next;
    if steps != [] {
      StepKeepsPlaces(c, steps[0]);
      RunKeepsPlaces(Next(c, steps[0]), steps[1..]);
    }
  }

  /** A round that is under way may end with nothing fulfilled. */
  function Abandon(c: Cache): seq<Step> {
    if c.storing then [EndRound({}, {})] else []
  }

  lemma AbandonIsRun(c: Cache)
    ensures Legal(c, Abandon(c)) && !Run(c, Abandon(c)).storing
    ensures Run(c, Abandon(c)).mem == c.mem && Run(c, Abandon(c)).slots == c.slots
  {
    if c.storing {
      assert Abandon(c)[1..] == [];
    }
  }

  /** A round of its own writes a bucket and takes it out of memory. */
  function WriteOut(id: BucketId): seq<Step> {
    [Increment(id, 0), BeginRound, Land(id), EndRound({id}, {id})]
  }

  /** The states of such a round. */
  function WriteOutState(c: Cache, id: BucketId, k: nat): Cache
    requires InPlace(c) && !c.storing && id in c.mem
  {
    if k == 0 then c
    else if k == 1 then Next(c, Increment(id, 0))
    else if k == 2 then Next(Next(c, Increment(id, 0)), BeginRound)
    else Next(Next(Next(c, Increment(id, 0)), BeginRound), Land(id))
  }

  lemma WriteOutStep(c: Cache, id: BucketId, k: nat)
    requires InPlace(c) && !c.storing && id in c.mem && k < 4
    ensures Enabled(WriteOutState(c, id, k), WriteOut(id)[k])
    ensures k < 3 ==> Next(WriteOutState(c, id, k), WriteOut(id)[k]) == WriteOutState(c, id, k + 1)
  {
  }

  lemma WrittenOut(c: Cache, id: BucketId)
    requires InPlace(c) && !c.storing && id in c.mem
    ensures var d := WriteOutState(c, id, 3);
      && Enabled(d, EndRound({id}, {id}))
      && Next(d, EndRound({id}, {id})).mem.Keys == c.mem.Keys - {id}
      && Next(d, EndRound({id}, {id})).slots == c.slots
  {
    var d := WriteOutState(c, id, 3);
    assert d.mem[id] == c.mem[id].Incremented(0) && d.round[id] == Upsert(d.mem[id].Row(), true);
  }

  lemma {:induction false} WriteOutRuns(c: Cache, id: BucketId, k: nat)
    requires InPlace(c) && !c.storing && id in c.mem && k < 4
    ensures Legal(WriteOutState(c, id, k), WriteOut(id)[k..])
    ensures var d := WriteOutState(c, id, 3);
      && Enabled(d, EndRound({id}, {id}))
      && Run(WriteOutState(c, id, k), WriteOut(id)[k..]) == Next(d, EndRound({id}, {id}))
    decreases 4 - k
  {
    hide InPlace, Enabled, Next, WriteOutState;
    var steps := WriteOut(id);
    WriteOutStep(c, id, k);
    if k == 3 {
      assert steps[4..] == [];
      NoSteps(Next(WriteOutState(c, id, 3), steps[3]));
    } else {
      WriteOutRuns(c, id, k + 1);
    }
    RunFrom(WriteOutState(c, id, k), steps, k);
  }

  lemma WriteOutIsRun(c: Cache, id: BucketId)
    requires InPlace(c) && !c.storing && id in c.mem
    ensures Legal(c, WriteOut(id))
    ensures var d := Run(c, WriteOut(id)); d.mem.Keys == c.mem.Keys - {id} && d.slots == c.slots
  {
    hide Legal, Run, Enabled, Next, InPlace;
    assert WriteOut(id)[0..] == WriteOut(id);
    WriteOutRuns(c, id, 0);
    WrittenOut(c, id);
  }

  /** Every bucket can leave memory, without a new one and without any other coming in. */
  lemma Evict(c: Cache, id: BucketId) returns (steps: seq<Step>)
    requires InPlace(c)
    ensures Legal(c, steps) && NoCreate(steps) && InPlace(Run(c, steps))
    ensures var d := Run(c, steps); id !in d.mem && d.mem.Keys <= c.mem.Keys && d.slots == c.slots
  {
    hide InPlace, Legal, Run;
    if id in c.mem {
      AbandonIsRun(c);
      RunKeepsPlaces(c, Abandon(c));
      WriteOutIsRun(Run(c, Abandon(c)), id);
      RunAppend(c, Abandon(c), WriteOut(id));
      steps := Abandon(c) + WriteOut(id);
    } else {
      NoSteps(c);
      steps := [];
    }
    RunKeepsPlaces(c, steps);
  }

  /** Two buckets of one date: once both have left memory, the row they share lacks the counters of one of them. */
  lemma SharersLose(c: Cache, i: BucketId, j: BucketId) returns (steps: seq<Step>)
    requires InPlace(c) && i in c.slots && j in c.slots && i != j && c.slots[i] == c.slots[j]
    ensures Legal(c, steps) && NoCreate(steps)
    ensures var d := Run(c, steps);
      && d.slots == c.slots && i !in d.mem && j !in d.mem
      && !(Counted(d, i) && Counted(d, j))
  {
    hide InPlace, Legal, Run;
    var a := Evict(c, i);
    var b := Evict(Run(c, a), j);
    RunAppend(c, a, b);
    steps := a + b;
  }

  /**
   After any run, whatever it was: no counter is lost in any continuation without
   new buckets, if and only if no two buckets made so far share a creation date.
   */
  lemma CountersKeptIff(steps: seq<Step>)
    requires Legal(EMPTY, steps)
    ensures var c := Run(EMPTY, steps);
      DistinctSlots(c) <==> forall more | Legal(c, more) && NoCreate(more) :: Kept(Run(c, more))
  {
    hide Legal, Run, NewSlots, Kept, Counted, Inv, InPlace;
    var c := Run(EMPTY, steps);
    NothingYet();
    if DistinctSlots(c) {
      DistinctWereNew(EMPTY, steps);
      RunKeeps(EMPTY, steps);
      forall more | Legal(c, more) && NoCreate(more) ensures Kept(Run(c, more)) {
        NoCreateIsNew(c, more);
        RunKeeps(c, more);
        InvIsKept(Run(c, more));
      }
    } else {
      var i, j :| i in c.slots && j in c.slots && i != j && c.slots[i] == c.slots[j];
      RunKeepsPlaces(EMPTY, steps);
      var more := SharersLose(c, i, j);
      NotKept(Run(c, more), i, j);
    }
  }

  lemma NothingYet()
    ensures Inv(EMPTY) && InPlace(EMPTY)
  {
  }

  lemma NotKept(c: Cache, i: BucketId, j: BucketId)
    requires i in c.slots && j in c.slots && !(Counted(c, i) && Counted(c, j))
    ensures !Kept(c)
  {
  }

  lemma DistinctIffNew(steps: seq<Step>)
    requires Legal(EMPTY, steps)
    ensures DistinctSlots(Run(EMPTY, steps)) <==> NewSlots(EMPTY, steps)
  {
    if NewSlots(EMPTY, steps) {
      RunKeeps(EMPTY, steps);
    }
    if DistinctSlots(Run(EMPTY, steps)) {
      DistinctWereNew(EMPTY, steps);
    }
  }

  /**
   A pass over a stream part puts counters at risk, now or in a continuation
   without new buckets, if and only if it is one of the duplicating cases.
   */
  lemma PassKeepsCountersIff(before: seq<Step>, heap: seq<Value>, part: StreamPart, table: seq<BucketRow>,
                             timestamp: int, newId: BucketId, opts: Options, p: Pass, q: Pass, r: Pass)
    returns (steps: seq<Step>)
    requires Legal(EMPTY, before) && NewSlots(EMPTY, before)
    requires var c := Run(EMPTY, before);
      && MemoryOf(c, part, heap) && TableOf(c, part, table) && IsHeap(heap) && newId !in c.slots
      && LatestChecked(Start(heap, c.mem.Keys, opts), part, table, opts, p)
    requires PastChecked(p, part, table, timestamp, opts, q) && Inserted(q, part, timestamp, newId, r)
    ensures var c := Run(EMPTY, before);
      && Legal(c, steps) && MemoryOf(Run(c, steps), part, r.heap)
      && ((forall more | Legal(Run(c, steps), more) && NoCreate(more) :: Kept(Run(Run(c, steps), more)))
          <==> NoBucketAt(heap, table, timestamp) || !Duplicates(heap, c.mem.Keys, part, table, timestamp, opts))
  {
    hide Legal, Run, NewSlots, Kept, DistinctSlots, NoBucketAt, Duplicates, MemoryOf, TableOf, IsHeap;
    hide LatestChecked, PastChecked, Inserted;
    RunKeeps(EMPTY, before);
    var c := Run(EMPTY, before);
    steps := PassIsRun(c, heap, part, table, timestamp, newId, opts, p, q, r);
    RunAppend(EMPTY, before, steps);
    DistinctIffNew(before + steps);
    CountersKeptIff(before + steps);
  }
}
