/**
 A set kept up to date from two sources: snapshots of the whole set and patches
 that add or remove elements, both numbered, arriving late, repeated or reordered.
 */
module SetMembershipSynchronizers {

  type Element = string

  datatype Operation = Added | Removed

  datatype Diff = Diff(added: set<Element>, removed: set<Element>) {
    /** The set a listener holds after following the diff. */
    function Follow(s: set<Element>): set<Element> {
      (s + added) - removed
    }

    /** Every element reported is an actual change of `s`. */
    predicate IsExact(s: set<Element>) {
      added !! s && removed <= s && added !! removed
    }
  }

  const EMPTY_DIFF: Diff := Diff({}, {})

  /** The value of a synchronizer. */
  datatype State = State(
    lastSnapshotSequenceNo: int,
    state: set<Element>,
    lastSequenceNoByElement: map<Element, int>)
  {
    function LastSequenceNo(e: Element): int {
      if e in lastSequenceNoByElement then lastSequenceNoByElement[e] else 0
    }

    /** A newer snapshot, overridden by the patches that are newer still. */
    function IngestSnapshot(elements: set<Element>, sequenceNo: int): State {
      if sequenceNo <= lastSnapshotSequenceNo then this
      else
        var kept := map e | e in lastSequenceNoByElement && lastSequenceNoByElement[e] > sequenceNo ::
          lastSequenceNoByElement[e];
        State(sequenceNo, (elements - kept.Keys) + (state * kept.Keys), kept)
    }

    /** The elements of a patch for which nothing as new is known. */
    function NonStale(elements: set<Element>, sequenceNo: int): set<Element> {
      set e | e in elements && sequenceNo > LastSequenceNo(e)
    }

    function IngestPatch(elements: set<Element>, operation: Operation, sequenceNo: int): State {
      if sequenceNo <= lastSnapshotSequenceNo then this
      else
        var newer := NonStale(elements, sequenceNo);
        State(lastSnapshotSequenceNo,
              if operation == Added then state + newer else state - newer,
              lastSequenceNoByElement + map e | e in newer :: sequenceNo)
    }
  }

  const INITIAL: State := State(0, {}, map[])

  class SetMembershipSynchronizer {
    var lastSnapshotSequenceNo: int
    var state: set<Element>
    var lastSequenceNoByElement: map<Element, int>

    ghost function View(): State
      reads this
    {
      State(lastSnapshotSequenceNo, state, lastSequenceNoByElement)
    }

    constructor ()
      ensures View() == INITIAL
    {
      lastSnapshotSequenceNo, state, lastSequenceNoByElement := 0, {}, map[];
    }

    method IngestSnapshot(elements: set<Element>, sequenceNo: int) returns (diff: Diff)
      modifies this
      ensures View() == old(View()).IngestSnapshot(elements, sequenceNo)
      ensures diff.IsExact(old(state)) && diff.Follow(old(state)) == state
    {
      if sequenceNo <= lastSnapshotSequenceNo {
        assert EMPTY_DIFF.Follow(state) == state;
        return EMPTY_DIFF;
      }
      lastSnapshotSequenceNo := sequenceNo;
      DeleteStalePatches(sequenceNo);
      var previousState := state;
      state := elements;
      ApplyPatches(previousState);
      diff := Diff(state - previousState, previousState - state);
      assert diff.Follow(previousState) == state;
    }

    method DeleteStalePatches(sequenceNo: int)
      modifies this`lastSequenceNoByElement
      ensures lastSequenceNoByElement == map e | e in old(lastSequenceNoByElement)
        && old(lastSequenceNoByElement)[e] > sequenceNo :: old(lastSequenceNoByElement)[e]
    {
      ghost var patches := lastSequenceNoByElement;
      var todo := lastSequenceNoByElement.Keys;
      while todo != {}
        invariant todo <= patches.Keys
        invariant lastSequenceNoByElement ==
          map e | e in patches && (e in todo || patches[e] > sequenceNo) :: patches[e]
        decreases todo
      {
        var element :| element in todo;
        todo := todo - {element};
        if lastSequenceNoByElement[element] <= sequenceNo {
          lastSequenceNoByElement := lastSequenceNoByElement - {element};
        }
      }
    }

    /** Elements with a patch left are as they were before the snapshot. */
    method ApplyPatches(previousState: set<Element>)
      modifies this`state
      ensures state == (old(state) - lastSequenceNoByElement.Keys) + (previousState * lastSequenceNoByElement.Keys)
    {
      var todo := lastSequenceNoByElement.Keys;
      while todo != {}
        invariant todo <= lastSequenceNoByElement.Keys
        invariant forall e :: e in state <==>
          if e in lastSequenceNoByElement.Keys - todo then e in previousState else e in old(state)
        decreases todo
      {
        var element :| element in todo;
        todo := todo - {element};
        if element in previousState {
          state := state + {element};
        } else {
          state := state - {element};
        }
      }
    }

    method IngestPatch(elements: set<Element>, operation: Operation, sequenceNo: int) returns (diff: Diff)
      modifies this
      ensures View() == old(View()).IngestPatch(elements, operation, sequenceNo)
      ensures diff.IsExact(old(state)) && diff.Follow(old(state)) == state
    {
      if sequenceNo <= lastSnapshotSequenceNo {
        assert EMPTY_DIFF.Follow(state) == state;
        return EMPTY_DIFF;
      }
      var nonStale := set e | e in elements &&
        sequenceNo > (if e in lastSequenceNoByElement then lastSequenceNoByElement[e] else 0);
      assert nonStale == View().NonStale(elements, sequenceNo);
      RecordPatch(nonStale, sequenceNo);
      var changed := ChangeMembership(nonStale, operation);
      diff := if operation == Added then Diff(changed, {}) else Diff({}, changed);
    }

    method RecordPatch(elements: set<Element>, sequenceNo: int)
      modifies this`lastSequenceNoByElement
      ensures lastSequenceNoByElement == old(lastSequenceNoByElement) + map e | e in elements :: sequenceNo
    {
      var todo := elements;
      while todo != {}
        invariant todo <= elements
        invariant lastSequenceNoByElement == old(lastSequenceNoByElement) + map e | e in elements - todo :: sequenceNo
        decreases todo
      {
        var element :| element in todo;
        todo := todo - {element};
        lastSequenceNoByElement := lastSequenceNoByElement[element := sequenceNo];
      }
    }

    /** Adds or removes each element and returns those whose membership changed. */
    method ChangeMembership(elements: set<Element>, operation: Operation) returns (changed: set<Element>)
      modifies this`state
      ensures state == if operation == Added then old(state) + elements else old(state) - elements
      ensures changed == if operation == Added then elements - old(state) else elements * old(state)
    {
      changed := {};
      var todo := elements;
      while todo != {}
        invariant todo <= elements
        invariant forall e :: e in state <==> if e in elements - todo then operation == Added else e in old(state)
        invariant forall e :: e in changed <==> e in elements - todo && (e in old(state) <==> operation == Removed)
        decreases todo
      {
        var element :| element in todo;
        todo := todo - {element};
        if (element in state) == (operation == Removed) {
          changed := changed + {element};
        }
        if operation == Added {
          state := state + {element};
        } else {
          state := state - {element};
        }
      }
    }
  }

  // ---------- Convergence ----------

  datatype Update =
    | Snapshot(elements: set<Element>, sequenceNo: int)
    | Patch(elements: set<Element>, operation: Operation, sequenceNo: int)

  function Ingest(s: State, u: Update): State {
    match u
    case Snapshot(elements, sequenceNo) => s.IngestSnapshot(elements, sequenceNo)
    case Patch(elements, operation, sequenceNo) => s.IngestPatch(elements, operation, sequenceNo)
  }

  /** The state after the updates `us`, delivered in this order. */
  function Run(us: seq<Update>): State {
    if us == [] then INITIAL else Ingest(Run(us[..|us| - 1]), us[|us| - 1])
  }

  function Max(a: int, b: int): int {
    if a < b then b else a
  }

  /** The highest snapshot number, or 0. */
  function Base(us: seq<Update>): int {
    if us == [] then 0
    else
      var u, rest := us[|us| - 1], Base(us[..|us| - 1]);
      if u.Snapshot? then Max(rest, u.sequenceNo) else rest
  }

  /** The highest number of a patch on `e`, or 0. */
  function Top(us: seq<Update>, e: Element): int {
    if us == [] then 0
    else
      var u, rest := us[|us| - 1], Top(us[..|us| - 1], e);
      if u.Patch? && e in u.elements then Max(rest, u.sequenceNo) else rest
  }

  ghost predicate Patched(us: seq<Update>, e: Element, operation: Operation, sequenceNo: int) {
    exists u | u in us :: u.Patch? && e in u.elements && u.operation == operation && u.sequenceNo == sequenceNo
  }

  ghost predicate Snapshotted(us: seq<Update>, e: Element, sequenceNo: int) {
    exists u | u in us :: u.Snapshot? && e in u.elements && u.sequenceNo == sequenceNo
  }

  /** A reason for `e` to be in the set: a highest patch above all snapshots, else a highest snapshot. */
  ghost predicate ReasonIn(us: seq<Update>, e: Element) {
    if Top(us, e) > Base(us) then Patched(us, e, Added, Top(us, e))
    else Base(us) > 0 && Snapshotted(us, e, Base(us))
  }

  /** They give a reason for `e` not to be in the set. */
  ghost predicate ReasonOut(us: seq<Update>, e: Element) {
    if Top(us, e) > Base(us) then Patched(us, e, Removed, Top(us, e))
    else Base(us) > 0 ==> exists u | u in us :: u.Snapshot? && e !in u.elements && u.sequenceNo == Base(us)
  }

  /** No element has a reason both ways: no contradiction at the number that decides it. */
  ghost predicate Decided(us: seq<Update>) {
    forall e :: !(ReasonIn(us, e) && ReasonOut(us, e))
  }

  /** An element without a patch takes any patch with a positive number. */
  lemma UnknownIsNonStale(s: State, elements: set<Element>, sequenceNo: int, e: Element)
    requires e !in s.lastSequenceNoByElement
    ensures e in s.NonStale(elements, sequenceNo) <==> e in elements && sequenceNo > 0
  {
  }

  lemma {:induction false} BaseIsHighest(us: seq<Update>)
    ensures Base(us) >= 0
    ensures forall u | u in us && u.Snapshot? :: u.sequenceNo <= Base(us)
    ensures Base(us) > 0 ==> exists u | u in us :: u.Snapshot? && u.sequenceNo == Base(us)
  {
    if us != [] {
      var rest, u := us[..|us| - 1], us[|us| - 1];
      BaseIsHighest(rest);
      assert us == rest + [u];
      assert forall x | x in rest :: x in us;
    }
  }

  lemma {:induction false} TopIsHighest(us: seq<Update>, e: Element)
    ensures Top(us, e) >= 0
    ensures forall u | u in us && u.Patch? && e in u.elements :: u.sequenceNo <= Top(us, e)
    ensures Top(us, e) > 0 ==> Patched(us, e, Added, Top(us, e)) || Patched(us, e, Removed, Top(us, e))
  {
    if us != [] {
      var rest, u := us[..|us| - 1], us[|us| - 1];
      TopIsHighest(rest, e);
      assert us == rest + [u];
      assert forall x | x in rest :: x in us;
    }
  }

  /** What every run keeps: an element is in the state, or not, for a reason. */
  ghost predicate Inv(us: seq<Update>, s: State) {
    && s.lastSnapshotSequenceNo == Base(us)
    && (forall e :: e in s.lastSequenceNoByElement <==> Top(us, e) > Base(us))
    && (forall e | e in s.lastSequenceNoByElement :: s.lastSequenceNoByElement[e] == Top(us, e))
    && (forall e :: if e in s.state then ReasonIn(us, e) else ReasonOut(us, e))
  }

  lemma SnapshotKeeps(us: seq<Update>, s: State, u: Update)
    requires Inv(us, s) && u.Snapshot?
    ensures Inv(us + [u], Ingest(s, u))
  {
    var vs, t := us + [u], Ingest(s, u);
    assert vs[..|vs| - 1] == us;
    BaseIsHighest(us);
    assert forall x :: x in vs <==> x in us || x == u;
    forall e ensures Top(vs, e) == Top(us, e) {
    }
    forall e ensures if e in t.state then ReasonIn(vs, e) else ReasonOut(vs, e) {
      TopIsHighest(us, e);
      assert u in vs;
      assert e in s.state ==> ReasonIn(us, e);
      assert e !in s.state ==> ReasonOut(us, e);
    }
  }

  lemma PatchKeeps(us: seq<Update>, s: State, u: Update)
    requires Inv(us, s) && u.Patch?
    ensures Inv(us + [u], Ingest(s, u))
  {
    var vs, t := us + [u], Ingest(s, u);
    assert vs[..|vs| - 1] == us;
    BaseIsHighest(us);
    assert forall x :: x in vs <==> x in us || x == u;
    forall e
      ensures if e in t.state then ReasonIn(vs, e) else ReasonOut(vs, e)
      ensures e in t.lastSequenceNoByElement <==> Top(vs, e) > Base(vs)
      ensures e in t.lastSequenceNoByElement ==> t.lastSequenceNoByElement[e] == Top(vs, e)
    {
      PatchKeepsElement(us, s, u, e);
    }
  }

  lemma PatchKeepsElement(us: seq<Update>, s: State, u: Update, e: Element)
    requires Inv(us, s) && u.Patch?
    ensures var vs, t := us + [u], Ingest(s, u);
      && (if e in t.state then ReasonIn(vs, e) else ReasonOut(vs, e))
      && (e in t.lastSequenceNoByElement <==> Top(vs, e) > Base(vs))
      && (e in t.lastSequenceNoByElement ==> t.lastSequenceNoByElement[e] == Top(vs, e))
  {
    var vs, t := us + [u], Ingest(s, u);
    assert vs[..|vs| - 1] == us;
    BaseIsHighest(us);
    TopIsHighest(us, e);
    assert forall x :: x in vs <==> x in us || x == u;
    assert u in vs;
    assert e in s.state ==> ReasonIn(us, e);
    assert e !in s.state ==> ReasonOut(us, e);
  }

  lemma {:induction false} RunHasReasons(us: seq<Update>)
    ensures Inv(us, Run(us))
  {
    if us != [] {
      var rest, u := us[..|us| - 1], us[|us| - 1];
      assert us == rest + [u];
      RunHasReasons(rest);
      if u.Snapshot? {
        SnapshotKeeps(rest, Run(rest), u);
      } else {
        PatchKeeps(rest, Run(rest), u);
      }
    }
  }

  /** Where no element has a reason both ways, the state is what the updates as a set say. */
  lemma RunIsMembership(us: seq<Update>)
    requires Decided(us)
    ensures forall e :: e in Run(us).state <==> ReasonIn(us, e)
  {
    RunHasReasons(us);
    forall e ensures e in Run(us).state <==> ReasonIn(us, e) {
      assert e in Run(us).state ==> ReasonIn(us, e);
      assert e !in Run(us).state ==> ReasonOut(us, e);
    }
  }

  /** The same updates, repetitions and order aside. */
  ghost predicate SameUpdates(us: seq<Update>, vs: seq<Update>) {
    forall u :: u in us <==> u in vs
  }

  lemma SameReasons(us: seq<Update>, vs: seq<Update>)
    requires SameUpdates(us, vs)
    ensures Base(us) == Base(vs)
    ensures forall e :: Top(us, e) == Top(vs, e)
    ensures forall e :: (ReasonIn(us, e) <==> ReasonIn(vs, e)) && (ReasonOut(us, e) <==> ReasonOut(vs, e))
  {
    BaseIsHighest(us);
    BaseIsHighest(vs);
    forall e
      ensures Top(us, e) == Top(vs, e)
      ensures (ReasonIn(us, e) <==> ReasonIn(vs, e)) && (ReasonOut(us, e) <==> ReasonOut(vs, e))
    {
      TopIsHighest(us, e);
      TopIsHighest(vs, e);
    }
  }

  lemma DecidedConverges(us: seq<Update>, vs: seq<Update>)
    requires Decided(us) && SameUpdates(us, vs)
    ensures Run(us) == Run(vs)
  {
    RunHasReasons(us);
    RunHasReasons(vs);
    SameReasons(us, vs);
    assert Run(us).lastSequenceNoByElement == Run(vs).lastSequenceNoByElement;
    forall e ensures e in Run(us).state <==> e in Run(vs).state {
      assert if e in Run(us).state then ReasonIn(us, e) else ReasonOut(us, e);
      assert if e in Run(vs).state then ReasonIn(vs, e) else ReasonOut(vs, e);
    }
  }

  /** A patch that comes first decides its element, unless something newer comes. */
  lemma {:induction false} FirstPatchHolds(u: Update, us: seq<Update>, e: Element)
    requires u.Patch? && e in u.elements && u.sequenceNo > 0
    requires forall x | x in us && x.Snapshot? :: x.sequenceNo < u.sequenceNo
    requires forall x | x in us && x.Patch? && e in x.elements :: x.sequenceNo <= u.sequenceNo
    ensures var t := Run([u] + us);
      && t.lastSnapshotSequenceNo < u.sequenceNo
      && e in t.lastSequenceNoByElement && t.lastSequenceNoByElement[e] == u.sequenceNo
      && (e in t.state <==> u.operation == Added)
  {
    var vs := [u] + us;
    if us == [] {
      assert vs == [u] && vs[..0] == [];
    } else {
      var rest, x := us[..|us| - 1], us[|us| - 1];
      assert us == rest + [x];
      assert vs[..|vs| - 1] == [u] + rest;
      FirstPatchHolds(u, rest, e);
    }
  }

  /** So does a snapshot that comes first. */
  lemma {:induction false} FirstSnapshotHolds(u: Update, us: seq<Update>, e: Element)
    requires u.Snapshot? && u.sequenceNo > 0
    requires forall x | x in us && x.Snapshot? :: x.sequenceNo <= u.sequenceNo
    requires forall x | x in us && x.Patch? && e in x.elements :: x.sequenceNo <= u.sequenceNo
    ensures var t := Run([u] + us);
      && t.lastSnapshotSequenceNo == u.sequenceNo && e !in t.lastSequenceNoByElement
      && (e in t.state <==> e in u.elements)
  {
    var vs := [u] + us;
    if us == [] {
      assert vs == [u] && vs[..0] == [];
    } else {
      var rest, x := us[..|us| - 1], us[|us| - 1];
      assert us == rest + [x];
      assert vs[..|vs| - 1] == [u] + rest;
      FirstSnapshotHolds(u, rest, e);
    }
  }

  /** The same updates in another order. */
  ghost predicate Permutes(us: seq<Update>, vs: seq<Update>) {
    multiset(us) == multiset(vs)
  }

  lemma PermutesSame(us: seq<Update>, vs: seq<Update>)
    requires Permutes(us, vs)
    ensures SameUpdates(us, vs)
  {
    assert forall u :: u in us <==> u in multiset(us);
    assert forall u :: u in vs <==> u in multiset(vs);
  }

  /** One of the updates delivered before all others. */
  lemma DeliverFirst(us: seq<Update>, u: Update) returns (rest: seq<Update>)
    requires u in us
    ensures Permutes(us, [u] + rest) && forall x | x in rest :: x in us
  {
    var k :| 0 <= k < |us| && us[k] == u;
    rest := us[..k] + us[k + 1..];
    assert us == us[..k] + [u] + us[k + 1..];
  }

  /** With reasons both ways, the order decides: one order ends with `e` in the set, another one without. */
  lemma UndecidedDiverges(us: seq<Update>, e: Element) returns (vs: seq<Update>, ws: seq<Update>)
    requires ReasonIn(us, e) && ReasonOut(us, e)
    ensures Permutes(us, vs) && Permutes(us, ws)
    ensures e in Run(vs).state && e !in Run(ws).state
  {
    BaseIsHighest(us);
    TopIsHighest(us, e);
    if Top(us, e) > Base(us) {
      var a :| a in us && a.Patch? && e in a.elements && a.operation == Added && a.sequenceNo == Top(us, e);
      var r :| r in us && r.Patch? && e in r.elements && r.operation == Removed && r.sequenceNo == Top(us, e);
      var afterA := DeliverFirst(us, a);
      var afterR := DeliverFirst(us, r);
      vs, ws := [a] + afterA, [r] + afterR;
      FirstPatchHolds(a, afterA, e);
      FirstPatchHolds(r, afterR, e);
    } else {
      var a :| a in us && a.Snapshot? && e in a.elements && a.sequenceNo == Base(us);
      var r :| r in us && r.Snapshot? && e !in r.elements && r.sequenceNo == Base(us);
      var afterA := DeliverFirst(us, a);
      var afterR := DeliverFirst(us, r);
      vs, ws := [a] + afterA, [r] + afterR;
      FirstSnapshotHolds(a, afterA, e);
      FirstSnapshotHolds(r, afterR, e);
    }
  }

  /**
   All orders of the same updates end in the same state, if and only if no element
   has a reason both ways; and so do all deliveries that repeat some of them.
   */
  lemma Convergence(us: seq<Update>)
    ensures (forall vs, ws | Permutes(us, vs) && Permutes(us, ws) :: Run(vs) == Run(ws)) <==> Decided(us)
    ensures (forall vs, ws | SameUpdates(us, vs) && SameUpdates(us, ws) :: Run(vs) == Run(ws)) <==> Decided(us)
  {
    hide Permutes, SameUpdates, Run, ReasonIn, ReasonOut;
    if Decided(us) {
      forall vs, ws | SameUpdates(us, vs) && SameUpdates(us, ws) ensures Run(vs) == Run(ws) {
        DecidedConverges(us, vs);
        DecidedConverges(us, ws);
      }
      forall vs, ws | Permutes(us, vs) && Permutes(us, ws) ensures Run(vs) == Run(ws) {
        PermutesSame(us, vs);
        PermutesSame(us, ws);
      }
    } else {
      var e :| ReasonIn(us, e) && ReasonOut(us, e);
      var vs, ws := UndecidedDiverges(us, e);
      PermutesSame(us, vs);
      PermutesSame(us, ws);
    }
  }

  /** No two updates contradict each other at one (positive) number. */
  ghost predicate Consistent(us: seq<Update>) {
    && (forall u, v | u in us && v in us && u.Snapshot? && v.Snapshot? && u.sequenceNo == v.sequenceNo > 0 ::
          u.elements == v.elements)
    && (forall u, v | u in us && v in us && u.Patch? && v.Patch? && u.operation != v.operation
          && u.sequenceNo == v.sequenceNo > 0 :: u.elements !! v.elements)
  }

  /** Updates without contradictions converge. */
  lemma ConsistentConverges(us: seq<Update>, vs: seq<Update>)
    requires Consistent(us) && SameUpdates(us, vs)
    ensures Run(us) == Run(vs)
  {
    BaseIsHighest(us);
    forall e ensures !(ReasonIn(us, e) && ReasonOut(us, e)) {
    }
    DecidedConverges(us, vs);
  }

  /** For instance, the first of two contradicting patches wins. */
  lemma ConflictsDiverge()
    ensures var a, r := Patch({"s"}, Added, 1), Patch({"s"}, Removed, 1);
      Run([a, r]).state == {"s"} && Run([r, a]).state == {}
  {
    var a, r := Patch({"s"}, Added, 1), Patch({"s"}, Removed, 1);
    assert [a, r][..1] == [a] && [r, a][..1] == [r] && [a][..0] == [] && [r][..0] == [];
    assert Run([a]) == Ingest(INITIAL, a);
    assert Run([r]) == Ingest(INITIAL, r);
    assert "s" in Run([a]).lastSequenceNoByElement && "s" in Run([r]).lastSequenceNoByElement;
  }
}
