/** Whether an aggregator that has ended its output can issue another query. */
module QueryEnd {
  import opened MessageRefs
  import Links
  import AggregationLists
  import Aggregators
  import Propagators
  import opened QueryProtocol
  import opened QueryTermination

  /** The references that nodes can report. */
  ghost function Sources(c: Config): set<MessageRef> {
    (set r | r in c.primary) + set n, r | n in c.foreign && r in c.foreign[n] :: r
  }

  /** All references the aggregator knows of are from `base`. */
  ghost predicate From(a: Aggregators.State, base: set<MessageRef>) {
    && (forall r | a.list.Lists(r) :: r in base)
    && (a.list.threshold.Some? ==> a.list.threshold.value in base)
  }

  ghost predicate AllFrom(c: Config, s: State) {
    && From(s.agg, Sources(c))
    && forall k | 0 <= k < |s.storing| :: s.storing[k] <= Sources(c)
  }

  predicate Brings(call: Aggregators.Call, base: set<MessageRef>) {
    match call
    case PrimaryRow(r) => r in base
    case ForeignResponse(_, refs, _) => forall r | r in refs :: r in base
    case PropagatedRow(r) => r in base
    case _ => true
  }

  lemma BeforeCheckFrom(a: Aggregators.State, call: Aggregators.Call, base: set<MessageRef>)
    requires Aggregators.Inv(a) && Aggregators.Allows(a, call) && From(a, base) && Brings(call, base)
    ensures From(Aggregators.BeforeCheck(a, call), base)
  {
    hide Aggregators.PushForeign, AggregationLists.State.Push, Aggregators.State.DoCheck;
    match call
    case PrimaryRow(r) => AggregationLists.PushRefines(a.list, r, true);
    case ForeignResponse(_, refs, _) => Aggregators.PushForeignRefines(a.list, refs);
    case PropagatedRow(r) => AggregationLists.PushRefines(a.list, r, true);
    case _ =>
  }

  lemma CallStaysFrom(a: Aggregators.State, call: Aggregators.Call, base: set<MessageRef>)
    requires Aggregators.Inv(a) && Aggregators.Allows(a, call) && From(a, base) && Brings(call, base)
    ensures From(Aggregators.After(a, call), base)
  {
    hide Aggregators.PushForeign, AggregationLists.State.Push, Aggregators.State.DoCheck, Brings;
    Aggregators.BeforeCheckKeeps(a, call);
    BeforeCheckFrom(a, call, base);
    if !call.PropagatedRow? {
      Aggregators.CheckMoves(Aggregators.BeforeCheck(a, call));
    }
  }

  lemma AnswerBrings(c: Config, s: State, n: Node)
    requires NodesInv(c, s) && n in s.nodes && s.nodes[n].answer.queue != []
    ensures n in c.foreign && forall r | r in s.nodes[n].answer.queue[0].refs :: r in c.foreign[n]
  {
    hide NodeSeen, Propagators.Inv, Propagators.Settled;
    NodeIsLocal(c, s, n);
    var v, f := s.nodes[n], c.foreign[n];
    Links.ReceiveKeeps(v.answer, f, v.answered, v.answeredFinal);
  }

  lemma PropagationBrings(c: Config, s: State, n: Node)
    requires NodesInv(c, s) && n in s.nodes && s.nodes[n].propagation.queue != []
    ensures n in c.foreign && forall r | r in s.nodes[n].propagation.queue[0].refs :: r in c.foreign[n]
  {
    hide NodeSeen, NodeLocal;
    NodeIsLocal(c, s, n);
    PropagatedRows(c, s, c.foreign[n], s.nodes[n]);
  }

  /** What a step brings to the aggregator comes from the nodes. */
  lemma StepBrings(c: Config, s: State, step: Step)
    requires QueryProtocol.Inv(c, s) && AllFrom(c, s) && Enabled(c, s, step) && CallOf(c, s, step).Some?
    ensures Brings(CallOf(c, s, step).value, Sources(c))
  {
    hide AggInv, NodesInv, Aggregators.Settled, From;
    match step
    case PrimaryRow => assert c.primary[s.pushed] in c.primary;
    case DeliverAnswer(n) => AnswerBrings(c, s, n);
    case StoreRow(k, r) => assert r in s.storing[k];
    case _ =>
  }

  lemma StoringStaysFrom(c: Config, s: State, step: Step)
    requires NodesInv(c, s) && Enabled(c, s, step)
    requires forall k | 0 <= k < |s.storing| :: s.storing[k] <= Sources(c)
    ensures var t := Next(c, s, step); forall k | 0 <= k < |t.storing| :: t.storing[k] <= Sources(c)
  {
    hide NodesInv, Sources;
    if step.DeliverPropagation? {
      PropagationBrings(c, s, step.n);
      PropagationNext(c, s, step.n);
      NodeIsSource(c, step.n);
    }
  }

  lemma NodeIsSource(c: Config, n: Node)
    requires n in c.foreign
    ensures forall r | r in c.foreign[n] :: r in Sources(c)
  {
  }

  lemma StepStaysFrom(c: Config, s: State, step: Step)
    requires QueryProtocol.Inv(c, s) && AllTidy(c, s) && AllFrom(c, s) && Enabled(c, s, step)
    ensures AllFrom(c, Next(c, s, step))
  {
    hide AggInv, NodesInv, Aggregators.Settled, AllTidy, From, Next, Sources, Brings, Aggregators.After;
    StoringStaysFrom(c, s, step);
    CallIsAggStep(c, s, step);
    if CallOf(c, s, step).Some? {
      StepBrings(c, s, step);
      CallAllowed(c, s, step);
      CallStaysFrom(s.agg, CallOf(c, s, step).value, Sources(c));
    }
  }

  lemma {:induction false} RunStaysFrom(c: Config, s: State, steps: seq<Step>)
    requires QueryProtocol.Inv(c, s) && AllTidy(c, s) && AllFrom(c, s) && Legal(c, s, steps)
    ensures AllFrom(c, Run(c, s, steps))
    decreases |steps|
  {
    hide QueryProtocol.Inv, AllTidy, AllFrom, Next, Enabled, Work;
    if steps != [] {
      StepKeeps(c, s, steps[0]);
      StepAdvances(c, s, steps[0]);
      StepStaysFrom(c, s, steps[0]);
      RunStaysFrom(c, Next(c, s, steps[0]), steps[1..]);
    }
  }

  // ---------- Staying ended ----------

  /** A reference no later than one of the primary or of an expected node. */
  ghost predicate IsCovered(c: Config, r: MessageRef) {
    || (exists x | x in c.primary :: r.AtMost(x))
    || (exists n, x | n in c.expected && n in c.foreign && x in c.foreign[n] :: r.AtMost(x))
  }

  /** No node that is not expected has a reference after all that the query waits for. */
  ghost predicate Covered(c: Config) {
    forall n, r | n in c.foreign && n !in c.expected && r in c.foreign[n] :: IsCovered(c, r)
  }

  /** An ended aggregator with nothing to do. */
  predicate AtRest(a: Aggregators.State) {
    a.ended && a.list.items == [] && a.open == {}
  }

  lemma DeliveredIsDropped(a: Aggregators.State, r: MessageRef)
    requires Aggregators.Inv(a) && Aggregators.Delivered(a.queries, r)
    ensures a.list.Drops(r)
  {
  }

  /** Once ended, everything that can still be reported is dropped. */
  lemma SourcesAreDropped(c: Config, s: State, r: MessageRef)
    requires AggInv(c, s) && s.agg.ended && Covered(c) && c.expected <= c.foreign.Keys && r in Sources(c)
    ensures s.agg.list.Drops(r)
  {
    hide Frontier;
    if r in c.primary {
      DeliveredIsDropped(s.agg, r);
    } else {
      var n :| n in c.foreign && r in c.foreign[n];
      if n in c.expected {
        DeliveredIsDropped(s.agg, r);
      } else {
        assert IsCovered(c, r);
        var x :| r.AtMost(x) && Aggregators.Delivered(s.agg.queries, x);
        DeliveredIsDropped(s.agg, x);
        EarlierIsDropped(s.agg.list, r, x);
      }
    }
  }

  lemma EarlierIsDropped(list: AggregationLists.State, r: MessageRef, x: MessageRef)
    requires list.Drops(x) && r.AtMost(x)
    ensures list.Drops(r)
  {
  }

  /** A call that brings only dropped references leaves an aggregator at rest. */
  lemma CallStaysAtRest(a: Aggregators.State, call: Aggregators.Call, base: set<MessageRef>)
    requires Aggregators.Inv(a) && AtRest(a) && Brings(call, base) && forall r | r in base :: a.list.Drops(r)
    ensures var b := Aggregators.After(a, call); AtRest(b) && b.queries == a.queries
  {
    match call
    case ForeignResponse(_, refs, _) => DroppedForeign(a.list, refs);
    case _ =>
  }

  lemma {:induction false} DroppedForeign(list: AggregationLists.State, refs: seq<MessageRef>)
    requires forall r | r in refs :: list.Drops(r)
    ensures Aggregators.PushForeign(list, refs) == list
    decreases |refs|
  {
    if refs != [] {
      assert refs[0] in refs;
      DroppedForeign(list, refs[1..]);
    }
  }

  /** The call that ends the output leaves nothing to do. */
  lemma EndIsAtRest(a: Aggregators.State, call: Aggregators.Call)
    requires Aggregators.Inv(a) && Aggregators.Allows(a, call) && !a.ended && Aggregators.After(a, call).ended
    ensures AtRest(Aggregators.After(a, call))
  {
    hide Aggregators.PushForeign, AggregationLists.State.Push, Aggregators.Inv, Aggregators.State.DoCheck;
    Aggregators.BeforeCheckKeeps(a, call);
    if !call.PropagatedRow? {
      Aggregators.CheckKeeps(Aggregators.BeforeCheck(a, call));
    }
  }

  ghost predicate RestsWhenEnded(a: Aggregators.State) {
    a.ended ==> AtRest(a)
  }

  lemma StepRests(c: Config, s: State, step: Step)
    requires QueryProtocol.Inv(c, s) && AllTidy(c, s) && AllFrom(c, s) && Covered(c) && RestsWhenEnded(s.agg)
    requires Enabled(c, s, step)
    ensures var t := Next(c, s, step);
      RestsWhenEnded(t.agg) && (s.agg.ended ==> t.agg.ended && t.agg.queries == s.agg.queries)
  {
    hide NodesInv, AggInv, Aggregators.Settled, AllTidy, From, Next, Sources, Brings;
    hide Aggregators.After, Covered, AtRest;
    CallIsAggStep(c, s, step);
    if CallOf(c, s, step).Some? {
      var call := CallOf(c, s, step).value;
      StepBrings(c, s, step);
      CallAllowed(c, s, step);
      if s.agg.ended {
        forall r | r in Sources(c) ensures s.agg.list.Drops(r) {
          SourcesAreDropped(c, s, r);
        }
        CallStaysAtRest(s.agg, call, Sources(c));
        RestIsEnded(Aggregators.After(s.agg, call));
      } else if Aggregators.After(s.agg, call).ended {
        EndIsAtRest(s.agg, call);
      }
    }
  }

  lemma RestIsEnded(a: Aggregators.State)
    requires AtRest(a)
    ensures a.ended
  {
  }

  lemma {:induction false} RunRests(c: Config, s: State, steps: seq<Step>)
    requires QueryProtocol.Inv(c, s) && AllTidy(c, s) && AllFrom(c, s) && Covered(c) && RestsWhenEnded(s.agg)
    requires Legal(c, s, steps)
    ensures var t := Run(c, s, steps);
      RestsWhenEnded(t.agg) && (s.agg.ended ==> t.agg.ended && t.agg.queries == s.agg.queries)
    decreases |steps|
  {
    hide QueryProtocol.Inv, AllTidy, AllFrom, Covered, RestsWhenEnded, Next, Enabled, Work;
    if steps != [] {
      StepKeeps(c, s, steps[0]);
      StepAdvances(c, s, steps[0]);
      StepStaysFrom(c, s, steps[0]);
      StepRests(c, s, steps[0]);
      RunRests(c, Next(c, s, steps[0]), steps[1..]);
    }
  }

  lemma InitFrom(c: Config)
    requires c.Valid()
    ensures AllFrom(c, Init(c)) && RestsWhenEnded(Init(c).agg)
  {
  }

  /** What every run from the start keeps. */
  lemma Reached(c: Config, steps: seq<Step>)
    requires c.Valid() && Legal(c, Init(c), steps)
    ensures var s := Run(c, Init(c), steps); QueryProtocol.Inv(c, s) && AllTidy(c, s) && AllFrom(c, s)
  {
    hide QueryProtocol.Inv, AllTidy, AllFrom, Init, Work;
    InitInv(c);
    InitTidy(c);
    InitFrom(c);
    RunAdvances(c, Init(c), steps);
    RunStaysFrom(c, Init(c), steps);
  }

  /** If all nodes' references are covered, an ended aggregator stays ended and issues no further query. */
  lemma EndIsFinal(c: Config, before: seq<Step>, after: seq<Step>)
    requires c.Valid() && Covered(c)
    requires Legal(c, Init(c), before) && Legal(c, Run(c, Init(c), before), after)
    requires Run(c, Init(c), before).agg.ended
    ensures var s := Run(c, Init(c), before); var t := Run(c, s, after); t.agg.ended && t.agg.queries == s.agg.queries
  {
    hide QueryProtocol.Inv, AllTidy, AllFrom, Covered, Init, RestsWhenEnded, Work;
    InitInv(c);
    InitTidy(c);
    InitFrom(c);
    Reached(c, before);
    RunRests(c, Init(c), before);
    RunRests(c, Run(c, Init(c), before), after);
  }

  /** With every node expected, all references are covered. */
  lemma AllExpectedIsCovered(c: Config)
    requires c.Valid() && c.expected == c.foreign.Keys
    ensures Covered(c)
  {
  }

  // ---------- An aggregator that is reopened ----------

  /** The same query without the nodes that are not expected. */
  function OnlyExpected(c: Config): Config {
    c.(foreign := map n | n in c.foreign && n in c.expected :: c.foreign[n])
  }

  /** `s` is `t`, apart from nodes that are not expected. */
  ghost predicate Simulates(c: Config, t: State, s: State) {
    && s == t.(nodes := s.nodes)
    && t.nodes.Keys <= s.nodes.Keys && forall n | n in t.nodes :: s.nodes[n] == t.nodes[n]
  }

  lemma NodeStepSimulates(c: Config, t: State, s: State, step: Step)
    requires Simulates(c, t, s) && Enabled(OnlyExpected(c), t, step)
    requires CallOf(OnlyExpected(c), t, step).None? && !step.Announce? && !step.DeliverPropagation?
    ensures Enabled(c, s, step) && Simulates(c, Next(OnlyExpected(c), t, step), Next(c, s, step))
  {
    hide Propagators.State.OnPrimaryResponse, Propagators.State.OnForeignRow, Propagators.State.OnForeignEnd,
         Propagators.State.OnByRefRow, Propagators.State.OnByRefEnd, Propagators.MayEnd, Cuts;
  }

  lemma OtherStepSimulates(c: Config, t: State, s: State, step: Step)
    requires Simulates(c, t, s) && Enabled(OnlyExpected(c), t, step)
    requires CallOf(OnlyExpected(c), t, step).Some? || step.Announce? || step.DeliverPropagation?
    ensures Enabled(c, s, step) && Simulates(c, Next(OnlyExpected(c), t, step), Next(c, s, step))
  {
    hide Aggregators.State.DoCheck, Aggregators.State.OnPrimaryRow, Aggregators.State.OnStreamEnd,
         Aggregators.State.OnForeignResponse, Aggregators.State.OnPropagatedRow, Cuts, NextNode;
  }

  lemma StepSimulates(c: Config, t: State, s: State, step: Step)
    requires Simulates(c, t, s) && Enabled(OnlyExpected(c), t, step)
    ensures Enabled(c, s, step) && Simulates(c, Next(OnlyExpected(c), t, step), Next(c, s, step))
  {
    hide Simulates, Enabled, Next, CallOf;
    if CallOf(OnlyExpected(c), t, step).None? && !step.Announce? && !step.DeliverPropagation? {
      NodeStepSimulates(c, t, s, step);
    } else {
      OtherStepSimulates(c, t, s, step);
    }
  }

  lemma {:induction false} RunSimulates(c: Config, t: State, s: State, steps: seq<Step>)
    requires Simulates(c, t, s) && Legal(OnlyExpected(c), t, steps)
    ensures Legal(c, s, steps) && Simulates(c, Run(OnlyExpected(c), t, steps), Run(c, s, steps))
    decreases |steps|
  {
    hide Simulates, Enabled, Next;
    if steps != [] {
      StepSimulates(c, t, s, steps[0]);
      RunSimulates(c, Next(OnlyExpected(c), t, steps[0]), Next(c, s, steps[0]), steps[1..]);
    }
  }

  lemma {:induction false} RunSplit(c: Config, s: State, a: seq<Step>, b: seq<Step>)
    requires Legal(c, s, a) && Legal(c, s, a + b)
    ensures Legal(c, Run(c, s, a), b) && Run(c, s, a + b) == Run(c, Run(c, s, a), b)
    decreases |a|
  {
    if a == [] {
      assert a + b == b;
    } else {
      assert (a + b)[1..] == a[1..] + b;
      RunSplit(c, Next(c, s, a[0]), a[1..], b);
    }
  }

  /** When nothing more can happen, a node's references that the primary lacks have been dropped. */
  lemma StuckIsDropped(c: Config, s: State, n: Node, r: MessageRef)
    requires QueryProtocol.Inv(c, s) && Stuck(c, s) && n in s.nodes && n in c.foreign
    requires r in c.foreign[n] && r !in c.primary && s.agg.list.items == [] && s.storing == []
    ensures s.agg.list.Drops(r)
  {
    hide AggInv, NodeLocal, Aggregators.Settled, StuckBut;
    StuckNode(c, s, {}, n);
    var v := s.nodes[n];
    assert NodeSeen(s.agg, s.storing, n in c.expected, c.foreign[n], n, v);
    var k :| 0 <= k < v.propagation.got && v.prop.written[k] == r;
    assert Arrived(s.agg, s.storing, v.prop.written[k]);
  }

  /** A reference that is not covered is not dropped by what expected nodes report. */
  lemma UncoveredIsNotDropped(c: Config, a: Aggregators.State, r: MessageRef)
    requires From(a, Sources(OnlyExpected(c))) && !IsCovered(c, r)
    ensures !a.list.Drops(r)
  {
  }

  lemma SameQueriesSameThreshold(a: Aggregators.State, b: Aggregators.State)
    requires Aggregators.Inv(a) && Aggregators.Inv(b) && a.queries == b.queries
    ensures a.list.threshold == b.list.threshold
  {
  }

  /** The aggregator can end before a node that it does not expect has answered. */
  lemma EndsWithoutUnexpected(c: Config) returns (steps: seq<Step>)
    requires c.Valid()
    ensures Legal(c, Init(c), steps)
    ensures var a := Run(c, Init(c), steps).agg; a.ended && From(a, Sources(OnlyExpected(c)))
  {
    hide Enabled, Next, QueryProtocol.Inv, AllTidy, Complete, Stuck;
    var d := OnlyExpected(c);
    assert Legal(d, Init(d), []);
    steps := EveryRunCompletes(d, []);
    assert [] + steps == steps;
    RunSimulates(c, Init(d), Init(c), steps);
    Reached(d, steps);
  }

  /** With a reference that is not covered, some run ends the output and then issues another query. */
  lemma UncoveredReopens(c: Config) returns (before: seq<Step>, after: seq<Step>)
    requires c.Valid() && !Covered(c)
    ensures Legal(c, Init(c), before) && Legal(c, Run(c, Init(c), before), after)
    ensures var s := Run(c, Init(c), before); s.agg.ended && Run(c, s, after).agg.queries != s.agg.queries
  {
    hide Enabled, Next, Init, Legal, Run, AllTidy, AllFrom, From, Complete, Stuck, IsCovered, Sources;
    var n, r :| n in c.foreign && n !in c.expected && r in c.foreign[n] && !IsCovered(c, r);
    NotInPrimary(c, r);
    before := EndsWithoutUnexpected(c);
    after := EveryRunCompletes(c, before);
    RunSplit(c, Init(c), before, after);
    var s, t := Run(c, Init(c), before), Run(c, Init(c), before + after);
    Reached(c, before);
    Reached(c, before + after);
    NoDeadlock(c, before + after);
    StuckIsDropped(c, t, n, r);
    UncoveredIsNotDropped(c, s.agg, r);
    if s.agg.queries == t.agg.queries {
      AggregatorsAgree(c, s, t);
    }
  }

  lemma AggregatorsAgree(c: Config, s: State, t: State)
    requires QueryProtocol.Inv(c, s) && QueryProtocol.Inv(c, t) && s.agg.queries == t.agg.queries
    ensures s.agg.list.threshold == t.agg.list.threshold
  {
    hide NodesInv, Aggregators.Settled, Frontier, Complete;
    SameQueriesSameThreshold(s.agg, t.agg);
  }

  lemma NotInPrimary(c: Config, r: MessageRef)
    requires !IsCovered(c, r)
    ensures r !in c.primary
  {
  }

  /**
   An ended aggregator never issues another query, in any run, if and only if no
   node that is not expected has a reference after all others.
   */
  lemma EndIsFinalIff(c: Config)
    requires c.Valid()
    ensures Covered(c) <==>
      forall before, after | Legal(c, Init(c), before) && Legal(c, Run(c, Init(c), before), after) ::
        Run(c, Init(c), before).agg.ended ==>
          Run(c, Run(c, Init(c), before), after).agg.queries == Run(c, Init(c), before).agg.queries
  {
    hide Covered, Init, Legal, Run;
    if Covered(c) {
      forall before, after | Legal(c, Init(c), before) && Legal(c, Run(c, Init(c), before), after)
        && Run(c, Init(c), before).agg.ended
        ensures Run(c, Run(c, Init(c), before), after).agg.queries == Run(c, Init(c), before).agg.queries
      {
        EndIsFinal(c, before, after);
      }
    } else {
      var before, after := UncoveredReopens(c);
    }
  }
}
