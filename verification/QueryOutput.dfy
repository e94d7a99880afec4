/** What an ended aggregator has delivered beyond the results it waited for. */
module QueryOutput {
  import opened MessageRefs
  import AggregationLists
  import Aggregators
  import opened QueryProtocol
  import opened QueryTermination
  import opened QueryEnd

  // ---------- An upper bound ----------

  /** Ranges begin and end at references of `base`, and rows are from there or from `stored`. */
  ghost predicate DeliversFrom(a: Aggregators.State, base: set<MessageRef>, stored: set<MessageRef>) {
    && a.stored <= stored + base
    && (forall q | q in a.queries :: q.from in base && q.to in base && q.rows <= stored + base)
  }

  lemma CheckDeliversFrom(a: Aggregators.State, base: set<MessageRef>, stored: set<MessageRef>)
    requires Aggregators.Inv(a) && From(a, base) && DeliversFrom(a, base, stored)
    ensures DeliversFrom(a.DoCheck(), base, stored)
  {
    AggregationLists.ReadyRange(a.list);
    var t := a.DoCheck();
    forall q | q in t.queries ensures q.from in base && q.to in base && q.rows <= stored + base {
      if q !in a.queries {
        assert q == t.queries[|a.queries|];
      }
    }
  }

  lemma CallDeliversFrom(a: Aggregators.State, call: Aggregators.Call, base: set<MessageRef>, stored: set<MessageRef>)
    requires Aggregators.Inv(a) && Aggregators.Allows(a, call) && From(a, base) && Brings(call, base)
    requires DeliversFrom(a, base, stored)
    ensures DeliversFrom(Aggregators.After(a, call), base, stored)
  {
    hide Aggregators.PushForeign, AggregationLists.State.Push, Aggregators.State.DoCheck, Aggregators.Inv;
    var b := Aggregators.BeforeCheck(a, call);
    Aggregators.BeforeCheckKeeps(a, call);
    BeforeCheckFrom(a, call, base);
    if !call.PropagatedRow? {
      CheckDeliversFrom(b, base, stored);
    }
  }

  lemma StepDeliversFrom(c: Config, s: State, step: Step)
    requires QueryProtocol.Inv(c, s) && AllTidy(c, s) && AllFrom(c, s) && Enabled(c, s, step)
    requires DeliversFrom(s.agg, Sources(c), c.stored)
    ensures DeliversFrom(Next(c, s, step).agg, Sources(c), c.stored)
  {
    hide AggInv, NodesInv, Aggregators.Settled, AllTidy, From, Next, Sources, Brings, Aggregators.After;
    hide DeliversFrom;
    CallIsAggStep(c, s, step);
    if CallOf(c, s, step).Some? {
      StepBrings(c, s, step);
      CallAllowed(c, s, step);
      CallDeliversFrom(s.agg, CallOf(c, s, step).value, Sources(c), c.stored);
    }
  }

  lemma {:induction false} RunDeliversFrom(c: Config, s: State, steps: seq<Step>)
    requires QueryProtocol.Inv(c, s) && AllTidy(c, s) && AllFrom(c, s) && Legal(c, s, steps)
    requires DeliversFrom(s.agg, Sources(c), c.stored)
    ensures DeliversFrom(Run(c, s, steps).agg, Sources(c), c.stored)
    decreases |steps|
  {
    hide QueryProtocol.Inv, AllTidy, AllFrom, Next, Enabled, Work, DeliversFrom;
    if steps != [] {
      StepKeeps(c, s, steps[0]);
      StepAdvances(c, s, steps[0]);
      StepStaysFrom(c, s, steps[0]);
      StepDeliversFrom(c, s, steps[0]);
      RunDeliversFrom(c, Next(c, s, steps[0]), steps[1..]);
    }
  }

  /** A stored row that no node reports, between two references that nodes do report. */
  ghost predicate IsGap(c: Config, r: MessageRef) {
    && r in c.stored && r !in Sources(c)
    && exists x, y :: x in Sources(c) && y in Sources(c) && x.Before(r) && r.Before(y)
  }

  /** In every run, what is delivered is a reference of some result, or a stored row between two of them. */
  lemma OutputIsBounded(c: Config, steps: seq<Step>, r: MessageRef)
    requires c.Valid() && Legal(c, Init(c), steps)
    requires Aggregators.Delivered(Run(c, Init(c), steps).agg.queries, r)
    ensures r in Sources(c) || IsGap(c, r)
  {
    hide QueryProtocol.Inv, AllTidy, AllFrom, Init, Work, Legal, Run, Sources;
    InitInv(c);
    InitTidy(c);
    InitFrom(c);
    InitDelivers(c);
    RunDeliversFrom(c, Init(c), steps);
    Reached(c, steps);
    var a := Run(c, Init(c), steps).agg;
    var q :| q in a.queries && r in q.rows;
    AggOfRun(c, Run(c, Init(c), steps));
    if r !in Sources(c) {
      assert q.from.AtMost(r) && r.AtMost(q.to);
      assert q.from.Before(r) && r.Before(q.to);
    }
  }

  lemma InitDelivers(c: Config)
    ensures DeliversFrom(Init(c).agg, Sources(c), c.stored)
  {
  }

  lemma AggOfRun(c: Config, s: State)
    requires QueryProtocol.Inv(c, s)
    ensures Aggregators.Inv(s.agg) && c.stored <= s.agg.stored
  {
  }

  // ---------- Every gap can be delivered ----------

  ghost predicate Withholds(steps: seq<Step>, n: Node) {
    forall step | step in steps :: !(step.DeliverAnswer? && step.n == n)
  }

  /** A run goes on until nothing is left to do but to deliver answers of `n`. */
  lemma HoldBack(c: Config, steps: seq<Step>, n: Node) returns (all: seq<Step>)
    requires c.Valid() && Legal(c, Init(c), steps) && Withholds(steps, n)
    ensures Legal(c, Init(c), all) && Withholds(all, n) && StuckBut(c, Run(c, Init(c), all), {n})
    decreases Bound(c) - |steps|
  {
    hide QueryProtocol.Inv, Next, Enabled, Bound, Legal, Run, Init;
    var s := Run(c, Init(c), steps);
    if StuckBut(c, s, {n}) {
      all := steps;
    } else {
      var step :| Enabled(c, s, step) && !(step.DeliverAnswer? && step.n in {n});
      LegalAppend(c, Init(c), steps, step);
      RunsAreFinite(c, steps + [step]);
      all := HoldBack(c, steps + [step], n);
    }
  }

  ghost predicate Unanswered(s: State, n: Node) {
    n in s.nodes && s.nodes[n].answer.got == 0 && !s.nodes[n].answer.gotFinal
  }

  lemma StepWithholds(c: Config, s: State, step: Step, n: Node)
    requires Enabled(c, s, step) && !(step.DeliverAnswer? && step.n == n) && Unanswered(s, n)
    ensures Unanswered(Next(c, s, step), n)
  {
    hide Aggregators.State.DoCheck, Aggregators.State.OnForeignResponse, Aggregators.State.OnPrimaryRow;
    hide Aggregators.State.OnStreamEnd;
    match step
    case Announce(_, _) =>
    case _ =>
  }

  lemma {:induction false} RunWithholds(c: Config, s: State, steps: seq<Step>, n: Node)
    requires Legal(c, s, steps) && Withholds(steps, n) && Unanswered(s, n)
    ensures Unanswered(Run(c, s, steps), n)
    decreases |steps|
  {
    hide Next, Enabled, Unanswered;
    if steps != [] {
      assert steps[0] in steps;
      StepWithholds(c, s, steps[0], n);
      RunWithholds(c, Next(c, s, steps[0]), steps[1..], n);
    }
  }

  /** While an expected node has not answered, no query is issued. */
  lemma NothingQueried(c: Config, s: State, n: Node)
    requires AggInv(c, s) && NodesInv(c, s) && n in c.expected && n in c.foreign && Unanswered(s, n)
    ensures s.agg.queries == [] && s.agg.list.threshold == None
  {
    hide NodeLocal, Frontier, Complete, Reported;
    assert NodeSeen(s.agg, s.storing, true, c.foreign[n], n, s.nodes[n]);
  }

  /** Meanwhile every reference of every result becomes ready. */
  lemma AllReady(c: Config, s: State, n: Node, r: MessageRef)
    requires QueryProtocol.Inv(c, s) && StuckBut(c, s, {n}) && r in Sources(c)
    requires s.agg.queries == [] && s.agg.list.threshold == None
    ensures s.agg.list.Ready(r)
  {
    hide StuckBut, NodeLocal, Frontier, Complete, Reported, Aggregators.Inv, Aggregators.Settled;
    StuckPrimary(c, s, {n});
    if r in c.primary {
      var k :| 0 <= k < |c.primary| && c.primary[k] == r;
    } else {
      var m :| m in c.foreign && r in c.foreign[m];
      var v := s.nodes[m];
      StuckNode(c, s, {n}, m);
      assert NodeSeen(s.agg, s.storing, m in c.expected, c.foreign[m], m, v);
      var k :| 0 <= k < v.propagation.got && v.prop.written[k] == r;
      assert Arrived(s.agg, s.storing, v.prop.written[k]);
    }
  }

  /** Either no query was issued and all references of `base` are ready, or the first query spans them all. */
  ghost predicate Gathers(a: Aggregators.State, base: set<MessageRef>, stored: set<MessageRef>) {
    if a.queries == [] then a.list.threshold == None && forall r | r in base :: a.list.Ready(r)
    else Spans(a.queries[0], base, stored)
  }

  ghost predicate Spans(q: Aggregators.RangeQuery, base: set<MessageRef>, stored: set<MessageRef>) {
    && (forall r | r in base :: q.from.AtMost(r) && r.AtMost(q.to))
    && (forall r | r in stored && q.from.AtMost(r) && r.AtMost(q.to) :: r in q.rows)
  }

  lemma BeforeCheckGathers(a: Aggregators.State, call: Aggregators.Call, base: set<MessageRef>,
                           stored: set<MessageRef>)
    requires Aggregators.Inv(a) && Gathers(a, base, stored)
    ensures var b := Aggregators.BeforeCheck(a, call);
      Gathers(b, base, stored) && b.queries == a.queries && a.stored <= b.stored
  {
    hide Aggregators.PushForeign, AggregationLists.State.Push, Aggregators.State.DoCheck, Spans;
    match call
    case PrimaryRow(r) => AggregationLists.PushRefines(a.list, r, true);
    case ForeignResponse(_, refs, _) => Aggregators.PushForeignRefines(a.list, refs);
    case PropagatedRow(r) => AggregationLists.PushRefines(a.list, r, true);
    case _ =>
  }

  /** With all references ready, the ready range is the whole list. */
  lemma WholeListIsReady(list: AggregationLists.State, base: set<MessageRef>, r: MessageRef)
    requires list.Valid() && (forall x | list.Lists(x) :: x in base) && (forall x | x in base :: list.Ready(x))
    requires r in base && list.ReadyTo().Some?
    ensures list.ReadyFrom().value.AtMost(r) && r.AtMost(list.ReadyTo().value)
  {
    hide AggregationLists.State.Shrink, AggregationLists.State.ReadyTo, AggregationLists.State.ReadyFrom;
    AggregationLists.ReadyRange(list);
    var to := list.ReadyTo().value;
    AggregationLists.ShrinkRefines(list, to);
    var rest := list.Shrink(to);
    if rest.items != [] {
      AggregationLists.MemberIsListed(rest, rest.items[0]);
      var x := rest.items[0];
      assert rest.Ready(x.messageRef);
      AggregationLists.OneItemPerRef(rest, x, AggregationLists.Item(x.messageRef, true));
    }
    assert !rest.Lists(r);
  }

  lemma CheckGathers(a: Aggregators.State, base: set<MessageRef>, stored: set<MessageRef>)
    requires Aggregators.Inv(a) && From(a, base) && Gathers(a, base, stored) && stored <= a.stored
    ensures Gathers(a.DoCheck(), base, stored)
  {
    if Aggregators.Issues(a) && a.queries == [] {
      forall r | r in base
        ensures a.list.ReadyFrom().value.AtMost(r) && r.AtMost(a.list.ReadyTo().value)
      {
        WholeListIsReady(a.list, base, r);
      }
    }
  }

  lemma StepGathers(c: Config, s: State, step: Step)
    requires QueryProtocol.Inv(c, s) && AllTidy(c, s) && AllFrom(c, s) && Enabled(c, s, step)
    requires Gathers(s.agg, Sources(c), c.stored)
    ensures Gathers(Next(c, s, step).agg, Sources(c), c.stored)
  {
    hide NodesInv, Aggregators.Settled, AllTidy, From, Next, Sources, Brings, Gathers;
    hide Frontier, Complete, Reported, Aggregators.Inv, Aggregators.State.DoCheck;
    CallIsAggStep(c, s, step);
    if CallOf(c, s, step).Some? {
      var call := CallOf(c, s, step).value;
      StepBrings(c, s, step);
      CallAllowed(c, s, step);
      BeforeCheckFrom(s.agg, call, Sources(c));
      BeforeCheckGathers(s.agg, call, Sources(c), c.stored);
      Aggregators.BeforeCheckKeeps(s.agg, call);
      if !call.PropagatedRow? {
        CheckGathers(Aggregators.BeforeCheck(s.agg, call), Sources(c), c.stored);
      }
    }
  }

  lemma {:induction false} RunGathers(c: Config, s: State, steps: seq<Step>)
    requires QueryProtocol.Inv(c, s) && AllTidy(c, s) && AllFrom(c, s) && Legal(c, s, steps)
    requires Gathers(s.agg, Sources(c), c.stored)
    ensures Gathers(Run(c, s, steps).agg, Sources(c), c.stored)
    decreases |steps|
  {
    hide QueryProtocol.Inv, AllTidy, AllFrom, Next, Enabled, Work, Gathers;
    if steps != [] {
      StepKeeps(c, s, steps[0]);
      StepAdvances(c, s, steps[0]);
      StepStaysFrom(c, s, steps[0]);
      StepGathers(c, s, steps[0]);
      RunGathers(c, Next(c, s, steps[0]), steps[1..]);
    }
  }

  lemma InitUnanswered(c: Config, n: Node)
    requires n in c.foreign
    ensures Unanswered(Init(c), n)
  {
  }

  lemma HeldGathers(c: Config, s: State, n: Node)
    requires QueryProtocol.Inv(c, s) && StuckBut(c, s, {n}) && Unanswered(s, n)
    requires n in c.expected && n in c.foreign
    ensures Gathers(s.agg, Sources(c), c.stored)
  {
    hide StuckBut, Aggregators.Settled, Sources, NodeLocal, NodeSeen, Frontier;
    NothingQueried(c, s, n);
    forall r | r in Sources(c) ensures s.agg.list.Ready(r) {
      AllReady(c, s, n, r);
    }
  }

  lemma SpannedIsDelivered(c: Config, a: Aggregators.State, r: MessageRef)
    requires Gathers(a, Sources(c), c.stored) && a.list.items == [] && IsGap(c, r)
    ensures Aggregators.Delivered(a.queries, r)
  {
    hide Sources;
    var x, y :| x in Sources(c) && y in Sources(c) && x.Before(r) && r.Before(y);
    assert a.queries != [];
    assert a.queries[0] in a.queries;
  }

  /** With an expected node that answers last, a run ends and has delivered the row in the gap. */
  lemma GapIsDelivered(c: Config, r: MessageRef) returns (steps: seq<Step>)
    requires c.Valid() && c.expected != {} && IsGap(c, r)
    ensures Legal(c, Init(c), steps)
    ensures var a := Run(c, Init(c), steps).agg; a.ended && Aggregators.Delivered(a.queries, r)
  {
    hide QueryProtocol.Inv, AllTidy, AllFrom, Init, Next, Enabled, Legal, Run, StuckBut, Gathers, IsGap;
    hide Unanswered, Complete;
    var n :| n in c.expected;
    NoStepsYet(c);
    var held := HoldBack(c, [], n);
    InitUnanswered(c, n);
    RunWithholds(c, Init(c), held, n);
    Reached(c, held);
    HeldGathers(c, Run(c, Init(c), held), n);
    var more := EveryRunCompletes(c, held);
    RunSplit(c, Init(c), held, more);
    RunGathers(c, Run(c, Init(c), held), more);
    steps := held + more;
    NoDeadlock(c, steps);
    SpannedIsDelivered(c, Run(c, Init(c), steps).agg, r);
  }

  lemma NoStepsYet(c: Config)
    ensures Legal(c, Init(c), [])
  {
  }

  /**
   With at least one node expected: in every run, an ended aggregator has delivered
   references of results only, if and only if no other stored row lies between them.
   */
  lemma NothingElseIff(c: Config)
    requires c.Valid() && c.expected != {}
    ensures (forall steps, r | Legal(c, Init(c), steps) && Run(c, Init(c), steps).agg.ended
               && Aggregators.Delivered(Run(c, Init(c), steps).agg.queries, r) :: r in Sources(c))
      <==> forall r :: !IsGap(c, r)
  {
    hide Config.Valid, Legal, Run, Init, Sources, Aggregators.Delivered;
    if r :| IsGap(c, r) {
      var steps := GapIsDelivered(c, r);
    } else {
      forall steps, r | Legal(c, Init(c), steps) && Run(c, Init(c), steps).agg.ended
        && Aggregators.Delivered(Run(c, Init(c), steps).agg.queries, r) ensures r in Sources(c)
      {
        OutputIsBounded(c, steps, r);
      }
    }
  }

  /** With all nodes expected and no such row, the output is exactly the results of the primary and the nodes. */
  lemma OutputIsExact(c: Config, steps: seq<Step>, r: MessageRef)
    requires c.Valid() && c.expected == c.foreign.Keys && forall x :: !IsGap(c, x)
    requires Legal(c, Init(c), steps) && Run(c, Init(c), steps).agg.ended
    ensures Aggregators.Delivered(Run(c, Init(c), steps).agg.queries, r)
      <==> r in c.primary || exists n :: n in c.foreign && r in c.foreign[n]
  {
    hide Legal, Run, Init, Aggregators.Delivered;
    EndedQueryIsComplete(c, steps);
    if Aggregators.Delivered(Run(c, Init(c), steps).agg.queries, r) {
      OutputIsBounded(c, steps, r);
    }
  }
}
