/**
 The primary node's side of a query: it collects references from its own store
 and from the foreign nodes, and delivers the result range by range.
 */
module Aggregators {
  import opened MessageRefs
  import AggregationLists

  type Node = string

  datatype Response = Response(messageRef: Option<MessageRef>, isFinalized: bool)

  /** The streams an aggregator waits for: its initial query and the range queries. */
  datatype Stream = PrimaryStream | RangeStream(k: nat)

  /** A range query, with the references that the local store held in the range. */
  datatype RangeQuery = RangeQuery(from: MessageRef, to: MessageRef, rows: set<MessageRef>)

  function RowsBetween(stored: set<MessageRef>, from: MessageRef, to: MessageRef): set<MessageRef> {
    set r | r in stored && from.AtMost(r) && r.AtMost(to)
  }

  /** The value of an aggregator. `stored` is the local store, `queries` the range queries issued so far. */
  datatype State = State(
    responses: map<Node, Response>,
    list: AggregationLists.State,
    open: set<Stream>,
    stored: set<MessageRef>,
    queries: seq<RangeQuery>,
    ended: bool)
  {
    predicate IsWaiting() {
      exists n | n in responses :: !responses[n].isFinalized && responses[n].messageRef == None
    }

    function DoCheck(): State {
      if IsWaiting() then this
      else if list.items == [] && open == {} then this.(ended := true)
      else if list.ReadyFrom().Some? && list.ReadyTo().Some? then
        var from, to := list.ReadyFrom().value, list.ReadyTo().value;
        this.(queries := queries + [RangeQuery(from, to, RowsBetween(stored, from, to))],
              open := open + {RangeStream(|queries|)},
              list := list.Shrink(to))
      else this
    }

    function OnPrimaryRow(r: MessageRef): State {
      this.(list := list.Push(r, true)).DoCheck()
    }

    function OnStreamEnd(stream: Stream): State {
      this.(open := open - {stream}).DoCheck()
    }

    function Registered(node: Node): State {
      if node in responses then this else this.(responses := responses[node := Response(None, false)])
    }

    function OnForeignResponse(node: Node, refs: seq<MessageRef>, isFinal: bool): State {
      var s := Registered(node);
      var t := s.(list := PushForeign(list, refs));
      var u := if isFinal then t.(responses := t.responses[node := t.responses[node].(isFinalized := true)]) else t;
      u.DoCheck()
    }

    /** One row of a propagation has been stored. */
    function OnPropagatedRow(r: MessageRef): State {
      this.(stored := stored + {r}, list := list.Push(r, true))
    }
  }

  function PushForeign(list: AggregationLists.State, refs: seq<MessageRef>): AggregationLists.State
    decreases |refs|
  {
    if refs == [] then list else PushForeign(list.Push(refs[0], false), refs[1..])
  }

  /** An aggregator right after its construction, expecting `foreignNodes`. */
  function Initial(foreignNodes: set<Node>, stored: set<MessageRef>): State {
    State(map n | n in foreignNodes :: Response(None, false), AggregationLists.EMPTY,
          {PrimaryStream}, stored, [], false)
  }

  class Aggregator {
    var foreignNodeResponses: map<Node, Response>
    const aggregationList: AggregationLists.AggregationList
    var queryStreams: set<Stream>
    var stored: set<MessageRef>
    var queries: seq<RangeQuery>
    var ended: bool

    ghost function View(): State
      reads this, aggregationList
    {
      State(foreignNodeResponses, aggregationList.View(), queryStreams, stored, queries, ended)
    }

    constructor (foreignNodes: set<Node>, database: set<MessageRef>)
      ensures View() == Initial(foreignNodes, database)
      ensures fresh(aggregationList)
    {
      foreignNodeResponses := map n | n in foreignNodes :: Response(None, false);
      aggregationList := new AggregationLists.AggregationList();
      queryStreams := {PrimaryStream};
      stored, queries, ended := database, [], false;
    }

    method IsWaitingForForeignNodes() returns (waiting: bool)
      ensures waiting == View().IsWaiting()
      ensures !waiting <==> forall n | n in foreignNodeResponses ::
        foreignNodeResponses[n].isFinalized || foreignNodeResponses[n].messageRef.Some?
    {
      var nodes := foreignNodeResponses.Keys;
      while nodes != {}
        invariant nodes <= foreignNodeResponses.Keys
        invariant forall n | n in foreignNodeResponses.Keys - nodes ::
          foreignNodeResponses[n].isFinalized || foreignNodeResponses[n].messageRef.Some?
        decreases nodes
      {
        var n :| n in nodes;
        if !foreignNodeResponses[n].isFinalized && foreignNodeResponses[n].messageRef == None {
          return true;
        }
        nodes := nodes - {n};
      }
      waiting := false;
    }

    method DoCheck()
      modifies this, aggregationList
      ensures View() == old(View()).DoCheck()
    {
      var waiting := IsWaitingForForeignNodes();
      if waiting {
        return;
      }
      var isEmpty := aggregationList.IsEmpty();
      if isEmpty && queryStreams == {} {
        ended := true;
        return;
      }
      var readyFrom := aggregationList.ReadyFrom();
      var readyTo := aggregationList.ReadyTo();
      if readyFrom.Some? && readyTo.Some? {
        var from, to := readyFrom.value, readyTo.value;
        queryStreams := queryStreams + {RangeStream(|queries|)};
        queries := queries + [RangeQuery(from, to, RowsBetween(stored, from, to))];
        aggregationList.Shrink(to);
      }
    }

    method OnPrimaryRow(messageRef: MessageRef)
      modifies this, aggregationList
      ensures View() == old(View()).OnPrimaryRow(messageRef)
    {
      aggregationList.Push(messageRef, true);
      DoCheck();
    }

    method OnStreamEnd(stream: Stream)
      modifies this, aggregationList
      ensures View() == old(View()).OnStreamEnd(stream)
    {
      queryStreams := queryStreams - {stream};
      DoCheck();
    }

    method OnForeignResponse(node: Node, messageRefs: seq<MessageRef>, isFinal: bool)
      modifies this, aggregationList
      ensures View() == old(View()).OnForeignResponse(node, messageRefs, isFinal)
    {
      if node !in foreignNodeResponses {
        foreignNodeResponses := foreignNodeResponses[node := Response(None, false)];
      }
      var i := 0;
      while i < |messageRefs|
        modifies aggregationList
        invariant 0 <= i <= |messageRefs|
        invariant PushForeign(aggregationList.View(), messageRefs[i..])
               == PushForeign(old(aggregationList.View()), messageRefs)
      {
        aggregationList.Push(messageRefs[i], false);
        i := i + 1;
      }
      if isFinal {
        foreignNodeResponses := foreignNodeResponses[node := foreignNodeResponses[node].(isFinalized := true)];
      }
      DoCheck();
    }

    /** The continuation that runs once one row of a propagation has been stored. */
    method OnPropagatedRow(messageRef: MessageRef)
      modifies this, aggregationList
      ensures View() == old(View()).OnPropagatedRow(messageRef)
    {
      stored := stored + {messageRef};
      aggregationList.Push(messageRef, true);
    }
  }

  // ---------- What every call keeps ----------

  ghost predicate Delivered(queries: seq<RangeQuery>, r: MessageRef) {
    exists q | q in queries :: r in q.rows
  }

  /** Successive ranges are ordered and disjoint and end at the list's threshold. */
  ghost predicate OrderedRanges(s: State) {
    && (forall i | 0 <= i < |s.queries| :: s.queries[i].from.AtMost(s.queries[i].to))
    && (forall i, j | 0 <= i < j < |s.queries| :: s.queries[i].to.Before(s.queries[j].from))
    && s.list.threshold == if s.queries == [] then None else Some(s.queries[|s.queries| - 1].to)
  }

  /** The rows of a query lie in its range. */
  ghost predicate RowsInRange(s: State) {
    forall q, r | q in s.queries && r in q.rows :: q.from.AtMost(r) && r.AtMost(q.to)
  }

  ghost predicate Inv(s: State) {
    && s.list.Valid()
    && OrderedRanges(s)
    && RowsInRange(s)
    && (forall r | s.list.Ready(r) :: r in s.stored)
    && (forall n | n in s.responses :: s.responses[n].messageRef == None)
  }

  /** Nothing is left for a check to do. */
  ghost predicate Settled(s: State) {
    s.IsWaiting() ||
    (&& (s.list.items == [] || !s.list.items[0].isReady)
     && (s.list.items == [] && s.open == {} ==> s.ended))
  }

  /**
   A check either leaves the list alone or moves a ready prefix of it, whose
   references are all stored, into the rows of one new query. It does the latter
   only when every known node has finalised.
   */
  lemma CheckKeeps(s: State)
    requires Inv(s)
    ensures var t := s.DoCheck();
      && Inv(t) && Settled(t)
      && t.responses == s.responses && t.stored == s.stored
      && s.open <= t.open && s.queries <= t.queries
      && (PrimaryStream in t.open <==> PrimaryStream in s.open)
      && (t.ended && !s.ended ==> !s.IsWaiting() && s.list.items == [] && s.open == {} && t == s.(ended := true))
  {
    AggregationLists.ReadyRange(s.list);
    if Issues(s) {
      IssueKeeps(s);
      assert RangeStream(|s.queries|) in s.DoCheck().open;
    }
  }

  lemma IssueKeeps(s: State)
    requires Inv(s) && Issues(s)
    ensures Inv(s.DoCheck())
  {
    hide AggregationLists.State.Shrink, AggregationLists.State.ReadyFrom, AggregationLists.State.ReadyTo;
    hide AggregationLists.State.Valid;
    var t := s.DoCheck();
    AggregationLists.ReadyRange(s.list);
    AggregationLists.ShrinkRefines(s.list, s.list.ReadyTo().value);
    assert forall q | q in t.queries :: q in s.queries || q == t.queries[|s.queries|];
  }

  ghost predicate Issues(s: State) {
    !s.IsWaiting() && !(s.list.items == [] && s.open == {}) && s.list.ReadyFrom().Some? && s.list.ReadyTo().Some?
  }

  /** What a check takes out of the list was ready and is delivered. */
  lemma CheckMoves(s: State)
    requires Inv(s)
    ensures var t := s.DoCheck();
      && (forall r | s.list.Lists(r) :: t.list.Lists(r) || (Delivered(t.queries, r) && t.list.Drops(r)))
      && (forall r | s.list.Ready(r) :: t.list.Ready(r) || (Delivered(t.queries, r) && t.list.Drops(r)))
      && (forall r | t.list.Lists(r) :: s.list.Lists(r))
      && (forall r | t.list.Ready(r) :: s.list.Ready(r))
      && (forall r | s.list.Drops(r) :: t.list.Drops(r))
      && (t.list.threshold != s.list.threshold ==>
            !s.IsWaiting() && t.list.threshold.Some? && s.list.Ready(t.list.threshold.value))
  {
    if Issues(s) {
      AggregationLists.ReadyRange(s.list);
      var to := s.list.ReadyTo().value;
      AggregationLists.ShrinkRefines(s.list, to);
      var t := s.DoCheck();
      var q := t.queries[|s.queries|];
      assert q in t.queries;
      forall r | s.list.Lists(r) && r.AtMost(to) ensures r in q.rows {
      }
    }
  }

  lemma {:induction false} PushForeignRefines(list: AggregationLists.State, refs: seq<MessageRef>)
    requires list.Valid()
    ensures var t := PushForeign(list, refs);
      && t.Valid() && t.threshold == list.threshold
      && (forall r :: t.Lists(r) <==> list.Lists(r) || (r in refs && !list.Drops(r)))
      && (forall r :: t.Ready(r) <==> list.Ready(r))
    decreases |refs|
  {
    if refs != [] {
      AggregationLists.PushRefines(list, refs[0], false);
      PushForeignRefines(list.Push(refs[0], false), refs[1..]);
      assert forall r :: r in refs <==> r == refs[0] || r in refs[1..];
    }
  }

  // ---------- Runs of one aggregator, with no assumption on the calls ----------

  datatype Call =
    | PrimaryRow(r: MessageRef)
    | StreamEnd(stream: Stream)
    | ForeignResponse(node: Node, refs: seq<MessageRef>, isFinal: bool)
    | PropagatedRow(r: MessageRef)
    | PropagationStored

  /** A row of the initial query comes from the local store. */
  predicate Allows(s: State, c: Call) {
    c.PrimaryRow? ==> c.r in s.stored
  }

  function After(s: State, c: Call): State {
    match c
    case PrimaryRow(r) => s.OnPrimaryRow(r)
    case StreamEnd(stream) => s.OnStreamEnd(stream)
    case ForeignResponse(node, refs, isFinal) => s.OnForeignResponse(node, refs, isFinal)
    case PropagatedRow(r) => s.OnPropagatedRow(r)
    case PropagationStored => s.DoCheck()
  }

  /** The state in which the check of a call runs. */
  function BeforeCheck(s: State, c: Call): State {
    match c
    case PrimaryRow(r) => s.(list := s.list.Push(r, true))
    case StreamEnd(stream) => s.(open := s.open - {stream})
    case ForeignResponse(node, refs, isFinal) =>
      var t := s.Registered(node).(list := PushForeign(s.list, refs));
      if isFinal then t.(responses := t.responses[node := t.responses[node].(isFinalized := true)]) else t
    case PropagatedRow(r) => s.OnPropagatedRow(r)
    case PropagationStored => s
  }

  lemma BeforeCheckKeeps(s: State, c: Call)
    requires Inv(s) && Allows(s, c)
    ensures Inv(BeforeCheck(s, c))
    ensures !c.PropagatedRow? ==> After(s, c) == BeforeCheck(s, c).DoCheck()
  {
    match c
    case PrimaryRow(r) => AggregationLists.PushRefines(s.list, r, true);
    case ForeignResponse(node, refs, isFinal) => PushForeignRefines(s.list, refs);
    case PropagatedRow(r) => AggregationLists.PushRefines(s.list, r, true);
    case _ =>
  }

  lemma CallKeeps(s: State, c: Call)
    requires Inv(s) && Allows(s, c)
    ensures Inv(After(s, c))
  {
    BeforeCheckKeeps(s, c);
    if !c.PropagatedRow? {
      CheckKeeps(BeforeCheck(s, c));
    }
  }

  /**
   A call issues a query only when every known node has finalised, and then every
   listed reference in the range is ready, stored and among the query's rows.
   */
  lemma ReadyBeforeQueried(s: State, c: Call)
    requires Inv(s) && Allows(s, c)
    requires After(s, c).queries != s.queries
    ensures var t := After(s, c); var b := BeforeCheck(s, c);
      && |t.queries| == |s.queries| + 1 && s.queries < t.queries
      && (forall n | n in t.responses :: t.responses[n].isFinalized)
      && var q := t.queries[|s.queries|];
      && b.list.Ready(q.from) && b.list.Ready(q.to)
      && (forall r | b.list.Lists(r) && r.AtMost(q.to) ::
            q.from.AtMost(r) && b.list.Ready(r) && r in t.stored && r in q.rows)
  {
    BeforeCheckKeeps(s, c);
    assert BeforeCheck(s, c).queries == s.queries;
    IssueIsReady(BeforeCheck(s, c));
  }

  lemma IssueIsReady(b: State)
    requires Inv(b) && b.DoCheck().queries != b.queries
    ensures var t := b.DoCheck();
      && t.queries == b.queries + [t.queries[|b.queries|]]
      && t.stored == b.stored
      && (forall n | n in t.responses :: t.responses[n].isFinalized)
      && var q := t.queries[|b.queries|];
      && b.list.Ready(q.from) && b.list.Ready(q.to)
      && (forall r | b.list.Lists(r) && r.AtMost(q.to) ::
            q.from.AtMost(r) && b.list.Ready(r) && r in t.stored && r in q.rows)
  {
  }

  function Run(s: State, calls: seq<Call>): State
    decreases |calls|
  {
    if calls == [] then s else Run(After(s, calls[0]), calls[1..])
  }

  predicate Legal(s: State, calls: seq<Call>)
    decreases |calls|
  {
    calls == [] || (Allows(s, calls[0]) && Legal(After(s, calls[0]), calls[1..]))
  }

  lemma {:induction false} RunKeeps(s: State, calls: seq<Call>)
    requires Inv(s) && Legal(s, calls)
    ensures Inv(Run(s, calls))
    decreases |calls|
  {
    if calls != [] {
      CallKeeps(s, calls[0]);
      RunKeeps(After(s, calls[0]), calls[1..]);
    }
  }

  /** Over any run, successive ranges are ordered and no row belongs to two queries. */
  lemma NoRowQueriedTwice(foreignNodes: set<Node>, stored: set<MessageRef>, calls: seq<Call>)
    requires Legal(Initial(foreignNodes, stored), calls)
    ensures var qs := Run(Initial(foreignNodes, stored), calls).queries;
      && (forall i | 0 <= i < |qs| :: qs[i].from.AtMost(qs[i].to))
      && (forall i, j | 0 <= i < j < |qs| :: qs[i].to.Before(qs[j].from))
      && (forall i, j | 0 <= i < j < |qs| :: qs[i].rows !! qs[j].rows)
  {
    var s := Initial(foreignNodes, stored);
    RunKeeps(s, calls);
    var t := Run(s, calls);
    forall k, r | 0 <= k < |t.queries| && r in t.queries[k].rows
      ensures t.queries[k].from.AtMost(r) && r.AtMost(t.queries[k].to)
    {
      assert t.queries[k] in t.queries;
    }
  }
}
