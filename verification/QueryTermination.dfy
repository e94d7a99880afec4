/** Every run of the query protocol is finite, so every run that is continued while it can be completes. */
module QueryTermination {
  import opened MessageRefs
  import Links
  import AggregationLists
  import Aggregators
  import PropagationLists
  import Propagators
  import opened QueryProtocol

  // ---------- Sums over nodes ----------

  ghost function Pick(keys: set<Node>): Node
    requires keys != {}
  {
    var n :| n in keys;
    n
  }

  ghost function Sum(keys: set<Node>, weights: map<Node, int>): int
    requires keys <= weights.Keys
  {
    if keys == {} then 0
    else
      var n := Pick(keys);
      weights[n] + Sum(keys - {n}, weights)
  }

  lemma {:induction false} SumBelow(keys: set<Node>, a: map<Node, int>, b: map<Node, int>)
    requires keys <= a.Keys && keys <= b.Keys && forall n | n in keys :: a[n] <= b[n]
    ensures Sum(keys, a) <= Sum(keys, b)
  {
    if keys != {} {
      SumBelow(keys - {Pick(keys)}, a, b);
    }
  }

  lemma {:induction false} SumSame(keys: set<Node>, a: map<Node, int>, b: map<Node, int>)
    requires keys <= a.Keys && keys <= b.Keys && forall n | n in keys :: a[n] == b[n]
    ensures Sum(keys, a) == Sum(keys, b)
  {
    if keys != {} {
      SumSame(keys - {Pick(keys)}, a, b);
    }
  }

  lemma {:induction false} SumUpdate(keys: set<Node>, a: map<Node, int>, b: map<Node, int>, n: Node)
    requires keys <= a.Keys && keys <= b.Keys && n in keys
    requires forall m | m in keys && m != n :: a[m] == b[m]
    ensures Sum(keys, b) == Sum(keys, a) - a[n] + b[n]
  {
    var m := Pick(keys);
    if m == n {
      SumSame(keys - {n}, a, b);
    } else {
      SumUpdate(keys - {m}, a, b, n);
    }
  }

  // ---------- How far a state has come ----------

  /** What the open queries have still to do: their rows, and their ends. */
  function Load(queries: seq<Propagators.ByRefQuery>): nat {
    if queries == [] then 0 else |queries[0].refs| + 1 + Load(queries[1..])
  }

  function RowsLeft(queries: seq<Propagators.ByRefQuery>): nat {
    if queries == [] then 0 else |queries[0].refs| + RowsLeft(queries[1..])
  }

  /** What is still to be stored: the rows of each propagation, and its end. */
  function Unstored(storing: seq<set<MessageRef>>): nat {
    if storing == [] then 0 else |storing[0]| + 1 + Unstored(storing[1..])
  }

  function Progress(p: Propagators.State): int {
    One(p.list.isForeignFinalized) + 2 * |p.asked| - Load(p.queries)
  }

  function NodeWork(v: NodeState): int {
    v.rows + Progress(v.prop)
    + v.announcement.got + One(v.announcement.gotFinal)
    + v.answered + One(v.answeredFinal) + v.answer.got + One(v.answer.gotFinal)
    + v.flushed + One(v.flushedFinal) + 3 * v.propagation.got + 2 * One(v.propagation.gotFinal)
  }

  function AggWork(a: Aggregators.State): int {
    |a.queries| - |a.open|
  }

  function Weights(nodes: map<Node, NodeState>): map<Node, int> {
    map n | n in nodes :: NodeWork(nodes[n])
  }

  ghost function Work(s: State): int {
    s.pushed + s.announced + One(s.announcedFinal) + AggWork(s.agg) - Unstored(s.storing)
    + Sum(s.nodes.Keys, Weights(s.nodes))
  }

  // ---------- What keeps the progress bounded ----------

  /** No chunk in flight is empty, but for a final one. */
  predicate Tidy(l: Links.Link) {
    forall i | 0 <= i < |l.queue| :: l.queue[i].refs != [] || l.queue[i].isFinal
  }

  predicate NodeTidy(f: seq<MessageRef>, v: NodeState) {
    && Tidy(v.announcement) && Tidy(v.answer) && Tidy(v.propagation)
    && |v.prop.written| + RowsLeft(v.prop.queries) == |v.prop.asked|
  }

  /** Every query has a row of its own, and all rows come from `base`. */
  ghost predicate AggTidy(a: Aggregators.State, base: set<MessageRef>) {
    && (forall k: nat | Aggregators.RangeStream(k) in a.open :: k < |a.queries|)
    && a.stored <= base
    && (forall i | 0 <= i < |a.queries| :: a.queries[i].from in a.stored)
  }

  ghost function Refs(f: seq<MessageRef>): set<MessageRef> {
    set r | r in f
  }

  /** Every row that a store can come to hold. */
  ghost function Base(c: Config): set<MessageRef> {
    c.stored + set n, r | n in c.foreign && r in c.foreign[n] :: r
  }

  ghost predicate AllTidy(c: Config, s: State) {
    && AggTidy(s.agg, Base(c))
    && (forall k | 0 <= k < |s.storing| :: s.storing[k] <= Base(c))
    && s.nodes.Keys == c.foreign.Keys
    && (forall n | n in s.nodes :: NodeTidy(c.foreign[n], s.nodes[n]))
  }

  // ---------- The aggregator ----------

  /** The call of the aggregator that a step makes, if it makes one. */
  function CallOf(c: Config, s: State, step: Step): Option<Aggregators.Call>
    requires Enabled(c, s, step)
  {
    match step
    case PrimaryRow => Some(Aggregators.PrimaryRow(c.primary[s.pushed]))
    case PrimaryEnd => Some(Aggregators.StreamEnd(Aggregators.PrimaryStream))
    case DeliverAnswer(n) =>
      var chunk := s.nodes[n].answer.queue[0];
      Some(Aggregators.ForeignResponse(n, chunk.refs, chunk.isFinal))
    case StoreRow(_, r) => Some(Aggregators.PropagatedRow(r))
    case StoreDone(_) => Some(Aggregators.PropagationStored)
    case RangeEnd(k) => Some(Aggregators.StreamEnd(Aggregators.RangeStream(k)))
    case _ => None
  }

  lemma CallIsAggStep(c: Config, s: State, step: Step)
    requires Enabled(c, s, step)
    ensures Next(c, s, step).agg
         == if CallOf(c, s, step).Some? then Aggregators.After(s.agg, CallOf(c, s, step).value) else s.agg
  {
  }

  /** A check opens one stream for each query that it issues. */
  lemma CheckIsNeutral(a: Aggregators.State, base: set<MessageRef>)
    requires Aggregators.Inv(a) && AggTidy(a, base)
    ensures AggTidy(a.DoCheck(), base) && AggWork(a.DoCheck()) == AggWork(a)
  {
  }

  lemma CallAdvances(a: Aggregators.State, call: Aggregators.Call, base: set<MessageRef>)
    requires Aggregators.Inv(a) && AggTidy(a, base) && Aggregators.Allows(a, call)
    requires call.PropagatedRow? ==> call.r in base
    ensures AggTidy(Aggregators.After(a, call), base)
    ensures AggWork(Aggregators.After(a, call)) == AggWork(a) + One(call.StreamEnd? && call.stream in a.open)
  {
    hide Aggregators.Inv, Aggregators.PushForeign, Aggregators.State.DoCheck, AggregationLists.State.Push;
    var b := Aggregators.BeforeCheck(a, call);
    Aggregators.BeforeCheckKeeps(a, call);
    assert b.queries == a.queries;
    assert b.open == if call.StreamEnd? then a.open - {call.stream} else a.open;
    if !call.PropagatedRow? {
      CheckIsNeutral(b, base);
    }
  }

  // ---------- A foreign node ----------

  lemma {:induction false} OneMoreQuery(queries: seq<Propagators.ByRefQuery>, q: Propagators.ByRefQuery)
    ensures Load(queries + [q]) == Load(queries) + |q.refs| + 1
    ensures RowsLeft(queries + [q]) == RowsLeft(queries) + |q.refs|
  {
    if queries == [] {
      assert queries + [q] == [q];
    } else {
      OneMoreQuery(queries[1..], q);
      assert (queries + [q])[1..] == queries[1..] + [q];
    }
  }

  lemma {:induction false} OneRowLess(queries: seq<Propagators.ByRefQuery>, i: nat)
    requires i < |queries| && queries[i].refs != []
    ensures var after := queries[i := queries[i].(refs := queries[i].refs[1..])];
      Load(after) == Load(queries) - 1 && RowsLeft(after) == RowsLeft(queries) - 1
  {
    var after := queries[i := queries[i].(refs := queries[i].refs[1..])];
    if i == 0 {
      assert after[1..] == queries[1..];
    } else {
      OneRowLess(queries[1..], i - 1);
      assert after[1..] == queries[1..][i - 1 := queries[i].(refs := queries[i].refs[1..])];
    }
  }

  predicate Balanced(s: Propagators.State) {
    |s.written| + RowsLeft(s.queries) == |s.asked|
  }

  /** A check may open a query, but never for nothing. */
  lemma PropCheckAdvances(s: Propagators.State)
    requires Balanced(s)
    ensures Balanced(s.DoCheck()) && Progress(s.DoCheck()) >= Progress(s)
  {
    var diff := s.list.Diff();
    OneMoreQuery(s.queries, Propagators.ByRefQuery(diff, s.list.IsFinalized()));
  }

  lemma {:induction false} PushPrimaryKeepsFlag(l: PropagationLists.State, refs: seq<MessageRef>)
    ensures Propagators.PushPrimary(l, refs).isForeignFinalized == l.isForeignFinalized
    decreases |refs|
  {
    if refs != [] {
      PushPrimaryKeepsFlag(l.PushPrimary(refs[0]), refs[1..]);
    }
  }

  lemma {:induction false} OneQueryLess(queries: seq<Propagators.ByRefQuery>, i: nat)
    requires i < |queries| && queries[i].refs == []
    ensures var after := queries[..i] + queries[i + 1..];
      Load(after) == Load(queries) - 1 && RowsLeft(after) == RowsLeft(queries)
  {
    var after := queries[..i] + queries[i + 1..];
    if i == 0 {
      assert after == queries[1..];
    } else {
      OneQueryLess(queries[1..], i - 1);
      assert after[1..] == queries[1..][..i - 1] + queries[1..][i..];
    }
  }

  lemma ByRefEndAdvances(s: Propagators.State, i: nat)
    requires Balanced(s) && i < |s.queries| && s.queries[i].refs == []
    ensures Balanced(s.OnByRefEnd(i)) && Progress(s.OnByRefEnd(i)) > Progress(s)
  {
    OneQueryLess(s.queries, i);
    PropCheckAdvances(s.(queries := s.queries[..i] + s.queries[i + 1..]));
  }

  /** The steps that make a propagator check, or a query of its write. */
  predicate PropEnabled(c: Config, v: NodeState, step: Step) {
    match step
    case DeliverAnnouncement(_) => v.announcement.queue != []
    case ForeignRow(n) => n in c.foreign && v.rows < |c.foreign[n]|
    case ForeignEnd(_) => !v.prop.list.isForeignFinalized
    case ByRefRow(_, i) => i < |v.prop.queries| && v.prop.queries[i].refs != []
    case ByRefEnd(_, i) => Propagators.MayEnd(v.prop, i)
    case _ => false
  }

  lemma PropStepAdvances(c: Config, v: NodeState, step: Step)
    requires Balanced(v.prop) && PropEnabled(c, v, step)
    ensures var w := NextNode(c, v, step);
      && Balanced(w.prop)
      && Progress(w.prop) >= Progress(v.prop) + One(step.ForeignEnd? || step.ByRefRow? || step.ByRefEnd?)
  {
    hide Propagators.PushPrimary, PropagationLists.State.PushForeign, Propagators.State.DoCheck;
    match step
    case DeliverAnnouncement(_) =>
      var chunk := v.announcement.queue[0];
      var l := Propagators.PushPrimary(v.prop.list, chunk.refs);
      PushPrimaryKeepsFlag(v.prop.list, chunk.refs);
      PropCheckAdvances(v.prop.(list := if chunk.isFinal then l.(isPrimaryFinalized := true) else l));
    case ForeignRow(n) =>
      var r := c.foreign[n][v.rows];
      PushForeignKeepsFlag(v.prop.list, r);
      PropCheckAdvances(v.prop.(list := v.prop.list.PushForeign(r)));
    case ForeignEnd(_) =>
      PropCheckAdvances(v.prop.(list := v.prop.list.(isForeignFinalized := true)));
    case ByRefRow(_, i) => OneRowLess(v.prop.queries, i);
    case ByRefEnd(_, i) => ByRefEndAdvances(v.prop, i);
  }

  lemma PushForeignKeepsFlag(l: PropagationLists.State, r: MessageRef)
    ensures l.PushForeign(r).isForeignFinalized == l.isForeignFinalized
  {
  }

  lemma ReceiveAdvances(l: Links.Link, source: seq<MessageRef>, sent: nat, finalSent: bool)
    requires Links.Inv(l, source, sent, finalSent) && Tidy(l) && l.queue != []
    ensures Tidy(l.Receive()) && !l.gotFinal
    ensures l.Receive().got + One(l.Receive().gotFinal) > l.got + One(l.gotFinal)
  {
  }

  lemma AnnouncementAdvances(c: Config, s: State, n: Node, f: seq<MessageRef>, v: NodeState)
    requires NodeTidy(f, v) && Links.Inv(v.announcement, c.primary, s.announced, s.announcedFinal)
    requires v.announcement.queue != []
    ensures var w := NextNode(c, v, DeliverAnnouncement(n)); NodeTidy(f, w) && NodeWork(w) > NodeWork(v)
  {
    hide Progress, RowsLeft, Tidy, Links.Inv;
    ReceiveAdvances(v.announcement, c.primary, s.announced, s.announcedFinal);
    PropStepAdvances(c, v, DeliverAnnouncement(n));
  }

  lemma SendingAdvances(c: Config, v: NodeState, step: Step)
    requires step.Answer? || step.Flush?
    requires step.n in c.foreign && NodeTidy(c.foreign[step.n], v) && (step.count > 0 || step.isFinal)
    requires step.Answer? ==> !v.answeredFinal && v.answered + step.count <= |c.foreign[step.n]|
    requires step.Flush? ==> !v.flushedFinal && v.flushed + step.count <= |v.prop.written|
    ensures var w := NextNode(c, v, step); NodeTidy(c.foreign[step.n], w) && NodeWork(w) > NodeWork(v)
  {
  }

  lemma QueryingAdvances(c: Config, v: NodeState, step: Step)
    requires PropEnabled(c, v, step) && !step.DeliverAnnouncement?
    requires step.n in c.foreign && NodeTidy(c.foreign[step.n], v)
    ensures var w := NextNode(c, v, step); NodeTidy(c.foreign[step.n], w) && NodeWork(w) > NodeWork(v)
  {
    hide Progress, RowsLeft, Tidy, Propagators.State.OnForeignRow, Propagators.State.OnForeignEnd,
         Propagators.State.OnByRefRow, Propagators.State.OnByRefEnd;
    PropStepAdvances(c, v, step);
  }

  /** The steps of a single node take it further. */
  lemma NodeStepAdvances(c: Config, s: State, step: Step)
    requires NodesInv(c, s) && AllTidy(c, s) && Enabled(c, s, step)
    requires CallOf(c, s, step).None? && !step.Announce? && !step.DeliverPropagation?
    ensures step.n in s.nodes && NodeTidy(c.foreign[step.n], NextNode(c, s.nodes[step.n], step))
    ensures NodeWork(NextNode(c, s.nodes[step.n], step)) > NodeWork(s.nodes[step.n])
  {
    hide NodeSeen, Propagators.Inv, Propagators.Settled, Links.Inv, NodeTidy, NodeWork, NextNode;
    var v := s.nodes[step.n];
    assert NodeLocal(c.primary, s.announced, s.announcedFinal, c.foreign[step.n], v);
    match step
    case DeliverAnnouncement(n) => AnnouncementAdvances(c, s, n, c.foreign[n], v);
    case Answer(_, _, _) => SendingAdvances(c, v, step);
    case Flush(_, _, _) => SendingAdvances(c, v, step);
    case _ => QueryingAdvances(c, v, step);
  }

  // ---------- The whole state ----------

  /** One node changes: the work is that of the others and its own. */
  lemma OneNodeWorks(nodes: map<Node, NodeState>, n: Node, w: NodeState)
    requires n in nodes
    ensures nodes[n := w].Keys == nodes.Keys
    ensures Sum(nodes.Keys, Weights(nodes[n := w])) ==
      Sum(nodes.Keys, Weights(nodes)) - NodeWork(nodes[n]) + NodeWork(w)
  {
    hide NodeWork;
    SumUpdate(nodes.Keys, Weights(nodes), Weights(nodes[n := w]), n);
  }

  lemma {:induction false} StoringAppend(storing: seq<set<MessageRef>>, b: set<MessageRef>)
    ensures Unstored(storing + [b]) == Unstored(storing) + |b| + 1
  {
    if storing == [] {
      assert storing + [b] == [b];
    } else {
      StoringAppend(storing[1..], b);
      assert (storing + [b])[1..] == storing[1..] + [b];
    }
  }

  lemma {:induction false} StoringUpdate(storing: seq<set<MessageRef>>, k: nat, b: set<MessageRef>)
    requires k < |storing|
    ensures Unstored(storing[k := b]) == Unstored(storing) - |storing[k]| + |b|
  {
    if k == 0 {
      assert storing[0 := b][1..] == storing[1..];
    } else {
      StoringUpdate(storing[1..], k - 1, b);
      assert storing[k := b][1..] == storing[1..][k - 1 := b];
    }
  }

  lemma {:induction false} StoringRemove(storing: seq<set<MessageRef>>, k: nat)
    requires k < |storing|
    ensures Unstored(storing[..k] + storing[k + 1..]) == Unstored(storing) - |storing[k]| - 1
  {
    if k == 0 {
      assert storing[..0] + storing[1..] == storing[1..];
    } else {
      StoringRemove(storing[1..], k - 1);
      var after := storing[..k] + storing[k + 1..];
      assert after[1..] == storing[1..][..k - 1] + storing[1..][k..];
    }
  }

  lemma {:induction false} SetNoLarger(refs: seq<MessageRef>)
    ensures |set r | r in refs| <= |refs|
  {
    if refs != [] {
      SetNoLarger(refs[1..]);
      assert (set r | r in refs) == {refs[0]} + set r | r in refs[1..];
    }
  }

  ghost predicate Advances(c: Config, s: State, t: State) {
    AllTidy(c, t) && Work(t) > Work(s)
  }

  lemma SingleNodeNext(c: Config, s: State, step: Step)
    requires Enabled(c, s, step)
    requires CallOf(c, s, step).None? && !step.Announce? && !step.DeliverPropagation?
    ensures step.n in s.nodes && Next(c, s, step) == s.(nodes := s.nodes[step.n := NextNode(c, s.nodes[step.n], step)])
  {
  }

  lemma NodeStaysTidy(c: Config, nodes: map<Node, NodeState>, n: Node, w: NodeState)
    requires forall m | m in nodes :: m in c.foreign && NodeTidy(c.foreign[m], nodes[m])
    requires n in nodes && NodeTidy(c.foreign[n], w)
    ensures forall m | m in nodes[n := w] :: NodeTidy(c.foreign[m], nodes[n := w][m])
  {
  }

  lemma SingleNodeStep(c: Config, s: State, step: Step)
    requires QueryProtocol.Inv(c, s) && AllTidy(c, s) && Enabled(c, s, step)
    requires CallOf(c, s, step).None? && !step.Announce? && !step.DeliverPropagation?
    ensures Advances(c, s, Next(c, s, step))
  {
    hide AggInv, Aggregators.Settled, NodeTidy, NodeWork, NextNode, AggTidy, Next, NodeLocal, NodeSeen;
    var w := NextNode(c, s.nodes[step.n], step);
    SingleNodeNext(c, s, step);
    NodeStepAdvances(c, s, step);
    OneNodeWorks(s.nodes, step.n, w);
    NodeStaysTidy(c, s.nodes, step.n, w);
  }

  lemma AnnouncedNode(f: seq<MessageRef>, v: NodeState, refs: seq<MessageRef>, isFinal: bool)
    requires NodeTidy(f, v) && (refs != [] || isFinal)
    ensures var w := v.(announcement := v.announcement.Send(refs, isFinal));
      NodeTidy(f, w) && NodeWork(w) == NodeWork(v)
  {
  }

  lemma AnnounceStep(c: Config, s: State, step: Step)
    requires AllTidy(c, s) && Enabled(c, s, step) && step.Announce? && s.pushed <= |c.primary|
    ensures Advances(c, s, Next(c, s, step))
  {
    hide NodeTidy, NodeWork, AggTidy;
    var t := Next(c, s, step);
    var refs := c.primary[s.announced..s.announced + step.count];
    forall n | n in t.nodes ensures NodeTidy(c.foreign[n], t.nodes[n]) && NodeWork(t.nodes[n]) == NodeWork(s.nodes[n]) {
      AnnouncedNode(c.foreign[n], s.nodes[n], refs, step.isFinal);
    }
    assert t.nodes.Keys == s.nodes.Keys;
    SumSame(s.nodes.Keys, Weights(s.nodes), Weights(t.nodes));
  }

  lemma ReceivedAnswer(f: seq<MessageRef>, v: NodeState)
    requires NodeTidy(f, v) && Links.Inv(v.answer, f, v.answered, v.answeredFinal) && v.answer.queue != []
    ensures var w := v.(answer := v.answer.Receive()); NodeTidy(f, w) && NodeWork(w) > NodeWork(v)
  {
  }

  /** A call of the aggregator is one that it allows, and its rows are from the nodes. */
  lemma CallAllowed(c: Config, s: State, step: Step)
    requires QueryProtocol.Inv(c, s) && AllTidy(c, s) && Enabled(c, s, step) && CallOf(c, s, step).Some?
    ensures var call := CallOf(c, s, step).value;
      && Aggregators.Inv(s.agg) && Aggregators.Allows(s.agg, call)
      && (call.PropagatedRow? ==> call.r in Base(c))
      && (call.StreamEnd? ==> call.stream in s.agg.open)
  {
    hide NodesInv, Aggregators.Settled, AggTidy, NodeTidy, Frontier, Complete, Base;
    assert step.PrimaryRow? ==> c.primary[s.pushed] in c.primary;
  }

  lemma AggregatorAdvances(c: Config, s: State, step: Step)
    requires QueryProtocol.Inv(c, s) && AllTidy(c, s) && Enabled(c, s, step) && CallOf(c, s, step).Some?
    ensures var a := Next(c, s, step).agg;
      AggTidy(a, Base(c)) && AggWork(a) == AggWork(s.agg) + One(step.PrimaryEnd? || step.RangeEnd?)
  {
    hide QueryProtocol.Inv, Next, Aggregators.After, Base, AggTidy;
    CallIsAggStep(c, s, step);
    CallAllowed(c, s, step);
    CallAdvances(s.agg, CallOf(c, s, step).value, Base(c));
  }

  lemma AnswerNext(c: Config, s: State, n: Node)
    requires Enabled(c, s, DeliverAnswer(n))
    ensures var t := Next(c, s, DeliverAnswer(n)); var v := s.nodes[n];
      t == s.(agg := t.agg, nodes := s.nodes[n := v.(answer := v.answer.Receive())])
  {
  }

  lemma AnswerStep(c: Config, s: State, n: Node)
    requires QueryProtocol.Inv(c, s) && AllTidy(c, s) && Enabled(c, s, DeliverAnswer(n))
    ensures Advances(c, s, Next(c, s, DeliverAnswer(n)))
  {
    hide AggInv, Aggregators.Settled, Next, NodeSeen, NodeTidy, NodeWork, AggTidy, Base, AggWork,
         Links.Inv, Propagators.Inv, Propagators.Settled;
    var v := s.nodes[n];
    AggregatorAdvances(c, s, DeliverAnswer(n));
    AnswerNext(c, s, n);
    assert NodeLocal(c.primary, s.announced, s.announcedFinal, c.foreign[n], v);
    ReceivedAnswer(c.foreign[n], v);
    OneNodeWorks(s.nodes, n, v.(answer := v.answer.Receive()));
    NodeStaysTidy(c, s.nodes, n, v.(answer := v.answer.Receive()));
  }

  lemma AggregatorNext(c: Config, s: State, step: Step)
    requires Enabled(c, s, step) && CallOf(c, s, step).Some? && !step.DeliverAnswer?
    ensures var t := Next(c, s, step);
      t == s.(agg := t.agg,
              pushed := s.pushed + if step.PrimaryRow? then 1 else 0,
              storing := match step
                         case StoreRow(k, r) => s.storing[k := s.storing[k] - {r}]
                         case StoreDone(k) => s.storing[..k] + s.storing[k + 1..]
                         case _ => s.storing)
  {
  }

  /** The steps that only the aggregator takes part in. */
  lemma AggregatorStep(c: Config, s: State, step: Step)
    requires QueryProtocol.Inv(c, s) && AllTidy(c, s) && Enabled(c, s, step)
    requires CallOf(c, s, step).Some? && !step.DeliverAnswer?
    ensures Advances(c, s, Next(c, s, step))
  {
    hide QueryProtocol.Inv, Next, NodeTidy, NodeWork, AggTidy, AggWork, Base;
    AggregatorAdvances(c, s, step);
    AggregatorNext(c, s, step);
    match step
    case StoreRow(k, r) => StoringUpdate(s.storing, k, s.storing[k] - {r});
    case StoreDone(k) => StoringRemove(s.storing, k);
    case _ =>
  }

  lemma ReceivedPropagation(f: seq<MessageRef>, v: NodeState)
    requires NodeTidy(f, v) && v.propagation.queue != []
    requires Links.Inv(v.propagation, v.prop.written, v.flushed, v.flushedFinal)
    ensures var w := v.(propagation := v.propagation.Receive());
      NodeTidy(f, w) && NodeWork(w) > NodeWork(v) + |v.propagation.queue[0].refs| + 1
  {
  }

  /** The rows of a propagation are rows of the node that sends it. */
  lemma PropagatedRows(c: Config, s: State, f: seq<MessageRef>, v: NodeState)
    requires NodeLocal(c.primary, s.announced, s.announcedFinal, f, v) && v.propagation.queue != []
    ensures forall r | r in v.propagation.queue[0].refs :: r in f
  {
    hide Propagators.Settled;
    Links.ReceiveKeeps(v.propagation, v.prop.written, v.flushed, v.flushedFinal);
    forall r | r in v.propagation.queue[0].refs ensures r in f {
      assert r in v.prop.written;
      assert r in v.prop.asked + v.prop.list.foreignItems;
    }
  }

  lemma PropagationNext(c: Config, s: State, n: Node)
    requires Enabled(c, s, DeliverPropagation(n))
    ensures var v := s.nodes[n];
      Next(c, s, DeliverPropagation(n))
      == s.(storing := s.storing + [Refs(v.propagation.queue[0].refs)],
            nodes := s.nodes[n := v.(propagation := v.propagation.Receive())])
  {
  }

  lemma PropagationArrives(c: Config, s: State, n: Node, f: seq<MessageRef>, v: NodeState)
    requires n in c.foreign && f == c.foreign[n] && v.propagation.queue != []
    requires NodeLocal(c.primary, s.announced, s.announcedFinal, f, v) && NodeTidy(f, v)
    ensures var w := v.(propagation := v.propagation.Receive());
      && NodeTidy(f, w) && NodeWork(w) > NodeWork(v) + |Refs(v.propagation.queue[0].refs)| + 1
      && Refs(v.propagation.queue[0].refs) <= Base(c)
  {
    hide NodeTidy, NodeWork, Links.Inv, Propagators.Inv, Propagators.Settled;
    ReceivedPropagation(f, v);
    PropagatedRows(c, s, f, v);
    SetNoLarger(v.propagation.queue[0].refs);
  }

  lemma NodeIsLocal(c: Config, s: State, n: Node)
    requires NodesInv(c, s) && n in s.nodes
    ensures n in c.foreign && NodeLocal(c.primary, s.announced, s.announcedFinal, c.foreign[n], s.nodes[n])
  {
    hide NodeLocal, NodeSeen;
  }

  lemma PropagationStep(c: Config, s: State, n: Node)
    requires NodesInv(c, s) && AllTidy(c, s) && Enabled(c, s, DeliverPropagation(n))
    ensures Advances(c, s, Next(c, s, DeliverPropagation(n)))
  {
    hide NodesInv, Next, NodeLocal, NodeTidy, NodeWork, AggTidy, AggWork, Refs, Base;
    var v := s.nodes[n];
    var w := v.(propagation := v.propagation.Receive());
    NodeIsLocal(c, s, n);
    PropagationNext(c, s, n);
    PropagationArrives(c, s, n, c.foreign[n], v);
    StoringAppend(s.storing, Refs(v.propagation.queue[0].refs));
    OneNodeWorks(s.nodes, n, w);
    NodeStaysTidy(c, s.nodes, n, w);
  }

  lemma Pushed(c: Config, s: State)
    requires AggInv(c, s)
    ensures s.pushed <= |c.primary|
  {
  }

  lemma StepAdvances(c: Config, s: State, step: Step)
    requires QueryProtocol.Inv(c, s) && AllTidy(c, s) && Enabled(c, s, step)
    ensures Advances(c, s, Next(c, s, step))
  {
    hide Next, AllTidy, AggInv, NodesInv;
    if step.Announce? {
      Pushed(c, s);
      AnnounceStep(c, s, step);
    } else if step.DeliverAnswer? {
      AnswerStep(c, s, step.n);
    } else if step.DeliverPropagation? {
      PropagationStep(c, s, step.n);
    } else if CallOf(c, s, step).Some? {
      AggregatorStep(c, s, step);
    } else {
      SingleNodeStep(c, s, step);
    }
  }

  lemma {:induction false} RunAdvances(c: Config, s: State, steps: seq<Step>)
    requires QueryProtocol.Inv(c, s) && AllTidy(c, s) && Legal(c, s, steps)
    ensures QueryProtocol.Inv(c, Run(c, s, steps)) && AllTidy(c, Run(c, s, steps))
    ensures |steps| + Work(s) <= Work(Run(c, s, steps))
    decreases |steps|
  {
    hide QueryProtocol.Inv, AllTidy, Work, Next, Enabled;
    if steps != [] {
      StepKeeps(c, s, steps[0]);
      StepAdvances(c, s, steps[0]);
      RunAdvances(c, Next(c, s, steps[0]), steps[1..]);
    }
  }

  // ---------- The bound ----------

  function NodeBound(p: seq<MessageRef>, f: seq<MessageRef>): nat {
    |p| + 9 * |f| + 7
  }

  function NodeBounds(c: Config): map<Node, int> {
    map n | n in c.foreign :: NodeBound(c.primary, c.foreign[n])
  }

  /** How many steps a run can take at most: linear in the results and in the rows stored. */
  ghost function Bound(c: Config): int {
    2 * |c.primary| + 2 + |Base(c)| + Sum(c.foreign.Keys, NodeBounds(c))
  }

  lemma {:induction false} NoLonger(a: seq<MessageRef>, f: seq<MessageRef>)
    requires Ascending(a) && forall r | r in a :: r in f
    ensures |a| <= |f|
  {
    SetAsLarge(a);
    SetNoLarger(f);
    SubsetCardinality(Refs(a), Refs(f));
  }

  lemma {:induction false} SubsetCardinality(a: set<MessageRef>, b: set<MessageRef>)
    requires a <= b
    ensures |a| <= |b|
  {
    if a != {} {
      var x :| x in a;
      SubsetCardinality(a - {x}, b - {x});
    }
  }

  lemma {:induction false} SetAsLarge(a: seq<MessageRef>)
    requires Ascending(a)
    ensures |Refs(a)| == |a|
  {
    if a != [] {
      SetAsLarge(a[1..]);
      assert Refs(a) == {a[0]} + Refs(a[1..]);
      assert a[0] !in a[1..];
    }
  }

  lemma AskedBounded(p: seq<MessageRef>, f: seq<MessageRef>, v: NodeState)
    requires v.rows <= |f| && Propagators.Inv(v.prop, p, f[..v.rows])
    ensures |v.prop.asked| <= |f|
  {
    var all := v.prop.asked + v.prop.list.foreignItems;
    forall r | r in all ensures r in f {
    }
    NoLonger(all, f);
  }

  lemma NodeWorkBounded(c: Config, s: State, n: Node, f: seq<MessageRef>, v: NodeState)
    requires NodeLocal(c.primary, s.announced, s.announcedFinal, f, v) && NodeTidy(f, v)
    ensures NodeWork(v) <= NodeBound(c.primary, f)
  {
    hide Propagators.Settled, Tidy;
    AskedBounded(c.primary[..v.announcement.got], f, v);
  }

  lemma {:induction false} QueriesBounded(queries: seq<Aggregators.RangeQuery>, stored: set<MessageRef>)
    requires forall i | 0 <= i < |queries| :: queries[i].from in stored
    requires forall i, j | 0 <= i < j < |queries| :: queries[i].from.Before(queries[j].from)
    ensures |queries| <= |stored|
  {
    if queries != [] {
      var x := queries[|queries| - 1].from;
      QueriesBounded(queries[..|queries| - 1], stored - {x});
    }
  }

  lemma AggWorkBounded(a: Aggregators.State, base: set<MessageRef>)
    requires Aggregators.Inv(a) && AggTidy(a, base)
    ensures AggWork(a) <= |base|
  {
    QueriesBounded(a.queries, a.stored);
    SubsetCardinality(a.stored, base);
  }

  lemma WorkBounded(c: Config, s: State)
    requires QueryProtocol.Inv(c, s) && AllTidy(c, s)
    ensures Work(s) < Bound(c)
  {
    hide NodeSeen, NodeLocal, NodeTidy, NodeWork, AggTidy, AggWork, Base;
    forall n | n in s.nodes ensures NodeWork(s.nodes[n]) <= NodeBounds(c)[n] {
      NodeWorkBounded(c, s, n, c.foreign[n], s.nodes[n]);
    }
    SumBelow(s.nodes.Keys, Weights(s.nodes), NodeBounds(c));
    AggWorkBounded(s.agg, Base(c));
  }

  lemma {:induction false} SumNotNegative(keys: set<Node>, weights: map<Node, int>)
    requires keys <= weights.Keys && forall n | n in keys :: weights[n] >= 0
    ensures Sum(keys, weights) >= 0
  {
    if keys != {} {
      SumNotNegative(keys - {Pick(keys)}, weights);
    }
  }

  lemma InitialNodeTidy(f: seq<MessageRef>)
    ensures NodeTidy(f, INITIAL_NODE) && NodeWork(INITIAL_NODE) == 0
  {
  }

  lemma InitTidy(c: Config)
    requires c.Valid()
    ensures AllTidy(c, Init(c)) && Work(Init(c)) >= -1
  {
    hide NodeTidy, NodeWork;
    var s := Init(c);
    forall n | n in s.nodes ensures NodeTidy(c.foreign[n], s.nodes[n]) && NodeWork(s.nodes[n]) == 0 {
      InitialNodeTidy(c.foreign[n]);
    }
    SumNotNegative(s.nodes.Keys, Weights(s.nodes));
  }

  /** Every run of a query is finite: it has no more steps than its results and rows allow. */
  lemma RunsAreFinite(c: Config, steps: seq<Step>)
    requires c.Valid() && Legal(c, Init(c), steps)
    ensures |steps| <= Bound(c)
  {
    InitInv(c);
    InitTidy(c);
    RunAdvances(c, Init(c), steps);
    WorkBounded(c, Run(c, Init(c), steps));
  }

  lemma {:induction false} LegalAppend(c: Config, s: State, steps: seq<Step>, step: Step)
    requires Legal(c, s, steps) && Enabled(c, Run(c, s, steps), step)
    ensures Legal(c, s, steps + [step])
    decreases |steps|
  {
    if steps == [] {
      assert steps + [step] == [step];
      assert Legal(c, Next(c, s, step), []);
    } else {
      LegalAppend(c, Next(c, s, steps[0]), steps[1..], step);
      assert (steps + [step])[1..] == steps[1..] + [step];
    }
  }

  /**
   Every query can be completed from wherever it is: any run can be continued to
   one that cannot, and that one has delivered everything and ended all streams.
   */
  lemma EveryRunCompletes(c: Config, steps: seq<Step>) returns (more: seq<Step>)
    requires c.Valid() && Legal(c, Init(c), steps)
    ensures Legal(c, Init(c), steps + more)
    ensures var s := Run(c, Init(c), steps + more);
      && Stuck(c, s) && s.agg.ended && Complete(c, s.agg.queries) && s.nodes.Keys == c.foreign.Keys
      && forall n | n in s.nodes :: s.nodes[n].prop.ended
    decreases Bound(c) - |steps|
  {
    hide QueryProtocol.Inv, Next, Enabled, Complete, Bound, Legal, Run, Init;
    var s := Run(c, Init(c), steps);
    if Stuck(c, s) {
      more := [];
      assert steps + more == steps;
      NoDeadlock(c, steps);
    } else {
      var step :| Enabled(c, s, step);
      LegalAppend(c, Init(c), steps, step);
      RunsAreFinite(c, steps + [step]);
      var rest := EveryRunCompletes(c, steps + [step]);
      more := [step] + rest;
      assert steps + more == steps + [step] + rest;
    }
  }
}
