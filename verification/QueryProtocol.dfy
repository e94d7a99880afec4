/**
 A whole query: one primary node runs an aggregator, every foreign node runs a
 propagator, and messages travel between them in chunks. Steps interleave in any
 order; every chunking is allowed.
 */
module QueryProtocol {
  import opened MessageRefs
  import opened Links
  import AggregationLists
  import Aggregators
  import PropagationLists
  import Propagators

  type Node = Aggregators.Node

  /**
   What a query is run against: the results of the primary and of each node, the
   nodes the aggregator expects and the primary's store at the start.
   */
  datatype Config = Config(
    primary: seq<MessageRef>,
    foreign: map<Node, seq<MessageRef>>,
    expected: set<Node>,
    stored: set<MessageRef>)
  {
    ghost predicate Valid() {
      && Ascending(primary)
      && (forall n | n in foreign :: Ascending(foreign[n]))
      && expected <= foreign.Keys
      && (forall r | r in primary :: r in stored)
    }
  }

  /** One foreign node: its propagator, the rows read so far and its three channels. */
  datatype NodeState = NodeState(
    prop: Propagators.State,
    rows: nat,
    announcement: Link,
    answered: nat,
    answeredFinal: bool,
    answer: Link,
    flushed: nat,
    flushedFinal: bool,
    propagation: Link)

  /**
   `pushed` and `announced` count the primary's rows; `storing` are the delivered
   propagations of which some rows are still being stored.
   */
  datatype State = State(
    agg: Aggregators.State,
    pushed: nat,
    announced: nat,
    announcedFinal: bool,
    nodes: map<Node, NodeState>,
    storing: seq<set<MessageRef>>)

  const INITIAL_NODE: NodeState := NodeState(Propagators.INITIAL, 0, IDLE, 0, false, IDLE, 0, false, IDLE)

  function Init(c: Config): State {
    State(Aggregators.Initial(c.expected, c.stored), 0, 0, false, map n | n in c.foreign :: INITIAL_NODE, [])
  }

  datatype Step =
    | PrimaryRow
    | PrimaryEnd
    | Announce(count: nat, isFinal: bool)
    | DeliverAnnouncement(n: Node)
    | ForeignRow(n: Node)
    | ForeignEnd(n: Node)
    | Answer(n: Node, count: nat, isFinal: bool)
    | DeliverAnswer(n: Node)
    | ByRefRow(n: Node, i: nat)
    | ByRefEnd(n: Node, i: nat)
    | Flush(n: Node, count: nat, isFinal: bool)
    | DeliverPropagation(n: Node)
    | StoreRow(k: nat, r: MessageRef)
    | StoreDone(k: nat)
    | RangeEnd(k: nat)

  /** A chunk is cut from what is buffered; only the final one may be empty. */
  predicate Cuts(sent: nat, available: nat, count: nat, isFinal: bool, sourceEnded: bool) {
    && sent + count <= available
    && (if isFinal then sourceEnded && sent + count == available else count > 0)
  }

  predicate Enabled(c: Config, s: State, step: Step) {
    match step
    case PrimaryRow => s.pushed < |c.primary|
    case PrimaryEnd => s.pushed == |c.primary| && Aggregators.PrimaryStream in s.agg.open
    case Announce(count, isFinal) =>
      && !s.announcedFinal && s.pushed <= |c.primary|
      && Cuts(s.announced, s.pushed, count, isFinal, Aggregators.PrimaryStream !in s.agg.open)
    case DeliverAnnouncement(n) => n in s.nodes && s.nodes[n].announcement.queue != []
    case ForeignRow(n) => n in s.nodes && n in c.foreign && s.nodes[n].rows < |c.foreign[n]|
    case ForeignEnd(n) =>
      n in s.nodes && n in c.foreign && s.nodes[n].rows == |c.foreign[n]| && !s.nodes[n].prop.list.isForeignFinalized
    case Answer(n, count, isFinal) =>
      && n in s.nodes && n in c.foreign && !s.nodes[n].answeredFinal && s.nodes[n].rows <= |c.foreign[n]|
      && Cuts(s.nodes[n].answered, s.nodes[n].rows, count, isFinal, s.nodes[n].prop.list.isForeignFinalized)
    case DeliverAnswer(n) => n in s.nodes && s.nodes[n].answer.queue != []
    case ByRefRow(n, i) => n in s.nodes && i < |s.nodes[n].prop.queries| && s.nodes[n].prop.queries[i].refs != []
    case ByRefEnd(n, i) => n in s.nodes && Propagators.MayEnd(s.nodes[n].prop, i)
    case Flush(n, count, isFinal) =>
      && n in s.nodes && !s.nodes[n].flushedFinal
      && Cuts(s.nodes[n].flushed, |s.nodes[n].prop.written|, count, isFinal, s.nodes[n].prop.ended)
    case DeliverPropagation(n) => n in s.nodes && s.nodes[n].propagation.queue != []
    case StoreRow(k, r) => k < |s.storing| && r in s.storing[k]
    case StoreDone(k) => k < |s.storing| && s.storing[k] == {}
    case RangeEnd(k) => Aggregators.RangeStream(k) in s.agg.open
  }

  function Next(c: Config, s: State, step: Step): State
    requires Enabled(c, s, step)
  {
    match step
    case PrimaryRow => s.(agg := s.agg.OnPrimaryRow(c.primary[s.pushed]), pushed := s.pushed + 1)
    case PrimaryEnd => s.(agg := s.agg.OnStreamEnd(Aggregators.PrimaryStream))
    case Announce(count, isFinal) =>
      var refs := c.primary[s.announced..s.announced + count];
      s.(announced := s.announced + count, announcedFinal := isFinal,
         nodes := map n | n in s.nodes :: s.nodes[n].(announcement := s.nodes[n].announcement.Send(refs, isFinal)))
    case StoreRow(k, r) =>
      s.(agg := s.agg.OnPropagatedRow(r), storing := s.storing[k := s.storing[k] - {r}])
    case StoreDone(k) => s.(agg := s.agg.DoCheck(), storing := s.storing[..k] + s.storing[k + 1..])
    case RangeEnd(k) => s.(agg := s.agg.OnStreamEnd(Aggregators.RangeStream(k)))
    case DeliverAnswer(n) =>
      var v := s.nodes[n];
      var chunk := v.answer.queue[0];
      s.(agg := s.agg.OnForeignResponse(n, chunk.refs, chunk.isFinal),
         nodes := s.nodes[n := v.(answer := v.answer.Receive())])
    case DeliverPropagation(n) =>
      var v := s.nodes[n];
      s.(storing := s.storing + [set r | r in v.propagation.queue[0].refs],
         nodes := s.nodes[n := v.(propagation := v.propagation.Receive())])
    case _ => s.(nodes := s.nodes[step.n := NextNode(c, s.nodes[step.n], step)])
  }

  /** The steps that concern a single foreign node. */
  function NextNode(c: Config, v: NodeState, step: Step): NodeState
    requires step.DeliverAnnouncement? ==> v.announcement.queue != []
    requires step.ForeignRow? ==> step.n in c.foreign && v.rows < |c.foreign[step.n]|
    requires step.Answer? ==> step.n in c.foreign && v.answered + step.count <= |c.foreign[step.n]|
    requires step.ByRefRow? ==> step.i < |v.prop.queries| && v.prop.queries[step.i].refs != []
    requires step.ByRefEnd? ==> step.i < |v.prop.queries|
    requires step.Flush? ==> v.flushed + step.count <= |v.prop.written|
  {
    match step
    case DeliverAnnouncement(_) =>
      var chunk := v.announcement.queue[0];
      v.(prop := v.prop.OnPrimaryResponse(chunk.refs, chunk.isFinal), announcement := v.announcement.Receive())
    case ForeignRow(n) => v.(prop := v.prop.OnForeignRow(c.foreign[n][v.rows]), rows := v.rows + 1)
    case ForeignEnd(_) => v.(prop := v.prop.OnForeignEnd())
    case Answer(n, count, isFinal) =>
      v.(answer := v.answer.Send(c.foreign[n][v.answered..v.answered + count], isFinal),
         answered := v.answered + count, answeredFinal := isFinal)
    case ByRefRow(_, i) => v.(prop := v.prop.OnByRefRow(i))
    case ByRefEnd(_, i) => v.(prop := v.prop.OnByRefEnd(i))
    case Flush(_, count, isFinal) =>
      v.(propagation := v.propagation.Send(v.prop.written[v.flushed..v.flushed + count], isFinal),
         flushed := v.flushed + count, flushedFinal := isFinal)
    case _ => v
  }

  // ---------- The invariant ----------

  /** What a node keeps on its own, given how much the primary has announced. */
  ghost predicate NodeLocal(p: seq<MessageRef>, announced: nat, announcedFinal: bool, f: seq<MessageRef>,
                            v: NodeState) {
    && v.rows <= |f|
    && Links.Inv(v.announcement, p, announced, announcedFinal)
    && Propagators.Inv(v.prop, p[..v.announcement.got], f[..v.rows])
    && Propagators.Settled(v.prop)
    && v.prop.list.isPrimaryFinalized == v.announcement.gotFinal
    && (v.prop.list.isForeignFinalized ==> v.rows == |f|)
    && Links.Inv(v.answer, f, v.answered, v.answeredFinal)
    && v.answered <= v.rows
    && (v.answeredFinal ==> v.answered == |f|)
    && Links.Inv(v.propagation, v.prop.written, v.flushed, v.flushedFinal)
    && (v.flushedFinal ==> v.prop.ended && v.flushed == |v.prop.written|)
  }

  /** A propagated reference has reached the list, or its row is still being stored. */
  ghost predicate Arrived(agg: Aggregators.State, storing: seq<set<MessageRef>>, r: MessageRef) {
    agg.list.Ready(r) || agg.list.Drops(r) || exists b | b in storing :: r in b
  }

  ghost predicate Finalized(agg: Aggregators.State, n: Node) {
    n in agg.responses && agg.responses[n].isFinalized
  }

  ghost predicate Known(agg: Aggregators.State, r: MessageRef) {
    agg.list.Lists(r) || Aggregators.Delivered(agg.queries, r)
  }

  /** What the aggregator has made of the messages received from a node. */
  ghost predicate NodeSeen(agg: Aggregators.State, storing: seq<set<MessageRef>>, isExpected: bool,
                           f: seq<MessageRef>, n: Node, v: NodeState) {
    && v.answer.got <= |f| && v.propagation.got <= |v.prop.written|
    && (v.answer.gotFinal <==> Finalized(agg, n))
    && (isExpected ==> n in agg.responses && forall k | 0 <= k < v.answer.got :: Known(agg, f[k]))
    && (forall k | 0 <= k < v.propagation.got :: Arrived(agg, storing, v.prop.written[k]))
  }

  /** The primary has yet to push only references after `r`. */
  ghost predicate Behind(c: Config, pushed: nat, r: MessageRef) {
    forall j | pushed <= j < |c.primary| :: r.Before(c.primary[j])
  }

  /** Nothing that is ready, dropped or being stored is ahead of the primary's own rows. */
  ghost predicate Frontier(c: Config, s: State) {
    && (forall r | s.agg.list.Ready(r) :: Behind(c, s.pushed, r))
    && (s.agg.list.threshold.Some? ==> Behind(c, s.pushed, s.agg.list.threshold.value))
    && (forall b, r | b in s.storing && r in b :: Behind(c, s.pushed, r))
  }

  ghost predicate Complete(c: Config, queries: seq<Aggregators.RangeQuery>) {
    && (forall r | r in c.primary :: Aggregators.Delivered(queries, r))
    && (forall n, r | n in c.expected && n in c.foreign && r in c.foreign[n] :: Aggregators.Delivered(queries, r))
  }

  /** A listed reference that is not ready was reported by some node. */
  ghost predicate Reported(c: Config, s: State, r: MessageRef) {
    exists n | n in s.nodes && n in c.foreign && s.nodes[n].answer.got <= |c.foreign[n]| ::
      r in c.foreign[n][..s.nodes[n].answer.got]
  }

  ghost predicate AggInv(c: Config, s: State) {
    && Aggregators.Inv(s.agg)
    && c.stored <= s.agg.stored
    && s.announced <= s.pushed <= |c.primary|
    && (Aggregators.PrimaryStream !in s.agg.open ==> s.pushed == |c.primary|)
    && (s.announcedFinal ==> s.announced == |c.primary| && Aggregators.PrimaryStream !in s.agg.open)
    && (forall k | 0 <= k < s.pushed ::
          s.agg.list.Ready(c.primary[k]) || Aggregators.Delivered(s.agg.queries, c.primary[k]))
    && Frontier(c, s)
    && (s.agg.list.threshold.Some? ==> forall n | n in c.expected :: Finalized(s.agg, n))
    && s.agg.responses.Keys <= s.nodes.Keys
    && (forall r | s.agg.list.Lists(r) && !s.agg.list.Ready(r) :: Reported(c, s, r))
    && (s.agg.ended ==> Complete(c, s.agg.queries))
  }

  ghost predicate NodesInv(c: Config, s: State) {
    && s.nodes.Keys == c.foreign.Keys
    && forall n | n in s.nodes ::
      && NodeLocal(c.primary, s.announced, s.announcedFinal, c.foreign[n], s.nodes[n])
      && NodeSeen(s.agg, s.storing, n in c.expected, c.foreign[n], n, s.nodes[n])
  }

  /** The invariant while the check of the current handler may still be due. */
  ghost predicate CoreInv(c: Config, s: State) {
    c.Valid() && AggInv(c, s) && NodesInv(c, s)
  }

  ghost predicate Inv(c: Config, s: State) {
    CoreInv(c, s) && (s.storing == [] ==> Aggregators.Settled(s.agg))
  }

  lemma InitialNodeInv(c: Config, f: seq<MessageRef>, n: Node)
    ensures NodeLocal(c.primary, 0, false, f, INITIAL_NODE)
    ensures NodeSeen(Init(c).agg, [], n in c.expected, f, n, INITIAL_NODE)
  {
    assert c.primary[..0] == [] && f[..0] == [];
    assert Flatten([]) == [];
  }

  lemma InitInv(c: Config)
    requires c.Valid()
    ensures Inv(c, Init(c))
  {
    hide NodeLocal, NodeSeen;
    forall n | n in c.foreign
      ensures NodeLocal(c.primary, 0, false, c.foreign[n], INITIAL_NODE)
      ensures NodeSeen(Init(c).agg, [], n in c.expected, c.foreign[n], n, INITIAL_NODE)
    {
      InitialNodeInv(c, c.foreign[n], n);
    }
  }

  // ---------- The check ----------

  lemma ListedIsNotDropped(l: AggregationLists.State, r: MessageRef)
    requires l.Valid() && l.Lists(r)
    ensures !l.Drops(r)
  {
  }

  lemma CompleteGrows(c: Config, a: seq<Aggregators.RangeQuery>, b: seq<Aggregators.RangeQuery>)
    requires Complete(c, a) && forall r | Aggregators.Delivered(a, r) :: Aggregators.Delivered(b, r)
    ensures Complete(c, b)
  {
  }

  lemma DeliveredGrows(a: Aggregators.State, b: Aggregators.State)
    requires a.queries <= b.queries
    ensures forall r | Aggregators.Delivered(a.queries, r) :: Aggregators.Delivered(b.queries, r)
  {
  }

  /** How the aggregator's bookkeeping may change in a check. */
  ghost predicate Moves(a: Aggregators.State, b: Aggregators.State) {
    && (forall r | Known(a, r) :: Known(b, r))
    && (forall r | Aggregators.Delivered(a.queries, r) :: Aggregators.Delivered(b.queries, r))
    && (forall r | a.list.Ready(r) :: b.list.Ready(r) || (Aggregators.Delivered(b.queries, r) && b.list.Drops(r)))
    && (forall r | b.list.Ready(r) :: a.list.Ready(r))
    && (forall r | a.list.Drops(r) :: b.list.Drops(r))
    && (forall r | b.list.Lists(r) && !b.list.Ready(r) :: a.list.Lists(r) && !a.list.Ready(r))
  }

  lemma CheckDoesMove(a: Aggregators.State)
    requires Aggregators.Inv(a)
    ensures Moves(a, a.DoCheck())
  {
    var b := a.DoCheck();
    Aggregators.CheckKeeps(a);
    Aggregators.CheckMoves(a);
    DeliveredGrows(a, b);
    forall r | b.list.Lists(r) && !b.list.Ready(r) ensures !a.list.Ready(r) {
      ListedIsNotDropped(b.list, r);
    }
  }

  lemma CheckKeepsFrontier(c: Config, s: State)
    requires CoreInv(c, s)
    ensures Frontier(c, s.(agg := s.agg.DoCheck()))
  {
    hide NodesInv, Complete, Reported, Aggregators.Inv, Aggregators.State.DoCheck, Behind;
    Aggregators.CheckMoves(s.agg);
  }

  lemma CheckNeedsFinalized(c: Config, s: State)
    requires CoreInv(c, s) && s.agg.DoCheck().list.threshold.Some?
    ensures forall n | n in c.expected :: Finalized(s.agg, n)
  {
  }

  lemma CheckKeepsAgg(c: Config, s: State)
    requires CoreInv(c, s)
    ensures AggInv(c, s.(agg := s.agg.DoCheck()))
  {
    var b := s.agg.DoCheck();
    Aggregators.CheckKeeps(s.agg);
    CheckDoesMove(s.agg);
    CheckKeepsFrontier(c, s);
    if b.list.threshold.Some? {
      CheckNeedsFinalized(c, s);
    }
    if b.ended {
      if s.agg.ended {
        CompleteGrows(c, s.agg.queries, b.queries);
      } else {
        EndIsComplete(c, s);
      }
    }
    MovesKeepAgg(c, s, b);
  }

  lemma MovesKeepAgg(c: Config, s: State, b: Aggregators.State)
    requires AggInv(c, s)
    requires Aggregators.Inv(b) && Moves(s.agg, b)
    requires b.responses == s.agg.responses && b.stored == s.agg.stored
    requires Aggregators.PrimaryStream in b.open <==> Aggregators.PrimaryStream in s.agg.open
    requires Frontier(c, s.(agg := b))
    requires b.list.threshold.Some? ==> forall n | n in c.expected :: Finalized(b, n)
    requires b.ended ==> Complete(c, b.queries)
    ensures AggInv(c, s.(agg := b))
  {
  }

  /** An aggregator that may end has nothing left that is listed but not delivered. */
  lemma EndIsComplete(c: Config, s: State)
    requires CoreInv(c, s)
    requires !s.agg.IsWaiting() && s.agg.list.items == [] && s.agg.open == {}
    ensures Complete(c, s.agg.queries)
  {
    hide NodeLocal, NodeSeen;
    forall n, r | n in c.expected && n in c.foreign && r in c.foreign[n]
      ensures Aggregators.Delivered(s.agg.queries, r)
    {
      NodeIsComplete(c, s, n, r);
    }
  }

  lemma NodeIsComplete(c: Config, s: State, n: Node, r: MessageRef)
    requires CoreInv(c, s)
    requires !s.agg.IsWaiting() && n in c.expected && r in c.foreign[n]
    ensures Known(s.agg, r)
  {
    assert n in s.nodes;
    var v, f := s.nodes[n], c.foreign[n];
    assert NodeSeen(s.agg, s.storing, true, f, n, v);
    assert Finalized(s.agg, n);
    Links.Drained(v.answer, f, v.answered, v.answeredFinal);
    var k :| 0 <= k < |f| && f[k] == r;
    assert Known(s.agg, f[k]);
  }

  lemma CheckKeepsNodes(c: Config, s: State)
    requires CoreInv(c, s)
    ensures NodesInv(c, s.(agg := s.agg.DoCheck()))
  {
    var t := s.(agg := s.agg.DoCheck());
    Aggregators.CheckKeeps(s.agg);
    CheckDoesMove(s.agg);
    SeenGrows(c, s, t);
  }

  /** Knowing more and having received more of what was shipped keeps every node's record. */
  lemma SeenGrows(c: Config, s: State, t: State)
    requires NodesInv(c, s) && t.nodes == s.nodes
    requires t.announced == s.announced && t.announcedFinal == s.announcedFinal
    requires s.agg.responses == t.agg.responses
    requires forall r | Known(s.agg, r) :: Known(t.agg, r)
    requires forall r | Arrived(s.agg, s.storing, r) :: Arrived(t.agg, t.storing, r)
    ensures NodesInv(c, t)
  {
    hide NodeLocal;
    forall n | n in t.nodes
      ensures NodeSeen(t.agg, t.storing, n in c.expected, c.foreign[n], n, t.nodes[n])
    {
      var v := s.nodes[n];
      assert NodeSeen(s.agg, s.storing, n in c.expected, c.foreign[n], n, v);
    }
  }

  lemma CheckKeepsInv(c: Config, s: State)
    requires CoreInv(c, s)
    ensures Inv(c, s.(agg := s.agg.DoCheck()))
  {
    CheckKeepsAgg(c, s);
    CheckKeepsNodes(c, s);
    Aggregators.CheckKeeps(s.agg);
  }

  // ---------- Steps of a single node ----------

  /** A node may change on its own as long as the aggregator's view of it stays. */
  ghost predicate SameView(v: NodeState, w: NodeState) {
    && w.answer.got == v.answer.got && w.answer.gotFinal == v.answer.gotFinal
    && w.propagation.got == v.propagation.got
    && v.prop.written <= w.prop.written
  }

  lemma SameViewKeepsSeen(agg: Aggregators.State, storing: seq<set<MessageRef>>, isExpected: bool,
                          f: seq<MessageRef>, n: Node, v: NodeState, w: NodeState)
    requires NodeSeen(agg, storing, isExpected, f, n, v) && SameView(v, w)
    ensures NodeSeen(agg, storing, isExpected, f, n, w)
  {
  }

  lemma NodeChangeKeepsNodes(c: Config, s: State, n: Node, w: NodeState)
    requires NodesInv(c, s) && n in s.nodes
    requires NodeLocal(c.primary, s.announced, s.announcedFinal, c.foreign[n], w)
    requires SameView(s.nodes[n], w)
    ensures NodesInv(c, s.(nodes := s.nodes[n := w]))
  {
    SameViewKeepsSeen(s.agg, s.storing, n in c.expected, c.foreign[n], n, s.nodes[n], w);
    ReplaceNode(c, s, n, w);
  }

  lemma ReplaceNode(c: Config, s: State, n: Node, w: NodeState)
    requires NodesInv(c, s) && n in s.nodes
    requires NodeLocal(c.primary, s.announced, s.announcedFinal, c.foreign[n], w)
    requires NodeSeen(s.agg, s.storing, n in c.expected, c.foreign[n], n, w)
    ensures NodesInv(c, s.(nodes := s.nodes[n := w]))
  {
    hide NodeLocal, NodeSeen;
    var t := s.(nodes := s.nodes[n := w]);
    forall m | m in t.nodes
      ensures NodeLocal(c.primary, t.announced, t.announcedFinal, c.foreign[m], t.nodes[m])
      ensures NodeSeen(t.agg, t.storing, m in c.expected, c.foreign[m], m, t.nodes[m])
    {
      assert t.nodes[m] == if m == n then w else s.nodes[m];
    }
  }

  /** The aggregator's part of the invariant reads the nodes only for what they reported. */
  lemma NodeChangeKeepsAgg(c: Config, s: State, t: State)
    requires AggInv(c, s)
    requires t == s.(nodes := t.nodes) && t.nodes.Keys == s.nodes.Keys
    requires forall n | n in s.nodes :: t.nodes[n].answer.got == s.nodes[n].answer.got
    ensures AggInv(c, t)
  {
  }

  lemma NodeChangeKeeps(c: Config, s: State, n: Node, w: NodeState)
    requires CoreInv(c, s) && n in s.nodes
    requires NodeLocal(c.primary, s.announced, s.announcedFinal, c.foreign[n], w)
    requires SameView(s.nodes[n], w)
    ensures CoreInv(c, s.(nodes := s.nodes[n := w]))
  {
    hide NodeLocal, NodeSeen, AggInv;
    NodeChangeKeepsNodes(c, s, n, w);
    var t := s.(nodes := s.nodes[n := w]);
    forall m | m in s.nodes ensures t.nodes[m].answer.got == s.nodes[m].answer.got {
      assert t.nodes[m] == if m == n then w else s.nodes[m];
    }
    NodeChangeKeepsAgg(c, s, t);
  }

  lemma AnnouncementKeeps(p: seq<MessageRef>, announced: nat, announcedFinal: bool, f: seq<MessageRef>, v: NodeState)
    requires Ascending(p) && NodeLocal(p, announced, announcedFinal, f, v) && v.announcement.queue != []
    ensures var chunk := v.announcement.queue[0];
      var w := v.(prop := v.prop.OnPrimaryResponse(chunk.refs, chunk.isFinal),
                  announcement := v.announcement.Receive());
      NodeLocal(p, announced, announcedFinal, f, w) && SameView(v, w)
  {
    var chunk := v.announcement.queue[0];
    Links.ReceiveKeeps(v.announcement, p, announced, announcedFinal);
    Propagators.PrimaryResponseKeeps(v.prop, p[..v.announcement.got], f[..v.rows], chunk.refs, chunk.isFinal);
  }

  lemma ForeignRowKeeps(p: seq<MessageRef>, announced: nat, announcedFinal: bool, f: seq<MessageRef>, v: NodeState)
    requires Ascending(f) && NodeLocal(p, announced, announcedFinal, f, v) && v.rows < |f|
    ensures var w := v.(prop := v.prop.OnForeignRow(f[v.rows]), rows := v.rows + 1);
      NodeLocal(p, announced, announcedFinal, f, w) && SameView(v, w)
  {
    assert f[..v.rows + 1] == f[..v.rows] + [f[v.rows]];
    Propagators.ForeignRowKeeps(v.prop, p[..v.announcement.got], f[..v.rows], f[v.rows]);
  }

  lemma ForeignEndKeeps(p: seq<MessageRef>, announced: nat, announcedFinal: bool, f: seq<MessageRef>, v: NodeState)
    requires NodeLocal(p, announced, announcedFinal, f, v) && v.rows == |f| && !v.prop.list.isForeignFinalized
    ensures var w := v.(prop := v.prop.OnForeignEnd());
      NodeLocal(p, announced, announcedFinal, f, w) && SameView(v, w)
  {
    Propagators.ForeignEndKeeps(v.prop, p[..v.announcement.got], f[..v.rows]);
  }

  lemma SendAnswerKeeps(p: seq<MessageRef>, announced: nat, announcedFinal: bool, f: seq<MessageRef>, v: NodeState,
                        count: nat, isFinal: bool)
    requires NodeLocal(p, announced, announcedFinal, f, v) && !v.answeredFinal
    requires Cuts(v.answered, v.rows, count, isFinal, v.prop.list.isForeignFinalized)
    ensures var w := v.(answer := v.answer.Send(f[v.answered..v.answered + count], isFinal),
        answered := v.answered + count, answeredFinal := isFinal);
      NodeLocal(p, announced, announcedFinal, f, w) && SameView(v, w)
  {
    Links.SendKeeps(v.answer, f, v.answered, count, isFinal);
  }

  lemma ByRefRowKeeps(p: seq<MessageRef>, announced: nat, announcedFinal: bool, f: seq<MessageRef>, v: NodeState,
                      i: nat)
    requires NodeLocal(p, announced, announcedFinal, f, v)
    requires i < |v.prop.queries| && v.prop.queries[i].refs != []
    ensures !v.prop.ended
    ensures var w := v.(prop := v.prop.OnByRefRow(i));
      NodeLocal(p, announced, announcedFinal, f, w) && SameView(v, w)
  {
    Propagators.ByRefRowKeeps(v.prop, p[..v.announcement.got], f[..v.rows], i);
    Links.SourceGrows(v.propagation, v.prop.written, [v.prop.queries[i].refs[0]], v.flushed, v.flushedFinal);
  }

  lemma ByRefEndKeeps(p: seq<MessageRef>, announced: nat, announcedFinal: bool, f: seq<MessageRef>, v: NodeState,
                      i: nat)
    requires NodeLocal(p, announced, announcedFinal, f, v)
    requires Propagators.MayEnd(v.prop, i)
    ensures var w := v.(prop := v.prop.OnByRefEnd(i));
      NodeLocal(p, announced, announcedFinal, f, w) && SameView(v, w)
  {
    Propagators.ByRefEndKeeps(v.prop, p[..v.announcement.got], f[..v.rows], i);
  }

  lemma FlushKeeps(p: seq<MessageRef>, announced: nat, announcedFinal: bool, f: seq<MessageRef>, v: NodeState,
                   count: nat, isFinal: bool)
    requires NodeLocal(p, announced, announcedFinal, f, v) && !v.flushedFinal
    requires Cuts(v.flushed, |v.prop.written|, count, isFinal, v.prop.ended)
    ensures var w := v.(propagation := v.propagation.Send(v.prop.written[v.flushed..v.flushed + count], isFinal),
        flushed := v.flushed + count, flushedFinal := isFinal);
      NodeLocal(p, announced, announcedFinal, f, w) && SameView(v, w)
  {
    Links.SendKeeps(v.propagation, v.prop.written, v.flushed, count, isFinal);
  }

  predicate IsNodeStep(step: Step) {
    step.DeliverAnnouncement? || step.ForeignRow? || step.ForeignEnd? || step.Answer?
    || step.ByRefRow? || step.ByRefEnd? || step.Flush?
  }

  lemma NodeStepIsLocal(c: Config, s: State, step: Step)
    requires c.Valid() && IsNodeStep(step) && Enabled(c, s, step) && step.n in c.foreign
    requires NodeLocal(c.primary, s.announced, s.announcedFinal, c.foreign[step.n], s.nodes[step.n])
    ensures var w := NextNode(c, s.nodes[step.n], step);
      && NodeLocal(c.primary, s.announced, s.announcedFinal, c.foreign[step.n], w)
      && SameView(s.nodes[step.n], w)
  {
    hide NodeLocal, SameView;
    var p, f, v := c.primary, c.foreign[step.n], s.nodes[step.n];
    match step {
      case DeliverAnnouncement(_) => AnnouncementKeeps(p, s.announced, s.announcedFinal, f, v);
      case ForeignRow(_) => ForeignRowKeeps(p, s.announced, s.announcedFinal, f, v);
      case ForeignEnd(_) => ForeignEndKeeps(p, s.announced, s.announcedFinal, f, v);
      case Answer(_, count, isFinal) => SendAnswerKeeps(p, s.announced, s.announcedFinal, f, v, count, isFinal);
      case ByRefRow(_, i) => ByRefRowKeeps(p, s.announced, s.announcedFinal, f, v, i);
      case ByRefEnd(_, i) => ByRefEndKeeps(p, s.announced, s.announcedFinal, f, v, i);
      case Flush(_, count, isFinal) => FlushKeeps(p, s.announced, s.announcedFinal, f, v, count, isFinal);
    }
  }

  lemma NodeStepKeeps(c: Config, s: State, step: Step)
    requires Inv(c, s) && Enabled(c, s, step) && IsNodeStep(step)
    ensures Inv(c, Next(c, s, step))
  {
    hide NodeLocal, NodeSeen, AggInv;
    NodeStepIsLocal(c, s, step);
    NodeChangeKeeps(c, s, step.n, NextNode(c, s.nodes[step.n], step));
  }

  // ---------- Steps of the primary ----------

  /** Extending the list, the store or the records of a node before a check. */
  ghost predicate Grows(a: Aggregators.State, b: Aggregators.State) {
    && b.queries == a.queries && b.ended == a.ended && b.responses == a.responses
    && a.stored <= b.stored
    && b.list.threshold == a.list.threshold
    && (forall r | a.list.Lists(r) :: b.list.Lists(r))
    && (forall r | a.list.Ready(r) :: b.list.Ready(r))
    && (forall r | b.list.Lists(r) && !b.list.Ready(r) :: a.list.Lists(r) && !a.list.Ready(r))
  }

  lemma PushReadyGrows(a: Aggregators.State, r: MessageRef)
    requires Aggregators.Inv(a)
    ensures var b := a.OnPropagatedRow(r);
      && Aggregators.Inv(b) && Grows(a, b) && b.open == a.open
      && (b.list.Ready(r) || b.list.Drops(r))
      && (forall x | b.list.Ready(x) :: a.list.Ready(x) || x == r)
  {
    AggregationLists.PushRefines(a.list, r, true);
  }

  lemma GrowsKeepsAgg(c: Config, s: State, t: State)
    requires AggInv(c, s)
    requires Grows(s.agg, t.agg) && Aggregators.Inv(t.agg)
    requires t.nodes == s.nodes && t.announced == s.announced && t.announcedFinal == s.announcedFinal
    requires s.pushed <= t.pushed <= |c.primary|
    requires Aggregators.PrimaryStream in t.agg.open <==> Aggregators.PrimaryStream in s.agg.open
    requires forall k | s.pushed <= k < t.pushed :: t.agg.list.Ready(c.primary[k])
    requires Frontier(c, t)
    ensures AggInv(c, t)
  {
  }

  lemma PrimaryRowKeepsAgg(c: Config, s: State)
    requires c.Valid() && AggInv(c, s) && s.pushed < |c.primary|
    ensures var b := s.agg.(list := s.agg.list.Push(c.primary[s.pushed], true));
      Aggregators.Inv(b) && Grows(s.agg, b) && AggInv(c, s.(agg := b, pushed := s.pushed + 1))
  {
    var r := c.primary[s.pushed];
    assert r in c.primary && r in s.agg.stored;
    var b := s.agg.OnPropagatedRow(r);
    assert b == s.agg.(list := s.agg.list.Push(r, true));
    PushReadyGrows(s.agg, r);
    assert b.list.Ready(r);
    GrowsKeepsAgg(c, s, s.(agg := b, pushed := s.pushed + 1));
  }

  lemma PrimaryRowKeeps(c: Config, s: State)
    requires Inv(c, s) && s.pushed < |c.primary|
    ensures Inv(c, Next(c, s, PrimaryRow))
  {
    hide NodeLocal, NodeSeen, AggInv;
    var t := s.(agg := s.agg.(list := s.agg.list.Push(c.primary[s.pushed], true)), pushed := s.pushed + 1);
    PrimaryRowKeepsAgg(c, s);
    SeenGrows(c, s, t);
    CheckKeepsInv(c, t);
  }

  /** Ending a stream removes it from those the aggregator waits for. */
  lemma StreamEndKeeps(c: Config, s: State, stream: Aggregators.Stream)
    requires CoreInv(c, s)
    requires stream == Aggregators.PrimaryStream ==> s.pushed == |c.primary|
    ensures Inv(c, s.(agg := s.agg.OnStreamEnd(stream)))
  {
    hide NodeLocal, NodeSeen;
    var b := s.agg.(open := s.agg.open - {stream});
    var t := s.(agg := b);
    forall r | t.agg.list.Lists(r) && !t.agg.list.Ready(r) ensures Reported(c, t, r) {
      assert Reported(c, s, r);
    }
    assert AggInv(c, t);
    SeenGrows(c, s, t);
    CheckKeepsInv(c, t);
  }

  lemma AnnounceKeepsNode(p: seq<MessageRef>, announced: nat, f: seq<MessageRef>, v: NodeState, count: nat,
                          isFinal: bool)
    requires NodeLocal(p, announced, false, f, v) && announced + count <= |p|
    ensures NodeLocal(p, announced + count, isFinal, f,
      v.(announcement := v.announcement.Send(p[announced..announced + count], isFinal)))
  {
    Links.SendKeeps(v.announcement, p, announced, count, isFinal);
  }

  lemma AnnounceKeeps(c: Config, s: State, count: nat, isFinal: bool)
    requires Inv(c, s) && Enabled(c, s, Announce(count, isFinal))
    ensures Inv(c, Next(c, s, Announce(count, isFinal)))
  {
    hide NodeLocal, NodeSeen;
    var t := Next(c, s, Announce(count, isFinal));
    var refs := c.primary[s.announced..s.announced + count];
    forall n | n in t.nodes
      ensures NodeLocal(c.primary, t.announced, t.announcedFinal, c.foreign[n], t.nodes[n])
      ensures NodeSeen(t.agg, t.storing, n in c.expected, c.foreign[n], n, t.nodes[n])
    {
      AnnounceKeepsNode(c.primary, s.announced, c.foreign[n], s.nodes[n], count, isFinal);
      SameViewKeepsSeen(s.agg, s.storing, n in c.expected, c.foreign[n], n, s.nodes[n], t.nodes[n]);
    }
    NodeRecordsKeepAgg(c, s, t);
  }

  lemma NodeRecordsKeepAgg(c: Config, s: State, t: State)
    requires AggInv(c, s)
    requires t == s.(nodes := t.nodes, announced := t.announced, announcedFinal := t.announcedFinal)
    requires t.nodes.Keys == s.nodes.Keys
    requires t.announced <= t.pushed
    requires t.announcedFinal ==> t.announced == |c.primary| && Aggregators.PrimaryStream !in t.agg.open
    requires forall n | n in s.nodes :: t.nodes[n].answer.got == s.nodes[n].answer.got
    ensures AggInv(c, t)
  {
  }

  // ---------- Answers and propagations ----------

  /** A node's references travel only once the primary's rows have passed them. */
  lemma AskedIsBehind(c: Config, s: State, f: seq<MessageRef>, v: NodeState, r: MessageRef)
    requires Ascending(c.primary) && s.announced <= s.pushed <= |c.primary|
    requires s.announcedFinal ==> s.announced == |c.primary|
    requires NodeLocal(c.primary, s.announced, s.announcedFinal, f, v) && r in v.prop.asked
    ensures Behind(c, s.pushed, r)
  {
  }

  /** How an answer changes the aggregator before the check. */
  ghost predicate AnswerEffect(a: Aggregators.State, b: Aggregators.State, n: Node, chunk: Chunk) {
    && b == a.(responses := b.responses, list := b.list)
    && b.list.threshold == a.list.threshold
    && b.responses.Keys == a.responses.Keys + {n}
    && (forall m | m != n :: Finalized(b, m) <==> Finalized(a, m))
    && (Finalized(b, n) <==> Finalized(a, n) || chunk.isFinal)
    && (forall r :: b.list.Lists(r) <==> a.list.Lists(r) || (r in chunk.refs && !a.list.Drops(r)))
    && (forall r :: b.list.Ready(r) <==> a.list.Ready(r))
  }

  lemma AnswerHasEffect(a: Aggregators.State, n: Node, chunk: Chunk)
    requires Aggregators.Inv(a)
    ensures var b := Aggregators.BeforeCheck(a, Aggregators.ForeignResponse(n, chunk.refs, chunk.isFinal));
      && Aggregators.Inv(b) && AnswerEffect(a, b, n, chunk)
      && a.OnForeignResponse(n, chunk.refs, chunk.isFinal) == b.DoCheck()
  {
    Aggregators.PushForeignRefines(a.list, chunk.refs);
    Aggregators.BeforeCheckKeeps(a, Aggregators.ForeignResponse(n, chunk.refs, chunk.isFinal));
  }

  lemma AnswerKeepsLocal(p: seq<MessageRef>, announced: nat, announcedFinal: bool, f: seq<MessageRef>, v: NodeState)
    requires NodeLocal(p, announced, announcedFinal, f, v) && v.answer.queue != []
    ensures NodeLocal(p, announced, announcedFinal, f, v.(answer := v.answer.Receive()))
    ensures !v.answer.gotFinal && v.answer.Receive().got <= |f|
    ensures f[..v.answer.got] + v.answer.queue[0].refs == f[..v.answer.Receive().got]
  {
    Links.ReceiveKeeps(v.answer, f, v.answered, v.answeredFinal);
  }

  lemma AnswerIsSeen(a: Aggregators.State, b: Aggregators.State, storing: seq<set<MessageRef>>, isExpected: bool,
                     f: seq<MessageRef>, n: Node, v: NodeState)
    requires NodeSeen(a, storing, isExpected, f, n, v)
    requires v.answer.queue != [] && v.answer.Receive().got <= |f|
    requires f[..v.answer.got] + v.answer.queue[0].refs == f[..v.answer.Receive().got]
    requires AnswerEffect(a, b, n, v.answer.queue[0])
    requires isExpected ==> a.list.threshold.None?
    ensures NodeSeen(b, storing, isExpected, f, n, v.(answer := v.answer.Receive()))
  {
  }

  lemma OtherNodeSeen(a: Aggregators.State, b: Aggregators.State, storing: seq<set<MessageRef>>, isExpected: bool,
                      f: seq<MessageRef>, n: Node, chunk: Chunk, m: Node, v: NodeState)
    requires NodeSeen(a, storing, isExpected, f, m, v)
    requires AnswerEffect(a, b, n, chunk) && m != n
    ensures NodeSeen(b, storing, isExpected, f, m, v)
  {
  }

  lemma DeliverAnswerNodes(c: Config, s: State, b: Aggregators.State, n: Node)
    requires NodesInv(c, s) && n in s.nodes && s.nodes[n].answer.queue != []
    requires AnswerEffect(s.agg, b, n, s.nodes[n].answer.queue[0])
    requires n in c.expected ==> s.agg.list.threshold.None?
    ensures NodesInv(c, s.(agg := b, nodes := s.nodes[n := s.nodes[n].(answer := s.nodes[n].answer.Receive())]))
  {
    hide NodeLocal, NodeSeen;
    var v := s.nodes[n];
    var t := s.(agg := b, nodes := s.nodes[n := v.(answer := v.answer.Receive())]);
    AnswerKeepsLocal(c.primary, s.announced, s.announcedFinal, c.foreign[n], v);
    AnswerIsSeen(s.agg, b, s.storing, n in c.expected, c.foreign[n], n, v);
    forall m | m in t.nodes
      ensures NodeLocal(c.primary, t.announced, t.announcedFinal, c.foreign[m], t.nodes[m])
      ensures NodeSeen(b, t.storing, m in c.expected, c.foreign[m], m, t.nodes[m])
    {
      if m != n {
        assert t.nodes[m] == s.nodes[m];
        OtherNodeSeen(s.agg, b, s.storing, m in c.expected, c.foreign[m], n, v.answer.queue[0], m, s.nodes[m]);
      }
    }
  }

  lemma DeliverAnswerKeepsAgg(c: Config, s: State, b: Aggregators.State, n: Node, w: NodeState)
    requires AggInv(c, s) && n in s.nodes && n in c.foreign && s.nodes[n].answer.queue != []
    requires s.nodes[n].answer.got <= w.answer.got <= |c.foreign[n]|
    requires c.foreign[n][..s.nodes[n].answer.got] + s.nodes[n].answer.queue[0].refs == c.foreign[n][..w.answer.got]
    requires Aggregators.Inv(b) && AnswerEffect(s.agg, b, n, s.nodes[n].answer.queue[0])
    ensures AggInv(c, s.(agg := b, nodes := s.nodes[n := w]))
  {
  }

  /** A node that has still to finalise keeps the threshold unset if it is expected. */
  lemma NoThresholdYet(c: Config, s: State, n: Node)
    requires AggInv(c, s) && NodesInv(c, s) && n in s.nodes && n in c.expected
    requires !s.nodes[n].answer.gotFinal
    ensures s.agg.list.threshold.None?
  {
    assert NodeSeen(s.agg, s.storing, true, c.foreign[n], n, s.nodes[n]);
  }

  lemma DeliverAnswerKeeps(c: Config, s: State, n: Node)
    requires Inv(c, s) && Enabled(c, s, DeliverAnswer(n))
    ensures Inv(c, Next(c, s, DeliverAnswer(n)))
  {
    hide NodeLocal, NodeSeen, AggInv;
    var v := s.nodes[n];
    var w, chunk := v.(answer := v.answer.Receive()), v.answer.queue[0];
    var b := Aggregators.BeforeCheck(s.agg, Aggregators.ForeignResponse(n, chunk.refs, chunk.isFinal));
    AggOf(c, s);
    AnswerHasEffect(s.agg, n, chunk);
    AnswerKeepsLocal(c.primary, s.announced, s.announcedFinal, c.foreign[n], v);
    if n in c.expected {
      NoThresholdYet(c, s, n);
    }
    DeliverAnswerNodes(c, s, b, n);
    DeliverAnswerKeepsAgg(c, s, b, n, w);
    CheckKeepsInv(c, s.(agg := b, nodes := s.nodes[n := w]));
  }

  lemma AggOf(c: Config, s: State)
    requires AggInv(c, s)
    ensures Aggregators.Inv(s.agg)
    ensures s.announced <= s.pushed <= |c.primary|
    ensures s.announcedFinal ==> s.announced == |c.primary|
  {
  }

  lemma ReceivePropagation(p: seq<MessageRef>, announced: nat, announcedFinal: bool, f: seq<MessageRef>, v: NodeState)
    requires NodeLocal(p, announced, announcedFinal, f, v) && v.propagation.queue != []
    ensures NodeLocal(p, announced, announcedFinal, f, v.(propagation := v.propagation.Receive()))
    ensures v.propagation.Receive().got <= |v.prop.written|
    ensures v.propagation.queue[0].refs == v.prop.written[v.propagation.got..v.propagation.Receive().got]
    ensures forall r | r in v.propagation.queue[0].refs :: r in v.prop.asked
  {
    Links.ReceiveKeeps(v.propagation, v.prop.written, v.flushed, v.flushedFinal);
  }

  lemma PropagationIsSeen(agg: Aggregators.State, storing: seq<set<MessageRef>>, isExpected: bool,
                          f: seq<MessageRef>, n: Node, v: NodeState)
    requires NodeSeen(agg, storing, isExpected, f, n, v) && v.propagation.queue != []
    requires v.propagation.Receive().got <= |v.prop.written|
    requires v.propagation.queue[0].refs == v.prop.written[v.propagation.got..v.propagation.Receive().got]
    requires (set r | r in v.propagation.queue[0].refs) in storing
    ensures NodeSeen(agg, storing, isExpected, f, n, v.(propagation := v.propagation.Receive()))
  {
  }

  lemma DeliverPropagationKeeps(c: Config, s: State, n: Node)
    requires Inv(c, s) && Enabled(c, s, DeliverPropagation(n))
    ensures Inv(c, Next(c, s, DeliverPropagation(n)))
  {
    hide NodeLocal, NodeSeen, AggInv, Aggregators.Settled, Behind;
    var v := s.nodes[n];
    var w, rows := v.(propagation := v.propagation.Receive()), set r | r in v.propagation.queue[0].refs;
    var u := s.(storing := s.storing + [rows]);
    ReceivePropagation(c.primary, s.announced, s.announcedFinal, c.foreign[n], v);
    AggOf(c, s);
    forall r | r in rows ensures Behind(c, s.pushed, r) {
      AskedIsBehind(c, s, c.foreign[n], v, r);
    }
    PropagationStoring(c, s, rows);
    PropagationIsSeen(s.agg, u.storing, n in c.expected, c.foreign[n], n, v);
    ReplaceNode(c, u, n, w);
    NodeChangeKeepsAgg(c, u, u.(nodes := u.nodes[n := w]));
    assert Next(c, s, DeliverPropagation(n)) == u.(nodes := u.nodes[n := w]);
  }

  lemma PropagationStoring(c: Config, s: State, rows: set<MessageRef>)
    requires AggInv(c, s) && NodesInv(c, s) && forall r | r in rows :: Behind(c, s.pushed, r)
    ensures var u := s.(storing := s.storing + [rows]);
      AggInv(c, u) && NodesInv(c, u) && rows in u.storing
  {
    hide NodeLocal, NodeSeen;
    var u := s.(storing := s.storing + [rows]);
    assert u.storing[|s.storing|] == rows;
    SeenGrows(c, s, u);
    StoringKeepsAgg(c, s, u);
  }

  lemma StoringKeepsAgg(c: Config, s: State, t: State)
    requires AggInv(c, s) && t == s.(storing := t.storing)
    requires forall b, r | b in t.storing && r in b :: Behind(c, s.pushed, r)
    ensures AggInv(c, t)
  {
  }

  lemma StoreRowKeeps(c: Config, s: State, k: nat, r: MessageRef)
    requires Inv(c, s) && Enabled(c, s, StoreRow(k, r))
    ensures Inv(c, Next(c, s, StoreRow(k, r)))
  {
    hide NodeLocal, NodeSeen, Aggregators.Settled, Complete, Reported, Behind;
    var t := Next(c, s, StoreRow(k, r));
    PushReadyGrows(s.agg, r);
    assert s.storing[k] in s.storing;
    forall b, x | b in t.storing && x in b ensures Behind(c, s.pushed, x) {
      var i :| 0 <= i < |t.storing| && t.storing[i] == b;
      assert s.storing[i] in s.storing && x in s.storing[i];
    }
    GrowsKeepsAgg(c, s, t);
    forall x | Arrived(s.agg, s.storing, x) ensures Arrived(t.agg, t.storing, x) {
      if !s.agg.list.Ready(x) && !s.agg.list.Drops(x) && x != r {
        var b :| b in s.storing && x in b;
        var i :| 0 <= i < |s.storing| && s.storing[i] == b;
        assert x in t.storing[i] && t.storing[i] in t.storing;
      }
    }
    SeenGrows(c, s, t);
  }

  lemma StoringIsBehind(c: Config, s: State)
    requires AggInv(c, s)
    ensures forall b, r | b in s.storing && r in b :: Behind(c, s.pushed, r)
  {
  }

  lemma StoreDoneKeeps(c: Config, s: State, k: nat)
    requires Inv(c, s) && Enabled(c, s, StoreDone(k))
    ensures Inv(c, Next(c, s, StoreDone(k)))
  {
    hide NodeLocal, NodeSeen, AggInv, NodesInv, Aggregators.Settled, Aggregators.State.DoCheck, Behind;
    var t := s.(storing := s.storing[..k] + s.storing[k + 1..]);
    assert forall b | b in t.storing :: b in s.storing;
    forall b | b in s.storing && b != {} ensures b in t.storing {
      var i :| 0 <= i < |s.storing| && s.storing[i] == b;
      assert t.storing[if i < k then i else i - 1] == b;
    }
    SeenGrows(c, s, t);
    StoringIsBehind(c, s);
    StoringKeepsAgg(c, s, t);
    CheckKeepsInv(c, t);
  }

  lemma StepKeeps(c: Config, s: State, step: Step)
    requires Inv(c, s) && Enabled(c, s, step)
    ensures Inv(c, Next(c, s, step))
  {
    hide CoreInv;
    match step
    case PrimaryRow => PrimaryRowKeeps(c, s);
    case PrimaryEnd => StreamEndKeeps(c, s, Aggregators.PrimaryStream);
    case Announce(count, isFinal) => AnnounceKeeps(c, s, count, isFinal);
    case DeliverAnswer(n) => DeliverAnswerKeeps(c, s, n);
    case DeliverPropagation(n) => DeliverPropagationKeeps(c, s, n);
    case StoreRow(k, r) => StoreRowKeeps(c, s, k, r);
    case StoreDone(k) => StoreDoneKeeps(c, s, k);
    case RangeEnd(k) => StreamEndKeeps(c, s, Aggregators.RangeStream(k));
    case _ => NodeStepKeeps(c, s, step);
  }

  // ---------- Runs ----------

  ghost predicate Legal(c: Config, s: State, steps: seq<Step>)
    decreases |steps|
  {
    steps == [] || (Enabled(c, s, steps[0]) && Legal(c, Next(c, s, steps[0]), steps[1..]))
  }

  ghost function Run(c: Config, s: State, steps: seq<Step>): State
    requires Legal(c, s, steps)
    decreases |steps|
  {
    if steps == [] then s else Run(c, Next(c, s, steps[0]), steps[1..])
  }

  lemma {:induction false} RunKeeps(c: Config, s: State, steps: seq<Step>)
    requires Inv(c, s) && Legal(c, s, steps)
    ensures Inv(c, Run(c, s, steps))
    decreases |steps|
  {
    hide Inv;
    if steps != [] {
      StepKeeps(c, s, steps[0]);
      RunKeeps(c, Next(c, s, steps[0]), steps[1..]);
    }
  }

  /**
   Completeness: whenever the aggregator has ended its output, every reference of
   the primary's result and of the result of every expected node is among the
   rows of a query it issued.
   */
  lemma EndedQueryIsComplete(c: Config, steps: seq<Step>)
    requires c.Valid() && Legal(c, Init(c), steps)
    requires Run(c, Init(c), steps).agg.ended
    ensures Complete(c, Run(c, Init(c), steps).agg.queries)
  {
    InitInv(c);
    RunKeeps(c, Init(c), steps);
  }

  /** No step is left but to deliver answers of the nodes in `held`. */
  ghost predicate StuckBut(c: Config, s: State, held: set<Node>) {
    forall step :: Enabled(c, s, step) ==> step.DeliverAnswer? && step.n in held
  }

  ghost predicate Stuck(c: Config, s: State) {
    StuckBut(c, s, {})
  }

  lemma StuckIs(c: Config, s: State, held: set<Node>, step: Step)
    requires StuckBut(c, s, held) && !(step.DeliverAnswer? && step.n in held)
    ensures !Enabled(c, s, step)
  {
  }

  /** A node without enabled steps has read and received everything, ... */
  lemma StuckInputs(c: Config, s: State, held: set<Node>, n: Node, f: seq<MessageRef>, v: NodeState)
    requires StuckBut(c, s, held) && n in s.nodes && s.nodes[n] == v && n in c.foreign && c.foreign[n] == f
    requires NodeLocal(c.primary, s.announced, s.announcedFinal, f, v)
    requires s.announcedFinal && s.announced == |c.primary|
    ensures v.rows == |f| && v.announcement.got == |c.primary| && v.prop.list.IsFinalized()
  {
    hide Propagators.Inv, Propagators.Settled, StuckBut;
    StuckIs(c, s, held, DeliverAnnouncement(n));
    StuckIs(c, s, held, ForeignRow(n));
    StuckIs(c, s, held, ForeignEnd(n));
  }

  /** ... its answers have been received, ... */
  lemma StuckAnswers(c: Config, s: State, held: set<Node>, n: Node, f: seq<MessageRef>, v: NodeState)
    requires StuckBut(c, s, held) && n in s.nodes && s.nodes[n] == v && n in c.foreign && c.foreign[n] == f
    requires NodeLocal(c.primary, s.announced, s.announcedFinal, f, v)
    requires v.rows == |f| && v.prop.list.IsFinalized() && n !in held
    ensures v.answer.gotFinal && v.answer.got == |f|
  {
    hide Propagators.Inv, Propagators.Settled, StuckBut;
    StuckIs(c, s, held, Answer(n, v.rows - v.answered, true));
    StuckIs(c, s, held, DeliverAnswer(n));
  }

  /** ... has no query open ... */
  lemma StuckQueries(c: Config, s: State, held: set<Node>, n: Node)
    requires StuckBut(c, s, held) && n in s.nodes
    ensures s.nodes[n].prop.queries == []
  {
    hide StuckBut;
    var queries := s.nodes[n].prop.queries;
    forall i | 0 <= i < |queries| ensures queries[i].refs == [] {
      StuckIs(c, s, held, ByRefRow(n, i));
    }
    StuckIs(c, s, held, ByRefEnd(n, 0));
  }

  /** ... and everything it wrote has been received. */
  lemma StuckOutputs(c: Config, s: State, held: set<Node>, n: Node, f: seq<MessageRef>, v: NodeState)
    requires StuckBut(c, s, held) && n in s.nodes && s.nodes[n] == v
    requires NodeLocal(c.primary, s.announced, s.announcedFinal, f, v)
    ensures v.prop.ended ==> v.propagation.got == |v.prop.written|
  {
    hide Propagators.Inv, Propagators.Settled, StuckBut;
    if v.prop.ended {
      assert !Enabled(c, s, Flush(n, |v.prop.written| - v.flushed, true)) by {
        StuckIs(c, s, held, Flush(n, |v.prop.written| - v.flushed, true));
      }
      assert v.propagation.queue == [] by {
        StuckIs(c, s, held, DeliverPropagation(n));
      }
    }
  }

  /** A node without enabled steps has ended its stream, and what the primary lacks has arrived. */
  lemma StuckNode(c: Config, s: State, held: set<Node>, n: Node)
    requires Inv(c, s) && StuckBut(c, s, held) && n in s.nodes
    ensures var v, f := s.nodes[n], c.foreign[n];
      && v.prop.ended && (n !in held ==> v.answer.gotFinal && v.answer.got == |f|)
      && (forall r | r in f && r !in c.primary :: r in v.prop.written[..v.propagation.got])
  {
    hide AggInv, NodeSeen, Propagators.Inv, Propagators.Settled, Links.Inv, StuckBut;
    StuckPrimary(c, s, held);
    StuckInputs(c, s, held, n, c.foreign[n], s.nodes[n]);
    if n !in held {
      StuckAnswers(c, s, held, n, c.foreign[n], s.nodes[n]);
    }
    StuckQueries(c, s, held, n);
    StuckOutputs(c, s, held, n, c.foreign[n], s.nodes[n]);
    StuckPropagator(s.nodes[n], c.primary, c.foreign[n]);
  }

  lemma StuckPropagator(v: NodeState, p: seq<MessageRef>, f: seq<MessageRef>)
    requires v.rows == |f| && v.announcement.got == |p|
    requires Propagators.Inv(v.prop, p[..v.announcement.got], f[..v.rows]) && Propagators.Settled(v.prop)
    requires v.prop.list.IsFinalized() && v.prop.queries == []
    requires v.prop.ended ==> v.propagation.got == |v.prop.written|
    ensures v.prop.ended
    ensures forall r | r in f && r !in p :: r in v.prop.written[..v.propagation.got]
  {
    assert p[..v.announcement.got] == p && f[..v.rows] == f;
    assert v.prop.written[..v.propagation.got] == v.prop.written;
    forall r | r in f && r !in p ensures r in v.prop.written {
      assert r in v.prop.asked + v.prop.list.foreignItems;
      assert r in v.prop.asked;
    }
  }

  lemma StuckPrimary(c: Config, s: State, held: set<Node>)
    requires AggInv(c, s) && StuckBut(c, s, held)
    ensures s.pushed == |c.primary| == s.announced && s.announcedFinal
    ensures s.agg.open == {} && s.storing == []
  {
    hide StuckBut, Aggregators.Inv, Frontier, Reported, Complete;
    StuckIs(c, s, held, PrimaryRow);
    StuckIs(c, s, held, PrimaryEnd);
    StuckIs(c, s, held, Announce(s.pushed - s.announced, true));
    forall x ensures x !in s.agg.open {
      match x
      case PrimaryStream =>
      case RangeStream(k) => StuckIs(c, s, held, RangeEnd(k));
    }
    StuckIs(c, s, held, StoreDone(0));
    forall r ensures s.storing != [] ==> r !in s.storing[0] {
      StuckIs(c, s, held, StoreRow(0, r));
    }
  }

  /** In a stuck state a listed reference is ready. */
  lemma StuckListIsReady(c: Config, s: State, r: MessageRef)
    requires Inv(c, s) && Stuck(c, s) && s.agg.list.Lists(r)
    ensures s.agg.list.Ready(r)
  {
    hide NodeLocal, NodeSeen;
    if !s.agg.list.Ready(r) {
      assert Reported(c, s, r);
      var n :| n in s.nodes && n in c.foreign && s.nodes[n].answer.got <= |c.foreign[n]|
        && r in c.foreign[n][..s.nodes[n].answer.got];
      StuckPrimary(c, s, {});
      if r in c.primary {
        PrimaryRefIsReady(c, s, r);
      } else {
        StuckNode(c, s, {}, n);
        ShippedRefIsReady(s.agg, s.storing, n in c.expected, c.foreign[n], n, s.nodes[n], r);
      }
    }
  }

  lemma PrimaryRefIsReady(c: Config, s: State, r: MessageRef)
    requires AggInv(c, s) && s.pushed == |c.primary| && r in c.primary && s.agg.list.Lists(r)
    ensures s.agg.list.Ready(r)
  {
  }

  lemma ShippedRefIsReady(agg: Aggregators.State, storing: seq<set<MessageRef>>, isExpected: bool,
                          f: seq<MessageRef>, n: Node, v: NodeState, r: MessageRef)
    requires agg.list.Valid() && agg.list.Lists(r) && storing == []
    requires NodeSeen(agg, storing, isExpected, f, n, v) && r in v.prop.written[..v.propagation.got]
    ensures agg.list.Ready(r)
  {
  }

  lemma StuckIsNotWaiting(c: Config, s: State)
    requires Inv(c, s) && Stuck(c, s)
    ensures !s.agg.IsWaiting()
  {
    forall n | n in s.agg.responses ensures s.agg.responses[n].isFinalized {
      StuckNode(c, s, {}, n);
      assert NodeSeen(s.agg, s.storing, n in c.expected, c.foreign[n], n, s.nodes[n]);
    }
  }

  /**
   No deadlock: a run that cannot be continued has ended every propagation
   stream and the aggregator, whose output is then complete.
   */
  lemma NoDeadlock(c: Config, steps: seq<Step>)
    requires c.Valid() && Legal(c, Init(c), steps)
    requires Stuck(c, Run(c, Init(c), steps))
    ensures var s := Run(c, Init(c), steps);
      && s.agg.ended && Complete(c, s.agg.queries)
      && s.agg.list.items == [] && s.agg.open == {} && s.storing == []
      && s.nodes.Keys == c.foreign.Keys
      && (forall n | n in s.nodes :: s.nodes[n].prop.ended)
  {
    var s := Run(c, Init(c), steps);
    InitInv(c);
    RunKeeps(c, Init(c), steps);
    StuckPrimary(c, s, {});
    StuckIsNotWaiting(c, s);
    forall n | n in s.nodes ensures s.nodes[n].prop.ended {
      StuckNode(c, s, {}, n);
    }
    if s.agg.list.items != [] {
      var x := s.agg.list.items[0];
      AggregationLists.MemberIsListed(s.agg.list, x);
      StuckListIsReady(c, s, x.messageRef);
      AggregationLists.OneItemPerRef(s.agg.list, x, AggregationLists.Item(x.messageRef, true));
    }
  }

  /** If no closing query overtakes one with rows left, no row is written to an ended stream. */
  lemma NoWriteAfterEnd(c: Config, steps: seq<Step>, n: Node, i: nat)
    requires c.Valid() && Legal(c, Init(c), steps)
    requires Enabled(c, Run(c, Init(c), steps), ByRefRow(n, i))
    ensures !Run(c, Init(c), steps).nodes[n].prop.ended
  {
    var s := Run(c, Init(c), steps);
    InitInv(c);
    RunKeeps(c, Init(c), steps);
    ByRefRowKeeps(c.primary, s.announced, s.announcedFinal, c.foreign[n], s.nodes[n], i);
  }
}
