/**
 The node's share of the assigned streams: every node of a cluster feeds the
 stream parts that hash to its own index to its synchronizer.
 */
module LogStoreNetworkConfigs {
  import opened SetMembershipSynchronizers

  type StreamPart = Element

  /** A stream as the set of its parts. */
  datatype Stream = Stream(parts: set<StreamPart>)

  /** The parts of `stream` that `hash` sends to `index`. */
  function CreateMyStreamParts(stream: Stream, hash: StreamPart -> int, index: int): set<StreamPart> {
    set p | p in stream.parts && hash(p) == index
  }

  function MyPartsOf(streams: seq<Stream>, hash: StreamPart -> int, index: int): set<StreamPart> {
    if streams == [] then {}
    else MyPartsOf(streams[..|streams| - 1], hash, index) + CreateMyStreamParts(streams[|streams| - 1], hash, index)
  }

  class LogStoreNetworkConfig {
    const keyToArrayIndex: StreamPart -> int
    const myIndexInCluster: int
    const synchronizer: SetMembershipSynchronizer
    /** What the listener has been told: parts added and not removed since. */
    var listened: set<StreamPart>

    ghost predicate Valid()
      reads this, synchronizer
    {
      listened == synchronizer.state
    }

    constructor (keyToArrayIndex: StreamPart -> int, myIndexInCluster: int)
      ensures Valid() && synchronizer.View() == INITIAL
      ensures this.keyToArrayIndex == keyToArrayIndex && this.myIndexInCluster == myIndexInCluster
    {
      this.keyToArrayIndex, this.myIndexInCluster := keyToArrayIndex, myIndexInCluster;
      synchronizer := new SetMembershipSynchronizer();
      listened := {};
    }

    /** The poller's callback. */
    method OnPoll(streams: seq<Stream>, block: int)
      requires Valid()
      modifies this, synchronizer
      ensures Valid()
      ensures synchronizer.View()
           == old(synchronizer.View()).IngestSnapshot(MyPartsOf(streams, keyToArrayIndex, myIndexInCluster), block)
    {
      var streamParts: set<StreamPart> := {};
      for i := 0 to |streams|
        invariant streamParts == MyPartsOf(streams[..i], keyToArrayIndex, myIndexInCluster)
      {
        streamParts := streamParts + CreateMyStreamParts(streams[i], keyToArrayIndex, myIndexInCluster);
        assert streams[..i + 1][..i] == streams[..i];
      }
      assert streams[..|streams|] == streams;
      var diff := synchronizer.IngestSnapshot(streamParts, block);
      HandleDiff(diff);
    }

    /** The event listener's callback. */
    method OnEvent(stream: Stream, operation: Operation, block: int)
      requires Valid()
      modifies this, synchronizer
      ensures Valid()
      ensures synchronizer.View() == old(synchronizer.View()).IngestPatch(
        CreateMyStreamParts(stream, keyToArrayIndex, myIndexInCluster), operation, block)
    {
      var streamParts := CreateMyStreamParts(stream, keyToArrayIndex, myIndexInCluster);
      var diff := synchronizer.IngestPatch(streamParts, operation, block);
      HandleDiff(diff);
    }

    method HandleDiff(diff: Diff)
      modifies this
      ensures listened == diff.Follow(old(listened))
    {
      listened := listened + diff.added;
      listened := listened - diff.removed;
    }
  }

  // ---------- A run of the whole cluster ----------

  /** What the chain reports: all streams at a block, or one stream assigned or unassigned. */
  datatype Report =
    | Poll(streams: seq<Stream>, block: int)
    | Event(stream: Stream, operation: Operation, block: int)

  function AllPartsOf(streams: seq<Stream>): set<StreamPart> {
    if streams == [] then {} else AllPartsOf(streams[..|streams| - 1]) + streams[|streams| - 1].parts
  }

  /** A report as an unsharded synchronizer would ingest it. */
  function Unsharded(r: Report): Update {
    match r
    case Poll(streams, block) => Snapshot(AllPartsOf(streams), block)
    case Event(stream, operation, block) => Patch(stream.parts, operation, block)
  }

  /** A report as node `index` ingests it. */
  function Sharded(r: Report, hash: StreamPart -> int, index: int): Update {
    match r
    case Poll(streams, block) => Snapshot(MyPartsOf(streams, hash, index), block)
    case Event(stream, operation, block) => Patch(CreateMyStreamParts(stream, hash, index), operation, block)
  }

  function RunUnsharded(rs: seq<Report>): State {
    if rs == [] then INITIAL else Ingest(RunUnsharded(rs[..|rs| - 1]), Unsharded(rs[|rs| - 1]))
  }

  function RunSharded(rs: seq<Report>, hash: StreamPart -> int, index: int): State {
    if rs == [] then INITIAL
    else Ingest(RunSharded(rs[..|rs| - 1], hash, index), Sharded(rs[|rs| - 1], hash, index))
  }

  lemma {:induction false} MyPartsAreFiltered(streams: seq<Stream>, hash: StreamPart -> int, index: int)
    ensures MyPartsOf(streams, hash, index) == set p | p in AllPartsOf(streams) && hash(p) == index
  {
    if streams != [] {
      MyPartsAreFiltered(streams[..|streams| - 1], hash, index);
    }
  }

  /** `s` is `t` filtered to the parts of `index`. */
  ghost predicate IsShard(s: State, t: State, hash: StreamPart -> int, index: int) {
    && s.lastSnapshotSequenceNo == t.lastSnapshotSequenceNo
    && s.state == (set p | p in t.state && hash(p) == index)
    && s.lastSequenceNoByElement ==
       map p | p in t.lastSequenceNoByElement && hash(p) == index :: t.lastSequenceNoByElement[p]
  }

  lemma PollShards(s: State, t: State, streams: seq<Stream>, block: int, hash: StreamPart -> int, index: int)
    requires IsShard(s, t, hash, index)
    ensures IsShard(s.IngestSnapshot(MyPartsOf(streams, hash, index), block),
                    t.IngestSnapshot(AllPartsOf(streams), block), hash, index)
  {
    hide MyPartsOf, AllPartsOf;
    MyPartsAreFiltered(streams, hash, index);
  }

  /** The elements of a patch that are new to the own part are the own part of the new ones. */
  lemma NonStaleShards(s: State, t: State, stream: Stream, block: int, hash: StreamPart -> int, index: int)
    requires IsShard(s, t, hash, index)
    ensures s.NonStale(CreateMyStreamParts(stream, hash, index), block)
         == set p | p in t.NonStale(stream.parts, block) && hash(p) == index
  {
  }

  lemma EventShards(s: State, t: State, stream: Stream, operation: Operation, block: int, hash: StreamPart -> int,
                    index: int)
    requires IsShard(s, t, hash, index)
    ensures IsShard(s.IngestPatch(CreateMyStreamParts(stream, hash, index), operation, block),
                    t.IngestPatch(stream.parts, operation, block), hash, index)
  {
    hide State.NonStale, CreateMyStreamParts;
    NonStaleShards(s, t, stream, block, hash, index);
  }

  lemma IngestShards(s: State, t: State, r: Report, hash: StreamPart -> int, index: int)
    requires IsShard(s, t, hash, index)
    ensures IsShard(Ingest(s, Sharded(r, hash, index)), Ingest(t, Unsharded(r)), hash, index)
  {
    hide IsShard, State.IngestSnapshot, State.IngestPatch, MyPartsOf, AllPartsOf, CreateMyStreamParts;
    match r
    case Poll(streams, block) => PollShards(s, t, streams, block, hash, index);
    case Event(stream, operation, block) => EventShards(s, t, stream, operation, block, hash, index);
  }

  /** Sharding commutes with synchronising, for every run of reports. */
  lemma {:induction false} ShardIsFilteredState(rs: seq<Report>, hash: StreamPart -> int, index: int)
    ensures IsShard(RunSharded(rs, hash, index), RunUnsharded(rs), hash, index)
  {
    if rs != [] {
      var rest := rs[..|rs| - 1];
      ShardIsFilteredState(rest, hash, index);
      IngestShards(RunSharded(rest, hash, index), RunUnsharded(rest), rs[|rs| - 1], hash, index);
    }
  }

  /** What node `index` answers when asked for its stream parts. */
  function GetStreamParts(rs: seq<Report>, hash: StreamPart -> int, index: int): set<StreamPart> {
    RunSharded(rs, hash, index).state
  }

  /** In a cluster every assigned part is held by exactly one node, and no other part is held. */
  lemma ShardsPartition(rs: seq<Report>, hash: StreamPart -> int, clusterSize: nat)
    requires forall p :: 0 <= hash(p) < clusterSize
    ensures forall i, j | 0 <= i < j < clusterSize :: GetStreamParts(rs, hash, i) !! GetStreamParts(rs, hash, j)
    ensures var all := RunUnsharded(rs).state;
      forall p :: p in all <==> exists i | 0 <= i < clusterSize :: p in GetStreamParts(rs, hash, i)
  {
    var all := RunUnsharded(rs).state;
    forall i | 0 <= i < clusterSize ensures GetStreamParts(rs, hash, i) == set p | p in all && hash(p) == i {
      ShardIsFilteredState(rs, hash, i);
    }
    forall p | p in all ensures exists i | 0 <= i < clusterSize :: p in GetStreamParts(rs, hash, i) {
      assert p in GetStreamParts(rs, hash, hash(p));
    }
  }
}
