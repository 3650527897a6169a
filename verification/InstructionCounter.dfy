/** How many instructions each node has been sent for each stream, so that statuses which do not
    reflect the latest one can be told apart.
 */
module InstructionCounters {
  import opened Identifiers

  type Counters = map<NodeId, map<StreamKey, nat>>

  datatype StreamStatus = StreamStatus(neighbors: set<NodeId>, counter: int)

  function CountersOf(c: Counters, node: NodeId): map<StreamKey, nat> {
    if node in c then c[node] else map[]
  }

  function CounterAt(c: Counters, node: NodeId, k: StreamKey): nat {
    if node in c && k in c[node] then c[node][k] else 0
  }

  function Initialised(c: Counters, node: NodeId, k: StreamKey): Counters {
    c[node := CountersOf(c, node)[k := CounterAt(c, node, k)]]
  }

  function AllInitialised(c: Counters, node: NodeId, keys: set<StreamKey>): Counters {
    if keys == {} then c else c[node := map k | k in CountersOf(c, node).Keys + keys :: CounterAt(c, node, k)]
  }

  lemma OneMoreInitialised(c: Counters, node: NodeId, keys: set<StreamKey>, k: StreamKey)
    ensures AllInitialised(c, node, keys + {k}) == Initialised(AllInitialised(c, node, keys), node, k)
    ensures CounterAt(AllInitialised(c, node, keys), node, k) == CounterAt(c, node, k)
  {
    var a := AllInitialised(c, node, keys);
    assert keys == {} ==> keys + {k} == {k};
    assert AllInitialised(c, node, keys + {k})[node] == Initialised(a, node, k)[node];
    assert AllInitialised(c, node, keys + {k}) == c[node := Initialised(a, node, k)[node]];
    assert Initialised(a, node, k) == c[node := Initialised(a, node, k)[node]];
  }

  function Bumped(c: Counters, node: NodeId, k: StreamKey): Counters {
    c[node := CountersOf(c, node)[k := CounterAt(c, node, k) + 1]]
  }

  function AllBumped(c: Counters, nodes: set<NodeId>, k: StreamKey): Counters {
    map n | n in c.Keys + nodes ::
      if n in nodes then CountersOf(c, n)[k := CounterAt(c, n, k) + 1] else c[n]
  }

  /** Each of the nodes is counted once, on this stream only. */
  lemma EachIsCountedOnce(c: Counters, nodes: set<NodeId>, k: StreamKey, n: NodeId, j: StreamKey)
    ensures CounterAt(AllBumped(c, nodes, k), n, j) == CounterAt(c, n, j) + if n in nodes && j == k then 1 else 0
  {
  }

  function WithoutStream(c: Counters, k: StreamKey): Counters {
    map n | n in c :: c[n] - {k}
  }

  /** The streams whose status reflects the latest instruction, or says the node has left. */
  function Fresh(c: Counters, streams: map<StreamKey, StreamStatus>, source: NodeId): map<StreamKey, StreamStatus> {
    map k | k in streams && (streams[k].counter >= CounterAt(c, source, k) || streams[k].counter == -1) :: streams[k]
  }

  /** The fresh ones among some of the streams. */
  function FreshAmong(
      c: Counters, streams: map<StreamKey, StreamStatus>, source: NodeId, keys: set<StreamKey>)
      : map<StreamKey, StreamStatus> {
    map k | k in Fresh(c, streams, source) && k in keys :: streams[k]
  }

  lemma OneMoreFresh(
      c: Counters, streams: map<StreamKey, StreamStatus>, source: NodeId, keys: set<StreamKey>, k: StreamKey)
    requires k in streams
    ensures FreshAmong(c, streams, source, keys + {k})
            == if streams[k].counter >= CounterAt(c, source, k) || streams[k].counter == -1
               then FreshAmong(c, streams, source, keys)[k := streams[k]] else FreshAmong(c, streams, source, keys)
    ensures FreshAmong(c, streams, source, {}) == map[]
    ensures FreshAmong(c, streams, source, streams.Keys) == Fresh(c, streams, source)
  {
  }

  /** A status is dropped exactly when it is behind the last instruction and does not say that the node
      has left.
   */
  lemma DroppedIffBehind(c: Counters, streams: map<StreamKey, StreamStatus>, source: NodeId)
    ensures forall k :: k in Fresh(c, streams, source) <==>
              k in streams
              && (source in c && k in c[source] ==> streams[k].counter >= c[source][k] || streams[k].counter == -1)
              && (source !in c || k !in c[source] ==> streams[k].counter >= -1)
    ensures forall k :: k in Fresh(c, streams, source) ==> Fresh(c, streams, source)[k] == streams[k]
  {
  }

  lemma OnlyOneIsCounted(c: Counters, node: NodeId, j: StreamKey)
    ensures CounterAt(Bumped(c, node, j), node, j) == CounterAt(c, node, j) + 1
    ensures forall n, k :: n != node || k != j ==> CounterAt(Bumped(c, node, j), n, k) == CounterAt(c, n, k)
  {
  }

  class InstructionCounter {
    var counters: Counters

    constructor ()
      ensures counters == map[]
    {
      counters := map[];
    }

    method SetOrIncrement(nodeId: NodeId, streamKey: StreamKey) returns (counter: nat)
      modifies this
      ensures counters == Bumped(old(counters), nodeId, streamKey) && counter == CounterAt(counters, nodeId, streamKey)
      ensures counter == CounterAt(old(counters), nodeId, streamKey) + 1
      ensures forall n, k ::
                n != nodeId || k != streamKey ==> CounterAt(counters, n, k) == CounterAt(old(counters), n, k)
    {
      OnlyOneIsCounted(counters, nodeId, streamKey);
      var _ := GetAndSetIfNecessary(nodeId, streamKey);
      counters := counters[nodeId := counters[nodeId][streamKey := counters[nodeId][streamKey] + 1]];
      counter := counters[nodeId][streamKey];
      assert counters[nodeId] == CountersOf(old(counters), nodeId)[streamKey := counter];
      assert counters == old(counters)[nodeId := counters[nodeId]];
    }

    method FilterStatus(streams: map<StreamKey, StreamStatus>, source: NodeId)
        returns (filtered: map<StreamKey, StreamStatus>)
      modifies this
      ensures filtered == Fresh(old(counters), streams, source)
      ensures counters == AllInitialised(old(counters), source, streams.Keys)
      ensures forall k :: k in filtered <==>
                k in streams
                && (source in old(counters) && k in old(counters)[source] ==>
                    streams[k].counter >= old(counters)[source][k] || streams[k].counter == -1)
                && (source !in old(counters) || k !in old(counters)[source] ==> streams[k].counter >= -1)
      ensures forall k :: k in filtered ==> filtered[k] == streams[k]
    {
      filtered := map[];
      var rest := streams.Keys;
      while rest != {}
        invariant rest <= streams.Keys
        invariant counters == AllInitialised(old(counters), source, streams.Keys - rest)
        invariant filtered == FreshAmong(old(counters), streams, source, streams.Keys - rest)
      {
        var streamKey :| streamKey in rest;
        var entry := streams[streamKey];
        var currentCounter := GetAndSetIfNecessary(source, streamKey);
        if entry.counter >= currentCounter || entry.counter == -1 {
          filtered := filtered[streamKey := entry];
        }
        OneMoreInitialised(old(counters), source, streams.Keys - rest, streamKey);
        OneMoreFresh(old(counters), streams, source, streams.Keys - rest, streamKey);
        assert streams.Keys - (rest - {streamKey}) == streams.Keys - rest + {streamKey};
        rest := rest - {streamKey};
      }
      assert streams.Keys - rest == streams.Keys;
      DroppedIffBehind(old(counters), streams, source);
    }

    method RemoveNode(nodeId: NodeId)
      modifies this
      ensures counters == old(counters) - {nodeId}
    {
      counters := counters - {nodeId};
    }

    method RemoveStream(streamKey: StreamKey)
      modifies this
      ensures counters == WithoutStream(old(counters), streamKey)
      ensures counters.Keys == old(counters).Keys
      ensures forall n :: n in counters ==> counters[n] == old(counters)[n] - {streamKey}
    {
      var rest := counters.Keys;
      while rest != {}
        invariant rest <= old(counters).Keys && counters.Keys == old(counters).Keys
        invariant forall n :: n in counters ==>
                    counters[n] == if n in rest then old(counters)[n] else old(counters)[n] - {streamKey}
      {
        var nodeId :| nodeId in rest;
        counters := counters[nodeId := counters[nodeId] - {streamKey}];
        rest := rest - {nodeId};
      }
    }

    method GetAndSetIfNecessary(nodeId: NodeId, streamKey: StreamKey) returns (counter: nat)
      modifies this
      ensures counters == Initialised(old(counters), nodeId, streamKey)
          && counter == CounterAt(old(counters), nodeId, streamKey)
    {
      if nodeId !in counters { counters := counters[nodeId := map[]]; }
      if streamKey !in counters[nodeId] { counters := counters[nodeId := counters[nodeId][streamKey := 0]]; }
      counter := counters[nodeId][streamKey];
      assert counters[nodeId] == CountersOf(old(counters), nodeId)[streamKey := counter];
      assert counters == old(counters)[nodeId := counters[nodeId]];
    }
  }
}
