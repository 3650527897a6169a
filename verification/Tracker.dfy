/** The tracker: one overlay per stream, updated from node statuses and disconnects, with
    instructions formed for whoever is affected.
 */
module Trackers {
  import opened Identifiers
  import opened OverlayTopologies
  import opened OverlayDegrees
  import opened InstructionCounters

  type Overlays = map<StreamKey, Graph>

  datatype State = State(overlays: Overlays, counters: Counters)

  /** What a node is told: its neighbors on a stream, and how many instructions it has been sent. */
  datatype Instruction = Instruction(neighbors: set<NodeId>, counter: nat)

  datatype Status = Status(streams: map<StreamKey, StreamStatus>, singleStream: bool)

  // ---------- what each event may do ----------

  /** Whom an outcome of forming instructions for v is sent to. */
  ghost function Told(g: Graph, v: NodeId, max: nat, h: Graph, force: bool): set<NodeId> {
    if v in g then Informed(g, v, max, h, force) else {}
  }

  /** Instructions formed for v on stream k, and counted for everybody told. */
  ghost predicate FormedAt(s: State, k: StreamKey, v: NodeId, max: nat, force: bool, t: State) {
    if k !in s.overlays then t == s
    else
      && k in t.overlays
      && Called(s.overlays[k], v, max, t.overlays[k])
      && t == State(s.overlays[k := t.overlays[k]],
                    AllBumped(s.counters, Told(s.overlays[k], v, max, t.overlays[k], force), k))
  }

  datatype Job = Job(k: StreamKey, v: NodeId)

  ghost predicate AllFormed(s: State, jobs: seq<Job>, max: nat, force: bool, t: State)
    decreases |jobs|
  {
    if jobs == [] then t == s
    else
      var last := |jobs| - 1;
      exists u :: AllFormed(s, jobs[..last], max, force, u) && FormedAt(u, jobs[last].k, jobs[last].v, max, force, t)
  }

  function NodeJobs(k: StreamKey, nodes: seq<NodeId>): seq<Job> {
    seq(|nodes|, i requires 0 <= i < |nodes| => Job(k, nodes[i]))
  }

  function StreamJobs(keys: seq<StreamKey>, v: NodeId): seq<Job> {
    seq(|keys|, i requires 0 <= i < |keys| => Job(keys[i], v))
  }

  ghost predicate Lists<T(!new)>(order: seq<T>, all: set<T>) {
    Distinct(order) && forall x :: x in order <==> x in all
  }

  /** v taken out of the overlay of stream k, its counters forgotten. */
  function Parted(s: State, k: StreamKey, v: NodeId): State
    requires k in s.overlays
  {
    State(s.overlays[k := Without(s.overlays[k], v)], s.counters - {v})
  }

  /** v leaves stream k: an overlay left empty goes, otherwise v's former neighbors are served. */
  ghost predicate Left(s: State, k: StreamKey, v: NodeId, max: nat, t: State) {
    && k in s.overlays
    && if Without(s.overlays[k], v) == map[] then
         t == State(s.overlays - {k}, WithoutStream(s.counters - {v}, k))
       else
         exists order ::
           && Lists(order, if v in s.overlays[k] then s.overlays[k][v] else {})
           && AllFormed(Parted(s, k, v), NodeJobs(k, order), max, true, t)
  }

  ghost predicate LeftAll(s: State, keys: seq<StreamKey>, v: NodeId, max: nat, t: State)
    decreases |keys|
  {
    if keys == [] then t == s
    else
      var last := |keys| - 1;
      exists u :: LeftAll(s, keys[..last], v, max, u) && Left(u, keys[last], v, max, t)
  }

  /** Missing overlays are created, empty. */
  function Created(overlays: Overlays, keys: set<StreamKey>): Overlays {
    map k | k in overlays.Keys + keys :: if k in overlays then overlays[k] else map[]
  }

  function UpdatedOn(overlays: Overlays, v: NodeId, streams: map<StreamKey, StreamStatus>): Overlays {
    map k | k in overlays :: if k in streams then Updated(overlays[k], v, streams[k].neighbors) else overlays[k]
  }

  /** A status that carries only one stream. */
  ghost predicate UpdatedSingle(s: State, v: NodeId, current: map<StreamKey, StreamStatus>, max: nat, t: State)
    requires current.Keys <= s.overlays.Keys
  {
    if |current| != 1 then t == s
    else
      forall k {:trigger current[k]} :: k in current ==>
        if current[k].counter == -1 then Left(s, k, v, max, t)
        else t == s.(overlays := UpdatedOn(s.overlays, v, current))
  }

  /** A status that carries all streams of the node: it leaves the others. */
  ghost predicate UpdatedFull(
      s: State, v: NodeId, current: map<StreamKey, StreamStatus>, reported: set<StreamKey>, max: nat, t: State) {
    exists order ::
      && Lists(order, s.overlays.Keys - reported)
      && LeftAll(s.(overlays := UpdatedOn(s.overlays, v, current)), order, v, max, t)
  }

  function Prepared(s: State, status: Status, v: NodeId): State {
    State(Created(s.overlays, status.streams.Keys), AllInitialised(s.counters, v, status.streams.Keys))
  }

  ghost predicate TopologyUpdated(s: State, status: Status, v: NodeId, max: nat, t: State) {
    var current := Fresh(s.counters, status.streams, v);
    if status.singleStream then UpdatedSingle(Prepared(s, status, v), v, current, max, t)
    else UpdatedFull(Prepared(s, status, v), v, current, status.streams.Keys, max, t)
  }

  /** A status of node v has been processed. */
  ghost predicate Processed(s: State, status: Status, v: NodeId, max: nat, t: State) {
    exists u, order ::
      && TopologyUpdated(s, status, v, max, u)
      && Lists(order, status.streams.Keys)
      && AllFormed(u, StreamJobs(order, v), max, false, t)
  }

  ghost predicate Disconnected(s: State, v: NodeId, max: nat, t: State) {
    exists order :: Lists(order, s.overlays.Keys) && LeftAll(s, order, v, max, t)
  }

  // ---------- the object ----------

  /** The ghost field holds the graphs of the overlays. */
  class Tracker {
    const maxNeighborsPerNode: nat
    const instructionCounter: InstructionCounter
    var overlayPerStream: map<StreamKey, OverlayTopology>
    ghost var graphs: Overlays

    ghost function Abs(): State
      reads this, instructionCounter
    {
      State(graphs, instructionCounter.counters)
    }

    ghost predicate Mirrored(k: StreamKey, overlay: OverlayTopology)
      reads this`graphs, overlay
    {
      k in graphs && overlay.nodes == graphs[k] && overlay.maxNeighborsPerNode == maxNeighborsPerNode
          && WellFormed(graphs[k])
    }

    ghost predicate Valid()
      reads this, overlayPerStream.Values
    {
      && overlayPerStream.Keys == graphs.Keys
      && (forall k {:trigger overlayPerStream[k]} :: k in overlayPerStream ==> Mirrored(k, overlayPerStream[k]))
      && (forall j, k {:trigger overlayPerStream[j], overlayPerStream[k]} ::
            j in overlayPerStream && k in overlayPerStream && j != k ==> overlayPerStream[j] != overlayPerStream[k])
    }

    constructor (maxNeighborsPerNode: nat)
      ensures Valid() && Abs() == State(map[], map[]) && this.maxNeighborsPerNode == maxNeighborsPerNode
    {
      this.maxNeighborsPerNode := maxNeighborsPerNode;
      instructionCounter := new InstructionCounter();
      overlayPerStream, graphs := map[], map[];
    }

    /** Count the instructions sent to some nodes, and put the counter into each of them. */
    method CountAll(instructions: Graph, k: StreamKey) returns (sent: map<NodeId, Instruction>)
      modifies instructionCounter
      ensures instructionCounter.counters == AllBumped(old(instructionCounter.counters), instructions.Keys, k)
      ensures sent.Keys == instructions.Keys
      ensures forall n :: n in sent ==> sent[n] == Instruction(instructions[n],
          CounterAt(instructionCounter.counters, n, k))
      ensures forall n :: n in sent ==> sent[n].counter == CounterAt(old(instructionCounter.counters), n, k) + 1
    {
      ghost var before := instructionCounter.counters;
      ghost var nodes := instructions.Keys;
      var rest := instructions.Keys;
      sent := map[];
      while rest != {}
        invariant rest <= nodes && sent.Keys == nodes - rest
        invariant instructionCounter.counters == AllBumped(before, nodes - rest, k)
        invariant forall n :: n in sent ==> sent[n] == Instruction(instructions[n], CounterAt(before, n, k) + 1)
      {
        var nodeId :| nodeId in rest;
        BumpOneMore(before, nodes - rest, nodeId, k);
        var counterValue := instructionCounter.SetOrIncrement(nodeId, k);
        assert nodes - rest + {nodeId} == nodes - (rest - {nodeId});
        sent := sent[nodeId := Instruction(instructions[nodeId], counterValue)];
        rest := rest - {nodeId};
      }
      assert nodes - rest == nodes;
    }

    /** Form instructions for v on an overlay: the new neighbors of every node to tell. */
    method FormOn(k: StreamKey, v: NodeId, force: bool) returns (instructions: Graph)
      requires Valid() && k in overlayPerStream
      modifies this`graphs, overlayPerStream[k]
      ensures Valid() && k in old(graphs) && k in graphs && graphs == old(graphs)[k := graphs[k]]
      ensures Called(old(graphs)[k], v, maxNeighborsPerNode, graphs[k])
      ensures instructions.Keys == Told(old(graphs)[k], v, maxNeighborsPerNode, graphs[k], force)
      ensures forall n :: n in instructions ==> n in graphs[k] && instructions[n] == graphs[k][n]
    {
      var overlay := overlayPerStream[k];
      assert Mirrored(k, overlay);
      instructions := overlay.FormInstructions(v, force);
      graphs := graphs[k := overlay.nodes];
    }

    /** Every node told is sent its new neighbors on the overlay and its new counter. */
    method FormAndSendOn(k: StreamKey, v: NodeId, force: bool) returns (sent: map<NodeId, Instruction>)
      requires Valid()
      modifies this`graphs, overlayPerStream.Values, instructionCounter
      ensures Valid() && FormedAt(old(Abs()), k, v, maxNeighborsPerNode, force, Abs())
      ensures k !in old(graphs) ==> sent == map[]
      ensures k in old(graphs) ==>
                k in graphs && sent.Keys == Told(old(graphs)[k], v, maxNeighborsPerNode, graphs[k], force)
      ensures forall n :: n in sent ==>
                && k in graphs && n in graphs[k]
                && sent[n] == Instruction(graphs[k][n], CounterAt(instructionCounter.counters, n, k))
                && sent[n].counter == CounterAt(old(instructionCounter.counters), n, k) + 1
    {
      sent := map[];
      if k in overlayPerStream {
        var instructions := FormOn(k, v, force);
        sent := CountAll(instructions, k);
      }
    }

    method FormAndSendInstructions(v: NodeId, streamKeys: seq<StreamKey>)
      requires Valid()
      modifies this`graphs, overlayPerStream.Values, instructionCounter
      ensures Valid() && AllFormed(old(Abs()), StreamJobs(streamKeys, v), maxNeighborsPerNode, false, Abs())
    {
      ghost var before := Abs();
      ghost var jobs := StreamJobs(streamKeys, v);
      for i := 0 to |streamKeys|
        invariant Valid() && AllFormed(before, jobs[..i], maxNeighborsPerNode, false, Abs())
      {
        ghost var u := Abs();
        var _ := FormAndSendOn(streamKeys[i], v, false);
        FormOneMore(before, jobs, i, maxNeighborsPerNode, false, u, Abs());
      }
      assert jobs[..|streamKeys|] == jobs;
    }

    /** Serve the nodes that have lost a neighbor. */
    method ServeAll(k: StreamKey, nodes: seq<NodeId>)
      requires Valid()
      modifies this`graphs, overlayPerStream.Values, instructionCounter
      ensures Valid() && AllFormed(old(Abs()), NodeJobs(k, nodes), maxNeighborsPerNode, true, Abs())
    {
      ghost var before := Abs();
      ghost var jobs := NodeJobs(k, nodes);
      for i := 0 to |nodes|
        invariant Valid() && AllFormed(before, jobs[..i], maxNeighborsPerNode, true, Abs())
      {
        ghost var u := Abs();
        var _ := FormAndSendOn(k, nodes[i], true);
        FormOneMore(before, jobs, i, maxNeighborsPerNode, true, u, Abs());
      }
      assert jobs[..|nodes|] == jobs;
    }

    /** Take v out of one overlay. */
    method LeaveOn(k: StreamKey, v: NodeId) returns (neighbors: set<NodeId>)
      requires Valid() && k in overlayPerStream
      modifies this`graphs, overlayPerStream[k]
      ensures Valid() && k in old(graphs) && graphs == old(graphs)[k := Without(old(graphs)[k], v)]
      ensures neighbors == if v in old(graphs)[k] then old(graphs)[k][v] else {}
    {
      var overlay := overlayPerStream[k];
      assert Mirrored(k, overlay);
      LeaveKeepsWellFormed(overlay.nodes, v);
      neighbors := overlay.Leave(v);
      graphs := graphs[k := overlay.nodes];
    }

    method DeleteOverlay(k: StreamKey)
      requires Valid()
      modifies this`graphs, this`overlayPerStream
      ensures Valid() && graphs == old(graphs) - {k} && overlayPerStream == old(overlayPerStream) - {k}
    {
      overlayPerStream, graphs := overlayPerStream - {k}, graphs - {k};
      assert forall j :: j in overlayPerStream ==> Mirrored(j, overlayPerStream[j]);
    }

    method PartFrom(k: StreamKey, v: NodeId) returns (neighbors: set<NodeId>, isEmpty: bool)
      requires Valid() && k in overlayPerStream
      modifies this`graphs, overlayPerStream[k], instructionCounter
      ensures Valid() && k in old(graphs) && Abs() == Parted(old(Abs()), k, v)
      ensures neighbors == if v in old(graphs)[k] then old(graphs)[k][v] else {}
      ensures isEmpty <==> Without(old(graphs)[k], v) == map[]
    {
      neighbors := LeaveOn(k, v);
      assert Mirrored(k, overlayPerStream[k]);
      isEmpty := overlayPerStream[k].IsEmpty();
      instructionCounter.RemoveNode(v);
    }

    method DropStream(k: StreamKey)
      requires Valid()
      modifies this`graphs, this`overlayPerStream, instructionCounter
      ensures Valid() && overlayPerStream == old(overlayPerStream) - {k}
      ensures Abs() == State(old(graphs) - {k}, WithoutStream(old(instructionCounter.counters), k))
    {
      instructionCounter.RemoveStream(k);
      DeleteOverlay(k);
    }

    method LeaveAndCheckEmptyOverlay(k: StreamKey, v: NodeId)
      requires Valid() && k in overlayPerStream
      modifies this`graphs, this`overlayPerStream, overlayPerStream.Values, instructionCounter
      ensures Valid() && (overlayPerStream == old(overlayPerStream) || overlayPerStream == old(overlayPerStream) - {k})
      ensures Left(old(Abs()), k, v, maxNeighborsPerNode, Abs())
    {
      var neighbors, isEmpty := PartFrom(k, v);
      if isEmpty {
        DropStream(k);
      } else {
        var order := Shuffle(neighbors);
        ServeAll(k, order);
      }
    }

    /** v leaves some streams, in this order. */
    method LeaveStreams(v: NodeId, streamKeys: seq<StreamKey>)
      requires Valid() && Distinct(streamKeys) && forall k :: k in streamKeys ==> k in overlayPerStream
      modifies this`graphs, this`overlayPerStream, overlayPerStream.Values, instructionCounter
      ensures Valid() && overlayPerStream.Values <= old(overlayPerStream.Values)
      ensures LeftAll(old(Abs()), streamKeys, v, maxNeighborsPerNode, Abs())
    {
      ghost var before := Abs();
      for i := 0 to |streamKeys|
        invariant Valid() && overlayPerStream.Values <= old(overlayPerStream.Values)
        invariant forall j :: i <= j < |streamKeys| ==> streamKeys[j] in overlayPerStream
        invariant LeftAll(before, streamKeys[..i], v, maxNeighborsPerNode, Abs())
      {
        ghost var u := Abs();
        LeaveAndCheckEmptyOverlay(streamKeys[i], v);
        LeaveOneMore(before, streamKeys, i, v, maxNeighborsPerNode, u, Abs());
      }
      assert streamKeys[..|streamKeys|] == streamKeys;
    }

    method CreateIfMissing(k: StreamKey)
      requires Valid()
      modifies this`graphs, this`overlayPerStream
      ensures Valid() && graphs == if k in old(graphs) then old(graphs) else old(graphs)[k := map[]]
      ensures fresh(overlayPerStream.Values - old(overlayPerStream.Values))
    {
      if k !in overlayPerStream {
        var overlay := new OverlayTopology(maxNeighborsPerNode);
        overlayPerStream, graphs := overlayPerStream[k := overlay], graphs[k := map[]];
      }
    }

    method CreateNewOverlayTopologies(streamKeys: set<StreamKey>)
      requires Valid()
      modifies this`graphs, this`overlayPerStream
      ensures Valid() && graphs == Created(old(graphs), streamKeys)
      ensures fresh(overlayPerStream.Values - old(overlayPerStream.Values))
    {
      var rest := streamKeys;
      while rest != {}
        invariant rest <= streamKeys && Valid()
        invariant graphs == Created(old(graphs), streamKeys - rest)
        invariant fresh(overlayPerStream.Values - old(overlayPerStream.Values))
      {
        var k :| k in rest;
        CreateOneMore(old(graphs), streamKeys - rest, k);
        CreateIfMissing(k);
        assert streamKeys - (rest - {k}) == streamKeys - rest + {k};
        rest := rest - {k};
      }
      assert streamKeys - rest == streamKeys;
    }

    method UpdateOn(k: StreamKey, v: NodeId, neighbors: set<NodeId>)
      requires Valid() && k in overlayPerStream
      modifies this`graphs, overlayPerStream[k]
      ensures Valid() && k in old(graphs) && graphs == old(graphs)[k := Updated(old(graphs)[k], v, neighbors)]
    {
      var overlay := overlayPerStream[k];
      assert Mirrored(k, overlay);
      UpdateMovesOnlyOwnEdges(overlay.nodes, v, neighbors);
      overlay.Update(v, neighbors);
      graphs := graphs[k := overlay.nodes];
    }

    method UpdateAll(v: NodeId, streams: map<StreamKey, StreamStatus>)
      requires Valid() && streams.Keys <= overlayPerStream.Keys
      modifies this`graphs, overlayPerStream.Values
      ensures Valid() && graphs == UpdatedOn(old(graphs), v, streams)
    {
      var rest := streams.Keys;
      while rest != {}
        invariant rest <= streams.Keys && Valid()
        invariant graphs == UpdatedOn(old(graphs), v, streams - rest)
      {
        var k :| k in rest;
        UpdateOneMore(old(graphs), v, streams, rest, k);
        UpdateOn(k, v, streams[k].neighbors);
        rest := rest - {k};
      }
      assert streams - rest == streams;
    }

    /** A status of all streams: update these, leave the others. */
    method UpdateNode(v: NodeId, current: map<StreamKey, StreamStatus>, reported: set<StreamKey>)
      requires Valid() && current.Keys <= overlayPerStream.Keys
      modifies this`graphs, this`overlayPerStream, overlayPerStream.Values, instructionCounter
      ensures Valid() && overlayPerStream.Values <= old(overlayPerStream.Values)
      ensures UpdatedFull(old(Abs()), v, current, reported, maxNeighborsPerNode, Abs())
    {
      ghost var before := Abs();
      UpdateAll(v, current);
      var others := Shuffle(overlayPerStream.Keys - reported);
      LeaveStreams(v, others);
      UpdatedInTwo(before, v, current, reported, maxNeighborsPerNode, others, Abs());
    }

    /** A status of a single stream, which may say that the node has left it. */
    method UpdateNodeOnStream(v: NodeId, current: map<StreamKey, StreamStatus>)
      requires Valid() && current.Keys <= overlayPerStream.Keys
      modifies this`graphs, this`overlayPerStream, overlayPerStream.Values, instructionCounter
      ensures Valid() && overlayPerStream.Values <= old(overlayPerStream.Values)
      ensures UpdatedSingle(old(Abs()), v, current, maxNeighborsPerNode, Abs())
    {
      if |current| == 1 {
        var k :| k in current;
        OnlyOne(current, k);
        if current[k].counter == -1 {
          LeaveAndCheckEmptyOverlay(k, v);
        } else {
          UpdateAll(v, current);
        }
      }
    }

    method Prepare(status: Status, source: NodeId) returns (current: map<StreamKey, StreamStatus>)
      requires Valid()
      modifies this`graphs, this`overlayPerStream, instructionCounter
      ensures Valid() && Abs() == Prepared(old(Abs()), status, source)
      ensures current == Fresh(old(instructionCounter.counters), status.streams, source)
          && current.Keys <= overlayPerStream.Keys
      ensures fresh(overlayPerStream.Values - old(overlayPerStream.Values))
    {
      current := instructionCounter.FilterStatus(status.streams, source);
      CreateNewOverlayTopologies(status.streams.Keys);
    }

    method UpdateTopology(status: Status, source: NodeId)
      requires Valid()
      modifies this`graphs, this`overlayPerStream, overlayPerStream.Values, instructionCounter
      ensures Valid() && fresh(overlayPerStream.Values - old(overlayPerStream.Values))
      ensures TopologyUpdated(old(Abs()), status, source, maxNeighborsPerNode, Abs())
    {
      var current := Prepare(status, source);
      if status.singleStream {
        UpdateNodeOnStream(source, current);
      } else {
        UpdateNode(source, current, status.streams.Keys);
      }
    }

    method ProcessNodeStatus(status: Status, source: NodeId)
      requires Valid()
      modifies this`graphs, this`overlayPerStream, overlayPerStream.Values, instructionCounter
      ensures Valid() && Processed(old(Abs()), status, source, maxNeighborsPerNode, Abs())
    {
      ghost var before := Abs();
      UpdateTopology(status, source);
      ghost var u := Abs();
      var streamKeys := Shuffle(status.streams.Keys);
      FormAndSendInstructions(source, streamKeys);
      ProcessedInTwo(before, status, source, maxNeighborsPerNode, u, streamKeys, Abs());
    }

    method RemoveNode(v: NodeId)
      requires Valid()
      modifies this`graphs, this`overlayPerStream, overlayPerStream.Values, instructionCounter
      ensures Valid() && Disconnected(old(Abs()), v, maxNeighborsPerNode, Abs())
    {
      var streamKeys := Shuffle(overlayPerStream.Keys);
      LeaveStreams(v, streamKeys);
    }
  }

  lemma {:induction false} ProcessedInTwo(
      s: State, status: Status, v: NodeId, max: nat, u: State, order: seq<StreamKey>, t: State)
    requires TopologyUpdated(s, status, v, max, u) && Lists(order, status.streams.Keys)
    requires AllFormed(u, StreamJobs(order, v), max, false, t)
    ensures Processed(s, status, v, max, t)
  {
  }

  lemma {:induction false} UpdatedInTwo(
      s: State, v: NodeId, current: map<StreamKey, StreamStatus>, reported: set<StreamKey>, max: nat,
          order: seq<StreamKey>, t: State)
    requires Lists(order, s.overlays.Keys - reported)
    requires LeftAll(s.(overlays := UpdatedOn(s.overlays, v, current)), order, v, max, t)
    ensures UpdatedFull(s, v, current, reported, max, t)
  {
  }

  lemma UpdateOneMore(
      a: Overlays, v: NodeId, streams: map<StreamKey, StreamStatus>, rest: set<StreamKey>, k: StreamKey)
    requires k in a && k in streams && k in rest
    ensures var b := UpdatedOn(a, v, streams - rest);
            UpdatedOn(a, v, streams - (rest - {k})) == b[k := Updated(b[k], v, streams[k].neighbors)]
  {
  }

  lemma OnlyOne<K(!new), V>(m: map<K, V>, k: K)
    requires |m| == 1 && k in m
    ensures forall j :: j in m ==> j == k
  {
    forall j | j in m ensures j == k { SubsetSize({j, k}, m.Keys); }
  }

  lemma CreateOneMore(a: Overlays, keys: set<StreamKey>, k: StreamKey)
    ensures var b := Created(a, keys); Created(a, keys + {k}) == if k in b then b else b[k := map[]]
  {
  }

  lemma {:induction false} LeaveOneMore(s: State, keys: seq<StreamKey>, i: nat, v: NodeId, max: nat, u: State, t: State)
    requires i < |keys| && LeftAll(s, keys[..i], v, max, u) && Left(u, keys[i], v, max, t)
    ensures LeftAll(s, keys[..i + 1], v, max, t)
  {
    assert keys[..i + 1][..i] == keys[..i];
  }

  lemma {:induction false} FormOneMore(s: State, jobs: seq<Job>, i: nat, max: nat, force: bool, u: State, t: State)
    requires i < |jobs| && AllFormed(s, jobs[..i], max, force, u) && FormedAt(u, jobs[i].k, jobs[i].v, max, force, t)
    ensures AllFormed(s, jobs[..i + 1], max, force, t)
  {
    assert jobs[..i + 1][..i] == jobs[..i];
  }

  lemma BumpOneMore(c: Counters, nodes: set<NodeId>, n: NodeId, k: StreamKey)
    requires n !in nodes
    ensures Bumped(AllBumped(c, nodes, k), n, k) == AllBumped(c, nodes + {n}, k)
  {
  }
}
