/** What a status does to the overlays, and what an instruction does to the statuses that cross it: one
    that does not reflect the instruction is ignored.
 */
module TrackerStatuses {
  import opened Identifiers
  import opened OverlayTopologies
  import opened OverlayDegrees
  import opened InstructionCounters
  import opened Trackers
  import opened TrackerRuns

  // ---------- what an operation on one stream leaves alone ----------

  ghost predicate SameAt(a: Overlays, b: Overlays, k: StreamKey) {
    (k in a <==> k in b) && (k in a ==> a[k] == b[k])
  }

  lemma {:induction false} AllFormedElsewhere(
      s: State, jobs: seq<Job>, max: nat, force: bool, t: State, k: StreamKey)
    requires AllFormed(s, jobs, max, force, t) && forall i :: 0 <= i < |jobs| ==> jobs[i].k != k
    ensures SameAt(s.overlays, t.overlays, k)
    decreases |jobs|
  {
    if jobs != [] {
      var last := |jobs| - 1;
      var u :| AllFormed(s, jobs[..last], max, force, u) && FormedAt(u, jobs[last].k, jobs[last].v, max, force, t);
      AllFormedElsewhere(s, jobs[..last], max, force, u, k);
    }
  }

  lemma LeftElsewhere(s: State, j: StreamKey, v: NodeId, max: nat, t: State, k: StreamKey)
    requires Left(s, j, v, max, t) && j != k
    ensures SameAt(s.overlays, t.overlays, k)
  {
    if Without(s.overlays[j], v) != map[] {
      var order :| AllFormed(Parted(s, j, v), NodeJobs(j, order), max, true, t);
      AllFormedElsewhere(Parted(s, j, v), NodeJobs(j, order), max, true, t, k);
    }
  }

  lemma {:induction false} LeftAllElsewhere(
      s: State, keys: seq<StreamKey>, v: NodeId, max: nat, t: State, k: StreamKey)
    requires LeftAll(s, keys, v, max, t) && k !in keys
    ensures SameAt(s.overlays, t.overlays, k)
    decreases |keys|
  {
    if keys != [] {
      var last := |keys| - 1;
      var u :| LeftAll(s, keys[..last], v, max, u) && Left(u, keys[last], v, max, t);
      LeftAllElsewhere(s, keys[..last], v, max, u, k);
      LeftElsewhere(u, keys[last], v, max, t, k);
    }
  }

  // ---------- outdated and current statuses ----------

  /** The status does not reflect the last instruction that v was sent for the stream. */
  ghost predicate Behind(s: State, status: Status, v: NodeId, k: StreamKey)
    requires k in status.streams
  {
    status.streams[k].counter != -1 && status.streams[k].counter < CounterAt(s.counters, v, k)
  }

  /** v's neighbors are the reported nodes that are known, at both ends; no other edge moves. */
  ghost predicate Takes(g: Graph, v: NodeId, neighbors: set<NodeId>, h: Graph) {
    && h.Keys == g.Keys + {v}
    && (forall n :: n in h[v] <==> n in neighbors && n in g && n != v)
    && (forall n :: n in g && n != v ==> (v in h[n] <==> n in neighbors))
    && forall n, m :: n in g && n != v && m != v ==> (m in h[n] <==> m in g[n])
  }

  lemma PreparedElsewhere(s: State, status: Status, v: NodeId, k: StreamKey)
    ensures var overlays := Prepared(s, status, v).overlays;
            && (k in s.overlays ==> SameAt(s.overlays, overlays, k))
            && (k in status.streams ==>
                k in overlays && overlays[k] == if k in s.overlays then s.overlays[k] else map[])
  {
  }

  /** A stream that is not acted on keeps its overlay. */
  lemma UntouchedStream(s: State, status: Status, v: NodeId, max: nat, u: State, k: StreamKey)
    requires TopologyUpdated(s, status, v, max, u) && k in s.overlays
    requires if k in status.streams then Behind(s, status, v, k) else status.singleStream
    ensures SameAt(s.overlays, u.overlays, k)
  {
    var p := Prepared(s, status, v);
    var current := Fresh(s.counters, status.streams, v);
    PreparedElsewhere(s, status, v, k);
    assert k !in current;
    if !status.singleStream {
      var order :| Lists(order, p.overlays.Keys - status.streams.Keys)
          && LeftAll(p.(overlays := UpdatedOn(p.overlays, v, current)), order, v, max, u);
      LeftAllElsewhere(p.(overlays := UpdatedOn(p.overlays, v, current)), order, v, max, u, k);
    } else if |current| == 1 {
      var j :| j in current;
      if current[j].counter == -1 { LeftElsewhere(p, j, v, max, u, k); }
    }
  }

  /** A status behind the last instruction is ignored: an old list of neighbors overwrites nothing. */
  lemma OutdatedStatusIsIgnored(s: State, status: Status, v: NodeId, max: nat, u: State, k: StreamKey)
    requires TopologyUpdated(s, status, v, max, u) && k in s.overlays && k in status.streams
    requires -1 != status.streams[k].counter < CounterAt(s.counters, v, k)
    ensures k in u.overlays && u.overlays[k] == s.overlays[k]
  {
    UntouchedStream(s, status, v, max, u, k);
  }

  lemma UpdatedOnTakes(overlays: Overlays, v: NodeId, current: map<StreamKey, StreamStatus>, k: StreamKey)
    requires k in overlays && k in current
    ensures Takes(overlays[k], v, current[k].neighbors, UpdatedOn(overlays, v, current)[k])
  {
    UpdateTakesReportedNeighbors(overlays[k], v, current[k].neighbors);
  }

  lemma FullStatusTakes(s: State, status: Status, v: NodeId, max: nat, u: State, k: StreamKey)
    requires TopologyUpdated(s, status, v, max, u) && !status.singleStream && k in status.streams
    ensures SameAt(UpdatedOn(Prepared(s, status, v).overlays, v, Fresh(s.counters, status.streams, v)), u.overlays, k)
  {
    var p := Prepared(s, status, v);
    var w := p.(overlays := UpdatedOn(p.overlays, v, Fresh(s.counters, status.streams, v)));
    var order :| Lists(order, p.overlays.Keys - status.streams.Keys) && LeftAll(w, order, v, max, u);
    LeftAllElsewhere(w, order, v, max, u, k);
  }

  lemma SingleStatusTakes(s: State, status: Status, v: NodeId, max: nat, u: State, k: StreamKey)
    requires TopologyUpdated(s, status, v, max, u) && status.singleStream && k in status.streams
    requires var current := Fresh(s.counters, status.streams, v); current.Keys == {k} && current[k].counter != -1
    ensures u.overlays == UpdatedOn(Prepared(s, status, v).overlays, v, Fresh(s.counters, status.streams, v))
  {
    var current := Fresh(s.counters, status.streams, v);
    assert |current| == |current.Keys| == 1;
    assert current[k].counter != -1;
  }

  lemma CurrentIsFresh(s: State, status: Status, v: NodeId, k: StreamKey)
    requires k in status.streams && !Behind(s, status, v, k) && status.streams[k].counter >= -1
    requires status.singleStream ==> forall j :: j in status.streams && j != k ==> Behind(s, status, v, j)
    ensures var current := Fresh(s.counters, status.streams, v);
            k in current && current[k] == status.streams[k] && (status.singleStream ==> current.Keys == {k})
  {
  }

  /** A status that is not behind puts v's reported neighbors in place. In a status of a single stream all
      the others it may carry have to be behind.
   */
  lemma CurrentStatusIsApplied(s: State, status: Status, v: NodeId, max: nat, u: State, k: StreamKey)
    requires TopologyUpdated(s, status, v, max, u) && k in status.streams && !Behind(s, status, v, k)
    requires status.streams[k].counter >= if status.singleStream then 0 else -1
    requires status.singleStream ==> forall j :: j in status.streams && j != k ==> Behind(s, status, v, j)
    ensures k in u.overlays
    ensures Takes(if k in s.overlays then s.overlays[k] else map[], v, status.streams[k].neighbors, u.overlays[k])
  {
    PreparedElsewhere(s, status, v, k);
    CurrentIsFresh(s, status, v, k);
    if status.singleStream {
      SingleStatusTakes(s, status, v, max, u, k);
    } else {
      FullStatusTakes(s, status, v, max, u, k);
    }
    UpdatedOnTakes(Prepared(s, status, v).overlays, v, Fresh(s.counters, status.streams, v), k);
  }

  /** A status of a single stream that says the node has left is obeyed, whatever instructions it has been
      sent, and only on that stream.
   */
  lemma LeavingStatusIsObeyed(s: State, status: Status, v: NodeId, max: nat, u: State, k: StreamKey, j: StreamKey)
    requires Sound(s) && TopologyUpdated(s, status, v, max, u)
    requires status.singleStream && status.streams.Keys == {k} && status.streams[k].counter == -1
    ensures k in u.overlays ==> v !in u.overlays[k]
    ensures v !in u.counters
    ensures j in s.overlays && j != k ==> j in u.overlays && u.overlays[j] == s.overlays[j]
  {
    var p := Prepared(s, status, v);
    var current := Fresh(s.counters, status.streams, v);
    PreparedIsSound(s, status, v);
    assert current.Keys == {k};
    assert |current| == |current.Keys| == 1;
    assert current[k].counter == -1;
    LeftKeeps(p, k, v, max, u);
    LeaverIsForgotten(p, k, v, max, u);
    if j in s.overlays && j != k { UntouchedStream(s, status, v, max, u, j); }
  }

  // ---------- instructions are counted where they are sent ----------

  /** Whom the outcome of a call is sent to: everybody with a new neighbor, the node itself if it was
      trimmed or must be told.
   */
  ghost predicate MustBeTold(s: State, k: StreamKey, v: NodeId, max: nat, force: bool, t: State, n: NodeId) {
    && k in s.overlays && k in t.overlays && v in s.overlays[k] && n in s.overlays[k] && n in t.overlays[k]
    && (t.overlays[k][n] - s.overlays[k][n] != {} || (n == v && (force || |s.overlays[k][v]| > max)))
  }

  /** The counter of a node and stream rises by one exactly if the node must be told. */
  lemma FormedCounts(
      s: State, k: StreamKey, v: NodeId, max: nat, force: bool, t: State, n: NodeId, j: StreamKey)
    requires FormedAt(s, k, v, max, force, t)
    ensures CounterAt(t.counters, n, j)
            == CounterAt(s.counters, n, j) + if j == k && MustBeTold(s, k, v, max, force, t, n) then 1 else 0
  {
    if k in s.overlays {
      var g, h := s.overlays[k], t.overlays[k];
      EachIsCountedOnce(s.counters, Told(g, v, max, h, force), k, n, j);
      if v in g && n in g && n in h { InformedExactly(g, v, max, h, force, n); }
    }
  }

  lemma {:induction false} AllFormedCounts(
      s: State, jobs: seq<Job>, max: nat, force: bool, t: State, n: NodeId, j: StreamKey)
    requires AllFormed(s, jobs, max, force, t)
    ensures CounterAt(t.counters, n, j) >= CounterAt(s.counters, n, j)
    decreases |jobs|
  {
    if jobs != [] {
      var last := |jobs| - 1;
      var u :| AllFormed(s, jobs[..last], max, force, u) && FormedAt(u, jobs[last].k, jobs[last].v, max, force, t);
      AllFormedCounts(s, jobs[..last], max, force, u, n, j);
      FormedCounts(u, jobs[last].k, jobs[last].v, max, force, t, n, j);
    }
  }

  /** A node that is told of new neighbors: until its status carries the new counter, it is ignored. */
  lemma InstructionOutdatesStatuses(
      s: State, k: StreamKey, v: NodeId, max: nat, force: bool, t: State, n: NodeId, status: Status, u: State)
    requires FormedAt(s, k, v, max, force, t) && MustBeTold(s, k, v, max, force, t, n)
    requires k in status.streams && -1 != status.streams[k].counter <= CounterAt(s.counters, n, k)
    requires TopologyUpdated(t, status, n, max, u)
    ensures k in u.overlays && u.overlays[k] == t.overlays[k]
  {
    FormedCounts(s, k, v, max, force, t, n, k);
    OutdatedStatusIsIgnored(t, status, n, max, u, k);
  }

  lemma OneServedIsTold(s: State, k: StreamKey, v: NodeId, max: nat, t: State, n: NodeId)
    requires Sound(s) && k in s.overlays && n in s.overlays[k] && FormedAt(s, k, v, max, true, t)
    ensures CounterAt(t.counters, n, k) >= CounterAt(s.counters, n, k) + if n == v then 1 else 0
  {
    FormedKeeps(s, k, v, max, true, t);
    FormedCounts(s, k, v, max, true, t, n, k);
  }

  lemma {:induction false} EverybodyServedIsTold(
      s: State, k: StreamKey, order: seq<NodeId>, max: nat, t: State, n: NodeId)
    requires Sound(s) && k in s.overlays && n in s.overlays[k] && n in order
    requires AllFormed(s, NodeJobs(k, order), max, true, t)
    ensures CounterAt(t.counters, n, k) > CounterAt(s.counters, n, k)
    decreases |order|
  {
    var last := |order| - 1;
    assert NodeJobs(k, order)[..last] == NodeJobs(k, order[..last]);
    var u :| AllFormed(s, NodeJobs(k, order[..last]), max, true, u) && FormedAt(u, k, order[last], max, true, t);
    AllFormedKeeps(s, NodeJobs(k, order[..last]), max, true, u);
    OneServedIsTold(u, k, order[last], max, t, n);
    if n == order[last] {
      AllFormedCounts(s, NodeJobs(k, order[..last]), max, true, u, n, k);
    } else {
      assert order == order[..last] + [order[last]];
      EverybodyServedIsTold(s, k, order[..last], max, u, n);
    }
  }

  /** When a node leaves a stream every former neighbor is sent an instruction, new neighbors or not. */
  lemma FormerNeighborsAreTold(s: State, k: StreamKey, v: NodeId, max: nat, t: State, n: NodeId)
    requires Sound(s) && Left(s, k, v, max, t) && v in s.overlays[k] && n in s.overlays[k][v]
    ensures k in t.overlays && n in t.overlays[k] && CounterAt(t.counters, n, k) > CounterAt(s.counters, n, k)
  {
    assert n in s.overlays[k] && n != v;
    assert n in Without(s.overlays[k], v);
    var order :| Lists(order, s.overlays[k][v]) && AllFormed(Parted(s, k, v), NodeJobs(k, order), max, true, t);
    LeftPartsSoundly(s, k, v);
    EverybodyServedIsTold(Parted(s, k, v), k, order, max, t, n);
    AllFormedKeeps(Parted(s, k, v), NodeJobs(k, order), max, true, t);
  }
}
