/** What the tracker keeps over every run of statuses and disconnects. */
module TrackerRuns {
  import opened Identifiers
  import opened Sequences
  import opened OverlayTopologies
  import opened OverlayDegrees
  import opened InstructionCounters
  import opened Trackers

  /** Every overlay is an undirected graph without loops; what has been counted exists. */
  ghost predicate Sound(s: State) {
    && (forall k :: k in s.overlays ==> WellFormed(s.overlays[k]))
    && (forall n, k {:trigger CounterAt(s.counters, n, k)} :: CounterAt(s.counters, n, k) > 0 ==> k in s.overlays)
  }

  ghost predicate EmptyAt(a: Overlays, k: StreamKey) {
    k in a && a[k].Keys == {}
  }

  ghost predicate NoneEmpty(s: State) {
    forall k :: !EmptyAt(s.overlays, k)
  }

  /** The same overlays over the same nodes. */
  ghost predicate SameNodes(a: Overlays, b: Overlays) {
    a.Keys == b.Keys && forall k :: k in a ==> a[k].Keys == b[k].Keys
  }

  /** v is gone from the overlays listed, and those it leaves empty are gone. */
  ghost predicate NodesAfterLeaving(a: Overlays, keys: set<StreamKey>, v: NodeId, b: Overlays) {
    && (forall k :: k in b <==> k in a && (k in keys ==> a[k].Keys - {v} != {}))
    && (forall k :: k in b ==> b[k].Keys == if k in keys then a[k].Keys - {v} else a[k].Keys)
  }

  lemma FormedKeeps(s: State, k: StreamKey, v: NodeId, max: nat, force: bool, t: State)
    requires Sound(s) && FormedAt(s, k, v, max, force, t)
    ensures Sound(t) && SameNodes(s.overlays, t.overlays)
    ensures k in s.overlays && v in s.overlays[k] ==> Settled(t.overlays[k], v, max)
    ensures forall j :: j in s.overlays && j != k ==> t.overlays[j] == s.overlays[j]
  {
    if k in s.overlays {
      forall n, j ensures CounterAt(t.counters, n, j) > 0 ==> CounterAt(s.counters, n, j) > 0 || j == k {}
    }
  }

  lemma {:induction false} AllFormedKeeps(s: State, jobs: seq<Job>, max: nat, force: bool, t: State)
    requires Sound(s) && AllFormed(s, jobs, max, force, t)
    ensures Sound(t) && SameNodes(s.overlays, t.overlays)
    decreases |jobs|
  {
    if jobs != [] {
      var last := |jobs| - 1;
      var u :| AllFormed(s, jobs[..last], max, force, u) && FormedAt(u, jobs[last].k, jobs[last].v, max, force, t);
      AllFormedKeeps(s, jobs[..last], max, force, u);
      FormedKeeps(u, jobs[last].k, jobs[last].v, max, force, t);
    }
  }

  lemma LeftKeeps(s: State, k: StreamKey, v: NodeId, max: nat, t: State)
    requires Sound(s) && Left(s, k, v, max, t)
    ensures Sound(t) && NodesAfterLeaving(s.overlays, {k}, v, t.overlays)
  {
    var g := Without(s.overlays[k], v);
    assert g.Keys == s.overlays[k].Keys - {v};
    assert g == map[] <==> g.Keys == {};
    if g == map[] {
      forall n, j ensures CounterAt(t.counters, n, j) > 0 ==> CounterAt(s.counters, n, j) > 0 && j != k {}
    } else {
      LeftPartsSoundly(s, k, v);
      var order :| AllFormed(Parted(s, k, v), NodeJobs(k, order), max, true, t);
      AllFormedKeeps(Parted(s, k, v), NodeJobs(k, order), max, true, t);
    }
  }

  lemma {:induction false} LeftAllKeeps(s: State, keys: seq<StreamKey>, v: NodeId, max: nat, t: State)
    requires Sound(s) && LeftAll(s, keys, v, max, t)
    ensures Sound(t) && NodesAfterLeaving(s.overlays, Members(keys), v, t.overlays)
    decreases |keys|
  {
    if keys != [] {
      var last := |keys| - 1;
      var u :| LeftAll(s, keys[..last], v, max, u) && Left(u, keys[last], v, max, t);
      LeftAllKeeps(s, keys[..last], v, max, u);
      LeftKeeps(u, keys[last], v, max, t);
      LeavingMore(s.overlays, Members(keys[..last]), keys[last], v, u.overlays, t.overlays);
      MembersOfLonger(keys);
    }
  }

  lemma LeavingMore(
      a: Overlays, keys: set<StreamKey>, k: StreamKey, v: NodeId, b: Overlays, c: Overlays)
    requires NodesAfterLeaving(a, keys, v, b) && NodesAfterLeaving(b, {k}, v, c)
    ensures NodesAfterLeaving(a, keys + {k}, v, c)
  {
    forall j ensures j in c <==> j in a && (j in keys + {k} ==> a[j].Keys - {v} != {}) {
      if j in b && j == k { assert b[j].Keys - {v} == a[j].Keys - {v}; }
    }
  }

  // ---------- disconnects ----------

  /** Nothing told means nothing counted: the counters of a node outside the overlay do not return. */
  lemma {:induction false} StrangerIsNotCounted(
      s: State, k: StreamKey, order: seq<NodeId>, v: NodeId, max: nat, force: bool, t: State)
    requires Sound(s) && k in s.overlays && v !in s.overlays[k] && v !in s.counters
    requires AllFormed(s, NodeJobs(k, order), max, force, t)
    ensures Sound(t) && k in t.overlays && v !in t.overlays[k] && v !in t.counters
    decreases |order|
  {
    AllFormedKeeps(s, NodeJobs(k, order), max, force, t);
    if order != [] {
      var last := |order| - 1;
      assert NodeJobs(k, order)[..last] == NodeJobs(k, order[..last]);
      var u :| AllFormed(s, NodeJobs(k, order[..last]), max, force, u) && FormedAt(u, k, order[last], max, force, t);
      StrangerIsNotCounted(s, k, order[..last], v, max, force, u);
      FormedKeeps(u, k, order[last], max, force, t);
    }
  }

  lemma LeaverIsForgotten(s: State, k: StreamKey, v: NodeId, max: nat, t: State)
    requires Sound(s) && Left(s, k, v, max, t)
    ensures v !in t.counters
  {
    if Without(s.overlays[k], v) != map[] {
      LeftPartsSoundly(s, k, v);
      var order :| AllFormed(Parted(s, k, v), NodeJobs(k, order), max, true, t);
      StrangerIsNotCounted(Parted(s, k, v), k, order, v, max, true, t);
    }
  }

  lemma LeftPartsSoundly(s: State, k: StreamKey, v: NodeId)
    requires Sound(s) && k in s.overlays
    ensures Sound(Parted(s, k, v))
  {
    LeaveKeepsWellFormed(s.overlays[k], v);
    forall n, j ensures CounterAt(s.counters - {v}, n, j) > 0 ==> CounterAt(s.counters, n, j) > 0 {}
  }

  /** A disconnected node is in no overlay, no overlay is left empty, and its counters are gone. */
  lemma DisconnectKeeps(s: State, v: NodeId, max: nat, t: State)
    requires Sound(s) && NoneEmpty(s) && Disconnected(s, v, max, t)
    ensures Sound(t) && NoneEmpty(t)
    ensures forall k :: k in t.overlays ==> v !in t.overlays[k]
    ensures forall k :: k in t.overlays <==> k in s.overlays && s.overlays[k].Keys != {v}
    ensures s.overlays != map[] ==> v !in t.counters
  {
    var order :| Lists(order, s.overlays.Keys) && LeftAll(s, order, v, max, t);
    LeftAllKeeps(s, order, v, max, t);
    assert Members(order) == s.overlays.Keys;
    forall k | k in s.overlays ensures s.overlays[k].Keys - {v} != {} <==> s.overlays[k].Keys != {v} {
      assert !EmptyAt(s.overlays, k);
    }
    if s.overlays != map[] {
      var k :| k in s.overlays;
      assert k in order;
      var last := |order| - 1;
      var u :| LeftAll(s, order[..last], v, max, u) && Left(u, order[last], v, max, t);
      LeftAllKeeps(s, order[..last], v, max, u);
      LeaverIsForgotten(u, order[last], v, max, t);
    }
  }

  // ---------- statuses ----------

  /** Every stream new to the tracker comes with its source: its counter is no older than nothing,
      and a single-stream status has nothing else to offer.
   */
  ghost predicate Complete(s: State, status: Status, v: NodeId) {
    forall k {:trigger status.streams[k]} :: k in status.streams && k !in s.overlays ==>
      status.streams[k].counter >= -1 && (status.singleStream ==> |Fresh(s.counters, status.streams, v)| == 1)
  }

  lemma PreparedIsSound(s: State, status: Status, v: NodeId)
    requires Sound(s)
    ensures Sound(Prepared(s, status, v))
  {
    var t := Prepared(s, status, v);
    forall n, k ensures CounterAt(t.counters, n, k) == CounterAt(s.counters, n, k) {}
  }

  lemma UpdatedIsSound(s: State, v: NodeId, streams: map<StreamKey, StreamStatus>)
    requires Sound(s)
    ensures Sound(s.(overlays := UpdatedOn(s.overlays, v, streams)))
    ensures var b := UpdatedOn(s.overlays, v, streams);
            b.Keys == s.overlays.Keys
            && forall k :: k in b ==> b[k].Keys == if k in streams then s.overlays[k].Keys + {v} else s.overlays[k].Keys
  {
    forall k | k in s.overlays && k in streams
      ensures var h := Updated(s.overlays[k], v, streams[k].neighbors);
              WellFormed(h) && h.Keys == s.overlays[k].Keys + {v}
    {
      UpdateMovesOnlyOwnEdges(s.overlays[k], v, streams[k].neighbors);
    }
  }

  /** Stream k is new to the tracker, and the status does not put its source there. */
  ghost predicate Blank(s: State, status: Status, v: NodeId, k: StreamKey) {
    var current := Fresh(s.counters, status.streams, v);
    && k in status.streams && k !in s.overlays
    && !(k in current && (status.singleStream ==> |current| == 1))
  }

  lemma CompleteIffNoBlank(s: State, status: Status, v: NodeId)
    requires Sound(s)
    ensures Complete(s, status, v) <==> forall k :: !Blank(s, status, v, k)
  {
    forall k ensures Blank(s, status, v, k) <==>
                     k in status.streams && k !in s.overlays
                     && !(status.streams[k].counter >= -1
                         && (status.singleStream ==> |Fresh(s.counters, status.streams, v)| == 1))
    {
      assert k !in s.overlays ==> CounterAt(s.counters, v, k) == 0;
    }
  }

  lemma SingleIsSound(s: State, status: Status, v: NodeId, max: nat, t: State)
    requires Sound(s) && status.singleStream && TopologyUpdated(s, status, v, max, t)
    ensures Sound(t)
  {
    var p := Prepared(s, status, v);
    var current := Fresh(s.counters, status.streams, v);
    PreparedIsSound(s, status, v);
    if |current| == 1 {
      var k :| k in current;
      if current[k].counter == -1 { LeftKeeps(p, k, v, max, t); } else { UpdatedIsSound(p, v, current); }
    }
  }

  lemma LeavingNeverBlanks(s: State, j: StreamKey, v: NodeId, max: nat, t: State, k: StreamKey)
    requires Sound(s) && Left(s, j, v, max, t)
    ensures EmptyAt(t.overlays, k) <==> EmptyAt(s.overlays, k) && k != j
  {
    LeftKeeps(s, j, v, max, t);
  }

  lemma UpdatingUnblanks(s: State, v: NodeId, current: map<StreamKey, StreamStatus>, k: StreamKey)
    requires Sound(s)
    ensures EmptyAt(UpdatedOn(s.overlays, v, current), k) <==> EmptyAt(s.overlays, k) && k !in current
  {
    UpdatedIsSound(s, v, current);
  }

  /** A single current stream is the only one that is not empty afterwards for being acted on. */
  lemma SingleFillsOne(
      p: State, v: NodeId, current: map<StreamKey, StreamStatus>, max: nat, t: State, k: StreamKey)
    requires Sound(p) && current.Keys <= p.overlays.Keys && |current| == 1 && UpdatedSingle(p, v, current, max, t)
    ensures EmptyAt(t.overlays, k) <==> EmptyAt(p.overlays, k) && k !in current
  {
    var j :| j in current;
    OnlyOne(current, j);
    if current[j].counter == -1 {
      LeavingNeverBlanks(p, j, v, max, t, k);
    } else {
      UpdatingUnblanks(p, v, current, k);
    }
  }

  lemma SingleLeavesBlanks(s: State, status: Status, v: NodeId, max: nat, t: State, k: StreamKey)
    requires Sound(s) && NoneEmpty(s) && status.singleStream && TopologyUpdated(s, status, v, max, t)
    ensures EmptyAt(t.overlays, k) <==> Blank(s, status, v, k)
  {
    var p := Prepared(s, status, v);
    var current := Fresh(s.counters, status.streams, v);
    PreparedIsSound(s, status, v);
    assert !EmptyAt(s.overlays, k);
    assert EmptyAt(p.overlays, k) <==> k in status.streams && k !in s.overlays;
    if |current| == 1 { SingleFillsOne(p, v, current, max, t, k); }
  }

  /** A status of all streams: over which nodes it leaves each overlay. */
  lemma FullLeavesNodes(s: State, status: Status, v: NodeId, max: nat, t: State)
    requires Sound(s) && !status.singleStream && TopologyUpdated(s, status, v, max, t)
    ensures Sound(t)
    ensures var p := Prepared(s, status, v);
            var b := UpdatedOn(p.overlays, v, Fresh(s.counters, status.streams, v));
            NodesAfterLeaving(b, p.overlays.Keys - status.streams.Keys, v, t.overlays)
  {
    var p := Prepared(s, status, v);
    var current := Fresh(s.counters, status.streams, v);
    PreparedIsSound(s, status, v);
    UpdatedIsSound(p, v, current);
    var u := p.(overlays := UpdatedOn(p.overlays, v, current));
    var order :| Lists(order, p.overlays.Keys - status.streams.Keys) && LeftAll(u, order, v, max, t);
    LeftAllKeeps(u, order, v, max, t);
    assert Members(order) == p.overlays.Keys - status.streams.Keys;
  }

  lemma FullKeeps(s: State, status: Status, v: NodeId, max: nat, t: State, k: StreamKey)
    requires Sound(s) && NoneEmpty(s) && !status.singleStream && TopologyUpdated(s, status, v, max, t)
    ensures Sound(t)
    ensures EmptyAt(t.overlays, k) <==> Blank(s, status, v, k)
    ensures k in t.overlays && v in t.overlays[k] ==> k in status.streams
  {
    FullLeavesNodes(s, status, v, max, t);
    PreparedIsSound(s, status, v);
    var p := Prepared(s, status, v);
    UpdatedIsSound(p, v, Fresh(s.counters, status.streams, v));
    assert !EmptyAt(s.overlays, k);
  }

  /** The last of the streams is served, the others having been. */
  lemma LastFormedSettles(
      g: Graph, u: State, order: seq<StreamKey>, v: NodeId, max: nat, t: State, k: StreamKey)
    requires Sound(u) && order != [] && Distinct(order) && FormedAt(u, order[|order| - 1], v, max, false, t)
    requires k in u.overlays && v in u.overlays[k]
    requires if k in order[..|order| - 1] then Settled(u.overlays[k], v, max) else u.overlays[k] == g
    ensures k in t.overlays && v in t.overlays[k]
    ensures if k in order then Settled(t.overlays[k], v, max) else t.overlays[k] == g
  {
    var last := |order| - 1;
    FormedKeeps(u, order[last], v, max, false, t);
    assert order == order[..last] + [order[last]];
  }

  /** The degree theorem for the source, on every stream it has reported. */
  lemma {:induction false} AllFormedSettles(
      s: State, order: seq<StreamKey>, v: NodeId, max: nat, t: State, k: StreamKey)
    requires Sound(s) && Distinct(order) && AllFormed(s, StreamJobs(order, v), max, false, t)
    requires k in s.overlays && v in s.overlays[k]
    ensures Sound(t) && k in t.overlays && v in t.overlays[k]
    ensures if k in order then Settled(t.overlays[k], v, max) else t.overlays[k] == s.overlays[k]
    decreases |order|
  {
    AllFormedKeeps(s, StreamJobs(order, v), max, false, t);
    if order != [] {
      var last := |order| - 1;
      assert StreamJobs(order, v)[..last] == StreamJobs(order[..last], v);
      var u :| AllFormed(s, StreamJobs(order[..last], v), max, false, u) && FormedAt(u, order[last], v, max, false, t);
      AllFormedSettles(s, order[..last], v, max, u, k);
      LastFormedSettles(s.overlays[k], u, order, v, max, t, k);
    }
  }

  /** Whatever the status, overlays stay well-formed and counters backed; no overlay is left empty
      if and only if the status is complete; and the source gets its degree wherever it belongs.
   */
  lemma StatusKeeps(s: State, status: Status, v: NodeId, max: nat, t: State)
    requires Sound(s) && NoneEmpty(s) && Processed(s, status, v, max, t)
    ensures Sound(t)
    ensures NoneEmpty(t) <==> Complete(s, status, v)
    ensures forall k :: k in status.streams && k in t.overlays && v in t.overlays[k] ==> Settled(t.overlays[k], v, max)
    ensures !status.singleStream ==> forall k :: k in t.overlays && v in t.overlays[k] ==> k in status.streams
  {
    var u, order :|
      TopologyUpdated(s, status, v, max, u) && Lists(order, status.streams.Keys)
          && AllFormed(u, StreamJobs(order, v), max, false, t);
    forall k
      ensures Sound(u) && (EmptyAt(u.overlays, k) <==> Blank(s, status, v, k))
      ensures !status.singleStream && k in u.overlays && v in u.overlays[k] ==> k in status.streams
    {
      if status.singleStream {
        SingleIsSound(s, status, v, max, u);
        SingleLeavesBlanks(s, status, v, max, u, k);
      } else {
        FullKeeps(s, status, v, max, u, k);
      }
    }
    AllFormedKeeps(u, StreamJobs(order, v), max, false, t);
    forall k | k in status.streams && k in t.overlays && v in t.overlays[k] ensures Settled(t.overlays[k], v, max) {
      AllFormedSettles(u, order, v, max, t, k);
    }
    CompleteIffNoBlank(s, status, v);
    assert forall k :: EmptyAt(t.overlays, k) <==> EmptyAt(u.overlays, k);
  }

  /** A single-stream status with a counter below that of leaving, for a new stream: the overlay made
      for the stream stays, empty.
   */
  lemma IncompleteStatusLeavesAnEmptyOverlay(k: StreamKey, v: NodeId, max: nat)
    ensures var s := State(map[], map[]);
            var status := Status(map[k := StreamStatus({}, -2)], true);
            var t := Prepared(s, status, v);
            !Complete(s, status, v) && Processed(s, status, v, max, t) && EmptyAt(t.overlays, k)
  {
    var s := State(map[], map[]);
    var status := Status(map[k := StreamStatus({}, -2)], true);
    var t := Prepared(s, status, v);
    assert k in status.streams && status.streams[k].counter == -2;
    assert Fresh(s.counters, status.streams, v) == map[];
    assert t.overlays[k] == map[];
    var jobs := StreamJobs([k], v);
    assert jobs[..0] == [];
    assert AllFormed(t, jobs[..0], max, false, t);
    assert AllBumped(t.counters, {}, k) == t.counters;
    assert t.overlays[k := t.overlays[k]] == t.overlays;
    assert FormedAt(t, jobs[0].k, jobs[0].v, max, false, t);
    assert AllFormed(t, jobs, max, false, t);
    ProcessedInTwo(s, status, v, max, t, [k], t);
  }

  // ---------- runs ----------

  datatype Event = Reported(v: NodeId, status: Status) | Gone(v: NodeId)

  ghost predicate Step(s: State, e: Event, max: nat, t: State) {
    match e
    case Reported(v, status) => Processed(s, status, v, max, t)
    case Gone(v) => Disconnected(s, v, max, t)
  }

  ghost predicate IsRun(states: seq<State>, events: seq<Event>, max: nat) {
    && |states| == |events| + 1
    && states[0] == State(map[], map[])
    && forall i {:trigger events[i]} :: 0 <= i < |events| ==> Step(states[i], events[i], max, states[i + 1])
  }

  /** What a node sends: one stream in a single-stream status, and no counter below that of leaving. */
  ghost predicate Proper(e: Event) {
    e.Reported? ==>
      && (e.status.singleStream ==> |e.status.streams| == 1)
      && forall k {:trigger e.status.streams[k]} :: k in e.status.streams ==> e.status.streams[k].counter >= -1
  }

  lemma ProperIsComplete(s: State, status: Status, v: NodeId)
    requires Sound(s) && Proper(Reported(v, status))
    ensures Complete(s, status, v)
  {
    forall k | k in status.streams && k !in s.overlays
      ensures status.singleStream ==> |Fresh(s.counters, status.streams, v)| == 1
    {
      assert CounterAt(s.counters, v, k) == 0;
      if status.singleStream {
        OnlyOne(status.streams, k);
        assert Fresh(s.counters, status.streams, v).Keys == {k};
      }
    }
  }

  lemma {:induction false} EveryStateIsKept(states: seq<State>, events: seq<Event>, max: nat, i: nat)
    requires IsRun(states, events, max) && i < |states| && forall j :: 0 <= j < |events| ==> Proper(events[j])
    ensures Sound(states[i]) && NoneEmpty(states[i])
    decreases i
  {
    if i > 0 {
      EveryStateIsKept(states, events, max, i - 1);
      var s, t := states[i - 1], states[i];
      assert Step(s, events[i - 1], max, t);
      match events[i - 1] {
        case Reported(v, status) =>
          ProperIsComplete(s, status, v);
          StatusKeeps(s, status, v, max, t);
        case Gone(v) => DisconnectKeeps(s, v, max, t);
      }
    }
  }

  /** At every moment of every run every overlay is non-empty and well-formed and every positive
      counter belongs to an overlay; a node that has gone is nowhere; and a node that has reported
      has its degree in every overlay it reported and belongs to.
   */
  lemma EveryRunIsKept(states: seq<State>, events: seq<Event>, max: nat, i: nat)
    requires IsRun(states, events, max) && i < |events| && forall j :: 0 <= j < |events| ==> Proper(events[j])
    ensures var s := states[i + 1];
            && (forall k :: k in s.overlays ==> s.overlays[k] != map[] && WellFormed(s.overlays[k]))
            && (forall n, k {:trigger CounterAt(s.counters, n, k)} :: CounterAt(s.counters, n, k) > 0 ==>
                k in s.overlays)
            && match events[i]
               case Gone(v) => forall k :: k in s.overlays ==> v !in s.overlays[k]
               case Reported(v, status) =>
                 forall k :: k in status.streams && k in s.overlays && v in s.overlays[k] ==>
                   var d := |s.overlays[k][v]|;
                   d <= max && (d + 1 >= max || d == |s.overlays[k]| - 1)
  {
    var s, t := states[i], states[i + 1];
    EveryStateIsKept(states, events, max, i);
    EveryStateIsKept(states, events, max, i + 1);
    assert Step(s, events[i], max, t);
    forall k | k in t.overlays ensures t.overlays[k] != map[] { assert !EmptyAt(t.overlays, k); }
    match events[i] {
      case Gone(v) => DisconnectKeeps(s, v, max, t);
      case Reported(v, status) =>
        StatusKeeps(s, status, v, max, t);
        forall k | k in status.streams && k in t.overlays && v in t.overlays[k]
          ensures var d := |t.overlays[k][v]|; d <= max && (d + 1 >= max || d == |t.overlays[k]| - 1)
        {
          SettledDegree(t.overlays[k], v, max);
        }
    }
  }
}
