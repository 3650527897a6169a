/** What repeated calls do to an overlay: the chain of connects and disconnects comes to an end, and
    every node reaches its target degree.
 */
module OverlayConvergence {
  import opened Identifiers
  import opened Measures
  import opened OverlayTopologies
  import opened OverlayDegrees

  // ---------- the measure ----------

  /** Each edge is counted at both ends. */
  ghost function Degrees(g: Graph): map<NodeId, nat> {
    map n | n in g :: |g[n]|
  }

  ghost function ExcessDegrees(g: Graph, max: nat): map<NodeId, nat> {
    map n | n in g :: if |g[n]| > max then |g[n]| - max else 0
  }

  /** What the degrees would add up to if everybody had as many neighbors as there are nodes. */
  ghost function DegreeCap(g: Graph): nat {
    Total(map n | n in g :: |g|)
  }

  lemma DegreesAreCapped(g: Graph)
    requires WellFormed(g)
    ensures Total(Degrees(g)) <= DegreeCap(g)
  {
    forall n | n in g ensures |g[n]| <= |g| {
      NeighborsAreOtherNodes(g, n);
      SubsetSize(g[n], g.Keys);
    }
    TotalMonotone(Degrees(g), map n | n in g :: |g|);
  }

  /** Every call that changes the graph lowers the total excess degree, or keeps it and adds edges. */
  lemma ChangeIsProgress(g: Graph, v: NodeId, max: nat, h: Graph)
    requires WellFormed(g) && v in g && Formed(g, v, max, h) && h != g
    ensures || Total(ExcessDegrees(h, max)) < Total(ExcessDegrees(g, max))
            || (Total(ExcessDegrees(h, max)) == Total(ExcessDegrees(g, max)) && Total(Degrees(h)) > Total(Degrees(g)))
  {
    if |g[v]| > max {
      forall n | n in g ensures |h[n]| <= |g[n]| {
        if n != v {
          assert OtherFormed(g, v, max, h, n);
          SubsetSize(g[n] - {v}, g[n]);
        }
      }
      TotalStrict(ExcessDegrees(h, max), ExcessDegrees(g, max), v);
    } else {
      if h[v] == g[v] { SameNeighborsSameGraph(g, v, max, h); }
      SubsetSize(g[v], h[v]);
      forall n | n in g
        ensures |h[n]| >= |g[n]| && ExcessDegrees(h, max)[n] == ExcessDegrees(g, max)[n]
      {
        NobodyIsOverloaded(g, v, max, h, n);
      }
      assert ExcessDegrees(h, max) == ExcessDegrees(g, max);
      TotalStrict(Degrees(g), Degrees(h), v);
    }
  }

  /** An upper bound on the number of calls that can still change the graph: excess degree
      counts most, then missing edges.
   */
  ghost function Potential(g: Graph, max: nat): int {
    Weight(Total(ExcessDegrees(g, max)), DegreeCap(g)) + DegreeCap(g) - Total(Degrees(g))
  }

  lemma PotentialIsNatural(g: Graph, max: nat)
    requires WellFormed(g)
    ensures Potential(g, max) >= 0
  {
    DegreesAreCapped(g);
  }

  lemma PotentialDrops(g: Graph, max: nat, h: Graph)
    requires WellFormed(g) && WellFormed(h) && h.Keys == g.Keys
    requires || Total(ExcessDegrees(h, max)) < Total(ExcessDegrees(g, max))
             || (Total(ExcessDegrees(h, max)) == Total(ExcessDegrees(g, max)) && Total(Degrees(h)) > Total(Degrees(g)))
    ensures Potential(h, max) < Potential(g, max)
  {
    assert |h| == |h.Keys| && |g| == |g.Keys|;
    assert (map n | n in g :: |g|) == (map n | n in h :: |h|);
    DegreesAreCapped(g);
    DegreesAreCapped(h);
    if Total(ExcessDegrees(h, max)) < Total(ExcessDegrees(g, max)) {
      WeightGrows(Total(ExcessDegrees(h, max)), Total(ExcessDegrees(g, max)), DegreeCap(g));
    }
  }

  lemma ChangeLowersPotential(g: Graph, v: NodeId, max: nat, h: Graph)
    requires WellFormed(g) && Called(g, v, max, h) && h != g
    ensures WellFormed(h) && h.Keys == g.Keys && Potential(h, max) < Potential(g, max)
  {
    ChangeIsProgress(g, v, max, h);
    PotentialDrops(g, max, h);
  }

  // ---------- runs of calls on a fixed node set ----------

  /** Calling for the given nodes in turn can lead from g to h, with that many calls changing the graph. */
  ghost predicate Leads(g: Graph, calls: seq<NodeId>, max: nat, changes: nat, h: Graph)
    decreases |calls|
  {
    if calls == [] then h == g && changes == 0
    else exists m :: Called(g, calls[0], max, m)
                     && (if m == g then Leads(m, calls[1..], max, changes, h)
                         else changes > 0 && Leads(m, calls[1..], max, changes - 1, h))
  }

  lemma FirstCall(g: Graph, calls: seq<NodeId>, max: nat, changes: nat, h: Graph)
      returns (m: Graph, rest: nat)
    requires WellFormed(g) && calls != [] && Leads(g, calls, max, changes, h)
    ensures WellFormed(m) && m.Keys == g.Keys && Called(g, calls[0], max, m) && Leads(m, calls[1..], max, rest, h)
    ensures if m == g then rest == changes else rest == changes - 1 && Potential(m, max) < Potential(g, max)
    ensures m == g <==> (calls[0] in g ==> Settled(g, calls[0], max))
  {
    m :| Called(g, calls[0], max, m)
         && (if m == g then Leads(m, calls[1..], max, changes, h)
             else changes > 0 && Leads(m, calls[1..], max, changes - 1, h));
    rest := if m == g then changes else changes - 1;
    if calls[0] in g { QuietIffSettled(g, calls[0], max, m); }
    if m != g { ChangeLowersPotential(g, calls[0], max, m); }
  }

  /** Whatever the schedule, the graph changes only finitely often. */
  lemma {:induction false} ChangesAreBounded(g: Graph, calls: seq<NodeId>, max: nat, changes: nat, h: Graph)
    requires WellFormed(g) && Leads(g, calls, max, changes, h)
    ensures WellFormed(h) && h.Keys == g.Keys
    ensures changes + Potential(h, max) <= Potential(g, max)
    decreases |calls|
  {
    if calls != [] {
      var m, rest := FirstCall(g, calls, max, changes, h);
      ChangesAreBounded(m, calls[1..], max, rest, h);
    }
  }

  ghost predicate AllSettled(g: Graph, max: nat) {
    forall n :: n in g ==> Settled(g, n, max)
  }

  lemma {:induction false} SettledRunIsQuiet(g: Graph, calls: seq<NodeId>, max: nat, changes: nat, h: Graph)
    requires WellFormed(g) && AllSettled(g, max) && Leads(g, calls, max, changes, h)
    ensures h == g && changes == 0
    decreases |calls|
  {
    if calls != [] {
      var m, rest := FirstCall(g, calls, max, changes, h);
      SettledRunIsQuiet(g, calls[1..], max, rest, h);
    }
  }

  /** Several rounds, each of which calls for every node at least once. */
  ghost predicate RoundsLead(g: Graph, rounds: seq<seq<NodeId>>, max: nat, h: Graph)
    decreases |rounds|
  {
    if rounds == [] then h == g
    else
      && (forall v :: v in g ==> v in rounds[0])
      && exists m, changes :: Leads(g, rounds[0], max, changes, m) && RoundsLead(m, rounds[1..], max, h)
  }

  ghost predicate Within(g: Graph, max: nat) {
    forall n :: n in g ==> |g[n]| <= max
  }

  lemma CallLimits(g: Graph, v: NodeId, max: nat, m: Graph)
    requires WellFormed(g) && Called(g, v, max, m)
    ensures m.Keys == g.Keys
    ensures forall n :: n in g && (n == v || |g[n]| <= max) ==> |m[n]| <= max
  {
    forall n | n in g && (n == v || |g[n]| <= max) ensures m.Keys == g.Keys && |m[n]| <= max {
      if v in g { NobodyIsOverloaded(g, v, max, m, n); }
    }
  }

  lemma CallSettles(g: Graph, v: NodeId, max: nat, m: Graph)
    requires WellFormed(g) && Within(g, max) && Called(g, v, max, m)
    ensures m.Keys == g.Keys && Within(m, max)
    ensures forall n :: n in g && (n == v || Settled(g, n, max)) ==> Settled(m, n, max)
  {
    CallLimits(g, v, max, m);
    forall n | n in g && (n == v || Settled(g, n, max)) ensures Settled(m, n, max) {
      if n != v && v in g { SettledStays(g, v, max, m, n); }
    }
  }

  /** One round brings everybody within the limit. */
  lemma {:induction false} RoundLimitsEveryone(g: Graph, calls: seq<NodeId>, max: nat, changes: nat, h: Graph)
    requires WellFormed(g) && Leads(g, calls, max, changes, h)
    ensures h.Keys == g.Keys
    ensures forall n :: n in g && (n in calls || |g[n]| <= max) ==> |h[n]| <= max
    decreases |calls|
  {
    if calls != [] {
      var m, rest := FirstCall(g, calls, max, changes, h);
      CallLimits(g, calls[0], max, m);
      RoundLimitsEveryone(m, calls[1..], max, rest, h);
      assert forall n :: n in calls ==> n == calls[0] || n in calls[1..];
    }
  }

  /** Within the limit one round settles everybody it calls, and unsettles nobody. */
  lemma {:induction false} RoundSettlesEveryone(g: Graph, calls: seq<NodeId>, max: nat, changes: nat, h: Graph)
    requires WellFormed(g) && Within(g, max) && Leads(g, calls, max, changes, h)
    ensures h.Keys == g.Keys
    ensures forall n :: n in g && (n in calls || Settled(g, n, max)) ==> Settled(h, n, max)
    decreases |calls|
  {
    if calls != [] {
      var m, rest := FirstCall(g, calls, max, changes, h);
      CallSettles(g, calls[0], max, m);
      RoundSettlesEveryone(m, calls[1..], max, rest, h);
      assert forall n :: n in calls ==> n == calls[0] || n in calls[1..];
    }
  }

  /** Convergence: after two rounds, or one if nobody is above the limit to begin with, every node has
      its target degree and no further call changes anything.
   */
  lemma {:induction false} RoundsSettleEveryone(g: Graph, rounds: seq<seq<NodeId>>, max: nat, h: Graph)
    requires WellFormed(g) && RoundsLead(g, rounds, max, h)
    requires |rounds| >= 2 || (|rounds| == 1 && Within(g, max)) || AllSettled(g, max)
    ensures WellFormed(h) && h.Keys == g.Keys && AllSettled(h, max)
    decreases |rounds|
  {
    if rounds != [] {
      var m, changes :| Leads(g, rounds[0], max, changes, m) && RoundsLead(m, rounds[1..], max, h);
      ChangesAreBounded(g, rounds[0], max, changes, m);
      RoundLimitsEveryone(g, rounds[0], max, changes, m);
      if AllSettled(g, max) {
        SettledRunIsQuiet(g, rounds[0], max, changes, m);
      } else if Within(g, max) {
        RoundSettlesEveryone(g, rounds[0], max, changes, m);
      }
      RoundsSettleEveryone(m, rounds[1..], max, h);
    }
  }

  // ---------- one round is not enough ----------

  function Star(center: NodeId, leaves: set<NodeId>): Graph {
    (map n | n in leaves :: {center})[center := leaves]
  }

  /** A call may leave a settled node and its overlay as they are. */
  lemma SettledMayRest(g: Graph, v: NodeId, max: nat)
    requires WellFormed(g) && v in g && Settled(g, v, max)
    ensures Formed(g, v, max, g)
  {
    forall n | n in g && n != v ensures OtherFormed(g, v, max, g, n) {}
  }

  lemma {:induction false} RestsThrough(g: Graph, calls: seq<NodeId>, v: NodeId, max: nat, h: Graph)
    requires WellFormed(g) && v in g && Formed(g, v, max, h) && h != g
    requires forall u :: u in calls ==> u in g && Settled(g, u, max)
    ensures Leads(g, calls + [v], max, 1, h)
    decreases |calls|
  {
    var all := calls + [v];
    if calls == [] {
      assert all[1..] == [] && Leads(h, all[1..], max, 0, h);
      assert Called(g, all[0], max, h);
    } else {
      SettledMayRest(g, calls[0], max);
      RestsThrough(g, calls[1..], v, max, h);
      assert all[1..] == calls[1..] + [v];
      assert Called(g, all[0], max, g);
    }
  }

  /** A star with a limit of one, its leaves called before its center: every leaf is settled when it is
      called, and the center then drops all but one of them, leaving the rest with open slots.
   */
  lemma {:induction false} OneRoundIsNotEnough(c: NodeId, leaves: seq<NodeId>, x: NodeId, y: NodeId, z: NodeId)
    requires c !in leaves && x in leaves && y in leaves && z in leaves && x != y && y != z && z != x
    ensures var g := Star(c, set n | n in leaves);
            exists h, changes :: Leads(g, leaves + [c], 1, changes, h) && !AllSettled(h, 1)
  {
    var ends := set n | n in leaves;
    LeavesAreSettled(c, ends);
    StarIsTrimmed(c, ends, x, y, z);
    RestsThrough(Star(c, ends), leaves, c, 1, TrimmedStar(c, ends, x));
  }

  function TrimmedStar(center: NodeId, leaves: set<NodeId>, kept: NodeId): Graph {
    (map n | n in leaves :: if n == kept then {center} else {})[center := {kept}]
  }

  lemma LeavesAreSettled(c: NodeId, leaves: set<NodeId>)
    requires c !in leaves
    ensures var g := Star(c, leaves);
            WellFormed(g) && g.Keys == leaves + {c} && forall u :: u in leaves ==> Settled(g, u, 1)
  {
  }

  lemma StarIsTrimmed(c: NodeId, leaves: set<NodeId>, x: NodeId, y: NodeId, z: NodeId)
    requires c !in leaves && {x, y, z} <= leaves && x != y && y != z && z != x
    ensures var g, h := Star(c, leaves), TrimmedStar(c, leaves, x);
            Formed(g, c, 1, h) && h != g && !AllSettled(h, 1)
  {
    var g, h := Star(c, leaves), TrimmedStar(c, leaves, x);
    SubsetSize({x, y}, leaves);
    assert h[c] < g[c] by { assert y in g[c] - h[c]; }
    forall n | n in leaves ensures OtherFormed(g, c, 1, h, n) {}
    assert !Settled(h, y, 1) by { assert h[y] == {} && h[z] == {}; }
  }

  // ---------- runs of all operations ----------

  datatype Op = Update(node: NodeId, neighbors: set<NodeId>) | Leave(node: NodeId) | Form(node: NodeId)

  ghost predicate Performed(g: Graph, op: Op, max: nat, h: Graph) {
    match op
    case Update(v, neighbors) => h == Updated(g, v, neighbors)
    case Leave(v) => h == Without(g, v)
    case Form(v) => Called(g, v, max, h)
  }

  ghost predicate OpsLead(g: Graph, ops: seq<Op>, max: nat, h: Graph)
    decreases |ops|
  {
    if ops == [] then h == g
    else exists m :: Performed(g, ops[0], max, m) && OpsLead(m, ops[1..], max, h)
  }

  /** Over every run of operations the graph stays symmetric, loop-free and closed. */
  lemma {:induction false} EveryRunIsWellFormed(g: Graph, ops: seq<Op>, max: nat, h: Graph)
    requires WellFormed(g) && OpsLead(g, ops, max, h)
    ensures WellFormed(h)
    decreases |ops|
  {
    if ops != [] {
      var m :| Performed(g, ops[0], max, m) && OpsLead(m, ops[1..], max, h);
      match ops[0] {
        case Update(v, neighbors) => UpdateMovesOnlyOwnEdges(g, v, neighbors);
        case Leave(v) => LeaveKeepsWellFormed(g, v);
        case Form(_) =>
      }
      EveryRunIsWellFormed(m, ops[1..], max, h);
    }
  }
}
