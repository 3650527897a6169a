/** What one call of FormInstructions does to the degrees of an overlay: the node reaches its target
    degree, nobody is overloaded, and a call that changes nothing is recognised by its silence.
 */
module OverlayDegrees {
  import opened Identifiers
  import opened OverlayTopologies

  /** What a call for v may lead to. */
  ghost predicate Called(g: Graph, v: NodeId, max: nat, h: Graph) {
    if v in g then Formed(g, v, max, h) else h == g
  }

  /** The degree theorem: a settled node has its full degree, or all but one, or knows everybody. */
  lemma SettledDegree(g: Graph, v: NodeId, max: nat)
    requires WellFormed(g) && v in g && Settled(g, v, max)
    ensures |g[v]| <= max
    ensures |g[v]| + 1 >= max || |g[v]| == |g| - 1
    ensures |g[v]| < max ==> forall n :: n in g && n != v && n !in g[v] ==> |g[n]| >= max
  {
    if |g[v]| + 1 < max {
      NeighborsAreOtherNodes(g, v);
      assert g[v] == g.Keys - {v};
    }
  }

  /** No node ends above the limit unless it was above it before, and never higher than that. */
  lemma NobodyIsOverloaded(g: Graph, v: NodeId, max: nat, h: Graph, n: NodeId)
    requires WellFormed(g) && v in g && Formed(g, v, max, h) && n in g
    ensures |h[n]| <= max || |h[n]| <= |g[n]|
    ensures n != v && |g[n]| >= max ==> |h[n]| <= |g[n]|
    ensures n != v && |g[v]| <= max ==> |g[n]| <= |h[n]| <= |g[n]| + 1
  {
    if n != v {
      assert OtherFormed(g, v, max, h, n);
      SubsetSize(g[n] - {v}, g[n]);
    }
  }

  /** A call for v makes no edge between two other nodes, and takes one away only to link both of them to
      v, and only once every node with an open slot is linked to v; v itself keeps its neighbors, or is
      trimmed to exactly its limit.
   */
  lemma FormedMovesLittle(g: Graph, v: NodeId, max: nat, h: Graph, n: NodeId, m: NodeId)
    requires WellFormed(g) && v in g && Formed(g, v, max, h) && n in g && n != v && m != v
    ensures m in h[n] ==> m in g[n]
    ensures m in g[n] && m !in h[n] ==>
              {n, m} <= h[v] - g[v] && forall u :: u in g && u != v && |g[u]| < max ==> u in h[v]
    ensures if |g[v]| <= max then g[v] <= h[v] else h[v] <= g[v] && |h[v]| == max
  {
    assert OtherFormed(g, v, max, h, n);
  }

  /** A node that v gained and that had no room gave up an edge to another node v gained. */
  lemma GainsComeInPairs(g: Graph, v: NodeId, max: nat, h: Graph, n: NodeId)
    requires WellFormed(g) && v in g && Formed(g, v, max, h)
    requires n in h[v] && n !in g[v] && |g[n]| >= max
    ensures |h[v]| >= |g[v]| + 2
  {
    NeighborsAreOtherNodes(h, v);
    assert OtherFormed(g, v, max, h, n);
    var m :| m in g[n] && m in h[v] && m !in g[v] && h[n] == g[n] - {m} + {v};
    assert m != n;
    SubsetSize(g[v] + {n, m}, h[v]);
  }

  /** A call for a node that is not above the limit unsettles nobody else. */
  lemma SettledStays(g: Graph, v: NodeId, max: nat, h: Graph, u: NodeId)
    requires WellFormed(g) && v in g && |g[v]| <= max && Formed(g, v, max, h)
    requires u in g && u != v && Settled(g, u, max)
    ensures Settled(h, u, max)
  {
    assert OtherFormed(g, v, max, h, u);
    SubsetSize(g[v], h[v]);
    forall n | n in g && n != v ensures |g[n]| <= |h[n]| && (|g[n]| >= max ==> |h[n]| <= |g[n]|) {
      NobodyIsOverloaded(g, v, max, h, n);
    }
  }

  lemma SettledNodeGainsNothing(g: Graph, v: NodeId, max: nat, h: Graph)
    requires WellFormed(g) && v in g && Formed(g, v, max, h) && Settled(g, v, max)
    ensures h[v] == g[v]
  {
    if h[v] != g[v] {
      var n :| n in h[v] && n !in g[v];
      NeighborsAreOtherNodes(h, v);
      SubsetSize(g[v] + {n}, h[v]);
      GainsComeInPairs(g, v, max, h, n);
    }
  }

  lemma SameNeighborsSameGraph(g: Graph, v: NodeId, max: nat, h: Graph)
    requires WellFormed(g) && v in g && Formed(g, v, max, h) && h[v] == g[v]
    ensures h == g
  {
    forall n | n in g && n != v ensures h[n] == g[n] {
      assert OtherFormed(g, v, max, h, n);
    }
  }

  /** A call changes the graph exactly when v is not settled, and without force it sends
      instructions exactly when it changes the graph. So repeating a call does nothing.
   */
  lemma QuietIffSettled(g: Graph, v: NodeId, max: nat, h: Graph)
    requires WellFormed(g) && v in g && Formed(g, v, max, h)
    ensures h == g <==> Settled(g, v, max)
    ensures Informed(g, v, max, h, false) == {} <==> h == g
  {
    if Settled(g, v, max) { SettledNodeGainsNothing(g, v, max, h); }
    if h[v] == g[v] { SameNeighborsSameGraph(g, v, max, h); }
    if Informed(g, v, max, h, false) == {} {
      assert v !in Informed(g, v, max, h, false);
      assert !Gained(g, h, v);
      assert h[v] == g[v];
    }
  }
}
