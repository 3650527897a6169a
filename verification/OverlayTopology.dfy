/** The tracker's overlay graph for one stream: who is connected to whom, and how a node is
    given neighbors. The graph is a map from node to neighbor set, updated in place.
 */
module OverlayTopologies {
  import opened Identifiers
  import opened Sequences

  type Graph = map<NodeId, set<NodeId>>

  // ---------- what the graph should be ----------

  /** Undirected, free of self-loops, and closed over its own nodes. */
  ghost predicate WellFormed(g: Graph) {
    forall n, m :: n in g && m in g[n] ==> m in g && m != n && n in g[m]
  }

  function Known(g: Graph, v: NodeId, neighbors: set<NodeId>): set<NodeId> {
    set n | n in neighbors && n in g && n != v
  }

  /** The graph after v reported its neighbors: v's edges are replaced, no other edge moves. */
  function Updated(g: Graph, v: NodeId, neighbors: set<NodeId>): Graph {
    map n | n in g.Keys + {v} ::
      if n == v then Known(g, v, neighbors)
      else if n in Known(g, v, neighbors) then g[n] + {v}
      else g[n] - {v}
  }

  lemma UpdatedNodeByNode(g: Graph, v: NodeId, neighbors: set<NodeId>, h: Graph)
    requires h.Keys == g.Keys + {v} && h[v] == Known(g, v, neighbors)
    requires forall n :: n in g && n != v ==> h[n] == if n in Known(g, v, neighbors) then g[n] + {v} else g[n] - {v}
    ensures h == Updated(g, v, neighbors)
  {
  }

  /** The graph without v and its edges. */
  function Without(g: Graph, v: NodeId): Graph {
    map n | n in g && n != v :: g[n] - {v}
  }

  /** The only edges that differ between g and Updated(g, v, _) are edges at v. */
  lemma UpdateMovesOnlyOwnEdges(g: Graph, v: NodeId, neighbors: set<NodeId>)
    requires WellFormed(g)
    ensures var h := Updated(g, v, neighbors);
            && WellFormed(h)
            && h.Keys == g.Keys + {v}
            && forall n, m :: n in g && n != v && m != v ==> (m in h[n] <==> m in g[n])
  {
  }

  /** The reporting node's neighbors are the reported nodes that are known, and both ends agree. */
  lemma UpdateTakesReportedNeighbors(g: Graph, v: NodeId, neighbors: set<NodeId>)
    ensures var h := Updated(g, v, neighbors);
            && h.Keys == g.Keys + {v}
            && (forall n :: n in h[v] <==> n in neighbors && n in g && n != v)
            && (forall n :: n in g && n != v ==> (v in h[n] <==> n in neighbors))
            && forall n, m :: n in g && n != v && m != v ==> (m in h[n] <==> m in g[n])
  {
  }

  /** Reporting one's own neighbors together with some new ones only adds edges. */
  lemma UpdateThatOnlyAdds(g: Graph, v: NodeId, added: set<NodeId>)
    requires WellFormed(g) && v in g && added <= g.Keys && v !in added
    ensures var h := Updated(g, v, g[v] + added);
            && WellFormed(h)
            && h.Keys == g.Keys
            && h[v] == g[v] + added
            && forall n :: n in g && n != v ==> h[n] == if n in added then g[n] + {v} else g[n]
  {
    UpdateMovesOnlyOwnEdges(g, v, g[v] + added);
    assert Known(g, v, g[v] + added) == g[v] + added;
  }

  /** Reporting only part of one's own neighbors only removes edges. */
  lemma UpdateThatOnlyDrops(g: Graph, v: NodeId, kept: set<NodeId>)
    requires WellFormed(g) && v in g && kept <= g[v]
    ensures var h := Updated(g, v, kept);
            && WellFormed(h)
            && h.Keys == g.Keys
            && h[v] == kept
            && forall n :: n in g && n != v ==> h[n] == if n in kept then g[n] else g[n] - {v}
  {
    UpdateMovesOnlyOwnEdges(g, v, kept);
    assert Known(g, v, kept) == kept;
  }

  lemma LeaveKeepsWellFormed(g: Graph, v: NodeId)
    requires WellFormed(g)
    ensures var h := Without(g, v);
            && WellFormed(h)
            && h.Keys == g.Keys - {v}
            && forall n, m :: n in h ==> (m in h[n] <==> m in g[n] && m != v)
  {
  }

  // ---------- what one call of FormInstructions may do ----------

  /** Nothing is left for v to do: it is within its limit; if it has a free slot then every
      node it is not connected to is full; if it has two, it is connected to everybody.
   */
  ghost predicate Settled(g: Graph, v: NodeId, max: nat)
    requires v in g
  {
    && |g[v]| <= max
    && (|g[v]| < max ==> forall n :: n in g && n != v && n !in g[v] ==> |g[n]| >= max)
    && (|g[v]| + 1 < max ==> forall n :: n in g && n != v ==> n in g[v])
  }

  /** n's edge to some m was split: n lost m and gained v, and v gained m as well. */
  ghost predicate Spliced(g: Graph, h: Graph, v: NodeId, n: NodeId)
    requires v in g && v in h && n in g && n in h
  {
    exists m :: m in g[n] && m in h[v] && m !in g[v] && h[n] == g[n] - {m} + {v}
  }

  /** How a node other than v comes out of a call made for v. */
  ghost predicate OtherFormed(g: Graph, v: NodeId, max: nat, h: Graph, n: NodeId)
    requires v in g && v in h && n in g && n in h
  {
    if v !in h[n] then h[n] == g[n] - {v}
    else if v in g[n] then h[n] == g[n]
    else if |g[n]| < max then h[n] == g[n] + {v}
    else |h[n]| == |g[n]| && Spliced(g, h, v, n)
  }

  /** h is a possible outcome of forming instructions for v in g. Which neighbors are trimmed,
      linked or split is left to chance; everything else is determined.
   */
  ghost predicate Formed(g: Graph, v: NodeId, max: nat, h: Graph)
    requires v in g
  {
    && h.Keys == g.Keys
    && WellFormed(h)
    && (if |g[v]| > max then h[v] < g[v] && |h[v]| == max else g[v] <= h[v] && |h[v]| <= max)
    && (forall n {:trigger OtherFormed(g, v, max, h, n)} :: n in g && n != v ==> OtherFormed(g, v, max, h, n))
    // an edge is split only once every open slot has been used
    && ((exists n :: n in h[v] && n !in g[v] && |g[n]| >= max) ==>
          forall n :: n in g && n != v && |g[n]| < max ==> n in h[v])
    && Settled(h, v, max)
  }

  ghost predicate Gained(g: Graph, h: Graph, n: NodeId) {
    n in g && n in h && exists m :: m in h[n] && m !in g[n]
  }

  /** The nodes that must be told: whoever gained a neighbor, plus v itself when it was
      trimmed or when the caller insists.
   */
  ghost function Informed(g: Graph, v: NodeId, max: nat, h: Graph, force: bool): set<NodeId>
    requires v in g
  {
    set n | n in h && (Gained(g, h, n) || (n == v && (force || |g[v]| > max)))
  }

  /** Told is whoever has a neighbor it did not have before, and v where it was trimmed or must be told. */
  lemma InformedExactly(g: Graph, v: NodeId, max: nat, h: Graph, force: bool, n: NodeId)
    requires v in g && n in g && n in h
    ensures n in Informed(g, v, max, h, force) <==> h[n] - g[n] != {} || (n == v && (force || |g[v]| > max))
  {
    if Gained(g, h, n) {
      var m :| m in h[n] && m !in g[n];
      assert m in h[n] - g[n];
    } else {
      assert forall m :: m !in h[n] - g[n];
    }
  }

  /** The edge n1 -- n2 replaced by v -- n1 and v -- n2. */
  function Split(g: Graph, v: NodeId, n1: NodeId, n2: NodeId): Graph
    requires v in g && n1 in g && n2 in g
  {
    g[n1 := g[n1] - {n2} + {v}][n2 := g[n2] - {n1} + {v}][v := g[v] + {n1, n2}]
  }

  /** Unlinking two nodes and linking both to v, one change at a time. */
  lemma LinkedFromBothEnds(g: Graph, v: NodeId, n1: NodeId, n2: NodeId)
    requires n1 in g && n2 in g && n1 != n2
    ensures g[n1 := g[n1] - {n2}][n2 := g[n2] - {n1}][n1 := g[n1] - {n2} + {v}][n2 := g[n2] - {n1} + {v}]
            == g[n1 := g[n1] - {n2} + {v}][n2 := g[n2] - {n1} + {v}]
  {
  }

  lemma LinkedToBothEnds(g: Graph, v: NodeId, n1: NodeId, n2: NodeId)
    requires v in g && n1 in g && n2 in g && v != n1 && v != n2
    ensures var h := g[n1 := g[n1] - {n2} + {v}][n2 := g[n2] - {n1} + {v}];
            h[v := h[v] + {n1}][v := h[v] + {n1} + {n2}] == Split(g, v, n1, n2)
  {
    assert g[v] + {n1} + {n2} == g[v] + {n1, n2};
  }

  /** Splitting an edge between strangers gives v two neighbors and costs nobody a slot. */
  lemma SplitAddsTwo(g: Graph, v: NodeId, n1: NodeId, n2: NodeId)
    requires WellFormed(g) && v in g && n1 in g && n2 in g[n1] && n1 != v && n2 != v
    requires n1 !in g[v] && n2 !in g[v]
    ensures var h := Split(g, v, n1, n2);
            && WellFormed(h)
            && h.Keys == g.Keys
            && |h[v]| == |g[v]| + 2
            && forall n :: n in g && n != v ==> |h[n]| == |g[n]|
  {
    assert n1 != n2 && n1 in g[n2];
    var h := Split(g, v, n1, n2);
    assert h[n1] == g[n1] - {n2} + {v} && v !in g[n1];
    assert h[n2] == g[n2] - {n1} + {v} && v !in g[n2];
    assert |g[n1] - {n2}| == |g[n1]| - 1 && |g[n2] - {n1}| == |g[n2]| - 1;
  }

  /** A node with more neighbors than v has one that v lacks: there is always an edge to split. */
  lemma FullNodeHasAStranger(g: Graph, v: NodeId, n1: NodeId)
    requires WellFormed(g) && v in g && n1 in g && n1 != v && n1 !in g[v] && |g[n1]| > |g[v]|
    ensures exists n :: n in g[n1] && v !in g[n]
  {
    SomeElementOutside(g[n1], g[v]);
    var n :| n in g[n1] && n !in g[v];
    assert n in g && v !in g[n];
  }

  /** The result of splitting edges for v, with every node's own outcome. */
  ghost predicate SplitFrom(g: Graph, v: NodeId, h: Graph)
    requires v in g
  {
    && WellFormed(h)
    && h.Keys == g.Keys
    && g[v] <= h[v]
    && forall n {:trigger OtherSplit(g, v, h, n)} :: n in g && n != v ==> OtherSplit(g, v, h, n)
  }

  ghost predicate OtherSplit(g: Graph, v: NodeId, h: Graph, n: NodeId)
    requires v in g && v in h && n in g && n in h
  {
    && |h[n]| == |g[n]|
    && (if n in h[v] && n !in g[v] then Spliced(g, h, v, n) else h[n] == g[n])
  }

  lemma SplitStep(g: Graph, v: NodeId, h: Graph, n1: NodeId, n2: NodeId)
    requires WellFormed(g) && v in g && SplitFrom(g, v, h)
    requires n1 in g && n2 in h[n1] && n1 != v && n2 != v && n1 !in h[v] && n2 !in h[v]
    ensures SplitFrom(g, v, Split(h, v, n1, n2))
    ensures |Split(h, v, n1, n2)[v]| == |h[v]| + 2
  {
    var k := Split(h, v, n1, n2);
    SplitAddsTwo(h, v, n1, n2);
    assert n1 in h[n2];
    assert k[v] == h[v] + {n1, n2};
    assert OtherSplit(g, v, h, n1) && OtherSplit(g, v, h, n2);
    forall n | n in g && n != v ensures OtherSplit(g, v, k, n) {
      assert OtherSplit(g, v, h, n);
      if n !in k[v] || n in g[v] {
      } else if n == n1 {
        assert n2 in g[n] && n2 in k[v] && n2 !in g[v] && k[n] == g[n] - {n2} + {v};
      } else if n == n2 {
        assert n1 in g[n] && n1 in k[v] && n1 !in g[v] && k[n] == g[n] - {n1} + {v};
      } else {
        assert Spliced(g, h, v, n) && k[n] == h[n];
        var m :| m in g[n] && m in h[v] && m !in g[v] && h[n] == g[n] - {m} + {v};
        assert m in k[v] && k[n] == g[n] - {m} + {v};
      }
    }
  }

  /** What must be reported after splitting edges for v. */
  function Touched(g: Graph, v: NodeId, h: Graph): set<NodeId>
    requires v in g && v in h
  {
    if h[v] == g[v] then {} else h[v] - g[v] + {v}
  }

  lemma TouchedGrows(g: Graph, v: NodeId, h: Graph, k: Graph, n1: NodeId, n2: NodeId)
    requires v in g && v in h && v in k && g[v] <= h[v]
    requires n1 !in h[v] && n2 !in h[v] && k[v] == h[v] + {n1, n2}
    ensures Touched(g, v, k) == Touched(g, v, h) + {v, n1, n2}
  {
    assert n1 in k[v] && n1 !in g[v];
    assert k[v] - g[v] == h[v] - g[v] + {n1, n2};
    if h[v] == g[v] { assert h[v] - g[v] == {}; }
  }

  /** The disconnection targets: every stranger of v, once. */
  ghost predicate Pending(g: Graph, v: NodeId, targets: seq<NodeId>)
    requires v in g
  {
    && (forall n :: n in targets <==> n in g && n != v && n !in g[v])
    && Distinct(targets)
  }

  lemma PendingAfterSplit(g: Graph, h: Graph, v: NodeId, targets: seq<NodeId>, n2: NodeId)
    requires v in g && v in h && targets != [] && Pending(g, v, targets)
    requires h.Keys == g.Keys && h[v] == g[v] + {targets[|targets| - 1], n2}
    ensures Pending(h, v, Remove(targets[..|targets| - 1], n2))
  {
    LastIsUnique(targets);
  }

  /** The graph after linking v to some nodes with open slots: to as many as fit, or to all. */
  ghost predicate Linked(g: Graph, v: NodeId, max: nat, added: set<NodeId>, h: Graph)
    requires v in g
  {
    && WellFormed(h)
    && h.Keys == g.Keys
    && v !in added && added !! g[v] && added <= g.Keys
    && h[v] == g[v] + added && |h[v]| <= max
    && (forall n :: n in g && n != v ==> h[n] == if n in added then g[n] + {v} else g[n])
    && (forall n :: n in added ==> |g[n]| < max)
    && (|h[v]| < max ==> forall n :: n in g && n != v && |g[n]| < max ==> n in h[v])
  }

  lemma LinkThenSplitOther(
      g: Graph, v: NodeId, max: nat, added: set<NodeId>, m: Graph, h: Graph, n: NodeId)
    requires WellFormed(g) && v in g && Linked(g, v, max, added, m) && SplitFrom(m, v, h)
    requires |m[v]| < max || h == m
    requires n in g && n != v
    ensures OtherFormed(g, v, max, h, n)
    ensures n !in h[v] && |h[v]| < max ==> |h[n]| >= max
  {
    assert OtherSplit(m, v, h, n);
    if n in h[v] && n !in m[v] {
      var x :| x in m[n] && x in h[v] && x !in m[v] && h[n] == m[n] - {x} + {v};
      assert m[n] == g[n];
      assert x in g[n] && x in h[v] && x !in g[v] && h[n] == g[n] - {x} + {v};
    }
  }

  /** Linking and then splitting is a legal outcome for a node that had a free slot. */
  lemma LinkThenSplit(g: Graph, v: NodeId, max: nat, added: set<NodeId>, m: Graph, h: Graph)
    requires WellFormed(g) && v in g && |g[v]| < max && Linked(g, v, max, added, m)
    requires SplitFrom(m, v, h) && |h[v]| <= max
    requires |m[v]| + 1 >= max ==> h == m
    requires |h[v]| + 1 < max ==> forall n :: n in h && n != v ==> n in h[v]
    ensures Formed(g, v, max, h)
  {
    forall n | n in g && n != v
      ensures OtherFormed(g, v, max, h, n)
      ensures n !in h[v] && |h[v]| < max ==> |h[n]| >= max
    {
      LinkThenSplitOther(g, v, max, added, m, h, n);
    }
    if h[v] == m[v] {
      assert forall n :: n in h[v] && n !in g[v] ==> n in added;
    } else {
      assert |m[v]| < max;
    }
  }

  lemma LinkThenSplitGains(
      g: Graph, v: NodeId, max: nat, added: set<NodeId>, m: Graph, h: Graph, n: NodeId)
    requires WellFormed(g) && v in g && Linked(g, v, max, added, m) && SplitFrom(m, v, h)
    requires n in g && n != v
    ensures Gained(g, h, n) <==> n in h[v] && n !in g[v]
  {
    assert OtherSplit(m, v, h, n);
    if n !in h[v] || n in g[v] {
      assert h[n] == m[n] == g[n];
    } else {
      assert v in h[n] && v !in g[n];
    }
  }

  lemma TouchedTwice(g: Graph, v: NodeId, added: set<NodeId>, m: Graph, h: Graph)
    requires v in g && v in m && v in h
    requires added !! g[v] && m[v] == g[v] + added && m[v] <= h[v]
    ensures Touched(g, v, h) == (if added == {} then {} else added + {v}) + Touched(m, v, h)
  {
    assert h[v] - g[v] == added + (h[v] - m[v]);
    if added == {} {
      assert m[v] == g[v];
    } else {
      var x :| x in added;
      assert x in h[v] && x !in g[v];
      if h[v] == m[v] { assert h[v] - m[v] == {}; }
    }
  }

  lemma NeighborsAreOtherNodes(g: Graph, v: NodeId)
    requires WellFormed(g) && v in g
    ensures g[v] <= g.Keys - {v}
  {
  }

  lemma InformedIsTouched(g: Graph, v: NodeId, max: nat, h: Graph)
    requires v in g && h.Keys == g.Keys && g[v] <= h[v] <= h.Keys - {v} && |g[v]| <= max
    requires forall n :: n in g && n != v ==> (Gained(g, h, n) <==> n in h[v] && n !in g[v])
    ensures Informed(g, v, max, h, false) == Touched(g, v, h)
  {
    assert Gained(g, h, v) <==> h[v] != g[v];
    forall n ensures n in Informed(g, v, max, h, false) <==> n in Touched(g, v, h) {}
  }

  lemma LinkThenSplitInforms(g: Graph, v: NodeId, max: nat, added: set<NodeId>, m: Graph, h: Graph)
    requires WellFormed(g) && v in g && |g[v]| < max && Linked(g, v, max, added, m) && SplitFrom(m, v, h)
    ensures Informed(g, v, max, h, false) == Touched(g, v, h)
  {
    forall n | n in g && n != v ensures Gained(g, h, n) <==> n in h[v] && n !in g[v] {
      LinkThenSplitGains(g, v, max, added, m, h, n);
    }
    NeighborsAreOtherNodes(h, v);
    InformedIsTouched(g, v, max, h);
  }

  lemma FullNodeStays(g: Graph, v: NodeId, max: nat)
    requires WellFormed(g) && v in g && |g[v]| == max
    ensures Formed(g, v, max, g) && Informed(g, v, max, g, false) == {}
  {
    forall n | n in g && n != v ensures OtherFormed(g, v, max, g, n) {}
  }

  lemma ForcedToo(g: Graph, v: NodeId, max: nat, h: Graph)
    requires v in g && v in h
    ensures Informed(g, v, max, h, true) == Informed(g, v, max, h, false) + {v}
  {
  }

  // ---------- sets ----------

  lemma SubsetSize<T>(a: set<T>, b: set<T>)
    requires a <= b
    ensures |a| <= |b|
    ensures |a| == |b| ==> a == b
  {
    assert b == a + (b - a);
  }

  lemma SomeElementOutside<T>(a: set<T>, b: set<T>)
    requires |a| > |b|
    ensures exists x :: x in a && x !in b
  {
    if a <= b { SubsetSize(a, b); }
  }

  ghost predicate Distinct<T>(s: seq<T>) {
    forall i, j :: 0 <= i < j < |s| ==> s[i] != s[j]
  }

  /** An arbitrary ordering of a set, as the injected shuffle function produces. */
  method Shuffle(s: set<NodeId>) returns (order: seq<NodeId>)
    ensures forall n :: n in order <==> n in s
    ensures |order| == |s|
    ensures Distinct(order)
  {
    order := [];
    var rest := s;
    while rest != {}
      invariant rest <= s
      invariant forall n :: n in order <==> n in s && n !in rest
      invariant |order| + |rest| == |s|
      invariant Distinct(order)
    {
      var n :| n in rest;
      order, rest := order + [n], rest - {n};
    }
  }

  /** The sequence without its occurrences of n. */
  function Remove(s: seq<NodeId>, n: NodeId): (r: seq<NodeId>)
    ensures |r| <= |s|
    ensures forall m :: m in r <==> m in s && m != n
    ensures Distinct(s) ==> Distinct(r)
  {
    if s == [] then []
    else
      assert Distinct(s) ==> Distinct(s[1..]) && s[0] !in s[1..];
      (if s[0] == n then [] else [s[0]]) + Remove(s[1..], n)
  }

  lemma LastIsUnique(s: seq<NodeId>)
    requires s != [] && Distinct(s)
    ensures forall n :: n in s[..|s| - 1] <==> n in s && n != s[|s| - 1]
  {
    assert s == s[..|s| - 1] + [s[|s| - 1]];
  }

  lemma {:induction false} DistinctCount(s: seq<NodeId>)
    requires Distinct(s)
    ensures |Members(s)| == |s|
  {
    if s != [] {
      var front, last := s[..|s| - 1], s[|s| - 1];
      DistinctCount(front);
      assert s == front + [last];
      MembersOfLonger(s);
      assert last !in front;
    }
  }

  /** The first k of a shuffled set. */
  method PickUpTo(s: set<NodeId>, k: nat) returns (picked: set<NodeId>)
    ensures picked <= s
    ensures |picked| == if |s| <= k then |s| else k
    ensures |s| <= k ==> picked == s
  {
    var order := Shuffle(s);
    var front := if |order| <= k then order else order[..k];
    picked := Members(front);
    DistinctCount(front);
    forall n | n in picked ensures n in s { assert n in order; }
    if |s| <= k { SubsetSize(picked, s); }
  }

  class OverlayTopology {
    const maxNeighborsPerNode: nat
    var nodes: Graph

    constructor (maxNeighborsPerNode: nat)
      ensures this.maxNeighborsPerNode == maxNeighborsPerNode && nodes == map[]
    {
      this.maxNeighborsPerNode := maxNeighborsPerNode;
      nodes := map[];
    }

    predicate IsEmpty()
      reads this
    {
      |nodes| == 0
    }

    /** Add v to the neighbor set of every target. */
    method AddBackLinks(targets: set<NodeId>, v: NodeId)
      requires targets <= nodes.Keys
      modifies this`nodes
      ensures nodes.Keys == old(nodes).Keys
      ensures forall n :: n in nodes ==> nodes[n] == if n in targets then old(nodes)[n] + {v} else old(nodes)[n]
    {
      var rest := targets;
      while rest != {}
        invariant rest <= targets
        invariant nodes.Keys == old(nodes).Keys
        invariant forall n :: n in nodes ==>
                    nodes[n] == if n in targets && n !in rest then old(nodes)[n] + {v} else old(nodes)[n]
      {
        var n :| n in rest;
        nodes := nodes[n := nodes[n] + {v}];
        rest := rest - {n};
      }
    }

    /** Delete v from the neighbor set of every target. */
    method DropBackLinks(targets: set<NodeId>, v: NodeId)
      requires targets <= nodes.Keys
      modifies this`nodes
      ensures nodes.Keys == old(nodes).Keys
      ensures forall n :: n in nodes ==> nodes[n] == if n in targets then old(nodes)[n] - {v} else old(nodes)[n]
    {
      var rest := targets;
      while rest != {}
        invariant rest <= targets
        invariant nodes.Keys == old(nodes).Keys
        invariant forall n :: n in nodes ==>
                    nodes[n] == if n in targets && n !in rest then old(nodes)[n] - {v} else old(nodes)[n]
      {
        var n :| n in rest;
        nodes := nodes[n := nodes[n] - {v}];
        rest := rest - {n};
      }
    }

    method Update(v: NodeId, neighbors: set<NodeId>)
      modifies this`nodes
      ensures nodes == Updated(old(nodes), v, neighbors)
      ensures forall n :: n in nodes[v] <==> n in neighbors && n in old(nodes) && n != v
      ensures forall n :: n in old(nodes) && n != v ==> (v in nodes[n] <==> n in neighbors)
    {
      var known := Known(nodes, v, neighbors);
      nodes := nodes[v := known];
      AddBackLinks(known, v);
      var others := set n | n in nodes && n !in nodes[v];
      DropBackLinks(others, v);
      UpdatedNodeByNode(old(nodes), v, neighbors, nodes);
    }

    method Leave(v: NodeId) returns (neighbors: set<NodeId>)
      requires WellFormed(nodes)
      modifies this`nodes
      ensures nodes == Without(old(nodes), v)
      ensures nodes.Keys == old(nodes).Keys - {v}
      ensures forall n, m :: n in nodes ==> (m in nodes[n] <==> m in old(nodes)[n] && m != v)
      ensures neighbors == if v in old(nodes) then old(nodes)[v] else {}
    {
      if v in nodes {
        neighbors := nodes[v];
        DropBackLinks(neighbors, v);
        nodes := nodes - {v};
        assert nodes.Keys == Without(old(nodes), v).Keys;
        forall n | n in nodes ensures nodes[n] == Without(old(nodes), v)[n] {}
      } else {
        neighbors := {};
        assert nodes.Keys == Without(nodes, v).Keys;
        forall n | n in nodes ensures nodes[n] == Without(nodes, v)[n] {}
      }
    }

    /** Drop random neighbors until v is within the limit. */
    method TrimExcess(v: NodeId)
      requires WellFormed(nodes) && v in nodes && |nodes[v]| > maxNeighborsPerNode
      modifies this`nodes
      ensures Formed(old(nodes), v, maxNeighborsPerNode, nodes)
      ensures Informed(old(nodes), v, maxNeighborsPerNode, nodes, false) == {v}
    {
      var kept := PickUpTo(nodes[v], maxNeighborsPerNode);
      UpdateThatOnlyDrops(nodes, v, kept);
      Update(v, kept);
      assert nodes[v] == kept && kept != old(nodes)[v];
    }

    /** Connect v to random nodes with open slots, as many as it has room for. */
    method LinkOpen(v: NodeId) returns (added: set<NodeId>)
      requires WellFormed(nodes) && v in nodes && |nodes[v]| < maxNeighborsPerNode
      modifies this`nodes
      ensures Linked(old(nodes), v, maxNeighborsPerNode, added, nodes)
    {
      var candidates := set n | n in nodes && |nodes[n]| < maxNeighborsPerNode && v !in nodes[n] && n != v;
      added := PickUpTo(candidates, maxNeighborsPerNode - |nodes[v]|);
      if added != {} {
        UpdateThatOnlyAdds(nodes, v, added);
        Update(v, nodes[v] + added);
      }
    }

    /** The neighbors of n1 that v lacks; there is one whenever n1 has more neighbors than v. */
    method StrangersNextTo(v: NodeId, n1: NodeId) returns (strangers: set<NodeId>)
      requires WellFormed(nodes) && v in nodes && n1 in nodes && n1 != v && n1 !in nodes[v]
      ensures strangers <= nodes[n1] && strangers !! nodes[v] && v !in strangers && n1 !in strangers
      ensures |nodes[n1]| > |nodes[v]| ==> strangers != {}
    {
      strangers := set n | n in nodes[n1] && v !in nodes[n];
      if |nodes[n1]| > |nodes[v]| {
        FullNodeHasAStranger(nodes, v, n1);
        ghost var n :| n in nodes[n1] && v !in nodes[n];
        assert n in strangers;
      }
    }

    method ReplaceEdge(v: NodeId, n1: NodeId, n2: NodeId)
      requires v in nodes && n1 in nodes && n2 in nodes && v != n1 && v != n2 && n1 != n2
      modifies this`nodes
      ensures nodes == Split(old(nodes), v, n1, n2)
    {
      ghost var g := nodes;
      nodes := nodes[n1 := nodes[n1] - {n2}];
      nodes := nodes[n2 := nodes[n2] - {n1}];
      nodes := nodes[n1 := nodes[n1] + {v}];
      nodes := nodes[n2 := nodes[n2] + {v}];
      LinkedFromBothEnds(g, v, n1, n2);
      assert nodes == g[n1 := g[n1] - {n2} + {v}][n2 := g[n2] - {n1} + {v}];
      nodes := nodes[v := nodes[v] + {n1}];
      nodes := nodes[v := nodes[v] + {n2}];
      LinkedToBothEnds(g, v, n1, n2);
    }

    /** Split one edge of the full node n1, if it has one that leads to a stranger of v. */
    method SplitAt(v: NodeId, n1: NodeId, ghost g: Graph) returns (n2: NodeId)
      requires WellFormed(g) && v in g && SplitFrom(g, v, nodes)
      requires n1 in nodes && n1 != v && n1 !in nodes[v] && |nodes[n1]| > |nodes[v]|
      modifies this`nodes
      ensures SplitFrom(g, v, nodes)
      ensures n2 in nodes && n2 != v && n2 != n1 && n2 !in old(nodes)[v]
      ensures nodes[v] == old(nodes)[v] + {n1, n2} && |nodes[v]| == |old(nodes)[v]| + 2
    {
      var n2candidates := StrangersNextTo(v, n1);
      n2 :| n2 in n2candidates;
      SplitStep(g, v, nodes, n1, n2);
      ReplaceEdge(v, n1, n2);
    }

    /** While v has two free slots, split edges between pairs of its non-neighbors. */
    method SplitEdges(v: NodeId) returns (touched: set<NodeId>)
      requires WellFormed(nodes) && v in nodes && |nodes[v]| + 1 < maxNeighborsPerNode
      requires forall n :: n in nodes && n != v && n !in nodes[v] ==> |nodes[n]| >= maxNeighborsPerNode
      modifies this`nodes
      ensures SplitFrom(old(nodes), v, nodes) && |nodes[v]| <= maxNeighborsPerNode
      ensures |nodes[v]| + 1 < maxNeighborsPerNode ==> forall n :: n in nodes && n != v ==> n in nodes[v]
      ensures touched == Touched(old(nodes), v, nodes)
    {
      var candidates := set n | n in nodes && |nodes[n]| >= maxNeighborsPerNode && v !in nodes[n] && n != v;
      var targets := Shuffle(candidates);
      touched := {};
      while |nodes[v]| + 1 < maxNeighborsPerNode && |targets| > 0
        invariant SplitFrom(old(nodes), v, nodes) && |nodes[v]| <= maxNeighborsPerNode
        invariant Pending(nodes, v, targets)
        invariant touched == Touched(old(nodes), v, nodes)
        decreases |targets|
      {
        label before:
        var n1 := targets[|targets| - 1];
        assert OtherSplit(old(nodes), v, nodes, n1);
        // the source tests whether n1 has a neighbor that v lacks; it always does
        var n2 := SplitAt(v, n1, old(nodes));
        PendingAfterSplit(old@before(nodes), nodes, v, targets, n2);
        TouchedGrows(old(nodes), v, old@before(nodes), nodes, n1, n2);
        targets := Remove(targets[..|targets| - 1], n2);
        touched := touched + {v, n1, n2};
      }
    }

    method LinkAndSplit(v: NodeId) returns (updated: set<NodeId>)
      requires WellFormed(nodes) && v in nodes && |nodes[v]| < maxNeighborsPerNode
      modifies this`nodes
      ensures Formed(old(nodes), v, maxNeighborsPerNode, nodes)
      ensures updated == Informed(old(nodes), v, maxNeighborsPerNode, nodes, false)
    {
      var added := LinkOpen(v);
      updated := if added == {} then {} else added + {v};
      ghost var linked := nodes;
      if |nodes[v]| + 1 < maxNeighborsPerNode {
        var touched := SplitEdges(v);
        updated := updated + touched;
      }
      LinkThenSplit(old(nodes), v, maxNeighborsPerNode, added, linked, nodes);
      LinkThenSplitInforms(old(nodes), v, maxNeighborsPerNode, added, linked, nodes);
      TouchedTwice(old(nodes), v, added, linked, nodes);
    }

    /** Give v neighbors: trim, link, split. Returns the new neighbors of every node to tell. */
    method FormInstructions(v: NodeId, force: bool) returns (instructions: Graph)
      requires WellFormed(nodes)
      modifies this`nodes
      ensures v !in old(nodes) ==> nodes == old(nodes) && instructions == map[]
      ensures v in old(nodes) ==>
                && Formed(old(nodes), v, maxNeighborsPerNode, nodes)
                && instructions == map n | n in Informed(old(nodes), v, maxNeighborsPerNode, nodes, force) :: nodes[n]
    {
      if v !in nodes { return map[]; }
      var updated := {};
      if |nodes[v]| > maxNeighborsPerNode {
        TrimExcess(v);
        updated := {v};
      }
      if |nodes[v]| < maxNeighborsPerNode {
        updated := LinkAndSplit(v);
      }
      if |old(nodes)[v]| == maxNeighborsPerNode { FullNodeStays(nodes, v, maxNeighborsPerNode); }
      ForcedToo(old(nodes), v, maxNeighborsPerNode, nodes);
      if force { updated := updated + {v}; }
      // the source throws here if an updated node is its own neighbor; none is
      assert forall n :: n in updated ==> n !in nodes[n];
      instructions := map n | n in updated :: nodes[n];
    }
  }
}
