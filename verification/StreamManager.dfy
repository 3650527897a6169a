/** The streams a node takes part in: its neighbors on each, and a duplicate detector for every
    publisher chain on it. The detectors of all streams are kept in one map.
 */
module StreamManagers {
  import opened Identifiers
  import opened Options
  import opened DuplicateMessageDetectors

  /** A publisher's message chain on a stream. */
  datatype Chain = Chain(stream: StreamKey, key: string)

  const MAX_GAPS: nat := 10000

  datatype Neighbors = Neighbors(inbound: set<NodeId>, outbound: set<NodeId>)

  /** What the manager remembers. */
  datatype View = View(streams: map<StreamKey, Neighbors>, gaps: map<Chain, seq<Gap>>)

  function GapsOf(v: View, chain: Chain): seq<Gap> {
    if chain in v.gaps then v.gaps[chain] else []
  }

  /** A message has been checked against its chain. */
  function Checked(v: View, chain: Chain, m: Numbering): View {
    v.(gaps := v.gaps[chain := Check(GapsOf(v, chain), m, MAX_GAPS).1])
  }

  /** Making the detector first makes no difference to the check. */
  lemma CheckedOnceMade(v: View, chain: Chain, m: Numbering)
    ensures var made := v.gaps[chain := GapsOf(v, chain)];
            && made[chain] == GapsOf(v, chain)
            && v.(gaps := made[chain := Check(made[chain], m, MAX_GAPS).1]) == Checked(v, chain, m)
  {
    var made := v.gaps[chain := GapsOf(v, chain)];
    assert made[chain := Check(made[chain], m, MAX_GAPS).1] == v.gaps[chain := Check(made[chain], m, MAX_GAPS).1];
  }

  function WithoutNodeAnywhere(streams: map<StreamKey, Neighbors>, node: NodeId): map<StreamKey, Neighbors> {
    map k | k in streams :: Neighbors(streams[k].inbound - {node}, streams[k].outbound - {node})
  }

  /** A stream removed, with all it remembers. */
  function Removed(v: View, k: StreamKey): View {
    View(v.streams - {k}, map chain | chain in v.gaps && chain.stream != k :: v.gaps[chain])
  }

  /** The ghost fields hold the gap lists of the detectors, the detectors ever made, and their chains. */
  class StreamManager {
    var streams: map<StreamKey, Neighbors>
    var detectors: map<Chain, DuplicateMessageDetector>
    ghost var gaps: map<Chain, seq<Gap>>
    ghost var repr: set<DuplicateMessageDetector>
    ghost var homes: map<DuplicateMessageDetector, Chain>

    ghost function Abs(): View
      reads this
    {
      View(streams, gaps)
    }

    ghost predicate LivesAt(d: DuplicateMessageDetector, chain: Chain, gaps: seq<Gap>)
      reads this`homes, d
    {
      d in homes && homes[d] == chain && d.gaps == gaps && d.Valid() && d.maxNumberOfGaps == MAX_GAPS
    }

    ghost predicate Valid()
      reads this, repr
    {
      && detectors.Keys == gaps.Keys && repr == homes.Keys
      && forall c {:trigger detectors[c]} :: c in detectors ==>
           detectors[c] in repr && c.stream in streams && LivesAt(detectors[c], c, gaps[c])
    }

    ghost predicate ValidBut(chain: Chain)
      reads this, repr
    {
      && detectors.Keys == gaps.Keys && repr == homes.Keys
      && forall c {:trigger detectors[c]} :: c in detectors ==>
           detectors[c] in repr && c.stream in streams
           && LivesAt(detectors[c], c, if c == chain then detectors[c].gaps else gaps[c])
    }

    constructor ()
      ensures Valid() && Abs() == View(map[], map[]) && repr == {}
    {
      streams, detectors, gaps, repr, homes := map[], map[], map[], {}, map[];
    }

    predicate IsSetUp(k: StreamKey)
      reads this
    {
      k in streams
    }

    /** False if the stream is set up already: the source then fails. */
    method SetUpStream(k: StreamKey) returns (ok: bool)
      requires Valid()
      modifies this`streams
      ensures Valid() && (ok <==> k !in old(streams))
      ensures streams == if ok then old(streams)[k := Neighbors({}, {})] else old(streams)
    {
      if k in streams { return false; }
      streams := streams[k := Neighbors({}, {})];
      return true;
    }

    /** None when the stream is not set up: the source then fails. */
    method MarkNumbersAndCheckThatIsNotDuplicate(chain: Chain, m: Numbering) returns (verdict: Option<Verdict>)
      requires Valid() && m.Finite()
      modifies this`detectors, this`gaps, this`homes, this`repr, repr
      ensures Valid() && fresh(repr - old(repr))
      ensures chain.stream !in streams ==> verdict == None && Abs() == old(Abs())
      ensures chain.stream in streams ==>
                && verdict == Some(Check(GapsOf(old(Abs()), chain), m, MAX_GAPS).0)
                && Abs() == Checked(old(Abs()), chain, m)
    {
      if chain.stream !in streams { return None; }
      CheckedOnceMade(Abs(), chain, m);
      CreateIfMissing(chain);
      var v := MarkOn(chain, m);
      verdict := Some(v);
    }

    method CreateIfMissing(chain: Chain)
      requires Valid() && chain.stream in streams
      modifies this`detectors, this`gaps, this`homes, this`repr
      ensures Valid() && chain in detectors && gaps == old(gaps)[chain := GapsOf(old(Abs()), chain)]
      ensures fresh(repr - old(repr))
    {
      if chain !in detectors {
        var d := new DuplicateMessageDetector(MAX_GAPS);
        assert d !in repr;
        detectors, gaps := detectors[chain := d], gaps[chain := []];
        repr, homes := repr + {d}, homes[d := chain];
        forall c | c in detectors ensures LivesAt(detectors[c], c, gaps[c]) {
          if c != chain { assert old(LivesAt(detectors[c], c, gaps[c])) && detectors[c] != d; }
        }
      }
    }

    method MarkOn(chain: Chain, m: Numbering) returns (v: Verdict)
      requires Valid() && m.Finite() && chain in detectors
      modifies this`gaps, detectors[chain]
      ensures Valid() && chain in old(gaps)
      ensures v == Check(old(gaps)[chain], m, MAX_GAPS).0
          && gaps == old(gaps)[chain := Check(old(gaps)[chain], m, MAX_GAPS).1]
    {
      var d := detectors[chain];
      assert LivesAt(d, chain, gaps[chain]);
      v := d.MarkAndCheck(m);
      NoteGaps(chain);
    }

    /** The gap list of one detector has changed. */
    ghost method NoteGaps(chain: Chain)
      requires ValidBut(chain) && chain in detectors
      modifies this`gaps
      ensures Valid() && gaps == old(gaps)[chain := detectors[chain].gaps]
    {
      gaps := gaps[chain := detectors[chain].gaps];
    }

    /** A neighbor both ways; false if the stream is not set up: the source then fails. */
    method AddNode(k: StreamKey, node: NodeId) returns (ok: bool)
      requires Valid()
      modifies this`streams
      ensures Valid() && (ok <==> k in old(streams))
      ensures streams == if ok then
                           var n := old(streams)[k];
                           old(streams)[k := Neighbors(n.inbound + {node}, n.outbound + {node})]
                         else old(streams)
    {
      if k !in streams { return false; }
      streams := streams[k := Neighbors(streams[k].inbound + {node}, streams[k].outbound + {node})];
      return true;
    }

    method RemoveNodeFromStream(k: StreamKey, node: NodeId) returns (ok: bool)
      requires Valid()
      modifies this`streams
      ensures Valid() && (ok <==> k in old(streams))
      ensures streams == if ok then
                           var n := old(streams)[k];
                           old(streams)[k := Neighbors(n.inbound - {node}, n.outbound - {node})]
                         else old(streams)
    {
      if k !in streams { return false; }
      streams := streams[k := Neighbors(streams[k].inbound - {node}, streams[k].outbound - {node})];
      return true;
    }

    method RemoveNodeFromAllStreams(node: NodeId) returns (affected: set<StreamKey>)
      requires Valid()
      modifies this`streams
      ensures Valid() && streams == WithoutNodeAnywhere(old(streams), node) && streams.Keys == old(streams).Keys
      ensures forall k :: k in streams ==>
                streams[k].inbound == old(streams)[k].inbound - {node}
                && streams[k].outbound == old(streams)[k].outbound - {node}
      ensures affected == set k | k in old(streams) && node in old(streams)[k].inbound + old(streams)[k].outbound
    {
      affected := {};
      var rest := streams.Keys;
      while rest != {}
        invariant rest <= streams.Keys == old(streams).Keys
        invariant forall k :: k in streams ==> streams[k] == if k in rest then old(streams)[k]
            else WithoutNodeAnywhere(old(streams), node)[k]
        invariant affected == set k | k in old(streams) && k !in rest
            && node in old(streams)[k].inbound + old(streams)[k].outbound
      {
        var k :| k in rest;
        if node in streams[k].inbound || node in streams[k].outbound { affected := affected + {k}; }
        streams := streams[k := Neighbors(streams[k].inbound - {node}, streams[k].outbound - {node})];
        rest := rest - {k};
      }
    }

    /** The former neighbors, or None if the stream is not set up: the source then fails. */
    method RemoveStream(k: StreamKey) returns (nodes: Option<set<NodeId>>)
      requires Valid()
      modifies this
      ensures Valid() && nodes.Some? == (k in old(streams))
      ensures Abs() == if nodes.Some? then Removed(old(Abs()), k) else old(Abs())
      ensures nodes.Some? ==> nodes.value == old(streams)[k].inbound + old(streams)[k].outbound
      ensures streams == old(streams) - {k}
      ensures nodes.Some? ==> forall c :: c in gaps <==> c in old(gaps) && c.stream != k
      ensures forall c :: c in gaps ==> gaps[c] == old(gaps)[c]
      ensures repr == old(repr)
    {
      if k !in streams { return None; }
      nodes := Some(streams[k].inbound + streams[k].outbound);
      DropDetectors(k);
      streams := streams - {k};
    }

    method DropDetectors(k: StreamKey)
      requires Valid()
      modifies this`detectors, this`gaps
      ensures Valid() && gaps == map c | c in old(gaps) && c.stream != k :: old(gaps)[c]
    {
      ghost var before := detectors;
      detectors := map c | c in detectors && c.stream != k :: detectors[c];
      gaps := map c | c in gaps && c.stream != k :: gaps[c];
      forall c | c in detectors ensures LivesAt(detectors[c], c, gaps[c]) { assert detectors[c] == before[c]; }
    }
  }
}
