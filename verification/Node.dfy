/** A node's handling of messages: duplicates are stopped, new messages are announced and passed on,
    and those with nobody to go to wait in a buffer for the next neighbor.
 */
module Nodes {
  import opened Identifiers
  import opened Options
  import opened DuplicateMessageDetectors
  import opened StreamManagers
  import opened MessageBuffers

  type FiniteNumbering = m: Numbering | m.Finite() witness Numbering(None, Pair(0, 0))

  datatype Message = Message(chain: Chain, numbering: FiniteNumbering, content: int) {
    /** Publisher, chain and number identify a message; its previous number and content do not count. */
    function Key(): MessageKey {
      MessageKey(chain, numbering.number)
    }
  }

  datatype MessageKey = MessageKey(chain: Chain, number: NumberPair)

  /** A message and the neighbor it came from; the node's own messages come from nobody. */
  datatype Delivery = Delivery(message: Message, source: Option<NodeId>)

  datatype Event =
    | Announced(key: MessageKey)
    | Propagated(message: Message, targets: set<NodeId>)
    | Ignored(message: Message, verdict: Verdict)
    | TornDown(stream: StreamKey)

  datatype State = State(
    view: View,
    buffer: map<StreamKey, seq<Delivery>>,
    maxSize: nat,
    seen: set<MessageKey>,
    log: seq<Event>)

  /** ok is false where the source throws. */
  datatype Step = Step(state: State, ok: bool)

  function Log(s: State, e: Event): State {
    s.(log := s.log + [e])
  }

  function SetUp(s: State, k: StreamKey): State {
    if k in s.view.streams then s else s.(view := s.view.(streams := s.view.streams[k := Neighbors({}, {})]))
  }

  function VerdictOn(s: State, m: Message): Verdict {
    Check(GapsOf(s.view, m.chain), m.numbering, MAX_GAPS).0
  }

  function Targets(s: State, d: Delivery): set<NodeId> {
    if d.message.chain.stream in s.view.streams then
      s.view.streams[d.message.chain.stream].outbound - (if d.source.Some? then {d.source.value} else {})
    else {}
  }

  /** Pass a message on, or keep it for later. */
  function Passed(s: State, d: Delivery): Step {
    var k := d.message.chain.stream;
    var targets := Targets(s, d);
    if targets != {} then Step(Log(s.(seen := s.seen - {d.message.Key()}), Propagated(d.message, targets)), true)
    else
      var t := s.(seen := s.seen + {d.message.Key()});
      match Put(Queue(s.buffer, k), d, s.maxSize)
      case Some(q) => Step(t.(buffer := s.buffer[k := q]), true)
      case None => Step(t.(buffer := s.buffer - {k}), false)
  }

  /** The message has been checked for being a duplicate, and announced if new. */
  function Examined(s: State, m: Message): State {
    var verdict := VerdictOn(s, m);
    var t := s.(view := Checked(s.view, m.chain, m.numbering));
    match verdict
    case New => Log(t, Announced(m.Key()))
    case Duplicate => if m.Key() in s.seen then t else Log(t, Ignored(m, Duplicate))
    case _ => Log(t, Ignored(m, verdict))
  }

  function Received(s: State, d: Delivery): Step {
    var t := SetUp(s, d.message.chain.stream);
    var verdict := VerdictOn(t, d.message);
    var u := Examined(t, d.message);
    if verdict == New || (verdict == Duplicate && d.message.Key() in s.seen) then Passed(u, d) else Step(u, true)
  }

  function AllReceived(s: State, ds: seq<Delivery>): Step
    decreases |ds|
  {
    if ds == [] then Step(s, true)
    else
      var last := |ds| - 1;
      var r := AllReceived(s, ds[..last]);
      if r.ok then Received(r.state, ds[last]) else r
  }

  function Joined(view: View, node: NodeId, k: StreamKey): View
    requires k in view.streams
  {
    view.(streams := view.streams[k := Neighbors(view.streams[k].inbound + {node}, view.streams[k].outbound + {node})])
  }

  /** A neighbor joins a stream: what is buffered for the stream is received again. */
  function SubscribedOn(s: State, node: NodeId, k: StreamKey): Step {
    if k !in s.view.streams then Step(s, false)
    else AllReceived(s.(view := Joined(s.view, node, k), buffer := s.buffer - {k}), Queue(s.buffer, k))
  }

  function UnsubscribedOn(s: State, node: NodeId, k: StreamKey): Step {
    if k !in s.view.streams then Step(s, false)
    else
      var n := s.view.streams[k];
      var left := Neighbors(n.inbound - {node}, n.outbound - {node});
      Step(s.(view := s.view.(streams := s.view.streams[k := left])), true)
  }

  /** The node gives up a stream. */
  function TakenDown(s: State, k: StreamKey): Step {
    if k !in s.view.streams then Step(s, false)
    else Step(Log(s.(view := Removed(s.view, k)), TornDown(k)), true)
  }

  function NodeLost(s: State, node: NodeId): State {
    s.(view := s.view.(streams := WithoutNodeAnywhere(s.view.streams, node)))
  }

  /** The oldest message buffered for a stream has waited too long. */
  function TimedOut(s: State, k: StreamKey): State {
    if k !in s.buffer || |s.buffer[k]| <= 1 then s.(buffer := s.buffer - {k})
    else s.(buffer := s.buffer[k := s.buffer[k][1..]])
  }

  /** A marked message has been forgotten by the bounded cache that holds the marks. */
  function MarkLost(s: State, key: MessageKey): State {
    s.(seen := s.seen - {key})
  }

  // ---------- the object ----------

  class Node {
    const streams: StreamManager
    const messageBuffer: MessageBuffer<Delivery>
    var seenButNotPropagated: set<MessageKey>
    ghost var log: seq<Event>

    ghost predicate Valid()
      reads this, streams, streams.repr, messageBuffer
    {
      streams.Valid() && messageBuffer.Valid()
    }

    ghost function Abs(): State
      reads this, streams, messageBuffer
    {
      State(streams.Abs(), messageBuffer.buffer, messageBuffer.maxSize, seenButNotPropagated, log)
    }

    constructor (bufferMaxSize: nat)
      ensures Valid() && Abs() == State(View(map[], map[]), map[], bufferMaxSize, {}, [])
    {
      streams := new StreamManager();
      messageBuffer := new MessageBuffer(bufferMaxSize);
      seenButNotPropagated, log := {}, [];
    }

    method SubscribeToStreamIfHaveNotYet(k: StreamKey)
      requires Valid()
      modifies streams`streams
      ensures Valid() && k in streams.streams && Abs() == SetUp(old(Abs()), k)
    {
      if !streams.IsSetUp(k) { var _ := streams.SetUpStream(k); }
    }

    method Mark(m: Message) returns (verdict: Verdict)
      requires Valid() && m.chain.stream in streams.streams
      modifies streams`detectors, streams`gaps, streams`homes, streams`repr, streams.repr
      ensures Valid() && fresh(streams.repr - old(streams.repr))
      ensures Abs() == old(Abs()).(view := Checked(old(streams.Abs()), m.chain, m.numbering))
      ensures verdict == VerdictOn(old(Abs()), m)
    {
      var checked := streams.MarkNumbersAndCheckThatIsNotDuplicate(m.chain, m.numbering);
      return checked.value;
    }

    /** Check for a duplicate, and announce what is new. */
    method Examine(m: Message) returns (verdict: Verdict)
      requires Valid() && m.chain.stream in streams.streams
      modifies this`log, streams, streams.repr
      ensures Valid() && fresh(streams.repr - old(streams.repr))
      ensures Abs() == Examined(old(Abs()), m) && verdict == VerdictOn(old(Abs()), m)
    {
      verdict := Mark(m);
      if verdict == New {
        log := log + [Announced(m.Key())];
      } else if verdict != Duplicate || m.Key() !in seenButNotPropagated {
        log := log + [Ignored(m, verdict)];
      }
    }

    method PropagateMessage(d: Delivery) returns (ok: bool)
      requires Valid() && d.message.chain.stream in streams.streams
      modifies this`seenButNotPropagated, this`log, messageBuffer
      ensures Valid() && Step(Abs(), ok) == Passed(old(Abs()), d)
    {
      var k := d.message.chain.stream;
      var subscribers := streams.streams[k].outbound - if d.source.Some? then {d.source.value} else {};
      if subscribers == {} {
        seenButNotPropagated := seenButNotPropagated + {d.message.Key()};
        ok := messageBuffer.PutIn(k, d);
        return;
      }
      seenButNotPropagated := seenButNotPropagated - {d.message.Key()};
      log := log + [Propagated(d.message, subscribers)];
      return true;
    }

    method SetUpAndExamine(m: Message) returns (verdict: Verdict)
      requires Valid()
      modifies this`log, streams, streams.repr
      ensures Valid() && m.chain.stream in streams.streams && fresh(streams.repr - old(streams.repr))
      ensures var t := SetUp(old(Abs()), m.chain.stream); Abs() == Examined(t, m) && verdict == VerdictOn(t, m)
    {
      SubscribeToStreamIfHaveNotYet(m.chain.stream);
      verdict := Examine(m);
    }

    method OnDataReceived(d: Delivery) returns (ok: bool)
      requires Valid()
      modifies this, streams, streams.repr, messageBuffer
      ensures Valid() && fresh(streams.repr - old(streams.repr))
      ensures Step(Abs(), ok) == Received(old(Abs()), d)
    {
      var verdict := SetUpAndExamine(d.message);
      ok := true;
      // the errors are caught; a message with invalid numbering or a gap mismatch goes no further
      if verdict == New || (verdict == Duplicate && d.message.Key() in seenButNotPropagated) {
        ok := PropagateMessage(d);
      }
    }

    method HandleBufferedMessages(k: StreamKey) returns (ok: bool)
      requires Valid()
      modifies this, streams, streams.repr, messageBuffer
      ensures Valid() && fresh(streams.repr - old(streams.repr))
      ensures var s := old(Abs());
              Step(Abs(), ok) == AllReceived(s.(buffer := s.buffer - {k}), Queue(s.buffer, k))
    {
      var messages := messageBuffer.PopAll(k);
      ghost var before := Abs();
      for i := 0 to |messages|
        invariant Valid() && fresh(streams.repr - old(streams.repr))
        invariant AllReceived(before, messages[..i]) == Step(Abs(), true)
      {
        ok := OnDataReceived(messages[i]);
        OneMoreReceived(before, messages, i);
        if !ok {
          FailureEnds(before, messages, i + 1);
          return;
        }
      }
      assert messages[..|messages|] == messages;
      return true;
    }

    method SubscribeToStreamOnNode(node: NodeId, k: StreamKey) returns (ok: bool)
      requires Valid()
      modifies this, streams, streams.repr, messageBuffer
      ensures Valid() && fresh(streams.repr - old(streams.repr))
      ensures Step(Abs(), ok) == SubscribedOn(old(Abs()), node, k)
      ensures k !in old(streams.streams) ==> !ok && Abs() == old(Abs())
    {
      ok := streams.AddNode(k, node);
      if ok { ok := HandleBufferedMessages(k); }
    }

    method UnsubscribeFromStreamOnNode(node: NodeId, k: StreamKey) returns (ok: bool)
      requires Valid()
      modifies streams`streams
      ensures Valid() && Step(Abs(), ok) == UnsubscribedOn(old(Abs()), node, k)
      ensures k in streams.streams ==>
                node !in streams.streams[k].inbound && node !in streams.streams[k].outbound
    {
      ok := streams.RemoveNodeFromStream(k, node);
    }

    method UnsubscribeFromStream(k: StreamKey) returns (ok: bool)
      requires Valid()
      modifies this`log, streams
      ensures Valid() && Step(Abs(), ok) == TakenDown(old(Abs()), k) && k !in streams.streams
    {
      var nodes := streams.RemoveStream(k);
      if nodes.None? { return false; }
      log := log + [TornDown(k)];
      return true;
    }

    method OnNodeDisconnected(node: NodeId)
      requires Valid()
      modifies streams`streams
      ensures Valid() && Abs() == NodeLost(old(Abs()), node)
      ensures forall k :: k in streams.streams ==>
                node !in streams.streams[k].inbound && node !in streams.streams[k].outbound
    {
      var _ := streams.RemoveNodeFromAllStreams(node);
    }
  }

  lemma {:induction false} OneMoreReceived(s: State, ds: seq<Delivery>, i: nat)
    requires i < |ds| && AllReceived(s, ds[..i]).ok
    ensures AllReceived(s, ds[..i + 1]) == Received(AllReceived(s, ds[..i]).state, ds[i])
  {
    assert ds[..i + 1][..i] == ds[..i];
  }

  /** After a failure nothing more is received. */
  lemma {:induction false} FailureEnds(s: State, ds: seq<Delivery>, i: nat)
    requires i <= |ds| && !AllReceived(s, ds[..i]).ok
    ensures AllReceived(s, ds) == AllReceived(s, ds[..i])
    decreases |ds|
  {
    if i == |ds| {
      assert ds[..i] == ds;
    } else {
      assert ds[..|ds| - 1][..i] == ds[..i];
      FailureEnds(s, ds[..|ds| - 1], i);
    }
  }
}
