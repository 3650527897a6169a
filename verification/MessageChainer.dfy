/** The publisher's side of a message chain: every message gets a number and a reference to
    its predecessor.
 */
module MessageChainers {
  import opened Options
  import opened MessageRefs

  /** The number and predecessor given to the next message, from the last one remembered. */
  function Assign(last: Option<MessageRef>, timestamp: nat): (MessageRef, Option<MessageRef>) {
    var sameTimestamp := last.Some? && last.value.timestamp == timestamp;
    (MessageRef(timestamp, if sameTimestamp then last.value.sequenceNumber + 1 else 0), last)
  }

  predicate Backdated(last: Option<MessageRef>, timestamp: nat) {
    last.Some? && last.value.timestamp > timestamp
  }

  class MessageChainer {
    var prevMsgRef: Option<MessageRef>

    constructor ()
      ensures prevMsgRef == None
    {
      prevMsgRef := None;
    }

    method Add(timestamp: nat) returns (ref: MessageRef, prev: Option<MessageRef>)
      modifies this
      ensures (ref, prev) == Assign(old(prevMsgRef), timestamp)
      ensures prevMsgRef == if Backdated(old(prevMsgRef), timestamp) then old(prevMsgRef) else Some(ref)
    {
      var isSameTimestamp := prevMsgRef.Some? && prevMsgRef.value.timestamp == timestamp;
      var isBackdated := prevMsgRef.Some? && prevMsgRef.value.timestamp > timestamp;
      var nextSequenceNumber := if isSameTimestamp then prevMsgRef.value.sequenceNumber + 1 else 0;
      ref := MessageRef(timestamp, nextSequenceNumber);
      prev := prevMsgRef;
      if !isBackdated {
        prevMsgRef := Some(ref);
      }
    }
  }

  /** What a chainer hands out for one message. */
  datatype Link = Link(ref: MessageRef, prev: Option<MessageRef>)

  /** All links handed out for the given timestamps. */
  function Handed(last: Option<MessageRef>, timestamps: seq<nat>): seq<Link>
    decreases |timestamps|
  {
    if timestamps == [] then []
    else
      var (ref, prev) := Assign(last, timestamps[0]);
      [Link(ref, prev)]
      + Handed(if Backdated(last, timestamps[0]) then last else Some(ref), timestamps[1..])
  }

  /** The links of the messages that were not backdated. */
  function Chain(last: Option<MessageRef>, timestamps: seq<nat>): seq<Link>
    decreases |timestamps|
  {
    if timestamps == [] then []
    else if Backdated(last, timestamps[0]) then Chain(last, timestamps[1..])
    else
      var (ref, prev) := Assign(last, timestamps[0]);
      [Link(ref, prev)] + Chain(Some(ref), timestamps[1..])
  }

  /** Every link points at the one before it, and references strictly increase. */
  ghost predicate Linked(last: Option<MessageRef>, chain: seq<Link>) {
    && (|chain| > 0 ==> chain[0].prev == last && (last.Some? ==> last.value.Before(chain[0].ref)))
    && (forall i {:trigger chain[i].prev} :: 0 < i < |chain| ==> chain[i].prev == Some(chain[i - 1].ref))
    && (forall i, j :: 0 <= i < j < |chain| ==> chain[i].ref.Before(chain[j].ref))
  }

  /** The messages that are not backdated form one linked chain, whatever the timestamps. */
  lemma {:induction false} ChainIsLinked(last: Option<MessageRef>, timestamps: seq<nat>)
    ensures Linked(last, Chain(last, timestamps))
    decreases |timestamps|
  {
    if timestamps != [] {
      if Backdated(last, timestamps[0]) {
        ChainIsLinked(last, timestamps[1..]);
      } else {
        var (ref, _) := Assign(last, timestamps[0]);
        ChainIsLinked(Some(ref), timestamps[1..]);
        var rest := Chain(Some(ref), timestamps[1..]);
        forall j | 0 <= j < |rest| ensures ref.Before(rest[j].ref) {
          assert ref.Before(rest[0].ref);
          if j > 0 { assert rest[0].ref.Before(rest[j].ref); }
        }
      }
    }
  }

  /** Every link handed out is a link of that chain, or is backdated: its own predecessor
      is not before it.
   */
  lemma {:induction false} HandedIsChainOrBackdated(last: Option<MessageRef>, timestamps: seq<nat>, k: nat)
    requires k < |Handed(last, timestamps)|
    ensures var link := Handed(last, timestamps)[k];
            link in Chain(last, timestamps) || (link.prev.Some? && !link.prev.value.Before(link.ref))
    decreases |timestamps|
  {
    if k > 0 {
      var (ref, _) := Assign(last, timestamps[0]);
      var next := if Backdated(last, timestamps[0]) then last else Some(ref);
      HandedIsChainOrBackdated(next, timestamps[1..], k - 1);
    }
  }

  // ---------- what is handed out, message by message ----------

  /** No earlier timestamp, and not the one remembered from before, is later. */
  ghost predicate Latest(last: Option<MessageRef>, timestamps: seq<nat>, k: nat)
    requires k < |timestamps|
  {
    (last.Some? ==> last.value.timestamp <= timestamps[k]) && forall j :: 0 <= j < k ==> timestamps[j] <= timestamps[k]
  }

  /** How often a timestamp occurs. */
  function Occurrences(timestamps: seq<nat>, timestamp: nat): nat {
    if timestamps == [] then 0
    else Occurrences(timestamps[1..], timestamp) + if timestamps[0] == timestamp then 1 else 0
  }

  /** The first sequence number free at a timestamp. */
  function Base(last: Option<MessageRef>, timestamp: nat): nat {
    if last.Some? && last.value.timestamp == timestamp then last.value.sequenceNumber + 1 else 0
  }

  /** Every message keeps its timestamp; its sequence number counts the messages before it that have the same
      timestamp, unless it is backdated: then it is zero.
   */
  lemma {:induction false} HandedOutExactly(last: Option<MessageRef>, timestamps: seq<nat>, k: nat)
    requires k < |timestamps|
    ensures |Handed(last, timestamps)| == |timestamps|
    ensures Handed(last, timestamps)[k].ref
            == MessageRef(timestamps[k],
                          if Latest(last, timestamps, k)
                          then Base(last, timestamps[k]) + Occurrences(timestamps[..k], timestamps[k]) else 0)
    decreases |timestamps|
  {
    var (ref, _) := Assign(last, timestamps[0]);
    var next := if Backdated(last, timestamps[0]) then last else Some(ref);
    if |timestamps| > 1 { HandedOutExactly(next, timestamps[1..], if k > 0 then k - 1 else 0); }
    if k > 0 {
      assert timestamps[..k][1..] == timestamps[1..][..k - 1];
      if Latest(last, timestamps, k) {
        forall j | 0 <= j < k - 1 ensures timestamps[1..][j] <= timestamps[k] {
          assert timestamps[j + 1] <= timestamps[k];
        }
      } else if Latest(next, timestamps[1..], k - 1) {
        forall j | 0 <= j < k ensures timestamps[j] <= timestamps[k] {
          if j > 0 { assert timestamps[1..][j - 1] <= timestamps[k]; }
        }
      }
    }
  }

  /** With non-decreasing timestamps nothing is backdated. */
  lemma {:induction false} OrderedTimestampsChainEverything(last: Option<MessageRef>, timestamps: seq<nat>)
    requires forall i, j :: 0 <= i < j < |timestamps| ==> timestamps[i] <= timestamps[j]
    requires last.Some? && timestamps != [] ==> last.value.timestamp <= timestamps[0]
    ensures Handed(last, timestamps) == Chain(last, timestamps)
    decreases |timestamps|
  {
    if timestamps != [] {
      var (ref, _) := Assign(last, timestamps[0]);
      OrderedTimestampsChainEverything(Some(ref), timestamps[1..]);
    }
  }
}
