/** Message references and their order, shared by publishers and subscribers. */
module MessageRefs {
  import opened Options

  /** A message's place in its chain: timestamp first, then sequence number. */
  datatype MessageRef = MessageRef(timestamp: nat, sequenceNumber: nat) {
    function CompareTo(other: MessageRef): int {
      if timestamp < other.timestamp then -1
      else if timestamp > other.timestamp then 1
      else if sequenceNumber < other.sequenceNumber then -1
      else if sequenceNumber > other.sequenceNumber then 1
      else 0
    }

    predicate Before(other: MessageRef) {
      CompareTo(other) < 0
    }
  }

  /** A message as the ordering and duplicate logic sees it. */
  datatype Message = Message(ref: MessageRef, prev: Option<MessageRef>, id: int) {
    /** What the message constructor checks: the previous reference is strictly earlier. */
    predicate Valid() {
      prev.Some? ==> prev.value.Before(ref)
    }
  }
}
