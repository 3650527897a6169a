/** The sending side of a peer connection: a bounded first-in-first-out queue with retries,
    flushed in small batches, paused by backpressure, and shared by successive connections.
 */
module SendQueues {

  const MAX_TRIES := 10
  const MAX_BATCH := 10

  // ---------- the state and what each event does to it ----------

  datatype Item = Item(no: nat, length: nat, tries: nat, failed: bool)

  datatype Event =
    | Sent(no: nat, atThreshold: bool)
    | AttemptFailed(no: nat, atThreshold: bool)
    | Dropped(no: nat)
    | Lost(nos: seq<nat>)
    | BufferHigh
    | BufferLow
    | Connected

  /** How the data channel takes a message. */
  datatype SendResult = Accepted | Refused | Threw

  /** What the surroundings answer during one round of the flush loop. */
  datatype Answer = Answer(maxMessageSize: nat, atThreshold: bool, result: SendResult, stillOpen: bool)

  datatype State = State(
    queue: seq<Item>,
    nextNumber: nat,
    maxSize: nat,
    open: bool,
    finished: bool,
    paused: bool,
    flushRef: bool,
    flushTimeout: bool,
    log: seq<Event>)

  function Log(s: State, e: Event): State {
    s.(log := s.log + [e])
  }

  /** The head leaves the queue, its sender told that it failed. */
  function HeadDropped(s: State): State
    requires s.queue != []
  {
    Log(s.(queue := s.queue[1..]), Dropped(s.queue[0].no))
  }

  /** A full queue first drops its oldest item. With a limit of zero there is none to drop: the
      source then fails.
   */
  function AddedTo(s: State, length: nat): State {
    if |s.queue| == s.maxSize == 0 then s
    else
      var t := if |s.queue| == s.maxSize then HeadDropped(s) else s;
      t.(queue := t.queue + [Item(t.nextNumber, length, 0, false)], nextNumber := t.nextNumber + 1)
  }

  function SendCalled(s: State, length: nat): State {
    AddedTo(s.(flushRef := true), length)
  }

  function Tried(item: Item): Item {
    Item(item.no, item.length, item.tries + 1, item.failed || item.tries + 1 >= MAX_TRIES)
  }

  /** A failed attempt is counted and a retry scheduled. */
  function FailureCounted(s: State, atThreshold: bool): State
    requires s.queue != []
  {
    Log(s.(queue := s.queue[0 := Tried(s.queue[0])], flushTimeout := true), AttemptFailed(s.queue[0].no, atThreshold))
  }

  /** The tenth failed attempt drops the message. */
  function AttemptFailedAt(s: State, atThreshold: bool): State
    requires s.queue != []
  {
    var t := FailureCounted(s, atThreshold);
    if Tried(s.queue[0]).failed then HeadDropped(t) else t
  }

  datatype Round = Stop | Continue(sent: bool)

  /** An attempt to send the head; the channel may close at it. */
  function Attempted(s: State, a: Answer): (State, Round)
    requires s.queue != []
  {
    var t := s.(open := s.open && a.stillOpen);
    if a.result == Threw then (AttemptFailedAt(t, a.atThreshold), Stop)
    else if a.result == Accepted && t.open then
      (Log(t.(queue := t.queue[1..]), Sent(s.queue[0].no, a.atThreshold)), Continue(true))
    else (AttemptFailedAt(t, a.atThreshold), Continue(false))
  }

  /** One round of the flush loop, on a non-empty queue and an open channel. */
  function RoundOf(s: State, a: Answer): (State, Round)
    requires s.queue != []
  {
    var head := s.queue[0];
    if head.failed then (s.(queue := s.queue[1..]), Continue(false))
    else if head.length > a.maxMessageSize then (HeadDropped(s), Continue(false))
    else if s.paused then (s, Stop)
    else if a.atThreshold then (Log(s.(paused := true), BufferHigh), Stop)
    else Attempted(s, a)
  }

  /** Rounds the head can still take. */
  function TriesLeft(q: seq<Item>): nat {
    if q == [] || q[0].tries >= MAX_TRIES then 0 else MAX_TRIES - q[0].tries
  }

  lemma RoundMakesProgress(s: State, a: Answer)
    requires s.queue != []
    ensures var (t, r) := RoundOf(s, a);
            r.Continue? ==> |t.queue| < |s.queue| || (|t.queue| == |s.queue| && TriesLeft(t.queue) < TriesLeft(s.queue))
  {
  }

  /** The flush loop: answers(k) is what the surroundings say in round k. */
  function Flushed(s: State, answers: nat -> Answer, k: nat, sent: nat): State
    decreases |s.queue|, TriesLeft(s.queue)
  {
    if s.finished || s.queue == [] || !s.open then s
    else if sent >= MAX_BATCH then s.(flushRef := true)
    else
      var (t, r) := RoundOf(s, answers(k));
      RoundMakesProgress(s, answers(k));
      match r
      case Stop => t
      case Continue(success) => Flushed(t, answers, k + 1, if success then sent + 1 else sent)
  }

  function ImmediateFired(s: State, answers: nat -> Answer): State {
    Flushed(s.(flushRef := false), answers, 0, 0)
  }

  function TimeoutFired(s: State, answers: nat -> Answer): State {
    Flushed(s.(flushTimeout := false), answers, 0, 0)
  }

  function Opened(s: State): State {
    s.(open := true, flushRef := true)
  }

  function ChannelLost(s: State): State {
    s.(open := false)
  }

  function LowBackpressure(s: State): State {
    if s.paused then Log(s.(paused := false, flushRef := true), BufferLow) else s
  }

  function Closed(s: State): State {
    if s.finished then s else s.(finished := true, flushRef := false, flushTimeout := false)
  }

  function Nos(q: seq<Item>): (s: seq<nat>)
    ensures |s| == |q| && forall i :: 0 <= i < |q| ==> s[i] == q[i].no
  {
    if q == [] then [] else [q[0].no] + Nos(q[1..])
  }

  /** The owner of the queue stops: what is queued is forgotten, its senders are told nothing. */
  function QueueCleared(s: State): State {
    Log(s.(queue := []), Lost(Nos(s.queue)))
  }

  /** A new connection takes over the queue of a finished one. */
  function Replaced(s: State): State {
    Log(s.(open := false, finished := false, paused := false, flushRef := false, flushTimeout := false), Connected)
  }

  function Initial(maxSize: nat): State {
    State([], 0, maxSize, false, false, false, false, false, [Connected])
  }

  // ---------- the objects ----------

  class QueueItem {
    const no: nat
    const length: nat
    var tries: nat
    var failed: bool

    ghost function Abs(): Item
      reads this
    {
      Item(no, length, tries, failed)
    }

    constructor (no: nat, length: nat)
      ensures Abs() == Item(no, length, 0, false)
    {
      this.no, this.length := no, length;
      tries := 0;
      failed := false;
    }

    method IncrementTries()
      modifies this
      ensures tries == old(tries) + 1
      ensures failed == (old(failed) || tries >= MAX_TRIES)
    {
      tries := tries + 1;
      if tries >= MAX_TRIES { failed := true; }
    }

    method ImmediateFail()
      modifies this
      ensures failed && tries == old(tries)
    {
      failed := true;
    }
  }

  /** The heap by item number, kept sorted. Item numbers come from one counter and only grow.
      The ghost field holds the values of the items.
   */
  class MessageQueue {
    const maxSize: nat
    var heap: seq<QueueItem>
    var nextNumber: nat
    ghost var contents: seq<Item>

    ghost predicate Valid()
      reads this, heap
    {
      && |contents| == |heap|
      && (forall i :: 0 <= i < |heap| ==> contents[i] == heap[i].Abs())
      && (forall i, j :: 0 <= i < j < |heap| ==> heap[i].no < heap[j].no)
      && (forall i :: 0 <= i < |heap| ==> heap[i].no < nextNumber)
    }

    constructor (maxSize: nat)
      ensures Valid() && contents == [] && nextNumber == 0 && this.maxSize == maxSize
    {
      this.maxSize := maxSize;
      heap, contents := [], [];
      nextNumber := 0;
    }

    predicate Empty()
      reads this
      requires Valid()
      reads heap
      ensures Empty() <==> contents == []
    {
      |heap| == 0
    }

    method Pop() returns (item: QueueItem)
      requires Valid() && !Empty()
      modifies this`heap, this`contents
      ensures Valid() && item == old(heap)[0] && heap == old(heap)[1..]
      ensures contents == old(contents)[1..]
    {
      item := heap[0];
      heap, contents := heap[1..], contents[1..];
    }

    method Push(item: QueueItem)
      requires Valid() && item.no == nextNumber
      modifies this
      ensures Valid() && heap == old(heap) + [item] && nextNumber == old(nextNumber) + 1
      ensures contents == old(contents) + [item.Abs()]
    {
      heap, contents := heap + [item], contents + [item.Abs()];
      nextNumber := nextNumber + 1;
    }

    /** Adds a message, dropping the oldest one when the queue is full; not ok where the source
        fails for having none to drop.
     */
    method Add(length: nat) returns (dropped: seq<nat>, ok: bool)
      requires Valid()
      modifies this, heap
      ensures Valid() && ok == !(|old(contents)| == maxSize == 0)
      ensures !ok ==> contents == old(contents) && nextNumber == old(nextNumber) && dropped == []
      ensures var full := |old(contents)| == maxSize;
              ok ==>
                && nextNumber == old(nextNumber) + 1
                && dropped == (if full then [old(contents)[0].no] else [])
                && contents == (if full then old(contents)[1..] else old(contents))
                               + [Item(old(nextNumber), length, 0, false)]
    {
      dropped := [];
      if |heap| == maxSize {
        if |heap| == 0 { return [], false; }
        var oldest := FailHead();
        dropped := [oldest.no];
      }
      var item := new QueueItem(nextNumber, length);
      Push(item);
      ok := true;
    }

    method Clear()
      requires Valid()
      modifies this`heap, this`contents
      ensures Valid() && contents == []
    {
      heap, contents := [], [];
    }

    /** Count a failed attempt to send the head. */
    method CountFailedTry() returns (failed: bool)
      requires Valid() && !Empty()
      modifies this`contents, heap[0]
      ensures Valid()
      ensures contents == old(contents)[0 := Tried(old(contents)[0])] && failed == contents[0].failed
    {
      heap[0].IncrementTries();
      contents := contents[0 := heap[0].Abs()];
      failed := heap[0].failed;
    }

    /** Tell the head's sender that it failed, and drop it. */
    method FailHead() returns (item: QueueItem)
      requires Valid() && !Empty()
      modifies this`heap, this`contents, heap[0]
      ensures Valid() && item == old(heap)[0] && heap == old(heap)[1..]
      ensures contents == old(contents)[1..]
    {
      item := heap[0];
      item.ImmediateFail();
      heap, contents := heap[1..], contents[1..];
    }
  }

  class WebRtcConnection {
    const messageQueue: MessageQueue
    var open: bool
    var isFinished: bool
    var paused: bool
    var flushRef: bool
    var flushTimeoutRef: bool
    ghost var log: seq<Event>

    ghost predicate Valid()
      reads this, messageQueue, messageQueue.heap
    {
      messageQueue.Valid()
    }

    ghost function Abs(): State
      reads this, messageQueue
    {
      State(messageQueue.contents, messageQueue.nextNumber, messageQueue.maxSize,
            open, isFinished, paused, flushRef, flushTimeoutRef, log)
    }

    /** A connection starts closed, on a queue that may already hold messages. */
    constructor (messageQueue: MessageQueue, ghost history: State)
      requires messageQueue.Valid()
      requires history.queue == messageQueue.contents && history.nextNumber == messageQueue.nextNumber
      requires history.maxSize == messageQueue.maxSize
      ensures this.messageQueue == messageQueue && Valid() && Abs() == Replaced(history)
      ensures !open && !isFinished && !paused && !flushRef && !flushTimeoutRef
    {
      this.messageQueue := messageQueue;
      open, isFinished, paused, flushRef, flushTimeoutRef := false, false, false, false, false;
      log := history.log + [Connected];
    }

    method SetFlushRef()
      modifies this`flushRef
      ensures Abs() == old(Abs()).(flushRef := true)
    {
      if !flushRef { flushRef := true; }
    }

    method Send(length: nat) returns (ok: bool)
      requires Valid()
      modifies this`flushRef, this`log, messageQueue, messageQueue.heap
      ensures Valid() && Abs() == SendCalled(old(Abs()), length)
      ensures ok == !(|old(Abs()).queue| == old(Abs()).maxSize == 0)
    {
      SetFlushRef();
      var dropped;
      dropped, ok := messageQueue.Add(length);
      if dropped != [] { log := log + [Dropped(dropped[0])]; }
    }

    /** The owner of the queue empties it; the connection itself is not told. */
    method ClearQueue()
      requires Valid()
      modifies this`log, messageQueue`heap, messageQueue`contents
      ensures Valid() && Abs() == QueueCleared(old(Abs()))
    {
      log := log + [Lost(Nos(messageQueue.contents))];
      messageQueue.Clear();
    }

    method AttemptToFlushMessages(answers: nat -> Answer)
      requires Valid()
      modifies this, messageQueue, messageQueue.heap
      ensures Valid() && Abs() == Flushed(old(Abs()), answers, 0, 0)
    {
      var numOfSuccessSends := 0;
      var k := 0;
      while !isFinished && !messageQueue.Empty() && open
        invariant Valid() && 0 <= k && 0 <= numOfSuccessSends
        invariant forall i :: 0 <= i < |messageQueue.heap| ==> messageQueue.heap[i] in old(messageQueue.heap)
        invariant Flushed(Abs(), answers, k, numOfSuccessSends) == Flushed(old(Abs()), answers, 0, 0)
        decreases |messageQueue.heap|, TriesLeft(Abs().queue)
      {
        ghost var before := Abs();
        if numOfSuccessSends >= MAX_BATCH {
          SetFlushRef();
          return;
        }
        RoundMakesProgress(Abs(), answers(k));
        var round := FlushRound(answers(k));
        if round.Stop? { return; }
        if round.sent { numOfSuccessSends := numOfSuccessSends + 1; }
        k := k + 1;
      }
    }

    method FlushRound(a: Answer) returns (round: Round)
      requires Valid() && !messageQueue.Empty()
      modifies this, messageQueue, messageQueue.heap
      ensures Valid() && (Abs(), round) == RoundOf(old(Abs()), a)
      ensures messageQueue.heap == old(messageQueue.heap) || messageQueue.heap == old(messageQueue.heap)[1..]
    {
      var queueItem := messageQueue.heap[0];
      if queueItem.failed {
        var _ := messageQueue.Pop();
        return Continue(false);
      }
      if queueItem.length > a.maxMessageSize {
        var _ := messageQueue.FailHead();
        log := log + [Dropped(queueItem.no)];
        return Continue(false);
      }
      if paused || a.atThreshold {
        if !paused {
          paused := true;
          log := log + [BufferHigh];
        }
        return Stop;
      }
      round := TrySend(a);
    }

    /** The head is handed to the channel. */
    method TrySend(a: Answer) returns (round: Round)
      requires Valid() && !messageQueue.Empty()
      modifies this, messageQueue, messageQueue.heap
      ensures Valid() && (Abs(), round) == Attempted(old(Abs()), a)
      ensures messageQueue.heap == old(messageQueue.heap) || messageQueue.heap == old(messageQueue.heap)[1..]
    {
      open := open && a.stillOpen;
      if a.result == Threw {
        ProcessFailedMessage(a.atThreshold);
        return Stop;
      }
      if a.result == Accepted && open {
        var queueItem := messageQueue.Pop();
        log := log + [Sent(queueItem.no, a.atThreshold)];
        return Continue(true);
      }
      ProcessFailedMessage(a.atThreshold);
      return Continue(false);
    }

    method ProcessFailedMessage(ghost atThreshold: bool)
      requires Valid() && !messageQueue.Empty()
      modifies this`log, this`flushTimeoutRef, messageQueue`heap, messageQueue`contents, messageQueue.heap[0]
      ensures Valid() && Abs() == AttemptFailedAt(old(Abs()), atThreshold)
      ensures messageQueue.heap == old(messageQueue.heap) || messageQueue.heap == old(messageQueue.heap)[1..]
    {
      var no := messageQueue.heap[0].no;
      var failed := messageQueue.CountFailedTry();
      log := log + [AttemptFailed(no, atThreshold)];
      if !flushTimeoutRef { flushTimeoutRef := true; }
      assert Abs() == FailureCounted(old(Abs()), atThreshold);
      if failed {
        var _ := messageQueue.Pop();
        log := log + [Dropped(no)];
      }
    }

    method OnFlushImmediate(answers: nat -> Answer)
      requires Valid() && flushRef
      modifies this, messageQueue, messageQueue.heap
      ensures Valid() && Abs() == ImmediateFired(old(Abs()), answers)
    {
      flushRef := false;
      AttemptToFlushMessages(answers);
    }

    method OnFlushTimeout(answers: nat -> Answer)
      requires Valid() && flushTimeoutRef
      modifies this, messageQueue, messageQueue.heap
      ensures Valid() && Abs() == TimeoutFired(old(Abs()), answers)
    {
      flushTimeoutRef := false;
      AttemptToFlushMessages(answers);
    }

    /** The channel has opened. */
    method EmitOpen()
      requires Valid()
      modifies this`open, this`flushRef
      ensures Valid() && Abs() == Opened(old(Abs())) && open && flushRef
    {
      open := true;
      SetFlushRef();
    }

    /** Backpressure has reached the low watermark. */
    method EmitLowBackpressure()
      requires Valid()
      modifies this`paused, this`flushRef, this`log
      ensures Valid() && Abs() == LowBackpressure(old(Abs()))
      ensures !paused && (old(paused) ==> flushRef && log == old(log) + [BufferLow])
    {
      if !paused { return; }
      paused := false;
      SetFlushRef();
      log := log + [BufferLow];
    }

    method Close()
      requires Valid()
      modifies this`isFinished, this`flushRef, this`flushTimeoutRef
      ensures Valid() && Abs() == Closed(old(Abs()))
      ensures isFinished && (!old(isFinished) ==> !flushRef && !flushTimeoutRef)
    {
      if isFinished { return; }
      isFinished := true;
      flushRef, flushTimeoutRef := false, false;
    }
  }
}
