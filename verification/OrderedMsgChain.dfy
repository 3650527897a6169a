/** Putting the messages of one publisher chain back in order: a priority queue, gap detection,
    and timers that request missing messages and finally give up on them.
 */
module OrderedMsgChains {
  import opened Options
  import opened MessageRefs

  // ---------- the queue ----------

  ghost predicate Ascending(q: seq<Message>) {
    forall i, j :: 0 <= i < j < |q| ==> q[i].ref.Before(q[j].ref)
  }

  /** The queue with m at its place. */
  function Inserted(q: seq<Message>, m: Message): seq<Message> {
    if q == [] then [m]
    else if m.ref.Before(q[0].ref) then [m] + q
    else [q[0]] + Inserted(q[1..], m)
  }

  lemma {:induction false} InsertedAdds(q: seq<Message>, m: Message)
    ensures multiset(Inserted(q, m)) == multiset(q) + multiset{m}
    decreases |q|
  {
    if q != [] {
      assert q == [q[0]] + q[1..];
      if !m.ref.Before(q[0].ref) { InsertedAdds(q[1..], m); }
    }
  }

  lemma AscendingFrom(m: Message, q: seq<Message>)
    requires Ascending(q) && forall i :: 0 <= i < |q| ==> m.ref.Before(q[i].ref)
    ensures Ascending([m] + q)
  {
  }

  lemma {:induction false} InsertedIsAscending(q: seq<Message>, m: Message)
    requires Ascending(q) && forall i :: 0 <= i < |q| ==> q[i].ref != m.ref
    ensures Ascending(Inserted(q, m))
    ensures |Inserted(q, m)| == |q| + 1
    ensures multiset(Inserted(q, m)) == multiset(q) + multiset{m}
    ensures forall x :: x in Inserted(q, m) <==> x == m || x in q
    decreases |q|
  {
    InsertedAdds(q, m);
    assert forall x :: x in Inserted(q, m) <==> x in multiset(Inserted(q, m));
    if q != [] {
      if !m.ref.Before(q[0].ref) {
        InsertedIsAscending(q[1..], m);
        var rest := Inserted(q[1..], m);
        forall j | 0 <= j < |rest| ensures q[0].ref.Before(rest[j].ref) { assert rest[j] in rest; }
        AscendingFrom(q[0], rest);
      } else {
        AscendingFrom(m, q);
      }
    }
  }

  /** The messages with these references, in the order of the references. */
  ghost function Listing(refs: seq<MessageRef>, pending: map<MessageRef, Message>): (q: seq<Message>)
    requires forall r :: r in refs ==> r in pending
    ensures |q| == |refs| && forall i :: 0 <= i < |q| ==> q[i] == pending[refs[i]]
  {
    seq(|refs|, i requires 0 <= i < |refs| => assert refs[i] in refs; pending[refs[i]])
  }

  lemma ListingOfMore(refs: seq<MessageRef>, pending: map<MessageRef, Message>, m: Message, i: nat)
    requires forall r :: r in refs ==> r in pending
    requires i <= |refs| && m.ref !in refs
    ensures var more := refs[..i] + [m.ref] + refs[i..];
            && (forall r :: r in more <==> r in refs || r == m.ref)
            && Listing(more, pending[m.ref := m]) == Listing(refs, pending)[..i] + [m] + Listing(refs, pending)[i..]
  {
    var more := refs[..i] + [m.ref] + refs[i..];
    var q := Listing(refs, pending);
    assert refs == refs[..i] + refs[i..];
    var expected := q[..i] + [m] + q[i..];
    forall k | 0 <= k < |more| ensures pending[m.ref := m][more[k]] == expected[k] {
      if k < i { assert more[k] == refs[k]; }
      else if k > i { assert more[k] == refs[k - 1]; }
    }
  }

  lemma RefsStaySorted(refs: seq<MessageRef>, ref: MessageRef, i: nat)
    requires i <= |refs| && forall k, l :: 0 <= k < l < |refs| ==> refs[k].Before(refs[l])
    requires forall k :: 0 <= k < i ==> refs[k].Before(ref)
    requires forall k :: i <= k < |refs| ==> ref.Before(refs[k])
    ensures var more := refs[..i] + [ref] + refs[i..];
            forall k, l :: 0 <= k < l < |more| ==> more[k].Before(more[l])
  {
  }

  lemma ListingOfRest(refs: seq<MessageRef>, pending: map<MessageRef, Message>)
    requires refs != [] && refs[0] !in refs[1..] && forall r :: r in refs ==> r in pending
    ensures (forall r :: r in refs[1..] <==> r in refs && r != refs[0])
    ensures Listing(refs[1..], pending - {refs[0]}) == Listing(refs, pending)[1..]
  {
    assert refs == [refs[0]] + refs[1..];
  }

  lemma {:induction false} InsertedAt(q: seq<Message>, m: Message, i: nat)
    requires i <= |q|
    requires forall k :: 0 <= k < i ==> q[k].ref.Before(m.ref)
    requires i < |q| ==> m.ref.Before(q[i].ref)
    ensures Inserted(q, m) == q[..i] + [m] + q[i..]
    decreases |q|
  {
    if i > 0 {
      InsertedAt(q[1..], m, i - 1);
      assert q[..i] == [q[0]] + q[1..][..i - 1];
      assert q[1..][i - 1..] == q[i..];
    }
  }

  /** Messages by reference: a heap of references next to a map to the messages. The heap is
      kept sorted, which is one way to be a priority queue.
   */
  class MsgChainQueue {
    var queue: seq<MessageRef>
    var pendingMsgs: map<MessageRef, Message>

    ghost predicate Valid()
      reads this
    {
      && (forall r :: r in queue <==> r in pendingMsgs)
      && (forall r :: r in pendingMsgs ==> pendingMsgs[r].ref == r)
      && (forall i, j :: 0 <= i < j < |queue| ==> queue[i].Before(queue[j]))
    }

    ghost function Contents(): (q: seq<Message>)
      reads this
      requires Valid()
      ensures Ascending(q) && |q| == |queue|
      ensures forall i :: 0 <= i < |q| ==> q[i].ref == queue[i]
    {
      assert forall i :: 0 <= i < |queue| ==> queue[i] in queue;
      Listing(queue, pendingMsgs)
    }

    constructor ()
      ensures Valid() && Contents() == []
    {
      queue, pendingMsgs := [], map[];
    }

    predicate IsEmpty()
      reads this
    {
      |queue| == 0
    }

    function Peek(): (m: Message)
      reads this
      requires Valid() && !IsEmpty()
      ensures m == Contents()[0]
    {
      pendingMsgs[queue[0]]
    }

    predicate Has(ref: MessageRef)
      reads this
      requires Valid()
      ensures Has(ref) <==> exists i :: 0 <= i < |Contents()| && Contents()[i].ref == ref
    {
      assert ref in queue <==> exists i :: 0 <= i < |Contents()| && Contents()[i].ref == ref by {
        if ref in queue {
          var i :| 0 <= i < |queue| && queue[i] == ref;
          assert Contents()[i].ref == ref;
        }
      }
      ref in pendingMsgs
    }

    method Push(m: Message)
      requires Valid()
      modifies this
      ensures Valid()
      ensures Contents() == if old(Has(m.ref)) then old(Contents()) else Inserted(old(Contents()), m)
    {
      if !Has(m.ref) {
        var i := Place(m.ref);
        InsertedAt(Contents(), m, i);
        ListingOfMore(queue, pendingMsgs, m, i);
        RefsStaySorted(queue, m.ref, i);
        pendingMsgs := pendingMsgs[m.ref := m];
        queue := queue[..i] + [m.ref] + queue[i..];
      }
    }

    /** Where a new reference belongs. */
    method Place(ref: MessageRef) returns (i: nat)
      requires Valid() && ref !in queue
      ensures i <= |queue|
      ensures forall k :: 0 <= k < i ==> queue[k].Before(ref)
      ensures forall k :: i <= k < |queue| ==> ref.Before(queue[k])
    {
      i := 0;
      while i < |queue| && queue[i].CompareTo(ref) < 0
        invariant 0 <= i <= |queue|
        invariant forall k :: 0 <= k < i ==> queue[k].Before(ref)
      {
        i := i + 1;
      }
      if i < |queue| { assert queue[i] in queue; }
    }

    method Pop() returns (m: Message)
      requires Valid() && !IsEmpty()
      modifies this
      ensures Valid()
      ensures m == old(Contents()[0]) && Contents() == old(Contents())[1..]
    {
      m := Peek();
      ListingOfRest(queue, pendingMsgs);
      queue := queue[1..];
      pendingMsgs := pendingMsgs - {m.ref};
    }
  }

  // ---------- what each event does ----------

  datatype Event =
    | Delivered(m: Message)
    | Skipped(m: Message)
    | GapRequested(from: MessageRef, to: Option<MessageRef>)
    | GapFillFailed(from: MessageRef, to: Option<MessageRef>)
    | Drained(count: nat)

  /** The chain between two events, with everything it has emitted so far. */
  datatype State = State(
    queue: seq<Message>,
    last: Option<MessageRef>,
    marked: set<MessageRef>,
    hasPendingGap: bool,
    firstArmed: bool,
    nextArmed: bool,
    gapRequestCount: nat,
    maxGapRequests: nat,
    log: seq<Event>)

  function Initial(maxGapRequests: nat): State {
    State([], None, {}, false, false, false, 0, maxGapRequests, [])
  }

  predicate Queued(q: seq<Message>, ref: MessageRef) {
    exists i :: 0 <= i < |q| && q[i].ref == ref
  }

  predicate Stale(s: State, m: Message) {
    Queued(s.queue, m.ref) || (s.last.Some? && m.ref.CompareTo(s.last.value) <= 0)
  }

  predicate HasNext(s: State) {
    && s.queue != []
    && (s.last.Some? ==>
          match s.queue[0].prev
          case Some(prev) => prev.CompareTo(s.last.value) == 0
          case None => s.queue[0].ref.CompareTo(s.last.value) > 0)
  }

  function Popped(s: State): State
    requires s.queue != []
  {
    var m := s.queue[0];
    var skip := m.ref in s.marked && s.maxGapRequests > 0;
    s.(queue := s.queue[1..], last := Some(m.ref), marked := s.marked - {m.ref},
       log := s.log + [if skip then Skipped(m) else Delivered(m)])
  }

  function PoppedAll(s: State): State
    decreases |s.queue|
  {
    if HasNext(s) then PoppedAll(Popped(s)) else s
  }

  function Scheduled(s: State): State {
    if s.hasPendingGap then s
    else s.(gapRequestCount := 0, hasPendingGap := true, firstArmed := true)
  }

  function Cleared(s: State): State {
    s.(hasPendingGap := false, firstArmed := false, nextArmed := false)
  }

  function Checked(s: State): State {
    var t := PoppedAll(s);
    PoppedAllIsShorter(s);
    var processed := |s.queue| - |t.queue|;
    if t.queue != [] then Scheduled(t)
    else if processed > 1 then Cleared(t).(log := t.log + [Drained(processed)])
    else t
  }

  lemma {:induction false} PoppedAllIsShorter(s: State)
    ensures |PoppedAll(s).queue| <= |s.queue|
    decreases |s.queue|
  {
    if HasNext(s) { PoppedAllIsShorter(Popped(s)); }
  }

  function Added(s: State, m: Message): State {
    if Stale(s, m) then s
    else
      var marked := if s.maxGapRequests > 0 then s.marked else s.marked + {m.ref};
      Checked(s.(marked := marked, queue := Inserted(s.queue, m)))
  }

  function MarkedExplicitly(s: State, m: Message): State {
    if Stale(s, m) then s else Added(s.(marked := s.marked + {m.ref}), m)
  }

  function Disabled(s: State): State {
    Checked(Cleared(s.(maxGapRequests := 0)))
  }

  /** The first missing reference after the last ordered one. */
  function GapStart(s: State): MessageRef
    requires s.last.Some?
  {
    MessageRef(s.last.value.timestamp, s.last.value.sequenceNumber + 1)
  }

  /** Skip the gap: carry on as if everything before the head had been ordered. */
  function GivenUp(s: State): State
    requires s.last.Some? && s.queue != []
  {
    var to := s.queue[0].prev;
    Checked(Cleared(s.(last := to,
                       log := if s.maxGapRequests > 0 then s.log + [GapFillFailed(GapStart(s), to)] else s.log)))
  }

  function Requested(s: State): State {
    if !s.hasPendingGap || s.queue == [] || s.last.None? then s
    else if s.gapRequestCount < s.maxGapRequests then
      s.(gapRequestCount := s.gapRequestCount + 1, log := s.log + [GapRequested(GapStart(s), s.queue[0].prev)])
    else GivenUp(s)
  }

  /** The one-shot propagation timer fires; if there is still a gap the interval timer starts. */
  function FirstFired(s: State): State {
    var t := Requested(s.(firstArmed := false));
    if t.hasPendingGap then t.(nextArmed := true) else t
  }

  /** The interval timer fires. */
  function NextFired(s: State): State {
    if s.hasPendingGap then Requested(s) else s.(nextArmed := false)
  }

  // ---------- the object ----------

  class OrderedMsgChain {
    const queue: MsgChainQueue
    var lastOrderedMsgRef: Option<MessageRef>
    var hasPendingGap: bool
    var gapRequestCount: nat
    var maxGapRequests: nat
    var nextGaps: bool
    var firstGap: bool
    var markedExplicitly: set<MessageRef>
    ghost var log: seq<Event>

    ghost predicate Valid()
      reads this, queue
    {
      queue.Valid()
    }

    ghost function Abs(): State
      reads this, queue
      requires Valid()
    {
      State(queue.Contents(), lastOrderedMsgRef, markedExplicitly, hasPendingGap, firstGap, nextGaps,
            gapRequestCount, maxGapRequests, log)
    }

    constructor (maxGapRequests: nat)
      ensures Valid() && fresh(queue) && Abs() == Initial(maxGapRequests)
    {
      queue := new MsgChainQueue();
      lastOrderedMsgRef := None;
      hasPendingGap, firstGap, nextGaps := false, false, false;
      gapRequestCount := 0;
      this.maxGapRequests := maxGapRequests;
      markedExplicitly := {};
      log := [];
    }

    predicate IsStaleMessage(m: Message)
      reads this, queue
      requires Valid()
      ensures IsStaleMessage(m) == Stale(Abs(), m)
      ensures IsStaleMessage(m) <==>
              (exists i :: 0 <= i < |queue.Contents()| && queue.Contents()[i].ref == m.ref)
              || (lastOrderedMsgRef.Some? && !lastOrderedMsgRef.value.Before(m.ref))
    {
      queue.Has(m.ref) || (lastOrderedMsgRef.Some? && m.ref.CompareTo(lastOrderedMsgRef.value) <= 0)
    }

    predicate IsGapHandlingEnabled()
      reads this
    {
      maxGapRequests > 0
    }

    method Add(m: Message)
      requires Valid()
      modifies this, queue
      ensures Valid() && Abs() == Added(old(Abs()), m)
    {
      if IsStaleMessage(m) { return; }
      if !IsGapHandlingEnabled() {
        var _ := MarkMessage(m);
      }
      queue.Push(m);
      CheckQueue();
    }

    method MarkMessageExplicitly(m: Message)
      requires Valid()
      modifies this, queue
      ensures Valid() && Abs() == MarkedExplicitly(old(Abs()), m)
    {
      var marked := MarkMessage(m);
      if marked { Add(m); }
    }

    method MarkMessage(m: Message) returns (marked: bool)
      requires Valid()
      modifies this`markedExplicitly
      ensures Valid() && marked == !old(Stale(Abs(), m))
      ensures Abs() == if marked then old(Abs()).(marked := old(Abs()).marked + {m.ref}) else old(Abs())
    {
      if IsStaleMessage(m) { return false; }
      markedExplicitly := markedExplicitly + {m.ref};
      return true;
    }

    method ClearGap()
      requires Valid()
      modifies this`hasPendingGap, this`firstGap, this`nextGaps
      ensures Valid() && Abs() == Cleared(old(Abs())) && !hasPendingGap && !firstGap && !nextGaps
    {
      hasPendingGap := false;
      firstGap, nextGaps := false, false;
    }

    method Disable()
      requires Valid()
      modifies this, queue
      ensures Valid() && Abs() == Disabled(old(Abs())) && maxGapRequests == 0
    {
      maxGapRequests := 0;
      ClearGap();
      CheckQueue();
    }

    predicate HasNextMessageInChain()
      reads this, queue
      requires Valid()
      ensures HasNextMessageInChain() == HasNext(Abs())
    {
      !queue.IsEmpty() &&
      (lastOrderedMsgRef.Some? ==>
        var m := queue.Peek();
        match m.prev
        case Some(prev) => prev.CompareTo(lastOrderedMsgRef.value) == 0
        case None => m.ref.CompareTo(lastOrderedMsgRef.value) > 0)
    }

    method CheckQueue()
      requires Valid()
      modifies this, queue
      ensures Valid() && Abs() == Checked(old(Abs())) && maxGapRequests == old(maxGapRequests)
    {
      PoppedAllIsShorter(Abs());
      var processedMessages := 0;
      while HasNextMessageInChain()
        invariant Valid()
        invariant PoppedAll(Abs()) == PoppedAll(old(Abs())) && maxGapRequests == old(maxGapRequests)
        invariant processedMessages == |old(Abs()).queue| - |Abs().queue|
        decreases |Abs().queue|
      {
        processedMessages := processedMessages + 1;
        Pop();
      }
      if !queue.IsEmpty() {
        ScheduleGap();
        return;
      }
      if processedMessages > 1 {
        ClearGap();
        log := log + [Drained(processedMessages)];
      }
    }

    method Pop()
      requires Valid() && !queue.IsEmpty()
      modifies this, queue
      ensures Valid() && Abs() == Popped(old(Abs()))
    {
      var m := queue.Pop();
      lastOrderedMsgRef := Some(m.ref);
      var wasMarked := m.ref in markedExplicitly;
      markedExplicitly := markedExplicitly - {m.ref};
      if wasMarked && IsGapHandlingEnabled() {
        log := log + [Skipped(m)];
        return;
      }
      log := log + [Delivered(m)];
    }

    method ScheduleGap()
      requires Valid()
      modifies this`hasPendingGap, this`firstGap, this`gapRequestCount
      ensures Valid() && Abs() == Scheduled(old(Abs()))
    {
      if hasPendingGap { return; }
      gapRequestCount := 0;
      hasPendingGap := true;
      firstGap := true;
    }

    /** The callback of the propagation timer. */
    method OnFirstGap()
      requires Valid() && firstGap
      modifies this, queue
      ensures Valid() && Abs() == FirstFired(old(Abs()))
    {
      firstGap := false;
      RequestGapFill();
      if !hasPendingGap { return; }
      nextGaps := true;
    }

    /** The callback of the resend interval. */
    method OnNextGap()
      requires Valid() && nextGaps
      modifies this, queue
      ensures Valid() && Abs() == NextFired(old(Abs()))
    {
      if !hasPendingGap {
        nextGaps := false;
        return;
      }
      RequestGapFill();
    }

    method RequestGapFill()
      requires Valid()
      modifies this, queue
      ensures Valid() && Abs() == Requested(old(Abs()))
    {
      if !hasPendingGap || queue.IsEmpty() { return; }
      if lastOrderedMsgRef.None? { return; }
      var m := queue.Peek();
      var to := m.prev;
      var from := MessageRef(lastOrderedMsgRef.value.timestamp, lastOrderedMsgRef.value.sequenceNumber + 1);
      if gapRequestCount < maxGapRequests {
        gapRequestCount := gapRequestCount + 1;
        log := log + [GapRequested(from, to)];
      } else {
        SkipGap(from, to);
      }
    }

    /** Carry on after the gap. */
    method SkipGap(from: MessageRef, to: Option<MessageRef>)
      requires Valid() && lastOrderedMsgRef.Some? && !queue.IsEmpty()
      requires from == GapStart(Abs()) && to == Abs().queue[0].prev
      modifies this, queue
      ensures Valid() && Abs() == GivenUp(old(Abs()))
    {
      lastOrderedMsgRef := to;
      if IsGapHandlingEnabled() {
        log := log + [GapFillFailed(from, to)];
      }
      ClearGap();
      CheckQueue();
    }
  }
}
