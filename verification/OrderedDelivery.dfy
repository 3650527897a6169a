/** What an ordered message chain promises over every run of arrivals and timers. */
module OrderedDelivery {
  import opened Measures
  import opened Options
  import opened MessageRefs
  import opened OrderedMsgChains

  // ---------- runs ----------

  datatype Op = Add(m: Message) | Mark(m: Message) | FirstTimer | NextTimer | Disable | ClearGap

  function Apply(s: State, op: Op): State {
    match op
    case Add(m) => Added(s, m)
    case Mark(m) => MarkedExplicitly(s, m)
    case FirstTimer => FirstFired(s)
    case NextTimer => NextFired(s)
    case Disable => Disabled(s)
    case ClearGap => Cleared(s)
  }

  /** A timer fires only while armed; a message has a proper previous reference. */
  predicate Enabled(s: State, op: Op) {
    match op
    case Add(m) => m.Valid()
    case Mark(m) => m.Valid()
    case FirstTimer => s.firstArmed
    case NextTimer => s.nextArmed
    case _ => true
  }

  function After(s: State, ops: seq<Op>): State
    decreases |ops|
  {
    if ops == [] then s else After(Apply(s, ops[0]), ops[1..])
  }

  predicate AllEnabled(s: State, ops: seq<Op>)
    decreases |ops|
  {
    ops == [] || (Enabled(s, ops[0]) && AllEnabled(Apply(s, ops[0]), ops[1..]))
  }

  // ---------- the state between events ----------

  /** Queued messages are sorted, well-formed and later than the last ordered one. */
  ghost predicate Later(s: State) {
    && Ascending(s.queue)
    && (forall i :: 0 <= i < |s.queue| ==> s.queue[i].Valid())
    && (s.last.Some? ==> forall i :: 0 <= i < |s.queue| ==> s.last.value.Before(s.queue[i].ref))
  }

  /** A blocked head is chained, and to something else than the last ordered message; a gap is
      pending exactly while a timer is armed, and only while something is queued.
   */
  ghost predicate Good(s: State) {
    && Later(s)
    && (s.queue != [] ==> s.last.Some? && s.queue[0].prev.Some? && s.queue[0].prev != s.last)
    && (s.hasPendingGap <==> s.firstArmed || s.nextArmed)
    && (s.hasPendingGap ==> s.queue != [] && s.gapRequestCount <= s.maxGapRequests)
  }

  /** A blocked chain has a timer running. */
  ghost predicate Armed(s: State) {
    s.queue != [] ==> s.hasPendingGap
  }

  lemma CompareIsEquality(r: MessageRef, q: MessageRef)
    ensures r.CompareTo(q) == 0 <==> r == q
    ensures r.CompareTo(q) > 0 <==> q.Before(r)
  {
  }

  lemma {:induction false} PoppedAllBlocks(s: State)
    requires Later(s)
    ensures var t := PoppedAll(s);
            && Later(t) && !HasNext(t)
            && (t.queue != [] ==> t.last.Some? && t.queue[0].prev.Some? && t.queue[0].prev != t.last)
            && (t.queue != s.queue ==> t.last.Some?)
            && t == s.(queue := t.queue, last := t.last, marked := t.marked, log := t.log)
            && |t.queue| <= |s.queue| && (HasNext(s) ==> |t.queue| < |s.queue|)
    decreases |s.queue|
  {
    if HasNext(s) {
      var u := Popped(s);
      assert forall i :: 0 <= i < |u.queue| ==> u.queue[i] == s.queue[i + 1];
      PoppedAllBlocks(u);
    }
  }

  lemma CheckedIsGood(s: State)
    requires Later(s)
    requires s.hasPendingGap <==> s.firstArmed || s.nextArmed
    requires s.hasPendingGap ==> |s.queue| >= 2 && s.gapRequestCount <= s.maxGapRequests
    ensures Good(Checked(s)) && Armed(Checked(s))
  {
    PoppedAllBlocks(s);
  }

  lemma AddedIsGood(s: State, m: Message)
    requires Good(s) && m.Valid()
    ensures Good(Added(s, m)) && (Armed(s) ==> Armed(Added(s, m)))
  {
    if !Stale(s, m) {
      InsertedIsAscending(s.queue, m);
      var marked := if s.maxGapRequests > 0 then s.marked else s.marked + {m.ref};
      var t := s.(marked := marked, queue := Inserted(s.queue, m));
      forall i | 0 <= i < |t.queue|
        ensures t.queue[i].Valid() && (t.last.Some? ==> t.last.value.Before(t.queue[i].ref))
      {
        assert t.queue[i] in t.queue;
        if s.last.Some? { CompareIsEquality(m.ref, s.last.value); }
      }
      CheckedIsGood(t);
    }
  }

  /** The gap is given up: the head is linked to the new last reference, so it is popped. */
  lemma GivenUpIsGood(s: State)
    requires Later(s) && s.last.Some? && s.queue != [] && s.queue[0].prev.Some?
    ensures Good(GivenUp(s)) && Armed(GivenUp(s)) && |GivenUp(s).queue| < |s.queue|
  {
    var u := Cleared(s.(last := s.queue[0].prev,
                        log := if s.maxGapRequests > 0 then s.log + [GapFillFailed(GapStart(s), s.queue[0].prev)]
                               else s.log));
    CheckedIsGood(u);
    PoppedAllBlocks(u);
  }

  lemma ApplyIsGood(s: State, op: Op)
    requires Good(s) && Enabled(s, op)
    ensures Good(Apply(s, op))
    ensures Armed(s) && op != ClearGap ==> Armed(Apply(s, op))
  {
    match op {
      case Add(m) => AddedIsGood(s, m);
      case Mark(m) => if !Stale(s, m) { AddedIsGood(s.(marked := s.marked + {m.ref}), m); }
      case FirstTimer =>
        if s.gapRequestCount >= s.maxGapRequests { GivenUpIsGood(s.(firstArmed := false)); }
      case NextTimer =>
        if s.gapRequestCount >= s.maxGapRequests { GivenUpIsGood(s); }
      case Disable => CheckedIsGood(Cleared(s.(maxGapRequests := 0)));
      case ClearGap =>
    }
  }

  /** In every run a pending gap means a blocked queue with a running timer, and unless the gap
      is cleared from outside, a non-empty queue means a pending gap.
   */
  lemma {:induction false} BlockedChainIsArmed(s: State, ops: seq<Op>)
    requires Good(s) && AllEnabled(s, ops)
    ensures Good(After(s, ops))
    ensures Armed(s) && ClearGap !in ops ==> Armed(After(s, ops))
    decreases |ops|
  {
    if ops != [] {
      ApplyIsGood(s, ops[0]);
      assert ops == [ops[0]] + ops[1..];
      BlockedChainIsArmed(Apply(s, ops[0]), ops[1..]);
    }
  }

  // ---------- every accepted message is popped at most once, in order ----------

  function PopOf(e: Event): seq<Message> {
    match e
    case Delivered(m) => [m]
    case Skipped(m) => [m]
    case _ => []
  }

  /** The messages delivered or skipped, oldest first. */
  function Pops(log: seq<Event>): seq<Message> {
    if log == [] then [] else Pops(log[..|log| - 1]) + PopOf(log[|log| - 1])
  }

  lemma {:induction false} PopsOfMore(log: seq<Event>, e: Event)
    ensures Pops(log + [e]) == Pops(log) + PopOf(e)
  {
    assert (log + [e])[..|log|] == log;
  }

  /** Pops come before queued messages, and the last pop is not beyond the last ordered reference. */
  ghost predicate InOrder(s: State) {
    PopsBeforeQueue(Pops(s.log), s.queue, s.last)
  }

  ghost predicate PopsBeforeQueue(pops: seq<Message>, queue: seq<Message>, last: Option<MessageRef>) {
    && Ascending(pops + queue)
    && (pops != [] ==> last.Some? && !last.value.Before(pops[|pops| - 1].ref))
  }

  lemma PoppedOneInOrder(s: State)
    requires Ascending(Pops(s.log) + s.queue) && HasNext(s)
    ensures var u := Popped(s);
            Pops(u.log) + u.queue == Pops(s.log) + s.queue && InOrder(u)
  {
    var u := Popped(s);
    PopsOfMore(s.log, u.log[|s.log|]);
    assert s.queue == [s.queue[0]] + s.queue[1..];
    assert Pops(u.log) + u.queue == Pops(s.log) + s.queue;
  }

  lemma {:induction false} PoppedAllInOrder(s: State)
    requires Ascending(Pops(s.log) + s.queue)
    ensures var t := PoppedAll(s);
            && Pops(t.log) + t.queue == Pops(s.log) + s.queue
            && (t.queue != s.queue ==> InOrder(t))
            && (t.queue == s.queue ==> t == s)
    decreases |s.queue|
  {
    if HasNext(s) {
      var u := Popped(s);
      PoppedOneInOrder(s);
      PoppedAllInOrder(u);
      PoppedAllIsShorter(u);
    }
  }

  lemma CheckedInOrder(s: State)
    requires Ascending(Pops(s.log) + s.queue) && (InOrder(s) || HasNext(s))
    ensures InOrder(Checked(s)) && Pops(Checked(s).log) + Checked(s).queue == Pops(s.log) + s.queue
  {
    PoppedAllInOrder(s);
    PoppedAllIsShorter(s);
    if HasNext(s) { PoppedAllIsShorter(Popped(s)); }
    var t, u := PoppedAll(s), Checked(s);
    assert InOrder(t);
    PopsOfMore(t.log, Drained(|s.queue| - |t.queue|));
    assert Pops(u.log) == Pops(t.log) && u.queue == t.queue && u.last == t.last;
  }

  /** What an event adds to the messages taken in: its message, unless stale. */
  function Accepted(s: State, op: Op): seq<Message> {
    match op
    case Add(m) => if Stale(s, m) then [] else [m]
    case Mark(m) => if Stale(s, m) then [] else [m]
    case _ => []
  }

  function AcceptedBy(s: State, ops: seq<Op>): seq<Message>
    decreases |ops|
  {
    if ops == [] then [] else Accepted(s, ops[0]) + AcceptedBy(Apply(s, ops[0]), ops[1..])
  }

  lemma AscendingParts(a: seq<Message>, b: seq<Message>)
    ensures Ascending(a + b) <==>
            Ascending(a) && Ascending(b) && forall i, j :: 0 <= i < |a| && 0 <= j < |b| ==> a[i].ref.Before(b[j].ref)
  {
    var c := a + b;
    assert forall i :: 0 <= i < |a| ==> c[i] == a[i];
    assert forall j :: 0 <= j < |b| ==> c[|a| + j] == b[j];
    assert forall k :: |a| <= k < |c| ==> c[k] == b[k - |a|];
  }

  lemma {:induction false} InsertedLater(front: seq<Message>, q: seq<Message>, m: Message)
    requires Ascending(front + q) && !Queued(q, m.ref)
    requires front != [] ==> front[|front| - 1].ref.Before(m.ref)
    ensures Ascending(front + Inserted(q, m))
    ensures multiset(front + Inserted(q, m)) == multiset(front + q) + multiset{m}
  {
    AscendingParts(front, q);
    InsertedIsAscending(q, m);
    InsertedStaysLater(front, q, m);
  }

  lemma {:induction false} InsertedStaysLater(front: seq<Message>, q: seq<Message>, m: Message)
    requires Ascending(front + q) && Ascending(Inserted(q, m)) && forall x :: x in Inserted(q, m) <==> x == m || x in q
    requires front != [] ==> front[|front| - 1].ref.Before(m.ref)
    ensures Ascending(front + Inserted(q, m))
  {
    AscendingParts(front, q);
    var more := Inserted(q, m);
    forall i, j | 0 <= i < |front| && 0 <= j < |more| ensures front[i].ref.Before(more[j].ref) {
      assert more[j] in more;
      var last := |front| - 1;
      if more[j] == m && i < last { assert front[i].ref.Before(front[last].ref); }
    }
    AscendingParts(front, more);
  }

  /** Nothing that was popped is as late as a message that is not stale. */
  lemma FreshIsLater(s: State, m: Message)
    requires InOrder(s) && !Stale(s, m)
    ensures Pops(s.log) != [] ==> Pops(s.log)[|Pops(s.log)| - 1].ref.Before(m.ref)
  {
  }

  lemma AddedInOrder(s: State, m: Message)
    requires InOrder(s) && (s.last.None? ==> s.queue == [])
    ensures InOrder(Added(s, m))
    ensures multiset(Pops(Added(s, m).log) + Added(s, m).queue)
            == multiset(Pops(s.log) + s.queue) + multiset(if Stale(s, m) then [] else [m])
  {
    if !Stale(s, m) {
      FreshIsLater(s, m);
      InsertedLater(Pops(s.log), s.queue, m);
      var marked := if s.maxGapRequests > 0 then s.marked else s.marked + {m.ref};
      CheckedInOrder(s.(marked := marked, queue := Inserted(s.queue, m)));
    }
  }

  lemma GivenUpInOrder(s: State)
    requires InOrder(s) && s.last.Some? && s.queue != [] && s.queue[0].prev.Some?
    ensures InOrder(GivenUp(s)) && Pops(GivenUp(s).log) + GivenUp(s).queue == Pops(s.log) + s.queue
  {
    var to := s.queue[0].prev;
    var log := if s.maxGapRequests > 0 then s.log + [GapFillFailed(GapStart(s), to)] else s.log;
    PopsOfMore(s.log, GapFillFailed(GapStart(s), to));
    assert Pops(log) == Pops(s.log);
    var u := Cleared(s.(last := to, log := log));
    CompareIsEquality(to.value, to.value);
    CheckedInOrder(u);
  }

  lemma RequestedInOrder(s: State)
    requires InOrder(s) && (s.queue != [] ==> s.last.Some? && s.queue[0].prev.Some?)
    ensures InOrder(Requested(s)) && Pops(Requested(s).log) + Requested(s).queue == Pops(s.log) + s.queue
  {
    if s.hasPendingGap && s.queue != [] {
      if s.gapRequestCount < s.maxGapRequests {
        PopsOfMore(s.log, GapRequested(GapStart(s), s.queue[0].prev));
        assert Pops(Requested(s).log) == Pops(s.log);
      } else {
        GivenUpInOrder(s);
      }
    }
  }

  /** t keeps order and holds what s held plus the newly accepted messages. */
  ghost predicate Kept(s: State, t: State, accepted: seq<Message>) {
    && InOrder(t)
    && multiset(Pops(t.log) + t.queue) == multiset(Pops(s.log) + s.queue) + multiset(accepted)
  }

  lemma ArrivalKeeps(s: State, m: Message)
    requires InOrder(s) && (s.last.None? ==> s.queue == [])
    ensures Kept(s, Added(s, m), if Stale(s, m) then [] else [m])
    ensures Kept(s, MarkedExplicitly(s, m), if Stale(s, m) then [] else [m])
  {
    AddedInOrder(s, m);
    if !Stale(s, m) { AddedInOrder(s.(marked := s.marked + {m.ref}), m); }
  }

  lemma TimerKeeps(s: State)
    requires InOrder(s) && (s.queue != [] ==> s.last.Some? && s.queue[0].prev.Some?)
    ensures Kept(s, FirstFired(s), []) && Kept(s, NextFired(s), [])
  {
    var u := s.(firstArmed := false);
    RequestedInOrder(u);
    assert Pops(FirstFired(s).log) == Pops(Requested(u).log);
    RequestedInOrder(s);
  }

  lemma DisabledKeeps(s: State)
    requires InOrder(s)
    ensures Kept(s, Disabled(s), [])
  {
    CheckedInOrder(Cleared(s.(maxGapRequests := 0)));
  }

  lemma ApplyKeeps(s: State, op: Op)
    requires InOrder(s) && (s.queue != [] ==> s.last.Some? && s.queue[0].prev.Some?)
    ensures Kept(s, Apply(s, op), Accepted(s, op))
  {
    match op {
      case Add(m) => ArrivalKeeps(s, m);
      case Mark(m) => ArrivalKeeps(s, m);
      case FirstTimer => TimerKeeps(s);
      case NextTimer => TimerKeeps(s);
      case Disable => DisabledKeeps(s);
      case ClearGap =>
    }
  }

  /** Over every run popped references strictly increase, and the accepted messages are exactly
      the popped and the queued ones, each once.
   */
  lemma {:induction false} PopsAreOrderedAndConserved(s: State, ops: seq<Op>)
    requires Good(s) && InOrder(s) && AllEnabled(s, ops)
    ensures var t := After(s, ops);
            && Good(t) && InOrder(t)
            && Ascending(Pops(t.log) + t.queue)
            && multiset(Pops(t.log)) + multiset(t.queue)
               == multiset(Pops(s.log)) + multiset(s.queue) + multiset(AcceptedBy(s, ops))
    decreases |ops|
  {
    if ops != [] {
      ApplyIsGood(s, ops[0]);
      ApplyKeeps(s, ops[0]);
      PopsAreOrderedAndConserved(Apply(s, ops[0]), ops[1..]);
    }
  }

  // ---------- adjacent messages are linked, or the gap was reported ----------

  /** The reference the next chained message has to point at, as far as the log tells. */
  function Expected(log: seq<Event>): Option<MessageRef> {
    if log == [] then None
    else
      match log[|log| - 1]
      case Delivered(m) => Some(m.ref)
      case Skipped(m) => Some(m.ref)
      case GapFillFailed(_, to) => to
      case _ => Expected(log[..|log| - 1])
  }

  /** A popped message is unchained, or points at the reference expected at that moment. */
  ghost predicate FitsAfter(log: seq<Event>, e: Event) {
    PopOf(e) != [] && Expected(log).Some? && PopOf(e)[0].prev.Some? ==> PopOf(e)[0].prev == Expected(log)
  }

  ghost predicate Legal(log: seq<Event>) {
    log == [] || (Legal(log[..|log| - 1]) && FitsAfter(log[..|log| - 1], log[|log| - 1]))
  }

  lemma {:induction false} LegalMore(log: seq<Event>, e: Event)
    requires Legal(log) && FitsAfter(log, e)
    ensures Legal(log + [e])
    ensures Expected(log + [e]) == match e
                                   case Delivered(m) => Some(m.ref)
                                   case Skipped(m) => Some(m.ref)
                                   case GapFillFailed(_, to) => to
                                   case _ => Expected(log)
  {
    assert (log + [e])[..|log|] == log;
  }

  ghost predicate Traced(s: State) {
    Legal(s.log) && s.last == Expected(s.log)
  }

  lemma {:induction false} PoppedAllTraced(s: State)
    requires Traced(s)
    ensures Traced(PoppedAll(s))
    decreases |s.queue|
  {
    if HasNext(s) {
      var u := Popped(s);
      if s.last.Some? && s.queue[0].prev.Some? { CompareIsEquality(s.queue[0].prev.value, s.last.value); }
      LegalMore(s.log, u.log[|s.log|]);
      PoppedAllTraced(u);
    }
  }

  lemma CheckedTraced(s: State)
    requires Traced(s)
    ensures Traced(Checked(s))
  {
    PoppedAllTraced(s);
    PoppedAllIsShorter(s);
    var t := PoppedAll(s);
    LegalMore(t.log, Drained(|s.queue| - |t.queue|));
  }

  lemma RequestedTraced(s: State)
    requires Traced(s) && s.maxGapRequests > 0
    ensures Traced(Requested(s))
  {
    if s.hasPendingGap && s.queue != [] && s.last.Some? {
      var to := s.queue[0].prev;
      LegalMore(s.log, GapRequested(GapStart(s), to));
      LegalMore(s.log, GapFillFailed(GapStart(s), to));
      CheckedTraced(Cleared(s.(last := to, log := s.log + [GapFillFailed(GapStart(s), to)])));
    }
  }

  lemma AddedTraced(s: State, m: Message)
    requires Traced(s)
    ensures Traced(Added(s, m)) && Traced(MarkedExplicitly(s, m))
  {
    if !Stale(s, m) {
      var marked := if s.maxGapRequests > 0 then s.marked else s.marked + {m.ref};
      CheckedTraced(s.(marked := marked, queue := Inserted(s.queue, m)));
      CheckedTraced(s.(marked := s.marked + {m.ref}, queue := Inserted(s.queue, m)));
    }
  }

  lemma LimitStays(s: State, op: Op)
    requires op != Disable
    ensures Apply(s, op).maxGapRequests == s.maxGapRequests
  {
    forall u: State ensures Checked(u).maxGapRequests == u.maxGapRequests { CheckedKeepsLimit(u); }
  }

  lemma {:induction false} PoppedAllKeepsLimit(s: State)
    ensures PoppedAll(s).maxGapRequests == s.maxGapRequests
    decreases |s.queue|
  {
    if HasNext(s) { PoppedAllKeepsLimit(Popped(s)); }
  }

  lemma CheckedKeepsLimit(s: State)
    ensures Checked(s).maxGapRequests == s.maxGapRequests
  {
    PoppedAllKeepsLimit(s);
  }

  /** With gap handling enabled throughout, every run leaves a legal log. */
  lemma {:induction false} RunIsTraced(s: State, ops: seq<Op>)
    requires Traced(s) && s.maxGapRequests > 0 && Disable !in ops
    ensures Traced(After(s, ops))
    decreases |ops|
  {
    if ops != [] {
      assert ops == [ops[0]] + ops[1..];
      LimitStays(s, ops[0]);
      match ops[0] {
        case Add(m) => AddedTraced(s, m);
        case Mark(m) => AddedTraced(s, m);
        case FirstTimer => RequestedTraced(s.(firstArmed := false));
        case NextTimer => RequestedTraced(s);
        case _ =>
      }
      RunIsTraced(Apply(s, ops[0]), ops[1..]);
    }
  }

  lemma {:induction false} LegalAt(log: seq<Event>, k: nat)
    requires Legal(log) && k < |log|
    ensures FitsAfter(log[..k], log[k])
    decreases |log|
  {
    if k < |log| - 1 {
      LegalAt(log[..|log| - 1], k);
      assert log[..|log| - 1][..k] == log[..k];
    }
  }

  lemma {:induction false} ExpectedStays(log: seq<Event>, i: nat, k: nat)
    requires i < k <= |log| && PopOf(log[i]) != []
    requires forall x :: i < x < k ==> PopOf(log[x]) == [] && !log[x].GapFillFailed?
    ensures Expected(log[..k]) == Some(PopOf(log[i])[0].ref)
    decreases k
  {
    assert log[..k][..k - 1] == log[..k - 1];
    if k > i + 1 { ExpectedStays(log, i, k - 1); }
  }

  /** With gap handling enabled throughout, of two messages popped one after the other the
      second points at the first, or is unchained, or the gap between them was reported as
      failed in between.
   */
  lemma {:induction false} AdjacentPopsAreLinked(s: State, ops: seq<Op>, i: nat, j: nat)
    requires Traced(s) && s.maxGapRequests > 0 && Disable !in ops
    requires i < j < |After(s, ops).log|
    requires PopOf(After(s, ops).log[i]) != [] && PopOf(After(s, ops).log[j]) != []
    requires forall x :: i < x < j ==> PopOf(After(s, ops).log[x]) == []
    ensures var log := After(s, ops).log;
            var first, second := PopOf(log[i])[0], PopOf(log[j])[0];
            || second.prev == Some(first.ref)
            || second.prev.None?
            || exists x :: i < x < j && log[x].GapFillFailed?
  {
    RunIsTraced(s, ops);
    var log := After(s, ops).log;
    LegalAt(log, j);
    if forall x :: i < x < j ==> !log[x].GapFillFailed? { ExpectedStays(log, i, j); }
  }

  /** A new chain meets every condition that the run theorems start from. */
  lemma InitialIsGood(maxGapRequests: nat)
    ensures var s := Initial(maxGapRequests); Good(s) && Armed(s) && InOrder(s) && Traced(s)
  {
  }

  // ---------- a blocked chain drains ----------

  /** How many more timer callbacks a state can take before its queue is empty. */
  function Patience(s: State): int {
    if s.queue == [] then 0
    else Weight(|s.queue| - 1, s.maxGapRequests) + s.maxGapRequests - s.gapRequestCount + 1
  }

  lemma GivenUpLowersPatience(s: State)
    requires Later(s) && s.last.Some? && s.queue != [] && s.queue[0].prev.Some?
    ensures Patience(GivenUp(s)) <= Weight(|s.queue| - 1, s.maxGapRequests)
    ensures GivenUp(s).maxGapRequests == s.maxGapRequests
  {
    GivenUpIsGood(s);
    var u := Cleared(s.(last := s.queue[0].prev,
                        log := if s.maxGapRequests > 0 then s.log + [GapFillFailed(GapStart(s), s.queue[0].prev)]
                               else s.log));
    PoppedAllBlocks(u);
    var t := GivenUp(s);
    if t.queue != [] && |t.queue| - 1 < |s.queue| - 1 {
      WeightGrows(|t.queue| - 1, |s.queue| - 1, s.maxGapRequests);
    }
  }

  lemma TimerLowersPatience(s: State, op: Op)
    requires Good(s) && Enabled(s, op) && (op == FirstTimer || op == NextTimer)
    ensures Patience(Apply(s, op)) < Patience(s)
    ensures Apply(s, op).maxGapRequests == s.maxGapRequests
  {
    if s.gapRequestCount >= s.maxGapRequests {
      GivenUpLowersPatience(s);
      GivenUpLowersPatience(s.(firstArmed := false));
    }
  }

  lemma PatienceIsBounded(s: State)
    requires Good(s) && Armed(s)
    ensures 0 <= Patience(s) <= |s.queue| * (s.maxGapRequests + 1)
  {
    WeightIsProduct(|s.queue|, s.maxGapRequests);
  }

  lemma {:induction false} TimersUseUpPatience(s: State, ops: seq<Op>)
    requires Good(s) && Armed(s) && AllEnabled(s, ops)
    requires forall i :: 0 <= i < |ops| ==> ops[i] == FirstTimer || ops[i] == NextTimer
    ensures Good(After(s, ops)) && Armed(After(s, ops))
    ensures |ops| + Patience(After(s, ops)) <= Patience(s)
    decreases |ops|
  {
    if ops != [] {
      TimerLowersPatience(s, ops[0]);
      ApplyIsGood(s, ops[0]);
      TimersUseUpPatience(Apply(s, ops[0]), ops[1..]);
    }
  }

  /** Without further arrivals a queue of n messages is empty after at most n * (max + 1) timer
      callbacks, and as long as it is not empty another callback is on its way.
   */
  lemma {:induction false} BlockedChainDrains(s: State, ops: seq<Op>)
    requires Good(s) && Armed(s) && AllEnabled(s, ops)
    requires forall i :: 0 <= i < |ops| ==> ops[i] == FirstTimer || ops[i] == NextTimer
    ensures |ops| <= |s.queue| * (s.maxGapRequests + 1)
    ensures |ops| == |s.queue| * (s.maxGapRequests + 1) ==> After(s, ops).queue == []
    ensures After(s, ops).queue != [] ==> After(s, ops).firstArmed || After(s, ops).nextArmed
  {
    TimersUseUpPatience(s, ops);
    PatienceIsBounded(s);
    PatienceIsBounded(After(s, ops));
  }
}
