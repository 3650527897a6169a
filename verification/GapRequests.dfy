/** How a missing stretch is asked for: what every request names, and that a gap is given up only after
    all requests have been made.
 */
module GapRequests {
  import opened Options
  import opened MessageRefs
  import opened OrderedMsgChains
  import opened OrderedDelivery

  // ---------- counting the requests ----------

  /** Requests made since a gap was last given up, or the queue drained. */
  function RequestsSince(log: seq<Event>): nat {
    if log == [] then 0
    else
      match log[|log| - 1]
      case GapRequested(_, _) => RequestsSince(log[..|log| - 1]) + 1
      case GapFillFailed(_, _) => 0
      case Drained(_) => 0
      case _ => RequestsSince(log[..|log| - 1])
  }

  lemma {:induction false} RequestsSinceMore(log: seq<Event>, e: Event)
    ensures RequestsSince(log + [e]) == match e
                                        case GapRequested(_, _) => RequestsSince(log) + 1
                                        case GapFillFailed(_, _) => 0
                                        case Drained(_) => 0
                                        case _ => RequestsSince(log)
  {
    assert (log + [e])[..|log|] == log;
  }

  /** The reference that follows the one expected last. */
  ghost predicate StartsTheGap(log: seq<Event>, from: MessageRef) {
    Expected(log).Some?
    && from == MessageRef(Expected(log).value.timestamp, Expected(log).value.sequenceNumber + 1)
  }

  /** A request starts right after the last ordered reference, and is one of max; a gap is given up after
      exactly max of them.
   */
  ghost predicate AskedBefore(log: seq<Event>, e: Event, max: nat) {
    match e
    case GapRequested(from, _) => StartsTheGap(log, from) && RequestsSince(log) < max
    case GapFillFailed(from, _) => StartsTheGap(log, from) && RequestsSince(log) == max
    case _ => true
  }

  ghost predicate AllAsked(log: seq<Event>, max: nat) {
    log == [] || (AllAsked(log[..|log| - 1], max) && AskedBefore(log[..|log| - 1], log[|log| - 1], max))
  }

  lemma {:induction false} AllAskedMore(log: seq<Event>, e: Event, max: nat)
    requires AllAsked(log, max) && AskedBefore(log, e, max)
    ensures AllAsked(log + [e], max)
  {
    assert (log + [e])[..|log|] == log;
  }

  lemma {:induction false} AskedAt(log: seq<Event>, max: nat, x: nat)
    requires AllAsked(log, max) && x < |log|
    ensures AskedBefore(log[..x], log[x], max)
    decreases |log|
  {
    if x < |log| - 1 {
      AskedAt(log[..|log| - 1], max, x);
      assert log[..|log| - 1][..x] == log[..x];
    }
  }

  /** The counter of the chain is the number of requests in the log while a gap is pending. */
  ghost predicate Counted(s: State) {
    && AllAsked(s.log, s.maxGapRequests)
    && RequestsSince(s.log) == if s.hasPendingGap then s.gapRequestCount else 0
  }

  lemma {:induction false} PoppedAllCounted(s: State)
    requires Counted(s)
    ensures Counted(PoppedAll(s)) && RequestsSince(PoppedAll(s).log) == RequestsSince(s.log)
    ensures PoppedAll(s).hasPendingGap == s.hasPendingGap
    decreases |s.queue|
  {
    if HasNext(s) {
      var u := Popped(s);
      RequestsSinceMore(s.log, u.log[|s.log|]);
      AllAskedMore(s.log, u.log[|s.log|], s.maxGapRequests);
      PoppedAllCounted(u);
    }
  }

  lemma CheckedCounted(s: State)
    requires Counted(s)
    ensures Counted(Checked(s))
  {
    PoppedAllCounted(s);
    PoppedAllIsShorter(s);
    var t := PoppedAll(s);
    var e := Drained(|s.queue| - |t.queue|);
    RequestsSinceMore(t.log, e);
    AllAskedMore(t.log, e, t.maxGapRequests);
  }

  lemma AddedCounted(s: State, m: Message)
    requires Counted(s)
    ensures Counted(Added(s, m)) && Counted(MarkedExplicitly(s, m))
  {
    if !Stale(s, m) {
      var marked := if s.maxGapRequests > 0 then s.marked else s.marked + {m.ref};
      CheckedCounted(s.(marked := marked, queue := Inserted(s.queue, m)));
      CheckedCounted(s.(marked := s.marked + {m.ref}, queue := Inserted(s.queue, m)));
    }
  }

  lemma GivenUpCounted(s: State)
    requires Counted(s) && Traced(s) && s.maxGapRequests > 0 && s.last.Some? && s.queue != []
    requires s.hasPendingGap && s.gapRequestCount == s.maxGapRequests
    ensures Counted(GivenUp(s))
  {
    var e := GapFillFailed(GapStart(s), s.queue[0].prev);
    RequestsSinceMore(s.log, e);
    AllAskedMore(s.log, e, s.maxGapRequests);
    CheckedCounted(Cleared(s.(last := s.queue[0].prev, log := s.log + [e])));
  }

  lemma RequestedCounted(s: State)
    requires Counted(s) && Traced(s) && s.maxGapRequests > 0
    requires s.hasPendingGap ==> s.gapRequestCount <= s.maxGapRequests
    ensures Counted(Requested(s))
  {
    if s.hasPendingGap && s.queue != [] && s.last.Some? {
      if s.gapRequestCount < s.maxGapRequests {
        var e := GapRequested(GapStart(s), s.queue[0].prev);
        RequestsSinceMore(s.log, e);
        AllAskedMore(s.log, e, s.maxGapRequests);
      } else {
        GivenUpCounted(s);
      }
    }
  }

  /** Gap handling stays on, and no gap is cleared from outside. */
  ghost predicate LeftAlone(ops: seq<Op>) {
    Disable !in ops && ClearGap !in ops
  }

  lemma {:induction false} RunIsCounted(s: State, ops: seq<Op>)
    requires Good(s) && Traced(s) && Counted(s) && s.maxGapRequests > 0 && AllEnabled(s, ops) && LeftAlone(ops)
    ensures var t := After(s, ops);
            Good(t) && Traced(t) && Counted(t) && t.maxGapRequests == s.maxGapRequests
    decreases |ops|
  {
    if ops != [] {
      assert ops == [ops[0]] + ops[1..];
      LimitStays(s, ops[0]);
      ApplyIsGood(s, ops[0]);
      RunIsTraced(s, [ops[0]]);
      assert After(s, [ops[0]]) == Apply(s, ops[0]);
      match ops[0] {
        case Add(m) => AddedCounted(s, m);
        case Mark(m) => AddedCounted(s, m);
        case FirstTimer => RequestedCounted(s.(firstArmed := false));
        case NextTimer => RequestedCounted(s);
      }
      RunIsCounted(Apply(s, ops[0]), ops[1..]);
    }
  }

  lemma InitialIsCounted(maxGapRequests: nat)
    ensures var s := Initial(maxGapRequests); Good(s) && Traced(s) && Counted(s)
  {
    InitialIsGood(maxGapRequests);
  }

  /** Over every run: a gap is given up after exactly the limit of requests since one was last given up or
      the queue drained, never before and never later; and both name what follows the last ordered
      reference.
   */
  lemma {:induction false} GivenUpAfterAllRequests(s: State, ops: seq<Op>, x: nat)
    requires Good(s) && Traced(s) && Counted(s) && s.maxGapRequests > 0 && AllEnabled(s, ops) && LeftAlone(ops)
    requires x < |After(s, ops).log|
    ensures var log := After(s, ops).log;
            && (log[x].GapFillFailed? ==>
                RequestsSince(log[..x]) == s.maxGapRequests && StartsTheGap(log[..x], log[x].from))
            && (log[x].GapRequested? ==>
                RequestsSince(log[..x]) < s.maxGapRequests && StartsTheGap(log[..x], log[x].from))
  {
    RunIsCounted(s, ops);
    AskedAt(After(s, ops).log, s.maxGapRequests, x);
  }

  // ---------- one gap after another ----------

  /** Requests made since the last message was popped, a gap was given up, or the queue drained. */
  function RequestsForThisGap(log: seq<Event>): (n: nat)
    ensures n <= |log|
  {
    if log == [] || !log[|log| - 1].GapRequested? then 0 else RequestsForThisGap(log[..|log| - 1]) + 1
  }

  /** A message was popped after a request that still counts. */
  ghost predicate MovedOn(log: seq<Event>) {
    log != [] && match log[|log| - 1]
                 case GapRequested(_, _) => MovedOn(log[..|log| - 1])
                 case GapFillFailed(_, _) => false
                 case Drained(_) => false
                 case _ => RequestsSince(log[..|log| - 1]) > 0
  }

  lemma {:induction false} RequestsMovedOn(log: seq<Event>)
    ensures RequestsForThisGap(log) <= RequestsSince(log)
    ensures RequestsForThisGap(log) == RequestsSince(log) <==> !MovedOn(log)
    decreases |log|
  {
    if log != [] { RequestsMovedOn(log[..|log| - 1]); }
  }

  /** The gap that is given up was itself asked for as often as the limit says if and only if no message
      was popped after the first of the requests: a later gap inherits the count of an earlier one.
   */
  lemma {:induction false} AskedInFullIffNotMovedOn(s: State, ops: seq<Op>, x: nat)
    requires Good(s) && Traced(s) && Counted(s) && s.maxGapRequests > 0 && AllEnabled(s, ops) && LeftAlone(ops)
    requires x < |After(s, ops).log| && After(s, ops).log[x].GapFillFailed?
    ensures var log := After(s, ops).log;
            RequestsForThisGap(log[..x]) == s.maxGapRequests <==> !MovedOn(log[..x])
  {
    GivenUpAfterAllRequests(s, ops, x);
    RequestsMovedOn(After(s, ops).log[..x]);
  }

  /** These requests are the last events, and they all start at the same reference. */
  lemma {:induction false} RequestsForThisGapAreAlike(log: seq<Event>, i: nat)
    requires |log| - RequestsForThisGap(log) <= i < |log|
    ensures log[i].GapRequested? && Expected(log[..i]) == Expected(log)
    decreases |log|
  {
    var front := log[..|log| - 1];
    if i == |log| - 1 {
      assert log[..i] == front;
    } else {
      RequestsForThisGapAreAlike(front, i);
      assert front[..i] == log[..i];
    }
  }

  function Ref(timestamp: nat): MessageRef {
    MessageRef(timestamp, 0)
  }

  /** Messages 1, 3 and 5 arrive, each chained to a neighbor that is missing, and 2 after the first request. */
  function Sample(number: nat): Message {
    Message(Ref(number), if number <= 1 then None else Some(Ref(number - 1)), number)
  }

  function TwoGaps(): seq<Op> {
    [Add(Sample(1)), Add(Sample(3)), Add(Sample(5)), FirstTimer, Add(Sample(2)), NextTimer, NextTimer]
  }

  /** With a limit of two, a gap is given up after a single request for it: the first request was for an
      earlier gap, which was filled.
   */
  lemma {:induction false} LaterGapGetsFewerRequests(s: State, ops: seq<Op>)
    requires s == Initial(2) && ops == TwoGaps()
    ensures AllEnabled(s, ops)
    ensures After(s, ops).log ==
            [Delivered(Sample(1)), GapRequested(MessageRef(1, 1), Some(Ref(2))), Delivered(Sample(2)),
             Delivered(Sample(3)), GapRequested(MessageRef(3, 1), Some(Ref(4))),
             GapFillFailed(MessageRef(3, 1), Some(Ref(4))), Delivered(Sample(5))]
  {
    var s1, s2, s3, s4, s5, s6, s7 := StatesOfTheRun();
    RunOfSeven(Add(Sample(1)), Add(Sample(3)), Add(Sample(5)), FirstTimer, Add(Sample(2)), NextTimer, NextTimer,
               s, s1, s2, s3, s4, s5, s6, s7);
  }

  lemma StatesOfTheRun()
      returns (s1: State, s2: State, s3: State, s4: State, s5: State, s6: State, s7: State)
    ensures Steps(Initial(2), Add(Sample(1)), s1) && Steps(s1, Add(Sample(3)), s2) && Steps(s2, Add(Sample(5)), s3)
    ensures Steps(s3, FirstTimer, s4) && Steps(s4, Add(Sample(2)), s5)
    ensures Steps(s5, NextTimer, s6) && Steps(s6, NextTimer, s7)
    ensures s7.log ==
            [Delivered(Sample(1)), GapRequested(MessageRef(1, 1), Some(Ref(2))), Delivered(Sample(2)),
             Delivered(Sample(3)), GapRequested(MessageRef(3, 1), Some(Ref(4))),
             GapFillFailed(MessageRef(3, 1), Some(Ref(4))), Delivered(Sample(5))]
  {
    s1 := Initial(2).(last := Some(Ref(1)), log := [Delivered(Sample(1))]);
    s2 := s1.(queue := [Sample(3)], hasPendingGap := true, firstArmed := true);
    s3 := s2.(queue := [Sample(3), Sample(5)]);
    TwoGapsBlock(s1, s2, s3);
    var r1, r2 := GapRequested(MessageRef(1, 1), Some(Ref(2))), GapRequested(MessageRef(3, 1), Some(Ref(4)));
    s4 := s3.(firstArmed := false, nextArmed := true, gapRequestCount := 1, log := s3.log + [r1]);
    s5 := s4.(queue := [Sample(5)], last := Some(Ref(3)),
              log := s4.log + [Delivered(Sample(2)), Delivered(Sample(3))]);
    FirstGapIsFilled(s3, s4, s5);
    s6 := s5.(gapRequestCount := 2, log := s5.log + [r2]);
    s7 := SecondGapIsGivenUp(s5, s6);
  }

  ghost predicate Steps(s: State, op: Op, t: State) {
    Enabled(s, op) && t == Apply(s, op)
  }

  lemma {:induction false} RunOfSeven(
      o1: Op, o2: Op, o3: Op, o4: Op, o5: Op, o6: Op, o7: Op,
      s: State, s1: State, s2: State, s3: State, s4: State, s5: State, s6: State, s7: State)
    requires Steps(s, o1, s1) && Steps(s1, o2, s2) && Steps(s2, o3, s3) && Steps(s3, o4, s4)
    requires Steps(s4, o5, s5) && Steps(s5, o6, s6) && Steps(s6, o7, s7)
    ensures AllEnabled(s, [o1, o2, o3, o4, o5, o6, o7]) && After(s, [o1, o2, o3, o4, o5, o6, o7]) == s7
  {
    StepFirst(s6, o7, s7, []);
    StepFirst(s5, o6, s6, [o7]);
    StepFirst(s4, o5, s5, [o6, o7]);
    StepFirst(s3, o4, s4, [o5, o6, o7]);
    StepFirst(s2, o3, s3, [o4, o5, o6, o7]);
    StepFirst(s1, o2, s2, [o3, o4, o5, o6, o7]);
    StepFirst(s, o1, s1, [o2, o3, o4, o5, o6, o7]);
  }

  lemma {:induction false} StepFirst(s: State, op: Op, t: State, ops: seq<Op>)
    requires Steps(s, op, t) && AllEnabled(t, ops)
    ensures AllEnabled(s, [op] + ops) && After(s, [op] + ops) == After(t, ops)
  {
    assert ([op] + ops)[1..] == ops;
  }

  lemma TwoGapsBlock(s1: State, s2: State, s3: State)
    requires s1 == Initial(2).(last := Some(Ref(1)), log := [Delivered(Sample(1))])
    requires s2 == s1.(queue := [Sample(3)], hasPendingGap := true, firstArmed := true)
    requires s3 == s2.(queue := [Sample(3), Sample(5)])
    ensures Steps(Initial(2), Add(Sample(1)), s1) && Steps(s1, Add(Sample(3)), s2) && Steps(s2, Add(Sample(5)), s3)
  {
    var u := Initial(2).(queue := [Sample(1)]);
    assert HasNext(u) && !HasNext(Popped(u));
    assert PoppedAll(u) == PoppedAll(Popped(u)) == Popped(u);
    assert s1 == Added(Initial(2), Sample(1));
    assert s2 == Added(s1, Sample(3));
    assert Inserted([Sample(3)], Sample(5)) == s3.queue;
  }

  lemma FirstGapIsFilled(s: State, t: State, u: State)
    requires s.queue == [Sample(3), Sample(5)] && s.last == Some(Ref(1)) && s.hasPendingGap && s.firstArmed
    requires s.marked == {} && s.gapRequestCount == 0 && s.maxGapRequests == 2
    requires t == s.(firstArmed := false, nextArmed := true, gapRequestCount := 1,
                     log := s.log + [GapRequested(MessageRef(1, 1), Some(Ref(2)))])
    requires u == t.(queue := [Sample(5)], last := Some(Ref(3)),
                     log := t.log + [Delivered(Sample(2)), Delivered(Sample(3))])
    ensures Steps(s, FirstTimer, t) && Steps(t, Add(Sample(2)), u)
  {
    var w := t.(queue := [Sample(2), Sample(3), Sample(5)]);
    assert Inserted(t.queue, Sample(2)) == w.queue;
    var x := Popped(w);
    assert x == t.(last := Some(Ref(2)), log := t.log + [Delivered(Sample(2))]);
    var y := Popped(x);
    assert y == u;
    assert PoppedAll(w) == PoppedAll(x) == PoppedAll(y) == y;
  }

  lemma SecondGapIsGivenUp(s: State, t: State) returns (u: State)
    requires s.queue == [Sample(5)] && s.last == Some(Ref(3)) && s.hasPendingGap && s.nextArmed
    requires s.marked == {} && s.gapRequestCount == 1 && s.maxGapRequests == 2
    requires t == s.(gapRequestCount := 2, log := s.log + [GapRequested(MessageRef(3, 1), Some(Ref(4)))])
    ensures Steps(s, NextTimer, t) && Steps(t, NextTimer, u)
    ensures u.log == t.log + [GapFillFailed(MessageRef(3, 1), Some(Ref(4))), Delivered(Sample(5))]
  {
    u := NextFired(t);
    var w := Cleared(t.(last := Some(Ref(4)), log := t.log + [GapFillFailed(MessageRef(3, 1), Some(Ref(4)))]));
    assert u == Checked(w);
    assert HasNext(w) && !HasNext(Popped(w));
    assert PoppedAll(w) == PoppedAll(Popped(w)) == Popped(w);
  }

  // ---------- what a request names ----------

  /** What a timer does to a blocked chain: nothing, one more request, or the gap is given up and the head
      popped. What is named is the previous reference of the head.
   */
  ghost predicate Asks(s: State, t: State) {
    s.queue != [] && s.last.Some? && t.queue == s.queue
    && t.log == s.log + [GapRequested(GapStart(s), s.queue[0].prev)]
  }

  ghost predicate GivesUp(s: State, t: State) {
    && s.queue != [] && s.last.Some?
    && s.log + [GapFillFailed(GapStart(s), s.queue[0].prev)] <= t.log
    && |t.log| >= |s.log| + 2 && PopOf(t.log[|s.log| + 1]) == [s.queue[0]]
    && forall i :: |s.log| < i < |t.log| ==> !t.log[i].GapRequested? && !t.log[i].GapFillFailed?
  }

  ghost predicate IsTimer(op: Op) {
    op == FirstTimer || op == NextTimer
  }

  ghost predicate OnlyTimers(ops: seq<Op>) {
    forall i :: 0 <= i < |ops| ==> IsTimer(ops[i])
  }

  lemma {:induction false} PoppedAllLogs(s: State)
    ensures var log := PoppedAll(s).log;
            && s.log <= log
            && (forall i :: |s.log| <= i < |log| ==> PopOf(log[i]) != [])
            && (HasNext(s) ==> |log| > |s.log| && PopOf(log[|s.log|]) == [s.queue[0]])
    decreases |s.queue|
  {
    if HasNext(s) { PoppedAllLogs(Popped(s)); }
  }

  lemma TimerAsksOrGivesUp(s: State, op: Op)
    requires Good(s) && Enabled(s, op) && IsTimer(op) && s.maxGapRequests > 0
    ensures s.log <= Apply(s, op).log
    ensures Asks(s, Apply(s, op)) || GivesUp(s, Apply(s, op))
  {
    if s.gapRequestCount >= s.maxGapRequests {
      GivingUpPopsTheHead(s.(firstArmed := op != FirstTimer && s.firstArmed));
    }
  }

  lemma GivingUpPopsTheHead(s: State)
    requires s.last.Some? && s.queue != [] && s.queue[0].prev.Some? && s.maxGapRequests > 0
    ensures GivesUp(s, GivenUp(s))
  {
    var to := s.queue[0].prev;
    var u := Cleared(s.(last := to, log := s.log + [GapFillFailed(GapStart(s), to)]));
    CompareIsEquality(to.value, to.value);
    assert HasNext(u);
    PoppedAllLogs(u);
    assert PoppedAll(u).log <= Checked(u).log;
  }

  lemma {:induction false} LogGrows(s: State, ops: seq<Op>)
    requires Good(s) && s.maxGapRequests > 0 && AllEnabled(s, ops) && OnlyTimers(ops)
    ensures s.log <= After(s, ops).log
    decreases |ops|
  {
    if ops != [] {
      TimerStays(s, ops);
      LogGrows(Apply(s, ops[0]), ops[1..]);
    }
  }

  /** The conditions hold again after the first of the timers. */
  lemma {:induction false} TimerStays(s: State, ops: seq<Op>)
    requires Good(s) && s.maxGapRequests > 0 && AllEnabled(s, ops) && OnlyTimers(ops) && ops != []
    ensures var t := Apply(s, ops[0]);
            Good(t) && t.maxGapRequests > 0 && AllEnabled(t, ops[1..]) && OnlyTimers(ops[1..])
            && s.log <= t.log && (Asks(s, t) || GivesUp(s, t))
  {
    assert IsTimer(ops[0]);
    ApplyIsGood(s, ops[0]);
    LimitStays(s, ops[0]);
    TimerAsksOrGivesUp(s, ops[0]);
    forall i | 0 <= i < |ops[1..]| ensures IsTimer(ops[1..][i]) { assert ops[1..][i] == ops[i + 1]; }
  }

  /** As long as nothing arrives the next message popped is the head of the queue. */
  lemma {:induction false} NextPopIsTheHead(s: State, ops: seq<Op>, y: nat)
    requires Good(s) && s.maxGapRequests > 0 && AllEnabled(s, ops) && OnlyTimers(ops)
    requires |s.log| <= y < |After(s, ops).log| && PopOf(After(s, ops).log[y]) != []
    requires forall i :: |s.log| <= i < y ==> PopOf(After(s, ops).log[i]) == []
    ensures s.queue != [] && PopOf(After(s, ops).log[y]) == [s.queue[0]]
    decreases |ops|
  {
    if ops != [] {
      var t := Apply(s, ops[0]);
      TimerStays(s, ops);
      LogGrows(t, ops[1..]);
      if Asks(s, t) {
        assert y != |s.log|;
        NextPopIsTheHead(t, ops[1..], y);
      } else {
        assert After(s, ops).log[|s.log| + 1] == t.log[|s.log| + 1];
      }
    }
  }

  /** While nothing arrives, what is requested or given up starts right after the last ordered reference, and
      ends at the previous reference of the very message that is popped next.
   */
  lemma {:induction false} RequestsNameTheGap(s: State, ops: seq<Op>, x: nat, y: nat)
    requires Good(s) && Traced(s) && Counted(s) && s.maxGapRequests > 0 && AllEnabled(s, ops) && OnlyTimers(ops)
    requires var log := After(s, ops).log;
             && |s.log| <= x < y < |log| && (log[x].GapRequested? || log[x].GapFillFailed?)
             && PopOf(log[y]) != [] && forall i :: x < i < y ==> PopOf(log[i]) == []
    ensures var log := After(s, ops).log;
            log[x].to == PopOf(log[y])[0].prev && StartsTheGap(log[..x], log[x].from)
  {
    forall op | op in ops ensures IsTimer(op) {}
    GivenUpAfterAllRequests(s, ops, x);
    RequestsEndAtTheHead(s, ops, x, y);
  }

  lemma {:induction false} RequestsEndAtTheHead(s: State, ops: seq<Op>, x: nat, y: nat)
    requires Good(s) && s.maxGapRequests > 0 && AllEnabled(s, ops) && OnlyTimers(ops)
    requires var log := After(s, ops).log;
             && |s.log| <= x < y < |log| && (log[x].GapRequested? || log[x].GapFillFailed?)
             && PopOf(log[y]) != [] && forall i :: x < i < y ==> PopOf(log[i]) == []
    ensures After(s, ops).log[x].to == PopOf(After(s, ops).log[y])[0].prev
    decreases |ops|
  {
    if ops != [] {
      var t, log := Apply(s, ops[0]), After(s, ops).log;
      TimerStays(s, ops);
      LogGrows(t, ops[1..]);
      if x >= |t.log| {
        RequestsEndAtTheHead(t, ops[1..], x, y);
      } else if Asks(s, t) {
        NextPopIsTheHead(t, ops[1..], y);
      } else {
        assert log[x] == t.log[x] && log[|s.log| + 1] == t.log[|s.log| + 1];
      }
    }
  }
}
