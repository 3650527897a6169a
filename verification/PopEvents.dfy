/** What is emitted as messages leave the queue: whether each is delivered or skipped, and how many a drain
    reports.
 */
module PopEvents {
  import opened Options
  import opened MessageRefs
  import opened OrderedMsgChains
  import opened OrderedDelivery

  // ---------- skipped if and only if marked ----------

  /** The reference a step marks explicitly. */
  function Marks(s: State, op: Op): set<MessageRef> {
    if op.Mark? && !Stale(s, op.m) then {op.m.ref} else {}
  }

  function MarkedBy(s: State, ops: seq<Op>): set<MessageRef>
    decreases |ops|
  {
    if ops == [] then {} else Marks(s, ops[0]) + MarkedBy(Apply(s, ops[0]), ops[1..])
  }

  ghost predicate SkipsMatch(log: seq<Event>, marks: set<MessageRef>) {
    forall x {:trigger log[x]} :: 0 <= x < |log| && PopOf(log[x]) != [] ==>
        (log[x].Skipped? <==> PopOf(log[x])[0].ref in marks)
  }

  ghost predicate IsPopped(log: seq<Event>, ref: MessageRef) {
    exists x :: 0 <= x < |log| && PopOf(log[x]) != [] && PopOf(log[x])[0].ref == ref
  }

  /** What was marked is queued and still marked, or has been popped. */
  ghost predicate Matched(s: State, marks: set<MessageRef>) {
    && s.marked <= marks
    && (forall i :: 0 <= i < |s.queue| ==> (s.queue[i].ref in s.marked <==> s.queue[i].ref in marks))
    && (forall r :: r in marks ==> Queued(s.queue, r) || IsPopped(s.log, r))
    && SkipsMatch(s.log, marks)
  }

  lemma IsPoppedMore(log: seq<Event>, e: Event, r: MessageRef)
    ensures IsPopped(log, r) ==> IsPopped(log + [e], r)
    ensures PopOf(e) != [] && PopOf(e)[0].ref == r ==> IsPopped(log + [e], r)
  {
    var more := log + [e];
    if IsPopped(log, r) {
      var x :| 0 <= x < |log| && PopOf(log[x]) != [] && PopOf(log[x])[0].ref == r;
      assert more[x] == log[x];
    }
    assert more[|log|] == e;
  }

  lemma PoppedMatches(s: State, marks: set<MessageRef>)
    requires Matched(s, marks) && Ascending(s.queue) && s.queue != [] && s.maxGapRequests > 0
    ensures Matched(Popped(s), marks)
  {
    var t, m := Popped(s), s.queue[0];
    var e := t.log[|s.log|];
    assert t.log == s.log + [e] && PopOf(e) == [m];
    assert forall i :: 0 <= i < |t.queue| ==> t.queue[i] == s.queue[i + 1] && t.queue[i].ref != m.ref;
    forall r | r in marks ensures Queued(t.queue, r) || IsPopped(t.log, r) {
      IsPoppedMore(s.log, e, r);
      if Queued(s.queue, r) && r != m.ref {
        var i :| 0 <= i < |s.queue| && s.queue[i].ref == r;
        assert t.queue[i - 1] == s.queue[i];
      }
    }
  }

  lemma {:induction false} PoppedAllMatches(s: State, marks: set<MessageRef>)
    requires Matched(s, marks) && Ascending(s.queue) && s.maxGapRequests > 0
    ensures Matched(PoppedAll(s), marks)
    decreases |s.queue|
  {
    if HasNext(s) {
      PoppedMatches(s, marks);
      PoppedAllMatches(Popped(s), marks);
    }
  }

  lemma QuietEventMatches(s: State, e: Event, marks: set<MessageRef>)
    requires Matched(s, marks) && PopOf(e) == []
    ensures Matched(s.(log := s.log + [e]), marks)
  {
    forall r ensures IsPopped(s.log, r) ==> IsPopped(s.log + [e], r) { IsPoppedMore(s.log, e, r); }
  }

  lemma CheckedMatches(s: State, marks: set<MessageRef>)
    requires Matched(s, marks) && Ascending(s.queue) && s.maxGapRequests > 0
    ensures Matched(Checked(s), marks)
  {
    PoppedAllMatches(s, marks);
    PoppedAllIsShorter(s);
    var t := PoppedAll(s);
    QuietEventMatches(t, Drained(|s.queue| - |t.queue|), marks);
  }

  /** A message that is not stale was neither marked nor popped before. */
  lemma FreshIsUnmarked(s: State, m: Message, marks: set<MessageRef>)
    requires InOrder(s) && Matched(s, marks) && !Stale(s, m)
    ensures m.ref !in marks && !IsPopped(s.log, m.ref)
  {
    FreshIsLater(s, m);
    AscendingParts(Pops(s.log), s.queue);
    var pops := Pops(s.log);
    forall j | 0 <= j < |pops| ensures pops[j].ref != m.ref {
      if j < |pops| - 1 { assert pops[j].ref.Before(pops[|pops| - 1].ref); }
    }
    if IsPopped(s.log, m.ref) {
      var x :| 0 <= x < |s.log| && PopOf(s.log[x]) != [] && PopOf(s.log[x])[0].ref == m.ref;
      var j := PopIsAmongPops(s.log, x);
    }
  }

  lemma {:induction false} PopIsAmongPops(log: seq<Event>, x: nat) returns (j: nat)
    requires x < |log| && PopOf(log[x]) != []
    ensures j < |Pops(log)| && [Pops(log)[j]] == PopOf(log[x])
    decreases |log|
  {
    var front := log[..|log| - 1];
    if x == |front| {
      j := |Pops(front)|;
    } else {
      j := PopIsAmongPops(front, x);
    }
  }

  /** The message enters the queue, marked or not. */
  lemma {:induction false} InsertedMatches(s: State, m: Message, marked: bool, marks: set<MessageRef>)
    requires InOrder(s) && Ascending(s.queue) && Matched(s, marks) && !Stale(s, m)
    ensures var own := if marked then {m.ref} else {};
            var t := s.(marked := s.marked + own, queue := Inserted(s.queue, m));
            Ascending(t.queue) && Matched(t, marks + own)
  {
    FreshIsUnmarked(s, m, marks);
    InsertedIsAscending(s.queue, m);
    var own := if marked then {m.ref} else {};
    var t := s.(marked := s.marked + own, queue := Inserted(s.queue, m));
    forall i | 0 <= i < |t.queue| ensures t.queue[i].ref in t.marked <==> t.queue[i].ref in marks + own {
      assert t.queue[i] in t.queue;
    }
    forall r | r in marks + own ensures Queued(t.queue, r) || IsPopped(t.log, r) {
      if r == m.ref {
        assert m in t.queue;
      } else if Queued(s.queue, r) {
        var i :| 0 <= i < |s.queue| && s.queue[i].ref == r;
        assert s.queue[i] in t.queue;
      }
    }
    forall x | 0 <= x < |t.log| && PopOf(t.log[x]) != []
      ensures t.log[x].Skipped? <==> PopOf(t.log[x])[0].ref in marks + own
    {
      assert IsPopped(s.log, PopOf(t.log[x])[0].ref);
    }
  }

  lemma ArrivalMatches(s: State, m: Message, marks: set<MessageRef>)
    requires InOrder(s) && Ascending(s.queue) && Matched(s, marks) && s.maxGapRequests > 0
    ensures Matched(Added(s, m), marks)
    ensures Matched(MarkedExplicitly(s, m), marks + Marks(s, Mark(m)))
  {
    assert marks + {} == marks && s.marked + {} == s.marked;
    if !Stale(s, m) {
      InsertedMatches(s, m, false, marks);
      CheckedMatches(s.(queue := Inserted(s.queue, m)), marks);
      InsertedMatches(s, m, true, marks);
      CheckedMatches(s.(marked := s.marked + {m.ref}, queue := Inserted(s.queue, m)), marks + {m.ref});
    }
  }

  lemma RequestedMatches(s: State, marks: set<MessageRef>)
    requires Matched(s, marks) && Ascending(s.queue) && s.maxGapRequests > 0
    ensures Matched(Requested(s), marks)
  {
    if s.queue != [] && s.last.Some? {
      var to := s.queue[0].prev;
      QuietEventMatches(s, GapRequested(GapStart(s), to), marks);
      QuietEventMatches(s, GapFillFailed(GapStart(s), to), marks);
      CheckedMatches(Cleared(s.(last := to, log := s.log + [GapFillFailed(GapStart(s), to)])), marks);
    }
  }

  lemma StepMatches(s: State, op: Op, marks: set<MessageRef>)
    requires Good(s) && InOrder(s) && Matched(s, marks) && s.maxGapRequests > 0 && op != Disable
    ensures Matched(Apply(s, op), marks + Marks(s, op))
  {
    assert marks + {} == marks;
    match op {
      case Add(m) => ArrivalMatches(s, m, marks);
      case Mark(m) => ArrivalMatches(s, m, marks);
      case FirstTimer => RequestedMatches(s.(firstArmed := false), marks);
      case NextTimer => RequestedMatches(s, marks);
      case ClearGap =>
    }
  }

  lemma StepKeepsShape(s: State, op: Op)
    requires Good(s) && InOrder(s) && s.maxGapRequests > 0 && Enabled(s, op) && op != Disable
    ensures Good(Apply(s, op)) && InOrder(Apply(s, op)) && Apply(s, op).maxGapRequests > 0
  {
    ApplyIsGood(s, op);
    ApplyKeeps(s, op);
    LimitStays(s, op);
  }

  lemma Regrouped(a: set<MessageRef>, b: set<MessageRef>, c: set<MessageRef>)
    ensures (a + b) + c == a + (b + c)
  {
  }

  lemma {:induction false} RunMatches(s: State, ops: seq<Op>, marks: set<MessageRef>)
    requires Good(s) && InOrder(s) && Matched(s, marks) && s.maxGapRequests > 0
    requires AllEnabled(s, ops) && Disable !in ops
    ensures Matched(After(s, ops), marks + MarkedBy(s, ops))
    decreases |ops|
  {
    if ops == [] {
      assert marks + {} == marks;
    } else {
      assert ops == [ops[0]] + ops[1..];
      StepMatches(s, ops[0], marks);
      StepKeepsShape(s, ops[0]);
      RunMatches(Apply(s, ops[0]), ops[1..], marks + Marks(s, ops[0]));
      Regrouped(marks, Marks(s, ops[0]), MarkedBy(Apply(s, ops[0]), ops[1..]));
    }
  }

  /** With gap handling enabled throughout, a message that leaves the queue is skipped if it was marked
      explicitly, and delivered if it was not.
   */
  lemma {:induction false} SkippedIffMarked(maxGapRequests: nat, ops: seq<Op>, x: nat)
    requires maxGapRequests > 0 && AllEnabled(Initial(maxGapRequests), ops) && Disable !in ops
    requires var log := After(Initial(maxGapRequests), ops).log; x < |log| && PopOf(log[x]) != []
    ensures var log := After(Initial(maxGapRequests), ops).log;
            log[x].Skipped? <==> PopOf(log[x])[0].ref in MarkedBy(Initial(maxGapRequests), ops)
  {
    var s := Initial(maxGapRequests);
    InitialIsGood(maxGapRequests);
    RunMatches(s, ops, {});
    assert {} + MarkedBy(s, ops) == MarkedBy(s, ops);
  }

  /** Marking does not make a message the next one: where nothing is queued it leaves the queue at once exactly
      if it is unchained or linked to the last ordered reference, and blocks the chain otherwise.
   */
  lemma MarkedMessageWaitsToo(s: State, m: Message)
    requires s.queue == [] && s.last.Some? && !Stale(s, m) && s.maxGapRequests > 0
    ensures var t := MarkedExplicitly(s, m);
            if m.prev.None? || m.prev == s.last then t.queue == [] && t.last == Some(m.ref)
            else t.queue == [m] && t.last == s.last && t.hasPendingGap
  {
    var u := s.(marked := s.marked + {m.ref}, queue := [m]);
    if m.prev.Some? { CompareIsEquality(m.prev.value, s.last.value); }
    CompareIsEquality(m.ref, s.last.value);
    assert Added(s.(marked := s.marked + {m.ref}), m) == Checked(u);
    if HasNext(u) { assert PoppedAll(u) == PoppedAll(Popped(u)) == Popped(u); }
  }

  // ---------- without gap handling ----------

  /** Nothing but deliveries and drains from event n on. */
  ghost predicate OnlyDelivers(log: seq<Event>, n: nat) {
    forall x :: n <= x < |log| ==> log[x].Delivered? || log[x].Drained?
  }

  lemma {:induction false} PoppedAllOnlyDelivers(s: State, n: nat)
    requires s.maxGapRequests == 0 && OnlyDelivers(s.log, n)
    ensures OnlyDelivers(PoppedAll(s).log, n) && PoppedAll(s).maxGapRequests == 0
    decreases |s.queue|
  {
    if HasNext(s) { PoppedAllOnlyDelivers(Popped(s), n); }
  }

  lemma CheckedOnlyDelivers(s: State, n: nat)
    requires s.maxGapRequests == 0 && OnlyDelivers(s.log, n)
    ensures OnlyDelivers(Checked(s).log, n) && Checked(s).maxGapRequests == 0
  {
    PoppedAllOnlyDelivers(s, n);
  }

  lemma StepOnlyDelivers(s: State, op: Op, n: nat)
    requires s.maxGapRequests == 0 && OnlyDelivers(s.log, n)
    ensures OnlyDelivers(Apply(s, op).log, n) && Apply(s, op).maxGapRequests == 0
  {
    match op {
      case Add(m) => ArrivalOnlyDelivers(s, m, n);
      case Mark(m) => ArrivalOnlyDelivers(s, m, n);
      case FirstTimer => RequestedOnlyDelivers(s.(firstArmed := false), n);
      case NextTimer => RequestedOnlyDelivers(s, n);
      case Disable => CheckedOnlyDelivers(Cleared(s.(maxGapRequests := 0)), n);
      case ClearGap =>
    }
  }

  lemma ArrivalOnlyDelivers(s: State, m: Message, n: nat)
    requires s.maxGapRequests == 0 && OnlyDelivers(s.log, n)
    ensures OnlyDelivers(Added(s, m).log, n) && Added(s, m).maxGapRequests == 0
    ensures OnlyDelivers(MarkedExplicitly(s, m).log, n) && MarkedExplicitly(s, m).maxGapRequests == 0
  {
    CheckedOnlyDelivers(s.(marked := s.marked + {m.ref}, queue := Inserted(s.queue, m)), n);
    CheckedOnlyDelivers(s.(marked := s.marked + {m.ref} + {m.ref}, queue := Inserted(s.queue, m)), n);
  }

  lemma RequestedOnlyDelivers(s: State, n: nat)
    requires s.maxGapRequests == 0 && OnlyDelivers(s.log, n)
    ensures OnlyDelivers(Requested(s).log, n) && Requested(s).maxGapRequests == 0
  {
    if s.queue != [] && s.last.Some? { CheckedOnlyDelivers(Cleared(s.(last := s.queue[0].prev)), n); }
  }

  /** Once gap handling has been disabled nothing is requested, reported as failed or skipped any more. */
  lemma {:induction false} DisabledChainOnlyDelivers(s: State, ops: seq<Op>, n: nat)
    requires s.maxGapRequests == 0 && OnlyDelivers(s.log, n)
    ensures OnlyDelivers(After(s, ops).log, n)
    decreases |ops|
  {
    if ops != [] {
      StepOnlyDelivers(s, ops[0], n);
      DisabledChainOnlyDelivers(Apply(s, ops[0]), ops[1..], n);
    }
  }

  // ---------- a drain counts what was popped ----------

  /** Event x is a drain only right after as many pops as it reports, at least two. */
  ghost predicate CountsPops(log: seq<Event>, x: nat)
    requires x < |log|
  {
    log[x].Drained? ==> 2 <= log[x].count <= x && forall i :: x - log[x].count <= i < x ==> PopOf(log[i]) != []
  }

  ghost predicate AllCountPops(log: seq<Event>) {
    forall x :: 0 <= x < |log| ==> CountsPops(log, x)
  }

  lemma CountsPopsMore(log: seq<Event>, e: Event)
    requires AllCountPops(log)
    requires e.Drained? ==>
               2 <= e.count <= |log| && forall i :: |log| - e.count <= i < |log| ==> PopOf(log[i]) != []
    ensures AllCountPops(log + [e])
  {
    var more := log + [e];
    forall x | 0 <= x < |more| ensures CountsPops(more, x) {
      if x < |log| { assert CountsPops(log, x) && more[x] == log[x]; }
    }
  }

  /** Popping logs one pop for each message gone, and nothing else. */
  lemma {:induction false} PoppedAllLogsPops(s: State)
    requires AllCountPops(s.log)
    ensures var t := PoppedAll(s);
            && AllCountPops(t.log)
            && |t.log| == |s.log| + |s.queue| - |t.queue| && |t.queue| <= |s.queue|
            && s.log <= t.log
            && forall i :: |s.log| <= i < |t.log| ==> PopOf(t.log[i]) != []
    decreases |s.queue|
  {
    if HasNext(s) {
      var u := Popped(s);
      CountsPopsMore(s.log, u.log[|s.log|]);
      PoppedAllLogsPops(u);
    }
  }

  lemma CheckedCountsPops(s: State)
    requires AllCountPops(s.log)
    ensures AllCountPops(Checked(s).log)
  {
    PoppedAllLogsPops(s);
    var t := PoppedAll(s);
    var e := Drained(|s.queue| - |t.queue|);
    if t.queue == [] && e.count > 1 { CountsPopsMore(t.log, e); }
  }

  lemma RequestedCountsPops(s: State)
    requires AllCountPops(s.log)
    ensures AllCountPops(Requested(s).log)
  {
    if s.queue != [] && s.last.Some? {
      var to := s.queue[0].prev;
      CountsPopsMore(s.log, GapRequested(GapStart(s), to));
      CountsPopsMore(s.log, GapFillFailed(GapStart(s), to));
      CheckedCountsPops(Cleared(s.(last := to, log := s.log + [GapFillFailed(GapStart(s), to)])));
      CheckedCountsPops(Cleared(s.(last := to)));
    }
  }

  lemma ArrivalCountsPops(s: State, m: Message)
    requires AllCountPops(s.log)
    ensures AllCountPops(Added(s, m).log) && AllCountPops(MarkedExplicitly(s, m).log)
  {
    if !Stale(s, m) {
      var marked := if s.maxGapRequests > 0 then s.marked else s.marked + {m.ref};
      CheckedCountsPops(s.(marked := marked, queue := Inserted(s.queue, m)));
      CheckedCountsPops(s.(marked := s.marked + {m.ref}, queue := Inserted(s.queue, m)));
      CheckedCountsPops(s.(marked := s.marked + {m.ref} + {m.ref}, queue := Inserted(s.queue, m)));
    }
  }

  /** Over every run a drain is emitted only after at least two messages were popped in a row, and reports
      how many.
   */
  lemma {:induction false} DrainsCountPops(s: State, ops: seq<Op>)
    requires AllCountPops(s.log)
    ensures AllCountPops(After(s, ops).log)
    decreases |ops|
  {
    if ops != [] {
      match ops[0] {
        case Add(m) => ArrivalCountsPops(s, m);
        case Mark(m) => ArrivalCountsPops(s, m);
        case FirstTimer => RequestedCountsPops(s.(firstArmed := false));
        case NextTimer => RequestedCountsPops(s);
        case Disable => CheckedCountsPops(Cleared(s.(maxGapRequests := 0)));
        case ClearGap =>
      }
      DrainsCountPops(Apply(s, ops[0]), ops[1..]);
    }
  }
}
