/** What the throttler promises for one stream, over every run of arriving instructions, settling
    handler calls, removals of the stream, and a stop.
 */
module ThrottlerGuarantees {
  import opened Options
  import opened InstructionThrottlers

  datatype Op = Add(instruction: Instruction) | Remove | Stop | Settle(p: nat)

  ghost predicate Enabled(s: Slot, op: Op) {
    op.Settle? ==> op.p < |s.promises| && !s.promises[op.p].done
  }

  ghost function Apply(s: Slot, op: Op): Slot
    requires Enabled(s, op)
  {
    match op
    case Add(instruction) => AddedTo(s, instruction)
    case Remove => RemovedFrom(s)
    case Stop => StoppedIn(s)
    case Settle(p) => Finished(s, p)
  }

  ghost predicate AllEnabled(s: Slot, ops: seq<Op>)
    decreases |ops|
  {
    ops == [] || (Enabled(s, ops[0]) && AllEnabled(Apply(s, ops[0]), ops[1..]))
  }

  ghost function After(s: Slot, ops: seq<Op>): Slot
    requires AllEnabled(s, ops)
    decreases |ops|
  {
    if ops == [] then s else After(Apply(s, ops[0]), ops[1..])
  }

  // ---------- the invariant ----------

  predicate Running(h: Handling) {
    !h.cancelled && !h.done
  }

  ghost predicate OneRuns(promises: seq<Handling>, ongoing: Option<Ongoing>) {
    && (ongoing.Some? ==> ongoing.value.promise.Some? && ongoing.value.promise.value < |promises|)
    && forall p {:trigger promises[p]} :: 0 <= p < |promises| ==>
        (Running(promises[p]) <==> ongoing == Some(Ongoing(Some(p), true)))
  }

  predicate Follows(before: Event, e: Event) {
    match e
    case Handled(i) => before == Accepted(i)
    case Accepted(i) => before.Removed? || before.instruction.counter <= i.counter
    case Removed => true
  }

  /** An instruction is handled right after it was accepted, with nothing accepted in between, and
      counters do not decrease between removals.
   */
  ghost predicate Legal(log: seq<Event>) {
    && (log != [] ==> !log[0].Handled?)
    && forall k {:trigger log[k]} :: 0 < k < |log| ==> Follows(log[k - 1], log[k])
  }

  /** Queue and counter are what the log ends with. */
  ghost predicate Current(log: seq<Event>, queued: Option<Instruction>, counter: Option<nat>) {
    if log == [] || log[|log| - 1].Removed? then queued.None? && counter.None?
    else
      var last := log[|log| - 1];
      && counter == Some(last.instruction.counter)
      && queued == if last.Accepted? then Some(last.instruction) else None
  }

  ghost predicate Inv(s: Slot) {
    && OneRuns(s.promises, s.ongoing)
    && Legal(s.log)
    && Current(s.log, s.queued, s.counter)
    && (s.queued.Some? ==> Busy(s))
    && (s.counter.None? <==> s.ongoing.None?)
    && (s.stopped ==> s.counter.None?)
  }

  lemma LegalMore(log: seq<Event>, e: Event)
    requires Legal(log) && (if log == [] then !e.Handled? else Follows(log[|log| - 1], e))
    ensures Legal(log + [e])
  {
    var more := log + [e];
    forall k | 0 < k < |more| ensures Follows(more[k - 1], more[k]) {
      if k < |log| { assert Follows(log[k - 1], log[k]); }
    }
  }

  lemma AcceptKeeps(s: Slot, instruction: Instruction)
    requires Inv(s) && !s.stopped && Accepts(s.counter, instruction)
    ensures Inv(AddedTo(s, instruction))
  {
    LegalMore(s.log, Accepted(instruction));
    var t := AcceptedBy(s, instruction);
    if !Busy(t) {
      LegalMore(t.log, Handled(instruction));
      assert OneRuns(Invoked(t).promises, Invoked(t).ongoing);
    }
  }

  lemma SettleKeeps(s: Slot, p: nat)
    requires Inv(s) && p < |s.promises| && !s.promises[p].done
    ensures Inv(Finished(s, p))
  {
    if Running(s.promises[p]) && s.queued.Some? {
      LegalMore(s.log, Handled(s.queued.value));
    }
  }

  lemma DropKeeps(s: Slot)
    requires Inv(s)
    ensures Inv(Dropped(s))
  {
    LegalMore(s.log, Removed);
  }

  lemma StepKeeps(s: Slot, op: Op)
    requires Inv(s) && Enabled(s, op)
    ensures Inv(Apply(s, op))
  {
    match op {
      case Add(instruction) => if !s.stopped && Accepts(s.counter, instruction) { AcceptKeeps(s, instruction); }
      case Settle(p) => SettleKeeps(s, p);
      case _ => DropKeeps(s);
    }
  }

  lemma {:induction false} EveryRunKeeps(s: Slot, ops: seq<Op>)
    requires Inv(s) && AllEnabled(s, ops)
    ensures Inv(After(s, ops))
    decreases |ops|
  {
    if ops != [] {
      StepKeeps(s, ops[0]);
      EveryRunKeeps(Apply(s, ops[0]), ops[1..]);
    }
  }

  lemma EmptyIsInv()
    ensures Inv(Empty())
  {
  }

  // ---------- what it means ----------

  lemma AtMostOneRuns(s: Slot, p: nat, q: nat)
    requires Inv(s) && p < |s.promises| && q < |s.promises| && Running(s.promises[p]) && Running(s.promises[q])
    ensures p == q && Busy(s)
  {
  }

  /** Between removals counters never decrease, neither of accepted nor of handled instructions. */
  lemma {:induction false} CountersNeverDecrease(log: seq<Event>, j: nat, k: nat)
    requires Legal(log) && j <= k < |log| && forall x :: j <= x <= k ==> !log[x].Removed?
    ensures log[j].instruction.counter <= log[k].instruction.counter
    decreases k
  {
    if j < k {
      CountersNeverDecrease(log, j, k - 1);
      assert Follows(log[k - 1], log[k]);
    }
  }

  /** What becomes of an accepted instruction: handled, superseded by one at least as new, dropped
      with its stream, or still waiting behind a running call.
   */
  lemma OnlySupersededAreSkipped(s: Slot, k: nat)
    requires Inv(s) && k < |s.log| && s.log[k].Accepted?
    ensures if k + 1 == |s.log| then s.queued == Some(s.log[k].instruction) && Busy(s)
            else match s.log[k + 1]
                 case Handled(i) => i == s.log[k].instruction
                 case Accepted(i) => s.log[k].instruction.counter <= i.counter
                 case Removed => true
  {
    if k + 1 < |s.log| { assert Follows(s.log[k], s.log[k + 1]); }
  }

  /** When nothing is being handled nothing waits, and the last handled is the last accepted. */
  lemma IdleIsCaughtUp(s: Slot)
    requires Inv(s) && !Busy(s)
    ensures s.queued.None?
    ensures var n := |s.log|;
            n > 0 && !s.log[n - 1].Removed? ==>
              n > 1 && s.log[n - 1].Handled? && s.log[n - 2] == Accepted(s.log[n - 1].instruction)
              && s.counter == Some(s.log[n - 1].instruction.counter)
  {
    var n := |s.log|;
    if n > 1 { assert Follows(s.log[n - 2], s.log[n - 1]); }
  }

  /** An instruction is taken exactly when it is not older than the last one taken; the stored zero
      that counts as no counter makes no difference.
   */
  lemma TakenIffNotOlder(s: Slot, instruction: Instruction)
    requires Inv(s)
    ensures Accepted(instruction) in AddedTo(s, instruction).log[|s.log|..] <==>
            !s.stopped && (s.log == [] || s.log[|s.log| - 1].Removed?
                || s.log[|s.log| - 1].instruction.counter <= instruction.counter)
  {
    var t := AddedTo(s, instruction);
    if !s.stopped && Accepts(s.counter, instruction) {
      assert t.log[|s.log|] == Accepted(instruction);
      assert t.log[|s.log|..][0] == Accepted(instruction);
    }
  }

  /** Left alone, a busy stream is idle after its running call and at most one more have settled. */
  lemma TwoCallsLater(s: Slot, p: nat)
    requires Inv(s) && p < |s.promises| && Running(s.promises[p])
    ensures var t := Finished(s, p);
            if s.queued.None? then !Busy(t)
            else
              && |t.promises| == |s.promises| + 1 && t.promises[|s.promises|] == Handling(s.queued.value, false, false)
              && !Busy(Finished(t, |s.promises|))
  {
  }

  // ---------- calls that overlap ----------

  ghost predicate Unsettled(s: Slot, p: nat) {
    p < |s.promises| && !s.promises[p].done
  }

  /** Two calls of the handler are both unsettled. */
  ghost predicate Overlap(s: Slot) {
    exists p: nat, q: nat :: p != q && Unsettled(s, p) && Unsettled(s, q)
  }

  /** One at a time fails once a stream has been removed while an instruction of it was handled. */
  lemma RemovalLetsCallsOverlap(first: Instruction, second: Instruction)
    ensures var ops := [Add(first), Remove, Add(second)];
            AllEnabled(Empty(), ops) && Overlap(After(Empty(), ops))
  {
    var busy := AddedTo(Empty(), first);
    var s := RemovedFrom(busy);
    var t := AddedTo(s, second);
    var ops := [Add(first), Remove, Add(second)];
    assert ops[1..] == [Remove, Add(second)] && ops[1..][1..] == [Add(second)];
    assert AllEnabled(t, []) && AllEnabled(s, [Add(second)]);
    assert After(s, [Add(second)]) == After(t, []) == t;
    assert AllEnabled(busy, ops[1..]) && After(busy, ops[1..]) == t;
    assert Unsettled(t, 0) && Unsettled(t, 1);
  }

  /** Calls begin to overlap exactly where an instruction is taken for a stream that is not busy
      while a call that a removal cancelled has not settled.
   */
  lemma OverlapBegins(s: Slot, op: Op)
    requires Inv(s) && Enabled(s, op) && !Overlap(s)
    ensures Overlap(Apply(s, op)) <==>
            op.Add? && !s.stopped && Accepts(s.counter, op.instruction) && !Busy(s)
            && exists p: nat :: Unsettled(s, p)
  {
    var t, n := Apply(s, op), |s.promises|;
    forall p: nat | p < n ensures Unsettled(t, p) ==> Unsettled(s, p) {}
    if op.Add? && !s.stopped && Accepts(s.counter, op.instruction) && !Busy(s) {
      assert t.promises == s.promises + [Handling(op.instruction, false, false)];
      assert Unsettled(t, n);
      forall p: nat | p < n ensures Unsettled(t, p) <==> Unsettled(s, p) {}
    } else if op.Settle? {
      assert Unsettled(s, op.p) && !Unsettled(t, op.p);
    }
  }

  /** How many calls a log tells of. */
  function Calls(log: seq<Event>): nat {
    if log == [] then 0 else Calls(log[..|log| - 1]) + if log[|log| - 1].Handled? then 1 else 0
  }

  lemma {:induction false} CallsMore(log: seq<Event>, e: Event)
    ensures Calls(log + [e]) == Calls(log) + if e.Handled? then 1 else 0
  {
    assert (log + [e])[..|log|] == log;
  }

  /** Call p had been made, and call q had not, when the stream was removed or the throttler stopped. */
  ghost predicate RemovedBetween(log: seq<Event>, p: nat, q: nat) {
    exists x :: 0 <= x < |log| && log[x].Removed? && p < Calls(log[..x]) <= q
  }

  lemma {:induction false} RemovedBetweenMore(log: seq<Event>, e: Event, p: nat, q: nat)
    ensures RemovedBetween(log, p, q) ==> RemovedBetween(log + [e], p, q)
    ensures e.Removed? && p < Calls(log) <= q ==> RemovedBetween(log + [e], p, q)
  {
    var more := log + [e];
    assert more[..|log|] == log;
    if RemovedBetween(log, p, q) {
      var x :| 0 <= x < |log| && log[x].Removed? && p < Calls(log[..x]) <= q;
      assert more[x] == log[x] && more[..x] == log[..x];
    }
    if e.Removed? && p < Calls(log) <= q { assert more[|log|] == e; }
  }

  /** Only the last call can be the running one; a removal has come after any other that has not
      settled, and before the next one.
   */
  ghost predicate Separated(s: Slot) {
    && Calls(s.log) == |s.promises|
    && (forall p {:trigger s.promises[p]} :: 0 <= p < |s.promises| && Running(s.promises[p]) ==>
          p == |s.promises| - 1)
    && (forall p: nat :: Unsettled(s, p) && !Running(s.promises[p]) ==> RemovedBetween(s.log, p, |s.promises|))
    && forall p: nat, q: nat :: p < q && Unsettled(s, p) && Unsettled(s, q) ==> RemovedBetween(s.log, p, q)
  }

  /** The log grows by one event that is not a call; no call is made, and none is cancelled unless the
      event is a removal.
   */
  lemma QuietlySeparates(s: Slot, e: Event, t: Slot)
    requires Separated(s) && !e.Handled? && t.log == s.log + [e] && |t.promises| == |s.promises|
    requires forall p {:trigger t.promises[p]} :: 0 <= p < |s.promises| ==>
               t.promises[p].done == s.promises[p].done
               && (t.promises[p].cancelled == s.promises[p].cancelled || (e.Removed? && t.promises[p].cancelled))
    ensures Separated(t)
  {
    CallsMore(s.log, e);
    forall p: nat, q: nat
      ensures RemovedBetween(s.log, p, q) ==> RemovedBetween(t.log, p, q)
      ensures e.Removed? && p < |s.promises| <= q ==> RemovedBetween(t.log, p, q)
    {
      RemovedBetweenMore(s.log, e, p, q);
    }
    forall p: nat | Unsettled(t, p) ensures Unsettled(s, p) {}
  }

  /** A call is made only when none is running. */
  lemma InvokingSeparates(s: Slot)
    requires Separated(s) && forall p {:trigger s.promises[p]} :: 0 <= p < |s.promises| ==> !Running(s.promises[p])
    ensures Separated(Invoked(s))
  {
    if !s.stopped && s.queued.Some? {
      var e, t, n := Handled(s.queued.value), Invoked(s), |s.promises|;
      CallsMore(s.log, e);
      forall p: nat, q: nat ensures RemovedBetween(s.log, p, q) ==> RemovedBetween(t.log, p, q) {
        RemovedBetweenMore(s.log, e, p, q);
      }
      forall p: nat | Unsettled(t, p) && p < n
        ensures Unsettled(s, p) && RemovedBetween(t.log, p, n) && RemovedBetween(t.log, p, n + 1)
      {
        assert Unsettled(s, p);
        assert RemovedBetween(t.log, p, n);
      }
    }
  }

  lemma SettlingSeparates(s: Slot, p: nat)
    requires Inv(s) && Separated(s) && Unsettled(s, p)
    ensures Separated(Finished(s, p))
  {
    var t := s.(promises := s.promises[p := s.promises[p].(done := true)]);
    forall x: nat | Unsettled(t, x) ensures Unsettled(s, x) {}
    assert Separated(t);
    if !s.promises[p].cancelled { InvokingSeparates(t); }
  }

  lemma StepSeparates(s: Slot, op: Op)
    requires Inv(s) && Separated(s) && Enabled(s, op)
    ensures Separated(Apply(s, op))
  {
    match op {
      case Add(instruction) =>
        if !s.stopped && Accepts(s.counter, instruction) {
          var t := AcceptedBy(s, instruction);
          QuietlySeparates(s, Accepted(instruction), t);
          if !Busy(t) { InvokingSeparates(t); }
        }
      case Settle(p) => SettlingSeparates(s, p);
      case _ => QuietlySeparates(s, Removed, Dropped(s));
    }
  }

  lemma {:induction false} EveryRunSeparates(s: Slot, ops: seq<Op>)
    requires Inv(s) && Separated(s) && AllEnabled(s, ops)
    ensures Inv(After(s, ops)) && Separated(After(s, ops))
    decreases |ops|
  {
    if ops != [] {
      StepKeeps(s, ops[0]);
      StepSeparates(s, ops[0]);
      EveryRunSeparates(Apply(s, ops[0]), ops[1..]);
    }
  }

  /** Over every run: two calls are both unsettled only where the stream was removed, or the throttler
      stopped, after the one was made and before the other; the earlier one is then cancelled.
   */
  lemma {:induction false} OverlapNeedsRemoval(ops: seq<Op>, p: nat, q: nat)
    requires AllEnabled(Empty(), ops)
    requires var s := After(Empty(), ops); p < q && Unsettled(s, p) && Unsettled(s, q)
    ensures var s := After(Empty(), ops);
            s.promises[p].cancelled && RemovedBetween(s.log, p, q)
  {
    EmptyIsInv();
    EveryRunSeparates(Empty(), ops);
  }
}
