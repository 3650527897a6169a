/** What the send queue promises over every run of sends, flushes, backpressure signals, channel
    losses, closes and replacements of the connection.
 */
module SendGuarantees {
  import opened Options
  import opened Sequences
  import opened SendQueues

  datatype Op =
    | Send(length: nat)
    | Immediate(answers: nat -> Answer)
    | Timeout(answers: nat -> Answer)
    | Open
    | Lose
    | LowBuffer
    | Close
    | Reconnect
    | Clear

  ghost function Apply(s: State, op: Op): State {
    match op
    case Send(length) => SendCalled(s, length)
    case Immediate(answers) => ImmediateFired(s, answers)
    case Timeout(answers) => TimeoutFired(s, answers)
    case Open => Opened(s)
    case Lose => ChannelLost(s)
    case LowBuffer => LowBackpressure(s)
    case Close => Closed(s)
    case Reconnect => Replaced(s)
    case Clear => QueueCleared(s)
  }

  /** Timers fire only while set; only a finished connection is replaced. */
  ghost predicate Enabled(s: State, op: Op) {
    match op
    case Immediate(_) => s.flushRef
    case Timeout(_) => s.flushTimeout
    case Reconnect => s.finished
    case _ => true
  }

  ghost function After(s: State, ops: seq<Op>): State
    decreases |ops|
  {
    if ops == [] then s else After(Apply(s, ops[0]), ops[1..])
  }

  ghost predicate AllEnabled(s: State, ops: seq<Op>)
    decreases |ops|
  {
    ops == [] || (Enabled(s, ops[0]) && AllEnabled(Apply(s, ops[0]), ops[1..]))
  }

  // ---------- first in, first out, nothing lost ----------

  function RemovalOf(e: Event): seq<nat> {
    match e
    case Sent(no, _) => [no]
    case Dropped(no) => [no]
    case Lost(nos) => nos
    case _ => []
  }

  /** The numbers of the messages sent, reported failed or lost, oldest first. */
  function Removed(log: seq<Event>): seq<nat> {
    if log == [] then [] else Removed(log[..|log| - 1]) + RemovalOf(log[|log| - 1])
  }

  lemma {:induction false} RemovedMore(log: seq<Event>, e: Event)
    ensures Removed(log + [e]) == Removed(log) + RemovalOf(e)
  {
    assert (log + [e])[..|log|] == log;
  }

  /** Failed attempts to send message no. */
  function Attempts(log: seq<Event>, no: nat): nat {
    if log == [] then 0
    else
      Attempts(log[..|log| - 1], no)
      + if log[|log| - 1].AttemptFailed? && log[|log| - 1].no == no then 1 else 0
  }

  lemma {:induction false} AttemptsMore(log: seq<Event>, e: Event, no: nat)
    ensures Attempts(log + [e], no) == Attempts(log, no) + if e.AttemptFailed? && e.no == no then 1 else 0
  {
    assert (log + [e])[..|log|] == log;
  }

  /** Every message ever added is either out, in order, or still queued, in order. */
  ghost predicate Conserved(s: State) {
    Accounted(s.log, s.queue, s.nextNumber)
  }

  ghost predicate Accounted(log: seq<Event>, queue: seq<Item>, next: nat) {
    Removed(log) + Nos(queue) == UpTo(next)
  }

  /** A queued message has not failed yet; its tries are its failed attempts. */
  ghost predicate Fresh(log: seq<Event>, item: Item) {
    !item.failed && item.tries < MAX_TRIES && Attempts(log, item.no) == item.tries
  }

  ghost predicate Tracked(log: seq<Event>, queue: seq<Item>, next: nat) {
    && (forall i {:trigger queue[i]} :: 0 <= i < |queue| ==> Fresh(log, queue[i]))
    && (forall no: nat {:trigger Attempts(log, no)} ::
        Attempts(log, no) <= MAX_TRIES && (no >= next ==> Attempts(log, no) == 0))
  }

  ghost predicate Sound(s: State) {
    && |s.queue| <= s.maxSize
    && Conserved(s)
    && Tracked(s.log, s.queue, s.nextNumber)
  }

  lemma QueueNumbers(s: State, i: nat, j: nat)
    requires Conserved(s) && i < j < |s.queue|
    ensures s.queue[i].no < s.queue[j].no < s.nextNumber
  {
    var r := |Removed(s.log)|;
    var all := Removed(s.log) + Nos(s.queue);
    assert all[r + i] == s.queue[i].no && all[r + j] == s.queue[j].no;
    assert all == UpTo(s.nextNumber);
  }

  lemma HeadRemoved(log: seq<Event>, queue: seq<Item>, next: nat, e: Event)
    requires Accounted(log, queue, next) && queue != [] && RemovalOf(e) == [queue[0].no]
    ensures Accounted(log + [e], queue[1..], next)
  {
    RemovedMore(log, e);
    NosOfRest(queue);
    MovedAcross(Removed(log), RemovalOf(e), Nos(queue[1..]));
  }

  lemma MovedAcross(a: seq<nat>, b: seq<nat>, c: seq<nat>)
    ensures (a + b) + c == a + (b + c)
  {
  }

  lemma {:induction false} NosOfRest(queue: seq<Item>)
    requires queue != []
    ensures Nos(queue) == [queue[0].no] + Nos(queue[1..])
  {
  }

  lemma OtherEvent(log: seq<Event>, queue: seq<Item>, next: nat, e: Event)
    requires Accounted(log, queue, next) && RemovalOf(e) == []
    ensures Accounted(log + [e], queue, next)
  {
    RemovedMore(log, e);
  }

  lemma TrackedMore(log: seq<Event>, queue: seq<Item>, next: nat, e: Event)
    requires Tracked(log, queue, next) && !e.AttemptFailed?
    ensures Tracked(log + [e], queue, next)
  {
    forall no ensures Attempts(log + [e], no) == Attempts(log, no) { AttemptsMore(log, e, no); }
  }

  lemma TrackedRest(log: seq<Event>, queue: seq<Item>, next: nat)
    requires Tracked(log, queue, next) && queue != []
    ensures Tracked(log, queue[1..], next)
  {
    forall i | 0 <= i < |queue[1..]| ensures Fresh(log, queue[1..][i]) { assert Fresh(log, queue[i + 1]); }
  }

  lemma HeadLeaves(s: State, e: Event)
    requires Sound(s) && s.queue != [] && RemovalOf(e) == [s.queue[0].no]
    ensures Sound(Log(s.(queue := s.queue[1..]), e))
  {
    HeadRemoved(s.log, s.queue, s.nextNumber, e);
    TrackedRest(s.log, s.queue, s.nextNumber);
    TrackedMore(s.log, s.queue[1..], s.nextNumber, e);
  }

  lemma QuietEvent(s: State, e: Event)
    requires Sound(s) && RemovalOf(e) == [] && !e.AttemptFailed?
    ensures Sound(Log(s, e))
  {
    OtherEvent(s.log, s.queue, s.nextNumber, e);
    TrackedMore(s.log, s.queue, s.nextNumber, e);
  }

  lemma NewItemIsSound(s: State, length: nat)
    requires Sound(s) && |s.queue| < s.maxSize
    ensures Sound(s.(queue := s.queue + [Item(s.nextNumber, length, 0, false)], nextNumber := s.nextNumber + 1))
  {
    var item := Item(s.nextNumber, length, 0, false);
    NewItemIsAccounted(s.log, s.queue, item);
    NewItemIsTracked(s.log, s.queue, item);
  }

  lemma NewItemIsAccounted(log: seq<Event>, queue: seq<Item>, item: Item)
    requires Accounted(log, queue, item.no)
    ensures Accounted(log, queue + [item], item.no + 1)
  {
    assert Nos(queue + [item]) == Nos(queue) + [item.no];
    assert UpTo(item.no + 1) == UpTo(item.no) + [item.no];
    MovedAcross(Removed(log), Nos(queue), [item.no]);
  }

  lemma NewItemIsTracked(log: seq<Event>, queue: seq<Item>, item: Item)
    requires Tracked(log, queue, item.no) && item.tries == 0 && !item.failed
    ensures Tracked(log, queue + [item], item.no + 1)
  {
    var more := queue + [item];
    assert Attempts(log, item.no) == 0;
    forall i | 0 <= i < |more| ensures Fresh(log, more[i]) {
      if i < |queue| { assert Fresh(log, queue[i]); }
    }
  }

  lemma AddedIsSound(s: State, length: nat)
    requires Sound(s)
    ensures Sound(AddedTo(s, length))
  {
    if |s.queue| < s.maxSize {
      NewItemIsSound(s, length);
    } else if s.queue != [] {
      HeadLeaves(s, Dropped(s.queue[0].no));
      NewItemIsSound(HeadDropped(s), length);
    }
  }

  lemma SendIsSound(s: State, length: nat)
    requires Sound(s)
    ensures Sound(SendCalled(s, length))
  {
    AddedIsSound(s.(flushRef := true), length);
  }

  /** A failed attempt is charged to the head; the tenth one takes it out. */
  lemma FailureIsSound(s: State, atThreshold: bool)
    requires Sound(s) && s.queue != []
    ensures Sound(AttemptFailedAt(s, atThreshold))
  {
    var head := s.queue[0];
    var e := AttemptFailed(head.no, atThreshold);
    var t := FailureCounted(s, atThreshold);
    assert Fresh(s.log, head);
    assert Nos(t.queue) == Nos(s.queue);
    OtherEvent(s.log, s.queue, s.nextNumber, e);
    forall no ensures Attempts(t.log, no) == Attempts(s.log, no) + if no == head.no then 1 else 0 {
      AttemptsMore(s.log, e, no);
    }
    HeadIsKnown(s);
    forall i | 1 <= i < |s.queue| ensures Fresh(t.log, t.queue[i]) {
      QueueNumbers(s, 0, i);
      assert Fresh(s.log, s.queue[i]);
    }
    assert Tracked(t.log, s.queue[1..], s.nextNumber) by {
      forall i | 0 <= i < |s.queue[1..]| ensures Fresh(t.log, s.queue[1..][i]) { assert Fresh(t.log, t.queue[i + 1]); }
    }
    if Tried(head).failed {
      HeadRemoved(t.log, t.queue, t.nextNumber, Dropped(head.no));
      TrackedMore(t.log, s.queue[1..], s.nextNumber, Dropped(head.no));
      assert t.queue[1..] == s.queue[1..];
    }
  }

  lemma HeadIsKnown(s: State)
    requires Conserved(s) && s.queue != []
    ensures s.queue[0].no < s.nextNumber
  {
    var all := Removed(s.log) + Nos(s.queue);
    assert all[|Removed(s.log)|] == s.queue[0].no;
    assert all == UpTo(s.nextNumber);
  }

  lemma AttemptIsSound(s: State, a: Answer)
    requires Sound(s) && s.queue != []
    ensures Sound(Attempted(s, a).0)
  {
    var t := s.(open := s.open && a.stillOpen);
    assert Sound(t);
    if a.result == Accepted && t.open {
      HeadLeaves(t, Sent(t.queue[0].no, a.atThreshold));
    } else {
      FailureIsSound(t, a.atThreshold);
    }
  }

  lemma HeadIsFresh(s: State)
    requires Sound(s) && s.queue != []
    ensures !s.queue[0].failed
  {
    assert Fresh(s.log, s.queue[0]);
  }

  /** In a sound state the head has never failed: the branch that pops failed items is dead. */
  lemma RoundIsSound(s: State, a: Answer)
    requires Sound(s) && s.queue != []
    ensures !s.queue[0].failed && Sound(RoundOf(s, a).0)
  {
    HeadIsFresh(s);
    if s.queue[0].length > a.maxMessageSize {
      HeadLeaves(s, Dropped(s.queue[0].no));
    } else if s.paused {
      assert RoundOf(s, a).0 == s;
    } else if a.atThreshold {
      QuietEvent(s.(paused := true), BufferHigh);
    } else {
      AttemptIsSound(s, a);
    }
  }

  lemma {:induction false} FlushIsSound(s: State, answers: nat -> Answer, k: nat, sent: nat)
    requires Sound(s)
    ensures Sound(Flushed(s, answers, k, sent))
    decreases |s.queue|, TriesLeft(s.queue)
  {
    if !s.finished && s.queue != [] && s.open && sent < MAX_BATCH {
      RoundIsSound(s, answers(k));
      RoundMakesProgress(s, answers(k));
      var (t, r) := RoundOf(s, answers(k));
      if r.Continue? { FlushIsSound(t, answers, k + 1, if r.sent then sent + 1 else sent); }
    }
  }

  lemma InOnePart(a: seq<nat>, b: seq<nat>, n: nat, no: nat)
    requires a + b == UpTo(n)
    ensures no in b <==> no < n && no !in a
  {
    var all := a + b;
    assert forall j :: 0 <= j < |a| ==> a[j] == all[j] == j;
    assert forall i :: 0 <= i < |b| ==> b[i] == all[|a| + i] == |a| + i;
    if no < |a| { assert a[no] == no; }
    if |a| <= no < n { assert b[no - |a|] == no; }
  }

  lemma ClearingIsSound(s: State)
    requires Sound(s)
    ensures Sound(QueueCleared(s))
  {
    AllRemoved(s.log, s.queue, s.nextNumber);
    assert Tracked(s.log, [], s.nextNumber);
    TrackedMore(s.log, [], s.nextNumber, Lost(Nos(s.queue)));
  }

  lemma {:induction false} AllRemoved(log: seq<Event>, queue: seq<Item>, next: nat)
    requires Accounted(log, queue, next)
    ensures Accounted(log + [Lost(Nos(queue))], [], next)
  {
    RemovedMore(log, Lost(Nos(queue)));
    assert Nos([]) == [];
  }

  /** Clearing loses exactly the messages that were added and are neither sent, failed nor lost. */
  lemma ClearLosesExactlyTheRest(s: State)
    requires Sound(s)
    ensures var t := QueueCleared(s);
            t.queue == [] && t.log[|s.log|].Lost? && t.log == s.log + [t.log[|s.log|]]
            && forall no: nat :: no in t.log[|s.log|].nos <==> no < s.nextNumber && no !in Removed(s.log)
  {
    forall no: nat ensures no in Nos(s.queue) <==> no < s.nextNumber && no !in Removed(s.log) {
      InOnePart(Removed(s.log), Nos(s.queue), s.nextNumber, no);
    }
  }

  lemma ApplyIsSound(s: State, op: Op)
    requires Sound(s)
    ensures Sound(Apply(s, op))
  {
    match op {
      case Send(length) => SendIsSound(s, length);
      case Immediate(answers) => FlushIsSound(s.(flushRef := false), answers, 0, 0);
      case Timeout(answers) => FlushIsSound(s.(flushTimeout := false), answers, 0, 0);
      case LowBuffer => QuietEvent(s.(paused := false, flushRef := true), BufferLow);
      case Reconnect => QuietEvent(s, Connected);
      case Clear => ClearingIsSound(s);
      case _ =>
    }
  }

  /** Over every run: messages leave the queue strictly in the order they were added; every
      message added is queued, sent or reported failed, and only one of these; none has more
      than MAX_TRIES failed attempts; the queue never outgrows its limit.
   */
  lemma {:induction false} EveryRunIsSound(s: State, ops: seq<Op>)
    requires Sound(s) && AllEnabled(s, ops)
    ensures Sound(After(s, ops))
    decreases |ops|
  {
    if ops != [] {
      ApplyIsSound(s, ops[0]);
      EveryRunIsSound(Apply(s, ops[0]), ops[1..]);
    }
  }

  lemma InitialIsSound(maxSize: nat)
    ensures Sound(Initial(maxSize)) && Awake(Initial(maxSize)) && Signals(Initial(maxSize).log) == Some(false)
  {
    var log := [Connected];
    assert log == [] + [Connected];
    RemovedMore([], Connected);
    forall no ensures Attempts(log, no) == 0 { AttemptsMore([], Connected, no); }
    SignalsMore([], Connected);
  }

  // ---------- no lost wake-up ----------

  /** A live connection with something to send is going to be flushed, or waits for backpressure. */
  ghost predicate Awake(s: State) {
    s.open && !s.finished && s.queue != [] ==> s.flushRef || s.flushTimeout || s.paused
  }

  lemma {:induction false} FlushEndsAwake(s: State, answers: nat -> Answer, k: nat, sent: nat)
    ensures Awake(Flushed(s, answers, k, sent))
    decreases |s.queue|, TriesLeft(s.queue)
  {
    if !s.finished && s.queue != [] && s.open && sent < MAX_BATCH {
      RoundMakesProgress(s, answers(k));
      var (t, r) := RoundOf(s, answers(k));
      if r.Continue? { FlushEndsAwake(t, answers, k + 1, if r.sent then sent + 1 else sent); }
    }
  }

  /** In every reachable state no wake-up is lost. */
  lemma {:induction false} EveryRunIsAwake(s: State, ops: seq<Op>)
    requires Awake(s) && AllEnabled(s, ops)
    ensures Awake(After(s, ops))
    decreases |ops|
  {
    if ops != [] {
      match ops[0] {
        case Immediate(answers) => FlushEndsAwake(s.(flushRef := false), answers, 0, 0);
        case Timeout(answers) => FlushEndsAwake(s.(flushTimeout := false), answers, 0, 0);
        case _ =>
      }
      EveryRunIsAwake(Apply(s, ops[0]), ops[1..]);
    }
  }

  // ---------- the queue drains ----------

  /** Tries left to all messages together. */
  function Work(q: seq<Item>): nat {
    if q == [] then 0
    else Work(q[1..]) + if q[0].tries < MAX_TRIES then MAX_TRIES - q[0].tries else 0
  }

  lemma {:induction false} WorkIsBounded(q: seq<Item>)
    ensures Work(q) <= |q| * MAX_TRIES
  {
    if q != [] { WorkIsBounded(q[1..]); }
  }

  /** Every message has a try left. */
  ghost predicate AllFresh(q: seq<Item>) {
    forall i :: 0 <= i < |q| ==> !q[i].failed && q[i].tries < MAX_TRIES
  }

  /** The channel stays open, and below the threshold. */
  predicate Smooth(answers: nat -> Answer, k: nat) {
    answers(k).stillOpen && !answers(k).atThreshold
  }

  ghost predicate AllSmooth(answers: nat -> Answer) {
    forall k: nat {:trigger Smooth(answers, k)} :: Smooth(answers, k)
  }

  /** Open, not finished and not paused, with a try left to every message. */
  ghost predicate Flowing(s: State) {
    s.open && !s.finished && !s.paused && AllFresh(s.queue)
  }

  lemma FailureLowersWork(s: State, atThreshold: bool)
    requires Flowing(s) && s.queue != []
    ensures var t := AttemptFailedAt(s, atThreshold); Flowing(t) && Work(t.queue) < Work(s.queue)
  {
    var t := FailureCounted(s, atThreshold);
    assert t.queue[1..] == s.queue[1..];
    assert forall i :: 1 <= i < |t.queue| ==> t.queue[i] == s.queue[i];
  }

  lemma RoundLowersWork(s: State, a: Answer)
    requires Flowing(s) && s.queue != [] && a.stillOpen && !a.atThreshold
    ensures var t := RoundOf(s, a).0; Flowing(t) && Work(t.queue) < Work(s.queue)
  {
    if s.queue[0].length > a.maxMessageSize {
      assert RoundOf(s, a).0 == HeadDropped(s);
    } else if a.result == Accepted {
    } else {
      FailureLowersWork(s, false);
    }
  }

  lemma {:induction false} FlushLowersWork(s: State, answers: nat -> Answer, k: nat, sent: nat)
    requires Flowing(s) && AllSmooth(answers)
    ensures var t := Flushed(s, answers, k, sent);
            && Flowing(t) && Work(t.queue) <= Work(s.queue)
            && (s.queue != [] && sent < MAX_BATCH ==> Work(t.queue) < Work(s.queue))
            && (s.queue == [] ==> t.queue == [])
    decreases |s.queue|, TriesLeft(s.queue)
  {
    if s.queue != [] && sent < MAX_BATCH {
      assert Smooth(answers, k);
      RoundMakesProgress(s, answers(k));
      RoundLowersWork(s, answers(k));
      var (t, r) := RoundOf(s, answers(k));
      if r.Continue? { FlushLowersWork(t, answers, k + 1, if r.sent then sent + 1 else sent); }
    }
  }

  /** The immediate or the timeout that flushes, on a channel that stays open and below the threshold. */
  ghost predicate SmoothFlush(op: Op) {
    match op
    case Immediate(answers) => AllSmooth(answers)
    case Timeout(answers) => AllSmooth(answers)
    case _ => false
  }

  lemma {:induction false} FlushesUseUpWork(s: State, ops: seq<Op>)
    requires Flowing(s) && AllEnabled(s, ops) && forall i :: 0 <= i < |ops| ==> SmoothFlush(ops[i])
    ensures Flowing(After(s, ops))
    ensures After(s, ops).queue == [] || Work(After(s, ops).queue) + |ops| <= Work(s.queue)
    decreases |ops|
  {
    if ops != [] {
      assert SmoothFlush(ops[0]);
      match ops[0] {
        case Immediate(answers) => FlushLowersWork(s.(flushRef := false), answers, 0, 0);
        case Timeout(answers) => FlushLowersWork(s.(flushTimeout := false), answers, 0, 0);
      }
      FlushesUseUpWork(Apply(s, ops[0]), ops[1..]);
      if s.queue == [] { EmptyStaysEmpty(Apply(s, ops[0]), ops[1..]); }
    }
  }

  lemma {:induction false} EmptyStaysEmpty(s: State, ops: seq<Op>)
    requires s.queue == [] && forall i :: 0 <= i < |ops| ==> SmoothFlush(ops[i])
    ensures After(s, ops).queue == []
    decreases |ops|
  {
    if ops != [] {
      assert SmoothFlush(ops[0]);
      EmptyStaysEmpty(Apply(s, ops[0]), ops[1..]);
    }
  }

  /** With no more sends, on an open, unfinished and unpaused connection whose channel stays open and
      below the threshold, the queue is empty after at most MAX_TRIES flushes per message; and until
      then another flush is scheduled.
   */
  lemma {:induction false} QueueDrains(s: State, ops: seq<Op>)
    requires Sound(s) && Awake(s) && s.open && !s.finished && !s.paused
    requires AllEnabled(s, ops) && forall i :: 0 <= i < |ops| ==> SmoothFlush(ops[i])
    ensures |ops| >= |s.queue| * MAX_TRIES ==> After(s, ops).queue == []
    ensures After(s, ops).queue != [] ==> After(s, ops).flushRef || After(s, ops).flushTimeout
  {
    forall i | 0 <= i < |s.queue| ensures !s.queue[i].failed && s.queue[i].tries < MAX_TRIES {
      assert Fresh(s.log, s.queue[i]);
    }
    FlushesUseUpWork(s, ops);
    WorkIsBounded(s.queue);
    EveryRunIsAwake(s, ops);
    var q := After(s, ops).queue;
    if q != [] { assert Work(q) > 0; }
  }

  // ---------- batches ----------

  function SentCount(log: seq<Event>): nat {
    if log == [] then 0 else SentCount(log[..|log| - 1]) + if log[|log| - 1].Sent? then 1 else 0
  }

  lemma {:induction false} SentCountMore(log: seq<Event>, e: Event)
    ensures SentCount(log + [e]) == SentCount(log) + if e.Sent? then 1 else 0
  {
    assert (log + [e])[..|log|] == log;
  }

  lemma FailureAppends(s: State, atThreshold: bool) returns (es: seq<Event>)
    requires s.queue != []
    ensures AttemptFailedAt(s, atThreshold).log == s.log + es && SentCount(es) == 0
  {
    var no := s.queue[0].no;
    es := [AttemptFailed(no, atThreshold)];
    if Tried(s.queue[0]).failed {
      SentCountMore(es, Dropped(no));
      es := es + [Dropped(no)];
    }
  }

  lemma AttemptAppends(s: State, a: Answer) returns (es: seq<Event>)
    requires s.queue != []
    ensures Attempted(s, a).0.log == s.log + es
    ensures SentCount(es) == if Attempted(s, a).1 == Continue(true) then 1 else 0
  {
    if a.result == Accepted && s.open && a.stillOpen {
      es := [Sent(s.queue[0].no, a.atThreshold)];
    } else {
      es := FailureAppends(s.(open := s.open && a.stillOpen), a.atThreshold);
    }
  }

  lemma RoundAppends(s: State, a: Answer) returns (es: seq<Event>)
    requires s.queue != []
    ensures RoundOf(s, a).0.log == s.log + es
    ensures SentCount(es) == if RoundOf(s, a).1 == Continue(true) then 1 else 0
  {
    if s.queue[0].failed {
      es := [];
    } else if s.queue[0].length > a.maxMessageSize {
      es := [Dropped(s.queue[0].no)];
    } else if s.paused {
      es := [];
    } else if a.atThreshold {
      es := [BufferHigh];
    } else {
      es := AttemptAppends(s, a);
    }
  }

  lemma {:induction false} SentCountOfBoth(log: seq<Event>, es: seq<Event>)
    ensures SentCount(log + es) == SentCount(log) + SentCount(es)
    decreases |es|
  {
    if es == [] {
      assert log + es == log;
    } else {
      var last := |es| - 1;
      assert log + es == (log + es[..last]) + [es[last]];
      SentCountMore(log + es[..last], es[last]);
      SentCountOfBoth(log, es[..last]);
    }
  }

  lemma RoundSendsOne(s: State, a: Answer)
    requires s.queue != []
    ensures SentCount(RoundOf(s, a).0.log) == SentCount(s.log) + if RoundOf(s, a).1 == Continue(true) then 1 else 0
  {
    var es := RoundAppends(s, a);
    SentCountOfBoth(s.log, es);
  }

  /** One flush sends at most MAX_BATCH messages. */
  lemma {:induction false} FlushSendsAtMostABatch(s: State, answers: nat -> Answer, k: nat, sent: nat)
    requires sent <= MAX_BATCH
    ensures SentCount(Flushed(s, answers, k, sent).log) <= SentCount(s.log) + MAX_BATCH - sent
    decreases |s.queue|, TriesLeft(s.queue)
  {
    if !s.finished && s.queue != [] && s.open && sent < MAX_BATCH {
      RoundMakesProgress(s, answers(k));
      RoundSendsOne(s, answers(k));
      var (t, r) := RoundOf(s, answers(k));
      if r.Continue? { FlushSendsAtMostABatch(t, answers, k + 1, if r.sent then sent + 1 else sent); }
    }
  }

  // ---------- backpressure signals ----------

  /** Whether the connection is paused after an event; None when a signal or an attempt to send
      came at the wrong moment.
   */
  function Signal(paused: Option<bool>, e: Event): Option<bool> {
    if paused.None? then None
    else
      match e
      case BufferHigh => if paused.value then None else Some(true)
      case BufferLow => if paused.value then Some(false) else None
      case Connected => Some(false)
      case Sent(_, atThreshold) => if paused.value || atThreshold then None else paused
      case AttemptFailed(_, atThreshold) => if paused.value || atThreshold then None else paused
      case Dropped(_) => paused
      case Lost(_) => paused
  }

  function Signals(log: seq<Event>): Option<bool> {
    if log == [] then Some(false) else Signal(Signals(log[..|log| - 1]), log[|log| - 1])
  }

  lemma {:induction false} SignalsMore(log: seq<Event>, e: Event)
    ensures Signals(log + [e]) == Signal(Signals(log), e)
  {
    assert (log + [e])[..|log|] == log;
  }

  ghost predicate Signalled(s: State) {
    Signals(s.log) == Some(s.paused)
  }

  lemma SignalStep(s: State, t: State, e: Event)
    requires Signalled(s) && t.log == s.log + [e] && Signal(Some(s.paused), e) == Some(t.paused)
    ensures Signalled(t)
  {
    SignalsMore(s.log, e);
  }

  lemma FailureIsSignalled(s: State, atThreshold: bool)
    requires Signalled(s) && s.queue != [] && !s.paused && !atThreshold
    ensures Signalled(AttemptFailedAt(s, atThreshold))
  {
    var t := FailureCounted(s, atThreshold);
    SignalStep(s, t, AttemptFailed(s.queue[0].no, atThreshold));
    if Tried(s.queue[0]).failed { SignalStep(t, HeadDropped(t), Dropped(t.queue[0].no)); }
  }

  lemma RoundIsSignalled(s: State, a: Answer)
    requires Signalled(s) && s.queue != []
    ensures Signalled(RoundOf(s, a).0)
  {
    var t, no := RoundOf(s, a).0, s.queue[0].no;
    if s.queue[0].failed {
      assert t.log == s.log && t.paused == s.paused;
    } else if s.queue[0].length > a.maxMessageSize {
      SignalStep(s, t, Dropped(no));
    } else if s.paused {
      assert t == s;
    } else if a.atThreshold {
      SignalStep(s, t, BufferHigh);
    } else if a.result == Accepted && s.open && a.stillOpen {
      SignalStep(s, t, Sent(no, a.atThreshold));
    } else {
      FailureIsSignalled(s.(open := s.open && a.stillOpen), a.atThreshold);
    }
  }

  lemma {:induction false} FlushIsSignalled(s: State, answers: nat -> Answer, k: nat, sent: nat)
    requires Signalled(s)
    ensures Signalled(Flushed(s, answers, k, sent))
    decreases |s.queue|, TriesLeft(s.queue)
  {
    if !s.finished && s.queue != [] && s.open && sent < MAX_BATCH {
      RoundMakesProgress(s, answers(k));
      RoundIsSignalled(s, answers(k));
      var (t, r) := RoundOf(s, answers(k));
      if r.Continue? { FlushIsSignalled(t, answers, k + 1, if r.sent then sent + 1 else sent); }
    }
  }

  lemma SendIsSignalled(s: State, length: nat)
    requires Signalled(s)
    ensures Signalled(SendCalled(s, length))
  {
    var t := SendCalled(s, length);
    if |s.queue| == s.maxSize && s.queue != [] {
      SignalStep(s, t, Dropped(s.queue[0].no));
    } else {
      assert t.log == s.log && t.paused == s.paused;
    }
  }

  lemma TimersAreSignalled(s: State, answers: nat -> Answer)
    requires Signalled(s)
    ensures Signalled(ImmediateFired(s, answers)) && Signalled(TimeoutFired(s, answers))
  {
    FlushIsSignalled(s.(flushRef := false), answers, 0, 0);
    FlushIsSignalled(s.(flushTimeout := false), answers, 0, 0);
  }

  lemma ApplyIsSignalled(s: State, op: Op)
    requires Signalled(s)
    ensures Signalled(Apply(s, op))
  {
    match op {
      case Send(length) => SendIsSignalled(s, length);
      case Immediate(answers) => TimersAreSignalled(s, answers);
      case Timeout(answers) => TimersAreSignalled(s, answers);
      case LowBuffer => if s.paused { SignalStep(s, Apply(s, op), BufferLow); }
      case Reconnect => SignalStep(s, Apply(s, op), Connected);
      case Clear => SignalStep(s, Apply(s, op), Lost(Nos(s.queue)));
      case _ => assert Apply(s, op).log == s.log && Apply(s, op).paused == s.paused;
    }
  }

  /** Over every run the signals of a connection alternate, starting with bufferHigh, and nothing
      is sent while paused or at the high threshold.
   */
  lemma {:induction false} EveryRunIsSignalled(s: State, ops: seq<Op>)
    requires Signalled(s) && AllEnabled(s, ops)
    ensures Signalled(After(s, ops))
    decreases |ops|
  {
    if ops != [] {
      ApplyIsSignalled(s, ops[0]);
      EveryRunIsSignalled(Apply(s, ops[0]), ops[1..]);
    }
  }

  lemma {:induction false} PrefixHasSignals(log: seq<Event>, k: nat)
    requires Signals(log).Some? && k <= |log|
    ensures Signals(log[..k]).Some?
    decreases |log|
  {
    if k < |log| {
      PrefixHasSignals(log[..|log| - 1], k);
      assert log[..|log| - 1][..k] == log[..k];
    } else {
      assert log[..k] == log;
    }
  }

  lemma SignalsAt(log: seq<Event>, k: nat)
    requires k < |log|
    ensures Signals(log[..k + 1]) == Signal(Signals(log[..k]), log[k])
  {
    SignalsMore(log[..k], log[k]);
    assert log[..k + 1] == log[..k] + [log[k]];
  }

  lemma {:induction false} PauseLasts(log: seq<Event>, i: nat, k: nat)
    requires Signals(log).Some? && i < k <= |log| && log[i] == BufferHigh
    requires forall x :: i < x < k ==> log[x] != BufferLow && log[x] != Connected
    ensures Signals(log[..k]) == Some(true)
    decreases k
  {
    PrefixHasSignals(log, k);
    SignalsAt(log, k - 1);
    if k > i + 1 { PauseLasts(log, i, k - 1); }
  }

  lemma {:induction false} PausedAt(log: seq<Event>, j: nat)
    requires Signals(log).Some? && j < |log| && Signals(log[..j]) == Some(true)
    ensures log[j] != BufferHigh && !log[j].Sent? && !log[j].AttemptFailed?
  {
    PrefixHasSignals(log, j + 1);
    SignalsAt(log, j);
  }

  /** After a bufferHigh, the next bufferHigh or attempt to send comes only after a bufferLow or
      on a new connection.
   */
  lemma {:induction false} NothingHappensWhilePaused(log: seq<Event>, i: nat, j: nat)
    requires Signals(log).Some? && i < j < |log| && log[i] == BufferHigh
    requires log[j] == BufferHigh || log[j].Sent? || log[j].AttemptFailed?
    ensures exists x :: i < x < j && (log[x] == BufferLow || log[x] == Connected)
  {
    if forall x :: i < x < j ==> log[x] != BufferLow && log[x] != Connected {
      PauseLasts(log, i, j);
      PausedAt(log, j);
    }
  }
}
