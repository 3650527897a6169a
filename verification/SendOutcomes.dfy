/** What becomes of each message: which ones a flush sends, and why a message is dropped. */
module SendOutcomes {
  import opened Sequences
  import opened SendQueues
  import opened SendGuarantees

  // ---------- a good channel gets a batch ----------

  /** The channel takes the message, stays open and below the threshold. */
  predicate Takes(a: Answer, size: nat) {
    a.result == Accepted && a.stillOpen && !a.atThreshold && size <= a.maxMessageSize
  }

  ghost predicate TakesAll(answers: nat -> Answer, q: seq<Item>) {
    forall k: nat, i: nat {:trigger answers(k), q[i]} :: i < |q| ==> Takes(answers(k), q[i].length)
  }

  function SentEvents(q: seq<Item>): (es: seq<Event>)
    ensures |es| == |q| && forall i :: 0 <= i < |q| ==> es[i] == Sent(q[i].no, false)
  {
    seq(|q|, i requires 0 <= i < |q| => Sent(q[i].no, false))
  }

  lemma TakenRound(s: State, a: Answer)
    requires Flowing(s) && s.queue != [] && Takes(a, s.queue[0].length)
    ensures RoundOf(s, a) == (Log(s.(queue := s.queue[1..]), Sent(s.queue[0].no, false)), Continue(true))
  {
    assert s.open && s.(open := true) == s;
  }

  lemma OneMoreSent(q: seq<Item>, b: nat)
    requires 0 < b <= |q|
    ensures SentEvents(q[..b]) == [Sent(q[0].no, false)] + SentEvents(q[1..][..b - 1]) && q[1..][b - 1..] == q[b..]
  {
    assert q[..b] == [q[0]] + q[1..][..b - 1];
  }

  lemma FlushTakesOne(s: State, answers: nat -> Answer, k: nat, sent: nat) returns (t: State)
    requires Flowing(s) && s.queue != [] && sent < MAX_BATCH && TakesAll(answers, s.queue)
    ensures t == Log(s.(queue := s.queue[1..]), Sent(s.queue[0].no, false))
    ensures Flowing(t) && TakesAll(answers, t.queue)
    ensures Flushed(s, answers, k, sent) == Flushed(t, answers, k + 1, sent + 1)
  {
    t := Log(s.(queue := s.queue[1..]), Sent(s.queue[0].no, false));
    assert Takes(answers(k), s.queue[0].length);
    TakenRound(s, answers(k));
    RoundMakesProgress(s, answers(k));
    assert forall i :: 0 <= i < |t.queue| ==> t.queue[i] == s.queue[i + 1];
  }

  lemma NothingToSend(s: State, answers: nat -> Answer, k: nat, sent: nat)
    requires Flowing(s) && (s.queue == [] || sent >= MAX_BATCH)
    ensures Flushed(s, answers, k, sent) == if s.queue == [] then s else s.(flushRef := true)
    ensures s.log + SentEvents(s.queue[..0]) == s.log && s.queue[0..] == s.queue
  {
  }

  lemma {:induction false} FlushSends(s: State, answers: nat -> Answer, k: nat, sent: nat, b: nat)
    requires Flowing(s) && TakesAll(answers, s.queue) && sent <= MAX_BATCH
    requires b == if |s.queue| < MAX_BATCH - sent then |s.queue| else MAX_BATCH - sent
    ensures var t := Flushed(s, answers, k, sent);
            && t.log == s.log + SentEvents(s.queue[..b])
            && t.queue == s.queue[b..]
            && t.flushRef == (s.flushRef || t.queue != []) && t.flushTimeout == s.flushTimeout
    decreases |s.queue|
  {
    if b == 0 {
      NothingToSend(s, answers, k, sent);
    } else {
      var t := FlushTakesOne(s, answers, k, sent);
      FlushSends(t, answers, k + 1, sent + 1, b - 1);
      OneMoreSent(s.queue, b);
      Regrouped(s.log, [Sent(s.queue[0].no, false)], SentEvents(t.queue[..b - 1]));
    }
  }

  lemma Regrouped(a: seq<Event>, b: seq<Event>, c: seq<Event>)
    ensures (a + b) + c == a + (b + c)
  {
  }

  /** On an open, unfinished and unpaused connection whose channel takes everything, one flush sends exactly
      the first messages of the queue, in order, up to a batch, and does nothing else; another flush is scheduled
      if and only if more are left.
   */
  lemma GoodChannelGetsABatch(s: State, answers: nat -> Answer)
    requires Sound(s) && s.open && !s.finished && !s.paused && TakesAll(answers, s.queue)
    ensures var b := if |s.queue| < MAX_BATCH then |s.queue| else MAX_BATCH;
            forall t :: t == ImmediateFired(s, answers) || t == TimeoutFired(s, answers) ==>
              && t.log == s.log + SentEvents(s.queue[..b])
              && t.queue == s.queue[b..]
    ensures ImmediateFired(s, answers).flushRef <==> |s.queue| > MAX_BATCH
    ensures !TimeoutFired(s, answers).flushTimeout
  {
    forall i | 0 <= i < |s.queue| ensures !s.queue[i].failed && s.queue[i].tries < MAX_TRIES {
      assert Fresh(s.log, s.queue[i]);
    }
    var b := if |s.queue| < MAX_BATCH then |s.queue| else MAX_BATCH;
    FlushSends(s.(flushRef := false), answers, 0, 0, b);
    FlushSends(s.(flushTimeout := false), answers, 0, 0, b);
  }

  // ---------- how a flush begins ----------

  /** A failed attempt on the head, which the tenth takes out of the queue. */
  function FailureEvents(head: Item): seq<Event> {
    [AttemptFailed(head.no, false)] + if head.tries + 1 == MAX_TRIES then [Dropped(head.no)] else []
  }

  lemma FailedAttemptLogs(s: State)
    requires Sound(s) && s.queue != []
    ensures AttemptFailedAt(s, false).log == s.log + FailureEvents(s.queue[0])
  {
    assert Fresh(s.log, s.queue[0]);
  }

  /** A message that is too large goes first of all, paused or not; a paused connection does nothing more; one
      at the threshold pauses and says so; after an exception, or when the channel closes, nothing more is
      attempted.
   */
  lemma {:induction false} FlushBegins(s: State, answers: nat -> Answer, k: nat, sent: nat)
    requires Sound(s) && s.open && !s.finished && s.queue != [] && sent < MAX_BATCH
    ensures var log, head, a := Flushed(s, answers, k, sent).log, s.queue[0], answers(k);
            if head.length > a.maxMessageSize then s.log + [Dropped(head.no)] <= log
            else if s.paused then log == s.log
            else if a.atThreshold then log == s.log + [BufferHigh]
            else if a.result == Threw || !a.stillOpen then log == s.log + FailureEvents(head)
            else if a.result == Accepted then s.log + [Sent(head.no, false)] <= log
            else s.log + FailureEvents(head) <= log
  {
    HeadIsFresh(s);
    RoundMakesProgress(s, answers(k));
    var (t, r) := RoundOf(s, answers(k));
    if r.Continue? { FlushOnlyLogs(t, answers, k + 1, if r.sent then sent + 1 else sent); }
    FailedAttemptLogs(s.(open := s.open && answers(k).stillOpen));
  }

  /** A message that the channel refuses is tried again in the same flush. */
  lemma {:induction false} RefusedIsTriedAgain(s: State, answers: nat -> Answer, k: nat, sent: nat)
    requires Sound(s) && Flowing(s) && s.queue != [] && sent < MAX_BATCH && s.queue[0].tries + 1 < MAX_TRIES
    requires s.queue[0].length <= answers(k).maxMessageSize && !answers(k).atThreshold
    requires answers(k).result == Refused && answers(k).stillOpen && Takes(answers(k + 1), s.queue[0].length)
    ensures s.log + [AttemptFailed(s.queue[0].no, false), Sent(s.queue[0].no, false)]
            <= Flushed(s, answers, k, sent).log
  {
    RefusalGoesOn(s, answers, k, sent);
    FailureIsSound(s, false);
    var t := AttemptFailedAt(s, false);
    FlushBegins(t, answers, k + 1, sent);
    assert t.log + [Sent(s.queue[0].no, false)]
        == s.log + [AttemptFailed(s.queue[0].no, false), Sent(s.queue[0].no, false)];
  }

  lemma RefusalGoesOn(s: State, answers: nat -> Answer, k: nat, sent: nat)
    requires Flowing(s) && s.queue != [] && sent < MAX_BATCH && s.queue[0].tries + 1 < MAX_TRIES
    requires s.queue[0].length <= answers(k).maxMessageSize && !answers(k).atThreshold
    requires answers(k).result == Refused && answers(k).stillOpen
    ensures var t := AttemptFailedAt(s, false);
            && t == s.(queue := s.queue[0 := Tried(s.queue[0])], flushTimeout := true,
                       log := s.log + [AttemptFailed(s.queue[0].no, false)])
            && Flushed(s, answers, k, sent) == Flushed(t, answers, k + 1, sent)
  {
    assert s.(open := true) == s;
    RoundMakesProgress(s, answers(k));
  }

  /** Without an open channel, or once finished, a flush does nothing. */
  lemma ClosedConnectionIsLeftAlone(s: State, answers: nat -> Answer)
    requires !s.open || s.finished
    ensures ImmediateFired(s, answers) == s.(flushRef := false)
    ensures TimeoutFired(s, answers) == s.(flushTimeout := false)
  {
  }

  // ---------- why a message is sent, fails or is dropped ----------

  ghost predicate QueuedAs(q: seq<Item>, no: nat, length: nat) {
    exists i :: 0 <= i < |q| && q[i].no == no && q[i].length == length
  }

  /** An answer of the channel accounts for what a flush logs of message no after the given events. */
  ghost predicate Accounts(a: Answer, before: seq<Event>, e: Event, length: nat) {
    match e
    case Sent(_, atThreshold) =>
      a.result == Accepted && a.stillOpen && length <= a.maxMessageSize && atThreshold == a.atThreshold
    case AttemptFailed(_, atThreshold) =>
      !(a.result == Accepted && a.stillOpen) && length <= a.maxMessageSize && atThreshold == a.atThreshold
    case Dropped(no) => length > a.maxMessageSize || Attempts(before, no) == MAX_TRIES
    case BufferHigh => a.atThreshold
    case _ => false
  }

  /** Event x of the log is accounted for by some answer, and by a message that was queued. */
  ghost predicate Answered(q: seq<Item>, answers: nat -> Answer, log: seq<Event>, x: nat)
    requires x < |log|
  {
    exists k: nat, i: nat {:trigger answers(k), q[i]} :: i < |q| && Accounts(answers(k), log[..x], log[x], q[i].length)
        && (log[x].Sent? || log[x].AttemptFailed? || log[x].Dropped? ==> log[x].no == q[i].no)
  }

  /** Every message of q was in p, with the same length. */
  ghost predicate Among(q: seq<Item>, p: seq<Item>) {
    forall j :: 0 <= j < |q| ==> QueuedAs(p, q[j].no, q[j].length)
  }

  /** All events from n on are accounted for. */
  ghost predicate AllAnswered(q: seq<Item>, answers: nat -> Answer, log: seq<Event>, n: nat) {
    forall x :: n <= x < |log| ==> Answered(q, answers, log, x)
  }

  lemma OneMoreAnswered(
      q: seq<Item>, answers: nat -> Answer, log: seq<Event>, n: nat, e: Event, k: nat, head: Item)
    requires AllAnswered(q, answers, log, n)
    requires QueuedAs(q, head.no, head.length)
    requires Accounts(answers(k), log, e, head.length)
    requires e.Sent? || e.AttemptFailed? || e.Dropped? ==> e.no == head.no
    ensures AllAnswered(q, answers, log + [e], n)
  {
    var more := log + [e];
    forall x | n <= x < |more| ensures Answered(q, answers, more, x) {
      if x < |log| {
        assert Answered(q, answers, log, x);
        assert more[..x] == log[..x] && more[x] == log[x];
      } else {
        assert more[..x] == log && more[x] == e;
      }
    }
  }

  lemma FailureAnswered(s: State, q: seq<Item>, answers: nat -> Answer, k: nat, n: nat)
    requires Sound(s) && s.queue != [] && Among(s.queue, q) && AllAnswered(q, answers, s.log, n)
    requires !(answers(k).result == Accepted && answers(k).stillOpen) && s.queue[0].length <= answers(k).maxMessageSize
    ensures var t := AttemptFailedAt(s, answers(k).atThreshold);
            AllAnswered(q, answers, t.log, n) && Among(t.queue, q)
  {
    var head := s.queue[0];
    var e, t := AttemptFailed(head.no, answers(k).atThreshold), FailureCounted(s, answers(k).atThreshold);
    OneMoreAnswered(q, answers, s.log, n, e, k, head);
    assert Among(t.queue, q);
    HeadIsFresh(s);
    if Tried(head).failed {
      assert Fresh(s.log, head);
      AttemptsMore(s.log, e, head.no);
      OneMoreAnswered(q, answers, t.log, n, Dropped(head.no), k, head);
      RestIsAmong(t.queue, q);
    }
  }

  lemma RestIsAmong(q: seq<Item>, p: seq<Item>)
    requires Among(q, p) && q != []
    ensures Among(q[1..], p)
  {
    forall j | 0 <= j < |q[1..]| ensures QueuedAs(p, q[1..][j].no, q[1..][j].length) { assert q[1..][j] == q[j + 1]; }
  }

  lemma RoundAnswered(s: State, q: seq<Item>, answers: nat -> Answer, k: nat, n: nat)
    requires Sound(s) && s.queue != [] && s.open && Among(s.queue, q) && AllAnswered(q, answers, s.log, n)
    ensures var t := RoundOf(s, answers(k)).0; AllAnswered(q, answers, t.log, n) && Among(t.queue, q)
  {
    var a, head := answers(k), s.queue[0];
    HeadIsFresh(s);
    RestIsAmong(s.queue, q);
    if head.length > a.maxMessageSize {
      OneMoreAnswered(q, answers, s.log, n, Dropped(head.no), k, head);
    } else if s.paused {
    } else if a.atThreshold {
      OneMoreAnswered(q, answers, s.log, n, BufferHigh, k, head);
    } else if a.result == Accepted && a.stillOpen {
      OneMoreAnswered(q, answers, s.log, n, Sent(head.no, a.atThreshold), k, head);
    } else {
      FailureAnswered(s.(open := s.open && a.stillOpen), q, answers, k, n);
    }
  }

  /** The flush so far: all it has logged is accounted for. */
  ghost predicate Tidy(s: State, q: seq<Item>, answers: nat -> Answer, n: nat) {
    Sound(s) && Among(s.queue, q) && AllAnswered(q, answers, s.log, n)
  }

  lemma RoundIsTidy(s: State, q: seq<Item>, answers: nat -> Answer, k: nat, n: nat)
    requires Tidy(s, q, answers, n) && s.queue != [] && s.open
    ensures Tidy(RoundOf(s, answers(k)).0, q, answers, n)
  {
    RoundIsSound(s, answers(k));
    RoundAnswered(s, q, answers, k, n);
  }

  lemma {:induction false} FlushIsTidy(
      s: State, q: seq<Item>, answers: nat -> Answer, k: nat, sent: nat, n: nat)
    requires Tidy(s, q, answers, n)
    ensures AllAnswered(q, answers, Flushed(s, answers, k, sent).log, n)
    decreases |s.queue|, TriesLeft(s.queue)
  {
    if !s.finished && s.queue != [] && s.open && sent < MAX_BATCH {
      RoundMakesProgress(s, answers(k));
      RoundIsTidy(s, q, answers, k, n);
      var (t, r) := RoundOf(s, answers(k));
      if r.Continue? { FlushIsTidy(t, q, answers, k + 1, if r.sent then sent + 1 else sent, n); }
    }
  }

  /** What an operation in state u logs as event x. */
  ghost predicate Explained(u: State, op: Op, log: seq<Event>, x: nat)
    requires x < |log|
  {
    match op
    case Send(_) => u.queue != [] && |u.queue| == u.maxSize && log[x] == Dropped(u.queue[0].no)
    case Immediate(answers) => Answered(u.queue, answers, log, x)
    case Timeout(answers) => Answered(u.queue, answers, log, x)
    case LowBuffer => u.paused && log[x] == BufferLow
    case Reconnect => log[x] == Connected
    case Clear => log[x] == Lost(Nos(u.queue))
    case _ => false
  }

  lemma {:induction false} FlushOnlyLogs(s: State, answers: nat -> Answer, k: nat, sent: nat)
    ensures s.log <= Flushed(s, answers, k, sent).log
    decreases |s.queue|, TriesLeft(s.queue)
  {
    if !s.finished && s.queue != [] && s.open && sent < MAX_BATCH {
      RoundMakesProgress(s, answers(k));
      var (t, r) := RoundOf(s, answers(k));
      assert s.log <= t.log;
      if r.Continue? { FlushOnlyLogs(t, answers, k + 1, if r.sent then sent + 1 else sent); }
    }
  }

  lemma {:induction false} FlushIsExplained(s: State, answers: nat -> Answer)
    requires Sound(s)
    ensures var t := Flushed(s, answers, 0, 0); s.log <= t.log && AllAnswered(s.queue, answers, t.log, |s.log|)
  {
    FlushOnlyLogs(s, answers, 0, 0);
    FlushIsTidy(s, s.queue, answers, 0, 0, |s.log|);
  }

  lemma StepIsExplained(s: State, op: Op)
    requires Sound(s)
    ensures var t := Apply(s, op);
            s.log <= t.log && forall x :: |s.log| <= x < |t.log| ==> Explained(s, op, t.log, x)
  {
    match op {
      case Immediate(answers) => FlushIsExplained(s.(flushRef := false), answers);
      case Timeout(answers) => FlushIsExplained(s.(flushTimeout := false), answers);
      case _ =>
    }
  }

  lemma {:induction false} RunOnlyLogs(s: State, ops: seq<Op>)
    requires Sound(s)
    ensures s.log <= After(s, ops).log
    decreases |ops|
  {
    if ops != [] {
      StepIsExplained(s, ops[0]);
      ApplyIsSound(s, ops[0]);
      RunOnlyLogs(Apply(s, ops[0]), ops[1..]);
    }
  }

  /** Over every run each event has its cause in the operation that logged it. In particular a message is
      dropped only by a new one that found the queue full, for being larger than the channel takes, or
      after exactly MAX_TRIES failed attempts to send it; and it is sent only when the channel took it.
   */
  lemma {:induction false} EveryEventIsExplained(s: State, ops: seq<Op>, x: nat) returns (i: nat, u: State)
    requires Sound(s) && |s.log| <= x < |After(s, ops).log|
    ensures i < |ops| && u == After(s, ops[..i])
    ensures var w := Apply(u, ops[i]);
            && |u.log| <= x < |w.log| && w.log <= After(s, ops).log
            && Explained(u, ops[i], w.log, x)
    decreases |ops|
  {
    var t := Apply(s, ops[0]);
    StepIsExplained(s, ops[0]);
    ApplyIsSound(s, ops[0]);
    RunOnlyLogs(t, ops[1..]);
    if x < |t.log| {
      i, u := 0, s;
    } else {
      i, u := EveryEventIsExplained(t, ops[1..], x);
      assert ops[..i + 1] == [ops[0]] + ops[1..][..i];
      i := i + 1;
    }
  }

  /** The same for what happens to one message. */
  lemma DropsHaveReasons(s: State, ops: seq<Op>, x: nat) returns (i: nat, u: State)
    requires Sound(s) && |s.log| <= x < |After(s, ops).log| && After(s, ops).log[x].Dropped?
    ensures i < |ops| && u == After(s, ops[..i])
    ensures var log := After(s, ops).log;
            match ops[i]
            case Send(_) => u.queue != [] && |u.queue| == u.maxSize && log[x].no == u.queue[0].no
            case Immediate(answers) => TooLargeOrTried(u.queue, answers, log[..x], log[x].no)
            case Timeout(answers) => TooLargeOrTried(u.queue, answers, log[..x], log[x].no)
            case _ => false
  {
    i, u := EveryEventIsExplained(s, ops, x);
    var w := Apply(u, ops[i]);
    assert w.log[..x] == After(s, ops).log[..x];
  }

  ghost predicate TooLargeOrTried(q: seq<Item>, answers: nat -> Answer, before: seq<Event>, no: nat) {
    || Attempts(before, no) == MAX_TRIES
    || exists k: nat, j: nat {:trigger answers(k), q[j]} ::
         j < |q| && q[j].no == no && q[j].length > answers(k).maxMessageSize
  }
}
