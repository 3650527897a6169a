/** What a node promises about the messages it announces and buffers, over every run. */
module NodeGuarantees {
  import opened Identifiers
  import opened Options
  import opened DuplicateMessageDetectors
  import opened ChainDetection
  import opened StreamManagers
  import opened MessageBuffers
  import opened Nodes

  datatype Op =
    | Receive(d: Delivery)
    | SubscribeTo(k: StreamKey)
    | SubscribeOn(node: NodeId, k: StreamKey)
    | UnsubscribeOn(node: NodeId, k: StreamKey)
    | TakeDown(k: StreamKey)
    | LoseNode(node: NodeId)
    | TimeOut(k: StreamKey)
    | LoseMark(key: MessageKey)

  ghost function Apply(s: State, op: Op): State {
    match op
    case Receive(d) => Received(s, d).state
    case SubscribeTo(k) => SetUp(s, k)
    case SubscribeOn(node, k) => SubscribedOn(s, node, k).state
    case UnsubscribeOn(node, k) => UnsubscribedOn(s, node, k).state
    case TakeDown(k) => TakenDown(s, k).state
    case LoseNode(node) => NodeLost(s, node)
    case TimeOut(k) => TimedOut(s, k)
    case LoseMark(key) => MarkLost(s, key)
  }

  ghost function After(s: State, ops: seq<Op>): State
    decreases |ops|
  {
    if ops == [] then s else After(Apply(s, ops[0]), ops[1..])
  }

  // ---------- detectors over time ----------

  ghost predicate GapsAreSound(v: View) {
    forall c {:trigger v.gaps[c]} :: c in v.gaps ==>
        c.stream in v.streams && Sorted(v.gaps[c]) && |v.gaps[c]| <= MAX_GAPS
  }

  /** The number has been seen on its chain. */
  ghost predicate Seen(v: View, key: MessageKey) {
    key.number.Pair? && GapsOf(v, key.chain) != [] && !Unseen(GapsOf(v, key.chain), key.number)
  }

  lemma CheckingIsSound(v: View, chain: Chain, m: FiniteNumbering)
    requires GapsAreSound(v) && chain.stream in v.streams
    ensures GapsAreSound(Checked(v, chain, m))
  {
    CheckKeepsSorted(GapsOf(v, chain), m, MAX_GAPS);
  }

  lemma CheckingKeepsSeen(v: View, chain: Chain, m: FiniteNumbering, key: MessageKey)
    requires GapsAreSound(v) && Seen(v, key)
    ensures Seen(Checked(v, chain, m), key)
  {
    if chain == key.chain { CheckOnlyShrinks(GapsOf(v, chain), m, MAX_GAPS, key.number); }
  }

  lemma NewIsSeen(s: State, m: Message)
    requires GapsAreSound(s.view) && VerdictOn(s, m) == New
    ensures !Seen(s.view, m.Key()) && Seen(Checked(s.view, m.chain, m.numbering), m.Key())
  {
    var gaps := GapsOf(s.view, m.chain);
    NewIsMarked(gaps, m.numbering, MAX_GAPS, m.numbering.number);
    if gaps != [] { NewWasUnseen(gaps, m.numbering, MAX_GAPS); }
  }

  // ---------- announced at most once ----------

  /** Announced since the stream was last given up. */
  ghost predicate Live(log: seq<Event>, key: MessageKey) {
    log != [] && match log[|log| - 1]
                 case Announced(other) => other == key || Live(log[..|log| - 1], key)
                 case TornDown(k) => k != key.chain.stream && Live(log[..|log| - 1], key)
                 case _ => Live(log[..|log| - 1], key)
  }

  lemma {:induction false} LiveMore(log: seq<Event>, e: Event, key: MessageKey)
    ensures Live(log + [e], key) == match e
                                    case Announced(other) => other == key || Live(log, key)
                                    case TornDown(k) => k != key.chain.stream && Live(log, key)
                                    case _ => Live(log, key)
  {
    assert (log + [e])[..|log|] == log;
  }

  ghost predicate NoRepeats(log: seq<Event>) {
    log == [] ||
    (NoRepeats(log[..|log| - 1]) && (log[|log| - 1].Announced? ==> !Live(log[..|log| - 1], log[|log| - 1].key)))
  }

  lemma {:induction false} NoRepeatsMore(log: seq<Event>, e: Event)
    requires NoRepeats(log) && (e.Announced? ==> !Live(log, e.key))
    ensures NoRepeats(log + [e])
  {
    assert (log + [e])[..|log|] == log;
  }

  ghost predicate Inv(s: State) {
    && GapsAreSound(s.view)
    && NoRepeats(s.log)
    && forall key {:trigger Live(s.log, key)} :: Live(s.log, key) ==> Seen(s.view, key)
  }

  lemma QuietEventKeeps(s: State, e: Event)
    requires Inv(s) && !e.Announced? && !e.TornDown?
    ensures Inv(Log(s, e))
  {
    NoRepeatsMore(s.log, e);
    forall key | Live(s.log + [e], key) ensures Seen(s.view, key) { LiveMore(s.log, e, key); }
  }

  lemma PassingKeeps(s: State, d: Delivery)
    requires Inv(s)
    ensures Inv(Passed(s, d).state)
  {
    QuietEventKeeps(s.(seen := s.seen - {d.message.Key()}), Propagated(d.message, Targets(s, d)));
  }

  lemma ExaminingKeeps(s: State, m: Message)
    requires Inv(s) && m.chain.stream in s.view.streams
    ensures Inv(Examined(s, m))
  {
    var t := s.(view := Checked(s.view, m.chain, m.numbering));
    CheckingIsSound(s.view, m.chain, m.numbering);
    forall key | Live(s.log, key) ensures Seen(t.view, key) { CheckingKeepsSeen(s.view, m.chain, m.numbering, key); }
    var verdict := VerdictOn(s, m);
    if verdict == New {
      NewIsSeen(s, m);
      var e := Announced(m.Key());
      assert !Live(s.log, m.Key());
      NoRepeatsMore(s.log, e);
      forall key | Live(s.log + [e], key) ensures Seen(t.view, key) { LiveMore(s.log, e, key); }
    } else {
      QuietEventKeeps(t, Ignored(m, verdict));
    }
  }

  lemma ReceivingKeeps(s: State, d: Delivery)
    requires Inv(s)
    ensures Inv(Received(s, d).state)
  {
    var t := SetUp(s, d.message.chain.stream);
    ExaminingKeeps(t, d.message);
    PassingKeeps(Examined(t, d.message), d);
  }

  lemma {:induction false} AllReceivingKeeps(s: State, ds: seq<Delivery>)
    requires Inv(s)
    ensures Inv(AllReceived(s, ds).state)
    decreases |ds|
  {
    if ds != [] {
      AllReceivingKeeps(s, ds[..|ds| - 1]);
      ReceivingKeeps(AllReceived(s, ds[..|ds| - 1]).state, ds[|ds| - 1]);
    }
  }

  lemma TakingDownKeeps(s: State, k: StreamKey)
    requires Inv(s)
    ensures Inv(TakenDown(s, k).state)
  {
    if k in s.view.streams {
      NoRepeatsMore(s.log, TornDown(k));
      forall key | Live(s.log + [TornDown(k)], key) ensures Seen(Removed(s.view, k), key) {
        LiveMore(s.log, TornDown(k), key);
        assert Seen(s.view, key);
      }
    }
  }

  lemma JoiningKeeps(s: State, node: NodeId, k: StreamKey)
    requires Inv(s)
    ensures Inv(SubscribedOn(s, node, k).state)
  {
    if k in s.view.streams {
      var t := s.(view := Joined(s.view, node, k), buffer := s.buffer - {k});
      assert GapsAreSound(t.view);
      AllReceivingKeeps(t, Queue(s.buffer, k));
    }
  }

  lemma StepKeeps(s: State, op: Op)
    requires Inv(s)
    ensures Inv(Apply(s, op))
  {
    match op {
      case Receive(d) => ReceivingKeeps(s, d);
      case SubscribeOn(node, k) => JoiningKeeps(s, node, k);
      case TakeDown(k) => TakingDownKeeps(s, k);
      case _ =>
    }
  }

  lemma {:induction false} EveryRunKeeps(s: State, ops: seq<Op>)
    requires Inv(s)
    ensures Inv(After(s, ops))
    decreases |ops|
  {
    if ops != [] {
      StepKeeps(s, ops[0]);
      EveryRunKeeps(Apply(s, ops[0]), ops[1..]);
    }
  }

  lemma InitialKeeps(maxSize: nat, k: StreamKey)
    ensures var s := State(View(map[], map[]), map[], maxSize, {}, []); Inv(s) && Redeliverable(s, k)
  {
  }

  lemma {:induction false} PrefixHasNoRepeats(log: seq<Event>, j: nat)
    requires NoRepeats(log) && j <= |log|
    ensures NoRepeats(log[..j])
    decreases |log|
  {
    if j < |log| {
      PrefixHasNoRepeats(log[..|log| - 1], j);
      assert log[..|log| - 1][..j] == log[..j];
    } else {
      assert log[..j] == log;
    }
  }

  lemma {:induction false} StaysLive(log: seq<Event>, i: nat, j: nat, key: MessageKey)
    requires i < j <= |log| && log[i] == Announced(key)
    requires forall x :: i < x < j ==> log[x] != TornDown(key.chain.stream)
    ensures Live(log[..j], key)
    decreases j
  {
    assert log[..j] == log[..j - 1] + [log[j - 1]];
    LiveMore(log[..j - 1], log[j - 1], key);
    if j > i + 1 { StaysLive(log, i, j - 1, key); }
  }

  /** The same number of a publisher chain is announced twice only if its stream was given up in
      between, whatever previous references the messages carry.
   */
  lemma AnnouncedAtMostOnce(s: State, i: nat, j: nat, key: MessageKey)
    requires Inv(s) && i < j < |s.log| && s.log[i] == Announced(key) && s.log[j] == Announced(key)
    ensures exists x :: i < x < j && s.log[x] == TornDown(key.chain.stream)
  {
    if forall x :: i < x < j ==> s.log[x] != TornDown(key.chain.stream) {
      StaysLive(s.log, i, j, key);
      NotLiveWhenAnnounced(s.log, j);
    }
  }

  lemma {:induction false} NotLiveWhenAnnounced(log: seq<Event>, j: nat)
    requires NoRepeats(log) && j < |log| && log[j].Announced?
    ensures !Live(log[..j], log[j].key)
  {
    PrefixHasNoRepeats(log, j + 1);
    assert log[..j + 1][..j] == log[..j];
  }

  // ---------- redelivery ----------

  /** The message, delivered again, is a duplicate. */
  ghost predicate Accepted(v: View, m: Message) {
    GapsOf(v, m.chain) != [] && Check(GapsOf(v, m.chain), m.numbering, MAX_GAPS).0 == Duplicate
  }

  lemma DuplicateStays(gaps: seq<Gap>, m: FiniteNumbering, other: FiniteNumbering)
    requires Sorted(gaps) && gaps != [] && |gaps| <= MAX_GAPS && Check(gaps, m, MAX_GAPS).0 == Duplicate
    ensures Check(gaps, other, MAX_GAPS).1 != [] && Check(Check(gaps, other, MAX_GAPS).1, m, MAX_GAPS).0 == Duplicate
  {
    var after := Check(gaps, other, MAX_GAPS).1;
    CheckKeepsSorted(gaps, other, MAX_GAPS);
    CheckOnlyShrinks(gaps, other, MAX_GAPS, m.number);
    if m.previous.Some? {
      VerdictReflectsUnseen(gaps, m, MAX_GAPS);
      VerdictReflectsUnseen(after, m, MAX_GAPS);
      forall x | m.Stretch().Contains(x) ensures !Unseen(after, x) { CheckOnlyShrinks(gaps, other, MAX_GAPS, x); }
    } else {
      UnchainedVerdict(gaps, m, MAX_GAPS);
      UnchainedVerdict(after, m, MAX_GAPS);
      var x: NumberPair :| x.Pair? && x.GreaterThanOrEqual(m.number) && !Unseen(gaps, x);
      CheckOnlyShrinks(gaps, other, MAX_GAPS, x);
    }
  }

  lemma NewBecomesDuplicate(gaps: seq<Gap>, m: FiniteNumbering)
    requires Sorted(gaps) && |gaps| <= MAX_GAPS && Check(gaps, m, MAX_GAPS).0 == New
    ensures Check(gaps, m, MAX_GAPS).1 != [] && Check(Check(gaps, m, MAX_GAPS).1, m, MAX_GAPS).0 == Duplicate
  {
    var after := Check(gaps, m, MAX_GAPS).1;
    CheckKeepsSorted(gaps, m, MAX_GAPS);
    NewIsMarked(gaps, m, MAX_GAPS, m.number);
    if m.previous.Some? {
      forall x | m.Stretch().Contains(x) ensures !Unseen(after, x) { NewIsMarked(gaps, m, MAX_GAPS, x); }
      VerdictReflectsUnseen(after, m, MAX_GAPS);
    } else {
      UnchainedVerdict(after, m, MAX_GAPS);
      assert m.number.GreaterThanOrEqual(m.number);
    }
  }

  lemma CheckingKeepsAccepted(v: View, chain: Chain, m: FiniteNumbering, other: Message)
    requires GapsAreSound(v) && Accepted(v, other)
    ensures Accepted(Checked(v, chain, m), other)
  {
    if chain == other.chain { DuplicateStays(GapsOf(v, chain), other.numbering, m); }
  }

  lemma AcceptedOnceDelivered(s: State, m: Message)
    requires GapsAreSound(s.view) && VerdictOn(s, m) in {New, Duplicate}
    ensures Accepted(Checked(s.view, m.chain, m.numbering), m)
  {
    var gaps := GapsOf(s.view, m.chain);
    if VerdictOn(s, m) == New {
      NewBecomesDuplicate(gaps, m.numbering);
    } else {
      DuplicateStays(gaps, m.numbering, m.numbering);
    }
  }

  ghost predicate AllAccepted(v: View, ds: seq<Delivery>, k: StreamKey) {
    forall i {:trigger ds[i]} :: 0 <= i < |ds| ==> ds[i].message.chain.stream == k && Accepted(v, ds[i].message)
  }

  /** What is buffered for the stream can be delivered again. */
  ghost predicate Redeliverable(s: State, k: StreamKey) {
    |Queue(s.buffer, k)| <= s.maxSize && AllAccepted(s.view, Queue(s.buffer, k), k)
  }

  lemma CheckingKeepsAllAccepted(
      v: View, chain: Chain, m: FiniteNumbering, ds: seq<Delivery>, k: StreamKey)
    requires GapsAreSound(v) && AllAccepted(v, ds, k)
    ensures AllAccepted(Checked(v, chain, m), ds, k)
  {
    forall i | 0 <= i < |ds| ensures Accepted(Checked(v, chain, m), ds[i].message) {
      CheckingKeepsAccepted(v, chain, m, ds[i].message);
    }
  }

  lemma PassingKeepsRedeliverable(s: State, d: Delivery, k: StreamKey)
    requires Redeliverable(s, k) && Accepted(s.view, d.message)
    ensures Redeliverable(Passed(s, d).state, k)
  {
    if d.message.chain.stream == k { PutFailsIff(Queue(s.buffer, k), d, s.maxSize); }
  }

  lemma ReceivingKeepsRedeliverable(s: State, d: Delivery, k: StreamKey)
    requires Inv(s) && Redeliverable(s, k)
    ensures Redeliverable(Received(s, d).state, k)
  {
    var t := SetUp(s, d.message.chain.stream);
    var u := Examined(t, d.message);
    assert AllAccepted(t.view, Queue(s.buffer, k), k);
    CheckingKeepsAllAccepted(t.view, d.message.chain, d.message.numbering, Queue(s.buffer, k), k);
    if VerdictOn(t, d.message) in {New, Duplicate} {
      AcceptedOnceDelivered(t, d.message);
      PassingKeepsRedeliverable(u, d, k);
    }
  }

  lemma {:induction false} AllReceivingKeepsRedeliverable(s: State, ds: seq<Delivery>, k: StreamKey)
    requires Inv(s) && Redeliverable(s, k)
    ensures Redeliverable(AllReceived(s, ds).state, k)
    decreases |ds|
  {
    if ds != [] {
      AllReceivingKeeps(s, ds[..|ds| - 1]);
      AllReceivingKeepsRedeliverable(s, ds[..|ds| - 1], k);
      ReceivingKeepsRedeliverable(AllReceived(s, ds[..|ds| - 1]).state, ds[|ds| - 1], k);
    }
  }

  lemma JoinedIsRedeliverable(s: State, node: NodeId, j: StreamKey, k: StreamKey)
    requires Inv(s) && Redeliverable(s, k) && j in s.view.streams
    ensures var t := s.(view := Joined(s.view, node, j), buffer := s.buffer - {j}); Inv(t) && Redeliverable(t, k)
  {
    var t := s.(view := Joined(s.view, node, j), buffer := s.buffer - {j});
    assert Queue(t.buffer, k) == if j == k then [] else Queue(s.buffer, k);
  }

  lemma StepKeepsRedeliverable(s: State, op: Op, k: StreamKey)
    requires Inv(s) && Redeliverable(s, k) && op != TakeDown(k)
    ensures Redeliverable(Apply(s, op), k)
  {
    match op {
      case Receive(d) => ReceivingKeepsRedeliverable(s, d, k);
      case SubscribeOn(node, j) =>
        if j in s.view.streams {
          var t := s.(view := Joined(s.view, node, j), buffer := s.buffer - {j});
          JoinedIsRedeliverable(s, node, j, k);
          AllReceivingKeepsRedeliverable(t, Queue(s.buffer, j), k);
        }
      case TakeDown(j) => RemovingKeepsAccepted(s.view, j, Queue(s.buffer, k), k);
      case TimeOut(j) =>
        var q := Queue(s.buffer, k);
        assert Queue(TimedOut(s, j).buffer, k) == if j == k && q != [] then q[1..] else q;
      case _ =>
    }
  }

  lemma RemovingKeepsAccepted(v: View, j: StreamKey, ds: seq<Delivery>, k: StreamKey)
    requires j != k && AllAccepted(v, ds, k)
    ensures AllAccepted(Removed(v, j), ds, k)
  {
    forall i | 0 <= i < |ds| ensures Accepted(Removed(v, j), ds[i].message) { assert Accepted(v, ds[i].message); }
  }

  /** As long as the stream is not given up, whatever is buffered for it can be delivered again. */
  lemma {:induction false} EveryRunKeepsRedeliverable(s: State, ops: seq<Op>, k: StreamKey)
    requires Inv(s) && Redeliverable(s, k) && TakeDown(k) !in ops
    ensures Inv(After(s, ops)) && Redeliverable(After(s, ops), k)
    decreases |ops|
  {
    if ops != [] {
      StepKeeps(s, ops[0]);
      StepKeepsRedeliverable(s, ops[0], k);
      EveryRunKeepsRedeliverable(Apply(s, ops[0]), ops[1..], k);
    }
  }

  /** Nothing was announced and no error was met: only duplicates, ignored or passed on. */
  ghost predicate Quiet(before: seq<Event>, after: seq<Event>) {
    before <= after && forall i :: |before| <= i < |after| ==>
        after[i].Propagated? || (after[i].Ignored? && after[i].verdict == Duplicate)
  }

  lemma RedeliveryIsQuiet(s: State, d: Delivery)
    requires GapsAreSound(s.view) && d.message.chain.stream in s.view.streams && Accepted(s.view, d.message)
    requires |Queue(s.buffer, d.message.chain.stream)| < s.maxSize
    ensures var r := Received(s, d);
            && r.ok && Quiet(s.log, r.state.log) && r.state.maxSize == s.maxSize
            && d.message.chain.stream in r.state.view.streams
            && |Queue(r.state.buffer, d.message.chain.stream)| <= |Queue(s.buffer, d.message.chain.stream)| + 1
  {
  }

  ghost predicate KeepsAccepted(v: View, w: View) {
    forall m: Message :: Accepted(v, m) ==> Accepted(w, m)
  }

  lemma ReceivingKeepsAllAccepted(v: View, s: State, d: Delivery)
    requires GapsAreSound(s.view) && d.message.chain.stream in s.view.streams && KeepsAccepted(v, s.view)
    ensures KeepsAccepted(v, Received(s, d).state.view)
  {
    assert Received(s, d).state.view == Checked(s.view, d.message.chain, d.message.numbering);
    forall m: Message | Accepted(v, m) ensures Accepted(Received(s, d).state.view, m) {
      CheckingKeepsAccepted(s.view, d.message.chain, d.message.numbering, m);
    }
  }

  lemma {:induction false} RedeliveriesAreQuiet(s: State, ds: seq<Delivery>, k: StreamKey)
    requires Inv(s) && k in s.view.streams && AllAccepted(s.view, ds, k)
    requires |Queue(s.buffer, k)| + |ds| <= s.maxSize
    ensures var r := AllReceived(s, ds);
            && r.ok && Quiet(s.log, r.state.log) && r.state.maxSize == s.maxSize && k in r.state.view.streams
            && |Queue(r.state.buffer, k)| <= |Queue(s.buffer, k)| + |ds|
    ensures KeepsAccepted(s.view, AllReceived(s, ds).state.view)
    decreases |ds|
  {
    if ds != [] {
      var last := |ds| - 1;
      assert AllAccepted(s.view, ds[..last], k);
      RedeliveriesAreQuiet(s, ds[..last], k);
      AllReceivingKeeps(s, ds[..last]);
      var r := AllReceived(s, ds[..last]);
      assert Accepted(s.view, ds[last].message);
      RedeliveryIsQuiet(r.state, ds[last]);
      ReceivingKeepsAllAccepted(s.view, r.state, ds[last]);
    }
  }

  /** A neighbor that joins a stream not given up since its messages were buffered: they are all
      delivered again without an error, without failing, and without being announced.
   */
  lemma RedeliveryNeverAnnounces(s: State, node: NodeId, k: StreamKey)
    requires Inv(s) && Redeliverable(s, k) && k in s.view.streams
    ensures SubscribedOn(s, node, k).ok && Quiet(s.log, SubscribedOn(s, node, k).state.log)
  {
    var t := s.(view := Joined(s.view, node, k), buffer := s.buffer - {k});
    RedeliveriesAreQuiet(t, Queue(s.buffer, k), k);
  }

  /** A message from outside makes the node fail exactly when it must be buffered where a single
      message is waiting and the limit is one, or where the limit is zero.
   */
  lemma ReceivingFailsIff(s: State, d: Delivery)
    requires |Queue(s.buffer, d.message.chain.stream)| <= s.maxSize
    ensures var k := d.message.chain.stream;
            var verdict := VerdictOn(s, d.message);
            Received(s, d).ok == false <==>
              && (verdict == New || (verdict == Duplicate && d.message.Key() in s.seen))
              && Targets(s, d) == {}
              && |Queue(s.buffer, k)| == s.maxSize <= 1
  {
    var t := SetUp(s, d.message.chain.stream);
    assert Targets(t, d) == Targets(s, d);
    PutFailsIff(Queue(s.buffer, d.message.chain.stream), d, s.maxSize);
  }

  // ---------- no message stays behind ----------

  ghost predicate PropagatedSince(log: seq<Event>, n: nat, key: MessageKey) {
    exists x :: n <= x < |log| && log[x].Propagated? && log[x].message.Key() == key
  }

  lemma PropagatedStays(log: seq<Event>, more: seq<Event>, n: nat, m: nat, key: MessageKey)
    requires PropagatedSince(log, n, key) && log <= more && m <= n
    ensures PropagatedSince(more, m, key)
  {
    var x :| n <= x < |log| && log[x].Propagated? && log[x].message.Key() == key;
    assert more[x] == log[x];
  }

  /** A mark goes only when its message is passed on. */
  lemma ReceivingKeepsMark(s: State, d: Delivery, key: MessageKey)
    requires key in s.seen
    ensures var t := Received(s, d).state;
            s.log <= t.log && (key in t.seen || PropagatedSince(t.log, |s.log|, key))
  {
    var t := Received(s, d).state;
    if key !in t.seen { assert t.log[|t.log| - 1].Propagated? && t.log[|t.log| - 1].message.Key() == key; }
  }

  lemma ReceivingKeepsNodes(s: State, d: Delivery, k: StreamKey)
    requires k in s.view.streams
    ensures var t := Received(s, d).state; k in t.view.streams && t.view.streams[k] == s.view.streams[k]
  {
  }

  lemma ReceivingPropagates(n: nat, s: State, d: Delivery, node: NodeId)
    requires Accepted(s.view, d.message) && d.message.Key() in s.seen && node in Targets(s, d) && n <= |s.log|
    ensures PropagatedSince(Received(s, d).state.log, n, d.message.Key())
  {
    var t := Received(s, d).state;
    assert t.log == s.log + [Propagated(d.message, Targets(s, d))];
    assert t.log[|s.log|].Propagated?;
  }

  lemma {:induction false} LastIsPropagated(s: State, ds: seq<Delivery>, k: StreamKey, node: NodeId)
    requires Inv(s) && k in s.view.streams && node in s.view.streams[k].outbound
    requires ds != [] && AllAccepted(s.view, ds, k) && |Queue(s.buffer, k)| + |ds| <= s.maxSize
    requires ds[|ds| - 1].source != Some(node) && ds[|ds| - 1].message.Key() in s.seen
    ensures PropagatedSince(AllReceived(s, ds).state.log, |s.log|, ds[|ds| - 1].message.Key())
  {
    var d := ds[|ds| - 1];
    PrefixIsAccepted(s.view, ds, k);
    var r := LastComesThrough(s, ds, k);
    MarksAndNodesStay(s, ds[..|ds| - 1], k, d.message.Key());
    if d.message.Key() in r.seen {
      assert node in Targets(r, d);
      ReceivingPropagates(|s.log|, r, d, node);
    } else {
      StillPropagated(|s.log|, r, d, d.message.Key());
    }
  }

  /** A marked message is passed on by the time its turn has come, if its stream has a neighbor other
      than the one it came from.
   */
  lemma {:induction false} MarkedIsPropagated(s: State, ds: seq<Delivery>, k: StreamKey, i: nat, node: NodeId)
    requires Inv(s) && k in s.view.streams && node in s.view.streams[k].outbound
    requires AllAccepted(s.view, ds, k) && |Queue(s.buffer, k)| + |ds| <= s.maxSize
    requires i < |ds| && ds[i].source != Some(node) && ds[i].message.Key() in s.seen
    ensures PropagatedSince(AllReceived(s, ds).state.log, |s.log|, ds[i].message.Key())
    decreases |ds|
  {
    if i == |ds| - 1 {
      LastIsPropagated(s, ds, k, node);
    } else {
      PrefixIsAccepted(s.view, ds, k);
      var r := LastComesThrough(s, ds, k);
      MarkedIsPropagated(s, ds[..|ds| - 1], k, i, node);
      StillPropagated(|s.log|, r, ds[|ds| - 1], ds[i].message.Key());
    }
  }

  lemma StillPropagated(n: nat, s: State, d: Delivery, key: MessageKey)
    requires PropagatedSince(s.log, n, key)
    ensures PropagatedSince(Received(s, d).state.log, n, key)
  {
    var log := Received(s, d).state.log;
    assert s.log <= log;
    PropagatedStays(s.log, log, n, n, key);
  }

  lemma LastComesThrough(s: State, ds: seq<Delivery>, k: StreamKey) returns (r: State)
    requires Inv(s) && k in s.view.streams && AllAccepted(s.view, ds, k) && |Queue(s.buffer, k)| + |ds| <= s.maxSize
        && ds != []
    ensures AllReceived(s, ds[..|ds| - 1]) == Step(r, true)
    ensures AllReceived(s, ds) == Received(r, ds[|ds| - 1])
    ensures Accepted(r.view, ds[|ds| - 1].message)
  {
    PrefixIsAccepted(s.view, ds, k);
    RedeliveriesAreQuiet(s, ds[..|ds| - 1], k);
    r := AllReceived(s, ds[..|ds| - 1]).state;
  }

  lemma ReceivingOnlyLogs(s: State, d: Delivery)
    ensures s.log <= Received(s, d).state.log
  {
  }

  lemma PrefixIsAccepted(v: View, ds: seq<Delivery>, k: StreamKey)
    requires AllAccepted(v, ds, k) && ds != []
    ensures AllAccepted(v, ds[..|ds| - 1], k) && ds[|ds| - 1].message.chain.stream == k
        && Accepted(v, ds[|ds| - 1].message)
  {
    var front := ds[..|ds| - 1];
    forall i | 0 <= i < |front|
      ensures front[i].message.chain.stream == k && Accepted(v, front[i].message)
    {
      assert front[i] == ds[i];
    }
  }

  lemma {:induction false} MarksAndNodesStay(s: State, ds: seq<Delivery>, k: StreamKey, key: MessageKey)
    requires k in s.view.streams && key in s.seen
    ensures var t := AllReceived(s, ds).state;
            && s.log <= t.log && (key in t.seen || PropagatedSince(t.log, |s.log|, key))
            && k in t.view.streams && t.view.streams[k] == s.view.streams[k]
    decreases |ds|
  {
    if ds != [] {
      var d := ds[|ds| - 1];
      MarksAndNodesStay(s, ds[..|ds| - 1], k, key);
      var r := AllReceived(s, ds[..|ds| - 1]);
      if r.ok {
        assert AllReceived(s, ds) == Received(r.state, d);
        var t := Received(r.state, d).state;
        ReceivingOnlyLogs(r.state, d);
        ReceivingKeepsNodes(r.state, d, k);
        if key in r.state.seen {
          ReceivingKeepsMark(r.state, d, key);
          if key !in t.seen { PropagatedStays(t.log, t.log, |r.state.log|, |s.log|, key); }
        } else {
          PropagatedStays(r.state.log, t.log, |s.log|, |s.log|, key);
        }
      }
    }
  }

  /** Every marked message buffered for a stream is passed on when a neighbor joins it, unless it
      came from that very neighbor.
   */
  lemma JoiningEmptiesTheBuffer(s: State, node: NodeId, k: StreamKey, i: nat)
    requires Inv(s) && Redeliverable(s, k) && k in s.view.streams && i < |Queue(s.buffer, k)|
    requires Queue(s.buffer, k)[i].source != Some(node) && Queue(s.buffer, k)[i].message.Key() in s.seen
    ensures PropagatedSince(SubscribedOn(s, node, k).state.log, |s.log|, Queue(s.buffer, k)[i].message.Key())
  {
    var t := s.(view := Joined(s.view, node, k), buffer := s.buffer - {k});
    MarkedIsPropagated(t, Queue(s.buffer, k), k, i, node);
  }
}
