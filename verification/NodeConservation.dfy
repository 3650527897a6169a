/** No announced message stays behind: until it has been passed on it is marked, and waits in the
    buffer of its stream.
 */
module NodeConservation {
  import opened Identifiers
  import opened Options
  import opened DuplicateMessageDetectors
  import opened StreamManagers
  import opened MessageBuffers
  import opened Nodes
  import opened NodeGuarantees

  // ---------- what is owed ----------

  /** Announced, and since then neither passed on nor given up with its stream. */
  ghost predicate Owed(log: seq<Event>, key: MessageKey) {
    log != [] && StillOwed(Owed(log[..|log| - 1], key), log[|log| - 1], key)
  }

  ghost predicate StillOwed(owed: bool, e: Event, key: MessageKey) {
    match e
    case Announced(other) => owed || other == key
    case Propagated(m, _) => owed && m.Key() != key
    case TornDown(k) => owed && k != key.chain.stream
    case Ignored(_, _) => owed
  }

  lemma {:induction false} OwedMore(log: seq<Event>, e: Event, key: MessageKey)
    ensures Owed(log + [e], key) == StillOwed(Owed(log, key), e, key)
  {
    assert (log + [e])[..|log|] == log;
  }

  /** An announced message has been passed on since, was given up with its stream, or is owed. */
  lemma {:induction false} AnnouncedIsOwedOrSettled(log: seq<Event>, i: nat, key: MessageKey)
    requires i < |log| && log[i] == Announced(key)
    ensures Owed(log, key) || PropagatedSince(log, i + 1, key)
            || exists x :: i < x < |log| && log[x] == TornDown(key.chain.stream)
    decreases |log|
  {
    var front, e := log[..|log| - 1], log[|log| - 1];
    assert log == front + [e];
    OwedMore(front, e, key);
    if i < |front| {
      AnnouncedIsOwedOrSettled(front, i, key);
      if PropagatedSince(front, i + 1, key) { PropagatedStays(front, log, i + 1, i + 1, key); }
    }
  }

  /** A message passed on and not announced again is not owed. */
  lemma {:induction false} PropagatedIsNotOwed(log: seq<Event>, n: nat, key: MessageKey)
    requires PropagatedSince(log, n, key)
    requires forall x :: n <= x < |log| ==> log[x] != Announced(key)
    ensures !Owed(log, key)
    decreases |log|
  {
    var front, e := log[..|log| - 1], log[|log| - 1];
    assert log == front + [e];
    OwedMore(front, e, key);
    if Owed(log, key) {
      var x :| n <= x < |log| && log[x].Propagated? && log[x].message.Key() == key;
      assert front[x] == log[x];
      PropagatedIsNotOwed(front, n, key);
    }
  }

  // ---------- where it waits ----------

  ghost predicate Holds(q: seq<Delivery>, key: MessageKey) {
    exists i :: 0 <= i < |q| && q[i].message.Key() == key
  }

  /** What is owed on stream k, but for one key, is marked, and buffered or still to be received. */
  ghost predicate OthersWait(log: seq<Event>, seen: set<MessageKey>, q: seq<Delivery>, rest: seq<Delivery>,
                             k: StreamKey, but: Option<MessageKey>) {
    forall key: MessageKey {:trigger Owed(log, key)} :: key.chain.stream == k && Some(key) != but && Owed(log, key) ==>
      key in seen && (Holds(q, key) || Holds(rest, key))
  }

  ghost predicate Waits(s: State, k: StreamKey, rest: seq<Delivery>) {
    OthersWait(s.log, s.seen, Queue(s.buffer, k), rest, k, None)
  }

  lemma HoldsInBoth(a: seq<Delivery>, b: seq<Delivery>, key: MessageKey)
    ensures Holds(a + b, key) <==> Holds(a, key) || Holds(b, key)
  {
    if Holds(a, key) {
      var i :| 0 <= i < |a| && a[i].message.Key() == key;
      assert (a + b)[i] == a[i];
    }
    if Holds(b, key) {
      var i :| 0 <= i < |b| && b[i].message.Key() == key;
      assert (a + b)[|a| + i] == b[i];
    }
  }

  /** A message that is passed on is no longer owed; one that is buffered waits. */
  lemma PassingWaits(s: State, d: Delivery, k: StreamKey, rest: seq<Delivery>)
    requires d.message.chain.stream == k
    requires OthersWait(s.log, s.seen, Queue(s.buffer, k), rest, k, Some(d.message.Key()))
    requires Targets(s, d) != {} || |Queue(s.buffer, k)| < s.maxSize
    ensures Waits(Passed(s, d).state, k, rest)
  {
    var t, own := Passed(s, d).state, d.message.Key();
    forall key: MessageKey | key.chain.stream == k && Owed(t.log, key)
      ensures key in t.seen && (Holds(Queue(t.buffer, k), key) || Holds(rest, key))
    {
      if Targets(s, d) != {} {
        OwedMore(s.log, Propagated(d.message, Targets(s, d)), key);
      } else {
        HoldsInBoth(Queue(s.buffer, k), [d], key);
        if key == own { assert [d][0].message.Key() == own; }
      }
    }
  }

  /** An event makes nothing owed but what it announces. */
  lemma OthersWaitOn(log: seq<Event>, e: Event, seen: set<MessageKey>, q: seq<Delivery>,
                                        rest: seq<Delivery>, k: StreamKey, but: Option<MessageKey>)
    requires OthersWait(log, seen, q, rest, k, but)
    requires e.Announced? ==> Some(e.key) == but || e.key.chain.stream != k
    ensures OthersWait(log + [e], seen, q, rest, k, but)
  {
    forall key: MessageKey | key.chain.stream == k && Some(key) != but && Owed(log + [e], key) ensures Owed(log, key) {
      OwedMore(log, e, key);
    }
  }

  lemma ExaminingWaits(
      s: State, m: Message, k: StreamKey, rest: seq<Delivery>, but: Option<MessageKey>)
    requires OthersWait(s.log, s.seen, Queue(s.buffer, k), rest, k, but)
    requires VerdictOn(s, m) == New ==> but == Some(m.Key()) || m.chain.stream != k
    ensures var t := Examined(s, m); OthersWait(t.log, t.seen, Queue(t.buffer, k), rest, k, but)
  {
    var verdict := VerdictOn(s, m);
    var e := if verdict == New then Announced(m.Key()) else Ignored(m, verdict);
    OthersWaitOn(s.log, e, s.seen, Queue(s.buffer, k), rest, k, but);
  }

  lemma AllButTheFirstWait(s: State, d: Delivery, k: StreamKey, rest: seq<Delivery>)
    requires Waits(s, k, [d] + rest)
    ensures OthersWait(s.log, s.seen, Queue(s.buffer, k), rest, k, Some(d.message.Key()))
  {
    forall key: MessageKey | key != d.message.Key() ensures Holds([d] + rest, key) ==> Holds(rest, key) {
      HoldsInBoth([d], rest, key);
    }
  }

  // ---------- one message ----------

  /** The message would go to the buffer, and the buffer of its stream is full. */
  ghost predicate Evicts(s: State, d: Delivery) {
    var verdict := VerdictOn(s, d.message);
    && (verdict == New || (verdict == Duplicate && d.message.Key() in s.seen))
    && Targets(s, d) == {}
    && |Queue(s.buffer, d.message.chain.stream)| >= s.maxSize
  }

  /** The first of the messages to be received is received; if it is in error it was no copy of one
      that only waits here.
   */
  lemma ReceivingWaits(s: State, d: Delivery, k: StreamKey, rest: seq<Delivery>)
    requires d.message.chain.stream == k && Waits(s, k, [d] + rest) && !Evicts(s, d)
    requires VerdictOn(s, d.message) in {New, Duplicate} || Waits(s, k, rest)
    ensures Waits(Received(s, d).state, k, rest)
  {
    var t, own := SetUp(s, k), d.message.Key();
    assert Targets(t, d) == Targets(s, d);
    AllButTheFirstWait(s, d, k, rest);
    ExaminingWaits(t, d.message, k, rest, Some(own));
    var u, verdict := Examined(t, d.message), VerdictOn(t, d.message);
    if verdict == New || (verdict == Duplicate && own in s.seen) {
      PassingWaits(u, d, k, rest);
    } else if verdict == Duplicate {
      OwedMore(s.log, Ignored(d.message, Duplicate), own);
      assert !Owed(s.log, own);
    } else {
      ExaminingWaits(t, d.message, k, rest, None);
    }
  }

  lemma PassingElsewhereWaits(s: State, d: Delivery, k: StreamKey, rest: seq<Delivery>)
    requires d.message.chain.stream != k && Waits(s, k, rest)
    ensures Waits(Passed(s, d).state, k, rest)
  {
    var q, e := Queue(s.buffer, k), Propagated(d.message, Targets(s, d));
    assert Queue(Passed(s, d).state.buffer, k) == q;
    OthersWaitOn(s.log, e, s.seen, q, rest, k, None);
    MarksElsewhere(s.log + [e], s.seen, d.message.Key(), q, rest, k);
    MarksElsewhere(s.log, s.seen, d.message.Key(), q, rest, k);
  }

  lemma MarksElsewhere(log: seq<Event>, seen: set<MessageKey>, other: MessageKey,
                                          q: seq<Delivery>, rest: seq<Delivery>, k: StreamKey)
    requires OthersWait(log, seen, q, rest, k, None) && other.chain.stream != k
    ensures OthersWait(log, seen - {other}, q, rest, k, None) && OthersWait(log, seen + {other}, q, rest, k, None)
  {
  }

  lemma ReceivingElsewhereWaits(s: State, d: Delivery, k: StreamKey, rest: seq<Delivery>)
    requires d.message.chain.stream != k && Waits(s, k, rest)
    ensures Waits(Received(s, d).state, k, rest)
  {
    var t := SetUp(s, d.message.chain.stream);
    ExaminingWaits(t, d.message, k, rest, None);
    PassingElsewhereWaits(Examined(t, d.message), d, k, rest);
  }

  // ---------- a neighbor joins ----------

  lemma {:induction false} RedeliveringWaits(s: State, ds: seq<Delivery>, rest: seq<Delivery>, k: StreamKey)
    requires Inv(s) && k in s.view.streams && AllAccepted(s.view, ds, k)
    requires |Queue(s.buffer, k)| + |ds| <= s.maxSize && Waits(s, k, ds + rest)
    ensures Waits(AllReceived(s, ds).state, k, rest)
    decreases |ds|
  {
    if ds == [] {
      assert ds + rest == rest;
    } else {
      var front, last := ds[..|ds| - 1], ds[|ds| - 1];
      PrefixIsAccepted(s.view, ds, k);
      assert ds + rest == front + ([last] + rest);
      RedeliveringWaits(s, front, [last] + rest, k);
      var r := LastComesThrough(s, ds, k);
      QueueStaysShort(s, front, k);
      ReceivingWaits(r, last, k, rest);
    }
  }

  lemma {:induction false} QueueStaysShort(s: State, ds: seq<Delivery>, k: StreamKey)
    requires Inv(s) && k in s.view.streams && AllAccepted(s.view, ds, k) && |Queue(s.buffer, k)| + |ds| <= s.maxSize
    ensures var r := AllReceived(s, ds).state;
            |Queue(r.buffer, k)| <= |Queue(s.buffer, k)| + |ds| && r.maxSize == s.maxSize
  {
    RedeliveriesAreQuiet(s, ds, k);
  }

  lemma {:induction false} RedeliveringElsewhereWaits(s: State, ds: seq<Delivery>, j: StreamKey, k: StreamKey)
    requires j != k && Waits(s, k, []) && forall i :: 0 <= i < |ds| ==> ds[i].message.chain.stream == j
    ensures Waits(AllReceived(s, ds).state, k, [])
    decreases |ds|
  {
    if ds != [] {
      RedeliveringElsewhereWaits(s, ds[..|ds| - 1], j, k);
      var r := AllReceived(s, ds[..|ds| - 1]);
      if r.ok { ReceivingElsewhereWaits(r.state, ds[|ds| - 1], k, []); }
    }
  }

  // ---------- runs ----------

  /** Every buffered message is in the buffer of its own stream. */
  ghost predicate Homed(buffer: map<StreamKey, seq<Delivery>>) {
    forall j {:trigger AllOf(buffer[j], j)} :: j in buffer ==> AllOf(buffer[j], j)
  }

  ghost predicate AllOf(ds: seq<Delivery>, j: StreamKey) {
    forall i :: 0 <= i < |ds| ==> ds[i].message.chain.stream == j
  }

  lemma ReceivingKeepsHomes(s: State, d: Delivery)
    requires Homed(s.buffer)
    ensures Homed(Received(s, d).state.buffer)
  {
    var b, k := Received(s, d).state.buffer, d.message.chain.stream;
    assert k in s.buffer ==> AllOf(s.buffer[k], k);
    forall j | j in b ensures AllOf(b[j], j) {
      if j != k { assert b[j] == s.buffer[j] && AllOf(s.buffer[j], j); }
    }
  }

  lemma {:induction false} AllReceivingKeepsHomes(s: State, ds: seq<Delivery>)
    requires Homed(s.buffer)
    ensures Homed(AllReceived(s, ds).state.buffer)
    decreases |ds|
  {
    if ds != [] {
      AllReceivingKeepsHomes(s, ds[..|ds| - 1]);
      ReceivingKeepsHomes(AllReceived(s, ds[..|ds| - 1]).state, ds[|ds| - 1]);
    }
  }

  lemma SubsetKeepsHomes(a: map<StreamKey, seq<Delivery>>, b: map<StreamKey, seq<Delivery>>)
    requires Homed(a)
    requires forall j {:trigger b[j]} :: j in b ==> j in a && (b[j] == a[j] || (a[j] != [] && b[j] == a[j][1..]))
    ensures Homed(b)
  {
    forall j | j in b ensures AllOf(b[j], j) { assert AllOf(a[j], j); }
  }

  lemma StepKeepsHomes(s: State, op: Op)
    requires Homed(s.buffer)
    ensures Homed(Apply(s, op).buffer)
  {
    match op {
      case Receive(d) => ReceivingKeepsHomes(s, d);
      case SubscribeOn(node, j) =>
        if j in s.view.streams {
          var t := s.(view := Joined(s.view, node, j), buffer := s.buffer - {j});
          SubsetKeepsHomes(s.buffer, t.buffer);
          AllReceivingKeepsHomes(t, Queue(s.buffer, j));
        }
      case TimeOut(j) => SubsetKeepsHomes(s.buffer, TimedOut(s, j).buffer);
      case _ =>
    }
  }

  /** Nothing of stream k is lost by design: no mark forgotten, no message timed out or pushed out of
      the buffer, and the stream not given up.
   */
  ghost predicate Harmless(s: State, op: Op, k: StreamKey) {
    match op
    case Receive(d) => d.message.chain.stream == k ==> !Evicts(s, d)
    case TakeDown(j) => j != k
    case TimeOut(j) => j != k
    case LoseMark(key) => key.chain.stream != k
    case _ => true
  }

  lemma JoiningWaits(s: State, node: NodeId, j: StreamKey, k: StreamKey)
    requires Inv(s) && Redeliverable(s, k) && Homed(s.buffer) && Waits(s, k, []) && j in s.view.streams
    ensures Waits(SubscribedOn(s, node, j).state, k, [])
  {
    var t, ds := s.(view := Joined(s.view, node, j), buffer := s.buffer - {j}), Queue(s.buffer, j);
    if j == k {
      assert ds + [] == ds;
      RedeliveringWaits(t, ds, [], k);
    } else {
      assert j in s.buffer ==> AllOf(s.buffer[j], j);
      assert Queue(t.buffer, k) == Queue(s.buffer, k);
      RedeliveringElsewhereWaits(t, ds, j, k);
    }
  }

  lemma StepWaits(s: State, op: Op, k: StreamKey)
    requires Inv(s) && Redeliverable(s, k) && Homed(s.buffer) && Waits(s, k, []) && Harmless(s, op, k)
    ensures Waits(Apply(s, op), k, [])
  {
    match op {
      case Receive(d) =>
        if d.message.chain.stream != k {
          ReceivingElsewhereWaits(s, d, k, []);
        } else {
          MoreWaits(s, k, [d]);
          assert [d] + [] == [d];
          ReceivingWaits(s, d, k, []);
        }
      case SubscribeOn(node, j) => if j in s.view.streams { JoiningWaits(s, node, j, k); }
      case TakeDown(j) => OthersWaitOn(s.log, TornDown(j), s.seen, Queue(s.buffer, k), [], k, None);
      case TimeOut(j) => assert Queue(TimedOut(s, j).buffer, k) == Queue(s.buffer, k);
      case LoseMark(key) => MarksElsewhere(s.log, s.seen, key, Queue(s.buffer, k), [], k);
      case _ =>
    }
  }

  lemma MoreWaits(s: State, k: StreamKey, rest: seq<Delivery>)
    requires Waits(s, k, [])
    ensures Waits(s, k, rest)
  {
  }

  ghost predicate AllHarmless(s: State, ops: seq<Op>, k: StreamKey)
    decreases |ops|
  {
    ops == [] || (Harmless(s, ops[0], k) && AllHarmless(Apply(s, ops[0]), ops[1..], k))
  }

  /** The node between two events, as far as stream k is concerned. */
  ghost predicate Sound(s: State, k: StreamKey) {
    Inv(s) && Redeliverable(s, k) && Homed(s.buffer) && Waits(s, k, [])
  }

  lemma InitialIsSound(maxSize: nat, k: StreamKey)
    ensures Sound(State(View(map[], map[]), map[], maxSize, {}, []), k)
  {
  }

  /** Conservation: over every run that loses nothing of the stream by design, whatever has been
      announced on it is passed on, or is marked and waits in its buffer.
   */
  lemma {:induction false} EveryRunWaits(s: State, ops: seq<Op>, k: StreamKey)
    requires Sound(s, k) && AllHarmless(s, ops, k)
    ensures Sound(After(s, ops), k)
    decreases |ops|
  {
    if ops != [] {
      StepKeeps(s, ops[0]);
      StepKeepsRedeliverable(s, ops[0], k);
      StepKeepsHomes(s, ops[0]);
      StepWaits(s, ops[0], k);
      EveryRunWaits(Apply(s, ops[0]), ops[1..], k);
    }
  }

  /** When a neighbor joins, everything owed on the stream is passed on, but for messages of which
      the neighbor itself was the only source.
   */
  lemma {:induction false} JoiningPaysWhatIsOwed(s: State, node: NodeId, k: StreamKey, key: MessageKey, i: nat)
    requires Sound(s, k) && k in s.view.streams && key.chain.stream == k && Owed(s.log, key)
    requires i < |Queue(s.buffer, k)| && Queue(s.buffer, k)[i].message.Key() == key
    requires Queue(s.buffer, k)[i].source != Some(node)
    ensures PropagatedSince(SubscribedOn(s, node, k).state.log, |s.log|, key)
    ensures !Owed(SubscribedOn(s, node, k).state.log, key)
  {
    JoiningEmptiesTheBuffer(s, node, k, i);
    RedeliveryNeverAnnounces(s, node, k);
    PropagatedIsNotOwed(SubscribedOn(s, node, k).state.log, |s.log|, key);
  }

  /** From the start: an announced message whose stream was not given up since has been passed on, or
      is marked and buffered for its stream.
   */
  lemma {:induction false} NoAnnouncedMessageIsLost(maxSize: nat, ops: seq<Op>, k: StreamKey, i: nat, key: MessageKey)
    requires AllHarmless(State(View(map[], map[]), map[], maxSize, {}, []), ops, k)
    requires var log := After(State(View(map[], map[]), map[], maxSize, {}, []), ops).log;
             i < |log| && log[i] == Announced(key) && key.chain.stream == k
             && forall x :: i < x < |log| ==> log[x] != TornDown(k)
    ensures var s := After(State(View(map[], map[]), map[], maxSize, {}, []), ops);
            || PropagatedSince(s.log, i + 1, key)
            || (key in s.seen && Holds(Queue(s.buffer, k), key))
  {
    var start := State(View(map[], map[]), map[], maxSize, {}, []);
    InitialIsSound(maxSize, k);
    EveryRunWaits(start, ops, k);
    AnnouncedIsOwedOrSettled(After(start, ops).log, i, key);
  }
}
