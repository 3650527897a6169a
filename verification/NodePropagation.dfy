/** To whom a node sends a message, exactly; and that nobody is sent what came from itself. */
module NodePropagation {
  import opened Identifiers
  import opened Options
  import opened DuplicateMessageDetectors
  import opened StreamManagers
  import opened MessageBuffers
  import opened Nodes
  import opened NodeGuarantees

  // ---------- one message ----------

  /** Since event n the message was sent to the node. */
  ghost predicate SentTo(log: seq<Event>, n: nat, m: Message, node: NodeId) {
    exists x :: n <= x < |log| && log[x].Propagated? && log[x].message == m && node in log[x].targets
  }

  /** What the detector of the message's chain says of it. */
  function DetectorSays(s: State, m: Message): Verdict {
    Check(if m.chain in s.view.gaps then s.view.gaps[m.chain] else [], m.numbering, MAX_GAPS).0
  }

  /** New, or a duplicate that was marked for not having been passed on. */
  predicate Due(s: State, d: Delivery) {
    var verdict := DetectorSays(s, d.message);
    verdict == New || (verdict == Duplicate && d.message.Key() in s.seen)
  }

  /** A neighbor the message may go to: one that it did not come from. */
  predicate Eligible(s: State, d: Delivery, node: NodeId) {
    var k := d.message.chain.stream;
    k in s.view.streams && node in s.view.streams[k].outbound && d.source != Some(node)
  }

  lemma TargetsAreEligible(s: State, d: Delivery)
    ensures forall node :: node in Targets(s, d) <==> Eligible(s, d, node)
  {
  }

  lemma NewIsAnnounced(s: State, d: Delivery)
    ensures var t := Received(s, d).state;
            && s.log <= t.log
            && (Announced(d.message.Key()) in t.log[|s.log|..] <==> DetectorSays(s, d.message) == New)
            && forall x :: |s.log| <= x < |t.log| && t.log[x].Announced? ==> t.log[x].key == d.message.Key()
  {
    var t, u := SetUp(s, d.message.chain.stream), Received(s, d).state;
    assert VerdictOn(t, d.message) == DetectorSays(s, d.message);
    if DetectorSays(s, d.message) == New { assert u.log[|s.log|..][0] == u.log[|s.log|]; }
  }

  /** Receiving a message ends with its being ignored exactly if it is not due. */
  lemma IgnoredIffNotDue(s: State, d: Delivery)
    ensures var log := Received(s, d).state.log;
            && (Ignored(d.message, DetectorSays(s, d.message)) in log[|s.log|..] <==> !Due(s, d))
            && (Due(s, d) ==> forall x :: |s.log| <= x < |log| ==> !log[x].Ignored?)
  {
    var t, u := SetUp(s, d.message.chain.stream), Received(s, d).state;
    assert VerdictOn(t, d.message) == DetectorSays(s, d.message);
    if !Due(s, d) { assert u.log[|s.log|..][0] == u.log[|s.log|]; }
  }

  lemma PassingSendsExactly(s: State, d: Delivery, n: nat, node: NodeId)
    requires n <= |s.log| && forall x :: n <= x < |s.log| ==> !s.log[x].Propagated?
    ensures SentTo(Passed(s, d).state.log, n, d.message, node) <==> Eligible(s, d, node)
  {
    var t := Passed(s, d).state;
    TargetsAreEligible(s, d);
    if node in Targets(s, d) {
      assert t.log[|s.log|] == Propagated(d.message, Targets(s, d));
    }
  }

  /** A message received is sent to exactly the neighbors of its stream that it did not come from, if it is new
      or marked, and otherwise to nobody.
   */
  lemma ReceivedIsSentExactly(s: State, d: Delivery, node: NodeId)
    ensures SentTo(Received(s, d).state.log, |s.log|, d.message, node) <==> Due(s, d) && Eligible(s, d, node)
  {
    var t := SetUp(s, d.message.chain.stream);
    var u := Examined(t, d.message);
    assert VerdictOn(t, d.message) == DetectorSays(s, d.message);
    PassingSendsExactly(u, d, |s.log|, node);
  }

  lemma PassingKeepsExactly(s: State, d: Delivery)
    requires |Queue(s.buffer, d.message.chain.stream)| <= s.maxSize
    ensures var r, k := Passed(s, d), d.message.chain.stream;
            if Targets(s, d) == {} then
              && r.state.seen == s.seen + {d.message.Key()}
              && (r.ok ==> k in r.state.buffer && |r.state.buffer[k]| > 0
                           && r.state.buffer[k][|r.state.buffer[k]| - 1] == d)
            else r.state.buffer == s.buffer && r.state.seen == s.seen - {d.message.Key()}
  {
    PutFailsIff(Queue(s.buffer, d.message.chain.stream), d, s.maxSize);
  }

  lemma TargetsAreAllEligible(s: State, d: Delivery)
    ensures Targets(s, d) == {} <==> forall node :: !Eligible(s, d, node)
  {
    TargetsAreEligible(s, d);
    if Targets(s, d) != {} {
      var node :| node in Targets(s, d);
      assert Eligible(s, d, node);
    }
  }

  /** One that is due and has nobody to go to is marked and comes last in the buffer of its stream; any other
      leaves the buffer as it was, and only the one that is due changes its mark.
   */
  lemma ReceivedIsKeptExactly(s: State, d: Delivery)
    requires |Queue(s.buffer, d.message.chain.stream)| <= s.maxSize
    ensures var r, k := Received(s, d), d.message.chain.stream;
            if Due(s, d) && forall node :: !Eligible(s, d, node) then
              && r.state.seen == s.seen + {d.message.Key()}
              && (r.ok ==> k in r.state.buffer && |r.state.buffer[k]| > 0
                           && r.state.buffer[k][|r.state.buffer[k]| - 1] == d)
            else
              && r.state.buffer == s.buffer
              && r.state.seen == if Due(s, d) then s.seen - {d.message.Key()} else s.seen
  {
    var t := SetUp(s, d.message.chain.stream);
    var u := Examined(t, d.message);
    assert VerdictOn(t, d.message) == DetectorSays(s, d.message);
    TargetsAreAllEligible(s, d);
    assert Targets(u, d) == Targets(s, d);
    assert u.buffer == s.buffer && u.seen == s.seen && u.maxSize == s.maxSize;
    PassingKeepsExactly(u, d);
  }

  /** Buffered messages are received in the order in which they were buffered, up to the first failure. */
  lemma {:induction false} FirstIsReceivedFirst(s: State, ds: seq<Delivery>)
    requires ds != []
    ensures AllReceived(s, ds) ==
            if Received(s, ds[0]).ok then AllReceived(Received(s, ds[0]).state, ds[1..]) else Received(s, ds[0])
    decreases |ds|
  {
    var last := |ds| - 1;
    if last == 0 {
      assert ds[..0] == [] && ds[1..] == [];
      assert AllReceived(s, ds[..0]) == Step(s, true);
    } else {
      FirstIsReceivedFirst(s, ds[..last]);
      assert ds[..last][1..] == ds[1..][..last - 1];
    }
  }

  // ---------- over every run ----------

  /** Sent to somebody, and not to where one of the given deliveries of the message came from. */
  ghost predicate SparesSource(e: Event, got: set<Delivery>) {
    e.Propagated? ==>
      e.targets != {}
      && exists d :: d in got && d.message == e.message && (d.source.Some? ==> d.source.value !in e.targets)
  }

  ghost predicate AllSpareSources(log: seq<Event>, got: set<Delivery>) {
    forall x :: 0 <= x < |log| ==> SparesSource(log[x], got)
  }

  ghost predicate AllGot(ds: seq<Delivery>, got: set<Delivery>) {
    forall i :: 0 <= i < |ds| ==> ds[i] in got
  }

  /** What is buffered was received, and so was everything sent. */
  ghost predicate FromOutside(s: State, got: set<Delivery>) {
    && (forall k {:trigger AllGot(s.buffer[k], got)} :: k in s.buffer ==> AllGot(s.buffer[k], got))
    && AllSpareSources(s.log, got)
  }

  lemma MoreGot(s: State, got: set<Delivery>, more: set<Delivery>)
    requires FromOutside(s, got) && got <= more
    ensures FromOutside(s, more)
  {
    forall k | k in s.buffer ensures AllGot(s.buffer[k], more) { assert AllGot(s.buffer[k], got); }
    forall x | 0 <= x < |s.log| ensures SparesSource(s.log[x], more) { assert SparesSource(s.log[x], got); }
  }

  lemma LoggedFromOutside(s: State, e: Event, got: set<Delivery>)
    requires FromOutside(s, got) && SparesSource(e, got)
    ensures FromOutside(Log(s, e), got)
  {
  }

  lemma PassingIsFromOutside(s: State, d: Delivery, got: set<Delivery>)
    requires FromOutside(s, got) && d in got
    ensures FromOutside(Passed(s, d).state, got)
  {
    var k, targets := d.message.chain.stream, Targets(s, d);
    if targets != {} {
      LoggedFromOutside(s.(seen := s.seen - {d.message.Key()}), Propagated(d.message, targets), got);
    } else {
      var t := Passed(s, d).state;
      assert k in s.buffer ==> AllGot(s.buffer[k], got);
      forall j | j in t.buffer ensures AllGot(t.buffer[j], got) {
        if j != k { assert t.buffer[j] == s.buffer[j] && AllGot(s.buffer[j], got); }
      }
    }
  }

  lemma ReceivingIsFromOutside(s: State, d: Delivery, got: set<Delivery>)
    requires FromOutside(s, got) && d in got
    ensures FromOutside(Received(s, d).state, got)
  {
    var t := SetUp(s, d.message.chain.stream);
    var u := Examined(t, d.message);
    assert FromOutside(u, got);
    PassingIsFromOutside(u, d, got);
  }

  lemma {:induction false} AllReceivingIsFromOutside(s: State, ds: seq<Delivery>, got: set<Delivery>)
    requires FromOutside(s, got) && AllGot(ds, got)
    ensures FromOutside(AllReceived(s, ds).state, got)
    decreases |ds|
  {
    if ds != [] {
      AllReceivingIsFromOutside(s, ds[..|ds| - 1], got);
      ReceivingIsFromOutside(AllReceived(s, ds[..|ds| - 1]).state, ds[|ds| - 1], got);
    }
  }

  /** The delivery a step receives. */
  function Got(op: Op): set<Delivery> {
    if op.Receive? then {op.d} else {}
  }

  lemma StepIsFromOutside(s: State, op: Op, got: set<Delivery>)
    requires FromOutside(s, got)
    ensures FromOutside(Apply(s, op), got + Got(op))
  {
    MoreGot(s, got, got + Got(op));
    match op {
      case Receive(d) => ReceivingIsFromOutside(s, d, got + {d});
      case SubscribeOn(node, k) =>
        if k in s.view.streams {
          assert k in s.buffer ==> AllGot(s.buffer[k], got);
          var t := s.(view := Joined(s.view, node, k), buffer := s.buffer - {k});
          assert forall j :: j in t.buffer ==> t.buffer[j] == s.buffer[j];
          AllReceivingIsFromOutside(t, Queue(s.buffer, k), got);
          MoreGot(SubscribedOn(s, node, k).state, got, got + Got(op));
        }
      case TimeOut(k) => TimeOutKeepsGot(s, k, got);
      case _ =>
    }
  }

  lemma TimeOutKeepsGot(s: State, k: StreamKey, got: set<Delivery>)
    requires FromOutside(s, got)
    ensures FromOutside(TimedOut(s, k), got) && FromOutside(TimedOut(s, k), got + {})
  {
    var t := TimedOut(s, k);
    forall j | j in t.buffer ensures AllGot(t.buffer[j], got) { assert AllGot(s.buffer[j], got); }
    assert got + {} == got;
  }

  lemma {:induction false} RunIsFromOutside(s: State, ops: seq<Op>, got: set<Delivery>)
    requires FromOutside(s, got)
    ensures FromOutside(After(s, ops), got + set op | op in ops && op.Receive? :: op.d)
    decreases |ops|
  {
    var all := set op | op in ops && op.Receive? :: op.d;
    if ops == [] {
      assert got + all == got;
    } else {
      var rest := set op | op in ops[1..] && op.Receive? :: op.d;
      StepIsFromOutside(s, ops[0], got);
      RunIsFromOutside(Apply(s, ops[0]), ops[1..], got + Got(ops[0]));
      assert ops == [ops[0]] + ops[1..];
      assert (got + Got(ops[0])) + rest == got + all;
    }
  }

  /** Over every run: whatever is sent goes to somebody, was received before in that very form, and does not go
      back to where it came from.
   */
  lemma {:induction false} NobodyIsSentItsOwn(maxSize: nat, ops: seq<Op>, x: nat)
    requires var log := After(State(View(map[], map[]), map[], maxSize, {}, []), ops).log;
             x < |log| && log[x].Propagated?
    ensures var log := After(State(View(map[], map[]), map[], maxSize, {}, []), ops).log;
            && log[x].targets != {}
            && exists op :: op in ops && op.Receive? && op.d.message == log[x].message
                            && (op.d.source.Some? ==> op.d.source.value !in log[x].targets)
  {
    var s := State(View(map[], map[]), map[], maxSize, {}, []);
    RunIsFromOutside(s, ops, {});
    var log := After(s, ops).log;
    var got := {} + set op | op in ops && op.Receive? :: op.d;
    assert SparesSource(log[x], got);
    var d :| d in got && d.message == log[x].message && (d.source.Some? ==> d.source.value !in log[x].targets);
    var op :| op in ops && op.Receive? && op.d == d;
  }
}
