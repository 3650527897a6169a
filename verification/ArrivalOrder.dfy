/** Arrival order does not matter: the messages of one linked chain come out in chain order,
    from the first one that arrived to the end of the longest run without a hole.
 */
module ArrivalOrder {
  import opened Options
  import opened MessageRefs
  import opened MessageChainers
  import opened OrderedMsgChains
  import opened OrderedDelivery

  /** Every message points at the one before it. */
  ghost predicate Follows(chain: seq<Message>, i: nat)
    requires 0 < i < |chain|
  {
    chain[i].prev == Some(chain[i - 1].ref)
  }

  ghost predicate LinkedChain(chain: seq<Message>) {
    && Ascending(chain)
    && (forall i :: 0 <= i < |chain| ==> chain[i].Valid())
    && (forall i {:trigger Follows(chain, i)} :: 0 < i < |chain| ==> Follows(chain, i))
  }

  /** A chain message arrives, for the first time or again, or a gap timer fires. */
  datatype Happening = Arrive(i: nat) | Tick(first: bool)

  function ToOp(chain: seq<Message>, h: Happening): Op
    requires h.Arrive? ==> h.i < |chain|
  {
    match h
    case Arrive(i) => Add(chain[i])
    case Tick(first) => if first then FirstTimer else NextTimer
  }

  function Arrived(hs: seq<Happening>): set<nat> {
    set h | h in hs && h.Arrive? :: h.i
  }

  function Happened(s: State, chain: seq<Message>, hs: seq<Happening>): State
    requires forall h :: h in hs && h.Arrive? ==> h.i < |chain|
    decreases |hs|
  {
    if hs == [] then s else Happened(Apply(s, ToOp(chain, hs[0])), chain, hs[1..])
  }

  /** Timers fire only while armed and never exhaust the gap requests. */
  predicate NeverExhausted(s: State, chain: seq<Message>, hs: seq<Happening>)
    requires forall h :: h in hs && h.Arrive? ==> h.i < |chain|
    decreases |hs|
  {
    hs == [] || (
      && (hs[0].Tick? ==> Enabled(s, ToOp(chain, hs[0])) && s.gapRequestCount < s.maxGapRequests)
      && NeverExhausted(Apply(s, ToOp(chain, hs[0])), chain, hs[1..]))
  }

  function DeliveryOf(e: Event): seq<Message> {
    if e.Delivered? then [e.m] else []
  }

  function Deliveries(log: seq<Event>): seq<Message> {
    if log == [] then [] else Deliveries(log[..|log| - 1]) + DeliveryOf(log[|log| - 1])
  }

  lemma {:induction false} DeliveriesOfMore(log: seq<Event>, e: Event)
    ensures Deliveries(log + [e]) == Deliveries(log) + DeliveryOf(e)
  {
    assert (log + [e])[..|log|] == log;
  }

  /** The queue holds exactly the arrived messages beyond position m. */
  ghost predicate Waiting(queue: seq<Message>, chain: seq<Message>, m: nat, arrived: set<nat>) {
    && Ascending(queue)
    && (forall x :: x in queue ==> x in chain)
    && (forall i {:trigger i in arrived} :: 0 <= i < |chain| ==> (chain[i] in queue <==> i in arrived && i > m))
  }

  /** Everything from k to m was delivered, in order, and the rest waits. */
  ghost predicate DeliveredUpTo(s: State, chain: seq<Message>, k: nat, m: nat, arrived: set<nat>) {
    && Progress(s.queue, s.last, Deliveries(s.log), chain, k, m, arrived)
    && (s.maxGapRequests > 0 ==> s.marked == {})
  }

  ghost predicate Progress(queue: seq<Message>, last: Option<MessageRef>, delivered: seq<Message>,
                           chain: seq<Message>, k: nat, m: nat, arrived: set<nat>) {
    && k <= m < |chain|
    && last == Some(chain[m].ref)
    && delivered == chain[k..m + 1]
    && (forall i :: k <= i <= m ==> i in arrived)
    && Waiting(queue, chain, m, arrived)
  }

  lemma PositionsAreUnique(chain: seq<Message>, i: nat, j: nat)
    requires LinkedChain(chain) && i < |chain| && j < |chain| && chain[i].ref == chain[j].ref
    ensures i == j
  {
  }

  /** The head of the queue is the arrived message closest to m. */
  lemma HeadIsNearest(queue: seq<Message>, chain: seq<Message>, m: nat, arrived: set<nat>)
      returns (j: nat)
    requires LinkedChain(chain) && Waiting(queue, chain, m, arrived) && queue != []
    ensures m < j < |chain| && j in arrived && queue[0] == chain[j]
    ensures forall i :: m < i < j ==> i !in arrived
  {
    assert queue[0] in queue;
    j :| 0 <= j < |chain| && chain[j] == queue[0];
    assert j in arrived;
    forall i | m < i < j ensures i !in arrived {
      assert chain[i].ref.Before(chain[j].ref);
      forall p | 0 <= p < |queue| ensures queue[p] != chain[i] {
        assert p > 0 ==> queue[0].ref.Before(queue[p].ref);
      }
      assert chain[i] !in queue;
    }
  }

  lemma HeadIsNext(s: State, chain: seq<Message>, m: nat, j: nat)
    requires LinkedChain(chain) && m < j < |chain| && s.queue != [] && s.queue[0] == chain[j]
    requires s.last == Some(chain[m].ref)
    ensures HasNext(s) <==> j == m + 1
  {
    assert Follows(chain, j);
    CompareIsEquality(chain[j - 1].ref, chain[m].ref);
    if chain[j - 1].ref == chain[m].ref { PositionsAreUnique(chain, j - 1, m); }
  }

  lemma PoppedIsDelivered(s: State, chain: seq<Message>, k: nat, m: nat, arrived: set<nat>)
    requires LinkedChain(chain) && DeliveredUpTo(s, chain, k, m, arrived)
    requires s.queue != [] && m + 1 < |chain| && s.queue[0] == chain[m + 1]
    ensures DeliveredUpTo(Popped(s), chain, k, m + 1, arrived)
  {
    var u := Popped(s);
    DeliveriesOfMore(s.log, u.log[|s.log|]);
    assert chain[k..m + 2] == chain[k..m + 1] + [chain[m + 1]];
    assert s.queue == [s.queue[0]] + u.queue;
    assert s.queue[0] in s.queue;
    forall i | 0 <= i < |chain| ensures chain[i] in u.queue <==> i in arrived && i > m + 1 {
      if chain[i] in u.queue {
        var p :| 0 <= p < |u.queue| && u.queue[p] == chain[i];
        assert s.queue[0].ref.Before(s.queue[p + 1].ref);
      }
    }
  }

  ghost predicate Positions(chain: seq<Message>, arrived: set<nat>) {
    forall j :: j in arrived ==> j < |chain|
  }

  /** Delivery has come as far as the arrivals allow. */
  ghost predicate Exact(s: State, chain: seq<Message>, k: nat, m: nat, arrived: set<nat>) {
    DeliveredUpTo(s, chain, k, m, arrived) && m + 1 !in arrived && Positions(chain, arrived)
  }

  /** Either the next message is at the head and may be popped, or nothing may be popped and the next
      message has not arrived.
   */
  lemma NextIsHeadOrMissing(s: State, chain: seq<Message>, k: nat, m: nat, arrived: set<nat>)
    requires LinkedChain(chain) && DeliveredUpTo(s, chain, k, m, arrived) && Positions(chain, arrived)
    ensures if HasNext(s) then m + 1 < |chain| && s.queue[0] == chain[m + 1] else m + 1 !in arrived
  {
    assert m + 1 in arrived ==> chain[m + 1] in s.queue;
    if s.queue != [] {
      var j := HeadIsNearest(s.queue, chain, m, arrived);
      HeadIsNext(s, chain, m, j);
    }
  }

  lemma {:induction false} PoppedAllDelivers(s: State, chain: seq<Message>, k: nat, m: nat, arrived: set<nat>)
      returns (n: nat)
    requires LinkedChain(chain) && DeliveredUpTo(s, chain, k, m, arrived) && Positions(chain, arrived)
    ensures Exact(PoppedAll(s), chain, k, n, arrived)
    decreases |s.queue|
  {
    NextIsHeadOrMissing(s, chain, k, m, arrived);
    if !HasNext(s) {
      n := m;
      assert Exact(s, chain, k, m, arrived);
    } else {
      var u := Popped(s);
      PoppedIsDelivered(s, chain, k, m, arrived);
      n := PoppedAllDelivers(u, chain, k, m + 1, arrived);
      assert PoppedAll(s) == PoppedAll(u);
    }
  }

  lemma CheckedDelivers(s: State, chain: seq<Message>, k: nat, m: nat, arrived: set<nat>)
      returns (n: nat)
    requires LinkedChain(chain) && DeliveredUpTo(s, chain, k, m, arrived) && Positions(chain, arrived)
    ensures Exact(Checked(s), chain, k, n, arrived)
  {
    n := PoppedAllDelivers(s, chain, k, m, arrived);
    CheckedKeepsLimit(s);
    PoppedAllKeepsLimit(s);
    var t := PoppedAll(s);
    PoppedAllIsShorter(s);
    DeliveriesOfMore(t.log, Drained(|s.queue| - |t.queue|));
  }

  lemma StaleIffArrived(s: State, chain: seq<Message>, k: nat, m: nat, arrived: set<nat>, i: nat)
    requires LinkedChain(chain) && DeliveredUpTo(s, chain, k, m, arrived) && i < |chain|
    ensures Stale(s, chain[i]) <==> i <= m || i in arrived
  {
    CompareIsEquality(chain[i].ref, chain[m].ref);
    if i < m { assert chain[i].ref.Before(chain[m].ref); }
    if i > m { assert chain[m].ref.Before(chain[i].ref); }
    if Queued(s.queue, chain[i].ref) {
      var p :| 0 <= p < |s.queue| && s.queue[p].ref == chain[i].ref;
      assert s.queue[p] in s.queue;
      var j :| 0 <= j < |chain| && chain[j] == s.queue[p];
      PositionsAreUnique(chain, i, j);
    }
    if i > m && i in arrived {
      assert chain[i] in s.queue;
      var p :| 0 <= p < |s.queue| && s.queue[p] == chain[i];
      assert Queued(s.queue, chain[i].ref);
    }
  }

  lemma {:induction false} WaitingForOneMore(
      queue: seq<Message>, chain: seq<Message>, m: nat, arrived: set<nat>, i: nat)
    requires LinkedChain(chain) && Waiting(queue, chain, m, arrived) && m < i < |chain| && !Queued(queue, chain[i].ref)
    ensures Waiting(Inserted(queue, chain[i]), chain, m, arrived + {i})
  {
    InsertedIsAscending(queue, chain[i]);
    forall j | 0 <= j < |chain|
      ensures chain[j] in Inserted(queue, chain[i]) <==> j in arrived + {i} && j > m
    {
      if chain[j] == chain[i] { PositionsAreUnique(chain, i, j); }
    }
  }

  lemma FreshArrivalWaits(
      s: State, chain: seq<Message>, k: nat, m: nat, arrived: set<nat>, i: nat, marked: set<MessageRef>)
    requires LinkedChain(chain) && DeliveredUpTo(s, chain, k, m, arrived) && m < i < |chain|
    requires !Queued(s.queue, chain[i].ref) && (s.maxGapRequests > 0 ==> marked == {})
    ensures DeliveredUpTo(s.(marked := marked, queue := Inserted(s.queue, chain[i])), chain, k, m, arrived + {i})
  {
    WaitingForOneMore(s.queue, chain, m, arrived, i);
  }

  lemma StaleArrivalChangesNothing(
      s: State, chain: seq<Message>, k: nat, m: nat, arrived: set<nat>, i: nat)
    requires Exact(s, chain, k, m, arrived) && (i <= m || i in arrived)
    ensures Exact(s, chain, k, m, arrived + {i})
  {
    if i > m { assert arrived + {i} == arrived; }
  }

  lemma ArrivalDelivers(s: State, chain: seq<Message>, k: nat, m: nat, arrived: set<nat>, i: nat)
      returns (n: nat)
    requires LinkedChain(chain) && Exact(s, chain, k, m, arrived) && i < |chain|
    ensures Exact(Added(s, chain[i]), chain, k, n, arrived + {i})
  {
    StaleIffArrived(s, chain, k, m, arrived, i);
    if Stale(s, chain[i]) {
      n := m;
      StaleArrivalChangesNothing(s, chain, k, m, arrived, i);
    } else {
      var marked := if s.maxGapRequests > 0 then s.marked else s.marked + {chain[i].ref};
      FreshArrivalWaits(s, chain, k, m, arrived, i, marked);
      n := CheckedDelivers(s.(marked := marked, queue := Inserted(s.queue, chain[i])), chain, k, m, arrived + {i});
    }
  }

  lemma TickDelivers(s: State, chain: seq<Message>, k: nat, m: nat, arrived: set<nat>, first: bool)
    requires DeliveredUpTo(s, chain, k, m, arrived) && s.gapRequestCount < s.maxGapRequests
    ensures DeliveredUpTo(Apply(s, if first then FirstTimer else NextTimer), chain, k, m, arrived)
  {
    if s.queue != [] {
      DeliveriesOfMore(s.log, GapRequested(GapStart(s), s.queue[0].prev));
      assert Deliveries(s.log + [GapRequested(GapStart(s), s.queue[0].prev)]) == Deliveries(s.log);
    }
  }

  /** The first message is delivered at once. */
  lemma FirstIsPopped(max: nat, m: Message)
    ensures var t := Added(Initial(max), m);
            && t.queue == [] && t.last == Some(m.ref) && t.log == [Delivered(m)]
            && t.maxGapRequests == max && (max > 0 ==> t.marked == {})
  {
    var s := Initial(max);
    var u := s.(marked := if max > 0 then s.marked else s.marked + {m.ref}, queue := [m]);
    assert Inserted([], m) == [m];
    var t := Popped(u);
    assert [m][1..] == [] && t.queue == [];
    assert PoppedAll(t) == t && PoppedAll(u) == t;
    assert Added(s, m) == Checked(u) == t;
  }

  lemma FirstIsProgress(chain: seq<Message>, k: nat)
    requires LinkedChain(chain) && k < |chain|
    ensures Progress([], Some(chain[k].ref), [chain[k]], chain, k, k, {k})
  {
    assert chain[k..k + 1] == [chain[k]];
  }

  lemma FirstArrivalDelivers(chain: seq<Message>, k: nat, max: nat)
    requires LinkedChain(chain) && k < |chain|
    ensures DeliveredUpTo(Added(Initial(max), chain[k]), chain, k, k, {k})
  {
    FirstIsPopped(max, chain[k]);
    DeliveriesOfMore([], Delivered(chain[k]));
    assert [] + [Delivered(chain[k])] == [Delivered(chain[k])];
    FirstIsProgress(chain, k);
  }

  lemma ArrivedSplits(h: Happening, hs: seq<Happening>)
    ensures Arrived([h] + hs) == (if h.Arrive? then {h.i} else {}) + Arrived(hs)
  {
    assert ([h] + hs)[0] == h;
    assert forall x :: x in [h] + hs <==> x == h || x in hs;
  }

  lemma HappeningDelivers(
      s: State, chain: seq<Message>, k: nat, m: nat, arrived: set<nat>, h: Happening)
      returns (n: nat)
    requires LinkedChain(chain) && Exact(s, chain, k, m, arrived)
    requires if h.Arrive? then h.i < |chain| else s.gapRequestCount < s.maxGapRequests
    ensures Exact(Apply(s, ToOp(chain, h)), chain, k, n, arrived + if h.Arrive? then {h.i} else {})
  {
    match h {
      case Arrive(i) => n := ArrivalDelivers(s, chain, k, m, arrived, i);
      case Tick(first) =>
        TickDelivers(s, chain, k, m, arrived, first);
        n := m;
        assert arrived + {} == arrived;
    }
  }

  lemma {:induction false} HappeningsDeliver(
      s: State, chain: seq<Message>, k: nat, m: nat, arrived: set<nat>, hs: seq<Happening>)
    returns (n: nat)
    requires LinkedChain(chain) && Exact(s, chain, k, m, arrived)
    requires forall h :: h in hs && h.Arrive? ==> h.i < |chain|
    requires NeverExhausted(s, chain, hs)
    ensures Exact(Happened(s, chain, hs), chain, k, n, arrived + Arrived(hs))
    decreases |hs|
  {
    if hs == [] {
      n := m;
      assert arrived + Arrived(hs) == arrived;
    } else {
      assert hs[0] in hs && hs == [hs[0]] + hs[1..];
      ArrivedSplits(hs[0], hs[1..]);
      var l := HappeningDelivers(s, chain, k, m, arrived, hs[0]);
      var more := arrived + if hs[0].Arrive? then {hs[0].i} else {};
      n := HappeningsDeliver(Apply(s, ToOp(chain, hs[0])), chain, k, l, more, hs[1..]);
      assert arrived + Arrived(hs) == more + Arrived(hs[1..]);
      assert Happened(s, chain, hs) == Happened(Apply(s, ToOp(chain, hs[0])), chain, hs[1..]);
    }
  }

  /** Let the messages of a linked chain arrive in any order, repeatedly, with timers firing in
      between but no gap given up. At every moment the messages delivered are exactly those from
      the first arrival, k, to the end n of the longest hole-free run from k, in chain order;
      whatever else arrived later than n waits.
   */
  lemma DeliveryIsIndependentOfArrivalOrder(
      chain: seq<Message>, max: nat, k: nat, hs: seq<Happening>)
      returns (n: nat)
    requires LinkedChain(chain) && hs != [] && hs[0] == Arrive(k)
    requires forall h :: h in hs && h.Arrive? ==> h.i < |chain|
    requires NeverExhausted(Initial(max), chain, hs)
    ensures k <= n < |chain|
    ensures (forall i :: k <= i <= n ==> i in Arrived(hs)) && n + 1 !in Arrived(hs)
    ensures Deliveries(Happened(Initial(max), chain, hs).log) == chain[k..n + 1]
    ensures Waiting(Happened(Initial(max), chain, hs).queue, chain, n, Arrived(hs))
  {
    assert hs[0] in hs && hs == [hs[0]] + hs[1..];
    FirstArrivalDelivers(chain, k, max);
    n := HappeningsDeliver(Added(Initial(max), chain[k]), chain, k, k, {k}, hs[1..]);
    ArrivedSplits(hs[0], hs[1..]);
  }

  // ---------- from publisher to subscriber ----------

  function ToMessages(links: seq<Link>): seq<Message> {
    seq(|links|, i requires 0 <= i < |links| => Message(links[i].ref, links[i].prev, i))
  }

  /** The chain of one publisher is linked in the sense above, so the subscriber sees its messages
      in the order of publication.
   */
  lemma {:induction false} PublishedChainIsLinked(timestamps: seq<nat>)
    ensures LinkedChain(ToMessages(Chain(None, timestamps)))
  {
    var links := Chain(None, timestamps);
    var chain := ToMessages(links);
    ChainIsLinked(None, timestamps);
    forall i | 0 < i < |chain| ensures Follows(chain, i) {
      assert links[i].prev == Some(links[i - 1].ref);
    }
    forall i | 0 <= i < |chain| ensures chain[i].Valid() {
      if i > 0 { assert links[i - 1].ref.Before(links[i].ref) && links[i].prev == Some(links[i - 1].ref); }
    }
  }
}
