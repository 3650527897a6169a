/** What a connect promise may count on, over every run of calls, signals and connection events. */
module ConnectionAttempts {
  import opened Options
  import opened Sequences
  import opened WebRtcEndpoints

  datatype Op =
    | Connect(peer: PeerId, offering: bool, newId: string, fails: bool)
    | Offer(peer: PeerId, id: string, fails: bool)
    | ConnectRequest(peer: PeerId, offering: bool, newId: string, fails: bool)
    | SignalError(peer: PeerId)
    | Close(peer: PeerId)
    | Open(c: nat)
    | StateChange(c: nat, state: string)
    | Lose(c: nat, reason: string)
    | Timeout(c: nat)
    | Stop(order: seq<nat>)

  /** Signals come in until the endpoint stops; a closed connection has no listeners left. */
  ghost predicate Enabled(s: State, op: Op) {
    match op
    case Connect(_, _, _, _) => true
    case Offer(_, _, _) => !s.stopped
    case ConnectRequest(_, _, _, _) => !s.stopped
    case SignalError(_) => !s.stopped
    case Close(_) => true
    case Open(c) => c < |s.conns| && !s.conns[c].finished
    case StateChange(c, _) => c < |s.conns| && !s.conns[c].finished
    case Lose(c, _) => c < |s.conns|
    case Timeout(c) => c < |s.conns| && s.conns[c].timeout
    case Stop(order) => Numbers(order, |s.conns|) && forall p {:trigger s.connections[p]} :: p in s.connections ==>
        s.connections[p] in order
  }

  ghost function Apply(s: State, op: Op): State
    requires Grounded(s) && Enabled(s, op)
  {
    match op
    case Connect(peer, offering, newId, fails) => ConnectCalled(s, peer, offering, newId, fails)
    case Offer(peer, id, fails) => OfferReceived(s, peer, id, fails)
    case ConnectRequest(peer, offering, newId, fails) => ConnectRequested(s, peer, offering, newId, fails)
    case SignalError(peer) => SignalFailed(s, peer)
    case Close(peer) => CloseCalled(s, peer)
    case Open(c) => OpenedAt(s, c)
    case StateChange(c, state) => StateChanged(s, c, state)
    case Lose(c, reason) => ConnectionClosed(s, c, reason)
    case Timeout(c) => ConnectionClosed(s, c, "timed out")
    case Stop(order) => StopCalled(s, order)
  }

  // ---------- the invariant ----------

  ghost predicate Holds(conns: seq<Conn>, c: nat, a: nat) {
    c < |conns| && conns[c].attempt == Some(a)
  }

  ghost predicate InMap(s: State, c: nat) {
    c < |s.conns| && s.conns[c].peer in s.connections && s.connections[s.conns[c].peer] == c
  }

  ghost predicate Listed(s: State, p: PeerId) {
    p in s.connections && InMap(s, s.connections[p]) && s.conns[s.connections[p]].peer == p
        && !s.conns[s.connections[p]].finished
  }

  /** The map holds the unfinished connections, but for those on their way in or out. */
  ghost predicate MapIsLive(s: State, out: set<nat>) {
    && (forall p {:trigger Listed(s, p)} :: p in s.connections ==> Listed(s, p))
    && (forall c: nat {:trigger s.conns[c]} :: c < |s.conns| && !s.conns[c].finished ==> (InMap(s, c) <==> c !in out))
  }

  ghost predicate HeldAttempt(s: State, c: nat, a: nat) {
    a < |s.attempts| && s.attempts[a].outcome.Pending? && c < |s.conns| && !s.conns[c].finished
        && s.attempts[a].peer == s.conns[c].peer
  }

  /** An attempt is pending exactly while a connection to its peer holds it, but for those being
      handed over; it resolves to its own peer only.
   */
  ghost predicate PendingIsHeld(s: State, loose: Option<nat>) {
    && (forall c: nat, a: nat {:trigger Holds(s.conns, c, a)} :: Holds(s.conns, c, a) ==>
        HeldAttempt(s, c, a) && loose != Some(a))
    && (forall c: nat, d: nat, a: nat {:trigger Holds(s.conns, c, a), Holds(s.conns, d, a)} ::
          Holds(s.conns, c, a) && Holds(s.conns, d, a) ==> c == d)
    && (forall a: nat {:trigger s.attempts[a]} ::
          a < |s.attempts| && s.attempts[a].outcome.Pending? && loose != Some(a) ==>
            exists c: nat :: Holds(s.conns, c, a))
    && (forall a: nat {:trigger s.attempts[a]} :: a < |s.attempts| && s.attempts[a].outcome.Resolved? ==>
          s.attempts[a].outcome.peer == s.attempts[a].peer)
  }

  ghost predicate Inv(s: State, out: set<nat>, loose: Option<nat>) {
    MapIsLive(s, out) && PendingIsHeld(s, loose)
  }

  ghost predicate Stable(s: State) {
    Inv(s, {}, None) && (s.stopped ==> s.connections == map[])
  }

  lemma InvIsGrounded(s: State, out: set<nat>, loose: Option<nat>)
    requires Inv(s, out, loose)
    ensures Grounded(s)
  {
    forall p | p in s.connections ensures s.connections[p] < |s.conns| { assert Listed(s, p); }
    forall c | 0 <= c < |s.conns| && s.conns[c].attempt.Some? ensures s.conns[c].attempt.value < |s.attempts| {
      assert Holds(s.conns, c, s.conns[c].attempt.value);
    }
  }

  /** Outcomes are final. */
  ghost predicate Follows(s: State, t: State) {
    && |s.attempts| <= |t.attempts|
    && forall a: nat {:trigger t.attempts[a]} :: a < |s.attempts| ==>
         t.attempts[a].peer == s.attempts[a].peer && (s.attempts[a].outcome.Pending? || t.attempts[a] == s.attempts[a])
  }

  lemma ClosingKeeps(s: State, c: nat, reason: string, out: set<nat>, loose: Option<nat>)
    requires Inv(s, out, loose) && Grounded(s) && c < |s.conns|
    ensures Inv(ConnectionClosed(s, c, reason), out - {c}, loose)
  {
    var t := ConnectionClosed(s, c, reason);
    if !s.conns[c].finished {
      assert MapIsLive(t, out - {c}) by {
        forall p | p in t.connections ensures Listed(t, p) { assert Listed(s, p); }
      }
      AttemptLeaves(s, t, c, Rejected(reason), loose);
    }
  }

  lemma AttemptLeaves(s: State, t: State, c: nat, o: Outcome, loose: Option<nat>)
    requires PendingIsHeld(s, loose) && c < |s.conns| == |t.conns| && !s.conns[c].finished
    requires t.conns[c].attempt == None && forall d: nat {:trigger t.conns[d]} :: d < |s.conns| && d != c ==>
        t.conns[d] == s.conns[d]
    requires s.conns[c].attempt.Some? ==> s.conns[c].attempt.value < |s.attempts|
    requires !o.Pending? && (o.Resolved? ==> o.peer == s.conns[c].peer)
        && t.attempts == Settled(s, s.conns[c].attempt, o).attempts
    ensures PendingIsHeld(t, loose)
  {
    var mine := s.conns[c].attempt;
    if mine.Some? { assert Holds(s.conns, c, mine.value); }
    forall d: nat, a: nat | Holds(t.conns, d, a) ensures HeldAttempt(t, d, a) && loose != Some(a) {
      assert Holds(s.conns, d, a);
    }
    forall d: nat, e: nat, a: nat | Holds(t.conns, d, a) && Holds(t.conns, e, a) ensures d == e {
      assert Holds(s.conns, d, a) && Holds(s.conns, e, a);
    }
    forall a: nat | a < |t.attempts| && t.attempts[a].outcome.Pending? && loose != Some(a)
      ensures exists d: nat :: Holds(t.conns, d, a)
    {
      assert s.attempts[a].outcome.Pending?;
      var d: nat :| Holds(s.conns, d, a);
      assert Holds(t.conns, d, a);
    }
    forall a: nat | a < |t.attempts| && t.attempts[a].outcome.Resolved?
      ensures t.attempts[a].outcome.peer == t.attempts[a].peer
    {
      if s.attempts[a].outcome.Resolved? { assert t.attempts[a] == s.attempts[a]; }
    }
  }

  /** Same connections and attempts, apart from state, identifier and timer. */
  ghost predicate Alike(s: State, t: State) {
    && s.attempts == t.attempts && s.connections == t.connections && |s.conns| == |t.conns|
    && forall c: nat {:trigger t.conns[c]} :: c < |s.conns| ==>
         t.conns[c].peer == s.conns[c].peer && t.conns[c].finished == s.conns[c].finished
             && t.conns[c].attempt == s.conns[c].attempt
  }

  lemma AlikeKeeps(s: State, t: State, out: set<nat>, loose: Option<nat>)
    requires Inv(s, out, loose) && Alike(s, t)
    ensures Inv(t, out, loose)
  {
    forall p | p in t.connections ensures Listed(t, p) { assert Listed(s, p); }
    forall c: nat, a: nat | Holds(t.conns, c, a) ensures HeldAttempt(t, c, a) && loose != Some(a) {
      assert Holds(s.conns, c, a);
    }
    forall c: nat, d: nat, a: nat | Holds(t.conns, c, a) && Holds(t.conns, d, a) ensures c == d {
      assert Holds(s.conns, c, a) && Holds(s.conns, d, a);
    }
    forall a: nat | a < |t.attempts| && t.attempts[a].outcome.Pending? && loose != Some(a)
      ensures exists c: nat :: Holds(t.conns, c, a)
    {
      var c: nat :| Holds(s.conns, c, a);
      assert Holds(t.conns, c, a);
    }
  }

  lemma OpeningKeeps(s: State, c: nat)
    requires Inv(s, {}, None) && Grounded(s) && c < |s.conns| && !s.conns[c].finished
    ensures Inv(OpenedAt(s, c), {}, None)
  {
    var t := OpenedAt(s, c);
    forall p | p in t.connections ensures Listed(t, p) { assert Listed(s, p); }
    AttemptLeaves(s, t, c, Resolved(s.conns[c].peer), None);
  }

  lemma ReleasingKeeps(s: State, p: PeerId)
    requires Inv(s, {}, None) && Grounded(s) && p in s.connections
    ensures Inv(Released(s, p), {s.connections[p]}, s.conns[s.connections[p]].attempt)
  {
    var c := s.connections[p];
    var t := Released(s, p);
    var loose := s.conns[c].attempt;
    assert Listed(s, p);
    assert MapIsLive(t, {c}) by {
      forall q | q in t.connections ensures Listed(t, q) { assert Listed(s, q); }
    }
    if loose.Some? { assert Holds(s.conns, c, loose.value); }
    forall d: nat, a: nat | Holds(t.conns, d, a) ensures HeldAttempt(t, d, a) && loose != Some(a) {
      assert Holds(s.conns, d, a);
    }
    forall d: nat, e: nat, a: nat | Holds(t.conns, d, a) && Holds(t.conns, e, a) ensures d == e {
      assert Holds(s.conns, d, a) && Holds(s.conns, e, a);
    }
    forall a: nat | a < |t.attempts| && t.attempts[a].outcome.Pending? && loose != Some(a)
      ensures exists d: nat :: Holds(t.conns, d, a)
    {
      var d: nat :| Holds(s.conns, d, a);
      assert Holds(t.conns, d, a);
    }
  }

  lemma CreatingKeeps(s: State, p: PeerId, given: Option<nat>)
    requires Inv(s, {}, given)
    requires given.Some? ==> given.value < |s.attempts| && s.attempts[given.value] == Attempt(p, Pending)
    ensures Inv(Created(s, p, given), {|s.conns|}, None)
  {
    var t := Created(s, p, given);
    var last := |s.conns|;
    assert MapIsLive(t, {last}) by {
      forall q | q in t.connections ensures Listed(t, q) { assert Listed(s, q); }
      forall c: nat | c < |t.conns| && !t.conns[c].finished ensures InMap(t, c) <==> c != last {
        if c < last { assert s.conns[c] == t.conns[c]; }
        if p in t.connections { assert Listed(s, p); }
      }
    }
    var held := t.conns[last].attempt.value;
    assert Holds(t.conns, last, held);
    forall d: nat, a: nat | Holds(t.conns, d, a) ensures HeldAttempt(t, d, a) && (d < last ==> a != held) {
      if d < last { assert Holds(s.conns, d, a); }
    }
    forall d: nat, e: nat, a: nat | Holds(t.conns, d, a) && Holds(t.conns, e, a) ensures d == e {
      if d < last && e < last { assert Holds(s.conns, d, a) && Holds(s.conns, e, a); }
    }
    forall a: nat | a < |t.attempts| && t.attempts[a].outcome.Pending? ensures exists d: nat :: Holds(t.conns, d, a) {
      if a != held {
        assert s.attempts[a] == t.attempts[a];
        var d: nat :| Holds(s.conns, d, a);
        assert Holds(t.conns, d, a);
      }
    }
    forall a: nat | a < |t.attempts| && t.attempts[a].outcome.Resolved?
      ensures t.attempts[a].outcome.peer == t.attempts[a].peer
    {
      assert s.attempts[a] == t.attempts[a];
    }
  }

  lemma StartingKeeps(s: State, p: PeerId, id: string, fails: bool)
    requires s.conns != [] && Inv(s, {|s.conns| - 1}, None)
    requires p !in s.connections && s.conns[|s.conns| - 1].peer == p && !s.conns[|s.conns| - 1].finished
    ensures Inv(Started(s, p, id, fails), {}, None)
  {
    var c := |s.conns| - 1;
    var u := WithConn(s, c, s.conns[c].(connectionId := id, timeout := !fails));
    AlikeKeeps(s, u, {c}, None);
    var t := Started(s, p, id, fails);
    assert t == u.(connections := u.connections[p := c]);
    assert MapIsLive(t, {}) by {
      forall q | q in t.connections ensures Listed(t, q) { if q != p { assert Listed(u, q); } }
    }
    forall d: nat, a: nat | Holds(t.conns, d, a) ensures HeldAttempt(t, d, a) { assert Holds(u.conns, d, a); }
  }

  lemma ReplacingKeeps(s: State, p: PeerId, id: string, fails: bool)
    requires Inv(s, {}, None) && Grounded(s) && p in s.connections
    ensures Inv(Replaced(s, p, id, fails), {}, None)
    ensures Follows(s, Replaced(s, p, id, fails))
  {
    var c := s.connections[p];
    var attempt := s.conns[c].attempt;
    assert Listed(s, p);
    ReleasingKeeps(s, p);
    ClosingKeeps(Released(s, p), c, "closed", {c}, attempt);
    var u := Unseated(s, p);
    assert {c} - {c} == {};
    if attempt.Some? { assert Holds(s.conns, c, attempt.value); }
    CreatingKeeps(u, p, attempt);
    StartingKeeps(Created(u, p, attempt), p, id, fails);
  }

  lemma NewConnectionKeeps(s: State, p: PeerId, id: string, fails: bool)
    requires Inv(s, {}, None) && p !in s.connections
    ensures Inv(Started(Created(s, p, None), p, id, fails), {}, None)
    ensures Follows(s, Started(Created(s, p, None), p, id, fails))
  {
    CreatingKeeps(s, p, None);
    StartingKeeps(Created(s, p, None), p, id, fails);
  }

  /** Taking connections out of the map leaves them to be closed. */
  lemma ForgettingKeeps(s: State, t: State, out: set<nat>)
    requires Inv(s, {}, None)
    requires t.conns == s.conns && t.attempts == s.attempts
    requires forall p {:trigger s.connections[p]} :: p in s.connections ==>
               (s.connections[p] in out && p !in t.connections)
                   || (s.connections[p] !in out && p in t.connections && t.connections[p] == s.connections[p])
    requires t.connections.Keys <= s.connections.Keys
    ensures Inv(t, out, None)
  {
    forall p | p in t.connections ensures Listed(t, p) { assert Listed(s, p); }
    forall c: nat | c < |t.conns| && !t.conns[c].finished ensures InMap(t, c) <==> c !in out {
      assert InMap(s, c);
    }
    forall c: nat, a: nat | Holds(t.conns, c, a) ensures HeldAttempt(t, c, a) { assert HeldAttempt(s, c, a); }
  }

  lemma {:induction false} ClosingAllKeeps(s: State, order: seq<nat>, out: set<nat>)
    requires Inv(s, out, None) && Grounded(s) && Numbers(order, |s.conns|)
    ensures Inv(AllClosed(s, order), out - Members(order), None)
    decreases |order|
  {
    if order == [] {
      assert out - Members(order) == out;
    } else {
      var last := |order| - 1;
      assert Numbers(order[..last], |s.conns|);
      ClosingAllKeeps(s, order[..last], out);
      ClosingKeeps(AllClosed(s, order[..last]), order[last], "closed", out - Members(order[..last]), None);
      MembersOfLonger(order);
      assert out - Members(order) == out - Members(order[..last]) - {order[last]};
    }
  }

  lemma ClosingFollows(s: State, c: nat, reason: string)
    requires Grounded(s) && c < |s.conns|
    ensures var t := ConnectionClosed(s, c, reason);
            Follows(s, t) && t.stopped == s.stopped && t.connections.Keys <= s.connections.Keys
  {
  }

  lemma {:induction false} ClosingAllFollows(s: State, order: seq<nat>)
    requires Grounded(s) && Numbers(order, |s.conns|)
    ensures var t := AllClosed(s, order);
            Follows(s, t) && t.stopped == s.stopped && t.connections.Keys <= s.connections.Keys
    decreases |order|
  {
    if order != [] {
      var last := |order| - 1;
      assert Numbers(order[..last], |s.conns|);
      ClosingAllFollows(s, order[..last]);
      ClosingFollows(AllClosed(s, order[..last]), order[last], "closed");
    }
  }

  lemma StoppingKeeps(s: State, order: seq<nat>)
    requires Inv(s, {}, None) && Grounded(s) && Enabled(s, Stop(order))
    ensures Stable(StopCalled(s, order)) && Follows(s, StopCalled(s, order)) && StopCalled(s, order).stopped
  {
    var t := s.(stopped := true, connections := map[]);
    var out := set p | p in s.connections :: s.connections[p];
    ForgettingKeeps(s, t, out);
    ClosingAllKeeps(t, order, out);
    ClosingAllFollows(t, order);
    assert out - Members(order) == {};
  }

  /** One step: the invariant holds again, outcomes are final, a stopped endpoint stays stopped. */
  ghost predicate Kept(s: State, t: State) {
    Stable(t) && Follows(s, t) && (s.stopped ==> t.stopped)
  }

  lemma ConnectKeeps(s: State, peer: PeerId, offering: bool, newId: string, fails: bool)
    requires Stable(s)
    ensures Kept(s, ConnectCalled(s, peer, offering, newId, fails))
  {
    if !s.stopped && peer !in s.connections { NewConnectionKeeps(s, peer, if offering then newId else NO_ID, fails); }
  }

  lemma OfferKeeps(s: State, peer: PeerId, id: string, fails: bool)
    requires Stable(s) && Grounded(s) && !s.stopped
    ensures Kept(s, OfferReceived(s, peer, id, fails))
  {
    if peer !in s.connections {
      NewConnectionKeeps(s, peer, id, fails);
    } else if s.conns[s.connections[peer]].connectionId != NO_ID {
      ReplacingKeeps(s, peer, id, fails);
    } else {
      AlikeKeeps(s, OfferReceived(s, peer, id, fails), {}, None);
    }
  }

  lemma ConnectRequestKeeps(s: State, peer: PeerId, offering: bool, newId: string, fails: bool)
    requires Stable(s) && Grounded(s) && !s.stopped
    ensures Kept(s, ConnectRequested(s, peer, offering, newId, fails))
  {
    if peer in s.connections {
      ReplacingKeeps(s, peer, newId, fails);
    } else {
      ConnectKeeps(s, peer, offering, newId, fails);
    }
  }

  lemma ClosedByCallKeeps(s: State, p: PeerId)
    requires Stable(s) && Grounded(s)
    ensures Kept(s, CloseCalled(s, p))
  {
    if p in s.connections {
      var t := s.(connections := s.connections - {p});
      var c := s.connections[p];
      forall q | q in s.connections ensures q != p ==> s.connections[q] != c { assert Listed(s, q) && Listed(s, p); }
      ForgettingKeeps(s, t, {c});
      ClosingKeeps(t, c, "closed", {c}, None);
      assert {c} - {c} == {};
    }
  }

  lemma StateChangeKeeps(s: State, c: nat, state: string)
    requires Stable(s) && Grounded(s) && c < |s.conns|
    ensures Kept(s, StateChanged(s, c, state))
  {
    var t := WithConn(s, c, s.conns[c].(lastState := Some(state)));
    AlikeKeeps(s, t, {}, None);
    if state == "disconnected" || state == "closed" {
      LosingKeeps(t, c, "closed");
    } else if state == "failed" {
      LosingKeeps(t, c, "connection failed");
    } else if state == "connecting" {
      AlikeKeeps(t, StateChanged(s, c, state), {}, None);
    }
  }

  lemma OpenKeeps(s: State, c: nat)
    requires Stable(s) && Grounded(s) && c < |s.conns| && !s.conns[c].finished
    ensures Kept(s, OpenedAt(s, c))
  {
    OpeningKeeps(s, c);
  }

  lemma LosingKeeps(s: State, c: nat, reason: string)
    requires Stable(s) && Grounded(s) && c < |s.conns|
    ensures Kept(s, ConnectionClosed(s, c, reason))
  {
    ClosingKeeps(s, c, reason, {}, None);
  }

  lemma ApplyKeeps(s: State, op: Op)
    requires Stable(s) && Grounded(s) && Enabled(s, op)
    ensures Kept(s, Apply(s, op))
  {
    match op {
      case Connect(peer, offering, newId, fails) => ConnectKeeps(s, peer, offering, newId, fails);
      case Offer(peer, id, fails) => OfferKeeps(s, peer, id, fails);
      case ConnectRequest(peer, offering, newId, fails) => ConnectRequestKeeps(s, peer, offering, newId, fails);
      case SignalError(peer) => if peer in s.connections { LosingKeeps(s, s.connections[peer], "signalling error"); }
      case Close(peer) => ClosedByCallKeeps(s, peer);
      case Open(c) => OpenKeeps(s, c);
      case StateChange(c, state) => StateChangeKeeps(s, c, state);
      case Lose(c, reason) => LosingKeeps(s, c, reason);
      case Timeout(c) => LosingKeeps(s, c, "timed out");
      case Stop(order) => StoppingKeeps(s, order);
    }
  }

  // ---------- runs ----------

  ghost predicate AllEnabled(s: State, ops: seq<Op>)
    requires Stable(s)
    decreases |ops|
  {
    InvIsGrounded(s, {}, None);
    ops == [] || (Enabled(s, ops[0]) && (ApplyKeeps(s, ops[0]); AllEnabled(Apply(s, ops[0]), ops[1..])))
  }

  /** Over every run a promise is pending exactly while an unfinished connection holds it, the map
      holds exactly the unfinished connections, and a settled promise keeps its outcome.
   */
  ghost function After(s: State, ops: seq<Op>): (t: State)
    requires Stable(s) && AllEnabled(s, ops)
    ensures Kept(s, t)
    decreases |ops|
  {
    if ops == [] then s
    else
      InvIsGrounded(s, {}, None);
      ApplyKeeps(s, ops[0]);
      After(Apply(s, ops[0]), ops[1..])
  }

  lemma InitialIsStable()
    ensures Stable(State([], [], map[], false)) && Timed(State([], [], map[], false))
  {
  }

  /** A promise is pending if and only if exactly one unfinished connection holds it. */
  lemma PendingIffOneHolder(s: State, a: nat)
    requires Stable(s) && a < |s.attempts|
    ensures s.attempts[a].outcome.Pending? <==>
            exists c: nat :: c < |s.conns| && s.conns[c].attempt == Some(a) && !s.conns[c].finished
                             && forall d: nat {:trigger s.conns[d]} :: d < |s.conns| && d != c ==>
                                 s.conns[d].attempt != Some(a)
  {
    if s.attempts[a].outcome.Pending? {
      var c: nat :| Holds(s.conns, c, a);
      assert HeldAttempt(s, c, a);
      forall d: nat | d < |s.conns| && d != c ensures s.conns[d].attempt != Some(a) { assert !Holds(s.conns, d, a); }
    }
    forall c: nat | c < |s.conns| && s.conns[c].attempt == Some(a) ensures s.attempts[a].outcome.Pending? {
      assert Holds(s.conns, c, a);
    }
  }

  /** The map holds exactly the unfinished connections, each under its own peer. */
  lemma MapHoldsTheUnfinished(s: State, c: nat)
    requires Stable(s) && c < |s.conns|
    ensures !s.conns[c].finished <==> exists p :: p in s.connections && s.connections[p] == c
    ensures forall p :: p in s.connections && s.connections[p] == c ==> p == s.conns[c].peer
  {
    forall p | p in s.connections && s.connections[p] == c
      ensures p == s.conns[c].peer && !s.conns[c].finished
    {
      assert Listed(s, p);
    }
    if !s.conns[c].finished { assert InMap(s, c); }
  }

  /** At most one connection of a peer is unfinished: the queue its connections share has one user. */
  lemma OneLiveConnectionPerPeer(s: State, c: nat, d: nat)
    requires Stable(s) && c < |s.conns| && d < |s.conns| && !s.conns[c].finished && !s.conns[d].finished
    requires s.conns[c].peer == s.conns[d].peer
    ensures c == d
  {
    assert InMap(s, c) && InMap(s, d);
  }

  /** Replacing a connection settles no promise; the successor carries the pending one on. */
  lemma ReplacingCarriesThePromise(s: State, p: PeerId, id: string, fails: bool)
    requires Stable(s) && Grounded(s) && p in s.connections
    ensures var t := Replaced(s, p, id, fails);
            && t.attempts[..|s.attempts|] == s.attempts
            && p in t.connections && t.connections[p] == |s.conns|
            && t.conns[|s.conns|].attempt.Some?
            && (s.conns[s.connections[p]].attempt.Some? ==>
                t.conns[|s.conns|].attempt == s.conns[s.connections[p]].attempt)
            && t.conns[s.connections[p]].finished
  {
    assert Listed(s, p);
  }

  /** A promise handed out by connect is pending, is for that peer, and the peer's connection holds
      it; whatever happens later it is pending still, resolved to that peer, or rejected.
   */
  lemma {:induction false} ConnectPromises(
      s: State, p: PeerId, offering: bool, newId: string, fails: bool, ops: seq<Op>)
    requires Stable(s) && Grounded(s) && ConnectAnswer(s, p, fails).Awaits?
    requires var t := ConnectCalled(s, p, offering, newId, fails); Stable(t) ==> AllEnabled(t, ops)
    ensures var t := ConnectCalled(s, p, offering, newId, fails);
            var a := ConnectAnswer(s, p, fails).promise;
            && Stable(t)
            && p in t.connections && Holds(t.conns, t.connections[p], a)
            && a < |t.attempts| && t.attempts[a] == Attempt(p, Pending)
            && var u := After(t, ops);
               a < |u.attempts| && (u.attempts[a].outcome.Resolved? ==> u.attempts[a].outcome == Resolved(p))
  {
    var t := ConnectCalled(s, p, offering, newId, fails);
    var a := ConnectAnswer(s, p, fails).promise;
    ConnectKeeps(s, p, offering, newId, fails);
    if p in s.connections { assert Listed(s, p) && Holds(s.conns, s.connections[p], a); }
    var u := After(t, ops);
    assert u.attempts[a].peer == p;
  }

  /** Once the endpoint has stopped, no promise is pending, now or later. */
  lemma {:induction false} StopSettlesEverything(s: State, order: seq<nat>, ops: seq<Op>, a: nat)
    requires Stable(s) && Grounded(s) && Enabled(s, Stop(order))
    requires Stable(StopCalled(s, order)) ==> AllEnabled(StopCalled(s, order), ops)
    ensures Stable(StopCalled(s, order))
    ensures var t := After(StopCalled(s, order), ops);
            t.stopped && t.connections == map[] && (a < |t.attempts| ==> !t.attempts[a].outcome.Pending?)
  {
    ApplyKeeps(s, Stop(order));
    StoppingKeeps(s, order);
    var t := After(StopCalled(s, order), ops);
    forall c: nat | c < |t.conns| ensures t.conns[c].finished { MapHoldsTheUnfinished(t, c); }
    if a < |t.attempts| { PendingIffOneHolder(t, a); }
  }

  // ---------- no promise is left hanging ----------

  /** A connection that still owes an answer has its timeout running. */
  ghost predicate Timed(s: State) {
    forall c: nat {:trigger s.conns[c]} :: c < |s.conns| && s.conns[c].attempt.Some? ==> s.conns[c].timeout
  }

  /** The operation sets up a new connection. */
  ghost predicate Opens(s: State, op: Op)
    requires Grounded(s)
  {
    match op
    case Connect(peer, _, _, _) => !s.stopped && peer !in s.connections
    case Offer(peer, _, _) => peer !in s.connections || s.conns[s.connections[peer]].connectionId != NO_ID
    case ConnectRequest(_, _, _, _) => true
    case _ => false
  }

  /** The operation sets up a new connection, and its peer connection fails to start. */
  ghost predicate FailsToStart(s: State, op: Op)
    requires Grounded(s)
  {
    Opens(s, op) && match op
                    case Connect(_, _, _, fails) => fails
                    case Offer(_, _, fails) => fails
                    case ConnectRequest(_, _, _, fails) => fails
                    case _ => false
  }

  /** The last connection is new and still owes an answer: it is timed exactly if it started. */
  lemma StartIsTimedIff(s: State, p: PeerId, id: string, fails: bool)
    requires s.conns != [] && s.conns[|s.conns| - 1].attempt.Some?
    requires forall c: nat {:trigger s.conns[c]} ::
               c < |s.conns| - 1 && s.conns[c].attempt.Some? ==> s.conns[c].timeout
    ensures Timed(Started(s, p, id, fails)) <==> !fails
  {
    var t, last := Started(s, p, id, fails), |s.conns| - 1;
    assert t.conns[last].attempt.Some? && t.conns[last].timeout == !fails;
    forall c: nat | c < last ensures t.conns[c] == s.conns[c] {}
  }

  lemma NewConnectionIsTimedIff(s: State, p: PeerId, given: Option<nat>, id: string, fails: bool)
    requires Timed(s)
    ensures Timed(Started(Created(s, p, given), p, id, fails)) <==> !fails
  {
    var u := Created(s, p, given);
    forall c: nat | c < |s.conns| ensures u.conns[c] == s.conns[c] {}
    StartIsTimedIff(u, p, id, fails);
  }

  lemma ReplacingIsTimedIff(s: State, p: PeerId, id: string, fails: bool)
    requires Timed(s) && Grounded(s) && p in s.connections
    ensures Timed(Replaced(s, p, id, fails)) <==> !fails
  {
    var u := Unseated(s, p);
    assert Timed(u);
    NewConnectionIsTimedIff(u, p, s.conns[s.connections[p]].attempt, id, fails);
  }

  lemma {:induction false} ClosingAllIsTimed(s: State, order: seq<nat>)
    requires Timed(s) && Grounded(s) && Numbers(order, |s.conns|)
    ensures Timed(AllClosed(s, order))
    decreases |order|
  {
    if order != [] {
      assert Numbers(order[..|order| - 1], |s.conns|);
      ClosingAllIsTimed(s, order[..|order| - 1]);
    }
  }

  lemma ClosingIsTimed(s: State, c: nat, reason: string)
    requires Timed(s) && Grounded(s) && c < |s.conns|
    ensures Timed(ConnectionClosed(s, c, reason))
  {
  }

  lemma StateChangeIsTimed(s: State, c: nat, state: string)
    requires Timed(s) && Grounded(s) && c < |s.conns|
    ensures Timed(StateChanged(s, c, state))
  {
    var t := WithConn(s, c, s.conns[c].(lastState := Some(state)));
    assert Timed(t) && Grounded(t);
    if state == "failed" { ClosingIsTimed(t, c, "connection failed"); } else { ClosingIsTimed(t, c, "closed"); }
  }

  lemma OfferIsTimedIff(s: State, p: PeerId, id: string, fails: bool)
    requires Timed(s) && Grounded(s) && !s.stopped
    ensures Timed(OfferReceived(s, p, id, fails)) <==> !FailsToStart(s, Offer(p, id, fails))
  {
    if p !in s.connections {
      NewConnectionIsTimedIff(s, p, None, id, fails);
    } else if s.conns[s.connections[p]].connectionId != NO_ID {
      ReplacingIsTimedIff(s, p, id, fails);
    }
  }

  lemma ConnectIsTimedIff(s: State, p: PeerId, offering: bool, newId: string, fails: bool)
    requires Timed(s) && Grounded(s)
    ensures Timed(ConnectCalled(s, p, offering, newId, fails)) <==>
            !FailsToStart(s, Connect(p, offering, newId, fails))
  {
    NewConnectionIsTimedIff(s, p, None, if offering then newId else NO_ID, fails);
  }

  /** A step leaves some connection that owes an answer without its timeout if and only if it sets
      up a connection whose peer connection fails to start.
   */
  lemma TimedUnlessItFailsToStart(s: State, op: Op)
    requires Timed(s) && Grounded(s) && Enabled(s, op)
    ensures Timed(Apply(s, op)) <==> !FailsToStart(s, op)
  {
    match op {
      case Connect(peer, offering, newId, fails) => ConnectIsTimedIff(s, peer, offering, newId, fails);
      case Offer(peer, id, fails) => OfferIsTimedIff(s, peer, id, fails);
      case ConnectRequest(peer, offering, newId, fails) =>
        if peer in s.connections { ReplacingIsTimedIff(s, peer, newId, fails); }
        else { ConnectIsTimedIff(s, peer, offering, newId, fails); }
      case SignalError(peer) =>
        if peer in s.connections { ClosingIsTimed(s, s.connections[peer], "signalling error"); }
      case Close(peer) =>
        if peer in s.connections {
          ClosingIsTimed(s.(connections := s.connections - {peer}), s.connections[peer], "closed");
        }
      case Open(c) =>
      case StateChange(c, state) => StateChangeIsTimed(s, c, state);
      case Lose(c, reason) => ClosingIsTimed(s, c, reason);
      case Timeout(c) => ClosingIsTimed(s, c, "timed out");
      case Stop(order) => ClosingAllIsTimed(s.(stopped := true, connections := map[]), order);
    }
  }

  /** Timed at every moment of a run. */
  ghost predicate TimedThroughout(s: State, ops: seq<Op>)
    requires Stable(s) && AllEnabled(s, ops)
    decreases |ops|
  {
    InvIsGrounded(s, {}, None);
    && Timed(s)
    && (ops != [] ==> (ApplyKeeps(s, ops[0]); TimedThroughout(Apply(s, ops[0]), ops[1..])))
  }

  /** No connection set up during a run fails to start. */
  ghost predicate AllStart(s: State, ops: seq<Op>)
    requires Stable(s) && AllEnabled(s, ops)
    decreases |ops|
  {
    InvIsGrounded(s, {}, None);
    ops != [] ==>
      !FailsToStart(s, ops[0]) && (ApplyKeeps(s, ops[0]); AllStart(Apply(s, ops[0]), ops[1..]))
  }

  /** Over every run, all connections that owe an answer have their timeouts at every moment if and
      only if no connection set up during the run fails to start.
   */
  lemma {:induction false} TimedThroughoutIffAllStart(s: State, ops: seq<Op>)
    requires Stable(s) && AllEnabled(s, ops) && Timed(s)
    ensures TimedThroughout(s, ops) <==> AllStart(s, ops)
    decreases |ops|
  {
    if ops != [] {
      InvIsGrounded(s, {}, None);
      TimedUnlessItFailsToStart(s, ops[0]);
      ApplyKeeps(s, ops[0]);
      if Timed(Apply(s, ops[0])) { TimedThroughoutIffAllStart(Apply(s, ops[0]), ops[1..]); }
    }
  }

  /** As long as peer connections start, a pending promise has a running timeout that rejects it. */
  lemma TimeoutSettles(s: State, a: nat) returns (c: nat)
    requires Stable(s) && Grounded(s) && Timed(s) && a < |s.attempts| && s.attempts[a].outcome.Pending?
    ensures Enabled(s, Timeout(c))
    ensures Apply(s, Timeout(c)).attempts == s.attempts[a := s.attempts[a].(outcome := Rejected("timed out"))]
  {
    c :| Holds(s.conns, c, a);
    assert HeldAttempt(s, c, a);
  }

  /** A connect call whose peer connection fails to start: the next call for that peer is given a
      promise that is pending while no connection timeout is running at all.
   */
  lemma FailedStartHangs(p: PeerId, fails: bool)
    ensures var s := ConnectCalled(State([], [], map[], false), p, true, "x", true);
            && Stable(s)
            && ConnectAnswer(s, p, fails) == Awaits(0) && s.attempts[0].outcome == Pending
            && forall c :: !Enabled(s, Timeout(c))
  {
    ConnectKeeps(State([], [], map[], false), p, true, "x", true);
  }
}
