/** What ends a connection, what that does to its promise, and what connect answers meanwhile. */
module EndpointAnswers {
  import opened Options
  import opened WebRtcEndpoints
  import opened ConnectionAttempts

  // ---------- what ends a connection ----------

  /** The events that end the unfinished connection c. */
  ghost predicate Ends(s: State, op: Op, c: nat)
    requires c < |s.conns|
  {
    match op
    case Connect(_, _, _, _) => false
    case Offer(peer, _, _) => peer == s.conns[c].peer && s.conns[c].connectionId != "none"
    case ConnectRequest(peer, _, _, _) => peer == s.conns[c].peer
    case SignalError(peer) => peer == s.conns[c].peer
    case Close(peer) => peer == s.conns[c].peer
    case Open(_) => false
    case StateChange(d, state) => d == c && (state == "disconnected" || state == "closed" || state == "failed")
    case Lose(d, _) => d == c
    case Timeout(d) => d == c
    case Stop(_) => true
  }

  /** The connection keeps its peer, and its last state unless it is finished. */
  ghost predicate Stays(before: Conn, after: Conn) {
    && after.peer == before.peer
    && (before.finished ==> after.finished)
    && (after.finished || after.lastState == before.lastState)
  }

  lemma ClosingEnds(s: State, d: nat, reason: string, c: nat)
    requires Grounded(s) && d < |s.conns| && c < |s.conns|
    ensures var t := ConnectionClosed(s, d, reason);
            && c < |t.conns| && Stays(s.conns[c], t.conns[c])
            && (t.conns[c].finished <==> s.conns[c].finished || c == d)
  {
  }

  lemma {:induction false} ClosingAllEnds(s: State, order: seq<nat>, c: nat)
    requires Grounded(s) && Numbers(order, |s.conns|) && c < |s.conns|
    ensures var t := AllClosed(s, order);
            && c < |t.conns| && Stays(s.conns[c], t.conns[c])
            && (t.conns[c].finished <==> s.conns[c].finished || c in order)
    decreases |order|
  {
    if order != [] {
      var last := |order| - 1;
      assert Numbers(order[..last], |s.conns|);
      ClosingAllEnds(s, order[..last], c);
      ClosingEnds(AllClosed(s, order[..last]), order[last], "closed", c);
      assert order == order[..last] + [order[last]];
    }
  }

  lemma ReplacingEnds(s: State, p: PeerId, id: string, fails: bool, c: nat)
    requires Grounded(s) && p in s.connections && c < |s.conns|
    ensures var t := Replaced(s, p, id, fails);
            && c < |t.conns| && Stays(s.conns[c], t.conns[c])
            && (t.conns[c].finished <==> s.conns[c].finished || c == s.connections[p])
  {
    ClosingEnds(Released(s, p), s.connections[p], "closed", c);
    var u := Unseated(s, p);
    assert Created(u, p, s.conns[s.connections[p]].attempt).conns[c] == u.conns[c];
  }

  /** The connection of a peer is the one unfinished connection to it. */
  lemma OnlyTheMappedOne(s: State, peer: PeerId, c: nat)
    requires Stable(s) && Grounded(s) && c < |s.conns| && !s.conns[c].finished
    ensures peer in s.connections && c == s.connections[peer] <==> peer == s.conns[c].peer
  {
    assert InMap(s, c);
    if peer in s.connections { assert Listed(s, peer); }
  }

  lemma OfferEnds(s: State, peer: PeerId, id: string, fails: bool, c: nat)
    requires Stable(s) && Grounded(s) && c < |s.conns|
    ensures var t := OfferReceived(s, peer, id, fails);
            && c < |t.conns| && Stays(s.conns[c], t.conns[c])
            && (t.conns[c].finished <==> s.conns[c].finished || Ends(s, Offer(peer, id, fails), c))
  {
    if !s.conns[c].finished { OnlyTheMappedOne(s, peer, c); }
    if peer in s.connections && s.conns[s.connections[peer]].connectionId != NO_ID {
      ReplacingEnds(s, peer, id, fails, c);
    }
  }

  lemma RequestEnds(s: State, peer: PeerId, offering: bool, newId: string, fails: bool, c: nat)
    requires Stable(s) && Grounded(s) && c < |s.conns|
    ensures var t := ConnectRequested(s, peer, offering, newId, fails);
            && c < |t.conns| && Stays(s.conns[c], t.conns[c])
            && (t.conns[c].finished <==> s.conns[c].finished || peer == s.conns[c].peer)
  {
    if !s.conns[c].finished { OnlyTheMappedOne(s, peer, c); }
    if peer in s.connections { ReplacingEnds(s, peer, newId, fails, c); }
  }

  lemma CallEnds(s: State, peer: PeerId, c: nat)
    requires Stable(s) && Grounded(s) && c < |s.conns|
    ensures var t := SignalFailed(s, peer);
            && c < |t.conns| && Stays(s.conns[c], t.conns[c])
            && (t.conns[c].finished <==> s.conns[c].finished || peer == s.conns[c].peer)
    ensures var t := CloseCalled(s, peer);
            && c < |t.conns| && Stays(s.conns[c], t.conns[c])
            && (t.conns[c].finished <==> s.conns[c].finished || peer == s.conns[c].peer)
  {
    if !s.conns[c].finished { OnlyTheMappedOne(s, peer, c); }
    if peer in s.connections {
      ClosingEnds(s, s.connections[peer], "signalling error", c);
      ClosingEnds(s.(connections := s.connections - {peer}), s.connections[peer], "closed", c);
    }
  }

  lemma StateChangeEnds(s: State, d: nat, state: string, c: nat)
    requires Grounded(s) && c < |s.conns| && d < |s.conns| && !s.conns[d].finished
    ensures var t := StateChanged(s, d, state);
            && c < |t.conns| && t.conns[c].peer == s.conns[c].peer && (c != d ==> t.conns[c] == s.conns[c])
            && (t.conns[d].finished <==> state == "disconnected" || state == "closed" || state == "failed")
            && (!t.conns[d].finished ==> t.conns[d].lastState == Some(state))
  {
  }

  lemma StopEnds(s: State, order: seq<nat>, c: nat)
    requires Stable(s) && Grounded(s) && Enabled(s, Stop(order)) && c < |s.conns|
    ensures var t := StopCalled(s, order); c < |t.conns| && t.conns[c].finished && Stays(s.conns[c], t.conns[c])
  {
    if !s.conns[c].finished { assert InMap(s, c); }
    ClosingAllEnds(s.(stopped := true, connections := map[]), order, c);
  }

  /** A connection ends with exactly these events, for good, and only its own change its state. */
  lemma WhatEndsAConnection(s: State, op: Op, c: nat)
    requires Stable(s) && Grounded(s) && Enabled(s, op) && c < |s.conns|
    ensures var t := Apply(s, op);
            && c < |t.conns| && t.conns[c].peer == s.conns[c].peer
            && (t.conns[c].finished <==> s.conns[c].finished || Ends(s, op, c))
            && (!t.conns[c].finished ==>
                t.conns[c].lastState == if op.StateChange? && op.c == c then Some(op.state) else s.conns[c].lastState)
  {
    match op {
      case Connect(_, _, _, _) =>
      case Offer(peer, id, fails) => OfferEnds(s, peer, id, fails, c);
      case ConnectRequest(peer, offering, newId, fails) => RequestEnds(s, peer, offering, newId, fails, c);
      case SignalError(peer) => CallEnds(s, peer, c);
      case Close(peer) => CallEnds(s, peer, c);
      case Open(_) =>
      case StateChange(d, state) => StateChangeEnds(s, d, state, c);
      case Lose(d, reason) => ClosingEnds(s, d, reason, c);
      case Timeout(d) => ClosingEnds(s, d, "timed out", c);
      case Stop(order) => StopEnds(s, order, c);
    }
  }

  // ---------- what connect answers ----------

  /** None of the events is a change of state of connection c. */
  ghost predicate KeepsState(ops: seq<Op>, c: nat) {
    forall op :: op in ops && op.StateChange? ==> op.c != c
  }

  lemma {:induction false} StateLasts(s: State, ops: seq<Op>, c: nat)
    requires Stable(s) && AllEnabled(s, ops) && c < |s.conns| && KeepsState(ops, c)
    ensures var u := After(s, ops);
            && c < |u.conns| && u.conns[c].peer == s.conns[c].peer
            && (s.conns[c].finished ==> u.conns[c].finished)
            && (!u.conns[c].finished ==> u.conns[c].lastState == s.conns[c].lastState)
    decreases |ops|
  {
    if ops != [] {
      InvIsGrounded(s, {}, None);
      ApplyKeeps(s, ops[0]);
      WhatEndsAConnection(s, ops[0], c);
      assert ops[0] in ops;
      StateLasts(Apply(s, ops[0]), ops[1..], c);
    }
  }

  /** Once a connection has opened and its state has changed to connected, and for as long as it neither ends
      nor changes state, a connect call for its peer resolves to the peer.
   */
  lemma {:induction false} ConnectedPeerIsAnswered(s: State, c: nat, ops: seq<Op>, fails: bool)
    requires Stable(s) && AllEnabled(s, [Open(c), StateChange(c, "connected")] + ops) && KeepsState(ops, c)
    requires var u := After(s, [Open(c), StateChange(c, "connected")] + ops);
             c < |u.conns| && !u.conns[c].finished
    ensures var u := After(s, [Open(c), StateChange(c, "connected")] + ops);
            && c < |s.conns| && Grounded(u)
            && ConnectAnswer(u, s.conns[c].peer, fails) == AlreadyConnected(s.conns[c].peer)
  {
    var all := [Open(c), StateChange(c, "connected")] + ops;
    InvIsGrounded(s, {}, None);
    ApplyKeeps(s, all[0]);
    var t := Apply(s, all[0]);
    assert all[1..] == [StateChange(c, "connected")] + ops;
    InvIsGrounded(t, {}, None);
    ApplyKeeps(t, all[1..][0]);
    var v := Apply(t, all[1..][0]);
    assert all[1..][1..] == ops;
    WhatEndsAConnection(t, StateChange(c, "connected"), c);
    StateLasts(v, ops, c);
    var u := After(s, all);
    assert u == After(v, ops);
    InvIsGrounded(u, {}, None);
    assert InMap(u, c);
  }

  /** A connection that is starting or being set up: connect waits for its promise; and it throws exactly where
      a new connection fails to start, or the one there is neither connected nor owes an answer.
   */
  lemma ConnectAnswersExactly(s: State, p: PeerId, fails: bool, c: nat)
    requires Stable(s) && Grounded(s) && !s.stopped
    requires c < |s.conns| && !s.conns[c].finished && s.conns[c].peer == p
    ensures match ConnectAnswer(s, p, fails)
            case Stopped => false
            case AlreadyConnected(q) => q == p && s.conns[c].lastState == Some("connected")
            case Awaits(a) => s.conns[c].lastState != Some("connected") && s.conns[c].attempt == Some(a)
            case Threw => s.conns[c].lastState != Some("connected") && s.conns[c].attempt == None
  {
    assert InMap(s, c);
  }

  // ---------- what settles a promise ----------

  /** The connection hands its promise on to its successor. */
  ghost predicate HandsOn(s: State, op: Op, c: nat)
    requires c < |s.conns|
  {
    (op.Offer? || op.ConnectRequest?) && Ends(s, op, c)
  }

  function Reason(op: Op): string {
    match op
    case SignalError(_) => "signalling error"
    case StateChange(_, state) => if state == "failed" then "connection failed" else "closed"
    case Lose(_, reason) => reason
    case Timeout(_) => "timed out"
    case _ => "closed"
  }

  lemma ClosingRejects(s: State, d: nat, reason: string, c: nat, a: nat)
    requires PendingIsHeld(s, None) && Grounded(s) && d < |s.conns| && Holds(s.conns, c, a)
    ensures var t := ConnectionClosed(s, d, reason);
            && a < |t.attempts| && t.attempts[a].outcome == (if d == c then Rejected(reason) else Pending)
            && (d != c ==> Holds(t.conns, c, a))
  {
    assert HeldAttempt(s, c, a);
    if !s.conns[d].finished && s.conns[d].attempt == Some(a) { assert Holds(s.conns, d, a); }
  }

  lemma {:induction false} ClosingAllRejects(s: State, order: seq<nat>, out: set<nat>, c: nat, a: nat)
    requires Inv(s, out, None) && Grounded(s) && Numbers(order, |s.conns|) && Holds(s.conns, c, a)
    ensures var t := AllClosed(s, order);
            && a < |t.attempts| && t.attempts[a].outcome == (if c in order then Rejected("closed") else Pending)
            && (c !in order ==> Holds(t.conns, c, a))
    decreases |order|
  {
    assert HeldAttempt(s, c, a);
    if order != [] {
      var last := |order| - 1;
      assert Numbers(order[..last], |s.conns|);
      ClosingAllRejects(s, order[..last], out, c, a);
      ClosingAllKeeps(s, order[..last], out);
      var t := AllClosed(s, order[..last]);
      if c !in order[..last] {
        ClosingRejects(t, order[last], "closed", c, a);
      } else {
        ClosingFollows(t, order[last], "closed");
        assert ConnectionClosed(t, order[last], "closed").attempts[a] == t.attempts[a];
      }
      assert order == order[..last] + [order[last]];
    }
  }

  lemma StopRejects(s: State, order: seq<nat>, c: nat, a: nat)
    requires Stable(s) && Grounded(s) && Enabled(s, Stop(order)) && Holds(s.conns, c, a)
    ensures var t := StopCalled(s, order); a < |t.attempts| && t.attempts[a].outcome == Rejected("closed")
  {
    var t := s.(stopped := true, connections := map[]);
    var out := set p | p in s.connections :: s.connections[p];
    ForgettingKeeps(s, t, out);
    assert HeldAttempt(s, c, a) && InMap(s, c);
    assert Holds(t.conns, c, a);
    ClosingAllRejects(t, order, out, c, a);
  }

  lemma OpeningResolves(s: State, d: nat, c: nat, a: nat)
    requires PendingIsHeld(s, None) && Grounded(s) && d < |s.conns| && Holds(s.conns, c, a)
    ensures var t := OpenedAt(s, d);
            a < |t.attempts| && t.attempts[a].outcome == if d == c then Resolved(s.conns[c].peer) else Pending
  {
    assert HeldAttempt(s, c, a);
    if s.conns[d].attempt == Some(a) { assert Holds(s.conns, d, a); }
  }

  lemma ReplacingSettlesNothing(s: State, p: PeerId, id: string, fails: bool, c: nat, a: nat)
    requires Stable(s) && Grounded(s) && p in s.connections && Holds(s.conns, c, a)
    ensures var t := Replaced(s, p, id, fails); a < |t.attempts| && t.attempts[a] == s.attempts[a]
  {
    assert HeldAttempt(s, c, a);
    ReplacingCarriesThePromise(s, p, id, fails);
    assert Replaced(s, p, id, fails).attempts[..|s.attempts|][a] == s.attempts[a];
  }

  lemma CallRejects(s: State, peer: PeerId, c: nat, a: nat)
    requires Stable(s) && Grounded(s) && Holds(s.conns, c, a)
    ensures var t := SignalFailed(s, peer);
            a < |t.attempts|
            && t.attempts[a].outcome == if peer == s.conns[c].peer then Rejected("signalling error") else Pending
    ensures var t := CloseCalled(s, peer);
            a < |t.attempts| && t.attempts[a].outcome == if peer == s.conns[c].peer then Rejected("closed") else Pending
  {
    assert HeldAttempt(s, c, a);
    OnlyTheMappedOne(s, peer, c);
    if peer in s.connections {
      ClosingRejects(s, s.connections[peer], "signalling error", c, a);
      var t := s.(connections := s.connections - {peer});
      assert PendingIsHeld(t, None) by {
        forall d: nat, b: nat | Holds(t.conns, d, b) ensures HeldAttempt(t, d, b) { assert HeldAttempt(s, d, b); }
      }
      ClosingRejects(t, s.connections[peer], "closed", c, a);
    }
  }

  lemma StateChangeRejects(s: State, d: nat, state: string, c: nat, a: nat)
    requires Stable(s) && Grounded(s) && d < |s.conns| && !s.conns[d].finished && Holds(s.conns, c, a)
    ensures var t := StateChanged(s, d, state);
            a < |t.attempts| && t.attempts[a].outcome ==
              if d != c then Pending
              else if state == "failed" then Rejected("connection failed")
              else if state == "disconnected" || state == "closed" then Rejected("closed")
              else Pending
  {
    assert HeldAttempt(s, c, a);
    var t := WithConn(s, d, s.conns[d].(lastState := Some(state)));
    AlikeKeeps(s, t, {}, None);
    assert Holds(t.conns, c, a);
    ClosingRejects(t, d, "closed", c, a);
    ClosingRejects(t, d, "connection failed", c, a);
  }

  /** A pending promise resolves exactly when the connection that holds it opens, is rejected exactly when that
      connection ends without being replaced, and stays pending otherwise.
   */
  lemma WhatSettlesAPromise(s: State, op: Op, c: nat, a: nat)
    requires Stable(s) && Grounded(s) && Enabled(s, op) && Holds(s.conns, c, a)
    ensures var t := Apply(s, op);
            a < |t.attempts| && t.attempts[a].outcome ==
              if op == Open(c) then Resolved(s.conns[c].peer)
              else if Ends(s, op, c) && !HandsOn(s, op, c) then Rejected(Reason(op))
              else Pending
  {
    assert HeldAttempt(s, c, a);
    match op {
      case Connect(_, _, _, _) =>
      case Offer(peer, id, fails) => if peer in s.connections { ReplacingSettlesNothing(s, peer, id, fails, c, a); }
      case ConnectRequest(peer, _, newId, fails) =>
        if peer in s.connections { ReplacingSettlesNothing(s, peer, newId, fails, c, a); }
      case SignalError(peer) => CallRejects(s, peer, c, a);
      case Close(peer) => CallRejects(s, peer, c, a);
      case Open(d) => OpeningResolves(s, d, c, a);
      case StateChange(d, state) => StateChangeRejects(s, d, state, c, a);
      case Lose(d, reason) => ClosingRejects(s, d, reason, c, a);
      case Timeout(d) => ClosingRejects(s, d, "timed out", c, a);
      case Stop(order) => StopRejects(s, order, c, a);
    }
  }

  // ---------- identifiers and timeouts ----------

  /** An offer gives the connection its identifier, in place of one that has another already; a connect
      request gives a new one its own; and an open connection waits for no timeout until it connects again.
   */
  lemma IdentifiersAndTimeouts(s: State, op: Op)
    requires Stable(s) && Grounded(s) && Enabled(s, op)
    ensures var t := Apply(s, op);
            match op
            case Offer(peer, id, _) =>
              peer in t.connections && t.connections[peer] < |t.conns|
              && t.conns[t.connections[peer]].connectionId == id
            case ConnectRequest(peer, offering, newId, _) =>
              peer in t.connections && t.connections[peer] == |s.conns| < |t.conns|
              && t.conns[|s.conns|].connectionId == if peer in s.connections || offering then newId else NO_ID
            case Connect(peer, offering, newId, _) =>
              !s.stopped && peer !in s.connections ==>
                peer in t.connections && t.connections[peer] == |s.conns| < |t.conns|
                && t.conns[|s.conns|].connectionId == if offering then newId else NO_ID
            case Open(c) => t.conns == s.conns[c := s.conns[c].(attempt := None, timeout := false)]
            case StateChange(c, state) => state == "connecting" ==> t.conns[c].timeout
            case _ => true
  {
  }
}
