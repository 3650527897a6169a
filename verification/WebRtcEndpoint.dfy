/** Connections of one node to its peers: each new connection carries the promise of a connect
    call, and a connection that is replaced hands the promise on to its successor.
 */
module WebRtcEndpoints {
  import opened Options

  type PeerId = string

  // ---------- the state and what each event does to it ----------

  datatype Outcome = Pending | Resolved(peer: PeerId) | Rejected(reason: string)

  datatype Attempt = Attempt(peer: PeerId, outcome: Outcome)

  datatype Conn = Conn(
    peer: PeerId,
    attempt: Option<nat>,
    finished: bool,
    lastState: Option<string>,
    connectionId: string,
    timeout: bool)

  datatype State = State(
    conns: seq<Conn>,
    attempts: seq<Attempt>,
    connections: map<PeerId, nat>,
    stopped: bool)

  datatype ConnectResult<A> = Stopped | AlreadyConnected(peer: PeerId) | Awaits(promise: A) | Threw

  const NO_ID := "none"

  /** Everything the connections and attempts refer to exists. */
  ghost predicate Grounded(s: State) {
    && (forall c {:trigger s.conns[c]} :: 0 <= c < |s.conns| && s.conns[c].attempt.Some? ==>
        s.conns[c].attempt.value < |s.attempts|)
    && (forall p {:trigger s.connections[p]} :: p in s.connections ==> s.connections[p] < |s.conns|)
  }

  /** The first outcome of an attempt stays. */
  function Settled(s: State, attempt: Option<nat>, outcome: Outcome): State
    requires attempt.Some? ==> attempt.value < |s.attempts|
  {
    if attempt.Some? && s.attempts[attempt.value].outcome.Pending? then
      s.(attempts := s.attempts[attempt.value := s.attempts[attempt.value].(outcome := outcome)])
    else s
  }

  function WithConn(s: State, c: nat, conn: Conn): State
    requires c < |s.conns|
  {
    s.(conns := s.conns[c := conn])
  }

  function Forgotten(s: State, c: nat, peer: PeerId): State {
    if peer in s.connections && s.connections[peer] == c then s.(connections := s.connections - {peer}) else s
  }

  function Shut(conn: Conn): Conn {
    conn.(attempt := None, finished := true, lastState := None, timeout := false)
  }

  /** A closing connection rejects the attempt it still holds and leaves the map. */
  function ConnectionClosed(s: State, c: nat, reason: string): State
    requires Grounded(s) && c < |s.conns|
  {
    var conn := s.conns[c];
    if conn.finished then s
    else Forgotten(WithConn(Settled(s, conn.attempt, Rejected(reason)), c, Shut(conn)), c, conn.peer)
  }

  function OpenedAt(s: State, c: nat): State
    requires Grounded(s) && c < |s.conns|
  {
    var conn := s.conns[c];
    WithConn(Settled(s, conn.attempt, Resolved(conn.peer)), c, conn.(attempt := None, timeout := false))
  }

  function StateChanged(s: State, c: nat, state: string): State
    requires Grounded(s) && c < |s.conns|
  {
    var t := WithConn(s, c, s.conns[c].(lastState := Some(state)));
    if state == "disconnected" || state == "closed" then ConnectionClosed(t, c, "closed")
    else if state == "failed" then ConnectionClosed(t, c, "connection failed")
    else if state == "connecting" then WithConn(t, c, t.conns[c].(timeout := true))
    else t
  }

  /** A new connection, not yet in the map, on a given or a new attempt. */
  function Created(s: State, peer: PeerId, attempt: Option<nat>): State {
    var t := if attempt.Some? then s else s.(attempts := s.attempts + [Attempt(peer, Pending)]);
    var held := if attempt.Some? then attempt else Some(|s.attempts|);
    t.(conns := s.conns + [Conn(peer, held, false, None, NO_ID, false)])
  }

  /** The last connection enters the map and starts to connect. */
  function Started(s: State, peer: PeerId, id: string, fails: bool): State
    requires s.conns != []
  {
    var c := |s.conns| - 1;
    WithConn(s, c, s.conns[c].(connectionId := id, timeout := !fails)).(connections := s.connections[peer := c])
  }

  /** A connection loses its attempt and its place in the map. */
  function Released(s: State, peer: PeerId): State
    requires Grounded(s) && peer in s.connections
  {
    var c := s.connections[peer];
    WithConn(s, c, s.conns[c].(attempt := None)).(connections := s.connections - {peer})
  }

  function Unseated(s: State, peer: PeerId): State
    requires Grounded(s) && peer in s.connections
  {
    ConnectionClosed(Released(s, peer), s.connections[peer], "closed")
  }

  function Replaced(s: State, peer: PeerId, id: string, fails: bool): State
    requires Grounded(s) && peer in s.connections
  {
    Started(Created(Unseated(s, peer), peer, s.conns[s.connections[peer]].attempt), peer, id, fails)
  }

  lemma ReleasedInTwo(s: State, peer: PeerId, t: State)
    requires Grounded(s) && peer in s.connections && t.attempts == s.attempts && t.stopped == s.stopped
    requires var c := s.connections[peer]; t.conns == s.conns[c := s.conns[c].(attempt := None)]
    requires t.connections == s.connections - {peer}
    ensures t == Released(s, peer)
  {
  }

  /** The connect call: newId is the identifier an offering side would generate. */
  function ConnectCalled(s: State, peer: PeerId, offering: bool, newId: string, fails: bool): State {
    if s.stopped || peer in s.connections then s
    else Started(Created(s, peer, None), peer, if offering then newId else NO_ID, fails)
  }

  function ConnectAnswer(s: State, peer: PeerId, fails: bool): ConnectResult<nat>
    requires Grounded(s)
  {
    if s.stopped then Stopped
    else if peer in s.connections then
      var conn := s.conns[s.connections[peer]];
      if conn.lastState == Some("connected") then AlreadyConnected(peer)
      else if conn.attempt.Some? then Awaits(conn.attempt.value)
      else Threw
    else if fails then Threw
    else Awaits(|s.attempts|)
  }

  function OfferReceived(s: State, peer: PeerId, id: string, fails: bool): State
    requires Grounded(s)
  {
    if peer !in s.connections then Started(Created(s, peer, None), peer, id, fails)
    else
      var c := s.connections[peer];
      if s.conns[c].connectionId != NO_ID then Replaced(s, peer, id, fails)
      else WithConn(s, c, s.conns[c].(connectionId := id))
  }

  function ConnectRequested(s: State, peer: PeerId, offering: bool, newId: string, fails: bool): State
    requires Grounded(s)
  {
    if peer in s.connections then Replaced(s, peer, newId, fails)
    else ConnectCalled(s, peer, offering, newId, fails)
  }

  function SignalFailed(s: State, peer: PeerId): State
    requires Grounded(s)
  {
    if peer in s.connections then ConnectionClosed(s, s.connections[peer], "signalling error") else s
  }

  function CloseCalled(s: State, peer: PeerId): State
    requires Grounded(s)
  {
    if peer in s.connections then
      ConnectionClosed(s.(connections := s.connections - {peer}), s.connections[peer], "closed")
    else s
  }

  lemma ClosingKeepsGround(s: State, c: nat, reason: string)
    requires Grounded(s) && c < |s.conns|
    ensures Grounded(ConnectionClosed(s, c, reason))
    ensures |ConnectionClosed(s, c, reason).conns| == |s.conns|
  {
  }

  ghost predicate Numbers(order: seq<nat>, bound: nat) {
    forall i :: 0 <= i < |order| ==> order[i] < bound
  }

  function AllClosed(s: State, order: seq<nat>): (t: State)
    requires Grounded(s) && Numbers(order, |s.conns|)
    ensures Grounded(t) && |t.conns| == |s.conns|
    decreases |order|
  {
    if order == [] then s
    else
      var last := |order| - 1;
      assert Numbers(order[..last], |s.conns|);
      var t := AllClosed(s, order[..last]);
      ClosingKeepsGround(t, order[last], "closed");
      ConnectionClosed(t, order[last], "closed")
  }

  lemma {:induction false} OneMoreClosed(s: State, order: seq<nat>, c: nat)
    requires Grounded(s) && Numbers(order, |s.conns|) && c < |s.conns|
    ensures Numbers(order + [c], |s.conns|)
    ensures AllClosed(s, order + [c]) == ConnectionClosed(AllClosed(s, order), c, "closed")
  {
    assert (order + [c])[..|order|] == order;
  }

  /** Stopping forgets every connection and closes them, in the order of the map. */
  function StopCalled(s: State, order: seq<nat>): State
    requires Grounded(s) && Numbers(order, |s.conns|)
  {
    AllClosed(s.(stopped := true, connections := map[]), order)
  }

  // ---------- the objects ----------

  class DeferredConnectionAttempt {
    ghost const no: nat
    ghost const peer: PeerId
    var outcome: Outcome

    ghost function Abs(): Attempt
      reads this
    {
      Attempt(peer, outcome)
    }

    constructor (ghost no: nat, ghost peer: PeerId)
      ensures this.no == no && Abs() == Attempt(peer, Pending)
    {
      this.no, this.peer := no, peer;
      outcome := Pending;
    }

    method Resolve(targetPeerId: PeerId)
      modifies this
      ensures outcome == if old(outcome).Pending? then Resolved(targetPeerId) else old(outcome)
    {
      if outcome.Pending? { outcome := Resolved(targetPeerId); }
    }

    method Reject(reason: string)
      modifies this
      ensures outcome == if old(outcome).Pending? then Rejected(reason) else old(outcome)
    {
      if outcome.Pending? { outcome := Rejected(reason); }
    }
  }

  class WebRtcConnection {
    const id: nat
    const peerId: PeerId
    var deferredConnectionAttempt: DeferredConnectionAttempt?
    var isFinished: bool
    var lastState: Option<string>
    var connectionId: string
    var connectionTimeout: bool

    ghost function Abs(): Conn
      reads this
    {
      var a := deferredConnectionAttempt;
      Conn(peerId, if a == null then None else Some(a.no), isFinished, lastState, connectionId, connectionTimeout)
    }

    constructor (id: nat, peerId: PeerId, attempt: DeferredConnectionAttempt)
      ensures this.id == id && deferredConnectionAttempt == attempt
      ensures Abs() == Conn(peerId, Some(attempt.no), false, None, NO_ID, false)
    {
      this.id, this.peerId := id, peerId;
      deferredConnectionAttempt := attempt;
      isFinished, lastState, connectionId, connectionTimeout := false, None, NO_ID, false;
    }

    method StealDeferredConnectionAttempt() returns (attempt: DeferredConnectionAttempt?)
      modifies this`deferredConnectionAttempt
      ensures attempt == old(deferredConnectionAttempt) && deferredConnectionAttempt == null
      ensures Abs() == old(Abs()).(attempt := None)
    {
      attempt := deferredConnectionAttempt;
      deferredConnectionAttempt := null;
    }

    /** Closing for the first time rejects the attempt; the listeners are then told. */
    method Close(reason: string) returns (emitted: bool)
      modifies this, if deferredConnectionAttempt == null then {} else {deferredConnectionAttempt}
      ensures emitted == !old(isFinished) && isFinished
      ensures emitted ==> !connectionTimeout && lastState == None
      ensures Abs() == if emitted then Shut(old(Abs())) else old(Abs())
      ensures emitted ==> deferredConnectionAttempt == null
      ensures !emitted ==> deferredConnectionAttempt == old(deferredConnectionAttempt)
      ensures var a := old(deferredConnectionAttempt);
              a != null ==> a.outcome == if emitted && old(a.outcome).Pending? then Rejected(reason) else old(a.outcome)
    {
      if isFinished { return false; }
      isFinished := true;
      connectionTimeout := false;
      lastState := None;
      if deferredConnectionAttempt != null {
        deferredConnectionAttempt.Reject(reason);
        deferredConnectionAttempt := null;
      }
      return true;
    }

    method EmitOpen()
      modifies this, if deferredConnectionAttempt == null then {} else {deferredConnectionAttempt}
      ensures Abs() == old(Abs()).(attempt := None, timeout := false) && deferredConnectionAttempt == null
      ensures var a := old(deferredConnectionAttempt);
              a != null ==> a.outcome == if old(a.outcome).Pending? then Resolved(peerId) else old(a.outcome)
    {
      connectionTimeout := false;
      if deferredConnectionAttempt != null {
        deferredConnectionAttempt.Resolve(peerId);
        deferredConnectionAttempt := null;
      }
    }
  }

  /** The ghost fields hold the objects ever made, and the values of these objects and of the map. */
  class WebRtcEndpoint {
    var connections: map<PeerId, WebRtcConnection>
    var stopped: bool
    var nextId: nat
    ghost var created: seq<WebRtcConnection>
    ghost var attempts: seq<DeferredConnectionAttempt>
    ghost var conns: seq<Conn>
    ghost var promises: seq<Attempt>
    ghost var mapped: map<PeerId, nat>

    ghost function Abs(): State
      reads this
    {
      State(conns, promises, mapped, stopped)
    }

    ghost predicate ConnsMirrored()
      reads this`created, this`conns, this`attempts, created
    {
      && |created| == |conns|
      && forall i {:trigger created[i]} :: 0 <= i < |created| ==>
           created[i].id == i && created[i].Abs() == conns[i] && Owned(created[i].deferredConnectionAttempt)
    }

    ghost predicate AttemptsMirrored()
      reads this`attempts, this`promises, attempts
    {
      && |attempts| == |promises|
      && forall i {:trigger attempts[i]} :: 0 <= i < |attempts| ==>
          attempts[i].no == i && attempts[i].Abs() == promises[i]
    }

    ghost predicate MapMirrored()
      reads this`created, this`connections, this`mapped
    {
      && connections.Keys == mapped.Keys
      && forall p {:trigger connections[p]} :: p in connections ==>
           mapped[p] < |created| && created[mapped[p]] == connections[p]
    }

    ghost predicate Valid()
      reads this, created, attempts
    {
      ConnsMirrored() && AttemptsMirrored() && MapMirrored() && nextId == |created|
    }

    ghost predicate Known(connection: WebRtcConnection)
      reads this`created
    {
      connection.id < |created| && created[connection.id] == connection
    }

    ghost predicate Owned(attempt: DeferredConnectionAttempt?)
      reads this`attempts
    {
      attempt != null ==> attempt.no < |attempts| && attempts[attempt.no] == attempt
    }

    lemma ValidIsGrounded()
      requires Valid()
      ensures Grounded(Abs())
    {
      forall c | 0 <= c < |conns| && conns[c].attempt.Some? ensures conns[c].attempt.value < |promises| {
        assert created[c].Abs() == conns[c];
      }
      forall p | p in mapped ensures mapped[p] < |conns| { assert created[mapped[p]] == connections[p]; }
    }

    constructor ()
      ensures Valid() && Abs() == State([], [], map[], false)
    {
      connections, stopped, nextId := map[], false, 0;
      created, attempts, conns, promises, mapped := [], [], [], [], map[];
    }

    method Remove(peerId: PeerId)
      requires Valid()
      modifies this`connections, this`mapped
      ensures Valid() && mapped == old(mapped) - {peerId}
    {
      connections, mapped := connections - {peerId}, mapped - {peerId};
    }

    /** The close listener of a connection. */
    method OnClose(connection: WebRtcConnection)
      requires Valid() && Known(connection)
      modifies this`connections, this`mapped
      ensures Valid() && Abs() == Forgotten(old(Abs()), connection.id, connection.peerId)
    {
      assert ConnsMirrored();
      if connection.peerId in connections && connections[connection.peerId] == connection {
        Remove(connection.peerId);
      }
    }

    method CloseConnection(connection: WebRtcConnection, reason: string)
      requires Valid() && Known(connection)
      modifies this`connections, this`conns, this`promises, this`mapped, created, attempts
      ensures Valid() && Grounded(old(Abs())) && Abs() == ConnectionClosed(old(Abs()), connection.id, reason)
    {
      var emitted := ShutDown(connection, reason);
      if emitted { OnClose(connection); }
    }

    /** Closing, before the listener is told. */
    method ShutDown(connection: WebRtcConnection, reason: string) returns (emitted: bool)
      requires Valid() && Known(connection)
      modifies this`conns, this`promises, created, attempts
      ensures Valid() && Grounded(old(Abs())) && old(conns)[connection.id].peer == connection.peerId
      ensures emitted == !old(conns)[connection.id].finished
      ensures var s, c := old(Abs()), connection.id;
              Abs() == if emitted then WithConn(Settled(s, s.conns[c].attempt, Rejected(reason)), c,
                  Shut(s.conns[c])) else s
    {
      ValidIsGrounded();
      ghost var conn := connection.Abs();
      ghost var before := Abs();
      assert conn == conns[connection.id];
      emitted := connection.Close(reason);
      if emitted {
        promises := Settled(before, conn.attempt, Rejected(reason)).attempts;
        conns := conns[connection.id := Shut(conn)];
      }
    }

    /** The given attempt, or a new one. */
    method HeldAttempt(targetPeerId: PeerId, attempt: DeferredConnectionAttempt?)
        returns (held: DeferredConnectionAttempt)
      requires Valid() && Owned(attempt)
      modifies this`attempts, this`promises
      ensures Valid() && Owned(held) && old(attempts) <= attempts && fresh(attempts[|old(attempts)|..])
      ensures attempt != null ==> held == attempt && promises == old(promises)
      ensures attempt == null ==>
                held.no == |old(promises)| && promises == old(promises) + [Attempt(targetPeerId, Pending)]
    {
      if attempt != null { return attempt; }
      held := new DeferredConnectionAttempt(|attempts|, targetPeerId);
      attempts, promises := attempts + [held], promises + [held.Abs()];
    }

    method CreateConnection(targetPeerId: PeerId, attempt: DeferredConnectionAttempt?)
        returns (connection: WebRtcConnection)
      requires Valid() && Owned(attempt)
      modifies this`nextId, this`created, this`attempts, this`conns, this`promises
      ensures Valid() && fresh(connection) && created == old(created) + [connection]
      ensures old(attempts) <= attempts && fresh(attempts[|old(attempts)|..])
      ensures Abs() == Created(old(Abs()), targetPeerId, if attempt == null then None else Some(attempt.no))
      ensures connection.peerId == targetPeerId
    {
      var held := HeldAttempt(targetPeerId, attempt);
      connection := new WebRtcConnection(nextId, targetPeerId, held);
      nextId := nextId + 1;
      created, conns := created + [connection], conns + [connection.Abs()];
    }

    method Insert(connection: WebRtcConnection)
      requires MapMirrored() && Known(connection)
      modifies this`connections, this`mapped
      ensures MapMirrored() && mapped == old(mapped)[connection.peerId := connection.id]
    {
      connections, mapped := connections[connection.peerId := connection], mapped[connection.peerId := connection.id];
    }

    method SetUp(connection: WebRtcConnection, id: string, fails: bool)
      requires Valid() && Known(connection)
      modifies this`conns, connection
      ensures Valid()
      ensures conns == old(conns)[connection.id := old(conns)[connection.id].(connectionId := id, timeout := !fails)]
    {
      ghost var conn := connection.Abs();
      assert conn == created[connection.id].Abs() == conns[connection.id];
      connection.connectionId := id;
      connection.connectionTimeout := !fails;
      conns := conns[connection.id := conn.(connectionId := id, timeout := !fails)];
    }

    /** Take a new connection into the map and start it; its peer connection may fail to start. */
    method Start(connection: WebRtcConnection, id: string, fails: bool)
      requires Valid() && created != [] && connection == created[|created| - 1]
      modifies this`connections, this`conns, this`mapped, connection
      ensures Valid() && Abs() == Started(old(Abs()), connection.peerId, id, fails)
    {
      assert connection.id == |conns| - 1;
      SetUp(connection, id, fails);
      Insert(connection);
    }

    method Steal(conn: WebRtcConnection) returns (attempt: DeferredConnectionAttempt?)
      requires Valid() && Known(conn)
      modifies this`conns, conn`deferredConnectionAttempt
      ensures Valid() && Owned(attempt)
      ensures old(conns)[conn.id].attempt == if attempt == null then None else Some(attempt.no)
      ensures conns == old(conns)[conn.id := old(conns)[conn.id].(attempt := None)]
    {
      ghost var c := conn.id;
      assert created[c].Abs() == conns[c] && Owned(created[c].deferredConnectionAttempt);
      attempt := conn.StealDeferredConnectionAttempt();
      conns := conns[c := conn.Abs()];
    }

    /** Take a connection out of the map, and its attempt out of the connection. */
    method Release(peerId: PeerId, conn: WebRtcConnection) returns (attempt: DeferredConnectionAttempt?)
      requires Valid() && Grounded(Abs()) && peerId in mapped && Known(conn) && conn.id == mapped[peerId]
      modifies this`connections, this`conns, this`mapped, conn`deferredConnectionAttempt
      ensures Valid() && Owned(attempt)
      ensures old(conns)[conn.id].attempt == if attempt == null then None else Some(attempt.no)
      ensures Abs() == Released(old(Abs()), peerId)
    {
      ghost var before := Abs();
      attempt := Steal(conn);
      Remove(peerId);
      ReleasedInTwo(before, peerId, Abs());
    }

    method Lookup(peerId: PeerId) returns (conn: WebRtcConnection)
      requires Valid() && peerId in connections
      ensures Grounded(Abs()) && peerId in mapped && Known(conn) && conn.id == mapped[peerId]
    {
      ValidIsGrounded();
      conn := connections[peerId];
    }

    /** The connection of a peer gives up its attempt and its place, and is closed. */
    method Unseat(peerId: PeerId, conn: WebRtcConnection) returns (attempt: DeferredConnectionAttempt?)
      requires Valid() && Grounded(Abs()) && peerId in mapped && Known(conn) && conn.id == mapped[peerId]
      modifies this`connections, this`conns, this`promises, this`mapped, created, attempts
      ensures Valid() && Owned(attempt)
      ensures old(conns)[conn.id].attempt == if attempt == null then None else Some(attempt.no)
      ensures Abs() == Unseated(old(Abs()), peerId)
    {
      attempt := Release(peerId, conn);
      CloseConnection(conn, "closed");
    }

    method ReplaceConnection(peerId: PeerId, newConnectionId: string, fails: bool)
      requires Valid() && peerId in connections
      modifies this, created, attempts
      ensures Valid() && Grounded(old(Abs())) && peerId in old(mapped)
      ensures Abs() == Replaced(old(Abs()), peerId, newConnectionId, fails)
    {
      var conn := Lookup(peerId);
      var attempt := Unseat(peerId, conn);
      var connection := CreateConnection(peerId, attempt);
      Start(connection, newConnectionId, fails);
    }

    ghost function Numbered(r: ConnectResult<DeferredConnectionAttempt>): ConnectResult<nat> {
      match r
      case Awaits(promise) => Awaits(promise.no)
      case AlreadyConnected(peer) => AlreadyConnected(peer)
      case Stopped => Stopped
      case Threw => Threw
    }

    /** The peer connection may fail to start. */
    method Connect(targetPeerId: PeerId, offering: bool, newId: string, fails: bool)
        returns (result: ConnectResult<DeferredConnectionAttempt>)
      requires Valid()
      modifies this
      ensures Valid() && Grounded(old(Abs()))
      ensures Abs() == ConnectCalled(old(Abs()), targetPeerId, offering, newId, fails)
      ensures Numbered(result) == ConnectAnswer(old(Abs()), targetPeerId, fails)
      ensures result == Stopped <==> old(stopped)
      ensures forall q :: result == AlreadyConnected(q) <==>
                && !old(stopped) && q == targetPeerId && q in old(mapped)
                && old(conns)[old(mapped)[q]].lastState == Some("connected")
      ensures result == Threw <==>
              !old(stopped)
              && if targetPeerId in old(mapped) then
                   var conn := old(conns)[old(mapped)[targetPeerId]];
                   conn.lastState != Some("connected") && conn.attempt.None?
                 else fails
      ensures result.Awaits? ==> Owned(result.promise)
    {
      ValidIsGrounded();
      if stopped { return Stopped; }
      if targetPeerId in connections {
        var connection := connections[targetPeerId];
        assert connection.Abs() == conns[mapped[targetPeerId]];
        if connection.lastState == Some("connected") {
          return AlreadyConnected(targetPeerId);
        } else if connection.deferredConnectionAttempt != null {
          return Awaits(connection.deferredConnectionAttempt);
        } else {
          return Threw;
        }
      }
      result := OpenNew(targetPeerId, if offering then newId else NO_ID, fails);
    }

    method OpenNew(targetPeerId: PeerId, id: string, fails: bool)
        returns (result: ConnectResult<DeferredConnectionAttempt>)
      requires Valid()
      modifies this
      ensures Valid() && Abs() == Started(Created(old(Abs()), targetPeerId, None), targetPeerId, id, fails)
      ensures Numbered(result) == if fails then Threw else Awaits(|old(promises)|)
      ensures result.Awaits? ==> Owned(result.promise)
    {
      var connection := CreateConnection(targetPeerId, null);
      Start(connection, id, fails);
      assert created[|conns| - 1].Abs() == conns[|conns| - 1] && Owned(created[|conns| - 1].deferredConnectionAttempt);
      if fails { return Threw; }
      return Awaits(connection.deferredConnectionAttempt);
    }

    method OnRtcOffer(peerId: PeerId, connectionId: string, fails: bool)
      requires Valid()
      modifies this, created, attempts
      ensures Valid() && Grounded(old(Abs())) && Abs() == OfferReceived(old(Abs()), peerId, connectionId, fails)
    {
      ValidIsGrounded();
      if peerId !in connections {
        var _ := OpenNew(peerId, connectionId, fails);
        return;
      }
      ghost var c := mapped[peerId];
      assert created[c].Abs() == conns[c];
      if connections[peerId].connectionId != NO_ID {
        ReplaceConnection(peerId, connectionId, fails);
      } else {
        connections[peerId].connectionId := connectionId;
        conns := conns[c := created[c].Abs()];
      }
    }

    method OnConnectRequest(peerId: PeerId, offering: bool, newId: string, fails: bool)
      requires Valid()
      modifies this, created, attempts
      ensures Valid() && Grounded(old(Abs()))
      ensures Abs() == ConnectRequested(old(Abs()), peerId, offering, newId, fails)
    {
      ValidIsGrounded();
      if peerId in connections {
        ReplaceConnection(peerId, newId, fails);
      } else {
        var _ := Connect(peerId, offering, newId, fails);
      }
    }

    method OnSignalError(targetNode: PeerId)
      requires Valid()
      modifies this`connections, this`conns, this`promises, this`mapped, created, attempts
      ensures Valid() && Grounded(old(Abs())) && Abs() == SignalFailed(old(Abs()), targetNode)
    {
      ValidIsGrounded();
      if targetNode in connections {
        CloseConnection(connections[targetNode], "signalling error");
      }
    }

    method Close(receiverNodeId: PeerId)
      requires Valid()
      modifies this`connections, this`conns, this`promises, this`mapped, created, attempts
      ensures Valid() && Grounded(old(Abs())) && Abs() == CloseCalled(old(Abs()), receiverNodeId)
    {
      ValidIsGrounded();
      if receiverNodeId in connections {
        var connection := connections[receiverNodeId];
        assert Known(connection) && connection.id == mapped[receiverNodeId];
        Remove(receiverNodeId);
        CloseConnection(connection, "closed");
      }
    }

    method OnOpen(connection: WebRtcConnection)
      requires Valid() && Known(connection)
      modifies this`conns, this`promises, created, attempts
      ensures Valid() && Grounded(old(Abs())) && Abs() == OpenedAt(old(Abs()), connection.id)
    {
      ValidIsGrounded();
      ghost var before := Abs();
      ghost var conn := connection.Abs();
      assert conn == conns[connection.id];
      connection.EmitOpen();
      promises := Settled(before, conn.attempt, Resolved(conn.peer)).attempts;
      conns := conns[connection.id := conn.(attempt := None, timeout := false)];
    }

    method NoteState(connection: WebRtcConnection, state: string)
      requires Valid() && Known(connection)
      modifies this`conns, created
      ensures Valid() && Grounded(old(Abs()))
      ensures var conn := old(conns)[connection.id];
              conns == old(conns)[connection.id :=
                conn.(lastState := Some(state), timeout := conn.timeout || state == "connecting")]
    {
      ValidIsGrounded();
      assert connection.Abs() == conns[connection.id];
      connection.lastState := Some(state);
      if state == "connecting" { connection.connectionTimeout := true; }
      conns := conns[connection.id := connection.Abs()];
    }

    method OnStateChange(connection: WebRtcConnection, state: string)
      requires Valid() && Known(connection)
      modifies this`connections, this`conns, this`promises, this`mapped, created, attempts
      ensures Valid() && Grounded(old(Abs())) && Abs() == StateChanged(old(Abs()), connection.id, state)
    {
      NoteState(connection, state);
      if state == "disconnected" || state == "closed" {
        CloseConnection(connection, "closed");
      } else if state == "failed" {
        CloseConnection(connection, "connection failed");
      }
    }

    method CloseNext(connection: WebRtcConnection, ghost before: State, ghost order: seq<nat>)
      requires Valid() && Known(connection)
      requires Grounded(before) && Numbers(order, |before.conns|) && Abs() == AllClosed(before, order)
      modifies this`connections, this`conns, this`promises, this`mapped, created, attempts
      ensures Valid() && Numbers(order + [connection.id], |before.conns|)
      ensures Abs() == AllClosed(before, order + [connection.id])
    {
      OneMoreClosed(before, order, connection.id);
      CloseConnection(connection, "closed");
    }

    ghost predicate AreKnown(list: seq<WebRtcConnection>, ids: seq<nat>)
      reads this`created
    {
      |list| == |ids| && forall i {:trigger list[i]} :: 0 <= i < |list| ==>
          ids[i] < |created| && created[ids[i]] == list[i] && list[i].id == ids[i]
    }

    lemma OneMoreKnown(list: seq<WebRtcConnection>, ids: seq<nat>, connection: WebRtcConnection)
      requires AreKnown(list, ids) && Known(connection)
      ensures AreKnown(list + [connection], ids + [connection.id])
    {
      var all := list + [connection];
      forall i | 0 <= i < |all|
        ensures var n := (ids + [connection.id])[i]; n < |created| && created[n] == all[i] && all[i].id == n
      {
        if i < |list| { assert all[i] == list[i]; }
      }
    }

    method CloseAll(closing: seq<WebRtcConnection>, ghost ids: seq<nat>)
      requires Valid() && AreKnown(closing, ids)
      modifies this`connections, this`conns, this`promises, this`mapped, created, attempts
      ensures Valid() && Grounded(old(Abs())) && Numbers(ids, |old(conns)|)
      ensures Abs() == AllClosed(old(Abs()), ids)
    {
      ValidIsGrounded();
      ghost var before := Abs();
      ghost var order := [];
      for k := 0 to |closing|
        invariant Valid() && order == ids[..k]
        invariant Numbers(order, |before.conns|) && Abs() == AllClosed(before, order)
      {
        CloseNext(closing[k], before, order);
        order := order + [ids[k]];
      }
      assert order == ids;
    }

    method Values() returns (values: seq<WebRtcConnection>, ghost ids: seq<nat>)
      requires Valid()
      ensures AreKnown(values, ids)
      ensures forall p :: p in mapped ==> mapped[p] in ids
    {
      values, ids := [], [];
      var peers := connections.Keys;
      while peers != {}
        invariant peers <= connections.Keys && AreKnown(values, ids)
        invariant forall p :: p in mapped && p !in peers ==> mapped[p] in ids
      {
        var peer :| peer in peers;
        peers := peers - {peer};
        assert Known(connections[peer]) && connections[peer].id == mapped[peer];
        OneMoreKnown(values, ids, connections[peer]);
        values, ids := values + [connections[peer]], ids + [mapped[peer]];
      }
    }

    /** The order lists the connections in the order they are closed. */
    method Stop() returns (ghost order: seq<nat>)
      requires Valid()
      modifies this, created, attempts
      ensures Valid() && Grounded(old(Abs())) && Numbers(order, |old(conns)|)
      ensures forall p :: p in old(mapped) ==> old(mapped)[p] in order
      ensures Abs() == StopCalled(old(Abs()), order)
    {
      ValidIsGrounded();
      stopped := true;
      var closing;
      closing, order := Values();
      connections, mapped := map[], map[];
      CloseAll(closing, order);
    }
  }
}
