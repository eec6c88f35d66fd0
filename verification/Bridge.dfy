/** The web bridge's shared map of active connections, with its two concurrent cleanup paths. */
module Bridge {
  import opened Bytes

  type SessionId = nat
  /** A Python socket object; each login makes a new one. */
  type Sock = nat

  // ----- The map under connection_lock -----

  /** The map, and as history how often the bridge has called close on each socket. */
  datatype Connections = Connections(active: map<SessionId, Sock>, closes: multiset<Sock>)

  /** What both cleanup paths do under the lock. */
  function Drop(c: Connections, id: SessionId): Connections {
    if id in c.active then Connections(c.active - {id}, c.closes + multiset{c.active[id]}) else c
  }

  function DropAll(c: Connections, ids: seq<SessionId>): Connections
    decreases |ids|
  {
    if ids == [] then c else DropAll(Drop(c, ids[0]), ids[1..])
  }

  /** Cleanup of a session without an entry closes nothing. */
  lemma {:induction false} GoneStaysGone(c: Connections, id: SessionId, sock: Sock, ids: seq<SessionId>)
    requires id !in c.active && forall other :: other in c.active ==> c.active[other] != sock
    ensures id !in DropAll(c, ids).active && DropAll(c, ids).closes[sock] == c.closes[sock]
    decreases |ids|
  {
    if ids != [] {
      GoneStaysGone(Drop(c, ids[0]), id, sock, ids[1..]);
    }
  }

  /** Whichever of the two paths cleans up first, and however often either does: a session that is registered
      with a socket of its own loses its entry and has the socket closed once, and only by its own cleanup. */
  lemma {:induction false} ClosedOnceByEitherPath(c: Connections, id: SessionId, sock: Sock, ids: seq<SessionId>)
    requires id in c.active && c.active[id] == sock
    requires forall other :: other in c.active && c.active[other] == sock ==> other == id
    ensures var d := DropAll(c, ids);
      if id in ids then id !in d.active && d.closes[sock] == c.closes[sock] + 1
      else id in d.active && d.active[id] == sock && d.closes[sock] == c.closes[sock]
    decreases |ids|
  {
    if ids != [] {
      if ids[0] == id {
        GoneStaysGone(Drop(c, id), id, sock, ids[1..]);
      } else {
        ClosedOnceByEitherPath(Drop(c, ids[0]), id, sock, ids[1..]);
      }
    }
  }

  class Registry {
    var active: map<SessionId, Sock>
    var closes: multiset<Sock>

    function Map(): Connections
      reads this
    {
      Connections(active, closes)
    }

    constructor ()
      ensures Map() == Connections(map[], multiset{})
    {
      active, closes := map[], multiset{};
    }

    /** The successful end of handle_login. */
    method Register(id: SessionId, sock: Sock)
      modifies this
      ensures Map() == old(Map()).(active := old(active)[id := sock])
    {
      active := active[id := sock];
    }

    method HandleDisconnect(sessionId: Option<SessionId>)
      modifies this
      ensures Map() == if sessionId.Some? then Drop(old(Map()), sessionId.value) else old(Map())
    {
      if sessionId.Some? {
        if sessionId.value in active {
          closes := closes + multiset{active[sessionId.value]};
          active := active - {sessionId.value};
        }
      }
    }

    method ReceiverCleanup(id: SessionId)
      modifies this
      ensures Map() == Drop(old(Map()), id)
    {
      if id in active {
        closes := closes + multiset{active[id]};
        active := active - {id};
      }
    }
  }

  // ----- Every interleaving of logins, disconnects and receivers -----

  datatype Receiver = NotStarted | Receiving | Ended

  /** How far handle_login has come with a socket. */
  datatype Stage =
    | Connected                  // exchanging prompts
    | Rejected                   // no AUTH_SUCCESS: handle_login has closed the socket
    | Registered(id: SessionId)  // stored in the map

  /** One connection to the chat server; `loggingIn` until its handle_login is over. */
  datatype Login = Login(sock: Sock, stage: Stage, receiver: Receiver, loggingIn: bool, raised: bool)

  datatype State = State(conn: Connections, logins: seq<Login>)

  datatype Action =
    | Connect(sock: Sock)
    | Reject(i: nat)
    | Register(i: nat, id: SessionId)
    | StartReceiver(i: nat)
    | LoginReturns(i: nat)
    | LoginRaises(i: nat)     // the exception handler closes the socket, whatever the stage is
    | Disconnect(id: SessionId)
    | ReceiverEnds(i: nat)

  const IDLE: State := State(Connections(map[], multiset{}), [])

  predicate HasId(l: Login, id: SessionId) {
    l.stage.Registered? && l.stage.id == id
  }

  predicate Underway(s: State, i: nat) {
    i < |s.logins| && s.logins[i].loggingIn
  }

  /** Sockets are new objects, and session ids hold the time of the login. */
  predicate Enabled(s: State, a: Action) {
    match a
    case Connect(sock) => forall i :: 0 <= i < |s.logins| ==> s.logins[i].sock != sock
    case Reject(i) => Underway(s, i) && s.logins[i].stage.Connected?
    case Register(i, id) =>
      Underway(s, i) && s.logins[i].stage.Connected? && forall j :: 0 <= j < |s.logins| ==> !HasId(s.logins[j], id)
    case StartReceiver(i) => Underway(s, i) && s.logins[i].stage.Registered? && s.logins[i].receiver.NotStarted?
    case LoginReturns(i) =>
      Underway(s, i) && (s.logins[i].stage.Rejected? || s.logins[i].receiver.Receiving? || s.logins[i].receiver.Ended?)
    case LoginRaises(i) => Underway(s, i)
    case Disconnect(_) => true
    case ReceiverEnds(i) => i < |s.logins| && s.logins[i].receiver.Receiving? && s.logins[i].stage.Registered?
  }

  function Close(c: Connections, sock: Sock): Connections {
    c.(closes := c.closes + multiset{sock})
  }

  function Next(s: State, a: Action): State
    requires Enabled(s, a)
  {
    match a
    case Connect(sock) => s.(logins := s.logins + [Login(sock, Connected, NotStarted, true, false)])
    case Reject(i) =>
      var l := s.logins[i];
      State(Close(s.conn, l.sock), s.logins[i := l.(stage := Rejected)])
    case Register(i, id) =>
      var l := s.logins[i];
      State(s.conn.(active := s.conn.active[id := l.sock]), s.logins[i := l.(stage := Registered(id))])
    case StartReceiver(i) => s.(logins := s.logins[i := s.logins[i].(receiver := Receiving)])
    case LoginReturns(i) => s.(logins := s.logins[i := s.logins[i].(loggingIn := false)])
    case LoginRaises(i) =>
      var l := s.logins[i];
      State(Close(s.conn, l.sock), s.logins[i := l.(loggingIn := false, raised := true)])
    case Disconnect(id) => s.(conn := Drop(s.conn, id))
    case ReceiverEnds(i) =>
      var l := s.logins[i];
      State(Drop(s.conn, l.stage.id), s.logins[i := l.(receiver := Ended)])
  }

  predicate ValidRun(s: State, run: seq<Action>)
    decreases |run|
  {
    run == [] || (Enabled(s, run[0]) && ValidRun(Next(s, run[0]), run[1..]))
  }

  function Exec(s: State, run: seq<Action>): State
    requires ValidRun(s, run)
    decreases |run|
  {
    if run == [] then s else Exec(Next(s, run[0]), run[1..])
  }

  // ----- The account of entries and closes -----

  /** The login's entry has been removed. */
  predicate Removed(c: Connections, l: Login) {
    l.stage.Registered? && l.stage.id !in c.active
  }

  function Once(b: bool): nat {
    if b then 1 else 0
  }

  /** The socket has been closed once for a rejection or its entry's removal, and once for an exception. */
  predicate Accounted(c: Connections, l: Login) {
    && (l.stage.Registered? && l.stage.id in c.active ==> c.active[l.stage.id] == l.sock)
    && (l.receiver.Ended? ==> Removed(c, l))
    && (l.raised ==> !l.loggingIn)
    && (!l.loggingIn && l.stage.Connected? ==> l.raised)
    && (l.receiver.Receiving? ==> l.stage.Registered?)
    && c.closes[l.sock] == Once(l.stage.Rejected?) + Once(Removed(c, l)) + Once(l.raised)
  }

  predicate Different(l: Login, k: Login) {
    l.sock != k.sock && (l.stage.Registered? ==> !HasId(k, l.stage.id))
  }

  ghost predicate Distinct(s: State) {
    forall i, j :: 0 <= i < |s.logins| && 0 <= j < |s.logins| && i != j ==> Different(s.logins[i], s.logins[j])
  }

  ghost predicate Brought(logins: seq<Login>, sock: Sock) {
    exists i :: 0 <= i < |logins| && logins[i].sock == sock
  }

  ghost predicate Stored(logins: seq<Login>, id: SessionId) {
    exists i :: 0 <= i < |logins| && HasId(logins[i], id)
  }

  ghost predicate Consistent(s: State) {
    && Distinct(s)
    && (forall id :: id in s.conn.active ==> Stored(s.logins, id))
    && (forall sock :: sock in s.conn.closes ==> Brought(s.logins, sock))
    && (forall i :: 0 <= i < |s.logins| ==> Accounted(s.conn, s.logins[i]))
  }

  /** A login moves on, keeping its socket and, once it has one, its id. */
  predicate MovesOn(l: Login, l': Login) {
    l'.sock == l.sock && (l.stage.Registered? ==> l'.stage == l.stage)
  }

  lemma StillThere(logins: seq<Login>, i: nat, l: Login)
    requires i < |logins| && MovesOn(logins[i], l)
    ensures forall id :: Stored(logins, id) ==> Stored(logins[i := l], id)
    ensures forall sock :: Brought(logins, sock) ==> Brought(logins[i := l], sock)
  {
    forall id | Stored(logins, id) ensures Stored(logins[i := l], id) {
      var j :| 0 <= j < |logins| && HasId(logins[j], id);
      assert HasId(logins[i := l][j], id);
    }
    forall sock | Brought(logins, sock) ensures Brought(logins[i := l], sock) {
      var j :| 0 <= j < |logins| && logins[j].sock == sock;
      assert logins[i := l][j].sock == sock;
    }
  }

  /** Dropping the entry of login `k` is accounted for in that login, and no other notices. */
  lemma DropAccounted(s: State, k: nat, id: SessionId, i: nat)
    requires Distinct(s) && k < |s.logins| && i < |s.logins| && HasId(s.logins[k], id) && id in s.conn.active
    requires Accounted(s.conn, s.logins[k]) && Accounted(s.conn, s.logins[i])
    ensures Accounted(Drop(s.conn, id), s.logins[i])
  {
    assert i != k ==> Different(s.logins[k], s.logins[i]);
  }

  lemma DropKeepsConsistent(s: State, id: SessionId)
    requires Consistent(s)
    ensures Consistent(s.(conn := Drop(s.conn, id)))
  {
    if id in s.conn.active {
      assert Stored(s.logins, id);
      var k :| 0 <= k < |s.logins| && HasId(s.logins[k], id);
      assert Brought(s.logins, s.logins[k].sock);
      forall i | 0 <= i < |s.logins| ensures Accounted(Drop(s.conn, id), s.logins[i]) {
        DropAccounted(s, k, id, i);
      }
    }
  }

  /** Login `i` moves on to `l`, and only its own entry and socket are touched. */
  lemma MoveKeepsConsistent(s: State, s': State, i: nat, l: Login)
    requires Consistent(s) && i < |s.logins| && MovesOn(s.logins[i], l) && s'.logins == s.logins[i := l]
    requires Accounted(s'.conn, l)
    requires l.stage.Registered? ==> forall j :: 0 <= j < |s.logins| && j != i ==> !HasId(s.logins[j], l.stage.id)
    requires forall id :: !HasId(l, id) ==>
      (id in s'.conn.active <==> id in s.conn.active)
      && (id in s.conn.active ==> s'.conn.active[id] == s.conn.active[id])
    requires forall sock :: sock != l.sock ==> s'.conn.closes[sock] == s.conn.closes[sock]
    ensures Consistent(s')
  {
    StillThere(s.logins, i, l);
    forall id | id in s'.conn.active ensures Stored(s'.logins, id) {
      assert HasId(s'.logins[i], id) || id in s.conn.active;
    }
    forall sock | sock in s'.conn.closes ensures Brought(s'.logins, sock) {
      assert s'.logins[i].sock == sock || sock in s.conn.closes;
    }
    forall j, k | 0 <= j < |s'.logins| && 0 <= k < |s'.logins| && j != k ensures Different(s'.logins[j], s'.logins[k]) {
      assert Different(s.logins[j], s.logins[k]) && Different(s.logins[k], s.logins[j]);
    }
    forall j | 0 <= j < |s'.logins| ensures Accounted(s'.conn, s'.logins[j]) {
      assert Accounted(s.conn, s.logins[j]);
      assert j != i ==> Different(s.logins[i], s.logins[j]);
    }
  }

  lemma ConnectKeepsConsistent(s: State, sock: Sock)
    requires Consistent(s) && Enabled(s, Connect(sock))
    ensures Consistent(Next(s, Connect(sock)))
  {
    var s' := Next(s, Connect(sock));
    var n := |s.logins|;
    assert forall j :: 0 <= j < n ==> s'.logins[j] == s.logins[j];
    forall id | id in s'.conn.active ensures Stored(s'.logins, id) {
      assert Stored(s.logins, id);
      var j :| 0 <= j < n && HasId(s.logins[j], id);
      assert HasId(s'.logins[j], id);
    }
    forall other | other in s'.conn.closes ensures Brought(s'.logins, other) {
      assert Brought(s.logins, other);
      var j :| 0 <= j < n && s.logins[j].sock == other;
      assert s'.logins[j].sock == other;
    }
    assert sock !in s.conn.closes by {
      assert !Brought(s.logins, sock);
    }
    forall j, k | 0 <= j < |s'.logins| && 0 <= k < |s'.logins| && j != k ensures Different(s'.logins[j], s'.logins[k]) {
      assert j < n && k < n ==> Different(s.logins[j], s.logins[k]);
    }
  }

  lemma RegisterKeepsConsistent(s: State, i: nat, id: SessionId)
    requires Consistent(s) && Enabled(s, Register(i, id))
    ensures Consistent(Next(s, Register(i, id)))
  {
    assert Accounted(s.conn, s.logins[i]);
    var s' := Next(s, Register(i, id));
    assert id !in s.conn.active by {
      assert !Stored(s.logins, id);
    }
    MoveKeepsConsistent(s, s', i, s'.logins[i]);
  }

  lemma EndKeepsConsistent(s: State, i: nat)
    requires Consistent(s) && Enabled(s, ReceiverEnds(i))
    ensures Consistent(Next(s, ReceiverEnds(i)))
  {
    var dropped := s.(conn := Drop(s.conn, s.logins[i].stage.id));
    var s' := Next(s, ReceiverEnds(i));
    DropKeepsConsistent(s, s.logins[i].stage.id);
    assert Accounted(dropped.conn, dropped.logins[i]);
    assert forall j :: 0 <= j < |s.logins| && j != i ==> Different(s.logins[i], s.logins[j]);
    MoveKeepsConsistent(dropped, s', i, s'.logins[i]);
  }

  lemma MarkKeepsConsistent(s: State, a: Action, i: nat)
    requires Consistent(s) && Enabled(s, a)
    requires a == Reject(i) || a == StartReceiver(i) || a == LoginReturns(i) || a == LoginRaises(i)
    ensures Consistent(Next(s, a))
  {
    assert Accounted(s.conn, s.logins[i]);
    var s' := Next(s, a);
    assert forall j :: 0 <= j < |s.logins| && j != i ==> Different(s.logins[i], s.logins[j]);
    MoveKeepsConsistent(s, s', i, s'.logins[i]);
  }

  lemma StepKeepsConsistent(s: State, a: Action)
    requires Consistent(s) && Enabled(s, a)
    ensures Consistent(Next(s, a))
  {
    match a
    case Connect(sock) => ConnectKeepsConsistent(s, sock);
    case Disconnect(id) => DropKeepsConsistent(s, id);
    case ReceiverEnds(i) => EndKeepsConsistent(s, i);
    case Register(i, id) => RegisterKeepsConsistent(s, i, id);
    case _ => MarkKeepsConsistent(s, a, a.i);
  }

  lemma {:induction false} RunKeepsConsistent(s: State, run: seq<Action>)
    requires Consistent(s) && ValidRun(s, run)
    ensures Consistent(Exec(s, run))
    decreases |run|
  {
    if run != [] {
      StepKeepsConsistent(s, run[0]);
      RunKeepsConsistent(Next(s, run[0]), run[1..]);
    }
  }

  /** handle_login is over, and no entry of the login is left. */
  predicate Settled(s: State, i: nat) {
    i < |s.logins| && !s.logins[i].loggingIn && (s.logins[i].stage.Registered? ==> Removed(s.conn, s.logins[i]))
  }

  /** Under every interleaving of logins, disconnects and receivers, for every socket that the bridge connects:
      a registered socket has not been closed, unless its login raised; the receiver's end removes the entry;
      and once the login is settled, the socket has been closed exactly once, exactly when handle_login did not
      raise after rejecting or registering it. */
  lemma ClosedExactlyOnceIff(run: seq<Action>, i: nat)
    requires ValidRun(IDLE, run) && i < |Exec(IDLE, run).logins|
    ensures var s := Exec(IDLE, run); var l := s.logins[i];
      && (l.stage.Registered? && l.stage.id in s.conn.active && !l.raised ==> s.conn.closes[l.sock] == 0)
      && (l.receiver.Ended? ==> Removed(s.conn, l))
      && (Settled(s, i) ==> (s.conn.closes[l.sock] == 1 <==> !(l.raised && !l.stage.Connected?)))
      && s.conn.closes[l.sock] <= 2
  {
    RunKeepsConsistent(IDLE, run);
    var s := Exec(IDLE, run);
    assert Accounted(s.conn, s.logins[i]);
  }

  // ----- Both ways to a second close exist -----

  /** An emit that raises after the rejection has closed the socket. */
  function RejectedTwice(): seq<Action> {
    [Connect(0), Reject(0), LoginRaises(0)]
  }

  /** A login that raises after registration, and a receiver that ends. */
  function RegisteredTwice(): seq<Action> {
    [Connect(0), Register(0, 7)] + [StartReceiver(0), LoginRaises(0), ReceiverEnds(0)]
  }

  lemma SocketsCanBeClosedTwice()
    ensures ValidRun(IDLE, RejectedTwice()) && ValidRun(IDLE, RegisteredTwice())
    ensures Exec(IDLE, RejectedTwice()).logins == [Login(0, Rejected, NotStarted, false, true)]
    ensures Exec(IDLE, RejectedTwice()).conn.closes[0] == 2
    ensures Exec(IDLE, RegisteredTwice()).logins == [Login(0, Registered(7), Ended, false, true)]
    ensures Exec(IDLE, RegisteredTwice()).conn.closes[0] == 2
  {
    var s1 := Next(IDLE, Connect(0));
    var r := RejectedTwice();
    assert r[1..] == [Reject(0), LoginRaises(0)] && r[1..][1..] == [LoginRaises(0)] && r[1..][1..][1..] == [];
    var q := RegisteredTwice();
    assert q[1..] == [Register(0, 7), StartReceiver(0), LoginRaises(0), ReceiverEnds(0)];
    assert q[1..][1..] == [StartReceiver(0), LoginRaises(0), ReceiverEnds(0)];
    assert q[1..][1..][1..] == [LoginRaises(0), ReceiverEnds(0)] && q[1..][1..][1..][1..] == [ReceiverEnds(0)];
  }

  // ----- And so does the ordinary course of things -----

  /** A login that is answered, and a browser that leaves before the receiver notices. */
  function OrdinaryLogin(): seq<Action> {
    [Connect(0), Register(0, 7), StartReceiver(0)] + [LoginReturns(0), Disconnect(7), ReceiverEnds(0)]
  }

  function OrdinaryRejection(): seq<Action> {
    [Connect(0), Reject(0), LoginReturns(0)]
  }

  lemma RejectionClosesOnce()
    ensures ValidRun(IDLE, OrdinaryRejection())
    ensures Exec(IDLE, OrdinaryRejection())
         == State(Connections(map[], multiset{0}), [Login(0, Rejected, NotStarted, false, false)])
  {
    var r := OrdinaryRejection();
    assert r[1..] == [Reject(0), LoginReturns(0)] && r[1..][1..] == [LoginReturns(0)] && r[1..][1..][1..] == [];
  }

  lemma LoginClosesOnce()
    ensures ValidRun(IDLE, OrdinaryLogin())
    ensures Exec(IDLE, OrdinaryLogin())
         == State(Connections(map[], multiset{0}), [Login(0, Registered(7), Ended, false, false)])
  {
    var q := OrdinaryLogin();
    assert q[1..] == [Register(0, 7), StartReceiver(0), LoginReturns(0), Disconnect(7), ReceiverEnds(0)];
    assert q[1..][1..] == [StartReceiver(0), LoginReturns(0), Disconnect(7), ReceiverEnds(0)];
    assert q[1..][1..][1..] == [LoginReturns(0), Disconnect(7), ReceiverEnds(0)];
    assert q[1..][1..][1..][1..] == [Disconnect(7), ReceiverEnds(0)];
    assert q[1..][1..][1..][1..][1..] == [ReceiverEnds(0)];
  }
}
