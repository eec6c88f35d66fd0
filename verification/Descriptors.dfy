/** Descriptors and slots: a handler closes its socket before it clears its slot. What the server sends to a
    slot is read by the slot's own client, and by no other, exactly outside that window. */
module Descriptors {
  import opened Accounts
  import opened Bytes
  import opened ChatServer
  import opened Logins
  import opened Protocol
  import opened Room
  import opened SlotSafety

  /** The thread that owns `p` has not closed its socket. */
  predicate HoldsFd(s: State, p: Ptr) {
    p in s.heap &&
    match s.heap[p].owner
    case Acceptor => true
    case HandlerThread(t) => t < |s.handlers| && !s.handlers[t].pc.Removing? && !s.handlers[t].pc.Freeing?
  }

  /** What is sent on `fd` reaches the connection of `p`. */
  predicate Reads(s: State, fd: Fd, p: Ptr) {
    HoldsFd(s, p) && s.heap[p].fd == fd
  }

  ghost predicate HasReader(s: State, fd: Fd) {
    exists p :: Reads(s, fd, p)
  }

  /** The open descriptors are those of the clients whose sockets are not closed, one each. */
  ghost predicate Exclusive(s: State) {
    && (forall p: Ptr :: HoldsFd(s, p) ==> s.heap[p].fd in s.open)
    && (forall p: Ptr, q: Ptr :: HoldsFd(s, p) && HoldsFd(s, q) && s.heap[p].fd == s.heap[q].fd ==> p == q)
    && (forall fd: Fd :: fd in s.open ==> HasReader(s, fd))
  }

  /** The same clients hold the same descriptors. */
  ghost predicate SameHolders(s: State, s': State) {
    && s'.open == s.open
    && forall p: Ptr :: (HoldsFd(s', p) <==> HoldsFd(s, p)) && (HoldsFd(s, p) ==> s'.heap[p].fd == s.heap[p].fd)
  }

  lemma SameHoldersKeepExclusive(s: State, s': State)
    requires Exclusive(s) && SameHolders(s, s')
    ensures Exclusive(s')
  {
    forall fd: Fd | fd in s'.open ensures HasReader(s', fd) {
      assert HasReader(s, fd);
      var p :| Reads(s, fd, p);
      assert Reads(s', fd, p);
    }
  }

  /** `p` gives up its descriptor, and the others keep theirs. */
  lemma ClosedKeepsExclusive(s: State, s': State, p: Ptr)
    requires Exclusive(s) && HoldsFd(s, p) && !HoldsFd(s', p) && s'.open == s.open - {s.heap[p].fd}
    requires forall q: Ptr :: q != p ==>
      (HoldsFd(s', q) <==> HoldsFd(s, q)) && (HoldsFd(s, q) ==> s'.heap[q].fd == s.heap[q].fd)
    ensures Exclusive(s')
  {
    forall fd: Fd | fd in s'.open ensures HasReader(s', fd) {
      assert HasReader(s, fd);
      var q :| Reads(s, fd, q);
      assert Reads(s', fd, q);
    }
  }

  /** `p` comes with a descriptor that was not open, and the others keep theirs. */
  lemma OpenedKeepsExclusive(s: State, s': State, p: Ptr, fd: Fd)
    requires Exclusive(s) && fd !in s.open && s'.open == s.open + {fd} && Reads(s', fd, p) && !HoldsFd(s, p)
    requires forall q: Ptr :: q != p ==>
      (HoldsFd(s', q) <==> HoldsFd(s, q)) && (HoldsFd(s, q) ==> s'.heap[q].fd == s.heap[q].fd)
    ensures Exclusive(s')
  {
    assert HasReader(s', fd);
    forall other: Fd | other in s.open ensures HasReader(s', other) {
      assert HasReader(s, other);
      var q :| Reads(s, other, q);
      assert Reads(s', other, q);
    }
  }

  lemma AcceptKeepsExclusive(cfg: Config, s: State, a: Action)
    requires Safe(s) && Exclusive(s) && Enabled(s, a) && a.Accept?
    ensures Exclusive(Next(cfg, s, a))
  {
    hide TurnOf, Perform, LoopNext, Exclusive;
    OpenedKeepsExclusive(s, Next(cfg, s, a), a.p, a.fd);
  }

  /** A handler's step other than close changes nobody's hold on a descriptor. */
  lemma PerformKeepsHolders(s: State, s': State, t: nat, h: Handler, e: Effect)
    requires Linked(s) && t < |s.handlers| && s'.handlers == s.handlers[t := h]
    requires h.ptr == s.handlers[t].ptr && h.ptr in s.heap && s.heap[h.ptr].owner == HandlerThread(t)
    requires Advances(s.handlers[t].pc, h.pc, e) && (h.pc.Removing? <==> e.CloseSocket?) && !e.CloseSocket?
    requires s.handlers[t].pc.Removing? <==> e.ClearSlot?
    requires s'.heap == if e.FreeClient? then s.heap - {h.ptr} else s.heap[h.ptr := AfterEffect(s.heap[h.ptr], e)]
    requires s'.open == s.open
    ensures SameHolders(s, s')
  {
    forall q: Ptr ensures (HoldsFd(s', q) <==> HoldsFd(s, q)) && (HoldsFd(s, q) ==> s'.heap[q].fd == s.heap[q].fd) {
      assert ClientOk(s, q);
    }
  }

  lemma CloseReleases(s: State, s': State, t: nat, h: Handler)
    requires Linked(s) && Exclusive(s) && t < |s.handlers| && s'.handlers == s.handlers[t := h]
    requires h.ptr == s.handlers[t].ptr && h.ptr in s.heap && s.heap[h.ptr].owner == HandlerThread(t)
    requires s.handlers[t].pc.Closing? && h.pc.Removing?
    requires s'.heap == s.heap && s'.open == s.open - {s.heap[h.ptr].fd}
    ensures Exclusive(s')
  {
    forall q: Ptr | q != h.ptr
      ensures (HoldsFd(s', q) <==> HoldsFd(s, q)) && (HoldsFd(s, q) ==> s'.heap[q].fd == s.heap[q].fd)
    {
      assert ClientOk(s, q);
    }
    ClosedKeepsExclusive(s, s', h.ptr);
  }

  lemma TurnOfClose(cfg: Config, s: State, t: nat, step: Step)
    requires t < |s.handlers| && StepEnabled(s.handlers[t].pc, step) && s.handlers[t].ptr in s.heap
    ensures var (h, e) := TurnOf(cfg, s, t, step);
      && (h.pc.Removing? <==> e.CloseSocket?) && (s.handlers[t].pc.Removing? <==> e.ClearSlot?)
      && (e.CloseSocket? ==> s.handlers[t].pc.Closing?)
  {
    hide Ascii, CutLine, Take, ParseCommand, Matches, ConfirmLine, NotFound, View, FirstNamed;
  }

  lemma PerformOpens(s: State, t: nat, h: Handler, e: Effect)
    requires t < |s.handlers| && s.handlers[t].ptr in s.heap
    ensures Perform(s, t, h, e).open == if e.CloseSocket? then s.open - {s.heap[s.handlers[t].ptr].fd} else s.open
  {
  }

  lemma HandlerKeepsExclusive(cfg: Config, s: State, t: nat, step: Step)
    requires Safe(s) && Exclusive(s) && Enabled(s, Run(t, step))
    ensures Exclusive(Next(cfg, s, Run(t, step)))
  {
    hide Turn, Perform, LoopNext;
    var h, e := StepOfHandler(cfg, s, t, step);
    TurnOfClose(cfg, s, t, step);
    var s' := Perform(s, t, h, e);
    OthersUntouched(s, t, h, e);
    PerformOpens(s, t, h, e);
    if e.CloseSocket? {
      CloseReleases(s, s', t, h);
    } else {
      PerformKeepsHolders(s, s', t, h, e);
      SameHoldersKeepExclusive(s, s');
    }
  }

  /** A step of the accept loop that keeps its client. */
  lemma LoopKeepsHolders(s: State, p: Ptr, move: Move)
    requires Safe(s) && MoveEnabled(s.acceptor, move) && s.acceptor.p == p && !move.Refuse? && !move.GiveUp?
    requires p in s.heap
    ensures SameHolders(s, LoopNext(s, p, move))
  {
    var s' := LoopNext(s, p, move);
    forall q: Ptr ensures (HoldsFd(s', q) <==> HoldsFd(s, q)) && (HoldsFd(s, q) ==> s'.heap[q].fd == s.heap[q].fd) {
      assert ClientOk(s, q) && ClientOk(s, p);
    }
  }

  lemma DiscardKeepsExclusive(s: State, p: Ptr)
    requires Safe(s) && Exclusive(s) && p in s.heap && s.heap[p].owner == Acceptor
    ensures Exclusive(Discard(s, p))
  {
    ClosedKeepsExclusive(s, Discard(s, p), p);
  }

  lemma StepKeepsExclusive(cfg: Config, s: State, a: Action)
    requires Safe(s) && Exclusive(s) && Enabled(s, a)
    ensures Exclusive(Next(cfg, s, a))
  {
    match a
    case Accept(_, _, _, _) => AcceptKeepsExclusive(cfg, s, a);
    case Run(t, step) => HandlerKeepsExclusive(cfg, s, t, step);
    case Loop(move) =>
      StepOfLoop(cfg, s, move);
      if move.Refuse? || move.GiveUp? {
        DiscardKeepsExclusive(s, s.acceptor.p);
      } else {
        LoopKeepsHolders(s, s.acceptor.p, move);
        SameHoldersKeepExclusive(s, LoopNext(s, s.acceptor.p, move));
      }
  }

  lemma {:induction false} RunKeepsExclusive(cfg: Config, s: State, run: seq<Action>)
    requires Safe(s) && Exclusive(s) && ValidRun(cfg, s, run)
    ensures Safe(Exec(cfg, s, run)) && Exclusive(Exec(cfg, s, run))
    decreases |run|
  {
    hide Next;
    if run != [] {
      StepKeepsSafe(cfg, s, run[0]);
      StepKeepsExclusive(cfg, s, run[0]);
      RunKeepsExclusive(cfg, Next(cfg, s, run[0]), run[1..]);
    }
  }

  lemma InitialIsExclusive()
    ensures Exclusive(Initial())
  {
  }

  lemma ReachableIsExclusive(cfg: Config, run: seq<Action>)
    requires ValidRun(cfg, Initial(), run)
    ensures Safe(Exec(cfg, Initial(), run)) && Exclusive(Exec(cfg, Initial(), run))
  {
    hide Exec, Next, Exclusive;
    InitialIsSafe();
    InitialIsExclusive();
    RunKeepsExclusive(cfg, Initial(), run);
  }

  // ----- The window -----

  /** Slot `k` holds a client whose handler stands between close and remove_client. */
  predicate InWindow(s: State, k: nat) {
    k < |s.slots| && s.slots[k].Some? && s.slots[k].value in s.heap &&
    match s.heap[s.slots[k].value].owner
    case Acceptor => false
    case HandlerThread(t) => t < |s.handlers| && s.handlers[t].pc.Removing?
  }

  function FdAt(s: State, k: nat): Option<Fd> {
    if k < |s.slots| && s.slots[k].Some? && s.slots[k].value in s.heap then Some(s.heap[s.slots[k].value].fd) else None
  }

  /** Sends to slot `k` are read by the client in the slot and by no other. */
  ghost predicate ReadByItsOwn(s: State, k: nat) {
    FdAt(s, k).Some? && forall p: Ptr :: Reads(s, FdAt(s, k).value, p) <==> p == s.slots[k].value
  }

  /** The sends to a taken slot are read by the slot's own client and by no other exactly when its handler
      does not stand between close and remove_client; there, the descriptor is closed, so that nobody reads
      them, or another client's, which reads them. */
  ghost predicate ReadRight(s: State, k: nat) {
    FdAt(s, k).Some? ==>
      var fd := FdAt(s, k).value;
      && (ReadByItsOwn(s, k) <==> !InWindow(s, k))
      && (InWindow(s, k) <==> fd !in s.open || exists p :: p != s.slots[k].value && Reads(s, fd, p))
      && (fd !in s.open <==> !HasReader(s, fd))
  }

  lemma WindowIsExact(s: State, k: nat)
    requires Safe(s) && Exclusive(s) && FdAt(s, k).Some?
    ensures ReadRight(s, k)
  {
    var own, fd := s.slots[k].value, FdAt(s, k).value;
    assert SlotOk(s, k);
    if fd in s.open {
      assert HasReader(s, fd);
      var p :| Reads(s, fd, p);
      assert InWindow(s, k) ==> p != own;
    }
    assert InWindow(s, k) <==> !Reads(s, fd, own);
  }

  /** That is so for every slot in every reachable state. */
  lemma ReadByItsOwnOutsideWindow(cfg: Config, run: seq<Action>, k: nat)
    requires ValidRun(cfg, Initial(), run)
    ensures ReadRight(Exec(cfg, Initial(), run), k)
  {
    hide Exec, Next, Initial, Exclusive, Safe;
    ReachableIsExclusive(cfg, run);
    if FdAt(Exec(cfg, Initial(), run), k).Some? {
      WindowIsExact(Exec(cfg, Initial(), run), k);
    }
  }

  /** Whenever a slot is in the window and its descriptor closed, the next accept can hand the descriptor to
      a client that has not logged in; the slot still shows its seat, so sends to it reach that client. */
  lemma NextClientReads(cfg: Config, s: State, k: nat, p: Ptr, id: int, username: Bytes)
    requires Safe(s) && Exclusive(s) && InWindow(s, k) && FdAt(s, k).value !in s.open
    requires s.acceptor.Accepting? && p !in s.heap
    ensures var fd := FdAt(s, k).value; var a := Accept(p, fd, id, username);
      && Enabled(s, a)
      && var s' := Next(cfg, s, a);
        && FdAt(s', k) == Some(fd) && s'.slots == s.slots && View(s') == View(s)
        && (forall q: Ptr :: Reads(s', fd, q) <==> q == p)
        && s.slots[k] != Some(p) && p in s'.heap && !s'.heap[p].authenticated
  {
    hide TurnOf, Perform, LoopNext;
    var fd := FdAt(s, k).value;
    var a := Accept(p, fd, id, username);
    var s' := Next(cfg, s, a);
    AcceptKeepsSafe(cfg, s, a);
    AcceptKeepsExclusive(cfg, s, a);
    assert Reads(s', fd, p);
  }

  lemma TwoSteps(cfg: Config, s: State, a: Action, b: Action)
    requires Enabled(s, a) && Enabled(Next(cfg, s, a), b)
    ensures ValidRun(cfg, s, [a, b]) && Exec(cfg, s, [a, b]) == Next(cfg, Next(cfg, s, a), b)
  {
    hide Next;
    assert [a, b][1..] == [b] && [b][1..] == [];
    var s' := Next(cfg, s, a);
    assert ValidRun(cfg, s', [b]) && Exec(cfg, s', [b]) == Next(cfg, s', b);
  }

  /** Once add_client has run for that client, two slots hold one descriptor. */
  lemma WindowCanShare(cfg: Config, s: State, k: nat, p: Ptr) returns (j: nat)
    requires Safe(s) && InWindow(s, k) && FdAt(s, k).value !in s.open
    requires s.acceptor.Accepting? && p !in s.heap && s.clientCount < MAX_CLIENTS
    ensures var run := [Accept(p, FdAt(s, k).value, 0, []), Loop(Add)];
      ValidRun(cfg, s, run) && j != k && FdAt(Exec(cfg, s, run), j) == FdAt(Exec(cfg, s, run), k) == FdAt(s, k)
  {
    hide TurnOf, Perform;
    var a := Accept(p, FdAt(s, k).value, 0, []);
    var s1 := Next(cfg, s, a);
    AcceptKeepsSafe(cfg, s, a);
    AddKeepsSafe(cfg, s1);
    TwoSteps(cfg, s, a, Loop(Add));
    j := FirstEmpty(View(s1));
    assert View(s1)[k] != Empty;
  }

  // ----- The window is reachable -----

  lemma {:induction false} LongerRun(cfg: Config, s: State, run: seq<Action>, a: Action)
    requires ValidRun(cfg, s, run) && Enabled(Exec(cfg, s, run), a)
    ensures ValidRun(cfg, s, run + [a]) && Exec(cfg, s, run + [a]) == Next(cfg, Exec(cfg, s, run), a)
    decreases |run|
  {
    hide Next;
    if run == [] {
      assert [] + [a] == [a] && [a][1..] == [];
      assert ValidRun(cfg, Next(cfg, s, a), []);
    } else {
      assert (run + [a])[1..] == run[1..] + [a];
      LongerRun(cfg, Next(cfg, s, run[0]), run[1..], a);
    }
  }

  /** The server with one client, in slot 0 and at address 0, and its handler. */
  ghost predicate Alone(s: State, h: Handler, c: Client) {
    && !s.fault && s.acceptor == Accepting && s.clientCount == 1
    && s.slots == Initial().slots[0 := Some(0)] && s.heap == map[0 := c] && s.handlers == [h]
    && h.ptr == 0 && c.id == 0 && c.owner == HandlerThread(0)
  }

  ghost predicate Reached(cfg: Config, run: seq<Action>, h: Handler, c: Client) {
    && ValidRun(cfg, Initial(), run) && Alone(Exec(cfg, Initial(), run), h, c)
    && Exec(cfg, Initial(), run).open == if h.pc.Removing? then {} else {c.fd}
  }

  /** One client connects, gets slot 0, and its handler starts. */
  lemma Connected(cfg: Config, fd: Fd) returns (run: seq<Action>)
    ensures Reached(cfg, run, Handler(0, AskName, [], []), Client(fd, 0, [], false, HandlerThread(0)))
  {
    hide TurnOf, Perform;
    var a := Accept(0, fd, 0, []);
    var s1 := Next(cfg, Initial(), a);
    assert View(s1)[0] == Empty;
    FirstEmptyIs(View(s1), 0);
    TwoSteps(cfg, Initial(), a, Loop(Add));
    var s2 := Next(cfg, s1, Loop(Add));
    LongerRun(cfg, Initial(), [a, Loop(Add)], Loop(Spawn(true)));
    run := [a, Loop(Add)] + [Loop(Spawn(true))];
    assert s2.heap == map[0 := Client(fd, 0, [], false, Acceptor)];
  }

  lemma PerformAlone(s: State, h: Handler, c: Client, h': Handler, e: Effect)
    requires Alone(s, h, c) && h'.ptr == 0 && !e.ClearSlot? && !e.FreeClient?
    ensures var s' := Perform(s, 0, h', e);
      Alone(s', h', AfterEffect(c, e)) && s'.open == if e.CloseSocket? then s.open - {c.fd} else s.open
  {
    assert !Dangling(s);
  }

  lemma AloneSteps(cfg: Config, s: State, h: Handler, c: Client, step: Step)
    requires Alone(s, h, c) && StepEnabled(h.pc, step) && !h.pc.Acting? && Registers(h.pc) && !h.pc.Removing?
    ensures var (h', e) := Turn(cfg, h, c, step, false); var s' := Next(cfg, s, Run(0, step));
      && Alone(s', h', AfterEffect(c, e)) && Registers(h'.pc)
      && s'.open == if h'.pc.Removing? then s.open - {c.fd} else s.open
  {
    hide Turn, Perform;
    var turn := Turn(cfg, h, c, step, false);
    assert TurnOf(cfg, s, 0, step) == turn;
    TurnAdvances(cfg, h, c, step, false);
    TurnOfRemoval(cfg, s, 0, step);
    TurnOfClose(cfg, s, 0, step);
    PerformAlone(s, h, c, turn.0, turn.1);
  }

  /** The handler takes one more step. */
  lemma Onward(cfg: Config, run: seq<Action>, h: Handler, c: Client, step: Step)
    returns (longer: seq<Action>, h': Handler, c': Client)
    requires Reached(cfg, run, h, c) && StepEnabled(h.pc, step) && !h.pc.Acting? && Registers(h.pc) && !h.pc.Removing?
    ensures Reached(cfg, longer, h', c')
    ensures var (g, e) := Turn(cfg, h, c, step, false); h' == g && c' == AfterEffect(c, e)
  {
    hide Turn, Next, Exec, ValidRun;
    var turn := Turn(cfg, h, c, step, false);
    h', c' := turn.0, AfterEffect(c, turn.1);
    AloneSteps(cfg, Exec(cfg, Initial(), run), h, c, step);
    LongerRun(cfg, Initial(), run, Run(0, step));
    longer := run + [Run(0, step)];
  }

  /** A login as the server's prompts ask for it. */
  ghost predicate Credentials(cfg: Config, name: Bytes, password: Bytes) {
    && 0 < |name| < USERNAME_SIZE && 0 < |password| < USERNAME_SIZE && OneLine(name) && OneLine(password)
    && Matches(cfg.db, name, cfg.md5(password))
  }

  lemma AnswersPrompts(cfg: Config, fd: Fd, name: Bytes, password: Bytes) returns (run: seq<Action>)
    requires Credentials(cfg, name, password)
    ensures Reached(cfg, run, Handler(0, Checking, name, password), Client(fd, 0, [], false, HandlerThread(0)))
  {
    hide Reached, Next, ParseCommand, ActTurn, Ascii, Take;
    var h, c;
    run := Connected(cfg, fd);
    h, c := Handler(0, AskName, [], []), Client(fd, 0, [], false, HandlerThread(0));
    CutLineIs(name, name);
    CutLineIs(password, password);
    run, h, c := Onward(cfg, run, h, c, RecvName(Some(name)));
    run, h, c := Onward(cfg, run, h, c, RecvPassword(Some(password)));
  }

  lemma LogsIn(cfg: Config, fd: Fd, name: Bytes, password: Bytes) returns (run: seq<Action>)
    requires Credentials(cfg, name, password)
    ensures Reached(cfg, run, Handler(0, Named, name, password), Client(fd, 0, name, false, HandlerThread(0)))
  {
    hide Reached, Next, ParseCommand, ActTurn, Ascii;
    var h, c;
    run := AnswersPrompts(cfg, fd, name, password);
    h, c := Handler(0, Checking, name, password), Client(fd, 0, [], false, HandlerThread(0));
    run, h, c := Onward(cfg, run, h, c, Check(true));
    run, h, c := Onward(cfg, run, h, c, CopyName);
  }

  lemma Joins(cfg: Config, before: seq<Action>, name: Bytes, password: Bytes, c: Client) returns (run: seq<Action>)
    requires Reached(cfg, before, Handler(0, Named, name, password), c)
    ensures Reached(cfg, run, Handler(0, Chatting, name, password), c.(authenticated := true))
  {
    hide Reached, Next, ParseCommand, ActTurn, Ascii, Take;
    var h, c';
    run, h, c' := Onward(cfg, before, Handler(0, Named, name, password), c, SetAuthenticated);
    run, h, c' := Onward(cfg, run, h, c', Greet);
    run, h, c' := Onward(cfg, run, h, c', Announce);
  }

  lemma HangsUp(cfg: Config, before: seq<Action>, name: Bytes, password: Bytes, c: Client) returns (run: seq<Action>)
    requires Reached(cfg, before, Handler(0, Chatting, name, password), c)
    ensures Reached(cfg, run, Handler(0, Removing, name, password), c)
  {
    hide Reached, Next, ParseCommand, ActTurn, Ascii, Take;
    var h, c';
    run, h, c' := Onward(cfg, before, Handler(0, Chatting, name, password), c, Recv(None));
    run, h, c' := Onward(cfg, run, h, c', Depart);
    run, h, c' := Onward(cfg, run, h, c', Close);
  }

  lemma AloneInWindow(s: State, h: Handler, c: Client)
    requires Alone(s, h, c) && h.pc.Removing?
    ensures InWindow(s, 0) && FdAt(s, 0) == Some(c.fd) && |View(s)| == MAX_CLIENTS
    ensures View(s)[0] == if c.authenticated then User(c.username) else Guest
  {
  }

  /** The window opens even before anybody logs in: a client connects, hangs up, and is closed. */
  lemma WindowIsReachable(cfg: Config, fd: Fd) returns (run: seq<Action>)
    ensures ValidRun(cfg, Initial(), run)
    ensures var s := Exec(cfg, Initial(), run);
      InWindow(s, 0) && FdAt(s, 0) == Some(fd) && fd !in s.open && s.acceptor.Accepting? && s.clientCount == 1
  {
    hide Exec, ValidRun, Next, ParseCommand, ActTurn, Ascii, Take;
    var h, c;
    run := Connected(cfg, fd);
    h, c := Handler(0, AskName, [], []), Client(fd, 0, [], false, HandlerThread(0));
    run, h, c := Onward(cfg, run, h, c, RecvName(None));
    run, h, c := Onward(cfg, run, h, c, Depart);
    run, h, c := Onward(cfg, run, h, c, Close);
  }

  /** The client at address 1 has not logged in and alone reads what is sent to slot 0. */
  ghost predicate StrangerReads(s: State, fd: Fd) {
    && FdAt(s, 0) == Some(fd) && s.slots[0] == Some(0)
    && (forall q: Ptr :: Reads(s, fd, q) <==> q == 1)
    && 1 in s.heap && !s.heap[1].authenticated
  }

  lemma StrangerFollows(cfg: Config, s: State, h: Handler, c: Client)
    requires Safe(s) && Exclusive(s) && Alone(s, h, c) && h.pc.Removing? && s.open == {}
    ensures var a := Accept(1, c.fd, 0, []);
      Enabled(s, a) && StrangerReads(Next(cfg, s, a), c.fd) && View(Next(cfg, s, a)) == View(s)
  {
    hide Next, Safe, Exclusive;
    AloneInWindow(s, h, c);
    NextClientReads(cfg, s, 0, 1, 0, []);
  }

  lemma AcceptStranger(cfg: Config, before: seq<Action>, h: Handler, c: Client) returns (run: seq<Action>)
    requires Reached(cfg, before, h, c) && h.pc.Removing? && c.authenticated
    ensures ValidRun(cfg, Initial(), run)
    ensures var s := Exec(cfg, Initial(), run);
      StrangerReads(s, c.fd) && |View(s)| == MAX_CLIENTS && View(s)[0] == User(c.username)
  {
    hide Exec, Next, ValidRun, Initial, Exclusive, Safe;
    var s := Exec(cfg, Initial(), before);
    ReachableIsExclusive(cfg, before);
    AloneInWindow(s, h, c);
    StrangerFollows(cfg, s, h, c);
    LongerRun(cfg, Initial(), before, Accept(1, c.fd, 0, []));
    run := before + [Accept(1, c.fd, 0, [])];
  }

  /** For every login that works there is a run in which its user has hung up, the slot still shows the user,
      so that every broadcast of another slot is still sent to it, and the descriptor that these sends use
      is read by the next client alone, which has not logged in. */
  lemma StrangerReadsUsersSlot(cfg: Config, fd: Fd, name: Bytes, password: Bytes) returns (run: seq<Action>)
    requires Credentials(cfg, name, password)
    ensures ValidRun(cfg, Initial(), run)
    ensures var s := Exec(cfg, Initial(), run);
      && StrangerReads(s, fd)
      && |View(s)| == MAX_CLIENTS && View(s)[0] == User(name)
      && forall sender :: sender != 0 ==> Hears(View(s), 0, sender)
  {
    var c := Client(fd, 0, name, false, HandlerThread(0));
    var before := LogsIn(cfg, fd, name, password);
    before := Joins(cfg, before, name, password, c);
    before := HangsUp(cfg, before, name, password, c.(authenticated := true));
    run := AcceptStranger(cfg, before, Handler(0, Removing, name, password), c.(authenticated := true));
  }
}
