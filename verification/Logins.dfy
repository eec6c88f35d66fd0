/** Who may be in the room: what every step keeps about names, passwords and `authenticated`. */
module Logins {
  import opened Accounts
  import opened Bytes
  import opened ChatServer
  import opened Protocol
  import opened Room
  import opened SlotSafety

  /** Before `authenticated` is set. */
  predicate Early(pc: Pc) {
    pc.AskName? || pc.AskPassword? || pc.Checking? || pc.Rejected? || pc.Admitted? || pc.Named?
  }

  /** From then until the handler leaves its loop. */
  predicate InSession(pc: Pc) {
    pc.Greeting? || pc.Announcing? || pc.Chatting? || pc.Acting?
  }

  /** The name and the password that the handler received match an account. */
  predicate Passed(cfg: Config, h: Handler) {
    Matches(cfg.db, h.username, cfg.md5(h.password))
  }

  predicate LoginRule(cfg: Config, h: Handler, c: Client) {
    && |h.username| < USERNAME_SIZE
    && (Early(h.pc) ==> !c.authenticated)
    && (InSession(h.pc) ==> c.authenticated)
    && (h.pc.Admitted? || h.pc.Named? || c.authenticated ==> Passed(cfg, h))
    && (h.pc.Named? || c.authenticated ==> c.username == h.username)
  }

  predicate LoginOk(cfg: Config, s: State, t: nat) {
    t < |s.handlers| && !s.handlers[t].pc.Finished? ==>
      s.handlers[t].ptr in s.heap && LoginRule(cfg, s.handlers[t], s.heap[s.handlers[t].ptr])
  }

  predicate PendingOk(s: State, p: Ptr) {
    p in s.heap && s.heap[p].owner.Acceptor? ==> !s.heap[p].authenticated
  }

  ghost predicate Vetted(cfg: Config, s: State) {
    && (forall t: nat :: LoginOk(cfg, s, t))
    && (forall p: Ptr :: PendingOk(s, p))
  }

  // ----- The thread-local part of a step -----

  /** The handler's client after an effect that does not free it. */
  function AfterEffect(c: Client, e: Effect): Client {
    match e
    case WriteName(name) => c.(username := name)
    case WriteFlag => c.(authenticated := true)
    case _ => c
  }

  /** Only a user broadcasts, lists and whispers, always under its own name, and `authenticated` is set
      for a guest whose name and password have passed. */
  predicate Licensed(cfg: Config, h: Handler, c: Client, e: Effect) {
    match e
    case ToAll(name, _) => c.authenticated && name == c.username
    case ToOne(name, _, _) => c.authenticated && name == c.username
    case ListUsers => c.authenticated
    case WriteName(_) => !c.authenticated
    case WriteFlag => !c.authenticated && c.username == h.username && Passed(cfg, h)
    case _ => true
  }

  lemma TurnKeepsLogin(cfg: Config, h: Handler, c: Client, step: Step, found: bool)
    requires StepEnabled(h.pc, step) && LoginRule(cfg, h, c)
    ensures var (h', e) := Turn(cfg, h, c, step, found); LoginRule(cfg, h', AfterEffect(c, e)) && Licensed(cfg, h, c, e)
  {
    hide Ascii, CutLine, Take, ParseCommand, ConfirmLine, NotFound;
  }

  // ----- The whole state -----

  /** A handler's step changes no other handler and no other thread's client. */
  lemma OthersUntouched(s: State, t: nat, h: Handler, e: Effect)
    requires Safe(s) && t < |s.handlers| && s.handlers[t].ptr in s.heap
    ensures var s' := Perform(s, t, h, e); var p := s.handlers[t].ptr;
      && s'.handlers == s.handlers[t := h] && s'.acceptor == s.acceptor
      && s'.heap == if e.FreeClient? then s.heap - {p} else s.heap[p := AfterEffect(s.heap[p], e)]
  {
    NotDangling(s);
  }

  lemma PerformKeepsVetted(cfg: Config, s: State, s': State, t: nat, h: Handler, e: Effect)
    requires Linked(s) && Vetted(cfg, s) && t < |s.handlers| && s'.handlers == s.handlers[t := h]
    requires h.ptr == s.handlers[t].ptr && h.ptr in s.heap && s.heap[h.ptr].owner == HandlerThread(t)
    requires s'.heap == if e.FreeClient? then s.heap - {h.ptr} else s.heap[h.ptr := AfterEffect(s.heap[h.ptr], e)]
    requires LoginRule(cfg, h, AfterEffect(s.heap[h.ptr], e)) && (e.FreeClient? ==> h.pc.Finished?)
    ensures Vetted(cfg, s')
  {
    forall u: nat ensures LoginOk(cfg, s', u) {
      assert HandlerOk(s, u) && LoginOk(cfg, s, u);
    }
    forall q: Ptr ensures PendingOk(s', q) {
      assert PendingOk(s, q);
    }
  }

  /** A step of a handler, with everything the login rules say about it. */
  lemma LicensedStep(cfg: Config, s: State, t: nat, step: Step) returns (h: Handler, e: Effect)
    requires Linked(s) && Vetted(cfg, s) && Enabled(s, Run(t, step))
    ensures s.handlers[t].ptr in s.heap && s.heap[s.handlers[t].ptr].owner == HandlerThread(t)
    ensures (h, e) == TurnOf(cfg, s, t, step) && Next(cfg, s, Run(t, step)) == Perform(s, t, h, e)
    ensures h.ptr == s.handlers[t].ptr && Advances(s.handlers[t].pc, h.pc, e)
    ensures LoginRule(cfg, s.handlers[t], s.heap[h.ptr]) && LoginRule(cfg, h, AfterEffect(s.heap[h.ptr], e))
    ensures Licensed(cfg, s.handlers[t], s.heap[h.ptr], e)
  {
    hide Turn, Perform, LoopNext;
    h, e := StepOfHandler(cfg, s, t, step);
    assert LoginOk(cfg, s, t);
    var pc := s.handlers[t].pc;
    TurnKeepsLogin(cfg, s.handlers[t], s.heap[h.ptr], step,
                   pc.Acting? && pc.cmd.Private? && FirstNamed(View(s), pc.cmd.target) >= 0);
  }

  lemma HandlerKeepsVetted(cfg: Config, s: State, t: nat, step: Step)
    requires Safe(s) && Vetted(cfg, s) && Enabled(s, Run(t, step))
    ensures Vetted(cfg, Next(cfg, s, Run(t, step)))
  {
    hide Turn, Perform, LoopNext;
    var h, e := LicensedStep(cfg, s, t, step);
    OthersUntouched(s, t, h, e);
    PerformKeepsVetted(cfg, s, Perform(s, t, h, e), t, h, e);
  }

  lemma LoopKeepsVetted(cfg: Config, s: State, move: Move)
    requires Safe(s) && Vetted(cfg, s) && Enabled(s, Loop(move))
    ensures Vetted(cfg, Next(cfg, s, Loop(move)))
  {
    hide TurnOf, Perform;
    StepOfLoop(cfg, s, move);
    var s' := LoopNext(s, s.acceptor.p, move);
    assert PendingOk(s, s.acceptor.p);
    forall u: nat ensures LoginOk(cfg, s', u) {
      assert HandlerOk(s, u) && LoginOk(cfg, s, u);
    }
    forall q: Ptr ensures PendingOk(s', q) {
      assert PendingOk(s, q);
    }
  }

  lemma AcceptKeepsVetted(cfg: Config, s: State, a: Action)
    requires Safe(s) && Vetted(cfg, s) && Enabled(s, a) && a.Accept?
    ensures Vetted(cfg, Next(cfg, s, a))
  {
    hide TurnOf, Perform, LoopNext;
    var s' := Next(cfg, s, a);
    forall u: nat ensures LoginOk(cfg, s', u) {
      assert HandlerOk(s, u) && LoginOk(cfg, s, u);
    }
    forall q: Ptr ensures PendingOk(s', q) {
      assert PendingOk(s, q);
    }
  }

  lemma StepKeepsVetted(cfg: Config, s: State, a: Action)
    requires Safe(s) && Vetted(cfg, s) && Enabled(s, a)
    ensures Vetted(cfg, Next(cfg, s, a))
  {
    hide Next;
    match a
    case Accept(_, _, _, _) => AcceptKeepsVetted(cfg, s, a);
    case Loop(move) => LoopKeepsVetted(cfg, s, move);
    case Run(t, step) => HandlerKeepsVetted(cfg, s, t, step);
  }

  lemma {:induction false} RunKeepsVetted(cfg: Config, s: State, run: seq<Action>)
    requires Safe(s) && Vetted(cfg, s) && ValidRun(cfg, s, run)
    ensures Safe(Exec(cfg, s, run)) && Vetted(cfg, Exec(cfg, s, run))
    decreases |run|
  {
    hide Next;
    if run != [] {
      StepKeepsSafe(cfg, s, run[0]);
      StepKeepsVetted(cfg, s, run[0]);
      RunKeepsVetted(cfg, Next(cfg, s, run[0]), run[1..]);
    }
  }

  lemma InitialIsVetted(cfg: Config)
    ensures Safe(Initial()) && Vetted(cfg, Initial())
  {
    InitialIsSafe();
    assert forall t: nat :: LoginOk(cfg, Initial(), t);
    assert forall p: Ptr :: PendingOk(Initial(), p);
  }

  lemma ReachableIsVetted(cfg: Config, run: seq<Action>)
    requires ValidRun(cfg, Initial(), run)
    ensures Safe(Exec(cfg, Initial(), run)) && Vetted(cfg, Exec(cfg, Initial(), run))
  {
    InitialIsVetted(cfg);
    RunKeepsVetted(cfg, Initial(), run);
  }

  /** The seat of an authenticated slot belongs to a handler that received a name and a password
      of one account of the database. */
  lemma UserIsVetted(cfg: Config, s: State, k: nat) returns (t: nat)
    requires Safe(s) && Vetted(cfg, s) && k < MAX_CLIENTS && View(s)[k].User?
    ensures t < |s.handlers| && s.slots[k] == Some(s.handlers[t].ptr) && !s.handlers[t].pc.Finished?
    ensures View(s)[k] == User(s.handlers[t].username) && Passed(cfg, s.handlers[t])
  {
    assert SlotOk(s, k);
    var p := s.slots[k].value;
    assert ClientOk(s, p) && PendingOk(s, p);
    t := s.heap[p].owner.t;
    assert LoginOk(cfg, s, t);
  }

  /** In every reachable state only database users are in the room. */
  lemma OnlyDatabaseUsers(cfg: Config, run: seq<Action>)
    requires ValidRun(cfg, Initial(), run)
    ensures var seats := View(Exec(cfg, Initial(), run));
      && |seats| == MAX_CLIENTS
      && forall k :: 0 <= k < MAX_CLIENTS && seats[k].User? ==>
           exists account :: account in cfg.db && account.name == seats[k].name
  {
    ReachableIsVetted(cfg, run);
    var s := Exec(cfg, Initial(), run);
    forall k | 0 <= k < MAX_CLIENTS && View(s)[k].User?
      ensures exists account :: account in cfg.db && account.name == View(s)[k].name
    {
      var t := UserIsVetted(cfg, s, k);
      assert Account(s.handlers[t].username, cfg.md5(s.handlers[t].password)) in cfg.db;
    }
  }

  ghost predicate Authenticated(s: State, t: nat) {
    t < |s.handlers| && s.handlers[t].ptr in s.heap && s.heap[s.handlers[t].ptr].authenticated
  }

  /** Handler `t` is still there, and the flag of its client has not been reset. */
  predicate KeepsFlag(s: State, s': State, t: nat) {
    && t < |s.handlers| && t < |s'.handlers| && s'.handlers[t].ptr == s.handlers[t].ptr
    && (s.handlers[t].pc.Finished? ==> s'.handlers[t].pc.Finished?)
    && (!s.handlers[t].pc.Finished? && s.handlers[t].ptr in s.heap && !s'.handlers[t].pc.Finished? ==>
          && s.handlers[t].ptr in s'.heap
          && (s.heap[s.handlers[t].ptr].authenticated ==> s'.heap[s.handlers[t].ptr].authenticated))
  }

  lemma HandlerKeepsFlag(cfg: Config, s: State, u: nat, step: Step, t: nat)
    requires Safe(s) && Enabled(s, Run(u, step)) && t < |s.handlers|
    ensures KeepsFlag(s, Next(cfg, s, Run(u, step)), t)
  {
    hide Turn, Perform, LoopNext;
    var h, e := StepOfHandler(cfg, s, u, step);
    OthersUntouched(s, u, h, e);
    assert HandlerOk(s, t);
  }

  lemma LoopKeepsFlag(cfg: Config, s: State, a: Action, t: nat)
    requires Safe(s) && Enabled(s, a) && !a.Run? && t < |s.handlers|
    ensures KeepsFlag(s, Next(cfg, s, a), t)
  {
    hide TurnOf, Perform;
    assert HandlerOk(s, t);
  }

  /** `authenticated` never reverts: it holds until the handler has freed its client. */
  lemma {:induction false} AuthenticatedNeverReverts(cfg: Config, s: State, run: seq<Action>, t: nat)
    requires Safe(s) && ValidRun(cfg, s, run)
    requires t < |s.handlers| && (s.handlers[t].pc.Finished? || Authenticated(s, t))
    ensures var s' := Exec(cfg, s, run);
      t < |s'.handlers| && (s'.handlers[t].pc.Finished? || Authenticated(s', t))
    decreases |run|
  {
    hide Next;
    if run != [] {
      StepKeepsSafe(cfg, s, run[0]);
      if run[0].Run? {
        HandlerKeepsFlag(cfg, s, run[0].t, run[0].step, t);
      } else {
        LoopKeepsFlag(cfg, s, run[0], t);
      }
      AuthenticatedNeverReverts(cfg, Next(cfg, s, run[0]), run[1..], t);
    }
  }
}
