/** The concurrent server refines the atomic chat room: every action of every thread is one
    operation of the room or leaves the room as it is. */
module Refinement {
  import opened Accounts
  import opened Bytes
  import opened ChatRoom
  import opened ChatServer
  import opened Logins
  import opened Protocol
  import opened Room
  import opened SlotSafety

  function Abstraction(s: State): RoomState {
    RoomState(View(s), s.outbox)
  }

  // ----- The operation that an action performs -----

  function EffectOp(c: Client, e: Effect): Op {
    match e
    case Tell(line) => Reply(c.id, line)
    case ToAll(_, speech) => Say(c.id, speech)
    case ToOne(_, target, text) => Pass(c.id, target, text)
    case ListUsers => Roll(c.id)
    case WriteFlag => Admit(c.id, c.username)
    case ClearSlot => Vacate(c.id)
    case _ => Idle
  }

  function OpOf(cfg: Config, s: State, a: Action): Op
    requires Enabled(s, a)
  {
    match a
    case Accept(_, _, _, _) => Idle
    case Loop(move) =>
      if move.Add? && FirstEmpty(View(s)) >= 0 then Sit(FirstEmpty(View(s)))
      else if move.Unregister? && s.acceptor.p in s.heap then Vacate(s.heap[s.acceptor.p].id)
      else Idle
    case Run(t, step) =>
      if s.handlers[t].ptr in s.heap then EffectOp(s.heap[s.handlers[t].ptr], TurnOf(cfg, s, t, step).1) else Idle
  }

  // ----- One step -----

  ghost predicate Simulates(cfg: Config, s: State, s': State, op: Op) {
    Allowed(cfg.db, Abstraction(s), op) && Abstraction(s') == Apply(cfg.db, Abstraction(s), op)
  }

  /** The seat of a registered handler shows what the handler's client holds. */
  lemma OwnSeat(s: State, t: nat)
    requires Safe(s) && t < |s.handlers| && Registers(s.handlers[t].pc)
    ensures var p := s.handlers[t].ptr;
      && p in s.heap && 0 <= s.heap[p].id < MAX_CLIENTS && s.slots[s.heap[p].id] == Some(p)
      && View(s)[s.heap[p].id] == SeatAt(s, Some(p))
  {
    OwnSlot(s, t);
  }

  lemma BroadcastSimulates(cfg: Config, s: State, t: nat, h: Handler, name: Bytes, speech: Speech)
    requires Safe(s) && t < |s.handlers| && s.handlers[t].ptr in s.heap && Registers(s.handlers[t].pc)
    requires h.ptr == s.handlers[t].ptr && Advances(s.handlers[t].pc, h.pc, ToAll(name, speech))
    requires s.heap[h.ptr].authenticated && s.heap[h.ptr].username == name
    ensures Simulates(cfg, s, Perform(s, t, h, ToAll(name, speech)), Say(s.heap[h.ptr].id, speech))
  {
    OwnSeat(s, t);
    NotDangling(s);
    LightKeepsSafe(s, t, h, ToAll(name, speech));
  }

  /** A light effect keeps the seats and makes the sends of its operation. */
  lemma LightSimulates(cfg: Config, s: State, t: nat, h: Handler, e: Effect)
    requires Safe(s) && t < |s.handlers| && s.handlers[t].ptr in s.heap && IsLight(e)
    requires h.ptr == s.handlers[t].ptr && Advances(s.handlers[t].pc, h.pc, e)
    requires Licensed(cfg, s.handlers[t], s.heap[h.ptr], e)
    ensures Simulates(cfg, s, Perform(s, t, h, e), EffectOp(s.heap[h.ptr], e))
  {
    if e.ToAll? {
      BroadcastSimulates(cfg, s, t, h, e.name, e.speech);
    } else {
      OwnSeat(s, t);
      NotDangling(s);
      LightKeepsSafe(s, t, h, e);
    }
  }

  /** Before `authenticated` is set, the name that a handler copies is not visible in the room. */
  lemma CopySimulates(cfg: Config, s: State, t: nat, h: Handler, name: Bytes)
    requires Safe(s) && t < |s.handlers| && s.handlers[t].ptr in s.heap
    requires !s.heap[s.handlers[t].ptr].authenticated
    ensures Simulates(cfg, s, Perform(s, t, h, WriteName(name)), Idle)
  {
    SameView(s, Perform(s, t, h, WriteName(name)));
  }

  lemma AdmittedView(s: State, s': State, p: Ptr)
    requires Linked(s) && p in s.heap && 0 <= s.heap[p].id < |s.slots| && s.slots[s.heap[p].id] == Some(p)
    requires s'.slots == s.slots && s'.heap == s.heap[p := s.heap[p].(authenticated := true)]
    ensures View(s') == View(s)[s.heap[p].id := User(s.heap[p].username)]
  {
    forall k: nat | k < |s.slots| && k != s.heap[p].id ensures SeatAt(s', s.slots[k]) == SeatAt(s, s.slots[k]) {
      assert SlotOk(s, k);
    }
    assert View(s') == View(s)[s.heap[p].id := User(s.heap[p].username)];
  }

  /** Setting `authenticated` turns the handler's own guest into a user of the database. */
  lemma AdmissionSimulates(cfg: Config, s: State, t: nat, h: Handler)
    requires Safe(s) && t < |s.handlers| && s.handlers[t].ptr in s.heap && Registers(s.handlers[t].pc)
    requires Licensed(cfg, s.handlers[t], s.heap[s.handlers[t].ptr], WriteFlag)
    ensures var c := s.heap[s.handlers[t].ptr];
      Simulates(cfg, s, Perform(s, t, h, WriteFlag), Admit(c.id, c.username))
  {
    OwnSeat(s, t);
    AdmittedView(s, Perform(s, t, h, WriteFlag), s.handlers[t].ptr);
    assert Account(s.handlers[t].username, cfg.md5(s.handlers[t].password)) in cfg.db;
  }

  lemma RemovalSimulates(cfg: Config, s: State, t: nat, h: Handler)
    requires Safe(s) && t < |s.handlers| && s.handlers[t].ptr in s.heap && Registers(s.handlers[t].pc)
    requires h == s.handlers[t].(pc := Freeing)
    ensures Simulates(cfg, s, Perform(s, t, h, ClearSlot), Vacate(s.heap[h.ptr].id))
  {
    OwnSeat(s, t);
    ClearKeepsSafe(s, t, h);
  }

  lemma FreeSimulates(cfg: Config, s: State, t: nat, h: Handler)
    requires Safe(s) && t < |s.handlers| && s.handlers[t].ptr in s.heap && s.handlers[t].pc.Freeing?
    requires h == s.handlers[t].(pc := Finished)
    ensures Simulates(cfg, s, Perform(s, t, h, FreeClient), Idle)
  {
    FreeKeepsSafe(s, t, h);
  }

  lemma HandlerSimulates(cfg: Config, s: State, t: nat, step: Step)
    requires Safe(s) && Vetted(cfg, s) && Enabled(s, Run(t, step))
    ensures Simulates(cfg, s, Next(cfg, s, Run(t, step)), OpOf(cfg, s, Run(t, step)))
  {
    hide Turn, Perform, LoopNext, Allowed, Apply;
    var h, e := LicensedStep(cfg, s, t, step);
    TurnOfRemoval(cfg, s, t, step);
    match e
    case WriteName(name) => CopySimulates(cfg, s, t, h, name);
    case WriteFlag => AdmissionSimulates(cfg, s, t, h);
    case ClearSlot => RemovalSimulates(cfg, s, t, h);
    case FreeClient => FreeSimulates(cfg, s, t, h);
    case _ => LightSimulates(cfg, s, t, h, e);
  }

  lemma LoopKeepsOutbox(s: State, p: Ptr, move: Move)
    requires p in s.heap
    ensures LoopNext(s, p, move).outbox == s.outbox
  {
  }

  lemma AddSimulates(cfg: Config, s: State)
    requires Safe(s) && Vetted(cfg, s) && Enabled(s, Loop(Add))
    ensures Simulates(cfg, s, Next(cfg, s, Loop(Add)), OpOf(cfg, s, Loop(Add)))
  {
    hide TurnOf, Perform;
    StepOfLoop(cfg, s, Add);
    LoopKeepsOutbox(s, s.acceptor.p, Add);
    AddKeepsSafe(cfg, s);
    assert PendingOk(s, s.acceptor.p);
  }

  lemma UnregisterSimulates(cfg: Config, s: State)
    requires Safe(s) && Enabled(s, Loop(Unregister))
    ensures Simulates(cfg, s, Next(cfg, s, Loop(Unregister)), OpOf(cfg, s, Loop(Unregister)))
  {
    hide TurnOf, Perform;
    StepOfLoop(cfg, s, Unregister);
    LoopKeepsOutbox(s, s.acceptor.p, Unregister);
    UnregisterKeepsSafe(cfg, s);
  }

  lemma LoopSimulates(cfg: Config, s: State, move: Move)
    requires Safe(s) && Vetted(cfg, s) && Enabled(s, Loop(move))
    ensures Simulates(cfg, s, Next(cfg, s, Loop(move)), OpOf(cfg, s, Loop(move)))
  {
    hide TurnOf, Perform;
    StepOfLoop(cfg, s, move);
    LoopKeepsOutbox(s, s.acceptor.p, move);
    match move
    case Add => AddSimulates(cfg, s);
    case Spawn(created) => SpawnKeepsSafe(cfg, s, created);
    case Unregister => UnregisterSimulates(cfg, s);
    case _ => DiscardKeepsSafe(cfg, s, move);
  }

  lemma AcceptSimulates(cfg: Config, s: State, a: Action)
    requires Safe(s) && Enabled(s, a) && a.Accept?
    ensures Simulates(cfg, s, Next(cfg, s, a), OpOf(cfg, s, a))
  {
    hide TurnOf, Perform, LoopNext;
    AcceptKeepsSafe(cfg, s, a);
  }

  /** Every action simulates its operation on the room. */
  lemma StepSimulates(cfg: Config, s: State, a: Action)
    requires Safe(s) && Vetted(cfg, s) && Enabled(s, a)
    ensures Simulates(cfg, s, Next(cfg, s, a), OpOf(cfg, s, a))
  {
    hide Next, OpOf;
    match a
    case Accept(_, _, _, _) => AcceptSimulates(cfg, s, a);
    case Loop(move) => LoopSimulates(cfg, s, move);
    case Run(t, step) => HandlerSimulates(cfg, s, t, step);
  }

  // ----- Every run -----

  function OpsOf(cfg: Config, s: State, run: seq<Action>): seq<Op>
    requires ValidRun(cfg, s, run)
    decreases |run|
  {
    if run == [] then [] else [OpOf(cfg, s, run[0])] + OpsOf(cfg, Next(cfg, s, run[0]), run[1..])
  }

  lemma {:induction false} RunSimulates(cfg: Config, s: State, run: seq<Action>)
    requires Safe(s) && Vetted(cfg, s) && ValidRun(cfg, s, run)
    ensures AllAllowed(cfg.db, Abstraction(s), OpsOf(cfg, s, run))
    ensures ApplyAll(cfg.db, Abstraction(s), OpsOf(cfg, s, run)) == Abstraction(Exec(cfg, s, run))
    decreases |run|
  {
    hide Next, OpOf, Apply, Allowed;
    if run != [] {
      var s' := Next(cfg, s, run[0]);
      StepSimulates(cfg, s, run[0]);
      StepKeepsSafe(cfg, s, run[0]);
      StepKeepsVetted(cfg, s, run[0]);
      RunSimulates(cfg, s', run[1..]);
      assert OpsOf(cfg, s, run)[1..] == OpsOf(cfg, s', run[1..]);
    }
  }

  function EmptyRoom(): RoomState {
    RoomState(seq(MAX_CLIENTS, _ => Empty), seq(MAX_CLIENTS, _ => []))
  }

  lemma InitialIsEmpty()
    ensures Abstraction(Initial()) == EmptyRoom()
  {
    assert View(Initial()) == EmptyRoom().seats;
  }

  /** Every run of the server, under every interleaving, is a run of the room from empty seats. */
  lemma ServerRefinesRoom(cfg: Config, run: seq<Action>)
    requires ValidRun(cfg, Initial(), run)
    ensures AllAllowed(cfg.db, EmptyRoom(), OpsOf(cfg, Initial(), run))
    ensures ApplyAll(cfg.db, EmptyRoom(), OpsOf(cfg, Initial(), run)) == Abstraction(Exec(cfg, Initial(), run))
  {
    InitialIsVetted(cfg);
    InitialIsEmpty();
    RunSimulates(cfg, Initial(), run);
  }

  // ----- Who is sent what -----

  /** The client in slot `k` has logged in with the name and the password of an account. */
  ghost predicate LoggedIn(cfg: Config, s: State, k: nat) {
    && k < |s.slots| && s.slots[k].Some? && s.slots[k].value in s.heap
    && var c := s.heap[s.slots[k].value];
       && c.authenticated
       && exists password :: Account(c.username, cfg.md5(password)) in cfg.db
  }

  /** In every reachable state, whatever action comes next: a slot is sent at most one thing, and a broadcast,
      a whisper or the list only if its client has logged in with a name and password of the database. */
  lemma OnlyUsersAreSentTo(cfg: Config, run: seq<Action>, a: Action, k: nat) returns (sent: seq<Delivery>)
    requires ValidRun(cfg, Initial(), run) && Enabled(Exec(cfg, Initial(), run), a) && k < MAX_CLIENTS
    ensures var s := Exec(cfg, Initial(), run); var s' := Next(cfg, s, a);
      && |s.outbox| == |s'.outbox| == MAX_CLIENTS && s'.outbox[k] == s.outbox[k] + sent
      && |sent| <= 1 && forall d :: d in sent && !d.Direct? ==> LoggedIn(cfg, s, k)
  {
    hide Exec, Next, OpOf, Apply;
    ReachableIsVetted(cfg, run);
    var s := Exec(cfg, Initial(), run);
    StepSimulates(cfg, s, a);
    sent := OpReaches(cfg.db, Abstraction(s), OpOf(cfg, s, a), k);
    if View(s)[k].User? {
      var t := UserIsVetted(cfg, s, k);
      assert Account(s.handlers[t].username, cfg.md5(s.handlers[t].password)) in cfg.db;
    }
  }
}
