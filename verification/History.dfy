/** What whole runs of the server log: the order of broadcasts, and the conservation of joins and leaves. */
module History {
  import opened Accounts
  import opened Bytes
  import opened ChatServer
  import opened Logins
  import opened Protocol
  import opened Room
  import opened SlotSafety

  // ----- The thread-local part of a step -----

  /** The handler has announced its client and not its departure. */
  predicate Chats(h: Handler, c: Client) {
    h.pc.Chatting? || h.pc.Acting? || (h.pc.Leaving? && c.authenticated)
  }

  predicate Departed(pc: Pc) {
    pc.Closing? || pc.Removing? || pc.Freeing? || pc.Finished?
  }

  /** A handler's broadcasts carry its name, and stand where its life puts them: a join opens the chat,
      talks happen in it, a leave closes it; no other effect opens or closes it. */
  predicate InPhase(h: Handler, c: Client, h': Handler, e: Effect) {
    var before, after := Chats(h, c), Chats(h', AfterEffect(c, e));
    && (Departed(h.pc) ==> Departed(h'.pc))
    && (before || after ==> h'.username == h.username)
    && (e.ToAll? ==> e.name == h.username)
    && (if !e.ToAll? then after == before
        else match e.speech
          case Joins => !before && !Departed(h.pc) && after
          case Talks(_) => before && after
          case Leaves => before && !after && Departed(h'.pc))
  }

  lemma TurnInPhase(cfg: Config, h: Handler, c: Client, step: Step, found: bool)
    requires StepEnabled(h.pc, step) && LoginRule(cfg, h, c)
    ensures var (h', e) := Turn(cfg, h, c, step, found); InPhase(h, c, h', e)
  {
    hide Ascii, CutLine, Take, ParseCommand, ConfirmLine, NotFound, Matches;
  }

  // ----- What one step adds to the log and to the outboxes -----

  predicate InChat(s: State, t: nat) {
    t < |s.handlers| && s.handlers[t].ptr in s.heap && Chats(s.handlers[t], s.heap[s.handlers[t].ptr])
  }

  /** The log has one more entry, and each outbox has heard it or not by the rule of the room. */
  ghost predicate Broadcasted(s: State, s': State, e: Entry) {
    && s'.log == s.log + [e]
    && s'.outbox == Deliver(View(s), s.outbox, e.slot, Heard(e.slot, SpokenLine(e.name, e.speech)))
  }

  /** At most one delivery, and not of a broadcast, has been added to each outbox. */
  ghost predicate Quietly(s: State, s': State) {
    && s'.log == s.log && |s'.outbox| == |s.outbox|
    && forall k :: 0 <= k < |s.outbox| ==> QuietFor(s.outbox[k], s'.outbox[k])
  }

  predicate QuietFor(before: seq<Delivery>, after: seq<Delivery>) {
    after == before
    || (|after| == |before| + 1 && after[..|before|] == before && !after[|before|].Heard?)
  }

  lemma PushIsQuiet(s: State, s': State, k: int, d: Delivery)
    requires s'.log == s.log && s'.outbox == Push(s.outbox, k, d) && !d.Heard?
    ensures Quietly(s, s')
  {
  }

  lemma PerformLogs(s: State, t: nat, h: Handler, e: Effect)
    requires Safe(s) && t < |s.handlers| && s.handlers[t].ptr in s.heap
    ensures var s' := Perform(s, t, h, e);
      if e.ToAll? then Broadcasted(s, s', Entry(t, s.heap[s.handlers[t].ptr].id, e.name, e.speech))
      else Quietly(s, s')
  {
    NotDangling(s);
    var s' := Perform(s, t, h, e);
    match e
    case Tell(line) => PushIsQuiet(s, s', s.heap[s.handlers[t].ptr].id, Direct(line));
    case ListUsers => ListIsQuiet(s, s', s.heap[s.handlers[t].ptr].id);
    case ToOne(name, target, text) => PushIsQuiet(s, s', FirstNamed(View(s), target), Whisper(PrivateLine(name, text)));
    case _ =>
  }

  lemma ListIsQuiet(s: State, s': State, id: int)
    requires s'.log == s.log && s'.outbox == SendList(s, id)
    ensures Quietly(s, s')
  {
    if 0 <= id < |s.slots| && s.slots[id].Some? {
      PushIsQuiet(s, s', id, Roster(ListLine(Users(View(s)))));
    }
  }

  /** A step of a handler, with its place in the handler's life and what it logs and sends. */
  lemma StepLogs(cfg: Config, s: State, t: nat, step: Step) returns (h: Handler, e: Effect)
    requires Safe(s) && Vetted(cfg, s) && Enabled(s, Run(t, step))
    ensures var s' := Next(cfg, s, Run(t, step));
      && s'.handlers == s.handlers[t := h] && s.handlers[t].ptr in s.heap
      && InPhase(s.handlers[t], s.heap[s.handlers[t].ptr], h, e)
      && (InChat(s', t) <==> Chats(h, AfterEffect(s.heap[s.handlers[t].ptr], e)))
      && if e.ToAll? then Broadcasted(s, s', Entry(t, s.heap[s.handlers[t].ptr].id, e.name, e.speech))
         else Quietly(s, s')
  {
    hide Turn, Perform, LoopNext;
    h, e := LicensedStep(cfg, s, t, step);
    var pc := s.handlers[t].pc;
    TurnInPhase(cfg, s.handlers[t], s.heap[h.ptr], step,
                pc.Acting? && pc.cmd.Private? && FirstNamed(View(s), pc.cmd.target) >= 0);
    OthersUntouched(s, t, h, e);
    PerformLogs(s, t, h, e);
  }

  lemma LoopLogs(cfg: Config, s: State, a: Action)
    requires Enabled(s, a) && !a.Run?
    ensures Next(cfg, s, a).log == s.log && Next(cfg, s, a).outbox == s.outbox
  {
  }

  // ----- Total order -----

  datatype Call = Call(slot: int, line: Bytes)

  function SaidBy(e: Entry): Call {
    Call(e.slot, SpokenLine(e.name, e.speech))
  }

  /** The broadcasts among the sends attempted to one slot. */
  function Received(ds: seq<Delivery>): seq<Call> {
    if ds == [] then []
    else if ds[0].Heard? then [Call(ds[0].slot, ds[0].text)] + Received(ds[1..])
    else Received(ds[1..])
  }

  /** The logged broadcasts of every slot but `k`. */
  function SpokenTo(log: seq<Entry>, k: int): seq<Call> {
    if log == [] then []
    else if log[0].slot != k then [SaidBy(log[0])] + SpokenTo(log[1..], k)
    else SpokenTo(log[1..], k)
  }

  function Without(calls: seq<Call>, k: int): seq<Call> {
    if calls == [] then []
    else if calls[0].slot != k then [calls[0]] + Without(calls[1..], k)
    else Without(calls[1..], k)
  }

  lemma WithoutCons(c: Call, calls: seq<Call>, k: int)
    ensures Without([c] + calls, k) == if c.slot != k then [c] + Without(calls, k) else Without(calls, k)
  {
    assert ([c] + calls)[1..] == calls;
  }

  lemma {:induction false} SpokenCommutes(log: seq<Entry>, i: int, j: int)
    ensures Without(SpokenTo(log, i), j) == Without(SpokenTo(log, j), i)
  {
    if log != [] {
      var c := SaidBy(log[0]);
      SpokenCommutes(log[1..], i, j);
      WithoutCons(c, SpokenTo(log[1..], i), j);
      WithoutCons(c, SpokenTo(log[1..], j), i);
    }
  }

  /** Slot `k` holds a user in every state of the run. */
  predicate StaysUser(cfg: Config, s: State, run: seq<Action>, k: nat)
    requires ValidRun(cfg, s, run)
    decreases |run|
  {
    && k < |s.slots| && View(s)[k].User?
    && (run == [] || StaysUser(cfg, Next(cfg, s, run[0]), run[1..], k))
  }

  /** Between two states, slot `k` has heard what the others said, in the order of the log. */
  ghost predicate InStep(s: State, s': State, k: nat) {
    && k < |s.outbox| == |s'.outbox|
    && s.log <= s'.log && s.outbox[k] <= s'.outbox[k]
    && Received(s'.outbox[k][|s.outbox[k]|..]) == SpokenTo(s'.log[|s.log|..], k)
  }

  lemma HeardInStep(s: State, s': State, e: Entry, k: nat)
    requires Broadcasted(s, s', e) && k < |s.outbox| == |View(s)| && View(s)[k].User?
    ensures InStep(s, s', k)
  {
    assert s'.log[|s.log|..] == [e];
    assert SpokenTo([e], k) == if e.slot != k then [SaidBy(e)] else [];
    if k != e.slot {
      var d := Heard(e.slot, SpokenLine(e.name, e.speech));
      assert s'.outbox[k] == s.outbox[k] + [d];
      assert s'.outbox[k][|s.outbox[k]|..] == [d];
      assert Received([d]) == [SaidBy(e)];
    }
  }

  lemma QuietInStep(s: State, s': State, k: nat)
    requires Quietly(s, s') && k < |s.outbox|
    ensures InStep(s, s', k)
  {
    assert QuietFor(s.outbox[k], s'.outbox[k]);
    var more := s'.outbox[k][|s.outbox[k]|..];
    assert s'.log[|s.log|..] == [];
    if s'.outbox[k] != s.outbox[k] {
      assert more == [s'.outbox[k][|s.outbox[k]|]];
    }
  }

  lemma OneStepInStep(cfg: Config, s: State, a: Action, k: nat)
    requires Safe(s) && Vetted(cfg, s) && Enabled(s, a) && k < MAX_CLIENTS && View(s)[k].User?
    ensures InStep(s, Next(cfg, s, a), k)
  {
    hide Next;
    var s' := Next(cfg, s, a);
    if a.Run? {
      var h, e := StepLogs(cfg, s, a.t, a.step);
      if e.ToAll? {
        HeardInStep(s, s', Entry(a.t, s.heap[s.handlers[a.t].ptr].id, e.name, e.speech), k);
      } else {
        QuietInStep(s, s', k);
      }
    } else {
      LoopLogs(cfg, s, a);
      QuietInStep(s, s', k);
    }
  }

  lemma {:induction false} ReceivedConcat(a: seq<Delivery>, b: seq<Delivery>)
    ensures Received(a + b) == Received(a) + Received(b)
  {
    if a == [] {
      assert a + b == b;
    } else {
      assert (a + b)[0] == a[0] && (a + b)[1..] == a[1..] + b;
      ReceivedConcat(a[1..], b);
    }
  }

  lemma {:induction false} SpokenConcat(a: seq<Entry>, b: seq<Entry>, k: int)
    ensures SpokenTo(a + b, k) == SpokenTo(a, k) + SpokenTo(b, k)
  {
    if a == [] {
      assert a + b == b;
    } else {
      assert (a + b)[0] == a[0] && (a + b)[1..] == a[1..] + b;
      SpokenConcat(a[1..], b, k);
    }
  }

  lemma InStepTransitive(s0: State, s1: State, s2: State, k: nat)
    requires InStep(s0, s1, k) && InStep(s1, s2, k)
    ensures InStep(s0, s2, k)
  {
    var a, b := s1.outbox[k][|s0.outbox[k]|..], s2.outbox[k][|s1.outbox[k]|..];
    assert s2.outbox[k][|s0.outbox[k]|..] == a + b;
    ReceivedConcat(a, b);
    var x, y := s1.log[|s0.log|..], s2.log[|s1.log|..];
    assert s2.log[|s0.log|..] == x + y;
    SpokenConcat(x, y, k);
  }

  /** While a slot stays a user's, it is sent exactly the broadcasts of the other slots, in log order. */
  lemma {:induction false} HearsTheLog(cfg: Config, s: State, run: seq<Action>, k: nat)
    requires Safe(s) && Vetted(cfg, s) && ValidRun(cfg, s, run) && StaysUser(cfg, s, run, k)
    ensures InStep(s, Exec(cfg, s, run), k)
    decreases |run|
  {
    hide Next;
    if run == [] {
      assert s.outbox[k][|s.outbox[k]|..] == [] && s.log[|s.log|..] == [];
    } else {
      var s' := Next(cfg, s, run[0]);
      OneStepInStep(cfg, s, run[0], k);
      StepKeepsSafe(cfg, s, run[0]);
      StepKeepsVetted(cfg, s, run[0]);
      HearsTheLog(cfg, s', run[1..], k);
      InStepTransitive(s, s', Exec(cfg, s, run), k);
    }
  }

  /** Over any interval of any run in which two slots stay users', both are sent the same sequence of
      broadcasts from third parties. */
  lemma TotalOrder(cfg: Config, before: seq<Action>, run: seq<Action>, i: nat, j: nat)
    requires ValidRun(cfg, Initial(), before) && ValidRun(cfg, Exec(cfg, Initial(), before), run)
    requires StaysUser(cfg, Exec(cfg, Initial(), before), run, i)
    requires StaysUser(cfg, Exec(cfg, Initial(), before), run, j)
    ensures var s := Exec(cfg, Initial(), before); var s' := Exec(cfg, s, run);
      && i < |s.outbox| == |s'.outbox| && j < |s.outbox|
      && s.outbox[i] <= s'.outbox[i] && s.outbox[j] <= s'.outbox[j]
      && Without(Received(s'.outbox[i][|s.outbox[i]|..]), j)
      == Without(Received(s'.outbox[j][|s.outbox[j]|..]), i)
  {
    hide Next, Exec;
    ReachableIsVetted(cfg, before);
    var s := Exec(cfg, Initial(), before);
    HearsTheLog(cfg, s, run, i);
    HearsTheLog(cfg, s, run, j);
    SpokenCommutes(Exec(cfg, s, run).log[|s.log|..], i, j);
  }

  // ----- Joins and leaves, handler by handler -----

  /** The broadcasts of one handler, in log order. */
  function Own(log: seq<Entry>, t: nat): seq<Speech> {
    if log == [] then []
    else OwnNext(Own(log[..|log| - 1], t), log[|log| - 1], t)
  }

  function OwnNext(spoken: seq<Speech>, e: Entry, t: nat): seq<Speech> {
    if e.t == t then spoken + [e.speech] else spoken
  }

  /** A join, then talks. */
  predicate Begun(spoken: seq<Speech>) {
    spoken != [] && spoken[0] == Joins && forall i :: 1 <= i < |spoken| ==> spoken[i].Talks?
  }

  /** One join, then talks, then one leave. */
  predicate Complete(spoken: seq<Speech>) {
    |spoken| >= 2 && Begun(spoken[..|spoken| - 1]) && spoken[|spoken| - 1] == Leaves
  }

  predicate LifeOk(s: State, t: nat) {
    LifeRule(Own(s.log, t), InChat(s, t), t < |s.handlers| && Departed(s.handlers[t].pc))
  }

  predicate LifeRule(spoken: seq<Speech>, inChat: bool, departed: bool) {
    if inChat then Begun(spoken)
    else if departed then spoken == [] || Complete(spoken)
    else spoken == []
  }

  /** What a handler says next keeps the rule of its life. */
  lemma SpeechKeepsLife(spoken: seq<Speech>, speech: Speech, before: bool, left: bool, after: bool, left': bool)
    requires LifeRule(spoken, before, left)
    requires match speech
      case Joins => !before && !left && after
      case Talks(_) => before && after
      case Leaves => before && !after && left'
    ensures LifeRule(spoken + [speech], after, left')
  {
    assert (spoken + [speech])[..|spoken|] == spoken;
  }

  lemma OwnStepKeepsLife(cfg: Config, s: State, t: nat, step: Step)
    requires Safe(s) && Vetted(cfg, s) && Enabled(s, Run(t, step)) && LifeOk(s, t)
    ensures LifeOk(Next(cfg, s, Run(t, step)), t)
  {
    hide Next;
    var s' := Next(cfg, s, Run(t, step));
    var h, e := StepLogs(cfg, s, t, step);
    if e.ToAll? {
      assert s'.log[..|s.log|] == s.log;
      SpeechKeepsLife(Own(s.log, t), e.speech, InChat(s, t), Departed(s.handlers[t].pc), InChat(s', t), Departed(h.pc));
    }
  }

  /** Handler `u` and its place in the chat are the same, or `u` is new. */
  predicate Aside(s: State, s': State, u: nat) {
    && |s.handlers| <= |s'.handlers|
    && (InChat(s', u) <==> InChat(s, u))
    && (u < |s.handlers| ==> s'.handlers[u] == s.handlers[u])
    && (|s.handlers| <= u < |s'.handlers| ==> s'.handlers[u].pc.AskName?)
  }

  lemma HandlerStepsAside(cfg: Config, s: State, t: nat, step: Step, u: nat)
    requires Safe(s) && Enabled(s, Run(t, step)) && u != t
    ensures Aside(s, Next(cfg, s, Run(t, step)), u)
  {
    hide Turn, Perform, LoopNext;
    var h, e := StepOfHandler(cfg, s, t, step);
    OthersUntouched(s, t, h, e);
    assert HandlerOk(s, u);
  }

  lemma LoopStepsAside(cfg: Config, s: State, a: Action, u: nat)
    requires Safe(s) && Enabled(s, a) && !a.Run?
    ensures Aside(s, Next(cfg, s, a), u)
  {
    hide TurnOf, Perform;
    assert HandlerOk(s, u);
  }

  lemma AsideKeepsLife(s: State, s': State, u: nat)
    requires Aside(s, s', u) && LifeOk(s, u) && Own(s'.log, u) == Own(s.log, u)
    ensures LifeOk(s', u)
  {
  }

  lemma OtherStepKeepsLife(cfg: Config, s: State, t: nat, step: Step, u: nat)
    requires Safe(s) && Vetted(cfg, s) && Enabled(s, Run(t, step)) && u != t && LifeOk(s, u)
    ensures LifeOk(Next(cfg, s, Run(t, step)), u)
  {
    hide Next;
    var s' := Next(cfg, s, Run(t, step));
    HandlerStepsAside(cfg, s, t, step, u);
    var h, e := StepLogs(cfg, s, t, step);
    assert e.ToAll? ==> s'.log[..|s.log|] == s.log;
    AsideKeepsLife(s, s', u);
  }

  lemma StepKeepsLife(cfg: Config, s: State, a: Action, u: nat)
    requires Safe(s) && Vetted(cfg, s) && Enabled(s, a) && LifeOk(s, u)
    ensures LifeOk(Next(cfg, s, a), u)
  {
    hide Next;
    if !a.Run? {
      LoopStepsAside(cfg, s, a, u);
      LoopLogs(cfg, s, a);
    } else if a.t == u {
      OwnStepKeepsLife(cfg, s, u, a.step);
    } else {
      OtherStepKeepsLife(cfg, s, a.t, a.step, u);
    }
  }

  lemma {:induction false} RunKeepsLife(cfg: Config, s: State, run: seq<Action>, t: nat)
    requires Safe(s) && Vetted(cfg, s) && ValidRun(cfg, s, run) && LifeOk(s, t)
    ensures LifeOk(Exec(cfg, s, run), t)
    decreases |run|
  {
    hide Next;
    if run != [] {
      StepKeepsLife(cfg, s, run[0], t);
      StepKeepsSafe(cfg, s, run[0]);
      StepKeepsVetted(cfg, s, run[0]);
      RunKeepsLife(cfg, Next(cfg, s, run[0]), run[1..], t);
    }
  }

  /** A handler has broadcast nothing, or a join followed by talks, or a join, talks and one leave; the second
      is so exactly while it is in the chat, and at its end it has left exactly if it joined. */
  predicate LivesRight(s: State, t: nat) {
    var spoken := Own(s.log, t);
    && (spoken == [] || Begun(spoken) || Complete(spoken))
    && (InChat(s, t) <==> Begun(spoken))
    && (t < |s.handlers| && s.handlers[t].pc.Finished? ==> (Leaves in spoken <==> Joins in spoken))
  }

  lemma LifeRuleMeans(spoken: seq<Speech>, inChat: bool, departed: bool)
    requires LifeRule(spoken, inChat, departed)
    ensures spoken == [] || Begun(spoken) || Complete(spoken)
    ensures inChat <==> Begun(spoken)
    ensures !inChat ==> (Leaves in spoken <==> Joins in spoken)
  {
    if Complete(spoken) {
      assert spoken[0] == Joins && spoken[|spoken| - 1] == Leaves;
    }
  }

  lemma LifeMeans(s: State, t: nat)
    requires LifeOk(s, t)
    ensures LivesRight(s, t)
  {
    LifeRuleMeans(Own(s.log, t), InChat(s, t), t < |s.handlers| && Departed(s.handlers[t].pc));
  }

  lemma InitialLife(t: nat)
    ensures LifeOk(Initial(), t)
  {
  }

  /** That is so for every handler in every reachable state. */
  lemma HandlerLife(cfg: Config, run: seq<Action>, t: nat)
    requires ValidRun(cfg, Initial(), run)
    ensures LivesRight(Exec(cfg, Initial(), run), t)
  {
    hide Exec, Next, Initial, LifeOk, LivesRight;
    InitialIsVetted(cfg);
    InitialLife(t);
    RunKeepsLife(cfg, Initial(), run, t);
    LifeMeans(Exec(cfg, Initial(), run), t);
  }

  // ----- Joins and leaves, name by name -----

  function Worth(e: Entry, name: Bytes): int {
    if e.name != name then 0
    else
      match e.speech
      case Joins => 1
      case Talks(_) => 0
      case Leaves => -1
  }

  /** Joins minus leaves of a name. */
  function Tally(log: seq<Entry>, name: Bytes): int {
    if log == [] then 0 else Tally(log[..|log| - 1], name) + Worth(log[|log| - 1], name)
  }

  predicate Present(s: State, t: nat, name: Bytes) {
    InChat(s, t) && s.handlers[t].username == name
  }

  /** The number of the first `n` handlers that are in the chat under a name. */
  function Presence(s: State, n: nat, name: Bytes): nat {
    if n == 0 then 0 else Presence(s, n - 1, name) + if Present(s, n - 1, name) then 1 else 0
  }

  lemma {:induction false} PresenceChange(s: State, s': State, t: nat, name: Bytes, n: nat)
    requires forall u: nat :: u != t ==> (Present(s', u, name) <==> Present(s, u, name))
    ensures Presence(s', n, name) == Presence(s, n, name)
      + if t >= n then 0 else (if Present(s', t, name) then 1 else 0) - (if Present(s, t, name) then 1 else 0)
  {
    if n > 0 {
      PresenceChange(s, s', t, name, n - 1);
    }
  }

  ghost predicate Balanced(s: State, name: Bytes) {
    Tally(s.log, name) == Presence(s, |s.handlers|, name)
  }

  lemma HandlerKeepsBalance(cfg: Config, s: State, t: nat, step: Step, name: Bytes)
    requires Safe(s) && Vetted(cfg, s) && Enabled(s, Run(t, step)) && Balanced(s, name)
    ensures Balanced(Next(cfg, s, Run(t, step)), name)
  {
    hide Next;
    var s' := Next(cfg, s, Run(t, step));
    forall u: nat | u != t ensures Present(s', u, name) <==> Present(s, u, name) {
      HandlerStepsAside(cfg, s, t, step, u);
    }
    PresenceChange(s, s', t, name, |s.handlers|);
    var h, e := StepLogs(cfg, s, t, step);
    assert e.ToAll? ==> s'.log[..|s.log|] == s.log;
  }

  lemma LoopKeepsBalance(cfg: Config, s: State, a: Action, name: Bytes)
    requires Safe(s) && Enabled(s, a) && !a.Run? && Balanced(s, name)
    ensures Balanced(Next(cfg, s, a), name)
  {
    hide TurnOf, Perform;
    var s' := Next(cfg, s, a);
    LoopLogs(cfg, s, a);
    forall u: nat ensures Present(s', u, name) <==> Present(s, u, name) {
      LoopStepsAside(cfg, s, a, u);
    }
    LoopStepsAside(cfg, s, a, |s.handlers|);
    PresenceChange(s, s', |s.handlers|, name, |s.handlers|);
    assert |s'.handlers| <= |s.handlers| + 1;
  }

  lemma {:induction false} RunKeepsBalance(cfg: Config, s: State, run: seq<Action>, name: Bytes)
    requires Safe(s) && Vetted(cfg, s) && ValidRun(cfg, s, run) && Balanced(s, name)
    ensures Balanced(Exec(cfg, s, run), name)
    decreases |run|
  {
    hide Next;
    if run != [] {
      var a := run[0];
      if a.Run? {
        HandlerKeepsBalance(cfg, s, a.t, a.step, name);
      } else {
        LoopKeepsBalance(cfg, s, a, name);
      }
      StepKeepsSafe(cfg, s, a);
      StepKeepsVetted(cfg, s, a);
      RunKeepsBalance(cfg, Next(cfg, s, a), run[1..], name);
    }
  }

  /** In every reachable state the joins minus the leaves of a name are the handlers that are in the
      chat under that name, however often the name is logged in. */
  lemma JoinsAndLeavesBalance(cfg: Config, run: seq<Action>, name: Bytes)
    requires ValidRun(cfg, Initial(), run)
    ensures var s := Exec(cfg, Initial(), run); Tally(s.log, name) == Presence(s, |s.handlers|, name)
  {
    InitialIsVetted(cfg);
    RunKeepsBalance(cfg, Initial(), run, name);
  }
}
