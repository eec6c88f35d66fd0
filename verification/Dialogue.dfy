/** The login dialogue, from the bytes that a client sends to the lines that it is sent, whatever the other
    threads do in between. A handler's own steps alone decide what its client is told. */
module Dialogue {
  import opened Accounts
  import opened Bytes
  import opened ChatServer
  import opened Commands
  import opened Logins
  import opened Protocol
  import opened Room
  import opened SlotSafety

  // ----- One handler's side of a run -----

  /** The steps that handler `t` takes in a run. */
  function StepsOf(run: seq<Action>, t: nat): seq<Step>
    decreases |run|
  {
    if run == [] then []
    else if run[0].Run? && run[0].t == t then [run[0].step] + StepsOf(run[1..], t)
    else StepsOf(run[1..], t)
  }

  /** The replies among the sends to one slot. */
  function Directs(ds: seq<Delivery>): seq<Bytes> {
    if ds == [] then []
    else if ds[|ds| - 1].Direct? then Directs(ds[..|ds| - 1]) + [ds[|ds| - 1].text]
    else Directs(ds[..|ds| - 1])
  }

  lemma DirectsLonger(ds: seq<Delivery>, d: Delivery)
    ensures Directs(ds + [d]) == if d.Direct? then Directs(ds) + [d.text] else Directs(ds)
  {
    assert (ds + [d])[..|ds|] == ds;
  }

  function AsDirects(lines: seq<Bytes>): (ds: seq<Delivery>)
    ensures |ds| == |lines|
  {
    seq(|lines|, i requires 0 <= i < |lines| => Direct(lines[i]))
  }

  /** A handler, its client, and what the client has been told since some point. */
  datatype Side = Side(h: Handler, c: Client, told: seq<Bytes>)

  /** Before the handler's client is removed, apart from commands. */
  predicate IsPlain(step: Step) {
    !step.Act? && !step.Remove? && !step.Free?
  }

  function Onwards(cfg: Config, side: Side, step: Step): Side
    requires StepEnabled(side.h.pc, step)
  {
    var (h, e) := Turn(cfg, side.h, side.c, step, false);
    Side(h, AfterEffect(side.c, e), if e.Tell? then side.told + [e.line] else side.told)
  }

  predicate Follows(cfg: Config, side: Side, steps: seq<Step>)
    decreases |steps|
  {
    steps == []
    || (StepEnabled(side.h.pc, steps[0]) && IsPlain(steps[0]) && Follows(cfg, Onwards(cfg, side, steps[0]), steps[1..]))
  }

  function AfterSteps(cfg: Config, side: Side, steps: seq<Step>): Side
    requires Follows(cfg, side, steps)
    decreases |steps|
  {
    if steps == [] then side else AfterSteps(cfg, Onwards(cfg, side, steps[0]), steps[1..])
  }

  /** In `s'` the side is `side`, and since `s` its client has been told what it says; while it is a guest it has
      been sent nothing else. */
  ghost predicate Shows(s: State, s': State, t: nat, id: int, side: Side) {
    && Holds(s', t, id) && |s.outbox| == |s'.outbox|
    && s'.handlers[t] == side.h && s'.heap[side.h.ptr] == side.c
    && Directs(s'.outbox[id]) == Directs(s.outbox[id]) + side.told
    && (!side.c.authenticated ==> s'.outbox[id] == s.outbox[id] + AsDirects(side.told))
  }

  // ----- The handler's own steps -----

  lemma OneMoreDirect(told: seq<Bytes>, line: Bytes)
    ensures AsDirects(told + [line]) == AsDirects(told) + [Direct(line)]
  {
  }

  /** One more reply in the outbox is one more line told. */
  lemma SendShows(out: seq<Delivery>, before: seq<Delivery>, told: seq<Bytes>, line: Bytes)
    requires Directs(before) == Directs(out) + told
    ensures Directs(before + [Direct(line)]) == Directs(out) + (told + [line])
    ensures before == out + AsDirects(told) ==> before + [Direct(line)] == out + AsDirects(told + [line])
  {
    hide Directs, AsDirects;
    DirectsLonger(before, Direct(line));
    OneMoreDirect(told, line);
    assert Directs(out) + told + [line] == Directs(out) + (told + [line]);
    assert out + AsDirects(told) + [Direct(line)] == out + (AsDirects(told) + [Direct(line)]);
  }

  lemma PlainTurn(cfg: Config, h: Handler, c: Client, step: Step)
    requires StepEnabled(h.pc, step) && IsPlain(step)
    ensures Turn(cfg, h, c, step, true) == Turn(cfg, h, c, step, false)
    ensures var e := Turn(cfg, h, c, step, false).1; !e.ToOne? && !e.ListUsers? && !e.ClearSlot? && !e.FreeClient?
  {
    hide Ascii, CutLine, Take, ParseCommand, Matches;
  }

  /** The outbox of the handler's own slot after a plain effect. */
  lemma OwnOutbox(s: State, t: nat, h: Handler, e: Effect, id: int)
    requires Safe(s) && Holds(s, t, id) && !e.ToOne? && !e.ListUsers?
    ensures Perform(s, t, h, e).outbox[id] == if e.Tell? then s.outbox[id] + [Direct(e.line)] else s.outbox[id]
  {
    NotDangling(s);
  }

  lemma EffectShows(s: State, now: State, next: State, t: nat, id: int, side: Side, h: Handler, e: Effect)
    requires Shows(s, now, t, id, side) && Holds(next, t, id) && |next.outbox| == |now.outbox|
    requires next.handlers[t] == h && h.ptr == side.h.ptr && next.heap[h.ptr] == AfterEffect(side.c, e)
    requires next.outbox[id] == if e.Tell? then now.outbox[id] + [Direct(e.line)] else now.outbox[id]
    ensures Shows(s, next, t, id, Side(h, AfterEffect(side.c, e), if e.Tell? then side.told + [e.line] else side.told))
  {
    hide Directs, AsDirects;
    if e.Tell? {
      SendShows(s.outbox[id], now.outbox[id], side.told, e.line);
    }
  }

  /** After a plain step the client is still in the handler's slot. */
  lemma StillHolds(s: State, next: State, t: nat, id: int)
    requires Safe(s) && Safe(next) && Holds(s, t, id) && t < |next.handlers| && Registers(next.handlers[t].pc)
    requires next.handlers[t].ptr == s.handlers[t].ptr && s.handlers[t].ptr in next.heap
    requires next.heap[s.handlers[t].ptr].id == s.heap[s.handlers[t].ptr].id
    ensures Holds(next, t, id) && |next.outbox| == |s.outbox|
  {
    OwnSlot(next, t);
  }

  lemma OwnStepShows(cfg: Config, s: State, now: State, t: nat, id: int, side: Side, step: Step)
    requires |s.outbox| == MAX_CLIENTS && Safe(now) && Shows(s, now, t, id, side)
    requires Enabled(now, Run(t, step)) && IsPlain(step)
    ensures StepEnabled(side.h.pc, step)
    ensures Shows(s, Next(cfg, now, Run(t, step)), t, id, Onwards(cfg, side, step))
  {
    hide Turn, Perform, LoopNext, Linked, Directs, AsDirects;
    var h, e := StepOfHandler(cfg, now, t, step);
    PlainTurn(cfg, side.h, side.c, step);
    var next := Perform(now, t, h, e);
    OthersUntouched(now, t, h, e);
    OwnOutbox(now, t, h, e, id);
    HandlerKeepsSafe(cfg, now, t, step);
    StillHolds(now, next, t, id);
    EffectShows(s, now, next, t, id, side, h, e);
  }

  // ----- The other threads' steps -----

  /** What another handler does adds no reply to slot `id`, and nothing at all while a guest is in it. */
  lemma OtherOutbox(s: State, u: nat, h: Handler, e: Effect, other: int, id: int)
    requires Safe(s) && Holds(s, u, other) && 0 <= id < MAX_CLIENTS && other != id && View(s)[id] != Empty
    ensures var after := Perform(s, u, h, e).outbox[id];
      && Directs(after) == Directs(s.outbox[id])
      && (View(s)[id] == Guest ==> after == s.outbox[id])
  {
    NotDangling(s);
    var after := Perform(s, u, h, e).outbox[id];
    if after != s.outbox[id] {
      DirectsLonger(s.outbox[id], after[|s.outbox[id]|]);
    }
  }

  /** A handler whose client has been removed is alone with it. */
  lemma RemovedOutbox(s: State, u: nat, h: Handler)
    requires u < |s.handlers| && s.handlers[u].ptr in s.heap
    ensures Perform(s, u, h, FreeClient).outbox == s.outbox
  {
  }

  lemma SideStays(s: State, now: State, next: State, t: nat, id: int, side: Side)
    requires Shows(s, now, t, id, side) && Holds(next, t, id) && |next.outbox| == |now.outbox|
    requires next.handlers[t] == now.handlers[t] && next.heap[side.h.ptr] == now.heap[side.h.ptr]
    requires Directs(next.outbox[id]) == Directs(now.outbox[id])
    requires !side.c.authenticated ==> next.outbox[id] == now.outbox[id]
    ensures Shows(s, next, t, id, side)
  {
  }

  lemma OtherStepShows(cfg: Config, s: State, now: State, t: nat, id: int, side: Side, u: nat, step: Step)
    requires |s.outbox| == MAX_CLIENTS && Safe(now) && Shows(s, now, t, id, side) && Registers(side.h.pc)
    requires Enabled(now, Run(u, step)) && u != t
    ensures Shows(s, Next(cfg, now, Run(u, step)), t, id, side)
  {
    hide Turn, Perform, LoopNext, Linked, Directs;
    var h, e := StepOfHandler(cfg, now, u, step);
    var next := Perform(now, u, h, e);
    OthersUntouched(now, u, h, e);
    OwnSlot(now, t);
    HandlerKeepsSafe(cfg, now, u, step);
    OwnSlot(next, t);
    if e.FreeClient? {
      RemovedOutbox(now, u, h);
    } else {
      var other := HoldsItsSlot(now, u);
      OtherOutbox(now, u, h, e, other, id);
    }
    SideStays(s, now, next, t, id, side);
  }

  lemma LoopStepShows(cfg: Config, s: State, now: State, t: nat, id: int, side: Side, a: Action)
    requires |s.outbox| == MAX_CLIENTS && Safe(now) && Shows(s, now, t, id, side) && Registers(side.h.pc)
    requires Enabled(now, a) && !a.Run?
    ensures Shows(s, Next(cfg, now, a), t, id, side)
  {
    hide TurnOf, Perform, Linked, Directs;
    OwnSlot(now, t);
    var next := Next(cfg, now, a);
    StepKeepsSafe(cfg, now, a);
    LoopLeavesHandlers(cfg, now, a, t);
    OwnSlot(next, t);
    SideStays(s, now, next, t, id, side);
  }

  lemma LoopLeavesHandlers(cfg: Config, s: State, a: Action, t: nat)
    requires Linked(s) && Enabled(s, a) && !a.Run? && t < |s.handlers| && !s.handlers[t].pc.Finished?
    ensures var s' := Next(cfg, s, a); var p := s.handlers[t].ptr;
      && t < |s'.handlers| && s'.handlers[t] == s.handlers[t] && s'.outbox == s.outbox
      && p in s.heap && p in s'.heap && s'.heap[p] == s.heap[p]
  {
    hide TurnOf, Perform;
    assert HandlerOk(s, t);
  }

  // ----- Every interleaving -----

  lemma StepOfOthers(cfg: Config, s: State, now: State, t: nat, id: int, side: Side, a: Action)
    requires |s.outbox| == MAX_CLIENTS && Safe(now) && Shows(s, now, t, id, side) && Registers(side.h.pc)
    requires Enabled(now, a) && !(a.Run? && a.t == t)
    ensures Shows(s, Next(cfg, now, a), t, id, side)
  {
    hide Next, Shows, Safe;
    if a.Run? {
      OtherStepShows(cfg, s, now, t, id, side, a.t, a.step);
    } else {
      LoopStepShows(cfg, s, now, t, id, side, a);
    }
  }

  lemma PlainKeepsRegistered(cfg: Config, side: Side, step: Step)
    requires StepEnabled(side.h.pc, step) && IsPlain(step)
    ensures Registers(side.h.pc) && Registers(Onwards(cfg, side, step).h.pc)
  {
    hide Ascii, CutLine, Take, ParseCommand, Matches, ActTurn;
  }

  predicate AllPlain(steps: seq<Step>) {
    forall i :: 0 <= i < |steps| ==> IsPlain(steps[i])
  }

  /** Whatever the other threads do, the handler's own steps decide its side. */
  lemma {:induction false} OwnStepsDecide(cfg: Config, s: State, now: State, run: seq<Action>, t: nat, id: int,
                                            side: Side)
    requires |s.outbox| == MAX_CLIENTS && Safe(now) && Shows(s, now, t, id, side) && Registers(side.h.pc)
    requires ValidRun(cfg, now, run) && AllPlain(StepsOf(run, t))
    ensures Follows(cfg, side, StepsOf(run, t))
    ensures Shows(s, Exec(cfg, now, run), t, id, AfterSteps(cfg, side, StepsOf(run, t)))
    decreases |run|
  {
    hide Next, Shows, Safe, Onwards;
    if run != [] {
      var a := run[0];
      var next := Next(cfg, now, a);
      StepKeepsSafe(cfg, now, a);
      if a.Run? && a.t == t {
        var steps := StepsOf(run, t);
        assert steps[0] == a.step && steps[1..] == StepsOf(run[1..], t);
        assert IsPlain(steps[0]) && forall i :: 0 <= i < |steps[1..]| ==> steps[1..][i] == steps[i + 1];
        OwnStepShows(cfg, s, now, t, id, side, a.step);
        PlainKeepsRegistered(cfg, side, a.step);
        OwnStepsDecide(cfg, s, next, run[1..], t, id, Onwards(cfg, side, a.step));
      } else {
        StepOfOthers(cfg, s, now, t, id, side, a);
        OwnStepsDecide(cfg, s, next, run[1..], t, id, side);
      }
    }
  }

  // ----- The login -----

  /** The hash of the password was computed, and an account has the name and that hash. */
  predicate Passes(cfg: Config, name: Bytes, password: Bytes, hashed: bool) {
    hashed && exists account :: account in cfg.db && account.name == name && account.hash == cfg.md5(password)
  }

  /** The handler receives two chunks and checks them. */
  function Login(name: Bytes, password: Bytes, hashed: bool): (steps: seq<Step>)
    ensures |steps| == 3
  {
    [RecvName(Some(name)), RecvPassword(Some(password)), Check(hashed)]
  }

  function Prompts(): seq<Bytes> {
    [Ascii("USERNAME: "), Ascii("PASSWORD: ")]
  }

  /** The handler after the check. */
  function Checked(cfg: Config, h: Handler, name: Bytes, password: Bytes, hashed: bool): Handler {
    Handler(h.ptr, if Passes(cfg, name, password, hashed) then Admitted else Rejected, name, password)
  }

  lemma ReceiveTurns(cfg: Config, side: Side, name: Bytes, ending: Bytes, password: Bytes, ending': Bytes)
    requires side.h.pc.AskName? && Line(name) && Tail(ending) && Line(password) && Tail(ending')
    requires 0 < |name + ending| <= 31 && 0 < |password + ending'| <= 31
    ensures var asked := Side(side.h.(username := name, pc := AskPassword), side.c, side.told + [Ascii("USERNAME: ")]);
      && StepEnabled(side.h.pc, RecvName(Some(name + ending)))
      && Onwards(cfg, side, RecvName(Some(name + ending))) == asked
      && StepEnabled(asked.h.pc, RecvPassword(Some(password + ending')))
      && Onwards(cfg, asked, RecvPassword(Some(password + ending')))
      == Side(asked.h.(password := password, pc := Checking), side.c, asked.told + [Ascii("PASSWORD: ")])
  {
    hide Ascii, CutLine, Take, ParseCommand, Matches, ActTurn;
    CutOff(name, ending);
    CutOff(password, ending');
  }

  lemma CheckTurn(cfg: Config, side: Side, hashed: bool)
    requires side.h.pc.Checking?
    ensures Onwards(cfg, side, Check(hashed))
         == side.(h := Checked(cfg, side.h, side.h.username, side.h.password, hashed))
  {
    hide Ascii, CutLine, Take, ParseCommand, ActTurn;
    if account :| account in cfg.db && account.name == side.h.username && account.hash == cfg.md5(side.h.password) {
      assert account == Account(side.h.username, cfg.md5(side.h.password));
    }
  }

  lemma RejectTurn(cfg: Config, side: Side)
    requires side.h.pc.Rejected?
    ensures Onwards(cfg, side, Reject)
         == Side(side.h.(pc := Leaving), side.c, side.told + [Ascii("AUTH_FAILED\n")])
  {
    hide Ascii, CutLine, Take, ParseCommand, ActTurn, Matches;
  }

  lemma AdmitTurns(cfg: Config, side: Side)
    requires side.h.pc.Admitted? && |side.h.username| < 32
    ensures var named := Side(side.h.(pc := Named), side.c.(username := side.h.username), side.told);
      var flagged := Side(side.h.(pc := Greeting), named.c.(authenticated := true), side.told);
      && Onwards(cfg, side, CopyName) == named && Onwards(cfg, named, SetAuthenticated) == flagged
      && Onwards(cfg, flagged, Greet)
      == Side(side.h.(pc := Announcing), flagged.c, side.told + [Ascii("AUTH_SUCCESS\n")])
  {
    hide Ascii, CutLine, ParseCommand, ActTurn, Matches;
  }

  lemma FollowsOne(cfg: Config, side: Side, step: Step)
    requires StepEnabled(side.h.pc, step) && IsPlain(step)
    ensures Follows(cfg, side, [step]) && AfterSteps(cfg, side, [step]) == Onwards(cfg, side, step)
  {
    hide Onwards;
    assert [step][1..] == [];
    assert Follows(cfg, Onwards(cfg, side, step), []);
  }

  lemma {:induction false} FollowsConcat(cfg: Config, side: Side, a: seq<Step>, b: seq<Step>)
    requires Follows(cfg, side, a)
    ensures Follows(cfg, side, a + b) <==> Follows(cfg, AfterSteps(cfg, side, a), b)
    ensures Follows(cfg, side, a + b) ==> AfterSteps(cfg, side, a + b) == AfterSteps(cfg, AfterSteps(cfg, side, a), b)
    decreases |a|
  {
    hide Onwards;
    if a == [] {
      assert a + b == b;
    } else {
      assert (a + b)[1..] == a[1..] + b;
      FollowsConcat(cfg, Onwards(cfg, side, a[0]), a[1..], b);
    }
  }

  /** The side after the login steps. */
  lemma LoginSide(cfg: Config, side: Side, name: Bytes, ending: Bytes, password: Bytes, ending': Bytes, hashed: bool)
    requires side.h.pc.AskName? && Line(name) && Tail(ending) && Line(password) && Tail(ending')
    requires 0 < |name + ending| <= 31 && 0 < |password + ending'| <= 31
    ensures Follows(cfg, side, Login(name + ending, password + ending', hashed))
    ensures AfterSteps(cfg, side, Login(name + ending, password + ending', hashed))
         == Side(Checked(cfg, side.h, name, password, hashed), side.c, side.told + Prompts())
  {
    hide Onwards, Ascii;
    var steps := Login(name + ending, password + ending', hashed);
    var first, second := steps[0], steps[1];
    ReceiveTurns(cfg, side, name, ending, password, ending');
    var asked := Onwards(cfg, side, first);
    var given := Onwards(cfg, asked, second);
    CheckTurn(cfg, given, hashed);
    assert steps[1..] == [second, steps[2]] && [second, steps[2]][1..] == [steps[2]];
    FollowsOne(cfg, given, steps[2]);
    assert side.told + [Ascii("USERNAME: ")] + [Ascii("PASSWORD: ")] == side.told + Prompts();
  }

  /** What a handler does after the check. */
  function Verdict(admits: bool): (steps: seq<Step>)
    ensures steps != []
  {
    if admits then [CopyName, SetAuthenticated, Greet] else [Reject]
  }

  function VerdictLine(passes: bool): Bytes {
    if passes then Ascii("AUTH_SUCCESS\n") else Ascii("AUTH_FAILED\n")
  }

  /** The side after the verdict on a login with `name`. */
  function Judged(side: Side, name: Bytes, passes: bool): Side {
    Side(side.h.(pc := if passes then Announcing else Leaving),
         if passes then side.c.(username := name, authenticated := true) else side.c,
         side.told + [VerdictLine(passes)])
  }

  lemma AdmitSide(cfg: Config, side: Side)
    requires side.h.pc.Admitted? && |side.h.username| < 32
    ensures Follows(cfg, side, Verdict(true))
    ensures AfterSteps(cfg, side, Verdict(true)) == Judged(side, side.h.username, true)
  {
    hide Onwards, Ascii;
    AdmitTurns(cfg, side);
    var named := Onwards(cfg, side, CopyName);
    var flagged := Onwards(cfg, named, SetAuthenticated);
    assert Verdict(true)[1..] == [SetAuthenticated, Greet] && [SetAuthenticated, Greet][1..] == [Greet];
    FollowsOne(cfg, flagged, Greet);
  }

  lemma RejectSide(cfg: Config, side: Side)
    requires side.h.pc.Rejected?
    ensures Follows(cfg, side, Verdict(false))
    ensures AfterSteps(cfg, side, Verdict(false)) == Judged(side, side.h.username, false)
  {
    hide Onwards, Ascii;
    RejectTurn(cfg, side);
    FollowsOne(cfg, side, Reject);
  }

  /** The side after a whole login: the steps that follow the check are those of the verdict. */
  lemma JudgedSide(cfg: Config, side: Side, name: Bytes, passes: bool, admits: bool)
    requires side.h.pc == (if passes then Admitted else Rejected) && side.h.username == name && |name| < 32
    ensures Follows(cfg, side, Verdict(admits)) <==> admits == passes
    ensures admits == passes ==> AfterSteps(cfg, side, Verdict(admits)) == Judged(side, name, passes)
  {
    hide Onwards, Ascii, AfterSteps, Judged;
    if passes {
      AdmitSide(cfg, side);
    } else {
      RejectSide(cfg, side);
    }
  }

  /** A handler that asks for a name, seen from here on. */
  lemma FreshSide(cfg: Config, s: State, t: nat) returns (id: int, side: Side)
    requires Reachable(cfg, s) && t < |s.handlers| && s.handlers[t].pc.AskName?
    ensures |s.outbox| == MAX_CLIENTS && Safe(s) && Holds(s, t, id)
    ensures Shows(s, s, t, id, side) && side.h == s.handlers[t] && side.told == [] && !side.c.authenticated
  {
    hide Reachable, Linked;
    ReachableFacts(cfg, s);
    id := HoldsItsSlot(s, t);
    assert LoginOk(cfg, s, t);
    side := Side(s.handlers[t], s.heap[s.handlers[t].ptr], []);
    assert Directs(s.outbox[id]) + [] == Directs(s.outbox[id]);
    assert s.outbox[id] + AsDirects([]) == s.outbox[id];
  }

  /** A login, sent in two chunks with or without line ends and whatever the other threads do meanwhile: the
      handler then has the name and the password as they were typed, and admits its client exactly when the hash
      was computed and an account has both; until then the client has been sent the two prompts and nothing else. */
  lemma LoginIsChecked(cfg: Config, s: State, run: seq<Action>, t: nat, name: Bytes, ending: Bytes, password: Bytes,
                       ending': Bytes, hashed: bool)
    returns (id: int)
    requires Reachable(cfg, s) && t < |s.handlers| && s.handlers[t].pc.AskName? && ValidRun(cfg, s, run)
    requires Line(name) && Tail(ending) && Line(password) && Tail(ending')
    requires 0 < |name + ending| <= 31 && 0 < |password + ending'| <= 31
    requires StepsOf(run, t) == Login(name + ending, password + ending', hashed)
    ensures var s' := Exec(cfg, s, run); var pc := if Passes(cfg, name, password, hashed) then Admitted else Rejected;
      && Holds(s, t, id) && Holds(s', t, id) && !IsUser(s', id)
      && s'.handlers[t] == Handler(s.handlers[t].ptr, pc, name, password)
      && s'.outbox[id] == s.outbox[id] + [Direct(Ascii("USERNAME: ")), Direct(Ascii("PASSWORD: "))]
  {
    hide Reachable, Safe, Exec, ValidRun, Next, Ascii, Follows, AfterSteps, Passes;
    var side;
    id, side := FreshSide(cfg, s, t);
    OwnStepsDecide(cfg, s, s, run, t, id, side);
    LoginSide(cfg, side, name, ending, password, ending', hashed);
    assert [] + Prompts() == Prompts();
    assert AsDirects(Prompts()) == [Direct(Ascii("USERNAME: ")), Direct(Ascii("PASSWORD: "))];
  }

  /** The verdict: after the prompts the next reply is AUTH_SUCCESS exactly when the login passes, and then the slot
      shows a user with the name; otherwise it is AUTH_FAILED, and the client has been sent nothing but the three. */
  lemma LoginIsAnswered(cfg: Config, s: State, run: seq<Action>, t: nat, name: Bytes, ending: Bytes, password: Bytes,
                        ending': Bytes, hashed: bool, admits: bool)
    returns (id: int)
    requires Reachable(cfg, s) && t < |s.handlers| && s.handlers[t].pc.AskName? && ValidRun(cfg, s, run)
    requires Line(name) && Tail(ending) && Line(password) && Tail(ending')
    requires 0 < |name + ending| <= 31 && 0 < |password + ending'| <= 31
    requires StepsOf(run, t) == Login(name + ending, password + ending', hashed) + Verdict(admits)
    ensures Holds(s, t, id) && Holds(Exec(cfg, s, run), t, id) && (admits <==> Passes(cfg, name, password, hashed))
    ensures var s' := Exec(cfg, s, run);
      var verdict := if admits then Ascii("AUTH_SUCCESS\n") else Ascii("AUTH_FAILED\n");
      var lines := [Ascii("USERNAME: "), Ascii("PASSWORD: "), verdict];
      && Directs(s'.outbox[id]) == Directs(s.outbox[id]) + lines
      && (admits ==> UserAt(s', id, name) && s'.handlers[t].pc == Announcing)
      && (!admits ==>
            && !IsUser(s', id) && s'.handlers[t].pc == Leaving
            && s'.outbox[id] == s.outbox[id] + AsDirects(lines))
  {
    hide Reachable, Safe, Exec, ValidRun, Next, Ascii, Follows, AfterSteps, Passes, Verdict;
    var side;
    id, side := FreshSide(cfg, s, t);
    var steps := Login(name + ending, password + ending', hashed);
    VerdictIsPlain(name + ending, password + ending', hashed, admits);
    OwnStepsDecide(cfg, s, s, run, t, id, side);
    LoginSide(cfg, side, name, ending, password, ending', hashed);
    FollowsConcat(cfg, side, steps, Verdict(admits));
    var checked := AfterSteps(cfg, side, steps);
    JudgedSide(cfg, checked, name, Passes(cfg, name, password, hashed), admits);
    assert [] + Prompts() == Prompts();
    assert Prompts() + [VerdictLine(admits)] == [Ascii("USERNAME: "), Ascii("PASSWORD: "), VerdictLine(admits)];
  }

  lemma VerdictIsPlain(name: Bytes, password: Bytes, hashed: bool, admits: bool)
    ensures AllPlain(Login(name, password, hashed) + Verdict(admits))
  {
  }

  // ----- The login can take place -----

  function Solo(t: nat, steps: seq<Step>): (run: seq<Action>)
    ensures |run| == |steps|
  {
    seq(|steps|, i requires 0 <= i < |steps| => Run(t, steps[i]))
  }

  /** A handler can take the steps that follow from its own side, with nobody in between. */
  lemma {:induction false} SoloRun(cfg: Config, s: State, now: State, t: nat, id: int, side: Side, steps: seq<Step>)
    requires |s.outbox| == MAX_CLIENTS && Safe(now) && Shows(s, now, t, id, side) && Follows(cfg, side, steps)
    ensures ValidRun(cfg, now, Solo(t, steps)) && StepsOf(Solo(t, steps), t) == steps
    decreases |steps|
  {
    hide Next, Linked, Onwards;
    if steps != [] {
      var run := Solo(t, steps);
      assert run[0] == Run(t, steps[0]) && run[1..] == Solo(t, steps[1..]);
      OwnStepShows(cfg, s, now, t, id, side, steps[0]);
      StepKeepsSafe(cfg, now, run[0]);
      SoloRun(cfg, s, Next(cfg, now, run[0]), t, id, Onwards(cfg, side, steps[0]), steps[1..]);
    }
  }

  /** Every handler that asks for a name can receive any two fitting chunks, check them and answer. */
  lemma LoginCanTakePlace(cfg: Config, s: State, t: nat, name: Bytes, ending: Bytes, password: Bytes, ending': Bytes,
                          hashed: bool)
    requires Reachable(cfg, s) && t < |s.handlers| && s.handlers[t].pc.AskName?
    requires Line(name) && Tail(ending) && Line(password) && Tail(ending')
    requires 0 < |name + ending| <= 31 && 0 < |password + ending'| <= 31
    ensures var passes := Passes(cfg, name, password, hashed);
      var steps := Login(name + ending, password + ending', hashed) + Verdict(passes);
      ValidRun(cfg, s, Solo(t, steps)) && StepsOf(Solo(t, steps), t) == steps
  {
    hide Reachable, Safe, Exec, ValidRun, Next, Ascii, Follows, AfterSteps, Passes, Verdict, StepsOf;
    var id, side := FreshSide(cfg, s, t);
    var steps, passes := Login(name + ending, password + ending', hashed), Passes(cfg, name, password, hashed);
    LoginSide(cfg, side, name, ending, password, ending', hashed);
    JudgedSide(cfg, AfterSteps(cfg, side, steps), name, passes, passes);
    FollowsConcat(cfg, side, steps, Verdict(passes));
    SoloRun(cfg, s, s, t, id, side, steps + Verdict(passes));
  }
}
