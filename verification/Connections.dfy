/** How a connection to the server begins and ends: announcements, hang-ups, the cleanup of a handler, and
    connections that never get a handler. */
module Connections {
  import opened Bytes
  import opened ChatServer
  import opened Commands
  import opened Logins
  import opened Protocol
  import opened Room
  import opened SlotSafety

  // ----- Announcing a user -----

  lemma AnnouncingTurn(cfg: Config, h: Handler, c: Client, found: bool)
    requires h.pc.Announcing?
    ensures Turn(cfg, h, c, Announce, found) == (h.(pc := Chatting), ToAll(h.username, Joins))
  {
    hide Ascii, CutLine, Take, ParseCommand, ActTurn;
  }

  lemma NewsLines(name: Bytes)
    requires |name| < 32
    ensures SpokenLine(name, Joins) == Ascii("[SERVER] ") + name + Ascii(" has joined the chat\n")
    ensures SpokenLine(name, Leaves) == Ascii("[SERVER] ") + name + Ascii(" has left the chat\n")
  {
  }

  /** A handler announces its user to every other user and to nobody else, and then chats. */
  lemma UserIsAnnounced(cfg: Config, s: State, t: nat) returns (id: int)
    requires Reachable(cfg, s) && t < |s.handlers| && s.handlers[t].pc.Announcing?
    ensures Enabled(s, Run(t, Announce)) && Holds(s, t, id) && UserAt(s, id, NameOf(s, t))
    ensures SentToOthers(At(s, t, s.handlers[t].(pc := Chatting)), Next(cfg, s, Run(t, Announce)), id,
      Heard(id, Ascii("[SERVER] ") + NameOf(s, t) + Ascii(" has joined the chat\n")), Entry(t, id, NameOf(s, t), Joins))
  {
    hide Turn, Perform, LoopNext, Ascii, SpokenLine, Reachable, Vetted, Linked;
    ReachableFacts(cfg, s);
    id := SpeakerFacts(cfg, s, t);
    var h, e := StepOfHandler(cfg, s, t, Announce);
    AnnouncingTurn(cfg, s.handlers[t], s.heap[s.handlers[t].ptr], false);
    ToAllSends(s, t, h, NameOf(s, t), Joins, id);
    NewsLines(NameOf(s, t));
  }

  // ----- Hanging up -----

  lemma HangUpTurns(cfg: Config, h: Handler, c: Client, found: bool)
    ensures h.pc.AskName? ==>
      Turn(cfg, h, c, RecvName(None), found) == (h.(pc := Leaving), Tell(Ascii("USERNAME: ")))
    ensures h.pc.AskPassword? ==>
      Turn(cfg, h, c, RecvPassword(None), found) == (h.(pc := Leaving), Tell(Ascii("PASSWORD: ")))
    ensures h.pc.Chatting? ==> Turn(cfg, h, c, Recv(None), found) == (h.(pc := Leaving), NoEffect)
  {
    hide Ascii, CutLine, Take, ParseCommand, ActTurn;
  }

  /** The receive with which a handler notices that its peer has hung up. */
  function LastReceive(pc: Pc): Step
    requires pc.AskName? || pc.AskPassword? || pc.Chatting?
  {
    if pc.AskName? then RecvName(None) else if pc.AskPassword? then RecvPassword(None) else Recv(None)
  }

  /** Wherever a handler waits for its peer, a hang-up sends it to the cleanup; the prompt before it is sent. */
  lemma HangUpLeaves(cfg: Config, s: State, t: nat) returns (id: int)
    requires Reachable(cfg, s) && t < |s.handlers|
    requires s.handlers[t].pc.AskName? || s.handlers[t].pc.AskPassword? || s.handlers[t].pc.Chatting?
    ensures var a := Run(t, LastReceive(s.handlers[t].pc)); var left := At(s, t, s.handlers[t].(pc := Leaving));
      && Holds(s, t, id) && Enabled(s, a)
      && Next(cfg, s, a) == match s.handlers[t].pc
        case AskName => Sent(left, id, Direct(Ascii("USERNAME: ")))
        case AskPassword => Sent(left, id, Direct(Ascii("PASSWORD: ")))
        case _ => left
  {
    hide Turn, LoopNext, Ascii, Reachable, Vetted, Linked;
    ReachableFacts(cfg, s);
    id := HoldsItsSlot(s, t);
    var h, e := StepOfHandler(cfg, s, t, LastReceive(s.handlers[t].pc));
    HangUpTurns(cfg, s.handlers[t], s.heap[s.handlers[t].ptr], false);
  }

  // ----- The cleanup -----

  lemma DepartTurns(cfg: Config, h: Handler, c: Client, found: bool)
    ensures h.pc.Leaving? ==>
      Turn(cfg, h, c, Depart, found)
      == (h.(pc := Closing), if c.authenticated then ToAll(c.username, Leaves) else NoEffect)
    ensures h.pc.Closing? ==> Turn(cfg, h, c, Close, found) == (h.(pc := Removing), CloseSocket)
  {
    hide Ascii, CutLine, Take, ParseCommand, ActTurn;
  }

  lemma RemoveTurns(cfg: Config, h: Handler, c: Client, found: bool)
    ensures h.pc.Removing? ==> Turn(cfg, h, c, Remove, found) == (h.(pc := Freeing), ClearSlot)
    ensures h.pc.Freeing? ==> Turn(cfg, h, c, Free, found) == (h.(pc := Finished), FreeClient)
  {
    hide Ascii, CutLine, Take, ParseCommand, ActTurn;
  }

  /** The departure of a user has been sent to the other users; that of a guest to nobody. */
  ghost predicate DepartureSent(s: State, s': State, t: nat, id: int) {
    && t < |s.handlers| && s.handlers[t].ptr in s.heap
    && var c := s.heap[s.handlers[t].ptr];
       if c.authenticated then
         SentToOthers(s, s', id, Heard(id, Ascii("[SERVER] ") + c.username + Ascii(" has left the chat\n")),
                      Entry(t, id, c.username, Leaves))
       else s' == s
  }

  lemma DepartStep(cfg: Config, s: State, t: nat, id: int)
    requires Safe(s) && Vetted(cfg, s) && Holds(s, t, id) && s.handlers[t].pc.Leaving?
    ensures Enabled(s, Run(t, Depart))
    ensures DepartureSent(At(s, t, s.handlers[t].(pc := Closing)), Next(cfg, s, Run(t, Depart)), t, id)
  {
    hide Turn, Perform, LoopNext, Ascii, SpokenLine, Linked;
    var h, e := StepOfHandler(cfg, s, t, Depart);
    var c := s.heap[s.handlers[t].ptr];
    DepartTurns(cfg, s.handlers[t], c, false);
    assert LoginOk(cfg, s, t);
    if c.authenticated {
      ToAllSends(s, t, h, c.username, Leaves, id);
      NewsLines(c.username);
    } else {
      NothingPerformed(s, t, h);
    }
  }

  lemma NothingPerformed(s: State, t: nat, h: Handler)
    requires t < |s.handlers| && s.handlers[t].ptr in s.heap
    ensures Perform(s, t, h, NoEffect) == At(s, t, h)
  {
  }

  lemma CloseStep(cfg: Config, s: State, t: nat, id: int)
    requires Safe(s) && Holds(s, t, id) && s.handlers[t].pc.Closing?
    ensures Enabled(s, Run(t, Close))
    ensures Next(cfg, s, Run(t, Close))
         == At(s, t, s.handlers[t].(pc := Removing)).(open := s.open - {s.heap[s.handlers[t].ptr].fd})
  {
    hide Turn, LoopNext, Linked;
    var h, e := StepOfHandler(cfg, s, t, Close);
    DepartTurns(cfg, s.handlers[t], s.heap[s.handlers[t].ptr], false);
  }

  lemma RemoveStep(cfg: Config, s: State, t: nat, id: int)
    requires Safe(s) && Holds(s, t, id) && s.handlers[t].pc.Removing?
    ensures Enabled(s, Run(t, Remove))
    ensures Next(cfg, s, Run(t, Remove)) == At(s, t, s.handlers[t].(pc := Freeing)).(
      slots := s.slots[id := None], clientCount := s.clientCount - 1)
  {
    hide Turn, LoopNext, Linked;
    var h, e := StepOfHandler(cfg, s, t, Remove);
    RemoveTurns(cfg, s.handlers[t], s.heap[s.handlers[t].ptr], false);
  }

  lemma FreeStep(cfg: Config, s: State, t: nat)
    requires Safe(s) && t < |s.handlers| && s.handlers[t].pc.Freeing?
    ensures Enabled(s, Run(t, Free))
    ensures Next(cfg, s, Run(t, Free))
         == At(s, t, s.handlers[t].(pc := Finished)).(heap := s.heap - {s.handlers[t].ptr})
  {
    hide Turn, LoopNext, Linked;
    var h, e := StepOfHandler(cfg, s, t, Free);
    RemoveTurns(cfg, s.handlers[t], s.heap[s.handlers[t].ptr], false);
  }

  function Cleanup(t: nat): seq<Action> {
    [Run(t, Depart), Run(t, Close)] + [Run(t, Remove), Run(t, Free)]
  }

  lemma {:induction false} RunsConcat(cfg: Config, s: State, first: seq<Action>, second: seq<Action>)
    requires ValidRun(cfg, s, first) && ValidRun(cfg, Exec(cfg, s, first), second)
    ensures ValidRun(cfg, s, first + second)
    ensures Exec(cfg, s, first + second) == Exec(cfg, Exec(cfg, s, first), second)
    decreases |first|
  {
    hide Next;
    if first == [] {
      assert first + second == second;
    } else {
      assert (first + second)[1..] == first[1..] + second;
      RunsConcat(cfg, Next(cfg, s, first[0]), first[1..], second);
    }
  }

  /** The state without the client of handler `t`. */
  function Without(s: State, t: nat, id: int): State
    requires Holds(s, t, id)
  {
    var p := s.handlers[t].ptr;
    s.(slots := s.slots[id := None], clientCount := s.clientCount - 1, heap := s.heap - {p},
       open := s.open - {s.heap[p].fd}, handlers := s.handlers[t := s.handlers[t].(pc := Finished)])
  }

  /** The first half of the cleanup: the departure is announced and the socket closed. */
  lemma DepartAndClose(cfg: Config, s: State, t: nat, id: int) returns (gone: State)
    requires Safe(s) && Vetted(cfg, s) && Holds(s, t, id) && s.handlers[t].pc.Leaving?
    ensures ValidRun(cfg, s, [Run(t, Depart), Run(t, Close)]) && DepartureSent(s, gone, t, id)
    ensures var now := Exec(cfg, s, [Run(t, Depart), Run(t, Close)]);
      && Safe(now) && Holds(now, t, id)
      && now == At(gone, t, s.handlers[t].(pc := Removing)).(open := s.open - {s.heap[s.handlers[t].ptr].fd})
  {
    hide Next, Exec, ValidRun, Vetted, Linked, Ascii, IsUser;
    var p := s.handlers[t].ptr;
    DepartStep(cfg, s, t, id);
    var s1 := Next(cfg, s, Run(t, Depart));
    gone := s1.(handlers := s.handlers);
    StepKeepsSafe(cfg, s, Run(t, Depart));
    CloseStep(cfg, s1, t, id);
    StepKeepsSafe(cfg, s1, Run(t, Close));
    RunOfTwo(cfg, s, Run(t, Depart), Run(t, Close));
    SameUsers(s, t, s.handlers[t].(pc := Closing));
    assert s.handlers[t := s.handlers[t].(pc := Closing)][t := s.handlers[t].(pc := Removing)]
        == s.handlers[t := s.handlers[t].(pc := Removing)];
  }

  lemma SameUsers(s: State, t: nat, h: Handler)
    requires t < |s.handlers|
    ensures forall k :: IsUser(At(s, t, h), k) <==> IsUser(s, k)
  {
  }

  lemma RemoveAndFree(cfg: Config, s: State, t: nat, id: int)
    requires Safe(s) && Holds(s, t, id) && s.handlers[t].pc.Removing?
    ensures ValidRun(cfg, s, [Run(t, Remove), Run(t, Free)])
    ensures Exec(cfg, s, [Run(t, Remove), Run(t, Free)])
         == Without(s, t, id).(open := s.open)
  {
    hide Next, Exec, ValidRun, Linked;
    RemoveStep(cfg, s, t, id);
    var s1 := Next(cfg, s, Run(t, Remove));
    StepKeepsSafe(cfg, s, Run(t, Remove));
    FreeStep(cfg, s1, t);
    RunOfTwo(cfg, s, Run(t, Remove), Run(t, Free));
    assert s.handlers[t := s.handlers[t].(pc := Freeing)][t := s.handlers[t].(pc := Finished)]
        == s.handlers[t := s.handlers[t].(pc := Finished)];
  }

  /** The cleanup of a handler announces its user's departure to every other user, or a guest's to nobody; it
      closes the one socket, clears the one slot, frees the one client, and leaves everything else as it was. */
  lemma CleanupRemovesItsOwn(cfg: Config, s: State, t: nat) returns (id: int, gone: State)
    requires Reachable(cfg, s) && t < |s.handlers| && s.handlers[t].pc.Leaving?
    ensures Holds(s, t, id) && DepartureSent(s, gone, t, id) && Holds(gone, t, id)
    ensures ValidRun(cfg, s, Cleanup(t)) && Exec(cfg, s, Cleanup(t)) == Without(gone, t, id)
  {
    hide Next, Exec, ValidRun, Vetted, Linked, Ascii, IsUser, Reachable;
    ReachableFacts(cfg, s);
    id := HoldsItsSlot(s, t);
    gone := DepartAndClose(cfg, s, t, id);
    var now := Exec(cfg, s, [Run(t, Depart), Run(t, Close)]);
    RemoveAndFree(cfg, now, t, id);
    RunsConcat(cfg, s, [Run(t, Depart), Run(t, Close)], [Run(t, Remove), Run(t, Free)]);
    assert s.handlers[t := s.handlers[t].(pc := Removing)][t := s.handlers[t].(pc := Finished)]
        == s.handlers[t := s.handlers[t].(pc := Finished)];
  }

  // ----- Connections without a handler -----

  lemma OpenAndDiscard(s: State, p: Ptr, fd: Fd, c: Client)
    requires p !in s.heap && fd !in s.open
    ensures s.heap[p := c] - {p} == s.heap && s.open + {fd} - {fd} == s.open
  {
  }

  /** A connection that finds the table full is closed and freed, and leaves no trace. */
  lemma RefusedLeavesNoTrace(cfg: Config, s: State, p: Ptr, fd: Fd, id: int, username: Bytes)
    requires Reachable(cfg, s) && s.acceptor.Accepting? && p !in s.heap && fd !in s.open
    requires forall k :: 0 <= k < |s.slots| ==> s.slots[k].Some?
    ensures var run := [Accept(p, fd, id, username), Loop(Add), Loop(Refuse)];
      ValidRun(cfg, s, run) && Exec(cfg, s, run) == s
  {
    hide TurnOf, Perform, Reachable, Vetted, Linked, Exec, ValidRun;
    ReachableFacts(cfg, s);
    var a := Accept(p, fd, id, username);
    var s1 := Next(cfg, s, a);
    AcceptKeepsSafe(cfg, s, a);
    assert FirstEmpty(View(s1)) < 0 by {
      assert forall k :: 0 <= k < |View(s1)| ==> View(s1)[k] != Empty;
    }
    var s2 := Next(cfg, s1, Loop(Add));
    RunOfThree(cfg, s, a, Loop(Add), Loop(Refuse));
    OpenAndDiscard(s, p, fd, Client(fd, id, username, false, Acceptor));
  }

  /** What a connection without a thread goes through. */
  function Abandoned(p: Ptr, fd: Fd, id: int, username: Bytes): seq<Action> {
    [Accept(p, fd, id, username), Loop(Add), Loop(Spawn(false))] + [Loop(Unregister), Loop(GiveUp)]
  }

  /** So does a connection whose thread cannot be created: its slot is cleared again. */
  lemma AbandonedLeavesNoTrace(cfg: Config, s: State, p: Ptr, fd: Fd, id: int, username: Bytes)
    requires Reachable(cfg, s) && s.acceptor.Accepting? && p !in s.heap && fd !in s.open
    requires exists k :: 0 <= k < |s.slots| && s.slots[k].None?
    ensures ValidRun(cfg, s, Abandoned(p, fd, id, username)) && Exec(cfg, s, Abandoned(p, fd, id, username)) == s
  {
    hide TurnOf, Perform, Reachable, Vetted, Linked, Exec, ValidRun;
    ReachableFacts(cfg, s);
    var a := Accept(p, fd, id, username);
    var s1 := Next(cfg, s, a);
    AcceptKeepsSafe(cfg, s, a);
    var k := FirstEmpty(View(s1));
    assert k >= 0 by {
      var j :| 0 <= j < |s.slots| && s.slots[j].None?;
      assert View(s1)[j] == Empty && View(s1)[j] in View(s1);
    }
    var s2 := Next(cfg, s1, Loop(Add));
    RunOfThree(cfg, s, a, Loop(Add), Loop(Spawn(false)));
    var s3 := Next(cfg, s2, Loop(Spawn(false)));
    var s4 := Next(cfg, s3, Loop(Unregister));
    RunOfTwo(cfg, s3, Loop(Unregister), Loop(GiveUp));
    RunsConcat(cfg, s, [a, Loop(Add), Loop(Spawn(false))], [Loop(Unregister), Loop(GiveUp)]);
    OpenAndDiscard(s, p, fd, Client(fd, k, username, false, Acceptor));
    assert s.slots[k := Some(p)][k := None] == s.slots;
  }
}
