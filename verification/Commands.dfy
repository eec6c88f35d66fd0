/** What the server does with one received chunk, from the bytes that arrive to the bytes that are sent, and
    with a connection that ends. The sends are written out, and so is everything that stays as it was. */
module Commands {
  import opened Bytes
  import opened ChatServer
  import opened Logins
  import opened Protocol
  import opened Room
  import opened SlotSafety

  // ----- States and chunks -----

  ghost predicate Reachable(cfg: Config, s: State) {
    exists run :: ValidRun(cfg, Initial(), run) && Exec(cfg, Initial(), run) == s
  }

  lemma ReachableFacts(cfg: Config, s: State)
    requires Reachable(cfg, s)
    ensures Safe(s) && Vetted(cfg, s)
  {
    hide Exec, ValidRun, Safe, Vetted, Initial;
    var run :| ValidRun(cfg, Initial(), run) && Exec(cfg, Initial(), run) == s;
    ReachableIsVetted(cfg, run);
  }

  /** No NUL, LF or CR. */
  predicate Line(line: Bytes) {
    0 !in line && 10 !in line && 13 !in line
  }

  /** The end of a chunk: nothing, or one of these and whatever comes behind it. */
  predicate Tail(tail: Bytes) {
    tail == [] || tail[0] == 0 || tail[0] == 10 || tail[0] == 13
  }

  lemma CutOff(line: Bytes, tail: Bytes)
    requires Line(line) && Tail(tail)
    ensures CutLine(line + tail) == line
  {
    CutLineIs(line + tail, line);
  }

  /** Slot `k` holds a client that has logged in under the name. */
  predicate UserAt(s: State, k: int, name: Bytes) {
    && 0 <= k < |s.slots| && s.slots[k].Some? && s.slots[k].value in s.heap
    && s.heap[s.slots[k].value].authenticated && s.heap[s.slots[k].value].username == name
  }

  predicate IsUser(s: State, k: int) {
    && 0 <= k < |s.slots| && s.slots[k].Some? && s.slots[k].value in s.heap
    && s.heap[s.slots[k].value].authenticated
  }

  /** Handler `t` works for the client in slot `id`. */
  predicate Holds(s: State, t: nat, id: int) {
    && t < |s.handlers| && 0 <= id < |s.slots| == |s.outbox| == MAX_CLIENTS
    && s.slots[id] == Some(s.handlers[t].ptr) && s.handlers[t].ptr in s.heap
    && s.heap[s.handlers[t].ptr].id == id
  }

  lemma HoldsItsSlot(s: State, t: nat) returns (id: int)
    requires Safe(s) && t < |s.handlers| && Registers(s.handlers[t].pc)
    ensures Holds(s, t, id)
  {
    OwnSlot(s, t);
    id := s.heap[s.handlers[t].ptr].id;
  }

  /** One more send to slot `k`; nothing else changes. */
  function Sent(s: State, k: int, d: Delivery): State
    requires 0 <= k < |s.outbox|
  {
    s.(outbox := s.outbox[k := s.outbox[k] + [d]])
  }

  /** One more send to every user but the one in slot `id`, and one more entry in the log; nothing else changes. */
  ghost predicate SentToOthers(s: State, s': State, id: int, d: Delivery, entry: Entry) {
    && s' == s.(outbox := s'.outbox, log := s.log + [entry])
    && |s'.outbox| == |s.outbox|
    && forall k :: 0 <= k < |s.outbox| ==>
         s'.outbox[k] == if IsUser(s, k) && k != id then s.outbox[k] + [d] else s.outbox[k]
  }

  // ----- The effects, written out -----

  function At(s: State, t: nat, h: Handler): State
    requires t < |s.handlers|
  {
    s.(handlers := s.handlers[t := h])
  }

  lemma TellSends(s: State, t: nat, h: Handler, line: Bytes, id: int)
    requires Holds(s, t, id)
    ensures Perform(s, t, h, Tell(line)) == Sent(At(s, t, h), id, Direct(line))
  {
  }

  lemma ToAllSends(s: State, t: nat, h: Handler, name: Bytes, speech: Speech, id: int)
    requires Safe(s) && Holds(s, t, id)
    ensures SentToOthers(At(s, t, h), Perform(s, t, h, ToAll(name, speech)), id, Heard(id, SpokenLine(name, speech)),
                         Entry(t, id, name, speech))
  {
    hide SpokenLine;
    NotDangling(s);
  }

  lemma ListSends(s: State, t: nat, h: Handler, id: int)
    requires Safe(s) && Holds(s, t, id)
    ensures Perform(s, t, h, ListUsers) == Sent(At(s, t, h), id, Roster(ListLine(Users(View(s)))))
  {
    hide ListLine, Users;
    NotDangling(s);
  }

  lemma ToOneSends(s: State, t: nat, h: Handler, name: Bytes, target: Bytes, text: Bytes, id: int)
    requires Safe(s) && Holds(s, t, id)
    ensures var k := FirstNamed(View(s), target); var s' := Perform(s, t, h, ToOne(name, target, text));
      s' == if k >= 0 then Sent(At(s, t, h), k, Whisper(PrivateLine(name, text))) else At(s, t, h)
  {
    hide PrivateLine;
    NotDangling(s);
  }

  /** The lowest slot of a user with the name, or -1, in terms of the clients. */
  lemma FirstNamedAt(s: State, name: Bytes)
    requires Safe(s)
    ensures var k := FirstNamed(View(s), name);
      && (k < 0 ==> forall j :: 0 <= j < MAX_CLIENTS ==> !UserAt(s, j, name))
      && (k >= 0 ==> UserAt(s, k, name) && forall j :: 0 <= j < k ==> !UserAt(s, j, name))
  {
    var seats, k := View(s), FirstNamed(View(s), name);
    forall j | 0 <= j < MAX_CLIENTS && UserAt(s, j, name) ensures 0 <= k <= j {
      assert seats[j] == User(name) && seats[j] in seats;
      assert forall i :: 0 <= i < k ==> seats[..k][i] == seats[i];
    }
    if k >= 0 {
      NotDangling(s);
      assert seats[k] == SeatAt(s, s.slots[k]);
    }
  }

  // ----- One chunk -----

  /** The chunk is received, and the command in it carried out. */
  function Exchange(t: nat, chunk: Bytes, sendWorks: bool): seq<Action> {
    [Run(t, Recv(Some(chunk))), Run(t, Act(sendWorks))]
  }

  lemma RunOfTwo(cfg: Config, s: State, a: Action, b: Action)
    requires Enabled(s, a) && Enabled(Next(cfg, s, a), b)
    ensures ValidRun(cfg, s, [a, b]) && Exec(cfg, s, [a, b]) == Next(cfg, Next(cfg, s, a), b)
  {
    hide Next;
    assert [a, b][1..] == [b] && [b][1..] == [];
    var s' := Next(cfg, s, a);
    assert ValidRun(cfg, s', [b]) && Exec(cfg, s', [b]) == Next(cfg, s', b);
  }

  lemma RunOfThree(cfg: Config, s: State, a: Action, b: Action, c: Action)
    requires Enabled(s, a) && Enabled(Next(cfg, s, a), b) && Enabled(Next(cfg, Next(cfg, s, a), b), c)
    ensures ValidRun(cfg, s, [a, b, c]) && Exec(cfg, s, [a, b, c]) == Next(cfg, Next(cfg, Next(cfg, s, a), b), c)
  {
    hide Next;
    assert [a, b, c][1..] == [b, c];
    RunOfTwo(cfg, Next(cfg, s, a), b, c);
  }

  lemma TurnOfRecv(cfg: Config, h: Handler, c: Client, chunk: Bytes, found: bool)
    requires StepEnabled(h.pc, Recv(Some(chunk)))
    ensures Turn(cfg, h, c, Recv(Some(chunk)), found) == (h.(pc := Acting(ParseCommand(chunk))), NoEffect)
  {
    hide Ascii, CutLine, Take, ParseCommand, ActTurn;
  }

  /** A chatting handler can receive any chunk of at most 4095 bytes, and is then about to carry out its command. */
  lemma RecvStep(cfg: Config, s: State, t: nat, chunk: Bytes)
    requires Safe(s) && t < |s.handlers| && s.handlers[t].pc.Chatting? && 0 < |chunk| <= 4095
    ensures Enabled(s, Run(t, Recv(Some(chunk))))
    ensures Next(cfg, s, Run(t, Recv(Some(chunk)))) == At(s, t, s.handlers[t].(pc := Acting(ParseCommand(chunk))))
  {
    hide Turn, Linked, ParseCommand;
    OwnSlotOf(s, t);
    TurnOfRecv(cfg, s.handlers[t], s.heap[s.handlers[t].ptr], chunk, false);
  }

  lemma OwnSlotOf(s: State, t: nat)
    requires Safe(s) && t < |s.handlers| && !s.handlers[t].pc.Finished?
    ensures s.handlers[t].ptr in s.heap && s.heap[s.handlers[t].ptr].owner == HandlerThread(t)
  {
    OwnSlot(s, t);
  }

  lemma TurnOfAct(cfg: Config, h: Handler, c: Client, cmd: Command, sendWorks: bool, found: bool)
    requires h.pc == Acting(cmd)
    ensures Turn(cfg, h, c, Act(sendWorks), found) == ActTurn(h, cmd, c.username, found && sendWorks)
  {
    hide ActTurn, Ascii, CutLine, Take, ParseCommand;
  }

  /** The name under which handler `t` acts. */
  function NameOf(s: State, t: nat): Bytes
    requires t < |s.handlers|
  {
    s.handlers[t].username
  }

  /** In its session a handler's client is a user with the name that the handler received. */
  lemma SpeakerFacts(cfg: Config, s: State, t: nat) returns (id: int)
    requires Safe(s) && Vetted(cfg, s) && t < |s.handlers| && InSession(s.handlers[t].pc)
    ensures Holds(s, t, id) && UserAt(s, id, NameOf(s, t)) && |NameOf(s, t)| < USERNAME_SIZE
    ensures s.heap[s.handlers[t].ptr].username == NameOf(s, t)
  {
    id := HoldsItsSlot(s, t);
    assert LoginOk(cfg, s, t);
  }

  lemma ActStep(cfg: Config, s: State, t: nat, cmd: Command, sendWorks: bool) returns (h: Handler, e: Effect)
    requires Safe(s) && Vetted(cfg, s) && t < |s.handlers| && s.handlers[t].pc == Acting(cmd)
    ensures Enabled(s, Run(t, Act(sendWorks))) && s.handlers[t].ptr in s.heap
    ensures Next(cfg, s, Run(t, Act(sendWorks))) == Perform(s, t, h, e)
    ensures (h, e) == ActTurn(s.handlers[t], cmd, NameOf(s, t),
                              cmd.Private? && FirstNamed(View(s), cmd.target) >= 0 && sendWorks)
  {
    hide Perform, LoopNext, Turn, ActTurn;
    var id := SpeakerFacts(cfg, s, t);
    h, e := StepOfHandler(cfg, s, t, Act(sendWorks));
    TurnOfAct(cfg, s.handlers[t], s.heap[s.handlers[t].ptr], cmd, sendWorks,
              cmd.Private? && FirstNamed(View(s), cmd.target) >= 0);
  }

  /** While other threads act, a handler's own state stays as it is. */
  lemma {:induction false} WaitsUnchanged(cfg: Config, s: State, run: seq<Action>, t: nat)
    requires Safe(s) && ValidRun(cfg, s, run) && t < |s.handlers|
    requires forall i :: 0 <= i < |run| ==> !(run[i].Run? && run[i].t == t)
    ensures t < |Exec(cfg, s, run).handlers| && Exec(cfg, s, run).handlers[t] == s.handlers[t]
    decreases |run|
  {
    hide Next, Safe;
    if run != [] {
      OthersLeaveHandler(cfg, s, run[0], t);
      StepKeepsSafe(cfg, s, run[0]);
      forall i | 0 <= i < |run[1..]| ensures !(run[1..][i].Run? && run[1..][i].t == t) {
        assert run[1..][i] == run[i + 1];
      }
      WaitsUnchanged(cfg, Next(cfg, s, run[0]), run[1..], t);
    }
  }

  lemma OthersLeaveHandler(cfg: Config, s: State, a: Action, t: nat)
    requires Safe(s) && Enabled(s, a) && t < |s.handlers| && !(a.Run? && a.t == t)
    ensures t < |Next(cfg, s, a).handlers| && Next(cfg, s, a).handlers[t] == s.handlers[t]
  {
    hide Turn, Perform;
    if a.Run? {
      var h, e := StepOfHandler(cfg, s, a.t, a.step);
      OthersUntouched(s, a.t, h, e);
    }
  }

  /** A handler with an answer to give sends it to its own client alone. */
  lemma AnswerStaysPrivate(cfg: Config, s: State, t: nat, line: Bytes, sendWorks: bool, id: int)
    requires Safe(s) && Vetted(cfg, s) && Holds(s, t, id) && s.handlers[t].pc == Acting(Answer(line))
    ensures Enabled(s, Run(t, Act(sendWorks)))
    ensures Next(cfg, s, Run(t, Act(sendWorks)))
         == Sent(At(s, t, s.handlers[t].(pc := Chatting)), id, Direct(line))
  {
    hide Next, Perform, Vetted, Linked;
    var h, e := ActStep(cfg, s, t, Answer(line), sendWorks);
    TellSends(s, t, h, line, id);
  }

  /** A handler with a text to broadcast sends it to every other user that there is at that moment. */
  lemma BroadcastReachesUsers(cfg: Config, s: State, t: nat, text: Bytes, sendWorks: bool, id: int)
    requires Safe(s) && Vetted(cfg, s) && Holds(s, t, id) && s.handlers[t].pc == Acting(Broadcast(text))
    ensures Enabled(s, Run(t, Act(sendWorks)))
    ensures SentToOthers(At(s, t, s.handlers[t].(pc := Chatting)), Next(cfg, s, Run(t, Act(sendWorks))), id,
      Heard(id, SpokenLine(NameOf(s, t), Talks(text))), Entry(t, id, NameOf(s, t), Talks(text)))
  {
    hide Next, Perform, Vetted, Linked, SpokenLine, IsUser;
    var h, e := ActStep(cfg, s, t, Broadcast(text), sendWorks);
    ToAllSends(s, t, h, NameOf(s, t), Talks(text), id);
  }

  /** A handler with a list to send sends its own client the list of that moment. */
  lemma ListStaysPrivate(cfg: Config, s: State, t: nat, sendWorks: bool, id: int)
    requires Safe(s) && Vetted(cfg, s) && Holds(s, t, id) && s.handlers[t].pc == Acting(Listing)
    ensures Enabled(s, Run(t, Act(sendWorks)))
    ensures Next(cfg, s, Run(t, Act(sendWorks)))
         == Sent(At(s, t, s.handlers[t].(pc := Chatting)), id, Roster(ListLine(Users(View(s)))))
  {
    hide Next, Perform, Vetted, Linked, ListLine, Users;
    var h, e := ActStep(cfg, s, t, Listing, sendWorks);
    ListSends(s, t, h, id);
  }

  /** The receiving handler is `h` in the meantime; nobody else notices. */
  lemma SameForOthers(s: State, t: nat, h: Handler)
    requires t < |s.handlers| && h.ptr == s.handlers[t].ptr
    ensures View(At(s, t, h)) == View(s) && At(At(s, t, h), t, s.handlers[t]) == s
    ensures forall k :: IsUser(At(s, t, h), k) <==> IsUser(s, k)
  {
    SameView(s, At(s, t, h));
    assert s.handlers[t := h][t := s.handlers[t]] == s.handlers;
  }

  /** Between the receive and the act: the state `now`, and what is known of it. */
  lemma Received(cfg: Config, s: State, t: nat, chunk: Bytes) returns (now: State, id: int)
    requires Safe(s) && Vetted(cfg, s) && t < |s.handlers| && s.handlers[t].pc.Chatting? && 0 < |chunk| <= 4095
    ensures Enabled(s, Run(t, Recv(Some(chunk)))) && now == Next(cfg, s, Run(t, Recv(Some(chunk))))
    ensures now == At(s, t, s.handlers[t].(pc := Acting(ParseCommand(chunk))))
    ensures Safe(now) && Vetted(cfg, now) && Holds(s, t, id) && Holds(now, t, id)
    ensures UserAt(s, id, NameOf(s, t)) && |NameOf(s, t)| < USERNAME_SIZE
    ensures View(now) == View(s) && At(now, t, s.handlers[t]) == s
    ensures forall k :: IsUser(now, k) <==> IsUser(s, k)
  {
    hide Next, Linked, Vetted, ParseCommand;
    var a := Run(t, Recv(Some(chunk)));
    id := SpeakerFacts(cfg, s, t);
    RecvStep(cfg, s, t, chunk);
    now := Next(cfg, s, a);
    StepKeepsSafe(cfg, s, a);
    StepKeepsVetted(cfg, s, a);
    SameForOthers(s, t, s.handlers[t].(pc := Acting(ParseCommand(chunk))));
  }

  /** A chunk with a command other than a private message: the handler carries it out and chats on. */
  lemma Handled(cfg: Config, s: State, t: nat, chunk: Bytes, cmd: Command, sendWorks: bool)
    returns (now: State, id: int, e: Effect)
    requires Safe(s) && Vetted(cfg, s) && t < |s.handlers| && s.handlers[t].pc.Chatting? && 0 < |chunk| <= 4095
    requires cmd == ParseCommand(chunk) && !cmd.Private?
    ensures ValidRun(cfg, s, Exchange(t, chunk, sendWorks))
    ensures Safe(now) && Holds(s, t, id) && Holds(now, t, id)
    ensures UserAt(s, id, NameOf(s, t)) && |NameOf(s, t)| < USERNAME_SIZE
    ensures View(now) == View(s) && At(now, t, s.handlers[t]) == s
    ensures Exec(cfg, s, Exchange(t, chunk, sendWorks)) == Perform(now, t, s.handlers[t], e)
    ensures e == match cmd
      case Nothing => NoEffect
      case Answer(line) => Tell(line)
      case Broadcast(text) => ToAll(NameOf(s, t), Talks(text))
      case Listing => ListUsers
      case Private(_, _) => NoEffect
  {
    hide Next, Perform, Linked, Vetted, ParseCommand;
    now, id := Received(cfg, s, t, chunk);
    var h;
    h, e := ActStep(cfg, now, t, cmd, sendWorks);
    RunOfTwo(cfg, s, Run(t, Recv(Some(chunk))), Run(t, Act(sendWorks)));
    assert h == s.handlers[t];
  }

  // ----- What the chunks mean -----

  lemma TalkChunk(line: Bytes, tail: Bytes)
    requires Line(line) && Tail(tail) && line != [] && line[0] != 47
    ensures ParseCommand(line + tail) == Broadcast(line)
  {
    hide Ascii, CutLine, ParsePrivate;
    CutOff(line, tail);
  }

  lemma EmptyChunk(tail: Bytes)
    requires Tail(tail)
    ensures ParseCommand(tail) == Nothing
  {
    hide Ascii, CutLine, ParsePrivate;
    CutOff([], tail);
    assert [] + tail == tail;
  }

  lemma ListChunk(tail: Bytes)
    requires Tail(tail)
    ensures ParseCommand(Ascii("/list") + tail) == Listing
  {
    hide CutLine, ParsePrivate;
    CutOff(Ascii("/list"), tail);
  }

  lemma HelpChunk(tail: Bytes)
    requires Tail(tail)
    ensures ParseCommand(Ascii("/help") + tail) == Answer(Help())
  {
    hide CutLine, ParsePrivate, Help;
    CutOff(Ascii("/help"), tail);
    assert Ascii("/help")[1] == 104 && Ascii("/list")[1] == 108 && Ascii("/msg ")[1] == 109;
  }

  lemma UnknownChunk(line: Bytes, tail: Bytes)
    requires Line(line) && Tail(tail) && line != [] && line[0] == 47
    requires line != Ascii("/list") && line != Ascii("/help") && !(Ascii("/msg ") <= line)
    ensures ParseCommand(line + tail) == Answer(UnknownCommand())
  {
    hide CutLine, ParsePrivate, Ascii, UnknownCommand;
    CutOff(line, tail);
  }

  lemma MsgChunk(rest: Bytes, tail: Bytes)
    requires Line(rest) && Tail(tail)
    ensures ParseCommand(Ascii("/msg ") + rest + tail) == ParsePrivate(rest)
  {
    hide CutLine, ParsePrivate;
    var head := Ascii("/msg ");
    assert Line(head);
    CutOff(head + rest, tail);
    assert head <= head + rest && (head + rest)[5..] == rest && (head + rest)[0] == 47;
    assert (head + rest)[1] == 109 && Ascii("/list")[1] == 108;
  }

  lemma PrivateRest(target: Bytes, text: Bytes)
    requires 32 !in target
    ensures ParsePrivate(target + [32] + text) == Private(Take(target, 31), text)
  {
    hide IndexOf, Take;
    var rest := target + [32] + text;
    assert rest[..|target|] == target && rest[|target| + 1..] == text;
    IndexOfIs(rest, SPACE, |target|);
  }

  lemma UsageRest(rest: Bytes)
    requires 32 !in rest
    ensures ParsePrivate(rest) == Answer(Usage())
  {
    hide IndexOf, Take, Usage;
    assert rest[..|rest|] == rest;
    IndexOfIs(rest, SPACE, |rest|);
  }

  // ----- From a received chunk to the sends -----

  /** The line that others are sent for a text: the text without what is beyond its first 4059 bytes. */
  lemma TalkText(name: Bytes, line: Bytes)
    requires |name| < 32
    ensures SpokenLine(name, Talks(line)) == Ascii("[") + name + Ascii("] ") + Take(line, 4059) + [10]
  {
  }

  /** A chatting handler that receives a line without a leading slash sends it, with its user's name, to every
      other user and to nobody else, and chats on. */
  lemma ChunkIsBroadcast(cfg: Config, s: State, t: nat, line: Bytes, tail: Bytes, sendWorks: bool) returns (id: int)
    requires Reachable(cfg, s) && t < |s.handlers| && s.handlers[t].pc.Chatting?
    requires Line(line) && Tail(tail) && |line + tail| <= 4095 && line != [] && line[0] != 47
    ensures ValidRun(cfg, s, Exchange(t, line + tail, sendWorks))
    ensures Holds(s, t, id) && UserAt(s, id, NameOf(s, t))
    ensures SentToOthers(s, Exec(cfg, s, Exchange(t, line + tail, sendWorks)), id,
      Heard(id, Ascii("[") + NameOf(s, t) + Ascii("] ") + Take(line, 4059) + [10]),
      Entry(t, id, NameOf(s, t), Talks(line)))
  {
    hide Next, Exec, ValidRun, Perform, ParseCommand, Ascii, Take, SpokenLine, Reachable, Safe, Vetted;
    ReachableFacts(cfg, s);
    TalkChunk(line, tail);
    var now, e;
    now, id, e := Handled(cfg, s, t, line + tail, Broadcast(line), sendWorks);
    ToAllSends(now, t, s.handlers[t], NameOf(s, t), Talks(line), id);
    TalkText(NameOf(s, t), line);
  }

  /** A chunk that starts with a line end has no effect. */
  lemma EmptyChunkIsIgnored(cfg: Config, s: State, t: nat, tail: Bytes, sendWorks: bool)
    requires Reachable(cfg, s) && t < |s.handlers| && s.handlers[t].pc.Chatting?
    requires Tail(tail) && 0 < |tail| <= 4095
    ensures ValidRun(cfg, s, Exchange(t, tail, sendWorks)) && Exec(cfg, s, Exchange(t, tail, sendWorks)) == s
  {
    hide Next, Exec, ValidRun, ParseCommand, Reachable, Safe, Vetted;
    ReachableFacts(cfg, s);
    EmptyChunk(tail);
    var now, id, e := Handled(cfg, s, t, tail, Nothing, sendWorks);
  }

  /** For /list the user alone gets the list: the names of all users, joined with commas in slot order. */
  lemma ListChunkIsAnswered(cfg: Config, s: State, t: nat, tail: Bytes, sendWorks: bool) returns (id: int)
    requires Reachable(cfg, s) && t < |s.handlers| && s.handlers[t].pc.Chatting?
    requires Tail(tail) && |Ascii("/list") + tail| <= 4095
    ensures ValidRun(cfg, s, Exchange(t, Ascii("/list") + tail, sendWorks))
    ensures Holds(s, t, id) && UserAt(s, id, NameOf(s, t))
    ensures Exec(cfg, s, Exchange(t, Ascii("/list") + tail, sendWorks))
         == Sent(s, id, Roster(Ascii("USERLIST:") + Joined(Users(View(s)), COMMA) + [10]))
  {
    hide Next, Exec, ValidRun, Perform, ParseCommand, Ascii, Reachable, Vetted, Linked, Joined, ListLine;
    ReachableFacts(cfg, s);
    ListChunk(tail);
    var now, e;
    now, id, e := Handled(cfg, s, t, Ascii("/list") + tail, Listing, sendWorks);
    ListSends(now, t, s.handlers[t], id);
    UserNamesFit(cfg, s);
    ListLineExact(Users(View(s)));
  }

  lemma UserNamesFit(cfg: Config, s: State)
    requires Safe(s) && Vetted(cfg, s)
    ensures |Users(View(s))| <= MAX_CLIENTS && forall name :: name in Users(View(s)) ==> |name| < USERNAME_SIZE
  {
    hide UsersTo;
    var seats := View(s);
    var order := UsersInOrder(seats, |seats|);
    forall name | name in Users(seats) ensures |name| < USERNAME_SIZE {
      var j :| 0 <= j < |Users(seats)| && Users(seats)[j] == name;
      var t := UserIsVetted(cfg, s, order[j]);
      assert LoginOk(cfg, s, t);
    }
  }

  lemma ChunkIsAnswered(cfg: Config, s: State, t: nat, chunk: Bytes, line: Bytes, sendWorks: bool) returns (id: int)
    requires Reachable(cfg, s) && t < |s.handlers| && s.handlers[t].pc.Chatting?
    requires 0 < |chunk| <= 4095 && ParseCommand(chunk) == Answer(line)
    ensures ValidRun(cfg, s, Exchange(t, chunk, sendWorks)) && Holds(s, t, id) && UserAt(s, id, NameOf(s, t))
    ensures Exec(cfg, s, Exchange(t, chunk, sendWorks)) == Sent(s, id, Direct(line))
  {
    hide Next, Exec, ValidRun, Perform, ParseCommand, Reachable, Safe, Vetted;
    ReachableFacts(cfg, s);
    var now, e;
    now, id, e := Handled(cfg, s, t, chunk, Answer(line), sendWorks);
    TellSends(now, t, s.handlers[t], line, id);
  }

  /** For /help the user alone gets these five lines. */
  lemma HelpChunkIsAnswered(cfg: Config, s: State, t: nat, tail: Bytes, sendWorks: bool) returns (id: int)
    requires Reachable(cfg, s) && t < |s.handlers| && s.handlers[t].pc.Chatting?
    requires Tail(tail) && |Ascii("/help") + tail| <= 4095
    ensures ValidRun(cfg, s, Exchange(t, Ascii("/help") + tail, sendWorks))
    ensures Holds(s, t, id) && UserAt(s, id, NameOf(s, t))
    ensures Exec(cfg, s, Exchange(t, Ascii("/help") + tail, sendWorks)) == Sent(s, id, Direct(
      Ascii("[SERVER] Available commands:\n")
      + Ascii("[SERVER]   /list - Show online users\n")
      + Ascii("[SERVER]   /msg <username> <message> - Send private message\n")
      + Ascii("[SERVER]   /help - Show this help\n")
      + Ascii("[SERVER] Just type a message to broadcast to all users\n")))
  {
    hide Exec, ValidRun, ParseCommand, Ascii, Reachable;
    HelpChunk(tail);
    id := ChunkIsAnswered(cfg, s, t, Ascii("/help") + tail, Help(), sendWorks);
  }

  /** For a private command without a space behind the name the user alone gets the usage. */
  lemma UsageChunkIsAnswered(cfg: Config, s: State, t: nat, rest: Bytes, tail: Bytes, sendWorks: bool)
    returns (id: int)
    requires Reachable(cfg, s) && t < |s.handlers| && s.handlers[t].pc.Chatting?
    requires Line(rest) && 32 !in rest && Tail(tail) && |Ascii("/msg ") + rest + tail| <= 4095
    ensures ValidRun(cfg, s, Exchange(t, Ascii("/msg ") + rest + tail, sendWorks))
    ensures Holds(s, t, id) && UserAt(s, id, NameOf(s, t))
    ensures Exec(cfg, s, Exchange(t, Ascii("/msg ") + rest + tail, sendWorks))
         == Sent(s, id, Direct(Ascii("[SERVER] Usage: /msg <username> <message>\n")))
  {
    hide Exec, ValidRun, ParseCommand, Ascii, Reachable, ParsePrivate;
    MsgChunk(rest, tail);
    UsageRest(rest);
    id := ChunkIsAnswered(cfg, s, t, Ascii("/msg ") + rest + tail, Usage(), sendWorks);
  }

  /** For any other line with a leading slash the user alone gets this answer. */
  lemma UnknownChunkIsAnswered(cfg: Config, s: State, t: nat, line: Bytes, tail: Bytes, sendWorks: bool)
    returns (id: int)
    requires Reachable(cfg, s) && t < |s.handlers| && s.handlers[t].pc.Chatting?
    requires Line(line) && Tail(tail) && |line + tail| <= 4095 && line != [] && line[0] == 47
    requires line != Ascii("/list") && line != Ascii("/help") && !(Ascii("/msg ") <= line)
    ensures ValidRun(cfg, s, Exchange(t, line + tail, sendWorks)) && Holds(s, t, id) && UserAt(s, id, NameOf(s, t))
    ensures Exec(cfg, s, Exchange(t, line + tail, sendWorks))
         == Sent(s, id, Direct(Ascii("[SERVER] Unknown command. Type /help for available commands\n")))
  {
    hide Exec, ValidRun, ParseCommand, Ascii, Reachable;
    UnknownChunk(line, tail);
    id := ChunkIsAnswered(cfg, s, t, line + tail, UnknownCommand(), sendWorks);
  }

  // ----- Private messages -----

  /** The chunk is received, the private message sent, and the answer given. */
  function PrivateExchange(t: nat, chunk: Bytes, sendWorks: bool, answerWorks: bool): seq<Action> {
    [Run(t, Recv(Some(chunk))), Run(t, Act(sendWorks)), Run(t, Act(answerWorks))]
  }

  /** What the target is sent: the line without what is beyond its first 4095 bytes. */
  function WhisperedLine(name: Bytes, text: Bytes): Bytes {
    Take(Ascii("[PRIVATE from ") + name + Ascii("] ") + text + [10], 4095)
  }

  /** What the sender is answered: the text without what is beyond its first 4044 bytes. */
  function ConfirmedLine(target: Bytes, text: Bytes): Bytes {
    Ascii("[PRIVATE to ") + target + Ascii("] ") + Take(text, 4044) + [10]
  }

  lemma PrivateTexts(name: Bytes, target: Bytes, text: Bytes)
    requires |target| < 32
    ensures PrivateLine(name, text) == WhisperedLine(name, text)
    ensures ConfirmLine(target, text) == ConfirmedLine(target, text)
  {
  }

  /** The handler's second and third step for a private message. */
  lemma PrivateSteps(cfg: Config, s: State, t: nat, target: Bytes, text: Bytes, sendWorks: bool, answerWorks: bool)
    returns (mid: State, line: Bytes)
    requires Safe(s) && Vetted(cfg, s) && t < |s.handlers| && s.handlers[t].pc == Acting(Private(target, text))
    ensures var k := FirstNamed(View(s), target); var h := s.handlers[t].(pc := Acting(Answer(line)));
      && line == (if k >= 0 && sendWorks then ConfirmLine(target, text) else NotFound())
      && Enabled(s, Run(t, Act(sendWorks))) && mid == Next(cfg, s, Run(t, Act(sendWorks)))
      && s.handlers[t].ptr in s.heap && mid == Perform(s, t, h, ToOne(NameOf(s, t), target, text))
      && Safe(mid) && Vetted(cfg, mid)
  {
    hide Perform, Next, ConfirmLine, NotFound, PrivateLine, Linked, Vetted;
    var h, e := ActStep(cfg, s, t, Private(target, text), sendWorks);
    line := h.pc.cmd.line;
    mid := Next(cfg, s, Run(t, Act(sendWorks)));
    StepKeepsSafe(cfg, s, Run(t, Act(sendWorks)));
    StepKeepsVetted(cfg, s, Run(t, Act(sendWorks)));
  }

  /** After the whisper the handler is `h`; once it is itself again, only the whisper is left. */
  lemma WhisperState(s: State, now: State, mid: State, t: nat, h: Handler, k: int, d: Delivery)
    requires t < |s.handlers| == |now.handlers| && At(now, t, s.handlers[t]) == s && k < |s.outbox|
    requires mid == if k >= 0 then Sent(At(now, t, h), k, d) else At(now, t, h)
    ensures t < |mid.handlers| && mid.handlers[t] == h
    ensures At(mid, t, s.handlers[t]) == if k >= 0 then Sent(s, k, d) else s
  {
    assert now.handlers[t := h][t := s.handlers[t]] == now.handlers[t := s.handlers[t]];
  }

  /** The state after a private message to slot `k`, or to nobody, and the answer to slot `id`. */
  function Whispered(s: State, k: int, id: int, whisper: Bytes, answer: Bytes): State
    requires k < |s.outbox| && 0 <= id < |s.outbox|
  {
    Sent(if k >= 0 then Sent(s, k, Whisper(whisper)) else s, id, Direct(answer))
  }

  lemma WhisperAndAnswer(cfg: Config, s: State, t: nat, chunk: Bytes, to: Bytes, text: Bytes, sendWorks: bool,
                         answerWorks: bool)
    returns (id: int)
    requires Safe(s) && Vetted(cfg, s) && t < |s.handlers| && s.handlers[t].pc.Chatting? && 0 < |chunk| <= 4095
    requires ParseCommand(chunk) == Private(to, text)
    ensures Holds(s, t, id) && UserAt(s, id, NameOf(s, t))
    ensures ValidRun(cfg, s, PrivateExchange(t, chunk, sendWorks, answerWorks))
    ensures var k := FirstNamed(View(s), to);
      Exec(cfg, s, PrivateExchange(t, chunk, sendWorks, answerWorks))
      == Whispered(s, k, id, PrivateLine(NameOf(s, t), text),
                   if k >= 0 && sendWorks then ConfirmLine(to, text) else NotFound())
  {
    hide Next, Exec, ValidRun, Perform, ParseCommand, Vetted, Linked, FirstNamed;
    hide ConfirmLine, PrivateLine, NotFound, UserAt, IsUser, View;
    var now;
    now, id := Received(cfg, s, t, chunk);
    var k := FirstNamed(View(s), to);
    var mid, line := PrivateSteps(cfg, now, t, to, text, sendWorks, answerWorks);
    var h := s.handlers[t].(pc := Acting(Answer(line)));
    ToOneSends(now, t, h, NameOf(s, t), to, text, id);
    WhisperState(s, now, mid, t, h, k, Whisper(PrivateLine(NameOf(s, t), text)));
    assert h.(pc := Chatting) == s.handlers[t];
    AnswerStaysPrivate(cfg, mid, t, line, answerWorks, id);
    RunOfThree(cfg, s, Run(t, Recv(Some(chunk))), Run(t, Act(sendWorks)), Run(t, Act(answerWorks)));
  }

  lemma WhisperChunk(target: Bytes, text: Bytes, tail: Bytes)
    requires Line(target) && 32 !in target && Line(text) && Tail(tail)
    ensures ParseCommand(Ascii("/msg ") + target + [32] + text + tail) == Private(Take(target, 31), text)
  {
    hide ParseCommand, ParsePrivate, Ascii, Take;
    assert Ascii("/msg ") + target + [32] + text + tail == Ascii("/msg ") + (target + [32] + text) + tail;
    MsgChunk(target + [32] + text, tail);
    PrivateRest(target, text);
  }

  /** A private command with a text reaches the lowest slot of a user with the target's name, whose first 31 bytes
      count, and nobody else; then the sender alone is told so if that send worked, or that there is no such user. */
  lemma ChunkIsWhispered(cfg: Config, s: State, t: nat, target: Bytes, text: Bytes, tail: Bytes, sendWorks: bool,
                         answerWorks: bool)
    returns (id: int, k: int)
    requires Reachable(cfg, s) && t < |s.handlers| && s.handlers[t].pc.Chatting?
    requires Line(target) && 32 !in target && Line(text) && Tail(tail)
    requires |Ascii("/msg ") + target + [32] + text + tail| <= 4095
    ensures Holds(s, t, id) && UserAt(s, id, NameOf(s, t)) && -1 <= k < MAX_CLIENTS
    ensures forall j :: 0 <= j < MAX_CLIENTS && (k == -1 || j < k) ==> !UserAt(s, j, Take(target, 31))
    ensures k >= 0 ==> UserAt(s, k, Take(target, 31))
    ensures var chunk := Ascii("/msg ") + target + [32] + text + tail;
      && ValidRun(cfg, s, PrivateExchange(t, chunk, sendWorks, answerWorks))
      && Exec(cfg, s, PrivateExchange(t, chunk, sendWorks, answerWorks))
      == Whispered(s, k, id, WhisperedLine(NameOf(s, t), text),
                   if k >= 0 && sendWorks then ConfirmedLine(Take(target, 31), text)
                   else Ascii("[SERVER] User not found or offline\n"))
  {
    hide Next, Exec, ValidRun, ParseCommand, Ascii, Reachable, Vetted, Linked, FirstNamed, Whispered;
    hide ConfirmLine, PrivateLine, WhisperedLine, ConfirmedLine, Take;
    ReachableFacts(cfg, s);
    WhisperChunk(target, text, tail);
    var chunk, to := Ascii("/msg ") + target + [32] + text + tail, Take(target, 31);
    k := FirstNamed(View(s), to);
    FirstNamedAt(s, to);
    id := WhisperAndAnswer(cfg, s, t, chunk, to, text, sendWorks, answerWorks);
    PrivateTexts(NameOf(s, t), to, text);
  }
}
