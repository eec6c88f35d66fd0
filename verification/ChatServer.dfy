/** The running chat server as a transition system: the accept loop and one handler thread for each
    spawned client, over the shared client table. One action is one mutex-protected function, or one
    write or send made outside the mutex together with thread-local work around it. A pointer that is
    followed after its free puts the system in a fault state, so that memory safety is a theorem. */
module ChatServer {
  import opened Accounts
  import opened Bytes
  import opened Protocol
  import opened Room

  /** An address that malloc returns; free makes it available again. */
  type Ptr = nat
  /** A descriptor that accept returns; close makes it available again. */
  type Fd = nat

  /** The user database and the password hash, fixed once the server accepts clients. */
  datatype Config = Config(db: seq<Account>, md5: Bytes -> Bytes)

  /** History: the thread that is responsible for an allocated client. */
  datatype Owner = Acceptor | HandlerThread(t: nat)

  /** What a client_t holds. */
  datatype Client = Client(fd: Fd, id: int, username: Bytes, authenticated: bool, owner: Owner)

  datatype AcceptPc =
    | Accepting
    | Allocated(p: Ptr)     // before add_client
    | Refused(p: Ptr)       // add_client returned -1
    | Registered(p: Ptr)    // before pthread_create
    | SpawnFailed(p: Ptr)   // before remove_client
    | Unregistered(p: Ptr)  // before close and free

  datatype Pc =
    | AskName | AskPassword | Checking | Rejected
    | Admitted     // before the name is copied
    | Named        // before `authenticated` is set
    | Greeting     // before AUTH_SUCCESS is sent
    | Announcing   // before the join broadcast
    | Chatting     // waiting in recv
    | Acting(cmd: Command)
    | Leaving      // at the cleanup label
    | Closing | Removing | Freeing | Finished

  /** A handler thread: its argument, its program counter and its local buffers. */
  datatype Handler = Handler(ptr: Ptr, pc: Pc, username: Bytes, password: Bytes)

  /** What one step does outside its own thread. */
  datatype Effect =
    | NoEffect
    | Tell(line: Bytes)                              // an unlocked send to the handler's own client
    | ToAll(name: Bytes, speech: Speech)             // send_message_to_all
    | ToOne(name: Bytes, target: Bytes, text: Bytes) // send_private_message
    | ListUsers                                      // send_user_list
    | WriteName(name: Bytes)                         // strncpy to the client's username
    | WriteFlag                                      // `authenticated` is set
    | CloseSocket
    | ClearSlot                                      // remove_client
    | FreeClient

  /** History: one broadcast, by handler `t` for the client in `slot`. */
  datatype Entry = Entry(t: nat, slot: int, name: Bytes, speech: Speech)

  datatype State = State(
    slots: seq<Option<Ptr>>,
    clientCount: int,
    heap: map<Ptr, Client>,
    open: set<Fd>,
    acceptor: AcceptPc,
    handlers: seq<Handler>,
    outbox: Outbox,
    log: seq<Entry>,
    fault: bool)

  function Initial(): State {
    State(seq(MAX_CLIENTS, _ => None), 0, map[], {}, Accepting, [], seq(MAX_CLIENTS, _ => []), [], false)
  }

  // ----- The shared table -----

  function SeatAt(s: State, slot: Option<Ptr>): Seat {
    match slot
    case None => Empty
    case Some(p) =>
      if p in s.heap && s.heap[p].authenticated then User(s.heap[p].username) else Guest
  }

  /** The room that the table shows to a thread that holds the mutex. */
  function View(s: State): (seats: seq<Seat>)
    ensures |seats| == |s.slots|
    ensures forall k :: 0 <= k < |seats| ==> seats[k] == SeatAt(s, s.slots[k])
  {
    seq(|s.slots|, k requires 0 <= k < |s.slots| => SeatAt(s, s.slots[k]))
  }

  /** Some slot points to freed memory, so that a walk over the table would follow it. */
  predicate Dangling(s: State) {
    exists k :: 0 <= k < |s.slots| && s.slots[k].Some? && s.slots[k].value !in s.heap
  }

  function Fault(s: State): State {
    s.(fault := true)
  }

  function AddClient(s: State, p: Ptr): State
    requires p in s.heap
  {
    var k := FirstEmpty(View(s));
    if k < 0 then s.(acceptor := Refused(p))
    else s.(slots := s.slots[k := Some(p)], heap := s.heap[p := s.heap[p].(id := k)],
            clientCount := s.clientCount + 1, acceptor := Registered(p))
  }

  function RemoveClient(s: State, id: int): State {
    if 0 <= id < |s.slots| && s.slots[id].Some? then
      s.(slots := s.slots[id := None], clientCount := s.clientCount - 1)
    else s
  }

  /** close followed by free. */
  function Discard(s: State, p: Ptr): State
    requires p in s.heap
  {
    s.(open := s.open - {s.heap[p].fd}, heap := s.heap - {p}, acceptor := Accepting)
  }

  // ----- The accept loop -----

  datatype Action =
    | Accept(p: Ptr, fd: Fd, id: int, username: Bytes)  // malloc leaves `id` and `username` undefined
    | Loop(move: Move)        // the rest of the accept loop
    | Run(t: nat, step: Step)

  datatype Move = Add | Refuse | Spawn(created: bool) | Unregister | GiveUp

  datatype Step =
    | RecvName(chunk: Option<Bytes>)       // None: the peer closed, or an error
    | RecvPassword(chunk: Option<Bytes>)
    | Check(hashed: bool)                  // whether the MD5 ioctl worked
    | Reject
    | CopyName
    | SetAuthenticated
    | Greet
    | Announce
    | Recv(chunk: Option<Bytes>)
    | Act(sendWorks: bool)
    | Depart
    | Close
    | Remove
    | Free

  predicate ChunkFits(chunk: Option<Bytes>, size: nat) {
    chunk.Some? ==> 0 < |chunk.value| <= size - 1
  }

  predicate StepEnabled(pc: Pc, step: Step) {
    match step
    case RecvName(chunk) => pc.AskName? && ChunkFits(chunk, USERNAME_SIZE)
    case RecvPassword(chunk) => pc.AskPassword? && ChunkFits(chunk, USERNAME_SIZE)
    case Check(_) => pc.Checking?
    case Reject => pc.Rejected?
    case CopyName => pc.Admitted?
    case SetAuthenticated => pc.Named?
    case Greet => pc.Greeting?
    case Announce => pc.Announcing?
    case Recv(chunk) => pc.Chatting? && ChunkFits(chunk, BUFFER_SIZE)
    case Act(_) => pc.Acting?
    case Depart => pc.Leaving?
    case Close => pc.Closing?
    case Remove => pc.Removing?
    case Free => pc.Freeing?
  }

  predicate MoveEnabled(pc: AcceptPc, move: Move) {
    match move
    case Add => pc.Allocated?
    case Refuse => pc.Refused?
    case Spawn(_) => pc.Registered?
    case Unregister => pc.SpawnFailed?
    case GiveUp => pc.Unregistered?
  }

  predicate Enabled(s: State, a: Action) {
    !s.fault &&
    match a
    case Accept(p, fd, _, _) => s.acceptor.Accepting? && p !in s.heap && fd !in s.open
    case Loop(move) => MoveEnabled(s.acceptor, move)
    case Run(t, step) => t < |s.handlers| && StepEnabled(s.handlers[t].pc, step)
  }

  function Next(cfg: Config, s: State, a: Action): State
    requires Enabled(s, a)
  {
    match a
    case Accept(p, fd, id, username) =>
      s.(heap := s.heap[p := Client(fd, id, username, false, Acceptor)],
         open := s.open + {fd}, acceptor := Allocated(p))
    case Loop(move) => if s.acceptor.p in s.heap then LoopNext(s, s.acceptor.p, move) else Fault(s)
    case Run(t, step) =>
      if s.handlers[t].ptr in s.heap then
        var (h, e) := TurnOf(cfg, s, t, step);
        Perform(s, t, h, e)
      else Fault(s)
  }

  function LoopNext(s: State, p: Ptr, move: Move): State
    requires p in s.heap
  {
    match move
    case Add => AddClient(s, p)
    case Refuse => Discard(s, p)
    case Spawn(created) =>
      if created then
        s.(handlers := s.handlers + [Handler(p, AskName, [], [])], acceptor := Accepting,
           heap := s.heap[p := s.heap[p].(owner := HandlerThread(|s.handlers|))])
      else s.(acceptor := SpawnFailed(p))
    case Unregister => RemoveClient(s, s.heap[p].id).(acceptor := Unregistered(p))
    case GiveUp => Discard(s, p)
  }

  // ----- The handler threads -----

  /** The thread-local part of a step, and its effect. `found` is the outcome of a private message's
      search for its target. */
  function Turn(cfg: Config, h: Handler, c: Client, step: Step, found: bool): (Handler, Effect)
    requires StepEnabled(h.pc, step)
  {
    match step
    case RecvName(chunk) =>
      (if chunk.None? then h.(pc := Leaving) else h.(username := CutLine(chunk.value), pc := AskPassword),
       Tell(Ascii("USERNAME: ")))
    case RecvPassword(chunk) =>
      (if chunk.None? then h.(pc := Leaving) else h.(password := CutLine(chunk.value), pc := Checking),
       Tell(Ascii("PASSWORD: ")))
    case Check(hashed) =>
      (h.(pc := if hashed && Matches(cfg.db, h.username, cfg.md5(h.password)) then Admitted else Rejected), NoEffect)
    case Reject => (h.(pc := Leaving), Tell(Ascii("AUTH_FAILED\n")))
    case CopyName => (h.(pc := Named), WriteName(Take(h.username, USERNAME_SIZE - 1)))
    case SetAuthenticated => (h.(pc := Greeting), WriteFlag)
    case Greet => (h.(pc := Announcing), Tell(Ascii("AUTH_SUCCESS\n")))
    case Announce => (h.(pc := Chatting), ToAll(h.username, Joins))
    case Recv(chunk) => (h.(pc := if chunk.None? then Leaving else Acting(ParseCommand(chunk.value))), NoEffect)
    case Act(sendWorks) => ActTurn(h, h.pc.cmd, c.username, found && sendWorks)
    case Depart => (h.(pc := Closing), if c.authenticated then ToAll(c.username, Leaves) else NoEffect)
    case Close => (h.(pc := Removing), CloseSocket)
    case Remove => (h.(pc := Freeing), ClearSlot)
    case Free => (h.(pc := Finished), FreeClient)
  }

  function ActTurn(h: Handler, cmd: Command, name: Bytes, sent: bool): (Handler, Effect) {
    match cmd
    case Nothing => (h.(pc := Chatting), NoEffect)
    case Answer(line) => (h.(pc := Chatting), Tell(line))
    case Broadcast(text) => (h.(pc := Chatting), ToAll(name, Talks(text)))
    case Listing => (h.(pc := Chatting), ListUsers)
    case Private(target, text) =>
      (h.(pc := Acting(Answer(if sent then ConfirmLine(target, text) else NotFound()))), ToOne(name, target, text))
  }

  function TurnOf(cfg: Config, s: State, t: nat, step: Step): (Handler, Effect)
    requires t < |s.handlers| && StepEnabled(s.handlers[t].pc, step) && s.handlers[t].ptr in s.heap
  {
    var h := s.handlers[t];
    Turn(cfg, h, s.heap[h.ptr], step, h.pc.Acting? && h.pc.cmd.Private? && FirstNamed(View(s), h.pc.cmd.target) >= 0)
  }

  /** The effects that follow the pointers in the table. */
  predicate FollowsTable(e: Effect) {
    e.ToAll? || e.ToOne? || e.ListUsers?
  }

  /** Handler `t` becomes `h` and the effect takes place. */
  function Perform(s: State, t: nat, h: Handler, e: Effect): State
    requires t < |s.handlers| && s.handlers[t].ptr in s.heap
  {
    var p := s.handlers[t].ptr;
    var c := s.heap[p];
    var now := s.(handlers := s.handlers[t := h]);
    if FollowsTable(e) && Dangling(s) then Fault(s)
    else
      match e
      case NoEffect => now
      case Tell(line) => now.(outbox := Push(s.outbox, c.id, Direct(line)))
      case ToAll(name, speech) =>
        now.(outbox := Deliver(View(s), s.outbox, c.id, Heard(c.id, SpokenLine(name, speech))),
             log := s.log + [Entry(t, c.id, name, speech)])
      case ToOne(name, target, text) =>
        now.(outbox := Push(s.outbox, FirstNamed(View(s), target), Whisper(PrivateLine(name, text))))
      case ListUsers => now.(outbox := SendList(s, c.id))
      case WriteName(name) => now.(heap := s.heap[p := c.(username := name)])
      case WriteFlag => now.(heap := s.heap[p := c.(authenticated := true)])
      case CloseSocket => now.(open := s.open - {c.fd})
      case ClearSlot => RemoveClient(now, c.id)
      case FreeClient => now.(heap := s.heap - {p})
  }

  /** send_user_list: the list goes to the slot, if it is taken. */
  function SendList(s: State, id: int): Outbox {
    if 0 <= id < |s.slots| && s.slots[id].Some? then Push(s.outbox, id, Roster(ListLine(Users(View(s))))) else s.outbox
  }

  // ----- Runs -----

  predicate ValidRun(cfg: Config, s: State, run: seq<Action>)
    decreases |run|
  {
    run == [] || (Enabled(s, run[0]) && ValidRun(cfg, Next(cfg, s, run[0]), run[1..]))
  }

  function Exec(cfg: Config, s: State, run: seq<Action>): State
    requires ValidRun(cfg, s, run)
    decreases |run|
  {
    if run == [] then s else Exec(cfg, Next(cfg, s, run[0]), run[1..])
  }
}
