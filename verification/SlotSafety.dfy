/** Slot ownership and memory safety: what every step of the server keeps about pointers, slots and
    the client counter. */
module SlotSafety {
  import opened Accounts
  import opened Bytes
  import opened ChatServer
  import opened Protocol
  import opened Room

  /** The handler's client is in the table until remove_client has run. */
  predicate Registers(pc: Pc) {
    !pc.Freeing? && !pc.Finished?
  }

  /** The one thread that is responsible for `p` is alive and holds `p`. */
  predicate Owned(s: State, p: Ptr) {
    p in s.heap &&
    match s.heap[p].owner
    case Acceptor => !s.acceptor.Accepting? && s.acceptor.p == p
    case HandlerThread(t) => t < |s.handlers| && s.handlers[t].ptr == p && !s.handlers[t].pc.Finished?
  }

  /** The thread that is responsible for `p` has registered it and not yet removed it. */
  predicate InTable(s: State, p: Ptr) {
    p in s.heap &&
    match s.heap[p].owner
    case Acceptor => s.acceptor.Registered? || s.acceptor.SpawnFailed?
    case HandlerThread(t) => t < |s.handlers| && Registers(s.handlers[t].pc)
  }

  predicate ClientOk(s: State, p: Ptr) {
    p in s.heap ==>
      && Owned(s, p)
      && (InTable(s, p) ==> 0 <= s.heap[p].id < |s.slots| && s.slots[s.heap[p].id] == Some(p))
  }

  predicate SlotOk(s: State, k: nat) {
    k < |s.slots| && s.slots[k].Some? ==> InTable(s, s.slots[k].value) && s.heap[s.slots[k].value].id == k
  }

  predicate HandlerOk(s: State, t: nat) {
    t < |s.handlers| && !s.handlers[t].pc.Finished? ==>
      s.handlers[t].ptr in s.heap && s.heap[s.handlers[t].ptr].owner == HandlerThread(t)
  }

  predicate AcceptorOk(s: State) {
    !s.acceptor.Accepting? ==> s.acceptor.p in s.heap && s.heap[s.acceptor.p].owner == Acceptor
  }

  /** Every slot holds a live client that knows its index, and every live client has one thread. */
  ghost predicate Linked(s: State) {
    && AcceptorOk(s)
    && (forall p: Ptr :: ClientOk(s, p))
    && (forall t: nat :: HandlerOk(s, t))
    && (forall k: nat :: SlotOk(s, k))
  }

  ghost predicate Safe(s: State) {
    && !s.fault
    && |s.slots| == |s.outbox| == MAX_CLIENTS
    && s.clientCount == Occupied(View(s))
    && Linked(s)
  }

  lemma NotDangling(s: State)
    requires Linked(s)
    ensures !Dangling(s)
  {
    forall k: nat | k < |s.slots| && s.slots[k].Some? ensures s.slots[k].value in s.heap {
      assert SlotOk(s, k);
    }
  }

  /** The slots show the same seats when they and the clients in them are the same. */
  lemma SameView(s: State, s': State)
    requires s'.slots == s.slots
    requires forall k: nat :: k < |s.slots| ==> SeatAt(s', s.slots[k]) == SeatAt(s, s.slots[k])
    ensures View(s') == View(s)
  {
  }

  // ----- The thread-local part of a step -----

  /** What the effect of a step says about the handler's place before and after it. */
  predicate Advances(before: Pc, after: Pc, e: Effect) {
    && !before.Finished?
    && (before.Freeing? <==> e.FreeClient?)
    && (after.Freeing? <==> e.ClearSlot?)
    && (after.Finished? <==> e.FreeClient?)
  }

  lemma TurnAdvances(cfg: Config, h: Handler, c: Client, step: Step, found: bool)
    requires StepEnabled(h.pc, step)
    ensures var (h', e) := Turn(cfg, h, c, step, found); h'.ptr == h.ptr && Advances(h.pc, h'.pc, e)
  {
    hide Ascii, CutLine, Take, ParseCommand, Matches, ConfirmLine, NotFound;
  }

  /** A running handler's client is live and, until it is removed, in the handler's own slot. */
  lemma OwnSlot(s: State, t: nat)
    requires Linked(s) && t < |s.handlers| && !s.handlers[t].pc.Finished?
    ensures var p := s.handlers[t].ptr;
      && p in s.heap && s.heap[p].owner == HandlerThread(t)
      && (Registers(s.handlers[t].pc) ==> 0 <= s.heap[p].id < |s.slots| && s.slots[s.heap[p].id] == Some(p))
  {
    assert HandlerOk(s, t) && ClientOk(s, s.handlers[t].ptr);
  }

  // ----- Effects that leave the table and the heap alone -----

  predicate IsLight(e: Effect) {
    !e.WriteName? && !e.WriteFlag? && !e.ClearSlot? && !e.FreeClient?
  }

  lemma LightEffect(s: State, t: nat, h: Handler, e: Effect)
    requires Safe(s) && t < |s.handlers| && s.handlers[t].ptr in s.heap && IsLight(e)
    ensures var s' := Perform(s, t, h, e);
      && s'.slots == s.slots && s'.clientCount == s.clientCount && s'.heap == s.heap
      && s'.acceptor == s.acceptor && !s'.fault && |s'.outbox| == |s.outbox|
      && s'.handlers == s.handlers[t := h]
  {
    NotDangling(s);
  }

  /** Only handler `t` moves, within the part of its life in which its client is registered. */
  lemma MoveKeepsLinked(s: State, s': State, t: nat, h: Handler)
    requires Linked(s) && t < |s.handlers| && s'.handlers == s.handlers[t := h]
    requires s'.slots == s.slots && s'.heap == s.heap && s'.acceptor == s.acceptor
    requires h.ptr == s.handlers[t].ptr && Registers(s.handlers[t].pc) && Registers(h.pc)
    ensures Linked(s')
  {
    forall p: Ptr ensures ClientOk(s', p) { assert ClientOk(s, p); }
    forall u: nat ensures HandlerOk(s', u) { assert HandlerOk(s, u); }
    forall k: nat ensures SlotOk(s', k) { assert SlotOk(s, k); }
  }

  lemma LightKeepsSafe(s: State, t: nat, h: Handler, e: Effect)
    requires Safe(s) && t < |s.handlers| && s.handlers[t].ptr in s.heap && IsLight(e)
    requires h.ptr == s.handlers[t].ptr && Advances(s.handlers[t].pc, h.pc, e)
    ensures Safe(Perform(s, t, h, e)) && View(Perform(s, t, h, e)) == View(s)
  {
    LightEffect(s, t, h, e);
    MoveKeepsLinked(s, Perform(s, t, h, e), t, h);
    SameView(s, Perform(s, t, h, e));
  }

  // ----- Effects that write a field of the handler's own client -----

  lemma {:induction false} SameOccupancy(a: seq<Seat>, b: seq<Seat>)
    requires |a| == |b|
    requires forall k :: 0 <= k < |a| ==> (a[k] == Empty <==> b[k] == Empty)
    ensures Occupied(a) == Occupied(b)
  {
    if a != [] {
      SameOccupancy(a[1..], b[1..]);
    }
  }

  lemma WriteKeepsLinked(s: State, s': State, t: nat, h: Handler, c: Client)
    requires Linked(s) && t < |s.handlers| && s'.handlers == s.handlers[t := h]
    requires h.ptr == s.handlers[t].ptr && Registers(s.handlers[t].pc) && Registers(h.pc)
    requires h.ptr in s.heap && c.id == s.heap[h.ptr].id && c.owner == s.heap[h.ptr].owner
    requires s'.slots == s.slots && s'.heap == s.heap[h.ptr := c] && s'.acceptor == s.acceptor
    ensures Linked(s')
  {
    forall p: Ptr ensures ClientOk(s', p) { assert ClientOk(s, p); }
    forall u: nat ensures HandlerOk(s', u) { assert HandlerOk(s, u); }
    forall k: nat ensures SlotOk(s', k) { assert SlotOk(s, k); }
  }

  lemma WriteKeepsSafe(s: State, s': State, t: nat, h: Handler, c: Client)
    requires Safe(s) && t < |s.handlers| && s'.handlers == s.handlers[t := h]
    requires h.ptr == s.handlers[t].ptr && Registers(s.handlers[t].pc) && Registers(h.pc)
    requires h.ptr in s.heap && c.id == s.heap[h.ptr].id && c.owner == s.heap[h.ptr].owner
    requires s' == s.(handlers := s'.handlers, heap := s.heap[h.ptr := c])
    ensures Safe(s')
  {
    WriteKeepsLinked(s, s', t, h, c);
    SameOccupancy(View(s), View(s'));
  }

  // ----- remove_client and free -----

  /** The slot of `p`, and no other, is cleared. */
  predicate Cleared(s: State, s': State, p: Ptr) {
    && p in s.heap && 0 <= s.heap[p].id < |s.slots| && s.slots[s.heap[p].id] == Some(p)
    && s'.slots == s.slots[s.heap[p].id := None]
    && View(s') == View(s)[s.heap[p].id := Empty]
  }

  lemma ClearedSlot(s: State, s': State, k: nat)
    requires k < |s.slots| && s.slots[k].Some? && s'.slots == s.slots[k := None]
    requires s'.heap == s.heap
    ensures View(s') == View(s)[k := Empty]
    ensures Occupied(View(s')) == Occupied(View(s)) - 1
  {
    assert View(s') == View(s)[k := Empty];
    OccupiedUpdate(View(s), k, Empty);
  }

  /** Clearing the slot of `p` breaks no link once the thread of `p` counts it as removed. */
  lemma ClearKeepsLinked(s: State, s': State, p: Ptr)
    requires Linked(s) && InTable(s, p) && !InTable(s', p)
    requires 0 <= s.heap[p].id < |s.slots| && s'.slots == s.slots[s.heap[p].id := None] && s'.heap == s.heap
    requires AcceptorOk(s') && (forall q: Ptr :: Owned(s, q) ==> Owned(s', q))
    requires forall q: Ptr :: q != p ==> (InTable(s', q) <==> InTable(s, q))
    requires forall u: nat :: HandlerOk(s', u)
    ensures Linked(s')
  {
    assert ClientOk(s, p);
    forall q: Ptr ensures ClientOk(s', q) { assert ClientOk(s, q); }
    forall k: nat ensures SlotOk(s', k) { assert SlotOk(s, k); }
  }

  lemma RemoveMoves(s: State, s': State, t: nat, h: Handler)
    requires Linked(s) && t < |s.handlers| && s'.handlers == s.handlers[t := h]
    requires h.ptr == s.handlers[t].ptr && Registers(s.handlers[t].pc) && h.pc.Freeing?
    requires s'.heap == s.heap && s'.acceptor == s.acceptor
    ensures InTable(s, h.ptr) && !InTable(s', h.ptr)
    ensures AcceptorOk(s') && (forall q: Ptr :: Owned(s, q) ==> Owned(s', q))
    ensures forall q: Ptr :: q != h.ptr ==> (InTable(s', q) <==> InTable(s, q))
    ensures forall u: nat :: HandlerOk(s', u)
  {
    assert HandlerOk(s, t) && ClientOk(s, h.ptr);
    forall q: Ptr | q != h.ptr ensures InTable(s', q) <==> InTable(s, q) { assert ClientOk(s, q); }
    forall u: nat ensures HandlerOk(s', u) { assert HandlerOk(s, u); }
  }

  lemma ClearKeepsSafe(s: State, t: nat, h: Handler)
    requires Safe(s) && t < |s.handlers| && h == s.handlers[t].(pc := Freeing) && Registers(s.handlers[t].pc)
    requires h.ptr in s.heap
    ensures Safe(Perform(s, t, h, ClearSlot)) && Cleared(s, Perform(s, t, h, ClearSlot), h.ptr)
  {
    var s' := Perform(s, t, h, ClearSlot);
    OwnSlot(s, t);
    RemoveMoves(s, s', t, h);
    ClearKeepsLinked(s, s', h.ptr);
    ClearedSlot(s, s', s.heap[h.ptr].id);
  }

  /** Freeing a client that is in no slot and that no thread will follow. */
  lemma FreeKeepsLinked(s: State, s': State, p: Ptr)
    requires Linked(s) && p in s.heap && !InTable(s, p)
    requires s'.slots == s.slots && s'.heap == s.heap - {p}
    requires AcceptorOk(s') && (forall q: Ptr :: q != p && Owned(s, q) ==> Owned(s', q))
    requires forall q: Ptr :: q != p ==> (InTable(s', q) <==> InTable(s, q))
    requires forall u: nat :: HandlerOk(s', u)
    ensures Linked(s') && View(s') == View(s)
  {
    forall q: Ptr ensures ClientOk(s', q) { assert ClientOk(s, q); }
    forall k: nat ensures SlotOk(s', k) { assert SlotOk(s, k); }
    forall k: nat | k < |s.slots| ensures SeatAt(s', s.slots[k]) == SeatAt(s, s.slots[k]) { assert SlotOk(s, k); }
    SameView(s, s');
  }

  lemma FreeMoves(s: State, s': State, t: nat, h: Handler)
    requires Linked(s) && t < |s.handlers| && s'.handlers == s.handlers[t := h]
    requires h.ptr == s.handlers[t].ptr && s.handlers[t].pc.Freeing? && h.pc.Finished?
    requires s'.heap == s.heap - {h.ptr} && s'.acceptor == s.acceptor
    ensures h.ptr in s.heap && !InTable(s, h.ptr)
    ensures AcceptorOk(s') && (forall q: Ptr :: q != h.ptr && Owned(s, q) ==> Owned(s', q))
    ensures forall q: Ptr :: q != h.ptr ==> (InTable(s', q) <==> InTable(s, q))
    ensures forall u: nat :: HandlerOk(s', u)
  {
    assert HandlerOk(s, t);
    forall q: Ptr | q != h.ptr ensures InTable(s', q) <==> InTable(s, q) { assert ClientOk(s, q); }
    forall u: nat ensures HandlerOk(s', u) { assert HandlerOk(s, u); }
  }

  lemma FreeKeepsSafe(s: State, t: nat, h: Handler)
    requires Safe(s) && t < |s.handlers| && s.handlers[t].pc.Freeing? && h == s.handlers[t].(pc := Finished)
    requires h.ptr in s.heap
    ensures var s' := Perform(s, t, h, FreeClient); Safe(s') && View(s') == View(s)
  {
    var s' := Perform(s, t, h, FreeClient);
    FreeMoves(s, s', t, h);
    FreeKeepsLinked(s, s', h.ptr);
  }

  // ----- Every step of a handler -----

  lemma TurnOfRemoval(cfg: Config, s: State, t: nat, step: Step)
    requires t < |s.handlers| && StepEnabled(s.handlers[t].pc, step) && s.handlers[t].ptr in s.heap
    ensures var (h, e) := TurnOf(cfg, s, t, step);
      && (e.ClearSlot? <==> step.Remove?)
      && (e.ClearSlot? ==> h == s.handlers[t].(pc := Freeing))
      && (e.FreeClient? ==> h == s.handlers[t].(pc := Finished))
  {
    hide Ascii, CutLine, Take, ParseCommand, Matches, ConfirmLine, NotFound, View, FirstNamed;
  }

  lemma PerformKeepsSafe(s: State, t: nat, h: Handler, e: Effect)
    requires Safe(s) && t < |s.handlers| && s.handlers[t].ptr in s.heap
    requires h.ptr == s.handlers[t].ptr && Advances(s.handlers[t].pc, h.pc, e)
    requires e.ClearSlot? ==> h == s.handlers[t].(pc := Freeing)
    requires e.FreeClient? ==> h == s.handlers[t].(pc := Finished)
    ensures Safe(Perform(s, t, h, e))
  {
    var c := s.heap[h.ptr];
    match e
    case WriteName(name) => WriteKeepsSafe(s, Perform(s, t, h, e), t, h, c.(username := name));
    case WriteFlag => WriteKeepsSafe(s, Perform(s, t, h, e), t, h, c.(authenticated := true));
    case ClearSlot => ClearKeepsSafe(s, t, h);
    case FreeClient => FreeKeepsSafe(s, t, h);
    case _ => LightKeepsSafe(s, t, h, e);
  }

  /** A step of a handler is its turn and the effect of the turn. */
  lemma StepOfHandler(cfg: Config, s: State, t: nat, step: Step) returns (h: Handler, e: Effect)
    requires Linked(s) && Enabled(s, Run(t, step))
    ensures s.handlers[t].ptr in s.heap && s.heap[s.handlers[t].ptr].owner == HandlerThread(t)
    ensures (h, e) == TurnOf(cfg, s, t, step)
    ensures Next(cfg, s, Run(t, step)) == Perform(s, t, h, e)
    ensures h.ptr == s.handlers[t].ptr && Advances(s.handlers[t].pc, h.pc, e)
  {
    hide Turn, Perform, LoopNext, View, FirstNamed;
    assert HandlerOk(s, t);
    var turn := TurnOf(cfg, s, t, step);
    h, e := turn.0, turn.1;
    var pc := s.handlers[t].pc;
    TurnAdvances(cfg, s.handlers[t], s.heap[s.handlers[t].ptr], step,
                 pc.Acting? && pc.cmd.Private? && FirstNamed(View(s), pc.cmd.target) >= 0);
  }

  /** remove_client by a handler clears the handler's own slot and no other. */
  lemma RemoveKeepsSafe(cfg: Config, s: State, t: nat)
    requires Safe(s) && Enabled(s, Run(t, Remove))
    ensures var s' := Next(cfg, s, Run(t, Remove)); Safe(s') && Cleared(s, s', s.handlers[t].ptr)
  {
    hide Turn, Perform, LoopNext;
    var h, e := StepOfHandler(cfg, s, t, Remove);
    TurnOfRemoval(cfg, s, t, Remove);
    ClearKeepsSafe(s, t, h);
  }

  lemma HandlerKeepsSafe(cfg: Config, s: State, t: nat, step: Step)
    requires Safe(s) && Enabled(s, Run(t, step))
    ensures Safe(Next(cfg, s, Run(t, step)))
  {
    hide Turn, Perform, LoopNext;
    var h, e := StepOfHandler(cfg, s, t, step);
    TurnOfRemoval(cfg, s, t, step);
    PerformKeepsSafe(s, t, h, e);
  }

  // ----- The accept loop -----

  lemma AcceptKeepsSafe(cfg: Config, s: State, a: Action)
    requires Safe(s) && Enabled(s, a) && a.Accept?
    ensures var s' := Next(cfg, s, a); Safe(s') && View(s') == View(s)
  {
    hide TurnOf, Perform, LoopNext;
    var s' := Next(cfg, s, a);
    forall q: Ptr ensures ClientOk(s', q) { assert ClientOk(s, q); }
    forall u: nat ensures HandlerOk(s', u) { assert HandlerOk(s, u); }
    forall k: nat ensures SlotOk(s', k) { assert SlotOk(s, k); }
    forall k: nat | k < |s.slots| ensures SeatAt(s', s.slots[k]) == SeatAt(s, s.slots[k]) { assert SlotOk(s, k); }
    SameView(s, s');
  }

  /** A step of the accept loop after accept has a live client to work on. */
  lemma StepOfLoop(cfg: Config, s: State, move: Move)
    requires Linked(s) && Enabled(s, Loop(move))
    ensures var p := s.acceptor.p;
      p in s.heap && s.heap[p].owner == Acceptor && Next(cfg, s, Loop(move)) == LoopNext(s, p, move)
  {
    hide TurnOf, Perform, LoopNext;
  }

  lemma RefusedKeepsLinked(s: State, s': State, p: Ptr)
    requires Linked(s) && s.acceptor == Allocated(p) && s' == s.(acceptor := Refused(p))
    ensures Linked(s') && View(s') == View(s)
  {
    forall q: Ptr ensures ClientOk(s', q) { assert ClientOk(s, q); }
    forall u: nat ensures HandlerOk(s', u) { assert HandlerOk(s, u); }
    forall k: nat ensures SlotOk(s', k) { assert SlotOk(s, k); }
    SameView(s, s');
  }

  lemma AddedKeepsLinked(s: State, s': State, p: Ptr, k: nat)
    requires Linked(s) && s.acceptor == Allocated(p) && s'.acceptor == Registered(p) && s'.handlers == s.handlers
    requires k < |s.slots| && s.slots[k].None? && s'.slots == s.slots[k := Some(p)]
    requires p in s.heap && s'.heap == s.heap[p := s.heap[p].(id := k)]
    ensures Linked(s')
  {
    forall q: Ptr ensures ClientOk(s', q) { assert ClientOk(s, q); }
    forall u: nat ensures HandlerOk(s', u) { assert HandlerOk(s, u); }
    forall i: nat ensures SlotOk(s', i) { assert SlotOk(s, i); }
  }

  lemma AddedView(s: State, s': State, p: Ptr, k: nat)
    requires Linked(s) && s.acceptor == Allocated(p)
    requires k < |s.slots| && s.slots[k].None? && s'.slots == s.slots[k := Some(p)]
    requires p in s.heap && s'.heap == s.heap[p := s.heap[p].(id := k)]
    ensures View(s') == View(s)[k := SeatAt(s, Some(p))] && Occupied(View(s')) == Occupied(View(s)) + 1
  {
    assert View(s') == View(s)[k := SeatAt(s, Some(p))];
    OccupiedUpdate(View(s), k, SeatAt(s, Some(p)));
  }

  /** The least free slot, if there is one, shows the seat of `p`. */
  predicate Added(s: State, s': State, p: Ptr) {
    var k := FirstEmpty(View(s));
    if k < 0 then s'.acceptor == Refused(p) && s'.slots == s.slots && View(s') == View(s)
    else
      && s'.acceptor == Registered(p) && s'.slots == s.slots[k := Some(p)]
      && View(s') == View(s)[k := SeatAt(s, Some(p))]
  }

  /** add_client takes the least free slot, or none exactly when all are taken. */
  lemma AddKeepsSafe(cfg: Config, s: State)
    requires Safe(s) && Enabled(s, Loop(Add))
    ensures var s' := Next(cfg, s, Loop(Add)); Safe(s') && Added(s, s', s.acceptor.p)
    ensures FirstEmpty(View(s)) < 0 <==> s.clientCount == 100
  {
    hide TurnOf, Perform;
    StepOfLoop(cfg, s, Add);
    var p, k := s.acceptor.p, FirstEmpty(View(s));
    var s' := AddClient(s, p);
    if k < 0 {
      RefusedKeepsLinked(s, s', p);
    } else {
      AddedKeepsLinked(s, s', p, k);
      AddedView(s, s', p, k);
    }
  }

  lemma SpawnedKeepsLinked(s: State, s': State, p: Ptr)
    requires Linked(s) && s.acceptor == Registered(p) && s'.acceptor == Accepting && s'.slots == s.slots
    requires s'.handlers == s.handlers + [Handler(p, AskName, [], [])]
    requires p in s.heap && s'.heap == s.heap[p := s.heap[p].(owner := HandlerThread(|s.handlers|))]
    ensures Linked(s') && View(s') == View(s)
  {
    forall q: Ptr ensures ClientOk(s', q) { assert ClientOk(s, q); }
    forall u: nat ensures HandlerOk(s', u) { assert HandlerOk(s, u); }
    forall k: nat ensures SlotOk(s', k) {
      assert SlotOk(s, k) && (k < |s.slots| && s.slots[k].Some? ==> ClientOk(s, s.slots[k].value));
    }
    SameView(s, s');
  }

  lemma SpawnKeepsSafe(cfg: Config, s: State, created: bool)
    requires Safe(s) && Enabled(s, Loop(Spawn(created)))
    ensures var s' := Next(cfg, s, Loop(Spawn(created))); Safe(s') && View(s') == View(s)
  {
    hide TurnOf, Perform;
    StepOfLoop(cfg, s, Spawn(created));
    var p := s.acceptor.p;
    var s' := LoopNext(s, p, Spawn(created));
    if created {
      SpawnedKeepsLinked(s, s', p);
    } else {
      forall q: Ptr ensures ClientOk(s', q) { assert ClientOk(s, q); }
      forall u: nat ensures HandlerOk(s', u) { assert HandlerOk(s, u); }
      forall k: nat ensures SlotOk(s', k) { assert SlotOk(s, k); }
      SameView(s, s');
    }
  }

  lemma UnregisterMoves(s: State, s': State, p: Ptr)
    requires Linked(s) && s.acceptor == SpawnFailed(p) && s'.acceptor == Unregistered(p)
    requires s'.heap == s.heap && s'.handlers == s.handlers
    ensures InTable(s, p) && !InTable(s', p)
    ensures AcceptorOk(s') && (forall q: Ptr :: Owned(s, q) ==> Owned(s', q))
    ensures forall q: Ptr :: q != p ==> (InTable(s', q) <==> InTable(s, q))
    ensures forall u: nat :: HandlerOk(s', u)
  {
    forall q: Ptr | q != p ensures InTable(s', q) <==> InTable(s, q) { assert ClientOk(s, q); }
    forall u: nat ensures HandlerOk(s', u) { assert HandlerOk(s, u); }
  }

  lemma UnregisterKeepsSafe(cfg: Config, s: State)
    requires Safe(s) && Enabled(s, Loop(Unregister))
    ensures var s' := Next(cfg, s, Loop(Unregister)); Safe(s') && Cleared(s, s', s.acceptor.p)
  {
    hide TurnOf, Perform;
    StepOfLoop(cfg, s, Unregister);
    var p := s.acceptor.p;
    var s' := LoopNext(s, p, Unregister);
    assert ClientOk(s, p);
    UnregisterMoves(s, s', p);
    ClearKeepsLinked(s, s', p);
    ClearedSlot(s, s', s.heap[p].id);
  }

  lemma DiscardMoves(s: State, s': State, p: Ptr)
    requires Linked(s) && (s.acceptor == Refused(p) || s.acceptor == Unregistered(p)) && s'.acceptor == Accepting
    requires s'.heap == s.heap - {p} && s'.handlers == s.handlers
    ensures p in s.heap && !InTable(s, p)
    ensures AcceptorOk(s') && (forall q: Ptr :: q != p && Owned(s, q) ==> Owned(s', q))
    ensures forall q: Ptr :: q != p ==> (InTable(s', q) <==> InTable(s, q))
    ensures forall u: nat :: HandlerOk(s', u)
  {
    forall q: Ptr | q != p ensures InTable(s', q) <==> InTable(s, q) { assert ClientOk(s, q); }
    forall u: nat ensures HandlerOk(s', u) { assert HandlerOk(s, u); }
  }

  lemma DiscardKeepsSafe(cfg: Config, s: State, move: Move)
    requires Safe(s) && Enabled(s, Loop(move)) && (move.Refuse? || move.GiveUp?)
    ensures var s' := Next(cfg, s, Loop(move)); Safe(s') && View(s') == View(s)
  {
    hide TurnOf, Perform;
    StepOfLoop(cfg, s, move);
    var p := s.acceptor.p;
    var s' := Discard(s, p);
    DiscardMoves(s, s', p);
    FreeKeepsLinked(s, s', p);
  }

  // ----- Every step, every run -----

  lemma StepKeepsSafe(cfg: Config, s: State, a: Action)
    requires Safe(s) && Enabled(s, a)
    ensures Safe(Next(cfg, s, a))
  {
    hide Next;
    match a
    case Accept(_, _, _, _) => AcceptKeepsSafe(cfg, s, a);
    case Run(t, step) => HandlerKeepsSafe(cfg, s, t, step);
    case Loop(move) =>
      match move
      case Add => AddKeepsSafe(cfg, s);
      case Spawn(created) => SpawnKeepsSafe(cfg, s, created);
      case Unregister => UnregisterKeepsSafe(cfg, s);
      case _ => DiscardKeepsSafe(cfg, s, move);
  }

  lemma InitialIsSafe()
    ensures Safe(Initial())
  {
    var s := Initial();
    NoneOccupied(View(s));
    assert forall p: Ptr :: ClientOk(s, p);
    assert forall t: nat :: HandlerOk(s, t);
    assert forall k: nat :: SlotOk(s, k);
  }

  lemma {:induction false} RunKeepsSafe(cfg: Config, s: State, run: seq<Action>)
    requires Safe(s) && ValidRun(cfg, s, run)
    ensures Safe(Exec(cfg, s, run))
    decreases |run|
  {
    hide Next;
    if run != [] {
      StepKeepsSafe(cfg, s, run[0]);
      RunKeepsSafe(cfg, Next(cfg, s, run[0]), run[1..]);
    }
  }

  /** The only live handler that holds `p` is its owner; if the accept loop owns it, no handler holds it. */
  predicate HeldByOwnerAlone(s: State, p: Ptr) {
    && Owned(s, p)
    && forall t: nat :: t < |s.handlers| && !s.handlers[t].pc.Finished? && s.handlers[t].ptr == p ==>
         s.heap[p].owner == HandlerThread(t)
  }

  lemma TakenSlot(s: State, k: nat)
    requires Linked(s) && k < |s.slots| && s.slots[k].Some?
    ensures var p := s.slots[k].value;
      && p in s.heap && s.heap[p].id == k && HeldByOwnerAlone(s, p)
      && forall j :: 0 <= j < |s.slots| && s.slots[j] == s.slots[k] ==> j == k
  {
    var p := s.slots[k].value;
    assert SlotOk(s, k) && ClientOk(s, p);
    forall t: nat | t < |s.handlers| && !s.handlers[t].pc.Finished? && s.handlers[t].ptr == p
      ensures s.heap[p].owner == HandlerThread(t)
    {
      assert HandlerOk(s, t);
    }
    forall j | 0 <= j < |s.slots| && s.slots[j] == s.slots[k] ensures j == k {
      assert SlotOk(s, j);
    }
  }

  /** In every reachable state no freed client has been followed or freed again; a taken slot points
      to a live client that knows its index, is in no other slot and is held by one live thread and
      no other; and the counter is the number of taken slots. */
  lemma ReachableIsSafe(cfg: Config, run: seq<Action>)
    requires ValidRun(cfg, Initial(), run)
    ensures var s := Exec(cfg, Initial(), run);
      && !s.fault
      && 0 <= s.clientCount == Occupied(View(s)) <= 100
      && |s.slots| == 100
      && forall k :: 0 <= k < 100 && s.slots[k].Some? ==>
        var p := s.slots[k].value;
        && p in s.heap && s.heap[p].id == k && HeldByOwnerAlone(s, p)
        && forall j :: 0 <= j < 100 && s.slots[j] == s.slots[k] ==> j == k
  {
    hide Exec, Next, Initial;
    InitialIsSafe();
    RunKeepsSafe(cfg, Initial(), run);
    var s := Exec(cfg, Initial(), run);
    forall k | 0 <= k < 100 && s.slots[k].Some?
      ensures var p := s.slots[k].value;
        && p in s.heap && s.heap[p].id == k && HeldByOwnerAlone(s, p)
        && forall j :: 0 <= j < 100 && s.slots[j] == s.slots[k] ==> j == k
    {
      TakenSlot(s, k);
    }
  }
}
