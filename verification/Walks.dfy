/** Why one walk over the client table is one step. A walk holds the mutex and visits the slots one by
    one, but `authenticated` is set, and replies are sent, without the mutex. Such an unlocked action
    touches one slot; placing it before the walk when the walk has yet to visit that slot, and after
    the walk otherwise, gives the same result with the walk in one piece. */
module Walks {
  import opened Accounts
  import opened Bytes
  import opened ChatRoom
  import opened ChatServer
  import opened Logins
  import opened Protocol
  import opened Refinement
  import opened Room
  import opened SlotSafety

  // ----- Unlocked actions -----

  /** An unlocked action of the handler whose client is in slot `k`. */
  datatype Local = Admission(k: nat, name: Bytes) | Response(k: nat, line: Bytes)

  predicate Square(r: RoomState) {
    |r.seats| == |r.outbox|
  }

  function Do(r: RoomState, l: Local): (r': RoomState)
    ensures |r'.seats| == |r.seats| && |r'.outbox| == |r.outbox|
  {
    match l
    case Admission(k, name) => if k < |r.seats| then r.(seats := r.seats[k := User(name)]) else r
    case Response(k, line) => r.(outbox := Push(r.outbox, k, Direct(line)))
  }

  function DoAll(r: RoomState, ls: seq<Local>): (r': RoomState)
    ensures |r'.seats| == |r.seats| && |r'.outbox| == |r.outbox|
  {
    if ls == [] then r else Do(DoAll(r, ls[..|ls| - 1]), ls[|ls| - 1])
  }

  predicate Avoid(ls: seq<Local>, k: int) {
    forall m :: 0 <= m < |ls| ==> ls[m].k != k
  }

  lemma DoLonger(r: RoomState, ls: seq<Local>, l: Local)
    ensures DoAll(r, ls + [l]) == Do(DoAll(r, ls), l)
  {
    assert (ls + [l])[..|ls|] == ls;
  }

  lemma DifferentSlots(r: RoomState, a: Local, b: Local)
    requires a.k != b.k
    ensures Do(Do(r, a), b) == Do(Do(r, b), a)
  {
  }

  /** Actions on different slots commute. */
  lemma {:induction false} ActionCommutes(r: RoomState, ls: seq<Local>, l: Local)
    requires Avoid(ls, l.k)
    ensures Do(DoAll(r, ls), l) == DoAll(Do(r, l), ls)
  {
    if ls != [] {
      var rest, last := ls[..|ls| - 1], ls[|ls| - 1];
      ActionCommutes(r, rest, l);
      DifferentSlots(DoAll(r, rest), last, l);
    }
  }

  function Send(r: RoomState, k: int, d: Delivery): (r': RoomState)
    ensures r'.seats == r.seats && |r'.outbox| == |r.outbox|
  {
    r.(outbox := Push(r.outbox, k, d))
  }

  lemma SendCommutesOnce(r: RoomState, l: Local, k: int, d: Delivery)
    requires l.k != k
    ensures Send(Do(r, l), k, d) == Do(Send(r, k, d), l)
  {
  }

  /** A send to one slot commutes with actions on others. */
  lemma {:induction false} SendCommutes(r: RoomState, ls: seq<Local>, k: int, d: Delivery)
    requires Avoid(ls, k)
    ensures Send(DoAll(r, ls), k, d) == DoAll(Send(r, k, d), ls)
  {
    if ls != [] {
      var rest, last := ls[..|ls| - 1], ls[|ls| - 1];
      SendCommutes(r, rest, k, d);
      SendCommutesOnce(DoAll(r, rest), last, k, d);
    }
  }

  lemma {:induction false} OtherSeatStays(r: RoomState, ls: seq<Local>, k: nat)
    requires k < |r.seats| && Avoid(ls, k)
    ensures DoAll(r, ls).seats[k] == r.seats[k]
  {
    if ls != [] {
      OtherSeatStays(r, ls[..|ls| - 1], k);
      assert ls[|ls| - 1].k != k;
    }
  }

  // ----- The three walks -----

  datatype Walker =
    | Broadcasting(sender: int, d: Delivery)     // send_message_to_all
    | Searching(target: Bytes, d: Delivery)      // send_private_message
    | Collecting(asker: int)                     // send_user_list

  /** A walk under way: the room, the number of slots visited, the names in the list, and whether the
      mutex is about to be released. */
  datatype Walk = Walk(room: RoomState, visited: nat, names: seq<Bytes>, over: bool)

  /** The next thing that the walking thread does: a visit, or, behind the last slot, the end. */
  function Advance(w: Walker, now: Walk): (next: Walk)
    ensures |next.room.seats| == |now.room.seats| && |next.room.outbox| == |now.room.outbox|
  {
    if now.over then now
    else if now.visited >= |now.room.seats| then now.(room := Closing(w, now.room, now.names), over := true)
    else
      var i := now.visited;
      var seat := now.room.seats[i];
      match w
      case Broadcasting(sender, d) =>
        now.(room := if Hears(now.room.seats, i, sender) then Send(now.room, i, d) else now.room, visited := i + 1)
      case Searching(target, d) =>
        if seat == User(target) then now.(room := Send(now.room, i, d), visited := i + 1, over := true)
        else now.(visited := i + 1)
      case Collecting(_) => now.(names := WithSeat(now.names, seat), visited := i + 1)
  }

  /** What is left to do behind the last slot: the list is sent. */
  function Closing(w: Walker, r: RoomState, names: seq<Bytes>): (r': RoomState)
    ensures r'.seats == r.seats && |r'.outbox| == |r.outbox|
  {
    if w.Collecting? && Seated(r, w.asker) then Send(r, w.asker, Roster(ListLine(names))) else r
  }

  /** The whole walk in one piece. */
  function Atomic(w: Walker, r: RoomState): (r': RoomState)
    ensures r'.seats == r.seats && |r'.outbox| == |r.outbox|
  {
    match w
    case Broadcasting(sender, d) => r.(outbox := Deliver(r.seats, r.outbox, sender, d))
    case Searching(target, d) => Send(r, FirstNamed(r.seats, target), d)
    case Collecting(asker) => Closing(w, r, Users(r.seats))
  }

  predicate IsWalk(op: Op) {
    op.Say? || op.Pass? || op.Roll?
  }

  /** The walk with which the speaker's thread carries out an operation of the room. */
  function WalkerOf(r: RoomState, op: Op): Walker
    requires IsWalk(op) && Speaks(r, op.k)
  {
    var name := r.seats[op.k].name;
    match op
    case Say(k, speech) => Broadcasting(k, Heard(k, SpokenLine(name, speech)))
    case Pass(k, target, text) => Searching(target, Whisper(PrivateLine(name, text)))
    case Roll(k) => Collecting(k)
  }

  /** The room's operation is that walk in one piece. */
  lemma AtomicIsOneOperation(db: seq<Account>, r: RoomState, op: Op)
    requires IsWalk(op) && Allowed(db, r, op)
    ensures Apply(db, r, op) == Atomic(WalkerOf(r, op), r)
  {
  }

  // ----- Interleavings -----

  /** The interleaving during one walk: the walking thread goes on, or another acts without the mutex. */
  datatype Event = Visit | Unlocked(local: Local)

  function Progress(w: Walker, r: RoomState, events: seq<Event>): (now: Walk)
    ensures |now.room.seats| == |r.seats| && |now.room.outbox| == |r.outbox|
  {
    if events == [] then Walk(r, 0, [], false)
    else
      var now := Progress(w, r, events[..|events| - 1]);
      match events[|events| - 1]
      case Visit => Advance(w, now)
      case Unlocked(l) => now.(room := Do(now.room, l))
  }

  /** The walk has passed the slot, or is over. */
  predicate Passed(now: Walk, k: nat) {
    now.over || k < now.visited
  }

  /** The unlocked actions on slots that the walk had yet to visit when they happened, or had passed. */
  function Placed(w: Walker, r: RoomState, events: seq<Event>, late: bool): seq<Local> {
    if events == [] then []
    else
      var rest, e := events[..|events| - 1], events[|events| - 1];
      var placed := Placed(w, r, rest, late);
      if e.Unlocked? && (Passed(Progress(w, r, rest), e.local.k) <==> late) then placed + [e.local] else placed
  }

  function Early(w: Walker, r: RoomState, events: seq<Event>): seq<Local> {
    Placed(w, r, events, false)
  }

  function Late(w: Walker, r: RoomState, events: seq<Event>): seq<Local> {
    Placed(w, r, events, true)
  }

  /** Delivery to the slots below `i` only. */
  function DeliverBelow(r: RoomState, i: nat, sender: int, d: Delivery): (r': RoomState)
    ensures r'.seats == r.seats && |r'.outbox| == |r.outbox|
  {
    r.(outbox := seq(|r.outbox|, k requires 0 <= k < |r.outbox| =>
      if k < i && Hears(r.seats, k, sender) then r.outbox[k] + [d] else r.outbox[k]))
  }

  /** What a walk that is not over has done to a room. */
  function Partial(w: Walker, r: RoomState, i: nat): (r': RoomState)
    ensures r'.seats == r.seats && |r'.outbox| == |r.outbox|
  {
    if w.Broadcasting? then DeliverBelow(r, i, w.sender, w.d) else r
  }

  /** What a walk that is not over has found out about the seats below `i`. */
  predicate Learnt(w: Walker, seats: seq<Seat>, i: nat, names: seq<Bytes>)
    requires i <= |seats|
  {
    match w
    case Broadcasting(_, _) => true
    case Searching(target, _) => User(target) !in seats[..i]
    case Collecting(_) => names == UsersTo(seats, i)
  }

  /** The walk so far is the early actions, a part of the atomic walk or all of it, and the late actions. */
  ghost predicate Explained(w: Walker, early: RoomState, late: seq<Local>, now: Walk) {
    && Square(early) && now.visited <= |early.seats| == |now.room.seats|
    && (w.Collecting? ==> Avoid(late, w.asker))
    && (if now.over then now.room == DoAll(Atomic(w, early), late)
        else
          && now.room == DoAll(Partial(w, early, now.visited), late)
          && Learnt(w, early.seats, now.visited, now.names)
          && forall m :: 0 <= m < |late| ==> late[m].k < now.visited)
  }

  lemma LateExplained(w: Walker, early: RoomState, late: seq<Local>, now: Walk, l: Local)
    requires Explained(w, early, late, now) && Passed(now, l.k) && (w.Collecting? ==> l.k != w.asker)
    ensures Explained(w, early, late + [l], now.(room := Do(now.room, l)))
  {
    DoLonger(Partial(w, early, now.visited), late, l);
    DoLonger(Atomic(w, early), late, l);
  }

  lemma PartialCommutes(w: Walker, r: RoomState, i: nat, l: Local)
    requires Square(r) && l.k >= i
    ensures Do(Partial(w, r, i), l) == Partial(w, Do(r, l), i)
  {
    if w.Broadcasting? {
      assert Do(DeliverBelow(r, i, w.sender, w.d), l).outbox == DeliverBelow(Do(r, l), i, w.sender, w.d).outbox;
    }
  }

  lemma {:induction false} SameUsers(a: seq<Seat>, b: seq<Seat>, i: nat)
    requires i <= |a| == |b| && forall k :: 0 <= k < i ==> a[k] == b[k]
    ensures UsersTo(a, i) == UsersTo(b, i)
  {
    if i > 0 {
      SameUsers(a, b, i - 1);
    }
  }

  lemma LearntStays(w: Walker, r: RoomState, i: nat, names: seq<Bytes>, l: Local)
    requires i <= |r.seats| && Learnt(w, r.seats, i, names) && l.k >= i
    ensures Learnt(w, Do(r, l).seats, i, names)
  {
    assert Do(r, l).seats[..i] == r.seats[..i];
    SameUsers(r.seats, Do(r, l).seats, i);
  }

  lemma EarlyExplained(w: Walker, early: RoomState, late: seq<Local>, now: Walk, l: Local)
    requires Explained(w, early, late, now) && !Passed(now, l.k)
    ensures Explained(w, Do(early, l), late, now.(room := Do(now.room, l)))
  {
    ActionCommutes(Partial(w, early, now.visited), late, l);
    PartialCommutes(w, early, now.visited, l);
    LearntStays(w, early, now.visited, now.names, l);
  }

  lemma BroadcastVisit(r: RoomState, i: nat, sender: int, d: Delivery)
    requires Square(r) && i < |r.seats|
    ensures var before := DeliverBelow(r, i, sender, d);
      DeliverBelow(r, i + 1, sender, d) == if Hears(r.seats, i, sender) then Send(before, i, d) else before
  {
    var next := DeliverBelow(r, i + 1, sender, d).outbox;
    if Hears(r.seats, i, sender) {
      assert next == Send(DeliverBelow(r, i, sender, d), i, d).outbox;
    } else {
      assert next == DeliverBelow(r, i, sender, d).outbox;
    }
  }

  lemma BroadcastExplained(w: Walker, early: RoomState, late: seq<Local>, now: Walk)
    requires w.Broadcasting? && Explained(w, early, late, now) && !now.over && now.visited < |now.room.seats|
    ensures Explained(w, early, late, Advance(w, now))
  {
    var i := now.visited;
    OtherSeatStays(Partial(w, early, i), late, i);
    SendCommutes(Partial(w, early, i), late, i, w.d);
    BroadcastVisit(early, i, w.sender, w.d);
  }

  lemma SearchExplained(w: Walker, early: RoomState, late: seq<Local>, now: Walk)
    requires w.Searching? && Explained(w, early, late, now) && !now.over && now.visited < |now.room.seats|
    ensures Explained(w, early, late, Advance(w, now))
  {
    var i := now.visited;
    OtherSeatStays(early, late, i);
    assert early.seats[..i + 1] == early.seats[..i] + [early.seats[i]];
    if early.seats[i] == User(w.target) {
      FirstNamedIs(early.seats, w.target, i);
      SendCommutes(early, late, i, w.d);
    }
  }

  lemma CollectExplained(w: Walker, early: RoomState, late: seq<Local>, now: Walk)
    requires w.Collecting? && Explained(w, early, late, now) && !now.over && now.visited < |now.room.seats|
    ensures Explained(w, early, late, Advance(w, now))
  {
    OtherSeatStays(early, late, now.visited);
  }

  lemma AllDelivered(r: RoomState, sender: int, d: Delivery)
    requires Square(r)
    ensures DeliverBelow(r, |r.seats|, sender, d) == Atomic(Broadcasting(sender, d), r)
  {
    assert DeliverBelow(r, |r.seats|, sender, d).outbox == Deliver(r.seats, r.outbox, sender, d);
  }

  lemma EndExplained(w: Walker, early: RoomState, late: seq<Local>, now: Walk)
    requires Explained(w, early, late, now) && !now.over && now.visited == |now.room.seats|
    ensures Explained(w, early, late, Advance(w, now))
  {
    assert early.seats[..now.visited] == early.seats;
    match w
    case Broadcasting(sender, d) => AllDelivered(early, sender, d);
    case Searching(_, _) =>
    case Collecting(asker) =>
      if 0 <= asker < |early.seats| {
        OtherSeatStays(early, late, asker);
        SendCommutes(early, late, asker, Roster(ListLine(now.names)));
      }
  }

  lemma VisitExplained(w: Walker, early: RoomState, late: seq<Local>, now: Walk)
    requires Explained(w, early, late, now)
    ensures Explained(w, early, late, Advance(w, now))
  {
    if !now.over {
      if now.visited == |now.room.seats| {
        EndExplained(w, early, late, now);
      } else {
        match w
        case Broadcasting(_, _) => BroadcastExplained(w, early, late, now);
        case Searching(_, _) => SearchExplained(w, early, late, now);
        case Collecting(_) => CollectExplained(w, early, late, now);
      }
    }
  }

  /** While it walks, a handler takes no unlocked action itself, so nothing else happens in its slot. */
  predicate Undisturbed(w: Walker, events: seq<Event>) {
    w.Collecting? ==> forall m :: 0 <= m < |events| && events[m].Unlocked? ==> events[m].local.k != w.asker
  }

  lemma {:induction false} WalkSoFar(w: Walker, r: RoomState, events: seq<Event>)
    requires Square(r) && Undisturbed(w, events)
    ensures Explained(w, DoAll(r, Early(w, r, events)), Late(w, r, events), Progress(w, r, events))
  {
    if events != [] {
      var rest, e := events[..|events| - 1], events[|events| - 1];
      WalkSoFar(w, r, rest);
      var early, late, now := Early(w, r, rest), Late(w, r, rest), Progress(w, r, rest);
      match e
      case Visit => VisitExplained(w, DoAll(r, early), late, now);
      case Unlocked(l) =>
        assert w.Collecting? ==> events[|events| - 1].local.k != w.asker;
        if Passed(now, l.k) {
          LateExplained(w, DoAll(r, early), late, now, l);
        } else {
          EarlyExplained(w, DoAll(r, early), late, now, l);
          DoLonger(r, early, l);
        }
    }
  }

  /** A walk that is over, whatever unlocked actions fell inside it, leaves what the early actions, the
      whole walk in one piece and the late actions leave, in that order: a broadcast, a search that
      stops at its first hit, or a list with the send that ends it. */
  lemma WalkIsAtomic(w: Walker, r: RoomState, events: seq<Event>)
    requires Square(r) && Undisturbed(w, events) && Progress(w, r, events).over
    ensures Progress(w, r, events).room == DoAll(Atomic(w, DoAll(r, Early(w, r, events))), Late(w, r, events))
  {
    WalkSoFar(w, r, events);
  }

  // ----- Nothing is lost or turned around -----

  function OfSlot(ls: seq<Local>, k: nat): seq<Local> {
    if ls == [] then []
    else if ls[|ls| - 1].k == k then OfSlot(ls[..|ls| - 1], k) + [ls[|ls| - 1]]
    else OfSlot(ls[..|ls| - 1], k)
  }

  function Actions(events: seq<Event>): seq<Local> {
    if events == [] then []
    else if events[|events| - 1].Unlocked? then Actions(events[..|events| - 1]) + [events[|events| - 1].local]
    else Actions(events[..|events| - 1])
  }

  lemma OfSlotLonger(ls: seq<Local>, l: Local, k: nat)
    ensures OfSlot(ls + [l], k) == if l.k == k then OfSlot(ls, k) + [l] else OfSlot(ls, k)
  {
    assert (ls + [l])[..|ls|] == ls;
  }

  lemma {:induction false} NoneOfSlot(ls: seq<Local>, k: nat)
    requires Avoid(ls, k)
    ensures OfSlot(ls, k) == []
  {
    if ls != [] {
      NoneOfSlot(ls[..|ls| - 1], k);
      assert ls[|ls| - 1].k != k;
    }
  }

  lemma AppendBehind(a: seq<Local>, b: seq<Local>, l: Local)
    ensures a + (b + [l]) == a + b + [l]
  {
  }

  lemma LateInOrder(early: seq<Local>, late: seq<Local>, all: seq<Local>, l: Local, k: nat)
    requires OfSlot(early, k) + OfSlot(late, k) == OfSlot(all, k)
    ensures OfSlot(early, k) + OfSlot(late + [l], k) == OfSlot(all + [l], k)
  {
    OfSlotLonger(late, l, k);
    OfSlotLonger(all, l, k);
    AppendBehind(OfSlot(early, k), OfSlot(late, k), l);
  }

  lemma EarlyInOrder(early: seq<Local>, late: seq<Local>, all: seq<Local>, l: Local, k: nat)
    requires OfSlot(early, k) + OfSlot(late, k) == OfSlot(all, k) && Avoid(late, l.k)
    ensures OfSlot(early + [l], k) + OfSlot(late, k) == OfSlot(all + [l], k)
  {
    OfSlotLonger(early, l, k);
    OfSlotLonger(all, l, k);
    if l.k == k {
      NoneOfSlot(late, k);
    }
  }

  lemma EarlyAvoidsLate(w: Walker, r: RoomState, events: seq<Event>, l: Local)
    requires Square(r) && Undisturbed(w, events) && !Passed(Progress(w, r, events), l.k)
    ensures Avoid(Late(w, r, events), l.k)
  {
    WalkSoFar(w, r, events);
  }

  lemma PlacingOne(w: Walker, r: RoomState, rest: seq<Event>, l: Local, k: nat)
    requires Square(r) && Undisturbed(w, rest)
    requires OfSlot(Early(w, r, rest), k) + OfSlot(Late(w, r, rest), k) == OfSlot(Actions(rest), k)
    ensures var events := rest + [Unlocked(l)];
      OfSlot(Early(w, r, events), k) + OfSlot(Late(w, r, events), k) == OfSlot(Actions(rest) + [l], k)
  {
    var events := rest + [Unlocked(l)];
    assert events[..|events| - 1] == rest;
    var early, late := Early(w, r, rest), Late(w, r, rest);
    if Passed(Progress(w, r, rest), l.k) {
      assert Early(w, r, events) == early && Late(w, r, events) == late + [l];
      LateInOrder(early, late, Actions(rest), l, k);
    } else {
      assert Early(w, r, events) == early + [l] && Late(w, r, events) == late;
      EarlyAvoidsLate(w, r, rest, l);
      EarlyInOrder(early, late, Actions(rest), l, k);
    }
  }

  /** For every slot the early and then the late actions are all actions on the slot, in their own order. */
  lemma {:induction false} PlacingKeepsOrder(w: Walker, r: RoomState, events: seq<Event>, k: nat)
    requires Square(r) && Undisturbed(w, events)
    ensures OfSlot(Early(w, r, events), k) + OfSlot(Late(w, r, events), k) == OfSlot(Actions(events), k)
  {
    hide Progress;
    if events != [] {
      var rest, e := events[..|events| - 1], events[|events| - 1];
      PlacingKeepsOrder(w, r, rest, k);
      if e.Unlocked? {
        PlacingOne(w, r, rest, e.local, k);
        assert Actions(events) == Actions(rest) + [e.local];
        assert rest + [e] == events;
      } else {
        assert Early(w, r, events) == Early(w, r, rest) && Late(w, r, events) == Late(w, r, rest);
      }
    }
  }

  // ----- The unlocked actions of the server -----

  /** The action is done without the mutex. */
  predicate WithoutMutex(cfg: Config, s: State, a: Action)
    requires Enabled(s, a)
  {
    match a
    case Accept(_, _, _, _) => true
    case Loop(move) => !move.Add? && !move.Unregister?
    case Run(t, step) =>
      s.handlers[t].ptr in s.heap &&
      var e := TurnOf(cfg, s, t, step).1; !FollowsTable(e) && !e.ClearSlot?
  }

  /** What the room sees of an action without the mutex. */
  function LocalOf(cfg: Config, s: State, a: Action): Option<Local>
    requires Enabled(s, a)
  {
    if a.Run? && s.handlers[a.t].ptr in s.heap && s.heap[s.handlers[a.t].ptr].id >= 0 then
      var c := s.heap[s.handlers[a.t].ptr];
      match TurnOf(cfg, s, a.t, a.step).1
      case Tell(line) => Some(Response(c.id, line))
      case WriteFlag => Some(Admission(c.id, c.username))
      case _ => None
    else None
  }

  /** Every action that the server takes without the mutex is one local action of the room, or none. */
  lemma UnlockedIsLocal(cfg: Config, s: State, a: Action)
    requires Safe(s) && Vetted(cfg, s) && Enabled(s, a) && WithoutMutex(cfg, s, a)
    ensures Abstraction(Next(cfg, s, a))
         == match LocalOf(cfg, s, a) case None => Abstraction(s) case Some(l) => Do(Abstraction(s), l)
  {
    hide Next, Turn;
    StepSimulates(cfg, s, a);
  }

  /** It touches the slot of the acting handler, which is not the slot of a handler that is walking. */
  lemma LocalIsElsewhere(cfg: Config, s: State, a: Action, walking: nat)
    requires Safe(s) && Vetted(cfg, s) && Enabled(s, a) && LocalOf(cfg, s, a).Some?
    requires walking < |s.handlers| && Registers(s.handlers[walking].pc) && a.t != walking
    ensures var p := s.handlers[walking].ptr; p in s.heap && LocalOf(cfg, s, a).value.k != s.heap[p].id
  {
    hide Next, Turn;
    var h, e := StepOfHandler(cfg, s, a.t, a.step);
    OwnSlot(s, a.t);
    OwnSlot(s, walking);
  }
}
