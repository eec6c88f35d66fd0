/** An atomic chat room without threads, pointers, locks or counters: the specification that the
    concurrent server refines. */
module ChatRoom {
  import opened Accounts
  import opened Bytes
  import opened Protocol
  import opened Room

  datatype RoomState = RoomState(seats: seq<Seat>, outbox: Outbox)

  datatype Op =
    | Idle
    | Sit(k: int)                                     // a new guest takes the least free seat
    | Admit(k: int, name: Bytes)                      // the guest becomes a user
    | Say(k: int, speech: Speech)                     // every other user hears the user in seat k
    | Pass(k: int, target: Bytes, text: Bytes)        // the first user named `target` gets a private line
    | Roll(k: int)                                    // the user in seat k gets the user list
    | Reply(k: int, line: Bytes)                      // the occupant of seat k alone gets a line
    | Vacate(k: int)

  predicate Valid(r: RoomState) {
    |r.seats| == |r.outbox| == MAX_CLIENTS
  }

  predicate Seated(r: RoomState, k: int) {
    0 <= k < |r.seats| && r.seats[k] != Empty
  }

  predicate Speaks(r: RoomState, k: int) {
    0 <= k < |r.seats| && r.seats[k].User?
  }

  predicate Allowed(db: seq<Account>, r: RoomState, op: Op) {
    && Valid(r)
    && match op
       case Idle => true
       case Sit(k) => 0 <= k == FirstEmpty(r.seats)
       case Admit(k, name) =>
         0 <= k < |r.seats| && r.seats[k] == Guest && exists a :: a in db && a.name == name
       case Say(k, _) => Speaks(r, k)
       case Pass(k, _, _) => Speaks(r, k)
       case Roll(k) => Speaks(r, k)
       case Reply(k, _) => Seated(r, k)
       case Vacate(k) => Seated(r, k)
  }

  function Apply(db: seq<Account>, r: RoomState, op: Op): (r': RoomState)
    requires Allowed(db, r, op)
    ensures Valid(r')
  {
    match op
    case Idle => r
    case Sit(k) => r.(seats := r.seats[k := Guest])
    case Admit(k, name) => r.(seats := r.seats[k := User(name)])
    case Say(k, speech) =>
      r.(outbox := Deliver(r.seats, r.outbox, k, Heard(k, SpokenLine(r.seats[k].name, speech))))
    case Pass(k, target, text) =>
      r.(outbox := Push(r.outbox, FirstNamed(r.seats, target), Whisper(PrivateLine(r.seats[k].name, text))))
    case Roll(k) => r.(outbox := Push(r.outbox, k, Roster(ListLine(Users(r.seats)))))
    case Reply(k, line) => r.(outbox := Push(r.outbox, k, Direct(line)))
    case Vacate(k) => r.(seats := r.seats[k := Empty])
  }

  predicate AllAllowed(db: seq<Account>, r: RoomState, ops: seq<Op>)
    decreases |ops|
  {
    ops == [] || (Allowed(db, r, ops[0]) && AllAllowed(db, Apply(db, r, ops[0]), ops[1..]))
  }

  function ApplyAll(db: seq<Account>, r: RoomState, ops: seq<Op>): RoomState
    requires AllAllowed(db, r, ops)
    decreases |ops|
  {
    if ops == [] then r else ApplyAll(db, Apply(db, r, ops[0]), ops[1..])
  }

  /** A broadcast reaches every user but the speaker, once, and nobody who is not logged in. */
  lemma SayReaches(db: seq<Account>, r: RoomState, k: int, speech: Speech)
    requires Allowed(db, r, Say(k, speech))
    ensures var r' := Apply(db, r, Say(k, speech));
      && r'.seats == r.seats
      && forall i :: 0 <= i < MAX_CLIENTS ==>
        r'.outbox[i] == match r.seats[i]
          case Empty => r.outbox[i]
          case Guest => r.outbox[i]
          case User(_) =>
            if i == k then r.outbox[i] else r.outbox[i] + [Heard(k, SpokenLine(r.seats[k].name, speech))]
  {
  }

  /** Whoever sits in seat `i` may be sent `d`: only a user hears others, gets whispers or the list. */
  predicate MayGet(r: RoomState, i: nat, d: Delivery) {
    i < |r.seats| &&
    match d
    case Direct(_) => r.seats[i] != Empty
    case Heard(slot, _) => r.seats[i].User? && i != slot && Speaks(r, slot)
    case Whisper(_) => r.seats[i].User?
    case Roster(_) => r.seats[i].User?
  }

  /** An operation sends at most one thing to a seat, and only what its occupant may get. */
  lemma OpReaches(db: seq<Account>, r: RoomState, op: Op, i: nat) returns (sent: seq<Delivery>)
    requires Allowed(db, r, op) && i < MAX_CLIENTS
    ensures Apply(db, r, op).outbox[i] == r.outbox[i] + sent
    ensures |sent| <= 1 && forall d :: d in sent ==> MayGet(r, i, d)
  {
    var after := Apply(db, r, op).outbox[i];
    sent := if after == r.outbox[i] then [] else after[|r.outbox[i]|..];
    match op
    case Say(k, speech) => SayReaches(db, r, k, speech);
    case _ =>
  }
}
