/** The chat room that the server is meant to be: a row of seats, and for each seat the
    sequence of sends that the server has attempted to it. */
module Room {
  import opened Bytes

  /** A slot of the client table: free, taken by a client that is not authenticated, or by a user. */
  datatype Seat = Empty | Guest | User(name: Bytes)

  datatype Delivery =
    | Direct(text: Bytes)             // a reply to the seat's own client
    | Heard(slot: int, text: Bytes)   // a broadcast by the client in `slot`
    | Whisper(text: Bytes)            // a private message
    | Roster(text: Bytes)             // the user list

  type Outbox = seq<seq<Delivery>>

  /** The least free slot, or -1 when every slot is taken. */
  function FirstEmpty(seats: seq<Seat>): (r: int)
    ensures -1 <= r < |seats|
    ensures r == -1 <==> Empty !in seats
    ensures r >= 0 ==> seats[r].Empty? && Empty !in seats[..r]
  {
    if seats == [] then -1
    else if seats[0].Empty? then 0
    else
      var r := FirstEmpty(seats[1..]);
      assert r >= 0 ==> seats[..r + 1] == [seats[0]] + seats[1..][..r];
      if r < 0 then -1 else r + 1
  }

  lemma FirstEmptyIs(seats: seq<Seat>, r: nat)
    requires r < |seats| && seats[r].Empty? && Empty !in seats[..r]
    ensures FirstEmpty(seats) == r
  {
  }

  function Occupied(seats: seq<Seat>): (n: nat)
    ensures n <= |seats|
    ensures n == |seats| <==> Empty !in seats
  {
    if seats == [] then 0
    else (if seats[0].Empty? then 0 else 1) + Occupied(seats[1..])
  }

  lemma {:induction false} NoneOccupied(seats: seq<Seat>)
    requires forall k :: 0 <= k < |seats| ==> seats[k] == Empty
    ensures Occupied(seats) == 0
  {
    if seats != [] {
      NoneOccupied(seats[1..]);
    }
  }

  function Weight(seat: Seat): nat {
    if seat.Empty? then 0 else 1
  }

  lemma {:induction false} OccupiedUpdate(seats: seq<Seat>, i: nat, seat: Seat)
    requires i < |seats|
    ensures Occupied(seats[i := seat]) == Occupied(seats) - Weight(seats[i]) + Weight(seat)
  {
    if i == 0 {
      assert seats[i := seat][1..] == seats[1..];
    } else {
      assert seats[i := seat][1..] == seats[1..][i - 1 := seat];
      OccupiedUpdate(seats[1..], i - 1, seat);
    }
  }

  /** One more send attempt to one slot; an index outside the table attempts nothing. */
  function Push(out: Outbox, k: int, d: Delivery): (r: Outbox)
    ensures |r| == |out|
  {
    if 0 <= k < |out| then out[k := out[k] + [d]] else out
  }

  predicate Hears(seats: seq<Seat>, i: int, sender: int) {
    0 <= i < |seats| && seats[i].User? && i != sender
  }

  /** A broadcast reaches every user but its sender. */
  function Deliver(seats: seq<Seat>, out: Outbox, sender: int, d: Delivery): (r: Outbox)
    ensures |r| == |out|
    ensures forall i :: 0 <= i < |out| ==>
      r[i] == if i < |seats| && seats[i].User? && i != sender then out[i] + [d] else out[i]
  {
    seq(|out|, i requires 0 <= i < |out| => if Hears(seats, i, sender) then out[i] + [d] else out[i])
  }

  /** The lowest slot whose user has the given name, or -1. */
  function FirstNamed(seats: seq<Seat>, name: Bytes): (r: int)
    ensures -1 <= r < |seats|
    ensures r == -1 <==> User(name) !in seats
    ensures r >= 0 ==> seats[r] == User(name) && User(name) !in seats[..r]
  {
    if seats == [] then -1
    else if seats[0] == User(name) then 0
    else
      var r := FirstNamed(seats[1..], name);
      assert r >= 0 ==> seats[..r + 1] == [seats[0]] + seats[1..][..r];
      if r < 0 then -1 else r + 1
  }

  lemma FirstNamedIs(seats: seq<Seat>, name: Bytes, r: nat)
    requires r < |seats| && seats[r] == User(name) && User(name) !in seats[..r]
    ensures FirstNamed(seats, name) == r
  {
  }

  function WithSeat(names: seq<Bytes>, seat: Seat): seq<Bytes> {
    if seat.User? then names + [seat.name] else names
  }

  /** The names of the users in the first `n` slots, in slot order. */
  function UsersTo(seats: seq<Seat>, n: nat): (names: seq<Bytes>)
    requires n <= |seats|
    ensures |names| <= n
  {
    if n == 0 then [] else WithSeat(UsersTo(seats, n - 1), seats[n - 1])
  }

  function Users(seats: seq<Seat>): seq<Bytes> {
    UsersTo(seats, |seats|)
  }

  /** The names are those of the users in the first `n` slots, each at its place in `order`, which runs
      through the slots from the lowest to the highest and leaves no user out. */
  ghost predicate InSlotOrder(seats: seq<Seat>, n: nat, names: seq<Bytes>, order: seq<nat>) {
    && n <= |seats| && |order| == |names|
    && (forall j :: 0 <= j < |order| ==> order[j] < n && seats[order[j]] == User(names[j]))
    && (forall i, j :: 0 <= i < j < |order| ==> order[i] < order[j])
    && (forall k: nat :: k < n && seats[k].User? ==> k in order)
  }

  lemma OrderGrows(seats: seq<Seat>, n: nat, names: seq<Bytes>, order: seq<nat>)
    requires n < |seats| && seats[n].User? && InSlotOrder(seats, n, names, order)
    ensures InSlotOrder(seats, n + 1, names + [seats[n].name], order + [n])
  {
    var longer := order + [n];
    forall j | 0 <= j < |longer| ensures longer[j] < n + 1 && seats[longer[j]] == User((names + [seats[n].name])[j]) {
      assert j < |order| ==> longer[j] == order[j];
    }
    forall i, j | 0 <= i < j < |longer| ensures longer[i] < longer[j] {
      assert longer[i] == order[i];
      assert j < |order| ==> longer[j] == order[j];
    }
    forall k: nat | k < n + 1 && seats[k].User? ensures k in longer {
      assert k < n ==> k in order;
    }
  }

  lemma OrderStays(seats: seq<Seat>, n: nat, names: seq<Bytes>, order: seq<nat>)
    requires n < |seats| && !seats[n].User? && InSlotOrder(seats, n, names, order)
    ensures InSlotOrder(seats, n + 1, names, order)
  {
    forall k: nat | k < n + 1 && seats[k].User? ensures k in order {
      assert k < n;
    }
  }

  lemma NextInOrder(seats: seq<Seat>, n: nat, before: seq<nat>) returns (order: seq<nat>)
    requires n < |seats| && InSlotOrder(seats, n, UsersTo(seats, n), before)
    ensures InSlotOrder(seats, n + 1, UsersTo(seats, n + 1), order)
  {
    if seats[n].User? {
      OrderGrows(seats, n, UsersTo(seats, n), before);
      order := before + [n];
    } else {
      OrderStays(seats, n, UsersTo(seats, n), before);
      order := before;
    }
  }

  lemma {:induction false} UsersInOrder(seats: seq<Seat>, n: nat) returns (order: seq<nat>)
    requires n <= |seats|
    ensures InSlotOrder(seats, n, UsersTo(seats, n), order)
  {
    if n == 0 {
      order := [];
    } else {
      var before := UsersInOrder(seats, n - 1);
      order := NextInOrder(seats, n - 1, before);
    }
  }
}
