/** The server's client table as it is written: a fixed array of client pointers, a counter, and the
    functions that walk the array while they hold the mutex. Each is proved against the Room. */
module ClientTable {
  import opened Bytes
  import opened Protocol
  import opened Room

  class Client {
    const socket: nat
    var id: int
    var username: Bytes
    var authenticated: bool

    /** malloc leaves `id` and `username` as they are. */
    constructor (socket: nat)
      ensures this.socket == socket && !authenticated
    {
      this.socket := socket;
      authenticated := false;
    }
  }

  function SeatOf(c: Client?): Seat
    reads c
  {
    if c == null then Empty else if c.authenticated then User(c.username) else Guest
  }

  class Table {
    const clients: array<Client?>
    /** History: the sends attempted to each slot. */
    const outbox: array<seq<Delivery>>
    var clientCount: int

    ghost function View(): (seats: seq<Seat>)
      reads clients, clients[..]
      ensures |seats| == clients.Length
      ensures forall i :: 0 <= i < clients.Length ==> seats[i] == SeatOf(clients[i])
    {
      seq(clients.Length, i requires 0 <= i < clients.Length reads clients, clients[..] => SeatOf(clients[i]))
    }

    /** Every registered client knows its slot, so no client is in two slots. */
    ghost predicate Valid()
      reads this, clients, clients[..], outbox
    {
      && clients.Length == outbox.Length == MAX_CLIENTS
      && (forall i :: 0 <= i < clients.Length && clients[i] != null ==> clients[i].id == i)
      && clientCount == Occupied(View())
    }

    constructor ()
      ensures Valid() && fresh(clients) && fresh(outbox)
      ensures forall i :: 0 <= i < MAX_CLIENTS ==> View()[i] == Empty && outbox[i] == []
    {
      clients := new Client?[MAX_CLIENTS](_ => null);
      outbox := new seq<Delivery>[MAX_CLIENTS](_ => []);
      clientCount := 0;
      new;
      NoneOccupied(View());
    }

    /** The body of add_client's loop for a free slot. */
    method Take(i: nat, client: Client)
      requires Valid() && client !in clients[..] && i < clients.Length && clients[i] == null
      modifies clients, client`id, this`clientCount
      ensures Valid() && client.id == i
      ensures clients[..] == old(clients[..])[i := client]
      ensures View() == old(View())[i := SeatOf(client)]
      ensures clientCount == old(clientCount) + 1
    {
      ghost var seats, before := View(), clients[..];
      OccupiedUpdate(seats, i, SeatOf(client));
      clients[i] := client;
      client.id := i;
      clientCount := clientCount + 1;
      forall k | 0 <= k < clients.Length && k != i ensures clients[k] == before[k] && SeatOf(clients[k]) == seats[k] {
        assert before[k] in before;
      }
      assert View() == seats[i := SeatOf(client)];
    }

    method AddClient(client: Client) returns (id: int)
      requires Valid() && client !in clients[..]
      modifies clients, client`id, this`clientCount
      ensures Valid()
      ensures id == FirstEmpty(old(View()))
      ensures id >= 0 ==>
        && client.id == id
        && clients[..] == old(clients[..])[id := client]
        && View() == old(View())[id := SeatOf(client)]
        && clientCount == old(clientCount) + 1
      ensures id < 0 ==>
        && client.id == old(client.id)
        && clients[..] == old(clients[..])
        && View() == old(View())
        && clientCount == old(clientCount) == MAX_CLIENTS
    {
      ghost var seats := View();
      for i := 0 to clients.Length
        invariant Empty !in seats[..i]
        invariant unchanged(this, clients, client)
      {
        if clients[i] == null {
          FirstEmptyIs(seats, i);
          Take(i, client);
          return i;
        }
      }
      assert seats[..clients.Length] == seats;
      return -1;
    }

    method RemoveClient(id: int)
      requires Valid()
      modifies clients, this`clientCount
      ensures Valid()
      ensures 0 <= id < MAX_CLIENTS && old(clients[id]) != null ==>
        && clients[..] == old(clients[..])[id := null]
        && View() == old(View())[id := Empty]
        && clientCount == old(clientCount) - 1
      ensures !(0 <= id < MAX_CLIENTS && old(clients[id]) != null) ==>
        && clients[..] == old(clients[..])
        && View() == old(View())
        && clientCount == old(clientCount)
    {
      ghost var seats := View();
      if 0 <= id < MAX_CLIENTS && clients[id] != null {
        OccupiedUpdate(seats, id, Empty);
        clients[id] := null;
        clientCount := clientCount - 1;
        assert View() == seats[id := Empty];
      }
    }

    method SendMessageToAll(message: Bytes, senderId: int)
      requires Valid()
      modifies outbox
      ensures outbox[..] == Deliver(View(), old(outbox[..]), senderId, Heard(senderId, message))
      ensures forall i :: 0 <= i < MAX_CLIENTS ==>
        outbox[i] == if clients[i] != null && clients[i].authenticated && i != senderId
          then old(outbox[i]) + [Heard(senderId, message)] else old(outbox[i])
      ensures Valid()
    {
      for i := 0 to clients.Length
        invariant forall j :: 0 <= j < i ==>
          outbox[j] == if Hears(View(), j, senderId) then old(outbox[j]) + [Heard(senderId, message)]
                       else old(outbox[j])
        invariant forall j :: i <= j < clients.Length ==> outbox[j] == old(outbox[j])
        invariant View() == old(View())
      {
        if clients[i] != null && clients[i].authenticated && i != senderId {
          outbox[i] := outbox[i] + [Heard(senderId, message)];
        }
      }
    }

    /** Returns whether some user has the target's name and the send to the first of them worked. */
    method SendPrivateMessage(fromUsername: Bytes, toUsername: Bytes, message: Bytes, sendWorks: bool)
      returns (sent: bool)
      requires Valid()
      modifies outbox
      ensures outbox[..] ==
        Push(old(outbox[..]), FirstNamed(View(), toUsername), Whisper(PrivateLine(fromUsername, message)))
      ensures sent <==> User(toUsername) in View() && sendWorks
      ensures Valid()
    {
      var formatted := PrivateLine(fromUsername, message);
      sent := false;
      ghost var seats := View();
      for i := 0 to clients.Length
        invariant User(toUsername) !in seats[..i]
        invariant !sent && outbox[..] == old(outbox[..])
      {
        if clients[i] != null && clients[i].authenticated && clients[i].username == toUsername {
          FirstNamedIs(seats, toUsername, i);
          outbox[i] := outbox[i] + [Whisper(formatted)];
          sent := sendWorks;
          assert View() == seats;
          return;
        }
      }
      assert seats[..clients.Length] == seats;
    }

    /** Prints the list, guards included, and reads it back as a C string. */
    method PrintUserList(ghost seats: seq<Seat>) returns (line: Bytes)
      requires seats == View() && CNames(seats)
      ensures line == ListLine(Users(seats))
    {
      var userList := StartList();
      var offset := FillList(seats, userList);
      line := FinishList(userList, offset, BodyTo(seats, |seats|));
      ghost var names := BodyToIs(seats, |seats|);
    }

    method FillList(ghost seats: seq<Seat>, userList: array<byte>) returns (offset: nat)
      requires seats == View() && CNames(seats)
      requires Holds(userList, 9, BodyTo(seats, 0))
      modifies userList
      ensures Holds(userList, offset, BodyTo(seats, |seats|))
    {
      offset := 9;
      var first := true;
      for i := 0 to clients.Length
        invariant Holds(userList, offset, BodyTo(seats, i)) && (first <==> UsersTo(seats, i) == [])
        invariant View() == seats
      {
        offset, first := AppendSlot(seats, i, clients[i], userList, offset, first);
      }
    }

    /** Sends the list to the slot that asked. */
    method SendUserList(clientId: int)
      requires Valid()
      requires CNames(View())
      modifies outbox
      ensures outbox[..] == if 0 <= clientId < MAX_CLIENTS && View()[clientId] != Empty
        then Push(old(outbox[..]), clientId, Roster(ListLine(Users(View())))) else old(outbox[..])
      ensures Valid()
    {
      var line := PrintUserList(View());
      if 0 <= clientId < MAX_CLIENTS && clients[clientId] != null {
        outbox[clientId] := outbox[clientId] + [Roster(line)];
      }
    }
  }

  /** Names are C strings, so they hold no NUL. */
  ghost predicate CNames(seats: seq<Seat>) {
    forall name :: User(name) in seats ==> NUL !in name
  }

  /** The buffer of send_user_list after the first `i` slots. */
  function BodyTo(seats: seq<Seat>, i: nat): Bytes
    requires i <= |seats|
  {
    if i == 0 then Ascii("USERLIST:")
    else if seats[i - 1].User? then
      AddName(AddSeparator(BodyTo(seats, i - 1), UsersTo(seats, i - 1) == []), seats[i - 1].name)
    else BodyTo(seats, i - 1)
  }

  lemma BodyToStep(seats: seq<Seat>, i: nat, names: seq<Bytes>)
    requires i < |seats| && names == UsersTo(seats, i) && BodyTo(seats, i) == ListBody(names)
    ensures BodyTo(seats, i + 1) == ListBody(UsersTo(seats, i + 1))
  {
    if seats[i].User? {
      ListBodyStep(names, seats[i].name);
      assert UsersTo(seats, i + 1) == names + [seats[i].name];
    }
  }

  lemma {:induction false} BodyToIs(seats: seq<Seat>, i: nat) returns (names: seq<Bytes>)
    requires i <= |seats|
    ensures names == UsersTo(seats, i) && BodyTo(seats, i) == ListBody(names)
  {
    if i == 0 {
      names := [];
    } else {
      var before := BodyToIs(seats, i - 1);
      names := UsersTo(seats, i);
      BodyToStep(seats, i - 1, before);
    }
  }

  /** The buffer holds some bytes up to `offset`, with room for the newline and terminator behind them. */
  ghost predicate Holds(userList: array<byte>, offset: nat, body: Bytes)
    reads userList
  {
    && userList.Length == BUFFER_SIZE && offset <= BUFFER_SIZE - 2
    && userList[..offset] == body && NUL !in userList[..offset]
  }

  method StartList() returns (userList: array<byte>)
    ensures fresh(userList) && Holds(userList, 9, Ascii("USERLIST:"))
  {
    userList := new byte[BUFFER_SIZE];
    StrCpy(userList, 0, Ascii("USERLIST:"));
    assert userList[..9] == Ascii("USERLIST:");
  }

  /** The body of send_user_list's loop for one slot. */
  method AppendSlot(ghost seats: seq<Seat>, ghost i: nat, c: Client?, userList: array<byte>, start: nat, wasFirst: bool)
    returns (offset: nat, first: bool)
    requires i < |seats| && CNames(seats) && seats[i] == SeatOf(c)
    requires Holds(userList, start, BodyTo(seats, i)) && (wasFirst <==> UsersTo(seats, i) == [])
    modifies userList
    ensures Holds(userList, offset, BodyTo(seats, i + 1)) && (first <==> UsersTo(seats, i + 1) == [])
  {
    offset, first := start, wasFirst;
    assert seats[i] in seats;
    if c != null && c.authenticated {
      offset := AppendUser(userList, offset, first, c.username);
      first := false;
    }
  }

  method AppendUser(userList: array<byte>, start: nat, first: bool, username: Bytes) returns (offset: nat)
    requires userList.Length == BUFFER_SIZE && start <= BUFFER_SIZE - 2
    requires NUL !in userList[..start] && NUL !in username
    modifies userList
    ensures start <= offset <= BUFFER_SIZE - 2
    ensures userList[..offset] == AddName(AddSeparator(old(userList[..start]), first), username)
    ensures NUL !in userList[..offset]
  {
    offset := start;
    if !first && offset < BUFFER_SIZE - 2 {
      userList[offset] := COMMA;
      offset := offset + 1;
    }
    assert userList[..offset] == AddSeparator(old(userList[..start]), first);
    if offset + |username| < BUFFER_SIZE - 2 {
      StrCpy(userList, offset, username);
      offset := offset + |username|;
    }
  }

  /** The newline and terminator, and what strlen then finds. */
  method FinishList(userList: array<byte>, start: nat, ghost body: Bytes) returns (line: Bytes)
    requires Holds(userList, start, body)
    modifies userList
    ensures line == body + [LF]
  {
    var offset := start;
    if offset < BUFFER_SIZE - 1 {
      userList[offset] := LF;
      offset := offset + 1;
      userList[offset] := NUL;
    }
    CStringIs(userList[..], body + [LF]);
    line := CString(userList[..]);
  }

  /** strcpy of a name and its terminator into a buffer that has room for both. */
  method StrCpy(buffer: array<byte>, at: nat, s: Bytes)
    requires at + |s| < buffer.Length
    modifies buffer
    ensures buffer[..] == old(buffer[..at]) + s + [NUL] + old(buffer[at + |s| + 1..])
  {
    for i := 0 to |s|
      invariant buffer[..at] == old(buffer[..at])
      invariant buffer[at..at + i] == s[..i]
      invariant buffer[at + i..] == old(buffer[at + i..])
    {
      buffer[at + i] := s[i];
    }
    buffer[at + |s|] := NUL;
  }

  lemma ListBodyStep(names: seq<Bytes>, name: Bytes)
    ensures ListBody(names + [name]) == AddName(AddSeparator(ListBody(names), names == []), name)
  {
  }
}
