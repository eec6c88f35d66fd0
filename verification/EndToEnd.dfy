/** The reachable server and the text round trips together: what the browsers of other users show
    when a user of the built-in database lists, speaks or whispers. */
module EndToEnd {
  import opened Accounts
  import opened Bytes
  import opened ChatServer
  import opened Commands
  import opened Logins
  import opened Protocol
  import opened Room
  import opened RoundTrips
  import opened SlotSafety
  import opened Utf8
  import opened WebText

  /** The accounts have the built-in names. */
  predicate BuiltIn(cfg: Config) {
    forall a :: a in cfg.db ==> a.name in Names()
  }

  predicate BuiltInText(name: string) {
    name == "alice" || name == "bob" || name == "charlie"
  }

  lemma TextOfName(b: Bytes) returns (name: string)
    requires b in Names()
    ensures BuiltInText(name) && Encode(name) == b
  {
    DatabaseNames();
    if b == Ascii("alice") {
      name := "alice";
    } else if b == Ascii("bob") {
      name := "bob";
    } else {
      name := "charlie";
    }
    EncodeAscii(name);
  }

  lemma BuiltInTextFacts(name: string)
    requires BuiltInText(name)
    ensures TagName(name) && ListableName(name) && OneLine(Encode(name)) && ' ' !in name
    ensures Encode(name) == Ascii(name) && |Encode(name)| <= 7
  {
    DatabaseNames();
    LowercaseNames(name);
    EncodeAscii(name);
  }

  lemma NameOfUser(cfg: Config, s: State, k: nat) returns (name: string)
    requires Safe(s) && Vetted(cfg, s) && BuiltIn(cfg) && k < MAX_CLIENTS && View(s)[k].User?
    ensures BuiltInText(name) && View(s)[k].name == Encode(name)
  {
    var t := UserIsVetted(cfg, s, k);
    assert Account(s.handlers[t].username, cfg.md5(s.handlers[t].password)) in cfg.db;
    name := TextOfName(s.handlers[t].username);
  }

  /** The name under which a handler speaks is a built-in one. */
  lemma NameOfHandler(cfg: Config, s: State, t: nat) returns (name: string)
    requires Reachable(cfg, s) && BuiltIn(cfg) && t < |s.handlers| && s.handlers[t].pc.Chatting?
    ensures BuiltInText(name) && NameOf(s, t) == Encode(name)
  {
    hide Reachable;
    ReachableFacts(cfg, s);
    OwnSlot(s, t);
    assert LoginOk(cfg, s, t);
    assert Account(s.handlers[t].username, cfg.md5(s.handlers[t].password)) in cfg.db;
    name := TextOfName(s.handlers[t].username);
  }

  lemma TextsOfOne(cfg: Config, s: State, n: nat, names: seq<string>) returns (more: seq<string>)
    requires Safe(s) && Vetted(cfg, s) && BuiltIn(cfg) && n < MAX_CLIENTS
    requires EncodeEach(names) == UsersTo(View(s), n) && forall name :: name in names ==> BuiltInText(name)
    ensures EncodeEach(more) == UsersTo(View(s), n + 1) && forall name :: name in more ==> BuiltInText(name)
  {
    more := names;
    if View(s)[n].User? {
      var name := NameOfUser(cfg, s, n);
      more := names + [name];
      assert EncodeEach(more) == EncodeEach(names) + [Encode(name)];
    }
  }

  lemma {:induction false} TextsOfUsers(cfg: Config, s: State, n: nat) returns (names: seq<string>)
    requires Safe(s) && Vetted(cfg, s) && BuiltIn(cfg) && n <= MAX_CLIENTS
    ensures EncodeEach(names) == UsersTo(View(s), n)
    ensures forall name :: name in names ==> BuiltInText(name)
  {
    if n == 0 {
      names := [];
    } else {
      names := TextsOfUsers(cfg, s, n - 1);
      names := TextsOfOne(cfg, s, n - 1, names);
    }
  }

  // ----- What the browsers show -----

  lemma ListOfTexts(names: seq<string>)
    requires |names| <= MAX_CLIENTS && forall name :: name in names ==> BuiltInText(name)
    ensures ListLine(EncodeEach(names)) == Ascii("USERLIST:") + Joined(EncodeEach(names), COMMA) + [LF]
    ensures Receive(ListLine(EncodeEach(names))) == UserList(names)
  {
    forall name | name in names ensures ListableName(name) {
      BuiltInTextFacts(name);
    }
    forall b | b in EncodeEach(names) ensures |b| <= 31 {
      var i :| 0 <= i < |names| && EncodeEach(names)[i] == b;
      BuiltInTextFacts(names[i]);
    }
    JoinedLength(EncodeEach(names), 31);
    ListLineExact(EncodeEach(names));
    UserListRoundTrip(names);
  }

  /** The bridge's `/list` request, received in any reachable state: the asking user alone is sent a list that the
      bridge reads as the names of the users in slot order. */
  lemma ListEndToEnd(cfg: Config, s: State, t: nat, sendWorks: bool) returns (id: int, names: seq<string>)
    requires Reachable(cfg, s) && BuiltIn(cfg) && t < |s.handlers| && s.handlers[t].pc.Chatting?
    ensures Holds(s, t, id) && EncodeEach(names) == Users(View(s))
    ensures var run := Exchange(t, Ascii("/list\n"), sendWorks);
      var line := Ascii("USERLIST:") + Joined(Users(View(s)), COMMA) + [LF];
      && ValidRun(cfg, s, run) && Exec(cfg, s, run) == Sent(s, id, Roster(line))
      && Receive(line) == UserList(names)
  {
    hide Exec, ValidRun, Reachable, Receive, Joined, ListLine, Users, UsersTo;
    ReachableFacts(cfg, s);
    assert Ascii("/list\n") == Ascii("/list") + [10];
    id := ListChunkIsAnswered(cfg, s, t, [10], sendWorks);
    UsersAreAll(s);
    names := TextsOfUsers(cfg, s, MAX_CLIENTS);
    ListOfTexts(names);
  }

  lemma UsersAreAll(s: State)
    requires Safe(s)
    ensures Users(View(s)) == UsersTo(View(s), MAX_CLIENTS)
  {
  }

  lemma BuiltInBroadcast(name: string, text: string)
    requires BuiltInText(name) && Typed(text) && |Encode(text)| <= BUFFER_SIZE - USERNAME_SIZE - 5
    ensures Receive(TalkLine(Encode(name), Encode(text))) == ChatMessage(Tagged("[", name, text))
    ensures Show(Tagged("[", name, text)) == Said(name, text) <==> BrowserSafe(text)
  {
    BuiltInTextFacts(name);
    BroadcastRoundTrip(name, text);
  }

  lemma TypedLine(text: string)
    requires Typed(text)
    ensures Line(Encode(text)) && Encode(text) != [] && (text[0] != '/' ==> Encode(text)[0] != 47)
    ensures SentMessage(text) == Encode(text) + [10]
  {
    FirstByte(text);
    EncodeLine(text);
  }

  /** A typed text as the bridge sends it, received in any reachable state: it is sent to every other user and to
      nobody else, and their browsers show it under the speaker's name, unchanged exactly when it is safe. */
  lemma BroadcastEndToEnd(cfg: Config, s: State, t: nat, text: string, sendWorks: bool) returns (id: int, name: string)
    requires Reachable(cfg, s) && BuiltIn(cfg) && t < |s.handlers| && s.handlers[t].pc.Chatting?
    requires Typed(text) && text[0] != '/' && |Encode(text)| <= BUFFER_SIZE - USERNAME_SIZE - 5
    ensures Holds(s, t, id) && UserAt(s, id, Encode(name))
    ensures var run := Exchange(t, SentMessage(text), sendWorks); var line := TalkLine(Encode(name), Encode(text));
      && ValidRun(cfg, s, run)
      && SentToOthers(s, Exec(cfg, s, run), id, Heard(id, line), Entry(t, id, Encode(name), Talks(Encode(text))))
      && Receive(line) == ChatMessage(Tagged("[", name, text))
      && (Show(Tagged("[", name, text)) == Said(name, text) <==> BrowserSafe(text))
  {
    hide Exec, ValidRun, Reachable, Receive, Show, Encode, Ascii, IsUser;
    name := NameOfHandler(cfg, s, t);
    TypedLine(text);
    id := ChunkIsBroadcast(cfg, s, t, Encode(text), [10], sendWorks);
    BuiltInBroadcast(name, text);
    BuiltInTextFacts(name);
    TalkText(Encode(name), Encode(text));
  }

  lemma BuiltInPrivate(name: string, target: string, text: string)
    requires BuiltInText(name) && BuiltInText(target)
    requires Typed(text) && |Encode(text)| <= BUFFER_SIZE - USERNAME_SIZE - 20
    ensures Receive(PrivateLine(Encode(name), Encode(text))) == ChatMessage(Tagged("[PRIVATE from ", name, text))
    ensures Show(Tagged("[PRIVATE from ", name, text)) == PrivateFrom(name, text) <==> BrowserSafe(text)
    ensures Receive(ConfirmLine(Encode(target), Encode(text))) == ChatMessage(Tagged("[PRIVATE to ", target, text))
    ensures Show(Tagged("[PRIVATE to ", target, text)) == PrivateTo(target, text) <==> BrowserSafe(text)
  {
    BuiltInTextFacts(name);
    BuiltInTextFacts(target);
    PrivateFromRoundTrip(name, text);
    PrivateToRoundTrip(target, text);
  }

  lemma SentPrivateChunk(target: string, text: string)
    requires BuiltInText(target) && Typed(text)
    ensures SentPrivate(target, text) == Ascii("/msg ") + Encode(target) + [32] + Encode(text) + [10]
    ensures Line(Encode(target)) && 32 !in Encode(target) && Line(Encode(text)) && |Encode(target)| <= 7
  {
    hide SentPrivate;
    SentPrivateBytes(target, text);
    BuiltInTextFacts(target);
    AsciiTransparent(target, SPACE);
  }

  /** A private command as the bridge sends it, received in any reachable state: the lowest slot of the target is
      sent the whisper, and nobody else; then the sender alone gets the answer. The browsers of both show each
      other's name and the text, unchanged exactly when it is safe. */
  lemma PrivateEndToEnd(cfg: Config, s: State, t: nat, target: string, text: string, sendWorks: bool,
                        answerWorks: bool)
    returns (id: int, k: int, name: string)
    requires Reachable(cfg, s) && BuiltIn(cfg) && t < |s.handlers| && s.handlers[t].pc.Chatting?
    requires BuiltInText(target) && Typed(text) && |Encode(text)| <= BUFFER_SIZE - USERNAME_SIZE - 20
    ensures Holds(s, t, id) && UserAt(s, id, Encode(name)) && -1 <= k < MAX_CLIENTS
    ensures k >= 0 ==> UserAt(s, k, Encode(target))
    ensures forall j :: 0 <= j < MAX_CLIENTS && (k == -1 || j < k) ==> !UserAt(s, j, Encode(target))
    ensures var run := PrivateExchange(t, SentPrivate(target, text), sendWorks, answerWorks);
      var line, confirm := WhisperedLine(Encode(name), Encode(text)), ConfirmedLine(Encode(target), Encode(text));
      && ValidRun(cfg, s, run)
      && Exec(cfg, s, run) == Whispered(s, k, id, line,
           if k >= 0 && sendWorks then confirm else Ascii("[SERVER] User not found or offline\n"))
      && Receive(line) == ChatMessage(Tagged("[PRIVATE from ", name, text))
      && (Show(Tagged("[PRIVATE from ", name, text)) == PrivateFrom(name, text) <==> BrowserSafe(text))
      && Receive(confirm) == ChatMessage(Tagged("[PRIVATE to ", target, text))
      && (Show(Tagged("[PRIVATE to ", target, text)) == PrivateTo(target, text) <==> BrowserSafe(text))
  {
    hide Exec, ValidRun, Reachable, Receive, Show, Encode, Ascii, UserAt, SentPrivate, Whispered;
    hide WhisperedLine, ConfirmedLine, PrivateLine, ConfirmLine;
    name := NameOfHandler(cfg, s, t);
    SentPrivateChunk(target, text);
    assert Take(Encode(target), 31) == Encode(target);
    id, k := ChunkIsWhispered(cfg, s, t, Encode(target), Encode(text), [10], sendWorks, answerWorks);
    BuiltInPrivate(name, target, text);
    BuiltInTextFacts(name);
    forall j | 0 <= j < MAX_CLIENTS && (k == -1 || j < k) ensures !UserAt(s, j, Encode(target)) {
      assert !UserAt(s, j, Take(Encode(target), 31));
    }
    PrivateTexts(Encode(name), Encode(target), Encode(text));
  }
}
