/** End-to-end statements: from what a user types, through the server's byte-wise parsers and
    printers, back to what another browser shows. */
module RoundTrips {
  import opened Bytes
  import opened Protocol
  import opened Utf8
  import opened WebText

  // ----- The user list -----

  function EncodeEach(names: seq<string>): (b: seq<Bytes>)
    ensures |b| == |names|
    ensures forall i :: 0 <= i < |names| ==> b[i] == Encode(names[i])
  {
    seq(|names|, i requires 0 <= i < |names| => Encode(names[i]))
  }

  lemma {:induction false} EncodeJoined(names: seq<string>)
    ensures Encode(Joined(names, ',')) == Joined(EncodeEach(names), COMMA)
  {
    if |names| > 1 {
      var n := |names| - 1;
      EncodeJoined(names[..n]);
      assert EncodeEach(names)[..n] == EncodeEach(names[..n]);
      EncodeCommaName(Joined(names[..n], ','), names[n]);
    }
  }

  lemma EncodeCommaName(front: string, name: string)
    ensures Encode(front + [','] + name) == Encode(front) + [COMMA] + Encode(name)
  {
    EncodeConcat(front, ",");
    EncodeConcat(front + ",", name);
    assert Encode(",") == [COMMA] by { EncodeAscii(","); }
  }

  /** A name that the list format can carry. */
  predicate ListableName(name: string) {
    name != "" && ',' !in name && Trimmed(name)
  }

  lemma {:induction false} CleanedTrimmed(names: seq<string>)
    requires forall name :: name in names ==> ListableName(name)
    ensures Cleaned(names) == names
  {
    if names != [] {
      assert names[0] in names;
      StripTrimmed(names[0]);
      CleanedTrimmed(names[1..]);
    }
  }

  lemma {:induction false} JoinedTrimmed(names: seq<string>)
    requires names != []
    requires forall name :: name in names ==> ListableName(name)
    ensures Joined(names, ',') != "" && Trimmed(Joined(names, ','))
  {
    var n := |names| - 1;
    assert names[n] in names && names[0] in names;
    if n > 0 {
      JoinedTrimmed(names[..n]);
    }
  }

  lemma ReceiveUserList(users: string)
    requires Trimmed(users)
    ensures Receive(Encode("USERLIST:" + users + "\n")) == UserList(Cleaned(Split(users, ',')))
  {
    var message := "USERLIST:" + users;
    DecodeEncode(message + "\n");
    StripLine(message);
    assert message[9..] == users;
  }

  lemma SplitNames(names: seq<string>)
    requires forall name :: name in names ==> ListableName(name)
    ensures Trimmed(Joined(names, ',')) && Cleaned(Split(Joined(names, ','), ',')) == names
  {
    if names != [] {
      JoinedTrimmed(names);
      SplitJoined(names, ',');
      CleanedTrimmed(names);
    }
  }

  lemma PrintedList(names: seq<string>)
    requires |Joined(EncodeEach(names), COMMA)| <= BUFFER_SIZE - 12
    ensures ListLine(EncodeEach(names)) == Encode("USERLIST:" + Joined(names, ',') + "\n")
  {
    EncodeJoined(names);
    ListBodyExact(EncodeEach(names));
    EncodeLiteral("USERLIST:", Joined(names, ','));
  }

  /** A list that fits its buffer is read back by the bridge name for name, in slot order. */
  lemma UserListRoundTrip(names: seq<string>)
    requires forall name :: name in names ==> ListableName(name)
    requires |Joined(EncodeEach(names), COMMA)| <= BUFFER_SIZE - 12
    ensures Receive(ListLine(EncodeEach(names))) == UserList(names)
  {
    PrintedList(names);
    SplitNames(names);
    ReceiveUserList(Joined(names, ','));
  }

  /** An ASCII literal in front of a text, and the newline behind it. */
  lemma EncodeLiteral(literal: string, text: string)
    requires IsAscii(literal)
    ensures Encode(literal + text) == Ascii(literal) + Encode(text)
    ensures Encode(literal + text + "\n") == Ascii(literal) + Encode(text) + [LF]
  {
    EncodeConcat(literal, text);
    EncodeConcat(literal + text, "\n");
    EncodeAscii(literal);
    assert Encode("\n") == [LF] by { EncodeAscii("\n"); }
  }

  // ----- Chat lines -----

  function Tagged(prefix: string, name: string, text: string): string {
    prefix + name + "] " + text
  }

  lemma EncodeTagged(prefix: string, name: string, text: string)
    requires IsAscii(prefix)
    ensures Encode(Tagged(prefix, name, text) + "\n")
         == Ascii(prefix) + Encode(name) + Ascii("] ") + Encode(text) + [LF]
  {
    EncodeAscii(prefix);
    EncodeAscii("] ");
    assert Encode("\n") == [LF] by { EncodeAscii("\n"); }
    EncodeConcat(prefix, name);
    EncodeConcat(prefix + name, "] ");
    EncodeConcat(prefix + name + "] ", text);
    EncodeConcat(prefix + name + "] " + text, "\n");
  }

  /** A name that the tags can carry without looking like another kind of line. */
  predicate TagName(name: string) {
    && name != "" && ']' !in name
    && !("PRIVATE from " <= name) && !("PRIVATE to " <= name) && name != "SERVER"
    && |Encode(name)| < USERNAME_SIZE
  }

  predicate Lowercase(name: string) {
    forall c :: c in name ==> 'a' <= c <= 'z'
  }

  lemma LowercaseTags(name: string)
    requires name != "" && Lowercase(name)
    ensures ']' !in name && !("PRIVATE from " <= name) && !("PRIVATE to " <= name) && name != "SERVER"
  {
    assert name[0] in name;
    assert "PRIVATE from "[0] == 'P' == "PRIVATE to "[0] && "SERVER"[0] == 'S';
  }

  lemma LowercaseBytes(name: string)
    requires Lowercase(name)
    ensures |Encode(name)| == |name| && OneLine(Encode(name))
  {
    EncodeAscii(name);
    AsciiTransparent(name, NUL);
    AsciiTransparent(name, LF);
    AsciiTransparent(name, CR);
  }

  lemma LowercaseListable(name: string)
    requires name != "" && Lowercase(name)
    ensures ListableName(name) && ' ' !in name
  {
    assert name[0] in name && name[|name| - 1] in name;
  }

  /** The names of the user database meet every condition on names in this module. */
  lemma LowercaseNames(name: string)
    requires name != "" && Lowercase(name) && |name| < USERNAME_SIZE
    ensures TagName(name) && ListableName(name)
    ensures OneLine(Encode(name)) && ' ' !in name
  {
    LowercaseTags(name);
    LowercaseBytes(name);
    LowercaseListable(name);
  }

  lemma DatabaseNames()
    ensures Lowercase("alice") && Lowercase("bob") && Lowercase("charlie")
  {
  }

  /** A text as the input handlers deliver it: stripped, not empty, on one line. */
  predicate Typed(text: string) {
    text != "" && Trimmed(text) && OneLine(Encode(text))
  }

  /** The texts that the browser's pattern gives back unchanged. */
  predicate BrowserSafe(text: string)
    requires text != ""
  {
    !JsSpace(text[0]) && forall c :: c in text ==> !JsLineEnd(c)
  }

  lemma BracketIs(s: string, i: nat)
    requires i < |s| && s[i] == ']' && ']' !in s[..i]
    ensures Bracket(s) == i
  {
  }

  lemma SkippedNothing(text: string)
    requires text != "" && !JsSpace(text[0])
    ensures SkipSpaces(text) == text
  {
  }

  lemma AfterBracket(name: string, text: string)
    requires ']' !in name
    ensures var rest := name + "] " + text;
      Bracket(rest) == |name| && rest[..|name|] == name && rest[|name| + 1..] == " " + text
  {
    var rest := name + "] " + text;
    assert rest[..|name|] == name;
    BracketIs(rest, |name|);
    assert rest[|name| + 1..] == " " + text;
  }

  lemma SkipOne(text: string)
    ensures SkipSpaces(" " + text) == SkipSpaces(text)
  {
    assert (" " + text)[1..] == text;
  }

  /** The pattern's second group is the text without the spaces in front of it. */
  lemma MatchTagForm(prefix: string, name: string, text: string)
    requires name != "" && ']' !in name && text != ""
    ensures MatchTagged(prefix, Tagged(prefix, name, text))
         == if exists c :: c in SkipSpaces(text) && JsLineEnd(c) then None else Some((name, SkipSpaces(text)))
  {
    assert Tagged(prefix, name, text)[|prefix|..] == name + "] " + text;
    AfterBracket(name, text);
    SkipOne(text);
  }

  lemma MatchTaggedLine(prefix: string, name: string, text: string)
    requires name != "" && ']' !in name && text != ""
    ensures MatchTagged(prefix, Tagged(prefix, name, text)) == Some((name, text)) <==> BrowserSafe(text)
  {
    MatchTagForm(prefix, name, text);
  }

  /** A chat line arrives in the browser as the server printed it, without the newline. */
  lemma ReceiveLine(message: string)
    requires message != "" && Trimmed(message) && message[0] == '['
    ensures Receive(Encode(message + "\n")) == ChatMessage(message)
  {
    DecodeEncode(message + "\n");
    StripLine(message);
    assert "USERLIST:"[0] == 'U';
  }

  lemma ReceiveTagged(prefix: string, name: string, text: string)
    requires prefix != "" && prefix[0] == '[' && Typed(text)
    ensures Receive(Encode(Tagged(prefix, name, text) + "\n")) == ChatMessage(Tagged(prefix, name, text))
  {
    var message := Tagged(prefix, name, text);
    assert message[0] == prefix[0] && message[|message| - 1] == text[|text| - 1];
    ReceiveLine(message);
  }

  lemma TagDiffers(tag: string, name: string, text: string)
    requires ']' !in name && ']' !in tag && !(tag <= name)
    ensures !("[" + tag <= Tagged("[", name, text))
  {
    var message := Tagged("[", name, text);
    assert message[1..1 + |name|] == name && message[1 + |name|] == ']';
    var line := "[" + tag;
    if |tag| <= |name| {
      assert message[1..1 + |tag|] == name[..|tag|] != tag == line[1..];
    } else {
      assert line[1 + |name|] == tag[|name|] && tag[|name|] in tag;
    }
  }

  lemma ShowBroadcast(name: string, text: string)
    requires TagName(name) && text != ""
    ensures Show(Tagged("[", name, text)) == Said(name, text) <==> BrowserSafe(text)
  {
    TagDiffers("PRIVATE from ", name, text);
    TagDiffers("PRIVATE to ", name, text);
    assert "[" + "PRIVATE from " == "[PRIVATE from ";
    assert "[" + "PRIVATE to " == "[PRIVATE to ";
    MatchTaggedLine("[", name, text);
  }

  lemma ShowPrivateTo(name: string, text: string)
    requires name != "" && ']' !in name && text != ""
    ensures Show(Tagged("[PRIVATE to ", name, text)) == PrivateTo(name, text) <==> BrowserSafe(text)
  {
    MatchTaggedLine("[PRIVATE to ", name, text);
    var message := Tagged("[PRIVATE to ", name, text);
    assert message[9] == "[PRIVATE to "[9] == 't' && "[PRIVATE from "[9] == 'f';
  }

  lemma ShowPrivateFrom(name: string, text: string)
    requires name != "" && ']' !in name && text != ""
    ensures Show(Tagged("[PRIVATE from ", name, text)) == PrivateFrom(name, text) <==> BrowserSafe(text)
  {
    MatchTaggedLine("[PRIVATE from ", name, text);
  }

  /** A broadcast is recovered with its sender and its exact text, whatever the text looks like,
      exactly when the browser's pattern does not eat or refuse one of its characters. */
  lemma BroadcastRoundTrip(name: string, text: string)
    requires TagName(name) && Typed(text)
    requires |Encode(text)| <= BUFFER_SIZE - USERNAME_SIZE - 5
    ensures Receive(TalkLine(Encode(name), Encode(text))) == ChatMessage(Tagged("[", name, text))
    ensures Show(Tagged("[", name, text)) == Said(name, text) <==> BrowserSafe(text)
  {
    WholeTalkLine(Encode(name), Encode(text));
    EncodeTagged("[", name, text);
    ReceiveTagged("[", name, text);
    ShowBroadcast(name, text);
  }

  lemma PrivateLineText(name: string, text: string)
    requires 17 + |Encode(name)| + |Encode(text)| <= BUFFER_SIZE - 1
    ensures PrivateLine(Encode(name), Encode(text)) == Encode(Tagged("[PRIVATE from ", name, text) + "\n")
  {
    hide Ascii, Encode, PrivateLine;
    WholePrivateLine(Encode(name), Encode(text));
    EncodeTagged("[PRIVATE from ", name, text);
  }

  lemma ConfirmLineText(name: string, text: string)
    requires |Encode(name)| < USERNAME_SIZE && |Encode(text)| <= BUFFER_SIZE - USERNAME_SIZE - 20
    ensures ConfirmLine(Encode(name), Encode(text)) == Encode(Tagged("[PRIVATE to ", name, text) + "\n")
  {
    hide Ascii, Encode, ConfirmLine;
    WholeConfirmLine(Encode(name), Encode(text));
    EncodeTagged("[PRIVATE to ", name, text);
  }

  lemma PrivateFromRoundTrip(name: string, text: string)
    requires TagName(name) && Typed(text)
    requires 17 + |Encode(name)| + |Encode(text)| <= BUFFER_SIZE - 1
    ensures Receive(PrivateLine(Encode(name), Encode(text))) == ChatMessage(Tagged("[PRIVATE from ", name, text))
    ensures Show(Tagged("[PRIVATE from ", name, text)) == PrivateFrom(name, text) <==> BrowserSafe(text)
  {
    PrivateLineText(name, text);
    ReceiveTagged("[PRIVATE from ", name, text);
    ShowPrivateFrom(name, text);
  }

  lemma PrivateToRoundTrip(name: string, text: string)
    requires TagName(name) && Typed(text)
    requires |Encode(text)| <= BUFFER_SIZE - USERNAME_SIZE - 20
    ensures Receive(ConfirmLine(Encode(name), Encode(text))) == ChatMessage(Tagged("[PRIVATE to ", name, text))
    ensures Show(Tagged("[PRIVATE to ", name, text)) == PrivateTo(name, text) <==> BrowserSafe(text)
  {
    ConfirmLineText(name, text);
    ReceiveTagged("[PRIVATE to ", name, text);
    ShowPrivateTo(name, text);
  }

  /** The characters at which the browser's pattern gives up: LF, CR and the two separators. */
  predicate Separator(c: char) {
    c in {'\n', '\r', '\U{2028}', '\U{2029}'}
  }

  /** A typed text can be unsafe for the browser: a line separator inside it, which neither the
      bridge nor the server treats as a line end, makes a private delivery disappear. */
  lemma LineSeparatorIsLost(name: string, text: string, c: char)
    requires name != "" && ']' !in name && text != ""
    requires !JsSpace(text[0]) && c in text && Separator(c)
    ensures Show(Tagged("[PRIVATE from ", name, text)) == Dropped
    ensures Show(Tagged("[PRIVATE to ", name, text)) == Dropped
  {
    hide Tagged, MatchTagged;
    SkippedNothing(text);
    MatchTagForm("[PRIVATE from ", name, text);
    MatchTagForm("[PRIVATE to ", name, text);
    PrivateTags(name, text);
  }

  lemma PrivateTags(name: string, text: string)
    ensures "[PRIVATE from " <= Tagged("[PRIVATE from ", name, text)
    ensures "[PRIVATE to " <= Tagged("[PRIVATE to ", name, text)
    ensures !("[PRIVATE from " <= Tagged("[PRIVATE to ", name, text))
  {
    var message := Tagged("[PRIVATE to ", name, text);
    assert message[9] == "[PRIVATE to "[9] == 't' && "[PRIVATE from "[9] == 'f';
  }

  lemma LineSeparatorCanBeTyped()
    ensures Typed("a\U{2028}b") && !BrowserSafe("a\U{2028}b")
    ensures Typed("a\U{2029}b") && !BrowserSafe("a\U{2029}b")
  {
    assert '\U{2028}' in "a\U{2028}b" && '\U{2029}' in "a\U{2029}b";
  }

  /** Python does not strip a byte order mark, and the browser's pattern eats it. */
  lemma ByteOrderMarkCanBeTyped()
    ensures Typed("\U{FEFF}a") && !BrowserSafe("\U{FEFF}a")
  {
  }

  // ----- The server's own lines -----

  predicate EndsInText(s: string) {
    s != "" && !PySpace(s[|s| - 1])
  }

  lemma ServerLineArrives(body: string)
    requires EndsInText(body)
    ensures Receive(Encode("[SERVER] " + body + "\n")) == ChatMessage("[SERVER] " + body)
  {
    hide Receive, Encode, Decode;
    var message := "[SERVER] " + body;
    assert message[|message| - 1] == body[|body| - 1];
    ReceiveLine(message);
  }

  lemma ShowServer(body: string)
    requires body != ""
    ensures Show("[SERVER] " + body) == System(body) <==> BrowserSafe(body)
  {
    hide MatchTagged, BrowserSafe, Tagged;
    var message := "[SERVER] " + body;
    ServerIsTagged(body);
    MatchTaggedLine("[", "SERVER", body);
    assert message[1] == 'S' && "[PRIVATE from "[1] == 'P' == "[PRIVATE to "[1];
  }

  lemma ServerIsTagged(body: string)
    ensures "[SERVER] " + body == Tagged("[", "SERVER", body)
    ensures MatchTagged("[", "[SERVER] " + body).Some? ==> MatchTagged("[", "[SERVER] " + body).value.0 == "SERVER"
  {
    hide SkipSpaces, Bracket, JsLineEnd;
    var message := "[SERVER] " + body;
    assert message == "[" + "SERVER" + "] " + body;
    assert message[1..] == "SERVER" + "] " + body;
    AfterBracket("SERVER", body);
  }

  /** A line of the server arrives whole, and the browser shows its text without the tag exactly if it is safe. */
  lemma ServerLine(body: string)
    requires EndsInText(body)
    ensures Receive(Encode("[SERVER] " + body + "\n")) == ChatMessage("[SERVER] " + body)
    ensures Show("[SERVER] " + body) == System(body) <==> BrowserSafe(body)
  {
    hide Receive, Encode, Show, BrowserSafe;
    ServerLineArrives(body);
    ShowServer(body);
  }

  lemma AsciiLine(s: string)
    ensures Ascii(s + "\n") == Ascii(s) + [LF]
  {
  }

  lemma AnnouncedLine(name: string, news: string)
    requires |Encode(name)| < USERNAME_SIZE && IsAscii(news) && |news| <= 100
    ensures Printed(Ascii("[SERVER] ") + Encode(name) + Ascii(news + "\n"))
         == Encode("[SERVER] " + (name + news) + "\n")
  {
    hide Encode, Ascii;
    EncodeLiteral("[SERVER] ", name + news);
    EncodeConcat(name, news);
    EncodeAscii(news);
    AsciiLine(news);
    assert Ascii("[SERVER] ") + Encode(name) + (Ascii(news) + [LF])
        == Ascii("[SERVER] ") + (Encode(name) + Ascii(news)) + [LF];
  }

  /** Other users are shown who has joined, in these words. */
  lemma JoinIsShown(name: string)
    requires |Encode(name)| < USERNAME_SIZE
    ensures Receive(JoinLine(Encode(name))) == ChatMessage("[SERVER] " + (name + " has joined the chat"))
    ensures Show("[SERVER] " + (name + " has joined the chat")) == System(name + " has joined the chat")
       <==> BrowserSafe(name + " has joined the chat")
  {
    hide Receive, Encode, Ascii, Show, BrowserSafe;
    assert " has joined the chat" + "\n" == " has joined the chat\n";
    AnnouncedLine(name, " has joined the chat");
    var body := name + " has joined the chat";
    assert body[|body| - 1] == 't';
    ServerLine(body);
  }

  /** And who has left. */
  lemma LeaveIsShown(name: string)
    requires |Encode(name)| < USERNAME_SIZE
    ensures Receive(LeaveLine(Encode(name))) == ChatMessage("[SERVER] " + (name + " has left the chat"))
    ensures Show("[SERVER] " + (name + " has left the chat")) == System(name + " has left the chat")
       <==> BrowserSafe(name + " has left the chat")
  {
    hide Receive, Encode, Ascii, Show, BrowserSafe;
    assert " has left the chat" + "\n" == " has left the chat\n";
    AnnouncedLine(name, " has left the chat");
    var body := name + " has left the chat";
    assert body[|body| - 1] == 't';
    ServerLine(body);
  }

  lemma AnnouncementsOfDatabase(name: string)
    requires name != "" && Lowercase(name)
    ensures BrowserSafe(name + " has joined the chat") && BrowserSafe(name + " has left the chat")
  {
    assert name[0] in name;
  }

  predicate Printable(s: string) {
    s != "" && s[0] != ' ' && s[|s| - 1] != ' ' && forall c :: c in s ==> ' ' <= c <= '~'
  }

  lemma PrintableFacts(s: string)
    requires Printable(s)
    ensures IsAscii(s) && EndsInText(s) && BrowserSafe(s)
  {
    assert s[0] in s && s[|s| - 1] in s;
  }

  /** A printable answer to a sender is shown as a system message without the tag. */
  lemma AnswerIsShown(body: string)
    requires Printable(body)
    ensures Receive(Ascii("[SERVER] " + body + "\n")) == ChatMessage("[SERVER] " + body)
    ensures Show("[SERVER] " + body) == System(body)
  {
    hide Receive, Encode, Ascii, Show, BrowserSafe;
    PrintableFacts(body);
    ServerLine(body);
    EncodeAscii("[SERVER] " + body + "\n");
  }

  lemma NotFoundIsShown()
    ensures Receive(NotFound()) == ChatMessage("[SERVER] " + "User not found or offline")
    ensures Show("[SERVER] " + "User not found or offline") == System("User not found or offline")
  {
    hide Receive, Encode, Ascii, Show;
    assert "[SERVER] " + "User not found or offline" + "\n" == "[SERVER] User not found or offline\n";
    AnswerIsShown("User not found or offline");
  }

  /** A message with an empty tag is shown whole, as a system message. */
  lemma BrokenTagIsShown(text: string)
    ensures Show("[] " + text) == System("[] " + text)
  {
    var message := "[] " + text;
    assert message[1] == ']' && message[1..][0] == ']';
    assert "[PRIVATE from "[1] == 'P' == "[PRIVATE to "[1];
  }

  /** So is one without a tag. */
  lemma UntaggedIsShown(message: string)
    requires message != "" && message[0] != '['
    ensures Show(message) == System(message)
  {
  }

  // ----- Commands -----

  /** `f"{message}\n".encode()` */
  function SentMessage(text: string): Bytes {
    Encode(text + "\n")
  }

  /** `f"/msg {target_user} {message}\n".encode()` */
  function SentPrivate(target: string, text: string): Bytes {
    Encode("/msg " + target + " " + text + "\n")
  }

  lemma FirstByte(text: string)
    requires text != ""
    ensures Encode(text) != [] && (Encode(text)[0] == SLASH <==> text[0] == '/')
  {
  }

  lemma EncodeLine(text: string)
    ensures Encode(text + "\n") == Encode(text) + [LF]
  {
    EncodeConcat(text, "\n");
    assert Encode("\n") == [LF] by { EncodeAscii("\n"); }
  }

  /** A typed text is broadcast exactly when it does not start like a command. */
  lemma MessageCommand(text: string)
    requires Typed(text)
    ensures ParseCommand(SentMessage(text)) == Broadcast(Encode(text)) <==> text[0] != '/'
  {
    EncodeLine(text);
    FirstByte(text);
    ParseSentText(Encode(text));
  }

  lemma SentPrivateBytes(target: string, text: string)
    ensures SentPrivate(target, text) == Ascii("/msg ") + Encode(target) + [SPACE] + Encode(text) + [LF]
  {
    hide Encode;
    EncodeLiteral("/msg ", target);
    EncodeConcat("/msg " + target, " ");
    EncodeConcat("/msg " + target + " ", text);
    EncodeConcat("/msg " + target + " " + text, "\n");
    assert Encode(" ") == [SPACE] by { EncodeAscii(" "); }
    assert Encode("\n") == [LF] by { EncodeAscii("\n"); }
  }

  /** A private command reaches the server as the target and text that were typed exactly when the
      target has no space and at most 31 bytes. */
  lemma PrivateCommandRoundTrip(target: string, text: string)
    requires OneLine(Encode(target)) && OneLine(Encode(text))
    ensures ParseCommand(SentPrivate(target, text)) == Private(Encode(target), Encode(text))
       <==> ' ' !in target && |Encode(target)| < USERNAME_SIZE
  {
    SentPrivateBytes(target, text);
    ParseSentPrivate(Encode(target), Encode(text));
    ParsePrivateIff(Encode(target), Encode(text));
    AsciiTransparent(target, SPACE);
  }

  lemma LowercaseTyped(text: string)
    requires text != "" && Lowercase(text)
    ensures Typed(text) && |Encode(text)| == |text|
  {
    LowercaseBytes(text);
    assert text[0] in text && text[|text| - 1] in text;
  }

  lemma LowercaseCommand(target: string, text: string)
    requires target != "" && Lowercase(target) && |target| < USERNAME_SIZE && text != "" && Lowercase(text)
    ensures |SentPrivate(target, text)| == 7 + |target| + |text|
    ensures ParseCommand(SentPrivate(target, text)) == Private(Encode(target), Encode(text))
  {
    LowercaseTyped(text);
    LowercaseTyped(target);
    LowercaseListable(target);
    SentPrivateBytes(target, text);
    PrivateCommandRoundTrip(target, text);
  }

  lemma LongTextOverflows(text: string, name: Bytes)
    requires text != "" && Lowercase(text) && |name| < USERNAME_SIZE && 17 + |name| + |text| > BUFFER_SIZE - 1
    ensures !EndsInNewline(PrivateLine(name, Encode(text)))
  {
    LowercaseTyped(text);
    PrivateLineKeepsNewline(name, Encode(text));
  }

  function Letters(n: nat): (s: string)
    ensures |s| == n && Lowercase(s)
  {
    seq(n, _ => 'x')
  }

  /** A typed private command that fits one chunk can overflow the delivery: it parses to its target and
      text, and the line that the target gets has no newline, whatever the sender's name is. */
  lemma NewlineCanBeLost(name: Bytes) returns (text: string)
    requires |name| < USERNAME_SIZE
    ensures Typed(text) && |SentPrivate("bob", text)| <= BUFFER_SIZE - 1
    ensures ParseCommand(SentPrivate("bob", text)) == Private(Encode("bob"), Encode(text))
    ensures !EndsInNewline(PrivateLine(name, Encode(text)))
  {
    text := Letters(4080);
    DatabaseNames();
    LowercaseTyped(text);
    LowercaseCommand("bob", text);
    LongTextOverflows(text, name);
  }
}
