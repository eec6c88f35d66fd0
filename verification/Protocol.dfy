/** The lines the server prints and the command lines it reads. */
module Protocol {
  import opened Bytes

  const BUFFER_SIZE: nat := 4096
  const USERNAME_SIZE: nat := 32
  const MAX_CLIENTS: nat := 100

  // ----- Printing -----

  /** What snprintf leaves in a buffer of BUFFER_SIZE bytes. */
  function Printed(b: Bytes): Bytes {
    Take(b, BUFFER_SIZE - 1)
  }

  function JoinLine(name: Bytes): Bytes {
    Printed(Ascii("[SERVER] ") + name + Ascii(" has joined the chat\n"))
  }

  function LeaveLine(name: Bytes): Bytes {
    Printed(Ascii("[SERVER] ") + name + Ascii(" has left the chat\n"))
  }

  function TalkLine(name: Bytes, text: Bytes): Bytes {
    Printed(Ascii("[") + name + Ascii("] ") + Take(text, BUFFER_SIZE - USERNAME_SIZE - 5) + [LF])
  }

  function PrivateLine(name: Bytes, text: Bytes): Bytes {
    Printed(Ascii("[PRIVATE from ") + name + Ascii("] ") + text + [LF])
  }

  function ConfirmLine(target: Bytes, text: Bytes): Bytes {
    Printed(Ascii("[PRIVATE to ") + target + Ascii("] ") + Take(text, BUFFER_SIZE - USERNAME_SIZE - 20) + [LF])
  }

  /** What a broadcast says about its sender. */
  datatype Speech = Joins | Leaves | Talks(text: Bytes)

  /** The line that send_message_to_all is given. */
  function SpokenLine(name: Bytes, speech: Speech): Bytes {
    match speech
    case Joins => JoinLine(name)
    case Leaves => LeaveLine(name)
    case Talks(text) => TalkLine(name, text)
  }

  predicate EndsInNewline(line: Bytes) {
    line != [] && line[|line| - 1] == LF
  }

  /** Broadcasts and confirmations are clipped inside the text, never at the newline. */
  lemma ClippedLinesKeepNewline(name: Bytes, text: Bytes)
    requires |name| < USERNAME_SIZE
    ensures EndsInNewline(TalkLine(name, text)) && |TalkLine(name, text)| <= 4094
    ensures EndsInNewline(ConfirmLine(name, text)) && |ConfirmLine(name, text)| <= 4090
  {
  }

  /** A private delivery has no clip of its own: it loses its newline exactly when it overflows. */
  lemma PrivateLineKeepsNewline(name: Bytes, text: Bytes)
    requires |name| < USERNAME_SIZE && OneLine(text)
    ensures EndsInNewline(PrivateLine(name, text)) <==> 17 + |name| + |text| <= BUFFER_SIZE - 1
  {
    var head := Ascii("[PRIVATE from ") + name + Ascii("] ");
    var whole := head + text + [LF];
    if |whole| <= BUFFER_SIZE - 1 {
      assert whole[|whole| - 1] == LF;
    } else {
      var last := BUFFER_SIZE - 2;
      assert whole[last] == text[last - |head|];
      assert text[last - |head|] in text;
    }
  }

  // Lines within the limits are printed whole.

  lemma WholeTalkLine(name: Bytes, text: Bytes)
    requires |name| < USERNAME_SIZE && |text| <= BUFFER_SIZE - USERNAME_SIZE - 5
    ensures TalkLine(name, text) == Ascii("[") + name + Ascii("] ") + text + [LF]
  {
  }

  lemma WholePrivateLine(name: Bytes, text: Bytes)
    requires 17 + |name| + |text| <= BUFFER_SIZE - 1
    ensures PrivateLine(name, text) == Ascii("[PRIVATE from ") + name + Ascii("] ") + text + [LF]
  {
  }

  lemma WholeConfirmLine(name: Bytes, text: Bytes)
    requires |name| < USERNAME_SIZE && |text| <= BUFFER_SIZE - USERNAME_SIZE - 20
    ensures ConfirmLine(name, text) == Ascii("[PRIVATE to ") + name + Ascii("] ") + text + [LF]
  {
  }

  // ----- The user list -----

  /** The names with `separator` between each two. */
  function Joined<T>(names: seq<seq<T>>, separator: T): seq<T> {
    if names == [] then []
    else if |names| == 1 then names[0]
    else Joined(names[..|names| - 1], separator) + [separator] + names[|names| - 1]
  }

  /** The buffer after the separator of one more user has been tried. */
  function AddSeparator(body: Bytes, first: bool): (r: Bytes)
    ensures |body| <= BUFFER_SIZE - 2 ==> |r| <= BUFFER_SIZE - 2
  {
    if !first && |body| < BUFFER_SIZE - 2 then body + [COMMA] else body
  }

  /** The buffer after the name of one more user has been tried. */
  function AddName(body: Bytes, name: Bytes): (r: Bytes)
    ensures |body| <= BUFFER_SIZE - 2 ==> |r| <= BUFFER_SIZE - 2
  {
    if |body| + |name| < BUFFER_SIZE - 2 then body + name else body
  }

  /** The buffer of send_user_list after the given users, guards included. */
  function ListBody(names: seq<Bytes>): (body: Bytes)
    ensures 9 <= |body| <= BUFFER_SIZE - 2
  {
    if names == [] then Ascii("USERLIST:")
    else
      var n := |names| - 1;
      AddName(AddSeparator(ListBody(names[..n]), n == 0), names[n])
  }

  function ListLine(names: seq<Bytes>): (line: Bytes)
    ensures |line| <= BUFFER_SIZE - 1 && EndsInNewline(line)
  {
    ListBody(names) + [LF]
  }

  predicate Listable(name: Bytes) {
    name != [] && COMMA !in name
  }

  lemma {:induction false} ListBodyExact(names: seq<Bytes>)
    requires 9 + |Joined(names, COMMA)| < BUFFER_SIZE - 2
    ensures ListBody(names) == Ascii("USERLIST:") + Joined(names, COMMA)
  {
    if names != [] {
      var n := |names| - 1;
      var init := names[..n];
      if n == 0 {
        assert init == [];
        assert ListBody(init) == Ascii("USERLIST:");
      } else {
        assert Joined(names, COMMA) == Joined(init, COMMA) + [COMMA] + names[n];
        ListBodyExact(init);
        assert AddSeparator(ListBody(init), false) == Ascii("USERLIST:") + (Joined(init, COMMA) + [COMMA]);
      }
    }
  }

  /** A full buffer can only have been filled by a separator. */
  lemma {:induction false} FullBodyEndsInComma(names: seq<Bytes>)
    requires |ListBody(names)| == BUFFER_SIZE - 2
    ensures ListBody(names)[BUFFER_SIZE - 3] == COMMA
  {
    if names != [] {
      var n := |names| - 1;
      var body := ListBody(names[..n]);
      if |body| == BUFFER_SIZE - 2 {
        FullBodyEndsInComma(names[..n]);
      }
    }
  }

  lemma AppendInjective(a: Bytes, b: Bytes, x: byte)
    ensures a + [x] == b + [x] ==> a == b
  {
    if a + [x] == b + [x] {
      assert a == (a + [x])[..|a|] && b == (b + [x])[..|b|];
    }
  }

  /** The list the server sends is the comma-joined names exactly when they fit in 4084 bytes. */
  lemma ListLineExactIff(names: seq<Bytes>)
    requires forall name :: name in names ==> Listable(name)
    ensures ListLine(names) == Ascii("USERLIST:") + Joined(names, COMMA) + [LF]
       <==> |Joined(names, COMMA)| <= BUFFER_SIZE - 12
  {
    var exact := Ascii("USERLIST:") + Joined(names, COMMA);
    AppendInjective(ListBody(names), exact, LF);
    if |Joined(names, COMMA)| <= BUFFER_SIZE - 12 {
      ListBodyExact(names);
    } else {
      var last := names[|names| - 1];
      assert Listable(last) && last[|last| - 1] in last;
      assert exact[|exact| - 1] == last[|last| - 1] != COMMA;
      if |ListBody(names)| == BUFFER_SIZE - 2 {
        FullBodyEndsInComma(names);
      }
      assert ListBody(names) != exact;
    }
  }

  lemma {:induction false} JoinedLength(names: seq<Bytes>, most: nat)
    requires forall name :: name in names ==> |name| <= most
    ensures |Joined(names, COMMA)| <= |names| * (most + 1)
    ensures names != [] ==> |Joined(names, COMMA)| < |names| * (most + 1)
  {
    if |names| == 1 {
      assert names[0] in names;
    } else if names != [] {
      var n := |names| - 1;
      assert names[n] in names;
      JoinedLength(names[..n], most);
      assert |names| * (most + 1) == n * (most + 1) + (most + 1);
    }
  }

  /** With the server's own limits every guard of send_user_list succeeds. */
  lemma ListLineExact(names: seq<Bytes>)
    requires |names| <= MAX_CLIENTS
    requires forall name :: name in names ==> |name| < USERNAME_SIZE
    ensures ListLine(names) == Ascii("USERLIST:") + Joined(names, COMMA) + [LF]
    ensures |ListLine(names)| <= 9 + 100 * 31 + 99 + 1
  {
    JoinedLength(names, USERNAME_SIZE - 1);
    ListBodyExact(names);
  }

  // ----- Reading commands -----

  datatype Command =
    | Nothing
    | Listing
    | Private(target: Bytes, text: Bytes)
    | Broadcast(text: Bytes)
    | Answer(line: Bytes)  // an unlocked reply to the sender alone

  function Usage(): Bytes {
    Ascii("[SERVER] Usage: /msg <username> <message>\n")
  }

  function Help(): Bytes {
    Ascii("[SERVER] Available commands:\n")
    + Ascii("[SERVER]   /list - Show online users\n")
    + Ascii("[SERVER]   /msg <username> <message> - Send private message\n")
    + Ascii("[SERVER]   /help - Show this help\n")
    + Ascii("[SERVER] Just type a message to broadcast to all users\n")
  }

  function UnknownCommand(): Bytes {
    Ascii("[SERVER] Unknown command. Type /help for available commands\n")
  }

  function NotFound(): Bytes {
    Ascii("[SERVER] User not found or offline\n")
  }

  /** The part of `/msg` after its five leading bytes. */
  function ParsePrivate(rest: Bytes): Command {
    var i := IndexOf(rest, SPACE);
    if i < |rest| then Private(Take(rest[..i], USERNAME_SIZE - 1), rest[i + 1..])
    else Answer(Usage())
  }

  /** One recv chunk is one command. */
  function ParseCommand(chunk: Bytes): Command {
    var line := CutLine(chunk);
    if line == [] then Nothing
    else if line[0] != SLASH then Broadcast(line)
    else if line == Ascii("/list") then Listing
    else if Ascii("/msg ") <= line then ParsePrivate(line[5..])
    else if line == Ascii("/help") then Answer(Help())
    else Answer(UnknownCommand())
  }

  /** Splitting at the first space undoes the bridge's print of a target and a text exactly when
      the target has no space and fits the server's name buffer. */
  lemma ParsePrivateIff(target: Bytes, text: Bytes)
    ensures ParsePrivate(target + [SPACE] + text) == Private(target, text)
       <==> SPACE !in target && |target| < USERNAME_SIZE
  {
    var rest := target + [SPACE] + text;
    var i := IndexOf(target, SPACE);
    assert rest[..i] == target[..i];
    IndexOfIs(rest, SPACE, i);
    if i == |target| {
      assert rest[..i] == target && rest[i + 1..] == text;
    }
  }

  /** A command line as the bridge sends it reaches the server's parser without its newline. */
  lemma CutSentLine(line: Bytes)
    requires OneLine(line)
    ensures CutLine(line + [LF]) == line
  {
    CutLineIs(line + [LF], line);
  }

  /** A line is broadcast exactly when it does not start like a command. */
  lemma ParseSentText(line: Bytes)
    requires OneLine(line) && line != []
    ensures ParseCommand(line + [LF]) == Broadcast(line) <==> line[0] != SLASH
  {
    hide Ascii, CutLine, IndexOf, Take;
    CutSentLine(line);
  }

  lemma ParseSentPrivate(target: Bytes, text: Bytes)
    requires OneLine(target) && OneLine(text)
    ensures ParseCommand(Ascii("/msg ") + target + [SPACE] + text + [LF])
         == ParsePrivate(target + [SPACE] + text)
  {
    hide ParsePrivate, CutLine;
    var head := Ascii("/msg ");
    assert OneLine(head);
    var line := head + target + [SPACE] + text;
    assert OneLine(line);
    CutSentLine(line);
    assert head <= line && line[5..] == target + [SPACE] + text;
    assert line[0] == SLASH && |line| > 5;
    assert line[4] == SPACE;
    assert Ascii("/list")[4] != SPACE;
  }
}
