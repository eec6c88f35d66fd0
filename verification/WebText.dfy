/** The text handling between the server and the screen: how the Python bridge cleans, splits and
    forwards a chunk, and how the browser's handleChatMessage classifies a line. */
module WebText {
  import opened Bytes
  import opened Protocol
  import opened Utf8

  // ----- Python: str.strip, str.split -----

  /** str.isspace of one character. */
  predicate PySpace(c: char) {
    '\t' <= c <= '\r' || '\U{1C}' <= c <= ' ' || c == '\U{85}' || c == '\U{A0}' || c == '\U{1680}'
    || '\U{2000}' <= c <= '\U{200A}' || c == '\U{2028}' || c == '\U{2029}' || c == '\U{202F}'
    || c == '\U{205F}' || c == '\U{3000}'
  }

  function StripLeft(s: string): (r: string)
    ensures r == [] || !PySpace(r[0])
    ensures r == [] || (s != [] && r[|r| - 1] == s[|s| - 1])
    ensures |r| <= |s|
  {
    if s != [] && PySpace(s[0]) then StripLeft(s[1..]) else s
  }

  function StripRight(s: string): (r: string)
    ensures r <= s
    ensures r == [] || !PySpace(r[|r| - 1])
  {
    if s != [] && PySpace(s[|s| - 1]) then StripRight(s[..|s| - 1]) else s
  }

  function Strip(s: string): (r: string)
    ensures Trimmed(r)
  {
    StripRight(StripLeft(s))
  }

  predicate AllSpace(s: string) {
    forall c :: c in s ==> PySpace(c)
  }

  lemma {:induction false} LeftOfStrip(s: string) returns (left: string)
    ensures s == left + StripLeft(s) && AllSpace(left)
  {
    if s != [] && PySpace(s[0]) {
      var rest := LeftOfStrip(s[1..]);
      left := [s[0]] + rest;
    } else {
      left := [];
    }
  }

  lemma {:induction false} RightOfStrip(s: string) returns (right: string)
    ensures s == StripRight(s) + right && AllSpace(right)
  {
    if s != [] && PySpace(s[|s| - 1]) {
      var rest := RightOfStrip(s[..|s| - 1]);
      right := rest + [s[|s| - 1]];
    } else {
      right := [];
    }
  }

  /** Stripping takes whitespace off the two ends and nothing else. */
  lemma StripTakesSpace(s: string) returns (left: string, right: string)
    ensures s == left + Strip(s) + right && AllSpace(left) && AllSpace(right)
    ensures Trimmed(Strip(s))
  {
    left := LeftOfStrip(s);
    right := RightOfStrip(StripLeft(s));
  }

  predicate Trimmed(s: string) {
    s == [] || (!PySpace(s[0]) && !PySpace(s[|s| - 1]))
  }

  lemma StripTrimmed(s: string)
    requires Trimmed(s)
    ensures Strip(s) == s
  {
  }

  /** A trimmed text survives the newline that the server prints after it. */
  lemma StripLine(s: string)
    requires Trimmed(s)
    ensures Strip(s + "\n") == s
  {
    if s == [] {
      assert s + "\n" == "\n" && "\n"[1..] == [];
      assert StripLeft("\n") == StripLeft("\n"[1..]);
    } else {
      assert (s + "\n")[0] == s[0];
      assert (s + "\n")[..|s|] == s;
      assert StripRight(s + "\n") == StripRight((s + "\n")[..|s|]);
    }
  }

  function Split(s: string, separator: char): (parts: seq<string>)
    ensures parts != []
  {
    if s == [] then [[]]
    else
      var parts := Split(s[1..], separator);
      if s[0] == separator then [[]] + parts else [[s[0]] + parts[0]] + parts[1..]
  }

  lemma {:induction false} SplitWhole(s: string, separator: char)
    requires separator !in s
    ensures Split(s, separator) == [s]
  {
    if s != [] {
      assert s[0] in s && separator !in s[1..];
      SplitWhole(s[1..], separator);
      assert [s[0]] + s[1..] == s;
    }
  }

  lemma {:induction false} SplitAppended(s: string, separator: char, last: string)
    requires separator !in last
    ensures Split(s + [separator] + last, separator) == Split(s, separator) + [last]
  {
    var whole := s + [separator] + last;
    if s == [] {
      assert whole[1..] == last;
      SplitWhole(last, separator);
    } else {
      assert whole[1..] == s[1..] + [separator] + last;
      SplitAppended(s[1..], separator, last);
    }
  }

  lemma {:induction false} SplitJoined(names: seq<string>, separator: char)
    requires names != []
    requires forall name :: name in names ==> separator !in name
    ensures Split(Joined(names, separator), separator) == names
  {
    var n := |names| - 1;
    assert names[n] in names;
    if n == 0 {
      SplitWhole(names[0], separator);
    } else {
      SplitJoined(names[..n], separator);
      SplitAppended(Joined(names[..n], separator), separator, names[n]);
    }
  }

  // ----- The bridge's receiver: one chunk to one event -----

  datatype Event =
    | Quiet
    | UserList(users: seq<string>)
    | ChatMessage(message: string)

  /** `[u.strip() for u in parts if u.strip()]` */
  function Cleaned(parts: seq<string>): seq<string> {
    if parts == [] then []
    else
      var user := Strip(parts[0]);
      (if user == [] then [] else [user]) + Cleaned(parts[1..])
  }

  lemma CleanedOne(part: string)
    ensures Cleaned([part]) == if Strip(part) == "" then [] else [Strip(part)]
  {
    assert [part][1..] == [];
  }

  /** Every part is cleaned for itself. */
  lemma {:induction false} CleanedConcat(a: seq<string>, b: seq<string>)
    ensures Cleaned(a + b) == Cleaned(a) + Cleaned(b)
  {
    if a == [] {
      assert a + b == b;
    } else {
      assert (a + b)[0] == a[0] && (a + b)[1..] == a[1..] + b;
      CleanedConcat(a[1..], b);
    }
  }

  function Receive(chunk: Bytes): Event {
    var message := Strip(Decode(chunk));
    if message == [] then Quiet
    else if "USERLIST:" <= message then UserList(Cleaned(Split(message[9..], ',')))
    else ChatMessage(message)
  }

  // ----- The browser: handleChatMessage -----

  /** `\s` in a JavaScript regular expression. */
  predicate JsSpace(c: char) {
    '\t' <= c <= '\r' || c == ' ' || c == '\U{A0}' || c == '\U{1680}' || '\U{2000}' <= c <= '\U{200A}'
    || c == '\U{2028}' || c == '\U{2029}' || c == '\U{202F}' || c == '\U{205F}' || c == '\U{3000}'
    || c == '\U{FEFF}'
  }

  /** Python and the browser agree on what is a space but for these characters. */
  lemma SpacesDiffer(c: char)
    ensures PySpace(c) != JsSpace(c) <==> '\U{1C}' <= c <= '\U{1F}' || c == '\U{85}' || c == '\U{FEFF}'
  {
  }

  /** The characters that `.` does not match. */
  predicate JsLineEnd(c: char) {
    c == '\n' || c == '\r' || c == '\U{2028}' || c == '\U{2029}'
  }

  function SkipSpaces(s: string): (r: string)
    ensures r == [] || !JsSpace(r[0])
    ensures |r| <= |s|
  {
    if s != [] && JsSpace(s[0]) then SkipSpaces(s[1..]) else s
  }

  /** The first `]`, or the length when there is none. */
  function Bracket(s: string): (i: nat)
    ensures i <= |s| && ']' !in s[..i]
    ensures i < |s| ==> s[i] == ']'
  {
    if s == [] || s[0] == ']' then 0
    else
      var i := 1 + Bracket(s[1..]);
      assert s[..i] == [s[0]] + s[1..][..i - 1];
      i
  }

  /** The groups of `^<prefix>([^\]]+)\]\s*(.*)$`: the greedy `\s*` takes every leading space,
      and giving some back cannot help `.*` over a line end that is left. */
  function MatchTagged(prefix: string, message: string): Option<(string, string)> {
    if !(prefix <= message) then None
    else
      var rest := message[|prefix|..];
      var i := Bracket(rest);
      if i == 0 || i == |rest| then None
      else
        var text := SkipSpaces(rest[i + 1..]);
        if exists c :: c in text && JsLineEnd(c) then None else Some((rest[..i], text))
  }

  datatype Shown =
    | System(text: string)
    | Said(sender: string, text: string)
    | PrivateFrom(sender: string, text: string)
    | PrivateTo(recipient: string, text: string)
    | Dropped

  function Show(message: string): Shown {
    if "[PRIVATE from " <= message then
      match MatchTagged("[PRIVATE from ", message)
      case Some((sender, text)) => PrivateFrom(sender, text)
      case None => Dropped
    else if "[PRIVATE to " <= message then
      match MatchTagged("[PRIVATE to ", message)
      case Some((recipient, text)) => PrivateTo(recipient, text)
      case None => Dropped
    else
      match MatchTagged("[", message)
      case Some((sender, text)) => if sender == "SERVER" then System(text) else Said(sender, text)
      case None => System(message)
  }
}
