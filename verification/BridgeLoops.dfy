/** The web bridge's two receive loops. */
module BridgeLoops {
  import opened Bytes
  import opened Protocol
  import opened RoundTrips
  import opened Utf8
  import opened WebText

  /** What one recv call brings; an empty chunk is the end of the stream. */
  datatype Received = Chunk(data: Bytes) | Timeout | Broken

  predicate Ends(r: Received) {
    r.Broken? || (r.Chunk? && r.data == [])
  }

  /** None of the first `n` calls ends the stream. */
  predicate GoesOn(rs: seq<Received>, n: nat)
    requires n <= |rs|
  {
    forall i :: 0 <= i < n ==> !Ends(rs[i])
  }

  lemma GoesOnStep(rs: seq<Received>, n: nat)
    requires 0 < n <= |rs| && GoesOn(rs, n - 1) && !Ends(rs[n - 1])
    ensures GoesOn(rs, n)
  {
  }

  function Data(rs: seq<Received>): Bytes {
    if rs == [] then []
    else
      var n := |rs| - 1;
      Data(rs[..n]) + if rs[n].Chunk? then rs[n].data else []
  }

  lemma NoData(rs: seq<Received>)
    ensures Data(rs[..0]) == []
  {
  }

  lemma DataStep(rs: seq<Received>, n: nat)
    requires 0 < n <= |rs|
    ensures Data(rs[..n]) == if rs[n - 1].Chunk? then Data(rs[..n - 1]) + rs[n - 1].data else Data(rs[..n - 1])
  {
    assert rs[..n][..n - 1] == rs[..n - 1];
  }

  lemma {:induction false} DataConcat(a: seq<Received>, b: seq<Received>)
    ensures Data(a + b) == Data(a) + Data(b)
  {
    if b == [] {
      assert a + b == a;
    } else {
      var n := |b| - 1;
      assert (a + b)[..|a + b| - 1] == a + b[..n];
      DataConcat(a, b[..n]);
    }
  }

  lemma DataOne(r: Received)
    ensures Data([r]) == if r.Chunk? then r.data else []
  {
    assert [r][..0] == [] && Data([]) == [];
  }

  lemma DataOfPieces(a: Bytes, b: Bytes)
    ensures Data([Chunk(a), Timeout, Chunk(b)]) == a + b
  {
    hide Data;
    var first, last := [Chunk(a)], [Chunk(b)];
    assert [Chunk(a), Timeout, Chunk(b)] == first + [Timeout] + last;
    DataConcat(first + [Timeout], last);
    DataConcat(first, [Timeout]);
    DataOne(first[0]);
    DataOne(Timeout);
    DataOne(last[0]);
    assert a + [] == a;
  }

  /** A text that the server sends in any two pieces, with a timeout between them, is put together again. */
  lemma PiecesArrive(text: string, at: nat)
    requires at <= |Encode(text)|
    ensures var b := Encode(text); Decode(Data([Chunk(b[..at]), Timeout, Chunk(b[at..])])) == text
  {
    hide Data, Encode, Decode;
    var b := Encode(text);
    DataOfPieces(b[..at], b[at..]);
    assert b[..at] + b[at..] == b;
    DecodeEncode(text);
  }

  predicate Contains(text: string, part: string) {
    exists i :: 0 <= i <= |text| && part <= text[i..]
  }

  lemma ContainsIs(before: string, part: string, after: string)
    ensures Contains(before + part + after, part)
  {
    var text := before + part + after;
    assert text[|before|..] == part + after;
    assert part <= text[|before|..];
  }

  lemma ContainedAt(text: string, part: string) returns (before: string, after: string)
    requires Contains(text, part)
    ensures text == before + part + after
  {
    var i :| 0 <= i <= |text| && part <= text[i..];
    before, after := text[..i], text[i + |part|..];
    assert text == text[..i] + text[i..];
  }

  /** The loop of recv_until is left after the first `n` calls. */
  predicate StopsAfter(rs: seq<Received>, n: nat, expected: string)
    requires 1 <= n <= |rs|
  {
    Ends(rs[n - 1]) || Contains(Decode(Data(rs[..n])), expected)
  }

  /** `rs` are the results of the recv calls that fit into the timeout. Returns the text of the
      shortest sequence of calls that brings the expected text or the end of the stream. */
  method RecvUntil(rs: seq<Received>, expected: string) returns (text: string, calls: nat)
    ensures calls <= |rs|
    ensures text == Decode(Data(rs[..calls]))
    ensures forall n :: 1 <= n < calls ==> !StopsAfter(rs, n, expected)
    ensures calls < |rs| ==> calls >= 1 && StopsAfter(rs, calls, expected)
  {
    hide Data, Decode, Contains;
    var buffer: Bytes := [];
    calls := 0;
    NoData(rs);
    while calls < |rs|
      invariant 0 <= calls <= |rs| && buffer == Data(rs[..calls])
      invariant forall n :: 1 <= n <= calls ==> !StopsAfter(rs, n, expected)
    {
      var r := rs[calls];
      calls := calls + 1;
      DataStep(rs, calls);
      assert buffer + [] == buffer;
      match r
      case Chunk(data) =>
        if data == [] {
          break;
        }
        buffer := buffer + data;
        var decoded := Decode(buffer);
        if Contains(decoded, expected) {
          return decoded, calls;
        }
      case Timeout =>
        var decoded := Decode(buffer);
        if Contains(decoded, expected) {
          return decoded, calls;
        }
      case Broken =>
        break;
    }
    text := Decode(buffer);
  }

  /** The event for one chunk, if there is text in it. */
  function Emits(r: Received): seq<Event> {
    if r.Chunk? && !Receive(r.data).Quiet? then [Receive(r.data)] else []
  }

  function Forwarded(rs: seq<Received>): seq<Event> {
    if rs == [] then [] else Forwarded(rs[..|rs| - 1]) + Emits(rs[|rs| - 1])
  }

  lemma NothingForwarded(rs: seq<Received>)
    ensures Forwarded(rs[..0]) == []
  {
  }

  lemma ForwardedStep(rs: seq<Received>, n: nat)
    requires 0 < n <= |rs|
    ensures Forwarded(rs[..n]) == Forwarded(rs[..n - 1]) + Emits(rs[n - 1])
    ensures Ends(rs[n - 1]) || rs[n - 1].Timeout? ==> Forwarded(rs[..n]) == Forwarded(rs[..n - 1])
  {
    assert rs[..n][..n - 1] == rs[..n - 1];
  }

  // ----- Which events, and where -----

  /** The call brings a chunk with something other than whitespace in it. */
  predicate HasText(r: Received) {
    r.Chunk? && exists c :: c in Decode(r.data) && !PySpace(c)
  }

  /** The number of such calls among the first `n`. */
  function Texts(rs: seq<Received>, n: nat): (k: nat)
    requires n <= |rs|
    ensures k <= n
  {
    if n == 0 then 0 else Texts(rs, n - 1) + if HasText(rs[n - 1]) then 1 else 0
  }

  /** One event for each of the first `n` calls that bring text, each in the place of its call. */
  ghost predicate Mirrors(rs: seq<Received>, n: nat, events: seq<Event>) {
    && n <= |rs| && |events| == Texts(rs, n)
    && forall i :: 0 <= i < n && HasText(rs[i]) ==>
         Texts(rs, i) < |events| && events[Texts(rs, i)] == Receive(rs[i].data)
  }

  lemma TextIsNotQuiet(r: Received)
    requires r.Chunk?
    ensures HasText(r) <==> !Receive(r.data).Quiet?
  {
    var text := Decode(r.data);
    var left, right := StripTakesSpace(text);
    if Strip(text) != [] {
      assert !PySpace(Strip(text)[0]) && Strip(text)[0] in text;
    } else {
      assert text == left + right;
    }
  }

  lemma MirrorsStep(rs: seq<Received>, n: nat, events: seq<Event>)
    requires n < |rs| && Mirrors(rs, n, events)
    ensures Mirrors(rs, n + 1, events + Emits(rs[n]))
  {
    if rs[n].Chunk? {
      TextIsNotQuiet(rs[n]);
    }
    var more := events + Emits(rs[n]);
    forall i | 0 <= i < n + 1 && HasText(rs[i])
      ensures Texts(rs, i) < |more| && more[Texts(rs, i)] == Receive(rs[i].data)
    {
      assert i < n ==> more[Texts(rs, i)] == events[Texts(rs, i)];
    }
  }

  lemma {:induction false} ForwardedMirrors(rs: seq<Received>, n: nat)
    requires n <= |rs|
    ensures Mirrors(rs, n, Forwarded(rs[..n]))
  {
    if n > 0 {
      ForwardedMirrors(rs, n - 1);
      MirrorsStep(rs, n - 1, Forwarded(rs[..n - 1]));
      ForwardedStep(rs, n);
    }
  }

  /** A trimmed line that the server sends as one chunk becomes one chat message, unchanged, in its place. */
  lemma LineForwarded(rs: seq<Received>, n: nat, events: seq<Event>, i: nat, line: string)
    requires Mirrors(rs, n, events) && i < n && line != "" && Trimmed(line) && !("USERLIST:" <= line)
    ensures rs[i] == Chunk(Encode(line + "\n")) ==>
      Texts(rs, i) < |events| && events[Texts(rs, i)] == ChatMessage(line)
  {
    DecodeEncode(line + "\n");
    StripLine(line);
    assert line[0] in line + "\n";
  }

  /** A broadcast becomes a chat message that the browser shows under its speaker, exactly if it is safe. */
  lemma BroadcastForwarded(rs: seq<Received>, n: nat, events: seq<Event>, i: nat, name: string, text: string)
    requires Mirrors(rs, n, events) && i < n
    requires TagName(name) && Typed(text) && |Encode(text)| <= BUFFER_SIZE - USERNAME_SIZE - 5
    ensures rs[i] == Chunk(TalkLine(Encode(name), Encode(text))) ==>
      && Texts(rs, i) < |events| && events[Texts(rs, i)].ChatMessage?
      && (Show(events[Texts(rs, i)].message) == Said(name, text) <==> BrowserSafe(text))
  {
    hide TalkLine, Show, Receive, Encode, BrowserSafe;
    BroadcastRoundTrip(name, text);
    if rs[i].Chunk? {
      TextIsNotQuiet(rs[i]);
    }
  }

  /** A printed list becomes one list event with its names. */
  lemma ListForwarded(rs: seq<Received>, n: nat, events: seq<Event>, i: nat, names: seq<string>)
    requires Mirrors(rs, n, events) && i < n
    requires forall name :: name in names ==> ListableName(name)
    requires |Joined(EncodeEach(names), COMMA)| <= BUFFER_SIZE - 12
    ensures rs[i] == Chunk(ListLine(EncodeEach(names))) ==>
      Texts(rs, i) < |events| && events[Texts(rs, i)] == UserList(names)
  {
    hide ListLine, Receive, EncodeEach;
    UserListRoundTrip(names);
    if rs[i].Chunk? {
      TextIsNotQuiet(rs[i]);
    }
  }

  /** `rs` are the results of the recv calls so far; the loop either waits for more or has ended. The disconnect
      event is sent at the end if `active` is then still set; `setUp` says whether settimeout worked. */
  method TcpReceiver(setUp: bool, rs: seq<Received>)
    returns (events: seq<Event>, calls: nat, ended: bool, notified: bool)
    ensures calls <= |rs| && events == Forwarded(rs[..calls]) && Mirrors(rs, calls, events)
    ensures !setUp ==> ended && calls == 0
    ensures setUp && ended ==> calls > 0 && Ends(rs[calls - 1]) && GoesOn(rs, calls - 1)
    ensures setUp && !ended ==> calls == |rs| && GoesOn(rs, calls)
    ensures !notified
  {
    hide Forwarded, Emits, Texts, HasText, Mirrors;
    events, calls, ended, notified := [], 0, false, false;
    NothingForwarded(rs);
    var active := true;
    if !setUp {
      active := false;
      ended := true;
    }
    while active && calls < |rs|
      invariant 0 <= calls <= |rs| && events == Forwarded(rs[..calls])
      invariant setUp ==> active && !ended && GoesOn(rs, calls)
      invariant !setUp ==> !active && ended && calls == 0
    {
      var r := rs[calls];
      calls := calls + 1;
      ForwardedStep(rs, calls);
      match r
      case Chunk(data) =>
        if data == [] {
          active := false;
          ended := true;
          break;
        }
        GoesOnStep(rs, calls);
        events := events + Emits(r);
      case Timeout =>
        GoesOnStep(rs, calls);
      case Broken =>
        active := false;
        ended := true;
        break;
    }
    if ended {
      notified := active;
    }
    ForwardedMirrors(rs, calls);
  }
}
