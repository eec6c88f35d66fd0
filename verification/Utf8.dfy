/** UTF-8 as Python's str.encode() and bytes.decode('utf-8', errors='ignore') use it. */
module Utf8 {
  import opened Bytes

  function EncodeChar(c: char): (b: Bytes)
    ensures 1 <= |b| <= 4
  {
    var n := c as int;
    if n < 0x80 then [n as byte]
    else if n < 0x800 then [(0xC0 + n / 64) as byte, (0x80 + n % 64) as byte]
    else if n < 0x1_0000 then
      [(0xE0 + n / 4096) as byte, (0x80 + n / 64 % 64) as byte, (0x80 + n % 64) as byte]
    else
      [(0xF0 + n / 0x4_0000) as byte, (0x80 + n / 4096 % 64) as byte,
       (0x80 + n / 64 % 64) as byte, (0x80 + n % 64) as byte]
  }

  function Encode(s: string): (b: Bytes)
    ensures |s| <= |b|
  {
    if s == [] then [] else EncodeChar(s[0]) + Encode(s[1..])
  }

  predicate Continues(x: byte) {
    0x80 <= x < 0xC0
  }

  /** The low six bits of a continuation byte. */
  function Low(x: byte): int {
    x as int - 0x80
  }

  /** A code point that is not a surrogate and needs at least the length it was written with. */
  predicate Scalar(n: int, least: int) {
    least <= n < 0x11_0000 && !(0xD800 <= n < 0xE000)
  }

  /** The well-formed character at the front of `b`, with the number of bytes it takes. */
  function Front(b: Bytes): (r: Option<(nat, char)>)
    requires b != []
    ensures r.Some? ==> 1 <= r.value.0 <= |b|
  {
    var lead := b[0] as int;
    if lead < 0x80 then Some((1, lead as char))
    else if 0xC0 <= lead < 0xE0 && |b| >= 2 && Continues(b[1]) then
      var n := (lead - 0xC0) * 64 + Low(b[1]);
      if Scalar(n, 0x80) then Some((2, n as char)) else None
    else if 0xE0 <= lead < 0xF0 && |b| >= 3 && Continues(b[1]) && Continues(b[2]) then
      var n := (lead - 0xE0) * 4096 + Low(b[1]) * 64 + Low(b[2]);
      if Scalar(n, 0x800) then Some((3, n as char)) else None
    else if 0xF0 <= lead < 0xF8 && |b| >= 4 && Continues(b[1]) && Continues(b[2]) && Continues(b[3]) then
      var n := (lead - 0xF0) * 0x4_0000 + Low(b[1]) * 4096 + Low(b[2]) * 64 + Low(b[3]);
      if Scalar(n, 0x1_0000) then Some((4, n as char)) else None
    else None
  }

  /** Ill-formed bytes are dropped one at a time, which drops the same bytes as dropping each
      ill-formed run at once. */
  function Decode(b: Bytes): string {
    if b == [] then []
    else
      match Front(b)
      case None => Decode(b[1..])
      case Some((k, c)) => [c] + Decode(b[k..])
  }

  /** The base-64 digits of a code point. */
  lemma Digits(n: nat)
    ensures n / 4096 == n / 64 / 64 && n / 0x4_0000 == n / 64 / 64 / 64
    ensures n == n / 4096 * 4096 + n / 64 % 64 * 64 + n % 64
    ensures n / 4096 == n / 0x4_0000 * 64 + n / 4096 % 64
  {
  }

  lemma FrontOfPair(c: char, rest: Bytes)
    requires 0x80 <= c as int < 0x800
    ensures Front(EncodeChar(c) + rest) == Some((2, c))
  {
    var b := EncodeChar(c) + rest;
    assert b[0] == EncodeChar(c)[0] && b[1] == EncodeChar(c)[1];
  }

  lemma FrontOfTriple(c: char, rest: Bytes)
    requires 0x800 <= c as int < 0x1_0000
    ensures Front(EncodeChar(c) + rest) == Some((3, c))
  {
    var n, e := c as int, EncodeChar(c);
    var b := e + rest;
    assert b[0] == e[0] && b[1] == e[1] && b[2] == e[2];
    Digits(n);
    assert (b[0] as int - 0xE0) * 4096 + Low(b[1]) * 64 + Low(b[2]) == n;
  }

  lemma FrontOfQuad(c: char, rest: Bytes)
    requires 0x1_0000 <= c as int
    ensures Front(EncodeChar(c) + rest) == Some((4, c))
  {
    var n, e := c as int, EncodeChar(c);
    var b := e + rest;
    assert b[0] == e[0] && b[1] == e[1] && b[2] == e[2] && b[3] == e[3];
    Digits(n);
    assert (b[0] as int - 0xF0) * 0x4_0000 + Low(b[1]) * 4096 + Low(b[2]) * 64 + Low(b[3]) == n;
  }

  lemma FrontOfEncoded(c: char, rest: Bytes)
    ensures Front(EncodeChar(c) + rest) == Some((|EncodeChar(c)|, c))
  {
    if 0x80 <= c as int < 0x800 {
      FrontOfPair(c, rest);
    } else if 0x800 <= c as int < 0x1_0000 {
      FrontOfTriple(c, rest);
    } else if 0x1_0000 <= c as int {
      FrontOfQuad(c, rest);
    }
  }

  /** Decoding gives back every text that was encoded. */
  lemma {:induction false} DecodeEncode(s: string)
    ensures Decode(Encode(s)) == s
  {
    if s != [] {
      var rest := Encode(s[1..]);
      FrontOfEncoded(s[0], rest);
      assert (EncodeChar(s[0]) + rest)[|EncodeChar(s[0])|..] == rest;
      DecodeEncode(s[1..]);
    }
  }

  lemma DecodeChar(c: char, rest: Bytes)
    ensures Decode(EncodeChar(c) + rest) == [c] + Decode(rest)
  {
    hide EncodeChar, Front;
    FrontOfEncoded(c, rest);
    assert (EncodeChar(c) + rest)[|EncodeChar(c)|..] == rest;
  }

  lemma {:induction false} DecodeBehind(s: string, b: Bytes)
    ensures Decode(Encode(s) + b) == s + Decode(b)
  {
    hide Decode, EncodeChar, Front;
    if s == [] {
      assert Encode(s) + b == b;
    } else {
      var c, rest := EncodeChar(s[0]), Encode(s[1..]) + b;
      assert Encode(s) + b == c + rest;
      DecodeChar(s[0], rest);
      DecodeBehind(s[1..], b);
      assert [s[0]] + (s[1..] + Decode(b)) == s + Decode(b);
    }
  }

  /** A byte that cannot start a character is ignored, and nothing else with it. */
  lemma DecodeIgnores(s: string, x: byte, t: string)
    requires Continues(x) || x >= 0xF8
    ensures Decode(Encode(s) + [x] + Encode(t)) == s + t
  {
    var rest := [x] + Encode(t);
    assert Encode(s) + [x] + Encode(t) == Encode(s) + rest;
    DecodeBehind(s, rest);
    assert Front(rest).None? && rest[1..] == Encode(t);
    DecodeEncode(t);
  }

  lemma {:induction false} EncodeConcat(s: string, t: string)
    ensures Encode(s + t) == Encode(s) + Encode(t)
  {
    if s == [] {
      assert s + t == t;
    } else {
      assert (s + t)[1..] == s[1..] + t;
      EncodeConcat(s[1..], t);
    }
  }

  predicate IsAscii(s: string) {
    forall c :: c in s ==> c < '\U{80}'
  }

  lemma {:induction false} EncodeAscii(s: string)
    requires IsAscii(s)
    ensures Encode(s) == Ascii(s)
  {
    if s != [] {
      assert s[0] in s;
      forall c | c in s[1..] ensures c < '\U{80}' { assert c in s; }
      EncodeAscii(s[1..]);
      assert Ascii(s) == Ascii([s[0]]) + Ascii(s[1..]);
    }
  }

  /** An ASCII byte occurs in an encoded text exactly when its character occurs in the text. */
  lemma {:induction false} AsciiTransparent(s: string, x: byte)
    requires x < 0x80
    ensures x in Encode(s) <==> x as int as char in s
  {
    if s != [] {
      AsciiTransparent(s[1..], x);
      assert s == [s[0]] + s[1..];
    }
  }

  lemma EncodeAround(before: string, c: char, after: string)
    requires c < '\U{80}'
    ensures Encode(before + [c] + after) == Encode(before) + [c as int as byte] + Encode(after)
  {
    EncodeConcat(before, [c]);
    EncodeConcat(before + [c], after);
    assert Encode([c]) == [c as int as byte] by { EncodeAscii([c]); }
  }

  lemma FirstInConcat(a: Bytes, x: byte, b: Bytes)
    requires x !in a
    ensures var i := IndexOf(a + [x] + b, x);
      i == |a| && (a + [x] + b)[..i] == a && (a + [x] + b)[i + 1..] == b
  {
    var whole := a + [x] + b;
    assert whole[..|a|] == a && whole[|a| + 1..] == b;
    IndexOfIs(whole, x, |a|);
  }

  /** The server's search for an ASCII byte stops at the first such character of the text, with the text
      in front of it on the left and the text behind it on the right. */
  lemma FirstAsciiByte(before: string, c: char, after: string)
    requires c < '\U{80}' && c !in before
    ensures var b := Encode(before + [c] + after); var i := IndexOf(b, c as int as byte);
      i < |b| && b[..i] == Encode(before) && b[i + 1..] == Encode(after)
  {
    var x := c as int as byte;
    EncodeAround(before, c, after);
    AsciiTransparent(before, x);
    FirstInConcat(Encode(before), x, Encode(after));
  }

  predicate LineEnd(c: char) {
    c == '\0' || c == '\n' || c == '\r'
  }

  /** The server's line cut stops at the first CR, LF or NUL of the text. */
  lemma FirstLineEnd(before: string, c: char, after: string)
    requires LineEnd(c) && forall d :: d in before ==> !LineEnd(d)
    ensures CutLine(Encode(before + [c] + after)) == Encode(before)
  {
    EncodeAround(before, c, after);
    AsciiTransparent(before, NUL);
    AsciiTransparent(before, LF);
    AsciiTransparent(before, CR);
    CutLineIs(Encode(before + [c] + after), Encode(before));
  }

  /** Different texts have different encodings. */
  lemma EncodeInjective(s: string, t: string)
    requires Encode(s) == Encode(t)
    ensures s == t
  {
    DecodeEncode(s);
    DecodeEncode(t);
  }
}
