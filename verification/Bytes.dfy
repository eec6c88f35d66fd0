/** Byte strings as the server's C code sees them, and the few string.h idioms it uses. */
module Bytes {
  newtype byte = x: int | 0 <= x < 256

  type Bytes = seq<byte>

  datatype Option<+T> = None | Some(value: T)

  const NUL: byte := 0
  const LF: byte := 10
  const CR: byte := 13
  const SPACE: byte := 32
  const COMMA: byte := 44
  const SLASH: byte := 47

  /** The bytes of an ASCII literal. */
  function Ascii(s: string): (b: Bytes)
    ensures |b| == |s|
  {
    seq(|s|, i requires 0 <= i < |s| => if s[i] < '\U{80}' then s[i] as int as byte else 0)
  }

  predicate EndsLine(x: byte) {
    x == NUL || x == LF || x == CR
  }

  predicate OneLine(b: Bytes) {
    forall x :: x in b ==> !EndsLine(x)
  }

  /** What is left of a received chunk after `buffer[strcspn(buffer, "\r\n")] = 0`, read as a C string. */
  function CutLine(b: Bytes): (line: Bytes)
    ensures line <= b && OneLine(line)
    ensures |line| < |b| ==> EndsLine(b[|line|])
  {
    if b == [] || EndsLine(b[0]) then [] else [b[0]] + CutLine(b[1..])
  }

  /** CutLine is the only prefix with the properties its contract states. */
  lemma CutLineIs(b: Bytes, line: Bytes)
    requires line <= b && OneLine(line)
    requires |line| < |b| ==> EndsLine(b[|line|])
    ensures CutLine(b) == line
  {
  }

  /** The string that a char buffer holds: everything before its first NUL. */
  function CString(b: Bytes): (s: Bytes)
    ensures s <= b && NUL !in s
    ensures |s| < |b| ==> b[|s|] == NUL
  {
    if b == [] || b[0] == NUL then [] else [b[0]] + CString(b[1..])
  }

  lemma CStringIs(b: Bytes, s: Bytes)
    requires s <= b && NUL !in s && |s| < |b| && b[|s|] == NUL
    ensures CString(b) == s
  {
  }

  /** strchr: the first position of `x`, or the length when there is none. */
  function IndexOf(b: Bytes, x: byte): (i: nat)
    ensures i <= |b|
    ensures x !in b[..i]
    ensures i < |b| ==> b[i] == x
  {
    if b == [] || b[0] == x then 0
    else
      var i := 1 + IndexOf(b[1..], x);
      assert b[..i] == [b[0]] + b[1..][..i - 1];
      i
  }

  lemma IndexOfIs(b: Bytes, x: byte, i: nat)
    requires i <= |b| && x !in b[..i]
    requires i < |b| ==> b[i] == x
    ensures IndexOf(b, x) == i
  {
  }

  function Take(b: Bytes, n: nat): (r: Bytes)
    ensures r <= b && |r| <= n
    ensures |b| <= n ==> r == b
    ensures |b| > n ==> |r| == n
  {
    if |b| <= n then b else b[..n]
  }
}
