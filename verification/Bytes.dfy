/** Bytes, and the white space of Unicode as it appears in UTF-8 text. */
module Bytes {
  newtype byte = b: int | 0 <= b < 256

  const TAB: byte := 0x09
  const LF: byte := 0x0a
  const CR: byte := 0x0d
  const ESC: byte := 0x1b

  /** The bytes of a text of ASCII characters. */
  function Ascii(s: string): (t: seq<byte>)
    requires forall i | 0 <= i < |s| :: s[i] < 128 as char
  {
    seq(|s|, i requires 0 <= i < |s| => s[i] as byte)
  }

  predicate AsciiSpace(b: byte) {
    b == 0x20 || 0x09 <= b <= 0x0d
  }

  /** The length of the white space character the text begins with, 0 if it begins with none. */
  function SpaceLen(s: seq<byte>): (n: nat)
    ensures n <= |s| && n <= 3
  {
    if |s| >= 1 && AsciiSpace(s[0]) then 1
    else if |s| >= 2 && s[0] == 0xc2 && (s[1] == 0x85 || s[1] == 0xa0) then 2
    else if |s| >= 3 && WideSpace(s[0], s[1], s[2]) then 3
    else 0
  }

  /** U+1680, U+2000 to U+200A, U+2028, U+2029, U+202F, U+205F and U+3000. */
  predicate WideSpace(a: byte, b: byte, c: byte) {
    || (a == 0xe1 && b == 0x9a && c == 0x80)
    || (a == 0xe2 && b == 0x80 && (0x80 <= c <= 0x8a || c == 0xa8 || c == 0xa9 || c == 0xaf))
    || (a == 0xe2 && b == 0x81 && c == 0x9f)
    || (a == 0xe3 && b == 0x80 && c == 0x80)
  }

  /** The text is white space throughout. */
  predicate Blank(s: seq<byte>)
    decreases |s|
  {
    s == [] || (SpaceLen(s) > 0 && Blank(s[SpaceLen(s)..]))
  }

  // ----- white space as characters -----

  /** The white space characters of Unicode. */
  const SPACES: set<int> := {
    0x09, 0x0a, 0x0b, 0x0c, 0x0d, 0x20, 0x85, 0xa0, 0x1680,
    0x2000, 0x2001, 0x2002, 0x2003, 0x2004, 0x2005, 0x2006, 0x2007, 0x2008, 0x2009, 0x200a,
    0x2028, 0x2029, 0x202f, 0x205f, 0x3000
  }

  /** UTF-8 (section 3 of RFC 3629), up to three bytes. */
  function Utf8Char(c: int): (s: seq<byte>)
    requires 0 <= c < 0x1_0000
    ensures 1 <= |s| <= 3
  {
    if c < 0x80 then [c as byte]
    else if c < 0x800 then [(0xc0 + c / 0x40) as byte, (0x80 + c % 0x40) as byte]
    else [(0xe0 + c / 0x1000) as byte, (0x80 + c / 0x40 % 0x40) as byte, (0x80 + c % 0x40) as byte]
  }

  predicate AllSpace(cs: seq<int>) {
    forall i | 0 <= i < |cs| :: cs[i] in SPACES
  }

  function Utf8(cs: seq<int>): seq<byte>
    requires AllSpace(cs)
  {
    if cs == [] then [] else Utf8Char(cs[0]) + Utf8(cs[1..])
  }

  /** The matcher finds the white space character in front, if there is one. */
  lemma SpaceInFront(c: int, rest: seq<byte>)
    requires c in SPACES
    ensures SpaceLen(Utf8Char(c) + rest) == |Utf8Char(c)|
  {
  }

  /** The white space character that the text begins with. */
  lemma SpaceIsChar(s: seq<byte>) returns (c: int)
    requires SpaceLen(s) > 0
    ensures c in SPACES && Utf8Char(c) == s[..SpaceLen(s)]
  {
    if SpaceLen(s) == 1 {
      c := s[0] as int;
    } else if SpaceLen(s) == 2 {
      c := s[1] as int;
    } else {
      c := (s[0] as int - 0xe0) * 0x1000 + (s[1] as int - 0x80) * 0x40 + (s[2] as int - 0x80);
      WideIsChar(s[0], s[1], s[2], c);
    }
  }

  lemma WideIsChar(x: byte, y: byte, z: byte, c: int)
    requires WideSpace(x, y, z) && c == (x as int - 0xe0) * 0x1000 + (y as int - 0x80) * 0x40 + (z as int - 0x80)
    ensures c in SPACES && Utf8Char(c) == [x, y, z]
  {
  }

  /** Blank text is a run of white space characters. */
  lemma {:induction false} BlankIsSpace(s: seq<byte>)
    ensures Blank(s) <==> exists cs :: AllSpace(cs) && Utf8(cs) == s
    decreases |s|
  {
    hide SpaceLen, Utf8Char;
    if s == [] {
      assert AllSpace([]) && Utf8([]) == s;
    } else {
      if SpaceLen(s) > 0 {
        var rest := s[SpaceLen(s)..];
        var c := SpaceIsChar(s);
        BlankIsSpace(rest);
        if Blank(s) {
          var cs :| AllSpace(cs) && Utf8(cs) == rest;
          assert ([c] + cs)[1..] == cs;
          assert AllSpace([c] + cs) && Utf8([c] + cs) == s;
        }
      }
      if exists cs :: AllSpace(cs) && Utf8(cs) == s {
        var cs :| AllSpace(cs) && Utf8(cs) == s;
        SpaceInFront(cs[0], Utf8(cs[1..]));
        assert s[SpaceLen(s)..] == Utf8(cs[1..]);
        assert AllSpace(cs[1..]);
        BlankIsSpace(s[SpaceLen(s)..]);
      }
    }
  }

  /** On ASCII text, blank means that every byte is white space. */
  lemma {:induction false} BlankAscii(s: seq<byte>)
    requires forall i | 0 <= i < |s| :: s[i] < 0x80
    ensures Blank(s) <==> forall i | 0 <= i < |s| :: AsciiSpace(s[i])
    decreases |s|
  {
    if s != [] {
      BlankAscii(s[1..]);
      assert forall i | 0 < i < |s| :: s[i] == s[1..][i - 1];
    }
  }
}
