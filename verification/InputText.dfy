/** The text side of terminal input capture: escape sequences, control bytes, entries. */
module InputText {
  import opened Bytes

  const MAX_ENTRY := 4096
  const ELLIPSIS: seq<byte> := [0xe2, 0x80, 0xa6]
  const BELL: seq<byte> := [0xe2, 0x90, 0x87]

  // ----- escape sequences -----

  predicate Letter(b: byte) {
    0x41 <= b <= 0x5a || 0x61 <= b <= 0x7a
  }

  /** A parameter byte of a control sequence: a digit, ';' or '?'. */
  predicate Param(b: byte) {
    0x30 <= b <= 0x39 || b == 0x3b || b == 0x3f
  }

  predicate EndsCommand(b: byte) {
    b == 0x07 || b == ESC
  }

  function SkipParams(s: seq<byte>, i: nat): (j: nat)
    requires i <= |s|
    ensures i <= j <= |s| && (forall k | i <= k < j :: Param(s[k])) && (j < |s| ==> !Param(s[j]))
    decreases |s| - i
  {
    if i < |s| && Param(s[i]) then SkipParams(s, i + 1) else i
  }

  function SkipCommand(s: seq<byte>, i: nat): (j: nat)
    requires i <= |s|
    ensures i <= j <= |s| && (forall k | i <= k < j :: !EndsCommand(s[k])) && (j < |s| ==> EndsCommand(s[j]))
    decreases |s| - i
  {
    if i < |s| && !EndsCommand(s[i]) then SkipCommand(s, i + 1) else i
  }

  /** The length of the escape sequence the data begins with, 0 if it begins with none. */
  function EscapeLen(s: seq<byte>): (n: nat)
    ensures n <= |s|
  {
    if |s| < 2 || s[0] != ESC then 0
    else if s[1] == 0x5b then
      var j := SkipParams(s, 2);
      if j < |s| && Letter(s[j]) then j + 1 else 0
    else if s[1] == 0x5d then
      var j := SkipCommand(s, 2);
      if j < |s| && s[j] == 0x07 then j + 1
      else if j + 1 < |s| && s[j + 1] == 0x5c then j + 2
      else 0
    else if Letter(s[1]) then 2
    else 0
  }

  /** The language of the three kinds of escape sequence. */
  predicate IsEscape(w: seq<byte>) {
    |w| >= 2 && w[0] == ESC &&
    var n := |w|;
    || (n >= 3 && w[1] == 0x5b && Letter(w[n - 1]) && forall i | 2 <= i < n - 1 :: Param(w[i]))
    || (n >= 3 && w[1] == 0x5d && w[n - 1] == 0x07 && forall i | 2 <= i < n - 1 :: !EndsCommand(w[i]))
    || (n >= 4 && w[1] == 0x5d && w[n - 2] == ESC && w[n - 1] == 0x5c
        && forall i | 2 <= i < n - 2 :: !EndsCommand(w[i]))
    || (n == 2 && Letter(w[1]))
  }

  /** The matcher finds the one prefix that is an escape sequence, if there is one. */
  lemma EscapeLenIsExact(s: seq<byte>, n: nat)
    requires n <= |s|
    ensures IsEscape(s[..n]) <==> n > 0 && n == EscapeLen(s)
  {
  }

  /** The data without its escape sequences, found from left to right. */
  function Strip(s: seq<byte>): seq<byte>
    decreases |s|
  {
    if s == [] then []
    else if EscapeLen(s) > 0 then Strip(s[EscapeLen(s)..])
    else [s[0]] + Strip(s[1..])
  }

  /**
   * What stripping means, without reference to the matcher: an escape sequence in front goes, and a byte stays
   * when no escape sequence begins with it.
   */
  lemma StripIsLeftmost(e: seq<byte>, t: seq<byte>)
    requires e != []
    ensures IsEscape(e) ==> Strip(e + t) == Strip(t)
    ensures |e| == 1 && (forall n | 0 <= n <= |e + t| :: !IsEscape((e + t)[..n])) ==> Strip(e + t) == e + Strip(t)
  {
    var s := e + t;
    assert s[..|e|] == e && s[|e|..] == t;
    EscapeLenIsExact(s, |e|);
    EscapeLenIsExact(s, EscapeLen(s));
  }

  // ----- control bytes -----

  function Render(b: byte): seq<byte> {
    if b == 0x03 then [0x5e, 0x43]
    else if b == 0x04 then [0x5e, 0x44]
    else if b == 0x07 then BELL
    else if b == 0x7f then [0x5e, 0x3f]
    else if b == TAB || b == LF || b == CR then [b]
    else if b < 0x20 then [0x5e, b + 0x40]
    else [b]
  }

  function RenderAll(s: seq<byte>): seq<byte> {
    if s == [] then [] else RenderAll(s[..|s| - 1]) + Render(s[|s| - 1])
  }

  function Sanitize(data: seq<byte>): seq<byte> {
    RenderAll(Strip(data))
  }

  /** sanitizeInput */
  method SanitizeInput(data: seq<byte>) returns (text: seq<byte>)
    ensures text == Sanitize(data)
  {
    var clean := Strip(data);
    text := [];
    for i := 0 to |clean|
      invariant text == RenderAll(clean[..i])
    {
      var c := clean[i];
      assert clean[..i + 1][..i] == clean[..i];
      match c
      case 0x03 => text := text + [0x5e, 0x43];
      case 0x04 => text := text + [0x5e, 0x44];
      case 0x07 => text := text + BELL;
      case 0x7f => text := text + [0x5e, 0x3f];
      case _ =>
        if c == TAB || c == LF || c == CR {
          text := text + [c];
        } else if c < 0x20 {
          text := text + [0x5e];
          text := text + [c + 0x40];
        } else {
          text := text + [c];
        }
    }
    assert clean[..|clean|] == clean;
  }

  /** No control byte but tab, line feed and carriage return. */
  predicate Printable(b: byte) {
    (b >= 0x20 && b != 0x7f) || b == TAB || b == LF || b == CR
  }

  ghost predicate AllPrintable(s: seq<byte>) {
    forall i | 0 <= i < |s| :: Printable(s[i])
  }

  /** Printable bytes stay; of the others BEL gets its symbol and the rest are put in caret notation. */
  lemma RenderPrintable(b: byte)
    ensures AllPrintable(Render(b)) && 1 <= |Render(b)| <= 3
    ensures Printable(b) ==> Render(b) == [b]
    ensures !Printable(b) && b != 0x07 ==> Render(b) == [0x5e, ((b as int + 0x40) % 0x80) as byte]
    ensures b == 0x07 ==> Render(b) == BELL
  {
  }

  lemma {:induction false} RenderAllPrintable(s: seq<byte>)
    ensures AllPrintable(RenderAll(s)) && |s| <= |RenderAll(s)| <= 3 * |s|
  {
    hide Render, Printable;
    if s != [] {
      RenderAllPrintable(s[..|s| - 1]);
      RenderPrintable(s[|s| - 1]);
    }
  }

  lemma {:induction false} RenderAllKeeps(s: seq<byte>)
    requires AllPrintable(s)
    ensures RenderAll(s) == s
  {
    hide Render, Printable;
    if s != [] {
      RenderAllKeeps(s[..|s| - 1]);
      RenderPrintable(s[|s| - 1]);
    }
  }

  lemma {:induction false} StripShrinks(s: seq<byte>)
    ensures |Strip(s)| <= |s|
    ensures AllPrintable(s) ==> Strip(s) == s
    decreases |s|
  {
    if s != [] {
      if EscapeLen(s) > 0 {
        StripShrinks(s[EscapeLen(s)..]);
      } else {
        StripShrinks(s[1..]);
      }
    }
  }

  /** Sanitized text has no escape, no control byte but tab, LF and CR, and at most triple the length. */
  lemma SanitizedIsClean(data: seq<byte>)
    ensures AllPrintable(Sanitize(data)) && |Sanitize(data)| <= 3 * |data|
  {
    StripShrinks(data);
    RenderAllPrintable(Strip(data));
  }

  // ----- the laws of sanitizing -----

  /** Bytes are rendered one by one, in their order. */
  lemma {:induction false} RenderAppend(s: seq<byte>, t: seq<byte>)
    ensures RenderAll(s + t) == RenderAll(s) + RenderAll(t)
  {
    hide Render;
    if t == [] {
      assert s + t == s;
    } else {
      RenderAppend(s, t[..|t| - 1]);
      assert (s + t)[..|s + t| - 1] == s + t[..|t| - 1];
    }
  }

  lemma RenderOne(b: byte)
    ensures RenderAll([b]) == Render(b)
  {
    assert [b][..0] == [];
  }

  /** No escape sequence stands in front. */
  ghost predicate NoEscapeIn(s: seq<byte>) {
    forall n | 0 <= n <= |s| :: !IsEscape(s[..n])
  }

  /**
   * Sanitizing, law by law: nothing comes of nothing; an escape sequence in front goes; any other first byte puts
   * what it is shown as in front of the sanitized rest: itself if it is printable, the bell symbol for BEL, and the
   * caret notation for every other control byte.
   */
  lemma SanitizeFromLeft(e: seq<byte>, t: seq<byte>)
    ensures Sanitize([]) == []
    ensures IsEscape(e) ==> Sanitize(e + t) == Sanitize(t)
    ensures |e| == 1 && NoEscapeIn(e + t) ==>
              var b := e[0];
              && (Printable(b) ==> Sanitize(e + t) == [b] + Sanitize(t))
              && (b == 0x07 ==> Sanitize(e + t) == [0xe2, 0x90, 0x87] + Sanitize(t))
              && (!Printable(b) && b != 0x07 ==>
                    Sanitize(e + t) == [0x5e, ((b as int + 0x40) % 0x80) as byte] + Sanitize(t))
  {
    assert Strip([]) == [] && RenderAll([]) == [];
    if e != [] {
      hide Render, Printable, IsEscape, Strip, RenderAll;
      StripIsLeftmost(e, t);
      if |e| == 1 {
        assert e == [e[0]];
        RenderAppend(e, Strip(t));
        RenderOne(e[0]);
        RenderPrintable(e[0]);
      }
    }
  }

  /** Text that is printable as it is, is kept as it is. */
  lemma SanitizeKeepsText(s: seq<byte>)
    requires AllPrintable(s)
    ensures Sanitize(s) == s
  {
    StripShrinks(s);
    RenderAllKeeps(s);
  }

  /** Sanitizing twice is sanitizing once, even if stripping brings the bytes of a new sequence together. */
  lemma SanitizeIsIdempotent(data: seq<byte>)
    ensures Sanitize(Sanitize(data)) == Sanitize(data)
  {
    SanitizedIsClean(data);
    SanitizeKeepsText(Sanitize(data));
  }

  // ----- entries -----

  function CapEntry(text: seq<byte>): seq<byte> {
    if |text| <= MAX_ENTRY then text else text[..MAX_ENTRY] + ELLIPSIS
  }

  predicate ShouldRecord(text: seq<byte>) {
    !Blank(text)
  }

  /**
   * An entry is the text itself up to the limit; beyond it, the text's first bytes up to the limit, then the
   * ellipsis.
   */
  lemma CapIsPrefix(text: seq<byte>, i: nat)
    requires i < |CapEntry(text)|
    ensures |text| <= 4096 ==> |CapEntry(text)| == |text| && CapEntry(text)[i] == text[i]
    ensures |text| > 4096 ==>
              |CapEntry(text)| == 4099
              && CapEntry(text)[i] == if i < 4096 then text[i] else [0xe2, 0x80, 0xa6][i - 4096]
  {
  }

  /** Text is worth recording exactly if it is not a run of the white space characters of Unicode. */
  lemma RecordsText(text: seq<byte>)
    ensures ShouldRecord(text) <==> !exists cs :: AllSpace(cs) && Utf8(cs) == text
  {
    BlankIsSpace(text);
  }

  /** ASCII text is worth recording exactly if it has a byte that is not white space. */
  lemma RecordsAscii(text: seq<byte>)
    requires forall i | 0 <= i < |text| :: text[i] < 0x80
    ensures ShouldRecord(text) <==> exists i | 0 <= i < |text| :: !AsciiSpace(text[i])
  {
    BlankAscii(text);
  }

  /** The entry a raw piece of input is recorded as, if any. */
  function Entry(raw: seq<byte>): seq<seq<byte>> {
    var text := Sanitize(raw);
    if ShouldRecord(text) then [CapEntry(text)] else []
  }

  function Entries(pieces: seq<seq<byte>>): seq<seq<byte>> {
    if pieces == [] then [] else Entries(pieces[..|pieces| - 1]) + Entry(pieces[|pieces| - 1])
  }
}
