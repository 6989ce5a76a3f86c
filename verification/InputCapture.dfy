/** Terminal input capture: cutting a byte stream into lines, however it arrives, and recording them. */
module InputCapture {
  import opened Bytes
  import opened InputText

  // ----- cutting into lines -----

  predicate Break(b: byte) {
    b == CR || b == LF
  }

  /** One line ending made of two bytes. */
  predicate Paired(a: byte, b: byte) {
    (a == CR && b == LF) || (a == LF && b == CR)
  }

  ghost predicate NoBreak(s: seq<byte>) {
    forall i | 0 <= i < |s| :: !Break(s[i])
  }

  function FirstBreak(s: seq<byte>): (i: nat)
    ensures i <= |s| && NoBreak(s[..i]) && (i < |s| ==> Break(s[i]))
  {
    if s == [] || Break(s[0]) then 0
    else
      var i := 1 + FirstBreak(s[1..]);
      assert s[..i] == [s[0]] + s[1..][..i - 1];
      i
  }

  predicate StartsPair(s: seq<byte>) {
    |s| >= 2 && Paired(s[0], s[1])
  }

  predicate IsLineEnd(e: seq<byte>) {
    (|e| == 1 && Break(e[0])) || (|e| == 2 && Paired(e[0], e[1]))
  }

  /** The end of the first line, together with the byte it is paired with. */
  function AfterLine(s: seq<byte>): (j: nat)
    requires FirstBreak(s) < |s|
    ensures FirstBreak(s) < j <= |s|
  {
    var i := FirstBreak(s);
    if StartsPair(s[i..]) then i + 2 else i + 1
  }

  datatype Cut = Cut(lines: seq<seq<byte>>, ends: seq<seq<byte>>, rest: seq<byte>)

  function More(line: seq<byte>, end: seq<byte>, c: Cut): Cut {
    Cut([line] + c.lines, [end] + c.ends, c.rest)
  }

  function Split(s: seq<byte>): Cut
    decreases |s|
  {
    var i := FirstBreak(s);
    if i == |s| then Cut([], [], s)
    else More(s[..i], s[i..AfterLine(s)], Split(s[AfterLine(s)..]))
  }

  function Tail(c: Cut): Cut
    requires |c.lines| == |c.ends| > 0
  {
    Cut(c.lines[1..], c.ends[1..], c.rest)
  }

  function Join(c: Cut): seq<byte>
    requires |c.lines| == |c.ends|
    decreases |c.lines|
  {
    if c.lines == [] then c.rest else c.lines[0] + c.ends[0] + Join(Tail(c))
  }

  /** No piece holds a line ending, and no two bytes that make one line ending are counted as two. */
  ghost predicate WellCut(c: Cut)
    decreases |c.lines|
  {
    && |c.lines| == |c.ends|
    && if c.lines == [] then NoBreak(c.rest) else
       && WellCut(Tail(c))
       && IsLine(c.lines[0], c.ends[0], Join(Tail(c)))
  }

  ghost predicate IsLine(line: seq<byte>, end: seq<byte>, after: seq<byte>) {
    NoBreak(line) && IsLineEnd(end) && (|end| == 1 ==> !StartsPair(end + after))
  }

  lemma TailOfMore(line: seq<byte>, end: seq<byte>, c: Cut)
    requires |c.lines| == |c.ends|
    ensures Tail(More(line, end, c)) == c
  {
  }

  lemma MoreOfTail(c: Cut)
    requires |c.lines| == |c.ends| > 0
    ensures c == More(c.lines[0], c.ends[0], Tail(c))
  {
  }

  lemma AfterLineEnds(s: seq<byte>)
    requires FirstBreak(s) < |s|
    ensures var i, j := FirstBreak(s), AfterLine(s);
            IsLineEnd(s[i..j]) && (j == i + 1 ==> !StartsPair(s[i..]))
  {
    hide NoBreak;
  }

  /** Cutting off the first line. */
  lemma FirstLine(s: seq<byte>)
    requires FirstBreak(s) < |s|
    ensures IsLine(s[..FirstBreak(s)], s[FirstBreak(s)..AfterLine(s)], s[AfterLine(s)..])
    ensures s == s[..FirstBreak(s)] + s[FirstBreak(s)..AfterLine(s)] + s[AfterLine(s)..]
  {
    AfterLineEnds(s);
    hide FirstBreak, AfterLine, NoBreak, StartsPair, IsLineEnd;
    InThree(s, FirstBreak(s), AfterLine(s));
  }

  lemma InThree(s: seq<byte>, i: nat, j: nat)
    requires i <= j <= |s|
    ensures s == s[..i] + s[i..j] + s[j..]
    ensures s[i..j] + s[j..] == s[i..]
  {
  }

  lemma SplitLine(line: seq<byte>, end: seq<byte>, after: seq<byte>)
    requires IsLine(line, end, after)
    ensures Split(line + end + after) == More(line, end, Split(after))
  {
    var s := line + end + after;
    assert s[..|line|] == line;
    FirstBreakIs(s, |line|);
    assert s[|line|..] == end + after;
    assert s[|line|..|line| + |end|] == end && s[|line| + |end|..] == after;
  }

  lemma FirstBreakIs(s: seq<byte>, i: nat)
    requires i < |s| && NoBreak(s[..i]) && Break(s[i])
    ensures FirstBreak(s) == i
  {
    var j := FirstBreak(s);
    assert forall k | 0 <= k < i :: s[..i][k] == s[k];
    assert forall k | 0 <= k < j :: s[..j][k] == s[k];
  }

  lemma FirstBreakNone(s: seq<byte>)
    ensures NoBreak(s) <==> FirstBreak(s) == |s|
  {
    var j := FirstBreak(s);
    assert s[..|s|] == s;
  }

  lemma SplitBegins(s: seq<byte>)
    requires FirstBreak(s) < |s|
    ensures var c, d := Split(s), Split(s[AfterLine(s)..]);
            && c.lines == [s[..FirstBreak(s)]] + d.lines
            && c.ends == [s[FirstBreak(s)..AfterLine(s)]] + d.ends
            && c.rest == d.rest
  {
  }

  /** Splitting is a parse of the data ... */
  lemma {:induction false} SplitIsParse(s: seq<byte>)
    ensures WellCut(Split(s)) && Join(Split(s)) == s
    decreases |s|
  {
    hide IsLine, More, FirstBreak, AfterLine, Tail;
    FirstBreakNone(s);
    if FirstBreak(s) < |s| {
      FirstLine(s);
      SplitIsParse(s[AfterLine(s)..]);
      SplitBegins(s);
      TailOfMore(s[..FirstBreak(s)], s[FirstBreak(s)..AfterLine(s)], Split(s[AfterLine(s)..]));
    }
  }

  /** ... and there is no other. */
  lemma {:induction false} ParseIsUnique(c: Cut)
    requires WellCut(c)
    ensures Split(Join(c)) == c
    decreases |c.lines|
  {
    hide IsLine, More, FirstBreak, AfterLine;
    if c.lines == [] {
      FirstBreakNone(c.rest);
    } else {
      ParseIsUnique(Tail(c));
      SplitLine(c.lines[0], c.ends[0], Join(Tail(c)));
      MoreOfTail(c);
    }
  }

  lemma SplitNone(s: seq<byte>)
    requires FirstBreak(s) == |s|
    ensures Split(s) == Cut([], [], s)
  {
  }

  /** splitLines */
  method SplitLines(buf: seq<byte>) returns (lines: seq<seq<byte>>, remainder: seq<byte>)
    ensures lines == Split(buf).lines && remainder == Split(buf).rest
  {
    hide Split, FirstBreak;
    lines, remainder := [], buf;
    while true
      invariant lines + Split(remainder).lines == Split(buf).lines
      invariant Split(remainder).rest == Split(buf).rest
      decreases |remainder|
    {
      ghost var before := remainder;
      var idx := FirstBreak(remainder);
      if idx == |remainder| {
        SplitNone(remainder);
        return;
      }
      SplitBegins(remainder);
      var line, sep := remainder[..idx], remainder[idx];
      remainder := remainder[idx + 1..];
      if |remainder| > 0 {
        var next := remainder[0];
        if (sep == CR && next == LF) || (sep == LF && next == CR) {
          remainder := remainder[1..];
        }
      }
      assert remainder == before[AfterLine(before)..];
      lines := lines + [line];
    }
  }

  // ----- the capture loop -----

  datatype Event = Chunk(data: seq<byte>) | Idle

  /** The raw pieces that were sanitized and offered for recording, and the bytes still waiting. */
  datatype Capture = Capture(pieces: seq<seq<byte>>, buf: seq<byte>)

  const START := Capture([], [])

  function Flush(c: Capture): Capture {
    if c.buf == [] then c else Capture(c.pieces + [c.buf], [])
  }

  function Handle(c: Capture, e: Event): Capture {
    match e
    case Idle => Flush(c)
    case Chunk(data) => var cut := Split(c.buf + data); Capture(c.pieces + cut.lines, cut.rest)
  }

  function HandleAll(c: Capture, es: seq<Event>): Capture
    decreases |es|
  {
    if es == [] then c else HandleAll(Handle(c, es[0]), es[1..])
  }

  /** The goroutine of a terminal session; the log of its events is ghost. */
  class CaptureSession {
    const recording: bool
    var buf: seq<byte>
    var recorded: seq<seq<byte>>
    ghost var log: seq<Event>

    ghost predicate Valid()
      reads this
    {
      var c := HandleAll(START, log);
      buf == c.buf && recorded == if recording then Entries(c.pieces) else []
    }

    constructor (recording: bool)
      ensures Valid() && log == [] && this.recording == recording
    {
      this.recording := recording;
      buf, recorded, log := [], [], [];
    }

    method Record(text: seq<byte>)
      modifies this`recorded
      ensures recorded == old(recorded) + if recording && ShouldRecord(text) then [CapEntry(text)] else []
    {
      if recording && ShouldRecord(text) {
        recorded := recorded + [CapEntry(text)];
      }
    }

    method FlushBuf()
      modifies this`recorded, this`buf
      ensures buf == []
      ensures recorded == old(recorded) + if recording then Entry(old(buf)) else []
    {
      EmptyIsSilent();
      if |buf| > 0 {
        var text := SanitizeInput(buf);
        Record(text);
        buf := [];
      }
    }

    method Tick()
      requires Valid()
      modifies this
      ensures Valid() && log == old(log) + [Idle] && buf == []
      ensures recorded == old(recorded) + if recording then Entry(old(buf)) else []
    {
      HandleMore(START, log, Idle);
      ghost var c := HandleAll(START, log);
      EntriesAppend(c.pieces, [c.buf]);
      EntriesOne(c.buf);
      EmptyIsSilent();
      FlushBuf();
      log := log + [Idle];
    }

    /** The input channel is closed: what still waits is flushed, as after a pause. */
    method Close()
      requires Valid()
      modifies this
      ensures Valid() && log == old(log) + [Idle] && buf == []
    {
      Tick();
    }

    method RecordAll(lines: seq<seq<byte>>)
      modifies this`recorded
      ensures recorded == old(recorded) + if recording then Entries(lines) else []
    {
      hide Sanitize, ShouldRecord, CapEntry;
      for i := 0 to |lines|
        invariant recorded == old(recorded) + if recording then Entries(lines[..i]) else []
      {
        var text := SanitizeInput(lines[i]);
        Record(text);
        assert lines[..i + 1][..i] == lines[..i];
      }
      assert lines[..|lines|] == lines;
    }

    method Receive(data: seq<byte>)
      requires Valid()
      modifies this
      ensures Valid() && log == old(log) + [Chunk(data)] && buf == Split(old(buf) + data).rest
      ensures recorded == old(recorded) + if recording then Entries(Split(old(buf) + data).lines) else []
    {
      hide Split, HandleAll, Entry;
      HandleMore(START, log, Chunk(data));
      EntriesAppend(HandleAll(START, log).pieces, Split(buf + data).lines);
      buf := buf + data;
      var lines, remainder := SplitLines(buf);
      buf := remainder;
      RecordAll(lines);
      log := log + [Chunk(data)];
    }
  }

  lemma EmptyIsSilent()
    ensures Entry([]) == []
  {
    assert Sanitize([]) == [];
  }

  lemma EntriesOne(piece: seq<byte>)
    ensures Entries([piece]) == Entry(piece)
  {
    assert [piece][..0] == [];
    assert Entries([]) == [];
  }

  lemma {:induction false} EntriesAppend(ps: seq<seq<byte>>, qs: seq<seq<byte>>)
    ensures Entries(ps + qs) == Entries(ps) + Entries(qs)
  {
    hide Entry;
    if qs == [] {
      assert ps + qs == ps;
    } else {
      var q := qs[..|qs| - 1];
      EntriesAppend(ps, q);
      assert (ps + qs)[..|ps + qs| - 1] == ps + q;
    }
  }

  lemma {:induction false} HandleMore(c: Capture, es: seq<Event>, e: Event)
    ensures HandleAll(c, es + [e]) == Handle(HandleAll(c, es), e)
    decreases |es|
  {
    hide Handle;
    if es == [] {
      assert es + [e] == [e] && [e][1..] == [];
    } else {
      assert (es + [e])[1..] == es[1..] + [e];
      HandleMore(Handle(c, es[0]), es[1..], e);
    }
  }
}
