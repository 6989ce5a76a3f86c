/** What is recorded does not depend on how the input was cut into chunks, and no byte is lost or added. */
module CaptureTheory {
  import opened Bytes
  import opened InputText
  import opened InputCapture

  // ----- the reference: one key at a time, every line ending byte by itself -----

  datatype Key = Byte(b: byte) | Pause

  function Press(c: Capture, k: Key): Capture {
    if k.Pause? || Break(k.b) then Flush(c) else Capture(c.pieces, c.buf + [k.b])
  }

  function PressAll(c: Capture, ks: seq<Key>): Capture
    decreases |ks|
  {
    if ks == [] then c else PressAll(Press(c, ks[0]), ks[1..])
  }

  function Keys(s: seq<byte>): seq<Key> {
    seq(|s|, i requires 0 <= i < |s| => Byte(s[i]))
  }

  function KeysOf(e: Event): seq<Key> {
    match e
    case Idle => [Pause]
    case Chunk(data) => Keys(data)
  }

  function AllKeys(es: seq<Event>): seq<Key> {
    if es == [] then [] else KeysOf(es[0]) + AllKeys(es[1..])
  }

  /** The pieces with something in them. */
  function Solid(ps: seq<seq<byte>>): seq<seq<byte>> {
    if ps == [] then [] else (if ps[0] == [] then [] else [ps[0]]) + Solid(ps[1..])
  }

  lemma {:induction false} PressMore(c: Capture, ks: seq<Key>, ls: seq<Key>)
    ensures PressAll(c, ks + ls) == PressAll(PressAll(c, ks), ls)
    decreases |ks|
  {
    hide Press;
    if ks == [] {
      assert ks + ls == ls;
    } else {
      assert (ks + ls)[1..] == ks[1..] + ls;
      PressMore(Press(c, ks[0]), ks[1..], ls);
    }
  }

  lemma PressTwice(c: Capture, s: seq<byte>, t: seq<byte>)
    ensures PressAll(c, Keys(s + t)) == PressAll(PressAll(c, Keys(s)), Keys(t))
  {
    assert Keys(s + t) == Keys(s) + Keys(t);
    PressMore(c, Keys(s), Keys(t));
  }

  lemma {:induction false} PressText(c: Capture, s: seq<byte>)
    requires NoBreak(s)
    ensures PressAll(c, Keys(s)) == Capture(c.pieces, c.buf + s)
    decreases |s|
  {
    if s == [] {
      assert c.buf + s == c.buf;
    } else {
      assert Keys(s)[1..] == Keys(s[1..]);
      PressText(Press(c, Byte(s[0])), s[1..]);
      assert c.buf + [s[0]] + s[1..] == c.buf + s;
    }
  }

  /** The second byte of a line ending made of two finds nothing to flush. */
  lemma PressEnd(c: Capture, e: seq<byte>)
    requires IsLineEnd(e)
    ensures PressAll(c, Keys(e)) == Flush(c)
  {
    if |e| == 1 {
      assert Keys(e)[1..] == [];
    } else {
      var second := [Byte(e[1])];
      assert Keys(e)[1..] == second && second[1..] == [];
      assert PressAll(Flush(c), second) == PressAll(Press(Flush(c), second[0]), []);
    }
  }

  lemma {:induction false} SolidAppend(ps: seq<seq<byte>>, qs: seq<seq<byte>>)
    ensures Solid(ps + qs) == Solid(ps) + Solid(qs)
  {
    if ps == [] {
      assert ps + qs == qs;
    } else {
      assert (ps + qs)[1..] == ps[1..] + qs;
      SolidAppend(ps[1..], qs);
    }
  }

  lemma FlushSolid(ps: seq<seq<byte>>, line: seq<byte>, more: seq<seq<byte>>)
    ensures Flush(Capture(ps, line)).pieces + Solid(more) == ps + Solid([line] + more)
  {
    assert ([line] + more)[1..] == more;
  }

  /** Typing a whole text is splitting it and keeping the lines with something in them. */
  lemma {:induction false} PressIsSplit(ps: seq<seq<byte>>, s: seq<byte>)
    ensures PressAll(Capture(ps, []), Keys(s)) == Capture(ps + Solid(Split(s).lines), Split(s).rest)
    decreases |s|
  {
    hide PressAll, IsLine, FirstBreak, AfterLine, Solid, Split, Flush;
    var c, i := Capture(ps, []), FirstBreak(s);
    FirstBreakNone(s);
    if i == |s| {
      SplitNone(s);
      PressText(c, s);
      assert [] + s == s;
      SolidNone();
    } else {
      var j := AfterLine(s);
      FirstLine(s);
      IsLineParts(s[..i], s[i..j], s[j..]);
      PressTwice(c, s[..i] + s[i..j], s[j..]);
      PressTwice(c, s[..i], s[i..j]);
      PressText(c, s[..i]);
      assert [] + s[..i] == s[..i];
      PressEnd(Capture(ps, s[..i]), s[i..j]);
      FlushEmpties(Capture(ps, s[..i]));
      PressIsSplit(Flush(Capture(ps, s[..i])).pieces, s[j..]);
      SplitBegins(s);
      FlushSolid(ps, s[..i], Split(s[j..]).lines);
    }
  }

  lemma SolidNone()
    ensures Solid([]) == []
  {
  }

  lemma IsLineParts(line: seq<byte>, end: seq<byte>, after: seq<byte>)
    requires IsLine(line, end, after)
    ensures NoBreak(line) && IsLineEnd(end)
  {
  }

  lemma FlushEmpties(c: Capture)
    ensures Flush(c) == Capture(Flush(c).pieces, [])
  {
  }

  /** The capture with empty lines left out. */
  function Essence(c: Capture): Capture {
    Capture(Solid(c.pieces), c.buf)
  }

  lemma HandleIsPress(c: Capture, e: Event)
    requires NoBreak(c.buf)
    ensures Essence(Handle(c, e)) == PressAll(Essence(c), KeysOf(e)) && NoBreak(Handle(c, e).buf)
  {
    match e
    case Idle =>
      assert [Pause][1..] == [];
      SolidAppend(c.pieces, [c.buf]);
      assert [c.buf][1..] == [];
    case Chunk(data) =>
      var none := Capture(Solid(c.pieces), []);
      SplitRest(c.buf + data);
      SolidAppend(c.pieces, Split(c.buf + data).lines);
      PressIsSplit(Solid(c.pieces), c.buf + data);
      PressText(none, c.buf);
      assert [] + c.buf == c.buf;
      PressTwice(none, c.buf, data);
  }

  lemma {:induction false} SplitRest(s: seq<byte>)
    ensures NoBreak(Split(s).rest)
    decreases |s|
  {
    FirstBreakNone(s);
    if FirstBreak(s) < |s| {
      SplitRest(s[AfterLine(s)..]);
    }
  }

  /** Any schedule of chunks and pauses does what its keys do one by one. */
  lemma {:induction false} ScheduleIsKeys(c: Capture, es: seq<Event>)
    requires NoBreak(c.buf)
    ensures Essence(HandleAll(c, es)) == PressAll(Essence(c), AllKeys(es))
    ensures NoBreak(HandleAll(c, es).buf)
    decreases |es|
  {
    hide Handle, NoBreak, KeysOf, Essence;
    if es != [] {
      HandleIsPress(c, es[0]);
      ScheduleIsKeys(Handle(c, es[0]), es[1..]);
      PressMore(Essence(c), KeysOf(es[0]), AllKeys(es[1..]));
    }
  }

  /** Empty lines leave no trace in what is recorded. */
  lemma {:induction false} EntriesOfSolid(ps: seq<seq<byte>>)
    ensures Entries(ps) == Entries(Solid(ps))
  {
    hide Entry;
    if ps != [] {
      EntriesOfSolid(ps[1..]);
      EmptyIsSilent();
      var head := if ps[0] == [] then [] else [ps[0]];
      EntriesOne(ps[0]);
      assert ps == [ps[0]] + ps[1..];
      EntriesAppend([ps[0]], ps[1..]);
      EntriesAppend(head, Solid(ps[1..]));
      assert Entries([]) == [];
    }
  }

  function Recorded(es: seq<Event>): seq<seq<byte>> {
    Entries(HandleAll(START, es).pieces)
  }

  /**
   * Chunk independence: schedules that deliver the same bytes with the same pauses between them record the same
   * entries in the same order and leave the same bytes waiting.
   */
  lemma ChunkIndependence(es: seq<Event>, fs: seq<Event>)
    requires AllKeys(es) == AllKeys(fs)
    ensures Recorded(es) == Recorded(fs)
    ensures HandleAll(START, es).buf == HandleAll(START, fs).buf
  {
    ScheduleIsKeys(START, es);
    ScheduleIsKeys(START, fs);
    EntriesOfSolid(HandleAll(START, es).pieces);
    EntriesOfSolid(HandleAll(START, fs).pieces);
  }

  function Concat(ps: seq<seq<byte>>): seq<byte> {
    if ps == [] then [] else ps[0] + Concat(ps[1..])
  }

  function Chunks(ps: seq<seq<byte>>): seq<Event> {
    seq(|ps|, i requires 0 <= i < |ps| => Chunk(ps[i]))
  }

  lemma {:induction false} ChunksAreKeys(ps: seq<seq<byte>>)
    ensures AllKeys(Chunks(ps)) == Keys(Concat(ps))
  {
    if ps != [] {
      assert Chunks(ps)[1..] == Chunks(ps[1..]);
      ChunksAreKeys(ps[1..]);
    }
  }

  /** In particular a stream in chunks is recorded as if it had come at once. */
  lemma WholeStream(ps: seq<seq<byte>>)
    ensures Recorded(Chunks(ps)) == Recorded([Chunk(Concat(ps))])
    ensures HandleAll(START, Chunks(ps)).buf == HandleAll(START, [Chunk(Concat(ps))]).buf
  {
    var one := [Chunk(Concat(ps))];
    assert one[1..] == [];
    assert AllKeys(one) == Keys(Concat(ps)) + AllKeys([]);
    ChunksAreKeys(ps);
    ChunkIndependence(Chunks(ps), one);
  }

  /** The lines themselves do depend on the chunks: cut between CR and LF, one line ending becomes two. */
  lemma LinesDependOnChunks()
    ensures HandleAll(START, [Chunk([CR, LF])]).pieces == [[]]
    ensures HandleAll(START, [Chunk([CR]), Chunk([LF])]).pieces == [[], []]
  {
    var one, cr, lf: Event := Chunk([CR, LF]), Chunk([CR]), Chunk([LF]);
    OneBreak([], [CR, LF]);
    OneBreak([], [CR]);
    OneBreak([[]], [LF]);
    assert HandleAll(START, [one]) == HandleAll(Handle(START, one), []);
    assert [cr, lf][1..] == [lf];
    assert HandleAll(START, [cr, lf]) == HandleAll(Handle(START, cr), [lf]);
    assert HandleAll(Handle(START, cr), [lf]) == HandleAll(Handle(Handle(START, cr), lf), []);
  }

  lemma OneBreak(ps: seq<seq<byte>>, end: seq<byte>)
    requires IsLineEnd(end)
    ensures Handle(Capture(ps, []), Chunk(end)) == Capture(ps + [[]], [])
  {
    SplitLine([], end, []);
    SplitNone([]);
    assert [] + end + [] == end && [] + end == end;
    assert end + [] == end;
  }

  // ----- conservation -----

  function WithoutBreaks(s: seq<byte>): seq<byte> {
    if s == [] then [] else (if Break(s[0]) then [] else [s[0]]) + WithoutBreaks(s[1..])
  }

  function Arrived(e: Event): seq<byte> {
    if e.Chunk? then e.data else []
  }

  function Received(es: seq<Event>): seq<byte> {
    if es == [] then [] else Arrived(es[0]) + Received(es[1..])
  }

  lemma {:induction false} WithoutAppend(s: seq<byte>, t: seq<byte>)
    ensures WithoutBreaks(s + t) == WithoutBreaks(s) + WithoutBreaks(t)
  {
    if s == [] {
      assert s + t == t;
    } else {
      assert (s + t)[1..] == s[1..] + t;
      WithoutAppend(s[1..], t);
    }
  }

  lemma {:induction false} WithoutNone(s: seq<byte>)
    requires NoBreak(s)
    ensures WithoutBreaks(s) == s
  {
    if s != [] {
      WithoutNone(s[1..]);
    }
  }

  lemma WithoutEnd(e: seq<byte>)
    requires IsLineEnd(e)
    ensures WithoutBreaks(e) == []
  {
    if |e| == 1 {
      assert e[1..] == [];
    } else {
      assert e[1..] == [e[1]] && [e[1]][1..] == [];
    }
  }

  lemma {:induction false} ConcatAppend(ps: seq<seq<byte>>, qs: seq<seq<byte>>)
    ensures Concat(ps + qs) == Concat(ps) + Concat(qs)
  {
    if ps == [] {
      assert ps + qs == qs;
    } else {
      assert (ps + qs)[1..] == ps[1..] + qs;
      ConcatAppend(ps[1..], qs);
    }
  }

  lemma {:induction false} SplitConserves(s: seq<byte>)
    ensures Concat(Split(s).lines) + Split(s).rest == WithoutBreaks(s)
    decreases |s|
  {
    hide IsLine, FirstBreak, AfterLine, Split, WithoutBreaks;
    var i := FirstBreak(s);
    FirstBreakNone(s);
    if i == |s| {
      SplitNone(s);
      WithoutNone(s);
    } else {
      var j := AfterLine(s);
      FirstLine(s);
      IsLineParts(s[..i], s[i..j], s[j..]);
      WithoutAppend(s[..i] + s[i..j], s[j..]);
      WithoutAppend(s[..i], s[i..j]);
      WithoutNone(s[..i]);
      WithoutEnd(s[i..j]);
      SplitConserves(s[j..]);
      SplitBegins(s);
      ConcatFirst(s[..i], Split(s[j..]).lines);
    }
  }

  lemma ConcatFirst(p: seq<byte>, ps: seq<seq<byte>>)
    ensures Concat([p] + ps) == p + Concat(ps)
  {
    assert ([p] + ps)[1..] == ps;
  }

  /** The bytes captured so far: in the pieces and in the buffer. */
  function Held(c: Capture): seq<byte> {
    Concat(c.pieces) + c.buf
  }

  lemma HandleConserves(c: Capture, e: Event)
    requires NoBreak(c.buf)
    ensures Held(Handle(c, e)) == Held(c) + WithoutBreaks(Arrived(e))
  {
    match e
    case Idle =>
      ConcatAppend(c.pieces, [c.buf]);
      ConcatFirst(c.buf, []);
      WithoutNothing();
    case Chunk(data) =>
      ChunkConserves(c, data);
  }

  lemma ChunkConserves(c: Capture, data: seq<byte>)
    requires NoBreak(c.buf)
    ensures Held(Handle(c, Chunk(data))) == Held(c) + WithoutBreaks(data)
  {
    hide Split, Concat, WithoutBreaks, NoBreak;
    var s := c.buf + data;
    ConcatAppend(c.pieces, Split(s).lines);
    SplitConserves(s);
    WithoutAppend(c.buf, data);
    WithoutNone(c.buf);
    var ps, d := Concat(c.pieces), Split(s);
    Associate(ps, Concat(d.lines), d.rest);
    Associate(ps, c.buf, WithoutBreaks(data));
  }

  /**
   * Conservation: the raw pieces in order, followed by the buffer, are the bytes received with the line ending
   * bytes taken out, and no piece is cut inside a line.
   */
  lemma {:induction false} CaptureConserves(c: Capture, es: seq<Event>)
    requires NoBreak(c.buf)
    ensures Held(HandleAll(c, es)) == Held(c) + WithoutBreaks(Received(es))
    ensures NoBreak(HandleAll(c, es).buf)
    decreases |es|
  {
    hide Handle, NoBreak, Held, WithoutBreaks, Arrived, Essence, PressAll;
    if es == [] {
      WithoutNothing();
    } else {
      var later := Received(es[1..]);
      HandleConserves(c, es[0]);
      HandleIsPress(c, es[0]);
      CaptureConserves(Handle(c, es[0]), es[1..]);
      WithoutAppend(Arrived(es[0]), later);
      Associate(Held(c), WithoutBreaks(Arrived(es[0])), WithoutBreaks(later));
    }
  }

  lemma Associate(a: seq<byte>, b: seq<byte>, c: seq<byte>)
    ensures (a + b) + c == a + (b + c)
  {
  }

  lemma WithoutNothing()
    ensures WithoutBreaks([]) == []
  {
  }

  /** After the channel is closed every byte received, but for line endings, has gone into a piece. */
  lemma ClosedConserves(es: seq<Event>)
    ensures Concat(HandleAll(START, es + [Idle]).pieces) == WithoutBreaks(Received(es))
  {
    hide HandleAll, Received, WithoutBreaks;
    var c := HandleAll(START, es);
    HandleMore(START, es, Idle);
    CaptureConserves(START, es);
    assert Held(START) == [];
    HandleConserves(c, Idle);
    WithoutNothing();
    var ps, got := Concat(Flush(c).pieces), WithoutBreaks(Received(es));
    assert Flush(c).buf == [] && Held(Flush(c)) == ps + [] == ps;
    assert [] + got == got && got + [] == got;
  }

  // ----- what is recorded -----

  /** Every entry is clean and bounded. */
  lemma {:induction false} EntriesAreClean(ps: seq<seq<byte>>)
    ensures forall k | 0 <= k < |Entries(ps)| ::
              |Entries(ps)[k]| <= MAX_ENTRY + |ELLIPSIS| && AllPrintable(Entries(ps)[k])
  {
    hide AllPrintable, Sanitize, CapEntry, ShouldRecord;
    if ps != [] {
      var raw := ps[|ps| - 1];
      EntriesAreClean(ps[..|ps| - 1]);
      SanitizedIsClean(raw);
      CapIsClean(Sanitize(raw));
    }
  }

  lemma CapIsClean(text: seq<byte>)
    requires AllPrintable(text)
    ensures AllPrintable(CapEntry(text)) && |CapEntry(text)| <= MAX_ENTRY + |ELLIPSIS|
    ensures text <= CapEntry(text) || (|text| > MAX_ENTRY && text[..MAX_ENTRY] < CapEntry(text))
  {
  }

  /** Every piece is recorded by itself, in order: its sanitized text, capped, if that is worth it. */
  lemma EntryPerPiece(ps: seq<seq<byte>>, raw: seq<byte>)
    ensures Entries([]) == []
    ensures !ShouldRecord(Sanitize(raw)) ==> Entries(ps + [raw]) == Entries(ps)
    ensures ShouldRecord(Sanitize(raw)) ==> Entries(ps + [raw]) == Entries(ps) + [CapEntry(Sanitize(raw))]
  {
    hide Sanitize, ShouldRecord, CapEntry;
    assert (ps + [raw])[..|ps|] == ps;
  }

  /** A line of printable text that is typed and ended is recorded as it was typed. */
  lemma TextIsRecorded(es: seq<Event>, line: seq<byte>)
    requires HandleAll(START, es).buf == []
    requires NoBreak(line) && AllPrintable(line) && ShouldRecord(line) && |line| <= 4096
    ensures Recorded(es + [Chunk(line + [CR])]) == Recorded(es) + [line]
    ensures HandleAll(START, es + [Chunk(line + [CR])]).buf == []
  {
    hide HandleAll, Sanitize, ShouldRecord, Split, NoBreak, AllPrintable, Entries;
    var c := HandleAll(START, es);
    HandleMore(START, es, Chunk(line + [CR]));
    assert [CR] + [] == [CR];
    SplitLine(line, [CR], []);
    SplitNone([]);
    assert c.buf + (line + [CR]) == line + [CR] + [];
    assert Split(line + [CR] + []).lines == [line];
    SanitizeKeepsText(line);
    EntryPerPiece(c.pieces, line);
  }
}
