/** Which cuts of the input between two chunks change the lines it is split into, and how. */
module CaptureCuts {
  import opened Bytes
  import opened InputCapture

  /** The lines of a text. */
  function Lines(s: seq<byte>): seq<seq<byte>> {
    Split(s).lines
  }

  /** The text ends in a line ending of one byte, which a byte to come could still be paired with. */
  predicate Dangling(s: seq<byte>) {
    var c := Split(s);
    c.ends != [] && c.rest == [] && |c.ends[|c.ends| - 1]| == 1
  }

  /** How many bytes of the text go on alternating between CR and LF after the byte b. */
  function Alternating(b: byte, s: seq<byte>): nat
    decreases |s|
  {
    if s == [] || !Paired(b, s[0]) then 0 else 1 + Alternating(s[0], s[1..])
  }

  /** One empty line more at the given place. */
  function WithEmpty(lines: seq<seq<byte>>, at: nat): seq<seq<byte>>
    requires at <= |lines|
  {
    lines[..at] + [[]] + lines[at..]
  }

  lemma NoLine()
    ensures NoBreak([])
  {
  }

  lemma UnpairedIsLine(line: seq<byte>, b: byte, s: seq<byte>)
    requires NoBreak(line) && Break(b) && (s == [] || !Paired(b, s[0]))
    ensures Split(line + [b] + s) == More(line, [b], Split(s))
  {
    SplitLine(line, [b], s);
  }

  lemma PairedIsLine(line: seq<byte>, b: byte, s: seq<byte>)
    requires NoBreak(line) && s != [] && Paired(b, s[0])
    ensures Split(line + [b] + s) == More(line, [b, s[0]], Split(s[1..]))
  {
    assert line + [b] + s == line + [b, s[0]] + s[1..];
    SplitLine(line, [b, s[0]], s[1..]);
  }

  /** A line ending in front is an empty line of its own, or it is swallowed by the line endings that follow. */
  lemma {:induction false} EndInFront(b: byte, s: seq<byte>)
    requires Break(b)
    ensures Split([b] + s).rest == Split(s).rest
    ensures Lines([b] + s) == if Alternating(b, s) % 2 == 0 then [[]] + Lines(s) else Lines(s)
    decreases |s|
  {
    hide Split;
    NoLine();
    assert [] + [b] + s == [b] + s;
    if s == [] || !Paired(b, s[0]) {
      UnpairedIsLine([], b, s);
    } else {
      PairedIsLine([], b, s);
      EndInFront(s[0], s[1..]);
      assert [s[0]] + s[1..] == s;
    }
  }

  lemma EmptySecond(line: seq<byte>, lines: seq<seq<byte>>)
    ensures WithEmpty([line] + lines, 1) == [line] + ([[]] + lines)
  {
  }

  /** The same behind a line that has some text. */
  lemma EndBehind(line: seq<byte>, b: byte, s: seq<byte>)
    requires NoBreak(line) && Break(b)
    ensures Split(line + [b] + s).rest == Split(s).rest
    ensures Lines(line + [b] + s) != []
    ensures [line] + Lines(s) == if Alternating(b, s) % 2 == 0 then Lines(line + [b] + s)
                                 else WithEmpty(Lines(line + [b] + s), 1)
  {
    hide Split, WithEmpty;
    if s == [] || !Paired(b, s[0]) {
      UnpairedIsLine(line, b, s);
    } else {
      PairedIsLine(line, b, s);
      var rest := s[1..];
      EndInFront(s[0], rest);
      assert [s[0]] + rest == s;
      EmptySecond(line, Lines(rest));
      hide Paired;
    }
  }

  lemma DanglingFirst(s: seq<byte>)
    requires FirstBreak(s) < |s|
    ensures var i, j := FirstBreak(s), AfterLine(s);
            Dangling(s) <==> (if j == |s| then j == i + 1 else Dangling(s[j..]))
  {
    var i, j := FirstBreak(s), AfterLine(s);
    SplitBegins(s);
    if j == |s| {
      assert s[j..] == [];
      SplitNone([]);
    } else {
      NotLast(s[j..]);
    }
  }

  /** A text that is not empty has a line or a remainder. */
  lemma NotLast(s: seq<byte>)
    requires s != []
    ensures |Split(s).ends| == |Split(s).lines| && (Split(s).ends == [] ==> Split(s).rest == s)
  {
    SplitIsParse(s);
    if FirstBreak(s) < |s| {
      SplitBegins(s);
    }
  }

  /** A first line stays a first line when text is added, unless it could still be paired. */
  lemma FirstLineStays(x: seq<byte>, y: seq<byte>)
    requires FirstBreak(x) < |x| && (AfterLine(x) < |x| || AfterLine(x) == FirstBreak(x) + 2)
    ensures var i, j := FirstBreak(x), AfterLine(x);
            Split(x + y) == More(x[..i], x[i..j], Split(x[j..] + y))
  {
    var i, j := FirstBreak(x), AfterLine(x);
    FirstLine(x);
    var line, end, after := x[..i], x[i..j], x[j..];
    assert x + y == line + end + (after + y);
    SplitParts(line, end, after);
    if |end| == 1 {
      assert (end + (after + y))[..2] == (end + after)[..2];
    }
    SplitLine(line, end, after + y);
  }

  lemma SplitParts(line: seq<byte>, end: seq<byte>, after: seq<byte>)
    requires IsLine(line, end, after)
    ensures NoBreak(line) && IsLineEnd(end) && (|end| == 1 ==> !StartsPair(end + after))
  {
  }

  /** One more line in front moves the empty line by one. */
  lemma AfterFirst(line: seq<byte>, front: seq<seq<byte>>, back: seq<seq<byte>>, whole: seq<seq<byte>>, odd: bool)
    requires |front| <= |whole| && front + back == if odd then WithEmpty(whole, |front|) else whole
    ensures [line] + front + back == if odd then WithEmpty([line] + whole, |front| + 1) else [line] + whole
  {
    assert [line] + front + back == [line] + (front + back);
    if odd {
      assert [line] + WithEmpty(whole, |front|) == WithEmpty([line] + whole, |front| + 1);
    }
  }

  /**
    Splitting x and then what it leaves followed by y gives the lines of x + y, but for one more empty
    line after the lines of x exactly if x ends in an unpaired line ending and an odd number of
    alternating line ending bytes follow.
   */
  lemma {:induction false} CutLines(x: seq<byte>, y: seq<byte>)
    ensures Split(x + y).rest == Split(Split(x).rest + y).rest
    ensures |Lines(x)| <= |Lines(x + y)|
    ensures var cut := Lines(x) + Lines(Split(x).rest + y);
            cut == if Dangling(x) && Alternating(x[|x| - 1], y) % 2 == 1 then WithEmpty(Lines(x + y), |Lines(x)|)
                   else Lines(x + y)
    decreases |x|
  {
    hide Split, FirstBreak, AfterLine, Alternating, Dangling;
    FirstBreakNone(x);
    if FirstBreak(x) == |x| {
      SplitNone(x);
      NothingDangles(x);
    } else {
      var i, j := FirstBreak(x), AfterLine(x);
      SplitBegins(x);
      DanglingFirst(x);
      AfterLineEnds(x);
      if j == |x| && j == i + 1 {
        LastEndCut(x, y);
      } else {
        FirstLineStays(x, y);
        CutLines(x[j..], y);
        RestCut(x, y);
      }
    }
  }

  lemma NothingDangles(x: seq<byte>)
    requires Split(x) == Cut([], [], x)
    ensures !Dangling(x)
  {
    hide Split;
  }

  lemma LastEndCut(x: seq<byte>, y: seq<byte>)
    requires FirstBreak(x) + 1 == |x| == AfterLine(x)
    ensures Split(x + y).rest == Split(Split(x).rest + y).rest && |Lines(x)| == 1 <= |Lines(x + y)|
    ensures var cut := Lines(x) + Lines(Split(x).rest + y);
            cut == if Alternating(x[|x| - 1], y) % 2 == 1 then WithEmpty(Lines(x + y), 1) else Lines(x + y)
  {
    var i := FirstBreak(x);
    var line, b := x[..i], x[i];
    assert x == line + [b];
    SoleLine(x);
    hide Split, FirstBreak, AfterLine, Alternating, WithEmpty;
    assert [] + y == y;
    EndBehind(line, b, y);
  }

  lemma SoleLine(x: seq<byte>)
    requires FirstBreak(x) < |x| == AfterLine(x)
    ensures Lines(x) == [x[..FirstBreak(x)]] && Split(x).rest == []
  {
    SplitBegins(x);
    assert x[|x|..] == [];
    SplitNone([]);
  }

  lemma RestCut(x: seq<byte>, y: seq<byte>)
    requires FirstBreak(x) < |x| && (AfterLine(x) < |x| || AfterLine(x) == FirstBreak(x) + 2)
    requires var z := x[AfterLine(x)..];
             && Split(z + y).rest == Split(Split(z).rest + y).rest && |Lines(z)| <= |Lines(z + y)|
             && Lines(z) + Lines(Split(z).rest + y) ==
                if Dangling(z) && Alternating(z[|z| - 1], y) % 2 == 1 then WithEmpty(Lines(z + y), |Lines(z)|)
                else Lines(z + y)
    ensures Split(x + y).rest == Split(Split(x).rest + y).rest && |Lines(x)| <= |Lines(x + y)|
    ensures Lines(x) + Lines(Split(x).rest + y) ==
            if Dangling(x) && Alternating(x[|x| - 1], y) % 2 == 1 then WithEmpty(Lines(x + y), |Lines(x)|)
            else Lines(x + y)
  {
    var i, j := FirstBreak(x), AfterLine(x);
    var z := x[j..];
    SplitBegins(x);
    FirstLineStays(x, y);
    DanglesLike(x);
    hide Split, FirstBreak, AfterLine, Alternating, Dangling, WithEmpty;
    var odd := Dangling(x) && Alternating(x[|x| - 1], y) % 2 == 1;
    AfterFirst(x[..i], Lines(z), Lines(Split(z).rest + y), Lines(z + y), odd);
  }

  /** Only the last line decides, as long as the first is not all there is. */
  lemma DanglesLike(x: seq<byte>)
    requires FirstBreak(x) < |x| && (AfterLine(x) < |x| || AfterLine(x) == FirstBreak(x) + 2)
    ensures var z := x[AfterLine(x)..]; Dangling(x) == Dangling(z) && (z != [] ==> z[|z| - 1] == x[|x| - 1])
    ensures Dangling(x) ==> x[AfterLine(x)..] != []
  {
    var z := x[AfterLine(x)..];
    DanglingFirst(x);
    if z == [] {
      SplitNone([]);
      NothingDangles([]);
    }
  }

  /**
    Exactly which cuts change the lines: those behind an unpaired CR or LF that an odd number of
    alternating CR and LF follow. The lines then differ by one empty line, at the cut.
   */
  lemma CutsThatChangeLines(c: Capture, x: seq<byte>, y: seq<byte>)
    ensures var s := c.buf + x;
            var cut, whole := HandleAll(c, [Chunk(x), Chunk(y)]), HandleAll(c, [Chunk(x + y)]);
            var odd := Dangling(s) && Alternating(s[|s| - 1], y) % 2 == 1;
            && cut.buf == whole.buf
            && (cut.pieces != whole.pieces <==> odd)
            && |c.pieces| + |Lines(s)| <= |whole.pieces|
            && (odd ==> cut.pieces == WithEmpty(whole.pieces, |c.pieces| + |Lines(s)|))
  {
    hide Split, Dangling, Alternating;
    var s := c.buf + x;
    assert [Chunk(x), Chunk(y)][1..] == [Chunk(y)] && [Chunk(y)][1..] == [] && [Chunk(x + y)][1..] == [];
    assert c.buf + (x + y) == s + y;
    var c1 := Handle(c, Chunk(x));
    assert HandleAll(c, [Chunk(x), Chunk(y)]) == HandleAll(c1, [Chunk(y)]) == HandleAll(Handle(c1, Chunk(y)), []);
    assert HandleAll(c, [Chunk(x + y)]) == HandleAll(Handle(c, Chunk(x + y)), []);
    CutLines(s, y);
    assert c.pieces + Lines(s) + Lines(Split(s).rest + y) == c.pieces + (Lines(s) + Lines(Split(s).rest + y));
    EmptyAfter(c.pieces, Lines(s + y), |Lines(s)|);
  }

  lemma EmptyAfter(ps: seq<seq<byte>>, lines: seq<seq<byte>>, at: nat)
    requires at <= |lines|
    ensures ps + WithEmpty(lines, at) == WithEmpty(ps + lines, |ps| + at)
  {
  }
}
