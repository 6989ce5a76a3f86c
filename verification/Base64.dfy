/** Standard base64 without padding (RFC 4648, sections 3.2 and 4), decoded the way Go's RawStdEncoding does. */
module Base64 {
  import opened Wrappers
  import opened Bytes

  predicate Digit64(c: byte) {
    || 0x41 <= c <= 0x5a
    || 0x61 <= c <= 0x7a
    || 0x30 <= c <= 0x39
    || c == 0x2b
    || c == 0x2f
  }

  function Char(v: nat): (c: byte)
    requires v < 64
    ensures Digit64(c)
  {
    if v < 26 then (0x41 + v) as byte
    else if v < 52 then (0x61 + v - 26) as byte
    else if v < 62 then (0x30 + v - 52) as byte
    else if v == 62 then 0x2b
    else 0x2f
  }

  function Value(c: byte): (v: nat)
    requires Digit64(c)
    ensures v < 64 && Char(v) == c
  {
    if 0x41 <= c <= 0x5a then c as nat - 0x41
    else if 0x61 <= c <= 0x7a then c as nat - 0x61 + 26
    else if 0x30 <= c <= 0x39 then c as nat - 0x30 + 52
    else if c == 0x2b then 62
    else 63
  }

  // The four digits of three bytes.

  function D0(a: byte): (v: nat)
    ensures v < 64
  {
    a as nat / 4
  }

  function D1(a: byte, b: byte): (v: nat)
    ensures v < 64
  {
    a as nat % 4 * 16 + b as nat / 16
  }

  function D2(b: byte, c: byte): (v: nat)
    ensures v < 64
  {
    b as nat % 16 * 4 + c as nat / 64
  }

  function D3(c: byte): (v: nat)
    ensures v < 64
  {
    c as nat % 64
  }

  function Encode(s: seq<byte>): seq<byte> {
    if s == [] then []
    else if |s| == 1 then [Char(D0(s[0])), Char(D1(s[0], 0))]
    else if |s| == 2 then [Char(D0(s[0])), Char(D1(s[0], s[1])), Char(D2(s[1], 0))]
    else [Char(D0(s[0])), Char(D1(s[0], s[1])), Char(D2(s[1], s[2])), Char(D3(s[2]))] + Encode(s[3..])
  }

  predicate Skipped(c: byte) {
    c == CR || c == LF
  }

  function Squeeze(t: seq<byte>): seq<byte> {
    if t == [] then [] else (if Skipped(t[0]) then [] else [t[0]]) + Squeeze(t[1..])
  }

  ghost predicate AllDigits64(t: seq<byte>) {
    forall i | 0 <= i < |t| :: Digit64(t[i])
  }

  function FirstByte(c: byte, d: byte): byte
    requires Digit64(c) && Digit64(d)
  {
    (Value(c) * 4 + Value(d) / 16) as byte
  }

  function SecondByte(c: byte, d: byte): byte
    requires Digit64(c) && Digit64(d)
  {
    (Value(c) % 16 * 16 + Value(d) / 4) as byte
  }

  function ThirdByte(c: byte, d: byte): byte
    requires Digit64(c) && Digit64(d)
  {
    (Value(c) % 4 * 64 + Value(d)) as byte
  }

  /** Whole quanta of four digits, then what two or three digits still hold; bits left over are dropped. */
  function Quanta(t: seq<byte>): Option<seq<byte>> {
    if t == [] then Some([])
    else if |t| == 1 || !Digit64(t[0]) || !Digit64(t[1]) then None
    else if |t| == 2 then Some([FirstByte(t[0], t[1])])
    else if !Digit64(t[2]) then None
    else if |t| == 3 then Some([FirstByte(t[0], t[1]), SecondByte(t[1], t[2])])
    else if !Digit64(t[3]) then None
    else
      match Quanta(t[4..])
      case None => None
      case Some(rest) => Some([FirstByte(t[0], t[1]), SecondByte(t[1], t[2]), ThirdByte(t[2], t[3])] + rest)
  }

  function Decode(t: seq<byte>): Option<seq<byte>> {
    Quanta(Squeeze(t))
  }

  lemma CharValue(v: nat)
    requires v < 64
    ensures Value(Char(v)) == v
  {
  }

  lemma FirstBack(a: byte, b: byte)
    ensures FirstByte(Char(D0(a)), Char(D1(a, b))) == a
  {
    hide Char, Value;
    CharValue(D0(a));
    CharValue(D1(a, b));
    Parts(a as nat % 4, 16, b as nat / 16);
  }

  lemma SecondBack(a: byte, b: byte, c: byte)
    ensures SecondByte(Char(D1(a, b)), Char(D2(b, c))) == b
  {
    hide Char, Value;
    CharValue(D1(a, b));
    CharValue(D2(b, c));
    Parts(a as nat % 4, 16, b as nat / 16);
    Parts(b as nat % 16, 4, c as nat / 64);
  }

  lemma Parts(high: nat, base: nat, low: nat)
    requires low < base && base in {4, 16}
    ensures (high * base + low) / base == high && (high * base + low) % base == low
  {
  }

  lemma ThirdBack(b: byte, c: byte)
    ensures ThirdByte(Char(D2(b, c)), Char(D3(c))) == c
  {
    hide Char, Value;
    CharValue(D2(b, c));
    CharValue(D3(c));
    Parts(b as nat % 16, 4, c as nat / 64);
  }

  lemma {:induction false} QuantaOfEncode(s: seq<byte>)
    ensures Quanta(Encode(s)) == Some(s)
  {
    hide Char, FirstByte, SecondByte, ThirdByte, D0, D1, D2, D3, Digit64;
    var e := Encode(s);
    if |s| == 1 {
      FirstBack(s[0], 0);
      assert s == [s[0]];
    } else if |s| == 2 {
      FirstBack(s[0], s[1]);
      SecondBack(s[0], s[1], 0);
      assert s == [s[0], s[1]];
    } else if |s| > 2 {
      FirstBack(s[0], s[1]);
      SecondBack(s[0], s[1], s[2]);
      ThirdBack(s[1], s[2]);
      QuantaOfEncode(s[3..]);
      assert e[4..] == Encode(s[3..]);
      assert s == [s[0], s[1], s[2]] + s[3..];
    }
  }

  lemma {:induction false} SqueezeKeeps(t: seq<byte>)
    requires AllDigits64(t)
    ensures Squeeze(t) == t
  {
    if t != [] {
      SqueezeKeeps(t[1..]);
    }
  }

  lemma {:induction false} EncodeIsDigits(s: seq<byte>)
    ensures AllDigits64(Encode(s))
  {
    hide Char, Digit64, D0, D1, D2, D3;
    if |s| > 2 {
      EncodeIsDigits(s[3..]);
    }
  }

  /** Decoding undoes encoding, for all data. */
  lemma DecodeEncode(s: seq<byte>)
    ensures Decode(Encode(s)) == Some(s)
  {
    EncodeIsDigits(s);
    SqueezeKeeps(Encode(s));
    QuantaOfEncode(s);
  }

  /** What decodes: digits, with no digit left alone; line endings are overlooked. */
  lemma {:induction false} QuantaAccepts(t: seq<byte>)
    ensures Quanta(t).Some? <==> AllDigits64(t) && |t| % 4 != 1
    ensures Quanta(t).Some? ==> |Quanta(t).value| == |t| * 3 / 4
  {
    hide Digit64, FirstByte, SecondByte, ThirdByte;
    if |t| >= 4 {
      QuantaAccepts(t[4..]);
      assert AllDigits64(t) <==> AllDigits64(t[..4]) && AllDigits64(t[4..]) by {
        assert forall i | 4 <= i < |t| :: t[i] == t[4..][i - 4];
        assert forall i | 0 <= i < 4 :: t[i] == t[..4][i];
      }
    }
  }

  lemma DecodeAccepts(t: seq<byte>)
    ensures Decode(t).Some? <==> AllDigits64(Squeeze(t)) && |Squeeze(t)| % 4 != 1
    ensures Decode(t).Some? ==> |Decode(t).value| == |Squeeze(t)| * 3 / 4
  {
    QuantaAccepts(Squeeze(t));
  }

  // ----- the meaning of the digits -----

  const ALPHABET: string := "ABCDEFGHIJKLM" + "NOPQRSTUVWXYZ" + "abcdefghijklm" + "nopqrstuvwxyz" + "0123456789+/"

  /** The digits are those of the standard alphabet, in its order. */
  lemma CharIsInAlphabet(v: nat)
    requires v < 64
    ensures |ALPHABET| == 64 && Char(v) as int == ALPHABET[v] as int
  {
    hide Digit64;
    var a, n, a', n', d := "ABCDEFGHIJKLM", "NOPQRSTUVWXYZ", "abcdefghijklm", "nopqrstuvwxyz", "0123456789+/";
    InPieces(a, n, a', n', d, v);
    if v < 26 {
      assert Char(v) as int == if v < 13 then a[v] as int else n[v - 13] as int;
    } else if v < 52 {
      assert Char(v) as int == if v < 39 then a'[v - 26] as int else n'[v - 39] as int;
    } else {
      assert Char(v) as int == d[v - 52] as int;
    }
  }

  lemma InPieces(a: string, b: string, c: string, d: string, e: string, v: nat)
    requires |a| == |b| == |c| == |d| == 13 && v < 52 + |e|
    ensures (a + b + c + d + e)[v] ==
            if v < 13 then a[v] else if v < 26 then b[v - 13] else if v < 39 then c[v - 26]
            else if v < 52 then d[v - 39] else e[v - 52]
  {
  }

  /** The numbers that some digits stand for. */
  function Number64(t: seq<byte>): nat
    requires AllDigits64(t)
  {
    if t == [] then 0 else Number64(t[..|t| - 1]) * 64 + Value(t[|t| - 1])
  }

  /** The numbers that some bytes stand for. */
  function Number256(s: seq<byte>): nat {
    if s == [] then 0 else Number256(s[..|s| - 1]) * 0x100 + s[|s| - 1] as nat
  }

  /**
    Four digits at a time stand for the same number as three bytes; of two or three digits left over the bits
    that make no whole byte are cut off, and they are zero if the text is canonical.
   */
  ghost predicate SameNumbers(s: seq<byte>, t: seq<byte>, canonical: bool)
    decreases |t|
  {
    && AllDigits64(t)
    && match |t|
       case 0 => s == []
       case 1 => false
       case 2 => |s| == 1 && Cut(Number64(t), Number256(s), 16, canonical)
       case 3 => |s| == 2 && Cut(Number64(t), Number256(s), 4, canonical)
       case _ =>
         |s| >= 3 && Number64(t[..4]) == Number256(s[..3]) && SameNumbers(s[3..], t[4..], canonical)
  }

  predicate Cut(n: nat, m: nat, unit: nat, canonical: bool)
    requires unit > 0
  {
    m == n / unit && (canonical ==> n == m * unit)
  }

  lemma FewDigits(t: seq<byte>)
    requires AllDigits64(t)
    ensures |t| == 2 ==> Number64(t) == Value(t[0]) * 64 + Value(t[1])
    ensures |t| == 3 ==> Number64(t) == (Value(t[0]) * 64 + Value(t[1])) * 64 + Value(t[2])
    ensures |t| == 4 ==>
              Number64(t) == ((Value(t[0]) * 64 + Value(t[1])) * 64 + Value(t[2])) * 64 + Value(t[3])
    decreases |t|
  {
    hide Value, Digit64;
    if |t| in {2, 3, 4} {
      var u := t[..|t| - 1];
      FewDigits(u);
      if |t| == 2 {
        assert u[..0] == [];
      }
    }
  }

  lemma FewBytes(s: seq<byte>)
    ensures |s| == 1 ==> Number256(s) == s[0] as nat
    ensures |s| == 2 ==> Number256(s) == s[0] as nat * 0x100 + s[1] as nat
    ensures |s| == 3 ==> Number256(s) == (s[0] as nat * 0x100 + s[1] as nat) * 0x100 + s[2] as nat
    decreases |s|
  {
    if |s| in {1, 2, 3} {
      FewBytes(s[..|s| - 1]);
    }
  }

  lemma GroupNumber(t: seq<byte>)
    requires AllDigits64(t) && |t| == 4
    ensures Number64(t) == Number256([FirstByte(t[0], t[1]), SecondByte(t[1], t[2]), ThirdByte(t[2], t[3])])
  {
    FewDigits(t);
    FewBytes([FirstByte(t[0], t[1]), SecondByte(t[1], t[2]), ThirdByte(t[2], t[3])]);
    hide Value, Number64, Number256, Digit64;
  }

  lemma TwoDigits(t: seq<byte>, canonical: bool)
    requires AllDigits64(t) && |t| == 2 && (canonical ==> Value(t[1]) % 16 == 0)
    ensures Cut(Number64(t), Number256([FirstByte(t[0], t[1])]), 16, canonical)
  {
    FewDigits(t);
    FewBytes([FirstByte(t[0], t[1])]);
    hide Value, Number64, Number256, Digit64;
  }

  lemma ThreeDigits(t: seq<byte>, canonical: bool)
    requires AllDigits64(t) && |t| == 3 && (canonical ==> Value(t[2]) % 4 == 0)
    ensures Cut(Number64(t), Number256([FirstByte(t[0], t[1]), SecondByte(t[1], t[2])]), 4, canonical)
  {
    FewDigits(t);
    FewBytes([FirstByte(t[0], t[1]), SecondByte(t[1], t[2])]);
    hide Value, Number64, Number256, Digit64;
  }

  /** The bits that fill up the last digit are zero. */
  ghost predicate Canonical(t: seq<byte>) {
    && AllDigits64(t)
    && (|t| == 2 ==> Value(t[1]) % 16 == 0) && (|t| == 3 ==> Value(t[2]) % 4 == 0)
    && (|t| >= 4 ==> Canonical(t[4..]))
  }

  lemma {:induction false} QuantaAreNumbers(t: seq<byte>, canonical: bool)
    requires Quanta(t).Some? && (canonical ==> Canonical(t))
    ensures SameNumbers(Quanta(t).value, t, canonical)
  {
    hide FirstByte, SecondByte, ThirdByte, Value, Number64, Number256, Cut, Digit64;
    QuantaAccepts(t);
    if |t| == 2 {
      TwoDigits(t, canonical);
    } else if |t| == 3 {
      ThreeDigits(t, canonical);
    } else if |t| >= 4 {
      QuantaAreNumbers(t[4..], canonical);
      GroupNumber(t[..4]);
      var s := Quanta(t).value;
      assert s[..3] == [FirstByte(t[0], t[1]), SecondByte(t[1], t[2]), ThirdByte(t[2], t[3])];
      assert s[3..] == Quanta(t[4..]).value;
    }
  }

  /** What is decoded stands for the numbers of the digits, line endings apart. */
  lemma DecodeIsNumbers(t: seq<byte>)
    ensures Decode(t).Some? ==> SameNumbers(Decode(t).value, Squeeze(t), false)
  {
    hide SameNumbers, Quanta;
    if Decode(t).Some? {
      QuantaAreNumbers(Squeeze(t), false);
    }
  }

  /** Text without line endings is looked at as it is; a line ending anywhere makes no difference. */
  lemma {:induction false} LineEndingsAreSkipped(t: seq<byte>, c: byte, u: seq<byte>)
    requires c == 0x0d || c == 0x0a
    ensures Squeeze(t + [c] + u) == Squeeze(t + u)
    ensures (forall i | 0 <= i < |t| :: t[i] != 0x0d && t[i] != 0x0a) ==> Squeeze(t) == t
  {
    if t == [] {
      assert ([] + [c] + u)[1..] == u && [] + u == u;
    } else {
      LineEndingsAreSkipped(t[1..], c, u);
      assert (t + [c] + u)[1..] == t[1..] + [c] + u;
      assert (t + u)[1..] == t[1..] + u;
    }
  }

  /** Encoding gives the digits that stand for the numbers of the bytes, with zero bits to fill the last one. */
  lemma EncodeIsNumbers(s: seq<byte>)
    ensures SameNumbers(s, Encode(s), true)
  {
    hide SameNumbers, Quanta, Canonical;
    QuantaOfEncode(s);
    EncodeIsCanonical(s);
    QuantaAreNumbers(Encode(s), true);
  }

  lemma {:induction false} EncodeIsCanonical(s: seq<byte>)
    ensures Canonical(Encode(s))
  {
    EncodeIsDigits(s);
    if |s| > 2 {
      EncodeIsCanonical(s[3..]);
      EncodeMore(s);
      hide Value, Digit64, Encode;
    } else if |s| == 1 {
      CharValue(D1(s[0], 0));
      hide Value, Char, Digit64, D0;
    } else if |s| == 2 {
      CharValue(D2(s[1], 0));
      hide Value, Char, Digit64, D0, D1;
    }
  }

  lemma EncodeMore(s: seq<byte>)
    requires |s| > 2
    ensures |Encode(s)| == 4 + |Encode(s[3..])| && Encode(s)[4..] == Encode(s[3..])
  {
    hide Char, D0, D1, D2, D3;
  }
}
