/** Stored password hashes in the PHC string format: printing, reading back and checking. */
module Password {
  import opened Wrappers
  import opened Bytes
  import Base64

  const DOLLAR: byte := 0x24
  const ARGON2ID: seq<byte> := [0x61, 0x72, 0x67, 0x6f, 0x6e, 0x32, 0x69, 0x64]
  const VERSION: seq<byte> := [0x76, 0x3d, 0x31, 0x39]
  const M_IS: seq<byte> := [0x6d, 0x3d]
  const T_IS: seq<byte> := [0x2c, 0x74, 0x3d]
  const P_IS: seq<byte> := [0x2c, 0x70, 0x3d]

  const MEMORY := 64 * 1024
  const TIME := 3
  const THREADS := 2
  const SALT_LEN := 16
  const KEY_LEN := 32

  const TWO_32 := 0x1_0000_0000
  const TWO_8 := 0x100

  // ----- decimal numbers -----

  predicate Decimal(b: byte) {
    0x30 <= b <= 0x39
  }

  function Print(n: nat): (s: seq<byte>)
    ensures s != [] && forall i | 0 <= i < |s| :: Decimal(s[i])
  {
    (if n < 10 then [] else Print(n / 10)) + [(0x30 + n % 10) as byte]
  }

  function ValueOf(s: seq<byte>): nat
    requires forall i | 0 <= i < |s| :: Decimal(s[i])
  {
    if s == [] then 0
    else
      var last := s[|s| - 1];
      assert Decimal(last);
      ValueOf(s[..|s| - 1]) * 10 + (last as nat - 0x30)
  }

  function SkipDecimals(s: seq<byte>): (n: nat)
    ensures n <= |s| && (forall i | 0 <= i < n :: Decimal(s[i])) && (n < |s| ==> !Decimal(s[n]))
  {
    if s != [] && Decimal(s[0]) then 1 + SkipDecimals(s[1..]) else 0
  }

  /** White space in front is skipped, but a line feed in it is an error. */
  function SkipSpace(s: seq<byte>): Option<seq<byte>>
    decreases |s|
  {
    if s != [] && s[0] == LF then None
    else if SpaceLen(s) > 0 then SkipSpace(s[SpaceLen(s)..])
    else Some(s)
  }

  datatype Scan = Scan(value: nat, rest: seq<byte>)

  /** A number below the limit, and what follows it. */
  function ScanNumber(s: seq<byte>, limit: nat): Option<Scan> {
    match SkipSpace(s)
    case None => None
    case Some(t) =>
      var n := SkipDecimals(t);
      if n == 0 || ValueOf(t[..n]) >= limit then None else Some(Scan(ValueOf(t[..n]), t[n..]))
  }

  function ScanText(s: seq<byte>, text: seq<byte>): Option<seq<byte>> {
    if text <= s then Some(s[|text|..]) else None
  }

  datatype Costs = Costs(m: nat, t: nat, p: nat)

  predicate ValidCosts(c: Costs) {
    c.m < TWO_32 && c.t < TWO_32 && c.p < TWO_8
  }

  function PrintCosts(c: Costs): seq<byte> {
    M_IS + Print(c.m) + T_IS + Print(c.t) + P_IS + Print(c.p)
  }

  /** What follows the last number is not looked at. */
  function ScanCosts(s: seq<byte>): (r: Option<Costs>)
    ensures r.Some? ==> ValidCosts(r.value)
  {
    match ScanField(s, M_IS, TWO_32)
    case None => None
    case Some(m) =>
      match ScanField(m.rest, T_IS, TWO_32)
      case None => None
      case Some(t) =>
        match ScanField(t.rest, P_IS, TWO_8)
        case None => None
        case Some(p) => Some(Costs(m.value, t.value, p.value))
  }

  function ScanField(s: seq<byte>, text: seq<byte>, limit: nat): (r: Option<Scan>)
    ensures r.Some? ==> r.value.value < limit
  {
    match ScanText(s, text)
    case None => None
    case Some(t) => ScanNumber(t, limit)
  }

  // ----- fields between dollar signs -----

  function Fields(s: seq<byte>): (fs: seq<seq<byte>>)
    ensures |fs| >= 1
  {
    if s == [] then [[]]
    else if s[0] == DOLLAR then [[]] + Fields(s[1..])
    else
      var fs := Fields(s[1..]);
      [[s[0]] + fs[0]] + fs[1..]
  }

  function JoinFields(fs: seq<seq<byte>>): seq<byte>
    requires |fs| >= 1
  {
    if |fs| == 1 then fs[0] else fs[0] + [DOLLAR] + JoinFields(fs[1..])
  }

  // ----- hashing and checking -----

  /** Password, salt, time, memory, threads and key length to a key; None where the library gives up. */
  type Kdf = (seq<byte>, seq<byte>, nat, nat, nat, nat) -> Option<seq<byte>>

  datatype Stored = Stored(costs: Costs, salt: seq<byte>, key: seq<byte>)

  function Format(h: Stored): seq<byte> {
    JoinFields([[], ARGON2ID, VERSION, PrintCosts(h.costs), Base64.Encode(h.salt), Base64.Encode(h.key)])
  }

  function Parse(hash: seq<byte>): (r: Option<Stored>)
    ensures r.Some? ==> ValidCosts(r.value.costs)
  {
    var parts := Fields(hash);
    if |parts| != 6 || parts[1] != ARGON2ID then None
    else
      match ScanCosts(parts[3])
      case None => None
      case Some(costs) =>
        match Base64.Decode(parts[4])
        case None => None
        case Some(salt) =>
          match Base64.Decode(parts[5])
          case None => None
          case Some(key) => Some(Stored(costs, salt, key))
  }

  /** Hash, with the random salt as a parameter. */
  function Hash(kdf: Kdf, plain: seq<byte>, salt: seq<byte>): Option<seq<byte>>
    requires |salt| == SALT_LEN
  {
    match kdf(plain, salt, TIME, MEMORY, THREADS, KEY_LEN)
    case None => None
    case Some(key) => Some(Format(Stored(Costs(MEMORY, TIME, THREADS), salt, key)))
  }

  datatype Outcome = Matches | Mismatch | Malformed | GaveUp

  function Verify(kdf: Kdf, hash: seq<byte>, plain: seq<byte>): Outcome {
    match Parse(hash)
    case None => Malformed
    case Some(h) =>
      match kdf(plain, h.salt, h.costs.t, h.costs.m, h.costs.p, |h.key| % TWO_32)
      case None => GaveUp
      case Some(key) => if key == h.key then Matches else Mismatch
  }

  // ----- printed numbers read back -----

  lemma {:induction false} PrintValue(n: nat)
    ensures ValueOf(Print(n)) == n
  {
    var s := Print(n);
    if n >= 10 {
      PrintValue(n / 10);
      assert s[..|s| - 1] == Print(n / 10);
    } else {
      assert s[..|s| - 1] == [];
    }
  }

  lemma {:induction false} SkipDecimalsStops(s: seq<byte>, after: seq<byte>)
    requires forall i | 0 <= i < |s| :: Decimal(s[i])
    requires after == [] || !Decimal(after[0])
    ensures SkipDecimals(s + after) == |s|
  {
    if s == [] {
      assert s + after == after;
    } else {
      assert (s + after)[1..] == s[1..] + after;
      SkipDecimalsStops(s[1..], after);
    }
  }

  lemma ScanPrinted(n: nat, limit: nat, after: seq<byte>)
    requires n < limit
    requires after == [] || !Decimal(after[0])
    ensures ScanNumber(Print(n) + after, limit) == Some(Scan(n, after))
  {
    var s := Print(n) + after;
    assert Decimal(s[0]) by {
      assert s[0] == Print(n)[0];
    }
    assert SkipSpace(s) == Some(s);
    SkipDecimalsStops(Print(n), after);
    PrintValue(n);
    assert s[..|Print(n)|] == Print(n) && s[|Print(n)|..] == after;
  }

  lemma ScanPrintedField(text: seq<byte>, n: nat, limit: nat, after: seq<byte>)
    requires n < limit
    requires after == [] || !Decimal(after[0])
    ensures ScanField(text + (Print(n) + after), text, limit) == Some(Scan(n, after))
  {
    var s := text + (Print(n) + after);
    assert s[..|text|] == text && s[|text|..] == Print(n) + after;
    ScanPrinted(n, limit, after);
  }

  lemma CostsReadBack(c: Costs)
    requires ValidCosts(c)
    ensures ScanCosts(PrintCosts(c)) == Some(c)
  {
    hide ScanField, Print;
    var p := P_IS + (Print(c.p) + []);
    var t := T_IS + (Print(c.t) + p);
    var m := M_IS + (Print(c.m) + t);
    ScanPrintedField(P_IS, c.p, TWO_8, []);
    ScanPrintedField(T_IS, c.t, TWO_32, p);
    ScanPrintedField(M_IS, c.m, TWO_32, t);
    assert PrintCosts(c) == m;
  }

  // ----- fields -----

  ghost predicate NoDollar(s: seq<byte>) {
    forall i | 0 <= i < |s| :: s[i] != DOLLAR
  }

  /** Fields are the pieces between dollar signs ... */
  lemma {:induction false} FieldsJoin(s: seq<byte>)
    ensures JoinFields(Fields(s)) == s
    ensures forall i | 0 <= i < |Fields(s)| :: NoDollar(Fields(s)[i])
  {
    if s != [] {
      var fs := Fields(s[1..]);
      FieldsJoin(s[1..]);
      if s[0] == DOLLAR {
        assert Fields(s)[1..] == fs;
      } else {
        assert Fields(s)[1..] == fs[1..];
      }
    }
  }

  lemma {:induction false} FieldsFirst(f: seq<byte>, after: seq<byte>)
    requires NoDollar(f)
    ensures Fields(f + [DOLLAR] + after) == [f] + Fields(after)
    ensures Fields(f) == [f]
  {
    var s := f + [DOLLAR] + after;
    if f == [] {
      assert s[1..] == after;
    } else {
      FieldsFirst(f[1..], after);
      assert s[1..] == f[1..] + [DOLLAR] + after;
      assert f[0] != DOLLAR && s[0] == f[0] && [f[0]] + f[1..] == f;
      assert ([f[1..]] + Fields(after))[1..] == Fields(after);
    }
  }

  /** ... and no other pieces are. */
  lemma {:induction false} FieldsOfJoin(fs: seq<seq<byte>>)
    requires |fs| >= 1 && forall i | 0 <= i < |fs| :: NoDollar(fs[i])
    ensures Fields(JoinFields(fs)) == fs
  {
    if |fs| == 1 {
      FieldsFirst(fs[0], []);
    } else {
      FieldsFirst(fs[0], JoinFields(fs[1..]));
      FieldsOfJoin(fs[1..]);
    }
  }

  lemma DecimalsNoDollar(n: nat)
    ensures NoDollar(Print(n))
  {
  }

  lemma CostsNoDollar(c: Costs)
    ensures NoDollar(PrintCosts(c))
  {
    hide Print;
    DecimalsNoDollar(c.m);
    DecimalsNoDollar(c.t);
    DecimalsNoDollar(c.p);
  }

  lemma Base64NoDollar(s: seq<byte>)
    ensures NoDollar(Base64.Encode(s))
  {
    Base64.EncodeIsDigits(s);
    var e := Base64.Encode(s);
    assert forall i | 0 <= i < |e| :: Base64.Digit64(e[i]);
  }

  // ----- the laws -----

  /** A printed hash reads back as what was printed, for all costs, salts and keys. */
  lemma ParseFormat(h: Stored)
    requires ValidCosts(h.costs)
    ensures Parse(Format(h)) == Some(h)
  {
    hide Fields, JoinFields, PrintCosts, ScanCosts, Base64.Encode, Base64.Decode;
    var fs := [[], ARGON2ID, VERSION, PrintCosts(h.costs), Base64.Encode(h.salt), Base64.Encode(h.key)];
    CostsNoDollar(h.costs);
    Base64NoDollar(h.salt);
    Base64NoDollar(h.key);
    FieldsOfJoin(fs);
    CostsReadBack(h.costs);
    Base64.DecodeEncode(h.salt);
    Base64.DecodeEncode(h.key);
  }

  /** No two hashes print alike. */
  lemma FormatIsInjective(h: Stored, g: Stored)
    requires ValidCosts(h.costs) && ValidCosts(g.costs) && Format(h) == Format(g)
    ensures h == g
  {
    ParseFormat(h);
    ParseFormat(g);
  }

  /** The key derivation gives keys of the length asked for. */
  ghost predicate WellSized(kdf: Kdf) {
    forall plain, salt, t, m, p, n | kdf(plain, salt, t, m, p, n).Some? :: |kdf(plain, salt, t, m, p, n).value| == n
  }

  /** A stored hash accepts exactly the passwords that derive the same key, among them the one it was made from. */
  lemma HashThenVerify(kdf: Kdf, p: seq<byte>, q: seq<byte>, salt: seq<byte>)
    requires WellSized(kdf) && |salt| == SALT_LEN && Hash(kdf, p, salt).Some?
    ensures Verify(kdf, Hash(kdf, p, salt).value, p) == Matches
    ensures Verify(kdf, Hash(kdf, p, salt).value, q) == Matches <==>
            kdf(q, salt, TIME, MEMORY, THREADS, KEY_LEN) == kdf(p, salt, TIME, MEMORY, THREADS, KEY_LEN)
    ensures Verify(kdf, Hash(kdf, p, salt).value, q) != Malformed
  {
    hide Parse, Format;
    var key := kdf(p, salt, TIME, MEMORY, THREADS, KEY_LEN).value;
    ParseFormat(Stored(Costs(MEMORY, TIME, THREADS), salt, key));
  }

  /**
   * The text in front of the first dollar sign and the version are not looked at, though the comment in the
   * password code lists them as expected.
   */
  lemma VersionIsIgnored(kdf: Kdf, front: seq<byte>, version: seq<byte>, last: seq<seq<byte>>, q: seq<byte>)
    requires NoDollar(front) && NoDollar(version) && |last| == 3 && forall i | 0 <= i < 3 :: NoDollar(last[i])
    ensures Verify(kdf, JoinFields([front, ARGON2ID, version] + last), q) ==
            Verify(kdf, JoinFields([[], ARGON2ID, VERSION] + last), q)
  {
    hide JoinFields, Fields, Parse;
    var fs, gs := [front, ARGON2ID, version] + last, [[], ARGON2ID, VERSION] + last;
    FieldsOfJoin(fs);
    FieldsOfJoin(gs);
    FieldsThatCount(JoinFields(fs), JoinFields(gs));
  }

  lemma FieldsThatCount(hash: seq<byte>, other: seq<byte>)
    requires |Fields(hash)| == |Fields(other)| == 6
    requires forall i | i in {1, 3, 4, 5} :: Fields(hash)[i] == Fields(other)[i]
    ensures Parse(hash) == Parse(other)
  {
    hide Fields, ScanCosts, Base64.Decode;
    var fs, gs := Fields(hash), Fields(other);
    assert fs[1] == gs[1] && fs[3] == gs[3] && fs[4] == gs[4] && fs[5] == gs[5];
  }

  /** Text after the parallelism is not looked at either. */
  lemma TextAfterCostsIsIgnored(c: Costs, after: seq<byte>)
    requires ValidCosts(c) && (after == [] || !Decimal(after[0]))
    ensures ScanCosts(PrintCosts(c) + after) == Some(c)
  {
    hide ScanField, Print;
    var p := P_IS + (Print(c.p) + after);
    var t := T_IS + (Print(c.t) + p);
    ScanPrintedField(P_IS, c.p, TWO_8, after);
    ScanPrintedField(T_IS, c.t, TWO_32, p);
    ScanPrintedField(M_IS, c.m, TWO_32, t);
    assert PrintCosts(c) + after == M_IS + (Print(c.m) + t);
  }

  /** Whatever way a hash is written, printing what was read gives a hash that checks passwords alike. */
  lemma CanonicalForm(kdf: Kdf, hash: seq<byte>, q: seq<byte>)
    requires Parse(hash).Some?
    ensures Verify(kdf, Format(Parse(hash).value), q) == Verify(kdf, hash, q)
  {
    ParseFormat(Parse(hash).value);
  }
}
