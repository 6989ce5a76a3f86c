/**
  What the texts of stored passwords mean, written out: decimal numbers by the weight of their digits, the
  costs field, the six fields, and what Verify answers for every text.
 */
module PasswordLaws {
  import opened Wrappers
  import opened Bytes
  import opened Password
  import Base64

  // ----- numbers, by the weight of their digits -----

  function Power10(n: nat): nat {
    if n == 0 then 1 else 10 * Power10(n - 1)
  }

  function Weighted(s: seq<byte>): nat
    requires forall i | 0 <= i < |s| :: Decimal(s[i])
  {
    if s == [] then 0
    else
      assert Decimal(s[0]);
      (s[0] as nat - 0x30) * Power10(|s| - 1) + Weighted(s[1..])
  }

  lemma TenTimes(d: nat, p: nat)
    ensures d * (10 * p) == 10 * (d * p)
  {
  }

  lemma {:induction false} WeightedMore(s: seq<byte>, d: byte)
    requires (forall i | 0 <= i < |s| :: Decimal(s[i])) && Decimal(d)
    ensures Weighted(s + [d]) == 10 * Weighted(s) + (d as nat - 0x30)
  {
    if s == [] {
      assert ([] + [d])[1..] == [] && Power10(0) == 1;
    } else {
      assert Decimal(s[0]);
      WeightedMore(s[1..], d);
      assert (s + [d])[1..] == s[1..] + [d];
      TenTimes(s[0] as nat - 0x30, Power10(|s| - 1));
    }
  }

  lemma {:induction false} ValueIsWeighted(s: seq<byte>)
    requires forall i | 0 <= i < |s| :: Decimal(s[i])
    ensures ValueOf(s) == Weighted(s)
  {
    if s != [] {
      var front := s[..|s| - 1];
      assert Decimal(s[|s| - 1]);
      ValueIsWeighted(front);
      WeightedMore(front, s[|s| - 1]);
      assert s == front + [s[|s| - 1]];
    }
  }

  /** A number is printed as its decimal digits, without leading zeros. */
  lemma {:induction false} PrintIsDecimal(n: nat)
    ensures Weighted(Print(n)) == n
    ensures |Print(n)| > 1 ==> Print(n)[0] != 0x30
    ensures n > 0 ==> Print(n)[0] != 0x30
  {
    PrintValue(n);
    ValueIsWeighted(Print(n));
    if n >= 10 {
      PrintIsDecimal(n / 10);
    }
  }

  // ----- what is read -----

  /** A number as it is read: white space without a line feed, then digits. */
  datatype Number = Number(space: seq<byte>, digits: seq<byte>)

  function NumberText(n: Number): seq<byte> {
    n.space + n.digits
  }

  ghost predicate Reads(n: Number, value: nat, limit: nat) {
    && Blank(n.space) && LF !in n.space
    && n.digits != [] && (forall i | 0 <= i < |n.digits| :: Decimal(n.digits[i]))
    && Weighted(n.digits) == value < limit
  }

  /** No digit follows. */
  predicate Ends(rest: seq<byte>) {
    rest == [] || !Decimal(rest[0])
  }

  lemma {:induction false} SkipSpaceIs(space: seq<byte>, rest: seq<byte>)
    requires Blank(space) && LF !in space && rest != [] && Decimal(rest[0])
    ensures SkipSpace(space + rest) == Some(rest)
    decreases |space|
  {
    if space == [] {
      assert space + rest == rest;
    } else {
      var n := SpaceLen(space);
      assert SpaceLen(space + rest) == n && (space + rest)[n..] == space[n..] + rest;
      SkipSpaceIs(space[n..], rest);
    }
  }

  lemma SpaceStays(s: seq<byte>, more: seq<byte>)
    requires SpaceLen(s) > 0 && s[0] != LF
    ensures SpaceLen(s[..SpaceLen(s)] + more) == SpaceLen(s) && LF !in s[..SpaceLen(s)]
  {
  }

  /** The white space that is skipped. */
  lemma {:induction false} SkippedSpace(s: seq<byte>) returns (space: seq<byte>)
    requires SkipSpace(s).Some?
    ensures Blank(space) && LF !in space && s == space + SkipSpace(s).value
    decreases |s|
  {
    hide SpaceLen;
    var n := SpaceLen(s);
    if n > 0 {
      var more := SkippedSpace(s[n..]);
      SpaceStays(s, more);
      space := s[..n] + more;
      assert space[n..] == more;
      assert s == s[..n] + s[n..];
    } else {
      space := [];
      assert s == [] + s;
    }
  }

  lemma Regroup(space: seq<byte>, t: seq<byte>, k: nat)
    requires k <= |t|
    ensures space + t == (space + t[..k]) + t[k..]
  {
  }

  lemma ScanNumberReads(s: seq<byte>, limit: nat) returns (n: Number)
    requires ScanNumber(s, limit).Some?
    ensures var Scan(value, rest) := ScanNumber(s, limit).value;
            s == NumberText(n) + rest && Reads(n, value, limit) && Ends(rest)
  {
    var space := SkippedSpace(s);
    var t := SkipSpace(s).value;
    var k := SkipDecimals(t);
    n := Number(space, t[..k]);
    ValueIsWeighted(t[..k]);
    hide SkipSpace, SkipDecimals, Blank, Weighted, ValueOf;
    Regroup(space, t, k);
  }

  lemma ReadsIsScanned(n: Number, value: nat, limit: nat, rest: seq<byte>)
    requires Reads(n, value, limit) && Ends(rest)
    ensures ScanNumber(NumberText(n) + rest, limit) == Some(Scan(value, rest))
  {
    var t := n.digits + rest;
    assert NumberText(n) + rest == n.space + t;
    assert t[0] == n.digits[0];
    SkipSpaceIs(n.space, t);
    SkipDecimalsStops(n.digits, rest);
    ValueIsWeighted(n.digits);
    assert t[..|n.digits|] == n.digits && t[|n.digits|..] == rest;
  }

  /** The costs as they are read, with what follows the last number. */
  datatype CostText = CostText(m: Number, t: Number, p: Number, after: seq<byte>)

  function TextOf(w: CostText): seq<byte> {
    Ascii("m=") + (NumberText(w.m) + (Ascii(",t=") + (NumberText(w.t) + (Ascii(",p=") + (NumberText(w.p) + w.after)))))
  }

  ghost predicate ReadsCosts(w: CostText, c: Costs) {
    && Reads(w.m, c.m, 0x1_0000_0000) && Reads(w.t, c.t, 0x1_0000_0000) && Reads(w.p, c.p, 0x100)
    && Ends(w.after)
  }

  lemma Literals()
    ensures Ascii("m=") == M_IS && Ascii(",t=") == T_IS && Ascii(",p=") == P_IS
    ensures Ascii("argon2id") == ARGON2ID && Ascii("v=19") == VERSION && Ascii("$") == [DOLLAR]
  {
  }

  lemma FieldIsScanned(s: seq<byte>, text: seq<byte>, limit: nat) returns (n: Number)
    requires ScanField(s, text, limit).Some?
    ensures var Scan(value, rest) := ScanField(s, text, limit).value;
            s == text + (NumberText(n) + rest) && Reads(n, value, limit) && Ends(rest)
  {
    hide ScanNumber, Reads, NumberText;
    n := ScanNumberReads(s[|text|..], limit);
    assert s == text + s[|text|..];
  }

  lemma FieldScans(text: seq<byte>, n: Number, value: nat, limit: nat, rest: seq<byte>)
    requires Reads(n, value, limit) && Ends(rest)
    ensures ScanField(text + (NumberText(n) + rest), text, limit) == Some(Scan(value, rest))
  {
    hide Reads, NumberText, ScanNumber;
    var s := text + (NumberText(n) + rest);
    assert s[..|text|] == text && s[|text|..] == NumberText(n) + rest;
    ReadsIsScanned(n, value, limit, rest);
  }

  /** The costs field is readable exactly if it is three numbers behind their names; what follows is not looked at. */
  lemma ScanCostsExactly(s: seq<byte>, c: Costs)
    ensures ScanCosts(s) == Some(c) <==> exists w :: TextOf(w) == s && ReadsCosts(w, c)
  {
    hide ScanField, Reads, NumberText, Ascii;
    Literals();
    if ScanCosts(s) == Some(c) {
      var m := FieldIsScanned(s, M_IS, TWO_32);
      var s1 := ScanField(s, M_IS, TWO_32).value.rest;
      var t := FieldIsScanned(s1, T_IS, TWO_32);
      var s2 := ScanField(s1, T_IS, TWO_32).value.rest;
      var p := FieldIsScanned(s2, P_IS, TWO_8);
      var w := CostText(m, t, p, ScanField(s2, P_IS, TWO_8).value.rest);
      assert TextOf(w) == s && ReadsCosts(w, c);
    }
    if exists w :: TextOf(w) == s && ReadsCosts(w, c) {
      var w :| TextOf(w) == s && ReadsCosts(w, c);
      var s2 := P_IS + (NumberText(w.p) + w.after);
      var s1 := T_IS + (NumberText(w.t) + s2);
      FieldScans(P_IS, w.p, c.p, TWO_8, w.after);
      FieldScans(T_IS, w.t, c.t, TWO_32, s2);
      FieldScans(M_IS, w.m, c.m, TWO_32, s1);
    }
  }

  /** A stored hash: six fields between dollar signs, with what the last three hold. */
  ghost predicate Holds(hash: seq<byte>, fs: seq<seq<byte>>, h: Stored) {
    && |fs| == 6 && JoinFields(fs) == hash && (forall i | 0 <= i < 6 :: NoDollar(fs[i]))
    && fs[1] == Ascii("argon2id")
    && (exists w :: TextOf(w) == fs[3] && ReadsCosts(w, h.costs))
    && Base64.Decode(fs[4]) == Some(h.salt) && Base64.Decode(fs[5]) == Some(h.key)
  }

  /** A text parses exactly if it is such fields joined. */
  lemma ParseExactly(hash: seq<byte>, h: Stored)
    ensures Parse(hash) == Some(h) <==> exists fs :: Holds(hash, fs, h)
  {
    hide Fields, JoinFields, ScanCosts, Base64.Decode, Ascii, TextOf, ReadsCosts, NoDollar;
    Literals();
    if Parse(hash) == Some(h) {
      FieldsJoin(hash);
      ScanCostsExactly(Fields(hash)[3], h.costs);
      assert Holds(hash, Fields(hash), h);
    }
    if exists fs :: Holds(hash, fs, h) {
      var fs :| Holds(hash, fs, h);
      FieldsOfJoin(fs);
      ScanCostsExactly(fs[3], h.costs);
    }
  }

  /** A text of base64 digits, line endings apart, none of them alone. */
  ghost predicate Base64Text(t: seq<byte>) {
    Base64.AllDigits64(Base64.Squeeze(t)) && |Base64.Squeeze(t)| % 4 != 1
  }

  ghost predicate PhcFields(hash: seq<byte>, fs: seq<seq<byte>>) {
    && |fs| == 6 && JoinFields(fs) == hash && (forall i | 0 <= i < 6 :: NoDollar(fs[i]))
    && fs[1] == Ascii("argon2id")
    && (exists w, c :: TextOf(w) == fs[3] && ReadsCosts(w, c)) && Base64Text(fs[4]) && Base64Text(fs[5])
  }

  /** A text parses exactly if it is six dollar-free fields of the right kinds. */
  lemma ParsesExactly(hash: seq<byte>)
    ensures Parse(hash).Some? <==> exists fs :: PhcFields(hash, fs)
  {
    hide Fields, JoinFields, ScanCosts, Base64.Decode, Ascii, TextOf, ReadsCosts, NoDollar, Parse, Base64Text;
    if Parse(hash).Some? {
      var h := Parse(hash).value;
      ParseExactly(hash, h);
      var fs :| Holds(hash, fs, h);
      Accepted(fs[4]);
      Accepted(fs[5]);
      assert PhcFields(hash, fs);
    }
    if exists fs :: PhcFields(hash, fs) {
      var fs :| PhcFields(hash, fs);
      var w, c :| TextOf(w) == fs[3] && ReadsCosts(w, c);
      Accepted(fs[4]);
      Accepted(fs[5]);
      var h := Stored(c, Base64.Decode(fs[4]).value, Base64.Decode(fs[5]).value);
      assert Holds(hash, fs, h);
      ParseExactly(hash, h);
    }
  }

  lemma Accepted(t: seq<byte>)
    ensures Base64.Decode(t).Some? <==> Base64Text(t)
  {
    Base64.DecodeAccepts(t);
  }

  /**
   * What Verify answers, for every text. Malformed exactly if the text is not six dollar-free fields, the second
   * "argon2id", the fourth readable costs, the last two base64. Matches exactly if the password derives, with the
   * salt and the costs of such fields, the very key of the last.
   */
  lemma VerifyExactly(kdf: Kdf, hash: seq<byte>, q: seq<byte>)
    ensures Verify(kdf, hash, q) == Malformed <==> !exists fs :: PhcFields(hash, fs)
    ensures Verify(kdf, hash, q) == Matches <==>
            exists fs, h :: Holds(hash, fs, h) && Derives(kdf, q, h, Some(h.key))
    ensures Verify(kdf, hash, q) == GaveUp <==>
            exists fs, h :: Holds(hash, fs, h) && Derives(kdf, q, h, None)
  {
    hide JoinFields, Parse, PhcFields, Holds;
    ParsesExactly(hash);
    if Parse(hash).Some? {
      ParseExactly(hash, Parse(hash).value);
    }
    forall fs, h | Holds(hash, fs, h)
      ensures Parse(hash) == Some(h)
    {
      ParseExactly(hash, h);
    }
  }

  /** The key that the password derives with the costs and the salt of the stored hash. */
  predicate Derives(kdf: Kdf, q: seq<byte>, h: Stored, key: Option<seq<byte>>) {
    kdf(q, h.salt, h.costs.t, h.costs.m, h.costs.p, |h.key| % 0x1_0000_0000) == key
  }

  /** What is stored for a password: the text the documentation of the format shows, with its costs written out. */
  lemma HashText(kdf: Kdf, plain: seq<byte>, salt: seq<byte>)
    requires |salt| == 16
    ensures Hash(kdf, plain, salt) ==
            match kdf(plain, salt, 3, 65536, 2, 32)
            case None => None
            case Some(key) =>
              Some(Ascii("$argon2id$v=19$m=65536,t=3,p=2$") + Base64.Encode(salt) + Ascii("$") + Base64.Encode(key))
  {
    hide Base64.Encode, Ascii, Format;
    if kdf(plain, salt, 3, 65536, 2, 32).Some? {
      FormatText(salt, kdf(plain, salt, 3, 65536, 2, 32).value);
    }
  }

  lemma FormatText(salt: seq<byte>, key: seq<byte>)
    ensures Format(Stored(Costs(65536, 3, 2), salt, key)) ==
            Ascii("$argon2id$v=19$m=65536,t=3,p=2$") + Base64.Encode(salt) + Ascii("$") + Base64.Encode(key)
  {
    Literals();
    CostsOfHash();
    Front();
    hide Base64.Encode, Ascii, JoinFields, PrintCosts;
    SixFields([], ARGON2ID, VERSION, PrintCosts(Costs(65536, 3, 2)), Base64.Encode(salt), Base64.Encode(key));
    assert [] + [DOLLAR] == [DOLLAR];
  }

  lemma SixFields(f0: seq<byte>, f1: seq<byte>, f2: seq<byte>, f3: seq<byte>, f4: seq<byte>, f5: seq<byte>)
    ensures JoinFields([f0, f1, f2, f3, f4, f5]) ==
            f0 + [DOLLAR] + f1 + [DOLLAR] + f2 + [DOLLAR] + f3 + [DOLLAR] + f4 + [DOLLAR] + f5
  {
    hide JoinFields;
    JoinOne([], f0, [f1, f2, f3, f4, f5]);
    JoinOne(f0 + [DOLLAR], f1, [f2, f3, f4, f5]);
    JoinOne(f0 + [DOLLAR] + f1 + [DOLLAR], f2, [f3, f4, f5]);
    JoinOne(f0 + [DOLLAR] + f1 + [DOLLAR] + f2 + [DOLLAR], f3, [f4, f5]);
    JoinOne(f0 + [DOLLAR] + f1 + [DOLLAR] + f2 + [DOLLAR] + f3 + [DOLLAR], f4, [f5]);
    JoinLast(f5);
    assert [f0] + [f1, f2, f3, f4, f5] == [f0, f1, f2, f3, f4, f5];
    assert [f1] + [f2, f3, f4, f5] == [f1, f2, f3, f4, f5];
    assert [f2] + [f3, f4, f5] == [f2, f3, f4, f5];
    assert [f3] + [f4, f5] == [f3, f4, f5];
    assert [f4] + [f5] == [f4, f5];
    EmptyFront(JoinFields([f0, f1, f2, f3, f4, f5]), f0);
  }

  lemma EmptyFront(s: seq<byte>, t: seq<byte>)
    ensures [] + s == s && [] + t + [DOLLAR] == t + [DOLLAR]
  {
  }

  lemma JoinOne(front: seq<byte>, f: seq<byte>, fs: seq<seq<byte>>)
    requires fs != []
    ensures front + JoinFields([f] + fs) == (front + f + [DOLLAR]) + JoinFields(fs)
  {
    assert ([f] + fs)[1..] == fs;
  }

  lemma JoinLast(f: seq<byte>)
    ensures JoinFields([f]) == f
  {
  }

  lemma CostsOfHash()
    ensures PrintCosts(Costs(65536, 3, 2)) == Ascii("m=65536,t=3,p=2")
  {
    PrintMemory();
    assert Print(3) == [0x33] && Print(2) == [0x32];
    hide Print;
  }

  lemma PrintMemory()
    ensures Print(65536) == [0x36, 0x35, 0x35, 0x33, 0x36]
  {
    assert Print(65) == [0x36, 0x35];
    assert Print(6553) == [0x36, 0x35, 0x35, 0x33];
  }

  lemma Front()
    ensures Ascii("$argon2id$v=19$m=65536,t=3,p=2$") ==
            [DOLLAR] + ARGON2ID + [DOLLAR] + VERSION + [DOLLAR] + Ascii("m=65536,t=3,p=2") + [DOLLAR]
  {
  }
}
