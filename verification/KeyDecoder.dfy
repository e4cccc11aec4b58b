/** decode_key of src/config.rs: four strict base64 decoders (RFC 4648, sections 3.2, 3.5, 4
    and 5) tried in order, then a length check. */
module KeyDecoder {
  import opened Common

  type Byte = b: nat | b < 256
  type Sextet = v: nat | v < 64

  datatype Alphabet = Standard | UrlSafe

  /** An engine of the base64 crate: an alphabet, and padding either required or refused. */
  datatype Engine = Engine(alphabet: Alphabet, padded: bool)

  const ENGINES: seq<Engine> :=
    [Engine(Standard, true), Engine(Standard, false), Engine(UrlSafe, true), Engine(UrlSafe, false)]

  // ----- tables 1 and 2 of RFC 4648

  function CharOf(a: Alphabet, v: Sextet): char {
    if v < 26 then 'A' + v as char
    else if v < 52 then 'a' + (v - 26) as char
    else if v < 62 then '0' + (v - 52) as char
    else if v == 62 then (if a == Standard then '+' else '-')
    else (if a == Standard then '/' else '_')
  }

  function ValueOf(a: Alphabet, c: char): Option<Sextet> {
    if 'A' <= c <= 'Z' then Some((c - 'A') as int)
    else if 'a' <= c <= 'z' then Some((c - 'a') as int + 26)
    else if '0' <= c <= '9' then Some((c - '0') as int + 52)
    else if c == (if a == Standard then '+' else '-') then Some(62)
    else if c == (if a == Standard then '/' else '_') then Some(63)
    else None
  }

  lemma ValueOfChar(a: Alphabet, v: Sextet)
    ensures ValueOf(a, CharOf(a, v)) == Some(v) && CharOf(a, v) != '='
  {
  }

  lemma CharOfValue(a: Alphabet, c: char)
    requires ValueOf(a, c).Some?
    ensures CharOf(a, ValueOf(a, c).value) == c && c != '='
  {
  }

  // ----- octets and sextets

  function First(b0: Byte): Sextet { b0 / 4 }

  function Second(b0: Byte, b1: Byte): Sextet { b0 % 4 * 16 + b1 / 16 }

  function Third(b1: Byte, b2: Byte): Sextet { b1 % 16 * 4 + b2 / 64 }

  function Fourth(b2: Byte): Sextet { b2 % 64 }

  function Octet0(s0: Sextet, s1: Sextet): Byte { s0 * 4 + s1 / 16 }

  function Octet1(s1: Sextet, s2: Sextet): Byte { s1 % 16 * 16 + s2 / 4 }

  function Octet2(s2: Sextet, s3: Sextet): Byte { s2 % 4 * 64 + s3 }

  lemma Octet0Back(b0: Byte, b1: Byte)
    ensures Octet0(First(b0), Second(b0, b1)) == b0
  {
    assert Second(b0, b1) / 16 == b0 % 4;
  }

  lemma Octet1Back(b0: Byte, b1: Byte, b2: Byte)
    ensures Octet1(Second(b0, b1), Third(b1, b2)) == b1
  {
    assert Second(b0, b1) % 16 == b1 / 16;
    assert Third(b1, b2) / 4 == b1 % 16;
  }

  lemma Octet2Back(b1: Byte, b2: Byte)
    ensures Octet2(Third(b1, b2), Fourth(b2)) == b2
  {
    assert Third(b1, b2) % 4 == b2 / 64;
  }

  lemma GroupOfOctets(b0: Byte, b1: Byte, b2: Byte)
    ensures Octet0(First(b0), Second(b0, b1)) == b0
    ensures Octet1(Second(b0, b1), Third(b1, b2)) == b1
    ensures Octet2(Third(b1, b2), Fourth(b2)) == b2
    ensures Octet0(First(b0), Second(b0, 0)) == b0 && Second(b0, 0) % 16 == 0 && Third(b1, 0) % 4 == 0
  {
    Octet0Back(b0, b1);
    Octet0Back(b0, 0);
    Octet1Back(b0, b1, b2);
    Octet2Back(b1, b2);
  }

  lemma Sextets01Back(s0: Sextet, s1: Sextet, s2: Sextet)
    ensures First(Octet0(s0, s1)) == s0
    ensures Second(Octet0(s0, s1), Octet1(s1, s2)) == s1
    ensures s1 % 16 == 0 ==> Second(Octet0(s0, s1), 0) == s1
  {
    assert Octet0(s0, s1) % 4 == s1 / 16;
    assert Octet1(s1, s2) / 16 == s1 % 16;
  }

  lemma Sextets23Back(s1: Sextet, s2: Sextet, s3: Sextet)
    ensures Third(Octet1(s1, s2), Octet2(s2, s3)) == s2
    ensures Fourth(Octet2(s2, s3)) == s3
    ensures s2 % 4 == 0 ==> Third(Octet1(s1, s2), 0) == s2
  {
    assert Octet1(s1, s2) % 16 == s2 / 4;
    assert Octet2(s2, s3) / 64 == s2 % 4;
  }

  lemma GroupOfSextets(s0: Sextet, s1: Sextet, s2: Sextet, s3: Sextet)
    ensures First(Octet0(s0, s1)) == s0
    ensures Second(Octet0(s0, s1), Octet1(s1, s2)) == s1
    ensures Third(Octet1(s1, s2), Octet2(s2, s3)) == s2
    ensures Fourth(Octet2(s2, s3)) == s3
    ensures s1 % 16 == 0 ==> Second(Octet0(s0, s1), 0) == s1
    ensures s2 % 4 == 0 ==> Third(Octet1(s1, s2), 0) == s2
  {
    Sextets01Back(s0, s1, s2);
    Sextets23Back(s1, s2, s3);
  }

  /** Section 4: three octets become four sextets; a last group of one or two octets becomes
      two or three, filled up with zero bits. */
  function Sextets(b: seq<Byte>): seq<Sextet> {
    if b == [] then []
    else if |b| == 1 then [First(b[0]), Second(b[0], 0)]
    else if |b| == 2 then [First(b[0]), Second(b[0], b[1]), Third(b[1], 0)]
    else [First(b[0]), Second(b[0], b[1]), Third(b[1], b[2]), Fourth(b[2])] + Sextets(b[3..])
  }

  /** The strict inverse: a lone last sextet and nonzero fill bits (section 3.5) are refused. */
  function Octets(s: seq<Sextet>): Option<seq<Byte>> {
    if s == [] then Some([])
    else if |s| == 1 then None
    else if |s| == 2 then
      if s[1] % 16 == 0 then Some([Octet0(s[0], s[1])]) else None
    else if |s| == 3 then
      if s[2] % 4 == 0 then Some([Octet0(s[0], s[1]), Octet1(s[1], s[2])]) else None
    else
      match Octets(s[4..])
      case Some(rest) => Some([Octet0(s[0], s[1]), Octet1(s[1], s[2]), Octet2(s[2], s[3])] + rest)
      case None => None
  }

  /** The last group by value, so that no arithmetic is left to do. */
  lemma LastGroup(s0: Sextet, s1: Sextet, s2: Sextet, x: Byte, y: Byte)
    ensures s1 % 16 == 0 && Octet0(s0, s1) == x ==> Octets([s0, s1]) == Some([x])
    ensures s2 % 4 == 0 && Octet0(s0, s1) == x && Octet1(s1, s2) == y ==> Octets([s0, s1, s2]) == Some([x, y])
  {
  }

  lemma {:induction false} OctetsOfSextets(b: seq<Byte>)
    ensures Octets(Sextets(b)) == Some(b)
  {
    if |b| > 2 {
      OctetsOfSextets(b[3..]);
      GroupOfOctets(b[0], b[1], b[2]);
      assert Sextets(b)[4..] == Sextets(b[3..]);
      assert b == [b[0], b[1], b[2]] + b[3..];
    } else if |b| == 2 {
      TwoOctets(b[0], b[1]);
      assert b == [b[0], b[1]];
    } else if |b| == 1 {
      OneOctet(b[0]);
      assert b == [b[0]];
    }
  }

  lemma OneOctet(x: Byte)
    ensures Octets(Sextets([x])) == Some([x])
  {
    GroupOfOctets(x, x, x);
    var s1 := Second(x, 0);
    LastGroup(First(x), s1, s1, x, x);
    assert Sextets([x]) == [First(x), Second(x, 0)];
  }

  lemma TwoOctets(x: Byte, y: Byte)
    ensures Octets(Sextets([x, y])) == Some([x, y])
  {
    GroupOfOctets(x, y, 0);
    LastGroup(First(x), Second(x, y), Third(y, 0), x, y);
    assert Sextets([x, y]) == [First(x), Second(x, y), Third(y, 0)];
  }

  lemma {:induction false} SextetsOfOctets(s: seq<Sextet>)
    requires Octets(s).Some?
    ensures Sextets(Octets(s).value) == s
  {
    if |s| > 3 {
      SextetsOfOctets(s[4..]);
      GroupOfSextets(s[0], s[1], s[2], s[3]);
      var b := Octets(s).value;
      assert b[3..] == Octets(s[4..]).value;
      assert s == [s[0], s[1], s[2], s[3]] + s[4..];
    } else if |s| == 3 {
      GroupOfSextets(s[0], s[1], s[2], 0);
    } else if |s| == 2 {
      GroupOfSextets(s[0], s[1], 0, 0);
    }
  }

  // ----- text

  function Text(a: Alphabet, s: seq<Sextet>): string {
    seq(|s|, i requires 0 <= i < |s| => CharOf(a, s[i]))
  }

  function Values(a: Alphabet, text: string): Option<seq<Sextet>> {
    if text == "" then Some([])
    else match (ValueOf(a, text[0]), Values(a, text[1..]))
         case (Some(v), Some(rest)) => Some([v] + rest)
         case _ => None
  }

  lemma {:induction false} ValuesOfText(a: Alphabet, s: seq<Sextet>)
    ensures Values(a, Text(a, s)) == Some(s)
  {
    if s != [] {
      ValueOfChar(a, s[0]);
      ValuesOfText(a, s[1..]);
      assert Text(a, s)[1..] == Text(a, s[1..]);
      assert [s[0]] + s[1..] == s;
    }
  }

  lemma {:induction false} TextOfValues(a: Alphabet, text: string)
    requires Values(a, text).Some?
    ensures Text(a, Values(a, text).value) == text
    ensures '=' !in text
  {
    if text != "" {
      TextOfValues(a, text[1..]);
      CharOfValue(a, text[0]);
      assert text == [text[0]] + text[1..];
    }
  }

  /** How many "=" complete the last group of four (section 3.2). */
  function Padding(n: nat): string {
    if n % 4 == 2 then "==" else if n % 4 == 3 then "=" else ""
  }

  function Encode(e: Engine, b: seq<Byte>): string {
    var text := Text(e.alphabet, Sextets(b));
    if e.padded then text + Padding(|text|) else text
  }

  /** Where trailing padding starts: at most two "=" can be padding. */
  function Body(text: string): string {
    if |text| >= 2 && text[|text| - 2..] == "==" then text[..|text| - 2]
    else if |text| >= 1 && text[|text| - 1] == '=' then text[..|text| - 1]
    else text
  }

  function Decode(e: Engine, text: string): Option<seq<Byte>> {
    var body := if e.padded then Body(text) else text;
    if e.padded && text != body + Padding(|body|) then None
    else match Values(e.alphabet, body)
         case Some(s) => Octets(s)
         case None => None
  }

  lemma BodyOfTwo(text: string)
    ensures Body(text + "==") == text
  {
    var padded := text + "==";
    assert padded[|padded| - 2..] == "==" && padded[..|text|] == text;
  }

  lemma BodyOfOne(text: string)
    requires text == "" || text[|text| - 1] != '='
    ensures Body(text + "=") == text
  {
    var padded := text + "=";
    assert |text| >= 1 ==> padded[|padded| - 2..][0] == text[|text| - 1];
    assert padded[|padded| - 1] == '=' && padded[..|text|] == text;
  }

  lemma BodyOfUnpadded(text: string)
    requires text == "" || text[|text| - 1] != '='
    ensures Body(text) == text
  {
    assert |text| >= 2 ==> text[|text| - 2..][1] == text[|text| - 1];
  }

  lemma BodyOfEncoded(text: string)
    requires '=' !in text
    ensures Body(text + Padding(|text|)) == text
  {
    assert text == "" || text[|text| - 1] in text;
    if |text| % 4 == 2 {
      BodyOfTwo(text);
    } else if |text| % 4 == 3 {
      BodyOfOne(text);
    } else {
      assert text + "" == text;
      BodyOfUnpadded(text);
    }
  }

  lemma DecodeInvertsEncode(e: Engine, b: seq<Byte>)
    ensures Decode(e, Encode(e, b)) == Some(b)
  {
    var text := Text(e.alphabet, Sextets(b));
    ValuesOfText(e.alphabet, Sextets(b));
    TextOfValues(e.alphabet, text);
    BodyOfEncoded(text);
    OctetsOfSextets(b);
  }

  lemma OnlyEncodingsDecode(e: Engine, text: string)
    requires Decode(e, text).Some?
    ensures Encode(e, Decode(e, text).value) == text
  {
    var body := if e.padded then Body(text) else text;
    TextOfValues(e.alphabet, body);
    SextetsOfOctets(Values(e.alphabet, body).value);
  }

  /** Any two of the decoders that both accept a text agree on its bytes. */
  lemma DecodersAgree(e: Engine, f: Engine, text: string)
    requires Decode(e, text).Some? && Decode(f, text).Some?
    ensures Decode(e, text) == Decode(f, text)
  {
    var s := if e.padded then Body(text) else text;
    var t := if f.padded then Body(text) else text;
    TextOfValues(e.alphabet, s);
    TextOfValues(f.alphabet, t);
    if e.padded != f.padded {
      assert text == "" || text[|text| - 1] in text;
      BodyOfUnpadded(text);
    }
    ValuesAgree(e.alphabet, f.alphabet, s);
  }

  lemma {:induction false} ValuesAgree(a: Alphabet, b: Alphabet, text: string)
    requires Values(a, text).Some? && Values(b, text).Some?
    ensures Values(a, text) == Values(b, text)
  {
    if text != "" {
      ValuesAgree(a, b, text[1..]);
    }
  }

  // ----- decode_key

  datatype ConfigError = MustBeBase64 | WrongLength(expected: nat, got: nat)

  function FirstDecoded(engines: seq<Engine>, text: string): Option<seq<Byte>> {
    if engines == [] then None
    else match Decode(engines[0], text)
         case Some(b) => Some(b)
         case None => FirstDecoded(engines[1..], text)
  }

  function DecodeKey(text: string, expected: nat): Result<seq<Byte>, ConfigError> {
    match FirstDecoded(ENGINES, text)
    case None => Err(MustBeBase64)
    case Some(b) => if |b| != expected then Err(WrongLength(expected, |b|)) else Ok(b)
  }

  /** Which decoder matches first does not matter. */
  lemma {:induction false} FirstDecodedIsAny(engines: seq<Engine>, e: Engine, text: string)
    requires e in engines && Decode(e, text).Some?
    ensures FirstDecoded(engines, text) == Decode(e, text)
  {
    if Decode(engines[0], text).Some? {
      DecodersAgree(engines[0], e, text);
    } else {
      FirstDecodedIsAny(engines[1..], e, text);
    }
  }

  lemma {:induction false} FirstDecodedHasSource(engines: seq<Engine>, text: string) returns (e: Engine)
    requires FirstDecoded(engines, text).Some?
    ensures e in engines && Decode(e, text) == FirstDecoded(engines, text)
  {
    if Decode(engines[0], text).Some? {
      e := engines[0];
    } else {
      e := FirstDecodedHasSource(engines[1..], text);
    }
  }

  lemma EveryEngineIsTried(e: Engine)
    ensures e in ENGINES
  {
    var k := (if e.alphabet == Standard then 0 else 2) + if e.padded then 0 else 1;
    assert ENGINES[k] == e;
  }

  /** The text is the key in either alphabet, padded or not. */
  ghost predicate IsEncodingOf(text: string, key: seq<Byte>) {
    exists e :: text == Encode(e, key)
  }

  lemma {:induction false} FirstDecodedIff(text: string, key: seq<Byte>)
    ensures FirstDecoded(ENGINES, text) == Some(key) <==> IsEncodingOf(text, key)
  {
    if FirstDecoded(ENGINES, text) == Some(key) {
      var e := FirstDecodedHasSource(ENGINES, text);
      OnlyEncodingsDecode(e, text);
    }
    if IsEncodingOf(text, key) {
      var e :| text == Encode(e, key);
      EveryEngineIsTried(e);
      DecodeInvertsEncode(e, key);
      FirstDecodedIsAny(ENGINES, e, text);
    }
  }

  /** A key is accepted exactly when the text is one of its four encodings and its length is
      the expected one. */
  lemma {:induction false} KeyAcceptedIffEncoding(text: string, expected: nat, key: seq<Byte>)
    ensures DecodeKey(text, expected) == Ok(key) <==> |key| == expected && IsEncodingOf(text, key)
  {
    FirstDecodedIff(text, key);
  }

  /** The two error answers, exactly: not an encoding of anything, or of the wrong length. */
  lemma {:induction false} KeyRefusals(text: string, expected: nat)
    ensures DecodeKey(text, expected) == Err(MustBeBase64) <==> forall key :: !IsEncodingOf(text, key)
    ensures forall key ::
      IsEncodingOf(text, key) && |key| != expected ==> DecodeKey(text, expected) == Err(WrongLength(expected, |key|))
  {
    forall key ensures FirstDecoded(ENGINES, text) == Some(key) <==> IsEncodingOf(text, key) {
      FirstDecodedIff(text, key);
    }
    var found := FirstDecoded(ENGINES, text);
    assert found.Some? ==> IsEncodingOf(text, found.value);
  }

  // ----- the tables and the bits, as RFC 4648 states them

  const LETTERS := "ABCDEFGHIJKLMNOPQRSTUVWXYZ"
  const SMALL_LETTERS := "abcdefghijklmnopqrstuvwxyz"
  const DIGITS := "0123456789"

  /** The alphabets, written out: tables 1 and 2. */
  function Table(a: Alphabet): string {
    LETTERS + SMALL_LETTERS + DIGITS + if a == Standard then "+/" else "-_"
  }

  lemma LettersInOrder(k: nat)
    ensures k < 26 ==> LETTERS[k] == 'A' + k as char && SMALL_LETTERS[k] == 'a' + k as char
    ensures k < 10 ==> DIGITS[k] == '0' + k as char
  {
  }

  lemma AlphabetsAsWritten(a: Alphabet, v: Sextet)
    ensures |Table(a)| == 64 && CharOf(a, v) == Table(a)[v] && ValueOf(a, Table(a)[v]) == Some(v)
  {
    LettersInOrder(if v < 26 then v else if v < 52 then v - 26 else if v < 62 then v - 52 else 0);
    ValueOfChar(a, v);
  }

  /** Digits as one number, the first digit first. */
  function Three(base: nat, x: nat, y: nat, z: nat): nat { (x * base + y) * base + z }

  lemma GroupBits(b0: Byte, b1: Byte, b2: Byte)
    ensures Three(256, b0, b1, b2) == 64 * Three(64, First(b0), Second(b0, b1), Third(b1, b2)) + Fourth(b2)
    ensures 16 * Three(256, 0, 0, b0) == Three(64, 0, First(b0), Second(b0, 0))
    ensures 4 * Three(256, 0, b0, b1) == Three(64, First(b0), Second(b0, b1), Third(b1, 0))
  {
  }

  lemma {:induction false} SextetsFrom(b: seq<Byte>, i: nat)
    requires 3 * i <= |b|
    ensures 4 * i <= |Sextets(b)| && Sextets(b)[4 * i..] == Sextets(b[3 * i..])
  {
    if i > 0 {
      SextetsFrom(b[3..], i - 1);
      assert b[3..][3 * (i - 1)..] == b[3 * i..];
      assert Sextets(b)[4..] == Sextets(b[3..]);
      assert Sextets(b)[4..][4 * (i - 1)..] == Sextets(b)[4 * i..];
    } else {
      assert b[0..] == b;
    }
  }

  lemma {:induction false} SextetsCount(b: seq<Byte>)
    ensures |Sextets(b)| == (4 * |b| + 2) / 3
  {
    if |b| > 2 {
      SextetsCount(b[3..]);
    }
  }

  /** The first group has the bits of the octets it stands for, the first bit first: three octets are one
      number of 24 bits, a lone last octet one of 8 and four zeros, two last octets one of 16 and two zeros. */
  predicate SameBits(b: seq<Byte>, s: seq<Sextet>)
    requires b != []
  {
    if |b| == 1 then |s| == 2 && 16 * Three(256, 0, 0, b[0]) == Three(64, 0, s[0], s[1])
    else if |b| == 2 then |s| == 3 && 4 * Three(256, 0, b[0], b[1]) == Three(64, s[0], s[1], s[2])
    else |s| >= 4 && Three(256, b[0], b[1], b[2]) == 64 * Three(64, s[0], s[1], s[2]) + s[3]
  }

  lemma FirstGroup(b: seq<Byte>)
    requires b != []
    ensures SameBits(b, Sextets(b))
  {
    GroupBits(b[0], if |b| > 1 then b[1] else 0, if |b| > 2 then b[2] else 0);
  }

  /** And so have all the others. */
  lemma EveryGroup(b: seq<Byte>, i: nat)
    requires 3 * i < |b|
    ensures |Sextets(b)| == (4 * |b| + 2) / 3
    ensures SameBits(b[3 * i..], Sextets(b)[4 * i..])
  {
    SextetsFrom(b, i);
    SextetsCount(b);
    FirstGroup(b[3 * i..]);
  }

  /** A padded text comes in fours, and padding stands only at its end. */
  lemma PaddedInFours(a: Alphabet, b: seq<Byte>)
    ensures |Encode(Engine(a, true), b)| == (|b| + 2) / 3 * 4
    ensures |Encode(Engine(a, false), b)| == (4 * |b| + 2) / 3
  {
    SextetsCount(b);
    var n := |Sextets(b)|;
    assert |Text(a, Sextets(b))| == n;
    PaddingFills(|b|, n);
  }

  lemma PaddingFills(octets: nat, n: nat)
    requires n == (4 * octets + 2) / 3
    ensures n + |Padding(n)| == (octets + 2) / 3 * 4
  {
    var (groups, rest) := (octets / 3, octets % 3);
    assert octets == 3 * groups + rest;
    assert n == 4 * groups + (4 * rest + 2) / 3;
  }

  const SHORT_KEY: seq<Byte> := [0x66, 0x6F, 0x6F, 0x62]

  /** Test vectors of section 10: "f", "fo" and "foob". */
  lemma Vectors()
    ensures Encode(Engine(Standard, true), SHORT_KEY[..1]) == "Zg=="
    ensures Encode(Engine(Standard, true), SHORT_KEY[..2]) == "Zm8="
    ensures Encode(Engine(Standard, true), SHORT_KEY) == "Zm9vYg=="
  {
    VectorSextets();
    assert Text(Standard, [25, 32]) == "Zg" && Text(Standard, [25, 38, 60]) == "Zm8";
    assert Text(Standard, [25, 38, 61, 47, 24, 32]) == "Zm9vYg";
  }

  lemma VectorSextets()
    ensures Sextets(SHORT_KEY[..1]) == [25, 32] && Sextets(SHORT_KEY[..2]) == [25, 38, 60]
    ensures Sextets(SHORT_KEY) == [25, 38, 61, 47, 24, 32]
  {
    assert SHORT_KEY[..1] == [0x66] && SHORT_KEY[..2] == [0x66, 0x6F] && SHORT_KEY[3..] == [0x62];
    assert Sextets([0x62]) == [24, 32];
  }
}
