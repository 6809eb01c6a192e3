/** Standard padded base64 (sections 3.5 and 4 of RFC 4648). */
module Base64 {
  import opened Bytes
  import Arith

  type sextet = v: int | 0 <= v < 64

  /** Table 1 of RFC 4648. */
  function CharOf(v: sextet): (c: char) {
    if v < 26 then 'A' + v as char
    else if v < 52 then 'a' + (v - 26) as char
    else if v < 62 then '0' + (v - 52) as char
    else if v == 62 then '+'
    else '/'
  }

  function ValueOf(c: char): (v: Option<sextet>) {
    if 'A' <= c <= 'Z' then Some((c - 'A') as int)
    else if 'a' <= c <= 'z' then Some((c - 'a') as int + 26)
    else if '0' <= c <= '9' then Some((c - '0') as int + 52)
    else if c == '+' then Some(62)
    else if c == '/' then Some(63)
    else None
  }

  lemma CharOfValue(c: char)
    ensures ValueOf(c).Some? ==> CharOf(ValueOf(c).value) == c
  {
  }

  lemma ValueOfChar(v: sextet)
    ensures ValueOf(CharOf(v)) == Some(v) && CharOf(v) != '='
  {
  }

  // ----- One block -----

  function Sextets(a: byte, b: byte, c: byte): (sextet, sextet, sextet, sextet) {
    (a / 4, a % 4 * 16 + b / 16, b % 16 * 4 + c / 64, c % 64)
  }

  function Octets(p: sextet, q: sextet, r: sextet, s: sextet): (byte, byte, byte) {
    (p * 4 + q / 16, q % 16 * 16 + r / 4, r % 4 * 64 + s)
  }

  lemma Digits(x: nat, y: nat, m: nat)
    requires m == 4 || m == 16 || m == 64
    requires y < m
    ensures (x * m + y) / m == x && (x * m + y) % m == y
  {
  }

  lemma OctetsOfSextets(a: byte, b: byte, c: byte)
    ensures var (p, q, r, s) := Sextets(a, b, c); Octets(p, q, r, s) == (a, b, c)
    ensures c == 0 ==> Sextets(a, b, c).3 == 0
    ensures b == 0 && c == 0 ==> Sextets(a, b, c).2 == 0
  {
    Digits(a % 4, b / 16, 16);
    Digits(b % 16, c / 64, 4);
  }

  lemma SextetsOfOctets(p: sextet, q: sextet, r: sextet, s: sextet)
    ensures var (a, b, c) := Octets(p, q, r, s); Sextets(a, b, c) == (p, q, r, s)
    ensures Octets(p, q, r, s).2 == 0 <==> r % 4 == 0 && s == 0
    ensures Octets(p, q, r, s).1 == 0 <==> q % 16 == 0 && r / 4 == 0
  {
    Digits(p, q / 16, 4);
    Digits(q % 16, r / 4, 16);
    Digits(r % 4, s, 64);
  }

  // ----- Strings -----

  function EncodedBlock(a: byte, b: byte, c: byte): (s: string)
    ensures |s| == 4
  {
    var (p, q, r, t) := Sextets(a, b, c);
    [CharOf(p), CharOf(q), CharOf(r), CharOf(t)]
  }

  /** The last one or two bytes, padded. */
  function EncodedTail(tail: seq<byte>): (s: string)
    requires |tail| == 1 || |tail| == 2
    ensures |s| == 4
  {
    if |tail| == 1 then EncodedBlock(tail[0], 0, 0)[..2] + "=="
    else EncodedBlock(tail[0], tail[1], 0)[..3] + "="
  }

  function Encoded(bytes: seq<byte>): string {
    if bytes == [] then ""
    else if |bytes| < 3 then EncodedTail(bytes)
    else EncodedBlock(bytes[0], bytes[1], bytes[2]) + Encoded(bytes[3..])
  }

  function DecodedBlock(s: string): (r: Option<seq<byte>>)
    requires |s| == 4
    ensures r.Some? ==> |r.value| == 3
  {
    match (ValueOf(s[0]), ValueOf(s[1]), ValueOf(s[2]), ValueOf(s[3]))
    case (Some(p), Some(q), Some(r), Some(t)) => var (a, b, c) := Octets(p, q, r, t); Some([a, b, c])
    case _ => None
  }

  /** The last block may be padded, and then the bits that are not used must be zero. */
  function DecodedLast(s: string): (r: Option<seq<byte>>)
    requires |s| == 4
    ensures r.Some? ==> |r.value| <= 3
  {
    if s[3] != '=' then DecodedBlock(s)
    else if s[2] != '=' then
      match (ValueOf(s[0]), ValueOf(s[1]), ValueOf(s[2]))
      case (Some(p), Some(q), Some(r)) =>
        if r % 4 != 0 then None else var (a, b, _) := Octets(p, q, r, 0); Some([a, b])
      case _ => None
    else
      match (ValueOf(s[0]), ValueOf(s[1]))
      case (Some(p), Some(q)) =>
        if q % 16 != 0 then None else var (a, _, _) := Octets(p, q, 0, 0); Some([a])
      case _ => None
  }

  function Decoded(s: string): Option<seq<byte>> {
    if s == "" then Some([])
    else if |s| < 4 then None
    else if |s| == 4 then DecodedLast(s)
    else
      match (DecodedBlock(s[..4]), Decoded(s[4..]))
      case (Some(block), Some(rest)) => Some(block + rest)
      case _ => None
  }

  // ----- The two directions -----

  lemma BlockRoundTrip(a: byte, b: byte, c: byte)
    ensures DecodedBlock(EncodedBlock(a, b, c)) == Some([a, b, c])
    ensures DecodedLast(EncodedBlock(a, b, c)) == Some([a, b, c])
  {
    var (p, q, r, t) := Sextets(a, b, c);
    ValueOfChar(p);
    ValueOfChar(q);
    ValueOfChar(r);
    ValueOfChar(t);
    OctetsOfSextets(a, b, c);
  }

  lemma TailRoundTrip(tail: seq<byte>)
    requires |tail| == 1 || |tail| == 2
    ensures DecodedLast(EncodedTail(tail)) == Some(tail)
  {
    if |tail| == 1 {
      var (p, q, r, t) := Sextets(tail[0], 0, 0);
      ValueOfChar(p);
      ValueOfChar(q);
      OctetsOfSextets(tail[0], 0, 0);
      assert EncodedTail(tail) == [CharOf(p), CharOf(q), '=', '='];
      assert q % 16 == 0 && Octets(p, q, 0, 0) == (tail[0], 0, 0);
      assert tail == [tail[0]];
    } else {
      var (p, q, r, t) := Sextets(tail[0], tail[1], 0);
      ValueOfChar(p);
      ValueOfChar(q);
      ValueOfChar(r);
      OctetsOfSextets(tail[0], tail[1], 0);
      assert EncodedTail(tail) == [CharOf(p), CharOf(q), CharOf(r), '='];
      assert r % 4 == 0 && Octets(p, q, r, 0) == (tail[0], tail[1], 0);
      assert tail == [tail[0], tail[1]];
    }
  }

  lemma BlockReencodes(s: string)
    requires |s| == 4 && DecodedBlock(s).Some?
    ensures var b := DecodedBlock(s).value; EncodedBlock(b[0], b[1], b[2]) == s
  {
    CharOfValue(s[0]);
    CharOfValue(s[1]);
    CharOfValue(s[2]);
    CharOfValue(s[3]);
    SextetsOfOctets(ValueOf(s[0]).value, ValueOf(s[1]).value, ValueOf(s[2]).value, ValueOf(s[3]).value);
  }

  lemma LastReencodes(s: string)
    requires |s| == 4 && DecodedLast(s).Some?
    ensures Encoded(DecodedLast(s).value) == s
  {
    CharOfValue(s[0]);
    CharOfValue(s[1]);
    if s[3] != '=' {
      BlockReencodes(s);
    } else if s[2] != '=' {
      CharOfValue(s[2]);
      SextetsOfOctets(ValueOf(s[0]).value, ValueOf(s[1]).value, ValueOf(s[2]).value, 0);
    } else {
      SextetsOfOctets(ValueOf(s[0]).value, ValueOf(s[1]).value, 0, 0);
    }
  }

  /** Every encoding has 4 characters per 3 bytes begun. */
  lemma {:induction false} EncodedLength(bytes: seq<byte>)
    ensures |Encoded(bytes)| == 4 * ((|bytes| + 2) / 3)
  {
    if |bytes| >= 3 {
      EncodedLength(bytes[3..]);
      assert (|bytes| + 2) / 3 == (|bytes| - 3 + 2) / 3 + 1;
    }
  }

  /** Decoding inverts encoding. */
  lemma {:induction false} DecodedOfEncoded(bytes: seq<byte>)
    ensures Decoded(Encoded(bytes)) == Some(bytes)
  {
    hide Sextets, Octets;
    if bytes == [] {
    } else if |bytes| < 3 {
      TailRoundTrip(bytes);
    } else {
      DecodedOfEncoded(bytes[3..]);
      BlockThenRest(bytes[0], bytes[1], bytes[2], Encoded(bytes[3..]));
      assert bytes == [bytes[0], bytes[1], bytes[2]] + bytes[3..];
    }
  }

  lemma BlockThenRest(a: byte, b: byte, c: byte, rest: string)
    requires Decoded(rest).Some?
    ensures Decoded(EncodedBlock(a, b, c) + rest) == Some([a, b, c] + Decoded(rest).value)
  {
    var s := EncodedBlock(a, b, c) + rest;
    BlockRoundTrip(a, b, c);
    assert s[..4] == EncodedBlock(a, b, c) && s[4..] == rest;
    if rest == "" {
      assert s == EncodedBlock(a, b, c);
      assert [a, b, c] + [] == [a, b, c];
    }
  }

  /** The decoder accepts only canonical strings. */
  lemma {:induction false} EncodedOfDecoded(s: string)
    requires Decoded(s).Some?
    ensures Encoded(Decoded(s).value) == s
  {
    if |s| == 4 {
      LastReencodes(s);
    } else if |s| > 4 {
      BlockReencodes(s[..4]);
      EncodedOfDecoded(s[4..]);
      var block, rest := DecodedBlock(s[..4]).value, Decoded(s[4..]).value;
      assert Decoded(s).value[3..] == rest;
      assert s == s[..4] + s[4..];
    }
  }

  /** Decoding succeeds with `bytes` exactly on the one encoding of `bytes`. */
  lemma DecodedIff(s: string, bytes: seq<byte>)
    ensures Decoded(s) == Some(bytes) <==> s == Encoded(bytes)
  {
    DecodedOfEncoded(bytes);
    if Decoded(s).Some? {
      EncodedOfDecoded(s);
    }
  }

  // ----- The alphabet and the groups, as RFC 4648 writes them -----

  const ALPHABET: string := "ABCDEFGHIJKLMNOPQRSTUVWXYZ" + "abcdefghijklmnopqrstuvwxyz" + "0123456789" + "+/"

  lemma Letters(i: nat)
    requires i < 26
    ensures "ABCDEFGHIJKLMNOPQRSTUVWXYZ"[i] == 'A' + i as char && "abcdefghijklmnopqrstuvwxyz"[i] == 'a' + i as char
  {
  }

  lemma Numerals(i: nat)
    requires i < 10
    ensures "0123456789"[i] == '0' + i as char
  {
  }

  /** The character for a value is the one at that place of the alphabet. */
  lemma AlphabetIs(v: sextet)
    ensures |ALPHABET| == 64 && CharOf(v) == ALPHABET[v]
  {
    if v < 26 {
      Letters(v);
    } else if v < 52 {
      Letters(v - 26);
    } else if v < 62 {
      Numerals(v - 52);
    }
  }

  /** The four digits of a number of 24 bits to base 64, as characters. */
  function Group(n: nat): (s: string)
    requires n < 0x100_0000
    ensures |s| == 4
  {
    AlphabetIs(0);
    [ALPHABET[n / 0x4_0000], ALPHABET[n / 0x1000 % 64], ALPHABET[n / 64 % 64], ALPHABET[n % 64]]
  }

  /** Three bytes as a number, the first most significant. */
  function Number(a: byte, b: byte, c: byte): (n: nat)
    ensures n < 0x100_0000
  {
    a as int * 0x1_0000 + b as int * 0x100 + c as int
  }

  lemma GroupOfBlock(a: byte, b: byte, c: byte)
    ensures EncodedBlock(a, b, c) == Group(Number(a, b, c))
  {
    hide Sextets, CharOf;
    var (p, q, r, t) := Sextets(a, b, c);
    GroupDigits(a, b, c);
    AlphabetIs(p);
    AlphabetIs(q);
    AlphabetIs(r);
    AlphabetIs(t);
  }

  lemma GroupDigits(a: byte, b: byte, c: byte)
    ensures var n := a as int * 0x1_0000 + b as int * 0x100 + c as int;
            Sextets(a, b, c) == (n / 0x4_0000, n / 0x1000 % 64, n / 64 % 64, n % 64)
  {
    var n := a as int * 0x1_0000 + b as int * 0x100 + c as int;
    var (p, q, r, t) := Sextets(a, b, c);
    assert n == p * 0x4_0000 + q * 0x1000 + r * 64 + t;
    DigitsOf(n, p, q, r, t);
  }

  lemma DigitsOf(n: nat, p: sextet, q: sextet, r: sextet, t: sextet)
    requires n == p * 0x4_0000 + q * 0x1000 + r * 64 + t
    ensures p == n / 0x4_0000 && q == n / 0x1000 % 64 && r == n / 64 % 64 && t == n % 64
  {
    Arith.ModUnique(n, 0x4_0000, p, q * 0x1000 + r * 64 + t);
    Arith.ModUnique(n, 0x1000, p * 64 + q, r * 64 + t);
    Arith.ModUnique(n, 64, p * 0x1000 + q * 64 + r, t);
    Arith.ModUnique(p * 64 + q, 64, p, q);
    Arith.ModUnique(p * 0x1000 + q * 64 + r, 64, p * 64 + q, r);
  }

  lemma {:induction false} EncodedGroup(bytes: seq<byte>, i: nat)
    requires 3 * i + 3 <= |bytes|
    ensures |Encoded(bytes)| >= 4 * i + 4
    ensures Encoded(bytes)[4 * i..4 * i + 4] == Group(Number(bytes[3 * i], bytes[3 * i + 1], bytes[3 * i + 2]))
  {
    hide EncodedBlock, Group;
    var block := EncodedBlock(bytes[0], bytes[1], bytes[2]);
    assert Encoded(bytes) == block + Encoded(bytes[3..]);
    if i == 0 {
      GroupOfBlock(bytes[0], bytes[1], bytes[2]);
      assert Encoded(bytes)[..4] == block;
    } else {
      EncodedGroup(bytes[3..], i - 1);
      assert (block + Encoded(bytes[3..]))[4 * i..4 * i + 4] == Encoded(bytes[3..])[4 * (i - 1)..4 * (i - 1) + 4];
    }
  }

  /** Encoding as section 4 of RFC 4648 describes it: every three bytes are a group, and one or
      two bytes left over are a group with zero bits on the right, padded. */
  lemma {:induction false} EncodedIs(bytes: seq<byte>)
    ensures |Encoded(bytes)| == 4 * ((|bytes| + 2) / 3)
    ensures forall i | 0 <= i && 3 * i + 3 <= |bytes| ::
              Encoded(bytes)[4 * i..4 * i + 4] == Group(Number(bytes[3 * i], bytes[3 * i + 1], bytes[3 * i + 2]))
    ensures var s, n := Encoded(bytes), |bytes|;
            && (n % 3 == 1 ==> s[|s| - 4..] == Group(Number(bytes[n - 1], 0, 0))[..2] + "==")
            && (n % 3 == 2 ==> s[|s| - 4..] == Group(Number(bytes[n - 2], bytes[n - 1], 0))[..3] + "=")
  {
    hide Encoded, Group;
    EncodedLength(bytes);
    forall i | 0 <= i && 3 * i + 3 <= |bytes|
      ensures Encoded(bytes)[4 * i..4 * i + 4] == Group(Number(bytes[3 * i], bytes[3 * i + 1], bytes[3 * i + 2])) {
      EncodedGroup(bytes, i);
    }
    EncodedRest(bytes);
  }

  lemma LastFour(bytes: seq<byte>)
    requires |bytes| >= 3 && |bytes| % 3 != 0
    ensures |Encoded(bytes[3..])| >= 4 && |Encoded(bytes)| == 4 + |Encoded(bytes[3..])|
    ensures Encoded(bytes)[|Encoded(bytes)| - 4..] == Encoded(bytes[3..])[|Encoded(bytes[3..])| - 4..]
  {
    hide EncodedBlock;
    EncodedLength(bytes[3..]);
    assert Encoded(bytes) == EncodedBlock(bytes[0], bytes[1], bytes[2]) + Encoded(bytes[3..]);
  }

  /** What `s` ends in when it encodes `bytes`. */
  ghost predicate EndsPadded(bytes: seq<byte>, s: string) {
    var n := |bytes|;
    && (n % 3 != 0 ==> |s| >= 4)
    && (n % 3 == 1 ==> s[|s| - 4..] == Group(Number(bytes[n - 1], 0, 0))[..2] + "==")
    && (n % 3 == 2 ==> s[|s| - 4..] == Group(Number(bytes[n - 2], bytes[n - 1], 0))[..3] + "=")
  }

  lemma EndOfOne(b: byte)
    ensures EndsPadded([b], Encoded([b]))
  {
    hide EncodedBlock, Group, Number;
    GroupOfBlock(b, 0, 0);
    assert Encoded([b]) == EncodedBlock(b, 0, 0)[..2] + "==";
  }

  lemma EndOfTwo(a: byte, b: byte)
    ensures EndsPadded([a, b], Encoded([a, b]))
  {
    hide EncodedBlock, Group, Number;
    GroupOfBlock(a, b, 0);
    assert Encoded([a, b]) == EncodedBlock(a, b, 0)[..3] + "=";
  }

  lemma EndOfLonger(bytes: seq<byte>)
    requires |bytes| >= 3 && EndsPadded(bytes[3..], Encoded(bytes[3..]))
    ensures EndsPadded(bytes, Encoded(bytes))
  {
    hide Encoded, Group, Number, EncodedBlock;
    var n, rest := |bytes|, bytes[3..];
    assert |rest| == n - 3 && (n - 3) % 3 == n % 3;
    if n % 3 == 1 {
      LastFour(bytes);
      assert rest[n - 4] == bytes[n - 1];
    } else if n % 3 == 2 {
      LastFour(bytes);
      assert rest[n - 5] == bytes[n - 2] && rest[n - 4] == bytes[n - 1];
    }
  }

  lemma {:induction false} EncodedRest(bytes: seq<byte>)
    ensures EndsPadded(bytes, Encoded(bytes))
  {
    hide Encoded;
    if bytes == [] {
    } else if |bytes| == 1 {
      EndOfOne(bytes[0]);
      assert bytes == [bytes[0]];
    } else if |bytes| == 2 {
      EndOfTwo(bytes[0], bytes[1]);
      assert bytes == [bytes[0], bytes[1]];
    } else {
      EncodedRest(bytes[3..]);
      EndOfLonger(bytes);
    }
  }

  lemma KnownBlocks()
    ensures EncodedBlock(0x66, 0x6f, 0x6f) == "Zm9v" && EncodedBlock(0x62, 0x61, 0x72) == "YmFy"
    ensures EncodedBlock(0xfb, 0xff, 0) == "+/8A" &&
            EncodedBlock(0x66, 0, 0) == "ZgAA" && EncodedBlock(0x66, 0x6f, 0) == "Zm8A"
  {
  }

  /** Test vectors of section 10 of RFC 4648, and the last two characters of the alphabet. */
  lemma KnownAnswers()
    ensures Encoded([0x66]) == "Zg==" && Encoded([0x66, 0x6f]) == "Zm8="
    ensures Encoded([0x66, 0x6f, 0x6f]) == "Zm9v"
    ensures Encoded([0x66, 0x6f, 0x6f, 0x62, 0x61, 0x72]) == "Zm9vYmFy"
    ensures Encoded([0xfb, 0xff]) == "+/8="
  {
    hide EncodedBlock;
    KnownBlocks();
    assert [0x66, 0x6f, 0x6f][3..] == [];
    assert [0x66, 0x6f, 0x6f, 0x62, 0x61, 0x72][3..] == [0x62, 0x61, 0x72];
    assert [0x62, 0x61, 0x72][3..] == [];
  }

  // ----- The loops -----

  method WriteFour(out: array<char>, at: nat, s: string)
    requires |s| == 4 && at + 4 <= out.Length
    modifies out
    ensures out[..at + 4] == old(out[..at]) + s
  {
    out[at], out[at + 1], out[at + 2], out[at + 3] := s[0], s[1], s[2], s[3];
    assert out[..at + 4] == out[..at] + out[at..at + 4];
  }

  lemma EncodedStep(done: string, bytes: seq<byte>, whole: string)
    requires |bytes| >= 3 && done + Encoded(bytes) == whole
    ensures done + EncodedBlock(bytes[0], bytes[1], bytes[2]) + Encoded(bytes[3..]) == whole
  {
    var block := EncodedBlock(bytes[0], bytes[1], bytes[2]);
    assert (done + block) + Encoded(bytes[3..]) == done + (block + Encoded(bytes[3..]));
  }

  lemma EncodedEnd(tail: seq<byte>)
    requires |tail| < 3
    ensures Encoded(tail) == if tail == [] then "" else EncodedTail(tail)
  {
  }

  method B64Encode(bytes: seq<byte>) returns (s: string)
    ensures s == Encoded(bytes)
  {
    hide Encoded, EncodedBlock, EncodedTail;
    var n := |bytes|;
    var out := new char[4 * ((n + 2) / 3)];
    var i := 0;
    assert bytes[3 * 0..] == bytes;
    while i < n / 3
      invariant i <= n / 3
      invariant out[..4 * i] + Encoded(bytes[3 * i..]) == Encoded(bytes)
    {
      ghost var rest := bytes[3 * i..];
      EncodedStep(out[..4 * i], rest, Encoded(bytes));
      WriteFour(out, 4 * i, EncodedBlock(bytes[3 * i], bytes[3 * i + 1], bytes[3 * i + 2]));
      assert rest[3..] == bytes[3 * (i + 1)..];
      i := i + 1;
    }
    var tail := bytes[3 * i..];
    EncodedEnd(tail);
    if tail != [] {
      WriteFour(out, 4 * i, EncodedTail(tail));
      i := i + 1;
    }
    s := out[..];
    assert out[..] == out[..4 * i];
  }

  /** What is left to decode decides the outcome. */
  predicate DecodedSoFar(s: string, k: nat, done: seq<byte>)
    requires 4 * k <= |s|
  {
    match Decoded(s[4 * k..])
    case Some(rest) => Decoded(s) == Some(done + rest)
    case None => Decoded(s) == None
  }

  /** One more block: a bad one ends it, a good one is appended. */
  lemma SoFarStep(s: string, k: nat, done: seq<byte>)
    requires 4 * k + 4 < |s| && DecodedSoFar(s, k, done)
    ensures match DecodedBlock(s[4 * k..4 * k + 4])
            case None => Decoded(s) == None
            case Some(block) => DecodedSoFar(s, k + 1, done + block)
  {
    var rest := s[4 * k..];
    assert s[4 * k..4 * k + 4] == rest[..4] && rest[4..] == s[4 * (k + 1)..];
    var block, more := DecodedBlock(rest[..4]), Decoded(rest[4..]);
    if block.Some? && more.Some? {
      assert done + (block.value + more.value) == (done + block.value) + more.value;
    }
  }

  lemma SoFarLast(s: string, k: nat, done: seq<byte>)
    requires 4 * k < |s| <= 4 * k + 4 && DecodedSoFar(s, k, done)
    ensures Decoded(s) == if |s| != 4 * k + 4 then None
                          else match DecodedLast(s[4 * k..])
                               case None => None
                               case Some(last) => Some(done + last)
  {
  }

  method B64Decode(s: string) returns (r: Result<seq<byte>>)
    ensures r == match Decoded(s) case Some(bytes) => Ok(bytes) case None => Err(InvalidInput)
  {
    hide DecodedBlock, DecodedLast;
    if s == "" {
      return Ok([]);
    }
    var blocks := (|s| - 1) / 4;   // all but the last
    var out := new byte[3 * blocks];
    var i := 0;
    assert s[4 * 0..] == s;
    if Decoded(s).Some? {
      assert [] + Decoded(s).value == Decoded(s).value;
    }
    while i < blocks
      invariant i <= blocks
      invariant DecodedSoFar(s, i, out[..3 * i])
    {
      ghost var before := out[..3 * i];
      SoFarStep(s, i, before);
      var block := DecodedBlock(s[4 * i..4 * i + 4]);
      if block.None? {
        return Err(InvalidInput);
      }
      out[3 * i], out[3 * i + 1], out[3 * i + 2] := block.value[0], block.value[1], block.value[2];
      assert out[..3 * (i + 1)] == before + block.value;
      i := i + 1;
    }
    SoFarLast(s, blocks, out[..3 * blocks]);
    if |s| != 4 * blocks + 4 {
      return Err(InvalidInput);
    }
    var last := DecodedLast(s[4 * blocks..]);
    if last.None? {
      return Err(InvalidInput);
    }
    assert out[..] == out[..3 * blocks];
    return Ok(out[..] + last.value);
  }

  method B64DecodeArray(s: string, n: nat) returns (r: Result<seq<byte>>)
    ensures r == match Decoded(s)
                 case Some(bytes) => if |bytes| == n then Ok(bytes) else Err(InvalidInput)
                 case None => Err(InvalidInput)
  {
    var bytes := B64Decode(s);
    if bytes.Err? {
      return Err(bytes.error);
    }
    if |bytes.value| != n {
      return Err(InvalidInput);
    }
    var arr := new byte[n](_ => 0);
    forall i | 0 <= i < n { arr[i] := bytes.value[i]; }
    assert arr[..] == bytes.value;
    return Ok(arr[..]);
  }
}
