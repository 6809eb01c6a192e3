/** The encodings of small-order points, byte by byte, and that exactly these are refused. */
module SmallOrder {
  import opened Bytes
  import opened Symbolic
  import opened Keypair
  import Arith
  import BigEndian
  import NumberTheory
  import X25519Check

  // The table of tests/attacks.rs.

  const ZERO: seq<byte> :=
    [0x00, 0x00, 0x00, 0x00, 0x00, 0x00, 0x00, 0x00] + [0x00, 0x00, 0x00, 0x00, 0x00, 0x00, 0x00, 0x00] +
    [0x00, 0x00, 0x00, 0x00, 0x00, 0x00, 0x00, 0x00] + [0x00, 0x00, 0x00, 0x00, 0x00, 0x00, 0x00, 0x00]
  const ONE: seq<byte> :=
    [0x01, 0x00, 0x00, 0x00, 0x00, 0x00, 0x00, 0x00] + [0x00, 0x00, 0x00, 0x00, 0x00, 0x00, 0x00, 0x00] +
    [0x00, 0x00, 0x00, 0x00, 0x00, 0x00, 0x00, 0x00] + [0x00, 0x00, 0x00, 0x00, 0x00, 0x00, 0x00, 0x00]
  const ORDER_EIGHT: seq<byte> :=
    [0xe0, 0xeb, 0x7a, 0x7c, 0x3b, 0x41, 0xb8, 0xae] + [0x16, 0x56, 0xe3, 0xfa, 0xf1, 0x9f, 0xc4, 0x6a] +
    [0xda, 0x09, 0x8d, 0xeb, 0x9c, 0x32, 0xb1, 0xfd] + [0x86, 0x62, 0x05, 0x16, 0x5f, 0x49, 0xb8, 0x00]
  const OTHER_ORDER_EIGHT: seq<byte> :=
    [0x5f, 0x9c, 0x95, 0xbc, 0xa3, 0x50, 0x8c, 0x24] + [0xb1, 0xd0, 0xb1, 0x55, 0x9c, 0x83, 0xef, 0x5b] +
    [0x04, 0x44, 0x5c, 0xc4, 0x58, 0x1c, 0x8e, 0x86] + [0xd8, 0x22, 0x4e, 0xdd, 0xd0, 0x9f, 0x11, 0x57]
  const MINUS_ONE: seq<byte> :=
    [0xec, 0xff, 0xff, 0xff, 0xff, 0xff, 0xff, 0xff] + [0xff, 0xff, 0xff, 0xff, 0xff, 0xff, 0xff, 0xff] +
    [0xff, 0xff, 0xff, 0xff, 0xff, 0xff, 0xff, 0xff] + [0xff, 0xff, 0xff, 0xff, 0xff, 0xff, 0xff, 0x7f]
  const PRIME: seq<byte> :=
    [0xed, 0xff, 0xff, 0xff, 0xff, 0xff, 0xff, 0xff] + [0xff, 0xff, 0xff, 0xff, 0xff, 0xff, 0xff, 0xff] +
    [0xff, 0xff, 0xff, 0xff, 0xff, 0xff, 0xff, 0xff] + [0xff, 0xff, 0xff, 0xff, 0xff, 0xff, 0xff, 0x7f]
  const PRIME_PLUS_ONE: seq<byte> :=
    [0xee, 0xff, 0xff, 0xff, 0xff, 0xff, 0xff, 0xff] + [0xff, 0xff, 0xff, 0xff, 0xff, 0xff, 0xff, 0xff] +
    [0xff, 0xff, 0xff, 0xff, 0xff, 0xff, 0xff, 0xff] + [0xff, 0xff, 0xff, 0xff, 0xff, 0xff, 0xff, 0x7f]

  const SMALL_ORDER_POINTS: set<seq<byte>> :=
    { ZERO, ONE, ORDER_EIGHT, OTHER_ORDER_EIGHT, MINUS_ONE, PRIME, PRIME_PLUS_ONE }

  // ----- Their values -----

  lemma FirstByte(s: seq<byte>)
    requires s != []
    ensures LittleEndian(s) == s[0] + 0x100 * LittleEndian(s[1..])
  {
  }

  lemma FourBytes(a: byte, b: byte, c: byte, d: byte, rest: seq<byte>)
    ensures LittleEndian([a, b, c, d] + rest) ==
            a + 0x100 * (b as int) + 0x1_0000 * (c as int) + 0x100_0000 * (d as int) +
            0x1_0000_0000 * LittleEndian(rest)
  {
    FirstByte([d] + rest);
    assert ([d] + rest)[1..] == rest;
    FirstByte([c, d] + rest);
    assert ([c, d] + rest)[1..] == [d] + rest;
    FirstByte([b, c, d] + rest);
    assert ([b, c, d] + rest)[1..] == [c, d] + rest;
    FirstByte([a, b, c, d] + rest);
    assert ([a, b, c, d] + rest)[1..] == [b, c, d] + rest;
  }

  lemma EightBytes(a: byte, b: byte, c: byte, d: byte, e: byte, f: byte, g: byte, h: byte)
    ensures LittleEndian([a, b, c, d, e, f, g, h]) ==
            a + 0x100 * (b as int) + 0x1_0000 * (c as int) + 0x100_0000 * (d as int) +
            0x1_0000_0000 * (e + 0x100 * (f as int) + 0x1_0000 * (g as int) + 0x100_0000 * (h as int))
  {
    FourBytes(a, b, c, d, [e, f, g, h]);
    FourBytes(e, f, g, h, []);
    assert [e, f, g, h] + [] == [e, f, g, h];
    assert [a, b, c, d] + [e, f, g, h] == [a, b, c, d, e, f, g, h];
  }

  lemma {:induction false} Joined(s: seq<byte>, t: seq<byte>)
    ensures LittleEndian(s + t) == LittleEndian(s) + BigEndian.Power256(|s|) * LittleEndian(t)
  {
    if s == [] {
      assert s + t == t;
    } else {
      Joined(s[1..], t);
      assert (s + t)[1..] == s[1..] + t;
      Arith.Distribute(256, LittleEndian(s[1..]), BigEndian.Power256(|s| - 1) * LittleEndian(t));
      NumberTheory.MulAssociative(256, BigEndian.Power256(|s| - 1), LittleEndian(t));
    }
  }

  const TWO_TO_64 := 0x1_0000_0000_0000_0000

  lemma TwoParts(a: seq<byte>, b: seq<byte>)
    requires |a| == 8
    ensures LittleEndian(a + b) == LittleEndian(a) + TWO_TO_64 * LittleEndian(b)
  {
    BigEndian.SmallPowers();
    X25519Check.Power256Add(4, 4);
    Joined(a, b);
  }

  lemma FourParts(a: seq<byte>, b: seq<byte>, c: seq<byte>, d: seq<byte>, u: nat, v: nat, w: nat, x: nat)
    requires |a| == |b| == |c| == |d| == 8
    requires LittleEndian(a) == u && LittleEndian(b) == v && LittleEndian(c) == w && LittleEndian(d) == x
    ensures LittleEndian(a + b + c + d) == u + TWO_TO_64 * (v + TWO_TO_64 * (w + TWO_TO_64 * x))
  {
    TwoParts(c, d);
    TwoParts(b, c + d);
    TwoParts(a, b + (c + d));
    assert a + b + c + d == a + (b + (c + d));
  }

  lemma ValueZero()
    ensures |ZERO| == 32
    ensures LittleEndian(ZERO) == 0x0
  {
    hide LittleEndian;
    EightBytes(0x00, 0x00, 0x00, 0x00, 0x00, 0x00, 0x00, 0x00);
    FourParts([0x00, 0x00, 0x00, 0x00, 0x00, 0x00, 0x00, 0x00], [0x00, 0x00, 0x00, 0x00, 0x00, 0x00, 0x00, 0x00],
              [0x00, 0x00, 0x00, 0x00, 0x00, 0x00, 0x00, 0x00], [0x00, 0x00, 0x00, 0x00, 0x00, 0x00, 0x00, 0x00],
              0x0, 0x0, 0x0, 0x0);
  }

  lemma ValueOne()
    ensures |ONE| == 32
    ensures LittleEndian(ONE) == 0x1
  {
    hide LittleEndian;
    EightBytes(0x01, 0x00, 0x00, 0x00, 0x00, 0x00, 0x00, 0x00);
    EightBytes(0x00, 0x00, 0x00, 0x00, 0x00, 0x00, 0x00, 0x00);
    FourParts([0x01, 0x00, 0x00, 0x00, 0x00, 0x00, 0x00, 0x00], [0x00, 0x00, 0x00, 0x00, 0x00, 0x00, 0x00, 0x00],
              [0x00, 0x00, 0x00, 0x00, 0x00, 0x00, 0x00, 0x00], [0x00, 0x00, 0x00, 0x00, 0x00, 0x00, 0x00, 0x00],
              0x1, 0x0, 0x0, 0x0);
  }

  lemma ValueOrderEight()
    ensures |ORDER_EIGHT| == 32
    ensures LittleEndian(ORDER_EIGHT) == 0xb8495f16056286fdb1329ceb8d09da6ac49ff1fae35616aeb8413b7c7aebe0
  {
    hide LittleEndian;
    EightBytes(0xe0, 0xeb, 0x7a, 0x7c, 0x3b, 0x41, 0xb8, 0xae);
    EightBytes(0x16, 0x56, 0xe3, 0xfa, 0xf1, 0x9f, 0xc4, 0x6a);
    EightBytes(0xda, 0x09, 0x8d, 0xeb, 0x9c, 0x32, 0xb1, 0xfd);
    EightBytes(0x86, 0x62, 0x05, 0x16, 0x5f, 0x49, 0xb8, 0x00);
    FourParts([0xe0, 0xeb, 0x7a, 0x7c, 0x3b, 0x41, 0xb8, 0xae], [0x16, 0x56, 0xe3, 0xfa, 0xf1, 0x9f, 0xc4, 0x6a],
              [0xda, 0x09, 0x8d, 0xeb, 0x9c, 0x32, 0xb1, 0xfd], [0x86, 0x62, 0x05, 0x16, 0x5f, 0x49, 0xb8, 0x00],
              0xaeb8413b7c7aebe0, 0x6ac49ff1fae35616, 0xfdb1329ceb8d09da, 0xb8495f16056286);
  }

  lemma ValueOtherOrderEight()
    ensures |OTHER_ORDER_EIGHT| == 32
    ensures LittleEndian(OTHER_ORDER_EIGHT) == 0x57119fd0dd4e22d8868e1c58c45c44045bef839c55b1d0b1248c50a3bc959c5f
  {
    hide LittleEndian;
    EightBytes(0x5f, 0x9c, 0x95, 0xbc, 0xa3, 0x50, 0x8c, 0x24);
    EightBytes(0xb1, 0xd0, 0xb1, 0x55, 0x9c, 0x83, 0xef, 0x5b);
    EightBytes(0x04, 0x44, 0x5c, 0xc4, 0x58, 0x1c, 0x8e, 0x86);
    EightBytes(0xd8, 0x22, 0x4e, 0xdd, 0xd0, 0x9f, 0x11, 0x57);
    FourParts([0x5f, 0x9c, 0x95, 0xbc, 0xa3, 0x50, 0x8c, 0x24], [0xb1, 0xd0, 0xb1, 0x55, 0x9c, 0x83, 0xef, 0x5b],
              [0x04, 0x44, 0x5c, 0xc4, 0x58, 0x1c, 0x8e, 0x86], [0xd8, 0x22, 0x4e, 0xdd, 0xd0, 0x9f, 0x11, 0x57],
              0x248c50a3bc959c5f, 0x5bef839c55b1d0b1, 0x868e1c58c45c4404, 0x57119fd0dd4e22d8);
  }

  lemma ValueMinusOne()
    ensures |MINUS_ONE| == 32
    ensures LittleEndian(MINUS_ONE) == 0x7fffffffffffffffffffffffffffffffffffffffffffffffffffffffffffffec
  {
    hide LittleEndian;
    EightBytes(0xec, 0xff, 0xff, 0xff, 0xff, 0xff, 0xff, 0xff);
    EightBytes(0xff, 0xff, 0xff, 0xff, 0xff, 0xff, 0xff, 0xff);
    EightBytes(0xff, 0xff, 0xff, 0xff, 0xff, 0xff, 0xff, 0x7f);
    FourParts([0xec, 0xff, 0xff, 0xff, 0xff, 0xff, 0xff, 0xff], [0xff, 0xff, 0xff, 0xff, 0xff, 0xff, 0xff, 0xff],
              [0xff, 0xff, 0xff, 0xff, 0xff, 0xff, 0xff, 0xff], [0xff, 0xff, 0xff, 0xff, 0xff, 0xff, 0xff, 0x7f],
              0xffffffffffffffec, 0xffffffffffffffff, 0xffffffffffffffff, 0x7fffffffffffffff);
  }

  lemma ValuePrime()
    ensures |PRIME| == 32
    ensures LittleEndian(PRIME) == 0x7fffffffffffffffffffffffffffffffffffffffffffffffffffffffffffffed
  {
    hide LittleEndian;
    EightBytes(0xed, 0xff, 0xff, 0xff, 0xff, 0xff, 0xff, 0xff);
    EightBytes(0xff, 0xff, 0xff, 0xff, 0xff, 0xff, 0xff, 0xff);
    EightBytes(0xff, 0xff, 0xff, 0xff, 0xff, 0xff, 0xff, 0x7f);
    FourParts([0xed, 0xff, 0xff, 0xff, 0xff, 0xff, 0xff, 0xff], [0xff, 0xff, 0xff, 0xff, 0xff, 0xff, 0xff, 0xff],
              [0xff, 0xff, 0xff, 0xff, 0xff, 0xff, 0xff, 0xff], [0xff, 0xff, 0xff, 0xff, 0xff, 0xff, 0xff, 0x7f],
              0xffffffffffffffed, 0xffffffffffffffff, 0xffffffffffffffff, 0x7fffffffffffffff);
  }

  lemma ValuePrimePlusOne()
    ensures |PRIME_PLUS_ONE| == 32
    ensures LittleEndian(PRIME_PLUS_ONE) == 0x7fffffffffffffffffffffffffffffffffffffffffffffffffffffffffffffee
  {
    hide LittleEndian;
    EightBytes(0xee, 0xff, 0xff, 0xff, 0xff, 0xff, 0xff, 0xff);
    EightBytes(0xff, 0xff, 0xff, 0xff, 0xff, 0xff, 0xff, 0xff);
    EightBytes(0xff, 0xff, 0xff, 0xff, 0xff, 0xff, 0xff, 0x7f);
    FourParts([0xee, 0xff, 0xff, 0xff, 0xff, 0xff, 0xff, 0xff], [0xff, 0xff, 0xff, 0xff, 0xff, 0xff, 0xff, 0xff],
              [0xff, 0xff, 0xff, 0xff, 0xff, 0xff, 0xff, 0xff], [0xff, 0xff, 0xff, 0xff, 0xff, 0xff, 0xff, 0x7f],
              0xffffffffffffffee, 0xffffffffffffffff, 0xffffffffffffffff, 0x7fffffffffffffff);
  }

  // ----- Which points are refused -----

  lemma {:induction false} Injective(s: seq<byte>, t: seq<byte>)
    requires |s| == |t| && LittleEndian(s) == LittleEndian(t)
    ensures s == t
  {
    if s != [] {
      Injective(s[1..], t[1..]);
      assert s == [s[0]] + s[1..] && t == [t[0]] + t[1..];
    }
  }

  /** A string of known bytes. */
  function Known(s: seq<byte>): (r: Str)
    ensures |r| == |s|
  {
    seq(|s|, i requires 0 <= i < |s| => Lit(s[i]))
  }

  /** The encoding without bit 255, which the decoder ignores (section 5 of RFC 7748). */
  function Masked(p: seq<byte>): (r: seq<byte>)
    requires |p| == 32
    ensures |r| == 32
  {
    p[31 := p[31] % 128]
  }

  lemma TopBitDropped(low: nat, top: nat)
    requires low < X25519Check.TWO_TO_248 && top < 256
    ensures (low + X25519Check.TWO_TO_248 * top) % TWO_TO_255 == low + X25519Check.TWO_TO_248 * (top % 128)
  {
    Arith.ModUnique(low + X25519Check.TWO_TO_248 * top, TWO_TO_255, top / 128,
                    low + X25519Check.TWO_TO_248 * (top % 128));
  }

  lemma TopByte(low: seq<byte>, top: byte)
    requires |low| == 31
    ensures LittleEndian(low + [top]) == LittleEndian(low) + X25519Check.TWO_TO_248 * top
    ensures LittleEndian(low) < X25519Check.TWO_TO_248
  {
    hide LittleEndian;
    X25519Check.LittleAppend(low, top);
    X25519Check.LittleBound(low);
    X25519Check.Power256Is31();
  }

  lemma MaskedParts(low: seq<byte>, top: byte)
    requires |low| == 31
    ensures LittleEndian(low + [top % 128]) == LittleEndian(low + [top]) % TWO_TO_255
  {
    hide LittleEndian;
    TopByte(low, top);
    TopByte(low, top % 128);
    TopBitDropped(LittleEndian(low), top);
  }

  lemma MaskedValue(p: seq<byte>)
    requires |p| == 32
    ensures LittleEndian(Masked(p)) == LittleEndian(p) % TWO_TO_255
  {
    hide LittleEndian;
    var low := p[..31];
    assert p == low + [p[31]];
    assert Masked(p) == low + [p[31] % 128];
    MaskedParts(low, p[31]);
  }

  lemma TableValues(p: seq<byte>)
    requires |p| == 32
    ensures p in SMALL_ORDER_POINTS <==> LittleEndian(p) in LOW_ORDER_U
  {
    hide LittleEndian;
    ValueZero();
    ValueOne();
    ValueOrderEight();
    ValueOtherOrderEight();
    ValueMinusOne();
    ValuePrime();
    ValuePrimePlusOne();
    if LittleEndian(p) == LittleEndian(ZERO) { Injective(p, ZERO); }
    if LittleEndian(p) == LittleEndian(ONE) { Injective(p, ONE); }
    if LittleEndian(p) == LittleEndian(ORDER_EIGHT) { Injective(p, ORDER_EIGHT); }
    if LittleEndian(p) == LittleEndian(OTHER_ORDER_EIGHT) { Injective(p, OTHER_ORDER_EIGHT); }
    if LittleEndian(p) == LittleEndian(MINUS_ONE) { Injective(p, MINUS_ONE); }
    if LittleEndian(p) == LittleEndian(PRIME) { Injective(p, PRIME); }
    if LittleEndian(p) == LittleEndian(PRIME_PLUS_ONE) { Injective(p, PRIME_PLUS_ONE); }
  }

  lemma LowOrderIff(p: seq<byte>)
    requires |p| == 32
    ensures LowOrder(Known(p)) <==> Masked(p) in SMALL_ORDER_POINTS
  {
    assert Literals(Known(p)) == p;
    MaskedValue(p);
    TableValues(Masked(p));
  }

  /** Of all points the server can write down, exactly those of the table are refused, with
      bit 255 set or not, when wrapping to them and when unwrapping what came with them, and
      whatever the other arguments are. */
  lemma RefusedIff(p: seq<byte>, vaultKey: Str, mlkem: Str, eph: Str, m: Str, nonce: Str,
                   offered: WrappedVaultKey<Sym>, kp: UserKeypair)
    requires |p| == 32 && offered.ephPubKey == Known(p) && |kp.mlkemDecap| == KEM_SEED_LEN
    ensures Masked(p) in SMALL_ORDER_POINTS ==>
              SharedWrap(vaultKey, UserPublicKeys(Known(p), mlkem), eph, m, nonce) == Err(InvalidPublicKey)
    ensures Masked(p) !in SMALL_ORDER_POINTS && KemKeyAccepted(mlkem) ==>
              SharedWrap(vaultKey, UserPublicKeys(Known(p), mlkem), eph, m, nonce).Ok?
    ensures Masked(p) in SMALL_ORDER_POINTS <==> SharedUnwrap(offered, kp) == Err(InvalidPublicKey)
  {
    LowOrderIff(p);
    assert Known(p)[0].Lit?;
    assert PointOf(Known(p)) == (Known(p), multiset{});
    ZeroIffLowOrder(eph, Known(p));
    ZeroIffLowOrder(kp.x25519Private, Known(p));
  }
}
