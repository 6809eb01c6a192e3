/**
  Idealised primitives.

  A value that depends on a secret is a string of symbolic bytes: `Of(t, i)` is byte
  `i` of the output named by the term `t`, and `Lit(b)` is a byte everybody knows.
  Strings keep their real lengths, so the framing code of the crate runs on them
  unchanged, while two outputs are equal only when the terms that name them are.
 */
module Symbolic {
  import opened Bytes

  /** What a fresh secret was drawn for. */
  datatype Origin = Seed | Password | VaultKey | Plaintext | Ephemeral | Encaps | Nonce | Salt

  datatype Sym = Lit(b: byte) | Of(term: Term, index: nat)

  type Str = seq<Sym>

  datatype Scalar = Scalar(bytes: Str)

  datatype Aead = Aes256Gcm | XChaCha20Poly1305

  datatype Term =
    | Fresh(origin: Origin, id: nat)                    // drawn by an honest user
    | Own(id: nat)                                      // drawn by the adversary
    | Argon2(domain: string, password: Str, salt: Str)
    | HkdfStream(ikm: Str, info: string)                // the whole expand stream
    | Sealed(alg: Aead, key: Str, nonce: Str, aad: seq<byte>, message: Str)
    | Ed25519Public(seed: Str)
    | Curve(base: Str, scalars: multiset<Scalar>, alias: nat)
    | KemPublic(kemSeed: Str)
    | KemCiphertext(ek: Str, m: Str)
    | KemSecret(ek: Str, m: Str)
    | KemRejected(z: Str, ct: Str)

  /** The first `n` bytes of the output named by `t`. */
  function Expand(t: Term, n: nat): (s: Str)
    ensures |s| == n
  {
    seq(n, i requires 0 <= i < n => Of(t, i))
  }

  /** The term a string is a prefix of the output of, if it is one. */
  function Root(s: Str): (r: Option<Term>)
    ensures r.Some? ==> s != [] && s == Expand(r.value, |s|)
  {
    if |s| > 0 && s[0].Of? && s == Expand(s[0].term, |s|) then Some(s[0].term) else None
  }

  lemma RootOfExpand(t: Term, n: nat)
    requires n > 0
    ensures Root(Expand(t, n)) == Some(t)
  {
    assert Expand(t, n)[0] == Of(t, 0);
  }

  lemma ExpandInjective(t: Term, n: nat, t': Term, n': nat)
    requires n > 0
    requires Expand(t, n) == Expand(t', n')
    ensures t == t' && n == n'
  {
    assert |Expand(t, n)| == |Expand(t', n')|;
    assert Expand(t, n)[0] == Expand(t', n')[0];
  }

  function Zeros(n: nat): (s: Str)
    ensures |s| == n
  {
    seq(n, i => Lit(0))
  }

  // ----- Authenticated encryption (section 2 of RFC 5116) -----

  const TAG_LEN := 16

  function SealBytes(alg: Aead, key: Str, nonce: Str, aad: seq<byte>, message: Str): (ct: Str)
    ensures |ct| == |message| + TAG_LEN
  {
    Expand(Sealed(alg, key, nonce, aad, message), |message| + TAG_LEN)
  }

  function OpenBytes(alg: Aead, key: Str, nonce: Str, aad: seq<byte>, ct: Str): (r: Option<Str>)
    ensures r.Some? ==> ct == SealBytes(alg, key, nonce, aad, r.value)
  {
    match Root(ct)
    case Some(Sealed(alg', key', nonce', aad', message)) =>
      if alg' == alg && key' == key && nonce' == nonce && aad' == aad && |ct| == |message| + TAG_LEN
      then Some(message) else None
    case _ => None
  }

  /** Opening succeeds exactly on what was sealed with the same key, nonce and data. */
  lemma OpenOfSeal(alg: Aead, key: Str, nonce: Str, aad: seq<byte>, message: Str,
                   alg': Aead, key': Str, nonce': Str, aad': seq<byte>)
    ensures OpenBytes(alg', key', nonce', aad', SealBytes(alg, key, nonce, aad, message)) ==
            if alg' == alg && key' == key && nonce' == nonce && aad' == aad
            then Some(message) else None
  {
    RootOfExpand(Sealed(alg, key, nonce, aad, message), |message| + TAG_LEN);
  }

  // ----- X25519 (sections 5 and 6.1 of RFC 7748) -----

  const CURVE_LEN := 32

  /** The base point, u = 9. */
  const BASE_POINT: Str := [Lit(9)] + Zeros(31)

  predicate AllLiteral(s: Str) {
    forall i | 0 <= i < |s| :: s[i].Lit?
  }

  /** The real bytes of a string everybody knows. */
  function Literals(s: Str): seq<byte>
    requires AllLiteral(s)
  {
    seq(|s|, i requires 0 <= i < |s| => s[i].b)
  }

  const FIELD_PRIME: nat := 0x7fff_ffff_ffff_ffff_ffff_ffff_ffff_ffff_ffff_ffff_ffff_ffff_ffff_ffff_ffff_ffed
  const TWO_TO_255: nat := 0x8000_0000_0000_0000_0000_0000_0000_0000_0000_0000_0000_0000_0000_0000_0000_0000

  /** The u-coordinates of small order, bit 255 being ignored by the decoder. */
  const LOW_ORDER_U: set<int> :=
    { 0, 1,
      0x00b8_495f_1605_6286_fdb1_329c_eb8d_09da_6ac4_9ff1_fae3_5616_aeb8_413b_7c7a_ebe0,
      0x5711_9fd0_dd4e_22d8_868e_1c58_c45c_4404_5bef_839c_55b1_d0b1_248c_50a3_bc95_9c5f,
      FIELD_PRIME - 1, FIELD_PRIME, FIELD_PRIME + 1 }

  predicate LowOrder(p: Str) {
    |p| == CURVE_LEN && AllLiteral(p) && LittleEndian(Literals(p)) % TWO_TO_255 in LOW_ORDER_U
  }

  /** The point an encoding stands for: a base and the scalars applied to it. Different
      aliases are different encodings of one point. */
  function PointOf(p: Str): (r: (Str, multiset<Scalar>)) {
    match Root(p)
    case Some(Curve(base, scalars, _)) => if |p| == CURVE_LEN then (base, scalars) else (p, multiset{})
    case _ => (p, multiset{})
  }

  function DiffieHellman(sk: Str, p: Str): (ss: Str)
    ensures |ss| == CURVE_LEN
  {
    var (base, scalars) := PointOf(p);
    if LowOrder(base) then Zeros(CURVE_LEN)
    else Expand(Curve(base, scalars + multiset{Scalar(sk)}, 0), CURVE_LEN)
  }

  function CurvePublic(sk: Str): (p: Str)
    ensures |p| == CURVE_LEN
  {
    DiffieHellman(sk, BASE_POINT)
  }

  lemma {:induction false} LittleEndianOfZeros(n: nat)
    ensures LittleEndian(Literals(Zeros(n))) == 0
  {
    if n > 0 {
      LittleEndianOfZeros(n - 1);
      assert Literals(Zeros(n))[1..] == Literals(Zeros(n - 1));
    }
  }

  lemma BasePointIsSound()
    ensures |BASE_POINT| == CURVE_LEN && !LowOrder(BASE_POINT) && Root(BASE_POINT) == None
  {
    LittleEndianOfZeros(31);
    assert BASE_POINT[0] == Lit(9);
    assert Literals(BASE_POINT)[1..] == Literals(Zeros(31));
    assert LittleEndian(Literals(BASE_POINT)) == 9;
  }

  lemma CurvePublicIs(sk: Str)
    ensures CurvePublic(sk) == Expand(Curve(BASE_POINT, multiset{Scalar(sk)}, 0), CURVE_LEN)
    ensures PointOf(CurvePublic(sk)) == (BASE_POINT, multiset{Scalar(sk)})
  {
    BasePointIsSound();
    assert multiset{} + multiset{Scalar(sk)} == multiset{Scalar(sk)};
    RootOfExpand(Curve(BASE_POINT, multiset{Scalar(sk)}, 0), CURVE_LEN);
  }

  /** The two ends of an exchange compute one shared secret, and it is contributory. */
  lemma DiffieHellmanCommutes(a: Str, b: Str)
    ensures DiffieHellman(a, CurvePublic(b)) == DiffieHellman(b, CurvePublic(a))
    ensures DiffieHellman(a, CurvePublic(b)) != Zeros(CURVE_LEN)
  {
    BasePointIsSound();
    CurvePublicIs(a);
    CurvePublicIs(b);
    assert multiset{Scalar(a)} + multiset{Scalar(b)} == multiset{Scalar(b)} + multiset{Scalar(a)};
    assert DiffieHellman(a, CurvePublic(b))[0] != Zeros(CURVE_LEN)[0];
  }

  /** Scalars apply in any order to any point. */
  lemma ScalarsCommute(a: Str, b: Str, p: Str)
    requires !LowOrder(PointOf(p).0)
    ensures DiffieHellman(a, DiffieHellman(b, p)) == DiffieHellman(b, DiffieHellman(a, p))
  {
    var (base, scalars) := PointOf(p);
    RootOfExpand(Curve(base, scalars + multiset{Scalar(a)}, 0), CURVE_LEN);
    RootOfExpand(Curve(base, scalars + multiset{Scalar(b)}, 0), CURVE_LEN);
    assert scalars + multiset{Scalar(a)} + multiset{Scalar(b)} == scalars + multiset{Scalar(b)} + multiset{Scalar(a)};
  }

  /** A shared secret is all zero exactly when the peer's point is of small order, whatever
      the private key. */
  lemma ZeroIffLowOrder(sk: Str, p: Str)
    ensures DiffieHellman(sk, p) == Zeros(CURVE_LEN) <==> LowOrder(PointOf(p).0)
  {
    assert Zeros(CURVE_LEN)[0] == Lit(0);
    var (base, scalars) := PointOf(p);
    assert Expand(Curve(base, scalars + multiset{Scalar(sk)}, 0), CURVE_LEN)[0].Of?;
  }

  // ----- ML-KEM-768 (FIPS 203) -----

  const KEM_SEED_LEN := 64
  const KEM_PUBLIC_LEN := 1184
  const KEM_CIPHERTEXT_LEN := 1088
  const KEM_SECRET_LEN := 32

  /** The public key generated from the 64-byte seed `d || z`. */
  function KemPublicKey(kemSeed: Str): (ek: Str)
    ensures |ek| == KEM_PUBLIC_LEN
  {
    Expand(KemPublic(kemSeed), KEM_PUBLIC_LEN)
  }

  /** Three encoded bytes hold two coefficients, each of which must be below 3329
      (the modulus check of section 7.2 of FIPS 203). */
  predicate CoefficientsInRange(b0: Sym, b1: Sym, b2: Sym) {
    b0.Lit? && b1.Lit? && b2.Lit? ==>
      b0.b + 256 * (b1.b % 16) < 3329 && b1.b / 16 + 16 * b2.b < 3329
  }

  predicate KemKeyAccepted(ek: Str) {
    && |ek| == KEM_PUBLIC_LEN
    && forall g | 0 <= g < 384 :: CoefficientsInRange(ek[3 * g], ek[3 * g + 1], ek[3 * g + 2])
  }

  /** The 12 bits from bit `12 * j` on. */
  function CoefficientAt(ek: Str, j: nat): nat
    requires AllLiteral(ek) && |ek| == 1184 && j < 768
  {
    var from := 12 * j / 8;
    var word := ek[from].b as int + 256 * (ek[from + 1].b as int);
    if 12 * j % 8 == 0 then word % 4096 else word / 16
  }

  lemma CoefficientsOfGroup(ek: Str, g: nat)
    requires AllLiteral(ek) && |ek| == 1184 && g < 384
    ensures CoefficientAt(ek, 2 * g) == ek[3 * g].b as int + 256 * (ek[3 * g + 1].b as int % 16)
    ensures CoefficientAt(ek, 2 * g + 1) == ek[3 * g + 1].b as int / 16 + 16 * (ek[3 * g + 2].b as int)
  {
    assert 12 * (2 * g) == 8 * (3 * g) && 12 * (2 * g + 1) == 8 * (3 * g + 1) + 4;
    assert 12 * (2 * g) / 8 == 3 * g && 12 * (2 * g + 1) / 8 == 3 * g + 1;
    TwoBytes(ek[3 * g].b, ek[3 * g + 1].b);
    TwoBytes(ek[3 * g + 1].b, ek[3 * g + 2].b);
  }

  lemma TwoBytes(a: byte, b: byte)
    ensures (a as int + 256 * (b as int)) % 4096 == a as int + 256 * (b as int % 16)
    ensures (a as int + 256 * (b as int)) / 16 == a as int / 16 + 16 * (b as int)
  {
  }

  /** A key of known bytes is accepted exactly when each of its 768 coefficients is below 3329. */
  lemma KemKeyAcceptedIff(ek: Str)
    requires AllLiteral(ek)
    ensures KemKeyAccepted(ek) <==> |ek| == 1184 && forall j | 0 <= j < 768 :: CoefficientAt(ek, j) < 3329
  {
    hide CoefficientAt;
    if |ek| == 1184 {
      forall g: nat | g < 384
        ensures CoefficientsInRange(ek[3 * g], ek[3 * g + 1], ek[3 * g + 2]) <==>
                CoefficientAt(ek, 2 * g) < 3329 && CoefficientAt(ek, 2 * g + 1) < 3329 {
        CoefficientsOfGroup(ek, g);
      }
      forall j: nat | j < 768 && KemKeyAccepted(ek) ensures CoefficientAt(ek, j) < 3329 {
        assert j == 2 * (j / 2) || j == 2 * (j / 2) + 1;
        assert CoefficientsInRange(ek[3 * (j / 2)], ek[3 * (j / 2) + 1], ek[3 * (j / 2) + 2]);
      }
    }
  }

  function KemEncapsulate(ek: Str, m: Str): (r: (Str, Str))
    ensures |r.0| == KEM_CIPHERTEXT_LEN && |r.1| == KEM_SECRET_LEN
  {
    (Expand(KemCiphertext(ek, m), KEM_CIPHERTEXT_LEN), Expand(KemSecret(ek, m), KEM_SECRET_LEN))
  }

  /** Total on ciphertexts of the right length: a ciphertext for another key yields the
      implicit-rejection secret (section 6.3 of FIPS 203). */
  function KemDecapsulate(kemSeed: Str, ct: Str): (ss: Str)
    requires |kemSeed| == KEM_SEED_LEN && |ct| == KEM_CIPHERTEXT_LEN
    ensures |ss| == KEM_SECRET_LEN
  {
    match Root(ct)
    case Some(KemCiphertext(ek, m)) =>
      if ek == KemPublicKey(kemSeed) then Expand(KemSecret(ek, m), KEM_SECRET_LEN)
      else Expand(KemRejected(kemSeed[32..], ct), KEM_SECRET_LEN)
    case _ => Expand(KemRejected(kemSeed[32..], ct), KEM_SECRET_LEN)
  }

  /** Implicit rejection: what was not encapsulated to this key gives a secret of its own, made
      from the second half of the seed. */
  lemma ImplicitRejection(kemSeed: Str, ct: Str)
    requires |kemSeed| == KEM_SEED_LEN && |ct| == KEM_CIPHERTEXT_LEN
    requires forall m :: ct != KemEncapsulate(KemPublicKey(kemSeed), m).0
    ensures KemDecapsulate(kemSeed, ct) == Expand(KemRejected(kemSeed[32..64], ct), 32)
  {
    assert kemSeed[32..64] == kemSeed[32..];
    match Root(ct)
    case Some(KemCiphertext(ek, m)) => assert ct == KemEncapsulate(ek, m).0;
    case _ =>
  }

  /** A decapsulation gives the sender's secret exactly for the sender's ciphertext and key. */
  lemma DecapsulateIff(kemSeed: Str, ct: Str, ek: Str, m: Str)
    requires |kemSeed| == KEM_SEED_LEN && |ct| == KEM_CIPHERTEXT_LEN
    ensures KemDecapsulate(kemSeed, ct) == KemEncapsulate(ek, m).1 <==>
            ek == KemPublicKey(kemSeed) && ct == KemEncapsulate(ek, m).0
  {
    RootOfExpand(KemCiphertext(ek, m), KEM_CIPHERTEXT_LEN);
    var ss := KemDecapsulate(kemSeed, ct);
    assert ss == Expand(ss[0].term, KEM_SECRET_LEN);
    assert KemEncapsulate(ek, m).1[0] == Of(KemSecret(ek, m), 0);
  }
}
