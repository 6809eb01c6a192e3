/** User identities, sealing them under a master key, and the hybrid vault-key wrap. */
module Keypair {
  import opened Bytes
  import opened Symbolic
  import opened Buffers
  import Kdf

  const XCHACHA_NONCE_LEN := 24
  const ED25519_PRIVATE_LEN := 32
  const X25519_PRIVATE_LEN := 32

  datatype UserPublicKeys = UserPublicKeys(x25519: Str, mlkem: Str)

  datatype UserKeypair = UserKeypair(
    ed25519Seed: Str, ed25519Public: Str,
    x25519Private: Str, x25519Public: Str,
    mlkemDecap: Str, mlkemPublic: Str)

  datatype EncryptedPrivateKey<T> = EncryptedPrivateKey(nonce: seq<T>, ciphertext: seq<T>)

  datatype WrappedVaultKey<T> = WrappedVaultKey(
    ephPubKey: seq<T>, mlkemCiphertext: seq<T>, encryptedVaultKey: seq<T>)

  function PublicKeys(kp: UserKeypair): UserPublicKeys {
    UserPublicKeys(kp.x25519Public, kp.mlkemPublic)
  }

  // ----- Derivations from the Ed25519 seed -----

  function X25519Of(seed: Str): (sk: Str)
    ensures |sk| == X25519_PRIVATE_LEN
  {
    Expand(HkdfStream(seed, Kdf.HKDF_INFO_X25519_DERIVE), X25519_PRIVATE_LEN)
  }

  function MlKemSeedOf(seed: Str): (d: Str)
    ensures |d| == KEM_SEED_LEN
  {
    Expand(HkdfStream(seed, Kdf.HKDF_INFO_MLKEM_DERIVE), KEM_SEED_LEN)
  }

  /** The whole identity, as a function of the seed. */
  function KeypairOf(seed: Str): (kp: UserKeypair)
    ensures |kp.x25519Public| == CURVE_LEN && |kp.mlkemDecap| == KEM_SEED_LEN && |kp.mlkemPublic| == KEM_PUBLIC_LEN
  {
    UserKeypair(seed, Expand(Ed25519Public(seed), 32),
                X25519Of(seed), CurvePublic(X25519Of(seed)),
                MlKemSeedOf(seed), KemPublicKey(MlKemSeedOf(seed)))
  }

  /** The two derived private keys share no byte, and each determines the seed. */
  lemma DerivationsAreSeparated(seed: Str, seed': Str)
    ensures forall i, j | 0 <= i < 32 && 0 <= j < 64 :: X25519Of(seed)[i] != MlKemSeedOf(seed')[j]
    ensures X25519Of(seed) == X25519Of(seed') ==> seed == seed'
    ensures MlKemSeedOf(seed) == MlKemSeedOf(seed') ==> seed == seed'
    ensures PublicKeys(KeypairOf(seed)) == PublicKeys(KeypairOf(seed')) ==> seed == seed'
  {
    assert X25519Of(seed)[0] == Of(HkdfStream(seed, Kdf.HKDF_INFO_X25519_DERIVE), 0);
    assert X25519Of(seed')[0] == Of(HkdfStream(seed', Kdf.HKDF_INFO_X25519_DERIVE), 0);
    assert MlKemSeedOf(seed)[0] == Of(HkdfStream(seed, Kdf.HKDF_INFO_MLKEM_DERIVE), 0);
    assert MlKemSeedOf(seed')[0] == Of(HkdfStream(seed', Kdf.HKDF_INFO_MLKEM_DERIVE), 0);
    RootOfExpand(KemPublic(MlKemSeedOf(seed)), KEM_PUBLIC_LEN);
    RootOfExpand(KemPublic(MlKemSeedOf(seed')), KEM_PUBLIC_LEN);
  }

  method DeriveX25519(seed: Str) returns (r: Result<Str>, buffer: SecretArray)
    ensures r == Ok(X25519Of(seed)) && r == Ok(Expand(HkdfStream(seed, "evnx-x25519-from-ed25519-v1"), 32))
    ensures buffer.data[..] == Zeros(X25519_PRIVATE_LEN)
  {
    buffer := new SecretArray.Zeroed(X25519_PRIVATE_LEN);
    var ok := Kdf.FillFromStream(seed, Kdf.HKDF_INFO_X25519_DERIVE, buffer.data);
    if !ok {
      return Err(CryptoError.Kdf), buffer;
    }
    var sk := buffer.IntoInner();
    r := Ok(sk);
  }

  method DeriveMlKem(seed: Str) returns (r: Result<(Str, Str)>)
    ensures r == Ok((MlKemSeedOf(seed), KemPublicKey(MlKemSeedOf(seed))))
    ensures r.Ok? && r.value.0 == Expand(HkdfStream(seed, "evnx/mlkem768/v1"), 64)
  {
    var buffer := new SecretArray.Zeroed(KEM_SEED_LEN);
    var ok := Kdf.FillFromStream(seed, Kdf.HKDF_INFO_MLKEM_DERIVE, buffer.data);
    if !ok {
      return Err(CryptoError.Kdf);
    }
    var decap := buffer.data[..];
    buffer.Drop();
    return Ok((decap, KemPublicKey(decap)));
  }

  /** A record is the identity of its seed exactly when each private key comes from the seed
      under its own label, and each public key is that of the private key beside it. */
  lemma IdentityIff(kp: UserKeypair)
    ensures kp == KeypairOf(kp.ed25519Seed) <==>
            && kp.x25519Private == Expand(HkdfStream(kp.ed25519Seed, "evnx-x25519-from-ed25519-v1"), 32)
            && kp.mlkemDecap == Expand(HkdfStream(kp.ed25519Seed, "evnx/mlkem768/v1"), 64)
            && kp.ed25519Public == Expand(Ed25519Public(kp.ed25519Seed), 32)
            && kp.x25519Public == DiffieHellman(kp.x25519Private, BASE_POINT)
            && kp.mlkemPublic == KemPublicKey(kp.mlkemDecap)
  {
  }

  /** The same for the identity of a fresh seed. */
  method GenerateKeypair(rng: OsRng) returns (kp: UserKeypair)
    modifies rng
    ensures kp == KeypairOf(Draw(Seed, old(rng.next), ED25519_PRIVATE_LEN))
    ensures kp.ed25519Seed == Expand(Fresh(Seed, old(rng.next)), 32)
    ensures kp.x25519Private == Expand(HkdfStream(kp.ed25519Seed, "evnx-x25519-from-ed25519-v1"), 32)
            && kp.mlkemDecap == Expand(HkdfStream(kp.ed25519Seed, "evnx/mlkem768/v1"), 64)
            && kp.ed25519Public == Expand(Ed25519Public(kp.ed25519Seed), 32)
            && kp.x25519Public == DiffieHellman(kp.x25519Private, BASE_POINT)
            && kp.mlkemPublic == KemPublicKey(kp.mlkemDecap)
    ensures rng.next == old(rng.next) + 1
  {
    var seed := new Sym[ED25519_PRIVATE_LEN](_ => Lit(0));
    rng.FillBytes(Seed, seed);
    var x, _ := DeriveX25519(seed[..]);
    var m := DeriveMlKem(seed[..]);
    kp := UserKeypair(seed[..], Expand(Ed25519Public(seed[..]), 32),
                      x.value, CurvePublic(x.value), m.value.0, m.value.1);
  }

  // ----- Sealing the identity -----

  function IdentitySealKey(masterKey: Str): Str {
    Kdf.Subkey(masterKey, Kdf.HKDF_INFO_PRIVATE_KEY_ENC)
  }

  function SealedIdentity(seed: Str, masterKey: Str, nonce: Str): EncryptedPrivateKey<Sym> {
    EncryptedPrivateKey(nonce, SealBytes(XChaCha20Poly1305, IdentitySealKey(masterKey), nonce, [], seed))
  }

  function UnsealedIdentity(enc: EncryptedPrivateKey<Sym>, masterKey: Str): Result<UserKeypair> {
    match OpenBytes(XChaCha20Poly1305, IdentitySealKey(masterKey), enc.nonce, [], enc.ciphertext)
    case None => Err(KeyUnwrap)
    case Some(seed) => if |seed| != ED25519_PRIVATE_LEN then Err(InvalidInput) else Ok(KeypairOf(seed))
  }

  /** Unsealing gives back every field of the sealed identity, under the sealing master
      key and under no other. */
  lemma UnsealIff(seed: Str, masterKey: Str, nonce: Str, masterKey': Str)
    requires |seed| == ED25519_PRIVATE_LEN
    ensures UnsealedIdentity(SealedIdentity(seed, masterKey, nonce), masterKey') ==
            if masterKey' == masterKey then Ok(KeypairOf(seed)) else Err(KeyUnwrap)
  {
    OpenOfSeal(XChaCha20Poly1305, IdentitySealKey(masterKey), nonce, [], seed,
               XChaCha20Poly1305, IdentitySealKey(masterKey'), nonce, []);
    Kdf.SubkeysEqualIff(masterKey, Kdf.HKDF_INFO_PRIVATE_KEY_ENC, masterKey', Kdf.HKDF_INFO_PRIVATE_KEY_ENC);
  }

  /** Every outcome of unsealing: the identity of a sealed message of 32 bytes, an error for one
      of another length, and another error for anything that was not sealed so. */
  lemma UnsealOutcomes(masterKey: Str, nonce: Str, message: Str, enc: EncryptedPrivateKey<Sym>)
    ensures var key := Expand(HkdfStream(masterKey, "evnx-private-key-enc-v1"), 32);
            && (enc == EncryptedPrivateKey(nonce, SealBytes(XChaCha20Poly1305, key, nonce, [], message)) ==>
                  if |message| != 32 then UnsealedIdentity(enc, masterKey) == Err(InvalidInput)
                  else UnsealedIdentity(enc, masterKey).Ok?
                       && UnsealedIdentity(enc, masterKey).value.ed25519Seed == message)
            && ((forall text :: enc.ciphertext != SealBytes(XChaCha20Poly1305, key, enc.nonce, [], text)) ==>
                  UnsealedIdentity(enc, masterKey) == Err(KeyUnwrap))
  {
    var key := Expand(HkdfStream(masterKey, "evnx-private-key-enc-v1"), 32);
    OpenOfSeal(XChaCha20Poly1305, key, nonce, [], message, XChaCha20Poly1305, key, nonce, []);
  }

  /** The key for a cipher: `info` empty means the raw key is used as it is. */
  method NewXChaChaKey(rawKey: Str, info: string) returns (r: Result<Str>)
    ensures r == Ok(if info == "" then rawKey else Expand(HkdfStream(rawKey, info), 32))
  {
    if info == "" {
      return Ok(rawKey);
    }
    var derived := Kdf.HkdfSubkey(rawKey, info);
    if derived.Err? {
      return Err(CryptoError.Kdf);
    }
    return Ok(derived.value.data[..]);
  }

  /** The key and a fresh nonce, for sealing. */
  method NewXChaChaCipher(rng: OsRng, rawKey: Str, info: string) returns (r: Result<(Str, Str)>)
    modifies rng
    ensures r == Ok((if info == "" then rawKey else Expand(HkdfStream(rawKey, info), 32),
                     Expand(Fresh(Nonce, old(rng.next)), 24)))
    ensures rng.next == old(rng.next) + 1
  {
    var key := NewXChaChaKey(rawKey, info);
    var nonce := new Sym[XCHACHA_NONCE_LEN](_ => Lit(0));
    rng.FillBytes(Nonce, nonce);
    return Ok((key.value, nonce[..]));
  }

  method EncryptPrivateKey(rng: OsRng, keypair: UserKeypair, masterKey: Str)
    returns (r: Result<EncryptedPrivateKey<Sym>>)
    modifies rng
    ensures r == Ok(SealedIdentity(keypair.ed25519Seed, masterKey, Draw(Nonce, old(rng.next), XCHACHA_NONCE_LEN)))
    ensures var nonce := Expand(Fresh(Nonce, old(rng.next)), 24);
            var key := Expand(HkdfStream(masterKey, "evnx-private-key-enc-v1"), 32);
            r == Ok(EncryptedPrivateKey(nonce, SealBytes(XChaCha20Poly1305, key, nonce, [], keypair.ed25519Seed)))
    ensures rng.next == old(rng.next) + 1
  {
    var cipher := NewXChaChaCipher(rng, masterKey, Kdf.HKDF_INFO_PRIVATE_KEY_ENC);
    var (key, nonce) := cipher.value;
    return Ok(EncryptedPrivateKey(nonce, SealBytes(XChaCha20Poly1305, key, nonce, [], keypair.ed25519Seed)));
  }

  method DecryptPrivateKey(enc: EncryptedPrivateKey<Sym>, masterKey: Str) returns (r: Result<UserKeypair>)
    ensures r == UnsealedIdentity(enc, masterKey)
    ensures r.Ok? ==>
              && r.value.x25519Private == Expand(HkdfStream(r.value.ed25519Seed, "evnx-x25519-from-ed25519-v1"), 32)
              && r.value.mlkemDecap == Expand(HkdfStream(r.value.ed25519Seed, "evnx/mlkem768/v1"), 64)
              && r.value.ed25519Public == Expand(Ed25519Public(r.value.ed25519Seed), 32)
              && r.value.x25519Public == DiffieHellman(r.value.x25519Private, BASE_POINT)
              && r.value.mlkemPublic == KemPublicKey(r.value.mlkemDecap)
  {
    var key := NewXChaChaKey(masterKey, Kdf.HKDF_INFO_PRIVATE_KEY_ENC);
    var seedBytes := OpenBytes(XChaCha20Poly1305, key.value, enc.nonce, [], enc.ciphertext);
    if seedBytes.None? {
      return Err(KeyUnwrap);
    }
    if |seedBytes.value| != ED25519_PRIVATE_LEN {
      return Err(InvalidInput);
    }
    var seed := new Sym[ED25519_PRIVATE_LEN](_ => Lit(0));
    CopyFromSlice(seed, seedBytes.value);
    var x, _ := DeriveX25519(seed[..]);
    var m := DeriveMlKem(seed[..]);
    return Ok(UserKeypair(seed[..], Expand(Ed25519Public(seed[..]), 32),
                          x.value, CurvePublic(x.value), m.value.0, m.value.1));
  }

  // ----- ML-KEM -----

  function Decapsulated(kp: UserKeypair, ct: Str): Result<Str>
    requires |kp.mlkemDecap| == KEM_SEED_LEN
  {
    if |ct| != KEM_CIPHERTEXT_LEN then Err(InvalidInput) else Ok(KemDecapsulate(kp.mlkemDecap, ct))
  }

  function Encapsulated(mlkem: Str, m: Str): Result<(Str, Str)> {
    if !KemKeyAccepted(mlkem) then Err(InvalidPublicKey) else Ok(KemEncapsulate(mlkem, m))
  }

  /** Every outcome of the two ML-KEM calls. */
  lemma MlKemOutcomes(kp: UserKeypair, ct: Str, mlkem: Str, m: Str)
    requires |kp.mlkemDecap| == KEM_SEED_LEN
    ensures Decapsulated(kp, ct) == if |ct| == 1088 then Ok(KemDecapsulate(kp.mlkemDecap, ct)) else Err(InvalidInput)
    ensures Encapsulated(mlkem, m) ==
            if KemKeyAccepted(mlkem) then Ok((Expand(KemCiphertext(mlkem, m), 1088), Expand(KemSecret(mlkem, m), 32)))
            else Err(InvalidPublicKey)
  {
  }

  method MlKemEncapsulate(rng: OsRng, mlkem: Str) returns (r: Result<(Str, Str)>)
    modifies rng
    ensures r == Encapsulated(mlkem, Draw(Encaps, old(rng.next), 32))
    ensures rng.next == old(rng.next) + (if r.Ok? then 1 else 0)
  {
    if !KemKeyAccepted(mlkem) {
      return Err(InvalidPublicKey);
    }
    var m := new Sym[32](_ => Lit(0));
    rng.FillBytes(Encaps, m);
    var (ciphertext, shared) := KemEncapsulate(mlkem, m[..]);
    var secret := new Sym[KEM_SECRET_LEN](_ => Lit(0));
    CopyFromSlice(secret, shared);
    return Ok((ciphertext, secret[..]));
  }

  // ----- The hybrid combiner -----

  /** Input keying material: both shared secrets, then the transcript. */
  function CombinerInput<T>(ssMlkem: seq<T>, ssX25519: seq<T>, mlkemCt: seq<T>, ephPub: seq<T>, recipientPub: seq<T>):
    seq<T> {
    ssMlkem + ssX25519 + mlkemCt + ephPub + recipientPub
  }

  /** ML-KEM's secret comes first, and each field is where the two sides expect it. */
  lemma CombinerLayout<T>(a: seq<T>, b: seq<T>, c: seq<T>, d: seq<T>, e: seq<T>)
    requires |a| == |b| == |d| == |e| == 32
    ensures var ikm, n := CombinerInput(a, b, c, d, e), |c|;
            |ikm| == n + 128 && ikm[..32] == a && ikm[32..64] == b && ikm[64..64 + n] == c
            && ikm[64 + n..96 + n] == d && ikm[96 + n..] == e
  {
    var ikm := CombinerInput(a, b, c, d, e);
    assert ikm[..32] == a;
    assert ikm[32..64] == b;
    assert ikm[64..64 + |c|] == c;
    assert ikm[64 + |c|..96 + |c|] == d;
    assert ikm[96 + |c|..] == e;
  }

  /** The concatenation determines all five fields, whatever the ciphertext length: the
      four other fields have fixed lengths. */
  lemma CombinerInputInjective<T>(a: seq<T>, b: seq<T>, c: seq<T>, d: seq<T>, e: seq<T>,
                                  a': seq<T>, b': seq<T>, c': seq<T>, d': seq<T>, e': seq<T>)
    requires |a| == |a'| && |b| == |b'| && |d| == |d'| && |e| == |e'|
    requires CombinerInput(a, b, c, d, e) == CombinerInput(a', b', c', d', e')
    ensures a == a' && b == b' && c == c' && d == d' && e == e'
  {
    SplitEqual(a + b + c + d, e, a' + b' + c' + d', e');
    SplitEqual(a + b + c, d, a' + b' + c', d');
    SplitEqual(a + b, c, a' + b', c');
    SplitEqual(a, b, a', b');
  }

  function HybridKey(ssMlkem: Str, ssX25519: Str, mlkemCt: Str, ephPub: Str, recipientPub: Str): (k: Str)
    ensures |k| == 32
  {
    Kdf.Subkey(CombinerInput(ssMlkem, ssX25519, mlkemCt, ephPub, recipientPub), Kdf.HKDF_INFO_VAULT_KEY_WRAP)
  }

  /** HKDF over ML-KEM's secret, X25519's, and the transcript, under the label of version 2. */
  lemma HybridKeyIs(ssMlkem: Str, ssX25519: Str, mlkemCt: Str, ephPub: Str, recipientPub: Str)
    ensures HybridKey(ssMlkem, ssX25519, mlkemCt, ephPub, recipientPub) ==
            Expand(HkdfStream(ssMlkem + ssX25519 + mlkemCt + ephPub + recipientPub, "evnx-vault-key-wrap-v2"), 32)
  {
  }

  /** The buffer is filled without ever being moved, the key is derived from its full
      contents, and every byte of it is zero on return, whatever the derivation said. */
  method HybridWrapKey(ssMlkem: Str, ssX25519: Str, mlkemCt: Str, ephPub: Str, recipientPub: Str)
    returns (r: Result<SecretArray>, ikm: Vec<Sym>)
    requires |ssMlkem| == KEM_SECRET_LEN && |ssX25519| == 32 && |ephPub| == CURVE_LEN && |recipientPub| == CURVE_LEN
    ensures r.Ok? && fresh(r.value) && fresh(r.value.data)
    ensures r.value.data[..] == HybridKey(ssMlkem, ssX25519, mlkemCt, ephPub, recipientPub)
    ensures fresh(ikm) && ikm.Valid() && ikm.moves == 0
    ensures ikm.len == ikm.data.Length == |CombinerInput(ssMlkem, ssX25519, mlkemCt, ephPub, recipientPub)|
    ensures forall i | 0 <= i < ikm.data.Length :: ikm.data[i] == Lit(0)
  {
    ikm := new Vec<Sym>.WithCapacity(KEM_SECRET_LEN + 32 + |mlkemCt| + CURVE_LEN * 2);
    ikm.ExtendFromSlice(ssMlkem);
    ikm.ExtendFromSlice(ssX25519);
    ikm.ExtendFromSlice(mlkemCt);
    ikm.ExtendFromSlice(ephPub);
    ikm.ExtendFromSlice(recipientPub);
    assert ikm.Contents() == CombinerInput(ssMlkem, ssX25519, mlkemCt, ephPub, recipientPub);
    r := Kdf.HkdfSubkey(ikm.Contents(), Kdf.HKDF_INFO_VAULT_KEY_WRAP);
    ikm.Zeroize(Lit(0));
  }

  // ----- Wrapping for another user -----

  /** What a wrap made with the given randomness looks like. */
  function SharedWrap(vaultKey: Str, to: UserPublicKeys, eph: Str, m: Str, nonce: Str): Result<WrappedVaultKey<Sym>> {
    var shared := DiffieHellman(eph, to.x25519);
    if shared == Zeros(CURVE_LEN) then Err(InvalidPublicKey)
    else
      var (ct, ss) :- Encapsulated(to.mlkem, m);
      var key := HybridKey(ss, shared, ct, CurvePublic(eph), to.x25519);
      Ok(WrappedVaultKey(CurvePublic(eph), ct, nonce + SealBytes(XChaCha20Poly1305, key, nonce, [], vaultKey)))
  }

  /** The key an identity derives from the two public fields of a wrap. */
  function UnwrapKey(ephPub: Str, ct: Str, kp: UserKeypair): Str
    requires |kp.mlkemDecap| == KEM_SEED_LEN && |ct| == KEM_CIPHERTEXT_LEN
  {
    HybridKey(KemDecapsulate(kp.mlkemDecap, ct), DiffieHellman(kp.x25519Private, ephPub), ct, ephPub, kp.x25519Public)
  }

  function SharedUnwrap(wrapped: WrappedVaultKey<Sym>, kp: UserKeypair): Result<Str>
    requires |kp.mlkemDecap| == KEM_SEED_LEN
  {
    var shared := DiffieHellman(kp.x25519Private, wrapped.ephPubKey);
    if shared == Zeros(CURVE_LEN) then Err(InvalidPublicKey)
    else if |wrapped.mlkemCiphertext| != KEM_CIPHERTEXT_LEN then Err(InvalidInput)
    else if |wrapped.encryptedVaultKey| < XCHACHA_NONCE_LEN then Err(InvalidInput)
    else
      var key := UnwrapKey(wrapped.ephPubKey, wrapped.mlkemCiphertext, kp);
      match OpenBytes(XChaCha20Poly1305, key, wrapped.encryptedVaultKey[..XCHACHA_NONCE_LEN], [],
                      wrapped.encryptedVaultKey[XCHACHA_NONCE_LEN..])
      case None => Err(KeyUnwrap)
      case Some(vaultKey) => if |vaultKey| != 32 then Err(InvalidInput) else Ok(vaultKey)
  }

  /** Encrypt the vault key and put the nonce in front. */
  method SealAndFrame(rng: OsRng, wrapKey: Str, vaultKey: Str) returns (framed: Str)
    modifies rng
    ensures rng.next == old(rng.next) + 1
    ensures var nonce := Draw(Nonce, old(rng.next), XCHACHA_NONCE_LEN);
            framed == nonce + SealBytes(XChaCha20Poly1305, wrapKey, nonce, [], vaultKey)
  {
    var cipher := NewXChaChaCipher(rng, wrapKey, "");
    var (key, nonce) := cipher.value;
    var ciphertext := SealBytes(XChaCha20Poly1305, key, nonce, [], vaultKey);
    var buf := new Vec<Sym>.WithCapacity(XCHACHA_NONCE_LEN + |ciphertext|);
    buf.ExtendFromSlice(nonce);
    buf.ExtendFromSlice(ciphertext);
    framed := buf.Contents();
  }

  method WrapVaultKeyForUser(rng: OsRng, vaultKey: Str, to: UserPublicKeys) returns (r: Result<WrappedVaultKey<Sym>>)
    requires |to.x25519| == CURVE_LEN && |to.mlkem| == KEM_PUBLIC_LEN
    modifies rng
    ensures r == SharedWrap(vaultKey, to, Draw(Ephemeral, old(rng.next), 32), Draw(Encaps, old(rng.next) + 1, 32),
                            Draw(Nonce, old(rng.next) + 2, XCHACHA_NONCE_LEN))
    ensures r.Ok? ==> rng.next == old(rng.next) + 3
  {
    var ephSecret := new Sym[32](_ => Lit(0));
    rng.FillBytes(Ephemeral, ephSecret);
    var ephPub := CurvePublic(ephSecret[..]);
    var shared := DiffieHellman(ephSecret[..], to.x25519);
    if shared == Zeros(CURVE_LEN) {
      return Err(InvalidPublicKey);
    }
    var encapsulated := MlKemEncapsulate(rng, to.mlkem);
    if encapsulated.Err? {
      return Err(encapsulated.error);
    }
    var (ct, ss) := encapsulated.value;
    var wrapKey, _ := HybridWrapKey(ss, shared, ct, ephPub, to.x25519);
    if wrapKey.Err? {
      return Err(CryptoError.Kdf);
    }
    var encryptedVaultKey := SealAndFrame(rng, wrapKey.value.data[..], vaultKey);
    return Ok(WrappedVaultKey(ephPub, ct, encryptedVaultKey));
  }

  method UnwrapVaultKey(wrapped: WrappedVaultKey<Sym>, kp: UserKeypair) returns (r: Result<Str>)
    requires |wrapped.ephPubKey| == CURVE_LEN && |kp.mlkemDecap| == KEM_SEED_LEN && |kp.x25519Public| == CURVE_LEN
    ensures r == SharedUnwrap(wrapped, kp)
  {
    var shared := DiffieHellman(kp.x25519Private, wrapped.ephPubKey);
    if shared == Zeros(CURVE_LEN) {
      return Err(InvalidPublicKey);
    }
    var ss := Decapsulated(kp, wrapped.mlkemCiphertext);
    if ss.Err? {
      return Err(InvalidInput);
    }
    var wrapKey, _ := HybridWrapKey(ss.value, shared, wrapped.mlkemCiphertext, wrapped.ephPubKey, kp.x25519Public);
    if wrapKey.Err? {
      return Err(CryptoError.Kdf);
    }
    if |wrapped.encryptedVaultKey| < XCHACHA_NONCE_LEN {
      return Err(InvalidInput);
    }
    var nonce := wrapped.encryptedVaultKey[..XCHACHA_NONCE_LEN];
    var key := NewXChaChaKey(wrapKey.value.data[..], "");
    var plain := OpenBytes(XChaCha20Poly1305, key.value, nonce, [], wrapped.encryptedVaultKey[XCHACHA_NONCE_LEN..]);
    if plain.None? {
      return Err(KeyUnwrap);
    }
    if |plain.value| != 32 {
      return Err(InvalidInput);
    }
    var vaultKey := new Sym[32](_ => Lit(0));
    CopyFromSlice(vaultKey, plain.value);
    return Ok(vaultKey[..]);
  }
}
