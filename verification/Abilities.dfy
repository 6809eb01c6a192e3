/** What the server can do with what it knows: all that a user can, and more. */
module Abilities {
  import opened Bytes
  import opened Symbolic
  import opened Keypair
  import opened Secrecy
  import opened Protocol
  import opened Limits
  import Kdf
  import Vault

  lemma LearnsDerived(w: World, s: State, t: State, ikm: Str, info: string, n: nat) returns (u: State)
    requires Computes(w, s, t) && Knows(t, ikm)
    ensures Computes(w, s, u) && t.known <= u.known && Knows(u, Expand(HkdfStream(ikm, info), n))
  {
    ComputesMore(w, s, t, DeriveKey(ikm, info, n));
    u := AfterMove(w, t, DeriveKey(ikm, info, n));
  }

  /** With a seed, the whole identity. */
  lemma ServerDerivesIdentity(w: World, s: State, t: State, seed: Str) returns (u: State)
    requires Computes(w, s, t) && Knows(t, seed) && t.known >= Init().known
    ensures Computes(w, s, u) && t.known <= u.known
    ensures var kp := KeypairOf(seed);
            && Knows(u, kp.x25519Private) && Knows(u, kp.mlkemDecap)
            && Knows(u, kp.ed25519Public) && Knows(u, kp.x25519Public) && Knows(u, kp.mlkemPublic)
  {
    var kp := KeypairOf(seed);
    var t1 := LearnsDerived(w, s, t, seed, Kdf.HKDF_INFO_X25519_DERIVE, 32);
    var t2 := LearnsDerived(w, s, t1, seed, Kdf.HKDF_INFO_MLKEM_DERIVE, 64);
    var t3 := LearnsShared(w, s, t2, kp.x25519Private, BASE_POINT);
    u := LearnsPublicKeys(w, s, t3, seed, kp.mlkemDecap);
  }

  lemma LearnsPublicKeys(w: World, s: State, t: State, seed: Str, kemSeed: Str) returns (u: State)
    requires Computes(w, s, t) && Knows(t, seed) && Knows(t, kemSeed)
    ensures Computes(w, s, u) && t.known <= u.known
    ensures Knows(u, Expand(Ed25519Public(seed), 32)) && Knows(u, KemPublicKey(kemSeed))
  {
    ComputesMore(w, s, t, SigningPublic(seed));
    var t1 := AfterMove(w, t, SigningPublic(seed));
    ComputesMore(w, s, t1, GenerateKemKey(kemSeed));
    u := AfterMove(w, t1, GenerateKemKey(kemSeed));
  }

  lemma LearnsDecapsulated(w: World, s: State, t: State, kemSeed: Str, ct: Str) returns (u: State)
    requires Computes(w, s, t) && Knows(t, kemSeed) && Knows(t, ct)
    requires |kemSeed| == KEM_SEED_LEN && |ct| == KEM_CIPHERTEXT_LEN
    ensures Computes(w, s, u) && t.known <= u.known && Knows(u, KemDecapsulate(kemSeed, ct))
  {
    KnowsConcat(t, kemSeed, ct);
    ComputesMore(w, s, t, Decapsulate(kemSeed, ct));
    u := AfterMove(w, t, Decapsulate(kemSeed, ct));
  }

  lemma LearnsOpened(w: World, s: State, t: State, alg: Aead, key: Str, nonce: Str, aad: seq<byte>, ct: Str)
    returns (u: State)
    requires Computes(w, s, t) && Knows(t, key) && Knows(t, nonce) && Knows(t, ct)
    requires OpenBytes(alg, key, nonce, aad, ct).Some?
    ensures Computes(w, s, u) && t.known <= u.known && Knows(u, OpenBytes(alg, key, nonce, aad, ct).value)
  {
    KnowsConcat(t, key, nonce);
    KnowsConcat(t, key + nonce, ct);
    ComputesMore(w, s, t, OpenMessage(alg, key, nonce, aad, ct));
    u := AfterMove(w, t, OpenMessage(alg, key, nonce, aad, ct));
  }

  /** With a user's seed, the key in every wrap that user could unwrap. */
  lemma ServerUnwraps(w: World, s: State, t: State, seed: Str, offered: WrappedVaultKey<Sym>) returns (u: State)
    requires Computes(w, s, t) && Knows(t, seed) && t.known >= Init().known
    requires Knows(t, offered.ephPubKey) && Knows(t, offered.mlkemCiphertext) && Knows(t, offered.encryptedVaultKey)
    requires SharedUnwrap(offered, KeypairOf(seed)).Ok?
    ensures Computes(w, s, u) && Knows(u, SharedUnwrap(offered, KeypairOf(seed)).value)
  {
    var kp := KeypairOf(seed);
    var t1 := ServerDerivesIdentity(w, s, t, seed);
    var t2 := LearnsShared(w, s, t1, kp.x25519Private, offered.ephPubKey);
    var t3 := LearnsDecapsulated(w, s, t2, kp.mlkemDecap, offered.mlkemCiphertext);
    var t4 := ComputesWrapKey(w, s, t3, KemDecapsulate(kp.mlkemDecap, offered.mlkemCiphertext),
                              DiffieHellman(kp.x25519Private, offered.ephPubKey),
                              offered.mlkemCiphertext, offered.ephPubKey, kp.x25519Public);
    var evk := offered.encryptedVaultKey;
    u := LearnsOpened(w, s, t4, XChaCha20Poly1305, UnwrapKey(offered.ephPubKey, offered.mlkemCiphertext, kp),
                      evk[..XCHACHA_NONCE_LEN], [], evk[XCHACHA_NONCE_LEN..]);
  }

  /** With a password and its salt, the master key and what is sealed under it: the identity's
      seed and the solo-wrapped keys. */
  lemma ServerUnseals(w: World, s: State, t: State, password: Str, salt: Str,
                      enc: EncryptedPrivateKey<Sym>, wrapped: Str)
    returns (u: State)
    requires Computes(w, s, t) && Knows(t, password) && Knows(t, salt)
    requires Knows(t, enc.nonce) && Knows(t, enc.ciphertext) && Knows(t, wrapped)
    ensures Computes(w, s, u)
    ensures var master := Kdf.MasterKeyOf(password, salt);
            && (UnsealedIdentity(enc, master).Ok? ==> Knows(u, UnsealedIdentity(enc, master).value.ed25519Seed))
            && (Vault.MasterUnwrapped(wrapped, master).Ok? ==> Knows(u, Vault.MasterUnwrapped(wrapped, master).value))
  {
    var master := Kdf.MasterKeyOf(password, salt);
    KnowsConcat(t, password, salt);
    var hash := HashPassword(Kdf.KDF_DOMAIN_MASTER_KEY, password, salt, Kdf.MASTER_KEY_LEN);
    ComputesMore(w, s, t, hash);
    var t1 := LearnsDerived(w, s, AfterMove(w, t, hash), master, Kdf.HKDF_INFO_PRIVATE_KEY_ENC, 32);
    var t2 := LearnsDerived(w, s, t1, master, Kdf.HKDF_INFO_VAULT_KEY_WRAP_MK, 32);
    u := t2;
    if UnsealedIdentity(enc, master).Ok? {
      u := LearnsOpened(w, s, u, XChaCha20Poly1305, IdentitySealKey(master), enc.nonce, [], enc.ciphertext);
    }
    if Vault.MasterUnwrapped(wrapped, master).Ok? {
      u := LearnsOpened(w, s, u, XChaCha20Poly1305, Vault.MasterWrapKey(master), wrapped[..24], [], wrapped[24..]);
    }
  }

  /** With a vault key, every blob under it. */
  lemma ServerDecrypts(w: World, s: State, t: State, key: Str, aad: seq<byte>, blob: Vault.EncryptedBlob)
    returns (u: State)
    requires Computes(w, s, t) && Knows(t, key) && Knows(t, blob.nonce) && Knows(t, blob.ciphertext)
    requires Vault.Opened(blob, key, aad).Ok?
    ensures Computes(w, s, u) && Knows(u, Vault.Opened(blob, key, aad).value)
  {
    u := LearnsOpened(w, s, t, Aes256Gcm, key, blob.nonce, aad, blob.ciphertext);
  }

  // ----- More than a user -----

  /** Undo a multiplication by a known scalar, and encode the result in any way. */
  lemma ServerDivides(w: World, s: State, t: State, sk: Str, base: Str, scalars: multiset<Scalar>, alias: nat)
    returns (u: State)
    requires !LowOrder(base) && Computes(w, s, t) && Knows(t, sk)
    requires Knows(t, Expand(Curve(base, scalars + multiset{Scalar(sk)}, 0), CURVE_LEN))
    ensures Computes(w, s, u) && Knows(u, Expand(Curve(base, scalars, alias), CURVE_LEN))
  {
    var p := Expand(Curve(base, scalars + multiset{Scalar(sk)}, 0), CURVE_LEN);
    RootOfExpand(Curve(base, scalars + multiset{Scalar(sk)}, 0), CURVE_LEN);
    RootOfExpand(Curve(base, scalars, 0), CURVE_LEN);
    assert scalars + multiset{Scalar(sk)} - multiset{Scalar(sk)} == scalars;
    KnowsConcat(t, sk, p);
    ComputesMore(w, s, t, Divide(sk, p));
    var t1 := AfterMove(w, t, Divide(sk, p));
    var q := Expand(Curve(base, scalars, 0), CURVE_LEN);
    ComputesMore(w, s, t1, Reencode(q, alias));
    u := AfterMove(w, t1, Reencode(q, alias));
  }

  /** With ML-KEM broken, the seed behind any published key; and for a public key of its own
      making, the secret in any ciphertext. */
  lemma ServerBreaksKem(w: World, s: State, t: State, kemSeed: Str, ek: Str, m: Str) returns (u: State)
    requires w.kemBroken && Computes(w, s, t) && Knows(t, KemPublicKey(kemSeed))
    requires Knows(t, KemEncapsulate(ek, m).0) && (Root(ek).None? || !Root(ek).value.KemPublic?)
    ensures Computes(w, s, u) && Knows(u, kemSeed) && Knows(u, KemEncapsulate(ek, m).1)
  {
    RootOfExpand(KemPublic(kemSeed), KEM_PUBLIC_LEN);
    RootOfExpand(KemCiphertext(ek, m), KEM_CIPHERTEXT_LEN);
    ComputesMore(w, s, t, BreakKemKey(KemPublicKey(kemSeed)));
    var t1 := AfterMove(w, t, BreakKemKey(KemPublicKey(kemSeed)));
    ComputesMore(w, s, t1, RogueKemKey(KemEncapsulate(ek, m).0));
    u := AfterMove(w, t1, RogueKemKey(KemEncapsulate(ek, m).0));
  }

  /** The SRP password input of any user may leak. */
  lemma SrpPasswordsLeak(w: World, s: State, user: nat)
    requires user in s.users
    ensures Enabled(w, s, LeakSrpPassword(user))
    ensures Knows(Apply(w, s, LeakSrpPassword(user)),
                  Expand(Argon2("evnx-srp-password-v1", s.users[user].password, s.users[user].salt), 32))
  {
  }
}
