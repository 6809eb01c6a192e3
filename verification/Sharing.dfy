/** What the hybrid wrap guarantees: no recombination of wraps, and sharing chains. */
module Sharing {
  import opened Bytes
  import opened Symbolic
  import opened Buffers
  import opened Keypair
  import Kdf

  lemma HybridKeyEqual(a: Str, b: Str, c: Str, d: Str, e: Str, a': Str, b': Str, c': Str, d': Str, e': Str)
    requires |a| == |a'| && |b| == |b'| && |d| == |d'| && |e| == |e'|
    requires HybridKey(a, b, c, d, e) == HybridKey(a', b', c', d', e')
    ensures a == a' && b == b' && c == c' && d == d' && e == e'
  {
    ExpandInjective(HkdfStream(CombinerInput(a, b, c, d, e), Kdf.HKDF_INFO_VAULT_KEY_WRAP), 32,
                    HkdfStream(CombinerInput(a', b', c', d', e'), Kdf.HKDF_INFO_VAULT_KEY_WRAP), 32);
    CombinerInputInjective(a, b, c, d, e, a', b', c', d', e');
  }

  /** Sender and identity agree on the wrap key exactly when the identity sees the wrap's
      own public fields and the wrap was made to both of its public keys. */
  lemma KeysAgreeIff(to: UserPublicKeys, eph: Str, m: Str, seed: Str, ephPub: Str, ct: Str)
    requires |to.x25519| == CURVE_LEN && |ephPub| == CURVE_LEN && |ct| == KEM_CIPHERTEXT_LEN
    ensures (var (c, ss) := KemEncapsulate(to.mlkem, m);
             HybridKey(ss, DiffieHellman(eph, to.x25519), c, CurvePublic(eph), to.x25519)
             == UnwrapKey(ephPub, ct, KeypairOf(seed))
             <==> ephPub == CurvePublic(eph) && ct == c && to == PublicKeys(KeypairOf(seed)))
  {
    var (c, ss) := KemEncapsulate(to.mlkem, m);
    var kp := KeypairOf(seed);
    var mine := KemDecapsulate(kp.mlkemDecap, ct);
    DecapsulateIff(kp.mlkemDecap, ct, to.mlkem, m);
    DiffieHellmanCommutes(eph, kp.x25519Private);
    if HybridKey(ss, DiffieHellman(eph, to.x25519), c, CurvePublic(eph), to.x25519) == UnwrapKey(ephPub, ct, kp) {
      HybridKeyEqual(ss, DiffieHellman(eph, to.x25519), c, CurvePublic(eph), to.x25519,
                     mine, DiffieHellman(kp.x25519Private, ephPub), ct, ephPub, kp.x25519Public);
    }
  }

  /** What a wrap consists of, and when there is none. */
  lemma WrapOutcomes(vaultKey: Str, to: UserPublicKeys, eph: Str, m: Str, nonce: Str)
    ensures var shared := DiffieHellman(eph, to.x25519);
            var (ct, ss) := KemEncapsulate(to.mlkem, m);
            var ephPub := DiffieHellman(eph, BASE_POINT);
            var key := Expand(HkdfStream(ss + shared + ct + ephPub + to.x25519, "evnx-vault-key-wrap-v2"), 32);
            SharedWrap(vaultKey, to, eph, m, nonce) ==
            if shared == Zeros(32) || !KemKeyAccepted(to.mlkem) then Err(InvalidPublicKey)
            else Ok(WrappedVaultKey(ephPub, ct, nonce + SealBytes(XChaCha20Poly1305, key, nonce, [], vaultKey)))
  {
  }

  /** Every outcome of unwrapping, in the order of the checks: a small-order point, lengths, a
      sealed part that was not made under the recipient's key, a sealed key of a wrong length. */
  lemma UnwrapOutcomes(offered: WrappedVaultKey<Sym>, kp: UserKeypair, vaultKey: Str)
    requires |kp.mlkemDecap| == KEM_SEED_LEN
    ensures var evk := offered.encryptedVaultKey;
            if DiffieHellman(kp.x25519Private, offered.ephPubKey) == Zeros(32)
            then SharedUnwrap(offered, kp) == Err(InvalidPublicKey)
            else if |offered.mlkemCiphertext| != 1088 || |evk| < 24 then SharedUnwrap(offered, kp) == Err(InvalidInput)
            else
              var ss := KemDecapsulate(kp.mlkemDecap, offered.mlkemCiphertext);
              var shared := DiffieHellman(kp.x25519Private, offered.ephPubKey);
              var ikm := ss + shared + offered.mlkemCiphertext + offered.ephPubKey + kp.x25519Public;
              var key := Expand(HkdfStream(ikm, "evnx-vault-key-wrap-v2"), 32);
              && (evk[24..] == SealBytes(XChaCha20Poly1305, key, evk[..24], [], vaultKey) ==>
                    SharedUnwrap(offered, kp) == if |vaultKey| == 32 then Ok(vaultKey) else Err(InvalidInput))
              && ((forall text :: evk[24..] != SealBytes(XChaCha20Poly1305, key, evk[..24], [], text)) ==>
                    SharedUnwrap(offered, kp) == Err(KeyUnwrap))
  {
    if |offered.mlkemCiphertext| == 1088 && |offered.encryptedVaultKey| >= 24 {
      var nonce := offered.encryptedVaultKey[..24];
      var key := UnwrapKey(offered.ephPubKey, offered.mlkemCiphertext, kp);
      OpenOfSeal(XChaCha20Poly1305, key, nonce, [], vaultKey, XChaCha20Poly1305, key, nonce, []);
    }
  }

  /** Whatever accompanies the sealed part of an honest wrap, unwrapping succeeds exactly on
      the wrap as it was made and for the identity it was made to, and gives its key. In
      particular a mismatch never succeeds although decapsulation always does. */
  lemma UnwrapIff(vaultKey: Str, to: UserPublicKeys, eph: Str, m: Str, nonce: Str,
                  made: WrappedVaultKey<Sym>, seed: Str, offered: WrappedVaultKey<Sym>)
    requires |vaultKey| == 32 && |nonce| == XCHACHA_NONCE_LEN && |to.x25519| == CURVE_LEN
    requires SharedWrap(vaultKey, to, eph, m, nonce) == Ok(made)
    requires |offered.ephPubKey| == CURVE_LEN
    requires |offered.encryptedVaultKey| >= XCHACHA_NONCE_LEN
    requires offered.encryptedVaultKey[XCHACHA_NONCE_LEN..] == made.encryptedVaultKey[XCHACHA_NONCE_LEN..]
    ensures SharedUnwrap(offered, KeypairOf(seed)).Ok? <==> offered == made && to == PublicKeys(KeypairOf(seed))
    ensures SharedUnwrap(offered, KeypairOf(seed)).Ok? ==> SharedUnwrap(offered, KeypairOf(seed)).value == vaultKey
    ensures DiffieHellman(X25519Of(seed), offered.ephPubKey) != Zeros(32) ==>
              SharedUnwrap(offered, KeypairOf(seed)) ==
              if |offered.mlkemCiphertext| != 1088 then Err(InvalidInput)
              else if offered == made && to == PublicKeys(KeypairOf(seed)) then Ok(vaultKey) else Err(KeyUnwrap)
  {
    var kp := KeypairOf(seed);
    var (c, ss) := KemEncapsulate(to.mlkem, m);
    var key := HybridKey(ss, DiffieHellman(eph, to.x25519), c, CurvePublic(eph), to.x25519);
    var evk := offered.encryptedVaultKey;
    assert made.encryptedVaultKey[..XCHACHA_NONCE_LEN] == nonce;
    assert evk[XCHACHA_NONCE_LEN..] == SealBytes(XChaCha20Poly1305, key, nonce, [], vaultKey);
    assert evk == evk[..XCHACHA_NONCE_LEN] + evk[XCHACHA_NONCE_LEN..];
    DiffieHellmanCommutes(eph, kp.x25519Private);
    if |offered.mlkemCiphertext| == KEM_CIPHERTEXT_LEN {
      KeysAgreeIff(to, eph, m, seed, offered.ephPubKey, offered.mlkemCiphertext);
      OpenOfSeal(XChaCha20Poly1305, key, nonce, [], vaultKey, XChaCha20Poly1305,
                 UnwrapKey(offered.ephPubKey, offered.mlkemCiphertext, kp), evk[..XCHACHA_NONCE_LEN], []);
    }
  }

  /** An identity's own public keys can always be wrapped to. */
  lemma HonestBundleAccepted(vaultKey: Str, seed: Str, eph: Str, m: Str, nonce: Str)
    ensures SharedWrap(vaultKey, PublicKeys(KeypairOf(seed)), eph, m, nonce).Ok?
  {
    DiffieHellmanCommutes(eph, X25519Of(seed));
  }

  /** Both sides refuse a small-order point, before anything is derived and whatever the
      private key, and neither refuses any other point for that reason. */
  lemma LowOrderIsRefused(vaultKey: Str, to: UserPublicKeys, eph: Str, m: Str, nonce: Str,
                          wrapped: WrappedVaultKey<Sym>, kp: UserKeypair)
    requires |kp.mlkemDecap| == KEM_SEED_LEN
    ensures LowOrder(PointOf(to.x25519).0) ==> SharedWrap(vaultKey, to, eph, m, nonce) == Err(InvalidPublicKey)
    ensures SharedWrap(vaultKey, to, eph, m, nonce).Err? ==> LowOrder(PointOf(to.x25519).0) || !KemKeyAccepted(to.mlkem)
    ensures SharedUnwrap(wrapped, kp) == Err(InvalidPublicKey) <==> LowOrder(PointOf(wrapped.ephPubKey).0)
  {
    ZeroIffLowOrder(eph, to.x25519);
    ZeroIffLowOrder(kp.x25519Private, wrapped.ephPubKey);
  }

  // ----- Many wraps -----

  /** One honest wrap and the numbers of the draws it consumed. */
  datatype Wrap = Wrap(vaultKey: Str, to: UserPublicKeys, eph: nat, encaps: nat, nonce: nat)

  function Made(w: Wrap): Result<WrappedVaultKey<Sym>> {
    SharedWrap(w.vaultKey, w.to, Draw(Ephemeral, w.eph, 32), Draw(Encaps, w.encaps, 32),
               Draw(Nonce, w.nonce, XCHACHA_NONCE_LEN))
  }

  ghost predicate FreshWraps(ws: seq<Wrap>) {
    && (forall i | 0 <= i < |ws| :: Made(ws[i]).Ok? && |ws[i].vaultKey| == 32 && |ws[i].to.x25519| == CURVE_LEN)
    && (forall i, j | 0 <= i < j < |ws| :: ws[i].eph != ws[j].eph && ws[i].encaps != ws[j].encaps)
  }

  lemma DifferentDraws(v: Wrap, w: Wrap)
    requires Made(v).Ok? && Made(w).Ok?
    ensures v.eph != w.eph ==> Made(v).value.ephPubKey != Made(w).value.ephPubKey
    ensures v.encaps != w.encaps ==> Made(v).value.mlkemCiphertext != Made(w).value.mlkemCiphertext
  {
    var e, e' := Draw(Ephemeral, v.eph, 32), Draw(Ephemeral, w.eph, 32);
    assert e[0] == Of(Fresh(Ephemeral, v.eph), 0) && e'[0] == Of(Fresh(Ephemeral, w.eph), 0);
    CurvePublicIs(e);
    CurvePublicIs(e');
    if Made(v).value.ephPubKey == Made(w).value.ephPubKey {
      assert Scalar(e) in multiset{Scalar(e')};
    }
    var m, m' := Draw(Encaps, v.encaps, 32), Draw(Encaps, w.encaps, 32);
    assert m[0] == Of(Fresh(Encaps, v.encaps), 0) && m'[0] == Of(Fresh(Encaps, w.encaps), 0);
    RootOfExpand(KemCiphertext(v.to.mlkem, m), KEM_CIPHERTEXT_LEN);
    RootOfExpand(KemCiphertext(w.to.mlkem, m'), KEM_CIPHERTEXT_LEN);
  }

  /** Over any set of wraps with fresh randomness, a mixture of three fields unwraps exactly
      when all three come from one wrap made to both public keys of the identity; any other
      mixture fails at the tag, although decapsulation never reports anything. */
  lemma NoRecombination(ws: seq<Wrap>, i: nat, j: nat, l: nat, seed: Str)
    requires FreshWraps(ws) && i < |ws| && j < |ws| && l < |ws|
    ensures var mixed := WrappedVaultKey(Made(ws[i]).value.ephPubKey, Made(ws[j]).value.mlkemCiphertext,
                                         Made(ws[l]).value.encryptedVaultKey);
            SharedUnwrap(mixed, KeypairOf(seed)) ==
            if i == j == l && ws[l].to == PublicKeys(KeypairOf(seed)) then Ok(ws[l].vaultKey) else Err(KeyUnwrap)
  {
    var w := ws[l];
    var mixed := WrappedVaultKey(Made(ws[i]).value.ephPubKey, Made(ws[j]).value.mlkemCiphertext,
                                 Made(w).value.encryptedVaultKey);
    UnwrapIff(w.vaultKey, w.to, Draw(Ephemeral, w.eph, 32), Draw(Encaps, w.encaps, 32),
              Draw(Nonce, w.nonce, XCHACHA_NONCE_LEN), Made(w).value, seed, mixed);
    DifferentDraws(ws[i], w);
    DifferentDraws(ws[j], w);
    DiffieHellmanCommutes(X25519Of(seed), Draw(Ephemeral, ws[i].eph, 32));
  }

  // ----- Chains -----

  datatype SealUnder = SealUnder(masterKey: Str, nonce: Str)

  /** Seal and unseal an identity again and again. */
  function Restored(kp: UserKeypair, seals: seq<SealUnder>): Result<UserKeypair>
    decreases |seals|
  {
    if seals == [] then Ok(kp)
    else
      var next :- UnsealedIdentity(SealedIdentity(kp.ed25519Seed, seals[0].masterKey, seals[0].nonce),
                                   seals[0].masterKey);
      Restored(next, seals[1..])
  }

  lemma {:induction false} RestoredIsIdentity(seed: Str, seals: seq<SealUnder>)
    requires |seed| == ED25519_PRIVATE_LEN
    ensures Restored(KeypairOf(seed), seals) == Ok(KeypairOf(seed))
    decreases |seals|
  {
    if seals != [] {
      UnsealIff(seed, seals[0].masterKey, seals[0].nonce, seals[0].masterKey);
      RestoredIsIdentity(seed, seals[1..]);
    }
  }

  /** A member receives the key by a wrap made to the keys published at registration, after
      restoring the identity any number of times. */
  datatype Hop = Hop(seed: Str, seals: seq<SealUnder>, eph: Str, m: Str, nonce: Str)

  function PassedAlong(vaultKey: Str, hops: seq<Hop>): Result<Str>
    requires forall h | h in hops :: |h.seed| == ED25519_PRIVATE_LEN && |h.nonce| == XCHACHA_NONCE_LEN
    decreases |hops|
  {
    if hops == [] then Ok(vaultKey)
    else
      var h := hops[0];
      RestoredIsIdentity(h.seed, h.seals);
      var kp :- Restored(KeypairOf(h.seed), h.seals);
      var wrapped :- SharedWrap(vaultKey, PublicKeys(KeypairOf(h.seed)), h.eph, h.m, h.nonce);
      var received :- SharedUnwrap(wrapped, kp);
      PassedAlong(received, hops[1..])
  }

  /** However long the chain of seals, shares and re-shares, its last member holds the
      original vault key. */
  lemma {:induction false} ChainDeliversTheKey(vaultKey: Str, hops: seq<Hop>)
    requires |vaultKey| == 32
    requires forall h | h in hops :: |h.seed| == ED25519_PRIVATE_LEN && |h.nonce| == XCHACHA_NONCE_LEN
    ensures PassedAlong(vaultKey, hops) == Ok(vaultKey)
    decreases |hops|
  {
    if hops != [] {
      var h := hops[0];
      RestoredIsIdentity(h.seed, h.seals);
      HonestBundleAccepted(vaultKey, h.seed, h.eph, h.m, h.nonce);
      var made := SharedWrap(vaultKey, PublicKeys(KeypairOf(h.seed)), h.eph, h.m, h.nonce).value;
      UnwrapIff(vaultKey, PublicKeys(KeypairOf(h.seed)), h.eph, h.m, h.nonce, made, h.seed, made);
      ChainDeliversTheKey(vaultKey, hops[1..]);
    }
  }
}
