/** The invariant of every run, and that each step keeps it. */
module Invariant {
  import opened Bytes
  import opened Symbolic
  import opened Buffers
  import opened Keypair
  import opened Secrecy
  import opened Protocol
  import opened Confinement
  import Kdf
  import Vault

  // ----- What users promise -----

  /** None of the guarded plaintexts occurs in `text`. */
  ghost predicate Disclosable(w: World, text: Str) {
    forall i | 0 <= i < |text| && text[i].Of? && text[i].term.Fresh? && text[i].term.origin == Plaintext ::
      text[i].term !in w.guarded
  }

  /** The step gives no guarded secret to a party that is not trusted with it. */
  ghost predicate Prudent(w: World, s: State, step: Step)
    requires Enabled(w, s, step)
  {
    match step
    case Register(_, seed, password, _, _) => Fresh(Seed, seed) in w.guarded ==> Fresh(Password, password) in w.guarded
    case SoloWrap(user, key, _) => Never(w, key) ==> Never(w, s.users[user].MasterKey())
    case Share(_, key, to, eph, encaps, _) => Never(w, key) ==> SafeWrap(w, to, eph, encaps)
    case Push(_, key, _, _, plaintext, _) => Never(w, key) || Disclosable(w, plaintext)
    case Rekey(_, key, newKey, vaultId, version, blob, _) =>
      || Never(w, newKey)
      || (match Vault.Opened(blob, key, AadFor(vaultId, version))
          case Ok(plaintext) => Disclosable(w, plaintext)
          case Err(_) => true)
    case Corrupt(secret) => secret !in w.guarded
    case _ => true
  }

  ghost predicate PrudentRun(w: World, s: State, steps: seq<Step>)
    requires Runs(w, s, steps)
    decreases |steps|
  {
    steps == [] || (Prudent(w, s, steps[0]) && PrudentRun(w, Apply(w, s, steps[0]), steps[1..]))
  }

  // ----- The invariant -----

  ghost predicate UserOk(w: World, log: iset<Term>, u: User) {
    && RootOrigin(u.password, Password)
    && u.identity == KeypairOf(u.identity.ed25519Seed)
    && SeedLike(w, log, u.identity.ed25519Seed)
    && (Public(w, log, u.identity.ed25519Seed) || Never(w, u.MasterKey()))
  }

  ghost predicate UseOk(w: World, log: iset<Term>, use: Use) {
    match use.purpose
    case VaultSealing => KeyLike(w, log, use.key)
    case IdentitySealing => HasInfo(use.key, Kdf.HKDF_INFO_PRIVATE_KEY_ENC)
    case MasterWrapping => HasInfo(use.key, Kdf.HKDF_INFO_VAULT_KEY_WRAP_MK)
    case HybridWrapping => HasInfo(use.key, Kdf.HKDF_INFO_VAULT_KEY_WRAP)
  }

  predicate HasInfo(key: Str, info: string) {
    match Root(key)
    case Some(HkdfStream(_, i)) => i == info
    case _ => false
  }

  ghost predicate KnownOk(w: World, s: State) { forall x | x in s.known :: PublicSym(w, s.log, x) }
  ghost predicate DocsOk(w: World, s: State) { forall x | x in s.docs :: DocumentSym(w, s.log, x) }
  ghost predicate HeldOk(w: World, s: State) { forall h | h in s.held :: KeyLike(w, s.log, h.1) }
  ghost predicate UsersOk(w: World, s: State) { forall u | u in s.users :: UserOk(w, s.log, s.users[u]) }
  ghost predicate UsesOk(w: World, s: State) { forall u | u in s.uses :: UseOk(w, s.log, u) }

  ghost predicate Inv(w: World, s: State) {
    KnownOk(w, s) && LogOk(w, s.log) && UsersOk(w, s) && HeldOk(w, s) && DocsOk(w, s) && UsesOk(w, s)
  }

  lemma InitInv(w: World)
    ensures Inv(w, Init())
  {
  }

  // ----- Growing the log -----

  lemma KeyLikeGrows(w: World, log: iset<Term>, log': iset<Term>, s: Str)
    requires log <= log'
    ensures KeyLike(w, log, s) ==> KeyLike(w, log', s)
    ensures SeedLike(w, log, s) ==> SeedLike(w, log', s)
  {
    if Public(w, log, s) {
      PublicGrows(w, log, log', s);
    }
  }

  lemma DocumentSymGrows(w: World, log: iset<Term>, log': iset<Term>, x: Sym)
    requires log <= log' && DocumentSym(w, log, x)
    ensures DocumentSym(w, log', x)
  {
    if PublicSym(w, log, x) {
      PublicSymGrows(w, log, log', x);
    }
  }

  lemma EntryGrows(w: World, log: iset<Term>, log': iset<Term>, t: Term)
    requires log <= log' && Entry(w, log, t)
    ensures Entry(w, log', t)
  {
    if Public(w, log, t.message) {
      PublicGrows(w, log, log', t.message);
    }
    KeyLikeGrows(w, log, log', t.message);
    if t.alg == Aes256Gcm {
      forall i | 0 <= i < |t.message| ensures DocumentSym(w, log', t.message[i]) {
        DocumentSymGrows(w, log, log', t.message[i]);
      }
    }
  }

  lemma UserOkGrows(w: World, log: iset<Term>, log': iset<Term>, u: User)
    requires log <= log' && UserOk(w, log, u)
    ensures UserOk(w, log', u)
  {
    KeyLikeGrows(w, log, log', u.identity.ed25519Seed);
    if Public(w, log, u.identity.ed25519Seed) {
      PublicGrows(w, log, log', u.identity.ed25519Seed);
    }
  }

  /** Logging one more good entry keeps everything. */
  lemma InvGrows(w: World, s: State, t: Term)
    requires Inv(w, s) && Entry(w, s.log, t)
    ensures Inv(w, s.(log := s.log + iset{t}))
  {
    var log' := s.log + iset{t};
    var s' := s.(log := log');
    forall x | x in s.known ensures PublicSym(w, log', x) { PublicSymGrows(w, s.log, log', x); }
    forall e | e in log' ensures Entry(w, log', e) { EntryGrows(w, s.log, log', e); }
    forall u | u in s.users ensures UserOk(w, log', s.users[u]) { UserOkGrows(w, s.log, log', s.users[u]); }
    forall h | h in s.held ensures KeyLike(w, log', h.1) { KeyLikeGrows(w, s.log, log', h.1); }
    forall x | x in s.docs ensures DocumentSym(w, log', x) { DocumentSymGrows(w, s.log, log', x); }
    forall u | u in s.uses ensures UseOk(w, log', u) { KeyLikeGrows(w, s.log, log', u.key); }
  }

  /** Publishing a public string keeps everything. */
  lemma InvLearns(w: World, s: State, text: Str)
    requires Inv(w, s) && Public(w, s.log, text)
    ensures Inv(w, s.(known := s.known + Chars(text)))
  {
  }

  lemma InvUses(w: World, s: State, use: Use)
    requires Inv(w, s) && UseOk(w, s.log, use)
    ensures Inv(w, s.(uses := s.uses + iset{use}))
  {
  }

  lemma KnownIsPublic(w: World, s: State, text: Str)
    requires KnownOk(w, s) && Knows(s, text)
    ensures Public(w, s.log, text)
  {
  }

  // ----- Subkeys -----

  /** A purpose-specific subkey is as public as the key it comes from. */
  lemma SubkeyPublicIff(w: World, log: iset<Term>, key: Str, info: string)
    requires info != Kdf.HKDF_INFO_X25519_DERIVE && info != Kdf.HKDF_INFO_MLKEM_DERIVE
    ensures Public(w, log, Kdf.Subkey(key, info)) <==> Public(w, log, key)
    ensures HasInfo(Kdf.Subkey(key, info), info)
  {
    RootOfExpand(HkdfStream(key, info), 32);
    PublicExpand(w, log, HkdfStream(key, info), 32);
  }

  /** A sealing: the term it logs, and that its ciphertext is then public. */
  lemma SealedIsPublic(w: World, log: iset<Term>, nonce: Str, alg: Aead, key: Str, aad: seq<byte>, message: Str)
    requires Public(w, log, nonce) && Sealed(alg, key, nonce, aad, message) in log
    ensures Public(w, log, nonce + SealBytes(alg, key, nonce, aad, message))
  {
    PublicExpand(w, log, Sealed(alg, key, nonce, aad, message), |message| + TAG_LEN);
    PublicConcat(w, log, nonce, SealBytes(alg, key, nonce, aad, message));
  }

  // ----- Steps -----

  lemma SealIdentityKeepsInv(w: World, s: State, master: Str, seed: Str, nonce: nat)
    requires Inv(w, s) && SeedLike(w, s.log, seed) && (Public(w, s.log, seed) || Never(w, master))
    ensures Inv(w, SealIdentity(s, master, seed, XNonce(nonce)))
  {
    var key := IdentitySealKey(master);
    SubkeyPublicIff(w, AnyLog(), master, Kdf.HKDF_INFO_PRIVATE_KEY_ENC);
    var t := Sealed(XChaCha20Poly1305, key, XNonce(nonce), [], seed);
    InvGrows(w, s, t);
    var s1 := s.(log := s.log + iset{t});
    SealedIsPublic(w, s1.log, XNonce(nonce), XChaCha20Poly1305, key, [], seed);
    var enc := SealedIdentity(seed, master, XNonce(nonce));
    InvLearns(w, s1, enc.nonce + enc.ciphertext);
    var s2 := s1.(known := s1.known + Chars(enc.nonce + enc.ciphertext));
    InvUses(w, s2, Use(IdentitySealing, key));
    assert SealIdentity(s, master, seed, XNonce(nonce)) == s2.(uses := s2.uses + iset{Use(IdentitySealing, key)});
  }

  /** The keys published for any seed are public values. */
  lemma PublishedIsPublic(w: World, log: iset<Term>, seed: Str)
    ensures var kp := KeypairOf(seed);
            Public(w, log, kp.ed25519Public + kp.x25519Public + kp.mlkemPublic)
  {
    var kp := KeypairOf(seed);
    CurvePublicIs(X25519Of(seed));
    PublicExpand(w, log, HkdfStream(seed, Kdf.HKDF_INFO_X25519_DERIVE), X25519_PRIVATE_LEN);
    PublicExpand(w, log, HkdfStream(seed, Kdf.HKDF_INFO_MLKEM_DERIVE), KEM_SEED_LEN);
    PublicExpand(w, log, Curve(BASE_POINT, multiset{Scalar(X25519Of(seed))}, 0), CURVE_LEN);
    PublicExpand(w, log, KemPublic(MlKemSeedOf(seed)), KEM_PUBLIC_LEN);
    PublicConcat(w, log, kp.ed25519Public, kp.x25519Public);
    PublicConcat(w, log, kp.ed25519Public + kp.x25519Public, kp.mlkemPublic);
  }

  lemma MasterKeyNever(w: World, password: nat, salt: Str)
    requires Fresh(Password, password) in w.guarded
    ensures Never(w, Kdf.MasterKeyOf(PasswordDraw(password), salt))
  {
    PublicExpand(w, AnyLog(), Fresh(Password, password), 1);
    PublicExpand(w, AnyLog(), Argon2(Kdf.KDF_DOMAIN_MASTER_KEY, PasswordDraw(password), salt), Kdf.MASTER_KEY_LEN);
  }

  lemma RegisterKeepsInv(w: World, s: State, user: nat, seed: nat, password: nat, salt: nat, nonce: nat)
    requires Inv(w, s)
    requires Fresh(Seed, seed) in w.guarded ==> Fresh(Password, password) in w.guarded
    ensures Inv(w, AfterRegister(s, user, seed, password, salt, nonce))
  {
    var kp := KeypairOf(SeedDraw(seed));
    var u := User(PasswordDraw(password), SaltDraw(salt), kp);
    RootOfExpand(Fresh(Seed, seed), ED25519_PRIVATE_LEN);
    RootOfExpand(Fresh(Password, password), 1);
    PublicExpand(w, s.log, Fresh(Seed, seed), ED25519_PRIVATE_LEN);
    if Fresh(Password, password) in w.guarded {
      MasterKeyNever(w, password, u.salt);
    }
    PublishedIsPublic(w, s.log, SeedDraw(seed));
    PublicConcat(w, s.log, kp.ed25519Public + kp.x25519Public + kp.mlkemPublic, u.salt);
    InvLearns(w, s, kp.ed25519Public + kp.x25519Public + kp.mlkemPublic + u.salt);
    var s1 := s.(known := s.known + Chars(kp.ed25519Public + kp.x25519Public + kp.mlkemPublic + u.salt),
                 users := s.users[user := u]);
    SealIdentityKeepsInv(w, s1, u.MasterKey(), kp.ed25519Seed, nonce);
  }

  lemma LoginKeepsInv(w: World, s: State, user: nat, enc: EncryptedPrivateKey<Sym>)
    requires Inv(w, s) && user in s.users && Knows(s, enc.nonce) && Knows(s, enc.ciphertext)
    ensures Inv(w, AfterLogin(s, user, enc))
  {
    var u := s.users[user];
    var key := IdentitySealKey(u.MasterKey());
    SubkeyPublicIff(w, s.log, u.MasterKey(), Kdf.HKDF_INFO_PRIVATE_KEY_ENC);
    SubkeyPublicIff(w, AnyLog(), u.MasterKey(), Kdf.HKDF_INFO_PRIVATE_KEY_ENC);
    InvUses(w, s, Use(IdentitySealing, key));
    KnownIsPublic(w, s, enc.ciphertext);
    if UnsealedIdentity(enc, u.MasterKey()).Ok? {
      OpenedIsConfined(w, s.log, XChaCha20Poly1305, key, enc.nonce, [], enc.ciphertext);
      var kp := UnsealedIdentity(enc, u.MasterKey()).value;
      assert UserOk(w, s.log, u.(identity := kp));
    }
  }

  lemma SoloWrapKeepsInv(w: World, s: State, user: nat, key: Str, nonce: nat)
    requires Inv(w, s) && user in s.users && (user, key) in s.held
    requires Never(w, key) ==> Never(w, s.users[user].MasterKey())
    ensures Inv(w, AfterSoloWrap(s, user, key, nonce))
  {
    var master := s.users[user].MasterKey();
    var wrapKey := Vault.MasterWrapKey(master);
    assert KeyLike(w, s.log, (user, key).1);
    NotPublicIsNever(w, s.log, key);
    SubkeyPublicIff(w, AnyLog(), master, Kdf.HKDF_INFO_VAULT_KEY_WRAP_MK);
    var t := Sealed(XChaCha20Poly1305, wrapKey, XNonce(nonce), [], key);
    InvGrows(w, s, t);
    var s1 := s.(log := s.log + iset{t});
    SealedIsPublic(w, s1.log, XNonce(nonce), XChaCha20Poly1305, wrapKey, [], key);
    var out := Vault.MasterWrapped(key, master, XNonce(nonce));
    InvLearns(w, s1, out);
    var s2 := s1.(known := s1.known + Chars(out));
    InvUses(w, s2, Use(MasterWrapping, wrapKey));
    assert AfterSoloWrap(s, user, key, nonce) == s2.(uses := s2.uses + iset{Use(MasterWrapping, wrapKey)});
  }

  /** A key that comes out of either kind of unwrap is a vault key or public. */
  lemma UnwrappedIsKeyLike(w: World, log: iset<Term>, key: Str, nonce: Str, ct: Str)
    requires LogOk(w, log) && Public(w, log, ct)
    requires HasInfo(key, Kdf.HKDF_INFO_VAULT_KEY_WRAP) || HasInfo(key, Kdf.HKDF_INFO_VAULT_KEY_WRAP_MK)
    requires OpenBytes(XChaCha20Poly1305, key, nonce, [], ct).Some?
    ensures KeyLike(w, log, OpenBytes(XChaCha20Poly1305, key, nonce, [], ct).value)
  {
    OpenedIsConfined(w, log, XChaCha20Poly1305, key, nonce, [], ct);
  }

  lemma KnowsSuffix(s: State, text: Str, k: nat)
    requires Knows(s, text) && k <= |text|
    ensures Knows(s, text[k..])
  {
  }

  lemma SoloUnwrapKeepsInv(w: World, s: State, user: nat, wrapped: Str)
    requires Inv(w, s) && user in s.users && Knows(s, wrapped)
    ensures Inv(w, AfterSoloUnwrap(s, user, wrapped))
  {
    var master := s.users[user].MasterKey();
    var key := Vault.MasterWrapKey(master);
    SubkeyPublicIff(w, s.log, master, Kdf.HKDF_INFO_VAULT_KEY_WRAP_MK);
    InvUses(w, s, Use(MasterWrapping, key));
    if Vault.MasterUnwrapped(wrapped, master).Ok? {
      KnowsSuffix(s, wrapped, XCHACHA_NONCE_LEN);
      KnownIsPublic(w, s, wrapped[XCHACHA_NONCE_LEN..]);
      UnwrappedIsKeyLike(w, s.log, key, wrapped[..XCHACHA_NONCE_LEN], wrapped[XCHACHA_NONCE_LEN..]);
    }
  }

  lemma ShareKeepsInv(w: World, s: State, user: nat, key: Str, to: UserPublicKeys, eph: nat, encaps: nat, nonce: nat)
    requires Inv(w, s) && (user, key) in s.held
    requires Never(w, key) ==> SafeWrap(w, to, eph, encaps)
    ensures Inv(w, AfterShare(s, key, to, eph, encaps, nonce))
  {
    var e, m := Draw(Ephemeral, eph, 32), Draw(Encaps, encaps, 32);
    if SharedWrap(key, to, e, m, XNonce(nonce)).Ok? {
      var made := SharedWrap(key, to, e, m, XNonce(nonce)).value;
      var wrapKey := SenderKey(to, eph, encaps);
      var (ct, ss) := KemEncapsulate(to.mlkem, m);
      var ikm := CombinerInput(ss, DiffieHellman(e, to.x25519), ct, CurvePublic(e), to.x25519);
      SubkeyPublicIff(w, s.log, ikm, Kdf.HKDF_INFO_VAULT_KEY_WRAP);
      assert KeyLike(w, s.log, (user, key).1);
      NotPublicIsNever(w, s.log, key);
      if Never(w, key) {
        SafeWrapKeyNever(w, to, eph, encaps);
      }
      var t := Sealed(XChaCha20Poly1305, wrapKey, XNonce(nonce), [], key);
      InvGrows(w, s, t);
      var s1 := s.(log := s.log + iset{t});
      SealedIsPublic(w, s1.log, XNonce(nonce), XChaCha20Poly1305, wrapKey, [], key);
      WrapFieldsArePublic(w, s1.log, to.mlkem, eph, encaps);
      PublicConcat(w, s1.log, CurvePublic(e), ct);
      PublicConcat(w, s1.log, CurvePublic(e) + ct, made.encryptedVaultKey);
      var out := made.ephPubKey + made.mlkemCiphertext + made.encryptedVaultKey;
      InvLearns(w, s1, out);
      var s2 := s1.(known := s1.known + Chars(out));
      InvUses(w, s2, Use(HybridWrapping, wrapKey));
      assert AfterShare(s, key, to, eph, encaps, nonce) == s2.(uses := s2.uses + iset{Use(HybridWrapping, wrapKey)});
    }
  }

  lemma WrapFieldsArePublic(w: World, log: iset<Term>, ek: Str, eph: nat, encaps: nat)
    ensures Public(w, log, CurvePublic(Draw(Ephemeral, eph, 32)))
    ensures Public(w, log, KemEncapsulate(ek, Draw(Encaps, encaps, 32)).0)
  {
    var e := Draw(Ephemeral, eph, 32);
    CurvePublicIs(e);
    PublicExpand(w, log, Fresh(Ephemeral, eph), 32);
    PublicExpand(w, log, Fresh(Encaps, encaps), 32);
    PublicExpand(w, log, Curve(BASE_POINT, multiset{Scalar(e)}, 0), CURVE_LEN);
  }

  lemma AcceptKeepsInv(w: World, s: State, user: nat, offered: WrappedVaultKey<Sym>)
    requires Inv(w, s) && user in s.users && Knows(s, offered.encryptedVaultKey)
    ensures Inv(w, AfterAccept(s, user, offered))
  {
    var kp := s.users[user].identity;
    if Attempted(offered, kp) {
      var key := UnwrapKey(offered.ephPubKey, offered.mlkemCiphertext, kp);
      var ikm := CombinerInput(KemDecapsulate(kp.mlkemDecap, offered.mlkemCiphertext),
                               DiffieHellman(kp.x25519Private, offered.ephPubKey),
                               offered.mlkemCiphertext, offered.ephPubKey, kp.x25519Public);
      SubkeyPublicIff(w, s.log, ikm, Kdf.HKDF_INFO_VAULT_KEY_WRAP);
      InvUses(w, s, Use(HybridWrapping, key));
      if SharedUnwrap(offered, kp).Ok? {
        var evk := offered.encryptedVaultKey;
        KnowsSuffix(s, evk, XCHACHA_NONCE_LEN);
        KnownIsPublic(w, s, evk[XCHACHA_NONCE_LEN..]);
        UnwrappedIsKeyLike(w, s.log, key, evk[..XCHACHA_NONCE_LEN], evk[XCHACHA_NONCE_LEN..]);
      }
    }
  }

  lemma SealBlobKeepsInv(w: World, s: State, r: Record, nonce: nat)
    requires Inv(w, s) && KeyLike(w, s.log, r.key) && Document(w, s.log, r.plaintext)
    requires Never(w, r.key) || Public(w, s.log, r.plaintext)
    ensures Inv(w, AfterSealBlob(s, r, nonce))
  {
    var aad := AadFor(r.vaultId, r.version);
    InvUses(w, s, Use(VaultSealing, r.key));
    if Vault.BlobOf(r.plaintext, r.key, aad, GcmNonce(nonce)).Ok? {
      var blob := Vault.BlobOf(r.plaintext, r.key, aad, GcmNonce(nonce)).value;
      var t := Sealed(Aes256Gcm, r.key, GcmNonce(nonce), aad, r.plaintext);
      var s0 := s.(uses := s.uses + iset{Use(VaultSealing, r.key)});
      InvGrows(w, s0, t);
      var s1 := s0.(log := s0.log + iset{t});
      SealedIsPublic(w, s1.log, GcmNonce(nonce), Aes256Gcm, r.key, aad, r.plaintext);
      InvLearns(w, s1, blob.nonce + blob.ciphertext);
      var s2 := s1.(known := s1.known + Chars(blob.nonce + blob.ciphertext));
      assert AfterSealBlob(s, r, nonce) == s2.(records := s.records + iset{r});
    }
  }

  lemma DisclosableIsPublic(w: World, log: iset<Term>, text: Str)
    requires Document(w, log, text) && Disclosable(w, text)
    ensures Public(w, log, text)
  {
    forall i | 0 <= i < |text| ensures PublicSym(w, log, text[i]) {
      assert DocumentSym(w, log, text[i]);
    }
  }

  lemma OpenedBlobIsDocument(w: World, s: State, key: Str, aad: seq<byte>, blob: Vault.EncryptedBlob)
    requires Inv(w, s) && Knows(s, blob.ciphertext)
    requires Vault.Opened(blob, key, aad).Ok?
    ensures Document(w, s.log, Vault.Opened(blob, key, aad).value)
  {
    KnownIsPublic(w, s, blob.ciphertext);
    OpenedIsConfined(w, s.log, Aes256Gcm, key, blob.nonce, aad, blob.ciphertext);
  }

  lemma PushKeepsInv(w: World, s: State, step: Step)
    requires Inv(w, s) && step.Push? && Enabled(w, s, step) && Prudent(w, s, step)
    ensures Inv(w, Apply(w, s, step))
  {
    assert KeyLike(w, s.log, (step.user, step.key).1);
    forall i | 0 <= i < |step.plaintext| ensures DocumentSym(w, s.log, step.plaintext[i]) {
      assert step.plaintext[i] in s.docs || step.plaintext[i] in s.known;
    }
    if Disclosable(w, step.plaintext) {
      DisclosableIsPublic(w, s.log, step.plaintext);
    }
    SealBlobKeepsInv(w, s, Record(step.user, step.key, step.vaultId, step.version, step.plaintext, None), step.nonce);
  }

  lemma PullKeepsInv(w: World, s: State, step: Step)
    requires Inv(w, s) && step.Pull? && Enabled(w, s, step)
    ensures Inv(w, Apply(w, s, step))
  {
    assert KeyLike(w, s.log, (step.user, step.key).1);
    InvUses(w, s, Use(VaultSealing, step.key));
    var r := Vault.Opened(step.blob, step.key, AadFor(step.vaultId, step.version));
    if r.Ok? {
      OpenedBlobIsDocument(w, s, step.key, AadFor(step.vaultId, step.version), step.blob);
    }
  }

  lemma RekeyKeepsInv(w: World, s: State, step: Step)
    requires Inv(w, s) && step.Rekey? && Enabled(w, s, step) && Prudent(w, s, step)
    ensures Inv(w, Apply(w, s, step))
  {
    assert KeyLike(w, s.log, (step.user, step.key).1);
    assert KeyLike(w, s.log, (step.user, step.newKey).1);
    var used := s.(uses := s.uses + iset{Use(VaultSealing, step.key)});
    InvUses(w, s, Use(VaultSealing, step.key));
    var aad := AadFor(step.vaultId, step.version);
    var r := Vault.Opened(step.blob, step.key, aad);
    if r.Ok? {
      OpenedBlobIsDocument(w, s, step.key, aad, step.blob);
      if Disclosable(w, r.value) {
        DisclosableIsPublic(w, s.log, r.value);
      }
      SealBlobKeepsInv(w, used, Record(step.user, step.newKey, step.vaultId, step.version, r.value, Some(step.key)),
                       step.nonce);
    }
  }

  lemma ComputeKeepsInv(w: World, s: State, move: Move)
    requires Inv(w, s) && Knows(s, Needs(move))
    ensures Inv(w, Apply(w, s, Compute(move)))
  {
    KnownIsPublic(w, s, Needs(move));
    if Yields(w, move).Some? {
      MoveIsConfined(w, s.log, move);
      InvLearns(w, s, Yields(w, move).value);
      assert Apply(w, s, Compute(move)) == s.(known := s.known + Chars(Yields(w, move).value));
    }
  }

  /** Every prudent step keeps the invariant. */
  lemma StepKeepsInv(w: World, s: State, step: Step)
    requires Inv(w, s) && Enabled(w, s, step) && Prudent(w, s, step)
    ensures Inv(w, Apply(w, s, step))
  {
    match step
    case Register(user, seed, password, salt, nonce) => RegisterKeepsInv(w, s, user, seed, password, salt, nonce);
    case Login(user, enc) => LoginKeepsInv(w, s, user, enc);
    case Reseal(user, nonce) =>
      assert UserOk(w, s.log, s.users[user]);
      SealIdentityKeepsInv(w, s, s.users[user].MasterKey(), s.users[user].identity.ed25519Seed, nonce);
    case CreateVault(user, id) => RootOfExpand(Fresh(VaultKey, id), Vault.VAULT_KEY_LEN);
    case SoloWrap(user, key, nonce) => SoloWrapKeepsInv(w, s, user, key, nonce);
    case SoloUnwrap(user, wrapped) => SoloUnwrapKeepsInv(w, s, user, wrapped);
    case Share(user, key, to, eph, encaps, nonce) => ShareKeepsInv(w, s, user, key, to, eph, encaps, nonce);
    case Accept(user, offered) => AcceptKeepsInv(w, s, user, offered);
    case Push(_, _, _, _, _, _) => PushKeepsInv(w, s, step);
    case Pull(_, _, _, _, _) => PullKeepsInv(w, s, step);
    case Rekey(_, _, _, _, _, _, _) => RekeyKeepsInv(w, s, step);
    case LeakSrpPassword(user) =>
      var out := Kdf.SrpPasswordOf(s.users[user].password, s.users[user].salt);
      PublicExpand(w, s.log, Argon2(Kdf.KDF_DOMAIN_SRP_PASSWORD, s.users[user].password, s.users[user].salt), |out|);
      InvLearns(w, s, out);
    case Corrupt(secret) =>
    case Compute(move) => ComputeKeepsInv(w, s, move);
  }

  lemma {:induction false} RunKeepsInv(w: World, s: State, steps: seq<Step>)
    requires Inv(w, s) && Runs(w, s, steps) && PrudentRun(w, s, steps)
    ensures Inv(w, Final(w, s, steps))
    decreases |steps|
  {
    if steps != [] {
      StepKeepsInv(w, s, steps[0]);
      RunKeepsInv(w, Apply(w, s, steps[0]), steps[1..]);
    }
  }
}
