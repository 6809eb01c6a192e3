/**
  Any number of users, vaults and wraps, and a storage server that sees every stored or sent
  value and answers with anything it can build from them.
 */
module Protocol {
  import opened Bytes
  import opened Symbolic
  import opened Buffers
  import opened Keypair
  import opened Secrecy
  import Kdf
  import Vault

  // ----- What the adversary can compute -----

  datatype Move =
    | OwnRandomness(id: nat, n: nat)
    | HashPassword(domain: string, password: Str, salt: Str, n: nat)
    | DeriveKey(ikm: Str, info: string, n: nat)
    | SealMessage(alg: Aead, key: Str, nonce: Str, aad: seq<byte>, message: Str)
    | OpenMessage(alg: Aead, key: Str, nonce: Str, aad: seq<byte>, ct: Str)
    | SigningPublic(seed: Str)
    | Multiply(sk: Str, p: Str)
    | Divide(sk: Str, p: Str)
    | Reencode(p: Str, alias: nat)
    | GenerateKemKey(kemSeed: Str)
    | Encapsulate(ek: Str, m: Str)
    | Decapsulate(kemSeed: Str, ct: Str)
    | RogueKemKey(ct: Str)
    | BreakCurve(p: Str, a: Scalar)
    | BreakKemKey(ek: Str)
    | BreakKemCiphertext(ct: Str)

  /** The strings a move needs, in one string. */
  function Needs(move: Move): Str {
    match move
    case OwnRandomness(_, _) => []
    case HashPassword(_, password, salt, _) => password + salt
    case DeriveKey(ikm, _, _) => ikm
    case SealMessage(_, key, nonce, _, message) => key + nonce + message
    case OpenMessage(_, key, nonce, _, ct) => key + nonce + ct
    case SigningPublic(seed) => seed
    case Multiply(sk, p) => sk + p
    case Divide(sk, p) => sk + p
    case Reencode(p, _) => p
    case GenerateKemKey(kemSeed) => kemSeed
    case Encapsulate(ek, m) => ek + m
    case Decapsulate(kemSeed, ct) => kemSeed + ct
    case RogueKemKey(ct) => ct
    case BreakCurve(p, _) => p
    case BreakKemKey(ek) => ek
    case BreakKemCiphertext(ct) => ct
  }

  function Yields(w: World, move: Move): Option<Str> {
    match move
    case OwnRandomness(id, n) => Some(Expand(Own(id), n))
    case HashPassword(domain, password, salt, n) => Some(Expand(Argon2(domain, password, salt), n))
    case DeriveKey(ikm, info, n) => Some(Expand(HkdfStream(ikm, info), n))
    case SealMessage(alg, key, nonce, aad, message) => Some(SealBytes(alg, key, nonce, aad, message))
    case OpenMessage(alg, key, nonce, aad, ct) => OpenBytes(alg, key, nonce, aad, ct)
    case SigningPublic(seed) => Some(Expand(Ed25519Public(seed), 32))
    case Multiply(sk, p) => Some(DiffieHellman(sk, p))
    case Divide(sk, p) =>
      var (base, scalars) := PointOf(p);
      if Scalar(sk) in scalars then Some(Expand(Curve(base, scalars - multiset{Scalar(sk)}, 0), CURVE_LEN)) else None
    case Reencode(p, alias) =>
      (match Root(p)
       case Some(Curve(base, scalars, _)) => Some(Expand(Curve(base, scalars, alias), CURVE_LEN))
       case _ => None)
    case GenerateKemKey(kemSeed) => Some(KemPublicKey(kemSeed))
    case Encapsulate(ek, m) => var (ct, ss) := KemEncapsulate(ek, m); Some(ct + ss)
    case Decapsulate(kemSeed, ct) =>
      if |kemSeed| == KEM_SEED_LEN && |ct| == KEM_CIPHERTEXT_LEN then Some(KemDecapsulate(kemSeed, ct)) else None
    case RogueKemKey(ct) =>
      // A public key that no key generation produced: its maker may know every secret.
      (match Root(ct)
       case Some(KemCiphertext(ek, m)) =>
         (match Root(ek)
          case Some(KemPublic(_)) => None
          case _ => Some(Expand(KemSecret(ek, m), KEM_SECRET_LEN)))
       case _ => None)
    case BreakCurve(p, a) => if w.curveBroken && a in PointOf(p).1 then Some(a.bytes) else None
    case BreakKemKey(ek) =>
      (match Root(ek)
       case Some(KemPublic(kemSeed)) => if w.kemBroken then Some(kemSeed) else None
       case _ => None)
    case BreakKemCiphertext(ct) =>
      (match Root(ct)
       case Some(KemCiphertext(_, m)) => if w.kemBroken then Some(m) else None
       case _ => None)
  }

  // ----- States -----

  datatype User = User(password: Str, salt: Str, identity: UserKeypair) {
    function MasterKey(): Str {
      Kdf.MasterKeyOf(password, salt)
    }
  }

  datatype Purpose = VaultSealing | IdentitySealing | MasterWrapping | HybridWrapping

  /** `key` was the live key of a cipher used for `purpose`. */
  datatype Use = Use(purpose: Purpose, key: Str)

  /** A blob some user sealed; `from` is the old key when it was a re-encryption. */
  datatype Record = Record(user: nat, key: Str, vaultId: seq<byte>, version: u32, plaintext: Str, from: Option<Str>)

  datatype State = State(
    known: iset<Sym>,         // seen by the storage server, or computed by it
    log: iset<Term>,          // sealed by users
    users: map<nat, User>,
    held: iset<(nat, Str)>,   // vault keys in users' hands
    docs: iset<Sym>,          // plaintext bytes in users' hands
    records: iset<Record>,
    uses: iset<Use>)

  ghost function Init(): State {
    State(iset x: Sym | x.Lit?, iset{}, map[], iset{},
          iset x: Sym | x.Of? && x.term.Fresh? && x.term.origin == Plaintext, iset{}, iset{})
  }

  datatype Step =
    | Register(user: nat, seed: nat, password: nat, salt: nat, nonce: nat)
    | Login(user: nat, enc: EncryptedPrivateKey<Sym>)
    | Reseal(user: nat, nonce: nat)
    | CreateVault(user: nat, id: nat)
    | SoloWrap(user: nat, key: Str, nonce: nat)
    | SoloUnwrap(user: nat, wrapped: Str)
    | Share(user: nat, key: Str, to: UserPublicKeys, eph: nat, encaps: nat, nonce: nat)
    | Accept(user: nat, offered: WrappedVaultKey<Sym>)
    | Push(user: nat, key: Str, vaultId: seq<byte>, version: u32, plaintext: Str, nonce: nat)
    | Pull(user: nat, key: Str, vaultId: seq<byte>, version: u32, blob: Vault.EncryptedBlob)
    | Rekey(user: nat, key: Str, newKey: Str, vaultId: seq<byte>, version: u32, blob: Vault.EncryptedBlob, nonce: nat)
    | LeakSrpPassword(user: nat)
    | Corrupt(secret: Term)
    | Compute(move: Move)

  ghost predicate Knows(s: State, text: Str) {
    forall i | 0 <= i < |text| :: text[i] in s.known
  }

  ghost function Chars(text: Str): iset<Sym> {
    iset x: Sym | x in text
  }

  function SeedDraw(id: nat): Str { Draw(Seed, id, ED25519_PRIVATE_LEN) }
  function VaultKeyDraw(id: nat): Str { Draw(VaultKey, id, Vault.VAULT_KEY_LEN) }
  function PasswordDraw(id: nat): Str { Draw(Password, id, 1) }
  function SaltDraw(id: nat): Str { Draw(Salt, id, Kdf.SALT_LEN) }
  function GcmNonce(id: nat): Str { Draw(Nonce, id, Vault.NONCE_LEN) }
  function XNonce(id: nat): Str { Draw(Nonce, id, XCHACHA_NONCE_LEN) }

  ghost predicate Enabled(w: World, s: State, step: Step) {
    match step
    case Register(user, _, _, _, _) => user !in s.users
    case Login(user, enc) => user in s.users && Knows(s, enc.nonce) && Knows(s, enc.ciphertext)
    case Reseal(user, _) => user in s.users
    case CreateVault(user, _) => user in s.users
    case SoloWrap(user, key, _) => user in s.users && (user, key) in s.held
    case SoloUnwrap(user, wrapped) => user in s.users && Knows(s, wrapped)
    case Share(user, key, to, _, _, _) =>
      user in s.users && (user, key) in s.held && |to.x25519| == CURVE_LEN && Knows(s, to.x25519) && Knows(s, to.mlkem)
    case Accept(user, offered) =>
      && user in s.users && |offered.ephPubKey| == CURVE_LEN
      && Knows(s, offered.ephPubKey) && Knows(s, offered.mlkemCiphertext) && Knows(s, offered.encryptedVaultKey)
    case Push(user, key, _, _, plaintext, _) =>
      (user, key) in s.held && forall i | 0 <= i < |plaintext| :: plaintext[i] in s.docs || plaintext[i] in s.known
    case Pull(user, key, _, _, blob) => (user, key) in s.held && Knows(s, blob.nonce) && Knows(s, blob.ciphertext)
    case Rekey(user, key, newKey, _, _, blob, _) =>
      (user, key) in s.held && (user, newKey) in s.held && Knows(s, blob.nonce) && Knows(s, blob.ciphertext)
    case LeakSrpPassword(user) => user in s.users
    case Corrupt(secret) => secret.Fresh?
    case Compute(move) => Knows(s, Needs(move))
  }

  // ----- Effects of the steps -----

  function AadFor(vaultId: seq<byte>, version: u32): seq<byte> {
    Vault.AadOf(vaultId, version)
  }

  ghost function SealIdentity(s: State, master: Str, seed: Str, nonce: Str): State {
    var key := IdentitySealKey(master);
    var enc := SealedIdentity(seed, master, nonce);
    s.(known := s.known + Chars(enc.nonce + enc.ciphertext),
       log := s.log + iset{Sealed(XChaCha20Poly1305, key, nonce, [], seed)},
       uses := s.uses + iset{Use(IdentitySealing, key)})
  }

  ghost function AfterRegister(s: State, user: nat, seed: nat, password: nat, salt: nat, nonce: nat): State {
    var kp := KeypairOf(SeedDraw(seed));
    var u := User(PasswordDraw(password), SaltDraw(salt), kp);
    SealIdentity(s.(known := s.known + Chars(kp.ed25519Public + kp.x25519Public + kp.mlkemPublic + u.salt),
                    users := s.users[user := u]),
                 u.MasterKey(), kp.ed25519Seed, XNonce(nonce))
  }

  ghost function AfterLogin(s: State, user: nat, enc: EncryptedPrivateKey<Sym>): State
    requires user in s.users
  {
    var u := s.users[user];
    var used := s.(uses := s.uses + iset{Use(IdentitySealing, IdentitySealKey(u.MasterKey()))});
    match UnsealedIdentity(enc, u.MasterKey())
    case Ok(kp) => used.(users := s.users[user := u.(identity := kp)])
    case Err(_) => used
  }

  ghost function AfterSoloWrap(s: State, user: nat, key: Str, nonce: nat): State
    requires user in s.users
  {
    var master := s.users[user].MasterKey();
    var wrapKey := Vault.MasterWrapKey(master);
    s.(known := s.known + Chars(Vault.MasterWrapped(key, master, XNonce(nonce))),
       log := s.log + iset{Sealed(XChaCha20Poly1305, wrapKey, XNonce(nonce), [], key)},
       uses := s.uses + iset{Use(MasterWrapping, wrapKey)})
  }

  ghost function AfterSoloUnwrap(s: State, user: nat, wrapped: Str): State
    requires user in s.users
  {
    var master := s.users[user].MasterKey();
    var used := if |wrapped| < XCHACHA_NONCE_LEN + Vault.VAULT_KEY_LEN then s
                else s.(uses := s.uses + iset{Use(MasterWrapping, Vault.MasterWrapKey(master))});
    match Vault.MasterUnwrapped(wrapped, master)
    case Ok(key) => used.(held := s.held + iset{(user, key)})
    case Err(_) => used
  }

  /** The key a sender derives for a wrap. */
  function SenderKey(to: UserPublicKeys, eph: nat, encaps: nat): Str {
    var e := Draw(Ephemeral, eph, 32);
    var (ct, ss) := KemEncapsulate(to.mlkem, Draw(Encaps, encaps, 32));
    HybridKey(ss, DiffieHellman(e, to.x25519), ct, CurvePublic(e), to.x25519)
  }

  ghost function AfterShare(s: State, key: Str, to: UserPublicKeys, eph: nat, encaps: nat, nonce: nat): State {
    var wrapKey := SenderKey(to, eph, encaps);
    match SharedWrap(key, to, Draw(Ephemeral, eph, 32), Draw(Encaps, encaps, 32), XNonce(nonce))
    case Ok(made) =>
      s.(known := s.known + Chars(made.ephPubKey + made.mlkemCiphertext + made.encryptedVaultKey),
         log := s.log + iset{Sealed(XChaCha20Poly1305, wrapKey, XNonce(nonce), [], key)},
         uses := s.uses + iset{Use(HybridWrapping, wrapKey)})
    case Err(_) => s
  }

  /** The checks before the cipher is set up pass. */
  predicate Attempted(offered: WrappedVaultKey<Sym>, kp: UserKeypair) {
    && |kp.mlkemDecap| == KEM_SEED_LEN
    && DiffieHellman(kp.x25519Private, offered.ephPubKey) != Zeros(CURVE_LEN)
    && |offered.mlkemCiphertext| == KEM_CIPHERTEXT_LEN
    && |offered.encryptedVaultKey| >= XCHACHA_NONCE_LEN
  }

  ghost function AfterAccept(s: State, user: nat, offered: WrappedVaultKey<Sym>): State
    requires user in s.users
  {
    var kp := s.users[user].identity;
    if !Attempted(offered, kp) then s
    else
      var used := s.(uses := s.uses + iset{
        Use(HybridWrapping, UnwrapKey(offered.ephPubKey, offered.mlkemCiphertext, kp))});
      match SharedUnwrap(offered, kp)
      case Ok(key) => used.(held := s.held + iset{(user, key)})
      case Err(_) => used
  }

  ghost function AfterSealBlob(s: State, record: Record, nonce: nat): State {
    var used := s.(uses := s.uses + iset{Use(VaultSealing, record.key)});
    match Vault.BlobOf(record.plaintext, record.key, AadFor(record.vaultId, record.version), GcmNonce(nonce))
    case Ok(blob) =>
      used.(known := s.known + Chars(blob.nonce + blob.ciphertext),
            log := s.log + iset{Sealed(Aes256Gcm, record.key, GcmNonce(nonce), AadFor(record.vaultId, record.version),
                                       record.plaintext)},
            records := s.records + iset{record})
    case Err(_) => used
  }

  ghost function AfterPull(s: State, key: Str, vaultId: seq<byte>, version: u32, blob: Vault.EncryptedBlob): State {
    var used := s.(uses := s.uses + iset{Use(VaultSealing, key)});
    match Vault.Opened(blob, key, AadFor(vaultId, version))
    case Ok(plaintext) => used.(docs := s.docs + Chars(plaintext))
    case Err(_) => used
  }

  ghost function AfterRekey(s: State, user: nat, key: Str, newKey: Str, vaultId: seq<byte>, version: u32,
                            blob: Vault.EncryptedBlob, nonce: nat): State {
    var used := s.(uses := s.uses + iset{Use(VaultSealing, key)});
    match Vault.Opened(blob, key, AadFor(vaultId, version))
    case Ok(plaintext) => AfterSealBlob(used, Record(user, newKey, vaultId, version, plaintext, Some(key)), nonce)
    case Err(_) => used
  }

  ghost function Apply(w: World, s: State, step: Step): State
    requires Enabled(w, s, step)
  {
    match step
    case Register(user, seed, password, salt, nonce) => AfterRegister(s, user, seed, password, salt, nonce)
    case Login(user, enc) => AfterLogin(s, user, enc)
    case Reseal(user, nonce) =>
      SealIdentity(s, s.users[user].MasterKey(), s.users[user].identity.ed25519Seed, XNonce(nonce))
    case CreateVault(user, id) => s.(held := s.held + iset{(user, VaultKeyDraw(id))})
    case SoloWrap(user, key, nonce) => AfterSoloWrap(s, user, key, nonce)
    case SoloUnwrap(user, wrapped) => AfterSoloUnwrap(s, user, wrapped)
    case Share(_, key, to, eph, encaps, nonce) => AfterShare(s, key, to, eph, encaps, nonce)
    case Accept(user, offered) => AfterAccept(s, user, offered)
    case Push(user, key, vaultId, version, plaintext, nonce) =>
      AfterSealBlob(s, Record(user, key, vaultId, version, plaintext, None), nonce)
    case Pull(_, key, vaultId, version, blob) => AfterPull(s, key, vaultId, version, blob)
    case Rekey(user, key, newKey, vaultId, version, blob, nonce) =>
      AfterRekey(s, user, key, newKey, vaultId, version, blob, nonce)
    case LeakSrpPassword(user) =>
      s.(known := s.known + Chars(Kdf.SrpPasswordOf(s.users[user].password, s.users[user].salt)))
    case Corrupt(secret) => s.(known := s.known + iset x: Sym | x.Of? && x.term == secret)
    case Compute(move) =>
      (match Yields(w, move)
       case Some(out) => s.(known := s.known + Chars(out))
       case None => s)
  }

  // ----- Runs -----

  ghost predicate Runs(w: World, s: State, steps: seq<Step>)
    decreases |steps|
  {
    steps == [] || (Enabled(w, s, steps[0]) && Runs(w, Apply(w, s, steps[0]), steps[1..]))
  }

  ghost function Final(w: World, s: State, steps: seq<Step>): State
    requires Runs(w, s, steps)
    decreases |steps|
  {
    if steps == [] then s else Final(w, Apply(w, s, steps[0]), steps[1..])
  }
}
