/** Whatever the run, the adversary only ever knows public values. */
module Confinement {
  import opened Bytes
  import opened Symbolic
  import opened Secrecy
  import opened Protocol
  import Kdf
  import Vault

  // ----- Computing keeps within the public values -----

  /** What the log guarantees about one sealed message. */
  ghost predicate Entry(w: World, log: iset<Term>, t: Term) {
    && t.Sealed?
    && (Never(w, t.key) || Public(w, log, t.message))
    && (match t.alg
        case Aes256Gcm => Document(w, log, t.message)
        case XChaCha20Poly1305 =>
          (match Root(t.key)
           case Some(HkdfStream(_, info)) =>
             && (info == Kdf.HKDF_INFO_PRIVATE_KEY_ENC ==> SeedLike(w, log, t.message))
             && (info == Kdf.HKDF_INFO_VAULT_KEY_WRAP || info == Kdf.HKDF_INFO_VAULT_KEY_WRAP_MK ==>
                  KeyLike(w, log, t.message))
           case _ => true))
  }

  ghost predicate DocumentSym(w: World, log: iset<Term>, x: Sym) {
    PublicSym(w, log, x) || (x.Of? && x.term.Fresh? && x.term.origin == Plaintext)
  }

  ghost predicate Document(w: World, log: iset<Term>, text: Str) {
    forall i | 0 <= i < |text| :: DocumentSym(w, log, text[i])
  }

  predicate RootOrigin(s: Str, origin: Origin) {
    match Root(s)
    case Some(Fresh(o, _)) => o == origin
    case _ => false
  }

  ghost predicate KeyLike(w: World, log: iset<Term>, key: Str) {
    Public(w, log, key) || (RootOrigin(key, VaultKey) && |key| == Vault.VAULT_KEY_LEN)
  }

  ghost predicate SeedLike(w: World, log: iset<Term>, seed: Str) {
    Public(w, log, seed) || RootOrigin(seed, Seed)
  }

  ghost predicate LogOk(w: World, log: iset<Term>) {
    forall t | t in log :: Entry(w, log, t)
  }

  /** A key or seed that is not public now never becomes public. */
  lemma NotPublicIsNever(w: World, log: iset<Term>, s: Str)
    requires KeyLike(w, log, s) || SeedLike(w, log, s)
    ensures Public(w, log, s) || Never(w, s)
  {
    if !Public(w, log, s) {
      PublicExpand(w, log, Root(s).value, |s|);
      PublicExpand(w, AnyLog(), Root(s).value, |s|);
    }
  }

  lemma OpenedIsConfined(w: World, log: iset<Term>, alg: Aead, key: Str, nonce: Str, aad: seq<byte>, ct: Str)
    requires LogOk(w, log) && Public(w, log, ct)
    requires OpenBytes(alg, key, nonce, aad, ct).Some?
    ensures var message := OpenBytes(alg, key, nonce, aad, ct).value;
            var t := Sealed(alg, key, nonce, aad, message);
            if t in log then Entry(w, log, t) else Public(w, log, key) && Public(w, log, message)
  {
    var message := OpenBytes(alg, key, nonce, aad, ct).value;
    PublicExpand(w, log, Sealed(alg, key, nonce, aad, message), |ct|);
  }

  lemma PublicRoot(w: World, log: iset<Term>, s: Str)
    requires Root(s).Some?
    ensures Public(w, log, s) <==> PublicTerm(w, log, Root(s).value)
  {
    PublicExpand(w, log, Root(s).value, |s|);
  }

  lemma PointIsPublic(w: World, log: iset<Term>, p: Str)
    requires Public(w, log, p)
    ensures var (base, scalars) := PointOf(p);
            if w.curveBroken then forall a | a in scalars :: Public(w, log, a.bytes) else AtMostOneGuarded(w, scalars)
  {
    if Root(p).Some? {
      PublicRoot(w, log, p);
    }
  }

  lemma MultiplyIsPublic(w: World, log: iset<Term>, sk: Str, p: Str)
    requires Public(w, log, sk) && Public(w, log, p)
    ensures Public(w, log, DiffieHellman(sk, p))
  {
    var (base, scalars) := PointOf(p);
    PointIsPublic(w, log, p);
    if GuardedScalar(w, sk) {
      GuardedScalarNever(w, sk);
      NeverIsNotPublic(w, log, sk);
    }
    PublicExpand(w, log, Curve(base, scalars + multiset{Scalar(sk)}, 0), CURVE_LEN);
  }

  lemma DivideIsPublic(w: World, log: iset<Term>, sk: Str, p: Str)
    requires Public(w, log, p)
    ensures var (base, scalars) := PointOf(p);
            Public(w, log, Expand(Curve(base, scalars - multiset{Scalar(sk)}, 0), CURVE_LEN))
  {
    var (base, scalars) := PointOf(p);
    PointIsPublic(w, log, p);
    PublicExpand(w, log, Curve(base, scalars - multiset{Scalar(sk)}, 0), CURVE_LEN);
  }

  lemma DecapsulateIsPublic(w: World, log: iset<Term>, kemSeed: Str, ct: Str)
    requires |kemSeed| == KEM_SEED_LEN && |ct| == KEM_CIPHERTEXT_LEN
    requires Public(w, log, kemSeed) && Public(w, log, ct)
    ensures Public(w, log, KemDecapsulate(kemSeed, ct))
  {
    var ss := KemDecapsulate(kemSeed, ct);
    assert kemSeed == kemSeed[..32] + kemSeed[32..];
    PublicConcat(w, log, kemSeed[..32], kemSeed[32..]);
    PublicExpand(w, log, KemRejected(kemSeed[32..], ct), KEM_SECRET_LEN);
    match Root(ct)
    case Some(KemCiphertext(ek, m)) =>
      PublicExpand(w, log, KemSecret(ek, m), KEM_SECRET_LEN);
      if ek == KemPublicKey(kemSeed) && GuardedKemKey(w, ek) {
        GuardedKemSeedNever(w, kemSeed);
        NeverIsNotPublic(w, log, kemSeed);
      }
    case _ =>
  }

  /** No move leads out of the public values. */
  lemma MoveIsConfined(w: World, log: iset<Term>, move: Move)
    requires LogOk(w, log) && Public(w, log, Needs(move)) && Yields(w, move).Some?
    ensures Public(w, log, Yields(w, move).value)
  {
    match move
    case OwnRandomness(_, _) =>
    case HashPassword(_, password, salt, _) => PublicConcat(w, log, password, salt);
    case DeriveKey(_, _, _) =>
    case SealMessage(_, key, nonce, _, message) =>
      PublicConcat(w, log, key + nonce, message);
      PublicConcat(w, log, key, nonce);
    case OpenMessage(alg, key, nonce, aad, ct) =>
      PublicConcat(w, log, key + nonce, ct);
      PublicConcat(w, log, key, nonce);
      OpenedIsConfined(w, log, alg, key, nonce, aad, ct);
      if Never(w, key) { NeverIsNotPublic(w, log, key); }
    case SigningPublic(_) =>
    case Multiply(sk, p) =>
      PublicConcat(w, log, sk, p);
      MultiplyIsPublic(w, log, sk, p);
    case Divide(sk, p) =>
      PublicConcat(w, log, sk, p);
      DivideIsPublic(w, log, sk, p);
    case Reencode(p, _) => PublicRoot(w, log, p);
    case GenerateKemKey(_) =>
    case Encapsulate(ek, m) =>
      PublicConcat(w, log, ek, m);
      var (ct, ss) := KemEncapsulate(ek, m);
      PublicConcat(w, log, ct, ss);
    case Decapsulate(kemSeed, ct) =>
      PublicConcat(w, log, kemSeed, ct);
      DecapsulateIsPublic(w, log, kemSeed, ct);
    case RogueKemKey(_) =>
    case BreakCurve(p, _) => PointIsPublic(w, log, p);
    case BreakKemKey(ek) => PublicRoot(w, log, ek);
    case BreakKemCiphertext(ct) => PublicRoot(w, log, ct);
  }
}
