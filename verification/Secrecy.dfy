/**
  What the adversary may come to know.

  A world fixes which secrets are protected and which primitive is broken. `Public` says,
  for a log of what honest users have sealed, which symbolic bytes may be disclosed without
  disclosing a protected secret; `Never` says that a string is not public under any log.
 */
module Secrecy {
  import opened Symbolic
  import opened Buffers
  import opened Keypair
  import Kdf

  /** `curveBroken`: every X25519 secret can be computed from its public key. `kemBroken`:
      every ML-KEM secret can be computed from public values. */
  datatype World = World(guarded: iset<Term>, curveBroken: bool, kemBroken: bool)

  // ----- Protected keys -----

  predicate GuardedSeed(w: World, seed: Str) {
    match Root(seed)
    case Some(Fresh(Seed, id)) => Fresh(Seed, id) in w.guarded
    case _ => false
  }

  /** An X25519 private key only an uncorrupted user has: ephemeral, or derived. */
  predicate GuardedScalar(w: World, sk: Str) {
    !w.curveBroken &&
    match Root(sk)
    case Some(Fresh(Ephemeral, id)) => Fresh(Ephemeral, id) in w.guarded
    case Some(HkdfStream(seed, info)) => info == Kdf.HKDF_INFO_X25519_DERIVE && GuardedSeed(w, seed)
    case _ => false
  }

  predicate GuardedKemKey(w: World, ek: Str) {
    !w.kemBroken &&
    match Root(ek)
    case Some(KemPublic(kemSeed)) =>
      (match Root(kemSeed)
       case Some(HkdfStream(seed, info)) => info == Kdf.HKDF_INFO_MLKEM_DERIVE && GuardedSeed(w, seed)
       case _ => false)
    case _ => false
  }

  /** No two guarded scalars, counted with multiplicity. */
  ghost predicate AtMostOneGuarded(w: World, scalars: multiset<Scalar>) {
    forall a, b | a in scalars && b in scalars && GuardedScalar(w, a.bytes) && GuardedScalar(w, b.bytes) ::
      a == b && scalars[a] == 1
  }

  // ----- Public values -----

  ghost predicate Public(w: World, log: iset<Term>, s: Str)
    decreases s
  {
    forall i | 0 <= i < |s| :: PublicSym(w, log, s[i])
  }

  ghost predicate PublicSym(w: World, log: iset<Term>, x: Sym)
    decreases x
  {
    match x
    case Lit(_) => true
    case Of(t, _) => PublicTerm(w, log, t)
  }

  ghost predicate PublicTerm(w: World, log: iset<Term>, t: Term)
    decreases t
  {
    match t
    case Own(_) => true
    case Fresh(origin, _) =>
      (match origin
       case Nonce => true
       case Salt => true
       case Ephemeral => w.curveBroken || t !in w.guarded
       case Encaps => w.kemBroken || t !in w.guarded
       case _ => t !in w.guarded)
    case Argon2(domain, password, _) => domain == Kdf.KDF_DOMAIN_SRP_PASSWORD || Public(w, log, password)
    case HkdfStream(ikm, info) =>
      || Public(w, log, ikm)
      || (w.curveBroken && info == Kdf.HKDF_INFO_X25519_DERIVE)
      || (w.kemBroken && info == Kdf.HKDF_INFO_MLKEM_DERIVE)
    case Sealed(_, key, _, _, message) => t in log || (Public(w, log, key) && Public(w, log, message))
    case Ed25519Public(_) => true
    case Curve(_, scalars, _) =>
      if w.curveBroken then forall a | a in scalars :: Public(w, log, a.bytes) else AtMostOneGuarded(w, scalars)
    case KemPublic(kemSeed) => w.kemBroken ==> Public(w, log, kemSeed)
    case KemCiphertext(_, m) => w.kemBroken ==> Public(w, log, m)
    case KemSecret(ek, m) => Public(w, log, m) || !GuardedKemKey(w, ek)
    case KemRejected(z, _) => Public(w, log, z)
  }

  ghost function AnyLog(): iset<Term> {
    iset t: Term | t.Sealed? || !t.Sealed?
  }

  /** Not public, whatever gets logged. */
  ghost predicate Never(w: World, s: Str) {
    !Public(w, AnyLog(), s)
  }

  // A public value stays public when the log grows.

  lemma {:induction false} PublicGrows(w: World, log: iset<Term>, log': iset<Term>, s: Str)
    requires log <= log' && Public(w, log, s)
    ensures Public(w, log', s)
    decreases s
  {
    forall i | 0 <= i < |s| ensures PublicSym(w, log', s[i]) {
      PublicSymGrows(w, log, log', s[i]);
    }
  }

  lemma {:induction false} PublicSymGrows(w: World, log: iset<Term>, log': iset<Term>, x: Sym)
    requires log <= log' && PublicSym(w, log, x)
    ensures PublicSym(w, log', x)
    decreases x
  {
    if x.Of? {
      PublicTermGrows(w, log, log', x.term);
    }
  }

  lemma {:induction false} PublicTermGrows(w: World, log: iset<Term>, log': iset<Term>, t: Term)
    requires log <= log' && PublicTerm(w, log, t)
    ensures PublicTerm(w, log', t)
    decreases t
  {
    match t
    case Own(_) =>
    case Fresh(_, _) =>
    case Argon2(domain, password, _) => if Public(w, log, password) { PublicGrows(w, log, log', password); }
    case HkdfStream(ikm, _) => if Public(w, log, ikm) { PublicGrows(w, log, log', ikm); }
    case Sealed(_, key, _, _, message) =>
      if t !in log {
        PublicGrows(w, log, log', key);
        PublicGrows(w, log, log', message);
      }
    case Ed25519Public(_) =>
    case Curve(_, scalars, _) =>
      if w.curveBroken {
        forall a | a in scalars ensures Public(w, log', a.bytes) { PublicGrows(w, log, log', a.bytes); }
      }
    case KemPublic(kemSeed) => if w.kemBroken { PublicGrows(w, log, log', kemSeed); }
    case KemCiphertext(_, m) => if w.kemBroken { PublicGrows(w, log, log', m); }
    case KemSecret(_, m) => if Public(w, log, m) { PublicGrows(w, log, log', m); }
    case KemRejected(z, _) => PublicGrows(w, log, log', z);
  }

  lemma NeverIsNotPublic(w: World, log: iset<Term>, s: Str)
    requires Never(w, s)
    ensures !Public(w, log, s)
  {
    if Public(w, log, s) {
      PublicGrows(w, log, AnyLog(), s);
    }
  }

  // ----- Strings of one term -----

  lemma PublicExpand(w: World, log: iset<Term>, t: Term, n: nat)
    requires n > 0
    ensures Public(w, log, Expand(t, n)) <==> PublicTerm(w, log, t)
  {
    assert Expand(t, n)[0] == Of(t, 0);
    if Public(w, log, Expand(t, n)) {
      assert PublicSym(w, log, Expand(t, n)[0]);
    }
  }

  lemma PublicConcat(w: World, log: iset<Term>, a: Str, b: Str)
    ensures Public(w, log, a + b) <==> Public(w, log, a) && Public(w, log, b)
  {
    if Public(w, log, a + b) {
      forall i | 0 <= i < |a| ensures PublicSym(w, log, a[i]) { assert (a + b)[i] == a[i]; }
      forall i | 0 <= i < |b| ensures PublicSym(w, log, b[i]) { assert (a + b)[|a| + i] == b[i]; }
    }
  }

  lemma GuardedSeedNever(w: World, seed: Str)
    requires GuardedSeed(w, seed)
    ensures Never(w, seed)
  {
    PublicExpand(w, AnyLog(), Root(seed).value, |seed|);
  }

  lemma GuardedScalarNever(w: World, sk: Str)
    requires GuardedScalar(w, sk)
    ensures Never(w, sk)
  {
    var all := AnyLog();
    PublicExpand(w, all, Root(sk).value, |sk|);
    match Root(sk)
    case Some(HkdfStream(seed, _)) => GuardedSeedNever(w, seed);
    case _ =>
  }

  lemma GuardedKemSeedNever(w: World, kemSeed: Str)
    requires GuardedKemKey(w, KemPublicKey(kemSeed))
    ensures Never(w, kemSeed)
  {
    var all := AnyLog();
    RootOfExpand(KemPublic(kemSeed), KEM_PUBLIC_LEN);
    PublicExpand(w, all, Root(kemSeed).value, |kemSeed|);
    GuardedSeedNever(w, Root(kemSeed).value.ikm);
  }

  // ----- Wraps -----

  /** A wrap that stays secret: for one of the two primitives, which is not broken, the
      bundle's half belongs to an uncorrupted user and the sender's draw is guarded. */
  ghost predicate SafeWrap(w: World, to: UserPublicKeys, eph: nat, encaps: nat) {
    || (GuardedKemKey(w, to.mlkem) && Fresh(Encaps, encaps) in w.guarded)
    || (Fresh(Ephemeral, eph) in w.guarded && exists a :: a in PointOf(to.x25519).1 && GuardedScalar(w, a.bytes))
  }

  /** The same, as far as the sender's two draws decide it. */
  ghost predicate SafeDraws(w: World, eph: nat, encaps: nat) {
    || (!w.curveBroken && Fresh(Ephemeral, eph) in w.guarded)
    || (!w.kemBroken && Fresh(Encaps, encaps) in w.guarded)
  }

  /** A wrap to the keys an uncorrupted user published is safe exactly when its draws are. */
  lemma HonestWrapIsSafe(w: World, seed: Str, eph: nat, encaps: nat)
    requires GuardedSeed(w, seed)
    ensures SafeWrap(w, PublicKeys(KeypairOf(seed)), eph, encaps) <==> SafeDraws(w, eph, encaps)
  {
    RootOfExpand(KemPublic(MlKemSeedOf(seed)), KEM_PUBLIC_LEN);
    RootOfExpand(HkdfStream(seed, Kdf.HKDF_INFO_MLKEM_DERIVE), KEM_SEED_LEN);
    RootOfExpand(HkdfStream(seed, Kdf.HKDF_INFO_X25519_DERIVE), X25519_PRIVATE_LEN);
    CurvePublicIs(X25519Of(seed));
    assert Scalar(X25519Of(seed)) in PointOf(CurvePublic(X25519Of(seed))).1;
  }

  /** With either half safe, the wrap key never becomes public. */
  lemma SafeWrapKeyNever(w: World, to: UserPublicKeys, eph: nat, encaps: nat)
    requires SafeWrap(w, to, eph, encaps)
    requires DiffieHellman(Draw(Ephemeral, eph, 32), to.x25519) != Zeros(CURVE_LEN)
    ensures var (c, ss) := KemEncapsulate(to.mlkem, Draw(Encaps, encaps, 32));
            var e := Draw(Ephemeral, eph, 32);
            Never(w, HybridKey(ss, DiffieHellman(e, to.x25519), c, CurvePublic(e), to.x25519))
  {
    var all := AnyLog();
    var m := Draw(Encaps, encaps, 32);
    var (c, ss) := KemEncapsulate(to.mlkem, m);
    var e := Draw(Ephemeral, eph, 32);
    var shared := DiffieHellman(e, to.x25519);
    if GuardedKemKey(w, to.mlkem) && Fresh(Encaps, encaps) in w.guarded {
      PublicExpand(w, all, Fresh(Encaps, encaps), 32);
      PublicExpand(w, all, KemSecret(to.mlkem, m), KEM_SECRET_LEN);
      assert !Public(w, all, ss);
    } else {
      var (base, scalars) := PointOf(to.x25519);
      var a :| a in scalars && GuardedScalar(w, a.bytes);
      var both := scalars + multiset{Scalar(e)};
      RootOfExpand(Fresh(Ephemeral, eph), 32);
      assert a in both && Scalar(e) in both && GuardedScalar(w, e);
      assert a == Scalar(e) ==> both[a] >= 2;
      assert !AtMostOneGuarded(w, both);
      PublicExpand(w, all, Curve(base, both, 0), CURVE_LEN);
      assert !Public(w, all, shared);
    }
    if Public(w, all, CombinerInput(ss, shared, c, CurvePublic(e), to.x25519)) {
      PublicInput(w, all, ss, shared, c, CurvePublic(e), to.x25519);
    }
    PublicExpand(w, all, HkdfStream(CombinerInput(ss, shared, c, CurvePublic(e), to.x25519),
                                    Kdf.HKDF_INFO_VAULT_KEY_WRAP), 32);
  }

  lemma PublicInput(w: World, log: iset<Term>, a: Str, b: Str, c: Str, d: Str, e: Str)
    requires Public(w, log, CombinerInput(a, b, c, d, e))
    ensures Public(w, log, a) && Public(w, log, b)
  {
    PublicConcat(w, log, a + b + c + d, e);
    PublicConcat(w, log, a + b + c, d);
    PublicConcat(w, log, a + b, c);
    PublicConcat(w, log, a, b);
  }
}
