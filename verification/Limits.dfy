/** Where the guarantees end: both halves of a wrap lost, or a vault key nobody generated. */
module Limits {
  import opened Bytes
  import opened Symbolic
  import opened Buffers
  import opened Keypair
  import opened Secrecy
  import opened Protocol
  import opened Invariant
  import opened Theorems
  import Kdf
  import Sharing

  // ----- Runs, end to end -----

  lemma {:induction false} RunsConcat(w: World, s: State, first: seq<Step>, second: seq<Step>)
    requires Runs(w, s, first) && Runs(w, Final(w, s, first), second)
    ensures Runs(w, s, first + second)
    ensures Final(w, s, first + second) == Final(w, Final(w, s, first), second)
    ensures PrudentRun(w, s, first) && PrudentRun(w, Final(w, s, first), second) ==> PrudentRun(w, s, first + second)
    decreases |first|
  {
    var all := first + second;
    if first == [] {
      assert all == second;
    } else {
      assert all[0] == first[0] && all[1..] == first[1..] + second;
      RunsConcat(w, Apply(w, s, first[0]), first[1..], second);
    }
  }

  /** What the server does on its own: compute, and obtain secrets that are not guarded. */
  ghost predicate ByServer(w: World, step: Step) {
    step.Compute? || (step.Corrupt? && step.secret !in w.guarded)
  }

  ghost predicate OnlyServer(w: World, steps: seq<Step>) {
    forall i | 0 <= i < |steps| :: ByServer(w, steps[i])
  }

  /** The server can get from one state to the other on its own. */
  ghost predicate Computes(w: World, s: State, t: State) {
    exists steps :: OnlyServer(w, steps) && Runs(w, s, steps) && Final(w, s, steps) == t
  }

  ghost function AfterMove(w: World, s: State, move: Move): State
    requires Knows(s, Needs(move))
  {
    Apply(w, s, Compute(move))
  }

  lemma ComputesNothing(w: World, s: State)
    ensures Computes(w, s, s)
  {
    assert OnlyServer(w, []) && Runs(w, s, []) && Final(w, s, []) == s;
  }

  lemma ComputesMore(w: World, s: State, t: State, move: Move)
    requires Computes(w, s, t) && Knows(t, Needs(move)) && Yields(w, move).Some?
    ensures Computes(w, s, AfterMove(w, t, move))
    ensures t.known <= AfterMove(w, t, move).known && Knows(AfterMove(w, t, move), Yields(w, move).value)
  {
    ServerGoesOn(w, s, t, Compute(move));
  }

  lemma ServerGoesOn(w: World, s: State, t: State, step: Step)
    requires Computes(w, s, t) && Enabled(w, t, step) && ByServer(w, step)
    ensures Computes(w, s, Apply(w, t, step))
  {
    var steps :| OnlyServer(w, steps) && Runs(w, s, steps) && Final(w, s, steps) == t;
    OneStep(w, t, step);
    RunsConcat(w, s, steps, [step]);
    assert OnlyServer(w, steps + [step]);
  }

  lemma OneStep(w: World, s: State, step: Step)
    requires Enabled(w, s, step)
    ensures Runs(w, s, [step]) && Final(w, s, [step]) == Apply(w, s, step)
    ensures PrudentRun(w, s, [step]) <==> Prudent(w, s, step)
  {
    assert [step][1..] == [];
  }

  lemma {:induction false} ComputingIsPrudent(w: World, s: State, steps: seq<Step>)
    requires OnlyServer(w, steps) && Runs(w, s, steps)
    ensures PrudentRun(w, s, steps)
    ensures Final(w, s, steps) == s.(known := Final(w, s, steps).known)
    decreases |steps|
  {
    if steps != [] {
      assert ByServer(w, steps[0]);
      ComputingIsPrudent(w, Apply(w, s, steps[0]), steps[1..]);
    }
  }

  /** A prudent step from a reachable state, and a computation, lead to reachable states. */
  lemma ReachableStep(w: World, s: State, before: seq<Step>, step: Step) returns (steps: seq<Step>)
    requires Reachable(w, s, before) && Enabled(w, s, step) && Prudent(w, s, step)
    ensures Reachable(w, Apply(w, s, step), steps) && steps == before + [step]
  {
    OneStep(w, s, step);
    RunsConcat(w, Init(), before, [step]);
    steps := before + [step];
  }

  lemma ReachableComputation(w: World, s: State, before: seq<Step>, t: State) returns (steps: seq<Step>)
    requires Reachable(w, s, before) && Computes(w, s, t)
    ensures Reachable(w, t, steps) && t == s.(known := t.known)
    ensures before <= steps && forall i | |before| <= i < |steps| :: ByServer(w, steps[i])
  {
    var more :| OnlyServer(w, more) && Runs(w, s, more) && Final(w, s, more) == t;
    ComputingIsPrudent(w, s, more);
    RunsConcat(w, Init(), before, more);
    steps := before + more;
    assert forall i | |before| <= i < |steps| :: steps[i] == more[i - |before|];
  }

  /** The server forgets nothing. */
  lemma {:induction false} KnownGrows(w: World, s: State, steps: seq<Step>)
    requires Runs(w, s, steps)
    ensures s.known <= Final(w, s, steps).known
    decreases |steps|
  {
    if steps != [] {
      KnownGrows(w, Apply(w, s, steps[0]), steps[1..]);
    }
  }

  lemma KnowsConcat(s: State, a: Str, b: Str)
    ensures Knows(s, a + b) <==> Knows(s, a) && Knows(s, b)
  {
    if Knows(s, a + b) {
      forall i | 0 <= i < |a| ensures a[i] in s.known { assert (a + b)[i] == a[i]; }
      forall i | 0 <= i < |b| ensures b[i] in s.known { assert (a + b)[|a| + i] == b[i]; }
    }
  }

  lemma KnowsCombinerInput(s: State, a: Str, b: Str, c: Str, d: Str, e: Str)
    requires Knows(s, a) && Knows(s, b) && Knows(s, c) && Knows(s, d) && Knows(s, e)
    ensures Knows(s, CombinerInput(a, b, c, d, e))
  {
    KnowsConcat(s, a, b);
    KnowsConcat(s, a + b, c);
    KnowsConcat(s, a + b + c, d);
    KnowsConcat(s, a + b + c + d, e);
  }

  /** From both shared secrets and the transcript to the wrap key. */
  lemma ComputesWrapKey(w: World, s: State, t: State, ss: Str, shared: Str, ct: Str, ephPub: Str, to: Str)
    returns (u: State)
    requires Computes(w, s, t)
    requires Knows(t, ss) && Knows(t, shared) && Knows(t, ct) && Knows(t, ephPub) && Knows(t, to)
    ensures Computes(w, s, u) && t.known <= u.known && Knows(u, HybridKey(ss, shared, ct, ephPub, to))
  {
    KnowsCombinerInput(t, ss, shared, ct, ephPub, to);
    var move := DeriveKey(CombinerInput(ss, shared, ct, ephPub, to), Kdf.HKDF_INFO_VAULT_KEY_WRAP, 32);
    ComputesMore(w, s, t, move);
    u := AfterMove(w, t, move);
  }

  // ----- When both halves fall -----

  predicate Unguarded(w: World, draw: Str) {
    match Root(draw)
    case Some(Fresh(origin, id)) => Fresh(origin, id) !in w.guarded
    case _ => false
  }

  lemma Obtains(w: World, s: State, t: State, draw: Str) returns (u: State)
    requires Unguarded(w, draw) && Computes(w, s, t)
    ensures Computes(w, s, u) && t.known <= u.known && Knows(u, draw)
  {
    var secret := Root(draw).value;
    ServerGoesOn(w, s, t, Corrupt(secret));
    u := Apply(w, t, Corrupt(secret));
  }

  /** Either break the primitive or obtain the draw. */
  lemma LearnsEphemeral(w: World, s: State, t: State, e: Str) returns (u: State)
    requires (w.curveBroken || Unguarded(w, e)) && Computes(w, s, t) && Knows(t, CurvePublic(e))
    ensures Computes(w, s, u) && t.known <= u.known && Knows(u, e)
  {
    if w.curveBroken {
      CurvePublicIs(e);
      assert Yields(w, BreakCurve(CurvePublic(e), Scalar(e))) == Some(e);
      ComputesMore(w, s, t, BreakCurve(CurvePublic(e), Scalar(e)));
      u := AfterMove(w, t, BreakCurve(CurvePublic(e), Scalar(e)));
    } else {
      u := Obtains(w, s, t, e);
    }
  }

  lemma LearnsEncaps(w: World, s: State, t: State, ek: Str, m: Str) returns (u: State)
    requires (w.kemBroken || Unguarded(w, m)) && Computes(w, s, t) && Knows(t, KemEncapsulate(ek, m).0)
    ensures Computes(w, s, u) && t.known <= u.known && Knows(u, m)
  {
    if w.kemBroken {
      var ct := KemEncapsulate(ek, m).0;
      RootOfExpand(KemCiphertext(ek, m), KEM_CIPHERTEXT_LEN);
      assert Yields(w, BreakKemCiphertext(ct)) == Some(m);
      ComputesMore(w, s, t, BreakKemCiphertext(ct));
      u := AfterMove(w, t, BreakKemCiphertext(ct));
    } else {
      u := Obtains(w, s, t, m);
    }
  }

  lemma LearnsShared(w: World, s: State, t: State, e: Str, p: Str) returns (u: State)
    requires Computes(w, s, t) && Knows(t, e) && Knows(t, p)
    ensures Computes(w, s, u) && t.known <= u.known && Knows(u, DiffieHellman(e, p))
  {
    KnowsConcat(t, e, p);
    ComputesMore(w, s, t, Multiply(e, p));
    u := AfterMove(w, t, Multiply(e, p));
  }

  lemma LearnsKemSecret(w: World, s: State, t: State, ek: Str, m: Str) returns (u: State)
    requires Computes(w, s, t) && Knows(t, m) && Knows(t, ek)
    ensures Computes(w, s, u) && t.known <= u.known
    ensures Knows(u, KemEncapsulate(ek, m).0) && Knows(u, KemEncapsulate(ek, m).1)
  {
    var (ct, ss) := KemEncapsulate(ek, m);
    KnowsConcat(t, ek, m);
    ComputesMore(w, s, t, Encapsulate(ek, m));
    u := AfterMove(w, t, Encapsulate(ek, m));
    KnowsConcat(u, ct, ss);
  }

  lemma OpensWithKey(w: World, s: State, t: State, key: Str, nonce: Str, message: Str) returns (u: State)
    requires Computes(w, s, t) && Knows(t, key)
    requires Knows(t, nonce + SealBytes(XChaCha20Poly1305, key, nonce, [], message))
    ensures Computes(w, s, u) && Knows(u, message)
  {
    var ct := SealBytes(XChaCha20Poly1305, key, nonce, [], message);
    OpenOfSeal(XChaCha20Poly1305, key, nonce, [], message, XChaCha20Poly1305, key, nonce, []);
    KnowsConcat(t, nonce, ct);
    KnowsConcat(t, key, nonce);
    KnowsConcat(t, key + nonce, ct);
    ComputesMore(w, s, t, OpenMessage(XChaCha20Poly1305, key, nonce, [], ct));
    u := AfterMove(w, t, OpenMessage(XChaCha20Poly1305, key, nonce, [], ct));
  }

  /** "But not both" is sharp: when each half of a wrap the server has seen is lost, because
      its primitive is broken or the sender's draw is not guarded, the server gets the vault
      key, to whomever the wrap was made. */
  lemma BothHalvesLostLeaks(w: World, s: State, key: Str, to: UserPublicKeys, eph: Str, m: Str, nonce: Str,
                            made: WrappedVaultKey<Sym>)
    requires (w.curveBroken || Unguarded(w, eph)) && (w.kemBroken || Unguarded(w, m))
    requires SharedWrap(key, to, eph, m, nonce) == Ok(made)
    requires Knows(s, to.x25519) && Knows(s, to.mlkem)
    requires Knows(s, made.ephPubKey) && Knows(s, made.mlkemCiphertext) && Knows(s, made.encryptedVaultKey)
    ensures exists t :: Computes(w, s, t) && Knows(t, key)
  {
    var (ct, ss) := KemEncapsulate(to.mlkem, m);
    var shared := DiffieHellman(eph, to.x25519);
    ComputesNothing(w, s);
    var t1 := LearnsEphemeral(w, s, s, eph);
    var t2 := LearnsShared(w, s, t1, eph, to.x25519);
    var t3 := LearnsEncaps(w, s, t2, to.mlkem, m);
    var t4 := LearnsKemSecret(w, s, t3, to.mlkem, m);
    var t5 := ComputesWrapKey(w, s, t4, ss, shared, ct, CurvePublic(eph), to.x25519);
    var t6 := OpensWithKey(w, s, t5, HybridKey(ss, shared, ct, CurvePublic(eph), to.x25519), nonce, key);
  }

  /** So after any `Share` whose draws are not safe the server can get the shared key. */
  lemma HybridIsSharp(w: World, s: State, share: Step)
    requires share.Share? && Enabled(w, s, share) && !SafeDraws(w, share.eph, share.encaps)
    requires SharedWrap(share.key, share.to, Draw(Ephemeral, share.eph, 32), Draw(Encaps, share.encaps, 32),
                        XNonce(share.nonce)).Ok?
    ensures exists t :: Computes(w, Apply(w, s, share), t) && Knows(t, share.key)
  {
    var e, m := Draw(Ephemeral, share.eph, 32), Draw(Encaps, share.encaps, 32);
    var made := SharedWrap(share.key, share.to, e, m, XNonce(share.nonce)).value;
    RootOfExpand(Fresh(Ephemeral, share.eph), 32);
    RootOfExpand(Fresh(Encaps, share.encaps), 32);
    var s' := Apply(w, s, share);
    assert Knows(s', made.ephPubKey + made.mlkemCiphertext + made.encryptedVaultKey);
    KnowsConcat(s', made.ephPubKey + made.mlkemCiphertext, made.encryptedVaultKey);
    KnowsConcat(s', made.ephPubKey, made.mlkemCiphertext);
    BothHalvesLostLeaks(w, s', share.key, share.to, e, m, XNonce(share.nonce), made);
  }

  // ----- Vault keys that were not generated -----

  /** The wrap key of a wrap the adversary makes; it takes the same key as vault key. */
  function OwnWrapKey(seed: Str): Str {
    var to := PublicKeys(KeypairOf(seed));
    var e, m := Expand(Own(0), 32), Expand(Own(1), 32);
    var (ct, ss) := KemEncapsulate(to.mlkem, m);
    HybridKey(ss, DiffieHellman(e, to.x25519), ct, CurvePublic(e), to.x25519)
  }

  function SelfKeyed(seed: Str): WrappedVaultKey<Sym> {
    var to := PublicKeys(KeypairOf(seed));
    Sharing.HonestBundleAccepted(OwnWrapKey(seed), seed, Expand(Own(0), 32), Expand(Own(1), 32),
                                 Zeros(XCHACHA_NONCE_LEN));
    SharedWrap(OwnWrapKey(seed), to, Expand(Own(0), 32), Expand(Own(1), 32), Zeros(XCHACHA_NONCE_LEN)).value
  }

  lemma OwnShares(w: World, s: State, seed: Str) returns (t: State)
    requires Knows(s, KeypairOf(seed).x25519Public) && Knows(s, KeypairOf(seed).mlkemPublic) && Knows(s, BASE_POINT)
    ensures Computes(w, s, t) && s.known <= t.known
    ensures var to := PublicKeys(KeypairOf(seed));
            var (ct, ss) := KemEncapsulate(to.mlkem, Expand(Own(1), 32));
            Knows(t, CurvePublic(Expand(Own(0), 32))) && Knows(t, DiffieHellman(Expand(Own(0), 32), to.x25519)) &&
            Knows(t, ct) && Knows(t, ss)
  {
    var to := PublicKeys(KeypairOf(seed));
    var e, m := Expand(Own(0), 32), Expand(Own(1), 32);
    ComputesNothing(w, s);
    var t1 := LearnsOwn(w, s, s, 0);
    var t2 := LearnsShared(w, s, t1, e, BASE_POINT);
    var t3 := LearnsShared(w, s, t2, e, to.x25519);
    var t4 := LearnsOwn(w, s, t3, 1);
    t := LearnsKemSecret(w, s, t4, to.mlkem, m);
  }

  lemma LearnsOwn(w: World, s: State, t: State, id: nat) returns (u: State)
    requires Computes(w, s, t)
    ensures Computes(w, s, u) && t.known <= u.known && Knows(u, Expand(Own(id), 32))
  {
    ComputesMore(w, s, t, OwnRandomness(id, 32));
    u := AfterMove(w, t, OwnRandomness(id, 32));
  }

  lemma SelfKeyedIs(seed: Str)
    ensures var to := PublicKeys(KeypairOf(seed));
            var nonce := Zeros(XCHACHA_NONCE_LEN);
            SelfKeyed(seed) == WrappedVaultKey(CurvePublic(Expand(Own(0), 32)),
              KemEncapsulate(to.mlkem, Expand(Own(1), 32)).0,
              nonce + SealBytes(XChaCha20Poly1305, OwnWrapKey(seed), nonce, [], OwnWrapKey(seed)))
  {
    Sharing.HonestBundleAccepted(OwnWrapKey(seed), seed, Expand(Own(0), 32), Expand(Own(1), 32),
                                 Zeros(XCHACHA_NONCE_LEN));
  }

  lemma OwnSealing(w: World, s: State, t: State, key: Str) returns (u: State)
    requires Computes(w, s, t) && Knows(t, key) && t.known >= Init().known
    ensures var nonce := Zeros(XCHACHA_NONCE_LEN);
            Computes(w, s, u) && t.known <= u.known &&
            Knows(u, nonce + SealBytes(XChaCha20Poly1305, key, nonce, [], key))
  {
    var nonce := Zeros(XCHACHA_NONCE_LEN);
    KnowsConcat(t, key, nonce);
    KnowsConcat(t, key + nonce, key);
    var move := SealMessage(XChaCha20Poly1305, key, nonce, [], key);
    ComputesMore(w, s, t, move);
    u := AfterMove(w, t, move);
    KnowsConcat(u, nonce, SealBytes(XChaCha20Poly1305, key, nonce, [], key));
  }

  lemma OwnWrap(w: World, s: State, seed: Str) returns (u: State)
    requires Knows(s, KeypairOf(seed).x25519Public) && Knows(s, KeypairOf(seed).mlkemPublic) && s.known >= Init().known
    ensures Computes(w, s, u) && s.known <= u.known
    ensures var c := SelfKeyed(seed);
            Knows(u, c.ephPubKey) && Knows(u, c.mlkemCiphertext) && Knows(u, c.encryptedVaultKey)
  {
    var to := PublicKeys(KeypairOf(seed));
    var (ct, ss) := KemEncapsulate(to.mlkem, Expand(Own(1), 32));
    var e := Expand(Own(0), 32);
    var t := OwnShares(w, s, seed);
    var t' := ComputesWrapKey(w, s, t, ss, DiffieHellman(e, to.x25519), ct, CurvePublic(e), to.x25519);
    u := OwnSealing(w, s, t', OwnWrapKey(seed));
    SelfKeyedIs(seed);
  }

  ghost predicate LiveForBoth(s: State, key: Str) {
    Use(HybridWrapping, key) in s.uses && Use(VaultSealing, key) in s.uses
  }

  lemma AcceptThenPush(w: World, s: State, user: nat, seed: Str)
    requires user in s.users && s.users[user].identity == KeypairOf(seed)
    requires Knows(s, SelfKeyed(seed).ephPubKey) && Knows(s, SelfKeyed(seed).mlkemCiphertext)
    requires Knows(s, SelfKeyed(seed).encryptedVaultKey)
    ensures var accept, push := Accept(user, SelfKeyed(seed)), Push(user, OwnWrapKey(seed), [], 0, [], 0);
            && Enabled(w, s, accept) && Prudent(w, s, accept)
            && Enabled(w, Apply(w, s, accept), push) && Prudent(w, Apply(w, s, accept), push)
            && LiveForBoth(Apply(w, Apply(w, s, accept), push), OwnWrapKey(seed))
  {
    SelfKeyedOpens(seed);
    var v := Apply(w, s, Accept(user, SelfKeyed(seed)));
    assert Use(HybridWrapping, OwnWrapKey(seed)) in v.uses && (user, OwnWrapKey(seed)) in v.held;
  }

  /** The exception in `PurposesAreSeparated` is real, at any time and for every user whose
      published keys the server has: the user accepts a wrap of the server's own making, pushes
      under the key it contains, and so has one live key for two purposes. */
  lemma PurposesCanMeet(w: World, s: State, steps: seq<Step>, user: nat)
    requires Reachable(w, s, steps) && user in s.users
    requires Knows(s, s.users[user].identity.x25519Public) && Knows(s, s.users[user].identity.mlkemPublic)
    ensures exists t, more :: Reachable(w, t, more) && steps <= more &&
              LiveForBoth(t, OwnWrapKey(s.users[user].identity.ed25519Seed))
  {
    var seed := s.users[user].identity.ed25519Seed;
    IdentitiesAreDerived(w, s, steps, user);
    KnownGrows(w, Init(), steps);
    var u := OwnWrap(w, s, seed);
    var before := ReachableComputation(w, s, steps, u);
    AcceptThenPush(w, u, user, seed);
    var after := ReachableStep(w, u, before, Accept(user, SelfKeyed(seed)));
    var all := ReachableStep(w, Apply(w, u, Accept(user, SelfKeyed(seed))), after,
                             Push(user, OwnWrapKey(seed), [], 0, [], 0));
  }

  lemma SelfKeyedOpens(seed: Str)
    ensures |SelfKeyed(seed).ephPubKey| == CURVE_LEN
    ensures Attempted(SelfKeyed(seed), KeypairOf(seed))
    ensures UnwrapKey(SelfKeyed(seed).ephPubKey, SelfKeyed(seed).mlkemCiphertext, KeypairOf(seed)) == OwnWrapKey(seed)
    ensures SharedUnwrap(SelfKeyed(seed), KeypairOf(seed)) == Ok(OwnWrapKey(seed))
  {
    var to := PublicKeys(KeypairOf(seed));
    var e, m := Expand(Own(0), 32), Expand(Own(1), 32);
    var c := SelfKeyed(seed);
    DiffieHellmanCommutes(e, X25519Of(seed));
    Sharing.KeysAgreeIff(to, e, m, seed, c.ephPubKey, c.mlkemCiphertext);
    Sharing.HonestBundleAccepted(OwnWrapKey(seed), seed, e, m, Zeros(XCHACHA_NONCE_LEN));
    Sharing.UnwrapIff(OwnWrapKey(seed), to, e, m, Zeros(XCHACHA_NONCE_LEN), c, seed, c);
  }
}
