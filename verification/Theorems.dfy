/** Secrecy and purpose separation over whole runs, and when they end. */
module Theorems {
  import opened Symbolic
  import opened Keypair
  import opened Secrecy
  import opened Protocol
  import opened Confinement
  import opened Invariant
  import Kdf
  import Vault

  ghost predicate Reachable(w: World, s: State, steps: seq<Step>) {
    Runs(w, Init(), steps) && PrudentRun(w, Init(), steps) && s == Final(w, Init(), steps)
  }

  lemma ReachableInv(w: World, s: State, steps: seq<Step>)
    requires Reachable(w, s, steps)
    ensures Inv(w, s)
  {
    InitInv(w);
    RunKeepsInv(w, Init(), steps);
  }

  /** Drawn secrets, except that a broken primitive gives away the sender's draws for it. */
  predicate Protectable(w: World, t: Term) {
    t.Fresh? &&
    match t.origin
    case Nonce => false
    case Salt => false
    case Ephemeral => !w.curveBroken
    case Encaps => !w.kemBroken
    case _ => true
  }

  /** No byte of a guarded seed, password, vault key, plaintext or draw is ever known. */
  lemma GuardedStaysSecret(w: World, s: State, steps: seq<Step>, t: Term, i: nat)
    requires Reachable(w, s, steps)
    requires Protectable(w, t) && t in w.guarded
    ensures Of(t, i) !in s.known
  {
    ReachableInv(w, s, steps);
    assert !PublicSym(w, s.log, Of(t, i));
  }

  /** Every identity in use is the derivation of its seed, in both halves. */
  lemma IdentitiesAreDerived(w: World, s: State, steps: seq<Step>, user: nat)
    requires Reachable(w, s, steps) && user in s.users
    ensures s.users[user].identity == KeypairOf(s.users[user].identity.ed25519Seed)
  {
    ReachableInv(w, s, steps);
  }

  // ----- The hybrid wrap -----

  predicate GuardedUser(w: World, u: User) {
    match Root(u.password)
    case Some(Fresh(Password, id)) => Fresh(Password, id) in w.guarded
    case _ => false
  }

  /** The bundle published by a user whose seed is guarded. */
  ghost predicate HonestBundle(w: World, to: UserPublicKeys) {
    exists seed :: Fresh(Seed, seed) in w.guarded && to == PublicKeys(KeypairOf(SeedDraw(seed)))
  }

  /** The vault key `v` goes only into wraps for uncorrupted users or under the master keys of
      uncorrupted users; everything else may be given away. */
  ghost predicate KeepsKey(w: World, s: State, step: Step, v: nat)
    requires Enabled(w, s, step)
  {
    match step
    case Share(_, key, to, _, _, _) => key == VaultKeyDraw(v) ==> HonestBundle(w, to)
    case SoloWrap(user, key, _) => key == VaultKeyDraw(v) ==> GuardedUser(w, s.users[user])
    case Register(_, seed, password, _, _) => Fresh(Seed, seed) in w.guarded ==> Fresh(Password, password) in w.guarded
    case Corrupt(secret) => secret !in w.guarded
    case _ => true
  }

  ghost predicate KeepsKeyRun(w: World, s: State, steps: seq<Step>, v: nat)
    requires Runs(w, s, steps)
    decreases |steps|
  {
    steps == [] || (KeepsKey(w, s, steps[0], v) && KeepsKeyRun(w, Apply(w, s, steps[0]), steps[1..], v))
  }

  /** Every wrap of the vault key `v` is made with a guarded draw for a primitive that is not
      broken; the other draw may be given away. */
  ghost predicate SafelyDrawn(w: World, steps: seq<Step>, v: nat) {
    forall i | 0 <= i < |steps| && steps[i].Share? && steps[i].key == VaultKeyDraw(v) ::
      SafeDraws(w, steps[i].eph, steps[i].encaps)
  }

  /** Only seeds, passwords, senders' draws and the one vault key are guarded. */
  ghost predicate GuardsOnly(w: World, v: nat) {
    && Fresh(VaultKey, v) in w.guarded
    && forall t | t in w.guarded ::
         t.Fresh? && (t.origin in {Seed, Password, Ephemeral, Encaps} || t == Fresh(VaultKey, v))
  }

  /** The only held key that is not public is the guarded one. */
  lemma SecretKeyIs(w: World, log: iset<Term>, key: Str, v: nat)
    requires GuardsOnly(w, v) && KeyLike(w, log, key) && Never(w, key)
    ensures key == VaultKeyDraw(v)
  {
    NeverIsNotPublic(w, log, key);
    PublicRoot(w, AnyLog(), key);
  }

  lemma GuardedUserNever(w: World, log: iset<Term>, u: User)
    requires UserOk(w, log, u) && GuardedUser(w, u)
    ensures Never(w, u.MasterKey())
  {
    PublicRoot(w, AnyLog(), u.password);
    PublicExpand(w, AnyLog(), Argon2(Kdf.KDF_DOMAIN_MASTER_KEY, u.password, u.salt), Kdf.MASTER_KEY_LEN);
  }

  lemma KeepingIsPrudent(w: World, s: State, step: Step, v: nat)
    requires Inv(w, s) && Enabled(w, s, step) && GuardsOnly(w, v) && KeepsKey(w, s, step, v)
    requires step.Share? && step.key == VaultKeyDraw(v) ==> SafeDraws(w, step.eph, step.encaps)
    ensures Prudent(w, s, step)
  {
    match step
    case Share(user, key, to, eph, encaps, _) =>
      assert KeyLike(w, s.log, (user, key).1);
      if Never(w, key) {
        SecretKeyIs(w, s.log, key, v);
        var seed :| Fresh(Seed, seed) in w.guarded && to == PublicKeys(KeypairOf(SeedDraw(seed)));
        RootOfExpand(Fresh(Seed, seed), ED25519_PRIVATE_LEN);
        HonestWrapIsSafe(w, SeedDraw(seed), eph, encaps);
      }
    case SoloWrap(user, key, _) =>
      assert KeyLike(w, s.log, (user, key).1);
      if Never(w, key) {
        SecretKeyIs(w, s.log, key, v);
        GuardedUserNever(w, s.log, s.users[user]);
      }
    case _ =>
  }

  lemma {:induction false} KeepingRunIsPrudent(w: World, s: State, steps: seq<Step>, v: nat)
    requires Inv(w, s) && Runs(w, s, steps) && GuardsOnly(w, v)
    requires KeepsKeyRun(w, s, steps, v) && SafelyDrawn(w, steps, v)
    ensures PrudentRun(w, s, steps)
    decreases |steps|
  {
    if steps != [] {
      KeepingIsPrudent(w, s, steps[0], v);
      StepKeepsInv(w, s, steps[0]);
      KeepingRunIsPrudent(w, Apply(w, s, steps[0]), steps[1..], v);
    }
  }

  /** A vault key wrapped only for uncorrupted users stays secret in every run, even when
      X25519 is broken, or ML-KEM, but not both, and even when in each wrap one of the
      sender's two draws leaks, for a primitive of which the other half then stands. */
  lemma HybridSecrecy(w: World, steps: seq<Step>, v: nat, i: nat)
    requires Runs(w, Init(), steps) && GuardsOnly(w, v)
    requires KeepsKeyRun(w, Init(), steps, v) && SafelyDrawn(w, steps, v)
    requires i < Vault.VAULT_KEY_LEN
    ensures VaultKeyDraw(v)[i] !in Final(w, Init(), steps).known
  {
    InitInv(w);
    KeepingRunIsPrudent(w, Init(), steps, v);
    GuardedStaysSecret(w, Final(w, Init(), steps), steps, Fresh(VaultKey, v), i);
  }

  /** No draw of any sender leaks. */
  ghost predicate DrawsAreGuarded(w: World) {
    forall id: nat :: Fresh(Ephemeral, id) in w.guarded && Fresh(Encaps, id) in w.guarded
  }

  /** In particular, when no draw leaks it is enough that one primitive stands. */
  lemma EitherPrimitiveIsEnough(w: World, steps: seq<Step>, v: nat, i: nat)
    requires Runs(w, Init(), steps) && GuardsOnly(w, v) && KeepsKeyRun(w, Init(), steps, v)
    requires DrawsAreGuarded(w) && !(w.curveBroken && w.kemBroken)
    requires i < Vault.VAULT_KEY_LEN
    ensures VaultKeyDraw(v)[i] !in Final(w, Init(), steps).known
  {
    assert SafelyDrawn(w, steps, v);
    HybridSecrecy(w, steps, v, i);
  }

  // ----- Purposes -----

  /** The three derived purposes never share a key, and a generated vault key is never used
      for anything else. What two purposes can share is a vault key that a user accepted from
      the adversary: one that was not generated, and is public. */
  lemma PurposesAreSeparated(w: World, s: State, steps: seq<Step>, key: Str, p: Purpose, q: Purpose)
    requires Reachable(w, s, steps)
    requires Use(p, key) in s.uses && Use(q, key) in s.uses && p != q
    ensures (p == VaultSealing || q == VaultSealing) && Public(w, s.log, key)
    ensures !RootOrigin(key, VaultKey)
  {
    ReachableInv(w, s, steps);
    assert UseOk(w, s.log, Use(p, key)) && UseOk(w, s.log, Use(q, key));
  }
}
