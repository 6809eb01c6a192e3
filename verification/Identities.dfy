/** However the server answers logins, users keep the identities they registered. */
module Identities {
  import opened Symbolic
  import opened Buffers
  import opened Keypair
  import opened Secrecy
  import opened Protocol
  import opened Confinement
  import opened Invariant
  import opened Theorems
  import Kdf

  /** Every message sealed as an identity under `master`, and every user with that master key,
      has the seed `seed`. */
  ghost predicate Bound(s: State, master: Str, seed: Str) {
    && (forall t | t in s.log :: SealsIdentity(t, master) ==> t.message == seed)
    && (forall u | u in s.users :: s.users[u].MasterKey() == master ==> s.users[u].identity.ed25519Seed == seed)
  }

  predicate SealsIdentity(t: Term, master: Str) {
    t.Sealed? && t.alg == XChaCha20Poly1305 && t.key == IdentitySealKey(master)
  }

  /** A registration under `master`, if the step is one, is of `seed`. */
  predicate RegistersOnly(step: Step, master: Str, seed: Str) {
    step.Register? && Kdf.MasterKeyOf(PasswordDraw(step.password), SaltDraw(step.salt)) == master ==>
      SeedDraw(step.seed) == seed
  }

  lemma SealingKeepsBound(s: State, of: Str, sealed: Str, nonce: Str, master: Str, seed: Str)
    requires Bound(s, master, seed) && (of == master ==> sealed == seed)
    ensures Bound(SealIdentity(s, of, sealed, nonce), master, seed)
  {
    Kdf.SubkeysEqualIff(of, Kdf.HKDF_INFO_PRIVATE_KEY_ENC, master, Kdf.HKDF_INFO_PRIVATE_KEY_ENC);
  }

  lemma RegisterKeepsBound(s: State, step: Step, master: Str, seed: Str)
    requires Bound(s, master, seed) && step.Register? && RegistersOnly(step, master, seed)
    ensures Bound(AfterRegister(s, step.user, step.seed, step.password, step.salt, step.nonce), master, seed)
  {
    var kp := KeypairOf(SeedDraw(step.seed));
    var u := User(PasswordDraw(step.password), SaltDraw(step.salt), kp);
    var s1 := s.(known := s.known + Chars(kp.ed25519Public + kp.x25519Public + kp.mlkemPublic + u.salt),
                 users := s.users[step.user := u]);
    SealingKeepsBound(s1, u.MasterKey(), kp.ed25519Seed, XNonce(step.nonce), master, seed);
  }

  /** Any blob the server can offer opens under a secret master key to the bound seed only. */
  lemma LoginKeepsBound(w: World, s: State, user: nat, enc: EncryptedPrivateKey<Sym>, master: Str, seed: Str)
    requires Inv(w, s) && Bound(s, master, seed) && Never(w, master)
    requires user in s.users && Knows(s, enc.ciphertext)
    ensures Bound(AfterLogin(s, user, enc), master, seed)
  {
    var u := s.users[user];
    if u.MasterKey() == master && UnsealedIdentity(enc, master).Ok? {
      var key := IdentitySealKey(master);
      KnownIsPublic(w, s, enc.ciphertext);
      OpenedIsConfined(w, s.log, XChaCha20Poly1305, key, enc.nonce, [], enc.ciphertext);
      NeverIsNotPublic(w, s.log, master);
      SubkeyPublicIff(w, s.log, master, Kdf.HKDF_INFO_PRIVATE_KEY_ENC);
      var message := OpenBytes(XChaCha20Poly1305, key, enc.nonce, [], enc.ciphertext).value;
      assert SealsIdentity(Sealed(XChaCha20Poly1305, key, enc.nonce, [], message), master);
    }
  }

  /** No other step seals an identity or changes one. */
  lemma OtherStepsKeepBound(w: World, s: State, step: Step, master: Str, seed: Str)
    requires Enabled(w, s, step) && !step.Register? && !step.Login? && !step.Reseal?
    requires Bound(s, master, seed)
    ensures Bound(Apply(w, s, step), master, seed)
  {
    match step
    case SoloWrap(user, _, _) =>
      Kdf.SubkeysEqualIff(s.users[user].MasterKey(), Kdf.HKDF_INFO_VAULT_KEY_WRAP_MK,
                          master, Kdf.HKDF_INFO_PRIVATE_KEY_ENC);
    case Share(_, _, to, eph, encaps, _) =>
      var e := Draw(Ephemeral, eph, 32);
      var (ct, ss) := KemEncapsulate(to.mlkem, Draw(Encaps, encaps, 32));
      Kdf.SubkeysEqualIff(CombinerInput(ss, DiffieHellman(e, to.x25519), ct, CurvePublic(e), to.x25519),
                          Kdf.HKDF_INFO_VAULT_KEY_WRAP, master, Kdf.HKDF_INFO_PRIVATE_KEY_ENC);
    case _ =>
  }

  lemma StepKeepsBound(w: World, s: State, step: Step, master: Str, seed: Str)
    requires Inv(w, s) && Enabled(w, s, step) && Never(w, master)
    requires Bound(s, master, seed) && RegistersOnly(step, master, seed)
    ensures Bound(Apply(w, s, step), master, seed)
  {
    match step
    case Register(_, _, _, _, _) => RegisterKeepsBound(s, step, master, seed);
    case Login(user, enc) => LoginKeepsBound(w, s, user, enc, master, seed);
    case Reseal(user, nonce) =>
      var u := s.users[user];
      SealingKeepsBound(s, u.MasterKey(), u.identity.ed25519Seed, XNonce(nonce), master, seed);
    case _ => OtherStepsKeepBound(w, s, step, master, seed);
  }

  lemma {:induction false} RunKeepsBound(w: World, s: State, steps: seq<Step>, master: Str, seed: Str)
    requires Inv(w, s) && Runs(w, s, steps) && PrudentRun(w, s, steps) && Never(w, master)
    requires Bound(s, master, seed) && forall i | 0 <= i < |steps| :: RegistersOnly(steps[i], master, seed)
    ensures Bound(Final(w, s, steps), master, seed)
    decreases |steps|
  {
    if steps != [] {
      StepKeepsBound(w, s, steps[0], master, seed);
      StepKeepsInv(w, s, steps[0]);
      RunKeepsBound(w, Apply(w, s, steps[0]), steps[1..], master, seed);
    }
  }

  /** The step that registered the user's password and salt. */
  ghost predicate Registered(step: Step, user: nat, u: User) {
    && step.Register? && step.user == user
    && u.password == PasswordDraw(step.password) && u.salt == SaltDraw(step.salt)
  }

  lemma {:induction false} UserWasRegistered(w: World, s: State, steps: seq<Step>, user: nat) returns (i: nat)
    requires Runs(w, s, steps) && user !in s.users && user in Final(w, s, steps).users
    ensures i < |steps| && Registered(steps[i], user, Final(w, s, steps).users[user])
    decreases |steps|
  {
    var s' := Apply(w, s, steps[0]);
    if user in s'.users {
      i := 0;
      PasswordStays(w, s', steps[1..], user);
    } else {
      var j := UserWasRegistered(w, s', steps[1..], user);
      i := j + 1;
    }
  }

  lemma {:induction false} PasswordStays(w: World, s: State, steps: seq<Step>, user: nat)
    requires Runs(w, s, steps) && user in s.users
    ensures var u, v := s.users[user], Final(w, s, steps).users;
            user in v && v[user].password == u.password && v[user].salt == u.salt
    decreases |steps|
  {
    if steps != [] {
      PasswordStays(w, Apply(w, s, steps[0]), steps[1..], user);
    }
  }

  lemma {:induction false} RegistrationStays(w: World, s: State, steps: seq<Step>, i: nat)
    requires Runs(w, s, steps) && i < |steps| && steps[i].Register?
    ensures var v := Final(w, s, steps).users;
            steps[i].user in v && Registered(steps[i], steps[i].user, v[steps[i].user])
    decreases |steps|
  {
    var s' := Apply(w, s, steps[0]);
    if i == 0 {
      PasswordStays(w, s', steps[1..], steps[0].user);
    } else {
      RegistrationStays(w, s', steps[1..], i - 1);
    }
  }

  /** A user whose master key is secret has, after any logins with whatever blobs the server
      chose, the identity made at registration, provided that nobody registered another seed
      under that password and salt. */
  lemma RegisteredIdentityStays(w: World, s: State, steps: seq<Step>, i: nat)
    requires Reachable(w, s, steps) && i < |steps| && steps[i].Register?
    requires var master := Kdf.MasterKeyOf(PasswordDraw(steps[i].password), SaltDraw(steps[i].salt));
             Never(w, master) && forall j | 0 <= j < |steps| :: RegistersOnly(steps[j], master, SeedDraw(steps[i].seed))
    ensures steps[i].user in s.users && s.users[steps[i].user].identity == KeypairOf(SeedDraw(steps[i].seed))
  {
    var user := steps[i].user;
    RegistrationStays(w, Init(), steps, i);
    InitInv(w);
    RunKeepsBound(w, Init(), steps, s.users[user].MasterKey(), SeedDraw(steps[i].seed));
    IdentitiesAreDerived(w, s, steps, user);
  }

  /** No two registrations draw the same salt. */
  ghost predicate SaltsAreFresh(steps: seq<Step>) {
    forall i, j | 0 <= i < j < |steps| && steps[i].Register? && steps[j].Register? :: steps[i].salt != steps[j].salt
  }

  lemma FreshSaltsRegisterOnce(steps: seq<Step>, i: nat, j: nat)
    requires SaltsAreFresh(steps) && i < |steps| && steps[i].Register? && j < |steps|
    ensures RegistersOnly(steps[j], Kdf.MasterKeyOf(PasswordDraw(steps[i].password), SaltDraw(steps[i].salt)),
                          SeedDraw(steps[i].seed))
  {
    if steps[j].Register? {
      Kdf.PasswordDerivationsDiffer(PasswordDraw(steps[j].password), SaltDraw(steps[j].salt),
                                    PasswordDraw(steps[i].password), SaltDraw(steps[i].salt));
      assert SaltDraw(steps[i].salt)[0] == Of(Fresh(Salt, steps[i].salt), 0);
      assert SaltDraw(steps[j].salt)[0] == Of(Fresh(Salt, steps[j].salt), 0);
    }
  }

  /** With fresh salts the proviso goes: a guarded password keeps the registered identity. */
  lemma GuardedPasswordKeepsIdentity(w: World, s: State, steps: seq<Step>, i: nat)
    requires Reachable(w, s, steps) && i < |steps| && steps[i].Register?
    requires SaltsAreFresh(steps) && Fresh(Password, steps[i].password) in w.guarded
    ensures steps[i].user in s.users && s.users[steps[i].user].identity == KeypairOf(SeedDraw(steps[i].seed))
  {
    MasterKeyNever(w, steps[i].password, SaltDraw(steps[i].salt));
    forall j | 0 <= j < |steps|
      ensures RegistersOnly(steps[j], Kdf.MasterKeyOf(PasswordDraw(steps[i].password), SaltDraw(steps[i].salt)),
                            SeedDraw(steps[i].seed)) {
      FreshSaltsRegisterOnce(steps, i, j);
    }
    RegisteredIdentityStays(w, s, steps, i);
  }
}
