/** Users whose password has leaked: the server can give them an identity of its own making. */
module Replacement {
  import opened Symbolic
  import opened Keypair
  import opened Secrecy
  import opened Protocol
  import opened Theorems
  import opened Identities
  import opened Limits
  import Kdf

  /** An identity blob with a seed of the server's own, under a master key it knows. */
  function OwnIdentity(master: Str): EncryptedPrivateKey<Sym> {
    SealedIdentity(OwnSeed(), master, Zeros(XCHACHA_NONCE_LEN))
  }

  function OwnSeed(): Str {
    Expand(Own(0), ED25519_PRIVATE_LEN)
  }

  lemma ComputesOwnIdentity(w: World, s: State, t: State, master: Str) returns (u: State)
    requires Computes(w, s, t) && Knows(t, master) && t.known >= Init().known
    ensures Computes(w, s, u) && Knows(u, OwnIdentity(master).nonce) && Knows(u, OwnIdentity(master).ciphertext)
  {
    var own, nonce, key := OwnSeed(), Zeros(XCHACHA_NONCE_LEN), IdentitySealKey(master);
    var derive := DeriveKey(master, Kdf.HKDF_INFO_PRIVATE_KEY_ENC, 32);
    ComputesMore(w, s, t, derive);
    var t1 := AfterMove(w, t, derive);
    var t2 := LearnsOwn(w, s, t1, 0);
    assert Knows(t2, key) && Knows(t2, own) && Knows(t2, nonce);
    KnowsConcat(t2, key, nonce);
    KnowsConcat(t2, key + nonce, own);
    var seal := SealMessage(XChaCha20Poly1305, key, nonce, [], own);
    ComputesMore(w, s, t2, seal);
    u := AfterMove(w, t2, seal);
  }

  lemma ComputesMasterKey(w: World, s: State, password: nat, salt: Str) returns (u: State)
    requires Fresh(Password, password) !in w.guarded && Knows(s, salt)
    ensures Computes(w, s, u) && s.known <= u.known && Knows(u, Kdf.MasterKeyOf(PasswordDraw(password), salt))
  {
    ComputesNothing(w, s);
    RootOfExpand(Fresh(Password, password), 1);
    var t := Obtains(w, s, s, PasswordDraw(password));
    KnowsConcat(t, PasswordDraw(password), salt);
    var hash := HashPassword(Kdf.KDF_DOMAIN_MASTER_KEY, PasswordDraw(password), salt, Kdf.MASTER_KEY_LEN);
    ComputesMore(w, s, t, hash);
    u := AfterMove(w, t, hash);
  }

  /** Registration hands the salt to the server. */
  lemma {:induction false} SaltIsKnown(w: World, s: State, steps: seq<Step>, i: nat)
    requires Runs(w, s, steps) && i < |steps| && steps[i].Register?
    ensures Knows(Final(w, s, steps), SaltDraw(steps[i].salt))
    decreases |steps|
  {
    var s' := Apply(w, s, steps[0]);
    if i == 0 {
      var kp := KeypairOf(SeedDraw(steps[0].seed));
      assert Knows(s', kp.ed25519Public + kp.x25519Public + kp.mlkemPublic + SaltDraw(steps[0].salt));
      KnowsConcat(s', kp.ed25519Public + kp.x25519Public + kp.mlkemPublic, SaltDraw(steps[0].salt));
      KnownGrows(w, s', steps[1..]);
    } else {
      SaltIsKnown(w, s', steps[1..], i - 1);
    }
  }

  ghost predicate NoRegistrations(steps: seq<Step>, from: nat) {
    forall i | from <= i < |steps| :: !steps[i].Register?
  }

  /** At any time, and for every user whose password is not guarded, the run can go on to a
      login that installs the server's identity. */
  lemma IdentityCanBeReplaced(w: World, s: State, steps: seq<Step>, i: nat)
    requires Reachable(w, s, steps) && i < |steps| && steps[i].Register?
    requires Fresh(Password, steps[i].password) !in w.guarded
    ensures exists t, more :: Reachable(w, t, more) && steps <= more && NoRegistrations(more, |steps|) &&
              steps[i].user in t.users && t.users[steps[i].user].identity == KeypairOf(OwnSeed())
  {
    var user := steps[i].user;
    RegistrationStays(w, Init(), steps, i);
    SaltIsKnown(w, Init(), steps, i);
    KnownGrows(w, Init(), steps);
    var master := s.users[user].MasterKey();
    var t := ComputesMasterKey(w, s, steps[i].password, SaltDraw(steps[i].salt));
    var u := ComputesOwnIdentity(w, s, t, master);
    var before := ReachableComputation(w, s, steps, u);
    UnsealIff(OwnSeed(), master, Zeros(XCHACHA_NONCE_LEN), master);
    var all := ReachableStep(w, u, before, Login(user, OwnIdentity(master)));
  }

  /** The user has the registered identity however the run goes on. */
  ghost predicate IdentityIsFixed(w: World, steps: seq<Step>, i: nat)
    requires i < |steps| && steps[i].Register?
  {
    forall t, more | Reachable(w, t, more) && steps <= more && SaltsAreFresh(more) ::
      steps[i].user in t.users && t.users[steps[i].user].identity == KeypairOf(SeedDraw(steps[i].seed))
  }

  /** The identity registered in step `i` of any run stays exactly when its password is
      guarded. */
  lemma IdentityIsFixedIff(w: World, s: State, steps: seq<Step>, i: nat)
    requires Reachable(w, s, steps) && SaltsAreFresh(steps) && i < |steps| && steps[i].Register?
    ensures IdentityIsFixed(w, steps, i) <==> Fresh(Password, steps[i].password) in w.guarded
  {
    if Fresh(Password, steps[i].password) in w.guarded {
      forall t, more | Reachable(w, t, more) && steps <= more && SaltsAreFresh(more)
        ensures steps[i].user in t.users
        ensures t.users[steps[i].user].identity == KeypairOf(SeedDraw(steps[i].seed)) {
        assert more[i] == steps[i];
        GuardedPasswordKeepsIdentity(w, t, more, i);
      }
    } else {
      IdentityCanBeReplaced(w, s, steps, i);
      var t, more :| Reachable(w, t, more) && steps <= more && NoRegistrations(more, |steps|) &&
                     steps[i].user in t.users && t.users[steps[i].user].identity == KeypairOf(OwnSeed());
      assert SaltsAreFresh(more);
      assert OwnSeed()[0] != SeedDraw(steps[i].seed)[0];
    }
  }
}
