/** What honest users get when the server does its part: logins, wraps and blobs arrive. */
module Delivery {
  import opened Bytes
  import opened Symbolic
  import opened Buffers
  import opened Keypair
  import opened Secrecy
  import opened Protocol
  import opened Identities
  import opened Limits
  import Kdf
  import Vault
  import Sharing

  /** The states around step `i` of a run. */
  lemma {:induction false} AroundStep(w: World, s: State, steps: seq<Step>, i: nat) returns (before: State)
    requires Runs(w, s, steps) && i < |steps|
    ensures Runs(w, s, steps[..i]) && before == Final(w, s, steps[..i]) && Enabled(w, before, steps[i])
    ensures var after := Apply(w, before, steps[i]);
            Runs(w, after, steps[i + 1..]) && Final(w, after, steps[i + 1..]) == Final(w, s, steps)
    decreases |steps|
  {
    if i == 0 {
      before := s;
    } else {
      before := AroundStep(w, Apply(w, s, steps[0]), steps[1..], i - 1);
      assert steps[..i][1..] == steps[1..][..i - 1] && steps[i + 1..] == steps[1..][i..];
    }
  }

  // ----- Logging in -----

  /** Registration hands the server the public keys, the salt, and the sealed seed. */
  lemma RegistrationPublishes(w: World, s: State, step: Step)
    requires step.Register? && Enabled(w, s, step)
    ensures var s' := Apply(w, s, step);
            var seed, salt := Expand(Fresh(Seed, step.seed), 32), Expand(Fresh(Salt, step.salt), 32);
            var master := Expand(Argon2("evnx-master-key-v1", Expand(Fresh(Password, step.password), 1), salt), 32);
            var nonce := Expand(Fresh(Nonce, step.nonce), 24);
            var key := Expand(HkdfStream(master, "evnx-private-key-enc-v1"), 32);
            && Knows(s', KeypairOf(seed).ed25519Public) && Knows(s', KeypairOf(seed).x25519Public)
            && Knows(s', KeypairOf(seed).mlkemPublic) && Knows(s', salt)
            && Knows(s', nonce) && Knows(s', SealBytes(XChaCha20Poly1305, key, nonce, [], seed))
  {
    var s' := Apply(w, s, step);
    var kp := KeypairOf(SeedDraw(step.seed));
    var salt := SaltDraw(step.salt);
    var enc := SealedIdentity(kp.ed25519Seed, Kdf.MasterKeyOf(PasswordDraw(step.password), salt), XNonce(step.nonce));
    assert Knows(s', kp.ed25519Public + kp.x25519Public + kp.mlkemPublic + salt);
    KnowsConcat(s', kp.ed25519Public + kp.x25519Public + kp.mlkemPublic, salt);
    KnowsConcat(s', kp.ed25519Public + kp.x25519Public, kp.mlkemPublic);
    KnowsConcat(s', kp.ed25519Public, kp.x25519Public);
    assert Knows(s', enc.nonce + enc.ciphertext);
    KnowsConcat(s', enc.nonce, enc.ciphertext);
  }

  /** However a run goes on after a registration, the user can log in with the blob sealed
      then, and has exactly the registered identity. */
  lemma RegisteredCanLogIn(w: World, steps: seq<Step>, i: nat) returns (enc: EncryptedPrivateKey<Sym>)
    requires Runs(w, Init(), steps) && i < |steps| && steps[i].Register?
    ensures var s, user := Final(w, Init(), steps), steps[i].user;
            && Enabled(w, s, Login(user, enc))
            && user in Apply(w, s, Login(user, enc)).users
            && Apply(w, s, Login(user, enc)).users[user].identity == KeypairOf(Expand(Fresh(Seed, steps[i].seed), 32))
  {
    var before := AroundStep(w, Init(), steps, i);
    var after := Apply(w, before, steps[i]);
    RegistrationPublishes(w, before, steps[i]);
    KnownGrows(w, after, steps[i + 1..]);
    RegistrationStays(w, Init(), steps, i);
    var master := Kdf.MasterKeyOf(PasswordDraw(steps[i].password), SaltDraw(steps[i].salt));
    enc := SealedIdentity(SeedDraw(steps[i].seed), master, XNonce(steps[i].nonce));
    UnsealIff(SeedDraw(steps[i].seed), master, XNonce(steps[i].nonce), master);
  }

  /** Sealing the identity again hands the server another blob for the same login. */
  lemma ResealPublishes(w: World, s: State, step: Step)
    requires step.Reseal? && Enabled(w, s, step)
    ensures var u, s' := s.users[step.user], Apply(w, s, step);
            var nonce := Expand(Fresh(Nonce, step.nonce), 24);
            var key := Expand(HkdfStream(u.MasterKey(), "evnx-private-key-enc-v1"), 32);
            && Knows(s', nonce) && Knows(s', SealBytes(XChaCha20Poly1305, key, nonce, [], u.identity.ed25519Seed))
  {
    var u := s.users[step.user];
    var enc := SealedIdentity(u.identity.ed25519Seed, u.MasterKey(), XNonce(step.nonce));
    assert Knows(Apply(w, s, step), enc.nonce + enc.ciphertext);
    KnowsConcat(Apply(w, s, step), enc.nonce, enc.ciphertext);
  }

  // ----- Vaults -----

  lemma {:induction false} DocsGrow(w: World, s: State, steps: seq<Step>)
    requires Runs(w, s, steps)
    ensures s.docs <= Final(w, s, steps).docs
    decreases |steps|
  {
    if steps != [] {
      DocsGrow(w, Apply(w, s, steps[0]), steps[1..]);
    }
  }

  /** At any time a user can create a vault and push any text of their own under its key. */
  lemma VaultsCanBeUsed(w: World, steps: seq<Step>, user: nat, id: nat, vaultId: seq<byte>, version: u32,
                        text: nat, n: nat, nonce: nat)
    requires Runs(w, Init(), steps) && user in Final(w, Init(), steps).users
    ensures var s, key := Final(w, Init(), steps), Expand(Fresh(VaultKey, id), 32);
            && Enabled(w, s, CreateVault(user, id))
            && (user, key) in Apply(w, s, CreateVault(user, id)).held
            && Enabled(w, Apply(w, s, CreateVault(user, id)),
                       Push(user, key, vaultId, version, Expand(Fresh(Plaintext, text), n), nonce))
  {
    DocsGrow(w, Init(), steps);
    forall i | 0 <= i < n ensures Expand(Fresh(Plaintext, text), n)[i] in Init().docs {
    }
  }

  // ----- Wraps -----

  /** A solo wrap reaches the server, and whoever derives the same master key, on whatever
      device, holds the key after being served it. */
  lemma SoloWrapDelivers(w: World, s: State, step: Step, t: State, user: nat)
    requires step.SoloWrap? && Enabled(w, s, step) && |step.key| == 32
    requires user in t.users && t.users[user].MasterKey() == s.users[step.user].MasterKey()
    requires Apply(w, s, step).known <= t.known
    ensures var nonce := Expand(Fresh(Nonce, step.nonce), 24);
            var wrapKey := Expand(HkdfStream(s.users[step.user].MasterKey(), "evnx-vault-key-wrap-mk-v1"), 32);
            var wrapped := nonce + SealBytes(XChaCha20Poly1305, wrapKey, nonce, [], step.key);
            && Enabled(w, t, SoloUnwrap(user, wrapped))
            && Apply(w, t, SoloUnwrap(user, wrapped)).held == t.held + iset{(user, step.key)}
  {
    var master := s.users[step.user].MasterKey();
    var wrapped := Vault.MasterWrapped(step.key, master, XNonce(step.nonce));
    assert Knows(Apply(w, s, step), wrapped);
    Vault.MasterUnwrapIff(step.key, master, XNonce(step.nonce), master);
  }

  /** A share reaches the server, and whoever has the identity it was made to holds the key
      after being served it. */
  lemma ShareDelivers(w: World, s: State, step: Step, t: State, user: nat, seed: Str)
    requires step.Share? && Enabled(w, s, step) && |step.key| == 32 && step.to == PublicKeys(KeypairOf(seed))
    requires user in t.users && t.users[user].identity == KeypairOf(seed)
    requires Apply(w, s, step).known <= t.known
    ensures exists offered :: Enabled(w, t, Accept(user, offered)) &&
              Apply(w, t, Accept(user, offered)).held == t.held + iset{(user, step.key)}
  {
    var e, m := Draw(Ephemeral, step.eph, 32), Draw(Encaps, step.encaps, 32);
    Sharing.HonestBundleAccepted(step.key, seed, e, m, XNonce(step.nonce));
    var made := SharedWrap(step.key, step.to, e, m, XNonce(step.nonce)).value;
    Sharing.UnwrapIff(step.key, step.to, e, m, XNonce(step.nonce), made, seed, made);
    var s' := Apply(w, s, step);
    assert Knows(s', made.ephPubKey + made.mlkemCiphertext + made.encryptedVaultKey);
    KnowsConcat(s', made.ephPubKey + made.mlkemCiphertext, made.encryptedVaultKey);
    KnowsConcat(s', made.ephPubKey, made.mlkemCiphertext);
    assert Enabled(w, t, Accept(user, made));
    AcceptTakes(w, t, user, made, step.key);
  }

  lemma AcceptTakes(w: World, t: State, user: nat, offered: WrappedVaultKey<Sym>, key: Str)
    requires Enabled(w, t, Accept(user, offered)) && |t.users[user].identity.mlkemDecap| == KEM_SEED_LEN
    requires SharedUnwrap(offered, t.users[user].identity) == Ok(key)
    ensures Apply(w, t, Accept(user, offered)).held == t.held + iset{(user, key)}
  {
  }

  /** So in every run that has a registration and, later, a share of a 32-byte key to its keys,
      the user who logs in and is served that wrap holds the key. */
  lemma SharesArrive(w: World, steps: seq<Step>, i: nat, j: nat) returns (login: Step)
    requires Runs(w, Init(), steps) && i < j < |steps| && steps[i].Register? && steps[j].Share?
    requires |steps[j].key| == 32 && steps[j].to == PublicKeys(KeypairOf(SeedDraw(steps[i].seed)))
    ensures var s := Final(w, Init(), steps);
            && Enabled(w, s, login)
            && exists offered :: Enabled(w, Apply(w, s, login), Accept(steps[i].user, offered)) &&
                 (steps[i].user, steps[j].key) in Apply(w, Apply(w, s, login), Accept(steps[i].user, offered)).held
  {
    var s := Final(w, Init(), steps);
    var enc := RegisteredCanLogIn(w, steps, i);
    login := Login(steps[i].user, enc);
    var before := AroundStep(w, Init(), steps, j);
    KnownGrows(w, Apply(w, before, steps[j]), steps[j + 1..]);
    ShareDelivers(w, before, steps[j], Apply(w, s, login), steps[i].user, SeedDraw(steps[i].seed));
  }

  // ----- Blobs -----

  /** In every run, what was pushed can be pulled by whoever holds the key. */
  lemma PushesArrive(w: World, steps: seq<Step>, i: nat, user: nat) returns (blob: Vault.EncryptedBlob)
    requires Runs(w, Init(), steps) && i < |steps| && steps[i].Push?
    requires (user, steps[i].key) in Final(w, Init(), steps).held
    requires |steps[i].plaintext| <= Vault.GCM_MAX_PLAINTEXT && |steps[i].vaultId| + 10 <= Vault.GCM_MAX_AAD
    ensures var push, s := steps[i], Final(w, Init(), steps);
            var pull := Pull(user, push.key, push.vaultId, push.version, blob);
            && Enabled(w, s, pull) && Apply(w, s, pull).docs == s.docs + Chars(push.plaintext)
            && Vault.Opened(blob, push.key, Vault.AadOf(push.vaultId, push.version)) == Ok(push.plaintext)
  {
    var push := steps[i];
    var before := AroundStep(w, Init(), steps, i);
    var after := Apply(w, before, push);
    var aad := Vault.AadOf(push.vaultId, push.version);
    blob := Vault.BlobOf(push.plaintext, push.key, aad, GcmNonce(push.nonce)).value;
    Vault.OpenedIff(push.plaintext, push.key, aad, GcmNonce(push.nonce), blob, push.key, aad);
    assert Knows(after, blob.nonce + blob.ciphertext);
    KnowsConcat(after, blob.nonce, blob.ciphertext);
    KnownGrows(w, after, steps[i + 1..]);
  }

  // ----- Bookkeeping -----

  /** Every step that runs a cipher notes its key and purpose, and no note is ever dropped. */
  lemma UsesAreNoted(w: World, s: State, step: Step)
    requires Enabled(w, s, step)
    ensures s.uses <= Apply(w, s, step).uses
    ensures var uses := Apply(w, s, step).uses;
            match step
            case Login(user, _) =>
              Use(IdentitySealing, Expand(HkdfStream(s.users[user].MasterKey(), "evnx-private-key-enc-v1"), 32)) in uses
            case Reseal(user, _) =>
              Use(IdentitySealing, Expand(HkdfStream(s.users[user].MasterKey(), "evnx-private-key-enc-v1"), 32)) in uses
            case SoloWrap(user, _, _) =>
              var wrapKey := Expand(HkdfStream(s.users[user].MasterKey(), "evnx-vault-key-wrap-mk-v1"), 32);
              Use(MasterWrapping, wrapKey) in uses
            case SoloUnwrap(user, wrapped) =>
              var wrapKey := Expand(HkdfStream(s.users[user].MasterKey(), "evnx-vault-key-wrap-mk-v1"), 32);
              |wrapped| < 56 || Use(MasterWrapping, wrapKey) in uses
            case Push(_, key, _, _, _, _) => Use(VaultSealing, key) in uses
            case Pull(_, key, _, _, _) => Use(VaultSealing, key) in uses
            case Rekey(_, key, newKey, vaultId, version, blob, _) =>
              && Use(VaultSealing, key) in uses
              && (Vault.Opened(blob, key, Vault.AadOf(vaultId, version)).Ok? ==> Use(VaultSealing, newKey) in uses)
            case _ => true
  {
  }

  ghost predicate NotedIn(uses: iset<Use>, t: Term) {
    t.Sealed? && exists use :: use in uses && use.key == t.key && (use.purpose == VaultSealing <==> t.alg == Aes256Gcm)
  }

  /** Messages are logged with the key they are sealed under, and that key is noted. */
  ghost predicate Noted(s: State) {
    forall t | t in s.log :: NotedIn(s.uses, t)
  }

  lemma NotedGrows(uses: iset<Use>, more: iset<Use>, t: Term)
    requires uses <= more && NotedIn(uses, t)
    ensures NotedIn(more, t)
  {
  }

  lemma SealingIsNoted(s: State, s': State, t: Term, use: Use)
    requires Noted(s) && s'.log <= s.log + iset{t} && s.uses <= s'.uses && use in s'.uses
    requires t.Sealed? && use.key == t.key && (use.purpose == VaultSealing <==> t.alg == Aes256Gcm)
    ensures Noted(s')
  {
    forall x | x in s'.log ensures NotedIn(s'.uses, x) {
      if x in s.log {
        NotedGrows(s.uses, s'.uses, x);
      }
    }
  }

  lemma StepKeepsNoted(w: World, s: State, step: Step)
    requires Enabled(w, s, step) && Noted(s)
    ensures Noted(Apply(w, s, step))
  {
    var s' := Apply(w, s, step);
    match step
    case Register(user, seed, _, _, nonce) =>
      IdentityIsNoted(s, s', s'.users[user].MasterKey(), SeedDraw(seed), XNonce(nonce));
    case Reseal(user, nonce) =>
      IdentityIsNoted(s, s', s.users[user].MasterKey(), s.users[user].identity.ed25519Seed, XNonce(nonce));
    case SoloWrap(user, key, nonce) =>
      var wrapKey := Vault.MasterWrapKey(s.users[user].MasterKey());
      SealingIsNoted(s, s', Sealed(XChaCha20Poly1305, wrapKey, XNonce(nonce), [], key), Use(MasterWrapping, wrapKey));
    case Share(_, key, to, eph, encaps, nonce) =>
      if SharedWrap(key, to, Draw(Ephemeral, eph, 32), Draw(Encaps, encaps, 32), XNonce(nonce)).Ok? {
        var wrapKey := SenderKey(to, eph, encaps);
        SealingIsNoted(s, s', Sealed(XChaCha20Poly1305, wrapKey, XNonce(nonce), [], key), Use(HybridWrapping, wrapKey));
      }
    case Push(user, key, vaultId, version, plaintext, nonce) =>
      BlobIsNoted(s, Record(user, key, vaultId, version, plaintext, None), nonce);
    case Rekey(user, key, newKey, vaultId, version, blob, nonce) =>
      var used := s.(uses := s.uses + iset{Use(VaultSealing, key)});
      var text := Vault.Opened(blob, key, AadFor(vaultId, version));
      assert Noted(used);
      if text.Ok? {
        BlobIsNoted(used, Record(user, newKey, vaultId, version, text.value, Some(key)), nonce);
      }
    case _ => NotesGrow(w, s, step);
  }

  lemma NotesGrow(w: World, s: State, step: Step)
    requires Enabled(w, s, step) && Noted(s) && Apply(w, s, step).log == s.log
    ensures Noted(Apply(w, s, step))
  {
    UsesAreNoted(w, s, step);
    var s' := Apply(w, s, step);
    forall x | x in s'.log ensures NotedIn(s'.uses, x) {
      NotedGrows(s.uses, s'.uses, x);
    }
  }

  lemma IdentityIsNoted(s: State, s': State, master: Str, seed: Str, nonce: Str)
    requires Noted(s)
    requires s'.log == s.log + iset{Sealed(XChaCha20Poly1305, IdentitySealKey(master), nonce, [], seed)}
    requires s'.uses == s.uses + iset{Use(IdentitySealing, IdentitySealKey(master))}
    ensures Noted(s')
  {
    var key := IdentitySealKey(master);
    SealingIsNoted(s, s', Sealed(XChaCha20Poly1305, key, nonce, [], seed), Use(IdentitySealing, key));
  }

  lemma BlobIsNoted(s: State, r: Record, nonce: nat)
    requires Noted(s)
    ensures Noted(AfterSealBlob(s, r, nonce))
  {
    var t := Sealed(Aes256Gcm, r.key, GcmNonce(nonce), AadFor(r.vaultId, r.version), r.plaintext);
    SealingIsNoted(s, AfterSealBlob(s, r, nonce), t, Use(VaultSealing, r.key));
  }

  /** In every run each key that sealed something is noted as used. */
  lemma {:induction false} SealingsAreNoted(w: World, s: State, steps: seq<Step>)
    requires Runs(w, s, steps) && Noted(s)
    ensures Noted(Final(w, s, steps))
    decreases |steps|
  {
    if steps != [] {
      StepKeepsNoted(w, s, steps[0]);
      SealingsAreNoted(w, Apply(w, s, steps[0]), steps[1..]);
    }
  }
}
