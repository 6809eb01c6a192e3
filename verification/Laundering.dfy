/** Re-keying away from a key that others know: what a forger sealed under the old key comes
    out as authentic under the new one. */
module Laundering {
  import opened Bytes
  import opened Symbolic
  import opened Secrecy
  import opened Protocol
  import opened Invariant
  import opened Theorems
  import opened Authenticity
  import opened Limits
  import Vault

  /** A blob the server makes itself, under a key it knows. */
  function Forged(key: Str, aad: seq<byte>, text: Str): Vault.EncryptedBlob {
    Vault.EncryptedBlob(Zeros(Vault.NONCE_LEN), SealBytes(Aes256Gcm, key, Zeros(Vault.NONCE_LEN), aad, text))
  }

  lemma ComputesForged(w: World, s: State, t: State, key: Str, aad: seq<byte>, text: Str) returns (u: State)
    requires Computes(w, s, t) && Knows(t, key) && Knows(t, text) && t.known >= Init().known
    ensures Computes(w, s, u) && Knows(u, Forged(key, aad, text).nonce) && Knows(u, Forged(key, aad, text).ciphertext)
  {
    var nonce := Zeros(Vault.NONCE_LEN);
    KnowsConcat(t, key, nonce);
    KnowsConcat(t, key + nonce, text);
    var seal := SealMessage(Aes256Gcm, key, nonce, aad, text);
    ComputesMore(w, s, t, seal);
    u := AfterMove(w, t, seal);
  }

  /** What re-keying a blob that opens publishes opens under the new key, to the same text. */
  lemma RekeyedOpens(w: World, s: State, rekey: Step, text: Str) returns (blob: Vault.EncryptedBlob)
    requires rekey.Rekey? && Enabled(w, s, rekey)
    requires Vault.Opened(rekey.blob, rekey.key, AadFor(rekey.vaultId, rekey.version)) == Ok(text)
    requires |text| <= Vault.GCM_MAX_PLAINTEXT && |AadFor(rekey.vaultId, rekey.version)| <= Vault.GCM_MAX_AAD
    ensures Vault.Opened(blob, rekey.newKey, AadFor(rekey.vaultId, rekey.version)) == Ok(text)
    ensures Enabled(w, Apply(w, s, rekey), Pull(rekey.user, rekey.newKey, rekey.vaultId, rekey.version, blob))
  {
    var aad := AadFor(rekey.vaultId, rekey.version);
    blob := Vault.BlobOf(text, rekey.newKey, aad, GcmNonce(rekey.nonce)).value;
    Vault.OpenedIff(text, rekey.newKey, aad, GcmNonce(rekey.nonce), blob, rekey.newKey, aad);
    var s' := Apply(w, s, rekey);
    assert Knows(s', blob.nonce + blob.ciphertext);
    KnowsConcat(s', blob.nonce, blob.ciphertext);
  }

  /** All the run added is the server's doing, except for re-keying away from `key`. */
  ghost predicate OnlyRekeysFrom(w: World, steps: seq<Step>, from: nat, key: Str) {
    forall i | from <= i < |steps| :: ByServer(w, steps[i]) || (steps[i].Rekey? && steps[i].key == key)
  }

  /** Pulling from vault `vaultId` at `version` under `key` can give `text`. */
  ghost predicate Yielding(w: World, s: State, user: nat, key: Str, vaultId: seq<byte>, version: u32, text: Str) {
    exists blob :: Enabled(w, s, Pull(user, key, vaultId, version, blob)) &&
      Vault.Opened(blob, key, AadFor(vaultId, version)) == Ok(text)
  }

  /** Re-keying the forged blob is enabled, and prudent for a text that is no secret. */
  lemma RekeyForged(w: World, s: State, rekey: Step, text: Str)
    requires rekey.Rekey? && (rekey.user, rekey.key) in s.held && (rekey.user, rekey.newKey) in s.held
    requires var aad := AadFor(rekey.vaultId, rekey.version);
             && rekey.blob == Forged(rekey.key, aad, text) && Disclosable(w, text)
             && |text| <= Vault.GCM_MAX_PLAINTEXT && |aad| <= Vault.GCM_MAX_AAD
    requires Knows(s, rekey.blob.nonce) && Knows(s, rekey.blob.ciphertext)
    ensures Enabled(w, s, rekey) && Prudent(w, s, rekey)
    ensures Yielding(w, Apply(w, s, rekey), rekey.user, rekey.newKey, rekey.vaultId, rekey.version, text)
  {
    var aad := AadFor(rekey.vaultId, rekey.version);
    Vault.OpenedIff(text, rekey.key, aad, Zeros(Vault.NONCE_LEN), rekey.blob, rekey.key, aad);
    var blob := RekeyedOpens(w, s, rekey, text);
  }

  /** A member who re-keys from an old key the server knows to any new one can be made to
      accept any text the server chooses, at any vault and version. */
  lemma ForgeryIsRekeyed(w: World, s: State, steps: seq<Step>, u: State, user: nat, oldKey: Str, newKey: Str,
                         vaultId: seq<byte>, version: u32, text: Str)
    requires Reachable(w, s, steps) && (user, oldKey) in s.held && (user, newKey) in s.held
    requires Computes(w, s, u) && Knows(u, oldKey) && Knows(u, text) && u.known >= Init().known
    requires Disclosable(w, text)
    requires |text| <= Vault.GCM_MAX_PLAINTEXT && |AadFor(vaultId, version)| <= Vault.GCM_MAX_AAD
    ensures exists t, more :: Reachable(w, t, more) && steps <= more && OnlyRekeysFrom(w, more, |steps|, oldKey) &&
              Yielding(w, t, user, newKey, vaultId, version, text)
  {
    var forged := Forged(oldKey, AadFor(vaultId, version), text);
    var v := ComputesForged(w, s, u, oldKey, AadFor(vaultId, version), text);
    var before := ReachableComputation(w, s, steps, v);
    var rekey := Rekey(user, oldKey, newKey, vaultId, version, forged, 0);
    RekeyForged(w, v, rekey, text);
    var more := ReachableStep(w, v, before, rekey);
    assert OnlyRekeysFrom(w, more, |steps|, oldKey);
  }

  // ----- When every pull returns a push -----

  /** Whatever the server answers to a pull under `key`, it is a push of the run or refused. */
  ghost predicate PullsReturnPushes(w: World, s: State, steps: seq<Step>, key: Str) {
    forall user, vaultId, version, text | Yielding(w, s, user, key, vaultId, version, text) ::
      exists i :: 0 <= i < |steps| && Pushes(steps[i], vaultId, version, text)
  }

  /** So it stays when members re-key, from now on, away from `oldKey` only. */
  ghost predicate SafeToRekey(w: World, steps: seq<Step>, oldKey: Str, newKey: Str) {
    forall t, more | Reachable(w, t, more) && steps <= more && RekeysFrom(more, |steps|, oldKey) ::
      PullsReturnPushes(w, t, more, newKey)
  }

  ghost predicate RekeysFrom(steps: seq<Step>, from: nat, key: Str) {
    forall i | from <= i < |steps| && steps[i].Rekey? :: steps[i].key == key
  }

  /** A text of the server's own that no push of the run sealed. */
  lemma {:induction false} UnusedText(steps: seq<Step>) returns (n: nat)
    ensures forall i, m | 0 <= i < |steps| && steps[i].Push? && m >= n :: steps[i].plaintext != Expand(Own(m), 1)
  {
    n := 0;
    if steps != [] {
      n := UnusedText(steps[1..]);
      if steps[0].Push? && |steps[0].plaintext| == 1 && steps[0].plaintext[0].Of? && steps[0].plaintext[0].term.Own? {
        n := n + steps[0].plaintext[0].term.id + 1;
      }
      forall i, m | 0 <= i < |steps| && steps[i].Push? && m >= n ensures steps[i].plaintext != Expand(Own(m), 1) {
        assert Expand(Own(m), 1)[0] == Of(Own(m), 0);
        if i > 0 {
          assert steps[i] == steps[1..][i - 1];
        }
      }
    }
  }

  lemma GeneratedKeyNever(w: World, id: nat)
    requires Fresh(VaultKey, id) in w.guarded
    ensures Never(w, VaultKeyDraw(id))
  {
    PublicExpand(w, AnyLog(), Fresh(VaultKey, id), Vault.VAULT_KEY_LEN);
  }

  lemma GuardedIsSafeToRekey(w: World, steps: seq<Step>, id: nat, newKey: Str)
    requires RekeysFromSecretKeys(w, steps) && Never(w, newKey) && Fresh(VaultKey, id) in w.guarded
    ensures SafeToRekey(w, steps, VaultKeyDraw(id), newKey)
  {
    GeneratedKeyNever(w, id);
    forall t, more: seq<Step>, user, vaultId, version, text | Reachable(w, t, more) && steps <= more &&
      RekeysFrom(more, |steps|, VaultKeyDraw(id)) && Yielding(w, t, user, newKey, vaultId, version, text)
      ensures exists i :: 0 <= i < |more| && Pushes(more[i], vaultId, version, text) {
      var blob :| Enabled(w, t, Pull(user, newKey, vaultId, version, blob)) &&
                  Vault.Opened(blob, newKey, AadFor(vaultId, version)) == Ok(text);
      assert forall i | 0 <= i < |steps| :: more[i] == steps[i];
      PullReturnsAPush(w, t, more, Pull(user, newKey, vaultId, version, blob));
    }
  }

  lemma LearnsKeyAndText(w: World, s: State, id: nat, n: nat) returns (u: State)
    requires Fresh(VaultKey, id) !in w.guarded
    ensures Computes(w, s, u) && s.known <= u.known && Knows(u, VaultKeyDraw(id)) && Knows(u, Expand(Own(n), 1))
  {
    ComputesNothing(w, s);
    RootOfExpand(Fresh(VaultKey, id), Vault.VAULT_KEY_LEN);
    var t := Obtains(w, s, s, VaultKeyDraw(id));
    ComputesMore(w, s, t, OwnRandomness(n, 1));
    u := AfterMove(w, t, OwnRandomness(n, 1));
  }

  lemma NothingPushed(w: World, steps: seq<Step>, more: seq<Step>, key: Str,
                      vaultId: seq<byte>, version: u32, text: Str)
    requires steps <= more && OnlyRekeysFrom(w, more, |steps|, key)
    requires forall i | 0 <= i < |steps| && steps[i].Push? :: steps[i].plaintext != text
    ensures RekeysFrom(more, |steps|, key) && forall i | 0 <= i < |more| :: !Pushes(more[i], vaultId, version, text)
  {
    assert forall i | 0 <= i < |steps| :: more[i] == steps[i];
  }

  lemma LeakedIsUnsafeToRekey(w: World, s: State, steps: seq<Step>, user: nat, id: nat, newKey: Str)
    requires Reachable(w, s, steps) && (user, VaultKeyDraw(id)) in s.held && (user, newKey) in s.held
    requires Fresh(VaultKey, id) !in w.guarded
    ensures !SafeToRekey(w, steps, VaultKeyDraw(id), newKey)
  {
    var n := UnusedText(steps);
    var text := Expand(Own(n), 1);
    var u := LearnsKeyAndText(w, s, id, n);
    KnownGrows(w, Init(), steps);
    ForgeryIsRekeyed(w, s, steps, u, user, VaultKeyDraw(id), newKey, [], 0, text);
    var t, more: seq<Step> :| Reachable(w, t, more) && steps <= more &&
      OnlyRekeysFrom(w, more, |steps|, VaultKeyDraw(id)) && Yielding(w, t, user, newKey, [], 0, text);
    NothingPushed(w, steps, more, VaultKeyDraw(id), [], 0, text);
    assert !PullsReturnPushes(w, t, more, newKey);
  }

  /** In a run that re-keyed from secret keys only, a member may re-key from a generated key to
      a secret one, and have pulls return exactly what was pushed, if and only if the old key
      has not leaked. */
  lemma SafeToRekeyIff(w: World, s: State, steps: seq<Step>, user: nat, id: nat, newKey: Str)
    requires Reachable(w, s, steps) && RekeysFromSecretKeys(w, steps)
    requires (user, VaultKeyDraw(id)) in s.held && (user, newKey) in s.held && Never(w, newKey)
    ensures SafeToRekey(w, steps, VaultKeyDraw(id), newKey) <==> Fresh(VaultKey, id) in w.guarded
  {
    if Fresh(VaultKey, id) in w.guarded {
      GuardedIsSafeToRekey(w, steps, id, newKey);
    } else {
      LeakedIsUnsafeToRekey(w, s, steps, user, id, newKey);
    }
  }
}
