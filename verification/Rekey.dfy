/** Re-keying a whole vault history, version by version. */
module Rekey {
  import opened Bytes
  import opened Symbolic
  import opened Buffers
  import Vault

  datatype Version = Version(number: u32, blob: Vault.EncryptedBlob)

  function AadOfVersion(vaultId: seq<byte>, v: Version): seq<byte> {
    Vault.AadOf(vaultId, v.number)
  }

  /** Re-encrypt one version; `nonce` numbers the draw. */
  function RekeyedVersion(vaultId: seq<byte>, v: Version, oldKey: Str, newKey: Str, nonce: nat): Result<Version> {
    var blob :- Vault.Reencrypted(v.blob, oldKey, newKey, AadOfVersion(vaultId, v),
                                  Draw(Nonce, nonce, Vault.NONCE_LEN));
    Ok(Version(v.number, blob))
  }

  /** Every outcome of re-keying one version: the data is that of its own number on both sides,
      the nonce is fresh. */
  lemma VersionOutcomes(vaultId: seq<byte>, v: Version, oldKey: Str, newKey: Str, nonce: nat)
    ensures var drawn := Expand(Fresh(Nonce, nonce), 12);
            var aad := Vault.AadOf(vaultId, v.number);
            RekeyedVersion(vaultId, v, oldKey, newKey, nonce) ==
            match Vault.Opened(v.blob, oldKey, aad)
            case Err(_) => Err(Decryption)
            case Ok(text) =>
              if |text| >= 0xf_ffff_ffe2 || |aad| >= 0x2000_0000_0000_0000 then Err(Encryption)
              else Ok(Version(v.number, Vault.EncryptedBlob(drawn, SealBytes(Aes256Gcm, newKey, drawn, aad, text))))
  {
  }

  /** The re-keyed history when every version can be re-keyed, else the first error. */
  function Rekeyed(vaultId: seq<byte>, history: seq<Version>, oldKey: Str, newKey: Str, nonce: nat):
    Result<seq<Version>> {
    if history == [] then Ok([])
    else
      var last := |history| - 1;
      var done :- Rekeyed(vaultId, history[..last], oldKey, newKey, nonce);
      var v :- RekeyedVersion(vaultId, history[last], oldKey, newKey, nonce + last);
      Ok(done + [v])
  }

  /** Stops at the first version that fails; the caller's history is not touched. */
  method RekeyHistory(rng: OsRng, vaultId: seq<byte>, history: array<Version>, oldKey: Str, newKey: Str)
    returns (r: Result<seq<Version>>)
    modifies rng
    ensures r == Rekeyed(vaultId, history[..], oldKey, newKey, old(rng.next))
    ensures history[..] == old(history[..])
  {
    var done := [];
    var start := rng.next;
    for i := 0 to history.Length
      invariant rng.next == start + i
      invariant Rekeyed(vaultId, history[..i], oldKey, newKey, start) == Ok(done)
      invariant history[..] == old(history[..])
    {
      assert history[..i + 1][..i] == history[..i];
      var aad := Vault.VaultAad(vaultId, history[i].number);
      var next, _ := Vault.ReencryptVault(rng, history[i].blob, oldKey, newKey, aad);
      if next.Err? {
        FirstErrorDecides(vaultId, history[..], i, oldKey, newKey, start);
        return Err(next.error);
      }
      done := done + [Version(history[i].number, next.value)];
    }
    assert history[..history.Length] == history[..];
    return Ok(done);
  }

  /** The first version that fails decides the error. */
  lemma {:induction false} FirstErrorDecides(vaultId: seq<byte>, history: seq<Version>, i: nat,
                                         oldKey: Str, newKey: Str, nonce: nat)
    requires i < |history|
    requires Rekeyed(vaultId, history[..i], oldKey, newKey, nonce).Ok?
    requires RekeyedVersion(vaultId, history[i], oldKey, newKey, nonce + i).Err?
    ensures Rekeyed(vaultId, history, oldKey, newKey, nonce) == Err(
            RekeyedVersion(vaultId, history[i], oldKey, newKey, nonce + i).error)
  {
    var last := |history| - 1;
    if i < last {
      assert history[..last][..i] == history[..i];
      FirstErrorDecides(vaultId, history[..last], i, oldKey, newKey, nonce);
    }
  }

  /** A re-keyed version opens to its own plaintext under the new key at its own associated
      data, and at no other key or data. */
  ghost predicate Moved(vaultId: seq<byte>, before: Version, after: Version, oldKey: Str, newKey: Str) {
    && after.number == before.number
    && Vault.Opened(before.blob, oldKey, AadOfVersion(vaultId, before)).Ok?
    && forall key, id, number :: Vault.Opened(after.blob, key, Vault.AadOf(id, number)) ==
         if key == newKey && id == vaultId && number == before.number
         then Vault.Opened(before.blob, oldKey, AadOfVersion(vaultId, before)) else Err(Decryption)
  }

  lemma VersionMoves(vaultId: seq<byte>, v: Version, oldKey: Str, newKey: Str, nonce: nat)
    requires RekeyedVersion(vaultId, v, oldKey, newKey, nonce).Ok?
    ensures Moved(vaultId, v, RekeyedVersion(vaultId, v, oldKey, newKey, nonce).value, oldKey, newKey)
  {
    var aad := AadOfVersion(vaultId, v);
    var plaintext := Vault.Opened(v.blob, oldKey, aad).value;
    var after := RekeyedVersion(vaultId, v, oldKey, newKey, nonce).value;
    forall key, id, number
      ensures Vault.Opened(after.blob, key, Vault.AadOf(id, number)) ==
              if key == newKey && id == vaultId && number == v.number then Ok(plaintext) else Err(Decryption)
    {
      Vault.OpenedIff(plaintext, newKey, aad, Draw(Nonce, nonce, Vault.NONCE_LEN),
                      after.blob, key, Vault.AadOf(id, number));
      if Vault.AadOf(id, number) == aad {
        Vault.AadInjective(id, number, vaultId, v.number);
      }
    }
  }

  /** Re-keying succeeds exactly when each version can be re-keyed. */
  lemma {:induction false} AllOrNothing(vaultId: seq<byte>, history: seq<Version>, oldKey: Str, newKey: Str, nonce: nat)
    ensures Rekeyed(vaultId, history, oldKey, newKey, nonce).Ok? <==>
            forall i | 0 <= i < |history| :: RekeyedVersion(vaultId, history[i], oldKey, newKey, nonce + i).Ok?
  {
    if history != [] {
      var before := history[..|history| - 1];
      AllOrNothing(vaultId, before, oldKey, newKey, nonce);
      assert forall i | 0 <= i < |before| :: history[i] == before[i];
    }
  }

  /** When it succeeds, every version has moved. */
  lemma {:induction false} HistoryMoves(vaultId: seq<byte>, history: seq<Version>, oldKey: Str, newKey: Str, nonce: nat)
    requires Rekeyed(vaultId, history, oldKey, newKey, nonce).Ok?
    ensures var after := Rekeyed(vaultId, history, oldKey, newKey, nonce).value;
            |after| == |history| &&
            forall i | 0 <= i < |history| :: Moved(vaultId, history[i], after[i], oldKey, newKey)
  {
    if history != [] {
      var last := |history| - 1;
      var before := history[..last];
      HistoryMoves(vaultId, before, oldKey, newKey, nonce);
      VersionMoves(vaultId, history[last], oldKey, newKey, nonce + last);
      var after := Rekeyed(vaultId, history, oldKey, newKey, nonce).value;
      forall i | 0 <= i < |history| ensures Moved(vaultId, history[i], after[i], oldKey, newKey) {
        if i < last {
          assert history[i] == before[i];
        }
      }
    }
  }

  /** Old keys other than the new one open nothing any more. */
  lemma OldKeyIsUseless(vaultId: seq<byte>, history: seq<Version>, oldKey: Str, newKey: Str, nonce: nat,
                        i: nat, number: u32)
    requires Rekeyed(vaultId, history, oldKey, newKey, nonce).Ok? && i < |history| && oldKey != newKey
    ensures |Rekeyed(vaultId, history, oldKey, newKey, nonce).value| == |history|
    ensures Vault.Opened(Rekeyed(vaultId, history, oldKey, newKey, nonce).value[i].blob, oldKey,
                         Vault.AadOf(vaultId, number)) == Err(Decryption)
  {
    HistoryMoves(vaultId, history, oldKey, newKey, nonce);
    assert Moved(vaultId, history[i], Rekeyed(vaultId, history, oldKey, newKey, nonce).value[i], oldKey, newKey);
  }
}
