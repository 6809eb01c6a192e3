/** The browser's blob framing, `nonce || ciphertext`, over the native functions. */
module Wasm {
  import opened Bytes
  import opened Symbolic
  import opened Buffers
  import Vault

  function Framed(blob: Vault.EncryptedBlob): Str {
    blob.nonce + blob.ciphertext
  }

  method EncryptVault(rng: OsRng, plaintext: Str, key: Str, vaultId: seq<byte>, version: u32) returns (r: Result<Str>)
    modifies rng
    ensures var native := Vault.BlobOf(plaintext, key, Vault.AadOf(vaultId, version),
                                       Draw(Nonce, old(rng.next), Vault.NONCE_LEN));
            r == if native.Ok? then Ok(native.value.nonce + native.value.ciphertext) else Err(native.error)
  {
    var aad := Vault.VaultAad(vaultId, version);
    var blob := Vault.EncryptVault(rng, plaintext, key, aad);
    if blob.Err? {
      return Err(blob.error);
    }
    var out := new Vec<Sym>.WithCapacity(|blob.value.nonce| + |blob.value.ciphertext|);
    out.ExtendFromSlice(blob.value.nonce);
    out.ExtendFromSlice(blob.value.ciphertext);
    assert out.Contents() == Framed(blob.value);
    return Ok(out.Contents());
  }

  /** Decryption of any byte string: an error, or what the native function says of the two
      parts. */
  function Decrypted(framed: Str, key: Str, vaultId: seq<byte>, version: u32): Result<Str> {
    if |framed| < Vault.NONCE_LEN then Err(InvalidInput)
    else Vault.Opened(Vault.EncryptedBlob(framed[..Vault.NONCE_LEN], framed[Vault.NONCE_LEN..]),
                      key, Vault.AadOf(vaultId, version))
  }

  method DecryptVault(framed: Str, key: Str, vaultId: seq<byte>, version: u32) returns (r: Result<Str>)
    ensures r == Decrypted(framed, key, vaultId, version)
    ensures r == if |framed| < 12 then Err(InvalidInput)
                 else Vault.Opened(Vault.EncryptedBlob(framed[..12], framed[12..]), key, Vault.AadOf(vaultId, version))
  {
    if |framed| < Vault.NONCE_LEN {
      return Err(InvalidInput);
    }
    var nonce := new Sym[Vault.NONCE_LEN](_ => Lit(0));
    CopyFromSlice(nonce, framed[..Vault.NONCE_LEN]);
    var blob := Vault.EncryptedBlob(nonce[..], framed[Vault.NONCE_LEN..]);
    var aad := Vault.VaultAad(vaultId, version);
    return Vault.Opened(blob, key, aad);
  }

  /** Browser to native: the two parts of a framed blob are the native blob. Native to
      browser: a native blob opens alike when framed. */
  lemma FramesAgree(blob: Vault.EncryptedBlob, key: Str, vaultId: seq<byte>, version: u32)
    requires |blob.nonce| == Vault.NONCE_LEN
    ensures Framed(blob)[..Vault.NONCE_LEN] == blob.nonce && Framed(blob)[Vault.NONCE_LEN..] == blob.ciphertext
    ensures Decrypted(Framed(blob), key, vaultId, version) == Vault.Opened(blob, key, Vault.AadOf(vaultId, version))
  {
    assert Framed(blob)[..Vault.NONCE_LEN] == blob.nonce;
    assert Framed(blob)[Vault.NONCE_LEN..] == blob.ciphertext;
  }

  /** A blob made in either client opens in the other at its own vault, version and key, and
      nowhere else. */
  lemma ClientsInteroperate(plaintext: Str, key: Str, vaultId: seq<byte>, version: u32, nonce: Str,
                            blob: Vault.EncryptedBlob, key': Str, vaultId': seq<byte>, version': u32)
    requires |nonce| == Vault.NONCE_LEN
    requires Vault.BlobOf(plaintext, key, Vault.AadOf(vaultId, version), nonce) == Ok(blob)
    ensures Decrypted(Framed(blob), key', vaultId', version') ==
            if key' == key && vaultId' == vaultId && version' == version then Ok(plaintext) else Err(Decryption)
  {
    FramesAgree(blob, key', vaultId', version');
    Vault.OpenedIff(plaintext, key, Vault.AadOf(vaultId, version), nonce, blob, key', Vault.AadOf(vaultId', version'));
    if Vault.AadOf(vaultId', version') == Vault.AadOf(vaultId, version) {
      Vault.AadInjective(vaultId', version', vaultId, version);
    }
  }

  function WrappingSuccessor(v: u32): u32 {
    if v == 0xffff_ffff then 0 else v + 1
  }

  /** The self-test never reports a failure, not even at the last version number; it can only
      be unable to run because the vault id is too long to seal. */
  method AadSelfTest(rng: OsRng, vaultId: seq<byte>, version: u32, sample: Str) returns (r: Result<bool>)
    requires |sample| <= Vault.GCM_MAX_PLAINTEXT
    modifies rng
    ensures r == if |vaultId| + 10 <= Vault.GCM_MAX_AAD then Ok(true) else Err(Encryption)
  {
    var key := Vault.GenerateVaultKey(rng);
    var aad := Vault.VaultAad(vaultId, version);
    ghost var nonce := Draw(Nonce, rng.next, Vault.NONCE_LEN);
    var sealedBlob := Vault.EncryptVault(rng, sample, key, aad);
    if sealedBlob.Err? {
      return Err(sealedBlob.error);
    }
    var blob := sealedBlob.value;
    Vault.OpenedIff(sample, key, aad, nonce, blob, key, aad);
    var recovered := Vault.Opened(blob, key, aad);
    if recovered != Ok(sample) {
      return Ok(false);
    }
    var wrong := Vault.VaultAad(vaultId, WrappingSuccessor(version));
    Vault.OpenedIff(sample, key, aad, nonce, blob, key, wrong);
    if wrong == aad {
      Vault.AadInjective(vaultId, version, vaultId, WrappingSuccessor(version));
    }
    return Ok(Vault.Opened(blob, key, wrong).Err?);
  }
}
