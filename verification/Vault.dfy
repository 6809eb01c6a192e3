/** Vault blobs, the associated data that binds them, and wrapping under a master key. */
module Vault {
  import opened Bytes
  import opened Symbolic
  import opened Buffers
  import Arith
  import BigEndian
  import Kdf

  const VAULT_KEY_LEN := 32
  const NONCE_LEN := 12
  const XCHACHA_NONCE_LEN := 24

  /** Longest plaintext AEAD_AES_256_GCM accepts (section 5.1 of RFC 5116). */
  const GCM_MAX_PLAINTEXT := 0xf_ffff_ffe1
  const GCM_MAX_AAD := 0x1fff_ffff_ffff_ffff

  // ----- Associated data -----

  const MAGIC: seq<byte> := [0x65, 0x76, 0x6e, 0x78]

  /** `(len as u16).to_be_bytes()`: the length wraps at 65536. */
  function LengthPrefix(n: nat): (s: seq<byte>)
    ensures |s| == 2
  {
    BigEndian.Fixed(n, 2)
  }

  function VersionBytes(v: u32): (s: seq<byte>)
    ensures |s| == 4
  {
    BigEndian.Fixed(v, 4)
  }

  function AadOf(vaultId: seq<byte>, version: u32): (aad: seq<byte>)
    ensures |aad| == |vaultId| + 10
  {
    MAGIC + LengthPrefix(|vaultId|) + vaultId + VersionBytes(version)
  }

  /** The layout: "evnx", the id length modulo 65536, the id, the version. */
  lemma AadLayout(id: seq<byte>, v: u32)
    ensures var aad, n := AadOf(id, v), |id|;
            && aad[..4] == ['e' as int, 'v' as int, 'n' as int, 'x' as int]
            && BigEndian.Value(aad[4..6]) == n % 0x1_0000
            && aad[6..6 + n] == id
            && BigEndian.Value(aad[6 + n..]) == v
  {
    var aad := AadOf(id, v);
    BigEndian.ValueOfFixed(|id|, 2);
    BigEndian.ValueOfFixed(v, 4);
    BigEndian.SmallPowers();
    assert aad[4..6] == LengthPrefix(|id|);
    assert aad[6..6 + |id|] == id;
    assert aad[6 + |id|..] == VersionBytes(v);
  }

  /** The same, byte by byte. */
  lemma AadBytes(id: seq<byte>, v: u32)
    ensures var n := |id|;
            AadOf(id, v) == [0x65, 0x76, 0x6e, 0x78] + [n / 0x100 % 0x100, n % 0x100] + id +
                            [v / 0x100_0000, v / 0x1_0000 % 0x100, v / 0x100 % 0x100, v % 0x100]
  {
    BigEndian.TwoBytes(|id|);
    BigEndian.FourBytes(v);
  }

  /** No two (vault, version) pairs share their associated data, not even when an id is
      so long that the length prefix wraps. */
  lemma AadInjective(id: seq<byte>, v: u32, id': seq<byte>, v': u32)
    requires AadOf(id, v) == AadOf(id', v')
    ensures id == id' && v == v'
  {
    var head, head' := MAGIC + LengthPrefix(|id|), MAGIC + LengthPrefix(|id'|);
    SplitEqual(head + id, VersionBytes(v), head' + id', VersionBytes(v'));
    SplitEqual(head, id, head', id');
    BigEndian.FixedEqualIff(v, v', 4);
    BigEndian.SmallPowers();
  }

  /** When one associated data string is a proper prefix of another: exactly when the
      longer id goes on with the shorter one's version and the prefix has wrapped. */
  ghost predicate WrapsAround(id: seq<byte>, v: u32, id': seq<byte>) {
    && |id| < |id'|
    && (|id'| - |id|) % 0x1_0000 == 0
    && id + VersionBytes(v) <= id'
  }

  lemma LengthPrefixEqualIff(m: nat, n: nat)
    requires m <= n
    ensures LengthPrefix(m) == LengthPrefix(n) <==> (n - m) % 0x1_0000 == 0
  {
    BigEndian.FixedEqualIff(m, n, 2);
    BigEndian.SmallPowers();
    Arith.CongruentIff(m, n, 0x1_0000);
  }

  lemma AadPrefixIff(id: seq<byte>, v: u32, id': seq<byte>, v': u32)
    ensures AadOf(id, v) < AadOf(id', v') <==> WrapsAround(id, v, id')
  {
    var a, b := AadOf(id, v), AadOf(id', v');
    var n := |id|;
    if n < |id'| {
      LengthPrefixEqualIff(n, |id'|);
      var rest := id' + VersionBytes(v');
      var own := id + VersionBytes(v);
      assert a == MAGIC + LengthPrefix(n) + own;
      assert b == MAGIC + LengthPrefix(|id'|) + rest;
      PrefixOfFrame(MAGIC, LengthPrefix(n), own, LengthPrefix(|id'|), rest);
      if n + 4 <= |id'| {
        assert rest[..n + 4] == id'[..n + 4];
      }
    }
  }

  lemma PrefixOfFrame(m: seq<byte>, l: seq<byte>, s: seq<byte>, l': seq<byte>, s': seq<byte>)
    requires |l| == |l'|
    ensures m + l + s <= m + l' + s' <==> l == l' && s <= s'
  {
    var h, h' := m + l, m + l';
    if h + s <= h' + s' {
      assert h == (h' + s')[..|h|] == h';
      assert l == h[|m|..] == h'[|m|..] == l';
      assert (h' + s')[|h|..] == s' && (h + s)[|h|..] == s;
    }
  }

  /** Below the wrap of the length prefix the encoding is prefix-free. */
  lemma AadPrefixFree(id: seq<byte>, v: u32, id': seq<byte>, v': u32)
    requires |id| < 0x1_0000 && |id'| < 0x1_0000
    ensures !(AadOf(id, v) < AadOf(id', v'))
  {
    AadPrefixIff(id, v, id', v');
  }

  /** The bound on the ids is needed: a 65536-byte id extends the empty one. */
  lemma AadPrefixExample()
    ensures AadOf([], 0) < AadOf(seq(0x1_0000, _ => 0), 0)
  {
    var id': seq<byte> := seq(0x1_0000, _ => 0);
    BigEndian.FixedOfZero(4);
    assert VersionBytes(0) == id'[..4];
    assert [] + VersionBytes(0) == VersionBytes(0);
    AadPrefixIff([], 0, id', 0);
  }

  method VaultAad(vaultId: seq<byte>, version: u32) returns (aad: seq<byte>)
    ensures aad == AadOf(vaultId, version)
  {
    var buf := new Vec<byte>.WithCapacity(4 + 2 + |vaultId| + 4);
    buf.ExtendFromSlice(MAGIC);
    buf.ExtendFromSlice(LengthPrefix(|vaultId|));
    buf.ExtendFromSlice(vaultId);
    buf.ExtendFromSlice(VersionBytes(version));
    aad := buf.Contents();
  }

  // ----- Blobs -----

  datatype EncryptedBlob = EncryptedBlob(nonce: Str, ciphertext: Str)

  /** The blob sealed with a given nonce; pathological sizes are refused. */
  function BlobOf(plaintext: Str, key: Str, aad: seq<byte>, nonce: Str): Result<EncryptedBlob> {
    if |plaintext| > GCM_MAX_PLAINTEXT || |aad| > GCM_MAX_AAD then Err(Encryption)
    else Ok(EncryptedBlob(nonce, SealBytes(Aes256Gcm, key, nonce, aad, plaintext)))
  }

  function Opened(blob: EncryptedBlob, key: Str, aad: seq<byte>): Result<Str> {
    match OpenBytes(Aes256Gcm, key, blob.nonce, aad, blob.ciphertext)
    case Some(plaintext) => Ok(plaintext)
    case None => Err(Decryption)
  }

  function Reencrypted(blob: EncryptedBlob, oldKey: Str, newKey: Str, aad: seq<byte>, nonce: Str):
    Result<EncryptedBlob> {
    var plaintext :- Opened(blob, oldKey, aad);
    BlobOf(plaintext, newKey, aad, nonce)
  }

  /** A blob opens at one key and one associated data string only. */
  lemma OpenedIff(plaintext: Str, key: Str, aad: seq<byte>, nonce: Str, blob: EncryptedBlob, key': Str, aad': seq<byte>)
    requires BlobOf(plaintext, key, aad, nonce) == Ok(blob)
    ensures Opened(blob, key', aad') == if key' == key && aad' == aad then Ok(plaintext) else Err(Decryption)
  {
    OpenOfSeal(Aes256Gcm, key, nonce, aad, plaintext, Aes256Gcm, key', nonce, aad');
  }

  /** Opening gives back what was sealed with the blob's nonce, the key and the data, and is an
      error on everything else. */
  lemma OpenedOutcomes(blob: EncryptedBlob, key: Str, aad: seq<byte>, text: Str)
    ensures blob.ciphertext == SealBytes(Aes256Gcm, key, blob.nonce, aad, text) ==> Opened(blob, key, aad) == Ok(text)
    ensures (forall t :: blob.ciphertext != SealBytes(Aes256Gcm, key, blob.nonce, aad, t)) ==>
              Opened(blob, key, aad) == Err(Decryption)
  {
    OpenOfSeal(Aes256Gcm, key, blob.nonce, aad, text, Aes256Gcm, key, blob.nonce, aad);
  }

  method GenerateVaultKey(rng: OsRng) returns (key: Str)
    modifies rng
    ensures key == Draw(VaultKey, old(rng.next), VAULT_KEY_LEN) && |key| == 32 && rng.next == old(rng.next) + 1
  {
    var buf := new Sym[VAULT_KEY_LEN](_ => Lit(0));
    rng.FillBytes(VaultKey, buf);
    key := buf[..];
  }

  method EncryptVault(rng: OsRng, plaintext: Str, key: Str, aad: seq<byte>) returns (r: Result<EncryptedBlob>)
    modifies rng
    ensures r == BlobOf(plaintext, key, aad, Draw(Nonce, old(rng.next), NONCE_LEN))
    ensures var nonce := Expand(Fresh(Nonce, old(rng.next)), 12);
            r == if |plaintext| >= 0xf_ffff_ffe2 || |aad| >= 0x2000_0000_0000_0000 then Err(Encryption)
                 else Ok(EncryptedBlob(nonce, SealBytes(Aes256Gcm, key, nonce, aad, plaintext)))
    ensures rng.next == old(rng.next) + 1
  {
    var nonce := new Sym[NONCE_LEN](_ => Lit(0));
    rng.FillBytes(Nonce, nonce);
    if |plaintext| > GCM_MAX_PLAINTEXT || |aad| > GCM_MAX_AAD {
      return Err(Encryption);
    }
    return Ok(EncryptedBlob(nonce[..], SealBytes(Aes256Gcm, key, nonce[..], aad, plaintext)));
  }

  /** The plaintext lives in `secret` only and is cleared on every way out; when the old
      key or the data does not match, nothing is sealed and no nonce is drawn. */
  method ReencryptVault(rng: OsRng, blob: EncryptedBlob, oldKey: Str, newKey: Str, aad: seq<byte>)
    returns (r: Result<EncryptedBlob>, secret: SecretArray)
    modifies rng
    ensures r == Reencrypted(blob, oldKey, newKey, aad, Draw(Nonce, old(rng.next), NONCE_LEN))
    ensures var nonce := Expand(Fresh(Nonce, old(rng.next)), 12);
            match Opened(blob, oldKey, aad)
            case Err(_) => r == Err(Decryption)
            case Ok(text) =>
              r == if |text| >= 0xf_ffff_ffe2 || |aad| >= 0x2000_0000_0000_0000 then Err(Encryption)
                   else Ok(EncryptedBlob(nonce, SealBytes(Aes256Gcm, newKey, nonce, aad, text)))
    ensures rng.next == old(rng.next) + (if Opened(blob, oldKey, aad).Ok? then 1 else 0)
    ensures secret.data[..] == Zeros(secret.data.Length)
  {
    var recovered := Opened(blob, oldKey, aad);
    if recovered.Err? {
      secret := new SecretArray.Zeroed(0);
      return Err(recovered.error), secret;
    }
    secret := new SecretArray.New(recovered.value);
    r := EncryptVault(rng, secret.data[..], newKey, aad);
    secret.Drop();
  }

  // ----- Wrapping under the owner's master key -----

  function MasterWrapKey(masterKey: Str): (k: Str) {
    Kdf.Subkey(masterKey, Kdf.HKDF_INFO_VAULT_KEY_WRAP_MK)
  }

  function MasterWrapped(vaultKey: Str, masterKey: Str, nonce: Str): Str {
    nonce + SealBytes(XChaCha20Poly1305, MasterWrapKey(masterKey), nonce, [], vaultKey)
  }

  function MasterUnwrapped(wrapped: Str, masterKey: Str): Result<Str> {
    if |wrapped| < XCHACHA_NONCE_LEN + VAULT_KEY_LEN then Err(InvalidInput)
    else
      match OpenBytes(XChaCha20Poly1305, MasterWrapKey(masterKey), wrapped[..XCHACHA_NONCE_LEN], [],
                      wrapped[XCHACHA_NONCE_LEN..])
      case None => Err(KeyUnwrap)
      case Some(key) => if |key| != VAULT_KEY_LEN then Err(InvalidInput) else Ok(key)
  }

  /** A solo wrap opens under the wrapping master key and no other. */
  lemma MasterUnwrapIff(vaultKey: Str, masterKey: Str, nonce: Str, masterKey': Str)
    requires |vaultKey| == VAULT_KEY_LEN && |nonce| == XCHACHA_NONCE_LEN
    ensures MasterUnwrapped(MasterWrapped(vaultKey, masterKey, nonce), masterKey') ==
            if masterKey' == masterKey then Ok(vaultKey) else Err(KeyUnwrap)
  {
    var w := MasterWrapped(vaultKey, masterKey, nonce);
    assert w[..XCHACHA_NONCE_LEN] == nonce;
    assert w[XCHACHA_NONCE_LEN..] == SealBytes(XChaCha20Poly1305, MasterWrapKey(masterKey), nonce, [], vaultKey);
    OpenOfSeal(XChaCha20Poly1305, MasterWrapKey(masterKey), nonce, [], vaultKey,
               XChaCha20Poly1305, MasterWrapKey(masterKey'), nonce, []);
    Kdf.SubkeysEqualIff(masterKey, Kdf.HKDF_INFO_VAULT_KEY_WRAP_MK, masterKey', Kdf.HKDF_INFO_VAULT_KEY_WRAP_MK);
  }

  /** Every outcome of unwrapping a string: too short, a sealed key, a sealed string of another
      length, anything else. */
  lemma MasterUnwrapOutcomes(wrapped: Str, masterKey: Str, message: Str)
    ensures if |wrapped| < 56 then MasterUnwrapped(wrapped, masterKey) == Err(InvalidInput)
            else
              var key := Expand(HkdfStream(masterKey, "evnx-vault-key-wrap-mk-v1"), 32);
              && (wrapped[24..] == SealBytes(XChaCha20Poly1305, key, wrapped[..24], [], message) ==>
                    MasterUnwrapped(wrapped, masterKey) == if |message| == 32 then Ok(message) else Err(InvalidInput))
              && ((forall text :: wrapped[24..] != SealBytes(XChaCha20Poly1305, key, wrapped[..24], [], text)) ==>
                    MasterUnwrapped(wrapped, masterKey) == Err(KeyUnwrap))
  {
    if |wrapped| >= 56 {
      var key := MasterWrapKey(masterKey);
      OpenOfSeal(XChaCha20Poly1305, key, wrapped[..24], [], message, XChaCha20Poly1305, key, wrapped[..24], []);
    }
  }

  method WrapVaultKeyWithMasterKey(rng: OsRng, vaultKey: Str, masterKey: Str) returns (r: Result<Str>)
    modifies rng
    ensures r == Ok(MasterWrapped(vaultKey, masterKey, Draw(Nonce, old(rng.next), XCHACHA_NONCE_LEN)))
    ensures var nonce := Expand(Fresh(Nonce, old(rng.next)), 24);
            var key := Expand(HkdfStream(masterKey, "evnx-vault-key-wrap-mk-v1"), 32);
            r == Ok(nonce + SealBytes(XChaCha20Poly1305, key, nonce, [], vaultKey))
    ensures rng.next == old(rng.next) + 1
  {
    var derived := Kdf.HkdfSubkey(masterKey, Kdf.HKDF_INFO_VAULT_KEY_WRAP_MK);
    if derived.Err? {
      return Err(CryptoError.Kdf);
    }
    var nonce := new Sym[XCHACHA_NONCE_LEN](_ => Lit(0));
    rng.FillBytes(Nonce, nonce);
    var ciphertext := SealBytes(XChaCha20Poly1305, derived.value.data[..], nonce[..], [], vaultKey);
    return Ok(nonce[..] + ciphertext);
  }

  method UnwrapVaultKeyWithMasterKey(wrapped: Str, masterKey: Str) returns (r: Result<Str>)
    ensures r == MasterUnwrapped(wrapped, masterKey)
  {
    if |wrapped| < XCHACHA_NONCE_LEN + VAULT_KEY_LEN {
      return Err(InvalidInput);
    }
    var derived := Kdf.HkdfSubkey(masterKey, Kdf.HKDF_INFO_VAULT_KEY_WRAP_MK);
    if derived.Err? {
      return Err(CryptoError.Kdf);
    }
    var plaintext := OpenBytes(XChaCha20Poly1305, derived.value.data[..], wrapped[..XCHACHA_NONCE_LEN], [],
                               wrapped[XCHACHA_NONCE_LEN..]);
    if plaintext.None? {
      return Err(KeyUnwrap);
    }
    if |plaintext.value| != VAULT_KEY_LEN {
      return Err(InvalidInput);
    }
    var key := new Sym[VAULT_KEY_LEN](_ => Lit(0));
    CopyFromSlice(key, plaintext.value);
    return Ok(key[..]);
  }
}
