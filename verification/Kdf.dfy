/** Key derivation: the two password derivations and the HKDF subkeys. */
module Kdf {
  import opened Bytes
  import opened Symbolic
  import opened Buffers
  import HkdfExpand

  const MASTER_KEY_LEN := 32
  const SALT_LEN := 32
  const SRP_PASSWORD_LEN := 32

  const KDF_DOMAIN_MASTER_KEY := "evnx-master-key-v1"
  const KDF_DOMAIN_SRP_PASSWORD := "evnx-srp-password-v1"

  const HKDF_INFO_VAULT_KEY_WRAP := "evnx-vault-key-wrap-v2"
  const HKDF_INFO_VAULT_KEY_WRAP_MK := "evnx-vault-key-wrap-mk-v1"
  const HKDF_INFO_PRIVATE_KEY_ENC := "evnx-private-key-enc-v1"
  const HKDF_INFO_MLKEM_DERIVE := "evnx/mlkem768/v1"
  const HKDF_INFO_X25519_DERIVE := "evnx-x25519-from-ed25519-v1"

  function MasterKeyOf(password: Str, salt: Str): (k: Str)
    ensures |k| == MASTER_KEY_LEN
  {
    Expand(Argon2(KDF_DOMAIN_MASTER_KEY, password, salt), MASTER_KEY_LEN)
  }

  function SrpPasswordOf(password: Str, salt: Str): (k: Str)
    ensures |k| == SRP_PASSWORD_LEN
  {
    Expand(Argon2(KDF_DOMAIN_SRP_PASSWORD, password, salt), SRP_PASSWORD_LEN)
  }

  /** The two password derivations never agree, whatever the salts are. */
  lemma PasswordDerivationsDiffer(password: Str, salt: Str, password': Str, salt': Str)
    ensures MasterKeyOf(password, salt) != SrpPasswordOf(password', salt')
    ensures MasterKeyOf(password, salt) == MasterKeyOf(password', salt') <==> password == password' && salt == salt'
    ensures SrpPasswordOf(password, salt) == SrpPasswordOf(password', salt') <==> password == password' && salt == salt'
  {
    assert MasterKeyOf(password, salt)[0] == Of(Argon2(KDF_DOMAIN_MASTER_KEY, password, salt), 0);
    assert SrpPasswordOf(password', salt')[0] == Of(Argon2(KDF_DOMAIN_SRP_PASSWORD, password', salt'), 0);
    assert MasterKeyOf(password', salt')[0] == Of(Argon2(KDF_DOMAIN_MASTER_KEY, password', salt'), 0);
    assert SrpPasswordOf(password, salt)[0] == Of(Argon2(KDF_DOMAIN_SRP_PASSWORD, password, salt), 0);
  }

  function Subkey(ikm: Str, info: string): (k: Str)
    ensures |k| == 32
  {
    Expand(HkdfStream(ikm, info), 32)
  }

  /** Subkeys are equal only for the same key and purpose. */
  lemma SubkeysEqualIff(ikm: Str, info: string, ikm': Str, info': string)
    ensures Subkey(ikm, info) == Subkey(ikm', info') <==> ikm == ikm' && info == info'
  {
    if Subkey(ikm, info) == Subkey(ikm', info') {
      ExpandInjective(HkdfStream(ikm, info), 32, HkdfStream(ikm', info'), 32);
    }
  }

  /** Fill `okm` from the expand stream; `false` when it is longer than RFC 5869 allows. This
      stands for `HkdfExpand.ExpandInto`, see `HkdfExpand.StreamIsOkm`. */
  method FillFromStream(ikm: Str, info: string, okm: array<Sym>) returns (ok: bool)
    modifies okm
    ensures ok <==> okm.Length <= HkdfExpand.MAX_LEN
    ensures okm[..] == if ok then Expand(HkdfStream(ikm, info), okm.Length) else old(okm[..])
  {
    ok := okm.Length <= HkdfExpand.MAX_LEN;
    if ok {
      forall i | 0 <= i < okm.Length { okm[i] := Of(HkdfStream(ikm, info), i); }
      assert okm[..] == Expand(HkdfStream(ikm, info), okm.Length);
    }
  }

  method HkdfSubkey(ikm: Str, info: string) returns (r: Result<SecretArray>)
    ensures r.Ok? && fresh(r.value) && fresh(r.value.data) && r.value.data[..] == Subkey(ikm, info)
    ensures r.value.data[..] == Expand(HkdfStream(ikm, info), 32)
  {
    var key := new SecretArray.Zeroed(32);
    var ok := FillFromStream(ikm, info, key.data);
    if !ok {
      return Err(CryptoError.Kdf);
    }
    return Ok(key);
  }

  /** Argon2 takes at most 2^32 - 1 password bytes (section 3.1 of RFC 9106). */
  const ARGON2_MAX_PASSWORD := 0xffff_ffff

  /** Hash into `out`, or leave it alone and report that the password is too long. */
  method HashPasswordInto(domain: string, password: Str, salt: Str, out: array<Sym>) returns (ok: bool)
    modifies out
    ensures ok <==> |password| <= ARGON2_MAX_PASSWORD
    ensures out[..] == if ok then Expand(Argon2(domain, password, salt), out.Length) else old(out[..])
  {
    ok := |password| <= ARGON2_MAX_PASSWORD;
    if ok {
      forall i | 0 <= i < out.Length { out[i] := Of(Argon2(domain, password, salt), i); }
      assert out[..] == Expand(Argon2(domain, password, salt), out.Length);
    }
  }

  method DeriveMasterKey(password: Str, salt: Str) returns (r: Result<Str>)
    requires |salt| == SALT_LEN
    ensures r == if |password| <= ARGON2_MAX_PASSWORD then Ok(MasterKeyOf(password, salt)) else Err(CryptoError.Kdf)
    ensures r == if |password| >= 0x1_0000_0000 then Err(CryptoError.Kdf)
                 else Ok(Expand(Argon2("evnx-master-key-v1", password, salt), 32))
  {
    var key := new Sym[MASTER_KEY_LEN](_ => Lit(0));
    var ok := HashPasswordInto(KDF_DOMAIN_MASTER_KEY, password, salt, key);
    if !ok {
      return Err(CryptoError.Kdf);
    }
    return Ok(key[..]);
  }

  method DeriveSrpPassword(password: Str, srpSalt: Str) returns (r: Result<Str>)
    requires |srpSalt| == SALT_LEN
    ensures r == if |password| <= ARGON2_MAX_PASSWORD then Ok(SrpPasswordOf(password, srpSalt))
                 else Err(CryptoError.Kdf)
    ensures r == if |password| >= 0x1_0000_0000 then Err(CryptoError.Kdf)
                 else Ok(Expand(Argon2("evnx-srp-password-v1", password, srpSalt), 32))
  {
    var output := new Sym[SRP_PASSWORD_LEN](_ => Lit(0));
    var ok := HashPasswordInto(KDF_DOMAIN_SRP_PASSWORD, password, srpSalt, output);
    if !ok {
      return Err(CryptoError.Kdf);
    }
    return Ok(output[..]);
  }

  method GenerateSalt(rng: OsRng) returns (salt: Str)
    modifies rng
    ensures salt == Draw(Salt, old(rng.next), SALT_LEN) && |salt| == 32 && rng.next == old(rng.next) + 1
  {
    var buf := new Sym[SALT_LEN](_ => Lit(0));
    rng.FillBytes(Salt, buf);
    salt := buf[..];
  }
}
