/** The text forms of sealed identities, wraps and public keys. */
module Codecs {
  import opened Bytes
  import opened Base64
  import opened Buffers
  import opened Keypair
  import Symbolic

  const POLY1305_TAG_LEN := 16
  const MIN_LEN := XCHACHA_NONCE_LEN + POLY1305_TAG_LEN

  // ----- Sealed identities -----

  function IdentityText(k: EncryptedPrivateKey<byte>): string {
    Encoded(k.nonce + k.ciphertext)
  }

  function IdentityFromText(s: string): Result<EncryptedPrivateKey<byte>> {
    match Decoded(s)
    case None => Err(InvalidInput)
    case Some(bytes) =>
      if |bytes| < MIN_LEN then Err(InvalidInput)
      else Ok(EncryptedPrivateKey(bytes[..XCHACHA_NONCE_LEN], bytes[XCHACHA_NONCE_LEN..]))
  }

  /** Reading back what was written fails exactly when there is no room for a tag. */
  lemma IdentityRoundTrip(k: EncryptedPrivateKey<byte>)
    requires |k.nonce| == XCHACHA_NONCE_LEN
    ensures IdentityFromText(IdentityText(k)) == if |k.ciphertext| >= POLY1305_TAG_LEN then Ok(k) else Err(InvalidInput)
  {
    var bytes := k.nonce + k.ciphertext;
    DecodedOfEncoded(bytes);
    assert bytes[..XCHACHA_NONCE_LEN] == k.nonce && bytes[XCHACHA_NONCE_LEN..] == k.ciphertext;
  }

  /** Every accepted text is written back unchanged. */
  lemma IdentityReprints(s: string)
    requires IdentityFromText(s).Ok?
    ensures IdentityText(IdentityFromText(s).value) == s
    ensures |IdentityFromText(s).value.nonce| == XCHACHA_NONCE_LEN &&
            |IdentityFromText(s).value.ciphertext| >= POLY1305_TAG_LEN
  {
    var bytes := Decoded(s).value;
    EncodedOfDecoded(s);
    assert bytes == bytes[..XCHACHA_NONCE_LEN] + bytes[XCHACHA_NONCE_LEN..];
  }

  method IdentityToBase64(k: EncryptedPrivateKey<byte>) returns (s: string)
    ensures s == IdentityText(k)
    ensures Decoded(s) == Some(k.nonce + k.ciphertext)
  {
    var combined := new Vec<byte>.WithCapacity(|k.nonce| + |k.ciphertext|);
    combined.ExtendFromSlice(k.nonce);
    combined.ExtendFromSlice(k.ciphertext);
    assert combined.Contents() == k.nonce + k.ciphertext;
    s := B64Encode(combined.Contents());
    DecodedOfEncoded(k.nonce + k.ciphertext);
  }

  method IdentityFromBase64(s: string) returns (r: Result<EncryptedPrivateKey<byte>>)
    ensures r == IdentityFromText(s)
    ensures r == match Decoded(s)
                 case None => Err(InvalidInput)
                 case Some(bytes) =>
                   if |bytes| < 40 then Err(InvalidInput) else Ok(EncryptedPrivateKey(bytes[..24], bytes[24..]))
  {
    var bytes := B64Decode(s);
    if bytes.Err? {
      return Err(bytes.error);
    }
    if |bytes.value| < MIN_LEN {
      return Err(InvalidInput);
    }
    var nonce := new byte[XCHACHA_NONCE_LEN](_ => 0);
    CopyFromSlice(nonce, bytes.value[..XCHACHA_NONCE_LEN]);
    return Ok(EncryptedPrivateKey(nonce[..], bytes.value[XCHACHA_NONCE_LEN..]));
  }

  // ----- Wraps -----

  /** The three fields as text, in the order `FromText` takes them. */
  datatype WrapText = WrapText(encryptedVaultKey: string, ephPubKey: string, mlkemCiphertext: string)

  function TextOfWrap(w: WrappedVaultKey<byte>): WrapText {
    WrapText(Encoded(w.encryptedVaultKey), Encoded(w.ephPubKey), Encoded(w.mlkemCiphertext))
  }

  function WrapFromText(t: WrapText): Result<WrappedVaultKey<byte>> {
    match (Decoded(t.encryptedVaultKey), Decoded(t.ephPubKey), Decoded(t.mlkemCiphertext))
    case (Some(evk), Some(eph), Some(ct)) =>
      if |eph| == Symbolic.CURVE_LEN && |ct| == Symbolic.KEM_CIPHERTEXT_LEN then Ok(WrappedVaultKey(eph, ct, evk))
      else Err(InvalidInput)
    case _ => Err(InvalidInput)
  }

  /** A wrap is read back exactly when its ML-KEM ciphertext has 1088 bytes. */
  lemma WrapRoundTrip(w: WrappedVaultKey<byte>)
    requires |w.ephPubKey| == Symbolic.CURVE_LEN
    ensures WrapFromText(TextOfWrap(w)) ==
            if |w.mlkemCiphertext| == Symbolic.KEM_CIPHERTEXT_LEN then Ok(w) else Err(InvalidInput)
  {
    DecodedOfEncoded(w.encryptedVaultKey);
    DecodedOfEncoded(w.ephPubKey);
    DecodedOfEncoded(w.mlkemCiphertext);
  }

  lemma WrapReprints(t: WrapText)
    requires WrapFromText(t).Ok?
    ensures TextOfWrap(WrapFromText(t).value) == t
  {
    EncodedOfDecoded(t.encryptedVaultKey);
    EncodedOfDecoded(t.ephPubKey);
    EncodedOfDecoded(t.mlkemCiphertext);
  }

  /** The ciphertext is decoded and measured first, then the ephemeral key, then the sealed key. */
  method WrapFromBase64(encryptedVaultKey: string, ephPubKey: string, mlkemCiphertext: string)
    returns (r: Result<WrappedVaultKey<byte>>)
    ensures r == WrapFromText(WrapText(encryptedVaultKey, ephPubKey, mlkemCiphertext))
    ensures forall w: WrappedVaultKey<byte> :: r == Ok(w) <==>
              |w.ephPubKey| == 32 && |w.mlkemCiphertext| == 1088 && encryptedVaultKey == Encoded(w.encryptedVaultKey)
              && ephPubKey == Encoded(w.ephPubKey) && mlkemCiphertext == Encoded(w.mlkemCiphertext)
    ensures r.Err? ==> r.error == InvalidInput
  {
    forall w: WrappedVaultKey<byte>
      ensures Decoded(encryptedVaultKey) == Some(w.encryptedVaultKey) <==>
              encryptedVaultKey == Encoded(w.encryptedVaultKey)
      ensures Decoded(ephPubKey) == Some(w.ephPubKey) <==> ephPubKey == Encoded(w.ephPubKey)
      ensures Decoded(mlkemCiphertext) == Some(w.mlkemCiphertext) <==> mlkemCiphertext == Encoded(w.mlkemCiphertext) {
      DecodedIff(encryptedVaultKey, w.encryptedVaultKey);
      DecodedIff(ephPubKey, w.ephPubKey);
      DecodedIff(mlkemCiphertext, w.mlkemCiphertext);
    }
    var ct := B64Decode(mlkemCiphertext);
    if ct.Err? {
      return Err(ct.error);
    }
    if |ct.value| != Symbolic.KEM_CIPHERTEXT_LEN {
      return Err(InvalidInput);
    }
    var eph := B64DecodeArray(ephPubKey, Symbolic.CURVE_LEN);
    if eph.Err? {
      return Err(eph.error);
    }
    var evk := B64Decode(encryptedVaultKey);
    if evk.Err? {
      return Err(evk.error);
    }
    return Ok(WrappedVaultKey(eph.value, ct.value, evk.value));
  }

  // ----- Public keys -----

  datatype PublicKeyBytes = PublicKeyBytes(x25519: seq<byte>, mlkem: seq<byte>)

  method PublicKeysFromBase64(x25519: string, mlkem: string) returns (r: Result<PublicKeyBytes>)
    ensures r.Ok? <==> exists k: PublicKeyBytes ::
              |k.x25519| == Symbolic.CURVE_LEN && |k.mlkem| == Symbolic.KEM_PUBLIC_LEN
                         && x25519 == Encoded(k.x25519) && mlkem == Encoded(k.mlkem)
    ensures r.Ok? ==> x25519 == Encoded(r.value.x25519) && mlkem == Encoded(r.value.mlkem)
    ensures r.Err? ==> r.error == InvalidInput
  {
    var x := B64DecodeArray(x25519, Symbolic.CURVE_LEN);
    var m := B64DecodeArray(mlkem, Symbolic.KEM_PUBLIC_LEN);
    forall k: PublicKeyBytes ensures Decoded(x25519) == Some(k.x25519) <==> x25519 == Encoded(k.x25519)
                             ensures Decoded(mlkem) == Some(k.mlkem) <==> mlkem == Encoded(k.mlkem) {
      DecodedIff(x25519, k.x25519);
      DecodedIff(mlkem, k.mlkem);
    }
    if x.Err? {
      return Err(x.error);
    }
    if m.Err? {
      return Err(m.error);
    }
    ghost var k := PublicKeyBytes(x.value, m.value);
    assert x25519 == Encoded(k.x25519) && mlkem == Encoded(k.mlkem);
    return Ok(PublicKeyBytes(x.value, m.value));
  }

  /** The wire lengths the server checks: salts and 32-byte keys, sealed identities, ML-KEM
      keys, ciphertexts. */
  lemma WireLength(bytes: seq<byte>)
    ensures |bytes| == 32 ==> |Encoded(bytes)| == 44
    ensures |bytes| == 24 + 32 + Symbolic.TAG_LEN ==> |Encoded(bytes)| == 96
    ensures |bytes| == Symbolic.KEM_PUBLIC_LEN ==> |Encoded(bytes)| == 1580
    ensures |bytes| == Symbolic.KEM_CIPHERTEXT_LEN ==> |Encoded(bytes)| == 1452
  {
    hide Encoded;
    EncodedLength(bytes);
  }
}
