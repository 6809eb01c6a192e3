# evnx-crypto in Dafny

A Dafny 4.11 model of what the crate adds on top of its primitives: the key hierarchy, the
hybrid X25519 + ML-KEM-768 sharing of vault keys, vault blobs bound to (vault, version), the
SRP-6a client, and the byte layouts on the wire. `dafny verify dfyconfig.toml` checks
everything. Nothing was executed: all statements are proofs about the model.

## How it is built

**Symbolic bytes.** A byte of a value that depends on a secret is `Of(term, index)`; a byte
everybody knows is `Lit(b)`. A string is a sequence of such bytes and keeps its real length,
so the crate's framing, slicing and length checks run on it unchanged, while two outputs are
equal only if the terms that name them are. This idealises AEAD, HKDF, Argon2id, X25519 and
ML-KEM without assuming anything about fixed-size outputs that counting would refute.
Associated data stays real bytes. X25519 points may have several encodings (`alias`), which is
what the transcript in the combiner is there for; ML-KEM decapsulation is total on ciphertexts
of the right length, with implicit rejection (section 6.3 of FIPS 203).

| file | content |
|---|---|
| `Bytes`, `Arith`, `BigEndian`, `NumberTheory` | bytes, errors, remainders, big-endian numbers, powers, primes, square-and-multiply |
| `Symbolic` | the idealised primitives |
| `Buffers` | vectors with a capacity, self-clearing arrays, the random generator |
| `Kdf`, `Vault`, `Keypair` | the crate's modules: functions on values, and the methods that fill and wipe buffers, proved equal to them |
| `Sharing`, `Rekey`, `Wasm` | no recombination and sharing chains, re-keying a history, the browser's framing |
| `Secrecy`, `Protocol`, `Confinement`, `Invariant` | the state machine of users and a hostile storage server, what may become public, and the invariant of all runs |
| `Theorems`, `Identities`, `Authenticity` | secrecy, purpose separation, who a login makes of a user, what a pull proves |
| `Limits`, `Replacement`, `Laundering` | where these guarantees end, as runs that continue any given run |
| `Delivery`, `Abilities` | what honest users get when the server does its part, and all that the server can compute |
| `Base64`, `Codecs`, `HkdfExpand` | the byte layer |
| `Srp`, `SrpSessions` | SRP arithmetic, interleaved logins |
| `X25519Check`, `SmallOrder` | the contributory check as arithmetic, and the encodings it refuses, byte by byte |

**The state machine.** Users register, log in, seal their identity again, create vaults, wrap
keys under their master key, share, accept, push, pull and re-key, in any order and number. The
storage server sees every stored or sent value and answers with any string whose bytes it
knows; it computes with `Move`, including multiplying and dividing points by known scalars,
re-encoding points, and choosing public keys that no key generation produced. A `World` says
which secrets are guarded (all others may be leaked by `Corrupt`, single draws of a sender
included, and SRP password inputs by `LeakSrpPassword`) and which of the two primitives is broken; a broken one gives the server
every secret behind the public values it has seen. The secrecy results need no freshness of the
draws; recombination needs it for a sender's draws, and fixed identities for salts.

**Hypotheses.** The crate does not authenticate whose public-key bundle or wrapped key was
fetched, so the results say "a bundle an uncorrupted user published" and "a vault key that was
generated" where they need to. Users are `Prudent`: they do not hand a guarded secret to an
untrusted party themselves. A wrap counts as safe when, for one of the two primitives, that
primitive stands, the recipient's half is uncorrupted and the sender's draw for it is guarded;
`Limits.HybridIsSharp` shows that the draws cannot be asked for less. In `SrpSessions`, agreement
on both ephemerals, M1 and the key needs nothing about M1's other inputs; agreement on user
and salt holds if M1 covers them (`ProofNamesUser`), as `src/srp.rs:32` writes it.

**Where the code and its prose disagree.** The header of `src/keypair.rs` describes a wrap
under X25519 alone; the model follows the live code, which is hybrid. The summary at
`src/srp.rs:21` leaves the identity out of `x`; the code passes it, and so does the model. The
SRP arithmetic lives in a crate that is not part of this model; the equations are those of
`src/srp.rs:19-37` and RFC 5054.

**Five claims that hold only with a condition.**

- Prefix-freeness of the associated data fails for ids of 65536 bytes and more
  (`Vault.AadPrefixExample`); `Vault.AadPrefixIff` says exactly when.
- Purpose separation fails for a vault key that a user accepted from the server
  (`Limits.PurposesCanMeet`); `Theorems.PurposesAreSeparated` says that this is the only case.
- A user keeps the registered identity through logins exactly when the password has not leaked
  (`Replacement.IdentityIsFixedIff`).
- Pulls return pushes as long as members re-key from secret keys (`Authenticity.PullReturnsAPush`).
  Re-keying is also what one does after a member who knows the old key has left (`src/vault.rs:217-246`),
  and then a blob forged under the old key comes out as authentic under the new one
  (`Laundering.ForgeryIsRekeyed`). Re-keying from a generated key is safe in this sense exactly
  when that key has not leaked (`Laundering.SafeToRekeyIff`).
- An honest login ends without a session exactly when the server's `B` is zero modulo `N`
  (`SrpSessions.HonestLoginsSucceed`). In a prime group that `g` generates, the server can draw such
  a `B` exactly when `k*v` is not zero (`SrpSessions.ZeroBPossibleIff`).

## Model

| member | source | states |
|---|---|---|
| Theorems.HybridSecrecy | src/keypair.rs:554-603 | In every run from the start, a generated vault key wrapped only to bundles of uncorrupted users or under their master keys is never known to the server in any of its bytes, when X25519 is broken or ML-KEM is, but not both, and even when one draw of each wrap leaks, as long as the other belongs to a primitive that stands. |
| Theorems.EitherPrimitiveIsEnough | src/keypair.rs:554-603 | When no draw of a sender leaks, that one of the two primitives stands is enough. |
| Theorems.GuardedStaysSecret | src/kdf.rs:29-42 | In every prudent run no byte of a guarded seed, password, vault key, plaintext, or draw for an unbroken primitive becomes known, even when SRP password inputs leak. |
| Theorems.PurposesAreSeparated | src/kdf.rs:182-194 | In every reachable state, a key live for two purposes is a vault key that was not generated and is public; the three derived purposes never meet. |
| Theorems.IdentitiesAreDerived | src/keypair.rs:291-328 | In every reachable state each identity in use, whatever blobs it was unsealed from, is the derivation of its seed in all fields. |
| Identities.RegisteredIdentityStays | src/keypair.rs:365-413 | After any logins with whatever blobs the server chose, a user with a secret master key has the identity made at registration, unless another seed was registered under that password and salt. |
| Identities.GuardedPasswordKeepsIdentity | src/keypair.rs:365-413 | With fresh salts, a guarded password is enough for that. |
| Replacement.IdentityIsFixedIff | src/keypair.rs:365-413 | The identity registered in any step of any run stays, however the run goes on, exactly when its password is guarded. |
| Identities.StepKeepsBound | src/keypair.rs:340-413 | Every step keeps: all that is sealed as an identity under a secret master key, and every user with it, has the one registered seed. |
| Identities.LoginKeepsBound | src/keypair.rs:365-413 | Of all blobs the server can offer, only those with that seed open. |
| Replacement.IdentityCanBeReplaced | src/keypair.rs:365-413 | From every reachable state, and for every user whose password is not guarded, the run can go on to a login that installs an identity of the server's making. |
| Limits.BothHalvesLostLeaks | src/keypair.rs:554-603 | When each half of a wrap it has seen is lost, by a broken primitive or an unguarded draw, the server gets the vault key. |
| Limits.HybridIsSharp | src/keypair.rs:623-675 | After any share step whose draws are not safe, the server can get the shared key: the condition on draws and primitives in `HybridSecrecy` is needed. |
| Limits.PurposesCanMeet | src/keypair.rs:690-749 | From every reachable state, and for every user whose published keys the server has, the run can go on to one key live for hybrid wrapping and vault sealing: unwrapping does not say who made a wrap. |
| Authenticity.PullIsAuthentic | src/vault.rs:122-215 | A pull that succeeds under a secret key returns what a holder of that key sealed at exactly that vault and version; that plaintext entered the vault there by a recorded push of it, or by a recorded re-encryption of a blob that opens to it under a key that is not secret. |
| Authenticity.PullReturnsAPush | src/vault.rs:198-263 | If re-encryptions start from secret keys, it is the plaintext of a push step of the run at exactly that vault and version. |
| Laundering.ForgeryIsRekeyed | src/vault.rs:217-263 | From every reachable state, a member who re-keys from an old key the server knows can be made to publish, as a blob that opens under the new key, any text the server chooses, at any vault and version, with no push of it. |
| Laundering.SafeToRekeyIff | src/vault.rs:217-263 | Re-keying from a generated key to a secret one keeps every pull a push, however the run goes on, exactly when the old key has not leaked. |
| Authenticity.OpenedWasRecorded | src/vault.rs:198-215 | Of any blob the server can build, only recorded ones open under a secret key, at their own pair. |
| Authenticity.StepKeepsHistory | src/vault.rs:249-263 | Every step keeps: each sealed blob is recorded by a holder of its key and goes back to an origin at the same vault and version. |
| Invariant.StepKeepsInv | src/keypair.rs:623-749 | Every prudent step of every kind keeps: the server knows only public values, every sealed message is under a never-public key or is public, users hold only generated or public keys. |
| Delivery.SharesArrive | src/keypair.rs:623-749 | In every run with a registration and a later share to its keys, the user can log in and, served that wrap, holds the key. |
| Delivery.RegisteredCanLogIn | src/keypair.rs:340-413 | However a run goes on, a user can log in with the blob of the registration and has the registered identity. |
| Delivery.SoloWrapDelivers | src/vault.rs:265-315 | Whoever derives the same master key and is served a solo wrap holds its key. |
| Delivery.PushesArrive | src/vault.rs:164-215 | In every run what was pushed can be pulled by whoever holds the key. |
| Delivery.UsesAreNoted | src/kdf.rs:182-194 | Every step that runs a cipher notes its key and purpose. |
| Delivery.SealingsAreNoted | src/kdf.rs:182-194 | In every run each key that sealed something is noted. |
| Abilities.ServerDerivesIdentity | src/keypair.rs:415-467 | With a seed the server computes the whole identity. |
| Abilities.ServerUnwraps | src/keypair.rs:690-749 | With a user's seed it unwraps whatever that user could. |
| Abilities.ServerUnseals | src/keypair.rs:365-413 | With password and salt it opens the identity and the solo wraps. |
| Invariant.ShareKeepsInv | src/keypair.rs:623-675 | Sharing keeps that invariant when a wrap of a secret key has one safe half. |
| Invariant.AcceptKeepsInv | src/keypair.rs:690-749 | Accepting any offered wrap keeps it: what comes out is a generated vault key or public. |
| Invariant.LoginKeepsInv | src/keypair.rs:365-413 | Unsealing any offered blob at login keeps it. |
| Invariant.SoloUnwrapKeepsInv | src/vault.rs:293-315 | Unwrapping any offered string under the master key keeps it. |
| Invariant.RekeyKeepsInv | src/vault.rs:249-263 | Re-encrypting any offered blob keeps it. |
| Confinement.MoveIsConfined | src/keypair.rs:554-603 | No computation on public values leads to a value that is not public. |
| Confinement.DecapsulateIsPublic | src/keypair.rs:471-509 | Nor does decapsulating any ciphertext of the right length with a known key. |
| Secrecy.SafeWrapKeyNever | src/keypair.rs:581-603 | The key of a wrap with one safe half is not public under any log: the combiner holds if either shared secret does. |
| Secrecy.HonestWrapIsSafe | src/keypair.rs:269-282 | A wrap to the keys an uncorrupted user published is safe exactly when one of its draws is guarded and that draw's primitive stands. |
| Sharing.WrapOutcomes | src/keypair.rs:554-675 | A wrap is the ephemeral key, the ciphertext, and the nonce before the key sealed under HKDF(ss_mlkem, ss_x25519, ciphertext, ephemeral key, recipient key; "evnx-vault-key-wrap-v2"); there is none exactly for a zero secret or a malformed ML-KEM key, and then the error is `InvalidPublicKey`. |
| Sharing.UnwrapOutcomes | src/keypair.rs:677-749 | Every outcome in the order of the checks: `InvalidPublicKey`, `InvalidInput` for lengths, the key sealed under the recipient's combination, `InvalidInput` for another length, `KeyUnwrap` for all that was not sealed so. |
| Sharing.UnwrapIff | src/keypair.rs:690-749 | With the sealed part of an honest wrap, any public fields and any identity, unwrapping gives the vault key exactly on the wrap as made and for the identity both of whose keys it was made to, and otherwise `KeyUnwrap`, after the checks of point and length. |
| Sharing.NoRecombination | src/keypair.rs:605-749 | Over any set of wraps with fresh randomness, a mixture of three fields gives a key exactly if all come from one wrap made to both keys of the identity, then that wrap's, and `KeyUnwrap` otherwise. |
| Sharing.KeysAgreeIff | src/keypair.rs:581-603 | Sender and recipient derive one wrap key exactly when they see the same ephemeral key and ciphertext and the bundle is the recipient's. |
| Sharing.LowOrderIsRefused | src/keypair.rs:633-645 | Both sides answer `InvalidPublicKey` to a small-order point whatever the keys, and unwrapping gives that error for nothing else. |
| SmallOrder.RefusedIff | tests/attacks.rs:137-219 | Of all 32-byte points, exactly the seven of the table, with bit 255 set or not, are refused with `InvalidPublicKey`, when wrapping and when unwrapping, whatever the other arguments. |
| Sharing.HonestBundleAccepted | src/keypair.rs:623-675 | Wrapping to an identity's own keys never fails. |
| Sharing.RestoredIsIdentity | src/keypair.rs:340-413 | Any number of seals and unseals under any master keys gives back every field. |
| Sharing.ChainDeliversTheKey | src/keypair.rs:623-749 | After any chain of restored identities, shares and re-shares the last member holds the original vault key. |
| Keypair.CombinerInputInjective | src/keypair.rs:588-595 | The concatenation determines all five fields for any ciphertext length. |
| Keypair.CombinerLayout | src/keypair.rs:556-595 | Which field is at which offset, ML-KEM's secret first. |
| Keypair.HybridWrapKey | src/keypair.rs:581-603 | The buffer is never moved and exactly full, the key is the HKDF of its contents before the wipe, and every byte of it is zero on return. |
| Keypair.HybridKeyIs | src/keypair.rs:554-603 | HKDF over ML-KEM's secret, X25519's, the ciphertext and the two public keys, in this order, under the label of version 2. |
| Keypair.WrapVaultKeyForUser | src/keypair.rs:623-675 | The method with its buffers and draws equals the wrap function, errors included. |
| Keypair.SealAndFrame | src/keypair.rs:659-668 | The nonce precedes the ciphertext sealed with it. |
| Keypair.UnwrapVaultKey | src/keypair.rs:690-749 | The method equals the unwrap function, with the order of its checks. |
| Keypair.MlKemEncapsulate | src/keypair.rs:530-550 | A malformed key is `InvalidPublicKey` before any draw; else ciphertext and secret of one fresh draw. |
| Keypair.MlKemOutcomes | src/keypair.rs:471-550 | Decapsulation is `InvalidInput` exactly for other lengths than 1088; encapsulation is `InvalidPublicKey` exactly for a key that is not accepted. |
| Keypair.GenerateKeypair | src/keypair.rs:291-328 | A fresh seed; each private key comes from it under its own label, each public key is that of the private key beside it. |
| Keypair.IdentityIff | src/keypair.rs:291-467 | A record is the identity of its seed exactly when all its fields are so related. |
| Keypair.DeriveX25519 | src/keypair.rs:420-428 | The derived key is handed out, the buffer left zero. |
| Keypair.DeriveMlKem | src/keypair.rs:453-467 | The 64-byte seed and the public key generated from it; the expansion cannot fail. |
| Keypair.DerivationsAreSeparated | src/keypair.rs:430-467 | The two derived private keys share no byte, and each of them, and the published keys, determine the seed. |
| Keypair.EncryptPrivateKey | src/keypair.rs:340-355 | The seed sealed under HKDF(master key; "evnx-private-key-enc-v1") with a fresh nonce. |
| Keypair.DecryptPrivateKey | src/keypair.rs:365-413 | The method equals the unseal function; every field of what it returns is related to the seed as above. |
| Keypair.UnsealOutcomes | src/keypair.rs:365-386 | The sealed seed, `InvalidInput` for a sealed string of another length, `KeyUnwrap` for anything else. |
| Keypair.UnsealIff | src/keypair.rs:340-413 | Unsealing returns the sealed identity under the sealing master key and `KeyUnwrap` under every other. |
| Keypair.NewXChaChaCipher | src/keypair.rs:759-784 | An empty info means the raw key, any other the subkey for it; with it comes one fresh nonce. |
| Keypair.NewXChaChaKey | src/keypair.rs:786-806 | The same key for opening, where no nonce is drawn. |
| Kdf.SubkeysEqualIff | src/kdf.rs:182-194 | Subkeys are equal exactly for the same key and the same purpose. |
| Kdf.PasswordDerivationsDiffer | src/kdf.rs:29-42 | The master key and the SRP password input never agree, whatever passwords and salts; each determines both. |
| Kdf.DeriveMasterKey | src/kdf.rs:105-126 | The domain-separated derivation, or `Kdf` for a password Argon2 does not take. |
| Kdf.DeriveSrpPassword | src/kdf.rs:135-160 | The same under the other tag. |
| Kdf.HkdfSubkey | src/kdf.rs:188-194 | 32 bytes of the expand stream in a self-clearing buffer; it cannot fail. |
| Kdf.GenerateSalt | src/kdf.rs:89-93 | A fresh 32-byte draw. |
| Vault.AadInjective | src/vault.rs:122-138 | No two (vault, version) pairs have the same associated data, ids over 65535 bytes included. |
| Vault.AadLayout | src/vault.rs:130-138 | What each part of the associated data is. |
| Vault.AadBytes | src/vault.rs:130-138 | The same byte by byte. |
| Vault.AadPrefixIff | src/vault.rs:122-138 | When one associated data string is a proper prefix of another: exactly when the length prefix wraps and the longer id continues with the version. |
| Vault.AadPrefixFree | src/vault.rs:122-138 | Never, for ids up to 65535 bytes. |
| Vault.AadPrefixExample | src/vault.rs:134 | A concrete pair of ids beyond that bound. |
| Vault.VaultAad | src/vault.rs:130-138 | The method that extends the buffer equals the layout function. |
| Vault.OpenedIff | src/vault.rs:164-215 | A blob opens to its plaintext under its own key and data and is `Decryption` under all others. |
| Vault.OpenedOutcomes | src/vault.rs:198-215 | What was sealed with the blob's nonce, the key and the data is given back; everything else is `Decryption`. |
| Vault.EncryptVault | src/vault.rs:164-187 | The blob for a fresh nonce, or `Encryption` on a pathological size. |
| Vault.ReencryptVault | src/vault.rs:249-263 | Same data under the new key; on a mismatch nothing is sealed or drawn; the plaintext buffer is zero on every way out. |
| Vault.MasterUnwrapIff | src/vault.rs:265-315 | A solo wrap opens under its own master key and is `KeyUnwrap` under every other. |
| Vault.MasterUnwrapOutcomes | src/vault.rs:293-315 | `InvalidInput` below 56 bytes, the sealed key, `InvalidInput` for another length, `KeyUnwrap` for anything else. |
| Vault.WrapVaultKeyWithMasterKey | src/vault.rs:270-286 | The method equals the wrap function with a fresh nonce. |
| Vault.UnwrapVaultKeyWithMasterKey | src/vault.rs:293-315 | The method equals the unwrap function, length errors included. |
| Vault.GenerateVaultKey | src/vault.rs:44-50 | A fresh 32-byte draw. |
| Rekey.RekeyHistory | tests/vault.rs:598-631 | The loop equals the functional re-keying, stops at the first version that fails and leaves the history as it was. |
| Rekey.AllOrNothing | src/vault.rs:217-263 | It succeeds exactly when every version can be re-keyed. |
| Rekey.VersionOutcomes | src/vault.rs:249-263 | One version: its own data on both sides, a fresh nonce, `Decryption` or `Encryption` otherwise. |
| Rekey.FirstErrorDecides | tests/vault.rs:598-631 | The first version that fails decides the error. |
| Rekey.HistoryMoves | tests/vault.rs:598-631 | Then every version opens to its original plaintext under the new key at its own data, and at no other key, vault or version. |
| Rekey.OldKeyIsUseless | tests/vault.rs:621-630 | A different old key opens none of them, at any version. |
| Wasm.EncryptVault | src/wasm.rs:146-158 | The framed form of the native blob, or its error. |
| Wasm.DecryptVault | src/wasm.rs:165-183 | For every byte string: too short is an error, else the native answer on the two parts. |
| Wasm.FramesAgree | src/wasm.rs:146-183 | A framed blob splits into the native blob and opens exactly like it. |
| Wasm.ClientsInteroperate | src/wasm.rs:146-183 | A blob made in one client opens in the other at its own key, vault and version and nowhere else. |
| Wasm.AadSelfTest | src/wasm.rs:194-209 | The self-test returns true for every vault and version, the last one included, unless the cipher refuses the size of the id: then `Encryption`. |
| Buffers.SecretArray.IntoInner | src/zeroize.rs:179-183 | The bytes go to the caller, zeros stay behind. |
| Buffers.SecretArray.Drop | src/zeroize.rs:192-196 | Dropping leaves zeros. |
| Buffers.Vec.Zeroize | src/zeroize.rs:217-219 | Every element in use becomes zero, the rest is untouched. |
| Buffers.Vec.ExtendFromSlice | src/keypair.rs:588-595 | Appends; does not move the buffer while it fits, and leaves the old one as it was otherwise. |
| Buffers.OsRng.FillBytes | src/vault.rs:171-172 | Fills the buffer with the next draw, never the same one twice. |
| Symbolic.DiffieHellmanCommutes | src/keypair.rs:633-645 | Both ends of an exchange get one secret, and it is contributory. |
| Symbolic.ZeroIffLowOrder | src/keypair.rs:700-707 | The secret is all zero exactly for small-order points, whatever the private key. |
| Symbolic.ScalarsCommute | src/keypair.rs:633-645 | Scalars apply in any order to any point. |
| Symbolic.KemKeyAcceptedIff | src/keypair.rs:530-536 | A key of known bytes is accepted exactly when it has 1184 bytes and each of its 768 12-bit coefficients is below 3329. |
| Symbolic.ImplicitRejection | src/keypair.rs:471-509 | What was not encapsulated to a key gives a secret of its own, from the second half of the seed. |
| Symbolic.DecapsulateIff | src/keypair.rs:471-509 | Decapsulation gives the sender's secret exactly for the sender's ciphertext and key. |
| Symbolic.OpenOfSeal | src/vault.rs:189-215 | Opening succeeds exactly for the algorithm, key, nonce and data of the sealing. |
| X25519Check.RejectsExactlySmallOrder | src/keypair.rs:633-645 | In a cyclic group of order h times a prime above 2^252, h dividing 8, the check rejects exactly the points the cofactor kills, for every private key. |
| X25519Check.VerdictIgnoresTheKey | src/keypair.rs:700-707 | Two parties never disagree about a point. |
| X25519Check.ClampedScalar | src/keypair.rs:695-698 | Every clamped scalar is 8k with 2^251 <= k < 2^252. |
| X25519Check.Clamp | src/keypair.rs:695-698 | The in-place clamp equals the clamp function. |
| X25519Check.ClampedValue | src/keypair.rs:695-698 | Clamping clears the three low bits and all from bit 254 on, and sets bit 254. |
| Base64.DecodedOfEncoded | src/encoding.rs:24-34 | Decoding inverts encoding for every byte string. |
| Base64.EncodedOfDecoded | src/encoding.rs:32-34 | Every accepted string re-encodes to itself. |
| Base64.DecodedIff | src/encoding.rs:24-34 | Decoding yields given bytes exactly on their one encoding. |
| Base64.EncodedLength | src/encoding.rs:24-26 | Four characters per three bytes begun. |
| Base64.EncodedIs | src/encoding.rs:24-26 | Every three bytes are four characters of the alphabet, the digits of a 24-bit number; one or two left over are padded. |
| Base64.AlphabetIs | src/encoding.rs:15-19 | The character for each value is the one at its place of the standard alphabet. |
| Base64.KnownAnswers | src/encoding.rs:15-26 | Test vectors of RFC 4648 and the last two characters of the standard alphabet. |
| Base64.B64Encode | src/encoding.rs:24-26 | The loop over blocks computes the encoding. |
| Base64.B64Decode | src/encoding.rs:32-34 | The loop over blocks computes the strict decoding, or `InvalidInput`. |
| Base64.B64DecodeArray | src/encoding.rs:39-50 | Succeeds exactly when the decoded length is N. |
| Codecs.IdentityRoundTrip | src/keypair.rs:990-1027 | Text round-trips exactly when the ciphertext has at least 16 bytes. |
| Codecs.IdentityReprints | src/keypair.rs:1007-1026 | Every accepted text is printed back unchanged. |
| Codecs.IdentityToBase64 | src/keypair.rs:995-1000 | The text decodes to the nonce followed by the ciphertext. |
| Codecs.IdentityFromBase64 | src/keypair.rs:1007-1026 | The first 24 bytes are the nonce, the rest the ciphertext; `InvalidInput` below 40 bytes or for text that does not decode. |
| Codecs.WrapRoundTrip | src/keypair.rs:1029-1082 | The three fields round-trip exactly when the ML-KEM ciphertext has 1088 bytes. |
| Codecs.WrapReprints | src/keypair.rs:1057-1082 | Three accepted texts are printed back unchanged. |
| Codecs.WrapFromBase64 | src/keypair.rs:1057-1082 | Succeeds with a wrap exactly on the encodings of its fields, of 32 and 1088 bytes where fixed; all errors are `InvalidInput`. |
| Codecs.PublicKeysFromBase64 | src/keypair.rs:940-954 | Succeeds exactly on the encodings of a 32-byte and a 1184-byte key. |
| Codecs.WireLength | src/encoding.rs:7-11 | 44 characters for 32 bytes, 96 for a sealed identity, 1580 and 1452 for ML-KEM keys and ciphertexts. |
| HkdfExpand.ExpandInto | src/kdf.rs:188-194 | The chunk loop equals the block chain of section 2.3 of RFC 5869 and fails exactly beyond 255 blocks, leaving the buffer alone. |
| HkdfExpand.StreamIsOkm | src/kdf.rs:188-194 | If the symbolic stream renders as the longest output, every request renders as the loop's output for its length. |
| HkdfExpand.OkmChunk | src/kdf.rs:188-194 | For all lengths each chunk is the HMAC of the chunk before it, the info, and its number counted from 1. |
| HkdfExpand.OkmOfTheCrate | src/keypair.rs:420-467 | The 32-byte and the 64-byte outputs, written out. |
| HkdfExpand.OkmPrefix | src/keypair.rs:420-467 | A shorter output is a prefix of a longer one for the same info. |
| BigEndian.AllZeroIff | src/srp.rs:180-185 | Bytes of any length are all zero exactly when the integer is zero. |
| BigEndian.ValueOfFirst | src/vault.rs:134-136 | The most significant byte comes first. |
| BigEndian.MinimalIsShortest | src/srp.rs:173-185 | No leading zero byte. |
| BigEndian.FixedEqualIff | src/vault.rs:134-136 | Two integers have the same low bytes exactly when they agree modulo 256^k. |
| NumberTheory.ModPow | src/srp.rs:22-30 | Square and multiply computes the true power modulo n. |
| Srp.KeyAgreement | src/srp.rs:19-37 | For every group, verifier exponent, ephemerals and scrambler, the client's and the server's secret are equal, computed without negative numbers. |
| Srp.ClientSecretIs | src/srp.rs:30 | The client's arithmetic without negative numbers is (B - k*g^x)^(a+u*x) mod N. |
| Srp.ServerSecretIs | src/srp.rs:25-37 | The server's is (A * v^u)^b mod N. |
| Srp.ServerPublicIs | src/srp.rs:25-37 | B is k*v + g^b mod N. |
| Srp.VerifiersDiffer | tests/srp.rs:60-95 | With a hash that separates its inputs below the order of g, verifiers are equal exactly for equal user, password and salt. |
| Srp.ComputeVerifier | src/srp.rs:136-155 | The verifier bytes are the big-endian g^x, the identity hashed into x. |
| Srp.GenerateClientEphemeral | src/srp.rs:168-191 | Fails exactly when A is zero; else the drawn bytes and the bytes of A. |
| Srp.EphemeralNeverZero | src/srp.rs:165-185 | With N prime and 0 < g < N, no ephemeral is zero: that error path is dead. |
| Srp.ComputeClientProof | src/srp.rs:209-241 | Refuses exactly the B that are zero modulo N; else K, M1 and M2 are those of the equations, with x and u hashed as stated. |
| Srp.VerifyServerProof | src/srp.rs:262-271 | Accepts exactly the expected M2: the proof of the A this client sent, its M1 and the key it derived. |
| SrpSessions.AcceptedMeansAgreed | src/srp.rs:243-271 | Under any network, when a client has accepted an M2 that a server session made, that session has the client's A, B, M1 and key, neither ephemeral is zero modulo N, and user and salt agree if M1 covers them. |
| SrpSessions.ServerEquations | src/srp.rs:25-37 | B, K and the expected M1 of a server session in the terms of the protocol. |
| SrpSessions.ConfirmedMeansAgreed | src/srp.rs:25-37 | Under any network, when a server session confirms an M1 that a client computed, the two have the same A, B, M2 and key, and the same user and salt if M1 covers them. |
| SrpSessions.HonestLoginsSucceed | src/srp.rs:25-37 | In every honest interleaving, a login that is over was accepted by both sides with one key, except exactly when B was zero modulo N. |
| SrpSessions.HonestLoginsAreNotRejected | src/srp.rs:25-37 | Neither side ever rejects a proof in an honest interleaving. |
| SrpSessions.LoginCanGoOn | src/srp.rs:25-37 | In any honest interleaving, the next message of a login that is not over is enabled and honest. |
| SrpSessions.RunAdvances | src/srp.rs:25-37 | In any honest interleaving, a login advances by exactly the number of its own messages, at most four. |
| SrpSessions.LoginFinishes | src/srp.rs:25-37 | From any honest state at most four more honest messages, fewer the further it has come, end a given login. |
| SrpSessions.HonestLoginRefused | src/srp.rs:223-239 | In every prime group that g generates, from every honest state and for every account with k*v not zero, a login can go on honestly to where the client refuses it. |
| SrpSessions.ZeroBPossibleIff | src/srp.rs:223-239 | Some draw of the server makes B zero exactly when k*v is not zero. |
| SrpSessions.MatchedAgree | src/srp.rs:25-37 | A client and the session on its account compute one key and one M1. |

## Left out

- The cost parameters of Argon2id: they are constants of a hash that is not modelled.
- Argon2id, AES-GCM, XChaCha20-Poly1305, SHA-256, Ed25519, curve and lattice arithmetic: only their interfaces are modelled, perfectly.
- AEAD under a repeated nonce, and the chance that random nonces repeat: sealings are ideal and draws are numbered.
- X25519 clamping in the symbolic protocol: private keys that clamp alike count as different there; `X25519Check` treats clamping on bytes.
- The list of small-order encodings is the one of `tests/attacks.rs`; that these are all of them is curve arithmetic.
- The modulus check of ML-KEM public keys is applied to literal bytes only.
- Forging M2 without the session key: `SrpSessions` relates accepted proofs to the sessions that made them and does not bound what a discrete-logarithm attacker computes.
- That the 2048-bit modulus of RFC 5054 is prime: it is a hypothesis where it is needed.
- Passwords are unguessable symbols; offline guessing and Argon2id's cost are not modelled.
- Authenticating a fetched bundle or wrap: the crate does not do it, the theorems state what they assume.
- `blob_hash`, hex encoding, `Debug` and `Display`, serde, error texts, accessors and the key handles of the browser: easy members only.
- Timing, and copies of secrets outside the modelled buffers.
- HTTP, server storage and the build of the browser bundle.
