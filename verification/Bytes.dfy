/** Bytes, the crate's error type, and the outcome of a fallible operation. */
module Bytes {

  type byte = b: int | 0 <= b < 256

  /** A Rust `u32`. */
  type u32 = v: int | 0 <= v < 0x1_0000_0000

  datatype Option<+T> = None | Some(value: T)

  /** The variants of the crate's error enum; the message strings are dropped. */
  datatype CryptoError =
    | Kdf
    | Encryption
    | Decryption
    | IntegrityCheck
    | KeyWrap
    | KeyUnwrap
    | InvalidInput
    | InvalidPublicKey
    | Srp

  datatype Result<+T> = Ok(value: T) | Err(error: CryptoError) {
    predicate IsFailure() {
      Err?
    }

    function PropagateFailure<U>(): Result<U>
      requires Err?
    {
      Err(error)
    }

    function Extract(): T
      requires Ok?
    {
      value
    }
  }

  /** The value of a byte string, least significant byte first. */
  function LittleEndian(s: seq<byte>): nat {
    if s == [] then 0 else s[0] + 256 * LittleEndian(s[1..])
  }

  /** Two splits at the same place of one sequence have equal parts. */
  lemma SplitEqual<T>(a: seq<T>, b: seq<T>, c: seq<T>, d: seq<T>)
    requires a + b == c + d
    requires |a| == |c| || |b| == |d|
    ensures a == c && b == d
  {
    assert |a| + |b| == |a + b| == |c + d| == |c| + |d|;
    assert a == (a + b)[..|a|] == (c + d)[..|a|] == c;
    assert b == (a + b)[|a|..] == (c + d)[|a|..] == d;
  }
}
