/** The expand loop of HKDF over a 32-byte HMAC (section 2.3 of RFC 5869), and what it has to
    do with the symbolic stream of the other modules. */
module HkdfExpand {
  import opened Bytes
  import opened Symbolic

  type Hmac = (seq<byte>, seq<byte>) -> seq<byte>

  const HASH_LEN := 32

  /** At most 255 blocks. */
  const MAX_LEN := 255 * HASH_LEN

  ghost predicate Produces32(hmac: Hmac) {
    forall key, message :: |hmac(key, message)| == HASH_LEN
  }

  /** T(i) of the RFC. */
  function Block(hmac: Hmac, prk: seq<byte>, info: seq<byte>, i: nat): seq<byte>
    requires i <= 255
  {
    if i == 0 then [] else hmac(prk, Block(hmac, prk, info, i - 1) + info + [i])
  }

  /** T(1) to T(n), concatenated. */
  function Blocks(hmac: Hmac, prk: seq<byte>, info: seq<byte>, n: nat): seq<byte>
    requires n <= 255
  {
    if n == 0 then [] else Blocks(hmac, prk, info, n - 1) + Block(hmac, prk, info, n)
  }

  function BlockCount(l: nat): nat {
    (l + HASH_LEN - 1) / HASH_LEN
  }

  lemma {:induction false} BlocksLength(hmac: Hmac, prk: seq<byte>, info: seq<byte>, n: nat)
    requires Produces32(hmac) && n <= 255
    ensures |Blocks(hmac, prk, info, n)| == HASH_LEN * n
  {
    if n > 0 {
      BlocksLength(hmac, prk, info, n - 1);
    }
  }

  lemma {:induction false} BlocksPrefix(hmac: Hmac, prk: seq<byte>, info: seq<byte>, m: nat, n: nat)
    requires m <= n <= 255
    ensures Blocks(hmac, prk, info, m) <= Blocks(hmac, prk, info, n)
  {
    if m < n {
      BlocksPrefix(hmac, prk, info, m, n - 1);
    }
  }

  /** The output of length `l`, for lengths the RFC allows. */
  function Okm(hmac: Hmac, prk: seq<byte>, info: seq<byte>, l: nat): (okm: seq<byte>)
    requires Produces32(hmac) && l <= MAX_LEN
    ensures |okm| == l
  {
    BlocksLength(hmac, prk, info, BlockCount(l));
    Blocks(hmac, prk, info, BlockCount(l))[..l]
  }

  /** A shorter output is a prefix of a longer one for the same info, so only the info string
      keeps a 32-byte and a 64-byte derivation from the same key apart. */
  lemma OkmPrefix(hmac: Hmac, prk: seq<byte>, info: seq<byte>, l: nat, l': nat)
    requires Produces32(hmac) && l <= l' <= MAX_LEN
    ensures Okm(hmac, prk, info, l) == Okm(hmac, prk, info, l')[..l]
  {
    var n, n' := BlockCount(l), BlockCount(l');
    BlocksPrefix(hmac, prk, info, n, n');
    BlocksLength(hmac, prk, info, n);
    BlocksLength(hmac, prk, info, n');
    assert Blocks(hmac, prk, info, n) == Blocks(hmac, prk, info, n')[..HASH_LEN * n];
  }

  lemma BlockIsChunk(hmac: Hmac, prk: seq<byte>, info: seq<byte>, n: nat, i: nat)
    requires Produces32(hmac) && i < n <= 255
    ensures |Blocks(hmac, prk, info, n)| == 32 * n
    ensures Blocks(hmac, prk, info, n)[32 * i..32 * i + 32] == Block(hmac, prk, info, i + 1)
  {
    BlocksLength(hmac, prk, info, n);
    BlocksLength(hmac, prk, info, i);
    BlocksLength(hmac, prk, info, i + 1);
    BlocksPrefix(hmac, prk, info, i + 1, n);
    assert Blocks(hmac, prk, info, n)[..32 * i + 32] == Blocks(hmac, prk, info, i) + Block(hmac, prk, info, i + 1);
  }

  /** What the RFC asks of every output: each chunk of 32 bytes, the last possibly shorter, is
      the HMAC of the chunk before it, the info, and its number, counted from 1. */
  lemma OkmChunk(hmac: Hmac, prk: seq<byte>, info: seq<byte>, l: nat, i: nat)
    requires Produces32(hmac) && 32 * i < l <= 8160
    ensures var okm := Okm(hmac, prk, info, l);
            var previous := if i == 0 then [] else okm[32 * i - 32..32 * i];
            var chunk := hmac(prk, previous + info + [i + 1]);
            if 32 * i + 32 <= l then okm[32 * i..32 * i + 32] == chunk else okm[32 * i..] == chunk[..l - 32 * i]
  {
    var n := BlockCount(l);
    var okm := Okm(hmac, prk, info, l);
    BlockIsChunk(hmac, prk, info, n, i);
    if i > 0 {
      BlockIsChunk(hmac, prk, info, n, i - 1);
      assert okm[32 * i - 32..32 * i] == Block(hmac, prk, info, i);
    }
    var blocks := Blocks(hmac, prk, info, n);
    if 32 * i + 32 <= l {
      assert okm[32 * i..32 * i + 32] == blocks[32 * i..32 * i + 32];
    } else {
      assert okm[32 * i..] == blocks[32 * i..32 * i + 32][..l - 32 * i];
    }
  }

  lemma FirstChunks(hmac: Hmac, prk: seq<byte>, info: seq<byte>, l: nat)
    requires Produces32(hmac) && l <= 8160
    ensures l >= 32 ==> Okm(hmac, prk, info, l)[..32] == hmac(prk, info + [1])
    ensures l >= 64 ==> Okm(hmac, prk, info, l)[32..64] == hmac(prk, Okm(hmac, prk, info, l)[..32] + info + [2])
  {
    hide Okm;
    if l >= 32 {
      OkmChunk(hmac, prk, info, l, 0);
      assert [] + info == info;
    }
    if l >= 64 {
      OkmChunk(hmac, prk, info, l, 1);
    }
  }

  /** The two lengths the crate derives: 32 bytes for keys, 64 for the ML-KEM seed. */
  lemma OkmOfTheCrate(hmac: Hmac, prk: seq<byte>, info: seq<byte>)
    requires Produces32(hmac)
    ensures Okm(hmac, prk, info, 32) == hmac(prk, info + [1])
    ensures var first := hmac(prk, info + [1]);
            Okm(hmac, prk, info, 64) == first + hmac(prk, first + info + [2])
  {
    hide Okm;
    FirstChunks(hmac, prk, info, 32);
    FirstChunks(hmac, prk, info, 64);
    var okm := Okm(hmac, prk, info, 64);
    assert okm == okm[..32] + okm[32..64];
  }

  /** The loop over 32-byte chunks, the last one possibly shorter. It fails exactly on
      lengths the RFC forbids, and then leaves the buffer alone. */
  method ExpandInto(hmac: Hmac, prk: seq<byte>, info: seq<byte>, okm: array<byte>) returns (ok: bool)
    requires Produces32(hmac)
    modifies okm
    ensures ok <==> okm.Length <= MAX_LEN
    ensures okm[..] == if ok then Okm(hmac, prk, info, okm.Length) else old(okm[..])
  {
    if okm.Length > MAX_LEN {
      return false;
    }
    var prev: seq<byte> := [];
    var n := BlockCount(okm.Length);
    var i := 0;
    while i < n
      invariant i <= n
      invariant prev == Block(hmac, prk, info, i)
      invariant |Blocks(hmac, prk, info, i)| == HASH_LEN * i
      invariant var end := if HASH_LEN * i <= okm.Length then HASH_LEN * i else okm.Length;
                okm[..end] == Blocks(hmac, prk, info, i)[..end]
    {
      var output := hmac(prk, prev + info + [i + 1]);
      var at := HASH_LEN * i;
      var blockLen := if at + HASH_LEN <= okm.Length then HASH_LEN else okm.Length - at;
      ghost var before := okm[..at];
      forall j | 0 <= j < blockLen { okm[at + j] := output[j]; }
      assert okm[..at] == before;
      assert okm[..at + blockLen] == before + output[..blockLen];
      prev := output;
      i := i + 1;
    }
    assert okm[..] == okm[..okm.Length];
    return true;
  }

  // ----- The symbolic stream -----

  /** What the symbolic bytes of a string are as real bytes. */
  function Rendered(value: Sym -> byte, s: Str): seq<byte> {
    seq(|s|, i requires 0 <= i < |s| => value(s[i]))
  }

  /** The bytes of the stream are those of the longest output the RFC allows. */
  ghost predicate RendersStream(hmac: Hmac, prk: seq<byte>, info: seq<byte>, stream: Term, value: Sym -> byte)
    requires Produces32(hmac)
  {
    forall i | 0 <= i < MAX_LEN :: value(Of(stream, i)) == Okm(hmac, prk, info, MAX_LEN)[i]
  }

  /** Then every request the RFC allows renders as the output of the loop for its length: one
      stream serves the 32-byte and the 64-byte derivations alike. */
  lemma StreamIsOkm(hmac: Hmac, prk: seq<byte>, info: seq<byte>, stream: Term, value: Sym -> byte, l: nat)
    requires Produces32(hmac) && RendersStream(hmac, prk, info, stream, value) && l <= MAX_LEN
    ensures Rendered(value, Expand(stream, l)) == Okm(hmac, prk, info, l)
  {
    OkmPrefix(hmac, prk, info, l, MAX_LEN);
    forall i | 0 <= i < l ensures Rendered(value, Expand(stream, l))[i] == Okm(hmac, prk, info, l)[i] {
      assert Okm(hmac, prk, info, l)[i] == Okm(hmac, prk, info, MAX_LEN)[i];
    }
  }
}
