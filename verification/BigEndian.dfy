/** Big-endian conversion between byte strings and naturals. */
module BigEndian {
  import opened Bytes
  import Arith

  /** 256 to the power `k`. */
  function Power256(k: nat): (p: nat)
    ensures p >= 1
  {
    if k == 0 then 1 else 256 * Power256(k - 1)
  }

  /** The value of a byte string, most significant byte first. */
  function Value(s: seq<byte>): nat {
    if s == [] then 0 else 256 * Value(s[..|s| - 1]) + s[|s| - 1]
  }

  /** The low `k` bytes of `n`, most significant first: `to_be_bytes` of a `k`-byte integer
      that `n` was cast to. */
  function Fixed(n: nat, k: nat): (s: seq<byte>)
    ensures |s| == k
  {
    if k == 0 then [] else Fixed(n / 256, k - 1) + [n % 256]
  }

  lemma ModStep(n: nat, p: nat)
    requires p >= 1
    ensures n % (256 * p) == 256 * (n / 256 % p) + n % 256
  {
    var q, d := n / 256 / p, n / 256 % p;
    assert n / 256 == p * q + d;
    var r := 256 * d + n % 256;
    assert n == (256 * p) * q + r;
    assert 0 <= r < 256 * p;
    Arith.ModUnique(n, 256 * p, q, r);
  }

  lemma {:induction false} ValueOfFixed(n: nat, k: nat)
    ensures Value(Fixed(n, k)) == n % Power256(k)
  {
    if k > 0 {
      ValueOfFixed(n / 256, k - 1);
      assert Fixed(n, k)[..k - 1] == Fixed(n / 256, k - 1);
      ModStep(n, Power256(k - 1));
    }
  }

  lemma {:induction false} FixedOfMod(n: nat, k: nat)
    ensures Fixed(n % Power256(k), k) == Fixed(n, k)
  {
    if k > 0 {
      var p := Power256(k - 1);
      ModStep(n, p);
      var m := n % (256 * p);
      assert m / 256 == n / 256 % p && m % 256 == n % 256;
      FixedOfMod(n / 256, k - 1);
    }
  }

  /** Two integers have the same low bytes exactly when they agree modulo 256^k. */
  lemma FixedEqualIff(m: nat, n: nat, k: nat)
    ensures Fixed(m, k) == Fixed(n, k) <==> m % Power256(k) == n % Power256(k)
  {
    ValueOfFixed(m, k);
    ValueOfFixed(n, k);
    FixedOfMod(m, k);
    FixedOfMod(n, k);
  }

  /** The most significant byte comes first. */
  lemma {:induction false} ValueOfFirst(s: seq<byte>)
    requires s != []
    ensures Value(s) == s[0] * Power256(|s| - 1) + Value(s[1..])
  {
    if |s| > 1 {
      var front := s[..|s| - 1];
      ValueOfFirst(front);
      assert front[1..] == s[1..][..|s| - 2] && s[1..][|s| - 2] == s[|s| - 1];
      Scaled(s[0], Power256(|s| - 2), Value(front[1..]));
    }
  }

  lemma Scaled(a: nat, p: nat, b: nat)
    ensures 256 * (a * p + b) == a * (256 * p) + 256 * b
  {
  }

  lemma SmallPowers()
    ensures Power256(2) == 0x1_0000 && Power256(4) == 0x1_0000_0000
  {
    assert Power256(1) == 256;
    assert Power256(2) == 0x1_0000;
    assert Power256(3) == 0x100_0000;
  }

  lemma {:induction false} FixedOfZero(k: nat)
    ensures Fixed(0, k) == seq(k, _ => 0)
  {
    if k > 0 {
      FixedOfZero(k - 1);
    }
  }

  lemma TwoBytes(n: nat)
    ensures Fixed(n, 2) == [n / 0x100 % 0x100, n % 0x100]
  {
    assert Fixed(n / 0x100, 1) == Fixed(n / 0x100 / 0x100, 0) + [n / 0x100 % 0x100];
  }

  lemma FourBytes(n: nat)
    requires n < 0x1_0000_0000
    ensures Fixed(n, 4) == [n / 0x100_0000, n / 0x1_0000 % 0x100, n / 0x100 % 0x100, n % 0x100]
  {
    TwoBytes(n / 0x1_0000);
    assert Fixed(n, 4) == Fixed(n / 0x100, 3) + [n % 0x100];
    assert Fixed(n / 0x100, 3) == Fixed(n / 0x100 / 0x100, 2) + [n / 0x100 % 0x100];
    assert n / 0x100 / 0x100 == n / 0x1_0000 && n / 0x1_0000 / 0x100 == n / 0x100_0000;
  }

  /** Shortest big-endian form of a natural; zero is one zero byte. */
  function Minimal(n: nat): (s: seq<byte>)
    ensures s != []
  {
    if n < 256 then [n] else Minimal(n / 256) + [n % 256]
  }

  lemma {:induction false} ValueOfMinimal(n: nat)
    ensures Value(Minimal(n)) == n
  {
    if n < 256 {
      assert Minimal(n)[..0] == [];
    } else {
      ValueOfMinimal(n / 256);
      assert Minimal(n)[..|Minimal(n)| - 1] == Minimal(n / 256);
    }
  }

  /** No shorter string has the value: there is no leading zero byte, except for zero itself. */
  lemma {:induction false} MinimalIsShortest(n: nat)
    ensures n > 0 ==> Minimal(n)[0] != 0
    ensures n == 0 ==> Minimal(n) == [0]
  {
    if n >= 256 {
      MinimalIsShortest(n / 256);
    }
  }

  predicate AllZero(s: seq<byte>) {
    forall i | 0 <= i < |s| :: s[i] == 0
  }

  /** Bytes are all zero exactly when the integer is, for strings of any length. */
  lemma {:induction false} AllZeroIff(s: seq<byte>)
    ensures AllZero(s) <==> Value(s) == 0
  {
    if s != [] {
      var front := s[..|s| - 1];
      AllZeroIff(front);
      assert forall i | 0 <= i < |front| :: front[i] == s[i];
    }
  }

  method IsAllZero(s: seq<byte>) returns (r: bool)
    ensures r <==> Value(s) == 0
  {
    AllZeroIff(s);
    for i := 0 to |s|
      invariant forall j | 0 <= j < i :: s[j] == 0
    {
      if s[i] != 0 {
        return false;
      }
    }
    return true;
  }
}
