/**
  The contributory check. A group of order h*q is modelled by its isomorphic copy, the
  integers modulo h*q, in which multiplying a point by a scalar is multiplication.
 */
module X25519Check {
  import opened Bytes
  import opened Arith
  import opened NumberTheory
  import BigEndian

  /** Clamping (section 5 of RFC 7748) of a 32-byte private key, in place: clear the low
      three bits, clear the top bit and set the one below it. */
  function ClampFirst(b: byte): byte { b - b % 8 }
  function ClampLast(b: byte): byte { b % 64 + 64 }

  method Clamp(sk: array<byte>)
    requires sk.Length == 32
    modifies sk
    ensures sk[..] == Clamped(old(sk[..]))
  {
    sk[0] := ClampFirst(sk[0]);
    sk[31] := ClampLast(sk[31]);
  }

  function Clamped(s: seq<byte>): (r: seq<byte>)
    requires |s| == 32
    ensures |r| == 32
  {
    s[0 := ClampFirst(s[0])][31 := ClampLast(s[31])]
  }

  lemma {:induction false} LittleAppend(s: seq<byte>, t: byte)
    ensures LittleEndian(s + [t]) == LittleEndian(s) + BigEndian.Power256(|s|) * t
  {
    if s == [] {
      assert s + [t] == [t];
    } else {
      LittleAppend(s[1..], t);
      assert (s + [t])[1..] == s[1..] + [t];
      MulAssociative(256, BigEndian.Power256(|s| - 1), t);
    }
  }

  lemma {:induction false} LittleBound(s: seq<byte>)
    ensures LittleEndian(s) < BigEndian.Power256(|s|)
  {
    if s != [] {
      LittleBound(s[1..]);
    }
  }

  const TWO_TO_248: nat := 0x1_0000_0000_0000_0000_0000_0000_0000_0000_0000_0000_0000_0000_0000_0000_0000_00

  lemma Power256Is31()
    ensures BigEndian.Power256(31) == TWO_TO_248
  {
    Power256Add(4, 4);
    Power256Add(8, 8);
    Power256Add(16, 8);
    Power256Add(24, 4);
    Power256Add(28, 3);
    BigEndian.SmallPowers();
    assert BigEndian.Power256(3) == 0x100_0000;
  }

  lemma {:induction false} Power256Add(m: nat, n: nat)
    ensures BigEndian.Power256(m + n) == BigEndian.Power256(m) * BigEndian.Power256(n)
  {
    if m > 0 {
      Power256Add(m - 1, n);
      MulAssociative(256, BigEndian.Power256(m - 1), BigEndian.Power256(n));
    }
  }

  lemma LowBitsClear(low: seq<byte>)
    requires |low| > 0 && low[0] % 8 == 0
    ensures LittleEndian(low) % 8 == 0
  {
    var rest := LittleEndian(low[1..]);
    assert LittleEndian(low) == low[0] + 8 * (32 * rest);
    Arith.ModAddMultiple(low[0], 8, 32 * rest);
  }

  lemma TopBits(low: nat, top: nat) returns (k: nat)
    requires low < TWO_TO_248 && low % 8 == 0 && 64 <= top < 128
    ensures low + TWO_TO_248 * top == 8 * k && 8 * TWO_TO_248 <= k < 16 * TWO_TO_248
  {
    k := low / 8 + TWO_TO_248 / 8 * top;
  }

  /** Every clamped scalar is 8k with 2^251 <= k < 2^252, whatever the key bytes are. */
  lemma ClampedScalar(s: seq<byte>) returns (k: nat)
    requires |s| == 32
    ensures LittleEndian(Clamped(s)) == 8 * k && 8 * TWO_TO_248 <= k < 16 * TWO_TO_248
  {
    var r := Clamped(s);
    var low := r[..31];
    assert r == low + [r[31]];
    LittleAppend(low, r[31]);
    LittleBound(low);
    Power256Is31();
    LowBitsClear(low);
    k := TopBits(LittleEndian(low), r[31]);
  }

  lemma LowBits(low: seq<byte>)
    requires |low| > 0
    ensures LittleEndian(low) % 8 == low[0] % 8
    ensures LittleEndian(low[0 := ClampFirst(low[0])]) == LittleEndian(low) - low[0] % 8
  {
    var rest := LittleEndian(low[1..]);
    assert LittleEndian(low) == low[0] + 8 * (32 * rest);
    Arith.ModAddMultiple(low[0], 8, 32 * rest);
    assert low[0 := ClampFirst(low[0])][1..] == low[1..];
  }

  lemma TopReplaced(low: nat, top: nat)
    requires low < TWO_TO_248 && top < 256
    ensures (low + TWO_TO_248 * top) % (64 * TWO_TO_248) == low + TWO_TO_248 * (top % 64)
    ensures (low + TWO_TO_248 * top) % 8 == low % 8
  {
    Arith.ModUnique(low + TWO_TO_248 * top, 64 * TWO_TO_248, top / 64, low + TWO_TO_248 * (top % 64));
    Arith.ModAddMultiple(low, 8, TWO_TO_248 / 8 * top);
  }

  lemma ClampedSplit(s: seq<byte>)
    requires |s| == 32
    ensures LittleEndian(s) == LittleEndian(s[..31]) + TWO_TO_248 * s[31]
    ensures LittleEndian(Clamped(s)) == LittleEndian(s[..31]) - s[0] % 8 + TWO_TO_248 * (s[31] % 64 + 64)
    ensures LittleEndian(s[..31]) < TWO_TO_248 && LittleEndian(s[..31]) % 8 == s[0] % 8
  {
    hide LittleEndian;
    var low := s[..31];
    var low' := low[0 := ClampFirst(s[0])];
    assert s == low + [s[31]] && Clamped(s) == low' + [ClampLast(s[31])];
    Power256Is31();
    LittleBound(low);
    LowBits(low);
    assert LittleEndian(low + [s[31]]) == LittleEndian(low) + TWO_TO_248 * s[31] by {
      LittleAppend(low, s[31]);
    }
    assert LittleEndian(low' + [ClampLast(s[31])]) == LittleEndian(low') + TWO_TO_248 * ClampLast(s[31]) by {
      LittleAppend(low', ClampLast(s[31]));
    }
  }

  /** What clamping does to the number: clear the three low bits and everything from bit 254
      on, and set bit 254 (section 5 of RFC 7748). */
  lemma ClampedValue(s: seq<byte>)
    requires |s| == 32
    ensures var n := LittleEndian(s);
            LittleEndian(Clamped(s)) == 64 * TWO_TO_248 + n % (64 * TWO_TO_248) - n % 8
  {
    hide LittleEndian, Clamped;
    ClampedSplit(s);
    TopReplaced(LittleEndian(s[..31]), s[31]);
  }

  // ----- The check -----

  /** `sk` times the point, in a cyclic group of order `order`. */
  function SharedPoint(sk: seq<byte>, point: nat, order: nat): nat
    requires |sk| == 32 && order > 0
  {
    MulNonNegative(LittleEndian(Clamped(sk)), point);
    LittleEndian(Clamped(sk)) * point % order
  }

  /** `was_contributory`: the shared point is not the identity. */
  predicate Contributory(sk: seq<byte>, point: nat, order: nat)
    requires |sk| == 32 && order > 0
  {
    SharedPoint(sk, point, order) != 0
  }

  lemma ScaleDivides(h: int, a: int, q: int)
    requires h > 0 && q > 0 && h * q > 0 && Divides(q, a)
    ensures Divides(h * q, h * a)
  {
    var k := Quotient(q, a);
    MulAssociative(h, q, k);
    DividesMultiple(h * q, k);
  }

  lemma UnscaleDivides(h: int, a: int, q: int)
    requires h > 0 && q > 0 && h * q > 0 && Divides(h * q, h * a)
    ensures Divides(q, a)
  {
    var k := Quotient(h * q, h * a);
    MulAssociative(h, q, k);
    Distribute(h, a, q * k);
    if a != q * k {
      NonzeroMultiple(h, a - q * k);
    }
    DividesMultiple(q, k);
  }

  lemma CancelFactor(h: int, a: int, q: int)
    requires h > 0 && q > 0
    ensures h * q > 0
    ensures Divides(h * q, h * a) <==> Divides(q, a)
  {
    MulNonNegative(h - 1, q);
    Distribute(q, h - 1, 1);
    if Divides(q, a) {
      ScaleDivides(h, a, q);
    }
    if Divides(h * q, h * a) {
      UnscaleDivides(h, a, q);
    }
  }

  lemma SmallNotDivisible(q: int, x: int)
    requires 0 < x < q
    ensures !Divides(q, x)
  {
    ModUnique(x, q, 0, x);
  }

  /** A factor smaller than the prime does not matter. */
  lemma UnitFactor(q: int, x: int, y: int)
    requires Prime(q) && !Divides(q, x)
    ensures Divides(q, x * y) <==> Divides(q, y)
  {
    if Divides(q, x * y) {
      Euclid(q, x, y);
    }
    if Divides(q, y) {
      DividesProduct(q, x, y);
    }
  }

  lemma EightTimes(h: nat, k: nat, point: nat)
    requires h == 1 || h == 2 || h == 4 || h == 8
    ensures 8 * k * point == h * (8 / h * (k * point))
  {
    MulAssociative(8, k, point);
    MulAssociative(h, 8 / h, k * point);
    assert h * (8 / h) == 8;
  }

  /** The check rejects exactly the points the cofactor kills, whatever the private key. */
  lemma RejectsExactlySmallOrder(sk: seq<byte>, point: nat, h: nat, q: nat)
    requires |sk| == 32
    requires h == 1 || h == 2 || h == 4 || h == 8
    requires Prime(q) && q > 16 * TWO_TO_248
    ensures h * q > 0
    ensures !Contributory(sk, point, h * q) <==> Divides(h * q, h * point)
  {
    var k := ClampedScalar(sk);
    var c := 8 / h;
    EightTimes(h, k, point);
    CancelFactor(h, c * (k * point), q);
    SmallNotDivisible(q, c);
    UnitFactor(q, c, k * point);
    SmallNotDivisible(q, k);
    UnitFactor(q, k, point);
    CancelFactor(h, point, q);
  }

  /** Two parties never disagree about a point. */
  lemma VerdictIgnoresTheKey(sk: seq<byte>, sk': seq<byte>, point: nat, h: nat, q: nat)
    requires |sk| == 32 && |sk'| == 32
    requires h == 1 || h == 2 || h == 4 || h == 8
    requires Prime(q) && q > 16 * TWO_TO_248
    ensures h * q > 0 && (Contributory(sk, point, h * q) <==> Contributory(sk', point, h * q))
  {
    RejectsExactlySmallOrder(sk, point, h, q);
    RejectsExactlySmallOrder(sk', point, h, q);
  }
}
