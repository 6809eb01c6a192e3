/** Powers, congruences and primes. */
module NumberTheory {
  import opened Arith

  function Pow(b: int, e: nat): int {
    if e == 0 then 1 else b * Pow(b, e - 1)
  }

  lemma {:induction false} PowNonNegative(b: int, e: nat)
    requires b >= 0
    ensures Pow(b, e) >= 0
  {
    if e > 0 {
      PowNonNegative(b, e - 1);
      MulNonNegative(b, Pow(b, e - 1));
    }
  }

  lemma {:induction false} PowAdd(b: int, d: nat, e: nat)
    ensures Pow(b, d + e) == Pow(b, d) * Pow(b, e)
  {
    if d > 0 {
      PowAdd(b, d - 1, e);
      MulAssociative(b, Pow(b, d - 1), Pow(b, e));
    }
  }

  lemma MulAssociative(a: int, b: int, c: int)
    ensures (a * b) * c == a * (b * c)
  {
  }

  lemma {:induction false} PowMul(b: int, d: nat, e: nat)
    ensures d * e >= 0 && Pow(b, d * e) == Pow(Pow(b, d), e)
  {
    MulNonNegative(d, e);
    if e > 0 {
      PowMul(b, d, e - 1);
      Distribute(d, e, 1);
      PowAdd(b, d, d * (e - 1));
    }
  }

  lemma {:induction false} PowOfProduct(a: int, b: int, e: nat)
    ensures Pow(a * b, e) == Pow(a, e) * Pow(b, e)
  {
    if e > 0 {
      PowOfProduct(a, b, e - 1);
      ProductOfProducts(a, b, Pow(a, e - 1), Pow(b, e - 1));
    }
  }

  lemma ProductOfProducts(a: int, b: int, c: int, d: int)
    ensures (a * b) * (c * d) == (a * c) * (b * d)
  {
    MulAssociative(a, b, c * d);
    MulAssociative(b, c, d);
    MulAssociative(c, b, d);
    MulAssociative(a, c, b * d);
  }

  // ----- Congruence -----

  predicate Congruent(a: int, b: int, n: int)
    requires n > 0
  {
    a % n == b % n
  }

  lemma ModCongruent(a: int, n: int)
    requires n > 0
    ensures Congruent(a % n, a, n)
  {
    ModUnique(a % n, n, 0, a % n);
  }

  /** Congruent numbers differ by a multiple. */
  lemma Difference(a: int, b: int, n: int) returns (k: int)
    requires n > 0 && Congruent(a, b, n)
    ensures a == b + n * k
  {
    k := a / n - b / n;
    Distribute(n, a / n, b / n);
  }

  lemma MultipleCongruent(a: int, b: int, k: int, n: int)
    requires n > 0 && a == b + n * k
    ensures Congruent(a, b, n)
  {
    ModAddMultiple(b, n, k);
  }

  lemma AddCongruent(a: int, a': int, b: int, b': int, n: int)
    requires n > 0 && Congruent(a, a', n) && Congruent(b, b', n)
    ensures Congruent(a + b, a' + b', n) && Congruent(a - b, a' - b', n)
  {
    var j := Difference(a, a', n);
    var k := Difference(b, b', n);
    Distribute(n, j, k);
    MultipleCongruent(a + b, a' + b', j + k, n);
    MultipleCongruent(a - b, a' - b', j - k, n);
  }

  lemma MulCongruent(a: int, a': int, b: int, b': int, n: int)
    requires n > 0 && Congruent(a, a', n) && Congruent(b, b', n)
    ensures Congruent(a * b, a' * b', n)
  {
    var j := Difference(a, a', n);
    var k := Difference(b, b', n);
    var m := j * b + a' * k;
    calc {
      a * b;
      (a' + n * j) * b;
      { Distribute(b, a', n * j); }
      a' * b + (n * j) * b;
      a' * (b' + n * k) + (n * j) * b;
      { Distribute(a', b', n * k); MulAssociative(n, j, b); MulAssociative(n, a', k); MulAssociative(a', n, k); }
      a' * b' + n * (a' * k) + n * (j * b);
      { Distribute(n, j * b, a' * k); }
      a' * b' + n * m;
    }
    ModAddMultiple(a' * b', n, m);
  }

  lemma {:induction false} PowCongruent(a: int, a': int, e: nat, n: int)
    requires n > 0 && Congruent(a, a', n)
    ensures Congruent(Pow(a, e), Pow(a', e), n)
  {
    if e > 0 {
      PowCongruent(a, a', e - 1, n);
      MulCongruent(a, a', Pow(a, e - 1), Pow(a', e - 1), n);
    }
  }

  // ----- Primes -----

  predicate Divides(d: int, n: int)
    requires d > 0
  {
    n % d == 0
  }

  ghost predicate Prime(p: int) {
    p >= 2 && forall d | 1 < d < p :: !Divides(d, p)
  }

  lemma DividesMultiple(d: int, k: int)
    requires d > 0
    ensures Divides(d, d * k)
  {
    ModUnique(d * k, d, k, 0);
  }

  lemma Quotient(d: int, n: int) returns (k: int)
    requires d > 0 && Divides(d, n)
    ensures n == d * k
  {
    k := n / d;
  }

  lemma DividesProduct(d: int, x: int, y: int)
    requires d > 0 && Divides(d, y)
    ensures Divides(d, x * y)
  {
    var k := Quotient(d, y);
    MulAssociative(d, k, x);
    assert x * y == d * (k * x);
    DividesMultiple(d, k * x);
  }

  /** The remainders of `p` walk down to 1. */
  lemma {:induction false} EuclidBelow(p: int, x: int, b: int)
    requires Prime(p) && 0 < x < p && Divides(p, x * b)
    ensures Divides(p, b)
    decreases x
  {
    if x > 1 {
      assert !Divides(x, p);
      var q, r := p / x, p % x;
      var k := (x * b) / p;
      calc {
        r * b;
        (p - x * q) * b;
        { Distribute(b, p, x * q); }
        p * b - (x * q) * b;
        { MulAssociative(x, q, b); MulAssociative(q, x, b); MulAssociative(x, b, q); }
        p * b - q * (x * b);
        p * b - q * (p * k);
        { MulAssociative(q, p, k); MulAssociative(p, q, k); }
        p * b - p * (q * k);
        { Distribute(p, b, q * k); }
        p * (b - q * k);
      }
      DividesMultiple(p, b - q * k);
      EuclidBelow(p, r, b);
    }
  }

  /** A prime that divides a product divides one of its factors. */
  lemma Euclid(p: int, a: int, b: int)
    requires Prime(p) && Divides(p, a * b)
    ensures Divides(p, a) || Divides(p, b)
  {
    if !Divides(p, a) {
      ModCongruent(a, p);
      MulCongruent(a % p, a, b, b, p);
      EuclidBelow(p, a % p, b);
    }
  }

  lemma {:induction false} PrimeDividesPower(p: int, b: int, e: nat)
    requires Prime(p) && Divides(p, Pow(b, e))
    ensures Divides(p, b)
  {
    if e == 0 {
      ModUnique(1, p, 0, 1);
    } else if !Divides(p, b) {
      Euclid(p, b, Pow(b, e - 1));
      PrimeDividesPower(p, b, e - 1);
    }
  }

  // ----- Square and multiply -----

  lemma HalveExponent(b: int, e: nat, r: int, n: int)
    requires n > 0 && e > 0
    ensures Congruent(r * Pow(b, e), (if e % 2 == 1 then r * b % n else r) * Pow(b * b % n, e / 2), n)
  {
    var h := e / 2;
    var s := b * b % n;
    var r' := if e % 2 == 1 then r * b % n else r;
    var r'' := if e % 2 == 1 then r * b else r;
    ModCongruent(b * b, n);
    PowCongruent(s, b * b, h, n);
    ModCongruent(r * b, n);
    MulCongruent(r', r'', Pow(s, h), Pow(b * b, h), n);
    PowOfProduct(b, b, h);
    PowAdd(b, h, h);
    if e % 2 == 1 {
      assert Pow(b, e) == b * Pow(b, h + h);
      MulAssociative(r, b, Pow(b, h + h));
    } else {
      assert e == h + h;
    }
  }

  /** Modular exponentiation by repeated squaring. */
  method ModPow(base: nat, exponent: nat, n: nat) returns (r: nat)
    requires n > 0
    ensures r == Pow(base, exponent) % n
  {
    var b, e := base % n, exponent;
    r := 1 % n;
    ModCongruent(base, n);
    PowCongruent(b, base, e, n);
    ModCongruent(1, n);
    MulCongruent(r, 1, Pow(b, e), Pow(base, exponent), n);
    while e > 0
      invariant 0 <= r < n
      invariant Congruent(r * Pow(b, e), Pow(base, exponent), n)
    {
      HalveExponent(b, e, r, n);
      if e % 2 == 1 {
        r := r * b % n;
      }
      b, e := b * b % n, e / 2;
    }
    ModUnique(r, n, 0, r);
  }
}
