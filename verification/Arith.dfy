/** Elementary facts about products and remainders. */
module Arith {

  lemma MulNonNegative(a: int, b: int)
    requires a >= 0 && b >= 0
    ensures a * b >= 0
  {
  }

  lemma Distribute(a: int, b: int, c: int)
    ensures a * (b + c) == a * b + a * c && a * (b - c) == a * b - a * c
  {
  }

  lemma NonzeroMultiple(m: int, d: int)
    requires m >= 0 && d != 0
    ensures m * d >= m || m * d <= 0 - m
  {
    if d >= 1 {
      MulNonNegative(m, d - 1);
      Distribute(m, d, 1);
    } else {
      MulNonNegative(m, -d - 1);
      Distribute(m, -d, 1);
      assert m * -d == 0 - m * d;
    }
  }

  /** Quotient and remainder are unique. */
  lemma ModUnique(n: int, m: int, q: int, r: int)
    requires 0 <= r < m && n == m * q + r
    ensures n % m == r && n / m == q
  {
    var q', r' := n / m, n % m;
    assert n == m * q' + r';
    Distribute(m, q, q');
    if q != q' {
      NonzeroMultiple(m, q - q');
    }
  }

  lemma ModAddMultiple(n: int, m: int, k: int)
    requires m > 0
    ensures (n + m * k) % m == n % m
  {
    Distribute(m, n / m, k);
    ModUnique(n + m * k, m, n / m + k, n % m);
  }

  lemma EqualRemainders(a: int, b: int, m: int)
    requires m > 0 && a % m == b % m
    ensures (b - a) % m == 0
  {
    Distribute(m, b / m, a / m);
    ModUnique(b - a, m, b / m - a / m, 0);
  }

  /** Congruence is divisibility of the difference. */
  lemma CongruentIff(a: int, b: int, m: int)
    requires m > 0
    ensures a % m == b % m <==> (b - a) % m == 0
  {
    if (b - a) % m == 0 {
      var k := (b - a) / m;
      assert b == a + m * k;
      ModAddMultiple(a, m, k);
    }
    if a % m == b % m {
      EqualRemainders(a, b, m);
    }
  }
}
