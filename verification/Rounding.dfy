/** Rounding to multiples. */
module Rounding {
  /** The least multiple of `n` that is not below `x`. */
  function RoundUp(x: nat, n: nat): nat
    requires n >= 1
  {
    (x + n - 1) / n * n
  }

  function RoundDown(x: int, n: nat): int
    requires n >= 1
  {
    x / n * n
  }

  lemma Grows(k: int, n: nat)
    ensures k >= 1 ==> k * n >= n
    ensures k <= -1 ==> k * n + n <= 0
  {
  }

  lemma NothingBetween(k: int, n: nat, r: nat)
    requires k * n == r < n
    ensures k == 0
  {
    Grows(k, n);
  }

  lemma MultipleOf(q: int, n: nat)
    requires n >= 1
    ensures q * n % n == 0 && q * n / n == q
  {
    var d, r := q * n / n, q * n % n;
    assert q * n == d * n + r;
    NothingBetween(q - d, n, r);
  }

  lemma MultipleIs(x: int, n: nat)
    requires n >= 1 && x % n == 0
    ensures x == x / n * n
  {
  }

  lemma MultiplesAdd(x: int, y: int, n: nat)
    requires n >= 1 && x % n == 0 && y % n == 0
    ensures (x + y) % n == 0 && (x - y) % n == 0
  {
    MultipleIs(x, n);
    MultipleIs(y, n);
    MultipleOf(x / n + y / n, n);
    MultipleOf(x / n - y / n, n);
    assert (x / n + y / n) * n == x + y;
    assert (x / n - y / n) * n == x - y;
  }

  /** Multiples are the same or `n` apart. */
  lemma MultiplesApart(x: int, y: int, n: nat)
    requires n >= 1 && x % n == 0 && y % n == 0 && x < y + n
    ensures x <= y
  {
    MultipleIs(x, n);
    MultipleIs(y, n);
    var k := x / n - y / n;
    assert k * n == x - y;
    Grows(k, n);
  }

  lemma MultipleOfMultiple(x: int, n: nat, m: nat)
    requires n >= 1 && m >= 1 && m % n == 0 && x % m == 0
    ensures x % n == 0
  {
    MultipleIs(x, m);
    MultipleIs(m, n);
    MultipleOf(x / m * (m / n), n);
    assert x / m * (m / n) * n == x / m * (m / n * n);
  }

  lemma RoundUpIs(x: nat, n: nat)
    requires n >= 1
    ensures RoundUp(x, n) % n == 0 && x <= RoundUp(x, n) < x + n
  {
    var q := (x + n - 1) / n;
    assert x + n - 1 == q * n + (x + n - 1) % n;
    MultipleOf(q, n);
  }

  lemma RoundDownIs(x: int, n: nat)
    requires n >= 1
    ensures RoundDown(x, n) % n == 0 && RoundDown(x, n) <= x < RoundDown(x, n) + n
  {
    assert x == x / n * n + x % n;
    MultipleOf(x / n, n);
  }

  /** Below a multiple, rounding up or down changes nothing. */
  lemma RoundUpFits(x: nat, n: nat, limit: int)
    requires n >= 1 && limit % n == 0
    ensures x <= limit <==> RoundUp(x, n) <= limit
  {
    RoundUpIs(x, n);
    if x <= limit {
      MultiplesApart(RoundUp(x, n), limit, n);
    }
  }

  lemma RoundUpPlus(x: nat, k: nat, n: nat)
    requires n >= 1 && k % n == 0
    ensures RoundUp(x + k, n) == RoundUp(x, n) + k
  {
    hide RoundUp;
    RoundUpIs(x, n);
    RoundUpIs(x + k, n);
    MultiplesAdd(RoundUp(x, n), k, n);
    MultiplesApart(RoundUp(x + k, n), RoundUp(x, n) + k, n);
    MultiplesApart(RoundUp(x, n) + k, RoundUp(x + k, n), n);
  }

  /** Rounding to pages first does not change the rounding to zones. */
  lemma RoundUpTwice(x: nat, n: nat, m: nat)
    requires n >= 1 && m >= 1 && m % n == 0
    ensures RoundUp(RoundUp(x, n), m) == RoundUp(x, m) && RoundUp(x, n) <= RoundUp(x, m)
  {
    hide RoundUp;
    RoundUpIs(x, m);
    RoundUpIs(x, n);
    RoundUpIs(RoundUp(x, n), m);
    MultipleOfMultiple(RoundUp(x, m), n, m);
    RoundUpFits(x, n, RoundUp(x, m));
    RoundUpFits(RoundUp(x, n), m, RoundUp(x, m));
    RoundUpFits(x, m, RoundUp(RoundUp(x, n), m));
  }

  lemma RoundDownBelow(x: nat, n: nat, limit: int)
    requires n >= 1 && limit % n == 0
    ensures RoundDown(limit - x, n) == limit - RoundUp(x, n)
  {
    hide RoundUp, RoundDown;
    RoundUpIs(x, n);
    RoundDownIs(limit - x, n);
    MultiplesAdd(limit, RoundUp(x, n), n);
    MultiplesApart(RoundDown(limit - x, n), limit - RoundUp(x, n), n);
    MultiplesApart(limit - RoundUp(x, n), RoundDown(limit - x, n), n);
  }
}
