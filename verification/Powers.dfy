/** Powers of two and the lengths of binary numbers. */
module Powers {
  function Pow2(k: nat): (p: nat)
    ensures p >= 1
  {
    if k == 0 then 1 else 2 * Pow2(k - 1)
  }

  lemma PowDoubles(k: nat)
    ensures Pow2(k + 1) == 2 * Pow2(k)
  {
  }

  function BitLength(n: nat): nat {
    if n == 0 then 0 else 1 + BitLength(n / 2)
  }

  lemma {:induction false} BitLengthBounds(n: nat)
    ensures n < Pow2(BitLength(n))
    ensures n > 0 ==> Pow2(BitLength(n) - 1) <= n
  {
    if n > 0 {
      BitLengthBounds(n / 2);
    }
  }

  lemma DoubleMod(x: nat, y: nat)
    requires y >= 1
    ensures (2 * x) % (2 * y) == 2 * (x % y)
  {
    var q, r := x / y, x % y;
    assert 2 * x == (2 * y) * q + 2 * r;
    ModIs(2 * x, 2 * y, q, 2 * r);
  }

  /** Division is what one can write the number as. */
  lemma ModIs(a: nat, b: nat, q: nat, r: nat)
    requires 0 <= r < b && a == b * q + r
    ensures a % b == r && a / b == q
  {
    var p, s := a / b, a % b;
    assert a == b * p + s;
    if p < q {
      assert b * q == b * p + b * (q - p);
      Grows(b, q - p);
    } else if p > q {
      assert b * p == b * q + b * (p - q);
      Grows(b, p - q);
    }
  }

  lemma ModAtMost(n: nat, p: nat)
    requires p >= 1
    ensures n % p <= n
  {
    if n < p {
      ModIs(n, p, 0, n);
    }
  }

  lemma Grows(b: nat, k: nat)
    requires k >= 1
    ensures b * k >= b
  {
  }

  lemma {:induction false} Pow2Adds(a: nat, b: nat)
    ensures Pow2(a + b) == Pow2(a) * Pow2(b)
  {
    if a > 0 {
      Pow2Adds(a - 1, b);
    }
  }

  lemma {:induction false} Pow2Monotone(a: nat, b: nat)
    requires a <= b
    ensures Pow2(a) <= Pow2(b)
  {
    if a < b {
      Pow2Monotone(a, b - 1);
    }
  }
}
