/** Powers of two and the integer arithmetic the barriers do with them. */
module Powers {

  function Pow2(k: nat): (r: nat)
    ensures r > 0
  {
    if k == 0 then 1 else 2 * Pow2(k - 1)
  }

  /** ceil(log2(n)). */
  function CeilLog2(n: nat): nat
    requires n > 0
  {
    if n == 1 then 0 else 1 + CeilLog2((n + 1) / 2)
  }

  /** It is the least r with n <= 2^r. */
  lemma {:induction false} CeilLog2Spec(n: nat)
    requires n > 0
    ensures n <= Pow2(CeilLog2(n))
    ensures CeilLog2(n) > 0 ==> Pow2(CeilLog2(n) - 1) < n
  {
    if n > 1 {
      CeilLog2Spec((n + 1) / 2);
    }
  }

  lemma {:induction false} Pow2Monotone(a: nat, b: nat)
    requires a <= b
    ensures Pow2(a) <= Pow2(b)
    decreases b
  {
    if a < b {
      Pow2Monotone(a, b - 1);
    }
  }

  lemma {:induction false} Pow2Reflects(a: nat, b: nat)
    requires Pow2(a) < Pow2(b)
    ensures a < b
  {
    if b > 0 && a > 0 {
      Pow2Reflects(a - 1, b - 1);
    }
  }

  lemma MulMonotone(a: int, b: int, n: int)
    requires a <= b && n >= 0
    ensures a * n <= b * n
  {
  }

  /** The quotient and remainder are determined by the range of the remainder. */
  lemma DivModUnique(x: int, n: int, k: int, r: int)
    requires n > 0 && x == k * n + r && 0 <= r < n
    ensures x / n == k && x % n == r
  {
    var q := x / n;
    assert x == q * n + x % n;
    assert (k + 1) * n == k * n + n && (q + 1) * n == q * n + n;
    if q > k {
      MulMonotone(k + 1, q, n);
    } else if q < k {
      MulMonotone(q + 1, k, n);
    }
  }

  /** Reduction modulo n of a number below 2n. */
  lemma ModOnce(x: nat, n: nat)
    requires n > 0 && x < 2 * n
    ensures x % n == if x < n then x else x - n
  {
    if x < n {
      DivModUnique(x, n, 0, x);
    } else {
      DivModUnique(x, n, 1, x - n);
    }
  }

  lemma HalveMod(x: nat, h: nat)
    requires h > 0
    ensures x % (2 * h) == 2 * ((x / 2) % h) + x % 2
  {
    var q, m := (x / 2) / h, (x / 2) % h;
    assert x / 2 == q * h + m;
    assert q * (2 * h) == 2 * (q * h);
    DivModUnique(x, 2 * h, q, 2 * m + x % 2);
  }
}
