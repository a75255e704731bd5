/** Java's bitwise operators on non-negative `int` values, defined bit by bit
    over `nat`, with the facts the chunk index formula needs. */
module JavaBits {

  function Pow2(n: nat): (p: nat)
    ensures p >= 1
  {
    if n == 0 then 1 else 2 * Pow2(n - 1)
  }

  /** `a & b`. */
  function And(a: nat, b: nat): nat
    decreases a
  {
    if a == 0 || b == 0 then 0
    else 2 * And(a / 2, b / 2) + (if a % 2 == 1 && b % 2 == 1 then 1 else 0)
  }

  /** `a | b`. */
  function Or(a: nat, b: nat): nat
    decreases a + b
  {
    if a == 0 then b
    else if b == 0 then a
    else 2 * Or(a / 2, b / 2) + (if a % 2 == 1 || b % 2 == 1 then 1 else 0)
  }

  /** `a << n` (no bit is lost for the values the model shifts). */
  function Shl(a: nat, n: nat): nat
  {
    a * Pow2(n)
  }

  /** `a >> n`, one bit at a time. */
  function Shr(a: nat, n: nat): nat
  {
    if n == 0 then a else Shr(a / 2, n - 1)
  }

  /** Masking with 2^k - 1 keeps the value modulo 2^k. */
  lemma {:induction false} AndLowMask(a: nat, k: nat)
    ensures And(a, Pow2(k) - 1) == a % Pow2(k)
  {
    if k == 0 {
    } else if a == 0 {
    } else {
      var m := Pow2(k) - 1;
      assert m == 2 * (Pow2(k - 1) - 1) + 1;
      assert m / 2 == Pow2(k - 1) - 1 && m % 2 == 1;
      assert And(a, m) == 2 * And(a / 2, m / 2) + a % 2;
      AndLowMask(a / 2, k - 1);
      DivModPow2(a, k);
    }
  }

  /** a mod 2^k in terms of a/2 mod 2^(k-1). */
  lemma {:induction false} DivModPow2(a: nat, k: nat)
    requires k >= 1
    ensures a % Pow2(k) == 2 * ((a / 2) % Pow2(k - 1)) + a % 2
  {
    var p := Pow2(k - 1);
    var h := a / 2;
    var q, r := h / p, h % p;
    assert a == 2 * h + a % 2;
    assert h == q * p + r;
    assert a == q * (2 * p) + (2 * r + a % 2);
    assert 0 <= 2 * r + a % 2 < 2 * p;
    DivModUnique(a, 2 * p, q, 2 * r + a % 2);
  }

  lemma DivModUnique(a: int, n: int, q: int, r: int)
    requires n > 0 && 0 <= r < n && a == q * n + r
    ensures a % n == r && a / n == q
  {
    if a / n > q {
      assert a >= (q + 1) * n by {
        assert a / n >= q + 1;
        assert a == (a / n) * n + a % n;
        MulMonotone(q + 1, a / n, n);
      }
    } else if a / n < q {
      assert a / n <= q - 1;
      assert a == (a / n) * n + a % n;
      MulMonotone(a / n, q - 1, n);
    }
  }

  lemma MulMonotone(a: int, b: int, n: int)
    requires a <= b && n > 0
    ensures a * n <= b * n
  {
    assert b * n - a * n == (b - a) * n;
  }

  lemma {:induction false} OrZero(a: nat)
    ensures Or(a, 0) == a && Or(0, a) == a
  {
  }

  /** Or-ing a value shifted left by k with one below 2^k is addition: the bits
      do not overlap. */
  lemma {:induction false} OrDisjoint(a: nat, k: nat, b: nat)
    requires b < Pow2(k)
    ensures Or(a * Pow2(k), b) == a * Pow2(k) + b
    decreases k
  {
    if k == 0 {
      assert b == 0;
      OrZero(a * Pow2(k));
    } else if a == 0 || b == 0 {
      OrZero(a * Pow2(k));
    } else {
      var hi := a * Pow2(k);
      assert hi == 2 * (a * Pow2(k - 1));
      assert hi / 2 == a * Pow2(k - 1) && hi % 2 == 0;
      OrDisjoint(a, k - 1, b / 2);
    }
  }
}
