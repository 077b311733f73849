/** Division, remainder and powers of two: the small facts the index arithmetic rests on. */
module Arith {

  function Pow2(k: nat): (p: nat)
    ensures p > 0
  {
    if k == 0 then 1 else 2 * Pow2(k - 1)
  }

  function Min(a: int, b: int): int {
    if a < b then a else b
  }

  function Max(a: int, b: int): int {
    if a < b then b else a
  }

  lemma MulMono(a: int, b: int, d: int)
    requires a <= b && 0 <= d
    ensures a * d <= b * d
  {
  }

  lemma MulSucc(a: int, d: int)
    ensures (a + 1) * d == a * d + d
  {
  }

  lemma MulAssoc(a: int, b: int, c: int)
    ensures a * b * c == a * (b * c)
  {
  }

  lemma DivModParts(n: int, d: int)
    requires 0 < d
    ensures n == n / d * d + n % d
    ensures 0 <= n % d < d
    ensures 0 <= n ==> 0 <= n / d
  {
  }

  /** Quotient and remainder of a number given as q * d + r. */
  lemma DivModUnique(q: int, r: int, d: int)
    requires 0 <= r < d
    ensures (q * d + r) / d == q
    ensures (q * d + r) % d == r
  {
    var n := q * d + r;
    DivModParts(n, d);
    var e := n / d - q;
    assert e * d == r - n % d;
    if e >= 1 {
      MulMono(1, e, d);
    } else if e <= -1 {
      MulMono(e, -1, d);
    }
  }

  /** A two-digit number with digits below n and d is below n * d. */
  lemma PairBound(q: int, r: int, n: int, d: int)
    requires 0 <= q < n && 0 <= r < d
    ensures 0 <= q * d + r < n * d
  {
    MulMono(q + 1, n, d);
    MulMono(0, q, d);
  }

  lemma DivBelow(v: int, n: int, d: int)
    requires 0 <= v < n * d && 0 < d
    ensures 0 <= v / d < n
  {
    DivModParts(v, d);
    if v / d >= n {
      MulMono(n, v / d, d);
    }
  }

  /** Counting on modulo n is counting on. */
  lemma ModSucc(i: int, n: int)
    requires 0 < n
    ensures (i % n + 1) % n == (i + 1) % n
  {
    DivModParts(i, n);
    var q, r := i / n, i % n;
    MulSucc(q, n);
    if r + 1 == n {
      DivModUnique(q + 1, 0, n);
      DivModUnique(1, 0, n);
    } else {
      DivModUnique(q, r + 1, n);
      DivModUnique(0, r + 1, n);
    }
  }

  lemma ModPeriod(i: int, n: int)
    requires 0 < n
    ensures (i + n) % n == i % n
  {
    DivModParts(i, n);
    MulSucc(i / n, n);
    DivModUnique(i / n + 1, i % n, n);
  }

  /** The digits of the next number. */
  lemma DivModSucc(i: nat, n: nat)
    requires 0 < n
    ensures i % n + 1 == n ==> (i + 1) / n == i / n + 1 && (i + 1) % n == 0
    ensures i % n + 1 != n ==> (i + 1) / n == i / n && (i + 1) % n == i % n + 1
  {
    DivModParts(i, n);
    var q, r := i / n, i % n;
    if r + 1 == n {
      assert i + 1 == (q + 1) * n + 0;
      DivModUnique(q + 1, 0, n);
    } else {
      assert i + 1 == q * n + (r + 1);
      DivModUnique(q, r + 1, n);
    }
  }

  /** Dividing twice is dividing by the product. */
  lemma DivDiv(n: nat, a: nat, b: nat)
    requires 0 < a && 0 < b
    ensures 0 < a * b && n / (a * b) == n / a / b
  {
    DivModParts(n, a);
    DivModParts(n / a, b);
    MulMono(1, a, b);
    PairBound(n / a % b, n % a, b, a);
    MulAssoc(n / a / b, b, a);
    assert n == n / a / b * (a * b) + (n / a % b * a + n % a);
    DivModUnique(n / a / b, n / a % b * a + n % a, a * b);
  }

  lemma ProductNat(a: nat, b: nat, c: nat)
    ensures 0 <= a * b * c
  {
    MulMono(0, a, b);
    MulMono(0, a * b, c);
  }

  lemma DivMono(a: int, b: int, d: int)
    requires a <= b && 0 < d
    ensures a / d <= b / d
  {
    DivModParts(a, d);
    DivModParts(b, d);
    if a / d > b / d {
      MulMono(b / d + 1, a / d, d);
      MulSucc(b / d, d);
    }
  }

  lemma {:induction false} Pow2Add(a: nat, b: nat)
    ensures Pow2(a + b) == Pow2(a) * Pow2(b)
    decreases b
  {
    if b == 0 {
    } else {
      Pow2Add(a, b - 1);
      assert Pow2(a + b) == 2 * Pow2(a + (b - 1)) && Pow2(b) == 2 * Pow2(b - 1);
      hide Pow2;
      MulTwice(Pow2(a), Pow2(b - 1));
    }
  }

  lemma MulTwice(x: int, y: int)
    ensures x * (2 * y) == 2 * (x * y)
  {
  }

  lemma Pow2Mono(a: nat, b: nat)
    requires a <= b
    ensures Pow2(a) <= Pow2(b)
    decreases b
  {
    if a < b {
      Pow2Mono(a, b - 1);
    }
  }
}
