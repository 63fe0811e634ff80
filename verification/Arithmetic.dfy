/**
 Integer facts shared by the models: ceiling division as `cdiv` defines it, quotients and remainders of products, and
 products of block counts and lengths. The solver does not find facts about products reliably, so each one that a
 model needs is stated here once.
 */
module Arithmetic {

  /** `cdiv` of the source. */
  function CeilDiv(a: int, b: int): int
    requires b > 0
  {
    -((-a) / b)
  }

  /** It is the least q with a <= q * b. */
  lemma CeilDivBounds(a: int, b: int)
    requires b > 0
    ensures (CeilDiv(a, b) - 1) * b < a <= CeilDiv(a, b) * b
  {
    var q := (-a) / b;
    assert -a == q * b + (-a) % b;
  }

  function Min(a: int, b: int): int {
    if a <= b then a else b
  }

  function Max(a: int, b: int): int {
    if a >= b then a else b
  }

  lemma MulMonotone(a: int, b: int, c: int)
    requires a <= b && 0 <= c
    ensures a * c <= b * c
  {
  }

  lemma MulCancel(a: int, b: int, c: int)
    requires c > 0 && a * c < b * c
    ensures a < b
  {
    if b <= a {
      MulMonotone(b, a, c);
    }
  }

  /** A quotient is determined by the multiple it sits above. */
  lemma DivUnique(x: int, d: int, q: int)
    requires d > 0 && q * d <= x < (q + 1) * d
    ensures x / d == q && x % d == x - q * d
  {
    var q' := x / d;
    assert q' * d <= x < (q' + 1) * d;
    if q' < q {
      MulMonotone(q' + 1, q, d);
    } else if q < q' {
      MulMonotone(q + 1, q', d);
    }
  }

  /** A ceiling quotient is determined by the two multiples around it. */
  lemma CeilUnique(a: int, b: int, q: int)
    requires b > 0 && (q - 1) * b < a <= q * b
    ensures CeilDiv(a, b) == q
  {
    var q' := CeilDiv(a, b);
    CeilDivBounds(a, b);
    if q' < q {
      MulMonotone(q', q - 1, b);
    } else if q < q' {
      MulMonotone(q, q' - 1, b);
    }
  }

  /** Position i of blocks of length b starts at or after a exactly when it is not below CeilDiv(a, b). */
  lemma CeilDivIff(a: int, b: int, i: int)
    requires b > 0
    ensures a <= i * b <==> CeilDiv(a, b) <= i
  {
    var q := CeilDiv(a, b);
    CeilDivBounds(a, b);
    if q <= i {
      MulMonotone(q, i, b);
    } else {
      MulMonotone(i, q - 1, b);
    }
  }

  lemma CeilDivMonotone(a: int, a': int, b: int)
    requires b > 0 && a <= a'
    ensures CeilDiv(a, b) <= CeilDiv(a', b)
  {
    CeilDivIff(a, b, CeilDiv(a', b));
  }

  /** Shifting by whole blocks shifts the ceiling quotient. */
  lemma CeilDivShift(a: int, k: int, b: int)
    requires b > 0
    ensures CeilDiv(a + k * b, b) == CeilDiv(a, b) + k
  {
    var q := CeilDiv(a, b);
    CeilDivBounds(a, b);
    assert (q + k - 1) * b == (q - 1) * b + k * b;
    assert (q + k) * b == q * b + k * b;
    CeilUnique(a + k * b, b, q + k);
  }

  lemma CeilDivExact(k: int, b: int)
    requires b > 0
    ensures CeilDiv(k * b, b) == k
  {
    assert (k - 1) * b == k * b - b;
    CeilUnique(k * b, b, k);
  }

  lemma ModZeroMultiple(a: int, b: int) returns (k: int)
    requires b > 0 && a % b == 0
    ensures a == k * b && k == a / b
  {
    k := a / b;
  }

  lemma MultipleModZero(k: int, b: int)
    requires b > 0
    ensures (k * b) % b == 0 && (k * b) / b == k
  {
    assert (k + 1) * b == k * b + b;
    DivUnique(k * b, b, k);
  }

  lemma MulNext(a: int, b: int)
    ensures (a + 1) * b == a * b + b
  {
  }

  /** One turn more leaves the remainder. */
  lemma ModShift(i: int, n: int)
    requires n > 0
    ensures (i + n) % n == i % n
  {
    var q := i / n;
    assert (q + 1) * n == q * n + n && (q + 2) * n == q * n + n + n;
    DivUnique(i + n, n, q + 1);
  }

  /** Two distinct block slots of length `len` never share an offset. */
  lemma SlotsApart(i: int, j: int, len: int)
    requires i < j && 0 <= len
    ensures i * len + len <= j * len
  {
    assert (i + 1) * len == i * len + len;
    MulMonotone(i + 1, j, len);
  }

  lemma DivNonNegative(a: int, b: int)
    requires a >= 0 && b > 0
    ensures a / b >= 0 && a % b >= 0
  {
  }
}
