/** Facts about products and quotients that index computations rest on. */
module Arithmetic {

  /** Chunk r of n chunks lies inside the whole. */
  lemma {:induction false} ChunkInside(n: nat, size: nat, r: nat)
    requires r < n
    ensures size * r + size <= n * size
  {
    var rest := n - r - 1;
    assert size * rest >= 0;
    assert n * size == size * r + size + size * rest;
  }

  lemma {:induction false} MulMonotone(a: nat, b: nat, c: nat)
    requires a <= b
    ensures a * c <= b * c
  {
    assert (b - a) * c >= 0;
  }

  /** Quotient and remainder are determined by the equation they solve. */
  lemma {:induction false} DivModUnique(x: nat, d: nat, q: nat, r: nat)
    requires r < d && x == q * d + r
    ensures x / d == q && x % d == r
  {
    var q', r' := x / d, x % d;
    assert x == d * q' + r';
    if q < q' {
      MulMonotone(q + 1, q', d);
      assert false;
    } else if q' < q {
      MulMonotone(q' + 1, q, d);
      assert false;
    }
  }

  /** An index below n * size splits into a chunk number below n and an offset below size. */
  lemma {:induction false} SplitIndex(k: nat, n: nat, size: nat)
    requires k < n * size
    ensures size > 0 && k / size < n && k % size < size && k == k % size + size * (k / size)
  {
    if k / size >= n {
      MulMonotone(n, k / size, size);
      assert false;
    }
  }

  lemma {:induction false} RegroupProduct(s: nat, e: nat, d: nat)
    ensures (s * e) * d == (s * d) * e
  {
    assert (s * e) * d == s * (e * d);
    assert (s * d) * e == s * (d * e);
    assert e * d == d * e;
  }

  lemma {:induction false} RegroupSum(p: nat, x: nat, r: nat, e: nat)
    ensures (p + x * r) * e == p * e + x * (r * e)
  {
    assert (x * r) * e == x * (r * e);
    assert (p + x * r) * e == p * e + (x * r) * e;
  }

  lemma {:induction false} PositiveFactors(a: nat, b: nat)
    requires a * b > 0
    ensures a > 0 && b > 0
  {
    assert a == 0 ==> a * b == 0;
    assert b == 0 ==> a * b == 0;
  }
}
