/**
 * Integer facts behind column-major addressing: an element (i, j) of a
 * matrix with m rows lives at linear position i + m*j, and that position
 * can be split back into its row and column with Euclidean % and /.
 */
module Arith {

  /** Multiplying by a positive factor never decreases a natural number. */
  lemma MulMonotone(m: int, x: int, y: int)
    requires m >= 0 && x <= y
    ensures m * x <= m * y
  {
    assert m * y - m * x == m * (y - x);
  }

  /** Multiplying a sum by a stride, regrouped around the second stride factor. */
  lemma MulAddRegroup(a: int, o: int, i: int, p: int)
    ensures a * (o + i * p) == a * o + i * (a * p)
  {
    assert a * (i * p) == i * (a * p);
  }

  /** Euclidean quotient and remainder of a natural by a positive divisor are natural. */
  lemma DivModNatural(k: int, d: int)
    requires k >= 0 && d > 0
    ensures 0 <= k % d < d && 0 <= k / d
    ensures k == k % d + d * (k / d)
  {
  }

  /** Position i + m*j of an m-row layout lies inside an m-by-n block. */
  lemma ColMajorBound(i: int, j: int, m: int, n: int)
    requires 0 <= i < m && 0 <= j < n
    ensures 0 <= i + m * j < m * n
  {
    MulMonotone(m, j, n - 1);
    assert m * (n - 1) == m * n - m;
  }

  /** Splitting the linear position i + m*j gives back row i and column j. */
  lemma ColMajorSplit(i: int, j: int, m: int)
    requires 0 <= i < m && 0 <= j
    ensures (i + m * j) / m == j && (i + m * j) % m == i
  {
    var k := i + m * j;
    var q, r := k / m, k % m;
    assert k == m * q + r && 0 <= r < m;
    if q > j {
      MulMonotone(m, j + 1, q);
      assert false;
    } else if q < j {
      MulMonotone(m, q + 1, j);
      assert false;
    }
  }

  /** A linear position inside an m-by-n block splits into a row below m and a column below n. */
  lemma ColMajorUnsplit(k: int, m: int, n: int)
    requires 0 <= k < m * n && m > 0
    ensures 0 <= k % m < m && 0 <= k / m < n
    ensures k == k % m + m * (k / m)
  {
    var q := k / m;
    if q >= n {
      MulMonotone(m, n, q);
      assert false;
    }
  }
}
