/** Facts about Euclidean remainder that the wrap-around proofs need. */
module Circular {

  lemma MulAtLeast(x: int, y: int)
    requires x >= 1 && y >= 1
    ensures x * y >= y
  {
  }

  /** A remainder is determined by any quotient/remainder decomposition. */
  lemma ModUnique(a: int, q: int, r: int, size: int)
    requires size >= 1 && 0 <= r < size && a == q * size + r
    ensures a % size == r
  {
    var q' := a / size;
    var r' := a % size;
    assert a == q' * size + r';
    assert (q - q') * size == r' - r;
    if q > q' {
      MulAtLeast(q - q', size);
    } else if q < q' {
      MulAtLeast(q' - q, size);
    }
  }

  /** Stepping forward commutes with reduction. */
  lemma ModSucc(a: int, size: int)
    requires size >= 1
    ensures (a % size + 1) % size == (a + 1) % size
  {
    var q := a / size;
    var r := a % size;
    assert a == q * size + r;
    if r + 1 < size {
      ModUnique(a + 1, q, r + 1, size);
    } else {
      ModUnique(a + 1, q + 1, 0, size);
      assert (q + 1) * size == q * size + size;
    }
  }

  /** One step forward from a real index wraps only at the last one. */
  lemma WrapForward(n: int, size: int)
    ensures 0 <= n < size ==> (n + 1) % size == (if n == size - 1 then 0 else n + 1)
  {
    if 0 <= n < size {
      if n + 1 < size {
        ModUnique(n + 1, 0, n + 1, size);
      } else {
        ModUnique(n + 1, 1, 0, size);
      }
    }
  }

  /** One step back from a real index wraps only at 0. */
  lemma WrapBack(n: int, size: int)
    ensures 0 <= n < size ==> (n - 1) % size == (if n == 0 then size - 1 else n - 1)
  {
    if 0 <= n < size {
      if n > 0 {
        ModUnique(n - 1, 0, n - 1, size);
      } else {
        ModUnique(n - 1, -1, size - 1, size);
      }
    }
  }
}
