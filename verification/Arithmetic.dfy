// Facts about quotients and remainders that several components need.
module Arithmetic {

  lemma QuotientUnique(q: int, r: nat, x: int, m: nat, size: nat)
    requires r < size && m < size
    requires q * size + r == x * size + m
    ensures q == x && r == m
  {
    if q < x {
      assert (q + 1) * size <= x * size by { MulLe(q + 1, x, size); }
    } else if x < q {
      assert (x + 1) * size <= q * size by { MulLe(x + 1, q, size); }
    }
  }

  lemma MulLe(a: int, b: int, size: nat)
    requires a <= b
    ensures a * size <= b * size
  {
    assert (b - a) * size >= 0;
  }

  lemma MultiplePlus(a: nat, size: nat, r: nat)
    requires 0 < size && a % size == 0 && r < size
    ensures (a + r) % size == r
  {
    QuotientUnique(a / size, r, (a + r) / size, (a + r) % size, size);
  }

  lemma MultipleStep(a: nat, size: nat)
    requires 0 < size && a % size == 0
    ensures (a + size) % size == 0
  {
    QuotientUnique(a / size + 1, 0, (a + size) / size, (a + size) % size, size);
  }
}
