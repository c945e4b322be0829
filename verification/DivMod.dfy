/** The few facts about products and floor division that the other modules share. */
module DivMod {
  lemma MulMonotone(a: int, b: int, k: int)
    requires a <= b && k >= 0
    ensures a * k <= b * k
  {
  }

  lemma MulStrict(a: int, b: int, k: int)
    requires a <= b && k > 0
    ensures a * k <= b * k && (a < b ==> a * k < b * k)
  {
    if a < b {
      MulMonotone(a + 1, b, k);
      assert (a + 1) * k == a * k + k;
    }
  }

  lemma FloorBrackets(t: int, k: int)
    requires k > 0
    ensures (t / k) * k <= t < (t / k + 1) * k
  {
    assert t == k * (t / k) + t % k;
  }

  lemma FloorLe(t: int, k: int, x: int)
    requires k > 0
    ensures x * k <= t <==> x <= t / k
  {
    FloorBrackets(t, k);
    if x <= t / k {
      MulMonotone(x, t / k, k);
    } else {
      MulMonotone(t / k + 1, x, k);
    }
  }

  lemma FloorIff(t: int, k: int, b: int)
    requires k > 0
    ensures t / k == b <==> b * k <= t < (b + 1) * k
  {
    FloorLe(t, k, b);
    FloorLe(t, k, b + 1);
  }

  lemma FloorMonotone(a: int, b: int, k: int)
    requires k > 0 && a <= b
    ensures a / k <= b / k
  {
    FloorBrackets(a, k);
    FloorLe(b, k, a / k);
  }

  lemma DivOfProduct(x: int, y: int)
    requires y > 0
    ensures (x * y) / y == x
  {
    assert (x + 1) * y == x * y + y;
    FloorIff(x * y, y, x);
  }

  /** Quotient of `q * k + r`. */
  lemma QuotientUnique(m: int, k: int, q: int, r: int)
    requires k > 0 && 0 <= r < k && m == q * k + r
    ensures m / k == q
  {
    assert (q + 1) * k == q * k + k;
    FloorIff(m, k, q);
  }

  lemma DivAtMost(x: nat, y: nat)
    requires y > 0
    ensures 0 <= x / y <= x
    ensures y > 1 && x > 0 ==> x / y < x
  {
    FloorBrackets(x, y);
    FloorLe(x, y, 0);
    MulMonotone(1, y, x / y);
    if y > 1 { MulMonotone(2, y, x / y); }
  }

  lemma MulNegate(a: int, b: int)
    ensures a * (-b) == -(a * b) && (-a) * b == -(a * b)
  {
  }
}
