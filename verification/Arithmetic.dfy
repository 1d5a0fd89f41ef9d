/** Small facts about products and quotients that the solver needs one at a time. */
module Arithmetic {

  lemma Distribute(x: int, y: int, k: int)
    ensures (x + y) * k == x * k + y * k
  {
  }

  lemma TimesMonotone(x: int, y: int, k: int)
    requires x <= y && k >= 0
    ensures x * k <= y * k
  {
  }

  lemma DivisionBounds(e: int, k: int)
    requires k > 0
    ensures e / k * k <= e < (e / k + 1) * k
    ensures e >= k ==> e / k >= 1
  {
    assert e == e / k * k + e % k;
  }

  lemma QuotientIsUnique(z: int, q: int, r: int, k: int)
    requires k > 0 && 0 <= r < k && z == q * k + r
    ensures z / k == q && z % k == r
  {
    var d := z / k - q;
    assert d * k == r - z % k;
    if d > 0 {
      TimesMonotone(1, d, k);
    } else if d < 0 {
      TimesMonotone(d, -1, k);
    }
  }

  lemma ShiftModulo(z: int, q: int, k: int)
    requires k > 0
    ensures (z - q * k) % k == z % k
  {
    var p := (z - q * k) / k;
    assert z == (p + q) * k + (z - q * k) % k;
    QuotientIsUnique(z, p + q, (z - q * k) % k, k);
  }
}
