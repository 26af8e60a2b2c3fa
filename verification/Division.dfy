/** Division with remainder. */
module Division {

  /** Quotient and remainder are unique. */
  lemma DivisionIs(a: int, m: int, q: int, r: int)
    requires 0 <= r < m && a == q * m + r
    ensures a % m == r && a / m == q
  {
    var d := q - a / m;
    assert d * m == a % m - r;
    assert -m < d * m < m;
    assert d == 0;
  }
}
