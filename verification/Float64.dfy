/** float64(n) for whole numbers: rounding to 53 significant bits. */
module Float64 {

  const TWO_53 := 0x20_0000_0000_0000

  /** The spacing of float64 values around n: the power of two that leaves 53 bits. */
  function Unit(n: nat): (u: nat)
    ensures u >= 1 && n < TWO_53 * u
    ensures u > 1 ==> TWO_53 / 2 * u <= n
  {
    if n < TWO_53 then 1 else 2 * Unit(n / 2)
  }

  /** The nearest multiple of the unit, the even one of two. */
  function Round(n: nat): (r: nat)
    ensures -(Unit(n) as int) <= 2 * (r - n) <= Unit(n)
  {
    var u := Unit(n);
    var low := n % u;
    if 2 * low < u || (2 * low == u && n / u % 2 == 0) then n - low else n - low + u
  }

  function ToFloat64(i: int): real {
    if i >= 0 then Round(i) as real else -(Round(-i) as real)
  }

  function Abs(i: int): nat {
    if i >= 0 then i else -i
  }

  /** i is itself a float64. */
  predicate Kept(i: int) {
    Abs(i) % Unit(Abs(i)) == 0
  }

  lemma KeptExactly(i: int)
    ensures ToFloat64(i) == i as real <==> Kept(i)
    ensures -TWO_53 <= i <= TWO_53 ==> Kept(i)
  {
    RoundExactly(Abs(i));
  }

  lemma RoundExactly(n: nat)
    ensures Round(n) == n <==> n % Unit(n) == 0
    ensures n <= TWO_53 ==> n % Unit(n) == 0
  {
    if n == TWO_53 {
      assert Unit(n / 2) == 1;
    }
  }

  /** Two whole numbers are rounded together only when they are neighbours beyond 2^53. */
  lemma RoundedTogether(i: int, j: int)
    requires ToFloat64(i) == ToFloat64(j) && i != j
    ensures Abs(i) > TWO_53 || Abs(j) > TWO_53
    ensures 2 * Abs(i - j) <= Unit(Abs(i)) + Unit(Abs(j))
  {
    KeptExactly(i);
    KeptExactly(j);
  }

  /** 2^53 + 1 is the first whole number that is not a float64. */
  lemma FirstLost()
    ensures ToFloat64(TWO_53 + 1) == TWO_53 as real && !Kept(TWO_53 + 1)
  {
    assert Unit((TWO_53 + 1) / 2) == 1;
    assert Unit(TWO_53 + 1) == 2;
    assert (TWO_53 + 1) / 2 == TWO_53 / 2 && (TWO_53 + 1) % 2 == 1 && (TWO_53 / 2) % 2 == 0;
  }
}
