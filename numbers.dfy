/**
 * The results of the dashboard's float divisions. pandas divides column by
 * column without a guard, so a zero divisor yields inf (positive numerator)
 * or NaN (zero numerator) instead of raising; all operands here are
 * non-negative counts, so -inf never arises. Finite values are exact reals.
 */
module Numbers {

  datatype Num = Finite(value: real) | Infinity | NaN

  /** `num / den * 100` evaluated the way a pandas column division does it. */
  function Percent(num: nat, den: nat): (q: Num)
    ensures q.Finite? <==> den > 0
    ensures q.Finite? ==> q.value >= 0.0 && q.value * (den as real) == (num as real) * 100.0
    ensures q.Infinity? <==> den == 0 && num > 0
    ensures q.NaN? <==> den == 0 && num == 0
  {
    if den > 0 then
      var v := num as real / den as real * 100.0;
      assert v * (den as real) == (num as real) * 100.0;
      Finite(v)
    else if num > 0 then Infinity
    else NaN
  }

  /**
   * a may come before b in `sort_values(ascending=False)`: infinity first,
   * finite values from the largest down, NaN last (pandas' na_position).
   */
  predicate AtLeast(a: Num, b: Num) {
    match (a, b)
    case (_, NaN) => true
    case (NaN, _) => false
    case (Infinity, _) => true
    case (Finite(_), Infinity) => false
    case (Finite(x), Finite(y)) => x >= y
  }

  lemma AtLeastTotal(a: Num, b: Num)
    ensures AtLeast(a, b) || AtLeast(b, a)
  {
  }

  lemma AtLeastTransitive(a: Num, b: Num, c: Num)
    requires AtLeast(a, b) && AtLeast(b, c)
    ensures AtLeast(a, c)
  {
  }
}
