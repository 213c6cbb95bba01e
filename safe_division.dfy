/**
 * The zero-denominator guard used by every ratio of the engine: a denominator
 * of zero is replaced by one (`games.mask(games == 0, 1)` and `max(games, 1)`),
 * so a bucket with no games and no wins has rate 0 instead of NaN.
 */
module SafeDivision {

  /** The guarded denominator: never below one, unchanged when already positive. */
  function Guard(den: nat): (d: nat)
    ensures d >= 1
    ensures den > 0 ==> d == den
  {
    if den == 0 then 1 else den
  }

  /** num / den where a zero count of games divides by one. */
  function SafeRatio(num: real, den: nat): (r: real)
    ensures den > 0 ==> r * (den as real) == num
    ensures den == 0 ==> r == num
  {
    num / (Guard(den) as real)
  }

  /** No wins always gives a rate of zero, whatever the number of games. */
  lemma NoWinsRateZero(den: nat)
    ensures SafeRatio(0.0, den) == 0.0
  {
  }

  /** A positive factor can be cancelled from both sides of an inequality. */
  lemma CancelFactor(a: real, b: real, c: real)
    requires a * c <= b * c && c > 0.0
    ensures a <= b
  {
  }

  /** When wins never exceed games, a guarded win rate is a proportion. */
  lemma RateIsProportion(num: nat, den: nat)
    requires num <= den
    ensures 0.0 <= SafeRatio(num as real, den) <= 1.0
  {
    if den > 0 {
      var r, d := SafeRatio(num as real, den), den as real;
      assert r * d == num as real;
      assert 0.0 * d == 0.0;
      assert 1.0 * d == d;
      assert 0.0 * d <= r * d;
      assert r * d <= 1.0 * d;
      CancelFactor(0.0, r, d);
      CancelFactor(r, 1.0, d);
    }
  }
}
