/**
 * The generator's only source of randomness: `$rand(min, max)`, which scales
 * one value of `Math.random()` (a number in [0, 1)) onto the integers from
 * `min`. The random value itself is an input of the model.
 */
module Random {

  /** A value `Math.random()` can return. */
  predicate IsUnit(u: real)
  {
    0.0 <= u < 1.0
  }

  lemma ScaledBelow(u: real, d: int)
    requires IsUnit(u) && d > 0
    ensures 0.0 <= u * d as real < d as real
  {
    assert u * d as real <= u * d as real;
  }

  /** The whole part of `u * d` lies between 0 and `d`, reaching `d` only when `d` is not positive. */
  lemma ScaledFloor(u: real, d: int)
    requires IsUnit(u)
    ensures d > 0 ==> 0 <= (u * d as real).Floor < d
    ensures d < 0 ==> d <= (u * d as real).Floor <= 0
    ensures d == 0 ==> (u * d as real).Floor == 0
  {
    if d > 0 {
      ScaledBelow(u, d);
    } else if d < 0 {
      ScaledBelow(u, -d);
      assert u * d as real == -(u * (-d) as real);
    }
  }

  /**
   * `min + Math.floor(u * (max - min))`. For an ordinary range the result lies
   * in [min, max); an empty range yields `min`; a reversed range yields a
   * value between `max` and `min`, both included, and `min` itself only for
   * a draw of exactly 0.
   */
  function Rand(min: int, max: int, u: real): (v: int)
    requires IsUnit(u)
    ensures min < max ==> min <= v < max
    ensures min == max ==> v == min
    ensures max < min ==> max <= v <= min
    ensures max < min && 0.0 < u ==> v < min
  {
    ScaledFloor(u, max - min);
    min + (u * (max - min) as real).Floor
  }

  /** Whatever the range, the result lies between its two ends. */
  lemma RandBetween(min: int, max: int, u: real)
    requires IsUnit(u)
    ensures (if min <= max then min else max) <= Rand(min, max, u) <= (if min <= max then max else min)
  {
  }
}
