/**
 * The engine-wide tuning constants that the contact pipeline reads, and the
 * abstract square root that several operations call.
 */
module Settings {

  /** The constants of the engine's settings class that the modelled code uses. */
  datatype Config = Config(
    linearSlop: real,
    baumgarte: real,
    toiBaugarte: real,
    maxLinearCorrection: real,
    velocityThreshold: real,
    epsilon: real,
    polygonRadius: real)
  {
    /** Every tuning constant is positive. */
    predicate Valid()
    {
      linearSlop > 0.0 && baumgarte > 0.0 && toiBaugarte > 0.0 &&
      maxLinearCorrection > 0.0 && velocityThreshold > 0.0 &&
      epsilon > 0.0 && polygonRadius > 0.0
    }
  }

  /**
   * The square root is a parameter of the model; where a property depends on
   * it, this predicate says that the parameter is the exact non-negative root.
   */
  ghost predicate IsSqrt(sqrt: real -> real)
  {
    forall x: real :: 0.0 <= x ==> 0.0 <= sqrt(x) && sqrt(x) * sqrt(x) == x
  }

  /** The exact root of a positive number is positive. */
  lemma SqrtPositive(sqrt: real -> real, x: real)
    requires IsSqrt(sqrt) && x > 0.0
    ensures sqrt(x) > 0.0
  {
    assert 0.0 <= sqrt(x) && sqrt(x) * sqrt(x) == x;
  }
}
