/** `normalize_angle`: rotations in whole degrees, reduced to [0, 360). */
module Angles {

  /**
   * Python's `angle % 360`. For a positive modulus Python's `%` and Dafny's
   * Euclidean `%` agree: the result has the sign of the modulus.
   */
  function NormalizeAngle(angle: int): (r: int)
    ensures 0 <= r < 360
    ensures (angle - r) % 360 == 0
  {
    angle % 360
  }

  /** Any value in [0, 360) that differs from `angle` by whole turns is its normal form. */
  lemma NormalFormUnique(angle: int, r: int, turns: int)
    requires 0 <= r < 360 && angle == r + 360 * turns
    ensures NormalizeAngle(angle) == r
  {
    var n := NormalizeAngle(angle);
    var m := (angle - n) / 360;
    assert angle - n == 360 * m;
    assert r - n == 360 * (m - turns) && -360 < r - n < 360;
  }

  /** Adding whole turns does not change the normal form. */
  lemma NormalizePeriodic(angle: int, turns: int)
    ensures NormalizeAngle(angle + 360 * turns) == NormalizeAngle(angle)
  {
    var n := NormalizeAngle(angle);
    var m := (angle - n) / 360;
    assert angle == n + 360 * m;
    NormalFormUnique(angle + 360 * turns, n, m + turns);
  }

  /** Normalizing twice is normalizing once. */
  lemma NormalizeIdempotent(angle: int)
    ensures NormalizeAngle(NormalizeAngle(angle)) == NormalizeAngle(angle)
  {
    NormalFormUnique(NormalizeAngle(angle), NormalizeAngle(angle), 0);
  }

  /**
   * Normalizing a part before adding another gives the same normal form, so
   * rotating a normalized rotation by a panel angle is the same as rotating the raw one.
   */
  lemma NormalizeSum(a: int, b: int)
    ensures NormalizeAngle(NormalizeAngle(a) + b) == NormalizeAngle(a + b)
  {
    var n := NormalizeAngle(a);
    var m := (a - n) / 360;
    assert a == n + 360 * m;
    assert a + b == (n + b) + 360 * m;
    NormalizePeriodic(n + b, m);
  }
}
