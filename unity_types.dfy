/**
 * The Unity values the bot layer passes around. A Transform is known by
 * its instance id; where it is in the world is never computed here (the
 * engine supplies positions as parameters).
 */
module UnityTypes {
  datatype Vector3 = Vector3(x: real, y: real, z: real)

  datatype Transform = Transform(instanceId: int)

  /** `x * x`, never negative. */
  function Sq(x: real): (s: real)
    ensures s >= 0.0
  {
    if x >= 0.0 then x * x else (-x) * (-x)
  }

  /** The squared distance between two points, `Vector3.SqrMagnitude(p - q)`. */
  function SqrDistance(p: Vector3, q: Vector3): (d: real)
    ensures d >= 0.0
    ensures p == q ==> d == 0.0
  {
    Sq(p.x - q.x) + Sq(p.y - q.y) + Sq(p.z - q.z)
  }

  /** Distance does not depend on which point is measured from. */
  lemma SqrDistanceSymmetric(p: Vector3, q: Vector3)
    ensures SqrDistance(p, q) == SqrDistance(q, p)
  {
    assert Sq(p.x - q.x) == Sq(q.x - p.x);
    assert Sq(p.y - q.y) == Sq(q.y - p.y);
    assert Sq(p.z - q.z) == Sq(q.z - p.z);
  }

  /**
   * ProximityHelpers.IsWithinDistance over all three axes:
   * `Vector3.Distance(position, origin) <= sqrViewMagnitude`. The distance is
   * the square root of SqrDistance, so the test is stated without the root:
   * a negative bound admits nothing, and otherwise the squared distance is
   * compared with the bound squared.
   */
  predicate IsWithinDistance(origin: Vector3, position: Vector3, sqrViewMagnitude: real)
    ensures sqrViewMagnitude < 0.0 ==> !IsWithinDistance(origin, position, sqrViewMagnitude)
    ensures origin == position ==> (IsWithinDistance(origin, position, sqrViewMagnitude) <==> sqrViewMagnitude >= 0.0)
    ensures IsWithinDistance(origin, position, sqrViewMagnitude)
            <==> sqrViewMagnitude >= 0.0 && SqrDistance(origin, position) <= Sq(sqrViewMagnitude)
  {
    SqrDistanceSymmetric(origin, position);
    sqrViewMagnitude >= 0.0 && SqrDistance(position, origin) <= Sq(sqrViewMagnitude)
  }

  /**
   * RandomHelpers.RandomFloatWithinRange: the point `roll` of the way from
   * `lo` to `hi`, where `roll` in [0, 1] is the engine's random value.
   */
  function RandomFloatWithinRange(lo: real, hi: real, roll: real): (r: real)
    requires 0.0 <= roll <= 1.0
    ensures lo <= hi ==> lo <= r <= hi
    ensures roll == 0.0 ==> r == lo
    ensures roll == 1.0 ==> r == hi
  {
    lo + Scaled(hi - lo, roll)
  }

  /** `width * roll`, which lies between 0 and `width` when the width is not negative. */
  function Scaled(width: real, roll: real): (s: real)
    requires 0.0 <= roll <= 1.0
    ensures width >= 0.0 ==> 0.0 <= s <= width
    ensures roll == 0.0 ==> s == 0.0
    ensures roll == 1.0 ==> s == width
  {
    if width >= 0.0 then (assert width * (1.0 - roll) >= 0.0; width * roll) else width * roll
  }
}
