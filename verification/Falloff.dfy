/** How explosion damage falls off with distance. Quantities are reals. */
module Falloff {
  import opened Arithmetic

  type Edge = r: real | 0.0 <= r <= 1.0 witness 0.0
  type Distance = r: real | 0.0 <= r witness 0.0

  /** dist * edge never exceeds dist, so the denominator below stays positive. */
  lemma RimIsInside(dist: Distance, edge: Edge)
    ensures 0.0 <= dist * edge <= dist
  {
    assert dist - dist * edge == dist * (1.0 - edge);
    ProductNonNegative(dist, 1.0 - edge);
    ProductNonNegative(dist, edge);
  }

  /** expDistanceMod of DoExplosionDamage; asked for only when the object is within the radius. */
  function Factor(radius: Distance, dist: Distance, edge: Edge): real
    requires dist <= radius
  {
    RimIsInside(dist, edge);
    if edge == 1.0 || dist < 1.0 then 1.0
    else (radius + 0.001 - dist) / (radius + 0.001 - dist * edge)
  }

  lemma FractionInUnit(p: real, q: real)
    requires 0.0 < p <= q
    ensures 0.0 < p / q <= 1.0
  {
    assert p / q * q == p;
    if p / q > 1.0 {
      FractionTimes(p / q, q);
    }
  }

  lemma FractionTimes(x: real, q: real)
    requires 1.0 < x && 0.0 < q
    ensures q < x * q
  {
    assert x * q - q == (x - 1.0) * q;
  }

  /** The factor lies in (0, 1]: damage is never negative and never amplified. */
  lemma FactorInUnit(radius: Distance, dist: Distance, edge: Edge)
    requires dist <= radius
    ensures 0.0 < Factor(radius, dist, edge) <= 1.0
  {
    RimIsInside(dist, edge);
    if !(edge == 1.0 || dist < 1.0) {
      FractionInUnit(radius + 0.001 - dist, radius + 0.001 - dist * edge);
    }
  }

  /**
   * Damage is reduced exactly from distance 1 on and below full edge effectiveness; there the factor is
   * to 1 as the way left to the rim is to the way left from the shortened distance, both a thousandth
   * longer, which makes it 1 / (1 + 1000 radius (1 - edge)) at the rim.
   */
  lemma FactorIsExact(radius: Distance, dist: Distance, edge: Edge)
    requires dist <= radius
    ensures Factor(radius, dist, edge) == 1.0 <==> edge == 1.0 || dist < 1.0
    ensures edge < 1.0 && 1.0 <= dist ==>
              Factor(radius, dist, edge) * (radius + 0.001 - dist * edge) == radius + 0.001 - dist
    ensures edge < 1.0 && 1.0 <= radius ==>
              Factor(radius, radius, edge) * (1.0 + 1000.0 * radius * (1.0 - edge)) == 1.0
  {
    RimIsInside(dist, edge);
    RimIsInside(radius, edge);
    if edge < 1.0 && 1.0 <= dist {
      FractionIsExact(radius + 0.001 - dist, radius + 0.001 - dist * edge);
      assert dist - dist * edge == dist * (1.0 - edge);
      SignOfProduct(1.0 - edge, dist);
    }
    if edge < 1.0 && 1.0 <= radius {
      FractionIsExact(0.001, radius + 0.001 - radius * edge);
      assert 1000.0 * (radius + 0.001 - radius * edge) == 1.0 + 1000.0 * radius * (1.0 - edge);
    }
  }

  lemma FractionIsExact(p: real, q: real)
    requires 0.0 < q
    ensures p / q * q == p && p / q * (1000.0 * q) == 1000.0 * p
    ensures p / q == 1.0 <==> p == q
  {
  }

  lemma CrossMultiply(p1: real, q1: real, p2: real, q2: real)
    requires 0.0 < q1 && 0.0 < q2 && p2 * q1 <= p1 * q2
    ensures p2 / q2 <= p1 / q1
  {
    var a, b := p1 / q1, p2 / q2;
    assert a * q1 == p1 && b * q2 == p2;
    var q := q1 * q2;
    assert p2 * q1 == b * q;
    assert p1 * q2 == a * q;
    assert (a - b) * q >= 0.0;
    SignOfProduct(a - b, q);
  }

  /** Farther away never hurts more, also across the switch at distance 1. */
  lemma FactorFallsWithDistance(radius: Distance, near: Distance, far: Distance, edge: Edge)
    requires near <= far <= radius
    ensures Factor(radius, far, edge) <= Factor(radius, near, edge)
  {
    FactorInUnit(radius, far, edge);
    if !(edge == 1.0 || near < 1.0) {
      RimIsInside(near, edge);
      RimIsInside(far, edge);
      var r := radius + 0.001;
      // (r - near)(r - far e) - (r - far)(r - near e) == r (far - near)(1 - e)
      assert (r - near) * (r - far * edge) - (r - far) * (r - near * edge) == r * ((far - near) * (1.0 - edge));
      ProductNonNegative(far - near, 1.0 - edge);
      ProductNonNegative(r, (far - near) * (1.0 - edge));
      CrossMultiply(r - near, r - near * edge, r - far, r - far * edge);
    }
  }

  /** A more effective edge never hurts less. */
  lemma FactorRisesWithEdge(radius: Distance, dist: Distance, low: Edge, high: Edge)
    requires dist <= radius && low <= high
    ensures Factor(radius, dist, low) <= Factor(radius, dist, high)
  {
    FactorInUnit(radius, dist, low);
    if !(high == 1.0 || dist < 1.0) {
      RimIsInside(dist, low);
      RimIsInside(dist, high);
      var p := radius + 0.001 - dist;
      ProductNonNegative(dist, high - low);
      assert dist * high - dist * low == dist * (high - low);
      ProductNonNegative(p, dist * high - dist * low);
      assert p * (radius + 0.001 - dist * low) - p * (radius + 0.001 - dist * high) == p * (dist * high - dist * low);
      CrossMultiply(p, radius + 0.001 - dist * high, p, radius + 0.001 - dist * low);
    }
  }
}
