/** Rounding of prices to whole cents, on idealised real numbers. */
module Rounding {
  /** The C++ library's round: the nearest integer, ties away from zero. */
  function Round(x: real): (r: int)
    ensures -0.5 <= r as real - x <= 0.5
    ensures r as real - x == 0.5 ==> x > 0.0
    ensures r as real - x == -0.5 ==> x < 0.0
  {
    if x >= 0.0 then (x + 0.5).Floor else -((0.5 - x).Floor)
  }

  function Round2(v: real): (r: real)
    ensures -0.005 <= r - v <= 0.005
  {
    Round(v * 100.0) as real / 100.0
  }

  predicate WholeCents(v: real) {
    (v * 100.0).Floor as real == v * 100.0
  }

  lemma RoundMonotone(x: real, y: real)
    requires x <= y
    ensures Round(x) <= Round(y)
  {}

  lemma Round2Monotone(x: real, y: real)
    requires x <= y
    ensures Round2(x) <= Round2(y)
  {
    RoundMonotone(x * 100.0, y * 100.0);
  }

  lemma Round2Strict(x: real, y: real)
    requires x + 0.01 <= y
    ensures Round2(x) < Round2(y)
  {
    RoundMonotone((x + 0.01) * 100.0, y * 100.0);
    RoundShift(x * 100.0);
    assert (x + 0.01) * 100.0 == x * 100.0 + 1.0;
  }

  lemma RoundShift(x: real)
    ensures Round(x) < Round(x + 1.0)
  {}

  lemma Round2OnCents(v: real)
    requires WholeCents(v)
    ensures Round2(v) == v
  {
    RoundInt((v * 100.0).Floor);
    Hundredth(v, v * 100.0);
  }

  lemma RoundInt(k: int)
    ensures Round(k as real) == k
  {}

  lemma Hundredth(v: real, c: real)
    requires c == v * 100.0
    ensures c / 100.0 == v
  {}

  /** One cent is exactly the gain that survives rounding at every price. */
  lemma GainSurvivesRounding(gain: real)
    ensures (forall b | b > 0.0 :: Round2(b) < Round2(b + gain)) <==> gain >= 0.01
  {
    if gain >= 0.01 {
      forall b | b > 0.0 ensures Round2(b) < Round2(b + gain) { Round2Strict(b, b + gain); }
    } else {
      // Both 0.005 and 0.005 + gain round to at most one cent.
      assert Round(0.005 * 100.0) == 1;
      assert (0.005 + gain) * 100.0 < 1.5;
      assert Round((0.005 + gain) * 100.0) <= 1;
      assert Round2(0.005 + gain) <= Round2(0.005);
    }
  }

  lemma RoundReaches(z: real, k: int)
    requires k >= 0
    ensures Round(z) > k <==> z >= k as real + 0.5
  {}

  /** A price rounds above a rounded one iff it is at least half a cent above it. */
  lemma Round2Above(x: real, y: real)
    requires Round2(x) >= 0.0
    ensures Round2(x) < Round2(y) <==> y >= Round2(x) + 0.005
  {
    RoundReaches(y * 100.0, Round(x * 100.0));
  }
}
