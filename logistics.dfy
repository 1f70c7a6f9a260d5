/** Shipping and fee estimates used by the normalizer. */
module Logistics {
  import opened Wrappers
  import Config

  /** The weight a shipping estimate assumes when none (or a non-positive one) is known. */
  const DefaultWeightKg: real := 10.0

  /** A weight counts only when it is present and positive (Python truthiness plus `> 0`). */
  predicate HasWeight(w: Option<real>) { w.Some? && w.value > 0.0 }

  /** Fixed cost plus a per-kilogram cost, assuming 10 kg when the weight is unknown. */
  function EstimateShippingEur(weightKg: Option<real>): (ship: real)
    ensures ship > Config.DefaultFixedShipEur
  {
    var w := if HasWeight(weightKg) then weightKg.value else DefaultWeightKg;
    Config.DefaultFixedShipEur + Config.DefaultShipEurPerKg * w
  }

  function ApplyFees(priceEur: real): (fees: real)
    ensures priceEur >= 0.0 ==> 0.0 <= fees <= priceEur
  {
    priceEur * Config.DefaultFeesPct
  }

  /** Without a usable weight the estimate is 25 + 1.8 * 10 = 43 euros. */
  lemma ShippingWithoutWeight(weightKg: Option<real>)
    requires !HasWeight(weightKg)
    ensures EstimateShippingEur(weightKg) == 43.0
  {
  }

  /** With a positive weight the estimate is affine in that weight. */
  lemma ShippingWithWeight(w: real)
    requires w > 0.0
    ensures EstimateShippingEur(Some(w)) == 25.0 + 1.8 * w
  {
  }

  /** A heavier (positive) parcel never costs less to ship. */
  lemma ShippingMonotone(w1: real, w2: real)
    requires 0.0 < w1 <= w2
    ensures EstimateShippingEur(Some(w1)) <= EstimateShippingEur(Some(w2))
  {
  }

  /** Fees are 12% of the price, and so additive and homogeneous in the price. */
  lemma FeesLinear(p: real, q: real, k: real)
    ensures ApplyFees(p) == 0.12 * p
    ensures ApplyFees(p + q) == ApplyFees(p) + ApplyFees(q)
    ensures ApplyFees(k * p) == k * ApplyFees(p)
  {
  }
}
