/**
 * Turns a scraped record into the priced snapshot the store keeps: unit and
 * weight prices, fees, shipping, expected margin, a distance penalty and the
 * flip score.  The snapshot has no creation time; the store adds that.
 */
module Normalizer {
  import opened Wrappers
  import opened Text
  import opened Schemas
  import Config
  import Geo
  import Logistics

  datatype Snapshot = Snapshot(
    source: string,
    externalId: string,
    url: string,
    title: string,
    category: Option<string>,
    locationName: Option<string>,
    lat: Option<real>,
    lon: Option<real>,
    photoUrl: Option<string>,
    currency: string,
    priceEur: real,
    unitCount: Option<int>,
    weightKg: Option<real>,
    postedAt: Option<int>,
    pricePerUnit: Option<real>,
    pricePerKg: Option<real>,
    distanceKm: Option<real>,
    feesPct: real,
    shipEstimateEur: real,
    marginEstimateEur: real,
    flipScore: real,
    raw: RawListing)

  function SnapKey(s: Snapshot): ListingKey { (s.source, s.externalId) }

  /** Price per unit, present exactly when the unit count is a positive number. */
  function PricePerUnit(price: real, unitCount: Option<int>): (r: Option<real>)
    ensures r.Some? <==> unitCount.Some? && unitCount.value > 0
    ensures r.Some? ==> r.value * unitCount.value as real == price
  {
    if unitCount.Some? && unitCount.value > 0 then Some(price / unitCount.value as real) else None
  }

  /** Price per kilogram, present exactly when the weight is a positive number. */
  function PricePerKg(price: real, weightKg: Option<real>): (r: Option<real>)
    ensures r.Some? <==> weightKg.Some? && weightKg.value > 0.0
    ensures r.Some? ==> r.value * weightKg.value == price
  {
    if weightKg.Some? && weightKg.value > 0.0 then Some(price / weightKg.value) else None
  }

  /** Whether the category (when non-empty) or the title mentions sneakers, case-insensitively. */
  predicate LooksLikeSneakers(raw: RawListing) {
    (raw.category.Some? && raw.category.value != "" && Contains(Lower(raw.category.value), "sneaker"))
    || Contains(Lower(raw.title), "sneaker")
  }

  function ResaleMultiplier(raw: RawListing): (m: real)
    ensures m == 1.35 <==> LooksLikeSneakers(raw)
    ensures m == 1.2 <==> !LooksLikeSneakers(raw)
  {
    if LooksLikeSneakers(raw) then 1.35 else 1.2
  }

  function TotalCost(raw: RawListing): real {
    raw.priceValue + Logistics.ApplyFees(raw.priceValue) + Logistics.EstimateShippingEur(raw.weightKg)
  }

  /** Expected resale proceeds minus the full cost of buying and shipping. */
  function Margin(raw: RawListing): real {
    raw.priceValue * ResaleMultiplier(raw) - TotalCost(raw)
  }

  /** Margin relative to total cost; zero when the total cost is not positive. */
  function MarginPct(raw: RawListing): (pct: real)
    ensures TotalCost(raw) <= 0.0 ==> pct == 0.0
    ensures TotalCost(raw) > 0.0 ==> pct * TotalCost(raw) == Margin(raw)
  {
    if TotalCost(raw) > 0.0 then Margin(raw) / TotalCost(raw) else 0.0
  }

  /**
   * 1.0 when there is no distance or it is zero or at most 400 km, 0.85 up to
   * 800 km, 0.75 up to 1500 km, 0.6 beyond.
   */
  function DistancePenalty(distanceKm: Option<real>): (p: real)
    ensures 0.6 <= p <= 1.0
    ensures distanceKm.None? ==> p == 1.0
    ensures distanceKm.Some? ==> var d := distanceKm.value;
              (d <= 400.0 ==> p == 1.0) && (400.0 < d <= 800.0 ==> p == 0.85)
              && (800.0 < d <= 1500.0 ==> p == 0.75) && (1500.0 < d ==> p == 0.6)
  {
    if distanceKm.Some? && distanceKm.value != 0.0 then
      var d := distanceKm.value;
      if d > 1500.0 then 0.6
      else if d > 800.0 then 0.75
      else if d > 400.0 then 0.85
      else 1.0
    else 1.0
  }

  /** The unpenalised score: 60% relative margin plus 40% of the margin in hundreds of euros. */
  function BaseScore(raw: RawListing): real {
    0.6 * MarginPct(raw) + 0.4 * (Margin(raw) / 100.0)
  }

  function Max(a: real, b: real): real { if a >= b then a else b }

  /** The flip score for a given distance, floored at zero before the penalty. */
  function FlipScore(raw: RawListing, distanceKm: Option<real>): (f: real)
    ensures f >= 0.0
    ensures f > 0.0 <==> BaseScore(raw) > 0.0
    ensures BaseScore(raw) <= 0.0 ==> f == 0.0
    ensures BaseScore(raw) > 0.0 ==> f == BaseScore(raw) * DistancePenalty(distanceKm)
  {
    var b, p := BaseScore(raw), DistancePenalty(distanceKm);
    if b > 0.0 then SignOfProduct(b, p); Max(0.0, b) * p
    else Max(0.0, b) * p
  }

  /** The snapshot of `raw` at a known distance. */
  function SnapshotAt(raw: RawListing, distanceKm: Option<real>): Snapshot {
    Snapshot(
      raw.source, raw.externalId, raw.url, Strip(raw.title), raw.category, raw.locationName,
      raw.lat, raw.lon, raw.photoUrl, raw.currency, raw.priceValue, raw.unitCount, raw.weightKg,
      raw.postedAt,
      PricePerUnit(raw.priceValue, raw.unitCount),
      PricePerKg(raw.priceValue, raw.weightKg),
      distanceKm,
      Config.DefaultFeesPct,
      Logistics.EstimateShippingEur(raw.weightKg),
      Margin(raw),
      FlipScore(raw, distanceKm),
      raw)
  }

  function NormalizeAndSnapshot(raw: RawListing, baseLat: real, baseLon: real,
                                gc: Geo.GreatCircle): (s: Snapshot)
    ensures SnapKey(s) == KeyOf(raw)
    ensures s.flipScore >= 0.0
    ensures s.distanceKm.None? <==> raw.lat.None? || raw.lon.None?
  {
    SnapshotAt(raw, Geo.HaversineKm(baseLat, baseLon, raw.lat, raw.lon, gc))
  }

  // ------------------------------------------------------------------ properties

  /** The snapshot carries the record over field by field, with the title stripped. */
  lemma SnapshotCopiesRecord(raw: RawListing, d: Option<real>)
    ensures var s := SnapshotAt(raw, d);
      SnapKey(s) == KeyOf(raw) && s.url == raw.url && s.title == Strip(raw.title)
      && s.category == raw.category && s.locationName == raw.locationName
      && s.lat == raw.lat && s.lon == raw.lon && s.photoUrl == raw.photoUrl
      && s.currency == raw.currency && s.priceEur == raw.priceValue
      && s.unitCount == raw.unitCount && s.weightKg == raw.weightKg
      && s.postedAt == raw.postedAt && s.distanceKm == d && s.feesPct == 0.12
      && s.raw == raw
  {
  }

  /** A farther listing is never penalised less. */
  lemma PenaltyNonIncreasing(d1: real, d2: real)
    requires d1 <= d2
    ensures DistancePenalty(Some(d2)) <= DistancePenalty(Some(d1))
  {
  }

  /** Of two snapshots of the same record, the farther one never has a higher flip score. */
  lemma FartherNeverScoresHigher(raw: RawListing, d1: real, d2: real)
    requires d1 <= d2
    ensures SnapshotAt(raw, Some(d2)).flipScore <= SnapshotAt(raw, Some(d1)).flipScore
  {
    var m := Max(0.0, BaseScore(raw));
    PenaltyNonIncreasing(d1, d2);
    MulMonotone(m, DistancePenalty(Some(d2)), DistancePenalty(Some(d1)));
  }

  lemma MulMonotone(m: real, p: real, q: real)
    requires m >= 0.0 && p <= q
    ensures m * p <= m * q
  {
  }

  /** The margin and its decomposition into fees and shipping. */
  lemma MarginFormula(raw: RawListing)
    ensures var s := SnapshotAt(raw, None);
      s.marginEstimateEur
        == raw.priceValue * (if LooksLikeSneakers(raw) then 1.35 else 1.2)
           - (raw.priceValue + 0.12 * raw.priceValue + s.shipEstimateEur)
  {
  }

  /** 500 euros for 20 kg of sneakers: fees 60, shipping 61, margin 54. */
  lemma WorkedExample(raw: RawListing)
    requires raw.priceValue == 500.0 && raw.weightKg == Some(20.0)
    requires Contains(Lower(raw.title), "sneaker")
    ensures Logistics.ApplyFees(raw.priceValue) == 60.0
    ensures SnapshotAt(raw, None).shipEstimateEur == 61.0
    ensures SnapshotAt(raw, None).marginEstimateEur == 54.0
  {
  }

  /** For a non-negative price the snapshot scores above zero exactly when its margin is positive. */
  lemma PositiveFlipIffPositiveMargin(raw: RawListing, d: Option<real>)
    requires raw.priceValue >= 0.0
    ensures SnapshotAt(raw, d).flipScore > 0.0 <==> Margin(raw) > 0.0
  {
    var t, m := TotalCost(raw), Margin(raw);
    assert t > 0.0;
    assert MarginPct(raw) == m / t;
    BaseScoreSign(m, t);
    assert SnapshotAt(raw, d).flipScore == FlipScore(raw, d);
  }

  /** The base score has the sign of the margin whenever the total cost is positive. */
  lemma BaseScoreSign(m: real, t: real)
    requires t > 0.0
    ensures 0.6 * (m / t) + 0.4 * (m / 100.0) > 0.0 <==> m > 0.0
  {
    var k := 0.6 / t + 0.004;
    assert k > 0.0;
    assert 0.6 * (m / t) + 0.4 * (m / 100.0) == m * k;
    SignOfProduct(m, k);
  }

  lemma SignOfProduct(a: real, k: real)
    requires k > 0.0
    ensures a * k > 0.0 <==> a > 0.0
  {
    if a > 0.0 {
      assert a * k > 0.0;
    } else {
      assert a * k <= 0.0;
    }
  }
}
