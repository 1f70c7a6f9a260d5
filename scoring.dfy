/**
 * Rank score used by the digest: the flip score, boosted for listings that were
 * stored recently.  The clock is a parameter `now`; times are whole seconds.
 */
module Scoring {
  import opened Wrappers

  /** Hours between `createdAt` and `now` (negative for a listing from the future). */
  function AgeHours(createdAt: int, now: int): real {
    (now - createdAt) as real / 3600.0
  }

  /** The boost for a known age: a step function of the age in hours. */
  function BoostForAge(ageHours: real): (b: real)
    ensures 1.0 <= b <= 1.15
    ensures ageHours < 6.0 <==> b == 1.15
    ensures b == 1.0 <==> ageHours >= 72.0
  {
    if ageHours < 6.0 then 1.15
    else if ageHours < 24.0 then 1.08
    else if ageHours < 72.0 then 1.02
    else 1.0
  }

  function RecencyBoost(createdAt: Option<int>, now: int): (b: real)
    ensures 1.0 <= b <= 1.15
    ensures createdAt.None? ==> b == 1.0
  {
    if createdAt.None? then 1.0 else BoostForAge(AgeHours(createdAt.value, now))
  }

  /** A missing flip score counts as zero. */
  function FinalRankScore(flipScore: Option<real>, createdAt: Option<int>, now: int): (s: real)
    ensures flipScore.None? ==> s == 0.0
    ensures flipScore.Some? && flipScore.value >= 0.0 ==>
              flipScore.value <= s <= 1.15 * flipScore.value
  {
    flipScore.GetOr(0.0) * RecencyBoost(createdAt, now)
  }

  /** The four age bands. */
  lemma BoostBands(a: real)
    ensures a < 6.0 ==> BoostForAge(a) == 1.15
    ensures 6.0 <= a < 24.0 ==> BoostForAge(a) == 1.08
    ensures 24.0 <= a < 72.0 ==> BoostForAge(a) == 1.02
    ensures 72.0 <= a ==> BoostForAge(a) == 1.0
  {
  }

  /** An older listing never gets a larger boost. */
  lemma BoostNonIncreasing(a1: real, a2: real)
    requires a1 <= a2
    ensures BoostForAge(a2) <= BoostForAge(a1)
  {
  }

  /** Between two stored listings, the one stored earlier never gets a larger boost. */
  lemma RecencyBoostOlderNotHigher(c1: int, c2: int, now: int)
    requires c1 <= c2
    ensures RecencyBoost(Some(c1), now) <= RecencyBoost(Some(c2), now)
  {
    assert AgeHours(c2, now) <= AgeHours(c1, now);
    BoostNonIncreasing(AgeHours(c2, now), AgeHours(c1, now));
  }
}
