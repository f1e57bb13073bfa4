/**
 * The health-advisory lookup of the monitoring notebook: an AQI value is mapped to one
 * of six fixed advice strings through the inclusive breakpoints 50, 100, 150, 200, 300.
 */
module Advisory {
  const Satisfactory := "Air quality is satisfactory; air pollution poses little or no risk."
  const Acceptable := "Air quality is acceptable; however, some pollutants may be a concern for a small number of people."
  const SensitiveGroups := "Members of sensitive groups may experience health effects. The general public is less likely to be affected."
  const Unhealthy := "Everyone may begin to experience health effects; members of sensitive groups may experience more serious health effects."
  const HealthAlert := "Health alert: everyone may experience more serious health effects."
  const Emergency := "Health warnings of emergency conditions. The entire population is more likely to be affected."

  /** The six advisories, from the mildest tier to the most severe. */
  const Tips: seq<string> := [Satisfactory, Acceptable, SensitiveGroups, Unhealthy, HealthAlert, Emergency]

  /** Upper bounds (inclusive) of the first five tiers. */
  const Breakpoints: seq<real> := [50.0, 100.0, 150.0, 200.0, 300.0]

  /** `health_tips(aqi)`: the if/elif chain of the notebook. */
  function HealthTips(aqi: real): (tip: string)
    ensures tip in Tips
  {
    if aqi <= 50.0 then Satisfactory
    else if aqi <= 100.0 then Acceptable
    else if aqi <= 150.0 then SensitiveGroups
    else if aqi <= 200.0 then Unhealthy
    else if aqi <= 300.0 then HealthAlert
    else Emergency
  }

  /** The number of breakpoints strictly below `aqi`. */
  function CountBelow(bps: seq<real>, aqi: real): (n: nat)
    ensures n <= |bps|
  {
    if bps == [] then 0 else (if bps[0] < aqi then 1 else 0) + CountBelow(bps[1..], aqi)
  }

  /** The severity tier of an AQI value, defined independently of the if/elif chain. */
  function Tier(aqi: real): (t: nat)
    ensures t < |Tips|
  {
    CountBelow(Breakpoints, aqi)
  }

  /** The six advisories are pairwise different, so each value gets exactly one of them. */
  lemma TipsDistinct()
    ensures |Tips| == 6
    ensures forall i, j :: 0 <= i < j < |Tips| ==> Tips[i] != Tips[j]
  {
  }

  /** The advisory returned is the one of the value's tier. */
  lemma {:induction false} TipOfTier(aqi: real)
    ensures HealthTips(aqi) == Tips[Tier(aqi)]
  {
    var b := Breakpoints;
    assert CountBelow(b[4..], aqi) == if 300.0 < aqi then 1 else 0;
    assert CountBelow(b[3..], aqi) == (if 200.0 < aqi then 1 else 0) + CountBelow(b[4..], aqi);
    assert CountBelow(b[2..], aqi) == (if 150.0 < aqi then 1 else 0) + CountBelow(b[3..], aqi);
    assert CountBelow(b[1..], aqi) == (if 100.0 < aqi then 1 else 0) + CountBelow(b[2..], aqi);
  }

  /** More breakpoints lie below a larger value. */
  lemma {:induction false} CountBelowMonotone(bps: seq<real>, a: real, b: real)
    requires a <= b
    ensures CountBelow(bps, a) <= CountBelow(bps, b)
  {
    if bps != [] {
      CountBelowMonotone(bps[1..], a, b);
    }
  }

  /** The advisory tier never decreases as the AQI value grows. */
  lemma TierMonotone(a: real, b: real)
    requires a <= b
    ensures Tier(a) <= Tier(b)
    ensures HealthTips(a) == Tips[Tier(a)] && HealthTips(b) == Tips[Tier(b)]
  {
    CountBelowMonotone(Breakpoints, a, b);
    TipOfTier(a);
    TipOfTier(b);
  }

  /** The breakpoints are inclusive: 50 and 300 stay in the lower tier, 51 and 301 do not. */
  lemma Boundaries()
    ensures HealthTips(50.0) == Satisfactory && HealthTips(51.0) == Acceptable
    ensures HealthTips(100.0) == Acceptable && HealthTips(101.0) == SensitiveGroups
    ensures HealthTips(150.0) == SensitiveGroups && HealthTips(151.0) == Unhealthy
    ensures HealthTips(200.0) == Unhealthy && HealthTips(201.0) == HealthAlert
    ensures HealthTips(300.0) == HealthAlert && HealthTips(301.0) == Emergency
  {
  }

  /** Every value above 300 gets the emergency advisory, the top tier. */
  lemma EmergencyAbove300(aqi: real)
    requires aqi > 300.0
    ensures HealthTips(aqi) == Emergency && Tier(aqi) == |Tips| - 1
  {
    TipOfTier(aqi);
  }

  /** A value is in tier k exactly when it lies above the k-th breakpoint and at or below the next. */
  lemma TierInterval(aqi: real, k: nat)
    requires k < |Tips|
    ensures Tier(aqi) == k <==>
      (k == 0 || Breakpoints[k - 1] < aqi) && (k == |Tips| - 1 || aqi <= Breakpoints[k])
  {
    TipOfTier(aqi);
  }
}
