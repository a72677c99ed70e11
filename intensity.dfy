/** The intensity rules of lib/intensity-utils.ts: an estimate of the felt
    intensity (1..9 on the MMI scale) from an earthquake's magnitude and
    depth, its textual description, and its risk level. Magnitude and depth
    are finite numbers. */
module IntensityUtils {
  import opened Levels

  const MinIntensity: int := 1
  const MaxIntensity: int := 9

  /** `Math.ceil`: the least integer not below `x`. */
  function Ceil(x: real): (n: int)
    ensures x <= n as real < x + 1.0
  {
    if x.Floor as real == x then x.Floor else x.Floor + 1
  }

  /** The depth correction: shallow earthquakes (under 30 km) are felt one
      level stronger, deep ones (over 100 km) one level weaker. */
  function DepthAdjustment(depth: real): int
  {
    if depth < 30.0 then 1 else if depth > 100.0 then -1 else 0
  }

  /** estimateIntensity: `ceil(magnitude - 1)`, corrected for depth, clamped
      to 1..9. Inside the scale the magnitude lies in the unit band just
      above the estimate (less the depth correction); at either end of the
      scale it lies beyond that end's band. */
  function EstimateIntensity(magnitude: real, depth: real): (intensity: int)
    ensures MinIntensity <= intensity <= MaxIntensity
    ensures MinIntensity < intensity < MaxIntensity ==>
              (intensity - DepthAdjustment(depth)) as real < magnitude
              && magnitude <= (intensity - DepthAdjustment(depth) + 1) as real
    ensures intensity == MinIntensity ==> magnitude <= (MinIntensity + 1 - DepthAdjustment(depth)) as real
    ensures intensity == MaxIntensity ==> magnitude > (MaxIntensity - DepthAdjustment(depth)) as real
  {
    var base := Ceil(magnitude - 1.0);
    var adjusted :=
      if depth < 30.0 then base + 1
      else if depth > 100.0 then base - 1
      else base;
    if adjusted < MinIntensity then MinIntensity
    else if adjusted > MaxIntensity then MaxIntensity
    else adjusted
  }

  /** Before clamping the estimate is `ceil(magnitude - 1)` shifted by the
      depth correction: it equals that value whenever the value is on the
      scale, and is the nearer end of the scale otherwise. */
  lemma EstimateIsClampedShift(magnitude: real, depth: real)
    ensures var raw := Ceil(magnitude - 1.0) + DepthAdjustment(depth);
      && (MinIntensity <= raw <= MaxIntensity ==> EstimateIntensity(magnitude, depth) == raw)
      && (raw < MinIntensity ==> EstimateIntensity(magnitude, depth) == MinIntensity)
      && (raw > MaxIntensity ==> EstimateIntensity(magnitude, depth) == MaxIntensity)
  {
  }

  /** A stronger earthquake at the same depth is never estimated weaker. */
  lemma EstimateMonotoneInMagnitude(m1: real, m2: real, depth: real)
    requires m1 <= m2
    ensures EstimateIntensity(m1, depth) <= EstimateIntensity(m2, depth)
  {
    assert Ceil(m1 - 1.0) <= Ceil(m2 - 1.0);
  }

  /** A deeper earthquake of the same magnitude is never estimated stronger. */
  lemma EstimateAntitoneInDepth(magnitude: real, d1: real, d2: real)
    requires d1 <= d2
    ensures EstimateIntensity(magnitude, d2) <= EstimateIntensity(magnitude, d1)
  {
    assert DepthAdjustment(d2) <= DepthAdjustment(d1);
  }

  /** One row of the MMI table `INTENSITY_LEVELS`. */
  datatype IntensityLevel = IntensityLevel(level: int, name: string, color: string)

  const IntensityLevels: seq<IntensityLevel> := [
    IntensityLevel(1, "Tidak Terasa", "bg-green-500"),
    IntensityLevel(2, "Sangat Lemah", "bg-green-400"),
    IntensityLevel(3, "Lemah", "bg-yellow-300"),
    IntensityLevel(4, "Sedang", "bg-yellow-500"),
    IntensityLevel(5, "Agak Kuat", "bg-orange-400"),
    IntensityLevel(6, "Kuat", "bg-orange-500"),
    IntensityLevel(7, "Sangat Kuat", "bg-red-500"),
    IntensityLevel(8, "Dahsyat", "bg-red-700"),
    IntensityLevel(9, "Bencana", "bg-red-900")
  ]

  /** The table row shown for an earthquake, `INTENSITY_LEVELS[intensity - 1]`:
      the index is always in bounds and the row is the estimated level's. */
  function IntensityInfo(magnitude: real, depth: real): (info: IntensityLevel)
    ensures info in IntensityLevels
    ensures info.level == EstimateIntensity(magnitude, depth)
  {
    var intensity := EstimateIntensity(magnitude, depth);
    assert forall k :: 0 <= k < |IntensityLevels| ==> IntensityLevels[k].level == k + 1;
    IntensityLevels[intensity - 1]
  }

  const UnknownDescription: string := "Tidak diketahui"

  const Descriptions: map<int, string> := map[
    1 := "Tidak terasa",
    2 := "Terasa sangat ringan",
    3 := "Terasa ringan",
    4 := "Terasa sedang",
    5 := "Terasa kuat",
    6 := "Terasa sangat kuat",
    7 := "Kerusakan ringan",
    8 := "Kerusakan sedang",
    9 := "Kerusakan parah"
  ]

  /** getIntensityDescription: the table entry for a level on the scale and
      "Tidak diketahui" for anything else. */
  function IntensityDescription(intensity: int): (description: string)
    ensures description != UnknownDescription <==> MinIntensity <= intensity <= MaxIntensity
    ensures MinIntensity <= intensity <= MaxIntensity ==> description in Descriptions.Values
    ensures forall j :: MinIntensity <= j <= MaxIntensity && MinIntensity <= intensity <= MaxIntensity && j != intensity
              ==> j in Descriptions && Descriptions[j] != description
  {
    if intensity in Descriptions then Descriptions[intensity] else UnknownDescription
  }

  /** getRiskLevel: low up to 3, medium for 4 and 5, high for 6 and 7,
      critical from 8. */
  function RiskLevel(intensity: int): (risk: Level)
    ensures risk == Low <==> intensity <= 3
    ensures risk == Medium <==> 4 <= intensity <= 5
    ensures risk == High <==> 6 <= intensity <= 7
    ensures risk == Critical <==> intensity >= 8
  {
    if intensity <= 3 then Low
    else if intensity <= 5 then Medium
    else if intensity <= 7 then High
    else Critical
  }

  /** A higher intensity never has a lower risk level. */
  lemma RiskLevelMonotone(i1: int, i2: int)
    requires i1 <= i2
    ensures Rank(RiskLevel(i1)) <= Rank(RiskLevel(i2))
  {
  }

  /** The risk of an estimate never falls as the magnitude grows. */
  lemma EstimatedRiskMonotone(m1: real, m2: real, depth: real)
    requires m1 <= m2
    ensures Rank(RiskLevel(EstimateIntensity(m1, depth))) <= Rank(RiskLevel(EstimateIntensity(m2, depth)))
  {
    EstimateMonotoneInMagnitude(m1, m2, depth);
    RiskLevelMonotone(EstimateIntensity(m1, depth), EstimateIntensity(m2, depth));
  }
}
