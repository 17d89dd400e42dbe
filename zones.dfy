/** The heart-rate zone card: four labelled ranges, the upper two scaled to the patient's age. */
module Zones {
  import opened Common
  import opened Dashboard

  datatype ZoneLabels = ZoneLabels(resting: string, normal: string, elevated: string, danger: string)

  const RestingLabel: string := "50-70 BPM"
  const NormalLabel: string := "70-100 BPM"

  /** The rate where the danger zone starts: 120 without an age, otherwise the age
      threshold rounded to the nearest integer. */
  function DangerLowerBound(age: int): (b: int)
    ensures age == 0 ==> b == 120
    ensures age != 0 ==> b as real - 0.5 <= DangerThreshold(age) < b as real + 0.5
  {
    if age == 0 then 120 else RoundReal(DangerThreshold(age))
  }

  /** `getZones`. */
  function GetZones(age: int): (z: ZoneLabels)
    ensures z.resting == RestingLabel && z.normal == NormalLabel
    ensures z.elevated == "100-" + IntToString(DangerLowerBound(age)) + " BPM"
    ensures z.danger == IntToString(DangerLowerBound(age)) + "+ BPM"
  {
    if age == 0 then
      ZoneLabels(RestingLabel, NormalLabel, "100-120 BPM", "120+ BPM")
    else
      var bound := IntToString(RoundReal(DangerThreshold(age)));
      ZoneLabels(RestingLabel, NormalLabel, "100-" + bound + " BPM", bound + "+ BPM")
  }

  /** Without an age the card shows the fixed default zones. */
  lemma DefaultZones()
    ensures GetZones(0) == ZoneLabels("50-70 BPM", "70-100 BPM", "100-120 BPM", "120+ BPM")
  {
    assert NatToString(12) == "12";
    assert IntToString(120) == "120";
  }

  /** The elevated zone ends at the number where the danger zone begins. */
  lemma ElevatedMeetsDanger(age: int)
    ensures var z := GetZones(age);
            |z.elevated| > 8 && |z.danger| > 5 &&
            z.elevated[4..|z.elevated| - 4] == z.danger[..|z.danger| - 5]
  {
  }

  /** The resting and normal zones are the same for every age. */
  lemma FixedLowerZones(a1: int, a2: int)
    ensures GetZones(a1).resting == GetZones(a2).resting
    ensures GetZones(a1).normal == GetZones(a2).normal
  {
  }

  /** For patients with an age, an older patient's danger zone never starts higher. */
  lemma DangerBoundNonIncreasing(a1: int, a2: int)
    requires a1 != 0 && a2 != 0 && a1 <= a2
    ensures DangerLowerBound(a2) <= DangerLowerBound(a1)
  {
    RoundRealMonotone(DangerThreshold(a2), DangerThreshold(a1));
  }

  /** The zone card and the status card agree away from the rounded boundary: a rate above
      the danger zone's start is critical, one below it (and not under 50) is not. */
  lemma ZonesAgreeWithStatus(age: int, heartRate: int)
    requires age != 0 && heartRate != 0
    ensures heartRate > DangerLowerBound(age) ==> GetHealthStatus(age, heartRate) == Danger
    ensures LowDangerRate <= heartRate < DangerLowerBound(age) ==> GetHealthStatus(age, heartRate) != Danger
  {
  }
}
