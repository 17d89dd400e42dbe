/** The dashboard's health classification of the current heart rate against the patient's
    age, and the alert it raises. */
module Dashboard {
  import opened Common

  /** Below this rate a reading is critical whatever the age. */
  const LowDangerRate: int := 50

  /** Above this rate a non-critical reading is elevated. */
  const ElevatedRate: int := 100

  /** The range the alert dialog quotes. */
  const SafeRangeLabel: string := "60-100"

  datatype HealthStatus = Unknown | Danger | Warning | Healthy {
    /** The `status` key the status card styles by. */
    function Name(): string {
      match this
      case Unknown => "unknown"
      case Danger => "danger"
      case Warning => "warning"
      case Healthy => "healthy"
    }

    function Text(): string {
      match this
      case Unknown => "Unknown"
      case Danger => "Critical"
      case Warning => "Elevated"
      case Healthy => "Healthy"
    }

    function Icon(): string {
      match this
      case Unknown => "?"
      case Danger => "exclamation-triangle"
      case Warning => "exclamation"
      case Healthy => "check"
    }
  }

  /** 85% of the age-predicted maximum `220 - age`. */
  function DangerThreshold(age: int): real {
    (220 - age) as real * 0.85
  }

  /** Each year of age lowers the threshold by 0.85 BPM. */
  lemma DangerThresholdDecreasing(a1: int, a2: int)
    requires a1 < a2
    ensures DangerThreshold(a2) <= DangerThreshold(a1) - 0.85
  {
  }

  /** The critical condition shared by the status and the alert. */
  predicate Critical(age: int, heartRate: int) {
    heartRate as real > DangerThreshold(age) || heartRate < LowDangerRate
  }

  /** `getHealthStatus`: unknown without an age or a rate, otherwise exactly one of
      critical, elevated above 100 BPM, or healthy. */
  function GetHealthStatus(age: int, heartRate: int): (s: HealthStatus)
    ensures s == Unknown <==> age == 0 || heartRate == 0
    ensures s == Danger <==> age != 0 && heartRate != 0 && Critical(age, heartRate)
    ensures s == Warning <==> age != 0 && heartRate != 0 && !Critical(age, heartRate) && heartRate > ElevatedRate
    ensures s == Healthy <==> age != 0 && heartRate != 0 && !Critical(age, heartRate) && heartRate <= ElevatedRate
  {
    if age == 0 || heartRate == 0 then Unknown
    else if Critical(age, heartRate) then Danger
    else if heartRate > ElevatedRate then Warning
    else Healthy
  }

  /** Names, texts and icons tell the four statuses apart. */
  lemma StatusLabelsDistinct(s: HealthStatus, t: HealthStatus)
    requires s != t
    ensures s.Name() != t.Name() && s.Text() != t.Text() && s.Icon() != t.Icon()
  {
  }

  /** A healthy rate lies in [50, 100] and below the age threshold. */
  lemma HealthyMeansInRange(age: int, heartRate: int)
    requires GetHealthStatus(age, heartRate) == Healthy
    ensures LowDangerRate <= heartRate <= ElevatedRate
    ensures heartRate as real <= DangerThreshold(age)
  {
  }

  datatype AlertData = AlertData(heartRate: int, message: string, safeRange: string)

  const AlertOpening: string := "The patient's heart rate has "
  const LimitsText: string := " safe limits ("
  const ClosingText: string := " BPM). Please check on the patient immediately."

  /** Where the rate begins in the alert text: after the opening, the direction word and
      the limits phrase. */
  function RateStart(age: int, heartRate: int): nat {
    |AlertOpening| + (if heartRate as real > DangerThreshold(age) then 8 else 12) + |LimitsText|
  }

  /** The alert text: "exceeded" above the threshold and "fallen below" otherwise, then the
      limits phrase, the rate in decimal and the closing request. */
  function AlertMessage(age: int, heartRate: int): (m: string)
    ensures |AlertOpening| + 12 <= |m| && m[..|AlertOpening|] == AlertOpening
    ensures m[|AlertOpening|..|AlertOpening| + 8] == "exceeded" <==> heartRate as real > DangerThreshold(age)
    ensures heartRate as real <= DangerThreshold(age) ==> m[|AlertOpening|..|AlertOpening| + 12] == "fallen below"
    ensures var k, rate := RateStart(age, heartRate), IntToString(heartRate);
            |m| == k + |rate| + |ClosingText| &&
            m[k - |LimitsText|..k] == LimitsText &&
            m[k..k + |rate|] == rate &&
            m[k + |rate|..] == ClosingText
  {
    var direction := if heartRate as real > DangerThreshold(age) then "exceeded" else "fallen below";
    var head := AlertOpening + direction;
    var m := head + LimitsText + IntToString(heartRate) + ClosingText;
    PartsOfConcat(head, LimitsText, IntToString(heartRate), ClosingText);
    PartsOfConcat(AlertOpening, direction, "", "");
    assert head + "" + "" == head;
    assert m[|AlertOpening|..|head|] == direction;
    assert m[|AlertOpening|..|AlertOpening| + 8] == direction[..8];
    assert direction[..8][0] == direction[0];
    m
  }

  lemma PartsOfConcat(a: string, b: string, c: string, d: string)
    ensures var m := a + b + c + d;
            m[..|a|] == a && m[|a|..|a| + |b|] == b &&
            m[|a| + |b|..|a| + |b| + |c|] == c && m[|a| + |b| + |c|..] == d
  {
  }

  /** The rate can be read back from the alert text. */
  lemma AlertRateReadBack(age: int, heartRate: nat)
    ensures var k, m := RateStart(age, heartRate), AlertMessage(age, heartRate);
            k + |NatToString(heartRate)| <= |m| &&
            DecimalValue(m[k..k + |NatToString(heartRate)|]) == heartRate
  {
    NatToStringRoundTrip(heartRate);
  }

  /** The alert that `checkForAlerts` would show for a rate, if any: none without an age, and
      otherwise one exactly under the critical condition, carrying the rate and "60-100". */
  function AlertFor(age: int, heartRate: int): (a: Option<AlertData>)
    ensures age == 0 ==> a.None?
    ensures a.Some? <==> age != 0 && Critical(age, heartRate)
    ensures a.Some? ==> a.value.heartRate == heartRate && a.value.safeRange == SafeRangeLabel
    ensures a.Some? ==> a.value.message == AlertMessage(age, heartRate)
  {
    if age == 0 then None
    else if Critical(age, heartRate) then Some(AlertData(heartRate, AlertMessage(age, heartRate), SafeRangeLabel))
    else None
  }

  /** The rate display only reports positive rates; for those an alert appears exactly when
      the status card reads critical. */
  lemma AlertIffCritical(age: int, heartRate: int)
    requires heartRate > 0
    ensures AlertFor(age, heartRate).Some? <==> GetHealthStatus(age, heartRate) == Danger
  {
  }

  /** The dashboard's own state: the patient form's values and the alert dialog. */
  class Monitor {
    var patientName: string
    var patientAge: int
    var showAlert: bool
    var alertData: AlertData

    /** The initial `useState` values. */
    constructor ()
      ensures patientName == "" && patientAge == 0
      ensures !showAlert && alertData == AlertData(0, "", "")
    {
      patientName := "";
      patientAge := 0;
      showAlert := false;
      alertData := AlertData(0, "", "");
    }

    /** The status card's value for the current heart rate. */
    function Status(currentHeartRate: int): (s: HealthStatus)
      reads this
      ensures s == Unknown <==> patientAge == 0 || currentHeartRate == 0
    {
      GetHealthStatus(patientAge, currentHeartRate)
    }

    /** `handlePatientUpdate`: the form's values replace the patient. */
    method HandlePatientUpdate(name: string, age: int)
      modifies this
      ensures patientName == name && patientAge == age
      ensures showAlert == old(showAlert) && alertData == old(alertData)
    {
      patientName := name;
      patientAge := age;
    }

    /** `checkForAlerts`: under the critical condition the dialog opens with a fresh alert;
        otherwise the dialog and its data are left as they were. */
    method CheckForAlerts(heartRate: int)
      modifies this
      ensures AlertFor(patientAge, heartRate).Some? ==> showAlert && alertData == AlertFor(patientAge, heartRate).value
      ensures AlertFor(patientAge, heartRate).None? ==> showAlert == old(showAlert) && alertData == old(alertData)
      ensures patientName == old(patientName) && patientAge == old(patientAge)
    {
      if patientAge != 0 && Critical(patientAge, heartRate) {
        alertData := AlertData(heartRate, AlertMessage(patientAge, heartRate), SafeRangeLabel);
        showAlert := true;
      }
    }

    /** The dialog's close handler. */
    method CloseAlert()
      modifies this
      ensures !showAlert
      ensures patientName == old(patientName) && patientAge == old(patientAge) && alertData == old(alertData)
    {
      showAlert := false;
    }
  }
}
