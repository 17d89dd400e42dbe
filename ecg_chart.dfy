/** The ECG card: the heart rate estimated from the interval between the last two R-wave
    peaks, and the peak amplitude it displays. */
module EcgChart {
  import opened Common

  /** One ECG sample: `time` in milliseconds and `amplitude` in millivolts. */
  datatype EcgSample = EcgSample(time: real, amplitude: real)

  /** Fewer samples than this give no estimate. */
  const MinSamples: nat := 10

  /** A sample above this amplitude counts as an R-wave peak. */
  const PeakThreshold: real := 0.8

  /** The peaks of a trace, in trace order (`filter(point => point.amplitude > 0.8)`). */
  function Peaks(data: seq<EcgSample>): (r: seq<EcgSample>)
    ensures |r| <= |data|
    ensures forall x :: x in r <==> x in data && x.amplitude > PeakThreshold
  {
    if data == [] then []
    else Peaks(data[..|data| - 1]) + (if data[|data| - 1].amplitude > PeakThreshold then [data[|data| - 1]] else [])
  }

  /** Filtering a concatenation filters each part. */
  lemma {:induction false} PeaksAppend(a: seq<EcgSample>, b: seq<EcgSample>)
    ensures Peaks(a + b) == Peaks(a) + Peaks(b)
  {
    if b != [] {
      var init := b[..|b| - 1];
      PeaksAppend(a, init);
      assert (a + b)[..|a + b| - 1] == a + init;
    } else {
      assert a + b == a;
    }
  }

  /** A single sample is its own peak exactly when it is above the threshold; with
      `PeaksAppend` this fixes `Peaks` on every trace, order included. */
  lemma PeaksOfSingle(x: EcgSample)
    ensures Peaks([x]) == if x.amplitude > PeakThreshold then [x] else []
  {
    assert [x][..0] == [];
  }

  /** A trace with no sample above the threshold has no peaks. */
  lemma {:induction false} NoPeaksInQuietTrace(data: seq<EcgSample>)
    requires forall i :: 0 <= i < |data| ==> data[i].amplitude <= PeakThreshold
    ensures Peaks(data) == []
  {
    if data != [] {
      NoPeaksInQuietTrace(data[..|data| - 1]);
    }
  }

  /** The rate implied by two successive peaks: `round(60 / seconds between them)`, and 0 when
      the second is not later than the first. */
  function IntervalBpm(first: EcgSample, second: EcgSample): (bpm: int)
    ensures bpm >= 0
    ensures second.time <= first.time ==> bpm == 0
    ensures second.time > first.time ==>
      bpm as real - 0.5 <= 60000.0 / (second.time - first.time) < bpm as real + 0.5
  {
    var seconds := (second.time - first.time) / 1000.0;
    if seconds > 0.0 then
      RoundRealMonotone(0.0, 60.0 / seconds);
      RoundRealOfInt(0);
      assert 60.0 / seconds == 60000.0 / (second.time - first.time);
      RoundReal(60.0 / seconds)
    else 0
  }

  /** `calculateHeartRateFromEcg`. */
  function BpmFromEcg(data: seq<EcgSample>): (bpm: int)
    ensures bpm >= 0
    ensures |data| < MinSamples ==> bpm == 0
    ensures |Peaks(data)| < 2 ==> bpm == 0
    ensures |data| >= MinSamples && |Peaks(data)| >= 2 ==>
      bpm == IntervalBpm(Peaks(data)[|Peaks(data)| - 2], Peaks(data)[|Peaks(data)| - 1])
  {
    if |data| < MinSamples then 0
    else
      var peaks := Peaks(data);
      if |peaks| < 2 then 0
      else
        var lastTwo := peaks[|peaks| - 2..];
        IntervalBpm(lastTwo[0], lastTwo[1])
  }

  /** The card's estimate as written, for a trace prop that may be missing: the estimate
      reads `ecgData.length` on every render, which throws on a missing trace, so the card
      then yields no estimate at all (`None`). */
  function BpmFromEcgAsWritten(data: Option<seq<EcgSample>>): (r: Option<int>)
    ensures r.None? <==> data.None?
    ensures data.Some? ==> r == Some(BpmFromEcg(data.value))
  {
    match data
    case None => None
    case Some(trace) => Some(BpmFromEcg(trace))
  }

  /** The keys of the object the heart-rate hook returns. */
  const HookResultKeys: set<string> :=
    {"currentHeartRate", "averageHeartRate", "isConnected", "signalQuality", "lastUpdate",
     "realtimeData", "sendCommand"}

  /** Destructuring `key` from an object with keys `keys`: the value the object holds for
      it (`value`) when it has the key, and undefined otherwise. */
  function Destructure(keys: set<string>, key: string, value: seq<EcgSample>): (r: Option<seq<EcgSample>>)
    ensures r.Some? <==> key in keys
    ensures r.Some? ==> r.value == value
  {
    if key in keys then Some(value) else None
  }

  /** The trace the dashboard hands the card is `ecgData` destructured from the hook's
      result, which has no such key, so the card's render throws whatever the trace. */
  lemma DashboardCardThrows(trace: seq<EcgSample>)
    ensures Destructure(HookResultKeys, "ecgData", trace) == None
    ensures BpmFromEcgAsWritten(Destructure(HookResultKeys, "ecgData", trace)) == None
  {
  }

  /** The intended estimate: a missing trace reads as an empty one, which shows no rate. */
  function BpmFromEcgOrEmpty(data: Option<seq<EcgSample>>): (bpm: int)
    ensures bpm >= 0
    ensures data.None? ==> bpm == 0
    ensures data.Some? ==> bpm == BpmFromEcg(data.value)
    ensures BpmFromEcgAsWritten(data).Some? ==> BpmFromEcgAsWritten(data).value == bpm
  {
    BpmFromEcg(data.GetOr([]))
  }

  /** Only the last two peaks matter: samples before a stretch that already holds two peaks
      (and enough samples) do not change the estimate. */
  lemma EarlierSamplesIgnored(earlier: seq<EcgSample>, recent: seq<EcgSample>)
    requires |recent| >= MinSamples
    requires |Peaks(recent)| >= 2
    ensures BpmFromEcg(earlier + recent) == BpmFromEcg(recent)
  {
    var p, q := Peaks(earlier + recent), Peaks(recent);
    PeaksAppend(earlier, recent);
    LastTwoOfAppend(Peaks(earlier), q);
    assert |earlier + recent| >= MinSamples;
  }

  lemma LastTwoOfAppend(e: seq<EcgSample>, q: seq<EcgSample>)
    requires |q| >= 2
    ensures (e + q)[|e + q| - 2] == q[|q| - 2] && (e + q)[|e + q| - 1] == q[|q| - 1]
  {
  }

  /** Quiet samples after the last peak do not change the estimate either. */
  lemma QuietTailIgnored(data: seq<EcgSample>, quiet: seq<EcgSample>)
    requires |data| >= MinSamples
    requires forall i :: 0 <= i < |quiet| ==> quiet[i].amplitude <= PeakThreshold
    ensures BpmFromEcg(data + quiet) == BpmFromEcg(data)
  {
    PeaksAppend(data, quiet);
    NoPeaksInQuietTrace(quiet);
    assert Peaks(data + quiet) == Peaks(data);
  }

  /** The displayed peak amplitude, `Math.max(...ecgData.map(d => d.amplitude))`. */
  function MaxAmplitude(data: seq<EcgSample>): (m: real)
    requires data != []
    ensures forall i :: 0 <= i < |data| ==> data[i].amplitude <= m
    ensures exists i :: 0 <= i < |data| && data[i].amplitude == m
  {
    if |data| == 1 then data[0].amplitude
    else
      var rest := MaxAmplitude(data[..|data| - 1]);
      if data[|data| - 1].amplitude > rest then data[|data| - 1].amplitude else rest
  }

  /** A trace with a peak shows a peak amplitude above the threshold. */
  lemma PeaksRaiseMaxAmplitude(data: seq<EcgSample>)
    requires data != []
    requires Peaks(data) != []
    ensures MaxAmplitude(data) > PeakThreshold
  {
    PeakComesFromTrace(data, |Peaks(data)| - 1);
  }

  /** Every peak is a sample of the trace. */
  lemma {:induction false} PeakComesFromTrace(data: seq<EcgSample>, k: nat)
    requires k < |Peaks(data)|
    ensures exists i :: 0 <= i < |data| && data[i] == Peaks(data)[k]
  {
    var init := data[..|data| - 1];
    if k < |Peaks(init)| {
      PeakComesFromTrace(init, k);
      var i :| 0 <= i < |init| && init[i] == Peaks(init)[k];
      assert data[i] == Peaks(data)[k];
    } else {
      assert Peaks(data)[k] == data[|data| - 1];
    }
  }
}
