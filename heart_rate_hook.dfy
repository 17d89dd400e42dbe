/** The browser-side live state of the dashboard: the values the socket callbacks keep
    (current and blended average heart rate, connection flag, signal quality, a rolling chart
    buffer) and the guarded command sender. */
module HeartRateHook {
  import opened Common

  /** Number of points the live chart keeps (`slice(-20)`). */
  const WindowSize: nat := 20

  /** Spacing of the seeded chart points, in milliseconds. */
  const SeedSpacingMillis: int := 1000

  /** One point of the live chart; `time` is the wall-clock instant in milliseconds that the
      hook renders as a clock string. */
  datatype ChartPoint = ChartPoint(time: int, heartRate: int)

  /** `WebSocket.readyState`. */
  datatype ReadyState = Connecting | Open | Closing | Closed

  /** A socket frame after `JSON.parse`: either unparseable, or an object with a `type` tag,
      a `heartRate` and an optional (or falsy) `signalQuality`. */
  datatype SocketMessage =
    | Unparseable
    | Parsed(kind: string, heartRate: int, signalQuality: Option<real>)

  /** The average updater: the first sample becomes the average (0 means "none yet"),
      later samples are blended in with equal weight and rounded. */
  function Blend(prev: int, sample: int): (avg: int)
    ensures prev == 0 ==> avg == sample
    ensures prev != 0 ==> prev + sample <= 2 * avg <= prev + sample + 1
  {
    if prev == 0 then sample else RoundReal((prev + sample) as real / 2.0)
  }

  /** A blended average lies between the previous average and the new sample. */
  lemma BlendBetween(prev: int, sample: int)
    requires prev != 0
    ensures Min(prev, sample) <= Blend(prev, sample)
    ensures Blend(prev, sample) <= if prev <= sample then sample else prev
  {
    var lo := Min(prev, sample);
    var hi := if prev <= sample then sample else prev;
    RoundRealBetween((prev + sample) as real / 2.0, lo, hi);
  }

  /** Readings of 70 and then 80 give averages 70 and then 75. */
  lemma BlendExample()
    ensures Blend(0, 70) == 70
    ensures Blend(Blend(0, 70), 80) == 75
  {
    RoundRealOfInt(75);
  }

  /** The average shown after a stream of samples, starting from the hook's initial 0. */
  function AverageAfter(samples: seq<int>): int {
    if samples == [] then 0 else Blend(AverageAfter(samples[..|samples| - 1]), samples[|samples| - 1])
  }

  /** When every sample lies in a range of positive rates, so does the average from the
      first sample on: the "no average yet" sentinel 0 never comes back. */
  lemma {:induction false} AverageAfterInRange(samples: seq<int>, lo: int, hi: int)
    requires 0 < lo
    requires forall i :: 0 <= i < |samples| ==> lo <= samples[i] <= hi
    ensures samples == [] ==> AverageAfter(samples) == 0
    ensures samples != [] ==> lo <= AverageAfter(samples) <= hi
  {
    if samples != [] {
      var init := samples[..|samples| - 1];
      AverageAfterInRange(init, lo, hi);
      if init != [] {
        BlendBetween(AverageAfter(init), samples[|samples| - 1]);
      }
    }
  }

  /** The buffer updater: append the point and keep at most the last `WindowSize` points. */
  function SlideWindow(buffer: seq<ChartPoint>, point: ChartPoint): (r: seq<ChartPoint>)
    ensures |r| == Min(|buffer| + 1, WindowSize)
    ensures r[|r| - 1] == point
    ensures forall i :: 0 <= i < |r| - 1 ==> r[i] == buffer[|buffer| + 1 - |r| + i]
  {
    var s := buffer + [point];
    if |s| <= WindowSize then s else s[|s| - WindowSize..]
  }

  /** On a full buffer the oldest point is dropped and nothing else moves. */
  lemma SlideFullWindow(buffer: seq<ChartPoint>, point: ChartPoint)
    requires |buffer| == WindowSize
    ensures SlideWindow(buffer, point) == buffer[1..] + [point]
  {
    var r := SlideWindow(buffer, point);
    assert forall i :: 0 <= i < |r| ==> r[i] == (buffer[1..] + [point])[i];
  }

  /** The chart seed: twenty zero readings one second apart, the last one at `now`. */
  method InitialChartData(now: int) returns (data: seq<ChartPoint>)
    ensures |data| == WindowSize
    ensures forall k :: 0 <= k < |data| ==> data[k] == ChartPoint(now - (WindowSize - 1 - k) * SeedSpacingMillis, 0)
    ensures forall j, k :: 0 <= j < k < |data| ==> data[j].time < data[k].time
  {
    data := [];
    var i: int := WindowSize - 1;
    while i >= 0
      invariant -1 <= i <= WindowSize - 1
      invariant |data| == WindowSize - 1 - i
      invariant forall k :: 0 <= k < |data| ==> data[k] == ChartPoint(now - (WindowSize - 1 - k) * SeedSpacingMillis, 0)
    {
      data := data + [ChartPoint(now - i * SeedSpacingMillis, 0)];
      i := i - 1;
    }
  }

  /** The state cells of the hook and the callbacks that update them. */
  class LiveState {
    var currentHeartRate: int
    var averageHeartRate: int
    var isConnected: bool
    var signalQuality: real
    var lastUpdate: string
    var realtimeData: seq<ChartPoint>
    /** Whether `setSocket` has stored a socket (the cell starts as `null`). */
    var hasSocket: bool
    /** The heart rates of every `heartRate` message handled so far. */
    ghost var received: seq<int>

    ghost predicate Valid()
      reads this
    {
      && |realtimeData| <= WindowSize
      && averageHeartRate == AverageAfter(received)
      && (received == [] ==> currentHeartRate == 0)
      && (received != [] ==> currentHeartRate == received[|received| - 1])
    }

    /** The initial values of the `useState` cells. */
    constructor ()
      ensures Valid()
      ensures currentHeartRate == 0 && averageHeartRate == 0 && !isConnected
      ensures signalQuality == 0.0 && lastUpdate == "Never" && realtimeData == []
      ensures !hasSocket && received == []
    {
      currentHeartRate := 0;
      averageHeartRate := 0;
      isConnected := false;
      signalQuality := 0.0;
      lastUpdate := "Never";
      realtimeData := [];
      hasSocket := false;
      received := [];
    }

    /** The connection effect stores the new socket. */
    method Connect()
      requires Valid()
      modifies this
      ensures Valid()
      ensures hasSocket
      ensures currentHeartRate == old(currentHeartRate) && averageHeartRate == old(averageHeartRate)
      ensures isConnected == old(isConnected) && signalQuality == old(signalQuality)
      ensures lastUpdate == old(lastUpdate) && realtimeData == old(realtimeData) && received == old(received)
    {
      hasSocket := true;
    }

    /** The seeding effect replaces the chart buffer with twenty zero points. */
    method SeedChart(now: int)
      requires Valid()
      modifies this
      ensures Valid()
      ensures |realtimeData| == WindowSize
      ensures forall k :: 0 <= k < WindowSize ==> realtimeData[k] == ChartPoint(now - (WindowSize - 1 - k) * SeedSpacingMillis, 0)
      ensures currentHeartRate == old(currentHeartRate) && averageHeartRate == old(averageHeartRate)
      ensures isConnected == old(isConnected) && signalQuality == old(signalQuality)
      ensures lastUpdate == old(lastUpdate) && hasSocket == old(hasSocket) && received == old(received)
    {
      realtimeData := InitialChartData(now);
    }

    /** `onopen`. */
    method OnOpen()
      requires Valid()
      modifies this
      ensures Valid()
      ensures isConnected
      ensures currentHeartRate == old(currentHeartRate) && averageHeartRate == old(averageHeartRate)
      ensures signalQuality == old(signalQuality) && lastUpdate == old(lastUpdate)
      ensures realtimeData == old(realtimeData) && hasSocket == old(hasSocket) && received == old(received)
    {
      isConnected := true;
    }

    /** `onclose`. */
    method OnClose()
      requires Valid()
      modifies this
      ensures Valid()
      ensures !isConnected
      ensures currentHeartRate == old(currentHeartRate) && averageHeartRate == old(averageHeartRate)
      ensures signalQuality == old(signalQuality) && lastUpdate == old(lastUpdate)
      ensures realtimeData == old(realtimeData) && hasSocket == old(hasSocket) && received == old(received)
    {
      isConnected := false;
    }

    /** `onerror`: the same effect on the state as a close. */
    method OnError()
      requires Valid()
      modifies this
      ensures Valid()
      ensures !isConnected
      ensures currentHeartRate == old(currentHeartRate) && averageHeartRate == old(averageHeartRate)
      ensures signalQuality == old(signalQuality) && lastUpdate == old(lastUpdate)
      ensures realtimeData == old(realtimeData) && hasSocket == old(hasSocket) && received == old(received)
    {
      isConnected := false;
    }

    /** `onmessage` at wall-clock time `now`: a `heartRate` message updates the current rate,
        the quality, the update label, the chart buffer and the average; any other message,
        and a frame that does not parse, changes nothing. */
    method OnMessage(msg: SocketMessage, now: int)
      requires Valid()
      modifies this
      ensures Valid()
      ensures msg.Parsed? && msg.kind == "heartRate" ==>
        && currentHeartRate == msg.heartRate
        && signalQuality == QualityOrZero(msg.signalQuality)
        && lastUpdate == "Just now"
        && realtimeData == SlideWindow(old(realtimeData), ChartPoint(now, msg.heartRate))
        && averageHeartRate == Blend(old(averageHeartRate), msg.heartRate)
        && received == old(received) + [msg.heartRate]
      ensures !(msg.Parsed? && msg.kind == "heartRate") ==>
        && currentHeartRate == old(currentHeartRate) && averageHeartRate == old(averageHeartRate)
        && signalQuality == old(signalQuality) && lastUpdate == old(lastUpdate)
        && realtimeData == old(realtimeData) && received == old(received)
      ensures isConnected == old(isConnected) && hasSocket == old(hasSocket)
    {
      if msg.Parsed? && msg.kind == "heartRate" {
        currentHeartRate := msg.heartRate;
        signalQuality := QualityOrZero(msg.signalQuality);
        lastUpdate := "Just now";
        realtimeData := SlideWindow(realtimeData, ChartPoint(now, msg.heartRate));
        averageHeartRate := Blend(averageHeartRate, msg.heartRate);
        received := received + [msg.heartRate];
        assert received[..|received| - 1] == old(received);
      }
    }

    /** `sendCommand`: the command goes out only when a socket exists and is open;
        `sent` is the command written to the socket, if any. */
    method SendCommand(command: string, readyState: ReadyState) returns (sent: Option<string>)
      ensures sent.Some? <==> hasSocket && readyState == Open
      ensures sent.Some? ==> sent.value == command
    {
      if hasSocket && readyState == Open {
        sent := Some(command);
      } else {
        sent := None;
      }
    }
  }
}
