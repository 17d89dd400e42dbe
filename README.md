# Heart-monitoring system: a verified Dafny model of its core logic

The system is a small heart-rate monitor. A server keeps patients and heart-rate readings in an
in-memory store. It serves the newest readings of a patient, and a per-minute history of them
with averaged rates and signal qualities. Over a WebSocket it streams simulated sensor
readings and answers start/stop commands. A browser dashboard keeps the live state (current
rate, a blended average, a 20-point rolling chart, the connection flag). It classifies the
current rate against the patient's age, raises an alert, labels age-scaled heart-rate zones,
summarises the history (average, minimum, maximum, duration) and estimates a rate from ECG
peaks.

The model has one Dafny module per part:

- `Common`: `Math.round`, absent values and decimal rendering of integers.
- `Schema`: record shapes.
- `Storage`: the `MemStorage` class.
- `Routes`: the history aggregation, the limit defaults, the clamp, the command switch and the per-tick persist guard.
- `HeartRateHook`: the client hook's state cells as the class `LiveState`.
- `Dashboard`: health status, the alert rule and the dashboard state as the class `Monitor`.
- `Zones`: the zone card.
- `HistoryChart`: the history card.
- `EcgChart`: the ECG estimate.

Conventions:

- Timestamps are integer milliseconds since the epoch.
- Numbers are unbounded integers or exact reals.
- `Math.round(x)` is `floor(x + 1/2)`.
- The current time (`new Date()`) and each `Math.random()` draw are parameters.
- `randomUUID()` is any id not yet in the map. Lemma `Storage.FreshKeyExists` shows that one always exists.
- A JavaScript `Map` iterates in insertion order. `MemStorage` therefore keeps `readingOrder` beside the readings map.

## Model

| member | source | states |
|---|---|---|
| Common.RoundReal | client/src/components/historical-heart-rate-chart.tsx:67 | `Math.round` yields the integer r with r - 1/2 <= x < r + 1/2 |
| Common.RoundRealUnique | client/src/components/historical-heart-rate-chart.tsx:67 | that integer is the only one in [x - 1/2, x + 1/2) |
| Common.RoundRealBetween | server/routes.ts:61-62 | rounding a value between two integers stays between them |
| Common.IntToString | client/src/components/heart-monitor-dashboard.tsx:50 | the decimal text of a number is non-empty and starts with '-' exactly for negatives |
| Common.NatToStringRoundTrip | client/src/components/heart-rate-zones.tsx:22-23 | reading the rendered digits back gives the number |
| Storage.ForPatient | server/storage.ts:57 | keeps exactly the readings whose patientId is the given one, each as often as in the input and no other, and is no longer than its input |
| Storage.InsertNewestFirst | server/storage.ts:58 | inserting into a newest-first sequence keeps it newest-first and adds exactly that element |
| Storage.SortNewestFirst | server/storage.ts:58 | the descending timestamp sort is ordered and a permutation of its input |
| Storage.InsertKeepsTies | server/storage.ts:58 | insertion keeps readings with equal timestamps in their original order |
| Storage.SortIsStable | server/storage.ts:58 | the sort is stable: readings with equal timestamps keep their input order |
| Storage.MostRecent | server/storage.ts:56-59 | sort then `slice(0, limit)`: min(limit, n) readings forming a sub-multiset of the input, newest first, none older than a reading left out |
| Storage.FreshKeyExists | server/storage.ts:30 | a finite map always leaves an unused id for `randomUUID` |
| Storage.MemStorage.constructor | server/storage.ts:20-23 | the store starts with both maps empty |
| Storage.MemStorage.AllReadings | server/storage.ts:56 | `Array.from(values())`: every stored reading, one per stored id, no id twice |
| Storage.MemStorage.GetPatient | server/storage.ts:25-27 | the stored patient for an id, or absent exactly when none was stored under it |
| Storage.MemStorage.CreatePatient | server/storage.ts:29-40 | new patient under an unused id, with the input's name and age and createdAt == updatedAt == now; patients grows by exactly that entry; readings untouched |
| Storage.MemStorage.UpdatePatient | server/storage.ts:42-53 | absent id: returns absent and changes nothing. Present id: overrides only the supplied fields, keeps id and createdAt, sets updatedAt to now, leaves the other patients and all readings unchanged |
| Storage.MemStorage.GetHeartRateReadings | server/storage.ts:55-62 | only the patient's stored readings, each at most once (a sub-multiset of the patient's readings); min(limit, count) of them; newest first; none older than a reading left out |
| Storage.MemStorage.CreateHeartRateReading | server/storage.ts:64-73 | the caller's fields plus a fresh id and the store's timestamp; exactly one entry added, and the listing in insertion order gains it at the end; patients untouched |
| Storage.MemStorage.GetLatestHeartRateReading | server/storage.ts:75-78 | absent iff the patient has no reading; otherwise one of the patient's readings with no later one |
| Storage.MemStorage.StoredReadingIsRetrievable | server/storage.ts:55-62 | with a limit covering the store, every reading of the patient is returned |
| Routes.LimitOrDefault | server/routes.ts:34 | a limit query is used as given; without one the default applies (500 for the history, 100 for the raw list) |
| Routes.MinuteKey | server/routes.ts:50 | the minute key is minute-aligned and is the start of the minute holding the timestamp |
| Routes.SameMinuteKey | server/routes.ts:50 | two readings share a key iff they fall in the same whole minute |
| Routes.ParsedBucketTimeAsWritten | server/routes.ts:60 | re-parsing the offset-less key as local time yields an instant that is minute-aligned and holds the reading only after adding back the local offset |
| Routes.BucketTimeShiftedOffUtc | server/routes.ts:60 | at UTC+05:30 a reading at the epoch gets a bucket stamped outside its own minute |
| Routes.BucketTime | server/routes.ts:60 | the intended bucket instant: aligned and holding the reading's timestamp, with a zero local offset |
| Routes.InMinuteMembers | server/routes.ts:49-56 | a group holds exactly the readings with that minute key |
| Routes.InMinuteSnoc | server/routes.ts:54 | pushing a reading extends exactly its own minute's group |
| Routes.GroupsOfSnoc | server/routes.ts:51-54 | one reduce step (create the group if missing, then push) keeps every group equal to its minute's readings |
| Routes.NewKeyListed | server/routes.ts:51-52 | a new object key is listed once, after the existing ones, and adds its group's size to the total |
| Routes.OldKeyListed | server/routes.ts:54 | pushing onto an existing group keeps the key list and adds one to the total |
| Routes.GroupByMinute | server/routes.ts:49-56 | the reduce: each minute key listed once, minute-aligned; each group is exactly its minute's readings in input order; every reading is in a group; group sizes sum to the input length |
| Routes.Summarize | server/routes.ts:59-63 | a bucket carries its key and its group's size as the count |
| Routes.BucketHeartRateInRange | server/routes.ts:61 | the rounded mean heart rate lies within any bounds of the group's rates |
| Routes.BucketSignalQualityInRange | server/routes.ts:62 | the rounded mean quality, counting absent as 0, lies within any bounds of the group's qualities |
| Routes.AbsentQualityHalvesMean | server/routes.ts:62 | an absent quality still counts in the divisor: 90 and null average to 45 |
| Routes.SumHeartRateBounds | server/routes.ts:61 | n readings within [lo, hi] sum to between n·lo and n·hi |
| Routes.SumSignalQualityBounds | server/routes.ts:62 | the same bound for the quality sum |
| Routes.InsertOldestFirst | server/routes.ts:64 | inserting a bucket with a new timestamp keeps ascending order and the element set |
| Routes.SortOldestFirst | server/routes.ts:64 | the ascending sort of distinct-timestamp buckets is strictly ascending and keeps exactly the same buckets |
| Routes.SortKeepsSum | server/routes.ts:64 | sorting keeps the total count |
| Routes.CountsBoundLength | server/routes.ts:63 | with every count positive there are no more buckets than counted readings |
| Routes.SummariesCount | server/routes.ts:63 | the buckets' counts sum to the total group size |
| Routes.HistoryData | server/routes.ts:48-64 | empty iff no readings; at most one bucket per reading; strictly ascending timestamps, each the corrected UTC minute start (`BucketTime`, not the local-time re-parse of line 60, see "## Findings"); each bucket the rounded means of exactly its minute's readings; every reading's minute has a bucket; counts sum to the number of readings |
| Routes.History | server/routes.ts:43-66 | fetches at most `limit` (default 500) of the patient's readings and buckets them: empty iff nothing fetched, strictly ascending, stamped with the corrected UTC minute (`BucketTime`, not the as-written re-parse of line 60), each bucket the rounded means of exactly its minute's fetched readings, every fetched reading's minute present, counts summing to the number fetched |
| Routes.Readings | server/routes.ts:32-36 | the raw endpoint returns exactly min(limit, n) (limit default 100) of the patient's n stored readings, a sub-multiset of them, newest first, none older than a reading left out |
| Routes.ClampHeartRate | server/routes.ts:94 | the clamp lands in [50, 150], is the identity inside it and saturates at each end |
| Routes.SimulatedHeartRate | server/routes.ts:92-94 | a simulated rate is within [50, 150] |
| Routes.SimulatedHeartRateNearBase | server/routes.ts:92-94 | with ±10 BPM noise around 72 the rate is within [62, 82] and the clamp never changes it |
| Routes.SimulatedSignalQuality | server/routes.ts:95 | a simulated quality is within [85, 100] |
| Routes.HandleCommand | server/routes.ts:273-291 | startMonitoring → status "Monitoring started", stopMonitoring → status "Monitoring stopped", any other parsed message → error "Unknown command", a parse failure → no reply |
| Routes.OnConnection | server/routes.ts:210-226 | a connection creates the demo patient "Demo Patient", aged 35, under an unused id with createdAt == updatedAt == now; patients grows by exactly that entry; no reading is touched; the greeting is "All sensors connected" |
| Routes.HeartRateTick | server/routes.ts:229-247 | a tick sends a simulated reading stamped with the message clock iff the socket is open, and persists it against the demo patient, stamped with the store clock, iff the patient also exists; otherwise readings are unchanged |
| HeartRateHook.Blend | client/src/hooks/use-heart-rate.tsx:51-54 | the first sample becomes the average; later ones give the rounded midpoint (2·avg is prev+sample or one more) |
| HeartRateHook.BlendBetween | client/src/hooks/use-heart-rate.tsx:53 | a blended average lies between the previous average and the sample |
| HeartRateHook.BlendExample | client/src/hooks/use-heart-rate.tsx:51-54 | samples 70 then 80 give averages 70 then 75 |
| HeartRateHook.AverageAfterInRange | client/src/hooks/use-heart-rate.tsx:51-54 | with every sample in a positive range the average stays in that range after the first sample, so the sentinel 0 never returns |
| HeartRateHook.SlideWindow | client/src/hooks/use-heart-rate.tsx:45-48 | the buffer becomes the last min(n + 1, 20) points of old buffer ++ [point], ending with the point |
| HeartRateHook.SlideFullWindow | client/src/hooks/use-heart-rate.tsx:47 | on a full buffer exactly the oldest point is dropped |
| HeartRateHook.InitialChartData | client/src/hooks/use-heart-rate.tsx:79-98 | the seed loop builds exactly 20 points of rate 0, one second apart, ending at now, in ascending time |
| HeartRateHook.LiveState.constructor | client/src/hooks/use-heart-rate.tsx:9-15 | the initial cell values: 0, 0, disconnected, 0, "Never", empty buffer, no socket |
| HeartRateHook.LiveState.Connect | client/src/hooks/use-heart-rate.tsx:21-71 | the connection effect stores a socket and changes nothing else |
| HeartRateHook.LiveState.SeedChart | client/src/hooks/use-heart-rate.tsx:79-98 | the seed effect replaces only the buffer with the 20 seed points |
| HeartRateHook.LiveState.OnOpen | client/src/hooks/use-heart-rate.tsx:23-26 | open sets connected and changes nothing else |
| HeartRateHook.LiveState.OnClose | client/src/hooks/use-heart-rate.tsx:61-64 | close clears connected and changes nothing else |
| HeartRateHook.LiveState.OnError | client/src/hooks/use-heart-rate.tsx:66-69 | error clears connected and changes nothing else |
| HeartRateHook.LiveState.OnMessage | client/src/hooks/use-heart-rate.tsx:28-59 | a heartRate message sets the current rate, the quality (absent or falsy → 0), "Just now", the slid buffer and the blended average; any other or unparseable message changes nothing; the average always equals the blend of every sample received |
| HeartRateHook.LiveState.SendCommand | client/src/hooks/use-heart-rate.tsx:100-104 | a command is sent iff a socket exists and it is OPEN, and what is sent is that command |
| Dashboard.DangerThresholdDecreasing | client/src/components/heart-monitor-dashboard.tsx:29-30 | each year of age lowers the danger threshold by 0.85 BPM |
| Dashboard.GetHealthStatus | client/src/components/heart-monitor-dashboard.tsx:26-39 | unknown iff age or rate is 0; otherwise danger iff rate > 0.85·(220 − age) or < 50, warning iff not danger and > 100, healthy otherwise; exactly one status |
| Dashboard.StatusLabelsDistinct | client/src/components/heart-monitor-dashboard.tsx:27-37 | the four statuses have distinct keys, texts and icons |
| Dashboard.HealthyMeansInRange | client/src/components/heart-monitor-dashboard.tsx:32-37 | a healthy rate lies in [50, 100] and at or below the age threshold |
| Dashboard.AlertMessage | client/src/components/heart-monitor-dashboard.tsx:50 | the message reads "exceeded" iff the rate is above the threshold and "fallen below" otherwise, then " safe limits (", the rate's decimal text and the closing request |
| Dashboard.AlertRateReadBack | client/src/components/heart-monitor-dashboard.tsx:50 | the rate can be read back from the message's digits |
| Dashboard.AlertFor | client/src/components/heart-monitor-dashboard.tsx:41-55 | never an alert without an age; otherwise an alert iff the danger condition holds, carrying the rate, that message and "60-100" |
| Dashboard.AlertIffCritical | client/src/components/heart-rate-display.tsx:11-15 | for the positive rates the display reports, an alert appears iff the status is danger |
| Dashboard.Monitor.constructor | client/src/components/heart-monitor-dashboard.tsx:18-20 | the initial patient, dialog and alert values |
| Dashboard.Monitor.Status | client/src/components/heart-monitor-dashboard.tsx:26-27 | the card's status is unknown iff the patient's age or the rate is 0 |
| Dashboard.Monitor.HandlePatientUpdate | client/src/components/heart-monitor-dashboard.tsx:22-24 | the form's values replace the patient; the dialog is untouched |
| Dashboard.Monitor.CheckForAlerts | client/src/components/heart-monitor-dashboard.tsx:41-55 | an alert opens the dialog with that alert; otherwise dialog and data are unchanged; the patient is untouched |
| Dashboard.Monitor.CloseAlert | client/src/components/heart-monitor-dashboard.tsx:171-176 | closing hides the dialog and keeps everything else |
| Zones.DangerLowerBound | client/src/components/heart-rate-zones.tsx:9-23 | 120 without an age; otherwise the integer nearest the threshold 0.85·(220 − age) |
| Zones.GetZones | client/src/components/heart-rate-zones.tsx:8-27 | fixed resting and normal labels; the elevated label ends at, and the danger label starts from, the danger lower bound |
| Zones.DefaultZones | client/src/components/heart-rate-zones.tsx:9-16 | age 0 gives 50-70 / 70-100 / 100-120 / 120+ |
| Zones.ElevatedMeetsDanger | client/src/components/heart-rate-zones.tsx:22-23 | the elevated zone's upper number is the danger zone's lower number |
| Zones.FixedLowerZones | client/src/components/heart-rate-zones.tsx:20-21 | the resting and normal zones do not depend on age |
| Zones.DangerBoundNonIncreasing | client/src/components/heart-rate-zones.tsx:18-23 | over nonzero ages the danger bound never rises with age |
| Zones.ZonesAgreeWithStatus | client/src/components/heart-rate-zones.tsx:22-23 | a rate above the danger bound is classed danger; one from 50 up to below the bound is not |
| HistoryChart.MinRate | client/src/components/historical-heart-rate-chart.tsx:68 | the minimum is at most every bucket's rate and is one of them |
| HistoryChart.MaxRate | client/src/components/historical-heart-rate-chart.tsx:69 | the maximum is at least every bucket's rate and is one of them |
| HistoryChart.SumRatesBounds | client/src/components/historical-heart-rate-chart.tsx:67 | n rates within [lo, hi] sum to between n·lo and n·hi |
| HistoryChart.AverageBetweenExtremes | client/src/components/historical-heart-rate-chart.tsx:66-69 | min <= round(sum/len) <= max |
| HistoryChart.SpanOfAlignedKeys | client/src/components/historical-heart-rate-chart.tsx:138-139 | ascending minute-aligned buckets span at least one minute per gap |
| HistoryChart.DurationCoversBuckets | client/src/components/historical-heart-rate-chart.tsx:138-139 | on the history endpoint's output the duration is at least (buckets − 1) minutes, so never negative |
| HistoryChart.ChartView | client/src/components/historical-heart-rate-chart.tsx:25-69 | loading iff loading; no data iff an error or a missing or empty result; otherwise the chart, with the point count and min <= avg <= max |
| HistoryChart.ReadingCountText | client/src/components/historical-heart-rate-chart.tsx:92 | the count line is the count's digits, which read back to the count, followed by " reading" for 1 and " readings" otherwise |
| EcgChart.Peaks | client/src/components/ecg-chart.tsx:29 | the peaks are exactly the samples above 0.8 mV, no more of them than samples |
| EcgChart.PeaksOfSingle | client/src/components/ecg-chart.tsx:29 | one sample is kept iff it is above 0.8 mV; with PeaksAppend this fixes the filter's output, order included |
| EcgChart.PeaksAppend | client/src/components/ecg-chart.tsx:29 | the filter distributes over concatenation |
| EcgChart.NoPeaksInQuietTrace | client/src/components/ecg-chart.tsx:29 | a trace never above 0.8 mV has no peaks |
| EcgChart.PeakComesFromTrace | client/src/components/ecg-chart.tsx:29 | every peak is a sample of the trace |
| EcgChart.IntervalBpm | client/src/components/ecg-chart.tsx:34-40 | a positive interval d ms gives the integer nearest 60000/d; a non-positive interval gives 0; never negative |
| EcgChart.BpmFromEcg | client/src/components/ecg-chart.tsx:25-41 | 0 under 10 samples or under 2 peaks; otherwise the interval rate of the last two peaks, in order; never negative |
| EcgChart.BpmFromEcgAsWritten | client/src/components/ecg-chart.tsx:26 | a missing trace yields no estimate (the render throws); a given trace yields its estimate |
| EcgChart.DashboardCardThrows | client/src/components/heart-monitor-dashboard.tsx:17 | destructuring `ecgData` from the hook's result, whose keys lack it, gives undefined, so the card throws for every trace |
| EcgChart.Destructure | client/src/components/heart-monitor-dashboard.tsx:17 | destructuring a key gives the object's value exactly when the object has that key, and undefined otherwise |
| EcgChart.BpmFromEcgOrEmpty | client/src/components/ecg-chart.tsx:25-41 | a missing trace reads as empty and shows 0; a given one gives its estimate, agreeing with the as-written estimate wherever that one exists |
| EcgChart.EarlierSamplesIgnored | client/src/components/ecg-chart.tsx:33 | samples before a stretch holding two peaks and ten samples do not change the estimate |
| EcgChart.QuietTailIgnored | client/src/components/ecg-chart.tsx:29-34 | samples at or below 0.8 mV appended after enough samples do not change the estimate |
| EcgChart.MaxAmplitude | client/src/components/ecg-chart.tsx:159 | the shown amplitude is at least every sample's and is one of them |
| EcgChart.PeaksRaiseMaxAmplitude | client/src/components/ecg-chart.tsx:159 | a trace with a peak shows a peak amplitude above 0.8 mV |

## Left out

- WebSocket transport, `setInterval` timers, the close handler's timer teardown and the hook's cleanup `ws.close()`: event-loop concurrency and network I/O. Only the per-event rules are modelled: the command switch, the connection bootstrap and one heart-rate tick.
- The GPS, MPU6050 and ECG simulators and `ecgTimeOffset` (server/routes.ts:105-205): random draws, `Math.sin` and floating point, with no rule of their own.
- `storage.getHeartRateReadings('', 1)` in the connection handler (server/routes.ts:214): its result is unused, and the call changes no state.
- Express routing, HTTP status codes and the try/catch error replies of the patient and reading endpoints (server/routes.ts:9-30, 37-39, 67-69, 72-83).
- Routes.LimitOrDefault: `parseInt`'s NaN and negative results are not modelled. The limit is a `nat`, and an empty query string counts as absent.
- zod/drizzle validation (shared/schema.ts) belongs to a library that is not part of this model. The schema file gives only the record shapes.
- Date formatting (`toISOString`, `toLocaleTimeString`, date-fns `format`): instants are integer milliseconds. HeartRateHook.ChartPoint keeps the instant from which the hook renders its clock string.
- Floating point: `0.85`, the divisions and `Math.round` are exact rational arithmetic. Threshold comparisons right at a binary rounding boundary of IEEE doubles may differ from the model.
- HeartRateHook.SocketMessage: only numeric `heartRate` fields are modelled. A message whose `heartRate` is missing or not a number is not.
- Dashboard.Monitor.Status: `!patient.age` is modelled as `age == 0`, which is exact because the form stores `parseInt(...) || 0` (client/src/components/patient-info-form.tsx:50). The dashboard's patient changes only through the form's submit handler (client/src/components/patient-info-form.tsx:15-17, 24), and the browser's validation of the age field's `min="1" max="120"` (lines 44-48) blocks a submit that is out of range. So the age the status reads is 0 or an integer from 1 to 120. The model's unbounded `int` age is a superset of those values.
- The hook's return value: the hook returns no GPS, accelerometer or ECG state. The dashboard destructures `gpsData`, `accelerometerData` and `ecgData` from it (client/src/components/heart-monitor-dashboard.tsx:17), and those fields are always undefined. The effect on the ECG card is under "## Findings"; the GPS and accelerometer cards are rendering only.
- HeartRateHook.LiveState.SendCommand: the JSON encoding of `{ command }` is not modelled. The result is the command string that would be sent.
- Rendering-only components (gps-display, accelerometer-display, alert-modal, patient-info-form, real-time-chart, health-status-card): JSX, `toFixed` and `Math.sqrt`, with no rule to state.
- The history chart's refetch interval and query key (client/src/components/historical-heart-rate-chart.tsx:20-23): library plumbing.

## Findings

| source | as written | input that shows it | evidently intended | confidence | as-written member | corrected member |
|---|---|---|---|---|---|---|
| server/routes.ts:60 | `new Date(timestamp)` re-parses the key `YYYY-MM-DDTHH:MM`, which has no offset, so it is read in the server's local time zone | a reading at 1970-01-01T00:00:00Z on a server at UTC+05:30 gets the bucket instant 1969-12-31T18:30Z, outside its own minute | the bucket instant is the UTC minute the key names | not executed | Routes.ParsedBucketTimeAsWritten (counterexample Routes.BucketTimeShiftedOffUtc) | Routes.BucketTime |
| client/src/components/ecg-chart.tsx:26 | the estimate, computed on every render (line 43), reads `ecgData.length`, but the dashboard passes `ecgData` from the heart-rate hook, whose result has no such field (client/src/hooks/use-heart-rate.tsx:106-114) | any render of the dashboard: `ecgData` is undefined and the card throws a TypeError | a missing trace shows no estimate, like an empty one | not executed | EcgChart.BpmFromEcgAsWritten (counterexample EcgChart.DashboardCardThrows) | EcgChart.BpmFromEcgOrEmpty |
