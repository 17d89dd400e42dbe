/** The server's deterministic rules: minute-bucket history, limit defaults, the simulated
    heart-rate clamp, the command switch and the persist-on-tick guard. */
module Routes {
  import opened Common
  import opened Schema
  import opened Storage

  const MillisPerMinute: int := 60000
  /** Limit of the `/heart-rate/history` endpoint when the query gives none. */
  const DefaultHistoryLimit: nat := 500

  /** `req.query.limit ? parseInt(req.query.limit) : default`; an absent or empty query is `None`. */
  function LimitOrDefault(query: Option<nat>, default: nat): (limit: nat)
    ensures query.Some? ==> limit == query.value
    ensures query.None? ==> limit == default
  {
    query.GetOr(default)
  }

  // ---------------------------------------------------------------- minute buckets

  /** The instant a reading's `toISOString().slice(0, 16)` names: its UTC minute. */
  function MinuteKey(timestamp: int): (k: int)
    ensures k % MillisPerMinute == 0
    ensures k <= timestamp < k + MillisPerMinute
  {
    timestamp - timestamp % MillisPerMinute
  }

  /** Two instants share a key exactly when they fall in the same whole minute. */
  lemma SameMinuteKey(t1: int, t2: int)
    ensures MinuteKey(t1) == MinuteKey(t2) <==> t1 / MillisPerMinute == t2 / MillisPerMinute
  {
    assert t1 == MillisPerMinute * (t1 / MillisPerMinute) + t1 % MillisPerMinute;
    assert t2 == MillisPerMinute * (t2 / MillisPerMinute) + t2 % MillisPerMinute;
    assert MinuteKey(t1) == MillisPerMinute * (t1 / MillisPerMinute);
    assert MinuteKey(t2) == MillisPerMinute * (t2 / MillisPerMinute);
  }

  /** `new Date(key)` as written: a date-time string without an offset is read as local time,
      so a server that is `localOffset` ms ahead of UTC gets an instant `localOffset` ms early. */
  function ParsedBucketTimeAsWritten(timestamp: int, localOffset: int): (t: int)
    ensures (t + localOffset) % MillisPerMinute == 0
    ensures t + localOffset <= timestamp < t + localOffset + MillisPerMinute
  {
    MinuteKey(timestamp) - localOffset
  }

  /** On a server at UTC+05:30 a reading taken at the epoch lands in a bucket stamped
      5.5 hours earlier, outside the minute that holds the reading. */
  lemma BucketTimeShiftedOffUtc()
    ensures ParsedBucketTimeAsWritten(0, 19800000) == -19800000
    ensures !(ParsedBucketTimeAsWritten(0, 19800000) <= 0 < ParsedBucketTimeAsWritten(0, 19800000) + MillisPerMinute)
  {
    assert MinuteKey(0) == 0;
  }

  /** The bucket instant intended: the UTC minute the readings share. */
  function BucketTime(timestamp: int): (t: int)
    ensures t % MillisPerMinute == 0 && t <= timestamp < t + MillisPerMinute
    ensures t == ParsedBucketTimeAsWritten(timestamp, 0)
  {
    MinuteKey(timestamp)
  }

  /** The readings whose minute key is `k`, in input order: one entry of the `reduce` accumulator. */
  function InMinute(rs: seq<HeartRateReading>, k: int): seq<HeartRateReading> {
    if rs == [] then []
    else InMinute(rs[..|rs| - 1], k) + (if MinuteKey(rs[|rs| - 1].timestamp) == k then [rs[|rs| - 1]] else [])
  }

  /** A minute's group holds exactly the readings of that minute. */
  lemma {:induction false} InMinuteMembers(rs: seq<HeartRateReading>, k: int)
    ensures forall x :: x in InMinute(rs, k) <==> x in rs && MinuteKey(x.timestamp) == k
  {
    if rs != [] {
      var init := rs[..|rs| - 1];
      InMinuteMembers(init, k);
      assert rs == init + [rs[|rs| - 1]];
    }
  }

  lemma InMinuteSnoc(rs: seq<HeartRateReading>, x: HeartRateReading, k: int)
    ensures InMinute(rs + [x], k) == InMinute(rs, k) + (if MinuteKey(x.timestamp) == k then [x] else [])
  {
    assert (rs + [x])[..|rs + [x]| - 1] == rs;
  }

  lemma {:induction false} InMinuteEmpty(rs: seq<HeartRateReading>, k: int)
    requires forall x :: x in rs ==> MinuteKey(x.timestamp) != k
    ensures InMinute(rs, k) == []
  {
    if rs != [] {
      assert forall x :: x in rs[..|rs| - 1] ==> x in rs;
      InMinuteEmpty(rs[..|rs| - 1], k);
      assert rs[|rs| - 1] in rs;
    }
  }

  /** Total number of readings held by the groups named in `keys`. */
  function GroupSizes(keys: seq<int>, groups: map<int, seq<HeartRateReading>>): nat
    requires forall i :: 0 <= i < |keys| ==> keys[i] in groups
  {
    if keys == [] then 0
    else GroupSizes(keys[..|keys| - 1], groups) + |groups[keys[|keys| - 1]]|
  }

  lemma {:induction false} GroupSizesFrame(keys: seq<int>, g1: map<int, seq<HeartRateReading>>, g2: map<int, seq<HeartRateReading>>)
    requires forall i :: 0 <= i < |keys| ==> keys[i] in g1 && keys[i] in g2 && g1[keys[i]] == g2[keys[i]]
    ensures GroupSizes(keys, g1) == GroupSizes(keys, g2)
  {
    if keys != [] {
      GroupSizesFrame(keys[..|keys| - 1], g1, g2);
    }
  }

  /** Appending a reading to the group of one (listed once) key adds one to the total. */
  lemma {:induction false} GroupSizesGrow(keys: seq<int>, groups: map<int, seq<HeartRateReading>>, k: int, x: HeartRateReading)
    requires forall i :: 0 <= i < |keys| ==> keys[i] in groups
    requires forall i, j :: 0 <= i < j < |keys| ==> keys[i] != keys[j]
    requires k in keys
    ensures GroupSizes(keys, groups[k := groups[k] + [x]]) == GroupSizes(keys, groups) + 1
  {
    var g2 := groups[k := groups[k] + [x]];
    var init := keys[..|keys| - 1];
    if keys[|keys| - 1] == k {
      assert k !in init;
      GroupSizesFrame(init, groups, g2);
    } else {
      assert k in init;
      GroupSizesGrow(init, groups, k, x);
    }
  }

  /** The accumulator's key list: each key of the map listed exactly once. */
  ghost predicate KeyList(keys: seq<int>, groups: map<int, seq<HeartRateReading>>) {
    && (forall i, j :: 0 <= i < j < |keys| ==> keys[i] != keys[j])
    && (forall k :: k in groups <==> k in keys)
    && (forall i :: 0 <= i < |keys| ==> keys[i] in groups)
  }

  /** The accumulator's groups after reading `rs`: under each minute key exactly the readings of
      that minute, in input order, and a key for every reading. */
  ghost predicate GroupsOf(rs: seq<HeartRateReading>, groups: map<int, seq<HeartRateReading>>) {
    && (forall k :: k in groups ==> groups[k] == InMinute(rs, k) && groups[k] != [])
    && (forall k :: k in groups ==> k % MillisPerMinute == 0)
    && (forall x :: x in rs ==> MinuteKey(x.timestamp) in groups)
  }

  ghost predicate Grouped(rs: seq<HeartRateReading>, keys: seq<int>, groups: map<int, seq<HeartRateReading>>) {
    KeyList(keys, groups) && GroupsOf(rs, groups) && GroupSizes(keys, groups) == |rs|
  }

  /** Pushing a reading onto its minute's group (created empty when missing) keeps the groups
      in step with the readings seen. */
  lemma GroupsOfSnoc(rs: seq<HeartRateReading>, x: HeartRateReading, groups: map<int, seq<HeartRateReading>>)
    requires GroupsOf(rs, groups)
    ensures var k := MinuteKey(x.timestamp);
            GroupsOf(rs + [x], groups[k := (if k in groups then groups[k] else []) + [x]])
  {
    var k := MinuteKey(x.timestamp);
    var groups' := groups[k := (if k in groups then groups[k] else []) + [x]];
    if k !in groups {
      InMinuteEmpty(rs, k);
    }
    forall k' | k' in groups' ensures groups'[k'] == InMinute(rs + [x], k') {
      InMinuteSnoc(rs, x, k');
    }
    assert forall y :: y in rs + [x] ==> y in rs || y == x;
  }

  /** A key appended to a duplicate-free list that does not hold it keeps it duplicate-free. */
  lemma AppendDistinct(keys: seq<int>, k: int)
    requires forall i, j :: 0 <= i < j < |keys| ==> keys[i] != keys[j]
    requires k !in keys
    ensures forall i, j :: 0 <= i < j < |keys + [k]| ==> (keys + [k])[i] != (keys + [k])[j]
  {
    var keys' := keys + [k];
    forall i, j | 0 <= i < j < |keys'| ensures keys'[i] != keys'[j] {
      if j < |keys| { assert keys'[j] == keys[j]; } else { assert keys[i] in keys; }
    }
  }

  /** Listing a key not yet present at the end keeps the key list duplicate-free and in step
      with the map, and adds the size of its group to the total. */
  lemma NewKeyListed(keys: seq<int>, groups: map<int, seq<HeartRateReading>>, k: int, g: seq<HeartRateReading>)
    requires KeyList(keys, groups)
    requires k !in groups
    ensures KeyList(keys + [k], groups[k := g])
    ensures GroupSizes(keys + [k], groups[k := g]) == GroupSizes(keys, groups) + |g|
  {
    var keys', groups' := keys + [k], groups[k := g];
    AppendDistinct(keys, k);
    assert forall k' :: k' in keys' <==> k' in keys || k' == k;
    assert keys'[..|keys'| - 1] == keys;
    GroupSizesFrame(keys, groups, groups');
  }

  /** Appending to an existing group keeps the key list and adds one to the total. */
  lemma OldKeyListed(keys: seq<int>, groups: map<int, seq<HeartRateReading>>, k: int, x: HeartRateReading)
    requires KeyList(keys, groups)
    requires k in groups
    ensures KeyList(keys, groups[k := groups[k] + [x]])
    ensures GroupSizes(keys, groups[k := groups[k] + [x]]) == GroupSizes(keys, groups) + 1
  {
    GroupSizesGrow(keys, groups, k, x);
  }

  /** The `reduce` of the history handler: group readings by minute key. `keys` lists each
      key of the accumulator object once; their order is not needed, since the buckets are
      sorted afterwards. */
  method GroupByMinute(readings: seq<HeartRateReading>) returns (keys: seq<int>, groups: map<int, seq<HeartRateReading>>)
    ensures forall i, j :: 0 <= i < j < |keys| ==> keys[i] != keys[j]
    ensures forall k :: k in groups <==> k in keys
    ensures forall i :: 0 <= i < |keys| ==> keys[i] in groups
    ensures forall k :: k in groups ==> groups[k] == InMinute(readings, k) && groups[k] != []
    ensures forall k :: k in groups ==> k % MillisPerMinute == 0
    ensures forall x :: x in readings ==> MinuteKey(x.timestamp) in groups
    ensures GroupSizes(keys, groups) == |readings|
  {
    keys, groups := [], map[];
    var i := 0;
    while i < |readings|
      invariant 0 <= i <= |readings|
      invariant Grouped(readings[..i], keys, groups)
    {
      var r := readings[i];
      var key := MinuteKey(r.timestamp);
      assert readings[..i + 1] == readings[..i] + [r];
      GroupsOfSnoc(readings[..i], r, groups);
      if key !in groups {
        NewKeyListed(keys, groups, key, [r]);
        keys := keys + [key];
        groups := groups[key := [r]];
      } else {
        OldKeyListed(keys, groups, key, r);
        groups := groups[key := groups[key] + [r]];
      }
      i := i + 1;
    }
    assert readings[..i] == readings;
  }

  // ---------------------------------------------------------------- per-bucket averages

  /** One element of the history response. */
  datatype Bucket = Bucket(timestamp: int, heartRate: int, signalQuality: int, count: nat)

  function SumHeartRate(rs: seq<HeartRateReading>): int {
    if rs == [] then 0 else SumHeartRate(rs[..|rs| - 1]) + rs[|rs| - 1].heartRate
  }

  function SumSignalQuality(rs: seq<HeartRateReading>): real {
    if rs == [] then 0.0 else SumSignalQuality(rs[..|rs| - 1]) + QualityOrZero(rs[|rs| - 1].signalQuality)
  }

  /** The averaging `map` of the history handler for one group. */
  function Summarize(key: int, group: seq<HeartRateReading>): (b: Bucket)
    requires group != []
    ensures b.timestamp == key && b.count == |group|
  {
    Bucket(key,
           RoundReal(SumHeartRate(group) as real / |group| as real),
           RoundReal(SumSignalQuality(group) / |group| as real),
           |group|)
  }

  lemma {:induction false} SumHeartRateBounds(rs: seq<HeartRateReading>, lo: int, hi: int)
    requires forall i :: 0 <= i < |rs| ==> lo <= rs[i].heartRate <= hi
    ensures |rs| * lo <= SumHeartRate(rs) <= |rs| * hi
  {
    if rs != [] {
      var init := rs[..|rs| - 1];
      SumHeartRateBounds(init, lo, hi);
      ScaleSuccInt(|init|, lo);
      ScaleSuccInt(|init|, hi);
    }
  }

  lemma ScaleSuccInt(n: nat, c: int)
    ensures (n + 1) * c == n * c + c
  {
  }

  lemma ScaleSucc(n: nat, c: real)
    ensures (n + 1) as real * c == n as real * c + c
  {
  }

  lemma {:induction false} SumSignalQualityBounds(rs: seq<HeartRateReading>, lo: real, hi: real)
    requires forall i :: 0 <= i < |rs| ==> lo <= QualityOrZero(rs[i].signalQuality) <= hi
    ensures |rs| as real * lo <= SumSignalQuality(rs) <= |rs| as real * hi
  {
    if rs != [] {
      var init := rs[..|rs| - 1];
      SumSignalQualityBounds(init, lo, hi);
      ScaleSucc(|init|, lo);
      ScaleSucc(|init|, hi);
    }
  }

  lemma MeanBetween(sum: real, n: nat, lo: real, hi: real)
    requires n > 0 && n as real * lo <= sum <= n as real * hi
    ensures lo <= sum / n as real <= hi
  {
  }

  /** A bucket's heart rate lies within the range of the heart rates averaged into it. */
  lemma BucketHeartRateInRange(key: int, group: seq<HeartRateReading>, lo: int, hi: int)
    requires group != []
    requires forall x :: x in group ==> lo <= x.heartRate <= hi
    ensures lo <= Summarize(key, group).heartRate <= hi
  {
    assert forall i :: 0 <= i < |group| ==> group[i] in group;
    SumHeartRateBounds(group, lo, hi);
    MeanBetween(SumHeartRate(group) as real, |group|, lo as real, hi as real);
    RoundRealBetween(SumHeartRate(group) as real / |group| as real, lo, hi);
  }

  /** A bucket's signal quality lies within the range of the qualities averaged into it,
      absent ones counting as 0. */
  lemma BucketSignalQualityInRange(key: int, group: seq<HeartRateReading>, lo: int, hi: int)
    requires group != []
    requires forall x :: x in group ==> lo as real <= QualityOrZero(x.signalQuality) <= hi as real
    ensures lo <= Summarize(key, group).signalQuality <= hi
  {
    assert forall i :: 0 <= i < |group| ==> group[i] in group;
    SumSignalQualityBounds(group, lo as real, hi as real);
    MeanBetween(SumSignalQuality(group), |group|, lo as real, hi as real);
    RoundRealBetween(SumSignalQuality(group) / |group| as real, lo, hi);
  }

  /** A missing quality still counts in the divisor: qualities 90 and absent average to 45. */
  lemma AbsentQualityHalvesMean(a: HeartRateReading, b: HeartRateReading)
    requires a.signalQuality == Some(90.0) && b.signalQuality == None
    ensures Summarize(0, [a, b]).signalQuality == 45
  {
    assert [a, b][..1] == [a];
    assert [a][..0] == [];
    assert SumSignalQuality([a]) == 90.0;
    assert SumSignalQuality([a, b]) == 90.0;
    assert SumSignalQuality([a, b]) / 2 as real == 45 as real;
    RoundRealOfInt(45);
  }

  // ---------------------------------------------------------------- ascending sort

  predicate OldestFirst(bs: seq<Bucket>) {
    forall i, j :: 0 <= i < j < |bs| ==> bs[i].timestamp < bs[j].timestamp
  }

  function InsertOldestFirst(b: Bucket, s: seq<Bucket>): (r: seq<Bucket>)
    requires OldestFirst(s)
    requires forall y :: y in s ==> y.timestamp != b.timestamp
    ensures OldestFirst(r)
    ensures forall y :: y in r <==> y in s || y == b
    ensures |r| == |s| + 1
    ensures r[0] == b || (s != [] && r[0] == s[0])
  {
    if s == [] || b.timestamp < s[0].timestamp then [b] + s
    else
      assert s == [s[0]] + s[1..];
      var t := InsertOldestFirst(b, s[1..]);
      var r := [s[0]] + t;
      assert forall j :: 0 < j < |r| ==> r[0].timestamp < r[j].timestamp by {
        forall j | 0 < j < |r| ensures r[0].timestamp < r[j].timestamp {
          assert r[j] == t[j - 1];
          if j > 1 { assert t[0].timestamp < t[j - 1].timestamp; }
        }
      }
      r
  }

  predicate DistinctTimes(bs: seq<Bucket>) {
    forall i, j :: 0 <= i < j < |bs| ==> bs[i].timestamp != bs[j].timestamp
  }

  /** The `.sort((a, b) => a.timestamp - b.timestamp)` of the history handler; the keys are
      distinct, so the order is strict. */
  function SortOldestFirst(bs: seq<Bucket>): (r: seq<Bucket>)
    requires DistinctTimes(bs)
    ensures OldestFirst(r)
    ensures forall y :: y in r <==> y in bs
    ensures |r| == |bs|
  {
    if bs == [] then []
    else
      assert bs == [bs[0]] + bs[1..];
      var rest := SortOldestFirst(bs[1..]);
      assert forall y :: y in rest ==> y.timestamp != bs[0].timestamp by {
        forall y | y in rest ensures y.timestamp != bs[0].timestamp {
          var j :| 0 <= j < |bs[1..]| && bs[1..][j] == y;
          assert bs[j + 1] == y;
        }
      }
      InsertOldestFirst(bs[0], rest)
  }

  function SumCounts(bs: seq<Bucket>): nat {
    if bs == [] then 0 else bs[0].count + SumCounts(bs[1..])
  }

  lemma {:induction false} InsertKeepsSum(b: Bucket, s: seq<Bucket>)
    requires OldestFirst(s)
    requires forall y :: y in s ==> y.timestamp != b.timestamp
    ensures SumCounts(InsertOldestFirst(b, s)) == b.count + SumCounts(s)
  {
    if s != [] && b.timestamp >= s[0].timestamp {
      assert s == [s[0]] + s[1..];
      InsertKeepsSum(b, s[1..]);
      assert ([s[0]] + InsertOldestFirst(b, s[1..]))[1..] == InsertOldestFirst(b, s[1..]);
    }
  }

  lemma {:induction false} SortKeepsSum(bs: seq<Bucket>)
    requires DistinctTimes(bs)
    ensures SumCounts(SortOldestFirst(bs)) == SumCounts(bs)
  {
    if bs != [] {
      assert bs == [bs[0]] + bs[1..];
      SortKeepsSum(bs[1..]);
      var rest := SortOldestFirst(bs[1..]);
      forall y | y in rest ensures y.timestamp != bs[0].timestamp {
        var j :| 0 <= j < |bs[1..]| && bs[1..][j] == y;
        assert bs[j + 1] == y;
      }
      InsertKeepsSum(bs[0], rest);
    }
  }

  lemma {:induction false} CountsBoundLength(bs: seq<Bucket>)
    requires forall b :: b in bs ==> b.count > 0
    ensures |bs| <= SumCounts(bs)
  {
    if bs != [] {
      assert bs[0] in bs;
      assert forall b :: b in bs[1..] ==> b in bs;
      CountsBoundLength(bs[1..]);
    }
  }

  lemma {:induction false} SumCountsSnoc(bs: seq<Bucket>, b: Bucket)
    ensures SumCounts(bs + [b]) == SumCounts(bs) + b.count
  {
    if bs != [] {
      assert (bs + [b])[1..] == bs[1..] + [b];
      SumCountsSnoc(bs[1..], b);
    }
  }

  // ---------------------------------------------------------------- the history response

  /** The averaging `map` over the accumulator's entries, in key order. */
  function Summaries(keys: seq<int>, groups: map<int, seq<HeartRateReading>>): (r: seq<Bucket>)
    requires forall i :: 0 <= i < |keys| ==> keys[i] in groups && groups[keys[i]] != []
    ensures |r| == |keys|
    ensures forall j :: 0 <= j < |keys| ==> r[j] == Summarize(keys[j], groups[keys[j]])
  {
    seq(|keys|, j requires 0 <= j < |keys| => Summarize(keys[j], groups[keys[j]]))
  }

  lemma {:induction false} SummariesCount(keys: seq<int>, groups: map<int, seq<HeartRateReading>>)
    requires forall i :: 0 <= i < |keys| ==> keys[i] in groups && groups[keys[i]] != []
    ensures SumCounts(Summaries(keys, groups)) == GroupSizes(keys, groups)
  {
    if keys != [] {
      var init := keys[..|keys| - 1];
      SummariesCount(init, groups);
      assert Summaries(keys, groups) == Summaries(init, groups) + [Summarize(keys[|keys| - 1], groups[keys[|keys| - 1]])];
      SumCountsSnoc(Summaries(init, groups), Summarize(keys[|keys| - 1], groups[keys[|keys| - 1]]));
    }
  }

  lemma SummariesDistinct(keys: seq<int>, groups: map<int, seq<HeartRateReading>>)
    requires forall i :: 0 <= i < |keys| ==> keys[i] in groups && groups[keys[i]] != []
    requires forall i, j :: 0 <= i < j < |keys| ==> keys[i] != keys[j]
    ensures DistinctTimes(Summaries(keys, groups))
  {
    var r := Summaries(keys, groups);
    forall a, b | 0 <= a < b < |r| ensures r[a].timestamp != r[b].timestamp {
      assert r[a].timestamp == keys[a] && r[b].timestamp == keys[b];
    }
  }

  /** `/api/patients/:patientId/heart-rate/history` after the store query: one bucket per
      minute that holds a reading, oldest first, each the rounded means of its minute. */
  method HistoryData(readings: seq<HeartRateReading>) returns (buckets: seq<Bucket>)
    ensures buckets == [] <==> readings == []
    ensures |buckets| <= |readings|
    ensures OldestFirst(buckets)
    ensures forall b :: b in buckets ==> b.timestamp % MillisPerMinute == 0
    ensures forall b :: b in buckets ==> b.count > 0 && InMinute(readings, b.timestamp) != []
    ensures forall b :: b in buckets ==> b == Summarize(b.timestamp, InMinute(readings, b.timestamp))
    ensures forall x :: x in readings ==> exists b :: b in buckets && b.timestamp == BucketTime(x.timestamp)
    ensures SumCounts(buckets) == |readings|
  {
    var keys, groups := GroupByMinute(readings);
    var unsorted := Summaries(keys, groups);
    SummariesDistinct(keys, groups);
    SummariesCount(keys, groups);
    buckets := SortOldestFirst(unsorted);
    SortKeepsSum(unsorted);
    forall b | b in buckets ensures b.count > 0 && b.timestamp in groups && b == Summarize(b.timestamp, groups[b.timestamp]) {
      var j :| 0 <= j < |unsorted| && unsorted[j] == b;
    }
    forall x | x in readings ensures exists b :: b in buckets && b.timestamp == BucketTime(x.timestamp) {
      var j :| 0 <= j < |keys| && keys[j] == MinuteKey(x.timestamp);
      assert unsorted[j] in buckets;
    }
    CountsBoundLength(buckets);
  }

  /** The history endpoint: the store's newest readings (500 by default), bucketed. */
  method History(store: MemStorage, patientId: string, query: Option<nat>)
    returns (fetched: seq<HeartRateReading>, buckets: seq<Bucket>)
    requires store.Valid()
    ensures fetched == store.GetHeartRateReadings(patientId, LimitOrDefault(query, DefaultHistoryLimit))
    ensures |fetched| <= LimitOrDefault(query, DefaultHistoryLimit)
    ensures forall x :: x in fetched ==> x.patientId == Some(patientId)
    ensures buckets == [] <==> fetched == []
    ensures |buckets| <= |fetched|
    ensures OldestFirst(buckets)
    ensures forall b :: b in buckets ==> b.timestamp % MillisPerMinute == 0
    ensures forall b :: b in buckets ==> b.count > 0 && InMinute(fetched, b.timestamp) != []
    ensures forall b :: b in buckets ==> b == Summarize(b.timestamp, InMinute(fetched, b.timestamp))
    ensures forall x :: x in fetched ==> exists b :: b in buckets && b.timestamp == BucketTime(x.timestamp)
    ensures SumCounts(buckets) == |fetched|
  {
    fetched := store.GetHeartRateReadings(patientId, LimitOrDefault(query, DefaultHistoryLimit));
    buckets := HistoryData(fetched);
  }

  /** The raw readings endpoint: at most the requested number (100 by default), newest first. */
  function Readings(store: MemStorage, patientId: string, query: Option<nat>): (r: seq<HeartRateReading>)
    reads store
    requires store.Valid()
    ensures |r| <= LimitOrDefault(query, DefaultReadingLimit)
    ensures |r| == Min(LimitOrDefault(query, DefaultReadingLimit), |ForPatient(store.AllReadings(), patientId)|)
    ensures multiset(r) <= multiset(ForPatient(store.AllReadings(), patientId))
    ensures NewestFirst(r)
    ensures forall x :: x in r ==> x.patientId == Some(patientId) && x in store.heartRateReadings.Values
    ensures forall x, y :: x in r && y in store.heartRateReadings.Values && y.patientId == Some(patientId) && y !in r
              ==> y.timestamp <= x.timestamp
  {
    store.GetHeartRateReadings(patientId, LimitOrDefault(query, DefaultReadingLimit))
  }

  // ---------------------------------------------------------------- live stream rules

  /** `Math.max(50, Math.min(150, x))`. */
  function ClampHeartRate(x: int): (r: int)
    ensures 50 <= r <= 150
    ensures 50 <= x <= 150 ==> r == x
    ensures x < 50 ==> r == 50
    ensures x > 150 ==> r == 150
  {
    var upper := if x < 150 then x else 150;
    if upper > 50 then upper else 50
  }

  /** The simulated heart rate for a `Math.random()` draw `u` in [0, 1): 72 BPM +/- 10, clamped. */
  function SimulatedHeartRate(u: real): (r: int)
    requires 0.0 <= u < 1.0
    ensures 50 <= r <= 150
  {
    ClampHeartRate(RoundReal(72.0 + (u - 0.5) * 20.0))
  }

  /** With the +/-10 BPM noise, the clamp never bites: the rate stays within [62, 82]. */
  lemma SimulatedHeartRateNearBase(u: real)
    requires 0.0 <= u < 1.0
    ensures 62 <= SimulatedHeartRate(u) <= 82
    ensures SimulatedHeartRate(u) == RoundReal(72.0 + (u - 0.5) * 20.0)
  {
    RoundRealBetween(72.0 + (u - 0.5) * 20.0, 62, 82);
  }

  /** The simulated signal quality for a `Math.random()` draw `u` in [0, 1). */
  function SimulatedSignalQuality(u: real): (q: int)
    requires 0.0 <= u < 1.0
    ensures 85 <= q <= 100
  {
    RoundRealBetween(85.0 + u * 15.0, 85, 100);
    RoundReal(85.0 + u * 15.0)
  }

  /** Messages the server sends over the stream (those modelled here). */
  datatype ServerMessage =
    | Connected(message: string)
    | HeartRate(heartRate: int, signalQuality: int, timestamp: int)
    | Status(message: string)
    | Error(message: string)
  {
    /** The `type` field of the JSON message. */
    function TypeTag(): string {
      match this
      case Connected(_) => "connected"
      case HeartRate(_, _, _) => "heartRate"
      case Status(_) => "status"
      case Error(_) => "error"
    }
  }

  /** A client message as the handler sees it. `Malformed` is text that `JSON.parse` rejects,
      and also text that parses to `null`, whose `.command` access throws inside the same
      `try`; either way the failure is logged and nothing is sent. `Parsed(None)` is any other
      parsed value without a string `command` field (a number, an array, an object lacking
      the field), which reaches the `default` case. */
  datatype ClientCommand = Malformed | Parsed(command: Option<string>)

  /** The `switch (data.command)` of the message handler; a parse failure is only logged. */
  function HandleCommand(m: ClientCommand): (reply: Option<ServerMessage>)
    ensures reply.None? <==> m.Malformed?
    ensures reply == Some(Status("Monitoring started")) <==> m == Parsed(Some("startMonitoring"))
    ensures reply == Some(Status("Monitoring stopped")) <==> m == Parsed(Some("stopMonitoring"))
    ensures reply == Some(Error("Unknown command")) <==>
              m.Parsed? && m.command != Some("startMonitoring") && m.command != Some("stopMonitoring")
    ensures reply.Some? ==> reply.value.TypeTag() in {"status", "error"}
  {
    match m
    case Malformed => None
    case Parsed(c) =>
      if c == Some("startMonitoring") then Some(Status("Monitoring started"))
      else if c == Some("stopMonitoring") then Some(Status("Monitoring stopped"))
      else Some(Error("Unknown command"))
  }

  /** The connection handler's bootstrap: create the demo patient and greet the client. */
  method OnConnection(store: MemStorage, now: int) returns (demo: Option<Patient>, greeting: ServerMessage)
    requires store.Valid()
    modifies store
    ensures store.Valid()
    ensures demo.Some? && demo.value.name == "Demo Patient" && demo.value.age == 35
    ensures demo.value.id !in old(store.patients)
    ensures demo.value.createdAt == now && demo.value.updatedAt == now
    ensures store.patients == old(store.patients)[demo.value.id := demo.value]
    ensures store.heartRateReadings == old(store.heartRateReadings) && store.readingOrder == old(store.readingOrder)
    ensures greeting == Connected("All sensors connected")
  {
    var p := store.CreatePatient(InsertPatient("Demo Patient", 35), now);
    demo := Some(p);
    greeting := Connected("All sensors connected");
  }

  /** One heart-rate tick: when the socket is open, send a simulated reading and, when the
      demo patient exists, persist it against that patient. The message is stamped `now` and
      the stored reading `storedAt`, the two separate clock reads of the source. */
  method HeartRateTick(store: MemStorage, open: bool, demo: Option<Patient>, uRate: real, uQuality: real, now: int, storedAt: int)
    returns (sent: Option<ServerMessage>)
    requires store.Valid()
    requires 0.0 <= uRate < 1.0 && 0.0 <= uQuality < 1.0
    modifies store
    ensures store.Valid()
    ensures sent.Some? <==> open
    ensures sent.Some? ==> sent.value == HeartRate(SimulatedHeartRate(uRate), SimulatedSignalQuality(uQuality), now)
    ensures store.patients == old(store.patients)
    ensures open && demo.Some? ==>
      exists id :: id !in old(store.heartRateReadings) &&
        store.AllReadings() == old(store.AllReadings()) +
          [HeartRateReading(id, Some(demo.value.id), SimulatedHeartRate(uRate), storedAt, Some(SimulatedSignalQuality(uQuality) as real))]
    ensures !(open && demo.Some?) ==>
      store.heartRateReadings == old(store.heartRateReadings) && store.readingOrder == old(store.readingOrder)
  {
    if !open {
      return None;
    }
    var rate, quality := SimulatedHeartRate(uRate), SimulatedSignalQuality(uQuality);
    sent := Some(HeartRate(rate, quality, now));
    if demo.Some? {
      var stored := store.CreateHeartRateReading(InsertHeartRateReading(Some(demo.value.id), rate, Some(quality as real)), storedAt);
    }
  }
}
