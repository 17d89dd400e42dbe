/** The in-memory store behind the API: patients and heart-rate readings kept in two maps. */
module Storage {
  import opened Common
  import opened Schema

  /** Limit applied by `getHeartRateReadings` when the caller gives none. */
  const DefaultReadingLimit: nat := 100

  /** Timestamps never increase along the sequence: most recent reading first. */
  predicate NewestFirst(s: seq<HeartRateReading>) {
    forall i, j :: 0 <= i < j < |s| ==> s[i].timestamp >= s[j].timestamp
  }

  /** No element occurs twice. */
  predicate Distinct(s: seq<HeartRateReading>) {
    forall i, j :: 0 <= i < j < |s| ==> s[i] != s[j]
  }

  /** The readings of `rs` that reference patient `p`, in their original order. */
  function ForPatient(rs: seq<HeartRateReading>, p: string): (r: seq<HeartRateReading>)
    ensures forall x :: x in r <==> x in rs && x.patientId == Some(p)
    ensures forall x :: multiset(r)[x] == if x.patientId == Some(p) then multiset(rs)[x] else 0
    ensures |r| <= |rs|
  {
    if rs == [] then []
    else
      assert rs == [rs[0]] + rs[1..];
      (if rs[0].patientId == Some(p) then [rs[0]] else []) + ForPatient(rs[1..], p)
  }

  /** In a sequence without repetitions every element occurs at most once. */
  lemma {:induction false} DistinctCountsAtMostOne(s: seq<HeartRateReading>)
    requires Distinct(s)
    ensures forall x :: multiset(s)[x] <= 1
  {
    if s != [] {
      var rest := s[1..];
      assert Distinct(rest) by {
        forall i, j | 0 <= i < j < |rest| ensures rest[i] != rest[j] {
          assert rest[i] == s[i + 1] && rest[j] == s[j + 1];
        }
      }
      DistinctCountsAtMostOne(rest);
      assert s == [s[0]] + rest;
      assert s[0] !in rest;
    }
  }

  /** Taking elements of a sequence without repetitions cannot create one. */
  lemma SubmultisetOfDistinct(r: seq<HeartRateReading>, s: seq<HeartRateReading>)
    requires Distinct(s) && multiset(r) <= multiset(s)
    ensures Distinct(r)
  {
    DistinctCountsAtMostOne(s);
    forall i, j | 0 <= i < j < |r| ensures r[i] != r[j] {
      RepeatCountsTwice(r, i, j);
    }
  }

  lemma RepeatCountsTwice(r: seq<HeartRateReading>, i: nat, j: nat)
    requires i < j < |r|
    ensures r[i] == r[j] ==> multiset(r)[r[j]] >= 2
  {
    assert r == r[..j] + [r[j]] + r[j + 1..];
    assert r[i] in r[..j];
    assert multiset(r) == multiset(r[..j]) + multiset{r[j]} + multiset(r[j + 1..]);
  }

  /** The readings of `rs` stamped with time `t`, in their original order. */
  function AtTime(rs: seq<HeartRateReading>, t: int): seq<HeartRateReading> {
    if rs == [] then []
    else (if rs[0].timestamp == t then [rs[0]] else []) + AtTime(rs[1..], t)
  }

  /** One step of a stable sort: `x` goes before the first element that is not newer than it. */
  function InsertNewestFirst(x: HeartRateReading, s: seq<HeartRateReading>): (r: seq<HeartRateReading>)
    requires NewestFirst(s)
    ensures NewestFirst(r)
    ensures multiset(r) == multiset(s) + multiset{x}
    ensures |r| == |s| + 1
    ensures r[0] == x || (s != [] && r[0] == s[0])
  {
    if s == [] || x.timestamp >= s[0].timestamp then [x] + s
    else
      var t := InsertNewestFirst(x, s[1..]);
      assert s == [s[0]] + s[1..];
      var r := [s[0]] + t;
      assert forall j :: 0 < j < |r| ==> r[0].timestamp >= r[j].timestamp by {
        forall j | 0 < j < |r| ensures r[0].timestamp >= r[j].timestamp {
          assert r[j] == t[j - 1];
          assert t[0].timestamp >= t[j - 1].timestamp;
        }
      }
      r
  }

  /** `Array.prototype.sort` with the comparator `b.timestamp - a.timestamp` (a stable sort). */
  function SortNewestFirst(s: seq<HeartRateReading>): (r: seq<HeartRateReading>)
    ensures NewestFirst(r)
    ensures multiset(r) == multiset(s)
    ensures |r| == |s|
  {
    if s == [] then []
    else
      assert s == [s[0]] + s[1..];
      InsertNewestFirst(s[0], SortNewestFirst(s[1..]))
  }

  lemma {:induction false} InsertKeepsTies(x: HeartRateReading, s: seq<HeartRateReading>, t: int)
    requires NewestFirst(s)
    ensures AtTime(InsertNewestFirst(x, s), t) == AtTime([x] + s, t)
  {
    if s == [] || x.timestamp >= s[0].timestamp {
    } else {
      var s0, rest := s[0], s[1..];
      assert NewestFirst(rest);
      InsertKeepsTies(x, rest, t);
      assert [s0] + InsertNewestFirst(x, rest) == InsertNewestFirst(x, s);
      assert ([s0] + InsertNewestFirst(x, rest))[1..] == InsertNewestFirst(x, rest);
      assert ([x] + rest)[1..] == rest;
      assert ([x] + s)[1..] == s && s[1..] == rest;
      assert ([s0] + ([x] + rest))[1..] == [x] + rest;
    }
  }

  /** The sort is stable: readings with equal timestamps keep their relative order. */
  lemma {:induction false} SortIsStable(s: seq<HeartRateReading>, t: int)
    ensures AtTime(SortNewestFirst(s), t) == AtTime(s, t)
  {
    if s != [] {
      SortIsStable(s[1..], t);
      InsertKeepsTies(s[0], SortNewestFirst(s[1..]), t);
      assert ([s[0]] + SortNewestFirst(s[1..]))[1..] == SortNewestFirst(s[1..]);
    }
  }

  /** The first `limit` elements of the sorted readings: those not taken are never newer. */
  function MostRecent(rs: seq<HeartRateReading>, limit: nat): (r: seq<HeartRateReading>)
    ensures forall x :: x in r ==> x in rs
    ensures multiset(r) <= multiset(rs)
    ensures |r| == Min(limit, |rs|)
    ensures NewestFirst(r)
    ensures forall x, y :: x in r && y in rs && y !in r ==> y.timestamp <= x.timestamp
  {
    var sorted := SortNewestFirst(rs);
    var r := sorted[..Min(limit, |sorted|)];
    SameElements(sorted, rs);
    PrefixIsNewest(sorted, Min(limit, |sorted|));
    assert sorted == r + sorted[|r|..];
    r
  }

  /** A limit that covers the whole input keeps every element. */
  lemma MostRecentOfAll(rs: seq<HeartRateReading>, limit: nat, x: HeartRateReading)
    requires |rs| <= limit && x in rs
    ensures x in MostRecent(rs, limit)
  {
    var sorted := SortNewestFirst(rs);
    assert MostRecent(rs, limit) == sorted;
    assert x in multiset(sorted);
  }

  lemma SameElements(a: seq<HeartRateReading>, b: seq<HeartRateReading>)
    requires multiset(a) == multiset(b)
    ensures forall x :: x in a <==> x in b
  {
    forall x ensures x in a <==> x in b {
      assert x in a <==> x in multiset(a);
      assert x in b <==> x in multiset(b);
    }
  }

  /** In a newest-first sequence, nothing after position `k` is newer than anything before it. */
  lemma PrefixIsNewest(sorted: seq<HeartRateReading>, k: nat)
    requires NewestFirst(sorted) && k <= |sorted|
    ensures forall x, y :: x in sorted[..k] && y in sorted && y !in sorted[..k] ==> y.timestamp <= x.timestamp
  {
    var r := sorted[..k];
    forall x, y | x in r && y in sorted && y !in r ensures y.timestamp <= x.timestamp {
      var i :| 0 <= i < |r| && r[i] == x;
      var j :| 0 <= j < |sorted| && sorted[j] == y;
      assert j >= k;
      assert sorted[i] == x;
    }
  }

  /** The values of `m` listed in the order of `order`. */
  function ValuesInOrder(m: map<string, HeartRateReading>, order: seq<string>): (r: seq<HeartRateReading>)
    requires forall i :: 0 <= i < |order| ==> order[i] in m
    ensures |r| == |order|
    ensures forall i :: 0 <= i < |order| ==> r[i] == m[order[i]]
  {
    seq(|order|, i requires 0 <= i < |order| => m[order[i]])
  }

  class MemStorage {
    var patients: map<string, Patient>
    var heartRateReadings: map<string, HeartRateReading>
    /** The keys of `heartRateReadings` in insertion order, the order a JavaScript `Map` iterates in. */
    var readingOrder: seq<string>

    ghost predicate Valid()
      reads this
    {
      && (forall id :: id in patients ==> patients[id].id == id)
      && (forall id :: id in heartRateReadings ==> heartRateReadings[id].id == id)
      && (forall i :: 0 <= i < |readingOrder| ==> readingOrder[i] in heartRateReadings)
      && (forall id :: id in heartRateReadings ==> id in readingOrder)
      && (forall i, j :: 0 <= i < j < |readingOrder| ==> readingOrder[i] != readingOrder[j])
    }

    constructor ()
      ensures Valid()
      ensures patients == map[] && heartRateReadings == map[] && readingOrder == []
    {
      patients := map[];
      heartRateReadings := map[];
      readingOrder := [];
    }

    /** The stored readings in insertion order (`Array.from(this.heartRateReadings.values())`). */
    function AllReadings(): (r: seq<HeartRateReading>)
      reads this
      requires Valid()
      ensures |r| == |readingOrder|
      ensures forall x :: x in r <==> x in heartRateReadings.Values
      ensures forall i, j :: 0 <= i < j < |r| ==> r[i].id != r[j].id
    {
      var r := ValuesInOrder(heartRateReadings, readingOrder);
      assert forall x :: x in heartRateReadings.Values ==> x in r by {
        forall x | x in heartRateReadings.Values ensures x in r {
          var id :| id in heartRateReadings && heartRateReadings[id] == x;
          var i :| 0 <= i < |readingOrder| && readingOrder[i] == id;
          assert r[i] == x;
        }
      }
      r
    }

    /** `getPatient`: the stored patient for `id`, or absent. */
    function GetPatient(id: string): (r: Option<Patient>)
      reads this
      requires Valid()
      ensures r.Some? <==> id in patients
      ensures r.Some? ==> r.value == patients[id] && r.value.id == id
    {
      if id in patients then Some(patients[id]) else None
    }

    /** `createPatient`: store the caller's name and age under a fresh id, created and updated now. */
    method CreatePatient(insert: InsertPatient, now: int) returns (patient: Patient)
      requires Valid()
      modifies this
      ensures Valid()
      ensures patient.id !in old(patients)
      ensures patient.name == insert.name && patient.age == insert.age
      ensures patient.createdAt == now && patient.updatedAt == now
      ensures patients == old(patients)[patient.id := patient]
      ensures heartRateReadings == old(heartRateReadings) && readingOrder == old(readingOrder)
      ensures GetPatient(patient.id) == Some(patient)
    {
      FreshKeyExists(patients.Keys);
      var id :| id !in patients.Keys;
      patient := Patient(id, insert.name, insert.age, now, now);
      patients := patients[id := patient];
    }

    /** `updatePatient`: override the supplied fields of an existing patient and stamp `updatedAt`. */
    method UpdatePatient(id: string, updates: PatientUpdate, now: int) returns (r: Option<Patient>)
      requires Valid()
      modifies this
      ensures Valid()
      ensures heartRateReadings == old(heartRateReadings) && readingOrder == old(readingOrder)
      ensures id !in old(patients) ==> r == None && patients == old(patients)
      ensures id in old(patients) ==>
        var p := old(patients)[id];
        && r.Some?
        && r.value == Patient(id, updates.name.GetOr(p.name), updates.age.GetOr(p.age), p.createdAt, now)
        && patients == old(patients)[id := r.value]
    {
      var existing := GetPatient(id);
      if existing.None? {
        return None;
      }
      var p := existing.value;
      var updated := p.(name := updates.name.GetOr(p.name), age := updates.age.GetOr(p.age), updatedAt := now);
      patients := patients[id := updated];
      r := Some(updated);
    }

    /** `getHeartRateReadings`: the `limit` most recent readings of `patientId`, newest first. */
    function GetHeartRateReadings(patientId: string, limit: nat): (r: seq<HeartRateReading>)
      reads this
      requires Valid()
      ensures forall x :: x in r ==> x.patientId == Some(patientId) && x in heartRateReadings.Values
      ensures multiset(r) <= multiset(ForPatient(AllReadings(), patientId))
      ensures Distinct(r)
      ensures |r| == Min(limit, |ForPatient(AllReadings(), patientId)|)
      ensures NewestFirst(r)
      ensures forall x, y :: x in r && y in heartRateReadings.Values && y.patientId == Some(patientId) && y !in r
                ==> y.timestamp <= x.timestamp
    {
      var all := AllReadings();
      var mine := ForPatient(all, patientId);
      var r := MostRecent(mine, limit);
      assert Distinct(all);
      SubmultisetOfDistinct(r, all);
      r
    }

    /** `createHeartRateReading`: copy the caller's fields, add a fresh id and the store's timestamp. */
    method CreateHeartRateReading(insert: InsertHeartRateReading, now: int) returns (reading: HeartRateReading)
      requires Valid()
      modifies this
      ensures Valid()
      ensures reading.id !in old(heartRateReadings)
      ensures reading == HeartRateReading(reading.id, insert.patientId, insert.heartRate, now, insert.signalQuality)
      ensures heartRateReadings == old(heartRateReadings)[reading.id := reading]
      ensures readingOrder == old(readingOrder) + [reading.id]
      ensures AllReadings() == old(AllReadings()) + [reading]
      ensures patients == old(patients)
    {
      ghost var before := AllReadings();
      FreshKeyExists(heartRateReadings.Keys);
      var id :| id !in heartRateReadings.Keys;
      reading := HeartRateReading(id, insert.patientId, insert.heartRate, now, insert.signalQuality);
      heartRateReadings := heartRateReadings[id := reading];
      readingOrder := readingOrder + [id];
      assert AllReadings() == before + [reading] by {
        var after := AllReadings();
        assert |after| == |before| + 1;
        forall i | 0 <= i < |after| ensures after[i] == (before + [reading])[i] {
          if i < |before| {
            assert readingOrder[i] != id;
          }
        }
      }
    }

    /** `getLatestHeartRateReading`: the first of the one most recent reading, or absent. */
    function GetLatestHeartRateReading(patientId: string): (r: Option<HeartRateReading>)
      reads this
      requires Valid()
      ensures r.None? <==> forall y :: y in heartRateReadings.Values ==> y.patientId != Some(patientId)
      ensures r.Some? ==> && r.value in heartRateReadings.Values
                          && r.value.patientId == Some(patientId)
                          && forall y :: y in heartRateReadings.Values && y.patientId == Some(patientId)
                               ==> y.timestamp <= r.value.timestamp
    {
      var rs := GetHeartRateReadings(patientId, 1);
      if |rs| == 0 then None else Some(rs[0])
    }

    /** Every stored reading of a patient is returned once the limit covers the whole store. */
    lemma StoredReadingIsRetrievable(patientId: string, x: HeartRateReading)
      requires Valid()
      requires x in heartRateReadings.Values && x.patientId == Some(patientId)
      ensures x in GetHeartRateReadings(patientId, |readingOrder|)
    {
      var mine := ForPatient(AllReadings(), patientId);
      assert x in mine;
      MostRecentOfAll(mine, |readingOrder|, x);
    }
  }

  /** The longest length among a finite set of strings. */
  ghost function MaxLength(keys: set<string>): (m: nat)
    ensures forall k :: k in keys ==> |k| <= m
    decreases keys
  {
    if keys == {} then 0
    else
      var k :| k in keys;
      var rest := MaxLength(keys - {k});
      if |k| > rest then |k| else rest
  }

  /** A finite set of ids always leaves some id unused, so a fresh UUID can be chosen. */
  lemma FreshKeyExists(keys: set<string>)
    ensures exists s: string :: s !in keys
  {
    var s := seq(MaxLength(keys) + 1, _ => 'x');
    assert s !in keys;
  }
}
