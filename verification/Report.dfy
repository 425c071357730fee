/** Per-service, per-level report metrics (internal/api/grpc/report.go). */
module Report {
  import opened Wrappers
  import opened Clock
  import opened Ordering
  import opened SevModel
  import opened Sla
  import opened SlaLookup

  /** A group: an affected service and a severity level. */
  type Key = (string, Level)

  /** One record counted under one of its services. */
  datatype Mention = Mention(key: Key, record: Sev)

  function MentionsOf(r: Sev): (ms: seq<Mention>)
    ensures |ms| == |r.services|
    ensures forall j | 0 <= j < |ms| :: ms[j] == Mention((r.services[j], r.level), r)
  {
    seq(|r.services|, j requires 0 <= j < |r.services| => Mention((r.services[j], r.level), r))
  }

  function Mentions(records: seq<Sev>): seq<Mention> {
    if records == [] then [] else Mentions(records[..|records| - 1]) + MentionsOf(records[|records| - 1])
  }

  function Keys(ms: seq<Mention>): set<Key> {
    set m | m in ms :: m.key
  }

  function TotalServices(records: seq<Sev>): nat {
    if records == [] then 0 else TotalServices(records[..|records| - 1]) + |records[|records| - 1].services|
  }

  lemma {:induction false} MentionsCount(records: seq<Sev>)
    ensures |Mentions(records)| == TotalServices(records)
  {
    if records != [] {
      MentionsCount(records[..|records| - 1]);
    }
  }

  // ---------- accumulators ----------

  datatype Mean = Mean(sum: int, n: nat)

  datatype Accum = Accum(
    count: nat,
    mttd: Mean,
    mttm: Mean,
    mttr: Mean,
    ok: nat,
    atRisk: nat,
    breached: nat,
    notApplicable: nat)

  const ZERO := Accum(0, Mean(0, 0), Mean(0, 0), Mean(0, 0), 0, 0, 0, 0)

  function Include(m: Mean, v: Option<int>): Mean {
    if v.Some? then Mean(m.sum + v.value, m.n + 1) else m
  }

  function Add(a: Accum, r: Sev, status: SlaStatus): Accum {
    Accum(a.count + 1, Include(a.mttd, r.metrics.mttd), Include(a.mttm, r.metrics.mttm), Include(a.mttr, r.metrics.mttr),
          a.ok + (if status.OnTrack? then 1 else 0),
          a.atRisk + (if status.AtRisk? then 1 else 0),
          a.breached + (if status.Breached? then 1 else 0),
          a.notApplicable + (if status.NotApplicable? then 1 else 0))
  }

  /** What the mentions of one key accumulate to. */
  function Tally(ms: seq<Mention>, key: Key, lookup: Table, now: Time): Accum {
    if ms == [] then ZERO
    else
      var before, m := Tally(ms[..|ms| - 1], key, lookup, now), ms[|ms| - 1];
      if m.key == key then Add(before, m.record, Bucket(lookup, m.record, key.0, now)) else before
  }

  function CountOf(ms: seq<Mention>, key: Key): nat {
    if ms == [] then 0
    else CountOf(ms[..|ms| - 1], key) + (if ms[|ms| - 1].key == key then 1 else 0)
  }

  datatype Metric = MTTD | MTTM | MTTR

  function MetricOf(r: Sev, metric: Metric): Option<int> {
    match metric
    case MTTD => r.metrics.mttd
    case MTTM => r.metrics.mttm
    case MTTR => r.metrics.mttr
  }

  function MeanOf(a: Accum, metric: Metric): Mean {
    match metric
    case MTTD => a.mttd
    case MTTM => a.mttm
    case MTTR => a.mttr
  }

  /** The values that contribute to an average: the metrics, already computed, of the key's records. */
  function Contributions(ms: seq<Mention>, key: Key, metric: Metric): seq<int> {
    if ms == [] then []
    else
      var before, m := Contributions(ms[..|ms| - 1], key, metric), ms[|ms| - 1];
      if m.key == key && MetricOf(m.record, metric).Some? then before + [MetricOf(m.record, metric).value] else before
  }

  /** The four status buckets partition a key's records, and the count is the number of mentions. */
  lemma {:induction false} BucketsPartition(ms: seq<Mention>, key: Key, lookup: Table, now: Time)
    ensures var a := Tally(ms, key, lookup, now);
      a.count == a.ok + a.atRisk + a.breached + a.notApplicable && a.count == CountOf(ms, key)
  {
    if ms != [] {
      BucketsPartition(ms[..|ms| - 1], key, lookup, now);
    }
  }

  // ---------- what the accumulators count ----------

  /** The positions of the mentions that meet a condition. */
  function Where(ms: seq<Mention>, f: Mention -> bool): set<nat> {
    set i: nat | i < |ms| && f(ms[i])
  }

  lemma OneMoreWhere(ms: seq<Mention>, f: Mention -> bool)
    requires ms != []
    ensures |Where(ms, f)| == |Where(ms[..|ms| - 1], f)| + (if f(ms[|ms| - 1]) then 1 else 0)
  {
    var n: nat := |ms| - 1;
    var before, after := Where(ms[..n], f), Where(ms, f);
    forall i: nat
      ensures i in after <==> i in before || (i == n && f(ms[n]))
    {
      assert i < n ==> ms[..n][i] == ms[i];
    }
    assert after == if f(ms[n]) then before + {n} else before;
  }

  /** A mention of a group that is in one bucket. */
  function IsIn(key: Key, status: SlaStatus, lookup: Table, now: Time): Mention -> bool {
    (m: Mention) => m.key == key && Bucket(lookup, m.record, key.0, now) == status
  }

  function InBucket(ms: seq<Mention>, key: Key, status: SlaStatus, lookup: Table, now: Time): set<nat> {
    Where(ms, IsIn(key, status, lookup, now))
  }

  /** The four counters are the numbers of the group's mentions in the four buckets. */
  lemma {:induction false} CountersAreBuckets(ms: seq<Mention>, key: Key, lookup: Table, now: Time)
    ensures var a := Tally(ms, key, lookup, now);
      && a.ok == |InBucket(ms, key, OnTrack, lookup, now)|
      && a.atRisk == |InBucket(ms, key, AtRisk, lookup, now)|
      && a.breached == |InBucket(ms, key, Breached, lookup, now)|
      && a.notApplicable == |InBucket(ms, key, NotApplicable, lookup, now)|
  {
    if ms != [] {
      CountersAreBuckets(ms[..|ms| - 1], key, lookup, now);
      OneMoreWhere(ms, IsIn(key, OnTrack, lookup, now));
      OneMoreWhere(ms, IsIn(key, AtRisk, lookup, now));
      OneMoreWhere(ms, IsIn(key, Breached, lookup, now));
      OneMoreWhere(ms, IsIn(key, NotApplicable, lookup, now));
    }
  }

  function Sum(values: seq<int>): int {
    if values == [] then 0 else Sum(values[..|values| - 1]) + values[|values| - 1]
  }

  lemma SumOneMore(values: seq<int>, v: int)
    ensures Sum(values + [v]) == Sum(values) + v
  {
    assert (values + [v])[..|values|] == values;
  }

  /** What is summed for an average is the group's metrics. */
  lemma {:induction false} MeansAreSums(ms: seq<Mention>, key: Key, lookup: Table, now: Time, metric: Metric)
    ensures var m, values := MeanOf(Tally(ms, key, lookup, now), metric), Contributions(ms, key, metric);
      m.sum == Sum(values) && m.n == |values|
  {
    if ms != [] {
      var init, m := ms[..|ms| - 1], ms[|ms| - 1];
      MeansAreSums(init, key, lookup, now, metric);
      if MetricOf(m.record, metric).Some? {
        SumOneMore(Contributions(init, key, metric), MetricOf(m.record, metric).value);
      }
    }
  }

  predicate Bounded(m: Mean, lo: int, hi: int) {
    lo * m.n <= m.sum <= hi * m.n
  }

  lemma IncludeBounded(m: Mean, v: Option<int>, lo: int, hi: int)
    requires Bounded(m, lo, hi) && (v.Some? ==> lo <= v.value <= hi)
    ensures Bounded(Include(m, v), lo, hi)
  {
    assert lo * (m.n + 1) == lo * m.n + lo;
    assert hi * (m.n + 1) == hi * m.n + hi;
  }

  /** The sums behind an average stay between the extremes of what contributed to them. */
  lemma {:induction false} MeanWithin(ms: seq<Mention>, key: Key, lookup: Table, now: Time, metric: Metric, lo: int, hi: int)
    requires forall v | v in Contributions(ms, key, metric) :: lo <= v <= hi
    ensures var m := MeanOf(Tally(ms, key, lookup, now), metric);
      m.n == |Contributions(ms, key, metric)| && Bounded(m, lo, hi)
  {
    if ms != [] {
      var init, m := ms[..|ms| - 1], ms[|ms| - 1];
      assert forall v | v in Contributions(init, key, metric) :: v in Contributions(ms, key, metric);
      MeanWithin(init, key, lookup, now, metric, lo, hi);
      if m.key == key {
        var v := MetricOf(m.record, metric);
        if v.Some? {
          assert Contributions(ms, key, metric) == Contributions(init, key, metric) + [v.value];
          assert v.value in Contributions(ms, key, metric);
        }
        IncludeBounded(MeanOf(Tally(init, key, lookup, now), metric), v, lo, hi);
      }
    }
  }

  /** Go's truncating average of a key lies between the smallest and the largest contributing value,
      negative durations included. */
  lemma AverageWithin(ms: seq<Mention>, key: Key, lookup: Table, now: Time, metric: Metric, lo: int, hi: int)
    requires forall v | v in Contributions(ms, key, metric) :: lo <= v <= hi
    requires Contributions(ms, key, metric) != []
    ensures var m := MeanOf(Tally(ms, key, lookup, now), metric);
      m.n > 0 && lo <= TruncDiv(m.sum, m.n) <= hi
  {
    MeanWithin(ms, key, lookup, now, metric, lo, hi);
    var m := MeanOf(Tally(ms, key, lookup, now), metric);
    QuotientWithin(m.sum, m.n, lo, hi);
  }

  lemma QuotientWithin(sum: int, n: int, lo: int, hi: int)
    requires n > 0 && lo * n <= sum <= hi * n
    ensures lo <= TruncDiv(sum, n) <= hi
  {
    var q := TruncDiv(sum, n);
    if sum >= 0 {
      assert q * n <= hi * n && lo * n < (q + 1) * n;
    } else {
      assert (q - 1) * n < hi * n && lo * n <= q * n;
    }
    Cancel(lo, q + 1, n);
    Cancel(q - 1, hi, n);
    CancelEq(q, hi, n);
    CancelEq(lo, q, n);
  }

  lemma Cancel(a: int, b: int, n: int)
    requires n > 0
    ensures a * n < b * n ==> a < b
  {
  }

  lemma CancelEq(a: int, b: int, n: int)
    requires n > 0
    ensures a * n <= b * n ==> a <= b
  {
  }

  // ---------- the order of the groups ----------

  predicate KeyLess(a: Key, b: Key) {
    if a.0 != b.0 then StringLess(a.0, b.0) else a.1 < b.1
  }

  lemma KeyLessIsStrictTotal()
    ensures StrictOrder(KeyLess)
    ensures forall a: Key, b: Key | a != b :: KeyLess(a, b) || KeyLess(b, a)
  {
    forall a: Key, b: Key, c: Key | KeyLess(a, b) && KeyLess(b, c)
      ensures KeyLess(a, c)
    {
      if a.0 != b.0 && b.0 != c.0 {
        StringLessTransitive(a.0, b.0, c.0);
        StringLessIrreflexive(a.0);
      }
    }
    forall a: Key, b: Key | a != b
      ensures KeyLess(a, b) || KeyLess(b, a)
    {
      StringLessTotal(a.0, b.0);
    }
  }

  /** The groups that occur, by service and then by level. */
  ghost function GroupKeys(ms: seq<Mention>): (keys: seq<Key>)
    ensures Increasing(KeyLess, keys)
    ensures forall k :: k in keys <==> k in Keys(ms)
  {
    KeyLessIsStrictTotal();
    Listing(KeyLess, Keys(ms))
  }

  /** Collecting a map's keys in whatever order and sorting them gives the listing of the groups. */
  method SortedKeys(keys: set<Key>, ghost ms: seq<Mention>) returns (out: seq<Key>)
    requires keys == Keys(ms)
    ensures out == GroupKeys(ms)
  {
    KeyLessIsStrictTotal();
    var list := CollectKeys(keys);
    var a := new Key[|list|](i requires 0 <= i < |list| => list[i]);
    assert a[..] == list;
    SortInPlace(a, KeyLess);
    out := a[..];
    assert forall k :: k in out <==> k in multiset(out);
    assert forall k :: k in list <==> k in multiset(list);
    IncreasingIsUnique(KeyLess, out, GroupKeys(ms));
  }

  method CollectKeys(keys: set<Key>) returns (list: seq<Key>)
    ensures forall k :: k in list <==> k in keys
    ensures forall i, j | 0 <= i < j < |list| :: list[i] != list[j]
  {
    list := [];
    var todo := keys;
    while todo != {}
      invariant todo <= keys
      invariant forall k :: k in list <==> k in keys && k !in todo
      invariant forall i, j | 0 <= i < j < |list| :: list[i] != list[j]
      decreases |todo|
    {
      var k :| k in todo;
      list := list + [k];
      todo := todo - {k};
    }
  }

  // ---------- the reports ----------

  datatype Row = Row(
    service: string,
    level: Level,
    count: nat,
    ok: nat,
    atRisk: nat,
    breached: nat,
    notApplicable: nat,
    avgMttd: int,
    avgMttm: int,
    avgMttr: int,
    compliance: real)

  function Average(m: Mean): int {
    if m.n > 0 then TruncDiv(m.sum, m.n) else 0
  }

  function Compliance(a: Accum): real {
    var measured := a.ok + a.atRisk + a.breached;
    if measured > 0 then a.ok as real / measured as real else 0.0
  }

  function RowOf(key: Key, a: Accum): Row {
    Row(key.0, key.1, a.count, a.ok, a.atRisk, a.breached, a.notApplicable,
        Average(a.mttd), Average(a.mttm), Average(a.mttr), Compliance(a))
  }

  function RowsOf(keys: seq<Key>, ms: seq<Mention>, lookup: Table, now: Time): (rows: seq<Row>)
    ensures |rows| == |keys|
    ensures forall i | 0 <= i < |keys| :: rows[i] == RowOf(keys[i], Tally(ms, keys[i], lookup, now))
  {
    if keys == [] then []
    else
      var init, k := keys[..|keys| - 1], keys[|keys| - 1];
      RowsOf(init, ms, lookup, now) + [RowOf(k, Tally(ms, k, lookup, now))]
  }

  /** The service-level report over some records. */
  ghost function MetricsReport(records: seq<Sev>, lookup: Table, now: Time): seq<Row> {
    RowsOf(GroupKeys(Mentions(records)), Mentions(records), lookup, now)
  }

  datatype Frequency = Frequency(service: string, level: Level, count: nat)

  function FrequenciesOf(keys: seq<Key>, ms: seq<Mention>): (out: seq<Frequency>)
    ensures |out| == |keys|
    ensures forall i | 0 <= i < |keys| :: out[i] == Frequency(keys[i].0, keys[i].1, CountOf(ms, keys[i]))
  {
    if keys == [] then []
    else
      var init, k := keys[..|keys| - 1], keys[|keys| - 1];
      FrequenciesOf(init, ms) + [Frequency(k.0, k.1, CountOf(ms, k))]
  }

  /** The frequency report over some records. */
  ghost function FrequencyReport(records: seq<Sev>): seq<Frequency> {
    FrequenciesOf(GroupKeys(Mentions(records)), Mentions(records))
  }

  // ---------- accumulating ----------

  lemma {:induction false} NoMentionsZero(ms: seq<Mention>, key: Key, lookup: Table, now: Time)
    requires key !in Keys(ms)
    ensures Tally(ms, key, lookup, now) == ZERO && CountOf(ms, key) == 0
  {
    if ms != [] {
      assert ms[|ms| - 1] in ms;
      assert forall m | m in ms[..|ms| - 1] :: m in ms;
      NoMentionsZero(ms[..|ms| - 1], key, lookup, now);
    }
  }

  /** The accumulators are the tallies of the mentions seen so far. */
  ghost predicate Accumulated(groups: map<Key, Accum>, ms: seq<Mention>, lookup: Table, now: Time) {
    groups == map k | k in Keys(ms) :: Tally(ms, k, lookup, now)
  }

  function AddTo(groups: map<Key, Accum>, m: Mention, status: SlaStatus): map<Key, Accum> {
    groups[m.key := Add(if m.key in groups then groups[m.key] else ZERO, m.record, status)]
  }

  lemma AccumulateOne(groups: map<Key, Accum>, ms: seq<Mention>, m: Mention, lookup: Table, now: Time)
    requires Accumulated(groups, ms, lookup, now)
    ensures Accumulated(AddTo(groups, m, Bucket(lookup, m.record, m.key.0, now)), ms + [m], lookup, now)
  {
    KeysGrow(ms, m);
    if m.key !in groups {
      NoMentionsZero(ms, m.key, lookup, now);
    }
    forall k | k in Keys(ms + [m])
      ensures Tally(ms + [m], k, lookup, now) == AddTo(groups, m, Bucket(lookup, m.record, m.key.0, now))[k]
    {
      TallyGrows(ms, m, k, lookup, now);
    }
  }

  lemma KeysGrow(ms: seq<Mention>, m: Mention)
    ensures Keys(ms + [m]) == Keys(ms) + {m.key}
  {
    forall k
      ensures k in Keys(ms + [m]) <==> k in Keys(ms) || k == m.key
    {
      if k in Keys(ms) {
        var x :| x in ms && x.key == k;
        assert x in ms + [m];
      }
      assert m in ms + [m];
    }
  }

  lemma TallyGrows(ms: seq<Mention>, m: Mention, key: Key, lookup: Table, now: Time)
    ensures Tally(ms + [m], key, lookup, now)
         == if m.key == key then Add(Tally(ms, key, lookup, now), m.record, Bucket(lookup, m.record, key.0, now))
            else Tally(ms, key, lookup, now)
  {
    assert (ms + [m])[..|ms|] == ms;
  }

  /** The counters are the numbers of mentions seen so far. */
  ghost predicate Counted(counts: map<Key, nat>, ms: seq<Mention>) {
    counts == map k | k in Keys(ms) :: CountOf(ms, k)
  }

  function CountIn(counts: map<Key, nat>, key: Key): map<Key, nat> {
    counts[key := (if key in counts then counts[key] else 0) + 1]
  }

  lemma CountOne(counts: map<Key, nat>, ms: seq<Mention>, m: Mention)
    requires Counted(counts, ms)
    ensures Counted(CountIn(counts, m.key), ms + [m])
  {
    KeysGrow(ms, m);
    if m.key !in counts {
      NoMentionsZero(ms, m.key, map[], 0);
    }
    forall k | k in Keys(ms + [m])
      ensures CountOf(ms + [m], k) == CountIn(counts, m.key)[k]
    {
      CountGrows(ms, m, k);
    }
  }

  lemma CountGrows(ms: seq<Mention>, m: Mention, key: Key)
    ensures CountOf(ms + [m], key) == CountOf(ms, key) + (if m.key == key then 1 else 0)
  {
    assert (ms + [m])[..|ms|] == ms;
  }

  /** The status a record is counted under for one service. */
  method StatusFor(r: Sev, service: string, lookup: Table, now: Time) returns (status: SlaStatus)
    ensures status == Bucket(lookup, r, service, now)
  {
    var rows := [];
    if (service, r.level) in lookup {
      rows := [lookup[(service, r.level)]];
    }
    var targets := MostStrictSLA(rows);
    var eval := EvaluateSLA(r, targets, now);
    status := eval.overall;
  }

  lemma MentionsStep(before: seq<Mention>, r: Sev, j: nat)
    requires j < |r.services|
    ensures before + MentionsOf(r)[..j + 1] == before + MentionsOf(r)[..j] + [Mention((r.services[j], r.level), r)]
  {
  }

  method AccumulateRecord(groups: map<Key, Accum>, r: Sev, lookup: Table, now: Time, ghost before: seq<Mention>)
      returns (after: map<Key, Accum>)
    requires Accumulated(groups, before, lookup, now)
    ensures Accumulated(after, before + MentionsOf(r), lookup, now)
  {
    after := groups;
    assert before + MentionsOf(r)[..0] == before;
    for j := 0 to |r.services|
      invariant Accumulated(after, before + MentionsOf(r)[..j], lookup, now)
    {
      var m := Mention((r.services[j], r.level), r);
      var status := StatusFor(r, r.services[j], lookup, now);
      AccumulateOne(after, before + MentionsOf(r)[..j], m, lookup, now);
      MentionsStep(before, r, j);
      after := AddTo(after, m, status);
    }
    assert MentionsOf(r)[..|r.services|] == MentionsOf(r);
  }

  method Accumulate(records: seq<Sev>, lookup: Table, now: Time) returns (groups: map<Key, Accum>)
    ensures Accumulated(groups, Mentions(records), lookup, now)
  {
    groups := map[];
    for i := 0 to |records|
      invariant Accumulated(groups, Mentions(records[..i]), lookup, now)
    {
      assert records[..i + 1][..i] == records[..i];
      groups := AccumulateRecord(groups, records[i], lookup, now, Mentions(records[..i]));
    }
    assert records[..|records|] == records;
  }

  method CountRecord(counts: map<Key, nat>, r: Sev, ghost before: seq<Mention>) returns (after: map<Key, nat>)
    requires Counted(counts, before)
    ensures Counted(after, before + MentionsOf(r))
  {
    after := counts;
    assert before + MentionsOf(r)[..0] == before;
    for j := 0 to |r.services|
      invariant Counted(after, before + MentionsOf(r)[..j])
    {
      var m := Mention((r.services[j], r.level), r);
      CountOne(after, before + MentionsOf(r)[..j], m);
      MentionsStep(before, r, j);
      after := CountIn(after, m.key);
    }
    assert MentionsOf(r)[..|r.services|] == MentionsOf(r);
  }

  method CountMentions(records: seq<Sev>) returns (counts: map<Key, nat>)
    ensures Counted(counts, Mentions(records))
  {
    counts := map[];
    for i := 0 to |records|
      invariant Counted(counts, Mentions(records[..i]))
    {
      assert records[..i + 1][..i] == records[..i];
      counts := CountRecord(counts, records[i], Mentions(records[..i]));
    }
    assert records[..|records|] == records;
  }

  /** serviceLevelMetrics. */
  method ServiceLevelMetrics(records: seq<Sev>, lookup: Table, now: Time) returns (out: seq<Row>)
    ensures out == MetricsReport(records, lookup, now)
    ensures AllReported(out, Mentions(records), lookup, now)
  {
    var groups := Accumulate(records, lookup, now);
    ghost var ms := Mentions(records);
    var sorted := SortedKeys(groups.Keys, ms);
    out := EmitRows(sorted, groups, ms, lookup, now);
    RowsReportTheirGroups(records, lookup, now);
  }

  method EmitRows(sorted: seq<Key>, groups: map<Key, Accum>, ghost ms: seq<Mention>, ghost lookup: Table, ghost now: Time)
      returns (out: seq<Row>)
    requires Accumulated(groups, ms, lookup, now) && forall k | k in sorted :: k in Keys(ms)
    ensures out == RowsOf(sorted, ms, lookup, now)
  {
    out := [];
    for i := 0 to |sorted|
      invariant out == RowsOf(sorted[..i], ms, lookup, now)
    {
      assert sorted[i] in Keys(ms);
      assert sorted[..i + 1][..i] == sorted[..i];
      out := out + [RowOf(sorted[i], groups[sorted[i]])];
    }
    assert sorted[..|sorted|] == sorted;
  }

  /** frequencyByServiceAndLevel. */
  method FrequencyByServiceAndLevel(records: seq<Sev>) returns (out: seq<Frequency>)
    ensures out == FrequencyReport(records)
  {
    var counts := CountMentions(records);
    ghost var ms := Mentions(records);
    var sorted := SortedKeys(counts.Keys, ms);
    out := EmitFrequencies(sorted, counts, ms);
  }

  method EmitFrequencies(sorted: seq<Key>, counts: map<Key, nat>, ghost ms: seq<Mention>) returns (out: seq<Frequency>)
    requires Counted(counts, ms) && forall k | k in sorted :: k in Keys(ms)
    ensures out == FrequenciesOf(sorted, ms)
  {
    out := [];
    for i := 0 to |sorted|
      invariant out == FrequenciesOf(sorted[..i], ms)
    {
      assert sorted[i] in Keys(ms);
      assert sorted[..i + 1][..i] == sorted[..i];
      out := out + [Frequency(sorted[i].0, sorted[i].1, counts[sorted[i]])];
    }
    assert sorted[..|sorted|] == sorted;
  }

  // ---------- what the reports say ----------

  function RowKey(row: Row): Key {
    (row.service, row.level)
  }

  function TotalCount(rows: seq<Row>): nat {
    if rows == [] then 0 else TotalCount(rows[..|rows| - 1]) + rows[|rows| - 1].count
  }

  ghost predicate Distinct(keys: seq<Key>) {
    forall i, j | 0 <= i < j < |keys| :: keys[i] != keys[j]
  }

  function CountsOver(keys: seq<Key>, ms: seq<Mention>): nat {
    if keys == [] then 0 else CountsOver(keys[..|keys| - 1], ms) + CountOf(ms, keys[|keys| - 1])
  }

  /** One more mention raises the total over distinct keys by one if its key is among them. */
  lemma {:induction false} OneMoreMention(keys: seq<Key>, ms: seq<Mention>)
    requires Distinct(keys) && ms != []
    ensures CountsOver(keys, ms)
         == CountsOver(keys, ms[..|ms| - 1]) + (if ms[|ms| - 1].key in keys then 1 else 0)
  {
    if keys != [] {
      var init := keys[..|keys| - 1];
      OneMoreMention(init, ms);
      assert keys == init + [keys[|keys| - 1]];
    }
  }

  lemma {:induction false} CountsCoverMentions(keys: seq<Key>, ms: seq<Mention>)
    requires Distinct(keys) && forall m | m in ms :: m.key in keys
    ensures CountsOver(keys, ms) == |ms|
  {
    if ms == [] {
      NothingToCount(keys);
    } else {
      CountsCoverMentions(keys, ms[..|ms| - 1]);
      OneMoreMention(keys, ms);
    }
  }

  lemma {:induction false} NothingToCount(keys: seq<Key>)
    ensures CountsOver(keys, []) == 0
  {
    if keys != [] {
      NothingToCount(keys[..|keys| - 1]);
    }
  }

  lemma {:induction false} TotalIsCountsOver(keys: seq<Key>, ms: seq<Mention>, lookup: Table, now: Time)
    ensures TotalCount(RowsOf(keys, ms, lookup, now)) == CountsOver(keys, ms)
  {
    if keys != [] {
      var init, k := keys[..|keys| - 1], keys[|keys| - 1];
      TotalIsCountsOver(init, ms, lookup, now);
      BucketsPartition(ms, k, lookup, now);
      assert RowsOf(keys, ms, lookup, now)[..|init|] == RowsOf(init, ms, lookup, now);
    }
  }

  lemma GroupKeysDistinct(ms: seq<Mention>)
    ensures Distinct(GroupKeys(ms))
  {
    KeyLessIsStrictTotal();
    var keys := GroupKeys(ms);
    forall i, j | 0 <= i < j < |keys|
      ensures keys[i] != keys[j]
    {
      assert KeyLess(keys[i], keys[j]);
    }
  }

  /** Conservation: the counts of all rows add up to the affected services of all records, repeats
      included, and within a row the four buckets add up to its count. */
  lemma ReportConservesCounts(records: seq<Sev>, lookup: Table, now: Time)
    ensures var rows := MetricsReport(records, lookup, now);
      && TotalCount(rows) == TotalServices(records)
      && forall row | row in rows :: row.count == row.ok + row.atRisk + row.breached + row.notApplicable > 0
  {
    var ms := Mentions(records);
    var keys := GroupKeys(ms);
    GroupKeysDistinct(ms);
    CountsCoverMentions(keys, ms);
    TotalIsCountsOver(keys, ms, lookup, now);
    MentionsCount(records);
    var rows := MetricsReport(records, lookup, now);
    forall i | 0 <= i < |rows|
      ensures rows[i].count == rows[i].ok + rows[i].atRisk + rows[i].breached + rows[i].notApplicable > 0
    {
      BucketsPartition(ms, keys[i], lookup, now);
      assert keys[i] in Keys(ms);
      MentionedIsCounted(ms, keys[i]);
    }
  }

  lemma {:induction false} MentionedIsCounted(ms: seq<Mention>, key: Key)
    requires key in Keys(ms)
    ensures CountOf(ms, key) > 0
  {
    if ms[|ms| - 1].key != key {
      assert forall m | m in ms :: m in ms[..|ms| - 1] || m == ms[|ms| - 1];
      MentionedIsCounted(ms[..|ms| - 1], key);
    }
  }

  /** The rows are in strictly increasing order of service and level, and exactly the groups some
      record mentions have one. */
  lemma ReportRowsAreTheGroups(records: seq<Sev>, lookup: Table, now: Time)
    ensures var rows := MetricsReport(records, lookup, now);
      && (forall i, j | 0 <= i < j < |rows| :: KeyLess(RowKey(rows[i]), RowKey(rows[j])))
      && forall k: Key :: HasRow(rows, k) <==> Mentioned(records, k)
  {
    var ms := Mentions(records);
    var keys, rows := GroupKeys(ms), MetricsReport(records, lookup, now);
    forall k: Key
      ensures HasRow(rows, k) <==> Mentioned(records, k)
    {
      KeysOfMentions(records, k);
      RowForEachKey(keys, ms, lookup, now, k);
    }
  }

  /** Some record of that level affects that service. */
  ghost predicate Mentioned(records: seq<Sev>, k: Key) {
    exists r | r in records :: k.0 in r.services && k.1 == r.level
  }

  ghost predicate HasRow(rows: seq<Row>, k: Key) {
    exists row | row in rows :: RowKey(row) == k
  }

  lemma RowForEachKey(keys: seq<Key>, ms: seq<Mention>, lookup: Table, now: Time, k: Key)
    ensures HasRow(RowsOf(keys, ms, lookup, now), k) <==> k in keys
  {
    var rows := RowsOf(keys, ms, lookup, now);
    forall i | 0 <= i < |keys|
      ensures RowKey(rows[i]) == keys[i]
    {
    }
    if k in keys {
      var i :| 0 <= i < |keys| && keys[i] == k;
      assert rows[i] in rows;
    }
  }

  lemma {:induction false} KeysOfMentions(records: seq<Sev>, k: Key)
    ensures k in Keys(Mentions(records)) <==> Mentioned(records, k)
  {
    if records != [] {
      var init, r := records[..|records| - 1], records[|records| - 1];
      KeysOfMentions(init, k);
      assert records == init + [r];
      assert Keys(Mentions(records)) == Keys(Mentions(init)) + Keys(MentionsOf(r));
      KeysOfOne(r, k);
    }
  }

  lemma KeysOfOne(r: Sev, k: Key)
    ensures k in Keys(MentionsOf(r)) <==> k.0 in r.services && k.1 == r.level
  {
    if k.0 in r.services && k.1 == r.level {
      var j :| 0 <= j < |r.services| && r.services[j] == k.0;
      assert MentionsOf(r)[j].key == k && MentionsOf(r)[j] in MentionsOf(r);
    }
  }

  /** The two reports agree group by group, whatever the SLA rows are. */
  lemma ReportsAgree(records: seq<Sev>, lookup: Table, now: Time)
    ensures var rows, freqs := MetricsReport(records, lookup, now), FrequencyReport(records);
      && |rows| == |freqs|
      && forall i | 0 <= i < |rows| ::
           freqs[i] == Frequency(rows[i].service, rows[i].level, rows[i].count)
  {
    var ms := Mentions(records);
    var keys := GroupKeys(ms);
    forall i | 0 <= i < |keys|
      ensures Tally(ms, keys[i], lookup, now).count == CountOf(ms, keys[i])
    {
      BucketsPartition(ms, keys[i], lookup, now);
    }
  }

  function AverageOf(row: Row, metric: Metric): int {
    match metric
    case MTTD => row.avgMttd
    case MTTM => row.avgMttm
    case MTTR => row.avgMttr
  }

  /** Compliance is a proportion, and it is 1 exactly when something was measured and all of it is on
      track. */
  lemma ComplianceIsAProportion(a: Accum)
    ensures 0.0 <= Compliance(a) <= 1.0
    ensures Compliance(a) * (a.ok + a.atRisk + a.breached) as real == a.ok as real
    ensures Compliance(a) == 1.0 <==> a.ok > 0 && a.atRisk == 0 && a.breached == 0
  {
    var measured := a.ok + a.atRisk + a.breached;
    if measured > 0 {
      var c := a.ok as real / measured as real;
      assert c * measured as real == a.ok as real;
    }
  }

  /** Every row is computed from what its group accumulated. */
  lemma RowIsOfItsGroup(records: seq<Sev>, lookup: Table, now: Time, row: Row)
    requires row in MetricsReport(records, lookup, now)
    ensures row == RowOf(RowKey(row), Tally(Mentions(records), RowKey(row), lookup, now))
  {
    var keys, rows := GroupKeys(Mentions(records)), MetricsReport(records, lookup, now);
    var i :| 0 <= i < |rows| && rows[i] == row;
    assert RowKey(row) == keys[i];
  }

  /** Each average a row reports lies between the smallest and the largest value the row's records
      contribute, negative durations included, and is zero when they contribute none. */
  lemma RowAverageWithin(records: seq<Sev>, lookup: Table, now: Time, row: Row, metric: Metric, lo: int, hi: int)
    requires row in MetricsReport(records, lookup, now)
    requires forall v | v in Contributions(Mentions(records), RowKey(row), metric) :: lo <= v <= hi
    ensures if Contributions(Mentions(records), RowKey(row), metric) == [] then AverageOf(row, metric) == 0
            else lo <= AverageOf(row, metric) <= hi
  {
    var ms, key := Mentions(records), RowKey(row);
    RowIsOfItsGroup(records, lookup, now, row);
    assert AverageOf(row, metric) == Average(MeanOf(Tally(ms, key, lookup, now), metric));
    MeanWithin(ms, key, lookup, now, metric, lo, hi);
    if Contributions(ms, key, metric) != [] {
      AverageWithin(ms, key, lookup, now, metric, lo, hi);
    }
  }

  /** The compliance a row reports is the share of what was measured that is on track: a proportion, and 1
      exactly when something was measured and all of it is on track. */
  lemma RowComplianceIsAProportion(records: seq<Sev>, lookup: Table, now: Time, row: Row)
    requires row in MetricsReport(records, lookup, now)
    ensures IsOnTrackShare(row)
  {
    RowIsOfItsGroup(records, lookup, now, row);
    ComplianceOfRow(RowKey(row), Tally(Mentions(records), RowKey(row), lookup, now));
  }

  /** The mean of some values as the report gives it: the quotient of sum and number rounded toward zero, or
      zero without values. */
  predicate IsMeanOf(average: int, values: seq<int>) {
    if values == [] then average == 0
    else if Sum(values) >= 0 then average * |values| <= Sum(values) < (average + 1) * |values|
    else (average - 1) * |values| < Sum(values) <= average * |values|
  }

  lemma QuotientIsMean(values: seq<int>)
    ensures IsMeanOf(if values == [] then 0 else TruncDiv(Sum(values), |values|), values)
  {
  }

  ghost predicate CountsGroup(row: Row, ms: seq<Mention>, lookup: Table, now: Time) {
    var key := RowKey(row);
    CountsAre(row, |InBucket(ms, key, OnTrack, lookup, now)|, |InBucket(ms, key, AtRisk, lookup, now)|,
              |InBucket(ms, key, Breached, lookup, now)|, |InBucket(ms, key, NotApplicable, lookup, now)|)
  }

  predicate AveragesGroup(row: Row, ms: seq<Mention>) {
    && IsMeanOf(row.avgMttd, Contributions(ms, RowKey(row), MTTD))
    && IsMeanOf(row.avgMttm, Contributions(ms, RowKey(row), MTTM))
    && IsMeanOf(row.avgMttr, Contributions(ms, RowKey(row), MTTR))
  }

  /** What a row counts: the group's mentions in each bucket, and in compliance the share on track of those
      measured. */
  lemma RowCountsItsGroup(records: seq<Sev>, lookup: Table, now: Time, row: Row)
    requires row in MetricsReport(records, lookup, now)
    ensures CountsGroup(row, Mentions(records), lookup, now)
  {
    RowIsOfItsGroup(records, lookup, now, row);
    CountersAreBuckets(Mentions(records), RowKey(row), lookup, now);
    BucketsPartition(Mentions(records), RowKey(row), lookup, now);
    CountsOfAccum(RowKey(row), Tally(Mentions(records), RowKey(row), lookup, now));
  }

  predicate CountsAre(row: Row, ok: nat, atRisk: nat, breached: nat, notApplicable: nat) {
    && row.ok == ok && row.atRisk == atRisk && row.breached == breached && row.notApplicable == notApplicable
    && row.count == ok + atRisk + breached + notApplicable
    && row.compliance == (if ok + atRisk + breached > 0 then ok as real / (ok + atRisk + breached) as real else 0.0)
  }

  lemma CountsOfAccum(key: Key, a: Accum)
    requires a.count == a.ok + a.atRisk + a.breached + a.notApplicable
    ensures CountsAre(RowOf(key, a), a.ok, a.atRisk, a.breached, a.notApplicable)
  {
  }

  /** What a row averages: MTTD, MTTM and MTTR of the group's records that have them. */
  lemma RowAveragesItsGroup(records: seq<Sev>, lookup: Table, now: Time, row: Row)
    requires row in MetricsReport(records, lookup, now)
    ensures AveragesGroup(row, Mentions(records))
  {
    RowIsOfItsGroup(records, lookup, now, row);
    AverageIsMean(Mentions(records), RowKey(row), lookup, now, MTTD);
    AverageIsMean(Mentions(records), RowKey(row), lookup, now, MTTM);
    AverageIsMean(Mentions(records), RowKey(row), lookup, now, MTTR);
  }

  ghost predicate AllReported(rows: seq<Row>, ms: seq<Mention>, lookup: Table, now: Time) {
    forall row | row in rows :: CountsGroup(row, ms, lookup, now) && AveragesGroup(row, ms)
  }

  lemma RowsReportTheirGroups(records: seq<Sev>, lookup: Table, now: Time)
    ensures AllReported(MetricsReport(records, lookup, now), Mentions(records), lookup, now)
  {
    forall row | row in MetricsReport(records, lookup, now)
      ensures CountsGroup(row, Mentions(records), lookup, now) && AveragesGroup(row, Mentions(records))
    {
      RowCountsItsGroup(records, lookup, now, row);
      RowAveragesItsGroup(records, lookup, now, row);
    }
  }

  lemma AverageIsMean(ms: seq<Mention>, key: Key, lookup: Table, now: Time, metric: Metric)
    ensures IsMeanOf(Average(MeanOf(Tally(ms, key, lookup, now), metric)), Contributions(ms, key, metric))
  {
    MeansAreSums(ms, key, lookup, now, metric);
    QuotientIsMean(Contributions(ms, key, metric));
  }

  ghost predicate IsOnTrackShare(row: Row) {
    && 0.0 <= row.compliance <= 1.0
    && row.compliance * (row.ok + row.atRisk + row.breached) as real == row.ok as real
    && (row.compliance == 1.0 <==> row.ok > 0 && row.atRisk == 0 && row.breached == 0)
  }

  lemma ComplianceOfRow(key: Key, a: Accum)
    ensures IsOnTrackShare(RowOf(key, a))
  {
    ComplianceIsAProportion(a);
  }

  // ---------- the lookup the report evaluates against ----------

  /** Two tables hold the same rows for some groups. */
  ghost predicate AgreeOn(keys: set<Key>, t: Table, u: Table) {
    forall k | k in keys :: (k in t <==> k in u) && (k in t ==> t[k] == u[k])
  }

  ghost predicate WellMentioned(ms: seq<Mention>) {
    forall m | m in ms :: m.key.1 == m.record.level
  }

  lemma {:induction false} MentionsWellMentioned(records: seq<Sev>)
    ensures WellMentioned(Mentions(records))
  {
    if records != [] {
      MentionsWellMentioned(records[..|records| - 1]);
    }
  }

  /** Only the row of its own group matters to a tally. */
  lemma {:induction false} TallyNeedsOnlyItsRow(ms: seq<Mention>, key: Key, t: Table, u: Table, now: Time)
    requires AgreeOn({key}, t, u) && WellMentioned(ms)
    ensures Tally(ms, key, t, now) == Tally(ms, key, u, now)
  {
    if ms != [] {
      assert key in {key} && ms[|ms| - 1] in ms;
      TallyNeedsOnlyItsRow(ms[..|ms| - 1], key, t, u, now);
    }
  }

  /** A lookup that has the rows of the mentioned groups gives the report the whole table would. */
  lemma ReportNeedsOnlyMentioned(records: seq<Sev>, lookup: Table, table: Table, now: Time)
    requires AgreeOn(Keys(Mentions(records)), lookup, table)
    ensures MetricsReport(records, lookup, now) == MetricsReport(records, table, now)
  {
    var ms := Mentions(records);
    var keys := GroupKeys(ms);
    MentionsWellMentioned(records);
    forall i | 0 <= i < |keys|
      ensures Tally(ms, keys[i], lookup, now) == Tally(ms, keys[i], table, now)
    {
      assert keys[i] in keys;
      TallyNeedsOnlyItsRow(ms, keys[i], lookup, table, now);
    }
  }

  /** The mentioned services, level by level. */
  ghost predicate Grouped(byLevel: map<Level, set<string>>, keys: set<Key>) {
    && (forall service, level :: (service, level) in keys <==> level in byLevel && service in byLevel[level])
    && (forall level | level in byLevel :: byLevel[level] != {})
  }

  class ReportServer {
    const slas: ServiceSlaStore

    constructor (slas: ServiceSlaStore)
      ensures this.slas == slas
    {
      this.slas := slas;
    }

    method ServicesByLevel(records: seq<Sev>) returns (byLevel: map<Level, set<string>>)
      ensures Grouped(byLevel, Keys(Mentions(records)))
    {
      byLevel := map[];
      for i := 0 to |records|
        invariant Grouped(byLevel, Keys(Mentions(records[..i])))
      {
        var r := records[i];
        ghost var before := Mentions(records[..i]);
        assert records[..i + 1][..i] == records[..i];
        assert Keys(before + MentionsOf(r)) == Keys(before) + Keys(MentionsOf(r));
        forall k: Key {
          KeysOfOne(r, k);
        }
        if |r.services| > 0 {
          var ids := if r.level in byLevel then byLevel[r.level] else {};
          var more := AddAll(ids, r.services);
          assert r.services[0] in more;
          byLevel := byLevel[r.level := more];
        }
      }
      assert records[..|records|] == records;
    }

    method AddAll(ids: set<string>, services: seq<string>) returns (out: set<string>)
      ensures forall s :: s in out <==> s in ids || s in services
    {
      out := ids;
      for j := 0 to |services|
        invariant forall s :: s in out <==> s in ids || s in services[..j]
      {
        assert services[..j + 1] == services[..j] + [services[j]];
        out := out + {services[j]};
      }
      assert services[..|services|] == services;
    }

    method Listed(ids: set<string>) returns (out: seq<string>)
      ensures forall s :: s in out <==> s in ids
    {
      out := [];
      var todo := ids;
      while todo != {}
        invariant todo <= ids
        invariant forall s :: s in out <==> s in ids && s !in todo
        decreases |todo|
      {
        var s :| s in todo;
        out := out + [s];
        todo := todo - {s};
      }
    }

    /** One level's rows, filed under their services. */
    method FileRows(lookup: Table, rows: seq<ServiceSla>, level: Level) returns (out: Table)
      requires forall i | 0 <= i < |rows| :: (rows[i].service, level) in slas.table && slas.table[(rows[i].service, level)] == rows[i]
      ensures forall k :: k in out <==> k in lookup || (k.1 == level && exists row :: row in rows && row.service == k.0)
      ensures forall k | k in out :: (k in lookup && out[k] == lookup[k]) || (k in slas.table && out[k] == slas.table[k])
    {
      out := lookup;
      for i := 0 to |rows|
        invariant forall k :: k in out <==> k in lookup || (k.1 == level && exists row :: row in rows[..i] && row.service == k.0)
        invariant forall k | k in out :: (k in lookup && out[k] == lookup[k]) || (k in slas.table && out[k] == slas.table[k])
      {
        assert rows[..i + 1] == rows[..i] + [rows[i]];
        out := out[(rows[i].service, level) := rows[i]];
      }
      assert rows[..|rows|] == rows;
    }

    /** buildSLALookup: one listing per level, whatever the order of levels and services. It fails if
        the listing of a level some record with services has fails, and otherwise has the rows of all
        mentioned groups. */
    method BuildSLALookup(records: seq<Sev>, failing: set<Level>) returns (r: Result<Table>)
      requires slas.Valid()
      ensures r.Err? <==> exists k | k in Keys(Mentions(records)) :: k.1 in failing
      ensures r.Ok? ==> AgreeOn(Keys(Mentions(records)), r.value, slas.table)
    {
      var byLevel := ServicesByLevel(records);
      var lookup: Table := map[];
      var todo := byLevel.Keys;
      ghost var keys := Keys(Mentions(records));
      while todo != {}
        invariant todo <= byLevel.Keys
        invariant forall k | k in lookup :: k in slas.table && lookup[k] == slas.table[k]
        invariant forall k | k in keys && k.1 !in todo && k in slas.table :: k in lookup
        invariant forall k | k in keys && k.1 !in todo :: k.1 !in failing
        decreases |todo|
      {
        var level: Level :| level in todo;
        var ids := Listed(byLevel[level]);
        var rows := slas.ListForServices(ids, level, level in failing);
        if rows.Err? {
          return Err(Internal);
        }
        lookup := FileRows(lookup, rows.value, level);
        todo := todo - {level};
      }
      r := Ok(lookup);
    }

    /** The SLA section of the report. */
    method SlaSection(records: seq<Sev>, now: Time, failing: set<Level>) returns (r: Result<seq<Row>>)
      requires slas.Valid()
      ensures r.Err? <==> exists k | k in Keys(Mentions(records)) :: k.1 in failing
      ensures r.Ok? ==> r.value == MetricsReport(records, slas.table, now)
    {
      var lookup := BuildSLALookup(records, failing);
      if lookup.Err? {
        return Err(Internal);
      }
      var rows := ServiceLevelMetrics(records, lookup.value, now);
      ReportNeedsOnlyMentioned(records, lookup.value, slas.table, now);
      r := Ok(rows);
    }
  }
}
