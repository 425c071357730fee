/** The five derived durations and the partial updater that keeps them (internal/sev/metrics.go). */
module MetricsModel {
  import opened Wrappers
  import opened Clock
  import opened SevModel

  /** What a metric between two optional instants should hold. */
  function Span(from: Option<Time>, to: Option<Time>): Option<int> {
    if from.Some? && to.Some? then Some(SecondsBetween(from.value, to.value)) else None
  }

  /** Every stored metric is absent exactly when one of its two timestamps is, and otherwise is
      their difference in seconds. */
  predicate Consistent(t: Times, m: Metrics) {
    && m.mttd == Span(t.started, t.detected)
    && m.mttm == Span(t.started, t.mitigated)
    && m.mttr == Span(t.started, t.resolved)
    && m.dttm == Span(t.detected, t.mitigated)
    && m.rtpc == Span(t.resolved, t.pmCompleted)
  }

  /** A timestamp that was set is still set. */
  predicate StillSet(before: Option<Time>, after: Option<Time>) {
    before.Some? ==> after.Some?
  }

  predicate TimesKept(before: Times, after: Times) {
    && StillSet(before.started, after.started)
    && StillSet(before.detected, after.detected)
    && StillSet(before.mitigated, after.mitigated)
    && StillSet(before.resolved, after.resolved)
    && StillSet(before.pmCompleted, after.pmCompleted)
  }

  /** The updater never clears a metric: it keeps the old value when an input is missing. */
  function Refreshed(current: Option<int>, from: Option<Time>, to: Option<Time>): Option<int> {
    if Span(from, to).Some? then Span(from, to) else current
  }

  function Recomputed(t: Times, m: Metrics): Metrics {
    Metrics(Refreshed(m.mttd, t.started, t.detected),
            Refreshed(m.mttm, t.started, t.mitigated),
            Refreshed(m.mttr, t.started, t.resolved),
            Refreshed(m.dttm, t.detected, t.mitigated),
            Refreshed(m.rtpc, t.resolved, t.pmCompleted))
  }

  /** Every metric is present exactly when both its timestamps are. */
  predicate Present(t: Times, m: Metrics) {
    && (m.mttd.Some? <==> t.started.Some? && t.detected.Some?)
    && (m.mttm.Some? <==> t.started.Some? && t.mitigated.Some?)
    && (m.mttr.Some? <==> t.started.Some? && t.resolved.Some?)
    && (m.dttm.Some? <==> t.detected.Some? && t.mitigated.Some?)
    && (m.rtpc.Some? <==> t.resolved.Some? && t.pmCompleted.Some?)
  }

  /** Although nothing ever clears a metric, recomputing after an edit that erased no timestamp makes all
      five those of the timestamps, whatever values they had. */
  lemma RecomputingKeepsConsistency(before: Times, m: Metrics, after: Times)
    requires Present(before, m) && TimesKept(before, after)
    ensures Consistent(after, Recomputed(after, m))
  {
  }

  /** Exactly what would break it: an edit leaves a stale metric behind if and only if it erases a
      timestamp of a metric that was present. */
  lemma OnlyErasureLeavesAStaleMetric(before: Times, m: Metrics, after: Times)
    requires Present(before, m)
    ensures Consistent(after, Recomputed(after, m))
       <==> && (m.mttd.Some? ==> after.started.Some? && after.detected.Some?)
            && (m.mttm.Some? ==> after.started.Some? && after.mitigated.Some?)
            && (m.mttr.Some? ==> after.started.Some? && after.resolved.Some?)
            && (m.dttm.Some? ==> after.detected.Some? && after.mitigated.Some?)
            && (m.rtpc.Some? ==> after.resolved.Some? && after.pmCompleted.Some?)
  {
  }

  // ---------- metrics and stored timestamps ----------

  function KeptTime(t: Option<Time>, p: Precision): Option<Time> {
    if t.Some? then Some(Kept(t.value, p)) else None
  }

  /** The timestamps as a store with some precision gives them back. */
  function KeptTimes(t: Times, p: Precision): Times {
    Times(KeptTime(t.started, p), KeptTime(t.detected, p), KeptTime(t.mitigated, p), KeptTime(t.resolved, p),
          KeptTime(t.pmCompleted, p))
  }

  /** Metrics are computed from the instants a handler holds and stored beside what the store keeps of
      those instants. */
  ghost predicate Recorded(t: Times, m: Metrics, p: Precision) {
    exists exact: Times :: KeptTimes(exact, p) == t && Consistent(exact, m)
  }

  predicate WithinASecond(m: Option<int>, span: Option<int>) {
    m.Some? == span.Some? && (m.Some? ==> -1 <= span.value - m.value <= 1)
  }

  /** Stored metrics are absent exactly when a stored timestamp is and otherwise within a second of their
      difference. */
  predicate NearlyConsistent(t: Times, m: Metrics) {
    && WithinASecond(m.mttd, Span(t.started, t.detected))
    && WithinASecond(m.mttm, Span(t.started, t.mitigated))
    && WithinASecond(m.mttr, Span(t.started, t.resolved))
    && WithinASecond(m.dttm, Span(t.detected, t.mitigated))
    && WithinASecond(m.rtpc, Span(t.resolved, t.pmCompleted))
  }

  lemma KeptSpan(from: Option<Time>, to: Option<Time>, p: Precision)
    requires !p.Days?
    ensures WithinASecond(Span(from, to), Span(KeptTime(from, p), KeptTime(to, p)))
  {
    if from.Some? && to.Some? {
      KeptSeconds(from.value, to.value, p);
    }
  }

  /** What the store cuts off these two timestamps does not show in their difference in seconds. */
  predicate SpanHarmless(from: Option<Time>, to: Option<Time>, p: Precision) {
    from.Some? && to.Some? ==> CutHarmless(to.value - from.value, Cut(to.value, p) - Cut(from.value, p))
  }

  /** Nor in any of the five metrics. */
  predicate TimesHarmless(t: Times, p: Precision) {
    && SpanHarmless(t.started, t.detected, p)
    && SpanHarmless(t.started, t.mitigated, p)
    && SpanHarmless(t.started, t.resolved, p)
    && SpanHarmless(t.detected, t.mitigated, p)
    && SpanHarmless(t.resolved, t.pmCompleted, p)
  }

  lemma KeptSpanExactly(from: Option<Time>, to: Option<Time>, p: Precision)
    requires !p.Days?
    ensures Span(KeptTime(from, p), KeptTime(to, p)) == Span(from, to) <==> SpanHarmless(from, to, p)
  {
    if from.Some? && to.Some? {
      KeptSecondsExactly(from.value, to.value, p);
    }
  }

  /** Exactly when the metrics of some timestamps are also those of what a store keeps of them. */
  lemma KeptConsistentExactly(t: Times, m: Metrics, p: Precision)
    requires Consistent(t, m) && !p.Days?
    ensures Consistent(KeptTimes(t, p), m) <==> TimesHarmless(t, p)
  {
    KeptSpanExactly(t.started, t.detected, p);
    KeptSpanExactly(t.started, t.mitigated, p);
    KeptSpanExactly(t.started, t.resolved, p);
    KeptSpanExactly(t.detected, t.mitigated, p);
    KeptSpanExactly(t.resolved, t.pmCompleted, p);
  }

  lemma AlignedSpanIsHarmless(from: Option<Time>, to: Option<Time>, p: Precision)
    requires KeptTime(from, p) == from && KeptTime(to, p) == to
    ensures SpanHarmless(from, to, p)
  {
    if from.Some? && to.Some? {
      assert Cut(to.value, p) - Cut(from.value, p) == 0;
    }
  }

  /** Timestamps the store keeps as they are lose nothing. */
  lemma AlignedTimesAreHarmless(t: Times, p: Precision)
    requires KeptTimes(t, p) == t
    ensures TimesHarmless(t, p)
  {
    AlignedSpanIsHarmless(t.started, t.detected, p);
    AlignedSpanIsHarmless(t.started, t.mitigated, p);
    AlignedSpanIsHarmless(t.started, t.resolved, p);
    AlignedSpanIsHarmless(t.detected, t.mitigated, p);
    AlignedSpanIsHarmless(t.resolved, t.pmCompleted, p);
  }

  lemma RecordedIsNearlyConsistent(t: Times, m: Metrics, p: Precision)
    requires Recorded(t, m, p) && !p.Days?
    ensures NearlyConsistent(t, m) && Present(t, m)
  {
    var exact: Times :| KeptTimes(exact, p) == t && Consistent(exact, m);
    KeptSpan(exact.started, exact.detected, p);
    KeptSpan(exact.started, exact.mitigated, p);
    KeptSpan(exact.started, exact.resolved, p);
    KeptSpan(exact.detected, exact.mitigated, p);
    KeptSpan(exact.resolved, exact.pmCompleted, p);
  }

  /** Time to mitigate is time to detect plus detection to mitigation, up to the one second that
      truncating twice can lose, exactly when the timestamps, in whatever order, are not so far apart
      that saturation comes between. */
  lemma MitigateIsDetectPlusDetectToMitigate(t: Times, m: Metrics)
    requires Consistent(t, m) && m.mttd.Some? && m.mttm.Some?
    ensures m.dttm.Some?
    ensures -1 <= m.mttm.value - (m.mttd.value + m.dttm.value) <= 1
       <==> SplitKeepsSeconds(t.started.value, t.detected.value, t.mitigated.value)
  {
    SecondsSplit(t.started.value, t.detected.value, t.mitigated.value);
  }

  /** A record past the range of a Duration: with timestamps 292 years apart each, all three metrics
      saturate to the same number. */
  lemma SaturationBreaksTheSum(t: Times, m: Metrics)
    requires Consistent(t, m)
    requires t.started == Some(0) && t.detected == Some(MAX_DURATION) && t.mitigated == Some(2 * MAX_DURATION)
    ensures m.mttd == m.dttm == m.mttm == Some(MAX_SECONDS)
    ensures !SplitKeepsSeconds(t.started.value, t.detected.value, t.mitigated.value)
  {
  }

  /** A record as the handlers hold it: a private copy of a row that they edit in place. */
  class SevRecord {
    const id: string
    const createdAt: Time
    const createdBy: string
    var title: string
    var level: Level
    var status: Status
    var services: seq<string>
    var details: map<string, string>
    var tags: map<string, string>
    var times: Times
    var metrics: Metrics
    var locked: bool
    var sensitive: bool
    var aiDisabled: bool
    var updatedAt: Time
    var slaNotified: Option<SlaStatus>

    constructor (r: Sev)
      ensures Row() == r
    {
      id, createdAt, createdBy := r.id, r.createdAt, r.createdBy;
      title, level, status, services, details, tags := r.title, r.level, r.status, r.services, r.details, r.tags;
      times, metrics := r.times, r.metrics;
      locked, sensitive, aiDisabled, updatedAt, slaNotified :=
        r.locked, r.sensitive, r.aiDisabled, r.updatedAt, r.slaNotified;
    }

    function Row(): Sev
      reads this
    {
      Sev(id, title, level, status, services, details, tags, times, metrics, locked, sensitive, aiDisabled,
          createdAt, updatedAt, createdBy, slaNotified)
    }

    /** ComputeMetrics: each metric is written only when both its inputs are present. */
    method ComputeMetrics()
      modifies this`metrics
      ensures metrics == Recomputed(times, old(metrics))
    {
      if times.started.Some? && times.detected.Some? {
        metrics := metrics.(mttd := Some(SecondsBetween(times.started.value, times.detected.value)));
      }
      if times.started.Some? && times.mitigated.Some? {
        metrics := metrics.(mttm := Some(SecondsBetween(times.started.value, times.mitigated.value)));
      }
      if times.started.Some? && times.resolved.Some? {
        metrics := metrics.(mttr := Some(SecondsBetween(times.started.value, times.resolved.value)));
      }
      if times.detected.Some? && times.mitigated.Some? {
        metrics := metrics.(dttm := Some(SecondsBetween(times.detected.value, times.mitigated.value)));
      }
      if times.resolved.Some? && times.pmCompleted.Some? {
        metrics := metrics.(rtpc := Some(SecondsBetween(times.resolved.value, times.pmCompleted.value)));
      }
    }
  }
}
