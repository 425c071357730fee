/** SLA targets, their reduction across services and the live evaluation (internal/sev/sla.go). */
module Sla {
  import opened Wrappers
  import opened Clock
  import opened SevModel

  datatype Targets = Targets(mttd: Option<int>, mttm: Option<int>, mttr: Option<int>, rtpc: Option<int>)

  const NO_TARGETS := Targets(None, None, None, None)

  datatype Evaluation = Evaluation(
    mttd: SlaStatus,
    mttm: SlaStatus,
    mttr: SlaStatus,
    rtpc: SlaStatus,
    overall: SlaStatus)

  /** The severity lattice: higher is worse. */
  function Rank(s: SlaStatus): nat {
    match s
    case NotApplicable => 0
    case OnTrack => 1
    case AtRisk => 2
    case Breached => 3
  }

  function Worse(a: SlaStatus, b: SlaStatus): (w: SlaStatus)
    ensures Rank(w) >= Rank(a) && Rank(w) >= Rank(b) && (w == a || w == b)
  {
    if Rank(b) > Rank(a) then b else a
  }

  /** The worst of a list; nothing at all is as good as not applicable. */
  function Worst(statuses: seq<SlaStatus>): (w: SlaStatus)
    ensures forall s :: s in statuses ==> Rank(s) <= Rank(w)
    ensures w in statuses || w == NotApplicable
  {
    if statuses == [] then NotApplicable
    else Worse(Worst(statuses[..|statuses| - 1]), statuses[|statuses| - 1])
  }

  /** The smaller target, where a missing one is no constraint rather than zero. */
  function Stricter(current: Option<int>, candidate: Option<int>): Option<int> {
    if candidate.None? then current
    else if current.None? || candidate.value < current.value then candidate
    else current
  }

  function TargetsOf(row: ServiceSla): Targets {
    Targets(row.mttdTarget, row.mttmTarget, row.mttrTarget, row.rtpcTarget)
  }

  function StricterTargets(t: Targets, row: ServiceSla): Targets {
    Targets(Stricter(t.mttd, row.mttdTarget),
            Stricter(t.mttm, row.mttmTarget),
            Stricter(t.mttr, row.mttrTarget),
            Stricter(t.rtpc, row.rtpcTarget))
  }

  function MostStrict(rows: seq<ServiceSla>): Targets {
    if rows == [] then NO_TARGETS else StricterTargets(MostStrict(rows[..|rows| - 1]), rows[|rows| - 1])
  }

  /** The four metrics with a target. */
  datatype Measure = Detection | Mitigation | Resolution | Completion

  function TargetFor(t: Targets, m: Measure): Option<int> {
    match m
    case Detection => t.mttd
    case Mitigation => t.mttm
    case Resolution => t.mttr
    case Completion => t.rtpc
  }

  /** The least of the rows' targets for one metric: none exactly when no row has one, and otherwise one
      of theirs and no larger than any of them. */
  ghost predicate IsLeastTarget(target: Option<int>, rows: seq<ServiceSla>, m: Measure) {
    && (target.None? <==> forall row | row in rows :: TargetFor(TargetsOf(row), m).None?)
    && (target.Some? ==> exists row | row in rows :: TargetFor(TargetsOf(row), m) == target)
    && (target.Some? ==> forall row | row in rows && TargetFor(TargetsOf(row), m).Some? ::
          target.value <= TargetFor(TargetsOf(row), m).value)
  }

  lemma {:induction false} MostStrictIsLeast(rows: seq<ServiceSla>, m: Measure)
    ensures IsLeastTarget(TargetFor(MostStrict(rows), m), rows, m)
  {
    if rows != [] {
      var init, last := rows[..|rows| - 1], rows[|rows| - 1];
      MostStrictIsLeast(init, m);
      assert forall row :: row in rows <==> row in init || row == last;
      assert TargetFor(MostStrict(rows), m) == Stricter(TargetFor(MostStrict(init), m), TargetFor(TargetsOf(last), m));
    }
  }

  method MostStrictSLA(rows: seq<ServiceSla>) returns (targets: Targets)
    ensures forall m: Measure :: IsLeastTarget(TargetFor(targets, m), rows, m)
    ensures targets == MostStrict(rows)
  {
    targets := NO_TARGETS;
    for i := 0 to |rows|
      invariant targets == MostStrict(rows[..i])
    {
      assert rows[..i + 1][..i] == rows[..i];
      targets := Targets(Stricter(targets.mttd, rows[i].mttdTarget),
                         Stricter(targets.mttm, rows[i].mttmTarget),
                         Stricter(targets.mttr, rows[i].mttrTarget),
                         Stricter(targets.rtpc, rows[i].rtpcTarget));
    }
    assert rows[..|rows|] == rows;
    forall m: Measure {
      MostStrictIsLeast(rows, m);
    }
  }

  /** One metric's live status: from its final value once there is one, and until then from the
      time elapsed since the baseline. */
  function EvalMetric(baseline: Option<Time>, actual: Option<int>, target: Option<int>, now: Time): SlaStatus {
    if target.None? then NotApplicable
    else if actual.Some? then (if actual.value > target.value then Breached else OnTrack)
    else if baseline.None? then NotApplicable
    else if SecondsBetween(baseline.value, now) > target.value then AtRisk
    else OnTrack
  }

  /** The four metrics of a SEV against some targets, not yet reduced. */
  function MetricStatuses(s: Sev, t: Targets, now: Time): (SlaStatus, SlaStatus, SlaStatus, SlaStatus) {
    (EvalMetric(s.times.started, s.metrics.mttd, t.mttd, now),
     EvalMetric(s.times.started, s.metrics.mttm, t.mttm, now),
     EvalMetric(s.times.started, s.metrics.mttr, t.mttr, now),
     EvalMetric(s.times.resolved, s.metrics.rtpc, t.rtpc, now))
  }

  function WorstOfFour(m: (SlaStatus, SlaStatus, SlaStatus, SlaStatus)): SlaStatus {
    Worse(Worse(m.0, m.1), Worse(m.2, m.3))
  }

  /** The badge of a SEV against some targets: the worst of its four metrics. */
  function Overall(s: Sev, t: Targets, now: Time): SlaStatus {
    WorstOfFour(MetricStatuses(s, t, now))
  }

  method EvaluateSLA(s: Sev, t: Targets, now: Time) returns (eval: Evaluation)
    ensures (eval.mttd, eval.mttm, eval.mttr, eval.rtpc) == MetricStatuses(s, t, now)
    ensures eval.overall in {eval.mttd, eval.mttm, eval.mttr, eval.rtpc}
    ensures forall m | m in {eval.mttd, eval.mttm, eval.mttr, eval.rtpc} :: Rank(m) <= Rank(eval.overall)
    ensures eval.overall == Overall(s, t, now)
  {
    var mttd := EvalMetric(s.times.started, s.metrics.mttd, t.mttd, now);
    var mttm := EvalMetric(s.times.started, s.metrics.mttm, t.mttm, now);
    var mttr := EvalMetric(s.times.started, s.metrics.mttr, t.mttr, now);
    var rtpc := EvalMetric(s.times.resolved, s.metrics.rtpc, t.rtpc, now);
    var overall := mttd;
    if Rank(mttm) > Rank(overall) {
      overall := mttm;
    }
    if Rank(mttr) > Rank(overall) {
      overall := mttr;
    }
    if Rank(rtpc) > Rank(overall) {
      overall := rtpc;
    }
    eval := Evaluation(mttd, mttm, mttr, rtpc, overall);
  }

  // ---------- the reduction is a homomorphism ----------

  lemma EvalStricter(baseline: Option<Time>, actual: Option<int>, t: Option<int>, u: Option<int>, now: Time)
    ensures EvalMetric(baseline, actual, Stricter(t, u), now)
         == Worse(EvalMetric(baseline, actual, t, now), EvalMetric(baseline, actual, u, now))
  {
  }

  lemma WorseInterchange(a: SlaStatus, b: SlaStatus, c: SlaStatus, d: SlaStatus)
    ensures Worse(Worse(a, b), Worse(c, d)) == Worse(Worse(a, c), Worse(b, d))
  {
  }

  /** Tightening one more row into the targets makes the SEV exactly as bad as the worse of the two. */
  lemma StricterIsWorse(s: Sev, t: Targets, row: ServiceSla, now: Time)
    ensures Overall(s, StricterTargets(t, row), now) == Worse(Overall(s, t, now), Overall(s, TargetsOf(row), now))
  {
    EvalStricter(s.times.started, s.metrics.mttd, t.mttd, row.mttdTarget, now);
    EvalStricter(s.times.started, s.metrics.mttm, t.mttm, row.mttmTarget, now);
    EvalStricter(s.times.started, s.metrics.mttr, t.mttr, row.mttrTarget, now);
    EvalStricter(s.times.resolved, s.metrics.rtpc, t.rtpc, row.rtpcTarget, now);
    var a, b := MetricStatuses(s, t, now), MetricStatuses(s, TargetsOf(row), now);
    WorseInterchange(a.0, b.0, a.1, b.1);
    WorseInterchange(a.2, b.2, a.3, b.3);
    WorseInterchange(Worse(a.0, a.1), Worse(b.0, b.1), Worse(a.2, a.3), Worse(b.2, b.3));
  }

  lemma NoTargetsNotApplicable(s: Sev, now: Time)
    ensures Overall(s, NO_TARGETS, now) == NotApplicable
  {
  }

  /** The statuses a SEV would have against each row on its own. */
  function RowStatuses(s: Sev, rows: seq<ServiceSla>, now: Time): (statuses: seq<SlaStatus>)
    ensures |statuses| == |rows|
    ensures forall i | 0 <= i < |rows| :: statuses[i] == Overall(s, TargetsOf(rows[i]), now)
  {
    seq(|rows|, i requires 0 <= i < |rows| => Overall(s, TargetsOf(rows[i]), now))
  }

  /** Evaluating once against the strictest targets of all rows gives the worst of the statuses
      obtained from each row alone. */
  lemma {:induction false} StrictestIsWorstOfEach(s: Sev, rows: seq<ServiceSla>, now: Time)
    ensures Overall(s, MostStrict(rows), now) == Worst(RowStatuses(s, rows, now))
  {
    if rows == [] {
      NoTargetsNotApplicable(s, now);
    } else {
      var init, last := rows[..|rows| - 1], rows[|rows| - 1];
      StrictestIsWorstOfEach(s, init, now);
      StricterIsWorse(s, MostStrict(init), last, now);
      assert RowStatuses(s, rows, now)[..|rows| - 1] == RowStatuses(s, init, now);
    }
  }

  /** A lone row is its own reduction: what a report computes for one service is the status
      against that service's targets. */
  lemma SingleRow(s: Sev, row: ServiceSla, now: Time)
    ensures Overall(s, MostStrict([row]), now) == Overall(s, TargetsOf(row), now)
  {
    assert [row][..0] == [];
    assert StricterTargets(NO_TARGETS, row) == TargetsOf(row);
  }

  /** Only the set of rows matters: order and repetitions do not change the evaluation. */
  lemma SameRowsSameOverall(s: Sev, a: seq<ServiceSla>, b: seq<ServiceSla>, now: Time)
    requires forall row :: row in a <==> row in b
    ensures Overall(s, MostStrict(a), now) == Overall(s, MostStrict(b), now)
  {
    StrictestIsWorstOfEach(s, a, now);
    StrictestIsWorstOfEach(s, b, now);
    RowsBoundWorst(s, a, b, now);
    RowsBoundWorst(s, b, a, now);
  }

  lemma RowsBoundWorst(s: Sev, a: seq<ServiceSla>, b: seq<ServiceSla>, now: Time)
    requires forall row :: row in a ==> row in b
    ensures Rank(Worst(RowStatuses(s, a, now))) <= Rank(Worst(RowStatuses(s, b, now)))
  {
    var x, y := RowStatuses(s, a, now), RowStatuses(s, b, now);
    if Worst(x) in x {
      var i :| 0 <= i < |x| && x[i] == Worst(x);
      assert a[i] in b;
      var j :| 0 <= j < |b| && b[j] == a[i];
      assert y[j] == x[i];
    }
  }

  // ---------- severity over time ----------

  /** One look at a metric: when it was evaluated and the final timestamp known by then. */
  datatype Observation = Observation(now: Time, final: Option<Time>)

  function Observed(baseline: Option<Time>, target: Option<int>, o: Observation): SlaStatus {
    EvalMetric(baseline,
               if baseline.Some? && o.final.Some? then Some(SecondsBetween(baseline.value, o.final.value)) else None,
               target, o.now)
  }

  /** The clock does not go back, the final timestamp is never rewritten, and when it appears it
      is no earlier than the previous evaluation. */
  predicate Orderly(before: Observation, after: Observation) {
    && before.now <= after.now
    && (before.final.Some? ==> after.final == before.final)
    && (before.final.None? && after.final.Some? ==> after.final.value >= before.now)
  }

  lemma SeverityStep(baseline: Option<Time>, target: Option<int>, a: Observation, b: Observation)
    requires Orderly(a, b)
    ensures Rank(Observed(baseline, target, a)) <= Rank(Observed(baseline, target, b))
    ensures Observed(baseline, target, a).AtRisk? ==> Observed(baseline, target, b) in {AtRisk, Breached}
  {
    if baseline.Some? {
      SecondsMonotone(baseline.value, a.now, b.now);
      if a.final.None? && b.final.Some? {
        SecondsMonotone(baseline.value, a.now, b.final.value);
      }
    }
  }

  /** With baseline and target fixed, a metric only ever gets worse over a run of evaluations, and
      once at risk it stays at risk until it is breached. */
  lemma {:induction false} SeverityNeverDecreases(baseline: Option<Time>, target: Option<int>, run: seq<Observation>,
                                                  i: nat, j: nat)
    requires forall k | 0 < k < |run| :: Orderly(run[k - 1], run[k])
    requires i <= j < |run|
    ensures Rank(Observed(baseline, target, run[i])) <= Rank(Observed(baseline, target, run[j]))
    ensures Observed(baseline, target, run[i]).AtRisk? ==> Observed(baseline, target, run[j]) in {AtRisk, Breached}
    decreases j
  {
    if i < j {
      SeverityNeverDecreases(baseline, target, run, i, j - 1);
      assert Orderly(run[j - 1], run[j]);
      SeverityStep(baseline, target, run[j - 1], run[j]);
    }
  }

  /** The metric has its final value, and it is past the target. */
  predicate EndedLate(baseline: Option<Time>, target: Option<int>, o: Observation) {
    baseline.Some? && target.Some? && o.final.Some? && SecondsBetween(baseline.value, o.final.value) > target.value
  }

  /** The metric has its final value, and it is within the target. */
  predicate EndedInTime(baseline: Option<Time>, target: Option<int>, o: Observation) {
    baseline.Some? && target.Some? && o.final.Some? && SecondsBetween(baseline.value, o.final.value) <= target.value
  }

  /** The metric is still running, and past the target already. */
  predicate RunsLate(baseline: Option<Time>, target: Option<int>, o: Observation) {
    baseline.Some? && target.Some? && o.final.None? && SecondsBetween(baseline.value, o.now) > target.value
  }

  /** Exactly when an evaluation is less severe than another against the same target, each from a baseline
      of its own: when a metric that ended late no longer does, when one that ran late neither ended nor
      runs late, or when the baseline is gone. */
  lemma SeverityDropsExactly(baseline: Option<Time>, baseline': Option<Time>, target: Option<int>, a: Observation,
                             b: Observation)
    ensures Rank(Observed(baseline', target, b)) < Rank(Observed(baseline, target, a))
       <==> || (EndedLate(baseline, target, a) && !EndedLate(baseline', target, b))
            || (RunsLate(baseline, target, a) && !EndedLate(baseline', target, b) && !RunsLate(baseline', target, b))
            || (target.Some? && baseline.Some? && baseline'.None?)
  {
  }

  /** On a fixed baseline the first of these takes a late final timestamp rewritten or erased, and the
      second a final timestamp within the target for a metric at risk; the third does not arise. */
  lemma SeverityDropsOnFixedBaseline(baseline: Option<Time>, target: Option<int>, a: Observation, b: Observation)
    requires a.now <= b.now
    ensures Rank(Observed(baseline, target, b)) < Rank(Observed(baseline, target, a))
       <==> || (EndedLate(baseline, target, a) && !EndedLate(baseline, target, b))
            || (RunsLate(baseline, target, a) && EndedInTime(baseline, target, b))
  {
    SeverityDropsExactly(baseline, baseline, target, a, b);
    if baseline.Some? {
      SecondsMonotone(baseline.value, a.now, b.now);
    }
  }

  /** When a final timestamp lands, an at-risk metric becomes breached exactly when that timestamp
      is past the target; a timestamp reported for an earlier moment takes the risk back. */
  lemma LandingDecides(baseline: Time, target: int, before: Observation, after: Observation)
    requires before.final.None? && Observed(Some(baseline), Some(target), before).AtRisk?
    requires after.final.Some?
    ensures Observed(Some(baseline), Some(target), after).Breached?
       <==> SecondsBetween(baseline, after.final.value) > target
    ensures !Observed(Some(baseline), Some(target), after).Breached?
       ==> Observed(Some(baseline), Some(target), after).OnTrack? && after.final.value < before.now
  {
    if after.final.value >= before.now {
      SecondsMonotone(baseline, before.now, after.final.value);
    }
  }

  /** Another: the same target, at risk after two minutes, then the start moved to a hundred seconds in. A
      second later it is on track, with no final timestamp at all. */
  lemma MovedBaselineClearsRisk()
    ensures Observed(Some(0), Some(60), Observation(120 * SECOND, None)) == AtRisk
    ensures Observed(Some(100 * SECOND), Some(60), Observation(121 * SECOND, None)) == OnTrack
  {
  }

  /** An instance: a target of one minute, evaluated after two minutes, then finalised with a
      timestamp thirty seconds in. At risk turns back to on track. */
  lemma BackdatedFinalTimestampClearsRisk()
    ensures Observed(Some(0), Some(60), Observation(2 * MINUTE, None)) == AtRisk
    ensures Observed(Some(0), Some(60), Observation(3 * MINUTE, Some(30 * SECOND))) == OnTrack
  {
  }
}
