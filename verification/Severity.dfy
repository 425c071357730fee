/** A SEV's badge over time: the severity of a metric, tied to the metrics stored with a row, and what
    can and cannot make the badge of a record better over a run of the lifecycle handlers. */
module Severity {
  import opened Wrappers
  import opened Clock
  import opened SevModel
  import opened MetricsModel
  import opened Sla
  import opened SlaLookup
  import opened Lifecycle
  import opened LifecycleRuns
  import opened Records
  import UnlockTokens

  // ---------- the four metrics of a row ----------

  function BaselineOf(t: Times, m: Measure): Option<Time> {
    if m.Completion? then t.resolved else t.started
  }

  function FinalOf(t: Times, m: Measure): Option<Time> {
    match m
    case Detection => t.detected
    case Mitigation => t.mitigated
    case Resolution => t.resolved
    case Completion => t.pmCompleted
  }

  function ValueOf(s: Metrics, m: Measure): Option<int> {
    match m
    case Detection => s.mttd
    case Mitigation => s.mttm
    case Resolution => s.mttr
    case Completion => s.rtpc
  }

  /** The status of one metric of a row. */
  function StatusOf(s: Sev, t: Targets, m: Measure, now: Time): SlaStatus {
    EvalMetric(BaselineOf(s.times, m), ValueOf(s.metrics, m), TargetFor(t, m), now)
  }

  lemma StatusesAreMetricStatuses(s: Sev, t: Targets, now: Time)
    ensures MetricStatuses(s, t, now)
         == (StatusOf(s, t, Detection, now), StatusOf(s, t, Mitigation, now), StatusOf(s, t, Resolution, now),
             StatusOf(s, t, Completion, now))
  {
  }

  /** When a row's metrics are those of its timestamps, evaluating it is observing each metric at its
      baseline and its final timestamp. */
  lemma ConsistentRowsAreObserved(s: Sev, t: Targets, m: Measure, now: Time)
    requires Consistent(s.times, s.metrics)
    ensures StatusOf(s, t, m, now)
         == Observed(BaselineOf(s.times, m), TargetFor(t, m), Observation(now, FinalOf(s.times, m)))
  {
  }

  // ---------- the badge between two evaluations ----------

  /** The metric has its final value, and it is past the target. */
  predicate IsLate(s: Sev, t: Targets, m: Measure) {
    TargetFor(t, m).Some? && ValueOf(s.metrics, m).Some? && ValueOf(s.metrics, m).value > TargetFor(t, m).value
  }

  /** The metric has its final value, and it is within the target. */
  predicate IsInTime(s: Sev, t: Targets, m: Measure) {
    TargetFor(t, m).Some? && ValueOf(s.metrics, m).Some? && ValueOf(s.metrics, m).value <= TargetFor(t, m).value
  }

  /** The metric is still running from some baseline, and past the target. */
  predicate IsRunningLate(s: Sev, t: Targets, m: Measure, now: Time) {
    && TargetFor(t, m).Some? && ValueOf(s.metrics, m).None? && BaselineOf(s.times, m).Some?
    && SecondsBetween(BaselineOf(s.times, m).value, now) > TargetFor(t, m).value
  }

  /** There is a target and something to hold against it. */
  predicate IsMeasured(s: Sev, t: Targets, m: Measure) {
    TargetFor(t, m).Some? && (ValueOf(s.metrics, m).Some? || BaselineOf(s.times, m).Some?)
  }

  /** Exactly when one metric is less severe in one row than in another, whatever happened in between. */
  lemma MetricImprovesExactly(s: Sev, s': Sev, t: Targets, m: Measure, now: Time, now': Time)
    ensures Rank(StatusOf(s', t, m, now')) < Rank(StatusOf(s, t, m, now))
       <==> || (IsLate(s, t, m) && !IsLate(s', t, m))
            || (IsRunningLate(s, t, m, now) && !IsLate(s', t, m) && !IsRunningLate(s', t, m, now'))
            || (IsMeasured(s, t, m) && !IsMeasured(s', t, m))
  {
  }

  lemma OverallIsWorstMeasure(s: Sev, t: Targets, now: Time)
    ensures forall m: Measure :: Rank(StatusOf(s, t, m, now)) <= Rank(Overall(s, t, now))
    ensures exists m: Measure :: StatusOf(s, t, m, now) == Overall(s, t, now)
  {
    StatusesAreMetricStatuses(s, t, now);
    var statuses := MetricStatuses(s, t, now);
    assert Overall(s, t, now) in {statuses.0, statuses.1, statuses.2, statuses.3};
  }

  ghost predicate SomeLate(s: Sev, t: Targets) {
    exists m: Measure :: IsLate(s, t, m)
  }

  ghost predicate SomeRunningLate(s: Sev, t: Targets, now: Time) {
    exists m: Measure :: IsRunningLate(s, t, m, now)
  }

  ghost predicate SomeMeasured(s: Sev, t: Targets) {
    exists m: Measure :: IsMeasured(s, t, m)
  }

  /** What a badge says of the metrics behind it. */
  lemma BadgeSays(s: Sev, t: Targets, now: Time)
    ensures Overall(s, t, now)
         == if SomeLate(s, t) then Breached
            else if SomeRunningLate(s, t, now) then AtRisk
            else if SomeMeasured(s, t) then OnTrack
            else NotApplicable
  {
    OverallIsWorstMeasure(s, t, now);
    var worst: Measure :| StatusOf(s, t, worst, now) == Overall(s, t, now);
    forall m: Measure
      ensures IsLate(s, t, m) <==> StatusOf(s, t, m, now).Breached?
      ensures IsRunningLate(s, t, m, now) <==> StatusOf(s, t, m, now).AtRisk?
      ensures IsMeasured(s, t, m) <==> !StatusOf(s, t, m, now).NotApplicable?
    {
    }
  }

  /** Exactly when the badge of one row is better than that of another against the same targets, whatever
      happened in between: no metric is late any more though one was; or none is late or running late
      though one was running late; or none is measured though one was. */
  lemma BadgeImprovesExactly(s: Sev, s': Sev, t: Targets, now: Time, now': Time)
    ensures Rank(Overall(s', t, now')) < Rank(Overall(s, t, now))
       <==> || (SomeLate(s, t) && !SomeLate(s', t))
            || (SomeRunningLate(s, t, now) && !SomeLate(s', t) && !SomeRunningLate(s', t, now'))
            || (SomeMeasured(s, t) && !SomeLate(s', t) && !SomeRunningLate(s', t, now') && !SomeMeasured(s', t))
  {
    BadgeSays(s, t, now);
    BadgeSays(s', t, now');
  }

  // ---------- over runs of the handlers ----------

  /** What chooses a record's targets, its severity level and its services, is the same. */
  predicate SameTargets(s: Sev, s': Sev) {
    s.level == s'.level && s.services == s'.services
  }

  /** A late metric was brought within its target: its final value was rewritten, as none is ever erased. */
  predicate BreachRewritten(s: Sev, s': Sev, t: Targets, m: Measure) {
    IsLate(s, t, m) && IsInTime(s', t, m)
  }

  /** A metric running late ended in time. */
  predicate LandsInTime(s: Sev, s': Sev, t: Targets, m: Measure, now: Time) {
    IsRunningLate(s, t, m, now) && IsInTime(s', t, m)
  }

  /** A metric running late runs on from a later baseline, within its target. */
  predicate BaselineMoved(s: Sev, s': Sev, t: Targets, m: Measure, now: Time, now': Time) {
    && IsRunningLate(s, t, m, now) && ValueOf(s'.metrics, m).None? && BaselineOf(s'.times, m).Some?
    && SecondsBetween(BaselineOf(s'.times, m).value, now') <= TargetFor(t, m).value
    && BaselineOf(s'.times, m).value > BaselineOf(s.times, m).value
  }

  /** Two reachable states of one record. */
  lemma RecordAtTwoTimes(p: RowPrecision, actions: seq<Action>, i: nat, j: nat, id: string)
    requires i <= j <= |actions| && id in After(p, actions, i).sevs
    ensures id in After(p, actions, j).sevs
    ensures var s, s' := After(p, actions, i).sevs[id], After(p, actions, j).sevs[id];
      TimesKept(s.times, s'.times) && Present(s.times, s.metrics) && Present(s'.times, s'.metrics)
  {
    RunsEraseNoTimestamp(p, actions, i, j, id);
    ReachableRecord(p, actions[..i], id);
    ReachableRecord(p, actions[..j], id);
  }

  /** Between rows of which no timestamp was erased, a metric gets better in exactly three ways. */
  lemma KeptMetricImprovesExactly(s: Sev, s': Sev, t: Targets, m: Measure, now: Time, now': Time)
    requires TimesKept(s.times, s'.times) && Present(s.times, s.metrics) && Present(s'.times, s'.metrics) && now <= now'
    ensures Rank(StatusOf(s', t, m, now')) < Rank(StatusOf(s, t, m, now))
       <==> || BreachRewritten(s, s', t, m)
            || LandsInTime(s, s', t, m, now)
            || BaselineMoved(s, s', t, m, now, now')
  {
    MetricImprovesExactly(s, s', t, m, now, now');
    if IsRunningLate(s, t, m, now) && ValueOf(s'.metrics, m).None? {
      var baseline, baseline' := BaselineOf(s.times, m).value, BaselineOf(s'.times, m).value;
      EarlierBaselineRunsLonger(baseline', baseline, now);
      SecondsMonotone(baseline', now, now');
    }
  }

  lemma EarlierBaselineRunsLonger(earlier: Time, later: Time, now: Time)
    ensures earlier <= later ==> SecondsBetween(later, now) <= SecondsBetween(earlier, now)
  {
  }

  /** Over every run of the handlers, one metric of a record: with targets as they are, it gets better
      exactly when a late final value was rewritten into the target, when it was at risk and ended within
      the target, or when it was at risk and its baseline was moved later. */
  lemma MetricOverRuns(p: RowPrecision, actions: seq<Action>, i: nat, j: nat, id: string, t: Targets, m: Measure, now: Time,
                       now': Time)
    requires i <= j <= |actions| && id in After(p, actions, i).sevs && now <= now'
    ensures id in After(p, actions, j).sevs
    ensures var s, s' := After(p, actions, i).sevs[id], After(p, actions, j).sevs[id];
      Rank(StatusOf(s', t, m, now')) < Rank(StatusOf(s, t, m, now))
      <==> || BreachRewritten(s, s', t, m)
           || LandsInTime(s, s', t, m, now)
           || BaselineMoved(s, s', t, m, now, now')
  {
    RecordAtTwoTimes(p, actions, i, j, id);
    KeptMetricImprovesExactly(After(p, actions, i).sevs[id], After(p, actions, j).sevs[id], t, m, now, now');
  }

  /** Over every run of the handlers, the badge: between two evaluations of a record with the same level
      and services it gets better exactly when a metric was late and none is, or when one was running late
      and none is late or running late. */
  lemma BadgeOverRuns(p: RowPrecision, actions: seq<Action>, i: nat, j: nat, id: string, table: Table, now: Time, now': Time)
    requires i <= j <= |actions| && id in After(p, actions, i).sevs
    ensures id in After(p, actions, j).sevs
    ensures var s, s' := After(p, actions, i).sevs[id], After(p, actions, j).sevs[id];
      var t := MostStrict(RowsFor(table, s.services, s.level));
      SameTargets(s, s') ==>
        (Rank(Badge(table, s', now')) < Rank(Badge(table, s, now))
         <==> || (SomeLate(s, t) && !SomeLate(s', t))
              || (SomeRunningLate(s, t, now) && !SomeLate(s', t) && !SomeRunningLate(s', t, now')))
  {
    RecordAtTwoTimes(p, actions, i, j, id);
    var s, s' := After(p, actions, i).sevs[id], After(p, actions, j).sevs[id];
    var t := MostStrict(RowsFor(table, s.services, s.level));
    forall m: Measure
      ensures IsMeasured(s, t, m) ==> IsMeasured(s', t, m)
    {
    }
    BadgeImprovesExactly(s, s', t, now, now');
    if SameTargets(s, s') {
      assert Badge(table, s, now) == Overall(s, t, now) && Badge(table, s', now') == Overall(s', t, now');
    }
  }

  /** So a badge that gets better owes it to one of those three changes of a metric. */
  lemma BadgeImprovesByAChange(p: RowPrecision, actions: seq<Action>, i: nat, j: nat, id: string, t: Targets, now: Time,
                               now': Time)
    returns (m: Measure)
    requires i <= j <= |actions| && id in After(p, actions, i).sevs && now <= now'
    requires id in After(p, actions, j).sevs
    requires Rank(Overall(After(p, actions, j).sevs[id], t, now')) < Rank(Overall(After(p, actions, i).sevs[id], t, now))
    ensures var s, s' := After(p, actions, i).sevs[id], After(p, actions, j).sevs[id];
      && StatusOf(s, t, m, now) == Overall(s, t, now)
      && (|| BreachRewritten(s, s', t, m)
          || LandsInTime(s, s', t, m, now)
          || BaselineMoved(s, s', t, m, now, now'))
  {
    var s, s' := After(p, actions, i).sevs[id], After(p, actions, j).sevs[id];
    OverallIsWorstMeasure(s, t, now);
    OverallIsWorstMeasure(s', t, now');
    m :| StatusOf(s, t, m, now) == Overall(s, t, now);
    MetricOverRuns(p, actions, i, j, id, t, m, now, now');
  }

  // ---------- when nothing is rewritten ----------

  predicate Fixed(before: Option<Time>, after: Option<Time>) {
    before.Some? ==> after == before
  }

  /** No timestamp once set is rewritten. */
  predicate TimesFixed(t: Times, t': Times) {
    && Fixed(t.started, t'.started) && Fixed(t.detected, t'.detected) && Fixed(t.mitigated, t'.mitigated)
    && Fixed(t.resolved, t'.resolved) && Fixed(t.pmCompleted, t'.pmCompleted)
  }

  /** No final timestamp that was still missing lies before the evaluation. */
  predicate LandsNoEarlier(t: Times, t': Times, now: Time) {
    forall m: Measure :: FinalOf(t, m).None? && FinalOf(t', m).Some? ==> FinalOf(t', m).value >= now
  }

  lemma NothingRewrittenNothingImproves(s: Sev, s': Sev, t: Targets, m: Measure, now: Time, now': Time)
    requires Consistent(s.times, s.metrics) && Consistent(s'.times, s'.metrics)
    requires TimesFixed(s.times, s'.times) && LandsNoEarlier(s.times, s'.times, now) && now <= now'
    ensures Rank(StatusOf(s, t, m, now)) <= Rank(StatusOf(s', t, m, now'))
  {
    ConsistentRowsAreObserved(s, t, m, now);
    ConsistentRowsAreObserved(s', t, m, now');
    var baseline := BaselineOf(s.times, m);
    if baseline.Some? {
      SeverityStep(baseline, TargetFor(t, m), Observation(now, FinalOf(s.times, m)), Observation(now', FinalOf(s'.times, m)));
    }
  }

  /** What the store cut off the timestamps of the last write shows in none of the metrics. */
  predicate LastWriteHarmless(p: RowPrecision, actions: seq<Action>, id: string) {
    LastHanded(p, actions, id).Some? ==> TimesHarmless(LastHanded(p, actions, id).value.times, p)
  }

  /** Over every run: between two evaluations of a record whose metrics are those of its timestamps, with
      the same level and services, no timestamp rewritten and none landing before the first of them, the
      badge does not get better. */
  lemma BadgeNeverImproves(p: RowPrecision, actions: seq<Action>, i: nat, j: nat, id: string, table: Table, now: Time,
                           now': Time)
    requires i <= j <= |actions| && id in After(p, actions, i).sevs && now <= now'
    requires LastWriteHarmless(p, actions[..i], id) && LastWriteHarmless(p, actions[..j], id)
    ensures id in After(p, actions, j).sevs
    ensures var s, s' := After(p, actions, i).sevs[id], After(p, actions, j).sevs[id];
      SameTargets(s, s') && TimesFixed(s.times, s'.times) && LandsNoEarlier(s.times, s'.times, now)
      ==> Rank(Badge(table, s, now)) <= Rank(Badge(table, s', now'))
  {
    RecordAtTwoTimes(p, actions, i, j, id);
    StoredMetricsAreExactly(p, actions[..i], id);
    StoredMetricsAreExactly(p, actions[..j], id);
    var s, s' := After(p, actions, i).sevs[id], After(p, actions, j).sevs[id];
    var t := MostStrict(RowsFor(table, s.services, s.level));
    if SameTargets(s, s') && TimesFixed(s.times, s'.times) && LandsNoEarlier(s.times, s'.times, now) {
      OverallIsWorstMeasure(s, t, now);
      OverallIsWorstMeasure(s', t, now');
      var worst: Measure :| StatusOf(s, t, worst, now) == Overall(s, t, now);
      NothingRewrittenNothingImproves(s, s', t, worst, now, now');
      assert Badge(table, s, now) == Overall(s, t, now) && Badge(table, s', now') == Overall(s', t, now');
    }
  }

  // ---------- moving the start ----------

  function OpenRequest(): CreateRequest {
    CreateRequest("SEV-1", "t", 1, ["api"], map[], map[], Some(0), None, false, false, "u")
  }

  function MoveStartRequest(): UpdateRequest {
    UpdateRequest("SEV-1", "", 0, [], map[], map[], Some(100 * SECOND), None, None, None, UnlockTokens.NoToken)
  }

  const ONE_MINUTE_TARGET: Table := map[("api", 1) := ServiceSla("api", 1, Some(60), None, None, None)]

  lemma MinuteTarget(s: Sev)
    requires s.services == ["api"] && s.level == 1
    ensures MostStrict(RowsFor(ONE_MINUTE_TARGET, s.services, s.level)) == Targets(Some(60), None, None, None)
  {
    var key: (string, Level) := ("api", 1);
    var row := ONE_MINUTE_TARGET[key];
    assert ["api"][..0] == [] && RowsFor(ONE_MINUTE_TARGET, [], 1) == [];
    assert RowsFor(ONE_MINUTE_TARGET, ["api"], 1) == [row];
    assert [row][..0] == [];
  }

  lemma StartMoves(p: RowPrecision, env: Env)
    requires env.faults == {}
    ensures var actions := [Action.CreateSEV(OpenRequest(), env), Action.UpdateSEV(MoveStartRequest(), env)];
      var w, w' := Run(p, actions[..1]), Run(p, actions);
      && "SEV-1" in w.sevs && "SEV-1" in w'.sevs
      && w.sevs["SEV-1"].times == Times(Some(0), None, None, None, None)
      && w'.sevs["SEV-1"].times == Times(Some(100 * SECOND), None, None, None, None)
      && w.sevs["SEV-1"].metrics == w'.sevs["SEV-1"].metrics == Metrics(None, None, None, None, None)
      && w.sevs["SEV-1"].services == w'.sevs["SEV-1"].services == ["api"]
      && w.sevs["SEV-1"].level == w'.sevs["SEV-1"].level == 1
  {
    var actions := [Action.CreateSEV(OpenRequest(), env), Action.UpdateSEV(MoveStartRequest(), env)];
    assert actions[..1] == [Action.CreateSEV(OpenRequest(), env)] && actions[..1][..0] == [];
    assert VocabularyOk(map[]);
    assert Run(p, actions[..1]) == Create(Empty(p), OpenRequest(), env).0;
    assert Run(p, actions) == Update(Run(p, actions[..1]), MoveStartRequest(), env).0;
    assert Kept(100 * SECOND, p) == 100 * SECOND && Kept(0, p) == 0;
  }

  /** A run in which risk un-happens without any final timestamp: a SEV started at zero, with a minute to
      detect it, is at risk at 120 s; moving its start to 100 s puts it on track at 121 s. */
  lemma MovingTheStartClearsRisk(p: RowPrecision, env: Env)
    requires env.faults == {}
    ensures var actions := [Action.CreateSEV(OpenRequest(), env), Action.UpdateSEV(MoveStartRequest(), env)];
      var w, w' := Run(p, actions[..1]), Run(p, actions);
      && "SEV-1" in w.sevs && "SEV-1" in w'.sevs
      && SameTargets(w.sevs["SEV-1"], w'.sevs["SEV-1"])
      && Badge(ONE_MINUTE_TARGET, w.sevs["SEV-1"], 120 * SECOND) == AtRisk
      && Badge(ONE_MINUTE_TARGET, w'.sevs["SEV-1"], 121 * SECOND) == OnTrack
  {
    StartMoves(p, env);
    var actions := [Action.CreateSEV(OpenRequest(), env), Action.UpdateSEV(MoveStartRequest(), env)];
    MinuteTarget(Run(p, actions[..1]).sevs["SEV-1"]);
    MinuteTarget(Run(p, actions).sevs["SEV-1"]);
    MovedBaselineClearsRisk();
  }
}
