/** What a record holds in terms of the last write that made it: over every run of the lifecycle handlers,
    its timestamps are what the store keeps of the ones handed to it, and its metrics are those of the
    ones handed to it. */
module Records {
  import opened Wrappers
  import opened Clock
  import opened SevModel
  import opened MetricsModel
  import UnlockTokens
  import opened Lifecycle
  import opened LifecycleRuns

  // ---------- the last write of a record ----------

  predicate CreationStores(w: World, req: CreateRequest, env: Env) {
    && req.title != "" && 1 <= req.level <= 4 && VocabularyOk(req.details)
    && WriteFault !in env.faults && req.newId !in w.sevs
  }

  /** The row an action hands to the store, when it gets that far and the store takes it. */
  function Handed(w: World, a: Action): Option<Sev> {
    match a
    case CreateSEV(req, env) =>
      if CreationStores(w, req, env) then Some(Refresh(NewRow(req, ActorOf(env.caller, req.createdBy), env.now)))
      else None
    case UpdateSEV(req, env) =>
      if Update(w, req, env).1.Ok? then Some(Update(w, req, env).1.value) else None
    case TransitionStatus(req, env) =>
      if Transition(w, req, env).1.Ok? then Some(Transition(w, req, env).1.value) else None
    case _ => None
  }

  predicate Writes(w: World, a: Action, id: string) {
    Handed(w, a).Some? && Handed(w, a).value.id == id
  }

  /** The row that the last write of a record handed to the store. */
  function LastHanded(p: RowPrecision, actions: seq<Action>, id: string): Option<Sev> {
    if actions == [] then None
    else
      var init, a := actions[..|actions| - 1], actions[|actions| - 1];
      if Writes(Run(p, init), a, id) then Handed(Run(p, init), a) else LastHanded(p, init, id)
  }

  lemma PresentRow(w: World, id: string)
    requires Inv(w) && id in w.sevs
    ensures w.sevs[id].id == id && Present(w.sevs[id].times, w.sevs[id].metrics)
  {
    assert RowOk(w.precision, id, w.sevs[id]);
    RecordedIsNearlyConsistent(w.sevs[id].times, w.sevs[id].metrics, w.precision);
  }

  lemma UpdateHands(w: World, req: UpdateRequest, env: Env)
    requires Update(w, req, env).1.Ok?
    ensures req.id in w.sevs && UpdateAcceptable(req)
    ensures Update(w, req, env).1.value == UpdatedRow(w.sevs[req.id], req, env.now)
    ensures Update(w, req, env).0.sevs == w.sevs[req.id := Stored(Update(w, req, env).1.value, w.precision)]
  {
  }

  lemma TransitionHands(w: World, req: TransitionRequest, env: Env)
    requires Transition(w, req, env).1.Ok?
    ensures req.id in w.sevs && req.to.Some?
    ensures Transition(w, req, env).1.value == TransitionedRow(w.sevs[req.id], req, req.to.value, env.now)
    ensures Transition(w, req, env).0.sevs == w.sevs[req.id := Stored(Transition(w, req, env).1.value, w.precision)]
  {
  }

  lemma CreationHands(w: World, req: CreateRequest, env: Env)
    requires CreationStores(w, req, env)
    ensures var row := Refresh(NewRow(req, ActorOf(env.caller, req.createdBy), env.now));
      Create(w, req, env).0.sevs == w.sevs[req.newId := Stored(row, w.precision)] && Consistent(row.times, row.metrics)
  {
  }

  /** The edited row, recomputed, has the metrics of its timestamps, and none of them erased. */
  lemma UpdatedIsConsistent(r: Sev, req: UpdateRequest, now: Time)
    requires Present(r.times, r.metrics) && UpdateAcceptable(req)
    ensures var h := UpdatedRow(r, req, now);
      Consistent(h.times, h.metrics) && TimesKept(r.times, h.times) && h.id == r.id
  {
    var times := Updated(r, req).times;
    RecomputingKeepsConsistency(r.times, r.metrics, times);
    var h := UpdatedRow(r, req, now);
    assert h.times == times && h.metrics == Recomputed(times, r.metrics);
  }

  lemma TransitionedIsConsistent(r: Sev, req: TransitionRequest, to: Status, now: Time)
    requires Present(r.times, r.metrics)
    ensures var h := TransitionedRow(r, req, to, now);
      Consistent(h.times, h.metrics) && TimesKept(r.times, h.times) && h.id == r.id
  {
    var times := TransitionTimes(r.times, req, to, now);
    TransitionErasesNothing(r.times, req, to, now);
    RecomputingKeepsConsistency(r.times, r.metrics, times);
    var h := TransitionedRow(r, req, to, now);
    assert h.times == times && h.metrics == Recomputed(times, r.metrics);
  }

  lemma TransitionErasesNothing(t: Times, req: TransitionRequest, to: Status, now: Time)
    ensures TimesKept(t, TransitionTimes(t, req, to, now))
  {
  }

  /** A row handed to the store has the metrics of its timestamps, and none of its timestamps erased. */
  lemma HandedIsConsistent(w: World, a: Action)
    requires Inv(w) && Handed(w, a).Some?
    ensures var h := Handed(w, a).value;
      && Consistent(h.times, h.metrics)
      && (h.id in w.sevs ==> TimesKept(w.sevs[h.id].times, h.times))
  {
    match a
    case CreateSEV(req, env) => CreationHands(w, req, env);
    case UpdateSEV(req, env) =>
      UpdateHands(w, req, env);
      PresentRow(w, req.id);
      UpdatedIsConsistent(w.sevs[req.id], req, env.now);
    case TransitionStatus(req, env) =>
      TransitionHands(w, req, env);
      PresentRow(w, req.id);
      TransitionedIsConsistent(w.sevs[req.id], req, req.to.value, env.now);
  }

  lemma WrittenRow(w: World, a: Action, id: string)
    requires Inv(w) && Writes(w, a, id)
    ensures id in Step(w, a).sevs && Step(w, a).sevs[id] == Stored(Handed(w, a).value, w.precision)
  {
    match a
    case CreateSEV(req, env) => CreationHands(w, req, env);
    case UpdateSEV(req, env) =>
      UpdateHands(w, req, env);
      PresentRow(w, req.id);
    case TransitionStatus(req, env) =>
      TransitionHands(w, req, env);
      PresentRow(w, req.id);
  }

  /** An action that does not write a record leaves all of it but the marker alone. */
  lemma OtherRow(w: World, a: Action, id: string)
    requires Inv(w) && !Writes(w, a, id)
    ensures id in Step(w, a).sevs <==> id in w.sevs
    ensures id in w.sevs ==> ExceptMarker(Step(w, a).sevs[id]) == ExceptMarker(w.sevs[id])
  {
    match a
    case CreateSEV(req, env) => OtherCreation(w, req, env, id);
    case UpdateSEV(req, env) => OtherUpdate(w, req, env, id);
    case TransitionStatus(req, env) => OtherTransition(w, req, env, id);
    case MarkNotified(_, _, _) =>
    case _ => AsideShape(w, a);
  }

  lemma OtherCreation(w: World, req: CreateRequest, env: Env, id: string)
    requires !Writes(w, Action.CreateSEV(req, env), id)
    ensures id in Create(w, req, env).0.sevs <==> id in w.sevs
    ensures id in w.sevs ==> Create(w, req, env).0.sevs[id] == w.sevs[id]
  {
  }

  lemma OtherUpdate(w: World, req: UpdateRequest, env: Env, id: string)
    requires Inv(w) && !Writes(w, Action.UpdateSEV(req, env), id)
    ensures id in Update(w, req, env).0.sevs <==> id in w.sevs
    ensures id in w.sevs ==> Update(w, req, env).0.sevs[id] == w.sevs[id]
  {
    if Update(w, req, env).1.Ok? {
      UpdateHands(w, req, env);
      PresentRow(w, req.id);
    }
  }

  lemma OtherTransition(w: World, req: TransitionRequest, env: Env, id: string)
    requires Inv(w) && !Writes(w, Action.TransitionStatus(req, env), id)
    ensures id in Transition(w, req, env).0.sevs <==> id in w.sevs
    ensures id in w.sevs ==> Transition(w, req, env).0.sevs[id] == w.sevs[id]
  {
    if Transition(w, req, env).1.Ok? {
      TransitionHands(w, req, env);
      PresentRow(w, req.id);
    }
  }

  /** In every reachable state a record is, marker aside, what the store keeps of the row last handed to
      it, and that row had the metrics of its timestamps. */
  lemma {:induction false} RecordIsLastHanded(p: RowPrecision, actions: seq<Action>, id: string)
    ensures id in Run(p, actions).sevs <==> LastHanded(p, actions, id).Some?
    ensures id in Run(p, actions).sevs ==>
      var h := LastHanded(p, actions, id).value;
      && ExceptMarker(Run(p, actions).sevs[id]) == ExceptMarker(Stored(h, p))
      && Consistent(h.times, h.metrics)
  {
    if actions != [] {
      var init, a := actions[..|actions| - 1], actions[|actions| - 1];
      RecordIsLastHanded(p, init, id);
      RunsKeepInv(p, init);
      var w := Run(p, init);
      if Writes(w, a, id) {
        WrittenRow(w, a, id);
        HandedIsConsistent(w, a);
      } else {
        OtherRow(w, a, id);
      }
    }
  }

  // ---------- stored metrics and stored timestamps ----------

  lemma RecordTimes(p: RowPrecision, actions: seq<Action>, id: string)
    requires id in Run(p, actions).sevs
    ensures LastHanded(p, actions, id).Some?
    ensures var r, h := Run(p, actions).sevs[id], LastHanded(p, actions, id).value;
      r.times == KeptTimes(h.times, p) && r.metrics == h.metrics && Consistent(h.times, h.metrics)
  {
    RecordIsLastHanded(p, actions, id);
    var r, h := Run(p, actions).sevs[id], LastHanded(p, actions, id).value;
    assert ExceptMarker(r).times == r.times && ExceptMarker(r).metrics == r.metrics;
    assert ExceptMarker(Stored(h, p)).times == KeptTimes(h.times, p) && ExceptMarker(Stored(h, p)).metrics == h.metrics;
  }

  /** Exactly when a reachable record's metrics are those of its stored timestamps: when what the store cut
      off the timestamps of the last write shows in none of the five differences. */
  lemma StoredMetricsAreExactly(p: RowPrecision, actions: seq<Action>, id: string)
    requires id in Run(p, actions).sevs
    ensures LastHanded(p, actions, id).Some?
    ensures Consistent(Run(p, actions).sevs[id].times, Run(p, actions).sevs[id].metrics)
       <==> TimesHarmless(LastHanded(p, actions, id).value.times, p)
  {
    RecordTimes(p, actions, id);
    var h := LastHanded(p, actions, id).value;
    KeptConsistentExactly(h.times, h.metrics, p);
  }

  /** A store in memory keeps every instant, so there the metrics are exact in every run. */
  lemma MetricsAreExactInMemory(actions: seq<Action>, id: string)
    requires id in Run(Instants, actions).sevs
    ensures Consistent(Run(Instants, actions).sevs[id].times, Run(Instants, actions).sevs[id].metrics)
  {
    StoredMetricsAreExactly(Instants, actions, id);
    AlignedTimesAreHarmless(LastHanded(Instants, actions, id).value.times, Instants);
  }

  /** The timestamps an action carries are ones the store keeps as they are, and so is its clock where it
      becomes the completion time: in a transition that completes the postmortem of a record that has
      none, without giving one. */
  predicate ActionAligned(w: World, a: Action) {
    match a
    case CreateSEV(req, _) => Aligned(req.started, w.precision) && Aligned(req.detected, w.precision)
    case UpdateSEV(req, _) => Aligned(req.started, w.precision) && Aligned(req.detected, w.precision)
    case TransitionStatus(req, env) =>
      && Aligned(req.mitigated, w.precision) && Aligned(req.resolved, w.precision)
      && Aligned(req.pmCompleted, w.precision)
      && (CompletesNow(w, req) ==> Aligned(Some(env.now), w.precision))
    case _ => true
  }

  predicate CompletesNow(w: World, req: TransitionRequest) {
    && req.to == Some(PostmortemComplete) && req.pmCompleted.None?
    && req.id in w.sevs && w.sevs[req.id].times.pmCompleted.None?
  }

  predicate Aligned(t: Option<Time>, p: Precision) {
    KeptTime(t, p) == t
  }

  predicate TimesAligned(t: Times, p: Precision) {
    KeptTimes(t, p) == t
  }

  /** The last write of a record was by an aligned action. Earlier writes, and actions on other records, do
      not matter. */
  predicate LastWriteAligned(p: RowPrecision, actions: seq<Action>, id: string) {
    actions != [] ==>
      var init, a := actions[..|actions| - 1], actions[|actions| - 1];
      if Writes(Run(p, init), a, id) then ActionAligned(Run(p, init), a) else LastWriteAligned(p, init, id)
  }

  /** What the store gives back it keeps as it is. */
  lemma KeptTimesAligned(t: Times, p: Precision)
    ensures TimesAligned(KeptTimes(t, p), p)
  {
    forall x: Time {
      KeptTwice(x, p);
    }
  }

  lemma HandedIsAligned(w: World, a: Action)
    requires Inv(w) && Handed(w, a).Some? && ActionAligned(w, a)
    requires Handed(w, a).value.id in w.sevs ==> TimesAligned(w.sevs[Handed(w, a).value.id].times, w.precision)
    ensures TimesAligned(Handed(w, a).value.times, w.precision)
  {
    match a
    case CreateSEV(req, env) => CreationHands(w, req, env);
    case UpdateSEV(req, env) =>
      UpdateHands(w, req, env);
      PresentRow(w, req.id);
    case TransitionStatus(req, env) =>
      TransitionHands(w, req, env);
      PresentRow(w, req.id);
      TransitionTimesAligned(w.precision, w.sevs[req.id].times, req, req.to.value, env.now);
  }

  /** The clock matters only where it becomes the completion time. */
  lemma TransitionTimesAligned(p: Precision, t: Times, req: TransitionRequest, to: Status, now: Time)
    requires TimesAligned(t, p) && Aligned(req.mitigated, p) && Aligned(req.resolved, p) && Aligned(req.pmCompleted, p)
    requires to.PostmortemComplete? && req.pmCompleted.None? && t.pmCompleted.None? ==> Aligned(Some(now), p)
    ensures TimesAligned(TransitionTimes(t, req, to, now), p)
  {
  }

  lemma {:induction false} LastHandedIsAligned(p: RowPrecision, actions: seq<Action>, id: string)
    requires id in Run(p, actions).sevs && LastWriteAligned(p, actions, id)
    ensures LastHanded(p, actions, id).Some? && TimesAligned(LastHanded(p, actions, id).value.times, p)
  {
    assert actions != [];
    var init, a := actions[..|actions| - 1], actions[|actions| - 1];
    var w := Run(p, init);
    RunsKeepInv(p, init);
    if Writes(w, a, id) {
      if id in w.sevs {
        RecordTimes(p, init, id);
        KeptTimesAligned(LastHanded(p, init, id).value.times, p);
      }
      HandedIsAligned(w, a);
    } else {
      OtherRow(w, a, id);
      LastHandedIsAligned(p, init, id);
    }
  }

  /** So the metrics of a record whose last write was aligned are exact: after any edit that carries no
      timestamp of its own, for one. */
  lemma MetricsAreExactAfterAlignedWrite(p: RowPrecision, actions: seq<Action>, id: string)
    requires id in Run(p, actions).sevs && LastWriteAligned(p, actions, id)
    ensures Consistent(Run(p, actions).sevs[id].times, Run(p, actions).sevs[id].metrics)
  {
    LastHandedIsAligned(p, actions, id);
    AlignedTimesAreHarmless(LastHanded(p, actions, id).value.times, p);
    StoredMetricsAreExactly(p, actions, id);
  }

  // ---------- the sum of the metrics ----------

  /** In every reachable record with the metrics, MTTM is MTTD plus DTTM to within a second exactly when the
      three timestamps handed over by its last write are not too far apart. */
  lemma ReachableMetricsAddUp(p: RowPrecision, actions: seq<Action>, id: string)
    requires id in Run(p, actions).sevs
    requires var m := Run(p, actions).sevs[id].metrics; m.mttd.Some? && m.mttm.Some?
    ensures LastHanded(p, actions, id).Some?
    ensures var m, t := Run(p, actions).sevs[id].metrics, LastHanded(p, actions, id).value.times;
      && m.dttm.Some? && t.started.Some? && t.detected.Some? && t.mitigated.Some?
      && (-1 <= m.mttm.value - (m.mttd.value + m.dttm.value) <= 1
          <==> SplitKeepsSeconds(t.started.value, t.detected.value, t.mitigated.value))
  {
    RecordTimes(p, actions, id);
    var h := LastHanded(p, actions, id).value;
    MitigateIsDetectPlusDetectToMitigate(h.times, h.metrics);
  }

  /** When that write was aligned, they are the stored timestamps. */
  lemma AlignedMetricsAddUp(p: RowPrecision, actions: seq<Action>, id: string)
    requires id in Run(p, actions).sevs && LastWriteAligned(p, actions, id)
    requires var m := Run(p, actions).sevs[id].metrics; m.mttd.Some? && m.mttm.Some?
    ensures var r := Run(p, actions).sevs[id];
      && r.times.started.Some? && r.times.detected.Some? && r.times.mitigated.Some? && r.metrics.dttm.Some?
      && (-1 <= r.metrics.mttm.value - (r.metrics.mttd.value + r.metrics.dttm.value) <= 1
          <==> SplitKeepsSeconds(r.times.started.value, r.times.detected.value, r.times.mitigated.value))
  {
    MetricsAreExactAfterAlignedWrite(p, actions, id);
    var r := Run(p, actions).sevs[id];
    MitigateIsDetectPlusDetectToMitigate(r.times, r.metrics);
  }

  // ---------- timestamps are never erased ----------

  lemma SameButMarker(r: Sev, r': Sev)
    requires ExceptMarker(r) == ExceptMarker(r')
    ensures r.times == r'.times
  {
    assert ExceptMarker(r).times == r.times && ExceptMarker(r').times == r'.times;
  }

  lemma StepKeepsRecord(w: World, a: Action, id: string)
    requires Inv(w)
    ensures RecordKeeps(w, Step(w, a), id)
  {
    if id !in w.sevs {
    } else if Writes(w, a, id) {
      HandedIsConsistent(w, a);
      WrittenRow(w, a, id);
    } else {
      OtherRow(w, a, id);
      SameButMarker(Step(w, a).sevs[id], w.sevs[id]);
    }
  }

  /** A record that is there stays, with none of its timestamps erased. */
  predicate RecordKeeps(w: World, w': World, id: string) {
    id in w.sevs ==> id in w'.sevs && TimesKept(w.sevs[id].times, w'.sevs[id].times)
  }

  lemma RecordKeepsOn(w: World, w': World, w'': World, id: string)
    requires RecordKeeps(w, w', id) && RecordKeeps(w', w'', id)
    ensures RecordKeeps(w, w'', id)
  {
  }

  /** Over every run a record stays, and each of its timestamps once set stays set. */
  lemma RunsEraseNoTimestamp(p: RowPrecision, actions: seq<Action>, i: nat, j: nat, id: string)
    requires i <= j <= |actions| && id in After(p, actions, i).sevs
    ensures id in After(p, actions, j).sevs
    ensures TimesKept(After(p, actions, i).sevs[id].times, After(p, actions, j).sevs[id].times)
  {
    RunKeepsRecord(p, actions, i, j, id);
  }

  lemma {:induction false} RunKeepsRecord(p: RowPrecision, actions: seq<Action>, i: nat, j: nat, id: string)
    requires i <= j <= |actions|
    ensures RecordKeeps(After(p, actions, i), After(p, actions, j), id)
    decreases j
  {
    if i < j {
      RunKeepsRecord(p, actions, i, j - 1, id);
      AfterStep(p, actions, j - 1);
      RunsKeepInv(p, actions[..j - 1]);
      StepKeepsRecord(After(p, actions, j - 1), actions[j - 1], id);
      RecordKeepsOn(After(p, actions, i), After(p, actions, j - 1), After(p, actions, j), id);
    }
  }

  // ---------- a metric off its timestamps ----------

  /** Started 900 nanoseconds into a second and detected 500 into the next. */
  function HastyRequest(): CreateRequest {
    CreateRequest("SEV-1", "t", 1, [], map[], map[], Some(900), Some(SECOND + 500), false, false, "u")
  }

  /** A change of the title and nothing else. */
  function RetitleRequest(): UpdateRequest {
    UpdateRequest("SEV-1", "u", 0, [], map[], map[], None, None, None, None, UnlockTokens.NoToken)
  }

  lemma HastyCreation(env: Env)
    requires env.faults == {}
    ensures var w := Run(Microseconds, [Action.CreateSEV(HastyRequest(), env)]);
      && "SEV-1" in w.sevs && !w.sevs["SEV-1"].sensitive && !w.sevs["SEV-1"].locked
      && w.sevs["SEV-1"].times == Times(Some(0), Some(SECOND), None, None, None)
      && w.sevs["SEV-1"].metrics == Metrics(Some(0), None, None, None, None)
  {
    var actions := [Action.CreateSEV(HastyRequest(), env)];
    assert actions[..0] == [];
    assert Run(Microseconds, actions) == Create(Empty(Microseconds), HastyRequest(), env).0;
    assert VocabularyOk(map[]);
  }

  /** Postgres keeps timestamps a second apart beside a metric of zero. */
  lemma PostgresKeepsTimestampsOffTheirMetric(env: Env)
    requires env.faults == {}
    ensures var w := Run(Microseconds, [Action.CreateSEV(HastyRequest(), env)]);
      && "SEV-1" in w.sevs
      && w.sevs["SEV-1"].metrics.mttd == Some(0)
      && Span(w.sevs["SEV-1"].times.started, w.sevs["SEV-1"].times.detected) == Some(1)
  {
    HastyCreation(env);
  }

  /** And a later change of the title alone moves that metric to one. */
  lemma RetitlingMovesTheMetric(env: Env)
    requires env.faults == {}
    ensures var w := Run(Microseconds, [Action.CreateSEV(HastyRequest(), env), Action.UpdateSEV(RetitleRequest(), env)]);
      "SEV-1" in w.sevs && w.sevs["SEV-1"].metrics.mttd == Some(1)
  {
    var actions := [Action.CreateSEV(HastyRequest(), env), Action.UpdateSEV(RetitleRequest(), env)];
    assert actions[..1] == [Action.CreateSEV(HastyRequest(), env)];
    HastyCreation(env);
    var w := Run(Microseconds, actions[..1]);
    assert Run(Microseconds, actions) == Update(w, RetitleRequest(), env).0;
    assert VocabularyOk(map[]);
    assert Updated(w.sevs["SEV-1"], RetitleRequest()).times == w.sevs["SEV-1"].times;
  }
}
