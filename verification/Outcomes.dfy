/** What one call of a lifecycle handler answers and leaves behind: exactly when it succeeds, and then every
    column of the record, in terms of the request and the state before it. */
module Outcomes {
  import opened Wrappers
  import opened Clock
  import opened SevModel
  import opened MetricsModel
  import opened UnlockTokens
  import opened Lifecycle

  // ---------- who may edit a record ----------

  /** A signed unlock token of this SEV that has not expired. */
  predicate Opens(token: Token, id: string, signed: set<Claims>, now: Time) {
    && token.Token? && token.claims in signed
    && token.claims.scope == UnlockScope && token.claims.sev == id
    && (token.claims.expires.Some? ==> now < token.claims.expires.value)
  }

  /** The access store has to be asked: the row is sensitive and the caller has no role that shows it. */
  predicate AsksAccess(row: Sev, caller: Caller) {
    row.sensitive && caller.User? && caller.role in {Viewer, Responder}
  }

  predicate Seen(row: Sev, caller: Caller, grants: Grants) {
    !row.sensitive
    || (caller.User? && (caller.role in {Admin, IncidentCommander} || (row.id, caller.id) in grants))
  }

  /** The record can be fetched and is shown to the caller. */
  predicate Reaches(w: World, id: string, env: Env) {
    && GetFault !in env.faults && id in w.sevs
    && Seen(w.sevs[id], env.caller, w.grants)
    && !(AsksAccess(w.sevs[id], env.caller) && AccessFault in env.faults)
  }

  predicate MayEdit(w: World, id: string, token: Token, env: Env) {
    Reaches(w, id, env) && (w.sevs[id].locked ==> Opens(token, id, w.signed, env.now))
  }

  /** Which of the token errors a token that does not open a SEV gets: none given, not signed, expired, of
      another scope, of another SEV. */
  predicate TokenError(token: Token, id: string, signed: set<Claims>, now: Time, e: Error) {
    if token.NoToken? then e == LockedNoToken
    else if token.claims !in signed then e == TokenInvalid
    else if token.claims.expires.Some? && now >= token.claims.expires.value then e == TokenExpired
    else if token.claims.scope != UnlockScope then e == TokenInvalid
    else e == TokenWrongSev
  }

  /** Exactly when an edit gets past the checks, and what it is refused with otherwise. */
  lemma AdmitsExactly(w: World, id: string, token: Token, env: Env)
    ensures Admit(w, id, token, env).Ok? <==> MayEdit(w, id, token, env)
    ensures Admit(w, id, token, env).Ok? ==> Admit(w, id, token, env).value == w.sevs[id]
    ensures Admit(w, id, token, env).Err? ==> Refused(w, id, token, env, Admit(w, id, token, env).error)
  {
  }

  predicate Refused(w: World, id: string, token: Token, env: Env, e: Error) {
    if GetFault in env.faults then e == Internal
    else if id !in w.sevs then e == NotFound
    else if AsksAccess(w.sevs[id], env.caller) && AccessFault in env.faults then e == Internal
    else if !Seen(w.sevs[id], env.caller, w.grants) then e == NotFound
    else TokenError(token, id, w.signed, env.now, e)
  }

  // ---------- what the store keeps of a record ----------

  predicate KeptColumn(t: Option<Time>, p: Precision, kept: Option<Time>) {
    t.Some? == kept.Some? && (t.Some? ==> kept.value == Kept(t.value, p))
  }

  /** The stored row: every column as handed over, the times to the store's precision. */
  predicate KeptRow(row: Sev, p: Precision, kept: Sev) {
    && kept == row.(times := kept.times, createdAt := Kept(row.createdAt, p), updatedAt := Kept(row.updatedAt, p))
    && KeptColumn(row.times.started, p, kept.times.started)
    && KeptColumn(row.times.detected, p, kept.times.detected)
    && KeptColumn(row.times.mitigated, p, kept.times.mitigated)
    && KeptColumn(row.times.resolved, p, kept.times.resolved)
    && KeptColumn(row.times.pmCompleted, p, kept.times.pmCompleted)
  }

  lemma StoredIsKept(row: Sev, p: Precision)
    ensures KeptRow(row, p, Stored(row, p))
  {
  }

  /** A metric is the difference of its timestamps when both are there, and otherwise as before. */
  predicate Measured(from: Option<Time>, to: Option<Time>, before: Option<int>, m: Option<int>) {
    if from.Some? && to.Some? then m == Some(SecondsBetween(from.value, to.value)) else m == before
  }

  predicate AllMeasured(t: Times, before: Metrics, m: Metrics) {
    && Measured(t.started, t.detected, before.mttd, m.mttd)
    && Measured(t.started, t.mitigated, before.mttm, m.mttm)
    && Measured(t.started, t.resolved, before.mttr, m.mttr)
    && Measured(t.detected, t.mitigated, before.dttm, m.dttm)
    && Measured(t.resolved, t.pmCompleted, before.rtpc, m.rtpc)
  }

  // ---------- transitions ----------

  /** The status graph. */
  const EDGES: set<(Status, Status)> := {
    (Open, Investigating), (Open, Mitigated), (Investigating, Mitigated), (Investigating, Open),
    (Mitigated, Resolved), (Mitigated, Investigating), (Resolved, PostmortemInProgress),
    (PostmortemInProgress, PostmortemComplete), (PostmortemComplete, Open)
  }

  lemma TransitionsAreTheEdges(from: Status, to: Status)
    ensures ValidTransition(from, to) <==> (from, to) in EDGES
  {
  }

  predicate GivenOr(given: Option<Time>, before: Option<Time>, after: Option<Time>) {
    after == if given.Some? then given else before
  }

  /** The timestamps a transition leaves: the request's where it has one, and now for a completion that has
      none at all. */
  predicate MovedTimes(before: Times, req: TransitionRequest, to: Status, now: Time, after: Times) {
    && after.started == before.started && after.detected == before.detected
    && GivenOr(req.mitigated, before.mitigated, after.mitigated)
    && GivenOr(req.resolved, before.resolved, after.resolved)
    && (if to == PostmortemComplete && req.pmCompleted == None && before.pmCompleted == None
        then after.pmCompleted == Some(now)
        else GivenOr(req.pmCompleted, before.pmCompleted, after.pmCompleted))
  }

  /** The row a transition answers, against the row before it. */
  predicate Moved(r: Sev, req: TransitionRequest, to: Status, now: Time, row: Sev) {
    && MovedTimes(r.times, req, to, now, row.times)
    && AllMeasured(row.times, r.metrics, row.metrics)
    && row.status == to && row.updatedAt == now
    && (row.locked <==> to == PostmortemComplete)
    && row == r.(status := row.status, times := row.times, metrics := row.metrics, locked := row.locked,
                 updatedAt := row.updatedAt)
  }

  lemma TransitionMoves(r: Sev, req: TransitionRequest, to: Status, now: Time)
    ensures Moved(r, req, to, now, TransitionedRow(r, req, to, now))
  {
  }

  predicate TransitionAllowed(w: World, req: TransitionRequest, env: Env) {
    && req.id != "" && req.to.Some? && MayEdit(w, req.id, req.token, env)
    && (w.sevs[req.id].status, req.to.value) in EDGES
  }

  /** The history entry of a transition. */
  predicate EntryOf(e: Entry, r: Sev, req: TransitionRequest, env: Env) {
    && e.sev == r.id && e.from == r.status && req.to == Some(e.to) && e.at == env.now
    && e.user == (if env.caller.User? then env.caller.id else req.user)
  }

  /** One more history entry, of that transition. */
  predicate Appended(w: World, req: TransitionRequest, env: Env, w': World)
    requires req.id in w.sevs
  {
    && |w'.history| == |w.history| + 1 && w'.history[..|w.history|] == w.history
    && EntryOf(w'.history[|w.history|], w.sevs[req.id], req, env)
  }

  ghost predicate TransitionOutcome(w: World, req: TransitionRequest, env: Env, w': World, r: Result<Sev>) {
    && (r.Ok? <==> TransitionAllowed(w, req, env) && HistoryFault !in env.faults && WriteFault !in env.faults)
    && (r.Ok? ==>
          && Moved(w.sevs[req.id], req, req.to.value, env.now, r.value)
          && Appended(w, req, env, w')
          && Wrote(w, req.id, r.value, w')
          && w' == w.(sevs := w'.sevs, history := w'.history, committed := w.committed + {|w.history|}))
    && (r.Err? && TransitionAllowed(w, req, env) && HistoryFault !in env.faults ==>
          r.error == Internal && Appended(w, req, env, w') && w' == w.(history := w'.history))
    && (r.Err? && !(TransitionAllowed(w, req, env) && HistoryFault !in env.faults) ==> w' == w)
    && (r.Err? ==> TransitionRefused(w, req, env, r.error))
  }

  predicate TransitionRefused(w: World, req: TransitionRequest, env: Env, e: Error) {
    if req.id == "" || req.to == None then e == InvalidArgument
    else if !MayEdit(w, req.id, req.token, env) then Refused(w, req.id, req.token, env, e)
    else if (w.sevs[req.id].status, req.to.value) !in EDGES then e == InvalidArgument
    else e == Internal
  }

  /** The store holds what it keeps of the row, under that ID, and every other record as before. */
  predicate Wrote(w: World, id: string, row: Sev, w': World) {
    id in w'.sevs && KeptRow(row, w.precision, w'.sevs[id]) && w'.sevs == w.sevs[id := w'.sevs[id]]
  }

  lemma TransitionOutcomes(w: World, req: TransitionRequest, env: Env)
    ensures TransitionOutcome(w, req, env, Transition(w, req, env).0, Transition(w, req, env).1)
  {
    AdmitsExactly(w, req.id, req.token, env);
    if req.id in w.sevs && req.to.Some? {
      var row := TransitionedRow(w.sevs[req.id], req, req.to.value, env.now);
      TransitionsAreTheEdges(w.sevs[req.id].status, req.to.value);
      TransitionMoves(w.sevs[req.id], req, req.to.value, env.now);
      StoredIsKept(row, w.precision);
    }
  }

  // ---------- updates ----------

  const DETECTED_BY: set<string> := {"", "alert", "monitoring-dashboard", "customer-report", "synthetic-test",
                                     "manual-discovery", "slack-escalation"}
  const MONITORED_BY: set<string> := {"", "datadog", "prometheus", "cloudwatch", "other"}

  /** The text columns meet the two closed vocabularies; an empty value is no value. */
  predicate KnownWords(details: map<string, string>) {
    && ("detection_method" in details ==> details["detection_method"] in DETECTED_BY)
    && ("monitoring_tool" in details ==> details["monitoring_tool"] in MONITORED_BY)
  }

  lemma VocabularyIsKnownWords(details: map<string, string>)
    ensures VocabularyOk(details) <==> KnownWords(details)
  {
  }

  /** A text column is the request's when it has a value, and otherwise as before. */
  predicate DetailsEdited(before: map<string, string>, given: map<string, string>, after: map<string, string>) {
    && (forall k | k in given && given[k] != "" :: k in after && after[k] == given[k])
    && (forall k | k in after :: (k in given && given[k] != "") || (k in before && after[k] == before[k]))
    && (forall k | k in before :: k in after)
  }

  predicate Edited(r: Sev, req: UpdateRequest, now: Time, row: Sev) {
    && row.title == (if req.title != "" then req.title else r.title)
    && row.level as int == (if req.level != 0 then req.level else r.level as int)
    && row.services == (if req.services != [] then req.services else r.services)
    && DetailsEdited(r.details, req.details, row.details)
    && row.tags == (if req.tags != map[] then req.tags else r.tags)
    && GivenOr(req.started, r.times.started, row.times.started)
    && GivenOr(req.detected, r.times.detected, row.times.detected)
    && row.times.mitigated == r.times.mitigated && row.times.resolved == r.times.resolved
    && row.times.pmCompleted == r.times.pmCompleted
    && row.sensitive == (if req.sensitive.Some? then req.sensitive.value else r.sensitive)
    && row.aiDisabled == (if req.aiDisabled.Some? then req.aiDisabled.value else r.aiDisabled)
    && row.updatedAt == now
    && AllMeasured(row.times, r.metrics, row.metrics)
    && row.id == r.id && row.status == r.status && row.locked == r.locked && row.createdAt == r.createdAt
    && row.createdBy == r.createdBy && row.slaNotified == r.slaNotified
  }

  lemma GivenEdits(before: map<string, string>, given: map<string, string>)
    ensures DetailsEdited(before, given, before + Given(given))
  {
  }

  lemma UpdateEdits(r: Sev, req: UpdateRequest, now: Time)
    requires UpdateAcceptable(req)
    ensures Edited(r, req, now, UpdatedRow(r, req, now))
  {
    GivenEdits(r.details, req.details);
  }

  /** The update reports a new root cause exactly when it gives one that is not the one on record. */
  lemma RootCauseChangesExactly(details: map<string, string>, req: UpdateRequest)
    ensures var name := "root_cause_category";
      RootCauseChanges(details, req)
      <==> name in req.details && req.details[name] != "" && !(name in details && details[name] == req.details[name])
  {
  }

  predicate UpdateAllowed(w: World, req: UpdateRequest, env: Env) {
    && req.id != "" && MayEdit(w, req.id, req.token, env)
    && (req.level == 0 || req.level in {1, 2, 3, 4}) && KnownWords(req.details)
  }

  predicate UpdateRefused(w: World, req: UpdateRequest, env: Env, e: Error) {
    if req.id == "" then e == InvalidArgument
    else if !MayEdit(w, req.id, req.token, env) then Refused(w, req.id, req.token, env, e)
    else if !UpdateAllowed(w, req, env) then e == InvalidArgument
    else e == Internal
  }

  /** The reporter is granted access when the record becomes sensitive. */
  ghost predicate UpdateOutcome(w: World, req: UpdateRequest, env: Env, w': World, r: Result<Sev>) {
    && (r.Ok? <==> UpdateAllowed(w, req, env) && WriteFault !in env.faults)
    && (r.Ok? ==>
          && Edited(w.sevs[req.id], req, env.now, r.value)
          && Wrote(w, req.id, r.value, w')
          && w' == w.(sevs := w'.sevs, grants := w'.grants)
          && w'.grants == w.grants + (if r.value.sensitive && !w.sevs[req.id].sensitive && GrantFault !in env.faults
                                      then {(r.value.id, r.value.createdBy)} else {}))
    && (r.Err? ==> w' == w && UpdateRefused(w, req, env, r.error))
  }

  lemma UpdateOutcomes(w: World, req: UpdateRequest, env: Env)
    ensures UpdateOutcome(w, req, env, Update(w, req, env).0, Update(w, req, env).1)
  {
    AdmitsExactly(w, req.id, req.token, env);
    VocabularyIsKnownWords(req.details);
    if req.id in w.sevs && UpdateAcceptable(req) {
      UpdateEdits(w.sevs[req.id], req, env.now);
      StoredIsKept(UpdatedRow(w.sevs[req.id], req, env.now), w.precision);
    }
  }

  // ---------- creations ----------

  predicate CreationAllowed(w: World, req: CreateRequest) {
    req.title != "" && req.level in {1, 2, 3, 4} && KnownWords(req.details)
  }

  /** A new SEV is open and unlocked, belongs to the caller, and has the request's values. */
  predicate Fresh(req: CreateRequest, caller: Caller, now: Time, row: Sev) {
    && row.id == req.newId && row.title == req.title && row.level as int == req.level && row.status == Open
    && row.services == req.services && row.tags == req.tags
    && DetailsEdited(map[], req.details, row.details)
    && row.times == Times(req.started, req.detected, None, None, None)
    && Measured(req.started, req.detected, None, row.metrics.mttd)
    && row.metrics == Metrics(row.metrics.mttd, None, None, None, None)
    && !row.locked && row.sensitive == req.sensitive && row.aiDisabled == req.aiDisabled
    && row.createdAt == now && row.updatedAt == now && row.slaNotified == None
    && row.createdBy == (if caller.User? then caller.id else req.createdBy)
  }

  lemma CreationIsFresh(req: CreateRequest, caller: Caller, now: Time)
    requires 1 <= req.level <= 4
    ensures Fresh(req, caller, now, Refresh(NewRow(req, ActorOf(caller, req.createdBy), now)))
  {
    GivenEdits(map[], req.details);
    assert map[] + Given(req.details) == Given(req.details);
  }

  /** The record and its creator's access, which go in before the postmortem document. */
  predicate RecordCreated(w: World, req: CreateRequest, env: Env, row: Sev, w': World) {
    && req.newId !in w.sevs
    && Fresh(req, env.caller, env.now, row)
    && Wrote(w, req.newId, row, w')
    && w'.grants == w.grants + (if req.sensitive && GrantFault !in env.faults then {(req.newId, row.createdBy)} else {})
  }

  predicate CreationRefused(w: World, req: CreateRequest, e: Error) {
    e == if CreationAllowed(w, req) then Internal else InvalidArgument
  }

  ghost predicate CreationOutcome(w: World, req: CreateRequest, env: Env, w': World, r: Result<Sev>) {
    var stores := CreationAllowed(w, req) && WriteFault !in env.faults && req.newId !in w.sevs;
    && (r.Ok? <==> stores && PostmortemFault !in env.faults)
    && (r.Ok? ==>
          && RecordCreated(w, req, env, r.value, w')
          && w' == w.(sevs := w'.sevs, grants := w'.grants, postmortems := w.postmortems[req.newId := Postmortem("", Draft)]))
    && (r.Err? && stores ==>
          && (exists row :: RecordCreated(w, req, env, row, w'))
          && w' == w.(sevs := w'.sevs, grants := w'.grants))
    && (r.Err? && !stores ==> w' == w)
    && (r.Err? ==> CreationRefused(w, req, r.error))
  }

  lemma CreationOutcomes(w: World, req: CreateRequest, env: Env)
    ensures CreationOutcome(w, req, env, Create(w, req, env).0, Create(w, req, env).1)
  {
    VocabularyIsKnownWords(req.details);
    if 1 <= req.level <= 4 {
      var row := Refresh(NewRow(req, ActorOf(env.caller, req.createdBy), env.now));
      CreationIsFresh(req, env.caller, env.now);
      StoredIsKept(row, w.precision);
      if req.newId !in w.sevs && CreationAllowed(w, req) && WriteFault !in env.faults {
        CreationStored(w, req, env, row);
        assert RecordCreated(w, req, env, row, Create(w, req, env).0);
      }
    }
  }

  lemma CreationStored(w: World, req: CreateRequest, env: Env, row: Sev)
    requires 1 <= req.level <= 4 && row == Refresh(NewRow(req, ActorOf(env.caller, req.createdBy), env.now))
    requires req.title != "" && VocabularyOk(req.details) && WriteFault !in env.faults && req.newId !in w.sevs
    ensures var w' := Create(w, req, env).0;
      && w'.sevs == w.sevs[req.newId := Stored(row, w.precision)]
      && w'.grants == w.grants + (if req.sensitive && GrantFault !in env.faults then {(req.newId, row.createdBy)} else {})
  {
  }

  // ---------- the postmortem text ----------

  predicate TextEditable(w: World, id: string, token: Token, env: Env) {
    && id != "" && GetFault !in env.faults && id in w.sevs
    && (w.sevs[id].locked ==> Opens(token, id, w.signed, env.now))
    && id in w.postmortems
  }

  predicate TextRefused(w: World, id: string, token: Token, env: Env, e: Error) {
    if id == "" then e == InvalidArgument
    else if GetFault in env.faults then e == Internal
    else if id !in w.sevs then e == NotFound
    else if w.sevs[id].locked && !Opens(token, id, w.signed, env.now) then TokenError(token, id, w.signed, env.now, e)
    else if id !in w.postmortems then e == NotFound
    else e == Internal
  }

  /** The text of that one document becomes the given one; its own status stays. */
  predicate TextOutcome(w: World, id: string, content: string, token: Token, env: Env, w': World, r: Result<Postmortem>) {
    && (r.Ok? <==> TextEditable(w, id, token, env) && PostmortemFault !in env.faults)
    && (r.Ok? ==>
          && r.value == Postmortem(content, w.postmortems[id].status)
          && w' == w.(postmortems := w.postmortems[id := r.value]))
    && (r.Err? ==> w' == w && TextRefused(w, id, token, env, r.error))
  }

  lemma TextOutcomes(w: World, id: string, content: string, token: Token, env: Env)
    ensures TextOutcome(w, id, content, token, env, UpdatePostmortem(w, id, content, token, env).0,
                        UpdatePostmortem(w, id, content, token, env).1)
  {
  }

  // ---------- unlocking ----------

  predicate Unlockable(w: World, id: string, reason: string, env: Env) {
    id != "" && reason != "" && GetFault !in env.faults && id in w.sevs && w.sevs[id].locked
  }

  predicate UnlockRefused(w: World, id: string, reason: string, env: Env, e: Error) {
    if id == "" || reason == "" then e == InvalidArgument
    else if GetFault in env.faults then e == Internal
    else if id !in w.sevs then e == NotFound
    else if !w.sevs[id].locked then e == FailedPrecondition
    else e == Internal
  }

  /** An unlock signs a token of that SEV that is good for fifteen minutes, less what rounding to the second
      takes, and changes nothing else. */
  predicate UnlockOutcome(w: World, id: string, reason: string, env: Env, w': World, r: Result<Claims>) {
    && (r.Ok? <==> Unlockable(w, id, reason, env) && SignFault !in env.faults)
    && (r.Ok? ==>
          && r.value.sev == id && r.value.scope == UnlockScope && r.value.expires.Some?
          && r.value.expires.value % SECOND == 0
          && env.now + 15 * MINUTE - SECOND < r.value.expires.value <= env.now + 15 * MINUTE
          && w' == w.(signed := w.signed + {r.value}))
    && (r.Err? ==> w' == w && UnlockRefused(w, id, reason, env, r.error))
  }

  lemma UnlockOutcomes(w: World, id: string, reason: string, env: Env)
    ensures UnlockOutcome(w, id, reason, env, Unlock(w, id, reason, env).0, Unlock(w, id, reason, env).1)
  {
  }

  /** The point of it: after a successful unlock whoever sees the locked SEV may edit it with the token, until
      a second short of fifteen minutes later. */
  lemma UnlockLetsEdit(w: World, id: string, reason: string, env: Env, later: Env)
    requires Unlock(w, id, reason, env).1.Ok?
    requires Reaches(w, id, later) && later.now <= env.now + 15 * MINUTE - SECOND
    ensures var (w', r) := Unlock(w, id, reason, env);
      MayEdit(w', id, Token.Token(r.value), later) && Admit(w', id, Token.Token(r.value), later) == Ok(w.sevs[id])
  {
    UnlockOutcomes(w, id, reason, env);
    AdmitsExactly(Unlock(w, id, reason, env).0, id, Token.Token(Unlock(w, id, reason, env).1.value), later);
  }

  // ---------- the actions of a run ----------

  /** What an action of a run does: what its call does, and the two others change one value each. */
  ghost predicate ActionOutcome(w: World, a: Action, w': World) {
    match a
    case CreateSEV(req, env) => exists r :: CreationOutcome(w, req, env, w', r)
    case UpdateSEV(req, env) => exists r :: UpdateOutcome(w, req, env, w', r)
    case TransitionStatus(req, env) => exists r :: TransitionOutcome(w, req, env, w', r)
    case EditPostmortem(id, content, token, env) => exists r :: TextOutcome(w, id, content, token, env, w', r)
    case UnlockSEV(id, reason, env) => exists r :: UnlockOutcome(w, id, reason, env, w', r)
    case MoveDocument(id, to) =>
      if id in w.postmortems then
        w' == w.(postmortems := w.postmortems[id := Postmortem(w.postmortems[id].content, to)])
      else w' == w
    case MarkNotified(id, status, at) =>
      if id in w.sevs then w' == w.(sevs := w.sevs[id := w.sevs[id].(slaNotified := status, updatedAt := at)]) else w' == w
    case SignOther(claims) => w' == w.(signed := if claims.scope == OtherScope then w.signed + {claims} else w.signed)
  }

  lemma ActionsHaveTheirOutcomes(w: World, a: Action)
    ensures ActionOutcome(w, a, Step(w, a))
  {
    match a
    case CreateSEV(req, env) => CreationOutcomes(w, req, env);
    case UpdateSEV(req, env) => UpdateOutcomes(w, req, env);
    case TransitionStatus(req, env) => TransitionOutcomes(w, req, env);
    case EditPostmortem(id, content, token, env) => TextOutcomes(w, id, content, token, env);
    case UnlockSEV(id, reason, env) => UnlockOutcomes(w, id, reason, env);
    case _ =>
  }
}
