/** The SEV lifecycle: status graph, append-only history, lock and derived metrics, over every run of
    handler calls in which any store call may fail (internal/api/grpc/sev.go, postmortem.go,
    internal/sev/statemachine.go). */
module Lifecycle {
  import opened Wrappers
  import opened Clock
  import opened SevModel
  import opened MetricsModel
  import opened UnlockTokens

  // ---------- the status graph ----------

  function Successors(s: Status): seq<Status> {
    match s
    case Open => [Investigating, Mitigated]
    case Investigating => [Mitigated, Open]
    case Mitigated => [Resolved, Investigating]
    case Resolved => [PostmortemInProgress]
    case PostmortemInProgress => [PostmortemComplete]
    case PostmortemComplete => [Open]
  }

  predicate ValidTransition(from: Status, to: Status) {
    to in Successors(from)
  }

  // ---------- the stores ----------

  datatype Entry = Entry(sev: string, from: Status, to: Status, user: string, at: Time)

  datatype DocumentStatus = Draft | InReview | Approved

  datatype Postmortem = Postmortem(content: string, status: DocumentStatus)

  /** Everything the handlers persist. `committed` marks the history entries whose record update
      went through; `signed` is every token signed with the server's secret; `precision` is that of the
      SEV store. */
  datatype World = World(
    sevs: map<string, Sev>,
    postmortems: map<string, Postmortem>,
    history: seq<Entry>,
    committed: set<nat>,
    grants: Grants,
    signed: set<Claims>,
    precision: RowPrecision)

  /** Rows keep their timestamps to the microsecond in Postgres, and as they are in memory. */
  type RowPrecision = p: Precision | !p.Days? witness Instants

  function Empty(precision: RowPrecision): World {
    World(map[], map[], [], {}, {}, {}, precision)
  }

  /** The store and signing calls that can fail within one request. */
  datatype Fault = GetFault | AccessFault | WriteFault | HistoryFault | GrantFault | PostmortemFault | SignFault

  datatype Env = Env(now: Time, caller: Caller, faults: set<Fault>)

  datatype CreateRequest = CreateRequest(
    newId: string,
    title: string,
    level: int,
    services: seq<string>,
    details: map<string, string>,
    tags: map<string, string>,
    started: Option<Time>,
    detected: Option<Time>,
    sensitive: bool,
    aiDisabled: bool,
    createdBy: string)

  datatype UpdateRequest = UpdateRequest(
    id: string,
    title: string,
    level: int,
    services: seq<string>,
    details: map<string, string>,
    tags: map<string, string>,
    started: Option<Time>,
    detected: Option<Time>,
    sensitive: Option<bool>,
    aiDisabled: Option<bool>,
    token: Token)

  /** A transition request; an empty or unknown target status is None. */
  datatype TransitionRequest = TransitionRequest(
    id: string,
    to: Option<Status>,
    mitigated: Option<Time>,
    resolved: Option<Time>,
    pmCompleted: Option<Time>,
    user: string,
    token: Token)

  function ActorOf(caller: Caller, fallback: string): string {
    if caller.User? then caller.id else fallback
  }

  // ---------- requests applied to a record ----------

  const DETECTION_METHODS := {"alert", "monitoring-dashboard", "customer-report", "synthetic-test",
                              "manual-discovery", "slack-escalation"}
  const MONITORING_TOOLS := {"datadog", "prometheus", "cloudwatch", "other"}

  /** The text columns a request sets: an empty value leaves the column alone. */
  function Given(details: map<string, string>): map<string, string> {
    map k | k in details && details[k] != "" :: details[k]
  }

  /** The two closed vocabularies among the text columns. */
  predicate VocabularyOk(details: map<string, string>) {
    var given := Given(details);
    && ("detection_method" in given ==> given["detection_method"] in DETECTION_METHODS)
    && ("monitoring_tool" in given ==> given["monitoring_tool"] in MONITORING_TOOLS)
  }

  function Or<T>(given: Option<T>, current: T): T {
    if given.Some? then given.value else current
  }

  function OrTime(given: Option<Time>, current: Option<Time>): Option<Time> {
    if given.Some? then given else current
  }

  predicate UpdateAcceptable(req: UpdateRequest) {
    (req.level != 0 ==> 1 <= req.level <= 4) && VocabularyOk(req.details)
  }

  /** The row after a partial update: an empty or absent field keeps what was there. */
  function Updated(r: Sev, req: UpdateRequest): Sev
    requires UpdateAcceptable(req)
  {
    r.(title := if req.title != "" then req.title else r.title,
       level := if req.level != 0 then req.level else r.level,
       services := if req.services != [] then req.services else r.services,
       details := r.details + Given(req.details),
       tags := if req.tags != map[] then req.tags else r.tags,
       times := r.times.(started := OrTime(req.started, r.times.started),
                         detected := OrTime(req.detected, r.times.detected)),
       sensitive := Or(req.sensitive, r.sensitive),
       aiDisabled := Or(req.aiDisabled, r.aiDisabled))
  }

  const ROOT_CAUSE := "root_cause_category"

  /** The request gives a root cause category, and not the one on record. */
  predicate RootCauseChanges(details: map<string, string>, req: UpdateRequest) {
    var given := Given(req.details);
    ROOT_CAUSE in given && (ROOT_CAUSE !in details || details[ROOT_CAUSE] != given[ROOT_CAUSE])
  }

  /** The text half of applySEVUpdate; an unacceptable value stops it part way through its copy. */
  method ApplyText(record: SevRecord, req: UpdateRequest) returns (ok: bool, rootCauseChanged: bool)
    modifies record`title, record`level, record`services, record`details
    ensures ok == UpdateAcceptable(req)
    ensures ok ==> record.title == (if req.title != "" then req.title else old(record.title))
    ensures ok ==> record.level as int == (if req.level != 0 then req.level else old(record.level) as int)
    ensures ok ==> record.services == (if req.services != [] then req.services else old(record.services))
    ensures ok ==> record.details == old(record.details) + Given(req.details)
    ensures rootCauseChanged == (ok && RootCauseChanges(old(record.details), req))
  {
    rootCauseChanged := false;
    if req.title != "" {
      record.title := req.title;
    }
    if req.level != 0 {
      if req.level < 1 || req.level > 4 {
        return false, false;
      }
      record.level := req.level;
    }
    if req.services != [] {
      record.services := req.services;
    }
    if !VocabularyOk(req.details) {
      return false, false;
    }
    rootCauseChanged := RootCauseChanges(record.details, req);
    record.details := record.details + Given(req.details);
    ok := true;
  }

  method ApplyRest(record: SevRecord, req: UpdateRequest) returns (sensitiveFlipped: bool)
    modifies record`tags, record`times, record`sensitive, record`aiDisabled
    ensures record.tags == (if req.tags != map[] then req.tags else old(record.tags))
    ensures record.times == old(record.times).(started := OrTime(req.started, old(record.times.started)),
                                               detected := OrTime(req.detected, old(record.times.detected)))
    ensures record.sensitive == Or(req.sensitive, old(record.sensitive))
    ensures record.aiDisabled == Or(req.aiDisabled, old(record.aiDisabled))
    ensures sensitiveFlipped == (record.sensitive && !old(record.sensitive))
  {
    sensitiveFlipped := false;
    if req.tags != map[] {
      record.tags := req.tags;
    }
    if req.started.Some? {
      record.times := record.times.(started := req.started);
    }
    if req.detected.Some? {
      record.times := record.times.(detected := req.detected);
    }
    if req.sensitive.Some? {
      sensitiveFlipped := req.sensitive.value && !record.sensitive;
      record.sensitive := req.sensitive.value;
    }
    if req.aiDisabled.Some? {
      record.aiDisabled := req.aiDisabled.value;
    }
  }

  method ApplySEVUpdate(record: SevRecord, req: UpdateRequest)
    returns (ok: bool, rootCauseChanged: bool, sensitiveFlipped: bool)
    modifies record
    ensures ok == UpdateAcceptable(req)
    ensures ok ==> record.Row() == Updated(old(record.Row()), req)
    ensures ok ==> sensitiveFlipped == (record.sensitive && !old(record.sensitive))
    ensures rootCauseChanged == (ok && RootCauseChanges(old(record.details), req))
  {
    sensitiveFlipped := false;
    ok, rootCauseChanged := ApplyText(record, req);
    if ok {
      sensitiveFlipped := ApplyRest(record, req);
    }
  }

  /** The timestamps of a row after a transition: the request's, and the completion time defaulted
      when the postmortem completes without one. */
  function TransitionTimes(t: Times, req: TransitionRequest, to: Status, now: Time): Times {
    var given := t.(mitigated := OrTime(req.mitigated, t.mitigated),
                    resolved := OrTime(req.resolved, t.resolved),
                    pmCompleted := OrTime(req.pmCompleted, t.pmCompleted));
    if to.PostmortemComplete? then given.(pmCompleted := Some(Or(given.pmCompleted, now))) else given
  }

  function Transitioned(r: Sev, req: TransitionRequest, to: Status, now: Time): Sev {
    r.(status := to, times := TransitionTimes(r.times, req, to, now), locked := to.PostmortemComplete?)
  }

  method ApplyTransitionTimestamps(record: SevRecord, req: TransitionRequest, to: Status, now: Time)
    modifies record`times, record`locked
    ensures record.times == TransitionTimes(old(record.times), req, to, now)
    ensures record.locked == to.PostmortemComplete?
    ensures record.times.started == old(record.times.started) && record.times.detected == old(record.times.detected)
    ensures record.times.mitigated == if req.mitigated.Some? then req.mitigated else old(record.times.mitigated)
    ensures record.times.resolved == if req.resolved.Some? then req.resolved else old(record.times.resolved)
    ensures record.times.pmCompleted == if req.pmCompleted.Some? then req.pmCompleted
                                        else if old(record.times.pmCompleted).None? && to == PostmortemComplete then Some(now)
                                        else old(record.times.pmCompleted)
  {
    if req.mitigated.Some? {
      record.times := record.times.(mitigated := req.mitigated);
    }
    if req.resolved.Some? {
      record.times := record.times.(resolved := req.resolved);
    }
    if req.pmCompleted.Some? {
      record.times := record.times.(pmCompleted := req.pmCompleted);
    }
    if to.PostmortemComplete? {
      if record.times.pmCompleted.None? {
        record.times := record.times.(pmCompleted := Some(now));
      }
      record.locked := true;
    } else {
      record.locked := false;
    }
  }

  // ---------- the handlers as steps ----------

  function NewRow(req: CreateRequest, callerId: string, now: Time): Sev
    requires 1 <= req.level <= 4
  {
    Sev(req.newId, req.title, req.level, Open, req.services, Given(req.details), req.tags,
        Times(req.started, req.detected, None, None, None), Metrics(None, None, None, None, None),
        false, req.sensitive, req.aiDisabled, now, now, callerId, None)
  }

  function Refresh(r: Sev): Sev {
    r.(metrics := Recomputed(r.times, r.metrics))
  }

  /** A row as the store keeps it; the handlers answer the row as they hold it. */
  function Stored(r: Sev, p: Precision): Sev {
    r.(times := KeptTimes(r.times, p), createdAt := Kept(r.createdAt, p), updatedAt := Kept(r.updatedAt, p))
  }

  /** CreateSEV. A failure to create the postmortem document is reported although the SEV exists. */
  function Create(w: World, req: CreateRequest, env: Env): (World, Result<Sev>) {
    var callerId := ActorOf(env.caller, req.createdBy);
    if req.title == "" || req.level < 1 || req.level > 4 || !VocabularyOk(req.details) then (w, Err(InvalidArgument))
    else if WriteFault in env.faults || req.newId in w.sevs then (w, Err(Internal))
    else
      var row := Refresh(NewRow(req, callerId, env.now));
      var grants :=
        if row.sensitive && GrantFault !in env.faults then w.grants + {(req.newId, callerId)} else w.grants;
      var w1 := w.(sevs := w.sevs[req.newId := Stored(row, w.precision)], grants := grants);
      if PostmortemFault in env.faults then (w1, Err(Internal))
      else (w1.(postmortems := w1.postmortems[req.newId := Postmortem("", Draft)]), Ok(row))
  }

  /** The fetch, the visibility rule and the lock, which UpdateSEV and TransitionStatus share. */
  function Admit(w: World, id: string, token: Token, env: Env): (r: Result<Sev>)
    ensures r.Ok? ==> id in w.sevs && r.value == w.sevs[id]
    ensures r.Ok? && r.value.locked ==> ValidateUnlock(token, id, w.signed, env.now).Ok?
  {
    if GetFault in env.faults then Err(Internal)
    else if id !in w.sevs then Err(NotFound)
    else
      var row := w.sevs[id];
      var visible := SensitiveSevVisible(row, env.caller, w.grants, AccessFault in env.faults);
      if visible.Err? then Err(Internal)
      else if !visible.value then Err(NotFound)
      else if row.locked then
        var unlocked := ValidateUnlock(token, id, w.signed, env.now);
        if unlocked.Err? then Err(unlocked.error) else Ok(row)
      else Ok(row)
  }

  function Update(w: World, req: UpdateRequest, env: Env): (World, Result<Sev>) {
    if req.id == "" then (w, Err(InvalidArgument))
    else
      var admitted := Admit(w, req.id, req.token, env);
      if admitted.Err? then (w, Err(admitted.error))
      else if !UpdateAcceptable(req) then (w, Err(InvalidArgument))
      else if WriteFault in env.faults then (w, Err(Internal))
      else
        var r := admitted.value;
        var row := UpdatedRow(r, req, env.now);
        var flipped := row.sensitive && !r.sensitive;
        var grants := if flipped && GrantFault !in env.faults then w.grants + {(r.id, r.createdBy)} else w.grants;
        (w.(sevs := w.sevs[req.id := Stored(row, w.precision)], grants := grants), Ok(row))
  }

  /** TransitionStatus. The history entry is written before the record, so a failed record update
      leaves an entry that never took effect. */
  function Transition(w: World, req: TransitionRequest, env: Env): (World, Result<Sev>) {
    if req.id == "" || req.to.None? then (w, Err(InvalidArgument))
    else
      var admitted := Admit(w, req.id, req.token, env);
      if admitted.Err? then (w, Err(admitted.error))
      else if !ValidTransition(admitted.value.status, req.to.value) then (w, Err(InvalidArgument))
      else if HistoryFault in env.faults then (w, Err(Internal))
      else
        var r := admitted.value;
        var w1 := w.(history := w.history + [Entry(r.id, r.status, req.to.value, ActorOf(env.caller, req.user), env.now)]);
        if WriteFault in env.faults then (w1, Err(Internal))
        else
          var row := TransitionedRow(r, req, req.to.value, env.now);
          (w1.(sevs := w1.sevs[req.id := Stored(row, w.precision)], committed := w1.committed + {|w.history|}), Ok(row))
  }

  function UpdatePostmortem(w: World, id: string, content: string, token: Token, env: Env): (World, Result<Postmortem>) {
    if id == "" then (w, Err(InvalidArgument))
    else if GetFault in env.faults then (w, Err(Internal))
    else if id !in w.sevs then (w, Err(NotFound))
    else if w.sevs[id].locked && ValidateUnlock(token, id, w.signed, env.now).Err? then
      (w, Err(ValidateUnlock(token, id, w.signed, env.now).error))
    else if id !in w.postmortems then (w, Err(NotFound))
    else if PostmortemFault in env.faults then (w, Err(Internal))
    else
      var pm := w.postmortems[id].(content := content);
      (w.(postmortems := w.postmortems[id := pm]), Ok(pm))
  }

  /** UnlockSEV: a token for a SEV that is locked now. */
  function Unlock(w: World, id: string, reason: string, env: Env): (World, Result<Claims>) {
    if id == "" || reason == "" then (w, Err(InvalidArgument))
    else if GetFault in env.faults then (w, Err(Internal))
    else if id !in w.sevs then (w, Err(NotFound))
    else if !w.sevs[id].locked then (w, Err(FailedPrecondition))
    else if SignFault in env.faults then (w, Err(Internal))
    else
      var claims := Sign(id, env.now);
      (w.(signed := w.signed + {claims}), Ok(claims))
  }

  /** The server's operations, and the two others that touch the same state: the document's own
      status and the scanner's marker. */
  datatype Action =
    | CreateSEV(create: CreateRequest, env: Env)
    | UpdateSEV(update: UpdateRequest, env: Env)
    | TransitionStatus(transition: TransitionRequest, env: Env)
    | EditPostmortem(id: string, content: string, token: Token, env: Env)
    | MoveDocument(id: string, to: DocumentStatus)
    | UnlockSEV(id: string, reason: string, env: Env)
    | MarkNotified(id: string, status: Option<SlaStatus>, at: Time)
    | SignOther(claims: Claims)

  function Step(w: World, a: Action): World {
    match a
    case CreateSEV(req, env) => Create(w, req, env).0
    case UpdateSEV(req, env) => Update(w, req, env).0
    case TransitionStatus(req, env) => Transition(w, req, env).0
    case EditPostmortem(id, content, token, env) => UpdatePostmortem(w, id, content, token, env).0
    case MoveDocument(id, to) =>
      if id in w.postmortems then w.(postmortems := w.postmortems[id := w.postmortems[id].(status := to)]) else w
    case UnlockSEV(id, reason, env) => Unlock(w, id, reason, env).0
    case MarkNotified(id, status, at) =>
      if id in w.sevs then w.(sevs := w.sevs[id := w.sevs[id].(slaNotified := status, updatedAt := at)]) else w
    case SignOther(claims) => if claims.scope.OtherScope? then w.(signed := w.signed + {claims}) else w
  }

  function Run(p: RowPrecision, actions: seq<Action>): World {
    if actions == [] then Empty(p) else Step(Run(p, actions[..|actions| - 1]), actions[|actions| - 1])
  }

  // ---------- the invariant ----------

  /** The status the first k entries leave a SEV in, counting only the entries that took effect. */
  function StatusAfter(h: seq<Entry>, committed: set<nat>, id: string, k: nat): Status
    requires k <= |h|
  {
    if k == 0 then Open
    else if k - 1 in committed && h[k - 1].sev == id then h[k - 1].to
    else StatusAfter(h, committed, id, k - 1)
  }

  /** Locked means completed and completed means locked; a locked record knows when it completed; the
      metrics are those of the timestamps that went in. */
  ghost predicate RowOk(p: Precision, id: string, r: Sev) {
    && r.id == id
    && (r.locked <==> r.status.PostmortemComplete?)
    && (r.locked ==> r.times.pmCompleted.Some?)
    && Recorded(r.times, r.metrics, p)
  }

  /** An entry is an edge of the graph, out of the status its SEV had at that point. */
  predicate EntryOk(statuses: map<string, Status>, h: seq<Entry>, committed: set<nat>, k: nat)
    requires k < |h|
  {
    && h[k].sev in statuses
    && ValidTransition(h[k].from, h[k].to)
    && h[k].from == StatusAfter(h, committed, h[k].sev, k)
  }

  /** Every entry is in order, and the statuses now are what the entries that took effect lead to. */
  ghost predicate HistoryOk(statuses: map<string, Status>, h: seq<Entry>, committed: set<nat>) {
    && (forall k: nat | k < |h| :: EntryOk(statuses, h, committed, k))
    && (forall k | k in committed :: k < |h|)
    && (forall id | id in statuses :: statuses[id] == StatusAfter(h, committed, id, |h|))
  }

  function Statuses(sevs: map<string, Sev>): map<string, Status> {
    map id | id in sevs :: sevs[id].status
  }

  ghost predicate Inv(w: World) {
    && RowsOk(w.precision, w.sevs)
    && HistoryOk(Statuses(w.sevs), w.history, w.committed)
  }

  // ---------- the history ----------

  lemma {:induction false} StatusAfterPrefix(h: seq<Entry>, c: set<nat>, h': seq<Entry>, c': set<nat>, id: string, k: nat)
    requires k <= |h| <= |h'| && h == h'[..|h|]
    requires forall i: nat | i < |h| :: i in c <==> i in c'
    ensures StatusAfter(h, c, id, k) == StatusAfter(h', c', id, k)
  {
    if k > 0 {
      StatusAfterPrefix(h, c, h', c', id, k - 1);
    }
  }

  lemma {:induction false} NoEntriesNoMoves(h: seq<Entry>, c: set<nat>, id: string, k: nat)
    requires k <= |h| && forall i: nat | i < |h| :: h[i].sev != id
    ensures StatusAfter(h, c, id, k) == Open
  {
    if k > 0 {
      NoEntriesNoMoves(h, c, id, k - 1);
    }
  }

  lemma NewSevStartsOpen(statuses: map<string, Status>, h: seq<Entry>, c: set<nat>, id: string)
    requires HistoryOk(statuses, h, c) && id !in statuses
    ensures HistoryOk(statuses[id := Open], h, c)
  {
    forall k: nat | k < |h|
      ensures h[k].sev != id && EntryOk(statuses[id := Open], h, c, k)
    {
      assert EntryOk(statuses, h, c, k);
    }
    NoEntriesNoMoves(h, c, id, |h|);
  }

  /** Appending an edge out of a SEV's present status keeps the history in order. Whether it counts
      depends on the record update alone: `c'` adds the new index or does not. */
  lemma AppendEntry(statuses: map<string, Status>, h: seq<Entry>, c: set<nat>, e: Entry, c': set<nat>)
    requires HistoryOk(statuses, h, c)
    requires e.sev in statuses && e.from == statuses[e.sev] && ValidTransition(e.from, e.to)
    requires c' == c || c' == c + {|h|}
    ensures HistoryOk(if |h| in c' then statuses[e.sev := e.to] else statuses, h + [e], c')
  {
    var h' := h + [e];
    var statuses' := if |h| in c' then statuses[e.sev := e.to] else statuses;
    forall k: nat | k < |h'|
      ensures EntryOk(statuses', h', c', k)
    {
      StatusAfterPrefix(h, c, h', c', h'[k].sev, k);
      if k < |h| {
        assert EntryOk(statuses, h, c, k);
      }
    }
    forall id | id in statuses'
      ensures statuses'[id] == StatusAfter(h', c', id, |h'|)
    {
      StatusAfterPrefix(h, c, h', c', id, |h|);
    }
  }

  // ---------- the steps keep the invariant ----------

  ghost predicate RowsOk(p: Precision, sevs: map<string, Sev>) {
    forall id | id in sevs :: RowOk(p, id, sevs[id])
  }

  /** Writing a row whose metrics were just recomputed. */
  lemma StoredRowOk(p: Precision, r: Sev)
    requires Consistent(r.times, r.metrics)
    requires r.locked <==> r.status.PostmortemComplete?
    requires r.locked ==> r.times.pmCompleted.Some?
    ensures RowOk(p, r.id, Stored(r, p))
  {
    assert KeptTimes(r.times, p) == Stored(r, p).times;
  }

  lemma RefreshedRowOk(p: RowPrecision, r: Sev, edited: Sev)
    requires RowOk(p, r.id, r) && edited.id == r.id && edited.metrics == r.metrics && TimesKept(r.times, edited.times)
    requires edited.locked <==> edited.status.PostmortemComplete?
    requires edited.locked ==> edited.times.pmCompleted.Some?
    ensures RowOk(p, r.id, Stored(Refresh(edited), p))
  {
    RecordedIsNearlyConsistent(r.times, r.metrics, p);
    RecomputingKeepsConsistency(r.times, r.metrics, edited.times);
    StoredRowOk(p, Refresh(edited));
  }

  lemma NewRowOk(p: Precision, req: CreateRequest, callerId: string, now: Time)
    requires 1 <= req.level <= 4
    ensures RowOk(p, req.newId, Stored(Refresh(NewRow(req, callerId, now)), p))
  {
    StoredRowOk(p, Refresh(NewRow(req, callerId, now)));
  }

  lemma WritingARow(p: Precision, sevs: map<string, Sev>, id: string, row: Sev)
    requires RowsOk(p, sevs) && RowOk(p, id, row)
    ensures RowsOk(p, sevs[id := row]) && Statuses(sevs[id := row]) == Statuses(sevs)[id := row.status]
  {
  }

  /** A creation adds one row or nothing. */
  lemma CreateShape(w: World, req: CreateRequest, env: Env)
    ensures var w' := Create(w, req, env).0;
      && w'.history == w.history && w'.committed == w.committed && w'.precision == w.precision
      && (w'.sevs == w.sevs
          || (&& req.newId !in w.sevs && 1 <= req.level <= 4
              && var row := Refresh(NewRow(req, ActorOf(env.caller, req.createdBy), env.now));
                 w'.sevs == w.sevs[req.newId := Stored(row, w.precision)]))
  {
  }

  /** Exactly when a creation that is answered with an error leaves the SEV behind: when the row went in
      and the postmortem document did not. */
  lemma FailedCreationLeavesTheSev(w: World, req: CreateRequest, env: Env)
    requires req.newId !in w.sevs
    ensures var after := Create(w, req, env);
      after.1.Err? && req.newId in after.0.sevs
      <==> && req.title != "" && 1 <= req.level <= 4 && VocabularyOk(req.details)
           && WriteFault !in env.faults && PostmortemFault in env.faults
  {
  }

  lemma CreateKeepsInv(w: World, req: CreateRequest, env: Env)
    requires Inv(w)
    ensures Inv(Create(w, req, env).0)
  {
    CreateShape(w, req, env);
    var w' := Create(w, req, env).0;
    if w'.sevs != w.sevs {
      NewRowOk(w.precision, req, ActorOf(env.caller, req.createdBy), env.now);
      NewSevStartsOpen(Statuses(w.sevs), w.history, w.committed, req.newId);
      WritingARow(w.precision, w.sevs, req.newId, w'.sevs[req.newId]);
    }
  }

  /** The row a successful update answers and stores. */
  function UpdatedRow(r: Sev, req: UpdateRequest, now: Time): Sev
    requires UpdateAcceptable(req)
  {
    Refresh(Updated(r, req).(updatedAt := now))
  }

  lemma UpdatedRowOk(p: RowPrecision, r: Sev, req: UpdateRequest, now: Time)
    requires RowOk(p, r.id, r) && UpdateAcceptable(req)
    ensures RowOk(p, r.id, Stored(UpdatedRow(r, req, now), p)) && UpdatedRow(r, req, now).status == r.status
  {
    RefreshedRowOk(p, r, Updated(r, req).(updatedAt := now));
  }

  /** An update writes one row or nothing. */
  lemma UpdateShape(w: World, req: UpdateRequest, env: Env)
    ensures var w' := Update(w, req, env).0;
      && w'.history == w.history && w'.committed == w.committed && w'.precision == w.precision
      && (w'.sevs == w.sevs
          || (&& req.id in w.sevs && UpdateAcceptable(req)
              && w'.sevs == w.sevs[req.id := Stored(UpdatedRow(w.sevs[req.id], req, env.now), w.precision)]))
  {
  }

  lemma UpdateKeepsInv(w: World, req: UpdateRequest, env: Env)
    requires Inv(w)
    ensures Inv(Update(w, req, env).0)
  {
    UpdateShape(w, req, env);
    var w' := Update(w, req, env).0;
    if w'.sevs != w.sevs {
      var row := Stored(UpdatedRow(w.sevs[req.id], req, env.now), w.precision);
      assert RowOk(w.precision, req.id, w.sevs[req.id]);
      UpdatedRowOk(w.precision, w.sevs[req.id], req, env.now);
      WritingARow(w.precision, w.sevs, req.id, row);
      assert Statuses(w.sevs)[req.id := row.status] == Statuses(w.sevs);
    }
  }

  /** The row a successful transition answers and stores. */
  function TransitionedRow(r: Sev, req: TransitionRequest, to: Status, now: Time): Sev {
    Refresh(Transitioned(r, req, to, now)).(updatedAt := now)
  }

  lemma TransitionedRowOk(p: RowPrecision, r: Sev, req: TransitionRequest, to: Status, now: Time)
    requires RowOk(p, r.id, r)
    ensures RowOk(p, r.id, Stored(TransitionedRow(r, req, to, now), p)) && TransitionedRow(r, req, to, now).status == to
  {
    RefreshedRowOk(p, r, Transitioned(r, req, to, now).(updatedAt := now));
  }

  /** A transition does nothing, or appends one edge and writes the row that goes with it, or appends
      the edge alone. */
  lemma TransitionShape(w: World, req: TransitionRequest, env: Env)
    ensures var w' := Transition(w, req, env).0;
      || w' == w
      || (&& req.id in w.sevs && req.to.Some? && ValidTransition(w.sevs[req.id].status, req.to.value)
          && var r := w.sevs[req.id];
             var e := Entry(r.id, r.status, req.to.value, ActorOf(env.caller, req.user), env.now);
             || w' == w.(history := w.history + [e])
             || w' == w.(history := w.history + [e], committed := w.committed + {|w.history|},
                         sevs := w.sevs[req.id := Stored(TransitionedRow(r, req, req.to.value, env.now), w.precision)]))
  {
  }

  lemma TransitionKeepsInv(w: World, req: TransitionRequest, env: Env)
    requires Inv(w)
    ensures Inv(Transition(w, req, env).0)
  {
    TransitionShape(w, req, env);
    if Transition(w, req, env).0 != w {
      var r := w.sevs[req.id];
      assert RowOk(w.precision, req.id, r);
      var e := Entry(r.id, r.status, req.to.value, ActorOf(env.caller, req.user), env.now);
      TransitionedRowOk(w.precision, r, req, req.to.value, env.now);
      EdgeAloneKeepsInv(w, e);
      EdgeWithRowKeepsInv(w, Stored(TransitionedRow(r, req, req.to.value, env.now), w.precision), e);
    }
  }

  /** Appending an edge out of the present status keeps the invariant when the row is not written. */
  lemma EdgeAloneKeepsInv(w: World, e: Entry)
    requires Inv(w) && e.sev in w.sevs && e.from == w.sevs[e.sev].status && ValidTransition(e.from, e.to)
    ensures Inv(w.(history := w.history + [e]))
  {
    AppendEntry(Statuses(w.sevs), w.history, w.committed, e, w.committed);
  }

  /** And when the row that goes with it is. */
  lemma EdgeWithRowKeepsInv(w: World, row: Sev, e: Entry)
    requires Inv(w) && e.sev in w.sevs && e.from == w.sevs[e.sev].status && ValidTransition(e.from, e.to)
    requires RowOk(w.precision, e.sev, row) && e.to == row.status
    ensures Inv(w.(history := w.history + [e], sevs := w.sevs[e.sev := row], committed := w.committed + {|w.history|}))
  {
    AppendEntry(Statuses(w.sevs), w.history, w.committed, e, w.committed + {|w.history|});
    WritingARow(w.precision, w.sevs, e.sev, row);
  }

  lemma MarkKeepsInv(w: World, id: string, status: Option<SlaStatus>, at: Time)
    requires Inv(w) && id in w.sevs
    ensures Inv(w.(sevs := w.sevs[id := w.sevs[id].(slaNotified := status, updatedAt := at)]))
  {
    var row := w.sevs[id].(slaNotified := status, updatedAt := at);
    WritingARow(w.precision, w.sevs, id, row);
    assert Statuses(w.sevs)[id := row.status] == Statuses(w.sevs);
  }

  /** The operations that leave records and history alone. */
  predicate Aside(a: Action) {
    a.EditPostmortem? || a.MoveDocument? || a.UnlockSEV? || a.SignOther?
  }

  lemma AsideShape(w: World, a: Action)
    requires Aside(a)
    ensures var w' := Step(w, a);
      w' == w.(postmortems := w'.postmortems, signed := w'.signed)
  {
  }

  lemma AsideKeepsInv(w: World, postmortems: map<string, Postmortem>, signed: set<Claims>)
    requires Inv(w)
    ensures Inv(w.(postmortems := postmortems, signed := signed))
  {
  }

  /** Every operation keeps the invariant, whatever fails in it. */
  lemma StepKeepsInv(w: World, a: Action)
    requires Inv(w)
    ensures Inv(Step(w, a))
  {
    match a
    case CreateSEV(req, env) => CreateKeepsInv(w, req, env);
    case UpdateSEV(req, env) => UpdateKeepsInv(w, req, env);
    case TransitionStatus(req, env) => TransitionKeepsInv(w, req, env);
    case MarkNotified(id, status, at) =>
      if id in w.sevs {
        MarkKeepsInv(w, id, status, at);
      }
    case _ =>
      AsideShape(w, a);
      AsideKeepsInv(w, Step(w, a).postmortems, Step(w, a).signed);
  }

  lemma StepKeepsPrecision(w: World, a: Action)
    ensures Step(w, a).precision == w.precision
  {
  }

  /** In every reachable state the lock tracks the status, the metrics track the timestamps and the
      history tracks the moves. */
  lemma {:induction false} RunsKeepInv(p: RowPrecision, actions: seq<Action>)
    ensures Inv(Run(p, actions)) && Run(p, actions).precision == p
  {
    if actions != [] {
      RunsKeepInv(p, actions[..|actions| - 1]);
      var w, a := Run(p, actions[..|actions| - 1]), actions[|actions| - 1];
      StepKeepsInv(w, a);
      StepKeepsPrecision(w, a);
    }
  }
}
