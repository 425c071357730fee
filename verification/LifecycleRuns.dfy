/** What every run of the lifecycle handlers guarantees. */
module LifecycleRuns {
  import opened Wrappers
  import opened Clock
  import opened SevModel
  import opened MetricsModel
  import opened UnlockTokens
  import opened Lifecycle

  /** The state after the first n actions. */
  function After(p: RowPrecision, actions: seq<Action>, n: nat): World
    requires n <= |actions|
  {
    Run(p, actions[..n])
  }

  lemma AfterStep(p: RowPrecision, actions: seq<Action>, n: nat)
    requires n < |actions|
    ensures After(p, actions, n + 1) == Step(After(p, actions, n), actions[n])
  {
    assert actions[..n + 1][..n] == actions[..n];
  }

  // ---------- records ----------

  /** A record in any reachable state is locked exactly when its postmortem is complete, then knows
      when it completed, and carries metrics that are absent exactly when a stored timestamp is, and
      otherwise within a second of their difference. */
  lemma ReachableRecord(p: RowPrecision, actions: seq<Action>, id: string)
    requires id in Run(p, actions).sevs
    ensures var r := Run(p, actions).sevs[id];
      && (r.locked <==> r.status.PostmortemComplete?)
      && (r.locked ==> r.times.pmCompleted.Some?)
      && Recorded(r.times, r.metrics, p)
      && Present(r.times, r.metrics) && NearlyConsistent(r.times, r.metrics)
  {
    RunsKeepInv(p, actions);
    var r := Run(p, actions).sevs[id];
    assert RowOk(p, id, r);
    RecordedIsNearlyConsistent(r.times, r.metrics, p);
  }

  // ---------- the history ----------

  /** The entries of one SEV, among the first k, that took effect. */
  function Moves(h: seq<Entry>, committed: set<nat>, id: string, k: nat): seq<Entry>
    requires k <= |h|
  {
    if k == 0 then []
    else if k - 1 in committed && h[k - 1].sev == id then Moves(h, committed, id, k - 1) + [h[k - 1]]
    else Moves(h, committed, id, k - 1)
  }

  /** A path through the status graph that starts at open and ends at `end`. */
  predicate IsWalk(moves: seq<Entry>, end: Status) {
    if moves == [] then end.Open?
    else
      var last := moves[|moves| - 1];
      last.to == end && ValidTransition(last.from, last.to) && IsWalk(moves[..|moves| - 1], last.from)
  }

  lemma WalkGoesOn(moves: seq<Entry>, e: Entry)
    requires IsWalk(moves, e.from) && ValidTransition(e.from, e.to)
    ensures IsWalk(moves + [e], e.to)
  {
    assert (moves + [e])[..|moves|] == moves;
  }

  lemma {:induction false} MovesWalk(statuses: map<string, Status>, h: seq<Entry>, c: set<nat>, id: string, k: nat)
    requires k <= |h| && forall i: nat | i < |h| :: EntryOk(statuses, h, c, i)
    ensures IsWalk(Moves(h, c, id, k), StatusAfter(h, c, id, k))
  {
    if k > 0 {
      MovesWalk(statuses, h, c, id, k - 1);
      if k - 1 in c && h[k - 1].sev == id {
        assert EntryOk(statuses, h, c, k - 1);
        WalkGoesOn(Moves(h, c, id, k - 1), h[k - 1]);
      }
    }
  }

  /** In every reachable state the entries of a SEV whose record update went through form a walk from
      open to its present status. */
  lemma CommittedHistoryIsAWalk(p: RowPrecision, actions: seq<Action>, id: string)
    requires id in Run(p, actions).sevs
    ensures var w := Run(p, actions);
      IsWalk(Moves(w.history, w.committed, id, |w.history|), w.sevs[id].status)
  {
    RunsKeepInv(p, actions);
    var w := Run(p, actions);
    MovesWalk(Statuses(w.sevs), w.history, w.committed, id, |w.history|);
  }

  /** History only grows, and what a step appends is an edge of the graph out of the status the SEV
      had when the step began. */
  lemma StepHistory(w: World, a: Action)
    requires Inv(w)
    ensures var w' := Step(w, a);
      || w'.history == w.history
      || (&& |w'.history| == |w.history| + 1 && w'.history[..|w.history|] == w.history
          && var e := w'.history[|w.history|];
             e.sev in w.sevs && e.from == w.sevs[e.sev].status && ValidTransition(e.from, e.to))
  {
    match a
    case TransitionStatus(req, env) =>
      TransitionShape(w, req, env);
      if Transition(w, req, env).0 != w {
        assert RowOk(w.precision, req.id, w.sevs[req.id]);
      }
    case UpdateSEV(req, env) => UpdateShape(w, req, env);
    case CreateSEV(req, env) => CreateShape(w, req, env);
    case MarkNotified(id, status, at) =>
    case _ => AsideShape(w, a);
  }

  /** Every entry of a reachable history was written by one action of the run, as a legal edge out of
      the status its SEV had just before that action; failed writes change nothing about that. */
  lemma {:induction false} EveryEntryWasLegalWhenWritten(p: RowPrecision, actions: seq<Action>, n: nat, k: nat)
    requires n <= |actions| && k < |After(p, actions, n).history|
    ensures exists i: nat {:trigger After(p, actions, i)} | i < n ::
      && var w := After(p, actions, i);
         var e := After(p, actions, n).history[k];
         |w.history| == k && e.sev in w.sevs && e.from == w.sevs[e.sev].status && ValidTransition(e.from, e.to)
  {
    assert After(p, actions, 0) == Empty(p);
    if n > 0 {
      AfterStep(p, actions, n - 1);
      var w, w' := After(p, actions, n - 1), After(p, actions, n);
      RunsKeepInv(p, actions[..n - 1]);
      StepHistory(w, actions[n - 1]);
      if k < |w.history| {
        EveryEntryWasLegalWhenWritten(p, actions, n - 1, k);
        assert w'.history[k] == w.history[k];
      }
    }
  }

  // ---------- the lock ----------

  /** Everything about a record but the scanner's marker and the modification time that goes with it. */
  function ExceptMarker(r: Sev): Sev {
    r.(slaNotified := None, updatedAt := 0)
  }

  /** The record and the postmortem text of a SEV are the same in both states. */
  predicate Untouched(w: World, w': World, id: string) {
    && (id in w.sevs ==> id in w'.sevs && ExceptMarker(w'.sevs[id]) == ExceptMarker(w.sevs[id]))
    && (id in w.postmortems ==> id in w'.postmortems && w'.postmortems[id].content == w.postmortems[id].content)
    && (id !in w.postmortems ==> id !in w'.postmortems)
  }

  /** The SEV an action edits, the token it carries and when it happens, for the three editing calls. */
  function Edits(a: Action): Option<(string, Token, Time)> {
    match a
    case UpdateSEV(req, env) => Some((req.id, req.token, env.now))
    case TransitionStatus(req, env) => Some((req.id, req.token, env.now))
    case EditPostmortem(id, _, token, env) => Some((id, token, env.now))
    case _ => None
  }

  predicate Authorised(w: World, a: Action, id: string) {
    Edits(a).Some? && Edits(a).value.0 == id && ValidateUnlock(Edits(a).value.1, id, w.signed, Edits(a).value.2).Ok?
  }

  lemma LockedUpdate(w: World, req: UpdateRequest, env: Env, id: string)
    requires id in w.sevs && w.sevs[id].locked
    ensures Untouched(w, Update(w, req, env).0, id) || Authorised(w, Action.UpdateSEV(req, env), id)
  {
    if req.id != id {
      UpdateShape(w, req, env);
    }
  }

  lemma LockedTransition(w: World, req: TransitionRequest, env: Env, id: string)
    requires id in w.sevs && w.sevs[id].locked
    ensures Untouched(w, Transition(w, req, env).0, id) || Authorised(w, Action.TransitionStatus(req, env), id)
  {
    if req.id != id {
      TransitionShape(w, req, env);
    }
  }

  lemma LockedCreate(w: World, req: CreateRequest, env: Env, id: string)
    requires id in w.sevs
    ensures Untouched(w, Create(w, req, env).0, id)
  {
  }

  /** A locked SEV is touched only by an edit of that SEV whose token passes validation. */
  lemma LockedChangesOnlyWithToken(w: World, a: Action, id: string)
    requires id in w.sevs && w.sevs[id].locked
    ensures Untouched(w, Step(w, a), id) || Authorised(w, a, id)
  {
    match a
    case TransitionStatus(req, env) => LockedTransition(w, req, env, id);
    case UpdateSEV(req, env) => LockedUpdate(w, req, env, id);
    case CreateSEV(req, env) => LockedCreate(w, req, env, id);
    case _ =>
  }

  /** The claims an action signs for unlocking, if it does. */
  function Issues(w: World, a: Action): Option<Claims> {
    if a.UnlockSEV? && Unlock(w, a.id, a.reason, a.env).1.Ok? then Some(Unlock(w, a.id, a.reason, a.env).1.value)
    else None
  }

  lemma StepSigns(w: World, a: Action, c: Claims)
    requires c in Step(w, a).signed && c.scope.UnlockScope?
    ensures c in w.signed || Issues(w, a) == Some(c)
  {
  }

  /** Unlock tokens exist only because UnlockSEV issued them, for a SEV that was locked then. */
  lemma {:induction false} TokensWereIssued(p: RowPrecision, actions: seq<Action>, n: nat, c: Claims)
    requires n <= |actions| && c in After(p, actions, n).signed && c.scope.UnlockScope?
    ensures exists i: nat {:trigger After(p, actions, i)} | i < n :: Issues(After(p, actions, i), actions[i]) == Some(c)
  {
    assert After(p, actions, 0) == Empty(p);
    if n > 0 {
      AfterStep(p, actions, n - 1);
      StepSigns(After(p, actions, n - 1), actions[n - 1], c);
      if c in After(p, actions, n - 1).signed {
        TokensWereIssued(p, actions, n - 1, c);
      }
    }
  }

  /** Action i is an UnlockSEV of this SEV, locked at that moment, made less than fifteen minutes
      before the instant `now`, and it returned the token. */
  predicate IssuedFor(p: RowPrecision, actions: seq<Action>, i: nat, id: string, token: Token, now: Time)
    requires i < |actions|
  {
    && actions[i].UnlockSEV? && actions[i].id == id
    && id in After(p, actions, i).sevs && After(p, actions, i).sevs[id].locked
    && token.Token? && Issues(After(p, actions, i), actions[i]) == Some(token.claims)
    && now < actions[i].env.now + TTL
  }

  /** Over every run: while a SEV is locked, an action that changes its record (beyond the scanner's
      marker) or its postmortem text is an edit of that SEV carrying a token that an earlier action of
      the run issued for that same SEV less than fifteen minutes before. */
  lemma LockHolds(p: RowPrecision, actions: seq<Action>, j: nat, id: string)
    requires j < |actions| && id in After(p, actions, j).sevs && After(p, actions, j).sevs[id].locked
    requires !Untouched(After(p, actions, j), After(p, actions, j + 1), id)
    ensures Edits(actions[j]).Some? && Edits(actions[j]).value.0 == id
    ensures exists i: nat | i < j :: IssuedFor(p, actions, i, id, Edits(actions[j]).value.1, Edits(actions[j]).value.2)
  {
    AfterStep(p, actions, j);
    LockedChangesOnlyWithToken(After(p, actions, j), actions[j], id);
    var token, now := Edits(actions[j]).value.1, Edits(actions[j]).value.2;
    TokensWereIssued(p, actions, j, token.claims);
    var i: nat :| i < j && Issues(After(p, actions, i), actions[i]) == Some(token.claims);
    assert IssuedFor(p, actions, i, id, token, now);
  }

  // ---------- the handlers ----------

  /** The stores and the handlers that edit a private copy of a row and write it back. Each handler
      does exactly what its step does, in the order and with the failures of the source. */
  class SevServer {
    var sevs: map<string, Sev>
    var postmortems: map<string, Postmortem>
    var history: seq<Entry>
    ghost var committed: set<nat>
    var grants: Grants
    var signed: set<Claims>
    const precision: RowPrecision

    ghost function State(): World
      reads this
    {
      World(sevs, postmortems, history, committed, grants, signed, precision)
    }

    constructor (precision: RowPrecision)
      ensures State() == Empty(precision)
    {
      this.precision := precision;
      sevs, postmortems, history, committed, grants, signed := map[], map[], [], {}, {}, {};
    }

    method Fetch(id: string, token: Token, env: Env) returns (r: Result<SevRecord>)
      ensures r.Ok? <==> Admit(State(), id, token, env).Ok?
      ensures r.Err? ==> r.error == Admit(State(), id, token, env).error
      ensures r.Ok? ==> fresh(r.value) && r.value.Row() == Admit(State(), id, token, env).value
    {
      if GetFault in env.faults {
        return Err(Internal);
      }
      if id !in sevs {
        return Err(NotFound);
      }
      var record := new SevRecord(sevs[id]);
      var visible := SensitiveSevVisible(sevs[id], env.caller, grants, AccessFault in env.faults);
      if visible.Err? {
        return Err(Internal);
      }
      if !visible.value {
        return Err(NotFound);
      }
      if record.locked {
        var unlocked := ValidateUnlock(token, id, signed, env.now);
        if unlocked.Err? {
          return Err(unlocked.error);
        }
      }
      r := Ok(record);
    }

    method CreateSEV(req: CreateRequest, env: Env) returns (r: Result<Sev>)
      modifies this
      ensures (State(), r) == Create(old(State()), req, env)
    {
      if req.title == "" {
        return Err(InvalidArgument);
      }
      if req.level < 1 || req.level > 4 {
        return Err(InvalidArgument);
      }
      if !VocabularyOk(req.details) {
        return Err(InvalidArgument);
      }
      var callerId := ActorOf(env.caller, req.createdBy);
      var record := new SevRecord(NewRow(req, callerId, env.now));
      record.ComputeMetrics();
      if WriteFault in env.faults || req.newId in sevs {
        return Err(Internal);
      }
      sevs := sevs[req.newId := Stored(record.Row(), precision)];
      if record.sensitive && GrantFault !in env.faults {
        grants := grants + {(req.newId, callerId)};
      }
      if PostmortemFault in env.faults {
        return Err(Internal);
      }
      postmortems := postmortems[req.newId := Postmortem("", Draft)];
      r := Ok(record.Row());
    }

    method UpdateSEV(req: UpdateRequest, env: Env) returns (r: Result<Sev>)
      modifies this
      ensures (State(), r) == Update(old(State()), req, env)
    {
      if req.id == "" {
        return Err(InvalidArgument);
      }
      var fetched := Fetch(req.id, req.token, env);
      if fetched.Err? {
        return Err(fetched.error);
      }
      var record := fetched.value;
      ghost var row := record.Row();
      var ok, _, sensitiveFlipped := ApplySEVUpdate(record, req);
      if !ok {
        return Err(InvalidArgument);
      }
      record.updatedAt := env.now;
      record.ComputeMetrics();
      assert record.Row() == UpdatedRow(row, req, env.now);
      if WriteFault in env.faults {
        return Err(Internal);
      }
      sevs := sevs[req.id := Stored(record.Row(), precision)];
      if sensitiveFlipped && GrantFault !in env.faults {
        grants := grants + {(record.id, record.createdBy)};
      }
      r := Ok(record.Row());
    }

    method TransitionStatus(req: TransitionRequest, env: Env) returns (r: Result<Sev>)
      modifies this
      ensures (State(), r) == Transition(old(State()), req, env)
    {
      if req.id == "" || req.to.None? {
        return Err(InvalidArgument);
      }
      var to := req.to.value;
      var fetched := Fetch(req.id, req.token, env);
      if fetched.Err? {
        return Err(fetched.error);
      }
      var record := fetched.value;
      ghost var row := record.Row();
      if !ValidTransition(record.status, to) {
        return Err(InvalidArgument);
      }
      var fromStatus := record.status;
      MoveRecord(record, req, to, env.now);
      if HistoryFault in env.faults {
        return Err(Internal);
      }
      history := history + [Entry(record.id, fromStatus, to, ActorOf(env.caller, req.user), env.now)];
      if WriteFault in env.faults {
        return Err(Internal);
      }
      sevs := sevs[req.id := Stored(record.Row(), precision)];
      committed := committed + {|history| - 1};
      r := Ok(record.Row());
    }

    /** The record of a transition, changed in place. */
    method MoveRecord(record: SevRecord, req: TransitionRequest, to: Status, now: Time)
      modifies record
      ensures record.Row() == TransitionedRow(old(record.Row()), req, to, now)
    {
      record.status := to;
      ApplyTransitionTimestamps(record, req, to, now);
      record.ComputeMetrics();
      record.updatedAt := now;
    }

    method EditPostmortem(id: string, content: string, token: Token, env: Env) returns (r: Result<Postmortem>)
      modifies this`postmortems
      ensures (State(), r) == UpdatePostmortem(old(State()), id, content, token, env)
    {
      if id == "" {
        return Err(InvalidArgument);
      }
      if GetFault in env.faults {
        return Err(Internal);
      }
      if id !in sevs {
        return Err(NotFound);
      }
      if sevs[id].locked {
        var unlocked := ValidateUnlock(token, id, signed, env.now);
        if unlocked.Err? {
          return Err(unlocked.error);
        }
      }
      if id !in postmortems {
        return Err(NotFound);
      }
      var pm := postmortems[id].(content := content);
      if PostmortemFault in env.faults {
        return Err(Internal);
      }
      postmortems := postmortems[id := pm];
      r := Ok(pm);
    }

    method UnlockSEV(id: string, reason: string, env: Env) returns (r: Result<Claims>)
      modifies this`signed
      ensures (State(), r) == Unlock(old(State()), id, reason, env)
    {
      if id == "" || reason == "" {
        return Err(InvalidArgument);
      }
      if GetFault in env.faults {
        return Err(Internal);
      }
      if id !in sevs {
        return Err(NotFound);
      }
      if !sevs[id].locked {
        return Err(FailedPrecondition);
      }
      if SignFault in env.faults {
        return Err(Internal);
      }
      var claims := Sign(id, env.now);
      signed := signed + {claims};
      r := Ok(claims);
    }
  }
}
