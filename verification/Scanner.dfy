/** The SLA risk scanner: a batched evaluation of the open SEVs and a notify-once marker per SEV
    (scanSLARisk and notifySLAStatus in cmd/server/main.go). */
module Scanner {
  import opened Wrappers
  import opened Clock
  import opened Ordering
  import opened SevModel
  import opened Sla
  import opened SlaLookup
  import opened SevStore

  type Marker = Option<SlaStatus>

  // ---------- the marker of one SEV ----------

  /** The notification an evaluation calls for, given what was notified already. */
  function Fires(already: Marker, overall: SlaStatus): Option<SlaStatus> {
    if overall.Breached? && already != Some(Breached) then Some(Breached)
    else if overall.AtRisk? && already.None? then Some(AtRisk)
    else None
  }

  /** One evaluation of one SEV: its status, and whether the marker write, if one is made, goes through. */
  datatype Evaluated = Evaluated(overall: SlaStatus, writeOk: bool)

  function NextMarker(m: Marker, e: Evaluated): Marker {
    if Fires(m, e.overall).Some? && e.writeOk then Fires(m, e.overall) else m
  }

  function NextSent(m: Marker, e: Evaluated): seq<SlaStatus> {
    if Fires(m, e.overall).Some? then [Fires(m, e.overall).value] else []
  }

  /** The marker after a run of evaluations of a SEV that was never notified before. */
  function MarkerAfter(run: seq<Evaluated>): Marker {
    if run == [] then None else NextMarker(MarkerAfter(run[..|run| - 1]), run[|run| - 1])
  }

  /** The notifications those evaluations sent, in order. */
  function SentBy(run: seq<Evaluated>): seq<SlaStatus> {
    if run == [] then []
    else SentBy(run[..|run| - 1]) + NextSent(MarkerAfter(run[..|run| - 1]), run[|run| - 1])
  }

  /** The marker writes that were attempted and failed. */
  function FailedWrites(run: seq<Evaluated>): nat {
    if run == [] then 0
    else
      var m, e := MarkerAfter(run[..|run| - 1]), run[|run| - 1];
      FailedWrites(run[..|run| - 1]) + (if Fires(m, e.overall).Some? && !e.writeOk then 1 else 0)
  }

  function Severity(m: Marker): nat {
    if m.None? then 0 else Rank(m.value) - (if m.value.NotApplicable? then 0 else 1)
  }

  lemma {:induction false} MarkerValues(run: seq<Evaluated>)
    ensures MarkerAfter(run) in {None, Some(AtRisk), Some(Breached)}
  {
    if run != [] {
      MarkerValues(run[..|run| - 1]);
    }
  }

  /** The marker only ever moves up: never notified, at risk, breached. */
  lemma {:induction false} MarkerOnlyRises(run: seq<Evaluated>, i: nat)
    requires i <= |run|
    ensures Severity(MarkerAfter(run[..i])) <= Severity(MarkerAfter(run)) <= 2
    decreases |run|
  {
    MarkerValues(run);
    MarkerValues(run[..i]);
    if i < |run| {
      assert run[..|run| - 1][..i] == run[..i];
      MarkerOnlyRises(run[..|run| - 1], i);
      MarkerValues(run[..|run| - 1]);
    } else {
      assert run[..i] == run;
    }
  }

  /** Each notification either raises the marker for good or is followed by a failed write, so there
      are at most two more of them than there are failed writes. */
  lemma {:induction false} NotificationsBounded(run: seq<Evaluated>)
    ensures |SentBy(run)| <= Severity(MarkerAfter(run)) + FailedWrites(run) <= 2 + FailedWrites(run)
  {
    MarkerOnlyRises(run, 0);
    if run != [] {
      NotificationsBounded(run[..|run| - 1]);
      MarkerValues(run[..|run| - 1]);
    }
  }

  /** When no marker write fails, each level is notified at most once and at-risk never after breached. */
  lemma {:induction false} NotifiedOncePerLevel(run: seq<Evaluated>)
    requires FailedWrites(run) == 0
    ensures SentBy(run) in {[], [AtRisk], [Breached], [AtRisk, Breached]}
    ensures MarkerAfter(run) == if SentBy(run) == [] then None else Some(SentBy(run)[|SentBy(run)| - 1])
  {
    if run != [] {
      NotifiedOncePerLevel(run[..|run| - 1]);
      var before, m, e := SentBy(run[..|run| - 1]), MarkerAfter(run[..|run| - 1]), run[|run| - 1];
      assert before + NextSent(m, e) == if Fires(m, e.overall).None? then before
                                        else if before == [] then [Fires(m, e.overall).value] else [AtRisk, Breached];
    }
  }

  /** One failed write is enough to notify a level twice. */
  lemma FailedWriteRepeats()
    ensures SentBy([Evaluated(AtRisk, false), Evaluated(AtRisk, true)]) == [AtRisk, AtRisk]
  {
    var run := [Evaluated(AtRisk, false), Evaluated(AtRisk, true)];
    assert run[..1] == [Evaluated(AtRisk, false)] && run[..1][..0] == [];
  }

  /** Some evaluation at one of these levels had its marker write go through. */
  ghost predicate Written(run: seq<Evaluated>, levels: set<SlaStatus>) {
    exists e | e in run :: e.overall in levels && e.writeOk
  }

  lemma WrittenGrows(run: seq<Evaluated>, levels: set<SlaStatus>)
    requires run != []
    ensures var init, e := run[..|run| - 1], run[|run| - 1];
      Written(run, levels) <==> Written(init, levels) || (e.overall in levels && e.writeOk)
  {
    var init, e := run[..|run| - 1], run[|run| - 1];
    assert forall x :: x in run <==> x in init || x == e;
  }

  /** The marker is the worst level whose write went through. */
  lemma {:induction false} MarkerIsWorstWritten(run: seq<Evaluated>)
    ensures MarkerAfter(run) == if Written(run, {Breached}) then Some(Breached)
                                else if Written(run, {AtRisk}) then Some(AtRisk) else None
  {
    if run != [] {
      MarkerIsWorstWritten(run[..|run| - 1]);
      WrittenGrows(run, {Breached});
      WrittenGrows(run, {AtRisk});
    }
  }

  /** Evaluation i calls for a notification: a breach that no earlier write recorded, or a risk with
      neither recorded. */
  ghost predicate CallsFor(run: seq<Evaluated>, i: nat, level: SlaStatus)
    requires i < |run|
  {
    && run[i].overall == level
    && ((level.Breached? && !Written(run[..i], {Breached}))
        || (level.AtRisk? && !Written(run[..i], {AtRisk}) && !Written(run[..i], {Breached})))
  }

  lemma OneMoreCall(run: seq<Evaluated>, i: nat, level: SlaStatus)
    requires run != [] && i < |run| - 1
    ensures CallsFor(run, i, level) <==> CallsFor(run[..|run| - 1], i, level)
  {
    assert run[..|run| - 1][..i] == run[..i];
  }

  /** A run sends one notification for every evaluation that calls for one, of that level and in that
      order. */
  ghost function Calls(run: seq<Evaluated>): seq<SlaStatus> {
    if run == [] then []
    else
      var n, level := |run| - 1, run[|run| - 1].overall;
      Calls(run[..n]) + (if CallsFor(run, n, level) then [level] else [])
  }

  lemma {:induction false} SentAsCalledFor(run: seq<Evaluated>)
    ensures SentBy(run) == Calls(run)
  {
    if run != [] {
      SentAsCalledFor(run[..|run| - 1]);
      MarkerIsWorstWritten(run[..|run| - 1]);
    }
  }

  lemma {:induction false} SentWhenCalledFor(run: seq<Evaluated>, level: SlaStatus)
    ensures level in SentBy(run) <==> exists i: nat | i < |run| :: CallsFor(run, i, level)
  {
    SentAsCalledFor(run);
    if run != [] {
      var init, n := run[..|run| - 1], |run| - 1;
      SentWhenCalledFor(init, level);
      SentAsCalledFor(init);
      forall i: nat | i < n {
        OneMoreCall(run, i, level);
      }
      if level in SentBy(init) {
        var i: nat :| i < |init| && CallsFor(init, i, level);
        assert CallsFor(run, i, level);
      }
    }
  }

  /** A breach is notified if and only if some evaluation found one. */
  lemma {:induction false} BreachIsNotified(run: seq<Evaluated>)
    ensures Breached in SentBy(run) <==> exists e | e in run :: e.overall.Breached?
  {
    SentAsCalledFor(run);
    if run != [] {
      var init, n := run[..|run| - 1], |run| - 1;
      BreachIsNotified(init);
      SentAsCalledFor(init);
      assert forall x :: x in run <==> x in init || x == run[n];
    }
  }

  /** A risk is notified if and only if some evaluation found one while no earlier at-risk or breached
      evaluation had its marker write go through. */
  lemma RiskIsNotified(run: seq<Evaluated>)
    ensures AtRisk in SentBy(run)
       <==> exists i: nat | i < |run| ::
              run[i].overall.AtRisk? && forall e | e in run[..i] && e.overall in {AtRisk, Breached} :: !e.writeOk
  {
    SentWhenCalledFor(run, AtRisk);
    forall i: nat | i < |run|
      ensures CallsFor(run, i, AtRisk)
         <==> run[i].overall.AtRisk? && forall e | e in run[..i] && e.overall in {AtRisk, Breached} :: !e.writeOk
    {
    }
  }

  /** A scan is one evaluation of each SEV it reaches, as far as that SEV's marker and notifications
      are concerned, and nothing to any other SEV; so the bounds above are bounds over runs of scans. */
  lemma ScanIsOneEvaluation(rows: map<string, Sev>, sent: map<string, seq<SlaStatus>>, done: set<string>, round: Round, id: string)
    requires WellKeyed(rows) && id in rows
    ensures id in done ==>
      && RowsAfter(rows, done, round)[id].slaNotified == NextMarker(rows[id].slaNotified, EvaluatedIn(round, id))
      && Sent(SentAfter(sent, rows, done, round), id) == Sent(sent, id) + NextSent(rows[id].slaNotified, EvaluatedIn(round, id))
    ensures id !in done ==>
      RowsAfter(rows, done, round)[id] == rows[id] && Sent(SentAfter(sent, rows, done, round), id) == Sent(sent, id)
  {
  }

  /** What evaluating a row comes to: a breach not on its marker is notified, and so is a risk when the
      marker has nothing; the marker then has it and the row is stamped, unless the write failed. */
  predicate Outcome(r: Sev, badge: SlaStatus, writeFails: bool, now: Time, r': Sev, before: seq<SlaStatus>,
                    after: seq<SlaStatus>)
  {
    if badge == Breached && r.slaNotified != Some(Breached) then
      after == before + [Breached] && r' == if writeFails then r else r.(slaNotified := Some(Breached), updatedAt := now)
    else if badge == AtRisk && r.slaNotified == None then
      after == before + [AtRisk] && r' == if writeFails then r else r.(slaNotified := Some(AtRisk), updatedAt := now)
    else after == before && r' == r
  }

  lemma EvaluationOutcome(r: Sev, e: Evaluated, now: Time, before: seq<SlaStatus>)
    ensures Outcome(r, e.overall, !e.writeOk, now, MarkedRow(r, e, now), before, before + NextSent(r.slaNotified, e))
  {
  }

  /** What a scan does to every SEV: to one it evaluates, what its badge calls for, and nothing to the
      others. */
  ghost predicate Scans(rows: map<string, Sev>, sent: map<string, seq<SlaStatus>>, done: set<string>, table: Table,
                        failing: set<string>, now: Time, rows': map<string, Sev>, sent': map<string, seq<SlaStatus>>)
  {
    && rows'.Keys == rows.Keys
    && (forall id | id !in rows :: Sent(sent', id) == Sent(sent, id))
    && forall id | id in rows ::
         if id in done then
           Outcome(rows[id], Badge(table, rows[id], now), id in failing, now, rows'[id], Sent(sent, id), Sent(sent', id))
         else rows'[id] == rows[id] && Sent(sent', id) == Sent(sent, id)
  }

  lemma ScanOutcomes(rows: map<string, Sev>, sent: map<string, seq<SlaStatus>>, done: set<string>, table: Table,
                     failing: set<string>, now: Time)
    requires WellKeyed(rows)
    ensures var round := Round(Badges(table, rows, now), failing, now);
      Scans(rows, sent, done, table, failing, now, RowsAfter(rows, done, round), SentAfter(sent, rows, done, round))
  {
    var round := Round(Badges(table, rows, now), failing, now);
    forall id | id in rows {
      ScanOutcomeOf(rows, sent, done, round, id);
    }
  }

  lemma ScanOutcomeOf(rows: map<string, Sev>, sent: map<string, seq<SlaStatus>>, done: set<string>, round: Round, id: string)
    requires WellKeyed(rows) && id in rows && id in round.badges
    ensures
      if id in done then
        Outcome(rows[id], round.badges[id], id in round.failing, round.now, RowsAfter(rows, done, round)[id],
                Sent(sent, id), Sent(SentAfter(sent, rows, done, round), id))
      else RowsAfter(rows, done, round)[id] == rows[id] && Sent(SentAfter(sent, rows, done, round), id) == Sent(sent, id)
  {
    ScanIsOneEvaluation(rows, sent, done, round, id);
    EvaluationOutcome(rows[id], EvaluatedIn(round, id), round.now, Sent(sent, id));
  }

  /** The candidates a scan evaluates are those whose level's lookup succeeds. */
  lemma ScannedMeans(candidates: seq<Sev>, faults: ScanFaults, id: string)
    ensures id in Scanned(candidates, faults) <==> exists s | s in candidates :: s.id == id && s.level !in faults.levels
  {
  }

  // ---------- which SEVs a scan sees ----------

  /** Every status but postmortem-complete, never a sensitive SEV, and no limit asked for. */
  const SCAN_FILTER := Filter([], [Open, Investigating, Mitigated, Resolved, PostmortemInProgress], [], map[], "",
                              None, None, None, "", true, Default, false, 0, 0)

  /** The rows the filter matches: every one that is neither sensitive nor past its postmortem. */
  lemma ScanSees(rows: map<string, Sev>, text: TextMatch, s: Sev)
    requires WellKeyed(rows)
    ensures s in Matching(rows, SCAN_FILTER, text)
       <==> s.id in rows && s == rows[s.id] && !s.sensitive && s.status != PostmortemComplete
  {
    MatchingIsKeyed(rows, SCAN_FILTER, text);
  }

  /** The candidates a store may answer a scan with. */
  ghost predicate MayScan(rows: map<string, Sev>, text: TextMatch, candidates: seq<Sev>) {
    MayPage(Matching(rows, SCAN_FILTER, text), Default, false, 0, 0, candidates)
  }

  ghost predicate Covers(candidates: seq<Sev>, rows: map<string, Sev>, text: TextMatch) {
    forall s | s in Matching(rows, SCAN_FILTER, text) :: s in candidates
  }

  /** A scan asks the store for no limit and so gets its default page: it is sure to evaluate every SEV it
      is meant for exactly when there are no more of them than fit on one. With more, each scan misses
      some. */
  lemma ScanCoverage(rows: map<string, Sev>, text: TextMatch)
    requires WellKeyed(rows)
    ensures (forall candidates | MayScan(rows, text, candidates) :: Covers(candidates, rows, text))
       <==> |Matching(rows, SCAN_FILTER, text)| <= 100
    ensures forall candidates | MayScan(rows, text, candidates) ::
      Covers(candidates, rows, text) <==> |Matching(rows, SCAN_FILTER, text)| <= 100
  {
    var want := Matching(rows, SCAN_FILTER, text);
    forall candidates | MayScan(rows, text, candidates)
      ensures Covers(candidates, rows, text) <==> |want| <= DEFAULT_LIMIT
    {
      OneScanCovers(rows, text, candidates);
    }
    MatchingDistinct(rows, SCAN_FILTER, text);
    SortedIsLegal(want, Default, false);
    assert MayScan(rows, text, Page(Sorted(want, Default, false), 0, 0));
  }

  lemma OneScanCovers(rows: map<string, Sev>, text: TextMatch, candidates: seq<Sev>)
    requires MayScan(rows, text, candidates)
    ensures Covers(candidates, rows, text) <==> |Matching(rows, SCAN_FILTER, text)| <= 100
  {
    var want := Matching(rows, SCAN_FILTER, text);
    var l :| LegalOrder(want, Default, false, l) && candidates == Page(l, 0, 0);
    EnumerationLength(l, want);
    if |want| > DEFAULT_LIMIT {
      assert l[DEFAULT_LIMIT] in Elements(l);
      assert forall i | 0 <= i < |candidates| :: candidates[i] == l[i];
    } else {
      assert candidates == l;
      assert forall s | s in want :: s in Elements(l);
    }
  }

  // ---------- one scan ----------

  /** The candidates evaluated once all levels but those in `todo` have been visited. */
  ghost function ReachedIds(candidates: seq<Sev>, faults: ScanFaults, todo: set<Level>): set<string> {
    set s | s in candidates && s.level !in todo && s.level !in faults.levels :: s.id
  }

  datatype ScanFaults = ScanFaults(list: bool, levels: set<Level>, writes: set<string>)

  /** The SEVs one scan evaluates: the candidates whose level's SLA lookup succeeded. */
  ghost function Scanned(candidates: seq<Sev>, faults: ScanFaults): set<string> {
    ReachedIds(candidates, faults, {})
  }

  function Ids(group: seq<Sev>): set<string> {
    set s | s in group :: s.id
  }

  function Sent(sent: map<string, seq<SlaStatus>>, id: string): seq<SlaStatus> {
    if id in sent then sent[id] else []
  }

  /** What the evaluations of one scan come to: the badge of each SEV, whose marker writes fail, and
      the scan's clock. */
  datatype Round = Round(badges: map<string, SlaStatus>, failing: set<string>, now: Time)

  function EvaluatedIn(round: Round, id: string): Evaluated {
    Evaluated(if id in round.badges then round.badges[id] else NotApplicable, id !in round.failing)
  }

  /** A row after one evaluation: a marker write also stamps it. */
  function MarkedRow(r: Sev, e: Evaluated, now: Time): Sev {
    if Fires(r.slaNotified, e.overall).Some? && e.writeOk
    then r.(slaNotified := Fires(r.slaNotified, e.overall), updatedAt := now) else r
  }

  /** The rows after evaluating some SEVs once each: every one of them is marked as its own badge
      calls for, and nothing else changes. */
  function RowsAfter(rows: map<string, Sev>, done: set<string>, round: Round): map<string, Sev> {
    map id | id in rows :: if id in done then MarkedRow(rows[id], EvaluatedIn(round, id), round.now) else rows[id]
  }

  /** What evaluating one row sends. */
  function NewlySent(r: Sev, round: Round): seq<SlaStatus> {
    NextSent(r.slaNotified, EvaluatedIn(round, r.id))
  }

  /** The SEVs among those evaluated whose badge calls for a notification. */
  function Notified(rows: map<string, Sev>, done: set<string>, round: Round): set<string> {
    set id | id in rows && id in done && NewlySent(rows[id], round) != []
  }

  /** The notifications after evaluating them: one more for every SEV whose badge calls for it. */
  function SentAfter(sent: map<string, seq<SlaStatus>>, rows: map<string, Sev>, done: set<string>, round: Round)
    : (after: map<string, seq<SlaStatus>>)
  {
    var notified := Notified(rows, done, round);
    map id | id in sent.Keys + notified :: if id in notified then Sent(sent, id) + NewlySent(rows[id], round) else sent[id]
  }

  /** Evaluating one more SEV, not evaluated yet, extends the rows by that SEV. */
  lemma OneMoreRow(rows: map<string, Sev>, done: set<string>, s: Sev, round: Round)
    requires s.id in rows && rows[s.id] == s && s.id !in done
    ensures RowsAfter(rows, done, round)[s.id] == s
    ensures RowsAfter(rows, done + {s.id}, round)
         == RowsAfter(rows, done, round)[s.id := MarkedRow(s, EvaluatedIn(round, s.id), round.now)]
  {
  }

  /** And it extends the notifications by that SEV's, if its badge calls for one. */
  lemma OneMoreSent(rows: map<string, Sev>, sent: map<string, seq<SlaStatus>>, done: set<string>, s: Sev, round: Round)
    requires s.id in rows && rows[s.id] == s && s.id !in done
    ensures SentAfter(sent, rows, done + {s.id}, round)
         == var sent1 := SentAfter(sent, rows, done, round);
            if NewlySent(s, round) == [] then sent1 else sent1[s.id := Sent(sent1, s.id) + NewlySent(s, round)]
  {
    var before, after := Notified(rows, done, round), Notified(rows, done + {s.id}, round);
    if NewlySent(s, round) == [] {
      assert after == before;
    } else {
      assert after == before + {s.id};
    }
  }

  lemma NoneDone(rows: map<string, Sev>, sent: map<string, seq<SlaStatus>>, round: Round)
    ensures RowsAfter(rows, {}, round) == rows && SentAfter(sent, rows, {}, round) == sent
  {
  }

  /** The scan's badges are the ones the single lookup computes. */
  ghost function Badges(table: Table, rows: map<string, Sev>, now: Time): map<string, SlaStatus> {
    map id | id in rows :: Badge(table, rows[id], now)
  }

  // ---------- runs of scans ----------

  /** A scan that reaches some SEVs, or a handler creating or updating a record, which leaves the marker
      of an existing one alone and gives a new one none. */
  datatype Event = Scan(done: set<string>, round: Round) | Edit(row: Sev)

  datatype Ledger = Ledger(rows: map<string, Sev>, sent: map<string, seq<SlaStatus>>)

  function MarkerOf(l: Ledger, id: string): Marker {
    if id in l.rows then l.rows[id].slaNotified else None
  }

  function Happens(l: Ledger, e: Event): Ledger {
    match e
    case Scan(done, round) => Ledger(RowsAfter(l.rows, done, round), SentAfter(l.sent, l.rows, done, round))
    case Edit(row) => l.(rows := l.rows[row.id := row.(slaNotified := MarkerOf(l, row.id))])
  }

  function LedgerAfter(events: seq<Event>): Ledger {
    if events == [] then Ledger(map[], map[]) else Happens(LedgerAfter(events[..|events| - 1]), events[|events| - 1])
  }

  /** The evaluations of one SEV in a run: one for every scan that reached it. */
  function EvaluationsOf(events: seq<Event>, id: string): seq<Evaluated> {
    if events == [] then []
    else
      var init, e := events[..|events| - 1], events[|events| - 1];
      if e.Scan? && id in e.done && id in LedgerAfter(init).rows then EvaluationsOf(init, id) + [EvaluatedIn(e.round, id)]
      else EvaluationsOf(init, id)
  }

  lemma OneMoreEvaluation(run: seq<Evaluated>, e: Evaluated)
    ensures MarkerAfter(run + [e]) == NextMarker(MarkerAfter(run), e)
    ensures SentBy(run + [e]) == SentBy(run) + NextSent(MarkerAfter(run), e)
  {
    assert (run + [e])[..|run|] == run;
  }

  /** The marker and the notifications of a SEV are those of its evaluations, one after the other,
      whatever other SEVs the scans reach and whatever the handlers do in between. */
  lemma {:induction false} RunsAreEvaluations(events: seq<Event>, id: string)
    ensures WellKeyed(LedgerAfter(events).rows)
    ensures MarkerOf(LedgerAfter(events), id) == MarkerAfter(EvaluationsOf(events, id))
    ensures Sent(LedgerAfter(events).sent, id) == SentBy(EvaluationsOf(events, id))
  {
    if events != [] {
      var init, e := events[..|events| - 1], events[|events| - 1];
      RunsAreEvaluations(init, id);
      var l := LedgerAfter(init);
      if e.Scan? {
        if id in l.rows {
          ScanIsOneEvaluation(l.rows, l.sent, e.done, e.round, id);
        }
        OneMoreEvaluation(EvaluationsOf(init, id), EvaluatedIn(e.round, id));
      }
    }
  }

  /** Over any run of scans and edits a SEV is notified at most twice plus once per failed marker write;
      and if none failed, once per level at most, at-risk never after breached. */
  lemma RunsNotifyOncePerLevel(events: seq<Event>, id: string)
    ensures var sent, run := Sent(LedgerAfter(events).sent, id), EvaluationsOf(events, id);
      && |sent| <= 2 + FailedWrites(run)
      && (FailedWrites(run) == 0 ==> sent in {[], [AtRisk], [Breached], [AtRisk, Breached]})
  {
    var run := EvaluationsOf(events, id);
    RunsAreEvaluations(events, id);
    NotificationsBounded(run);
    if FailedWrites(run) == 0 {
      NotifiedOncePerLevel(run);
    }
  }

  lemma GroupStep(group: seq<Sev>, i: nat, done: set<string>)
    requires i < |group| && group[i].id !in done
    requires forall i, j | 0 <= i < j < |group| :: group[i].id != group[j].id
    ensures group[i].id !in done + Ids(group[..i])
    ensures done + Ids(group[..i + 1]) == done + Ids(group[..i]) + {group[i].id}
  {
    assert group[..i + 1] == group[..i] + [group[i]];
  }

  /** The group filed under a level, empty when there is none. */
  function GroupOf(byLevel: map<Level, seq<Sev>>, level: Level): seq<Sev> {
    if level in byLevel then byLevel[level] else []
  }

  ghost predicate GroupedByLevel(byLevel: map<Level, seq<Sev>>, candidates: seq<Sev>) {
    forall level, s :: s in GroupOf(byLevel, level) <==> s in candidates && s.level == level
  }

  lemma GroupAppend(byLevel: map<Level, seq<Sev>>, candidates: seq<Sev>, s: Sev)
    requires GroupedByLevel(byLevel, candidates)
    ensures GroupedByLevel(byLevel[s.level := GroupOf(byLevel, s.level) + [s]], candidates + [s])
  {
    var after := byLevel[s.level := GroupOf(byLevel, s.level) + [s]];
    forall level: Level, x
      ensures x in GroupOf(after, level) <==> x in candidates + [s] && x.level == level
    {
      assert x in GroupOf(byLevel, level) <==> x in candidates && x.level == level;
    }
  }

  lemma LevelReached(candidates: seq<Sev>, faults: ScanFaults, byLevel: map<Level, seq<Sev>>, todo: set<Level>, level: Level)
    requires forall i, j | 0 <= i < j < |candidates| :: candidates[i].id != candidates[j].id
    requires GroupedByLevel(byLevel, candidates)
    requires level in todo && level in byLevel
    ensures forall s | s in byLevel[level] :: s in candidates && s.level == level && s.id !in ReachedIds(candidates, faults, todo)
    ensures ReachedIds(candidates, faults, todo - {level})
         == if level in faults.levels then ReachedIds(candidates, faults, todo)
            else ReachedIds(candidates, faults, todo) + Ids(byLevel[level])
  {
    assert forall s :: s in byLevel[level] <==> s in GroupOf(byLevel, level);
  }

  class SlaScanner {
    const sevs: SevStore
    const slas: ServiceSlaStore
    /** The notifications handed to the notifier so far, by SEV. */
    var sent: map<string, seq<SlaStatus>>

    ghost predicate Valid()
      reads this, sevs, slas
    {
      sevs.Valid() && slas.Valid()
    }

    constructor (sevs: SevStore, slas: ServiceSlaStore)
      requires sevs.Valid() && slas.Valid()
      ensures Valid() && this.sevs == sevs && this.slas == slas && sent == map[]
    {
      this.sevs, this.slas, sent := sevs, slas, map[];
    }

    /** notifySLAStatus, on the scanner's copy `s` of a row. */
    method NotifySLAStatus(s: Sev, overall: SlaStatus, now: Time, writeFails: bool)
      requires Valid() && s.id in sevs.rows && sevs.rows[s.id] == s
      modifies this`sent, sevs
      ensures Valid()
      ensures var e := Evaluated(overall, !writeFails);
        && sevs.rows == old(sevs.rows)[s.id := MarkedRow(s, e, now)]
        && sent == if NextSent(s.slaNotified, e) == [] then old(sent)
                   else old(sent)[s.id := Sent(old(sent), s.id) + NextSent(s.slaNotified, e)]
      ensures Outcome(s, overall, writeFails, now, sevs.rows[s.id], Sent(old(sent), s.id), Sent(sent, s.id))
      ensures forall id | id != s.id :: Sent(sent, id) == Sent(old(sent), id) && (id in sevs.rows <==> id in old(sevs.rows))
      ensures forall id | id != s.id && id in sevs.rows :: sevs.rows[id] == old(sevs.rows)[id]
    {
      var level: SlaStatus;
      if overall.Breached? && s.slaNotified != Some(Breached) {
        level := Breached;
      } else if overall.AtRisk? && s.slaNotified.None? {
        level := AtRisk;
      } else {
        return;
      }
      sent := sent[s.id := Sent(sent, s.id) + [level]];
      var _ := sevs.UpdateSLANotifiedStatus(s.id, Some(level), now, writeFails);
    }

    /** One SEV of a group: its rows picked out of the group's lookup, evaluated, notified. */
    method ScanOne(s: Sev, byService: map<string, ServiceSla>, now: Time, writeFails: bool)
      requires Valid() && s.id in sevs.rows && sevs.rows[s.id] == s
      requires forall id | id in s.services :: id in byService <==> (id, s.level) in slas.table
      requires forall id | id in s.services && id in byService :: byService[id] == slas.table[(id, s.level)]
      modifies this`sent, sevs
      ensures Valid()
      ensures var e := Evaluated(Badge(slas.table, s, now), !writeFails);
        && sevs.rows == old(sevs.rows)[s.id := MarkedRow(s, e, now)]
        && sent == if NextSent(s.slaNotified, e) == [] then old(sent)
                   else old(sent)[s.id := Sent(old(sent), s.id) + NextSent(s.slaNotified, e)]
    {
      var matched := MatchedRows(s.services, byService);
      AnyListingGivesTheBadge(slas.table, s, matched, now);
      var targets := MostStrictSLA(matched);
      var eval := EvaluateSLA(s, targets, now);
      NotifySLAStatus(s, eval.overall, now, writeFails);
    }

    /** Evaluates one level's group: one lookup for all its services, mapped back to each SEV. */
    method ScanGroup(level: Level, group: seq<Sev>, now: Time, faults: ScanFaults,
                     ghost rows0: map<string, Sev>, ghost sent0: map<string, seq<SlaStatus>>, ghost done: set<string>,
                     ghost round: Round)
      requires Valid() && round.now == now && round.failing == faults.writes
      requires forall i, j | 0 <= i < j < |group| :: group[i].id != group[j].id
      requires forall s | s in group :: s.level == level && s.id in rows0 && rows0[s.id] == s && s.id !in done
      requires forall s | s in group :: s.id in round.badges && round.badges[s.id] == Badge(slas.table, s, now)
      requires sevs.rows == RowsAfter(rows0, done, round) && sent == SentAfter(sent0, rows0, done, round)
      modifies this`sent, sevs
      ensures Valid()
      ensures var reached := if level in faults.levels then done else done + Ids(group);
        sevs.rows == RowsAfter(rows0, reached, round) && sent == SentAfter(sent0, rows0, reached, round)
    {
      var serviceIDs := UnionOfServices(group);
      var rows := slas.ListForServices(serviceIDs, level, level in faults.levels);
      if rows.Err? {
        return;
      }
      var byService := IndexByService(rows.value, slas.table, serviceIDs, level);
      ghost var reached := done;
      for i := 0 to |group|
        invariant Valid()
        invariant reached == done + Ids(group[..i])
        invariant sevs.rows == RowsAfter(rows0, reached, round) && sent == SentAfter(sent0, rows0, reached, round)
      {
        var s := group[i];
        assert s in group;
        GroupStep(group, i, done);
        OneMoreRow(rows0, reached, s, round);
        OneMoreSent(rows0, sent0, reached, s, round);
        ScanOne(s, byService, now, s.id in faults.writes);
        reached := reached + {s.id};
      }
      assert group[..|group|] == group;
    }

    method UnionOfServices(group: seq<Sev>) returns (ids: seq<string>)
      ensures forall id :: id in ids <==> exists s :: s in group && id in s.services
    {
      var idSet: set<string> := {};
      for i := 0 to |group|
        invariant forall id :: id in idSet <==> exists s :: s in group[..i] && id in s.services
      {
        var s := group[i];
        idSet := idSet + (set id | id in s.services);
        assert forall x :: x in group[..i + 1] <==> x in group[..i] || x == s;
      }
      assert group[..|group|] == group;
      ids := [];
      var todo := idSet;
      while todo != {}
        invariant todo <= idSet
        invariant forall id :: id in ids <==> id in idSet && id !in todo
        decreases |todo|
      {
        var id :| id in todo;
        ids := ids + [id];
        todo := todo - {id};
      }
    }

    method IndexByService(rows: seq<ServiceSla>, ghost table: Table, ghost ids: seq<string>, level: Level)
      returns (byService: map<string, ServiceSla>)
      requires TableOk(table) && IsListing(table, ids, level, rows)
      ensures forall id :: id in byService <==> id in ids && (id, level) in table
      ensures forall id | id in byService :: byService[id] == table[(id, level)]
    {
      byService := map[];
      for i := 0 to |rows|
        invariant forall id :: id in byService <==> exists r :: r in rows[..i] && r.service == id
        invariant forall id | id in byService :: (id, level) in table && byService[id] == table[(id, level)]
      {
        assert rows[i] in rows;
        byService := byService[rows[i].service := rows[i]];
        assert forall x :: x in rows[..i + 1] <==> x in rows[..i] || x == rows[i];
      }
      assert rows[..|rows|] == rows;
      forall id | id in ids && (id, level) in table
        ensures id in byService
      {
        assert table[(id, level)] in rows;
      }
    }

    method MatchedRows(services: seq<string>, byService: map<string, ServiceSla>) returns (matched: seq<ServiceSla>)
      ensures forall r :: r in matched <==> exists id :: id in services && id in byService && byService[id] == r
    {
      matched := [];
      for i := 0 to |services|
        invariant forall r :: r in matched <==> exists id :: id in services[..i] && id in byService && byService[id] == r
      {
        assert forall x :: x in services[..i + 1] <==> x in services[..i] || x == services[i];
        if services[i] in byService {
          matched := matched + [byService[services[i]]];
        }
      }
      assert services[..|services|] == services;
    }

    /** scanSLARisk: whichever candidates the store answers and whatever order the levels are visited in,
        every candidate whose level's lookup succeeded is evaluated exactly once, and with the status the
        single lookup would give it. */
    method ScanSLARisk(now: Time, faults: ScanFaults) returns (ghost candidates: seq<Sev>)
      requires Valid()
      modifies this`sent, sevs
      ensures Valid()
      ensures if faults.list then candidates == [] else MayScan(old(sevs.rows), sevs.text, candidates)
      ensures var round := Round(Badges(slas.table, old(sevs.rows), now), faults.writes, now);
              var scanned := Scanned(candidates, faults);
        && sevs.rows == RowsAfter(old(sevs.rows), scanned, round)
        && sent == SentAfter(old(sent), old(sevs.rows), scanned, round)
      ensures Scans(old(sevs.rows), old(sent), Scanned(candidates, faults), slas.table, faults.writes, now, sevs.rows, sent)
    {
      ghost var rows0 := sevs.rows;
      ghost var round := Round(Badges(slas.table, rows0, now), faults.writes, now);
      NoneDone(rows0, sent, round);
      forall done: set<string> {
        ScanOutcomes(rows0, sent, done, slas.table, faults.writes, now);
      }
      var listed := ListCandidates(now, faults.list);
      if listed.Err? {
        candidates := [];
        assert Scanned(candidates, faults) == {};
        return;
      }
      candidates := listed.value;
      if |listed.value| == 0 {
        assert Scanned(candidates, faults) == {};
        return;
      }
      ScanCandidates(listed.value, now, faults, round);
    }

    method ListCandidates(ghost now: Time, fails: bool) returns (r: Result<seq<Sev>>)
      requires Valid()
      ensures r.Err? <==> fails
      ensures r.Ok? ==> MayScan(sevs.rows, sevs.text, r.value)
      ensures r.Ok? ==> forall i, j | 0 <= i < j < |r.value| :: r.value[i].id != r.value[j].id
      ensures r.Ok? ==> forall s | s in r.value :: s.id in sevs.rows && sevs.rows[s.id] == s
      ensures r.Ok? ==> forall s | s in r.value :: Badges(slas.table, sevs.rows, now)[s.id] == Badge(slas.table, s, now)
    {
      r := sevs.List(SCAN_FILTER, fails);
      if r.Ok? {
        CandidatesAreRows(sevs.rows, sevs.text, r.value);
        CandidateBadges(slas.table, sevs.rows, sevs.text, now, r.value);
      }
    }

    method ScanCandidates(candidates: seq<Sev>, now: Time, faults: ScanFaults, ghost round: Round)
      requires Valid() && round.now == now && round.failing == faults.writes
      requires forall i, j | 0 <= i < j < |candidates| :: candidates[i].id != candidates[j].id
      requires forall s | s in candidates :: s.id in sevs.rows && sevs.rows[s.id] == s
      requires forall s | s in candidates :: s.id in round.badges && round.badges[s.id] == Badge(slas.table, s, now)
      modifies this`sent, sevs
      ensures Valid()
      ensures sevs.rows == RowsAfter(old(sevs.rows), ReachedIds(candidates, faults, {}), round)
      ensures sent == SentAfter(old(sent), old(sevs.rows), ReachedIds(candidates, faults, {}), round)
    {
      ghost var rows0, sent0 := sevs.rows, sent;
      NoneDone(rows0, sent0, round);
      var byLevel := GroupByLevel(candidates);
      assert forall s | s in candidates :: s in GroupOf(byLevel, s.level);
      var todo: set<Level> := byLevel.Keys;
      ghost var done: set<string> := {};
      while todo != {}
        invariant Valid() && todo <= byLevel.Keys
        invariant done == ReachedIds(candidates, faults, todo)
        invariant sevs.rows == RowsAfter(rows0, done, round) && sent == SentAfter(sent0, rows0, done, round)
        decreases |todo|
      {
        var level :| level in todo;
        LevelReached(candidates, faults, byLevel, todo, level);
        ScanGroup(level, byLevel[level], now, faults, rows0, sent0, done, round);
        done := ReachedIds(candidates, faults, todo - {level});
        todo := todo - {level};
      }
    }

    method GroupByLevel(candidates: seq<Sev>) returns (byLevel: map<Level, seq<Sev>>)
      requires forall i, j | 0 <= i < j < |candidates| :: candidates[i].id != candidates[j].id
      ensures GroupedByLevel(byLevel, candidates)
      ensures forall level | level in byLevel ::
        forall i, j | 0 <= i < j < |byLevel[level]| :: byLevel[level][i].id != byLevel[level][j].id
    {
      byLevel := map[];
      for k := 0 to |candidates|
        invariant GroupedByLevel(byLevel, candidates[..k])
        invariant forall level | level in byLevel ::
          forall i, j | 0 <= i < j < |byLevel[level]| :: byLevel[level][i].id != byLevel[level][j].id
      {
        var s := candidates[k];
        var group := GroupOf(byLevel, s.level);
        assert forall x | x in group :: x.id != s.id;
        GroupAppend(byLevel, candidates[..k], s);
        byLevel := byLevel[s.level := group + [s]];
        assert candidates[..k + 1] == candidates[..k] + [s];
      }
      assert candidates[..|candidates|] == candidates;
    }
  }

  lemma CandidateBadges(table: Table, rows: map<string, Sev>, text: TextMatch, now: Time, candidates: seq<Sev>)
    requires WellKeyed(rows) && MayScan(rows, text, candidates)
    ensures forall s | s in candidates :: s.id in rows && Badges(table, rows, now)[s.id] == Badge(table, s, now)
  {
    CandidatesAreRows(rows, text, candidates);
  }

  /** The candidates are rows of the store, each once. */
  lemma CandidatesAreRows(rows: map<string, Sev>, text: TextMatch, candidates: seq<Sev>)
    requires WellKeyed(rows) && MayScan(rows, text, candidates)
    ensures forall s | s in candidates :: s.id in rows && rows[s.id] == s
    ensures forall i, j | 0 <= i < j < |candidates| :: candidates[i].id != candidates[j].id
  {
    MatchingIsKeyed(rows, SCAN_FILTER, text);
    var l :| LegalOrder(Matching(rows, SCAN_FILTER, text), Default, false, l) && candidates == Page(l, 0, 0);
    forall s | s in candidates
      ensures s.id in rows && rows[s.id] == s
    {
      assert s in Elements(l);
    }
    forall i, j | 0 <= i < j < |candidates|
      ensures candidates[i].id != candidates[j].id
    {
      assert candidates[i] == l[i] && candidates[j] == l[j] && l[i] != l[j];
      assert candidates[i] in candidates && candidates[j] in candidates;
    }
  }
}
