/** Full-text search over SEV fields and announcements (internal/api/grpc/search.go). */
module Search {
  import opened Wrappers
  import opened Ordering
  import opened SevModel
  import opened SevStore

  /** The cap on each of the two unpaginated fetches of the merge path. */
  const FANOUT_LIMIT := 10000

  datatype Request = Request(
    filter: Filter,
    sort: string,
    quickView: string,
    onCallUser: string,
    detectedBy: string)

  datatype Response = Response(sevs: seq<Sev>, total: nat)

  /** What the role and announcement stores answer. A role lookup that was not constrained to any
      user answers None (nil), which means "no constraint". */
  datatype Lookups = Lookups(
    onCall: Result<Option<seq<string>>>,
    detectedBy: Result<Option<seq<string>>>,
    mine: Result<Option<seq<string>>>,
    announcements: Result<seq<string>>)

  // ---------- the filter ----------

  function SortFieldOf(s: string): Option<SortField> {
    if s == "" then Some(Default)
    else if s == "started_at" then Some(ByStartedAt)
    else if s == "severity" then Some(BySeverity)
    else if s == "mttr" then Some(ByMttr)
    else if s == "updated_at" then Some(ByUpdatedAt)
    else None
  }

  /** buildSearchFilter: sensitive rows are never searched, and a quick view supplies statuses only
      when the caller gave none. */
  function BuildFilter(req: Request): Result<Filter> {
    var field := SortFieldOf(req.sort);
    if field.None? then Err(InvalidArgument)
    else
      var f := req.filter.(sort := field.value, excludeSensitive := true, ids := None);
      if req.quickView == "open" then
        Ok(if f.statuses == [] then f.(statuses := [Open, Investigating, Mitigated]) else f)
      else if req.quickView == "awaiting_postmortem" then
        Ok(if f.statuses == [] then f.(statuses := [Resolved, PostmortemInProgress]) else f)
      else if req.quickView in {"", "my_sevs"} then Ok(f)
      else Err(InvalidArgument)
  }

  // ---------- intersecting ID sets ----------

  /** Whether every set that is a constraint at all contains the ID. */
  ghost predicate AllowedBy(sets: seq<Option<seq<string>>>, id: string) {
    forall s | s in sets && s.Some? :: id in s.value
  }

  ghost function Holding(sets: seq<seq<string>>, id: string): nat {
    if sets == [] then 0
    else Holding(sets[..|sets| - 1], id) + (if id in sets[|sets| - 1] then 1 else 0)
  }

  /** An ID is in every set exactly when as many sets as there are hold it. */
  lemma {:induction false} HoldingAll(sets: seq<seq<string>>, id: string)
    ensures Holding(sets, id) <= |sets|
    ensures Holding(sets, id) == |sets| <==> forall s | s in sets :: id in s
  {
    if sets != [] {
      var init := sets[..|sets| - 1];
      HoldingAll(init, id);
      assert sets == init + [sets[|sets| - 1]];
    }
  }

  /** How many of the sets hold each ID, an ID repeated within one set counting once. */
  method CountPerSet(sets: seq<seq<string>>) returns (counts: map<string, nat>)
    ensures forall id :: (if id in counts then counts[id] else 0) == Holding(sets, id)
  {
    counts := map[];
    for k := 0 to |sets|
      invariant forall id :: (if id in counts then counts[id] else 0) == Holding(sets[..k], id)
    {
      var seen: set<string> := {};
      ghost var before := counts;
      for j := 0 to |sets[k]|
        invariant forall id :: id in seen <==> id in sets[k][..j]
        invariant forall id :: (if id in counts then counts[id] else 0)
                            == (if id in before then before[id] else 0) + (if id in seen then 1 else 0)
      {
        var id := sets[k][j];
        if id !in seen {
          seen := seen + {id};
          counts := counts[id := (if id in counts then counts[id] else 0) + 1];
        }
      }
      assert sets[k][..|sets[k]|] == sets[k];
      assert sets[..k + 1][..k] == sets[..k];
    }
    assert sets[..|sets|] == sets;
  }

  /** The intersection of the sets that are constraints; None when none of them is. */
  method IntersectIDs(sets: seq<Option<seq<string>>>) returns (out: Option<seq<string>>)
    ensures out.None? <==> forall s | s in sets :: s.None?
    ensures out.Some? ==> forall id :: id in out.value <==> AllowedBy(sets, id)
  {
    var constraints: seq<seq<string>> := [];
    for k := 0 to |sets|
      invariant forall s :: s in constraints <==> Some(s) in sets[..k]
      invariant constraints == [] <==> forall s | s in sets[..k] :: s.None?
    {
      if sets[k].Some? {
        constraints := constraints + [sets[k].value];
      }
    }
    assert sets[..|sets|] == sets;
    if |constraints| == 0 {
      return None;
    }
    assert Some(constraints[0]) in sets;
    var counts := CountPerSet(constraints);
    var ids: seq<string> := [];
    var todo := counts.Keys;
    while todo != {}
      invariant todo <= counts.Keys
      invariant forall id :: id in ids <==> id in counts && id !in todo && counts[id] == |constraints|
      decreases |todo|
    {
      var id :| id in todo;
      if counts[id] == |constraints| {
        ids := ids + [id];
      }
      todo := todo - {id};
    }
    forall id
      ensures id in ids <==> AllowedBy(sets, id)
    {
      HoldingAll(constraints, id);
      assert forall s | s in constraints :: Some(s) in sets;
      assert forall s | s in sets && s.Some? :: s.value in constraints;
    }
    out := Some(ids);
  }

  // ---------- merging ----------

  /** The two listings appended, keeping the first row of each ID. */
  method MergeSEVsByID(a: seq<Sev>, b: seq<Sev>) returns (out: array<Sev>)
    requires DistinctIds(Elements(a) + Elements(b))
    ensures fresh(out)
    ensures forall i, j | 0 <= i < j < out.Length :: out[i].id != out[j].id
    ensures Elements(out[..]) == Elements(a) + Elements(b)
  {
    var seen: set<string> := {};
    var merged: seq<Sev> := [];
    var all := a + b;
    for k := 0 to |all|
      invariant forall id :: id in seen <==> exists s :: s in merged && s.id == id
      invariant forall i, j | 0 <= i < j < |merged| :: merged[i].id != merged[j].id
      invariant forall s :: s in merged <==> s in all[..k]
    {
      if all[k].id !in seen {
        seen := seen + {all[k].id};
        merged := merged + [all[k]];
      }
    }
    assert all[..|all|] == all;
    out := new Sev[|merged|](i requires 0 <= i < |merged| => merged[i]);
    assert out[..] == merged;
    assert forall s :: s in merged <==> s in a || s in b;
  }

  method MergeAndSort(a: seq<Sev>, b: seq<Sev>, field: SortField, desc: bool) returns (r: seq<Sev>)
    requires DistinctIds(Elements(a) + Elements(b))
    ensures r == Sorted(Elements(a) + Elements(b), field, desc)
  {
    var merged := MergeSEVsByID(a, b);
    SortSEVs(merged, field, desc);
    r := merged[..];
  }

  // ---------- the single query ----------

  /** The rows one simple query would return: the other filters hold, the ID is allowed by every
      role constraint, and the text matches in the row's own fields or in an announcement. */
  ghost function Wanted(rows: map<string, Sev>, f: Filter, text: TextMatch, allowed: seq<Option<seq<string>>>,
                        announced: seq<string>): set<Sev>
  {
    set id | id in rows && IsWanted(rows[id], f, text, allowed, announced) :: rows[id]
  }

  ghost predicate IsWanted(row: Sev, f: Filter, text: TextMatch, allowed: seq<Option<seq<string>>>, announced: seq<string>) {
    && FieldsMatch(row, f.(ids := None))
    && AllowedBy(allowed, row.id)
    && (f.search != "" ==> text(row, f.search) || row.id in announced)
  }

  lemma WantedDistinct(rows: map<string, Sev>, f: Filter, text: TextMatch, allowed: seq<Option<seq<string>>>,
                       announced: seq<string>)
    requires WellKeyed(rows)
    ensures DistinctIds(Wanted(rows, f, text, allowed, announced))
  {
  }

  /** The rows that match through an announcement: the text search is dropped and the IDs are those
      of the announcements as well as the caller's. */
  ghost function WantedByAnnouncement(rows: map<string, Sev>, f: Filter, text: TextMatch, announced: seq<string>): set<Sev> {
    Wanted(rows, f.(search := ""), text, [Some(announced), f.ids], [])
  }

  lemma MatchingAnnouncementFilter(rows: map<string, Sev>, f: Filter, text: TextMatch, announced: seq<string>,
                                   ids: Option<seq<string>>)
    requires ids.Some? && forall id :: id in ids.value <==> AllowedBy([Some(announced), f.ids], id)
    ensures Matching(rows, f.(search := "", ids := ids), text) == WantedByAnnouncement(rows, f, text, announced)
  {
  }

  /** The constraint the intersection of the role sets puts on an ID is the constraint each of them
      puts on it. */
  ghost predicate Intersects(ids: Option<seq<string>>, sets: seq<Option<seq<string>>>) {
    && (ids.None? ==> forall s | s in sets :: s.None?)
    && (ids.Some? ==> forall id :: id in ids.value <==> AllowedBy(sets, id))
  }

  /** What the two fetches of the merge path find between them is what one query would find. */
  lemma FetchesCoverTheQuery(rows: map<string, Sev>, f: Filter, text: TextMatch, allowed: seq<Option<seq<string>>>,
                             announced: seq<string>)
    requires f.search != "" && Intersects(f.ids, allowed)
    ensures Matching(rows, f, text) + WantedByAnnouncement(rows, f, text, announced)
         == Wanted(rows, f, text, allowed, announced)
  {
    forall id | id in rows
      ensures IsWanted(rows[id], f, text, allowed, announced)
         <==> Matches(rows[id], f, text) || IsWanted(rows[id], f.(search := ""), text, [Some(announced), f.ids], [])
    {
      RowIsCovered(rows[id], f, text, allowed, announced);
    }
  }

  lemma RowIsCovered(row: Sev, f: Filter, text: TextMatch, allowed: seq<Option<seq<string>>>, announced: seq<string>)
    requires f.search != "" && Intersects(f.ids, allowed)
    ensures IsWanted(row, f, text, allowed, announced)
       <==> Matches(row, f, text) || IsWanted(row, f.(search := ""), text, [Some(announced), f.ids], [])
  {
    AnnouncedAndAllowed(f.ids, allowed, announced, row.id);
  }

  lemma AnnouncedAndAllowed(ids: Option<seq<string>>, allowed: seq<Option<seq<string>>>, announced: seq<string>, id: string)
    requires Intersects(ids, allowed)
    ensures AllowedBy([Some(announced), ids], id) <==> id in announced && AllowedBy(allowed, id)
    ensures AllowedBy(allowed, id) <==> (ids.Some? ==> id in ids.value)
  {
    assert AllowedBy([Some(announced), ids], id) <==> id in announced && (ids.Some? ==> id in ids.value) by {
      assert Some(announced) in [Some(announced), ids] && ids in [Some(announced), ids];
    }
  }

  /** Without announcements the plain query is the same query. */
  lemma NoAnnouncements(rows: map<string, Sev>, f: Filter, text: TextMatch, allowed: seq<Option<seq<string>>>)
    requires Intersects(f.ids, allowed)
    ensures Matching(rows, f, text) == Wanted(rows, f, text, allowed, [])
  {
    forall id | id in rows
      ensures rows[id] in Matching(rows, f, text) <==> rows[id] in Wanted(rows, f, text, allowed, [])
    {
      AnnouncedAndAllowed(f.ids, allowed, [], rows[id].id);
    }
  }

  /** The announcement fetch is the half of the query that the announcements account for. */
  lemma AnnouncementHalf(rows: map<string, Sev>, f: Filter, text: TextMatch, allowed: seq<Option<seq<string>>>,
                         announced: seq<string>)
    requires Intersects(f.ids, allowed)
    ensures WantedByAnnouncement(rows, f, text, announced)
         == Wanted(rows, f.(search := "", ids := None), text, allowed + [Some(announced)], [])
  {
    forall id | id in rows
      ensures AllowedBy([Some(announced), f.ids], rows[id].id) <==> AllowedBy(allowed + [Some(announced)], rows[id].id)
    {
      AnnouncedAndAllowed(f.ids, allowed, announced, rows[id].id);
      assert Some(announced) in allowed + [Some(announced)];
    }
  }

  // ---------- the handler ----------

  /** A request after everything but the fetches: the filter, the role sets that constrain it and the
      announced IDs. */
  datatype Plan = Plan(filter: Filter, allowed: seq<Option<seq<string>>>, announced: seq<string>)

  /** What each store lookup contributes, in the order the handler makes them, and the first error. */
  function PlanOf(req: Request, caller: Caller, l: Lookups): Result<Plan> {
    var f := BuildFilter(req);
    if f.Err? then Err(f.error)
    else if req.onCallUser != "" && l.onCall.Err? then Err(Internal)
    else if req.detectedBy != "" && l.detectedBy.Err? then Err(Internal)
    else if req.quickView == "my_sevs" && caller.Anonymous? then Err(Unauthenticated)
    else if req.quickView == "my_sevs" && l.mine.Err? then Err(Internal)
    else if f.value.search != "" && l.announcements.Err? then Err(Internal)
    else
      var sets0 := if req.onCallUser != "" then [l.onCall.value] else [];
      var sets1 := if req.detectedBy != "" then sets0 + [l.detectedBy.value] else sets0;
      var sets2 := if req.quickView == "my_sevs" then sets1 + [l.mine.value] else sets1;
      Ok(Plan(f.value, sets2, if f.value.search != "" then l.announcements.value else []))
  }

  /** The search takes the merge path, which slices in Go and so takes no negative offset; on the other
      path the store clamps it. */
  predicate Reslices(req: Request, caller: Caller, l: Lookups) {
    PlanOf(req, caller, l).Ok? && PlanOf(req, caller, l).value.announced != []
  }

  /** The answer of a search. On success: the requested page of the one simple query with the query's
      exact size; in the one order of SortSEVs when the handler merged and sorted, and otherwise in an
      order the store's own query allows. Without announcements only a store failure prevents it;
      with them, also one of the two halves of the query reaching the cap. */
  ghost predicate Answers(r: Result<Response>, p: Plan, rows: map<string, Sev>, text: TextMatch, faults: Faults) {
    var wanted := Wanted(rows, p.filter, text, p.allowed, p.announced);
    && (r.Ok? ==> MayPage(wanted, p.filter.sort, p.filter.desc, p.filter.offset, p.filter.limit, r.value.sevs))
    && (r.Ok? && p.announced != [] ==>
          r.value.sevs == Page(Sorted(wanted, p.filter.sort, p.filter.desc), p.filter.offset, p.filter.limit))
    && (r.Ok? ==> r.value.total == |wanted|)
    && (p.announced == [] ==> (r.Err? <==> faults.count || faults.list) && (r.Err? ==> r.error.Internal?))
    && (p.announced != [] && (faults.field || faults.announcement) ==> r == Err(Internal))
    && (p.announced != [] && !faults.field && !faults.announcement ==>
          (r.Err? <==> || |Wanted(rows, p.filter, text, p.allowed, [])| >= FANOUT_LIMIT
                       || |Wanted(rows, p.filter.(search := ""), text, p.allowed + [Some(p.announced)], [])| >= FANOUT_LIMIT)
          && (r.Err? ==> r.error.ResourceExhausted?))
  }

  /** The fetches of a plan, in terms of the one query they are meant to compute. */
  lemma HalvesOfThePlan(rows: map<string, Sev>, p: Plan, ids: Option<seq<string>>, text: TextMatch)
    requires WellKeyed(rows) && Intersects(ids, p.allowed) && (p.announced != [] ==> p.filter.search != "")
    ensures Matching(rows, p.filter.(ids := ids), text) == Wanted(rows, p.filter, text, p.allowed, [])
    ensures WantedByAnnouncement(rows, p.filter.(ids := ids), text, p.announced)
         == Wanted(rows, p.filter.(search := ""), text, p.allowed + [Some(p.announced)], [])
    ensures p.announced != [] ==>
      Matching(rows, p.filter.(ids := ids), text) + WantedByAnnouncement(rows, p.filter.(ids := ids), text, p.announced)
      == Wanted(rows, p.filter, text, p.allowed, p.announced)
    ensures DistinctIds(Wanted(rows, p.filter, text, p.allowed, p.announced))
  {
    var f := p.filter.(ids := ids);
    NoAnnouncements(rows, f, text, p.allowed);
    IdsReplaced(rows, p.filter, ids, text, p.allowed, []);
    AnnouncementHalf(rows, f, text, p.allowed, p.announced);
    IdsReplaced(rows, p.filter.(search := ""), None, text, p.allowed + [Some(p.announced)], []);
    if p.announced != [] {
      FetchesCoverTheQuery(rows, f, text, p.allowed, p.announced);
      IdsReplaced(rows, p.filter, ids, text, p.allowed, p.announced);
    }
    WantedDistinct(rows, p.filter, text, p.allowed, p.announced);
  }

  lemma IdsReplaced(rows: map<string, Sev>, f: Filter, ids: Option<seq<string>>, text: TextMatch,
                    allowed: seq<Option<seq<string>>>, announced: seq<string>)
    ensures Wanted(rows, f.(ids := ids), text, allowed, announced) == Wanted(rows, f, text, allowed, announced)
  {
    assert f.(ids := ids).(ids := None) == f.(ids := None);
  }

  /** An unpaginated fetch of some rows: all of them below the cap, each once and in some order, and at
      least the cap exactly when there are that many. */
  ghost predicate Fetched(r: Result<seq<Sev>>, want: set<Sev>, f: Filter, fails: bool) {
    if fails then r == Err(Internal)
    else r.Ok? && if |want| >= FANOUT_LIMIT then |r.value| >= FANOUT_LIMIT
                  else |r.value| < FANOUT_LIMIT && LegalOrder(want, f.sort, f.desc, r.value)
  }

  /** The merge of two fetches: refused exactly when one of them reaches the cap, and otherwise
      everything either found, once each and in order. */
  ghost predicate Merged(r: Result<seq<Sev>>, inField: set<Sev>, inAnnouncement: set<Sev>, f: Filter, fails: bool) {
    if fails then r == Err(Internal)
    else if |inField| >= FANOUT_LIMIT || |inAnnouncement| >= FANOUT_LIMIT then r == Err(ResourceExhausted)
    else r == Ok(Sorted(inField + inAnnouncement, f.sort, f.desc))
  }

  lemma UnionDistinct(rows: map<string, Sev>, f: Filter, text: TextMatch, announced: seq<string>)
    requires WellKeyed(rows)
    ensures DistinctIds(Matching(rows, f, text) + WantedByAnnouncement(rows, f, text, announced))
  {
  }

  // ---------- what a search means, request and rows alone ----------

  const SORTS: set<string> := {"", "started_at", "severity", "mttr", "updated_at"}
  const QUICK_VIEWS: set<string> := {"", "open", "awaiting_postmortem", "my_sevs"}

  /** The order a sort value asks for. */
  predicate Orders(sort: string, field: SortField) {
    match field
    case Default => sort == ""
    case ByStartedAt => sort == "started_at"
    case BySeverity => sort == "severity"
    case ByMttr => sort == "mttr"
    case ByUpdatedAt => sort == "updated_at"
  }

  /** The status is one of those given or, when none is, of those the quick view stands for. */
  predicate StatusSought(status: Status, given: seq<Status>, quickView: string) {
    if given != [] then status in given
    else if quickView == "open" then status in {Open, Investigating, Mitigated}
    else if quickView == "awaiting_postmortem" then status in {Resolved, PostmortemInProgress}
    else true
  }

  /** A role set that was asked for and is a constraint has the ID. */
  predicate InRoleSet(asked: bool, answer: Result<Option<seq<string>>>, id: string) {
    asked && answer.Ok? && answer.value.Some? ==> id in answer.value.value
  }

  predicate TextSought(row: Sev, query: string, announcements: Result<seq<string>>, text: TextMatch) {
    query != "" ==> text(row, query) || (announcements.Ok? && row.id in announcements.value)
  }

  /** The row meets every field of the request, and is not sensitive. */
  ghost predicate FieldsSought(row: Sev, req: Request) {
    && !row.sensitive
    && (req.filter.levels != [] ==> row.level in req.filter.levels)
    && StatusSought(row.status, req.filter.statuses, req.quickView)
    && (req.filter.services != [] ==> exists service :: service in req.filter.services && service in row.services)
    && (forall k | k in req.filter.tags :: k in row.tags && row.tags[k] == req.filter.tags[k])
    && (req.filter.rootCause != "" ==>
          "root_cause_category" in row.details && row.details["root_cause_category"] == req.filter.rootCause)
    && (req.filter.startedAfter.Some? ==>
          row.times.started.Some? && row.times.started.value >= req.filter.startedAfter.value)
    && (req.filter.startedBefore.Some? ==>
          row.times.started.Some? && row.times.started.value <= req.filter.startedBefore.value)
  }

  predicate InRoleSets(id: string, req: Request, l: Lookups) {
    && InRoleSet(req.onCallUser != "", l.onCall, id)
    && InRoleSet(req.detectedBy != "", l.detectedBy, id)
    && InRoleSet(req.quickView == "my_sevs", l.mine, id)
  }

  /** The rows a request asks for. No sensitive row is one of them, whoever asks. */
  ghost predicate Sought(row: Sev, req: Request, l: Lookups, text: TextMatch) {
    FieldsSought(row, req) && InRoleSets(row.id, req, l) && TextSought(row, req.filter.search, l.announcements, text)
  }

  ghost function SoughtRows(rows: map<string, Sev>, req: Request, l: Lookups, text: TextMatch): set<Sev> {
    set id | id in rows && Sought(rows[id], req, l, text) :: rows[id]
  }

  /** Those of them that the text itself finds, and those an announcement does. */
  ghost function SoughtByText(rows: map<string, Sev>, req: Request, l: Lookups, text: TextMatch): set<Sev> {
    set id | id in rows && FieldsSought(rows[id], req) && InRoleSets(rows[id].id, req, l)
             && text(rows[id], req.filter.search) :: rows[id]
  }

  ghost function SoughtByAnnouncement(rows: map<string, Sev>, req: Request, l: Lookups): set<Sev> {
    set id | id in rows && FieldsSought(rows[id], req) && InRoleSets(rows[id].id, req, l)
             && l.announcements.Ok? && rows[id].id in l.announcements.value :: rows[id]
  }

  predicate WellFormed(req: Request) {
    req.sort in SORTS && req.quickView in QUICK_VIEWS
  }

  /** The my_sevs view needs a caller, and is resolved after the two other role lookups. */
  predicate NeedsCaller(req: Request, caller: Caller, l: Lookups) {
    && WellFormed(req) && req.quickView == "my_sevs" && caller.Anonymous?
    && (req.onCallUser != "" ==> l.onCall.Ok?) && (req.detectedBy != "" ==> l.detectedBy.Ok?)
  }

  predicate LookupFails(req: Request, caller: Caller, l: Lookups) {
    && WellFormed(req) && !NeedsCaller(req, caller, l)
    && (|| (req.onCallUser != "" && l.onCall.Err?)
        || (req.detectedBy != "" && l.detectedBy.Err?)
        || (req.quickView == "my_sevs" && l.mine.Err?)
        || (req.filter.search != "" && l.announcements.Err?))
  }

  predicate Announces(req: Request, l: Lookups) {
    req.filter.search != "" && l.announcements.Ok? && l.announcements.value != []
  }

  /** What a search answers: exactly when it is an invalid argument, unauthenticated, an internal error or
      too much, and otherwise a page of the rows sought, in the order its sort value asks for, and their
      number. */
  ghost predicate Meets(r: Result<Response>, req: Request, caller: Caller, l: Lookups, rows: map<string, Sev>,
                        text: TextMatch, faults: Faults)
  {
    if !WellFormed(req) then r == Err(InvalidArgument)
    else if NeedsCaller(req, caller, l) then r == Err(Unauthenticated)
    else if LookupFails(req, caller, l) then r == Err(Internal)
    else if !Announces(req, l) && (faults.count || faults.list) then r == Err(Internal)
    else if Announces(req, l) && (faults.field || faults.announcement) then r == Err(Internal)
    else if Announces(req, l) && (|SoughtByText(rows, req, l, text)| >= 10000 || |SoughtByAnnouncement(rows, req, l)| >= 10000) then
      r == Err(ResourceExhausted)
    else r.Ok? && Found(r.value, req, l, rows, text)
  }

  ghost predicate Found(answer: Response, req: Request, l: Lookups, rows: map<string, Sev>, text: TextMatch) {
    var sought := SoughtRows(rows, req, l, text);
    && answer.total == |sought|
    && (forall row | row in answer.sevs :: row in sought && !row.sensitive)
    && (exists field | Orders(req.sort, field) ::
          && MayPage(sought, field, req.filter.desc, req.filter.offset, req.filter.limit, answer.sevs)
          && (Announces(req, l) ==>
                answer.sevs == Page(Sorted(sought, field, req.filter.desc), req.filter.offset, req.filter.limit)))
  }

  /** Where the store's query settles the order, both paths answer the page of the same sorted list. */
  lemma SearchAnswersOnePage(answer: Response, req: Request, l: Lookups, rows: map<string, Sev>, text: TextMatch)
    requires WellKeyed(rows) && Found(answer, req, l, rows, text)
    requires Announces(req, l) || req.sort != "" || NoTies(SoughtRows(rows, req, l, text))
    ensures exists field | Orders(req.sort, field) ::
      answer.sevs == Page(Sorted(SoughtRows(rows, req, l, text), field, req.filter.desc), req.filter.offset, req.filter.limit)
  {
    var sought := SoughtRows(rows, req, l, text);
    var field :| Orders(req.sort, field)
              && MayPage(sought, field, req.filter.desc, req.filter.offset, req.filter.limit, answer.sevs)
              && (Announces(req, l) ==>
                    answer.sevs == Page(Sorted(sought, field, req.filter.desc), req.filter.offset, req.filter.limit));
    if !Announces(req, l) {
      SoughtDistinct(rows, req, l, text);
      var order :| LegalOrder(sought, field, req.filter.desc, order)
                && answer.sevs == Page(order, req.filter.offset, req.filter.limit);
      OneLegalOrder(sought, field, req.filter.desc, order);
    }
  }

  lemma SoughtDistinct(rows: map<string, Sev>, req: Request, l: Lookups, text: TextMatch)
    requires WellKeyed(rows)
    ensures DistinctIds(SoughtRows(rows, req, l, text))
  {
  }

  lemma RequestsAreSpelledOut(req: Request, caller: Caller, l: Lookups)
    ensures PlanOf(req, caller, l) == Err(InvalidArgument) <==> !WellFormed(req)
    ensures PlanOf(req, caller, l) == Err(Unauthenticated) <==> NeedsCaller(req, caller, l)
    ensures PlanOf(req, caller, l) == Err(Internal) <==> LookupFails(req, caller, l)
    ensures PlanOf(req, caller, l).Ok? <==> WellFormed(req) && !NeedsCaller(req, caller, l) && !LookupFails(req, caller, l)
    ensures PlanOf(req, caller, l).Ok? ==>
      var f := PlanOf(req, caller, l).value.filter;
      && Orders(req.sort, f.sort)
      && f.desc == req.filter.desc && f.offset == req.filter.offset && f.limit == req.filter.limit
      && (PlanOf(req, caller, l).value.announced != [] <==> Announces(req, l))
  {
  }

  lemma PlanAllows(req: Request, caller: Caller, l: Lookups, id: string)
    requires PlanOf(req, caller, l).Ok?
    ensures AllowedBy(PlanOf(req, caller, l).value.allowed, id) <==> InRoleSets(id, req, l)
  {
    var sets0 := if req.onCallUser != "" then [l.onCall.value] else [];
    var sets1 := if req.detectedBy != "" then sets0 + [l.detectedBy.value] else sets0;
    var sets2 := if req.quickView == "my_sevs" then sets1 + [l.mine.value] else sets1;
    AllowedNone(id);
    AllowedMore([], if req.onCallUser != "" then l.onCall.value else None, id);
    AllowedMore(sets0, if req.detectedBy != "" then l.detectedBy.value else None, id);
    AllowedMore(sets1, if req.quickView == "my_sevs" then l.mine.value else None, id);
    assert [] + sets0 == sets0;
  }

  lemma AllowedNone(id: string)
    ensures AllowedBy([], id)
  {
  }

  lemma AllowedMore(sets: seq<Option<seq<string>>>, s: Option<seq<string>>, id: string)
    ensures AllowedBy(sets + [s], id) <==> AllowedBy(sets, id) && (s.Some? ==> id in s.value)
  {
    assert forall x :: x in sets + [s] <==> x in sets || x == s;
  }

  /** The filter of a plan has the request's fields, its statuses or the quick view's, and leaves the
      sensitive rows out. */
  ghost predicate Spells(f: Filter, req: Request) {
    && f.levels == req.filter.levels && f.services == req.filter.services && f.tags == req.filter.tags
    && f.rootCause == req.filter.rootCause && f.search == req.filter.search
    && f.startedAfter == req.filter.startedAfter && f.startedBefore == req.filter.startedBefore
    && f.excludeSensitive
    && (forall status :: StatusSought(status, req.filter.statuses, req.quickView) <==> (f.statuses != [] ==> status in f.statuses))
  }

  lemma PlanSpells(req: Request, caller: Caller, l: Lookups)
    requires PlanOf(req, caller, l).Ok?
    ensures var p := PlanOf(req, caller, l).value;
      && Spells(p.filter, req)
      && (req.filter.search != "" ==> l.announcements.Ok? && p.announced == l.announcements.value)
  {
  }

  lemma FieldsAreSought(row: Sev, f: Filter, req: Request)
    requires Spells(f, req)
    ensures FieldsMatch(row, f.(ids := None)) <==> FieldsSought(row, req)
  {
    assert StatusSought(row.status, req.filter.statuses, req.quickView) <==> (f.statuses != [] ==> row.status in f.statuses);
  }

  lemma RowWantedIsSought(row: Sev, req: Request, caller: Caller, l: Lookups, text: TextMatch)
    requires PlanOf(req, caller, l).Ok?
    ensures var p := PlanOf(req, caller, l).value;
      IsWanted(row, p.filter, text, p.allowed, p.announced) <==> Sought(row, req, l, text)
  {
    PlanAllows(req, caller, l, row.id);
    PlanSpells(req, caller, l);
    FieldsAreSought(row, PlanOf(req, caller, l).value.filter, req);
    WantedHere(row, PlanOf(req, caller, l).value, req, l, text);
  }

  lemma WantedHere(row: Sev, p: Plan, req: Request, l: Lookups, text: TextMatch)
    requires Spells(p.filter, req)
    requires req.filter.search != "" ==> l.announcements.Ok? && p.announced == l.announcements.value
    requires FieldsMatch(row, p.filter.(ids := None)) <==> FieldsSought(row, req)
    requires AllowedBy(p.allowed, row.id) <==> InRoleSets(row.id, req, l)
    ensures IsWanted(row, p.filter, text, p.allowed, p.announced) <==> Sought(row, req, l, text)
  {
  }

  lemma WantedIsSought(rows: map<string, Sev>, req: Request, caller: Caller, l: Lookups, text: TextMatch)
    requires PlanOf(req, caller, l).Ok?
    ensures var p := PlanOf(req, caller, l).value;
      Wanted(rows, p.filter, text, p.allowed, p.announced) == SoughtRows(rows, req, l, text)
  {
    forall id | id in rows {
      RowWantedIsSought(rows[id], req, caller, l, text);
    }
  }

  /** The halves of the query are the rows sought by text and by announcement. */
  lemma HalvesAreSought(rows: map<string, Sev>, req: Request, caller: Caller, l: Lookups, text: TextMatch)
    requires PlanOf(req, caller, l).Ok? && Announces(req, l)
    ensures var p := PlanOf(req, caller, l).value;
      && Wanted(rows, p.filter, text, p.allowed, []) == SoughtByText(rows, req, l, text)
      && Wanted(rows, p.filter.(search := ""), text, p.allowed + [Some(p.announced)], []) == SoughtByAnnouncement(rows, req, l)
  {
    var p := PlanOf(req, caller, l).value;
    PlanSpells(req, caller, l);
    forall id | id in rows
      ensures IsWanted(rows[id], p.filter, text, p.allowed, [])
         <==> FieldsSought(rows[id], req) && InRoleSets(rows[id].id, req, l) && text(rows[id], req.filter.search)
      ensures IsWanted(rows[id], p.filter.(search := ""), text, p.allowed + [Some(p.announced)], [])
         <==> FieldsSought(rows[id], req) && InRoleSets(rows[id].id, req, l) && rows[id].id in l.announcements.value
    {
      RowHalves(rows[id], p, req, caller, l, text);
    }
  }

  lemma RowHalves(row: Sev, p: Plan, req: Request, caller: Caller, l: Lookups, text: TextMatch)
    requires PlanOf(req, caller, l) == Ok(p) && Announces(req, l)
    ensures IsWanted(row, p.filter, text, p.allowed, [])
       <==> FieldsSought(row, req) && InRoleSets(row.id, req, l) && text(row, req.filter.search)
    ensures IsWanted(row, p.filter.(search := ""), text, p.allowed + [Some(p.announced)], [])
       <==> FieldsSought(row, req) && InRoleSets(row.id, req, l) && row.id in l.announcements.value
  {
    PlanSpells(req, caller, l);
    PlanAllows(req, caller, l, row.id);
    AllowedMore(p.allowed, Some(p.announced), row.id);
    FieldsAreSought(row, p.filter, req);
    SearchIsNoField(row, p.filter);
  }

  lemma SearchIsNoField(row: Sev, f: Filter)
    ensures FieldsMatch(row, f.(search := "").(ids := None)) <==> FieldsMatch(row, f.(ids := None))
  {
  }

  lemma PageIsSought(answer: Response, req: Request, caller: Caller, l: Lookups, p: Plan, rows: map<string, Sev>,
                     text: TextMatch)
    requires PlanOf(req, caller, l) == Ok(p)
    requires MayPage(Wanted(rows, p.filter, text, p.allowed, p.announced), p.filter.sort, p.filter.desc, p.filter.offset,
                     p.filter.limit, answer.sevs)
    ensures forall row | row in answer.sevs :: row in SoughtRows(rows, req, l, text) && !row.sensitive
  {
    WantedIsSought(rows, req, caller, l, text);
    var order :| LegalOrder(Wanted(rows, p.filter, text, p.allowed, p.announced), p.filter.sort, p.filter.desc, order)
              && answer.sevs == Page(order, p.filter.offset, p.filter.limit);
    forall row | row in answer.sevs
      ensures row in Elements(order)
    {
    }
  }

  lemma AnswersMeet(r: Result<Response>, req: Request, caller: Caller, l: Lookups, p: Plan, rows: map<string, Sev>,
                    text: TextMatch, faults: Faults)
    requires PlanOf(req, caller, l) == Ok(p) && Answers(r, p, rows, text, faults)
    ensures Meets(r, req, caller, l, rows, text, faults)
  {
    RequestsAreSpelledOut(req, caller, l);
    WantedIsSought(rows, req, caller, l, text);
    if Announces(req, l) {
      HalvesAreSought(rows, req, caller, l, text);
    }
    if r.Ok? {
      PageIsSought(r.value, req, caller, l, p, rows, text);
      assert Orders(req.sort, p.filter.sort);
      assert Found(r.value, req, l, rows, text);
    }
  }

  datatype Faults = Faults(count: bool, list: bool, field: bool, announcement: bool)

  class SearchServer {
    const sevs: SevStore

    constructor (sevs: SevStore)
      ensures this.sevs == sevs
    {
      this.sevs := sevs;
    }

    /** An unpaginated fetch: complete when it stays below the cap, and at the cap exactly when the
        filter matches that many rows. */
    method Fetch(f: Filter, fails: bool) returns (r: Result<seq<Sev>>)
      requires sevs.Valid()
      ensures Fetched(r, Matching(sevs.rows, f, sevs.text), f, fails)
    {
      PagingDoesNotMatter(sevs.rows, f, sevs.text, FANOUT_LIMIT, 0);
      r := sevs.List(f.(limit := FANOUT_LIMIT, offset := 0), fails);
      if r.Ok? {
        FirstPage(Matching(sevs.rows, f, sevs.text), f.sort, f.desc, FANOUT_LIMIT, r.value);
      }
    }

    /** The fetch by announcement: its IDs are cut down to the announced ones the caller allows. */
    method FetchByAnnouncement(f: Filter, announced: seq<string>, fails: bool) returns (r: Result<seq<Sev>>)
      requires sevs.Valid()
      ensures Fetched(r, WantedByAnnouncement(sevs.rows, f, sevs.text, announced), f, fails)
    {
      var ids := IntersectIDs([Some(announced), f.ids]);
      assert Some(announced) in [Some(announced), f.ids];
      MatchingAnnouncementFilter(sevs.rows, f, sevs.text, announced, ids);
      r := Fetch(f.(search := "", ids := ids), fails);
    }

    /** The merge path, before paging. It refuses exactly when one of its two fetches reaches the
        cap; otherwise it returns everything either fetch finds, once each and in order. */
    method SearchWithAnnouncements(f: Filter, announced: seq<string>, fieldFails: bool, announceFails: bool)
      returns (r: Result<seq<Sev>>)
      requires sevs.Valid()
      ensures Merged(r, Matching(sevs.rows, f, sevs.text), WantedByAnnouncement(sevs.rows, f, sevs.text, announced),
                     f, fieldFails || announceFails)
    {
      var byField := Fetch(f, fieldFails);
      if byField.Err? {
        return Err(Internal);
      }
      var byAnnouncement := FetchByAnnouncement(f, announced, announceFails);
      if byAnnouncement.Err? {
        return Err(Internal);
      }
      UnionDistinct(sevs.rows, f, sevs.text, announced);
      r := Combine(byField.value, byAnnouncement.value, Matching(sevs.rows, f, sevs.text),
                   WantedByAnnouncement(sevs.rows, f, sevs.text, announced), f);
    }

    /** The cap check and the merge of two fetches. */
    method Combine(byField: seq<Sev>, byAnnouncement: seq<Sev>, ghost inField: set<Sev>, ghost inAnnouncement: set<Sev>,
                   f: Filter) returns (r: Result<seq<Sev>>)
      requires DistinctIds(inField + inAnnouncement)
      requires Fetched(Ok(byField), inField, f, false) && Fetched(Ok(byAnnouncement), inAnnouncement, f, false)
      ensures Merged(r, inField, inAnnouncement, f, false)
    {
      if |byField| >= FANOUT_LIMIT || |byAnnouncement| >= FANOUT_LIMIT {
        return Err(ResourceExhausted);
      }
      var merged := MergeAndSort(byField, byAnnouncement, f.sort, f.desc);
      r := Ok(merged);
    }

    /** SearchSEVs: whichever path computes it, the answer is that of the one simple query. */
    method SearchSEVs(req: Request, caller: Caller, l: Lookups, faults: Faults) returns (r: Result<Response>)
      requires sevs.Valid() && (Reslices(req, caller, l) ==> req.filter.offset >= 0)
      ensures PlanOf(req, caller, l).Err? ==> r == Err(PlanOf(req, caller, l).error)
      ensures PlanOf(req, caller, l).Ok? ==> Answers(r, PlanOf(req, caller, l).value, sevs.rows, sevs.text, faults)
      ensures Meets(r, req, caller, l, sevs.rows, sevs.text, faults)
    {
      var plan := Gather(req, caller, l);
      RequestsAreSpelledOut(req, caller, l);
      if plan.Err? {
        return Err(plan.error);
      }
      var ids := None;
      if |plan.value.allowed| > 0 {
        ids := IntersectIDs(plan.value.allowed);
      }
      r := Answer(plan.value, ids, faults);
      AnswersMeet(r, req, caller, l, plan.value, sevs.rows, sevs.text, faults);
    }

    /** The lookups before the fetches. */
    method Gather(req: Request, caller: Caller, l: Lookups) returns (r: Result<Plan>)
      ensures r == PlanOf(req, caller, l)
    {
      var built := BuildFilter(req);
      if built.Err? {
        return Err(built.error);
      }
      var f := built.value;
      var sets: seq<Option<seq<string>>> := [];
      if req.onCallUser != "" {
        if l.onCall.Err? {
          return Err(Internal);
        }
        sets := [l.onCall.value];
      }
      if req.detectedBy != "" {
        if l.detectedBy.Err? {
          return Err(Internal);
        }
        sets := sets + [l.detectedBy.value];
      }
      if req.quickView == "my_sevs" {
        if caller.Anonymous? {
          return Err(Unauthenticated);
        }
        if l.mine.Err? {
          return Err(Internal);
        }
        sets := sets + [l.mine.value];
      }
      var announced: seq<string> := [];
      if f.search != "" {
        if l.announcements.Err? {
          return Err(Internal);
        }
        announced := l.announcements.value;
      }
      r := Ok(Plan(f, sets, announced));
    }

    /** The fetch, the merge when announcements matched, and the page. */
    method Answer(p: Plan, ids: Option<seq<string>>, faults: Faults) returns (r: Result<Response>)
      requires sevs.Valid() && Intersects(ids, p.allowed)
      requires p.announced != [] ==> p.filter.offset >= 0
      requires p.announced != [] ==> p.filter.search != ""
      ensures Answers(r, p, sevs.rows, sevs.text, faults)
    {
      var f := p.filter.(ids := ids);
      HalvesOfThePlan(sevs.rows, p, ids, sevs.text);
      if |p.announced| == 0 {
        var total := sevs.Count(f, faults.count);
        if total.Err? {
          return Err(Internal);
        }
        var records := sevs.List(f, faults.list);
        if records.Err? {
          return Err(Internal);
        }
        return Ok(Response(records.value, total.value));
      }
      var merged := SearchWithAnnouncements(f, p.announced, faults.field, faults.announcement);
      if merged.Err? {
        return Err(merged.error);
      }
      SortedIsLegal(Wanted(sevs.rows, p.filter, sevs.text, p.allowed, p.announced), f.sort, f.desc);
      var page := PageOf(merged.value, f.offset, f.limit);
      r := Ok(Response(page, |merged.value|));
    }
  }
}
