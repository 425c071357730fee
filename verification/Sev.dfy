/** The incident record, its lifecycle statuses and the per-service SLA rows. */
module SevModel {
  import opened Wrappers
  import opened Clock

  datatype Status =
    | Open
    | Investigating
    | Mitigated
    | Resolved
    | PostmortemInProgress
    | PostmortemComplete

  /** Severity levels are 16-bit; the handlers accept 1 to 4. */
  type Level = x: int | -0x8000 <= x < 0x8000

  datatype SlaStatus = NotApplicable | OnTrack | AtRisk | Breached

  /** The lifecycle timestamps of an incident. */
  datatype Times = Times(
    started: Option<Time>,
    detected: Option<Time>,
    mitigated: Option<Time>,
    resolved: Option<Time>,
    pmCompleted: Option<Time>)

  /** The derived durations, in seconds. */
  datatype Metrics = Metrics(
    mttd: Option<int>,
    mttm: Option<int>,
    mttr: Option<int>,
    dttm: Option<int>,
    rtpc: Option<int>)

  /** One stored row. The optional text columns (mitigation, alert name, root cause category, ...)
      that are only ever copied are kept in `details`, keyed by column name. */
  datatype Sev = Sev(
    id: string,
    title: string,
    level: Level,
    status: Status,
    services: seq<string>,
    details: map<string, string>,
    tags: map<string, string>,
    times: Times,
    metrics: Metrics,
    locked: bool,
    sensitive: bool,
    aiDisabled: bool,
    createdAt: Time,
    updatedAt: Time,
    createdBy: string,
    slaNotified: Option<SlaStatus>)

  /** The SLA row of one service at one severity level; a missing target is None. */
  datatype ServiceSla = ServiceSla(
    service: string,
    level: Level,
    mttdTarget: Option<int>,
    mttmTarget: Option<int>,
    mttrTarget: Option<int>,
    rtpcTarget: Option<int>)

  datatype OrgRole = Viewer | Responder | IncidentCommander | Admin

  datatype Caller = Anonymous | User(id: string, role: OrgRole)

  /** The explicit grants: pairs of a SEV ID and the user who may see it. */
  type Grants = set<(string, string)>

  predicate Privileged(caller: Caller) {
    caller.User? && (caller.role.Admin? || caller.role.IncidentCommander?)
  }

  /** Who may see a row, given the explicit grants: everyone when it is not sensitive, otherwise
      admins, incident commanders and the users it was granted to. */
  predicate VisibleTo(row: Sev, caller: Caller, grants: Grants) {
    || !row.sensitive
    || Privileged(caller)
    || (caller.User? && (row.id, caller.id) in grants)
  }

  /** sensitiveSEVVisible: the access store is asked only about sensitive rows and only for known
      callers without a privileged role, so only then can it fail. */
  function SensitiveSevVisible(row: Sev, caller: Caller, grants: Grants, accessFails: bool): (r: Result<bool>)
    ensures r.Ok? ==> r.value == VisibleTo(row, caller, grants)
    ensures r.Err? <==> row.sensitive && caller.User? && !Privileged(caller) && accessFails
  {
    if !row.sensitive then Ok(true)
    else if caller.Anonymous? then Ok(false)
    else if caller.role.Admin? || caller.role.IncidentCommander? then Ok(true)
    else if accessFails then Err(Internal)
    else Ok((row.id, caller.id) in grants)
  }
}
