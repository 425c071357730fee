/** Writing an integration's configuration: store, hand over to the in-process clients, and undo the
    write when they reject it (internal/api/grpc/config_integration.go and the resolvers of
    cmd/server). */
module Integration {
  import opened Wrappers

  type Pairs = map<string, string>

  // ---------- stored rows ----------

  /** Credentials under an encryption key. Opening them takes the same key. */
  datatype Sealed = Sealed(plain: Pairs, key: int)

  /** A row without its timestamps: the stored credentials, if any, and the settings. */
  datatype Row = Row(sealed: Option<Sealed>, settings: Pairs)

  const EMPTY_ROW := Row(None, map[])

  type Rows = map<string, Row>

  function RowOf(rows: Rows, kind: string): Row {
    if kind in rows then rows[kind] else EMPTY_ROW
  }

  /** DecryptIntegrationCredentials: nothing stored is no credentials and no error. */
  function Decrypted(row: Row, key: Option<int>): Result<Pairs> {
    if row.sealed.None? then Ok(map[])
    else if key == Some(row.sealed.value.key) then Ok(row.sealed.value.plain)
    else Err(FailedPrecondition)
  }

  function Value(pairs: Pairs, name: string): string {
    if name in pairs then pairs[name] else ""
  }

  // ---------- the in-process clients ----------

  /** What a resolver points at: nothing, the client configured at startup, or one built from stored
      credentials and settings. */
  datatype Client = NoClient | Static(name: string) | Built(kind: string, token: string, cloudId: string, siteUrl: string)

  /** A resolver's own kind, its fallback and the client in use. */
  datatype ResolverState = ResolverState(kind: string, fallback: Client, current: Client)

  /** The client some credentials and settings configure, if they suffice: PagerDuty and GitHub need
      their one credential, Jira a token and a cloud ID; the site URL is optional. */
  function Build(kind: string, creds: Pairs, settings: Pairs): Option<Client> {
    if kind == "pagerduty" then
      if Value(creds, "api_key") == "" then None else Some(Built(kind, Value(creds, "api_key"), "", ""))
    else if kind == "github" then
      if Value(creds, "token") == "" then None else Some(Built(kind, Value(creds, "token"), "", ""))
    else if kind == "jira" then
      if Value(creds, "api_token") == "" || Value(settings, "cloud_id") == "" then None
      else Some(Built(kind, Value(creds, "api_token"), Value(settings, "cloud_id"), Value(settings, "site_url")))
    else None
  }

  function ClientFor(kind: string, creds: Pairs, settings: Pairs, fallback: Client): Client {
    var built := Build(kind, creds, settings);
    if built.Some? then built.value else fallback
  }

  class Resolver {
    const kind: string
    const fallback: Client
    var current: Client

    function View(): ResolverState
      reads this
    {
      ResolverState(kind, fallback, current)
    }

    /** Resolves once, at startup, from whatever is stored: an unreadable row counts as none. */
    constructor (kind: string, fallback: Client, rows: Rows, key: Option<int>)
      ensures View() == ResolverState(kind, fallback, StartupClient(rows, key, kind, fallback))
    {
      this.kind := kind;
      this.fallback := fallback;
      var creds := Decrypted(RowOf(rows, kind), key);
      if creds.Ok? && |creds.value| > 0 {
        current := ClientFor(kind, creds.value, RowOf(rows, kind).settings, fallback);
      } else {
        current := fallback;
      }
    }

    /** apply: the client is swapped whether or not the configuration suffices. */
    method Apply(creds: Pairs, settings: Pairs) returns (usedFallback: bool)
      modifies this
      ensures current == ClientFor(kind, creds, settings, fallback)
      ensures usedFallback == Build(kind, creds, settings).None?
    {
      var next := Build(kind, creds, settings);
      current := if next.Some? then next.value else fallback;
      usedFallback := next.None?;
    }

    /** RefreshIntegrationCredentials: only the resolver's own kind concerns it. */
    method Refresh(of: string, creds: Pairs, settings: Pairs) returns (rejected: bool)
      modifies this
      ensures View() == Refreshed(old(View()), of, creds, settings)
      ensures rejected == Rejects(old(View()), of, creds, settings)
    {
      if of != kind {
        return false;
      }
      rejected := Apply(creds, settings);
    }
  }

  function Refreshed(r: ResolverState, of: string, creds: Pairs, settings: Pairs): ResolverState {
    if of != r.kind then r else r.(current := ClientFor(r.kind, creds, settings, r.fallback))
  }

  predicate Rejects(r: ResolverState, of: string, creds: Pairs, settings: Pairs) {
    of == r.kind && Build(of, creds, settings).None?
  }

  /** What a resolver would use if the server were started now. */
  function StartupClient(rows: Rows, key: Option<int>, kind: string, fallback: Client): Client {
    var creds := Decrypted(RowOf(rows, kind), key);
    if creds.Ok? && |creds.value| > 0 then ClientFor(kind, creds.value, RowOf(rows, kind).settings, fallback)
    else fallback
  }

  // ---------- requests ----------

  datatype Request = Request(kind: string, creds: Pairs, settings: Pairs)

  const KINDS: set<string> := {"pagerduty", "github", "slack", "jira", "email", "monitoring"}

  function CredentialKeys(kind: string): set<string> {
    if kind == "pagerduty" then {"api_key"}
    else if kind == "github" then {"token"}
    else if kind == "slack" then {"bot_token", "app_token"}
    else if kind == "jira" then {"api_token"}
    else if kind == "email" then {"smtp_username", "smtp_password"}
    else {}
  }

  function SettingKeys(kind: string): set<string> {
    if kind == "slack" then {"default_channel", "channel_naming_convention"}
    else if kind == "jira" then {"cloud_id", "site_url"}
    else if kind == "email" then {"smtp_host", "smtp_port", "from_address"}
    else if kind == "monitoring" then {"tool", "base_url"}
    else {}
  }

  predicate SettingOk(kind: string, name: string, value: string) {
    && name in SettingKeys(kind)
    && (kind == "monitoring" && name == "tool" ==> value in {"datadog", "prometheus", "cloudwatch"})
  }

  /** validateAgainstCatalog. */
  predicate InCatalog(req: Request) {
    && req.kind in KINDS
    && req.creds.Keys <= CredentialKeys(req.kind)
    && forall name | name in req.settings :: SettingOk(req.kind, name, req.settings[name])
  }

  /** Which of the calls a request makes fail. */
  datatype Faults = Faults(get: bool, encrypt: bool, save: bool, rollback: bool)

  /** The configuration rows and the registered resolvers. */
  datatype World = World(rows: Rows, resolvers: seq<ResolverState>)

  /** The row a request asks for, with its credentials in the clear: what the request leaves out stays
      as stored. */
  datatype Plan = Plan(row: Row, creds: Pairs)

  function PlanFor(rows: Rows, key: Option<int>, req: Request, f: Faults): Result<Plan> {
    if req.kind == "" || !InCatalog(req) then Err(InvalidArgument)
    else if f.get then Err(Internal)
    else
      var existing := RowOf(rows, req.kind);
      var settings := if |req.settings| > 0 then req.settings else existing.settings;
      if |req.creds| > 0 then
        if key.None? then Err(FailedPrecondition)
        else if f.encrypt then Err(Internal)
        else Ok(Plan(Row(Some(Sealed(req.creds, key.value)), settings), req.creds))
      else
        var creds := Decrypted(existing, key);
        if creds.Err? then Err(FailedPrecondition) else Ok(Plan(Row(existing.sealed, settings), creds.value))
  }

  function RefreshAll(rs: seq<ResolverState>, of: string, creds: Pairs, settings: Pairs): (out: seq<ResolverState>)
    ensures |out| == |rs| && forall i | 0 <= i < |rs| :: out[i] == Refreshed(rs[i], of, creds, settings)
  {
    seq(|rs|, i requires 0 <= i < |rs| => Refreshed(rs[i], of, creds, settings))
  }

  predicate SomeRejects(rs: seq<ResolverState>, of: string, creds: Pairs, settings: Pairs) {
    exists i | 0 <= i < |rs| :: Rejects(rs[i], of, creds, settings)
  }

  /** The written row handed to the resolvers, and undone if one of them rejects it. */
  function Committed(w: World, kind: string, plan: Plan, rollbackFails: bool): (World, Result<Row>) {
    var resolvers := RefreshAll(w.resolvers, kind, plan.creds, plan.row.settings);
    if !SomeRejects(w.resolvers, kind, plan.creds, plan.row.settings) then
      (World(w.rows[kind := plan.row], resolvers), Ok(plan.row))
    else
      var after := if rollbackFails then plan.row else RowOf(w.rows, kind);
      (World(w.rows[kind := after], resolvers), Err(InvalidArgument))
  }

  /** A write as a whole. */
  function Upsert(w: World, key: Option<int>, req: Request, f: Faults): (World, Result<Row>) {
    var plan := PlanFor(w.rows, key, req, f);
    if plan.Err? then (w, Err(plan.error))
    else if f.save then (w, Err(Internal))
    else Committed(w, req.kind, plan.value, f.rollback)
  }

  lemma OneMoreResolver(rs: seq<ResolverState>, n: nat, of: string, creds: Pairs, settings: Pairs)
    requires n < |rs|
    ensures SomeRejects(rs[..n + 1], of, creds, settings)
       <==> SomeRejects(rs[..n], of, creds, settings) || Rejects(rs[n], of, creds, settings)
  {
    var more := rs[..n + 1];
    assert more[n] == rs[n];
    forall i | 0 <= i < n
      ensures more[i] == rs[..n][i]
    {
    }
  }

  lemma UpdatedTwice(rows: Rows, kind: string, first: Row, second: Row)
    ensures rows[kind := first][kind := second] == rows[kind := second]
  {
  }

  ghost function States(rs: seq<Resolver>): (states: seq<ResolverState>)
    reads set r | r in rs
    ensures |states| == |rs| && forall i | 0 <= i < |rs| :: states[i] == rs[i].View()
  {
    if rs == [] then [] else States(rs[..|rs| - 1]) + [rs[|rs| - 1].View()]
  }

  class ConfigServer {
    var rows: Rows
    const key: Option<int>
    const refreshers: seq<Resolver>

    ghost predicate Valid() {
      forall i, j | 0 <= i < j < |refreshers| :: refreshers[i] != refreshers[j]
    }

    ghost function View(): World
      reads this, set r | r in refreshers
    {
      World(rows, States(refreshers))
    }

    constructor (rows: Rows, key: Option<int>, refreshers: seq<Resolver>)
      requires forall i, j | 0 <= i < j < |refreshers| :: refreshers[i] != refreshers[j]
      ensures Valid() && this.rows == rows && this.key == key && this.refreshers == refreshers
    {
      this.rows := rows;
      this.key := key;
      this.refreshers := refreshers;
    }

    /** Everything before the first write. */
    method Prepare(req: Request, f: Faults) returns (r: Result<Plan>)
      ensures r == PlanFor(rows, key, req, f)
    {
      if req.kind == "" || !InCatalog(req) {
        return Err(InvalidArgument);
      }
      if f.get {
        return Err(Internal);
      }
      var cfg := EMPTY_ROW;
      if req.kind in rows {
        cfg := rows[req.kind];
      }
      var creds: Pairs := map[];
      if |req.creds| > 0 {
        if key.None? {
          return Err(FailedPrecondition);
        }
        if f.encrypt {
          return Err(Internal);
        }
        cfg := cfg.(sealed := Some(Sealed(req.creds, key.value)));
        creds := req.creds;
      } else if cfg.sealed.Some? {
        var plain := Decrypted(cfg, key);
        if plain.Err? {
          return Err(FailedPrecondition);
        }
        creds := plain.value;
      }
      if |req.settings| > 0 {
        cfg := cfg.(settings := req.settings);
      }
      r := Ok(Plan(cfg, creds));
    }

    method RefreshEach(of: string, creds: Pairs, settings: Pairs) returns (rejected: bool)
      requires Valid()
      modifies set r | r in refreshers
      ensures States(refreshers) == RefreshAll(old(States(refreshers)), of, creds, settings)
      ensures rejected == SomeRejects(old(States(refreshers)), of, creds, settings)
    {
      rejected := false;
      ghost var before := States(refreshers);
      assert before[..0] == [];
      for i := 0 to |refreshers|
        invariant forall j | 0 <= j < i :: refreshers[j].View() == Refreshed(before[j], of, creds, settings)
        invariant forall j | i <= j < |refreshers| :: refreshers[j].View() == before[j]
        invariant rejected == SomeRejects(before[..i], of, creds, settings)
      {
        OneMoreResolver(before, i, of, creds, settings);
        assert forall j | 0 <= j < |refreshers| && j != i :: refreshers[j] != refreshers[i];
        var no := refreshers[i].Refresh(of, creds, settings);
        rejected := rejected || no;
      }
      assert before[..|refreshers|] == before;
    }

    method Save(kind: string, row: Row)
      modifies this`rows
      ensures rows == old(rows)[kind := row]
      ensures States(refreshers) == old(States(refreshers))
    {
      rows := rows[kind := row];
    }

    method Commit(kind: string, plan: Plan, rollbackFails: bool) returns (r: Result<Row>)
      requires Valid()
      modifies this, set r | r in refreshers
      ensures (View(), r) == Committed(old(View()), kind, plan, rollbackFails)
    {
      ghost var states := States(refreshers);
      var existing := RowOf(rows, kind);
      ghost var before := rows;
      Save(kind, plan.row);
      var rejected := RefreshEach(kind, plan.creds, plan.row.settings);
      if rejected {
        if !rollbackFails {
          Save(kind, existing);
          UpdatedTwice(before, kind, plan.row, existing);
        }
        r := Err(InvalidArgument);
      } else {
        r := Ok(plan.row);
      }
    }

    /** UpsertIntegrationConfig. */
    method UpsertIntegrationConfig(req: Request, f: Faults) returns (r: Result<Row>)
      requires Valid()
      modifies this, set r | r in refreshers
      ensures (View(), r) == Upsert(old(View()), key, req, f)
      ensures WriteOutcome(old(View()), key, req, f, View(), r)
    {
      WriteOutcomes(View(), key, req, f);
      var plan := Prepare(req, f);
      if plan.Err? {
        return Err(plan.error);
      }
      if f.save {
        return Err(Internal);
      }
      r := Commit(req.kind, plan.value, f.rollback);
    }
  }

  // ---------- what a write answers and leaves, spelled out ----------

  /** What credentials and settings each kind of integration knows. */
  const CATALOG: map<string, (set<string>, set<string>)> := map[
    "pagerduty" := ({"api_key"}, {}),
    "github" := ({"token"}, {}),
    "slack" := ({"bot_token", "app_token"}, {"default_channel", "channel_naming_convention"}),
    "jira" := ({"api_token"}, {"cloud_id", "site_url"}),
    "email" := ({"smtp_username", "smtp_password"}, {"smtp_host", "smtp_port", "from_address"}),
    "monitoring" := ({}, {"tool", "base_url"})
  ]

  predicate Catalogued(req: Request) {
    && req.kind in CATALOG
    && (forall name | name in req.creds :: name in CATALOG[req.kind].0)
    && (forall name | name in req.settings :: name in CATALOG[req.kind].1)
    && (req.kind == "monitoring" && "tool" in req.settings ==> req.settings["tool"] in {"datadog", "prometheus", "cloudwatch"})
  }

  lemma CatalogMeans(req: Request)
    ensures InCatalog(req) <==> Catalogued(req)
    ensures InCatalog(req) ==> req.kind != ""
  {
    forall name: string
      ensures req.kind in CATALOG ==> (name in CredentialKeys(req.kind) <==> name in CATALOG[req.kind].0)
      ensures req.kind in CATALOG ==> (name in SettingKeys(req.kind) <==> name in CATALOG[req.kind].1)
    {
    }
    assert req.kind in KINDS <==> req.kind in CATALOG;
  }

  predicate Has(pairs: Pairs, name: string) {
    name in pairs && pairs[name] != ""
  }

  /** PagerDuty needs its API key, GitHub its token, Jira a token and a cloud ID. */
  predicate Suffices(kind: string, creds: Pairs, settings: Pairs) {
    || (kind == "pagerduty" && Has(creds, "api_key"))
    || (kind == "github" && Has(creds, "token"))
    || (kind == "jira" && Has(creds, "api_token") && Has(settings, "cloud_id"))
  }

  /** The client of some kind that those credentials and settings configure. */
  predicate IsConfigured(c: Client, kind: string, creds: Pairs, settings: Pairs)
    requires Suffices(kind, creds, settings)
  {
    && c.Built? && c.kind == kind
    && (kind == "pagerduty" ==> c.token == creds["api_key"] && c.cloudId == "" && c.siteUrl == "")
    && (kind == "github" ==> c.token == creds["token"] && c.cloudId == "" && c.siteUrl == "")
    && (kind == "jira" ==>
          && c.token == creds["api_token"] && c.cloudId == settings["cloud_id"]
          && c.siteUrl == (if "site_url" in settings then settings["site_url"] else ""))
  }

  lemma BuildMeans(kind: string, creds: Pairs, settings: Pairs)
    ensures Build(kind, creds, settings).Some? <==> Suffices(kind, creds, settings)
    ensures Suffices(kind, creds, settings) ==> IsConfigured(Build(kind, creds, settings).value, kind, creds, settings)
  {
  }

  /** The client a resolver is left with: the configured one, or its fallback. */
  predicate Uses(c: Client, kind: string, creds: Pairs, settings: Pairs, fallback: Client) {
    if Suffices(kind, creds, settings) then IsConfigured(c, kind, creds, settings) else c == fallback
  }

  lemma ClientMeans(kind: string, creds: Pairs, settings: Pairs, fallback: Client)
    ensures Uses(ClientFor(kind, creds, settings, fallback), kind, creds, settings, fallback)
  {
    BuildMeans(kind, creds, settings);
  }

  /** Stored credentials that the server's key opens, or none. */
  predicate Readable(row: Row, key: Option<int>) {
    row.sealed.Some? ==> key == Some(row.sealed.value.key)
  }

  function Plain(row: Row): Pairs {
    if row.sealed.Some? then row.sealed.value.plain else map[]
  }

  /** At startup a resolver uses what its row configures if the key opens it, and its fallback otherwise. */
  lemma StartupMeans(rows: Rows, key: Option<int>, kind: string, fallback: Client)
    ensures var row := RowOf(rows, kind);
      Uses(StartupClient(rows, key, kind, fallback), kind, if Readable(row, key) then Plain(row) else map[], row.settings, fallback)
  {
    var row := RowOf(rows, kind);
    ClientMeans(kind, Plain(row), row.settings, fallback);
    assert |Plain(row)| == 0 ==> Plain(row) == map[];
  }

  /** The row a request asks for, over the stored one: its credentials under the key, its settings, each
      as stored where it gives none. */
  predicate Merges(stored: Row, key: Option<int>, req: Request, row: Row) {
    && (if req.creds == map[] then row.sealed == stored.sealed
        else row.sealed.Some? && row.sealed.value.plain == req.creds && key == Some(row.sealed.value.key))
    && row.settings == (if req.settings == map[] then stored.settings else req.settings)
  }

  /** What stops a write before it changes anything, in this order. */
  predicate Stopped(w: World, key: Option<int>, req: Request, f: Faults, e: Error) {
    if !Catalogued(req) then e == InvalidArgument
    else if f.get then e == Internal
    else if req.creds != map[] && key.None? then e == FailedPrecondition
    else if req.creds != map[] && f.encrypt then e == Internal
    else if req.creds == map[] && !Readable(RowOf(w.rows, req.kind), key) then e == FailedPrecondition
    else f.save && e == Internal
  }

  /** Every resolver of the kind has been given the row's credentials and settings, and the others are as
      before. */
  predicate HandedOver(before: seq<ResolverState>, kind: string, row: Row, after: seq<ResolverState>) {
    && |after| == |before|
    && forall i | 0 <= i < |before| ::
         && after[i].kind == before[i].kind && after[i].fallback == before[i].fallback
         && if before[i].kind == kind then Uses(after[i].current, kind, Plain(row), row.settings, before[i].fallback)
            else after[i].current == before[i].current
  }

  /** Some resolver of the kind cannot use the row. */
  predicate TurnedDown(rs: seq<ResolverState>, kind: string, row: Row) {
    !Suffices(kind, Plain(row), row.settings) && exists i | 0 <= i < |rs| :: rs[i].kind == kind
  }

  /** What a write comes to. */
  ghost predicate WriteOutcome(w: World, key: Option<int>, req: Request, f: Faults, w': World, r: Result<Row>) {
    || (r.Err? && Stopped(w, key, req, f, r.error) && w' == w)
    || ((forall e :: !Stopped(w, key, req, f, e))
        && exists row :: Merges(RowOf(w.rows, req.kind), key, req, row) && Handed(w, req.kind, row, f.rollback, w', r))
  }

  ghost predicate Handed(w: World, kind: string, row: Row, rollbackFails: bool, w': World, r: Result<Row>) {
    && HandedOver(w.resolvers, kind, row, w'.resolvers)
    && if TurnedDown(w.resolvers, kind, row) then
         r == Err(InvalidArgument) && w'.rows == w.rows[kind := if rollbackFails then row else RowOf(w.rows, kind)]
       else r == Ok(row) && w'.rows == w.rows[kind := row]
  }

  lemma PlanMeans(w: World, key: Option<int>, req: Request, f: Faults)
    ensures var plan := PlanFor(w.rows, key, req, f);
      if plan.Err? then Stopped(w, key, req, f, plan.error)
      else
        && Merges(RowOf(w.rows, req.kind), key, req, plan.value.row)
        && plan.value.creds == Plain(plan.value.row)
        && forall e :: Stopped(w, key, req, f, e) <==> f.save && e == Internal
  {
    CatalogMeans(req);
    assert |req.creds| > 0 <==> req.creds != map[];
    assert |req.settings| > 0 <==> req.settings != map[];
  }

  lemma CommitMeans(w: World, kind: string, plan: Plan, rollbackFails: bool)
    requires plan.creds == Plain(plan.row)
    ensures var (w', r) := Committed(w, kind, plan, rollbackFails);
      Handed(w, kind, plan.row, rollbackFails, w', r)
  {
    BuildMeans(kind, plan.creds, plan.row.settings);
    forall i | 0 <= i < |w.resolvers| {
      ClientMeans(kind, plan.creds, plan.row.settings, w.resolvers[i].fallback);
    }
    assert SomeRejects(w.resolvers, kind, plan.creds, plan.row.settings) <==> TurnedDown(w.resolvers, kind, plan.row) by {
      forall i | 0 <= i < |w.resolvers|
        ensures Rejects(w.resolvers[i], kind, plan.creds, plan.row.settings)
           <==> w.resolvers[i].kind == kind && !Suffices(kind, Plain(plan.row), plan.row.settings)
      {
      }
    }
  }

  lemma WriteOutcomes(w: World, key: Option<int>, req: Request, f: Faults)
    ensures WriteOutcome(w, key, req, f, Upsert(w, key, req, f).0, Upsert(w, key, req, f).1)
  {
    PlanMeans(w, key, req, f);
    var plan := PlanFor(w.rows, key, req, f);
    if plan.Ok? && !f.save {
      CommitMeans(w, req.kind, plan.value, f.rollback);
    }
  }

  // ---------- what a write guarantees ----------

  /** A refresher turned the written row down. */
  predicate Rejected(w: World, key: Option<int>, req: Request, f: Faults) {
    var plan := PlanFor(w.rows, key, req, f);
    plan.Ok? && !f.save && SomeRejects(w.resolvers, req.kind, plan.value.creds, plan.value.row.settings)
  }

  /** Success: the stored row holds the credentials and settings of the request, or the previous ones
      where it has none, and every resolver of that kind uses the client built from exactly what is
      stored. */
  lemma SuccessUsesWhatIsStored(w: World, key: Option<int>, req: Request, f: Faults, i: nat)
    requires Upsert(w, key, req, f).1.Ok? && i < |w.resolvers| && w.resolvers[i].kind == req.kind
    ensures var after := Upsert(w, key, req, f).0;
      var row := after.rows[req.kind];
      && Decrypted(row, key).Ok?
      && Some(after.resolvers[i].current) == Build(req.kind, Decrypted(row, key).value, row.settings)
      && (|req.creds| > 0 ==> Decrypted(row, key) == Ok(req.creds))
      && (|req.creds| == 0 ==> row.sealed == RowOf(w.rows, req.kind).sealed)
      && row.settings == (if |req.settings| > 0 then req.settings else RowOf(w.rows, req.kind).settings)
  {
    var plan := PlanFor(w.rows, key, req, f).value;
    assert !Rejects(w.resolvers[i], req.kind, plan.creds, plan.row.settings);
  }

  /** Rejection: with a successful rollback the row is what it was, or empty if there was none, but the
      resolver that rejected it is on its fallback already. */
  lemma RejectionRestoresTheRowOnly(w: World, key: Option<int>, req: Request, f: Faults, i: nat)
    requires Rejected(w, key, req, f) && i < |w.resolvers| && w.resolvers[i].kind == req.kind
    ensures var after := Upsert(w, key, req, f);
      && after.1 == Err(InvalidArgument)
      && (!f.rollback ==> after.0.rows == w.rows[req.kind := RowOf(w.rows, req.kind)])
      && after.0.resolvers[i].current == w.resolvers[i].fallback
  {
    var plan := PlanFor(w.rows, key, req, f).value;
    var j :| 0 <= j < |w.resolvers| && Rejects(w.resolvers[j], req.kind, plan.creds, plan.row.settings);
  }

  /** Any other failure leaves rows and clients as they were. */
  lemma OtherFailuresChangeNothing(w: World, key: Option<int>, req: Request, f: Faults)
    requires Upsert(w, key, req, f).1.Err? && !Rejected(w, key, req, f)
    ensures Upsert(w, key, req, f).0 == w
  {
  }

  /** A write never touches another kind's row or client. */
  lemma OtherKindsAreUntouched(w: World, key: Option<int>, req: Request, f: Faults, kind: string, i: nat)
    requires kind != req.kind && i < |w.resolvers|
    ensures var after := Upsert(w, key, req, f).0;
      && RowOf(after.rows, kind) == RowOf(w.rows, kind)
      && (w.resolvers[i].kind == kind ==> after.resolvers[i] == w.resolvers[i])
  {
  }

  /** A resolver uses what it would after a restart. */
  predicate Agrees(rows: Rows, key: Option<int>, r: ResolverState) {
    r.current == StartupClient(rows, key, r.kind, r.fallback)
  }

  predicate AllAgree(w: World, key: Option<int>) {
    forall i | 0 <= i < |w.resolvers| :: Agrees(w.rows, key, w.resolvers[i])
  }

  predicate FallbacksAreStatic(w: World) {
    forall i | 0 <= i < |w.resolvers| :: !w.resolvers[i].fallback.Built?
  }

  /** The stored row of a kind configures a client of its own. */
  predicate Configured(rows: Rows, key: Option<int>, kind: string) {
    var creds := Decrypted(RowOf(rows, kind), key);
    creds.Ok? && Build(kind, creds.value, RowOf(rows, kind).settings).Some?
  }

  lemma BuildNeedsCredentials(kind: string, creds: Pairs, settings: Pairs)
    requires Build(kind, creds, settings).Some?
    ensures |creds| > 0
  {
    assert creds != map[];
  }

  /** Exactly when a write leaves rows and clients in agreement: unless it was rejected, rolled back,
      and the row it rolled back to configures a client. */
  lemma WriteKeepsAgreementExactly(w: World, key: Option<int>, req: Request, f: Faults)
    requires AllAgree(w, key) && FallbacksAreStatic(w)
    ensures AllAgree(Upsert(w, key, req, f).0, key)
       <==> !(Rejected(w, key, req, f) && !f.rollback && Configured(w.rows, key, req.kind))
  {
    var after := Upsert(w, key, req, f).0;
    forall i | 0 <= i < |w.resolvers|
      ensures Agrees(after.rows, key, after.resolvers[i])
         <==> !(w.resolvers[i].kind == req.kind && Rejected(w, key, req, f) && !f.rollback && Configured(w.rows, key, req.kind))
    {
      ResolverAgreesExactly(w, key, req, f, i);
    }
    if Rejected(w, key, req, f) {
      var plan := PlanFor(w.rows, key, req, f).value;
      var j :| 0 <= j < |w.resolvers| && Rejects(w.resolvers[j], req.kind, plan.creds, plan.row.settings);
    }
  }

  lemma StartupClientIs(rows: Rows, key: Option<int>, kind: string, fallback: Client)
    ensures var row := RowOf(rows, kind);
      StartupClient(rows, key, kind, fallback)
      == if Configured(rows, key, kind) then Build(kind, Decrypted(row, key).value, row.settings).value else fallback
  {
    if Configured(rows, key, kind) {
      var row := RowOf(rows, kind);
      BuildNeedsCredentials(kind, Decrypted(row, key).value, row.settings);
    }
  }

  lemma PlannedRowIsReadable(rows: Rows, key: Option<int>, req: Request, f: Faults)
    requires PlanFor(rows, key, req, f).Ok?
    ensures Decrypted(PlanFor(rows, key, req, f).value.row, key) == Ok(PlanFor(rows, key, req, f).value.creds)
  {
  }

  lemma RejectedAgreesExactly(w: World, key: Option<int>, req: Request, f: Faults, i: nat)
    requires Rejected(w, key, req, f) && i < |w.resolvers| && w.resolvers[i].kind == req.kind
    requires !w.resolvers[i].fallback.Built?
    ensures var after := Upsert(w, key, req, f).0;
      Agrees(after.rows, key, after.resolvers[i]) <==> f.rollback || !Configured(w.rows, key, req.kind)
  {
    RejectionRestoresTheRowOnly(w, key, req, f, i);
    var after := Upsert(w, key, req, f).0;
    StartupClientIs(after.rows, key, req.kind, w.resolvers[i].fallback);
    if f.rollback {
      PlannedRowIsReadable(w.rows, key, req, f);
    } else {
      assert RowOf(after.rows, req.kind) == RowOf(w.rows, req.kind);
    }
  }

  /** A later successful write of the same kind mends the disagreement. */
  lemma SuccessRestoresAgreement(w: World, key: Option<int>, req: Request, f: Faults, i: nat)
    requires Upsert(w, key, req, f).1.Ok? && i < |w.resolvers| && w.resolvers[i].kind == req.kind
    ensures var after := Upsert(w, key, req, f).0;
      Agrees(after.rows, key, after.resolvers[i])
  {
    SuccessUsesWhatIsStored(w, key, req, f, i);
    var row := Upsert(w, key, req, f).0.rows[req.kind];
    BuildNeedsCredentials(req.kind, Decrypted(row, key).value, row.settings);
  }

  lemma ResolverAgreesExactly(w: World, key: Option<int>, req: Request, f: Faults, i: nat)
    requires AllAgree(w, key) && FallbacksAreStatic(w) && i < |w.resolvers|
    ensures var after := Upsert(w, key, req, f).0;
      Agrees(after.rows, key, after.resolvers[i])
      <==> !(w.resolvers[i].kind == req.kind && Rejected(w, key, req, f) && !f.rollback && Configured(w.rows, key, req.kind))
  {
    var r := w.resolvers[i];
    assert Agrees(w.rows, key, r);
    if r.kind != req.kind {
      OtherKindsAreUntouched(w, key, req, f, r.kind, i);
    } else if Rejected(w, key, req, f) {
      RejectedAgreesExactly(w, key, req, f, i);
    } else if Upsert(w, key, req, f).1.Ok? {
      SuccessRestoresAgreement(w, key, req, f, i);
    } else {
      OtherFailuresChangeNothing(w, key, req, f);
    }
  }

  /** A blank token for a working Jira configuration: rejected, rolled back, and from then on the stored
      row configures a client while the server uses its fallback. */
  lemma BlankTokenLeavesTheFallback()
    ensures var row := Row(Some(Sealed(map["api_token" := "t"], 1)), map["cloud_id" := "c"]);
      var w := World(map["jira" := row], [ResolverState("jira", NoClient, Built("jira", "t", "c", ""))]);
      var req := Request("jira", map["api_token" := ""], map[]);
      var after := Upsert(w, Some(1), req, Faults(false, false, false, false)).0;
      && AllAgree(w, Some(1))
      && after.rows == w.rows
      && after.resolvers[0].current == NoClient
      && !AllAgree(after, Some(1))
  {
    var row := Row(Some(Sealed(map["api_token" := "t"], 1)), map["cloud_id" := "c"]);
    var w := World(map["jira" := row], [ResolverState("jira", NoClient, Built("jira", "t", "c", ""))]);
    var req := Request("jira", map["api_token" := ""], map[]);
    var f := Faults(false, false, false, false);
    assert Configured(w.rows, Some(1), "jira");
    BuildNeedsCredentials("jira", row.sealed.value.plain, row.settings);
    assert AllAgree(w, Some(1));
    assert req.creds.Keys <= CredentialKeys("jira");
    assert Rejects(w.resolvers[0], "jira", req.creds, row.settings);
    RejectionRestoresTheRowOnly(w, Some(1), req, f, 0);
    WriteKeepsAgreementExactly(w, Some(1), req, f);
  }

  /** What holds at startup: every resolver uses what its row configures, or its static fallback. */
  predicate Coherent(w: World, key: Option<int>) {
    AllAgree(w, key) && FallbacksAreStatic(w)
  }

  /** The write whose rejection undoes a working configuration. */
  predicate Breaks(w: World, key: Option<int>, write: (Request, Faults)) {
    Rejected(w, key, write.0, write.1) && !write.1.rollback && Configured(w.rows, key, write.0.kind)
  }

  function After(w: World, key: Option<int>, write: (Request, Faults)): World {
    Upsert(w, key, write.0, write.1).0
  }

  lemma HarmlessWriteKeepsCoherence(w: World, key: Option<int>, write: (Request, Faults))
    requires Coherent(w, key) && !Breaks(w, key, write)
    ensures Coherent(After(w, key, write), key)
  {
    WriteKeepsAgreementExactly(w, key, write.0, write.1);
  }

  /** A run of writes. */
  function Writes(w: World, key: Option<int>, writes: seq<(Request, Faults)>): World {
    if writes == [] then w else After(Writes(w, key, writes[..|writes| - 1]), key, writes[|writes| - 1])
  }

  predicate Harmless(w: World, key: Option<int>, writes: seq<(Request, Faults)>) {
    writes != [] ==>
      && Harmless(w, key, writes[..|writes| - 1])
      && !Breaks(Writes(w, key, writes[..|writes| - 1]), key, writes[|writes| - 1])
  }

  /** From startup on, rows and clients agree for as long as no rejected write is rolled back to a
      working configuration. */
  lemma {:induction false} AgreementUntilARejection(w: World, key: Option<int>, writes: seq<(Request, Faults)>)
    requires Coherent(w, key) && Harmless(w, key, writes)
    ensures Coherent(Writes(w, key, writes), key)
  {
    if writes != [] {
      var before := Writes(w, key, writes[..|writes| - 1]);
      assert Coherent(before, key) by {
        AgreementUntilARejection(w, key, writes[..|writes| - 1]);
      }
      var last := writes[|writes| - 1];
      assert !Breaks(before, key, last);
      HarmlessWriteKeepsCoherence(before, key, last);
    }
  }
}
