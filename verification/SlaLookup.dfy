/** Where a SEV's targets come from: the per-service SLA rows, looked up for one SEV, for a batch, or
    one service at a time (internal/api/grpc/sev.go, report.go and the ServiceSLAStore). */
module SlaLookup {
  import opened Wrappers
  import opened Clock
  import opened SevModel
  import opened Sla

  /** SLA rows filed under service and severity level. */
  type Table = map<(string, Level), ServiceSla>

  predicate TableOk(table: Table) {
    forall k | k in table :: table[k].service == k.0 && table[k].level == k.1
  }

  /** The rows of some services at one level, one per mention of a service. */
  function RowsFor(table: Table, services: seq<string>, level: Level): (rows: seq<ServiceSla>)
    ensures |rows| <= |services|
  {
    if services == [] then []
    else
      var key := (services[|services| - 1], level);
      RowsFor(table, services[..|services| - 1], level) + (if key in table then [table[key]] else [])
  }

  /** Any answer a store may give: the rows of these services at this level, each at least once, in
      any order. */
  ghost predicate IsListing(table: Table, services: seq<string>, level: Level, rows: seq<ServiceSla>) {
    forall row :: row in rows <==> row.service in services && (row.service, level) in table && table[(row.service, level)] == row
  }

  lemma {:induction false} RowsForIsListing(table: Table, services: seq<string>, level: Level)
    requires TableOk(table)
    ensures IsListing(table, services, level, RowsFor(table, services, level))
  {
    if services != [] {
      var init := services[..|services| - 1];
      RowsForIsListing(table, init, level);
      assert services == init + [services[|services| - 1]];
    }
  }

  /** A SEV's live status: against the strictest targets of all its services at its level. */
  function Badge(table: Table, s: Sev, now: Time): SlaStatus {
    Overall(s, MostStrict(RowsFor(table, s.services, s.level)), now)
  }

  /** What a report counts a SEV as under one of its services: its status against that service's row
      alone, if there is one. */
  function Bucket(table: Table, s: Sev, service: string, now: Time): SlaStatus {
    if (service, s.level) in table then Overall(s, MostStrict([table[(service, s.level)]]), now)
    else Overall(s, MostStrict([]), now)
  }

  function Buckets(table: Table, s: Sev, services: seq<string>, now: Time): seq<SlaStatus> {
    if services == [] then []
    else Buckets(table, s, services[..|services| - 1], now) + [Bucket(table, s, services[|services| - 1], now)]
  }

  /** Any listing of a SEV's rows gives its badge, so the batched and the single lookup cannot differ. */
  lemma AnyListingGivesTheBadge(table: Table, s: Sev, rows: seq<ServiceSla>, now: Time)
    requires TableOk(table) && IsListing(table, s.services, s.level, rows)
    ensures Overall(s, MostStrict(rows), now) == Badge(table, s, now)
  {
    RowsForIsListing(table, s.services, s.level);
    SameRowsSameOverall(s, rows, RowsFor(table, s.services, s.level), now);
  }

  lemma {:induction false} PrefixBadge(table: Table, s: Sev, services: seq<string>, now: Time)
    ensures Overall(s, MostStrict(RowsFor(table, services, s.level)), now) == Worst(Buckets(table, s, services, now))
  {
    if services == [] {
      NoTargetsNotApplicable(s, now);
    } else {
      var init, last := services[..|services| - 1], services[|services| - 1];
      PrefixBadge(table, s, init, now);
      NoTargetsNotApplicable(s, now);
      var bs := Buckets(table, s, init, now);
      assert (bs + [Bucket(table, s, last, now)])[..|bs|] == bs;
      if (last, s.level) in table {
        var row, rows := table[(last, s.level)], RowsFor(table, init, s.level);
        assert (rows + [row])[..|rows|] == rows;
        StricterIsWorse(s, MostStrict(rows), row, now);
        SingleRow(s, row, now);
      } else {
        assert RowsFor(table, services, s.level) == RowsFor(table, init, s.level);
      }
    }
  }

  /** The badge of a SEV is the worst of the buckets it is counted in, service by service. */
  lemma BadgeIsWorstBucket(table: Table, s: Sev, now: Time)
    ensures Badge(table, s, now) == Worst(Buckets(table, s, s.services, now))
  {
    PrefixBadge(table, s, s.services, now);
  }

  class ServiceSlaStore {
    var table: Table

    ghost predicate Valid()
      reads this
    {
      TableOk(table)
    }

    constructor (table: Table)
      requires TableOk(table)
      ensures Valid() && this.table == table
    {
      this.table := table;
    }

    /** ListForServices. */
    method ListForServices(services: seq<string>, level: Level, fails: bool) returns (r: Result<seq<ServiceSla>>)
      requires Valid()
      ensures r.Err? <==> fails
      ensures r.Ok? ==> IsListing(table, services, level, r.value)
    {
      if fails {
        return Err(Internal);
      }
      var out: seq<ServiceSla> := [];
      for i := 0 to |services|
        invariant out == RowsFor(table, services[..i], level)
      {
        assert services[..i + 1][..i] == services[..i];
        if (services[i], level) in table {
          out := out + [table[(services[i], level)]];
        }
      }
      assert services[..|services|] == services;
      RowsForIsListing(table, services, level);
      r := Ok(out);
    }

    /** The evaluation sevToProtoWithSLA attaches to a response: none when the SEV affects no service
        or the lookup fails, otherwise one whose overall status is the badge. */
    method LiveEvaluation(record: Sev, now: Time, fails: bool) returns (eval: Option<Evaluation>)
      requires Valid()
      ensures eval.None? <==> record.services == [] || fails
      ensures eval.Some? ==> eval.value.overall == Badge(table, record, now)
    {
      if |record.services| == 0 {
        return None;
      }
      var rows := ListForServices(record.services, record.level, fails);
      if rows.Err? {
        return None;
      }
      var targets := MostStrictSLA(rows.value);
      var e := EvaluateSLA(record, targets, now);
      AnyListingGivesTheBadge(table, record, rows.value, now);
      eval := Some(e);
    }
  }
}
