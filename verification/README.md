# Sevitout, modelled and proved

Sevitout is an incident-management server. This project models, in Dafny, the parts of it whose
correctness depends on more than one function, and proves what they guarantee over all inputs, all
runs or all interleavings. `dafny verify dfyconfig.toml` checks everything.

| file | what it models |
|---|---|
| `Wrappers.dfy`, `Clock.dfy`, `Sev.dfy` | optional values and errors, Go's saturating and truncating time arithmetic, the incident record and the visibility rule |
| `Metrics.dfy` | the five derived durations and the updater that never clears one |
| `Sla.dfy`, `SlaLookup.dfy` | SLA targets, their reduction across services, live evaluation, and the lookups that feed it |
| `Severity.dfy` | how the badge of a record can change over a run of the handlers |
| `Scanner.dfy` | the SLA risk scanner and its notify-once marker |
| `Report.dfy` | per-service, per-level report metrics and frequencies |
| `Ordering.dfy`, `SevStore.dfy` | strict orders, in-place sorting, the SEV store as filter, order and page |
| `Search.dfy`, `Listing.dfy` | the merge path of the search, and the listing under the visibility rule |
| `Unlock.dfy`, `Lifecycle.dfy`, `LifecycleRuns.dfy` | unlock tokens, the lifecycle handlers as steps that may fail anywhere, and what every run of them keeps |
| `Outcomes.dfy` | what one call of a lifecycle handler answers and leaves behind, column by column |
| `Records.dfy` | what a stored record holds in terms of the last write that made it |
| `Slack.dfy`, `Words.dfy`, `ChannelName.dfy` | the Slack bot's opener/channel rendezvous and the naming of incident channels |
| `Stream.dfy`, `RateLimiter.dfy` | the AI streaming pipeline and the fixed-window rate limiter |
| `Integration.dfy` | writing an integration's configuration, refreshing the clients, undoing the write |
| `DueDate.dfy` | back-filling the due dates of tasks under concurrency |

Code that changes state is a class or a method with the same branches, proved equal to a function of
the old state; the properties are lemmas about those functions. What each operation comes to is also
stated without them, on the request, the rows and the answer alone. Concurrency (`Slack`, `Stream`,
`DueDate`) is a machine of atomic steps in which a step that is not enabled changes nothing, so every
sequence of actions is an interleaving. A failing store or remote call is a parameter of the step.

## What the proofs brought to light

Places where the code does less, or other, than its documentation says or its callers may expect, with
the lemma that gives a witness or the exact condition.

- `internal/store/models.go:204-214` says an at-risk SLA cannot un-happen while targets and services stay
  as they are. It can in two ways. A final timestamp within the target clears it, if it is reported for a
  moment before the last evaluation (`Sla.BackdatedFinalTimestampClearsRisk`). And so does moving the
  baseline: UpdateSEV may rewrite the start, TransitionStatus the resolution that completion is measured
  from, and no final timestamp is needed (`Severity.MovingTheStartClearsRisk`). With the targets as they
  are, a metric of a record gets better over a run exactly in one of these ways, or when a late final value
  is rewritten into the target (`Severity.MetricOverRuns`); `Severity.BadgeOverRuns` gives the exact
  condition for the badge.
- Durations saturate after 292 years, and beyond that MTTM need not be MTTD + DTTM to within a second
  (`MetricsModel.SaturationBreaksTheSum`). It still is for exactly the timestamps that
  `Clock.SplitKeepsSeconds` describes.
- Postgres keeps timestamps to the microsecond, metrics are computed from nanoseconds before the write, so
  the two can be a second apart, never more (`Records.PostgresKeepsTimestampsOffTheirMetric`). They agree
  exactly when what is cut off the timestamps of a record's last write shows in none of the five differences
  (`Records.StoredMetricsAreExactly`), as after any write that carries whole microseconds or no timestamp
  (`Records.MetricsAreExactAfterAlignedWrite`). A change of the title alone can therefore move a metric by a
  second (`Records.RetitlingMovesTheMetric`).
- `internal/store/postgres/sev.go:471-490` orders the default listing by creation time alone, although
  `internal/store/sort.go` breaks ties by ID and says the two match; ListSEVs never asks for another order.
  Two SEVs created at the same microsecond can therefore trade places between two calls, and a client that
  walks the pages can see one of them twice and the other not at all (`SevStore.TiedRowsCanRepeat`). Walking
  the pages is reliable exactly when no two of the SEVs shown share a creation time
  (`SevListing.PagesAreReliableExactly`).
- The scanner lists without a limit, and the Postgres store then answers 100 rows: it covers all the SEVs
  it is meant for exactly when there are at most 100 (`Scanner.ScanCoverage`).
- The opener of a SEV is invited twice when its own handler invites it and it also is a role holder or the
  creator (`Slack.OpenerIsInvited`, `Slack.RoleHolderOpenerIsInvitedTwice`).
- A channel name is trimmed before it is cut, so a cut name can end with a hyphen, although the
  function's comment says it is trimmed (`ChannelName.TruncationCanLeaveAHyphen`).
- A rejected configuration write restores the row, but the resolver is on its static fallback already.
  The comment above the rollback says the two never end up disagreeing
  (`Integration.WriteKeepsAgreementExactly`, `Integration.BlankTokenLeavesTheFallback`).
- Postgres keeps a due date as a DATE, while the call that back-fills or sets it answers the instant
  (`DueDate.BackfillAnswersMoreThanItStores`).
- CreateSEV reports a failure to create the postmortem document although the SEV exists by then
  (`Lifecycle.FailedCreationLeavesTheSev`).

## Model

| member | source | states |
|---|---|---|
| Clock.TruncDiv | internal/sev/metrics.go:11-32 | Go's integer division: the quotient, bounded from both sides, is rounded toward zero for negative dividends too |
| Clock.SecondsMonotone | internal/sev/sla.go:121-139 | a later end never gives fewer elapsed seconds, saturation and truncation included |
| Clock.SecondsExact | internal/sev/metrics.go:11-32 | the elapsed seconds are the true truncated difference if and only if a Duration can hold it |
| Clock.SecondsSplit | internal/sev/metrics.go:11-32 | for three instants in any order, the seconds of an interval and of its two parts agree to within one if and only if the gaps meet the stated condition, case by case of what saturates |
| Clock.Kept | internal/store/postgres/task.go:185-202 | what a store keeps is less than its grain earlier, and unchanged exactly on the grain |
| Clock.KeptSecondsExactly | internal/store/postgres/sev.go:339-352 | cutting both ends down to the microsecond leaves the elapsed seconds as they are if and only if the difference of the cuts neither takes the last whole second nor adds one |
| SevModel.SensitiveSevVisible | internal/api/grpc/visibility.go:33-45 | the answer is the visibility rule, and it fails exactly when the access store is asked and fails |
| MetricsModel.RecomputingKeepsConsistency | internal/sev/metrics.go:11-32 | if no timestamp is erased, recomputing makes every metric absent exactly when a timestamp is and their difference otherwise, whatever the metrics were |
| MetricsModel.OnlyErasureLeavesAStaleMetric | internal/sev/metrics.go:11-32 | the updater, which never clears a metric, keeps them consistent if and only if no metric loses an input |
| MetricsModel.MitigateIsDetectPlusDetectToMitigate | internal/sev/metrics.go:11-32 | for all timestamps in any order, MTTM differs from MTTD + DTTM by at most a second if and only if they are not too far apart |
| MetricsModel.SaturationBreaksTheSum | internal/sev/metrics.go:11-32 | a record on which the three are equal instead |
| MetricsModel.KeptConsistentExactly | internal/store/postgres/sev.go:339-352 | the metrics of some timestamps are also those of what the store keeps of them if and only if the cuts show in none of the five differences |
| MetricsModel.RecordedIsNearlyConsistent | internal/store/postgres/sev.go:339-352 | and in any case they are absent exactly when a kept timestamp is, and within a second of their difference |
| MetricsModel.SevRecord.ComputeMetrics | internal/sev/metrics.go:11-32 | in place, the five metrics become what recomputation from the timestamps gives, and nothing else changes |
| Sla.MostStrictSLA | internal/sev/sla.go:59-68 | each target is absent exactly when every row lacks it, and otherwise is one of the rows' and no larger than any of them |
| Sla.EvaluateSLA | internal/sev/sla.go:96-114 | the four metric statuses, and an overall that is one of them and at least as bad as each |
| Sla.StricterIsWorse | internal/sev/sla.go:72-139 | tightening one more row into the targets gives the worse of the two statuses |
| Sla.StrictestIsWorstOfEach | internal/sev/sla.go:59-139 | evaluating against the strictest targets is the worst status obtained from each row alone |
| Sla.SameRowsSameOverall | internal/sev/sla.go:59-139 | only the set of rows matters, not their order or repetition |
| Sla.SeverityNeverDecreases | internal/sev/sla.go:116-139 | with baseline and target fixed, over any run in which the clock does not go back, no final timestamp is rewritten and each lands no earlier than the last evaluation, a metric's severity never decreases |
| Sla.SeverityDropsExactly | internal/sev/sla.go:121-139 | of two evaluations against one target, each with a baseline of its own, the second is less severe if and only if a metric ended late and does not any more, ran late and neither ended nor runs late, or lost its baseline |
| Sla.SeverityDropsOnFixedBaseline | internal/sev/sla.go:121-139 | with one baseline that takes a late final timestamp rewritten or erased, or one within the target for a metric at risk |
| Sla.LandingDecides | internal/sev/sla.go:121-139 | at-risk can only become breached when the final timestamp lands, no earlier than the last evaluation |
| Sla.BackdatedFinalTimestampClearsRisk | internal/sev/sla.go:121-139 | a final timestamp before the last evaluation takes at-risk back to on track |
| Sla.MovedBaselineClearsRisk | internal/sev/sla.go:121-139 | and so does a baseline moved later, with no final timestamp |
| SlaLookup.AnyListingGivesTheBadge | internal/api/grpc/sev.go:841-855 | any answer a store may give for a SEV's services leads to the same status |
| SlaLookup.BadgeIsWorstBucket | internal/api/grpc/report.go:262-275 | a SEV's badge is the worst of the buckets it is counted in, service by service |
| SlaLookup.ServiceSlaStore.ListForServices | internal/store/store.go:135-138 | the rows of the services at the level, each at least once and nothing else |
| SlaLookup.ServiceSlaStore.LiveEvaluation | internal/api/grpc/sev.go:841-855 | none without services or when the lookup fails, otherwise an evaluation whose overall is the badge |
| Severity.ConsistentRowsAreObserved | internal/sev/sla.go:96-114 | evaluating a row whose metrics are those of its timestamps is observing each metric from baseline to final timestamp |
| Severity.MetricImprovesExactly | internal/sev/sla.go:121-139 | for any two rows, a metric is less severe in the second if and only if it is no longer late, no longer running late and not late, or no longer measured |
| Severity.BadgeSays | internal/sev/sla.go:96-139 | breached if and only if a metric is late, otherwise at risk if and only if one is running late, otherwise on track if and only if one is measured |
| Severity.BadgeImprovesExactly | internal/sev/sla.go:96-139 | for any two rows, the exact condition under which the second has the better badge |
| Severity.MetricOverRuns | internal/api/grpc/sev.go:384-484 | over every run, a metric of a record gets better if and only if a late final value was rewritten into the target, it was at risk and ended in time, or it was at risk and its baseline moved later |
| Severity.BadgeOverRuns | internal/api/grpc/sev.go:841-855 | over every run, between two evaluations with the same level and services, the badge gets better if and only if a metric was late and none is, or one was running late and none is late or running late |
| Severity.BadgeImprovesByAChange | internal/api/grpc/sev.go:384-484 | a badge that got better owes it to such a change of the metric that made it |
| Severity.BadgeNeverImproves | internal/store/models.go:204-214 | over every run, for a record whose metrics are those of its timestamps, none of these rewritten and none landing before the last evaluation, the badge never gets better |
| Severity.MovingTheStartClearsRisk | internal/api/grpc/sev.go:384-484 | a run in which moving the start takes the badge from at risk to on track |
| Scanner.MarkerIsWorstWritten | cmd/server/main.go:972-992 | over any run of evaluations the marker is the worst of the levels breached and at risk that some evaluation found and whose marker write went through |
| Scanner.SentAsCalledFor | cmd/server/main.go:972-992 | a run sends, in order, one notification for each breach that no earlier write recorded and for each risk with neither level recorded, and nothing else |
| Scanner.BreachIsNotified | cmd/server/main.go:980-981 | a breach is notified if and only if some evaluation found one |
| Scanner.RiskIsNotified | cmd/server/main.go:982-983 | a risk is notified if and only if some evaluation found one with no earlier at-risk or breached evaluation whose marker write went through |
| Scanner.MarkerOnlyRises | cmd/server/main.go:972-992 | over any run of evaluations the marker only moves up: none, at risk, breached |
| Scanner.NotificationsBounded | cmd/server/main.go:972-992 | at most two more notifications than failed marker writes |
| Scanner.NotifiedOncePerLevel | cmd/server/main.go:972-992 | without failed writes each level is notified at most once, at-risk never after breached, and the marker is the last level sent |
| Scanner.FailedWriteRepeats | cmd/server/main.go:972-992 | one failed write is enough to notify a level twice |
| Scanner.ScanIsOneEvaluation | cmd/server/main.go:924-992 | a scan is one evaluation of every SEV it reaches and nothing to the others |
| Scanner.ScanOutcomes | cmd/server/main.go:924-992 | every SEV a scan evaluates gains one notification if its badge is breached and its marker is not, or at risk with no marker, and is then marked and stamped unless the write failed; no other SEV changes |
| Scanner.ScannedMeans | cmd/server/main.go:930-948 | a scan evaluates the candidates whose level is not one whose SLA lookup failed |
| Scanner.ScanSees | cmd/server/main.go:912-915 | the candidates are exactly the SEVs that are neither sensitive nor past their postmortem |
| Scanner.RunsAreEvaluations | cmd/server/main.go:911-992 | over any run of scans and edits a SEV's marker and notifications are those of the evaluations of that SEV |
| Scanner.RunsNotifyOncePerLevel | cmd/server/main.go:911-992 | the bounds on notifications over any run of scans from an empty store |
| Scanner.ScanCoverage | cmd/server/main.go:911-923 | whichever candidates the store answers, a scan covers every SEV it is meant for if and only if there are at most 100 |
| Scanner.SlaScanner.ScanSLARisk | cmd/server/main.go:911-963 | whichever candidates the store answers and whatever the order of the levels, each candidate whose level's lookup succeeded is evaluated once, with the status of the single lookup, and is notified and marked as that status calls for; all others are left alone |
| Scanner.SlaScanner.ScanGroup | cmd/server/main.go:930-962 | one level's batch evaluates exactly its own candidates, or nothing if its lookup fails |
| Scanner.SlaScanner.NotifySLAStatus | cmd/server/main.go:972-992 | a breach not yet on the marker sends one breached notification, a risk with no marker one at-risk notification, anything else none; the marker and the modification time are written only if the write goes through |
| Report.BucketsPartition | internal/api/grpc/report.go:231-277 | the four status buckets of a group add up to its mentions |
| Report.ReportConservesCounts | internal/api/grpc/report.go:231-317 | the counts of all rows add up to the affected services of all records, and within a row the buckets to its count |
| Report.ReportRowsAreTheGroups | internal/api/grpc/report.go:279-290 | rows are strictly increasing by service and level, and exactly the mentioned groups have one |
| Report.ReportsAgree | internal/api/grpc/report.go:231-426 | the metrics report and the frequency report agree group by group |
| Report.RowAverageWithin | internal/api/grpc/report.go:303-311 | each average of a report row lies between the smallest and the largest contributing value, negative ones included, and is zero without any |
| Report.RowComplianceIsAProportion | internal/api/grpc/report.go:312-314 | the compliance of a report row is the on-track share of what was measured, in [0, 1], and 1 exactly when something was measured and all of it is on track |
| Report.RowCountsItsGroup | internal/api/grpc/report.go:231-314 | for every row on track, at risk, breached and not applicable are the numbers of the group's mentions with that status, count is their sum, and compliance the share on track of those measured |
| Report.RowAveragesItsGroup | internal/api/grpc/report.go:231-311 | for every row the averages are the sums of MTTD, MTTM and MTTR over the group's records that have them, divided by their number and rounded toward zero |
| Report.ReportNeedsOnlyMentioned | internal/api/grpc/report.go:188-219 | a lookup that agrees with the SLA table on the mentioned groups gives the same report |
| Report.ServiceLevelMetrics | internal/api/grpc/report.go:231-317 | the accumulating loops, key collection and sort compute that report, and every row counts and averages its group as above |
| Report.FrequencyByServiceAndLevel | internal/api/grpc/report.go:395-426 | the counting loops, key collection and sort compute the frequency report |
| Report.ReportServer.BuildSLALookup | internal/api/grpc/report.go:188-219 | one listing per level; fails if and only if a mentioned level's listing fails, otherwise agrees with the table on every mentioned group |
| Report.ReportServer.SlaSection | internal/api/grpc/report.go:141-167 | lookup and metrics together are the report over the whole SLA table |
| Ordering.IncreasingIsUnique | internal/store/sort.go:14-41 | two increasing listings of the same elements are equal, so the result does not depend on the sort algorithm |
| Ordering.SortInPlace | internal/store/sort.go:14-41 | in place: increasing, and a permutation |
| SevStore.SortsBeforeIsLexicographic | internal/store/sort.go:14-69 | the multi-branch comparator amounts to: rows that have the key first, then the key in the asked direction, then the ID; the order the Postgres clause spells out |
| SevStore.SortsBeforeMeans | internal/store/sort.go:14-69 | column by column: newest first by default, otherwise the asked column in the asked direction with rows that lack it last either way, and the ID upward between equals |
| SevStore.SortsBeforeIsStrictTotal | internal/store/sort.go:14-69 | for every field and direction a strict order that tells any two IDs apart |
| SevStore.SortSEVs | internal/store/sort.go:14-41 | in place, the one sorted listing of the rows |
| SevStore.PageOf | internal/api/grpc/search.go:184-194 | slicing past the offset and cutting at the limit is the requested page |
| SevStore.PageMeans | internal/api/grpc/search.go:184-194 | a page is the stretch of the list from the offset on, as long as asked or 100, or shorter where the list ends |
| SevStore.SevStore.List | internal/store/postgres/sev.go:177-207 | a page, 100 rows when no size is asked for, of the matching rows in an order the query allows; ties of the default order are left open |
| SevStore.OneLegalOrder | internal/store/postgres/sev.go:471-490 | where the query settles the order, by an explicit field or without ties, the only answer is that of SortSEVs |
| SevStore.TiedRowsEitherWay | internal/store/postgres/sev.go:471-490 | two rows of one creation time can be answered in either order, all others in place |
| SevStore.TiedRowsCanRepeat | internal/store/postgres/sev.go:471-490 | two consecutive pages that show one of two rows twice |
| SevStore.SevStore.Count | internal/store/memory/sev.go:121-131 | the number of matching rows |
| SevStore.SevStore.UpdateSLANotifiedStatus | internal/store/postgres/sev.go:257-281 | only the marker and the modification time of that row change |
| Search.IntersectIDs | internal/api/grpc/search.go:242-271 | no constraint if and only if every set is nil; otherwise exactly the IDs in every set that is not |
| Search.MergeSEVsByID | internal/api/grpc/search.go:273-289 | every row of either list, one per ID |
| Search.FetchesCoverTheQuery | internal/api/grpc/search.go:209-237 | what the two fetches find between them is what the one query asks for |
| Search.HalvesOfThePlan | internal/api/grpc/search.go:209-237 | each fetch is one half of the query, whatever the order and number of the role constraints |
| Search.SearchServer.SearchWithAnnouncements | internal/api/grpc/search.go:209-237 | refused if and only if a fetch reaches the cap, otherwise all rows of either fetch, once each and in the order of SortSEVs, however the store settled ties |
| Search.SearchServer.SearchSEVs | internal/api/grpc/search.go:50-201 | on request and rows alone: an invalid argument, a missing caller, an internal error or too many matches in exactly the stated cases; otherwise a page, in the order the sort value names, and the exact number of the rows that are not sensitive, meet every field of the request or the quick view's statuses, are in every requested role set and match the text themselves or in an announcement |
| Search.WantedIsSought | internal/api/grpc/search.go:50-107 | the filter, role sets and announcements the handler gathers select exactly the rows the request spells out; sensitive rows are never among them |
| Search.HalvesAreSought | internal/api/grpc/search.go:209-237 | the two fetches whose size decides on a refusal are the rows sought by text and by announcement |
| Search.SearchAnswersOnePage | internal/api/grpc/search.go:109-201 | where the query settles the order both paths answer the same page of the same sorted list |
| SevListing.ListAgreesWithGet | internal/api/grpc/sev.go:648-677 | the listing and GetSEV show every caller the same rows; the exact condition, on the caller having an ID, is one every caller meets |
| SevListing.ShownMayRead | internal/api/grpc/visibility.go:33-45 | the rows listed are those not sensitive, granted to the caller, or read by an admin or incident commander |
| SevListing.PagesCoverTheList | internal/api/grpc/sev.go:581-639 | consecutive pages concatenate to the list |
| SevListing.FilteredIsLegal | internal/api/grpc/sev.go:648-677 | what a listing keeps of an order the store may answer is an order the query allows of the rows kept |
| SevListing.PagesAreReliableExactly | internal/api/grpc/sev.go:581-639 | pages of any size, each drawn from any answer the store may give, concatenate without gap or repeat to the rows shown, for all stores and callers, if and only if the query settles the order of those rows |
| SevListing.TiedPagesRepeat | internal/api/grpc/sev.go:616-639 | for any tie among the rows shown, pages of one row that show a row twice |
| SevListing.WalkingThePages | internal/api/grpc/sev.go:616-676 | where the query settles the order, consecutive pages are together the sorted list of the matching SEVs GetSEV would show, as many as the total |
| SevListing.SevReader.GetSEV | internal/api/grpc/sev.go:352-371 | absent and invisible rows are answered alike; the answer for every failure |
| SevListing.SevReader.VisibleSEVsForNonPrivileged | internal/api/grpc/sev.go:648-677 | all visible rows, in the order the store answered, refused exactly when the unfiltered fetch reaches the cap |
| SevListing.SevReader.ListSEVs | internal/api/grpc/sev.go:581-639 | a page, in an order the query allows, of the matching rows the caller may read, and their number; privileged callers see all; exactly when it fails and how |
| UnlockTokens.Validate | internal/postmortem/unlock.go:56-80 | accepts exactly the signed, unexpired, unlock-scoped tokens of that SEV |
| UnlockTokens.SignedTokenOpensItsSev | internal/postmortem/unlock.go:41-80 | a token opens its own SEV, from signing until less than fifteen minutes later, and no other |
| Lifecycle.Admit | internal/api/grpc/sev.go:486-510 | whoever gets a locked record carried a valid token for it |
| Lifecycle.ApplySEVUpdate | internal/api/grpc/sev.go:384-484 | in place: empty or absent fields keep the stored value, an unacceptable one refuses the request, and the two results report a new root cause category and a flip to sensitive |
| Lifecycle.ApplyTransitionTimestamps | internal/api/grpc/sev.go:685-707 | in place, column by column: mitigated, resolved and completed are the request's value when given and otherwise the old one, completion becomes now exactly when entering postmortem-complete without any, started and detected stay, and the lock is as the target status demands |
| Lifecycle.AppendEntry | internal/api/grpc/sev.go:751-783 | an edge out of the present status keeps the history in order whether or not the record update follows |
| Lifecycle.FailedCreationLeavesTheSev | internal/api/grpc/sev.go:254-350 | a creation answered with an error leaves the SEV behind if and only if the row was written and the postmortem document was not |
| Lifecycle.CreateKeepsInv | internal/api/grpc/sev.go:254-350 | creation keeps the invariant |
| Lifecycle.UpdateKeepsInv | internal/api/grpc/sev.go:486-567 | an update keeps the invariant and the status |
| Lifecycle.TransitionKeepsInv | internal/api/grpc/sev.go:709-811 | a transition keeps the invariant even when the history or the record write fails |
| Lifecycle.StepKeepsInv | internal/api/grpc/sev.go:254-811 | every operation keeps the invariant, whatever fails in it |
| Lifecycle.RunsKeepInv | internal/api/grpc/sev.go:254-811 | in every reachable state lock, metrics and history are in order |
| Outcomes.AdmitsExactly | internal/api/grpc/sev.go:486-510 | an edit passes the checks if and only if the record is there, shown to the caller and unlocked or opened by a valid token, and otherwise is refused with the stated error |
| Outcomes.TransitionsAreTheEdges | internal/sev/statemachine.go:14-51 | the status graph has exactly these nine edges |
| Outcomes.TransitionOutcomes | internal/api/grpc/sev.go:685-811 | exactly when a transition succeeds and every column it leaves: the requested status, mitigated, resolved and completed from the request or as before, completion defaulted to now only when it completes the postmortem without one, the lock, the five metrics, all else as before; one history entry; what each failure answers and leaves |
| Outcomes.UpdateOutcomes | internal/api/grpc/sev.go:384-567 | exactly when an update succeeds and every column it leaves, the request's where it has a value and otherwise as before; the reporter is granted access exactly when the SEV becomes sensitive |
| Outcomes.CreationOutcomes | internal/api/grpc/sev.go:202-350 | exactly when a creation succeeds and every column of the new SEV, its creator's access and its draft postmortem; what each failure leaves |
| Outcomes.RootCauseChangesExactly | internal/api/grpc/sev.go:397-402 | an update reports a new root cause exactly when it gives one that is not the one on record |
| Outcomes.TextOutcomes | internal/api/grpc/postmortem.go:84-140 | exactly when an edit of the postmortem succeeds; its text becomes the given one and nothing else changes |
| Outcomes.UnlockOutcomes | internal/api/grpc/postmortem.go:211-251 | a token is signed exactly for an existing SEV that is locked now, with a reason given; it is an unlock token of that SEV, good for fifteen minutes less what rounding to the second takes |
| Outcomes.UnlockLetsEdit | internal/api/grpc/postmortem.go:97-101 | after an unlock whoever sees the locked SEV may edit it with the token until a second short of fifteen minutes later |
| Outcomes.ActionsHaveTheirOutcomes | internal/api/grpc/sev.go:254-811 | every action of the runs below has the outcome its call has |
| LifecycleRuns.ReachableRecord | internal/api/grpc/sev.go:699-706 | locked if and only if postmortem-complete, locked implies a completion time, each metric absent exactly when a timestamp is and otherwise within a second of their difference |
| Records.RecordIsLastHanded | internal/api/grpc/sev.go:254-811 | in every reachable state a record is, marker aside, what the store keeps of the row last handed to it, and that row had the metrics of its timestamps |
| Records.StoredMetricsAreExactly | internal/store/postgres/sev.go:339-352 | in every reachable record the metrics are those of the stored timestamps if and only if the cuts of the last write show in none of the five differences |
| Records.MetricsAreExactAfterAlignedWrite | internal/api/grpc/sev.go:517-518 | a record whose last write carried only timestamps the store keeps has exact metrics, whatever happened before or to other records |
| Records.MetricsAreExactInMemory | internal/store/memory/sev.go:28-61 | with a store in memory the metrics are exact in every run |
| Records.PostgresKeepsTimestampsOffTheirMetric | internal/store/postgres/sev.go:339-352 | a creation after which Postgres holds a metric one second off its timestamps |
| Records.RetitlingMovesTheMetric | internal/api/grpc/sev.go:486-567 | and a change of the title that then moves the metric |
| Records.ReachableMetricsAddUp | internal/sev/metrics.go:11-32 | in every reachable record with the metrics, MTTM is MTTD + DTTM to within a second if and only if the timestamps of the last write are not too far apart |
| Records.AlignedMetricsAddUp | internal/sev/metrics.go:11-32 | after an aligned write that condition is one on the stored timestamps |
| Records.RunsEraseNoTimestamp | internal/api/grpc/sev.go:384-707 | over every run a record stays and no timestamp of it is erased |
| LifecycleRuns.CommittedHistoryIsAWalk | internal/sev/statemachine.go:14-51 | the entries that took effect form a walk from open to the present status |
| LifecycleRuns.EveryEntryWasLegalWhenWritten | internal/api/grpc/sev.go:751-783 | every entry was a legal edge out of the status its SEV had when it was written, failed writes included |
| LifecycleRuns.LockedChangesOnlyWithToken | internal/api/grpc/sev.go:814-831 | a locked record or its postmortem text changes only by an edit whose token validates |
| LifecycleRuns.TokensWereIssued | internal/api/grpc/postmortem.go:211-251 | every unlock token comes from an earlier UnlockSEV |
| LifecycleRuns.LockHolds | internal/api/grpc/postmortem.go:97-101 | over every run: a change to a locked SEV carries a token issued for it, while locked, less than fifteen minutes before |
| LifecycleRuns.SevServer.CreateSEV | internal/api/grpc/sev.go:254-350 | record, grant and document are written in this order, and for every combination of failing calls stores and answer are those of the step of `Outcomes.CreationOutcomes` |
| LifecycleRuns.SevServer.UpdateSEV | internal/api/grpc/sev.go:486-567 | editing a private copy in place and writing it back is the update step of `Outcomes.UpdateOutcomes`, for every combination of failing calls |
| LifecycleRuns.SevServer.TransitionStatus | internal/api/grpc/sev.go:709-811 | the history entry goes in before the record, and for every combination of failing calls stores and answer are those of the transition step, whose every column `Outcomes.TransitionOutcomes` states |
| LifecycleRuns.SevServer.EditPostmortem | internal/api/grpc/postmortem.go:84-140 | the checks and the write in place are the step of `Outcomes.TextOutcomes`, for every combination of failing calls |
| LifecycleRuns.SevServer.UnlockSEV | internal/api/grpc/postmortem.go:211-251 | the checks and the signing in place are the step of `Outcomes.UnlockOutcomes`, for every combination of failing calls |
| Slack.DedupeStrings | cmd/slackbot/channel.go:215-226 | the loop computes the de-duplicated list |
| Slack.DedupedKeepsEveryone | cmd/slackbot/channel.go:215-226 | everyone but the empty string, once each |
| Slack.DedupedKeepsOrder | cmd/slackbot/channel.go:215-226 | later candidates never move or drop earlier ones |
| Slack.RunsKeepSevOk | cmd/slackbot/bot.go:115-152 | in every interleaving, for every SEV, channel, waiting opener and calls made are in step with each other |
| Slack.OpenerIsInvited | cmd/slackbot/channel.go:80-110 | in every interleaving with a created channel and both sides finished nobody is left waiting, and the opener is in one invite call, or in two under the stated condition |
| Slack.ExactlyOnceUnlessAlsoResolved | cmd/slackbot/commands.go:183-189 | exactly one invite call if and only if the opener was not both invited directly and found by the listener |
| Slack.OthersAreInvitedExactly | cmd/slackbot/channel.go:89-110 | in every interleaving everybody else is in one invite call if the role holders and the creator resolved to them, and in none otherwise |
| Slack.RoleHolderOpenerIsInvitedTwice | cmd/slackbot/commands.go:183-189 | an interleaving in which an on-call opener is invited twice |
| Slack.ChannelCreatedAtMostOnce | cmd/slackbot/notify.go:83-96 | in every interleaving a SEV gets at most one channel |
| Slack.RepeatedEventChangesNothing | cmd/slackbot/notify.go:90-92 | once the channel exists, another sev.created changes nothing |
| Slack.FailedCreationKeepsTheOpener | cmd/slackbot/channel.go:83-88 | as long as creation failed, the registered opener keeps waiting and was invited nowhere |
| Slack.InvitationsAreIntoTheChannel | cmd/slackbot/channel.go:80-115 | every invitation on account of a SEV is into its one channel |
| Slack.Bot.ChannelOrRegisterOpener | cmd/slackbot/bot.go:132-140 | answers the channel and leaves the maps alone, or records the opener |
| Slack.Bot.TakePendingOpener | cmd/slackbot/bot.go:146-152 | answers the waiting opener and removes it |
| Slack.Bot.SetChannelFor | cmd/slackbot/bot.go:122-126 | records the channel of that SEV only |
| Slack.Bot.CreateIncidentChannel | cmd/slackbot/channel.go:80-115 | undisturbed, the listener's steps in order |
| Slack.Bot.HandleSevCreated | cmd/slackbot/notify.go:83-96 | undisturbed, the event's steps in order, none if a channel exists |
| Slack.Bot.InviteOrRegister | cmd/slackbot/commands.go:171-189 | undisturbed, the opener's steps in order |
| ChannelName.SlugIsJoinedWords | cmd/slackbot/channel.go:33-46 | the chain of rewritings yields the lower-cased words joined with single hyphens |
| ChannelName.NameIsWellFormed | cmd/slackbot/channel.go:33-50 | for all inputs only [a-z0-9_-], at most 80 characters and those the rewritten name begins with, no double and no leading hyphen, a final one if and only if it was cut right after one |
| ChannelName.NormalisingAgain | cmd/slackbot/channel.go:33-50 | normalising a name again is the identity if and only if it does not end with a hyphen |
| ChannelName.DefaultConvention | cmd/slackbot/channel.go:34-41 | the default name is made of ID and title as they are; braces in a title are not placeholders |
| ChannelName.PlaceholdersAreFilled | cmd/slackbot/channel.go:37-41 | the three placeholders become level, ID and title, and text without a brace stays as it is |
| ChannelName.ItoaReadsBack | cmd/slackbot/channel.go:38 | the numeral of a level reads back as the level and has no leading zeros |
| ChannelName.TruncationCanLeaveAHyphen | cmd/slackbot/channel.go:46-49 | a name that ends with a hyphen |
| Words.FieldsOfJoin | internal/ai/provider_anthropic.go:220-227 | splitting joined words gives the words back |
| Stream.ChunkText | internal/ai/provider_anthropic.go:215-238 | the loop sends a prefix of the chunk sequence, all of it unless cancelled |
| Stream.ChunksHoldDozens | internal/ai/provider_anthropic.go:219-228 | the k-th chunk holds the k-th dozen of words |
| Stream.ChunksCoverTheText | internal/ai/provider_anthropic.go:215-238 | ceil(words / 12) chunks before the last, with the words of the text, then the full text |
| Stream.StreamIsSafe | internal/ai/dispatcher.go:305-336 | in every interleaving the consumer saw a prefix; the output is stored at most once, only after the last chunk was received, with the full text |
| Stream.StoredExactly | internal/ai/dispatcher.go:319-328 | in every interleaving the full text is stored if and only if the one write, the first after the consumer took the last chunk, went through |
| Stream.OnlyTheCallerStops | internal/ai/dispatcher.go:308-316 | cancelling and reading are the caller's alone, and once it stopped reading it receives nothing more |
| Stream.ReadStreamFinishes | internal/ai/dispatcher.go:305-336 | from every state with a reading consumer and no cancellation the stream can reach its end, with everything delivered |
| Stream.UncancelledStreamIsComplete | internal/ai/dispatcher.go:305-336 | a stream that ends uncancelled delivered every chunk, tried to store the output once, and has stored the full text unless that write failed |
| Stream.StuckExactlyWhenUncancelled | internal/ai/dispatcher.go:305-336 | the goroutines cannot move without the consumer if and only if both are gone or an uncancelled forwarder holds a chunk |
| Stream.ExitIsReachable | internal/ai/dispatcher.go:308-320 | after cancellation both goroutines can reach their exits without the consumer |
| Stream.EveryMoveLeadsToExit | internal/ai/dispatcher.go:308-320 | after cancellation every run of moves is bounded, and one that cannot be prolonged ends with both gone |
| RateLimiter.Limiter.Allow | internal/ai/ratelimit.go:34-52 | answers and counts as the window function says: no limit, no count; a minute after its start a window is new; otherwise let through and counted exactly while below the limit |
| RateLimiter.Limiter.Evict | internal/ai/ratelimit.go:57-61 | drops that plugin's window only |
| RateLimiter.SpanIsBounded | internal/ai/ratelimit.go:34-52 | any span of length L admits at most (ceil(L / 60 s) + 1) N - 1 requests |
| RateLimiter.MinuteIsBounded | internal/ai/ratelimit.go:34-52 | any minute admits fewer than 2 N |
| RateLimiter.BoundIsAttained | internal/ai/ratelimit.go:34-52 | for every N some run admits 2 N - 1 within a minute |
| RateLimiter.DenialIsJustified | internal/ai/ratelimit.go:47-49 | every denial comes after N admissions within the last minute, even with changing limits and evictions |
| RateLimiter.NoLimitAndNoWindow | internal/ai/ratelimit.go:34-61 | a request without a limit is let through uncounted, and an eviction forgets that plugin's window and no other |
| RateLimiter.PluginsAreIndependent | internal/ai/ratelimit.go:34-61 | leaving out the calls about other plugins changes neither the window nor the answers |
| Integration.Resolver.Apply | cmd/server/jira_issue_resolver.go:42-56 | the client is swapped whether or not the configuration suffices |
| Integration.Resolver.Refresh | cmd/server/jira_issue_resolver.go:64-72 | only the own kind is applied, and falling back is a rejection |
| Integration.Resolver.constructor | cmd/server/integration_credentials.go:29-55 | at startup the client the stored row configures, or the fallback |
| Integration.ConfigServer.UpsertIntegrationConfig | internal/api/grpc/config_integration.go:101-227 | checks, write, refresh loop and rollback are the write function, with the outcome below: same rows, clients and answer |
| Integration.WriteOutcomes | internal/api/grpc/config_integration.go:61-227 | which check stops a write and with what error; otherwise the row merges request and stored row, every resolver of the kind gets the client it configures or its fallback, and it is turned down exactly when some resolver of the kind cannot use it |
| Integration.CatalogMeans | internal/integrations/catalog/catalog.go:70-147 | the kinds, credentials and settings a request may name |
| Integration.BuildMeans | cmd/server/jira_issue_resolver.go:42-56 | a client needs the API key, the token, or the token and the cloud ID, by kind, and is built from exactly those |
| Integration.StartupMeans | cmd/server/integration_credentials.go:29-55 | at startup a resolver uses what its row configures if the key opens it, and its fallback otherwise |
| Integration.SuccessUsesWhatIsStored | internal/api/grpc/config_integration.go:116-214 | on success the owner's client is built from exactly what is stored, and what the request left out is as before |
| Integration.RejectionRestoresTheRowOnly | internal/api/grpc/config_integration.go:203-220 | after a rejection the row is as before, or empty if there was none, and the owner is on its fallback |
| Integration.OtherFailuresChangeNothing | internal/api/grpc/config_integration.go:101-188 | any other failure leaves rows and clients alone |
| Integration.OtherKindsAreUntouched | internal/api/grpc/config_integration.go:101-227 | a write never touches another kind |
| Integration.WriteKeepsAgreementExactly | internal/api/grpc/config_integration.go:190-220 | rows and clients agree after a write unless, and only unless, it was rejected and rolled back to a working configuration |
| Integration.AgreementUntilARejection | internal/api/grpc/config_integration.go:190-220 | agreement holds over every run without such a write |
| Integration.SuccessRestoresAgreement | internal/api/grpc/config_integration.go:203-227 | a later success of the same kind mends it |
| Integration.BlankTokenLeavesTheFallback | cmd/server/jira_issue_resolver.go:42-56 | a write after which the stored row and the client in use disagree |
| DueDate.BackfilledAtMostOnce | internal/api/grpc/task.go:276-303 | in every interleaving a task gets at most one back-fill audit entry, ever |
| DueDate.DueDatesStaySet | internal/store/store.go:72-76 | a due date once set is never unset |
| DueDate.ReturnedDueDatesWerePersisted | internal/api/grpc/task.go:276-339 | every returned due date was persisted to the store's precision, and exactly if and only if the store keeps it as it is |
| DueDate.DueDatesWereAskedFor | internal/api/grpc/task.go:253-355 | in every interleaving a stored or answered due date is, to the store's precision, the one a link or an update gave, or 30 days (critical) or 90 days after the resolution the task was listed with |
| DueDate.ListedTasksHaveDueDates | internal/api/grpc/task.go:276-303 | in every interleaving a listing of a resolved SEV's tasks without a failing call answers a due date for every task still there, whoever set it |
| DueDate.BackfillAnswersMoreThanItStores | internal/api/grpc/task.go:281-292 | a back-fill whose answer differs from what Postgres keeps |
| DueDate.TaskServer.SetDueDateIfUnset | internal/store/memory/task.go:75-89 | atomic: true for the one call that set it, otherwise nothing changes |
| DueDate.TaskServer.ListTasks | internal/api/grpc/task.go:253-304 | undisturbed, the handler is one of the interleavings, ending with the answers it returns, one for each listed task and in that order |
| DueDate.TaskServer.UpdateTaskDueDate | internal/api/grpc/task.go:306-355 | undisturbed, the handler's read and write steps: that task's due date and nothing else is written; fails exactly on an unknown task or a failed write |

## Left out

- Generated stubs, HTTP, WebSocket and gRPC plumbing, logging, metrics export, tickers, environment configuration and the web frontend: no logic of their own.
- Signatures, hashing, encryption and JSON: a token is its claims and cannot be forged, encryption is a round trip under a key, and timestamps in a token keep whole seconds.
- Slack, PagerDuty, GitHub, Jira and Anthropic: calls that may fail; only the attempt is recorded. Slack's user and channel IDs are taken to be non-empty.
- SQL: the Postgres store is modelled by what its queries settle (filter, order up to ties, page of 100 by default, timestamps to the microsecond, DATE columns), and the text search is a parameter.
- The in-memory store's List, which has no default page size and so would show the scanner every SEV.
- Concurrent UpdateSEV and TransitionStatus on one SEV: the code has no version check, so those handlers are atomic in the model.
- Lifecycle.ApplySEVUpdate: the description, the optional text columns and right_people_present are one map, so a column is set or kept as a whole map entry, and an update that sets right_people_present to false is an entry like any other; what the handlers then do with a new root cause (recurrence links), on-call auto-assignment, publishing, AI triggers and audit entries are left out.
- UnlockTokens.Validate: a server without a signer, which refuses every unlock, is not modelled; a running server always has one.
- Lifecycle.RunsKeepInv: records enter only through CreateSEV and are never deleted, as in the handlers; the store's own Update and UpdateLocked are not called on their own.
- Search.SearchServer.SearchSEVs: takes no negative offset on the merge path, where Go's slicing would fail, and takes one store snapshot for both fetches; role lookups that answer nil put no constraint, as in the code.
- SevListing.SevReader.ListSEVs: takes no negative offset from callers without a privileged role, for the same reason.
- Report.ServiceLevelMetrics: the 32-bit counters and 64-bit sums are unbounded; compliance is a real number instead of a float.
- The other sections of the reports (trends, recurrence, CSV) and the cap on fetching all SEVs: single loops of the same shape.
- Scanner.SlaScanner.ScanSLARisk: rendering and delivery of a notification; only that it was handed to the notifier. The escalation scanner has the same notify-once shape.
- Slack.OpenerIsInvited: that an InviteUsers call reaches Slack; a call that fails is a call made. The messages posted and the write-back of the channel ID are left out.
- ChannelName.NormalisingAgain: lower-casing is a parameter that fixes the characters a name is made of; it maps character by character, as Go's does.
- Stream.StreamIsSafe: the output's identifiers and time, and its publication; the text is what is stored.
- RateLimiter.SpanIsBounded: needs a fixed limit, a clock that does not run backwards and no eviction of that plugin; an eviction starts a new window.
- Integration.RejectionRestoresTheRowOnly: the row's timestamps, which Postgres sets itself, and writes that race with one another.
- Integration.Resolver.Refresh: JSON values other than strings in settings; the handler only ever writes strings.
- DueDate.BackfilledAtMostOnce: counts the entries handed to the audit log; appending is best effort, so an entry may be lost but not doubled. Calendar days are 24 hours, as they are in UTC.
- The role table, the enum validators other than those of an update, the postmortem document graph, the append-only stores, the field-by-field conversions: table look-ups and single branches.
